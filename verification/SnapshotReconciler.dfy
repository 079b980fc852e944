/** The reconciler's pass over unsettled rows. */
module SnapshotReconciler {
  import opened Wrappers
  import opened SnapshotRows
  import opened SnapshotService

  /** Names of a closed execution. */
  predicate ClosedName(name: string) {
    name in {"CANCELLED", "COMPLETED", "FAILED", "TERMINATED", "TIMED_OUT"}
  }

  /** When a pass settles a row: its execution is closed, or gone and not to be
      started again, or gone and could not be started for too long. */
  predicate Settles(row: Entity, d: Description, started: bool, overdue: bool) {
    match d
    case Described(name) => ClosedName(name)
    case NoExecution => row.status != Queued || (!started && overdue)
    case Unreachable => false
  }

  function SettledAs(d: Description): Status {
    if d == Described("CANCELLED") then Cancelled else Status.Failed
  }

  /** The reason a settled row gives. */
  function ReasonFor(row: Entity, d: Description): string {
    match d
    case Described(name) =>
      if name == "CANCELLED" then "Workflow was cancelled"
      else if name == "COMPLETED" then "Workflow completed but the snapshot was never finalized"
      else "Workflow closed as " + name
    case _ => if row.status == Queued then "Workflow could not be started" else "Workflow no longer exists"
  }

  predicate SettledTo(before: Snapshot, after: Snapshot, status: Status, reason: string) {
    && after.entity.status == status && after.entity.completedAt.Some? && after.entity.error == Some(reason)
    && after.entity.startedAt == before.entity.startedAt && after.entity.temporal == before.entity.temporal
    && after.outputs == before.outputs
  }

  /** A row right after its turn in a pass that met no other writer. */
  predicate Resolved(before: Snapshot, after: Snapshot, d: Description, started: bool, overdue: bool) {
    if Settles(before.entity, d, started, overdue) then SettledTo(before, after, SettledAs(d), ReasonFor(before.entity, d)) else after == before
  }

  /** Convergence: a row that is still unsettled after its turn is described by a
      name that is none of a closed execution's, was just started, or could not
      be started inside its budget. Settled, it is cancelled exactly for a
      cancelled execution. */
  lemma StillUnsettled(before: Snapshot, after: Snapshot, d: Description, started: bool, overdue: bool)
    requires Resolved(before, after, d, started, overdue) && !d.Unreachable? && !Terminal(before.entity.status)
    ensures !Terminal(after.entity.status) <==>
      || (d.Described? && d.status !in {"CANCELLED", "COMPLETED", "FAILED", "TERMINATED", "TIMED_OUT"})
      || (d.NoExecution? && before.entity.status == Queued && started)
      || (d.NoExecution? && before.entity.status == Queued && !started && !overdue)
    ensures !Terminal(after.entity.status) ==> after == before
    ensures Terminal(after.entity.status) ==>
      after.entity.status == if d == Described("CANCELLED") then Cancelled else Status.Failed
  {
  }

  class Reconciler {
    const service: Service
    const startFailedAfterMs: int
    var running: bool
    /** Start calls made, in order. */
    var starts: seq<string>

    constructor (service: Service, startFailedAfterMs: int)
      ensures this.service == service && this.startFailedAfterMs == startFailedAfterMs && !running && starts == []
    {
      this.service, this.startFailedAfterMs := service, startFailedAfterMs;
      running, starts := false, [];
    }

    predicate Overdue(row: Entity, now: int) {
      now - row.createdAt >= startFailedAfterMs
    }

    /** The table after the first `done` rows of a pass: those are resolved, every other row is as it was. */
    ghost predicate Passed(
      before: map<string, Snapshot>, after: map<string, Snapshot>, read: seq<string>, done: nat,
      describe: string -> Description, startable: string -> bool, now: int)
      requires done <= |read|
    {
      && after.Keys == before.Keys
      && (forall id | id in before && id in read[..done] ::
            var d := describe(WorkflowIdOf(id, before[id].entity));
            !d.Unreachable? && Resolved(before[id], after[id], d, startable(id), Overdue(before[id].entity, now)))
      && (forall id | id in before && id !in read[..done] :: after[id] == before[id])
    }

    lemma PassedOneMore(
      before: map<string, Snapshot>, mid: map<string, Snapshot>, after: map<string, Snapshot>, read: seq<string>, done: nat,
      describe: string -> Description, startable: string -> bool, now: int)
      requires done < |read| && read[done] in before && read[done] !in read[..done]
      requires Passed(before, mid, read, done, describe, startable, now)
      requires after.Keys == mid.Keys && forall other | other in mid && other != read[done] :: after[other] == mid[other]
      requires var id := read[done]; var d := describe(WorkflowIdOf(id, before[id].entity));
        !d.Unreachable? && Resolved(before[id], after[id], d, startable(id), Overdue(before[id].entity, now))
      ensures Passed(before, after, read, done + 1, describe, startable, now)
    {
      hide Resolved; hide WorkflowIdOf; hide Overdue;
      assert read[..done + 1] == read[..done] + [read[done]];
    }

    /** A pass touches no row that had settled, so a second pass touches none the first one settled. */
    lemma SettledRowsAreLeftAlone(
      before: map<string, Snapshot>, after: map<string, Snapshot>, read: seq<string>, done: nat, cutoff: int,
      describe: string -> Description, startable: string -> bool, now: int, id: string)
      requires done <= |read| && Passed(before, after, read, done, describe, startable, now)
      requires forall k | k in read :: k in before && Unsettled(before[k].entity, cutoff)
      requires id in before && Terminal(before[id].entity.status)
      ensures after[id] == before[id]
    {
      hide Resolved; hide WorkflowIdOf; hide Overdue;
      assert id !in read;
      assert forall k | k in read[..done] :: k in read;
    }

    /** `describe` and `startable` are the workflow server during the pass, by
        workflow id and by snapshot id. A pass ends early at the first row it cannot describe. */
    method Reconcile(describe: string -> Description, startable: string -> bool, cutoff: int, now: int)
      returns (read: seq<string>, done: nat)
      modifies this, service.repository
      ensures done <= |read|
      ensures old(running) ==>
        read == [] && service.repository.table == old(service.repository.table) && starts == old(starts) && running
      ensures !old(running) ==> !running
      ensures forall id :: id in read <==>
        !old(running) && id in old(service.repository.table) && Unsettled(old(service.repository.table)[id].entity, cutoff)
      ensures Passed(old(service.repository.table), service.repository.table, read, done, describe, startable, now)
      // oldest first, each once
      ensures forall i, j | 0 <= i < j < |read| ::
        && read[i] != read[j] && read[i] in old(service.repository.table) && read[j] in old(service.repository.table)
        && old(service.repository.table)[read[i]].entity.createdAt <= old(service.repository.table)[read[j]].entity.createdAt
      ensures done < |read| <==>
        exists id :: id in read && describe(WorkflowIdOf(id, old(service.repository.table)[id].entity)).Unreachable?
    {
      hide Resolved; hide Blocked; hide AttemptOn; hide WorkflowIdOf;
      read, done := [], 0;
      if running {
        return;
      }
      running := true;
      read := service.repository.FindUnsettled(cutoff);
      // the pass works from the rows as the query returned them
      var table := service.repository.table;
      while done < |read|
        invariant done <= |read| && running
        invariant Passed(table, service.repository.table, read, done, describe, startable, now)
        decreases |read| - done
      {
        var id := read[done];
        ghost var mid := service.repository.table;
        DistinctFromPrefix(read, done);
        var threw := ReconcileRow(id, table[id].entity, describe, startable, now);
        if threw {
          assert service.repository.table == mid;
          break;
        }
        PassedOneMore(table, mid, service.repository.table, read, done, describe, startable, now);
        done := done + 1;
      }
      if done == |read| {
        assert read[..done] == read;
      }
      running := false;
    }

    method ReconcileRow(id: string, row: Entity, describe: string -> Description, startable: string -> bool, now: int)
      returns (threw: bool)
      modifies this`starts, service.repository
      ensures var d := describe(WorkflowIdOf(id, row));
        && (threw <==> d.Unreachable?)
        && (threw ==> service.repository.table == old(service.repository.table))
        && starts == (if d.NoExecution? && row.status == Queued then old(starts) + [id] else old(starts))
        && service.repository.table.Keys == old(service.repository.table).Keys
        && (forall other | other in service.repository.table && other != id ::
              service.repository.table[other] == old(service.repository.table)[other])
        && (id in service.repository.table && old(service.repository.table)[id].entity == row
            && !Terminal(row.status) ==>
              Resolved(old(service.repository.table)[id], service.repository.table[id], d, startable(id),
                       now - row.createdAt >= startFailedAfterMs)
              && (service.repository.table[id] != old(service.repository.table)[id] ==>
                    service.repository.table[id].entity.completedAt == Some(now)))
    {
      hide SettledTo; hide WorkflowIdOf;
      var workflowId := WorkflowIdOf(id, row);
      var description := describe(workflowId);
      threw := false;
      match description
      case Unreachable => threw := true;
      case Described(name) =>
        if name == "RUNNING" || name == "CONTINUED_AS_NEW" || name == "PAUSED" {
          return;
        } else if name == "CANCELLED" {
          Settle(id, Cancelled, "Workflow was cancelled", now);
        } else if name == "COMPLETED" {
          Settle(id, Status.Failed, "Workflow completed but the snapshot was never finalized", now);
        } else if name == "FAILED" || name == "TERMINATED" || name == "TIMED_OUT" {
          Settle(id, Status.Failed, "Workflow closed as " + name, now);
        }
      case NoExecution =>
        if row.status == Queued {
          starts := starts + [id];
          if !startable(id) && now - row.createdAt >= startFailedAfterMs {
            Settle(id, Status.Failed, "Workflow could not be started", now);
          }
          return;
        }
        Settle(id, Status.Failed, "Workflow no longer exists", now);
    }

    method Settle(id: string, status: Status, message: string, now: int)
      requires status in {Status.Failed, Cancelled}
      modifies service.repository
      ensures service.repository.table.Keys == old(service.repository.table).Keys
      ensures forall other | other in service.repository.table && other != id ::
        service.repository.table[other] == old(service.repository.table)[other]
      ensures id in service.repository.table && !Terminal(old(service.repository.table)[id].entity.status) ==>
        && SettledTo(old(service.repository.table)[id], service.repository.table[id], status, message)
        && service.repository.table[id].entity.completedAt == Some(now)
    {
      var outcome := service.ApplyExternalUpdate(id, Input(Some(status), None, None, Some(message)), now, now);
    }
  }

  lemma DistinctFromPrefix(read: seq<string>, k: nat)
    requires k < |read| && forall i, j | 0 <= i < j < |read| :: read[i] != read[j]
    ensures read[k] !in read[..k]
  {
  }
}
