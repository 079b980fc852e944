/** The service every snapshot writer goes through, and the create path. */
module SnapshotService {
  import opened Wrappers
  import opened SnapshotRows

  /** What the workflow server says about an execution. */
  datatype Description = Described(status: string) | NoExecution | Unreachable

  function SnapshotWorkflowId(id: string): string {
    "snapshot-" + id
  }

  lemma WorkflowIdsAreDistinct(a: string, b: string)
    requires SnapshotWorkflowId(a) == SnapshotWorkflowId(b)
    ensures a == b
  {
    assert a == SnapshotWorkflowId(a)[9..] && b == SnapshotWorkflowId(b)[9..];
  }

  /** The id a row was given at create, or the one every snapshot's is derived from. */
  function WorkflowIdOf(id: string, row: Entity): string {
    if row.temporal.Some? && "workflowId" in row.temporal.value then row.temporal.value["workflowId"]
    else SnapshotWorkflowId(id)
  }

  /** What deleting a snapshot does outside its transaction, in order. */
  datatype Effect = Terminated(workflowId: string) | Deleted(id: string)

  class Service {
    const repository: SnapshotRepository

    constructor (repository: SnapshotRepository)
      ensures this.repository == repository
    {
      this.repository := repository;
    }

    method ApplyExternalUpdate(id: string, input: Input, stampedAt: int, committedAt: int) returns (outcome: Outcome)
      modifies repository
      ensures outcome ==
        if id !in old(repository.table) then Outcome.NotFound
        else if Blocked(old(repository.table)[id], Stamp(input, stampedAt)) then Ignored else Applied
      ensures repository.table ==
        if id in old(repository.table)
        then old(repository.table)[id := AttemptOn(old(repository.table)[id], External(input, stampedAt, committedAt))]
        else old(repository.table)
      // a start time for running, a completion time for a terminal status, and what was given
      ensures outcome.Applied? ==>
        var before, after := old(repository.table)[id], repository.table[id];
        && Replaced(before.entity, after.entity, Update(
             input.status,
             if input.status == Some(Running) then Some(stampedAt) else None,
             if input.status in {Some(Completed), Some(Status.Failed), Some(Cancelled)} then Some(stampedAt) else None,
             input.temporal, input.error, input.outputs), committedAt)
        && (if input.outputs.Some? then HoldsOnly(after.outputs, input.outputs.value) else after.outputs == before.outputs)
    {
      hide Replaced; hide HoldsOnly;
      var data := Update(None, None, None, None, None, None);
      if input.status.Some? {
        data := data.(status := input.status);
        if input.status.value == Running {
          data := data.(startedAt := Some(stampedAt));
        } else if input.status.value in {Completed, Status.Failed, Cancelled} {
          data := data.(completedAt := Some(stampedAt));
        }
      }
      if input.temporal.Some? {
        data := data.(temporal := input.temporal);
      }
      if input.outputs.Some? {
        data := data.(outputs := input.outputs);
      }
      if input.error.Some? {
        data := data.(error := input.error);
      }
      outcome := repository.ApplyExternalUpdate(id, data, committedAt);
    }

    /** Starts the run of a row just created. `started` and `answer` are how the
        start call and, after a failed one, the describe call go. Only a
        confirmed missing execution settles the row; every other row stays queued. */
    method LaunchSnapshotWorkflow(id: string, started: bool, answer: Description, reason: string, now: int)
      returns (threw: bool)
      requires id in repository.table && repository.table[id].entity.status == Queued
      modifies repository
      ensures threw <==> !started && answer.NoExecution?
      ensures repository.table.Keys == old(repository.table).Keys
      ensures forall other | other in repository.table && other != id :: repository.table[other] == old(repository.table)[other]
      ensures var e := repository.table[id].entity;
        && e.status == (if threw then Status.Failed else Queued)
        && (Coherent(old(repository.table)[id].entity) ==> Coherent(e))
        && e.temporal.Some? && "workflowId" in e.temporal.value
        && e.temporal.value["workflowId"] == SnapshotWorkflowId(id)
      // nothing else the row held is lost, and the reason of a failure is on it
      ensures var before, after := old(repository.table)[id], repository.table[id];
        && after.outputs == before.outputs && after.entity.createdAt == before.entity.createdAt
        && after.entity.startedAt == before.entity.startedAt
        && after.entity.error == (if threw then Some(reason) else before.entity.error)
        && (before.entity.temporal.Some? ==> forall k | k in before.entity.temporal.value && k != "workflowId" ::
              k in after.entity.temporal.value && after.entity.temporal.value[k] == before.entity.temporal.value[k])
    {
      var workflowId := SnapshotWorkflowId(id);
      var own := repository.table[id].entity.temporal;
      var temporal := (if own.Some? then own.value else map[])["workflowId" := workflowId];
      var persisted := repository.ApplyExternalUpdate(id, Update(None, None, None, Some(temporal), None, None), now);
      threw := false;
      if !started {
        threw := HandleStartFailure(id, answer, reason, now);
      }
    }

    method HandleStartFailure(id: string, answer: Description, reason: string, now: int) returns (threw: bool)
      modifies repository
      ensures threw <==> answer.NoExecution?
      ensures repository.table ==
        if threw && id in old(repository.table)
        then old(repository.table)[id :=
               AttemptOn(old(repository.table)[id], External(Input(Some(Status.Failed), None, None, Some(reason)), now, now))]
        else old(repository.table)
      ensures !threw ==> repository.table == old(repository.table)
      ensures threw && id in repository.table ==>
        var before, after := old(repository.table)[id], repository.table[id];
        && after.outputs == before.outputs
        && (before.entity.status in {Queued, Running} ==>
              after.entity == before.entity.(status := Status.Failed, completedAt := Some(now), error := Some(reason), updatedAt := now))
        && (before.entity.status in {Completed, Cancelled} ==> after == before)
    {
      match answer
      case Unreachable => threw := false;
      case Described(_) => threw := false;
      case NoExecution =>
        var outcome := ApplyExternalUpdate(id, Input(Some(Status.Failed), None, None, Some(reason)), now, now);
        threw := true;
    }

    /** A run that may still be live is terminated, and waited for, before its row goes. */
    method DeleteById(id: string) returns (effects: seq<Effect>)
      modifies repository
      ensures repository.table == old(repository.table) - {id}
      ensures effects ==
        if id !in old(repository.table) then []
        else if Terminal(old(repository.table)[id].entity.status) then [Deleted(id)]
        else [Terminated(WorkflowIdOf(id, old(repository.table)[id].entity)), Deleted(id)]
      // under the id the row was given at create, or the derived one
      ensures id in old(repository.table) && |effects| == 2 ==>
        var temporal := old(repository.table)[id].entity.temporal;
        effects[0] == Terminated(
          if temporal.Some? && "workflowId" in temporal.value then temporal.value["workflowId"] else "snapshot-" + id)
    {
      effects := [];
      if id !in repository.table {
        return;
      }
      var row := repository.table[id].entity;
      if row.status == Queued || row.status == Running {
        effects := effects + [Terminated(WorkflowIdOf(id, row))];
      }
      repository.DeleteById(id);
      effects := effects + [Deleted(id)];
    }
  }
}
