/** Community connections and their audit log: unchanged system checks leave no
    row, and still the log replays to what each connection says. */
module CommunityAudit {
  import opened Wrappers
  import opened Records

  datatype Status = Pending | Active | Degraded | Broken | Disconnected

  /** What a connection says about its health. */
  datatype Health = Health(status: Status, lastFailure: Option<Category>)

  datatype Connection = Connection(externalId: string, health: Health, metadata: Option<string>, lastCheckedAt: Option<int>)

  datatype Action = Connect | HealthCheck | ListResources | Disconnect

  /** `failure` is absent on a success; `connectionId` on a connect that never
      reached the table, and once the connection is deleted. */
  datatype AuditRow = AuditRow(connectionId: Option<nat>, actor: Option<string>, action: Action, failure: Option<Category>)

  /** How the platform answers a probe, a listing or a revocation. */
  datatype Answer = Succeeds(metadata: string) | FailsWith(category: Category)

  function StatusForFailure(category: Category): Status {
    if category in {AuthFailed, PermissionDenied, Category.NotFound, OutboundPolicy} then Broken else Degraded
  }

  function Failing(category: Category): Health {
    Health(StatusForFailure(category), Some(category))
  }

  const HEALTHY := Health(Active, None)

  function HealthAfter(answer: Answer): Health {
    match answer
    case Succeeds(_) => HEALTHY
    case FailsWith(category) => Failing(category)
  }

  function CategoryOf(answer: Answer): Option<Category> {
    match answer
    case Succeeds(_) => None
    case FailsWith(category) => Some(category)
  }

  // ---------- Replay ----------

  /** What one audit row of a connection says happened to its health. */
  function Replayed(before: Option<Health>, row: AuditRow): Option<Health> {
    if row.failure.Some? then Some(Failing(row.failure.value))
    else
      match row.action
      case Connect => Some(HEALTHY)
      case HealthCheck => Some(HEALTHY)
      case ListResources => before
      case Disconnect => None
  }

  /** The health of a connection as its audit rows tell it. */
  function Replay(audit: seq<AuditRow>, id: nat): Option<Health> {
    if audit == [] then None
    else
      var before := Replay(audit[..|audit| - 1], id);
      var row := audit[|audit| - 1];
      if row.connectionId == Some(id) then Replayed(before, row) else before
  }

  /** For every id, connected or not, the log replays to what the table says. */
  ghost predicate Replays(connections: map<nat, Connection>, audit: seq<AuditRow>) {
    forall id: nat :: Replay(audit, id) == if id in connections then Some(connections[id].health) else None
  }

  lemma ReplayOneMore(audit: seq<AuditRow>, row: AuditRow, id: nat)
    ensures Replay(audit + [row], id) ==
      if row.connectionId == Some(id) then Replayed(Replay(audit, id), row) else Replay(audit, id)
  {
    assert (audit + [row])[..|audit|] == audit;
  }

  /** Recording a row beside the change it tells of keeps the log truthful. */
  lemma RecordKeepsReplay(
    connections: map<nat, Connection>, audit: seq<AuditRow>, after: map<nat, Connection>, row: AuditRow)
    requires Replays(connections, audit)
    requires forall id: nat | row.connectionId != Some(id) ::
      (id in after <==> id in connections) && (id in after ==> after[id].health == connections[id].health)
    requires row.connectionId.Some? ==>
      var id := row.connectionId.value;
      Replayed(if id in connections then Some(connections[id].health) else None, row)
        == if id in after then Some(after[id].health) else None
    ensures Replays(after, audit + [row])
  {
    hide Replay; hide Replayed;
    forall id: nat
      ensures Replay(audit + [row], id) == if id in after then Some(after[id].health) else None
    {
      ReplayOneMore(audit, row, id);
      assert Replay(audit, id) == if id in connections then Some(connections[id].health) else None;
    }
  }

  /** Deleting a connection clears the link of its audit rows. */
  function Unlinked(audit: seq<AuditRow>, id: nat): seq<AuditRow> {
    seq(|audit|, i requires 0 <= i < |audit| =>
      if audit[i].connectionId == Some(id) then audit[i].(connectionId := None) else audit[i])
  }

  lemma {:induction false} ReplayUnlinked(audit: seq<AuditRow>, gone: nat, id: nat)
    ensures Replay(Unlinked(audit, gone), id) == if id == gone then None else Replay(audit, id)
  {
    if audit != [] {
      var n := |audit| - 1;
      ReplayUnlinked(audit[..n], gone, id);
      assert Unlinked(audit, gone)[..n] == Unlinked(audit[..n], gone);
    }
  }

  lemma DeleteKeepsReplay(connections: map<nat, Connection>, audit: seq<AuditRow>, id: nat)
    requires forall other: nat | other != id ::
      Replay(audit, other) == if other in connections then Some(connections[other].health) else None
    ensures Replays(connections - {id}, Unlinked(audit, id))
  {
    hide Replay;
    forall other: nat
      ensures Replay(Unlinked(audit, id), other)
        == if other in connections - {id} then Some(connections[other].health) else None
    {
      ReplayUnlinked(audit, id, other);
    }
  }

  // ---------- The service ----------

  /** The row after a check: active without a reason, broken where only an admin
      can help, degraded otherwise; the time is on it, and a failing check keeps
      the last good metadata. */
  predicate Checked(before: Connection, after: Connection, answer: Answer, checkedAt: int) {
    && after.externalId == before.externalId && after.lastCheckedAt == Some(checkedAt)
    && match answer
       case Succeeds(metadata) =>
         after.health.status == Active && after.health.lastFailure.None? && after.metadata == Some(metadata)
       case FailsWith(category) =>
         && after.health.lastFailure == Some(category) && after.metadata == before.metadata
         && after.health.status ==
            (match category
             case AuthFailed => Broken
             case PermissionDenied => Broken
             case NotFound => Broken
             case OutboundPolicy => Broken
             case _ => Degraded)
  }

  /** What a check says of a row does not depend on what the row said before. */
  lemma CheckedAlike(before: Connection, other: Connection, after: Connection, answer: Answer, checkedAt: int)
    requires Checked(before, after, answer, checkedAt)
    requires other.externalId == before.externalId && other.metadata == before.metadata
    ensures Checked(other, after, answer, checkedAt)
  {
  }

  /** A check with something to say replays to what it found. */
  lemma ReplayOfCheck(before: Option<Health>, row: AuditRow, answer: Answer)
    requires row.failure == CategoryOf(answer) && (answer.Succeeds? ==> row.action in {Connect, HealthCheck})
    ensures Replayed(before, row) == Some(HealthAfter(answer))
  {
  }

  class Community {
    var connections: map<nat, Connection>
    var audit: seq<AuditRow>
    var nextId: nat

    constructor ()
      ensures Valid() && connections == map[] && audit == []
    {
      connections, audit, nextId := map[], [], 0;
    }

    ghost predicate Valid()
      reads this
    {
      && Replays(connections, audit)
      && (forall id | id in connections :: id < nextId)
      && (forall a, b | a in connections && b in connections && connections[a].externalId == connections[b].externalId :: a == b)
    }

    /** Installs are idempotent per community: a known one keeps its id, and its last check. */
    method UpsertFromInstall(externalId: string) returns (id: nat)
      requires Valid()
      modifies `connections, `nextId
      ensures id in connections && connections[id].externalId == externalId && connections[id].health.status == Pending
      ensures forall other | other != id ::
        (other in connections <==> other in old(connections)) && (other in connections ==> connections[other] == old(connections)[other])
      ensures id in old(connections) <==> exists k :: k in old(connections) && old(connections)[k].externalId == externalId
      ensures id in old(connections) ==>
        connections[id] == old(connections)[id].(health := Health(Pending, old(connections)[id].health.lastFailure))
      ensures id !in old(connections) ==> connections[id] == Connection(externalId, Health(Pending, None), None, None)
      ensures connections - {id} == old(connections) - {id}
      ensures forall k | k in connections :: k < nextId
      ensures forall a, b | a in connections && b in connections && connections[a].externalId == connections[b].externalId :: a == b
    {
      if k :| k in connections && connections[k].externalId == externalId {
        id := k;
        var row := connections[id];
        connections := connections[id := row.(health := Health(Pending, row.health.lastFailure))];
      } else {
        id := nextId;
        nextId := nextId + 1;
        connections := connections[id := Connection(externalId, Health(Pending, None), None, None)];
      }
    }

    /** The outcome of one platform check. A failing one keeps the last good metadata. */
    method RecordCheck(id: nat, answer: Answer, checkedAt: int)
      modifies `connections
      ensures id !in old(connections) ==> connections == old(connections)
      ensures id in old(connections) ==> connections == old(connections)[id := old(connections)[id].(
        health := HealthAfter(answer), lastCheckedAt := Some(checkedAt),
        metadata := if answer.Succeeds? then Some(answer.metadata) else old(connections)[id].metadata)]
      ensures id in old(connections) ==> Checked(old(connections)[id], connections[id], answer, checkedAt)
    {
      if id !in connections {
        return;
      }
      var row := connections[id];
      if answer.Succeeds? {
        row := row.(metadata := Some(answer.metadata));
      }
      row := row.(health := HealthAfter(answer), lastCheckedAt := Some(checkedAt));
      connections := connections[id := row];
    }

    /** Human actions are always on the record, system ones only when they change what the row says. */
    method RecordOutcome(actor: Option<string>, id: nat, action: Action, failure: Option<Category>, changesState: bool)
      modifies `audit
      ensures audit == if actor.None? && !changesState then old(audit)
                       else old(audit) + [AuditRow(Some(id), actor, action, failure)]
    {
      if actor.None? && !changesState {
        return;
      }
      audit := audit + [AuditRow(Some(id), actor, action, failure)];
    }

    function ChangesState(seen: Connection, answer: Answer): bool {
      seen.health.status != HealthAfter(answer).status || seen.health.lastFailure != CategoryOf(answer)
    }

    /** An install the platform vouches for (`resolved` is its id, or the failure
        to resolve one), stored, probed and audited. */
    method CompleteConnect(actor: string, resolved: Option<string>, failure: Category, probe: Answer, checkedAt: int)
      returns (ghost id: nat)
      requires Valid()
      modifies this
      ensures Valid()
      ensures resolved.None? ==>
        connections == old(connections) && audit == old(audit) + [AuditRow(None, Some(actor), Connect, Some(failure))]
      ensures resolved.Some? ==>
        && id in connections && connections[id].externalId == resolved.value && connections[id].health == HealthAfter(probe)
        && audit == old(audit) + [AuditRow(Some(id), Some(actor), Connect, CategoryOf(probe))]
        && (id in old(connections) ==> Checked(old(connections)[id], connections[id], probe, checkedAt))
        && (id !in old(connections) ==> Checked(Connection(resolved.value, HEALTHY, None, None), connections[id], probe, checkedAt))
        && connections - {id} == old(connections) - {id}
    {
      hide Checked; hide Replays; hide HealthAfter; hide CategoryOf; hide Replayed;
      ghost var before := connections;
      if resolved.None? {
        var row := AuditRow(None, Some(actor), Connect, Some(failure));
        audit := audit + [row];
        RecordKeepsReplay(before, old(audit), connections, row);
        return 0;
      }
      var at := UpsertFromInstall(resolved.value);
      id := at;
      ghost var pending := connections[at];
      RecordCheck(at, probe, checkedAt);
      CheckedAlike(pending, if at in before then before[at] else Connection(resolved.value, HEALTHY, None, None),
                   connections[at], probe, checkedAt);
      var row := AuditRow(Some(at), Some(actor), Connect, CategoryOf(probe));
      audit := audit + [row];
      ReplayOfCheck(if at in before then Some(before[at].health) else None, row, probe);
      RecordKeepsReplay(before, old(audit), connections, row);
    }

    /** A probe on demand; without an actor, a system check. */
    method CheckHealth(actor: Option<string>, id: nat, probe: Answer, checkedAt: int) returns (refused: bool)
      requires Valid()
      modifies this
      ensures Valid()
      ensures refused <==> id !in old(connections) || old(connections)[id].health.status == Disconnected
      ensures refused ==> connections == old(connections) && audit == old(audit)
      ensures !refused ==>
        && connections.Keys == old(connections).Keys && Checked(old(connections)[id], connections[id], probe, checkedAt)
        && (forall other | other in connections && other != id :: connections[other] == old(connections)[other])
      ensures !refused ==>
        && id in connections && connections[id].health == HealthAfter(probe)
        && audit == (if actor.None? && old(connections)[id].health == HealthAfter(probe) then old(audit)
                     else old(audit) + [AuditRow(Some(id), actor, HealthCheck, CategoryOf(probe))])
    {
      refused := id !in connections || connections[id].health.status == Disconnected;
      if refused {
        return;
      }
      var seen := connections[id];
      RecordCheck(id, probe, checkedAt);
      RecordOutcome(actor, id, HealthCheck, CategoryOf(probe), ChangesState(seen, probe));
      if audit != old(audit) {
        RecordKeepsReplay(old(connections), old(audit), connections, AuditRow(Some(id), actor, HealthCheck, CategoryOf(probe)));
      }
    }

    /** Lists a connection's resources. A success says nothing about the row; a failure does. */
    method ReadResources(actor: Option<string>, id: nat, listing: Answer, checkedAt: int) returns (threw: bool)
      requires Valid() && id in connections
      modifies this
      ensures Valid()
      ensures threw <==> listing.FailsWith?
      ensures !threw ==>
        && connections == old(connections)
        && audit == (if actor.None? then old(audit) else old(audit) + [AuditRow(Some(id), actor, ListResources, None)])
      ensures threw ==>
        && connections.Keys == old(connections).Keys && Checked(old(connections)[id], connections[id], listing, checkedAt)
        && (forall other | other in connections && other != id :: connections[other] == old(connections)[other])
      ensures threw ==>
        && id in connections && connections[id].health == HealthAfter(listing)
        && audit == (if actor.None? && old(connections)[id].health == HealthAfter(listing) then old(audit)
                     else old(audit) + [AuditRow(Some(id), actor, ListResources, CategoryOf(listing))])
    {
      var seen := connections[id];
      threw := listing.FailsWith?;
      if threw {
        RecordCheck(id, listing, checkedAt);
        RecordOutcome(actor, id, ListResources, CategoryOf(listing), ChangesState(seen, listing));
      } else {
        RecordOutcome(actor, id, ListResources, None, false);
      }
      if audit != old(audit) {
        RecordKeepsReplay(old(connections), old(audit), connections, AuditRow(Some(id), actor, ListResources, CategoryOf(listing)));
      }
    }

    /** Revokes access on the platform, then deletes; a failed revocation keeps the row. */
    method DoDisconnect(actor: string, id: nat, revocation: Answer, checkedAt: int) returns (threw: bool)
      requires Valid()
      modifies this
      ensures Valid()
      ensures threw <==> id !in old(connections) || revocation.FailsWith?
      ensures !threw ==> connections == old(connections) - {id}
      ensures threw && id in old(connections) ==>
        && connections.Keys == old(connections).Keys && Checked(old(connections)[id], connections[id], revocation, checkedAt)
        && (forall other | other in connections && other != id :: connections[other] == old(connections)[other])
      ensures threw && id in old(connections) ==>
        && id in connections && connections[id].health == HealthAfter(revocation)
        && audit == old(audit) + [AuditRow(Some(id), Some(actor), Disconnect, CategoryOf(revocation))]
      ensures id !in old(connections) ==> connections == old(connections) && audit == old(audit)
    {
      if id !in connections {
        return true;
      }
      threw := revocation.FailsWith?;
      if threw {
        RecordCheck(id, revocation, checkedAt);
        RecordOutcome(Some(actor), id, Disconnect, CategoryOf(revocation), true);
        RecordKeepsReplay(old(connections), old(audit), connections, AuditRow(Some(id), Some(actor), Disconnect, CategoryOf(revocation)));
        return;
      }
      RecordOutcome(Some(actor), id, Disconnect, None, true);
      forall other: nat | other != id
        ensures Replay(audit, other) == if other in connections then Some(connections[other].health) else None
      {
        ReplayOneMore(old(audit), AuditRow(Some(id), Some(actor), Disconnect, None), other);
        assert Replay(old(audit), other) == if other in connections then Some(connections[other].health) else None;
      }
      DeleteKeepsReplay(connections, audit, id);
      audit := Unlinked(audit, id);
      connections := connections - {id};
    }
  }
}
