/** The snapshot table: the status state machine under a row lock, the full
    replacement of outputs, and what any sequence of updates does to a row. */
module SnapshotRows {
  import opened Wrappers

  datatype Status = Queued | Running | Completed | Failed | Cancelled

  predicate Terminal(s: Status) {
    s in {Completed, Failed, Cancelled}
  }

  predicate CanTransition(from: Status, to: Status) {
    if from == to then true
    else if from == Queued then to != Completed
    else if from == Running then Terminal(to)
    else false
  }

  /** The edge into the machine's middle and the five into its end. */
  const EDGES: set<(Status, Status)> := {
    (Queued, Running), (Queued, Failed), (Queued, Cancelled),
    (Running, Completed), (Running, Failed), (Running, Cancelled)
  }

  lemma TransitionsAreTheEdges(from: Status, to: Status)
    ensures CanTransition(from, to) <==> from == to || (from, to) in EDGES
  {
  }

  type Temporal = map<string, string>

  datatype Entity = Entity(
    status: Status,
    createdAt: int,
    updatedAt: int,
    startedAt: Option<int>,
    completedAt: Option<int>,
    temporal: Option<Temporal>,
    error: Option<string>)

  /** A snapshot row and the output rows that hang off it, by key. */
  datatype Snapshot = Snapshot(entity: Entity, outputs: map<string, string>)

  /** Fields an update leaves out are `None`. An outputs object may hold a key whose value is undefined. */
  type Outputs = map<string, Option<string>>

  datatype Update = Update(
    status: Option<Status>,
    startedAt: Option<int>,
    completedAt: Option<int>,
    temporal: Option<Temporal>,
    error: Option<string>,
    outputs: Option<Outputs>)

  datatype Outcome = NotFound | Applied | Ignored

  // ---------- Output rows ----------

  function Defined(outputs: Outputs): map<string, string> {
    map k | k in outputs && outputs[k].Some? :: outputs[k].value
  }

  /** The outputs hold exactly the keys given with a value, whatever was there. */
  ghost predicate HoldsOnly(outputs: map<string, string>, given: Outputs) {
    forall k, v :: (k in outputs && outputs[k] == v) <==> (k in given && given[k] == Some(v))
  }

  /** One row per defined key. */
  method BuildOutputRows(outputs: Outputs) returns (rows: seq<(string, string)>)
    ensures forall k, v :: (k, v) in rows <==> k in outputs && outputs[k] == Some(v)
    ensures forall k, v :: (k, v) in rows <==> k in Defined(outputs) && Defined(outputs)[k] == v
    ensures forall i, j | 0 <= i < j < |rows| :: rows[i].0 != rows[j].0
  {
    rows := [];
    var left := outputs.Keys;
    while left != {}
      invariant left <= outputs.Keys
      invariant forall k, v :: (k, v) in rows <==> k in outputs && k !in left && outputs[k] == Some(v)
      invariant forall i, j | 0 <= i < j < |rows| :: rows[i].0 != rows[j].0
      decreases left
    {
      var k :| k in left;
      assert forall i | 0 <= i < |rows| :: rows[i] == (rows[i].0, rows[i].1) && rows[i] in rows;
      if outputs[k].Some? {
        rows := rows + [(k, outputs[k].value)];
      }
      left := left - {k};
    }
  }

  /** What a read hands back: the outputs by key, or nothing at all when there are none. */
  method MapOutputs(rows: seq<(string, string)>) returns (outputs: Option<map<string, string>>)
    requires forall i, j | 0 <= i < j < |rows| :: rows[i].0 != rows[j].0
    ensures outputs.None? <==> rows == []
    ensures outputs.Some? ==>
      (forall k :: k in outputs.value <==> exists v :: (k, v) in rows)
      && (forall k, v | (k, v) in rows :: outputs.value[k] == v)
  {
    if rows == [] {
      return None;
    }
    var result: map<string, string> := map[];
    for i := 0 to |rows|
      invariant forall k :: k in result <==> exists v :: (k, v) in rows[..i]
      invariant forall k, v | (k, v) in rows[..i] :: result[k] == v
    {
      assert rows[..i + 1] == rows[..i] + [rows[i]];
      assert rows[i] == (rows[i].0, rows[i].1);
      result := result[rows[i].0 := rows[i].1];
    }
    assert rows[..|rows|] == rows;
    outputs := Some(result);
    assert rows[0] == (rows[0].0, rows[0].1) && rows[0] in rows;
  }

  /** Replaces the output rows and reads them back: what comes back is what was defined. */
  method ReplaceOutputs(outputs: Outputs) returns (read: Option<map<string, string>>)
    ensures read == if Defined(outputs) == map[] then None else Some(Defined(outputs))
    ensures read.Some? ==> HoldsOnly(read.value, outputs)
    ensures read.None? <==> forall k | k in outputs :: outputs[k].None?
  {
    var rows := BuildOutputRows(outputs);
    read := MapOutputs(rows);
    assert HoldsOnly(Defined(outputs), outputs);
    assert forall k :: k in Defined(outputs) ==> (k, Defined(outputs)[k]) in rows;
    assert forall k | k in outputs :: outputs[k].Some? ==> k in Defined(outputs);
    if read.Some? {
      assert read.value == Defined(outputs);
      assert (rows[0].0, rows[0].1) in rows;
    }
  }

  // ---------- One update ----------

  predicate Blocked(s: Snapshot, data: Update) {
    data.status.Some? && !CanTransition(s.entity.status, data.status.value)
  }

  function Kept<T>(update: Option<T>, current: Option<T>): Option<T> {
    if update.Some? then update else current
  }

  predicate Touches(data: Update) {
    data.status.Some? || data.startedAt.Some? || data.completedAt.Some? || data.temporal.Some? || data.error.Some?
  }

  /** The committed snapshot after an update. */
  function Apply(s: Snapshot, data: Update, now: int): Snapshot {
    if Blocked(s, data) then s else
      Snapshot(
        Entity(
          if data.status.Some? then data.status.value else s.entity.status,
          s.entity.createdAt,
          if Touches(data) then now else s.entity.updatedAt,
          Kept(data.startedAt, s.entity.startedAt),
          Kept(data.completedAt, s.entity.completedAt),
          Kept(data.temporal, s.entity.temporal),
          Kept(data.error, s.entity.error)),
        if data.outputs.Some? then Defined(data.outputs.value) else s.outputs)
  }

  /** Field by field: what an update gives replaces what was there, and nothing
      else moves but the modification stamp. */
  predicate Replaced(before: Entity, after: Entity, data: Update, now: int) {
    && after.createdAt == before.createdAt
    && (if data.status.Some? then after.status == data.status.value else after.status == before.status)
    && (if data.startedAt.Some? then after.startedAt == data.startedAt else after.startedAt == before.startedAt)
    && (if data.completedAt.Some? then after.completedAt == data.completedAt else after.completedAt == before.completedAt)
    && (if data.temporal.Some? then after.temporal == data.temporal else after.temporal == before.temporal)
    && (if data.error.Some? then after.error == data.error else after.error == before.error)
    && after.updatedAt ==
       (if data.status.None? && data.startedAt.None? && data.completedAt.None? && data.temporal.None? && data.error.None?
        then before.updatedAt else now)
  }

  /** An update is refused exactly for a status off the edges; any other replaces
      what it gives. */
  lemma AppliedInFull(s: Snapshot, data: Update, now: int)
    ensures Blocked(s, data) <==>
      data.status.Some? && data.status.value != s.entity.status && (s.entity.status, data.status.value) !in EDGES
    ensures Blocked(s, data) ==> Apply(s, data, now) == s
    ensures !Blocked(s, data) ==>
      var after := Apply(s, data, now);
      && Replaced(s.entity, after.entity, data, now)
      && (if data.outputs.Some? then HoldsOnly(after.outputs, data.outputs.value) else after.outputs == s.outputs)
  {
  }

  class SnapshotRepository {
    var table: map<string, Snapshot>
    /** Ids announced to listeners, in commit order. */
    var notified: seq<string>

    constructor ()
      ensures table == map[] && notified == []
    {
      table, notified := map[], [];
    }

    /** One transaction under the row's write lock. */
    method ApplyExternalUpdate(id: string, data: Update, now: int) returns (outcome: Outcome)
      modifies this
      ensures outcome == if id !in old(table) then NotFound else if Blocked(old(table)[id], data) then Ignored else Applied
      ensures table == if id in old(table) then old(table)[id := Apply(old(table)[id], data, now)] else old(table)
      ensures notified == if outcome.Applied? then old(notified) + [id] else old(notified)
      // the same without Apply: every given field and output taken over, every other one kept
      ensures outcome.Ignored? <==>
        && id in old(table) && data.status.Some? && data.status.value != old(table)[id].entity.status
        && (old(table)[id].entity.status, data.status.value) !in EDGES
      ensures outcome.Applied? ==>
        && id in table && Replaced(old(table)[id].entity, table[id].entity, data, now)
        && (if data.outputs.Some? then HoldsOnly(table[id].outputs, data.outputs.value)
            else table[id].outputs == old(table)[id].outputs)
      ensures !outcome.Applied? ==> table == old(table)
    {
      hide CanTransition; hide Defined; hide Replaced; hide HoldsOnly;
      if id in table {
        AppliedInFull(table[id], data, now);
      }
      if id !in table {
        return NotFound;
      }
      var Snapshot(entity, outputs) := table[id];
      if data.status.Some? && !CanTransition(entity.status, data.status.value) {
        return Ignored;
      }
      var touched := false;
      if data.status.Some? {
        entity := entity.(status := data.status.value);
        touched := true;
      }
      if data.startedAt.Some? {
        entity := entity.(startedAt := data.startedAt);
        touched := true;
      }
      if data.completedAt.Some? {
        entity := entity.(completedAt := data.completedAt);
        touched := true;
      }
      if data.temporal.Some? {
        entity := entity.(temporal := data.temporal);
        touched := true;
      }
      if data.error.Some? {
        entity := entity.(error := data.error);
        touched := true;
      }
      if touched {
        entity := entity.(updatedAt := now);
      }
      if data.outputs.Some? {
        var read := ReplaceOutputs(data.outputs.value);
        outputs := if read.Some? then read.value else map[];
      }
      table := table[id := Snapshot(entity, outputs)];
      notified := notified + [id];
      return Applied;
    }

    method Create(id: string, outputs: Outputs, temporal: Option<Temporal>, now: int)
      requires id !in table
      modifies this
      ensures table == old(table)[id := Fresh(now, temporal, Defined(outputs))] && notified == old(notified)
      ensures var Snapshot(e, held) := table[id];
        && e.status == Queued && e.createdAt == e.updatedAt == now && e.startedAt.None? && e.completedAt.None?
        && e.temporal == temporal && e.error.None? && HoldsOnly(held, outputs)
    {
      var read := ReplaceOutputs(outputs);
      table := table[id := Fresh(now, temporal, if read.Some? then read.value else map[])];
    }

    method DeleteById(id: string)
      modifies this
      ensures table == old(table) - {id} && notified == old(notified)
    {
      table := table - {id};
    }

    /** Non-terminal rows not touched since `before`, oldest first. */
    method FindUnsettled(before: int) returns (ids: seq<string>)
      ensures forall id :: id in ids <==>
        id in table && table[id].entity.status in {Queued, Running} && table[id].entity.updatedAt < before
      ensures forall i, j | 0 <= i < j < |ids| ::
        ids[i] != ids[j] && table[ids[i]].entity.createdAt <= table[ids[j]].entity.createdAt
    {
      ids := [];
      var left := set id | id in table && Unsettled(table[id].entity, before);
      while left != {}
        invariant forall id | id in left :: id in table && Unsettled(table[id].entity, before)
        invariant forall id :: id in ids || id in left <==> id in table && Unsettled(table[id].entity, before)
        invariant forall id | id in ids :: id !in left
        invariant forall i, id | 0 <= i < |ids| && id in left :: table[ids[i]].entity.createdAt <= table[id].entity.createdAt
        invariant forall i, j | 0 <= i < j < |ids| ::
          ids[i] != ids[j] && table[ids[i]].entity.createdAt <= table[ids[j]].entity.createdAt
        decreases left
      {
        assert exists id :: IsOldest(table, left, id) by {
          var oldest := OldestExists(table, left);
        }
        var id :| id in left && IsOldest(table, left, id);
        ids := ids + [id];
        left := left - {id};
      }
    }
  }

  predicate Unsettled(e: Entity, before: int) {
    e.status in {Queued, Running} && e.updatedAt < before
  }

  predicate IsOldest(table: map<string, Snapshot>, ids: set<string>, id: string)
    requires forall o | o in ids :: o in table
  {
    id in ids && forall o | o in ids :: table[id].entity.createdAt <= table[o].entity.createdAt
  }

  lemma OldestExists(table: map<string, Snapshot>, ids: set<string>) returns (oldest: string)
    requires ids != {} && forall id | id in ids :: id in table
    ensures IsOldest(table, ids, oldest)
    decreases ids
  {
    oldest :| oldest in ids;
    var rest := ids - {oldest};
    assert forall o | o in ids :: o == oldest || o in rest;
    if rest != {} {
      var first := OldestExists(table, rest);
      assert first in rest;
      if table[first].entity.createdAt < table[oldest].entity.createdAt {
        oldest := first;
      }
    }
  }

  function Fresh(now: int, temporal: Option<Temporal>, outputs: map<string, string>): Snapshot {
    Snapshot(Entity(Queued, now, now, None, None, temporal, None), outputs)
  }

  /** Nothing but the modification stamp tells a retried write from its first delivery. */
  lemma RedeliveryIsIdempotent(s: Snapshot, data: Update, first: int, again: int)
    ensures Blocked(Apply(s, data, first), data) <==> Blocked(s, data)
    ensures var once, twice := Apply(s, data, first), Apply(Apply(s, data, first), data, again);
      twice.outputs == once.outputs && twice.entity == once.entity.(updatedAt := twice.entity.updatedAt)
  {
  }

  // ---------- Any sequence of updates ----------

  /** A write that reaches the row: one that came through the service, with the
      time it was stamped (before the lock) and committed, or the workflow id
      the create path persists. */
  datatype Attempt =
    | External(input: Input, stampedAt: int, committedAt: int)
    | PersistWorkflowId(temporal: Temporal, committedAt: int)

  datatype Input = Input(status: Option<Status>, temporal: Option<Temporal>, outputs: Option<Outputs>, error: Option<string>)

  /** The service stamps what a status change means. */
  function Stamp(input: Input, now: int): Update {
    Update(
      input.status,
      if input.status == Some(Running) then Some(now) else None,
      if input.status.Some? && Terminal(input.status.value) then Some(now) else None,
      input.temporal, input.error, input.outputs)
  }

  function AttemptOn(s: Snapshot, a: Attempt): Snapshot {
    match a
    case External(input, stampedAt, committedAt) => Apply(s, Stamp(input, stampedAt), committedAt)
    case PersistWorkflowId(temporal, committedAt) => Apply(s, Update(None, None, None, Some(temporal), None, None), committedAt)
  }

  /** The row after the first attempts, in commit order. */
  function After(s: Snapshot, attempts: seq<Attempt>): Snapshot {
    if attempts == [] then s
    else AttemptOn(After(s, attempts[..|attempts| - 1]), attempts[|attempts| - 1])
  }

  function StatusAt(s: Snapshot, attempts: seq<Attempt>, k: nat): Status
    requires k <= |attempts|
  {
    After(s, attempts[..k]).entity.status
  }

  lemma OneMore(s: Snapshot, attempts: seq<Attempt>, k: nat)
    requires k < |attempts|
    ensures After(s, attempts[..k + 1]) == AttemptOn(After(s, attempts[..k]), attempts[k])
  {
    assert attempts[..k + 1][..k] == attempts[..k];
  }

  /** A time of completion exactly when there is a completion; a time of start
      at least while running or completed. */
  predicate Coherent(e: Entity) {
    && (e.completedAt.Some? <==> Terminal(e.status))
    && (e.status in {Running, Completed} ==> e.startedAt.Some?)
  }

  lemma {:induction false} StampsMatchStatus(s: Snapshot, attempts: seq<Attempt>)
    requires Coherent(s.entity)
    ensures Coherent(After(s, attempts).entity)
  {
    if attempts != [] {
      StampsMatchStatus(s, attempts[..|attempts| - 1]);
    }
  }

  /** Each attempt keeps the status or follows one edge. */
  lemma StepFollowsAnEdge(s: Snapshot, attempts: seq<Attempt>, k: nat)
    requires k < |attempts|
    ensures var from, to := StatusAt(s, attempts, k), StatusAt(s, attempts, k + 1); from == to || (from, to) in EDGES
  {
    OneMore(s, attempts, k);
  }

  /** The first terminal status committed is final, whatever is attempted after it. */
  lemma {:induction false} FirstTerminalIsFinal(s: Snapshot, attempts: seq<Attempt>, i: nat, j: nat)
    requires i <= j <= |attempts| && Terminal(StatusAt(s, attempts, i))
    ensures StatusAt(s, attempts, j) == StatusAt(s, attempts, i)
    decreases j
  {
    if i < j {
      FirstTerminalIsFinal(s, attempts, i, j - 1);
      StepFollowsAnEdge(s, attempts, j - 1);
    }
  }

  /** A status once left is never returned to. */
  lemma {:induction false} NoReturn(s: Snapshot, attempts: seq<Attempt>, i: nat, j: nat, k: nat)
    requires i <= j <= k <= |attempts| && StatusAt(s, attempts, i) == StatusAt(s, attempts, k)
    ensures StatusAt(s, attempts, j) == StatusAt(s, attempts, i)
    decreases k
  {
    RankGrows(s, attempts, i, j);
    RankGrows(s, attempts, j, k);
    if Terminal(StatusAt(s, attempts, j)) {
      FirstTerminalIsFinal(s, attempts, j, k);
    }
  }

  function Rank(s: Status): nat {
    match s case Queued => 0 case Running => 1 case _ => 2
  }

  lemma {:induction false} RankGrows(s: Snapshot, attempts: seq<Attempt>, i: nat, j: nat)
    requires i <= j <= |attempts|
    ensures Rank(StatusAt(s, attempts, i)) <= Rank(StatusAt(s, attempts, j))
    decreases j
  {
    if i < j {
      RankGrows(s, attempts, i, j - 1);
      StepFollowsAnEdge(s, attempts, j - 1);
    }
  }

  /** A row that started out queued is completed only by way of running. */
  lemma {:induction false} CompletedOnlyThroughRunning(s: Snapshot, attempts: seq<Attempt>, k: nat) returns (at: nat)
    requires s.entity.status == Queued && k <= |attempts| && StatusAt(s, attempts, k) == Completed
    ensures at < k && StatusAt(s, attempts, at) == Running
    decreases k
  {
    if k == 0 {
      assert false;
    } else {
      StepFollowsAnEdge(s, attempts, k - 1);
      if StatusAt(s, attempts, k - 1) == Completed {
        at := CompletedOnlyThroughRunning(s, attempts, k - 1);
      } else {
        at := k - 1;
      }
    }
  }

  // ---------- What "terminal statuses are immutable" does and does not say ----------

  /** A settled row refuses an update exactly when the update names another status. */
  lemma SettledRefuses(s: Snapshot, input: Input, stampedAt: int)
    requires Terminal(s.entity.status)
    ensures Blocked(s, Stamp(input, stampedAt)) <==> input.status.Some? && input.status.value != s.entity.status
  {
  }

  /** What an update gives for a field is what the row has already. */
  predicate AsItWas<T(==)>(given: Option<T>, current: Option<T>) {
    given.Some? ==> given == current
  }

  /** An update leaves a settled row as it was exactly when it names another
      status, or gives nothing new: an outcome restated at the stamp the row
      carries, the same details, the same outputs, and no newer modification. */
  lemma SettledUnchangedIff(s: Snapshot, input: Input, stampedAt: int, now: int)
    requires Terminal(s.entity.status)
    ensures AttemptOn(s, External(input, stampedAt, now)) == s <==>
      || (input.status.Some? && input.status.value != s.entity.status)
      || (&& (input.status.Some? ==> s.entity.completedAt == Some(stampedAt))
          && AsItWas(input.temporal, s.entity.temporal) && AsItWas(input.error, s.entity.error)
          && (input.outputs.Some? ==> Defined(input.outputs.value) == s.outputs)
          && (input.status.Some? || input.temporal.Some? || input.error.Some? ==> s.entity.updatedAt == now))
  {
    hide Defined;
  }

  /** A settled row whose reason and time of completion a second outcome
      overwrites, and whose outputs an update naming no status replaces. */
  lemma SettledRowStillChanges() returns (s: Snapshot, restated: Attempt, silent: Attempt)
    ensures Terminal(s.entity.status) && Coherent(s.entity)
    ensures var after := AttemptOn(s, restated).entity;
      after.status == s.entity.status && after.error != s.entity.error && after.completedAt != s.entity.completedAt
    ensures silent.External? && silent.input.status.None? && AttemptOn(s, silent).entity == s.entity
    ensures AttemptOn(s, silent).outputs != s.outputs
  {
    s := Snapshot(Entity(Failed, 0, 10, Some(5), Some(10), None, Some("out of memory")), map["scores" := "v1"]);
    restated := External(Input(Some(Failed), None, None, Some("Workflow no longer exists")), 20, 21);
    silent := External(Input(None, None, Some(map[]), None), 20, 21);
    assert "out of memory"[0] == 'o' && "Workflow no longer exists"[0] == 'W';
    assert "scores" in s.outputs && "scores" !in AttemptOn(s, silent).outputs;
  }
}
