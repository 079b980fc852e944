/** Operations on one connection that overlap: each reads the row, writes it and
    appends to the audit log in separate steps. */
module CommunityRaces {
  import opened Wrappers
  import opened Records
  import opened CommunityAudit

  /** A connect, check, listing or failed disconnect, and how the platform answers it. */
  datatype Operation = Operation(actor: Option<string>, action: Action, answer: Answer)

  /** Connects and disconnects are human; a disconnect that succeeds deletes the row. */
  predicate OnTheRow(o: Operation) {
    (o.action in {Connect, Disconnect} ==> o.actor.Some?) && (o.action.Disconnect? ==> o.answer.FailsWith?)
  }

  /** A listing that succeeds says nothing about the connection. */
  predicate Speaks(o: Operation) {
    !(o.action.ListResources? && o.answer.Succeeds?)
  }

  /** Whether an operation that read `seen` at its start leaves an audit row. */
  predicate LeavesRow(o: Operation, seen: Health) {
    o.actor.Some? || (Speaks(o) && seen != HealthAfter(o.answer))
  }

  /** The steps of an operation: a connect marks the row pending where any other
      reads it; then the row is written; then the audit log. */
  datatype Turn = Look(op: nat) | MarkPending(op: nat) | WriteRow(op: nat) | AppendAudit(op: nat)

  datatype Progress = Began(seen: Health) | Wrote(seen: Health) | Done

  datatype World = World(row: Health, log: seq<AuditRow>, progress: map<nat, Progress>)

  predicate CanTake(ops: seq<Operation>, w: World, t: Turn) {
    && t.op < |ops|
    && match t
       case Look(op) => op !in w.progress && !ops[op].action.Connect?
       case MarkPending(op) => op !in w.progress && ops[op].action.Connect?
       case WriteRow(op) => op in w.progress && w.progress[op].Began?
       case AppendAudit(op) => op in w.progress && w.progress[op].Wrote?
  }

  function Take(id: nat, ops: seq<Operation>, w: World, t: Turn): World
    requires CanTake(ops, w, t)
  {
    var o := ops[t.op];
    match t
    case Look(op) => w.(progress := w.progress[op := Began(w.row)])
    case MarkPending(op) =>
      var pending := Health(Pending, w.row.lastFailure);
      w.(row := pending, progress := w.progress[op := Began(pending)])
    case WriteRow(op) =>
      w.(row := if Speaks(o) then HealthAfter(o.answer) else w.row,
         progress := w.progress[op := Wrote(w.progress[op].seen)])
    case AppendAudit(op) =>
      w.(log := if LeavesRow(o, w.progress[op].seen)
                then w.log + [AuditRow(Some(id), o.actor, o.action, CategoryOf(o.answer))] else w.log,
         progress := w.progress[op := Done])
  }

  /** What a step does to the row, the log and the operation that takes it, by its
      own words: a connect shows the row as pending, with the last reason kept; a
      check that read the row meanwhile always finds a change. */
  lemma WhatATurnDoes(id: nat, ops: seq<Operation>, w: World, t: Turn)
    requires CanTake(ops, w, t)
    ensures var o, after := ops[t.op], Take(id, ops, w, t);
      && (forall op | op in w.progress && op != t.op :: op in after.progress && after.progress[op] == w.progress[op])
      && t.op in after.progress
      && (t.Look? ==> after.row == w.row && after.log == w.log && after.progress[t.op] == Began(w.row))
      && (t.MarkPending? ==>
            && after.row.status == Pending && after.row.lastFailure == w.row.lastFailure && after.log == w.log
            && after.progress[t.op] == Began(after.row))
      && (t.WriteRow? ==>
            && after.log == w.log && after.progress[t.op] == Wrote(w.progress[t.op].seen)
            && (if o.action.ListResources? && o.answer.Succeeds? then after.row == w.row else after.row == HealthAfter(o.answer)))
      && (t.AppendAudit? ==>
            && after.row == w.row && after.progress[t.op].Done?
            && (after.log == w.log <==>
                  o.actor.None? && ((o.action.ListResources? && o.answer.Succeeds?) || w.progress[t.op].seen == HealthAfter(o.answer)))
            && (after.log != w.log ==> after.log == w.log + [AuditRow(Some(id), o.actor, o.action, CategoryOf(o.answer))]))
      && (t.AppendAudit? && w.progress[t.op].seen.status == Pending && Speaks(o) ==> after.log != w.log)
  {
  }

  /** Where a schedule leads from a row and its log; `None` if it cannot be taken. */
  function Reached(id: nat, ops: seq<Operation>, start: World, turns: seq<Turn>): Option<World> {
    if turns == [] then Some(start)
    else
      var before := Reached(id, ops, start, turns[..|turns| - 1]);
      var t := turns[|turns| - 1];
      if before.Some? && CanTake(ops, before.value, t) then Some(Take(id, ops, before.value, t)) else None
  }

  predicate Starts(id: nat, w: World) {
    w.progress == map[] && Replay(w.log, id) == Some(w.row)
  }

  predicate AllDone(w: World) {
    forall op | op in w.progress :: w.progress[op].Done?
  }

  predicate LogReplays(id: nat, w: World) {
    Replay(w.log, id) == Some(w.row)
  }

  // ---------- When the log replays ----------

  /** The last operation to have written what it found. */
  function LastWriter(ops: seq<Operation>, turns: seq<Turn>): Option<nat> {
    if turns == [] then None
    else
      var t := turns[|turns| - 1];
      if t.WriteRow? && t.op < |ops| && Speaks(ops[t.op]) then Some(t.op)
      else LastWriter(ops, turns[..|turns| - 1])
  }

  /** The last operation to have told the log what it found. */
  function LastTeller(id: nat, ops: seq<Operation>, start: World, turns: seq<Turn>): Option<nat> {
    if turns == [] then None
    else
      var before := Reached(id, ops, start, turns[..|turns| - 1]);
      var t := turns[|turns| - 1];
      if t.AppendAudit? && t.op < |ops| && Speaks(ops[t.op]) && before.Some? && t.op in before.value.progress
         && before.value.progress[t.op].Wrote? && LeavesRow(ops[t.op], before.value.progress[t.op].seen)
      then Some(t.op)
      else LastTeller(id, ops, start, turns[..|turns| - 1])
  }

  function FoundBy(ops: seq<Operation>, start: World, op: Option<nat>): Health {
    if op.Some? && op.value < |ops| then HealthAfter(ops[op.value].answer) else start.row
  }

  /** The row is what the last writer found, or a connect has yet to write what it finds. */
  ghost predicate RowIsTheLastWriters(ops: seq<Operation>, start: World, turns: seq<Turn>, w: World) {
    || w.row == FoundBy(ops, start, LastWriter(ops, turns))
    || (exists op :: op in w.progress && w.progress[op].Began? && op < |ops| && ops[op].action.Connect?)
  }

  lemma TellingTheLog(id: nat, log: seq<AuditRow>, o: Operation)
    requires OnTheRow(o) && Replay(log, id).Some?
    ensures Replay(log + [AuditRow(Some(id), o.actor, o.action, CategoryOf(o.answer))], id)
      == if Speaks(o) then Some(HealthAfter(o.answer)) else Replay(log, id)
  {
    ReplayOneMore(log, AuditRow(Some(id), o.actor, o.action, CategoryOf(o.answer)), id);
  }

  lemma {:induction false} WhoSpokeLast(id: nat, ops: seq<Operation>, start: World, turns: seq<Turn>)
    requires Starts(id, start) && (forall o | o in ops :: OnTheRow(o)) && Reached(id, ops, start, turns).Some?
    ensures var w := Reached(id, ops, start, turns).value;
      && Replay(w.log, id) == Some(FoundBy(ops, start, LastTeller(id, ops, start, turns)))
      && RowIsTheLastWriters(ops, start, turns, w)
  {
    hide Replay; hide OnTheRow; hide HealthAfter; hide CategoryOf;
    if turns != [] {
      var n := |turns| - 1;
      WhoSpokeLast(id, ops, start, turns[..n]);
      var before, t := Reached(id, ops, start, turns[..n]).value, turns[n];
      assert ops[t.op] in ops;
      if t.AppendAudit? {
        TellingTheLog(id, before.log, ops[t.op]);
      }
      RowStaysTheLastWriters(id, ops, start, turns, before);
    }
  }

  lemma RowStaysTheLastWriters(id: nat, ops: seq<Operation>, start: World, turns: seq<Turn>, before: World)
    requires turns != [] && CanTake(ops, before, turns[|turns| - 1])
    requires RowIsTheLastWriters(ops, start, turns[..|turns| - 1], before)
    ensures RowIsTheLastWriters(ops, start, turns, Take(id, ops, before, turns[|turns| - 1]))
  {
    hide HealthAfter; hide CategoryOf; hide LeavesRow;
    var t := turns[|turns| - 1];
    var w := Take(id, ops, before, t);
    if t.MarkPending? {
      assert t.op in w.progress && w.progress[t.op].Began?;
    } else if op :| op in before.progress && before.progress[op].Began? && op < |ops| && ops[op].action.Connect? {
      if op != t.op {
        assert op in w.progress && w.progress[op].Began?;
      }
    }
  }

  /** For every schedule of any number of operations: once all are done, the log
      replays to the row exactly when the last operation to write the row and the
      last to tell the log found the same, the row at the start standing in where
      there was none. */
  lemma LogReplaysIff(id: nat, ops: seq<Operation>, start: World, turns: seq<Turn>)
    requires Starts(id, start) && (forall o | o in ops :: OnTheRow(o))
    requires Reached(id, ops, start, turns).Some? && AllDone(Reached(id, ops, start, turns).value)
    ensures LogReplays(id, Reached(id, ops, start, turns).value)
      <==> FoundBy(ops, start, LastWriter(ops, turns)) == FoundBy(ops, start, LastTeller(id, ops, start, turns))
  {
    WhoSpokeLast(id, ops, start, turns);
  }

  // ---------- Which schedules are safe whatever is found ----------

  /** Human checks and connects: they always write the row, and always tell the log. */
  predicate AlwaysTells(o: Operation) {
    o.actor.Some? && o.action in {HealthCheck, Connect}
  }

  function Answering(ops: seq<Operation>, answers: nat -> Answer): (others: seq<Operation>)
    ensures |others| == |ops|
  {
    seq(|ops|, i requires 0 <= i < |ops| => ops[i].(answer := answers(i)))
  }

  function LastToWrite(turns: seq<Turn>): Option<nat> {
    if turns == [] then None
    else if turns[|turns| - 1].WriteRow? then Some(turns[|turns| - 1].op)
    else LastToWrite(turns[..|turns| - 1])
  }

  function LastToAppend(turns: seq<Turn>): Option<nat> {
    if turns == [] then None
    else if turns[|turns| - 1].AppendAudit? then Some(turns[|turns| - 1].op)
    else LastToAppend(turns[..|turns| - 1])
  }

  predicate SamePhase(a: Progress, b: Progress) {
    a.Began? == b.Began? && a.Wrote? == b.Wrote? && a.Done? == b.Done?
  }

  predicate SamePhases(a: World, b: World) {
    a.progress.Keys == b.progress.Keys && forall op | op in a.progress :: SamePhase(a.progress[op], b.progress[op])
  }

  lemma TakenAlike(
    id: nat, ops: seq<Operation>, answers: nat -> Answer, a: World, b: World, t: Turn)
    requires (forall o | o in ops :: AlwaysTells(o)) && SamePhases(a, b)
    ensures CanTake(Answering(ops, answers), b, t) <==> CanTake(ops, a, t)
    ensures CanTake(ops, a, t) ==> SamePhases(Take(id, ops, a, t), Take(id, Answering(ops, answers), b, t))
    ensures t.op < |ops| ==>
      var o := Answering(ops, answers)[t.op];
      Speaks(o) && forall seen :: LeavesRow(o, seen)
  {
    hide HealthAfter; hide CategoryOf;
    if t.op < |ops| {
      assert ops[t.op] in ops;
    }
  }

  /** What is found decides neither which steps can be taken nor who is last. */
  lemma {:induction false} AnswersDoNotSchedule(
    id: nat, ops: seq<Operation>, answers: nat -> Answer, start: World, turns: seq<Turn>)
    requires Starts(id, start) && (forall o | o in ops :: AlwaysTells(o)) && Reached(id, ops, start, turns).Some?
    ensures var others := Answering(ops, answers);
      && Reached(id, others, start, turns).Some?
      && SamePhases(Reached(id, ops, start, turns).value, Reached(id, others, start, turns).value)
      && LastWriter(others, turns) == LastToWrite(turns)
      && LastTeller(id, others, start, turns) == LastToAppend(turns)
  {
    hide Take; hide Answering; hide AlwaysTells; hide Speaks; hide LeavesRow; hide Replay;
    if turns != [] {
      var n := |turns| - 1;
      AnswersDoNotSchedule(id, ops, answers, start, turns[..n]);
      var others := Answering(ops, answers);
      TakenAlike(id, ops, answers, Reached(id, ops, start, turns[..n]).value, Reached(id, others, start, turns[..n]).value, turns[n]);
    }
  }

  /** Such operations leave a log that replays, whatever each of them finds,
      exactly when the last to write the row is the last to append to the log. */
  lemma SafeWhateverIsFoundIff(id: nat, ops: seq<Operation>, start: World, turns: seq<Turn>)
    requires Starts(id, start) && (forall o | o in ops :: AlwaysTells(o))
    requires Reached(id, ops, start, turns).Some? && AllDone(Reached(id, ops, start, turns).value)
    ensures (forall answers :: LogReplaysWith(id, ops, answers, start, turns)) <==> LastToWrite(turns) == LastToAppend(turns)
  {
    hide Reached; hide LastWriter; hide LastTeller; hide LogReplays;
    forall answers
      ensures LogReplaysWith(id, ops, answers, start, turns) <==>
        FoundBy(Answering(ops, answers), start, LastToWrite(turns)) == FoundBy(Answering(ops, answers), start, LastToAppend(turns))
    {
      var others := Answering(ops, answers);
      AnswersDoNotSchedule(id, ops, answers, start, turns);
      forall o | o in others ensures OnTheRow(o) {
        var i :| 0 <= i < |others| && others[i] == o;
        assert ops[i] in ops;
      }
      LogReplaysIff(id, others, start, turns);
    }
    if LastToWrite(turns) != LastToAppend(turns) {
      TwoMayDiffer(id, ops, start, turns);
    }
  }

  ghost predicate LogReplaysWith(id: nat, ops: seq<Operation>, answers: nat -> Answer, start: World, turns: seq<Turn>) {
    var w := Reached(id, Answering(ops, answers), start, turns);
    w.Some? && LogReplays(id, w.value)
  }

  lemma {:induction false} LastOnesAreOperations(id: nat, ops: seq<Operation>, start: World, turns: seq<Turn>)
    requires Reached(id, ops, start, turns).Some?
    ensures LastToWrite(turns).Some? ==> LastToWrite(turns).value < |ops|
    ensures LastToAppend(turns).Some? ==> LastToAppend(turns).value < |ops|
  {
    if turns != [] {
      LastOnesAreOperations(id, ops, start, turns[..|turns| - 1]);
    }
  }

  /** Answers under which two different last operations found different things. */
  lemma TwoMayDiffer(id: nat, ops: seq<Operation>, start: World, turns: seq<Turn>)
    requires Reached(id, ops, start, turns).Some? && LastToWrite(turns) != LastToAppend(turns)
    ensures exists answers :: FoundBy(Answering(ops, answers), start, LastToWrite(turns))
                              != FoundBy(Answering(ops, answers), start, LastToAppend(turns))
  {
    LastOnesAreOperations(id, ops, start, turns);
    var writer, teller := LastToWrite(turns), LastToAppend(turns);
    var one := if start.row == HEALTHY then FailsWith(NetworkError) else Succeeds("");
    var other := if one.Succeeds? then FailsWith(if start.row == Failing(NetworkError) then AuthFailed else NetworkError)
                 else FailsWith(AuthFailed);
    var answers := (k: nat) => if Some(k) == writer then one else other;
    assert FoundBy(Answering(ops, answers), start, writer) != FoundBy(Answering(ops, answers), start, teller);
  }

  // ---------- One writer at a time ----------

  predicate Busy(ops: seq<Operation>, w: World, op: nat) {
    op in w.progress && !w.progress[op].Done? && op < |ops| && Speaks(ops[op])
  }

  ghost predicate OneWriter(ops: seq<Operation>, w: World) {
    forall a, b | Busy(ops, w, a) && Busy(ops, w, b) :: a == b
  }

  /** The log is behind the row only by what the one busy operation has yet to tell. */
  ghost predicate LogFollows(id: nat, ops: seq<Operation>, w: World) {
    && Replay(w.log, id).Some?
    && (LogReplays(id, w) || exists op: nat :: Busy(ops, w, op))
    && (forall op: nat | Busy(ops, w, op) ::
          && (w.progress[op].Wrote? ==> w.row == HealthAfter(ops[op].answer))
          && (!ops[op].action.Connect? ==> Replay(w.log, id) == Some(w.progress[op].seen))
          && (!ops[op].action.Connect? && w.progress[op].Began? ==> w.row == w.progress[op].seen))
  }

  lemma TurnFollows(id: nat, ops: seq<Operation>, w: World, t: Turn)
    requires (forall o | o in ops :: OnTheRow(o)) && CanTake(ops, w, t)
    requires LogFollows(id, ops, w) && OneWriter(ops, w) && OneWriter(ops, Take(id, ops, w, t))
    ensures LogFollows(id, ops, Take(id, ops, w, t))
  {
    hide Replay; hide CategoryOf; hide HealthAfter;
    assert ops[t.op] in ops;
    var after := Take(id, ops, w, t);
    if t.AppendAudit? {
      TellingTheLog(id, w.log, ops[t.op]);
    }
    if Speaks(ops[t.op]) && !t.AppendAudit? {
      assert Busy(ops, after, t.op);
    }
    forall op: nat | Busy(ops, after, op) && op != t.op ensures Busy(ops, w, op) && after.progress[op] == w.progress[op] {
    }
    forall op: nat | Busy(ops, w, op) && op != t.op ensures Busy(ops, after, op) && after.progress[op] == w.progress[op] {
    }
    if t.AppendAudit? && Speaks(ops[t.op]) {
      assert Busy(ops, w, t.op);
      assert LogReplays(id, after);
    } else if t.Look? && Speaks(ops[t.op]) {
      assert LogReplays(id, w);
    }
    assert LogReplays(id, after) || exists op: nat :: Busy(ops, after, op) by {
      if b: nat :| Busy(ops, w, b) && b != t.op {
        assert Busy(ops, after, b);
      }
    }
  }

  ghost predicate OneWriterThroughout(id: nat, ops: seq<Operation>, start: World, turns: seq<Turn>) {
    forall k | 0 <= k <= |turns| && Reached(id, ops, start, turns[..k]).Some? ::
      OneWriter(ops, Reached(id, ops, start, turns[..k]).value)
  }

  lemma {:induction false} ScheduleFollows(id: nat, ops: seq<Operation>, start: World, turns: seq<Turn>)
    requires Starts(id, start) && (forall o | o in ops :: OnTheRow(o))
    requires Reached(id, ops, start, turns).Some? && OneWriterThroughout(id, ops, start, turns)
    ensures LogFollows(id, ops, Reached(id, ops, start, turns).value)
  {
    hide Take; hide CanTake; hide LogFollows; hide OneWriter;
    if turns == [] {
      assert LogFollows(id, ops, start) by { NothingBusy(id, ops, start); }
    } else {
      var n := |turns| - 1;
      assert turns[..n + 1] == turns;
      forall k | 0 <= k <= n ensures turns[..n][..k] == turns[..k] {
      }
      ScheduleFollows(id, ops, start, turns[..n]);
      TurnFollows(id, ops, Reached(id, ops, start, turns[..n]).value, turns[n]);
    }
  }

  lemma NothingBusy(id: nat, ops: seq<Operation>, start: World)
    requires Starts(id, start)
    ensures LogFollows(id, ops, start)
  {
  }

  /** System checks included: while no two operations with something to say about
      the row are under way at once, the log replays whenever none is. */
  lemma OneWriterAtATimeReplays(id: nat, ops: seq<Operation>, start: World, turns: seq<Turn>)
    requires Starts(id, start) && (forall o | o in ops :: OnTheRow(o))
    requires Reached(id, ops, start, turns).Some? && OneWriterThroughout(id, ops, start, turns)
    ensures AllDone(Reached(id, ops, start, turns).value) ==> LogReplays(id, Reached(id, ops, start, turns).value)
  {
    ScheduleFollows(id, ops, start, turns);
  }

  /** A system check that writes and tells without a break between, over a log
      that replays, keeps it so exactly when it finds a change from the row it
      read at its start, or the row already says what it finds. */
  lemma StaleCheckReplaysIff(id: nat, ops: seq<Operation>, w: World, op: nat)
    requires LogReplays(id, w) && CanTake(ops, w, WriteRow(op))
    requires Speaks(ops[op]) && OnTheRow(ops[op]) && ops[op].actor.None?
    ensures CanTake(ops, Take(id, ops, w, WriteRow(op)), AppendAudit(op))
    ensures LogReplays(id, Take(id, ops, Take(id, ops, w, WriteRow(op)), AppendAudit(op)))
      <==> w.progress[op].seen != HealthAfter(ops[op].answer) || w.row == HealthAfter(ops[op].answer)
  {
    TellingTheLog(id, w.log, ops[op]);
  }

  // ---------- Schedules that mislead ----------

  lemma Then(ops: seq<Operation>, start: World, turns: seq<Turn>, t: Turn) returns (more: seq<Turn>)
    requires Reached(0, ops, start, turns).Some? && CanTake(ops, Reached(0, ops, start, turns).value, t)
    ensures Reached(0, ops, start, more) == Some(Take(0, ops, Reached(0, ops, start, turns).value, t))
  {
    more := turns + [t];
    assert more[..|more| - 1] == turns;
  }

  /** A connection whose log is one connect, answered so. */
  function Connected(answer: Answer): (start: World)
    ensures Starts(0, start)
  {
    var row := AuditRow(Some(0), Some("admin"), Connect, CategoryOf(answer));
    ReplayOneMore([], row, 0);
    assert [] + [row] == [row];
    World(HealthAfter(answer), [row], map[])
  }

  /** Two checks, human or not, that both find a change, written in one order and
      told in the other: the row says broken, its log says healthy. */
  lemma ReorderedChecksMislead(actor: Option<string>) returns (ops: seq<Operation>, start: World, turns: seq<Turn>)
    ensures Starts(0, start) && start.row == Failing(NetworkError) && forall o | o in ops :: OnTheRow(o) && o.actor == actor
    ensures Reached(0, ops, start, turns).Some? && AllDone(Reached(0, ops, start, turns).value)
    ensures var w := Reached(0, ops, start, turns).value;
      w.row == Health(Broken, Some(AuthFailed)) && Replay(w.log, 0) == Some(HEALTHY)
  {
    ops := [Operation(actor, HealthCheck, Succeeds("")), Operation(actor, HealthCheck, FailsWith(AuthFailed))];
    start := Connected(FailsWith(NetworkError));
    var told := AuditRow(Some(0), actor, HealthCheck, Some(AuthFailed));
    var fine := AuditRow(Some(0), actor, HealthCheck, None);
    turns := [];
    assert Reached(0, ops, start, turns) == Some(start);
    hide Reached; hide Replay;
    turns := Then(ops, start, turns, Look(0));
    turns := Then(ops, start, turns, Look(1));
    turns := Then(ops, start, turns, WriteRow(0));
    turns := Then(ops, start, turns, WriteRow(1));
    turns := Then(ops, start, turns, AppendAudit(1));
    turns := Then(ops, start, turns, AppendAudit(0));
    assert Reached(0, ops, start, turns).value.log == start.log + [told] + [fine];
    ReplayOneMore(start.log + [told], fine, 0);
  }

  /** Two system checks of a healthy row, the first failing and the second finding
      no change from what it read: the row ends active, its log says degraded. */
  lemma RacingChecksMislead() returns (ops: seq<Operation>, start: World, turns: seq<Turn>)
    ensures Starts(0, start) && start.row == HEALTHY && forall o | o in ops :: OnTheRow(o) && o.actor.None?
    ensures Reached(0, ops, start, turns).Some? && AllDone(Reached(0, ops, start, turns).value)
    ensures var w := Reached(0, ops, start, turns).value;
      w.row == HEALTHY && Replay(w.log, 0) == Some(Health(Degraded, Some(NetworkError)))
  {
    ops := [Operation(None, HealthCheck, FailsWith(NetworkError)), Operation(None, HealthCheck, Succeeds(""))];
    start := Connected(Succeeds(""));
    var lost := AuditRow(Some(0), None, HealthCheck, Some(NetworkError));
    turns := [];
    assert Reached(0, ops, start, turns) == Some(start);
    hide Reached; hide Replay;
    turns := Then(ops, start, turns, Look(0));
    turns := Then(ops, start, turns, Look(1));
    turns := Then(ops, start, turns, WriteRow(0));
    turns := Then(ops, start, turns, AppendAudit(0));
    turns := Then(ops, start, turns, WriteRow(1));
    turns := Then(ops, start, turns, AppendAudit(1));
    assert Reached(0, ops, start, turns).value.log == start.log + [lost];
    ReplayOneMore(start.log, lost, 0);
  }
}
