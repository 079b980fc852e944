/** The settlement protocol of one snapshot row: its workflow's at-least-once
    writes, the reconciler working from stale reads, and the create path, in
    every interleaving. */
module Settlement {
  import opened Wrappers
  import opened SnapshotRows

  datatype CloseKind = ClosedCompleted | ClosedFailed | ClosedCancelled | ClosedByServer

  /** Where a run is. `MarkRunning`, `Finalizing` and `Handling` wait for an
      activity that writes the row; `Posting` follows a confirmed completion. */
  datatype Pc = Fetch | MarkRunning | Phases | Finalizing | Handling(status: Status) | Posting

  datatype Execution = Absent | Live(run: nat, pc: Pc) | Closed(kind: CloseKind) | Purged

  datatype Writer = Workflow(run: nat) | ByReconciler | ByCreatePath

  /** A row, with who committed its current status; `None` once deleted. */
  datatype Row = Row(status: Status, writer: Writer)

  /** A status write an activity attempt sent; until it expires it may land at
      any time, any number of times. */
  datatype Write = Write(run: nat, status: Status)

  datatype CreatePc = Starting | StartErrored | ConfirmedMissing | Created

  /** What the reconciler holds for this row inside a pass. */
  datatype View = Idle | Read(status: Status) | Answered(status: Status, answer: Answer) | RestartErrored

  datatype Answer = IsClosed(kind: CloseKind) | IsMissing

  datatype State = State(
    row: Option<Row>,
    execution: Execution,
    runs: nat,
    sent: set<Write>,
    landed: set<Write>,
    create: CreatePc,
    view: View,
    // whether an execution was purged while one of its writes was in flight or a pass was under way
    latePurge: bool)

  function Initial(): State {
    State(Some(Row(Queued, ByCreatePath)), Absent, 0, {}, {}, Starting, Idle, false)
  }

  /** A start call reaches the server, or fails before it does; the response may
      be lost either way. */
  datatype Call = Confirmed | LostResponse | NeverArrived

  datatype Step =
    // the run
    | FetchRow
    | SendWrite
    | Land(write: Write)
    | Expire(write: Write)
    | WriteAcknowledged
    | PhasesSucceed
    | RunFails(cancelled: bool)
    | WriteGivenUp
    | RowGone
    | Finish
    | ServerCloses
    | Purge
    // the create path
    | CreateStarts(call: Call)
    | CreateDescribes
    | CreateCannotDescribe
    | CreateMarksFailed
    // the reconciler
    | ReadRow
    | DescribeExecution
    | Settle
    | Restart(call: Call)
    | GiveUpRestart
    | SettleOverBudget
    // anyone
    | DeleteRow

  /** A status write under the row lock: the first writer of a status is remembered. */
  function Committed(row: Option<Row>, status: Status, writer: Writer): Option<Row> {
    if row.None? || row.value.status == status || !CanTransition(row.value.status, status) then row
    else Some(Row(status, writer))
  }

  /** The status the activity a live run waits for writes. */
  function Pending(pc: Pc): Option<Status> {
    match pc
    case MarkRunning => Some(Running)
    case Finalizing => Some(Completed)
    case Handling(status) => Some(status)
    case _ => None
  }

  function HandlerClose(status: Status): CloseKind {
    if status == Cancelled then ClosedCancelled else ClosedFailed
  }

  /** The start of a run; a start is refused, harmlessly, while one is live. */
  function Started(s: State): State {
    if s.execution.Live? then s else s.(execution := Live(s.runs, Fetch), runs := s.runs + 1)
  }

  function Called(s: State, call: Call): State {
    if call.NeverArrived? then s else Started(s)
  }

  predicate CanTake(s: State, step: Step) {
    match step
    case FetchRow => s.execution.Live? && s.execution.pc.Fetch?
    case SendWrite => s.execution.Live? && Pending(s.execution.pc).Some?
    case Land(write) => write in s.sent
    case Expire(write) => write in s.sent
    case WriteAcknowledged =>
      s.execution.Live? && Pending(s.execution.pc).Some?
      && Write(s.execution.run, Pending(s.execution.pc).value) in s.landed
    case PhasesSucceed => s.execution.Live? && s.execution.pc.Phases?
    // a failure after the running write is handled; before it, nothing is written
    case RunFails(_) => s.execution.Live? && s.execution.pc in {Fetch, MarkRunning, Phases, Finalizing}
    case WriteGivenUp => s.execution.Live? && s.execution.pc.Handling?
    case RowGone => s.execution.Live? && s.execution.pc in {MarkRunning, Phases, Finalizing} && s.row.None?
    case Finish => s.execution.Live? && s.execution.pc.Posting?
    case ServerCloses => s.execution.Live?
    case Purge => s.execution.Closed?
    case CreateStarts(_) => s.create.Starting?
    case CreateDescribes => s.create.StartErrored?
    case CreateCannotDescribe => s.create.StartErrored?
    case CreateMarksFailed => s.create.ConfirmedMissing?
    // the grace cutoff keeps the reconciler off a row still being created
    case ReadRow => s.view.Idle? && s.create.Created? && s.row.Some? && !Terminal(s.row.value.status)
    case DescribeExecution => s.view.Read?
    case Settle =>
      s.view.Answered? && (s.view.answer.IsClosed? || s.view.status != Queued)
    case Restart(_) => s.view.Answered? && s.view.answer.IsMissing? && s.view.status == Queued
    case GiveUpRestart => s.view.RestartErrored?
    case SettleOverBudget => s.view.RestartErrored?
    case DeleteRow => true
  }

  function SettledStatus(answer: Answer): Status {
    if answer == IsClosed(ClosedCancelled) then Cancelled else Status.Failed
  }

  function Take(s: State, step: Step): State
    requires CanTake(s, step)
  {
    match step
    case FetchRow =>
      // a missing row fails the run, a completed one ends it, any other starts it
      if s.row.None? then s.(execution := Closed(ClosedFailed))
      else if s.row.value.status == Completed then s.(execution := Closed(ClosedCompleted))
      else s.(execution := Live(s.execution.run, MarkRunning))
    case SendWrite => s.(sent := s.sent + {Write(s.execution.run, Pending(s.execution.pc).value)})
    case Land(write) =>
      // a write that finds no row is refused and never acknowledged
      if s.row.None? then s
      else s.(row := Committed(s.row, write.status, Workflow(write.run)), landed := s.landed + {write})
    case Expire(write) => s.(sent := s.sent - {write})
    case WriteAcknowledged =>
      (match s.execution.pc
       case MarkRunning => s.(execution := Live(s.execution.run, Phases))
       case Finalizing => s.(execution := Live(s.execution.run, Posting))
       case Handling(status) => s.(execution := Closed(HandlerClose(status))))
    case PhasesSucceed => s.(execution := Live(s.execution.run, Finalizing))
    case RunFails(cancelled) =>
      if s.execution.pc in {Fetch, MarkRunning}
      then s.(execution := Closed(if cancelled then ClosedCancelled else ClosedFailed))
      else s.(execution := Live(s.execution.run, Handling(if cancelled then Cancelled else Status.Failed)))
    case WriteGivenUp => s.(execution := Closed(HandlerClose(s.execution.pc.status)))
    case RowGone => s.(execution := Closed(ClosedFailed))
    case Finish => s.(execution := Closed(ClosedCompleted))
    case ServerCloses => s.(execution := Closed(ClosedByServer))
    case Purge => s.(execution := Purged, latePurge := s.latePurge || s.sent != {} || !s.view.Idle?)
    case CreateStarts(call) => Called(s, call).(create := if call.Confirmed? then Created else StartErrored)
    case CreateDescribes =>
      s.(create := if s.execution.Absent? || s.execution.Purged? then ConfirmedMissing else Created)
    case CreateCannotDescribe => s.(create := Created)
    case CreateMarksFailed => s.(row := Committed(s.row, Status.Failed, ByCreatePath), create := Created)
    case ReadRow => s.(view := Read(s.row.value.status))
    case DescribeExecution =>
      (match s.execution
       case Live(_, _) => s.(view := Idle)
       case Closed(kind) => s.(view := Answered(s.view.status, IsClosed(kind)))
       case _ => s.(view := Answered(s.view.status, IsMissing)))
    case Settle => s.(row := Committed(s.row, SettledStatus(s.view.answer), ByReconciler), view := Idle)
    case Restart(call) => Called(s, call).(view := if call.Confirmed? then Idle else RestartErrored)
    case GiveUpRestart => s.(view := Idle)
    case SettleOverBudget => s.(row := Committed(s.row, Status.Failed, ByReconciler), view := Idle)
    case DeleteRow => s.(row := None)
  }

  /** The state a run of steps leads to; `None` if one of them cannot be taken. */
  function Reached(steps: seq<Step>): Option<State> {
    if steps == [] then Some(Initial())
    else
      var before := Reached(steps[..|steps| - 1]);
      var step := steps[|steps| - 1];
      if before.Some? && CanTake(before.value, step) then Some(Take(before.value, step)) else None
  }

  /** The code as it is, minus the branch that settles a row whose restart kept failing. */
  predicate WithinBudget(steps: seq<Step>) {
    SettleOverBudget !in steps
  }

  // ---------- What every interleaving keeps ----------

  predicate Settled(s: State) {
    s.row.None? || Terminal(s.row.value.status)
  }

  /** Only runs that were started write, and only the last one can be live. */
  ghost predicate RunsAreCounted(s: State) {
    && (forall w | w in s.sent + s.landed :: w.run < s.runs)
    && (s.execution.Live? ==> s.execution.run == s.runs - 1)
    && (s.row.Some? && s.row.value.writer.Workflow? ==> s.row.value.writer.run < s.runs)
    && (s.execution.Absent? <==> s.runs == 0)
  }

  /** What the reconciler or the create path decided on stays true until it is acted on. */
  predicate DecisionsHold(s: State) {
    && (s.view.Answered? && s.view.answer.IsClosed? ==> s.execution.Closed? || s.execution.Purged?)
    && (s.view.Answered? && s.view.answer.IsMissing? ==> s.execution.Absent? || s.execution.Purged?)
    && (s.create.ConfirmedMissing? ==> s.execution.Absent? || s.execution.Purged?)
    && (s.create.Starting? ==> s.execution.Absent?)
    && (!s.create.Created? ==> s.view.Idle?)
  }

  predicate SettledByOthers(s: State) {
    s.row.Some? && Terminal(s.row.value.status) && !s.row.value.writer.Workflow?
  }

  /** No row a live run could still write was settled by anyone but a workflow,
      nor one somebody is about to act on. */
  predicate OthersSettleTheDead(s: State) {
    SettledByOthers(s) ==> !s.execution.Live? && s.view.Idle? && s.create.Created?
  }

  predicate PastRunning(pc: Pc) {
    pc in {Phases, Finalizing, Posting} || pc.Handling?
  }

  /** No run ever asks for its row to be queued, and its failure handler only for failed or cancelled. */
  ghost predicate WritesMoveOn(s: State) {
    && (forall w | w in s.sent :: w.status != Queued)
    && (s.execution.Live? && s.execution.pc.Handling? ==> s.execution.pc.status in {Status.Failed, Cancelled})
  }

  /** A write that landed left its mark: the row is not queued any more, and
      after a terminal one it is settled. Completion is only ever sent once
      running has landed. */
  ghost predicate WritesLeaveTheirMark(s: State) {
    && (s.landed != {} && s.row.Some? ==> s.row.value.status != Queued)
    && (forall w | w in s.landed && Terminal(w.status) :: Settled(s))
    && (s.execution.Live? && PastRunning(s.execution.pc) ==> Write(s.execution.run, Running) in s.landed)
    && (forall w | w in s.sent && w.status == Completed :: s.landed != {})
  }

  /** A run that closes as completed has its outcome on record. */
  predicate CompletionIsOnRecord(s: State) {
    && (s.execution.Live? && s.execution.pc.Posting? ==> Settled(s))
    && (s.execution == Closed(ClosedCompleted) ==> Settled(s))
    && (s.view.Answered? && s.view.answer == IsClosed(ClosedCompleted) ==> Settled(s))
  }

  /** As long as no execution was purged under a write in flight or a pass under
      way, whatever can still land, or has settled the row, is of the last run. */
  ghost predicate OneRunAtATime(s: State) {
    !s.latePurge ==>
      && (s.execution.Absent? || s.execution.Purged? ==> s.sent == {})
      && (forall w | w in s.sent :: w.run == s.runs - 1)
      && (s.view.Answered? && s.view.answer.IsMissing? ==> !Settled(s) || s.row.None?)
      && (s.view.Read? && (s.execution.Absent? || s.execution.Purged?) ==> !Settled(s) || s.row.None?)
      && (s.execution.Live? && s.row.Some? && Terminal(s.row.value.status) ==>
            s.row.value.writer == Workflow(s.execution.run))
  }

  ghost predicate Inv(s: State) {
    RunsAreCounted(s) && DecisionsHold(s) && OthersSettleTheDead(s) && WritesMoveOn(s) && WritesLeaveTheirMark(s)
    && CompletionIsOnRecord(s) && OneRunAtATime(s)
  }

  lemma StepKeepsRunsCounted(s: State, step: Step)
    requires Inv(s) && CanTake(s, step)
    ensures RunsAreCounted(Take(s, step))
  {
    hide OthersSettleTheDead; hide WritesLeaveTheirMark; hide CompletionIsOnRecord; hide OneRunAtATime;
  }

  lemma StepKeepsDecisions(s: State, step: Step)
    requires Inv(s) && CanTake(s, step)
    ensures DecisionsHold(Take(s, step))
  {
  }

  lemma StepSettlesTheDead(s: State, step: Step)
    requires Inv(s) && CanTake(s, step) && !step.SettleOverBudget?
    ensures OthersSettleTheDead(Take(s, step))
  {
  }

  lemma StepMovesOn(s: State, step: Step)
    requires Inv(s) && CanTake(s, step)
    ensures WritesMoveOn(Take(s, step))
  {
    hide RunsAreCounted; hide DecisionsHold; hide OthersSettleTheDead; hide WritesLeaveTheirMark;
    hide CompletionIsOnRecord; hide OneRunAtATime;
  }

  lemma StepLeavesMarks(s: State, step: Step)
    requires Inv(s) && CanTake(s, step)
    ensures WritesLeaveTheirMark(Take(s, step))
  {
    hide RunsAreCounted; hide DecisionsHold; hide OthersSettleTheDead; hide CompletionIsOnRecord; hide OneRunAtATime;
  }

  lemma StepKeepsCompletion(s: State, step: Step)
    requires Inv(s) && CanTake(s, step)
    ensures CompletionIsOnRecord(Take(s, step))
  {
    hide RunsAreCounted; hide OthersSettleTheDead; hide OneRunAtATime;
  }

  lemma StepKeepsOneRun(s: State, step: Step)
    requires Inv(s) && CanTake(s, step) && !step.SettleOverBudget?
    ensures OneRunAtATime(Take(s, step))
  {
    hide WritesLeaveTheirMark; hide CompletionIsOnRecord;
  }

  lemma {:induction false} EveryRunKeepsInv(steps: seq<Step>)
    requires Reached(steps).Some? && WithinBudget(steps)
    ensures Inv(Reached(steps).value)
  {
    hide Inv; hide Take; hide CanTake;
    if steps == [] {
      InitiallyInv();
    } else {
      var step := steps[|steps| - 1];
      assert step in steps;
      EveryRunKeepsInv(steps[..|steps| - 1]);
      StepKeepsInv(Reached(steps[..|steps| - 1]).value, step);
    }
  }

  lemma InitiallyInv()
    ensures Inv(Initial())
  {
  }

  lemma StepKeepsInv(s: State, step: Step)
    requires Inv(s) && CanTake(s, step) && !step.SettleOverBudget?
    ensures Inv(Take(s, step))
  {
    hide Take; hide CanTake;
    hide RunsAreCounted; hide DecisionsHold; hide OthersSettleTheDead; hide WritesMoveOn; hide WritesLeaveTheirMark; hide CompletionIsOnRecord; hide OneRunAtATime;
    StepKeepsRunsCounted(s, step);
    StepKeepsDecisions(s, step);
    StepSettlesTheDead(s, step);
    StepMovesOn(s, step);
    StepLeavesMarks(s, step);
    StepKeepsCompletion(s, step);
    StepKeepsOneRun(s, step);
  }

  // ---------- The theorems ----------

  /** In every interleaving, a row is settled from a describe answer, or by the
      create path, only while no run is live. */
  lemma SettlingNeverMeetsALiveRun(steps: seq<Step>, step: Step)
    requires WithinBudget(steps) && Reached(steps).Some? && CanTake(Reached(steps).value, step)
    requires step in {Settle, CreateMarksFailed}
    ensures !Reached(steps).value.execution.Live?
  {
    EveryRunKeepsInv(steps);
  }

  /** The row of a live run is settled only by a workflow, and by that very run
      unless an earlier one was purged with a write still in flight or mid-pass. */
  lemma LiveRunSettlesItsOwnRow(steps: seq<Step>)
    requires WithinBudget(steps) && Reached(steps).Some?
    ensures var s := Reached(steps).value;
      s.execution.Live? && s.row.Some? && Terminal(s.row.value.status) ==>
        && s.row.value.writer.Workflow? && s.row.value.writer.run <= s.execution.run
        && (!s.latePurge ==> s.row.value.writer.run == s.execution.run)
  {
    EveryRunKeepsInv(steps);
  }

  /** A workflow closes as completed only once its row is settled, so settling a
      row from a completed execution never changes its status. */
  lemma CompletedExecutionLeavesNothingToSettle(steps: seq<Step>)
    requires WithinBudget(steps) && Reached(steps).Some?
    ensures var s := Reached(steps).value;
      && (s.execution == Closed(ClosedCompleted) ==> Settled(s))
      && (s.view.Answered? && s.view.answer == IsClosed(ClosedCompleted) ==> Take(s, Settle).row == s.row)
  {
    hide Reached; hide RunsAreCounted; hide DecisionsHold; hide OthersSettleTheDead; hide WritesLeaveTheirMark; hide OneRunAtATime;
    EveryRunKeepsInv(steps);
  }

  // ---------- What a step does ----------

  /** Whether a step ends the run it finds live. */
  predicate Ends(s: State, step: Step)
    requires CanTake(s, step)
  {
    s.execution.Live? && !Take(s, step).execution.Live?
  }

  /** Who moves the row, and to what: a settled row moves no more; of the steps
      that meet an unsettled one, five move it, each to one status. */
  lemma WhoMovesTheRow(s: State, step: Step)
    requires CanTake(s, step)
    ensures var row, after := s.row, Take(s, step).row;
      && (after.None? <==> row.None? || step.DeleteRow?)
      && (row.Some? && row.value.status in {Completed, Status.Failed, Cancelled} && !step.DeleteRow? ==> after == row)
      && (row.Some? && row.value.status in {Queued, Running} && !step.DeleteRow? ==>
            match step
            case Settle =>
              after == Some(Row(if s.view.answer == IsClosed(ClosedCancelled) then Cancelled else Status.Failed, ByReconciler))
            case SettleOverBudget => after == Some(Row(Status.Failed, ByReconciler))
            case CreateMarksFailed => after == Some(Row(Status.Failed, ByCreatePath))
            case Land(write) =>
              after == if (row.value.status, write.status) in EDGES then Some(Row(write.status, Workflow(write.run))) else row
            case _ => after == row)
  {
  }

  /** When a run starts and when it ends, and what an ended one is closed as. */
  lemma WhoMovesTheRun(s: State, step: Step)
    requires CanTake(s, step)
    ensures var after := Take(s, step);
      && (after.runs != s.runs <==> !s.execution.Live? && (step.Restart? || step.CreateStarts?) && !step.call.NeverArrived?)
      && (after.runs != s.runs ==> after.runs == s.runs + 1 && after.execution == Live(s.runs, Fetch))
      && (!s.execution.Live? && after.runs == s.runs ==> after.execution == if step.Purge? then Purged else s.execution)
      && (s.execution.Live? ==>
            var pc := s.execution.pc;
            && (Ends(s, step) <==>
                  || step in {ServerCloses, Finish, WriteGivenUp, RowGone}
                  || (step == WriteAcknowledged && pc.Handling?)
                  || (step.RunFails? && pc in {Fetch, MarkRunning})
                  || (step == FetchRow && (s.row.None? || s.row.value.status == Completed)))
            && if Ends(s, step) then
              && after.execution.Closed?
              && (after.execution.kind == ClosedByServer <==> step == ServerCloses)
              && (after.execution.kind == ClosedCompleted <==>
                    step == Finish || (step == FetchRow && s.row.Some? && s.row.value.status == Completed))
              && (after.execution.kind == ClosedCancelled <==>
                    || (step == RunFails(true) && pc in {Fetch, MarkRunning})
                    || (step in {WriteAcknowledged, WriteGivenUp} && pc == Handling(Cancelled)))
            else after.execution.Live? && after.execution.run == s.execution.run)
  {
  }

  /** The reconciler can take up every created row that is queued or running, and
      is never stuck at one. */
  lemma ReconcilerMovesOn(s: State)
    ensures CanTake(s, ReadRow) <==>
      s.view.Idle? && s.create.Created? && s.row.Some? && s.row.value.status in {Queued, Running}
    ensures CanTake(s, DescribeExecution) <==> s.view.Read?
    ensures CanTake(s, Settle) || CanTake(s, Restart(Confirmed)) <==> s.view.Answered?
    ensures s.view.RestartErrored? ==> CanTake(s, GiveUpRestart) && Take(s, GiveUpRestart) == s.(view := Idle)
  {
    if s.row.Some? {
      var status := s.row.value.status;
      assert status.Queued? || status.Running? || status.Completed? || status.Failed? || status.Cancelled?;
    }
  }

  /** After a failed start the create path fails the row only if it finds nothing there. */
  lemma CreatePathFailsTheMissing(s: State)
    requires s.create.StartErrored?
    ensures var after := Take(s, CreateDescribes);
      && CanTake(s, CreateDescribes) && after == s.(create := after.create)
      && (CanTake(after, CreateMarksFailed) <==> !s.execution.Live? && !s.execution.Closed?)
    ensures Take(s, CreateCannotDescribe) == s.(create := Created)
  {
  }

  lemma OneFurther(steps: seq<Step>, mid: seq<Step>)
    requires mid != [] && Reached(steps + mid).Some?
    ensures var before := Reached(steps + mid[..|mid| - 1]);
      && before.Some? && CanTake(before.value, mid[|mid| - 1])
      && Reached(steps + mid) == Some(Take(before.value, mid[|mid| - 1]))
  {
    var all := steps + mid;
    assert all[..|all| - 1] == steps + mid[..|mid| - 1] && all[|all| - 1] == mid[|mid| - 1];
  }

  lemma Then(steps: seq<Step>, step: Step) returns (more: seq<Step>)
    requires Reached(steps).Some? && CanTake(Reached(steps).value, step)
    ensures more == steps + [step] && Reached(more) == Some(Take(Reached(steps).value, step))
  {
    more := steps + [step];
    assert more[..|more| - 1] == steps;
  }

  // ---------- Progress ----------

  /** A fetched run whose row is queued marks it running. */
  lemma RunMarksRunning(steps: seq<Step>) returns (more: seq<Step>)
    requires Reached(steps).Some?
    requires var s := Reached(steps).value;
      s.execution.Live? && s.execution.pc.Fetch? && s.row.Some? && s.row.value.status == Queued
    ensures var s := Reached(steps).value; var run := s.execution.run;
      && more == steps + [FetchRow, SendWrite, Land(Write(run, Running)), WriteAcknowledged]
      && Reached(more).Some? && Reached(more).value == s.(
           execution := Live(run, Phases), row := Some(Row(Running, Workflow(run))),
           sent := s.sent + {Write(run, Running)}, landed := s.landed + {Write(run, Running)})
  {
    hide Reached;
    var run := Reached(steps).value.execution.run;
    more := Then(steps, FetchRow);
    more := Then(more, SendWrite);
    more := Then(more, Land(Write(run, Running)));
    more := Then(more, WriteAcknowledged);
  }

  /** Left alone from there, a run whose phases succeed ends completed, its row with it. */
  lemma RunCompletes(steps: seq<Step>) returns (more: seq<Step>)
    requires Reached(steps).Some?
    requires var s := Reached(steps).value;
      s.execution.Live? && s.execution.pc.Phases? && s.row.Some? && s.row.value.status == Running
    ensures var s := Reached(steps).value; var run := s.execution.run;
      && more == steps + [PhasesSucceed, SendWrite, Land(Write(run, Completed)), WriteAcknowledged, Finish]
      && Reached(more).Some? && Reached(more).value == s.(
           execution := Closed(ClosedCompleted), row := Some(Row(Completed, Workflow(run))),
           sent := s.sent + {Write(run, Completed)}, landed := s.landed + {Write(run, Completed)})
  {
    hide Reached;
    var run := Reached(steps).value.execution.run;
    more := Then(steps, PhasesSucceed);
    more := Then(more, SendWrite);
    more := Then(more, Land(Write(run, Completed)));
    more := Then(more, WriteAcknowledged);
    more := Then(more, Finish);
  }

  /** And one whose phases fail, or that is cancelled, says so on its row before it closes. */
  lemma RunFailsOnRecord(steps: seq<Step>, cancelled: bool) returns (more: seq<Step>)
    requires Reached(steps).Some?
    requires var s := Reached(steps).value;
      s.execution.Live? && s.execution.pc.Phases? && s.row.Some? && s.row.value.status == Running
    ensures var s := Reached(steps).value; var run := s.execution.run;
      var status, kind := if cancelled then Cancelled else Status.Failed, if cancelled then ClosedCancelled else ClosedFailed;
      && more == steps + [RunFails(cancelled), SendWrite, Land(Write(run, status)), WriteAcknowledged]
      && Reached(more).Some? && Reached(more).value == s.(
           execution := Closed(kind), row := Some(Row(status, Workflow(run))),
           sent := s.sent + {Write(run, status)}, landed := s.landed + {Write(run, status)})
  {
    hide Reached;
    var run, status := Reached(steps).value.execution.run, if cancelled then Cancelled else Status.Failed;
    more := Then(steps, RunFails(cancelled));
    more := Then(more, SendWrite);
    more := Then(more, Land(Write(run, status)));
    more := Then(more, WriteAcknowledged);
  }

  predicate ForReconciler(step: Step) {
    step in {ReadRow, DescribeExecution, Settle, GiveUpRestart, SettleOverBudget} || step.Restart?
  }

  predicate ByOthers(mid: seq<Step>) {
    forall step | step in mid :: !ForReconciler(step)
  }

  lemma {:induction false} OthersLeaveTheView(steps: seq<Step>, mid: seq<Step>)
    requires Reached(steps).Some? && Reached(steps + mid).Some? && ByOthers(mid)
    ensures Reached(steps + mid).value.view == Reached(steps).value.view
    decreases |mid|
  {
    hide Reached;
    if mid == [] {
      assert steps + mid == steps;
    } else {
      var n := |mid| - 1;
      assert mid[n] in mid;
      OneFurther(steps, mid);
      OthersLeaveTheView(steps, mid[..n]);
    }
  }

  lemma LastStep(steps: seq<Step>, step: Step)
    requires Reached(steps + [step]).Some?
    ensures Reached(steps).Some? && CanTake(Reached(steps).value, step)
    ensures Reached(steps + [step]) == Some(Take(Reached(steps).value, step))
  {
    assert (steps + [step])[..|steps|] == steps;
  }

  /** Where a turn that found `found` on a row read as `read` ends from `s`: at a
      settled row after a settle, at a run started again, or away from the row. */
  predicate TurnEnds(found: Execution, read: Status, s: State) {
    if found.Live? then s.view.Idle?
    else if found.Closed? || read != Queued then
      && CanTake(s, Settle) && Settled(Take(s, Settle)) && Take(s, Settle).view.Idle?
      && (!Settled(s) ==>
            Take(s, Settle).row == Some(Row(if found == Closed(ClosedCancelled) then Cancelled else Status.Failed, ByReconciler)))
    else
      && !CanTake(s, Settle) && CanTake(s, Restart(Confirmed))
      && Take(s, Restart(Confirmed)).execution.Live? && Take(s, Restart(Confirmed)).view.Idle?
  }

  /** The reconciler's turn at a row, whatever all others do meanwhile: a live
      execution is left to itself; a closed one, or one gone whose row was past
      queued, leads to a settle, and the row is settled after it; one gone whose
      row was queued is started again. */
  lemma TurnSettles(steps: seq<Step>, first: seq<Step>, second: seq<Step>)
    requires ByOthers(first) && ByOthers(second)
    requires Reached(steps).Some? && CanTake(Reached(steps).value, ReadRow)
    requires Reached(steps + [ReadRow] + first + [DescribeExecution]).Some?
    requires Reached(steps + [ReadRow] + first + [DescribeExecution] + second).Some?
    ensures Reached(steps + [ReadRow] + first).Some?
    ensures TurnEnds(
      Reached(steps + [ReadRow] + first).value.execution, Reached(steps).value.row.value.status,
      Reached(steps + [ReadRow] + first + [DescribeExecution] + second).value)
  {
    var read := steps + [ReadRow];
    var described := read + first + [DescribeExecution];
    assert read[..|steps|] == steps;
    LastStep(read + first, DescribeExecution);
    hide Reached; hide Take; hide CanTake; hide TurnEnds;
    ReadsTheStatus(Reached(steps).value);
    OthersLeaveTheView(read, first);
    OthersLeaveTheView(described, second);
    EndOfTurn(Reached(read + first).value, Reached(steps).value.row.value.status, Reached(described + second).value);
  }

  lemma ReadsTheStatus(s: State)
    requires CanTake(s, ReadRow)
    ensures s.row.Some? && Take(s, ReadRow).view == Read(s.row.value.status)
  {
  }

  lemma EndOfTurn(found: State, read: Status, s: State)
    requires found.view == Read(read) && s.view == Take(found, DescribeExecution).view
    ensures TurnEnds(found.execution, read, s)
  {
  }

  /** Once settled, a row stays as it is, or is deleted. */
  lemma {:induction false} SettledStays(steps: seq<Step>, mid: seq<Step>)
    requires Reached(steps).Some? && Reached(steps + mid).Some? && Settled(Reached(steps).value)
    ensures Reached(steps + mid).value.row in {Reached(steps).value.row, None}
    decreases |mid|
  {
    hide Reached; hide Take; hide CanTake;
    if mid == [] {
      assert steps + mid == steps;
    } else {
      var n := |mid| - 1;
      OneFurther(steps, mid);
      SettledStays(steps, mid[..n]);
      WhoMovesTheRow(Reached(steps + mid[..n]).value, mid[n]);
    }
  }

  // ---------- The branch left out above ----------

  /** No step of `mid`, taken after `steps`, ended a run. */
  ghost predicate NoneEnds(steps: seq<Step>, mid: seq<Step>) {
    forall i | 0 <= i < |mid| && Reached(steps + mid[..i]).Some? && CanTake(Reached(steps + mid[..i]).value, mid[i]) ::
      !Ends(Reached(steps + mid[..i]).value, mid[i])
  }

  /** The reconciler has not left the row whose restart failed. */
  predicate StillAtTheRow(mid: seq<Step>) {
    GiveUpRestart !in mid && SettleOverBudget !in mid
  }

  /** While the reconciler is at the row, nobody starts a run: one is live as
      long as it was from the beginning and no step has ended it. */
  lemma {:induction false} NobodyElseStarts(steps: seq<Step>, mid: seq<Step>)
    requires Reached(steps).Some? && Reached(steps).value.view.RestartErrored? && Reached(steps).value.create.Created?
    requires StillAtTheRow(mid) && Reached(steps + mid).Some?
    ensures var t := Reached(steps + mid).value;
      && t.view.RestartErrored? && t.create.Created?
      && (t.execution.Live? <==> Reached(steps).value.execution.Live? && NoneEnds(steps, mid))
    decreases |mid|
  {
    hide Reached;
    if mid == [] {
      assert steps + mid == steps;
    } else {
      var n := |mid| - 1;
      OneFurther(steps, mid);
      NobodyElseStarts(steps, mid[..n]);
      assert mid[n] in mid;
      assert forall i | 0 <= i < n :: mid[..n][..i] == mid[..i];
      NoneEndsOneFurther(steps, mid);
      TakenAtTheRow(Reached(steps + mid[..n]).value, mid[n]);
    }
  }

  lemma NoneEndsOneFurther(steps: seq<Step>, mid: seq<Step>)
    requires mid != []
    requires var before := Reached(steps + mid[..|mid| - 1]); before.Some? && CanTake(before.value, mid[|mid| - 1])
    ensures NoneEnds(steps, mid) <==>
      NoneEnds(steps, mid[..|mid| - 1]) && !Ends(Reached(steps + mid[..|mid| - 1]).value, mid[|mid| - 1])
  {
    hide Reached; hide Ends; hide CanTake;
    var n := |mid| - 1;
    assert forall i | 0 <= i < n :: mid[..n][..i] == mid[..i] && mid[..n][i] == mid[i];
  }

  lemma TakenAtTheRow(s: State, step: Step)
    requires s.view.RestartErrored? && s.create.Created? && CanTake(s, step)
    requires step != GiveUpRestart && step != SettleOverBudget
    ensures var t := Take(s, step);
      && t.view.RestartErrored? && t.create.Created?
      && (t.execution.Live? <==> s.execution.Live? && !Ends(s, step))
  {
  }

  /** Whatever everyone else does between a failed restart and giving up on it,
      the row that is settled then is a live run's exactly when the failed call
      had reached the server and the run it started has not ended since. */
  lemma OverBudgetHitsALiveRunIff(steps: seq<Step>, call: Call, mid: seq<Step>)
    requires WithinBudget(steps) && Reached(steps).Some?
    requires CanTake(Reached(steps).value, Restart(call)) && !call.Confirmed?
    requires StillAtTheRow(mid) && Reached(steps + [Restart(call)] + mid).Some?
    ensures var s := Reached(steps + [Restart(call)] + mid).value;
      && CanTake(s, SettleOverBudget)
      && (s.execution.Live? <==> call.LostResponse? && NoneEnds(steps + [Restart(call)], mid))
      && Take(s, SettleOverBudget).execution == s.execution
      && (!Settled(s) ==> Take(s, SettleOverBudget).row == Some(Row(Status.Failed, ByReconciler)))
  {
    EveryRunKeepsInv(steps);
    var one := steps + [Restart(call)];
    assert one[..|one| - 1] == steps && one[|one| - 1] == Restart(call);
    assert Reached(one) == Some(Take(Reached(steps).value, Restart(call)));
    hide Reached; hide Inv; hide Take; hide CanTake; hide Settled;
    RestartErrs(Reached(steps).value, call);
    NobodyElseStarts(one, mid);
    SettledOverBudget(Reached(one + mid).value);
  }

  lemma SettledOverBudget(s: State)
    requires s.view.RestartErrored?
    ensures CanTake(s, SettleOverBudget) && Take(s, SettleOverBudget).execution == s.execution
    ensures !Settled(s) ==> Take(s, SettleOverBudget).row == Some(Row(Status.Failed, ByReconciler))
  {
  }

  lemma RestartErrs(s: State, call: Call)
    requires Inv(s) && CanTake(s, Restart(call)) && !call.Confirmed?
    ensures var t := Take(s, Restart(call));
      t.view.RestartErrored? && t.create.Created? && (t.execution.Live? <==> call.LostResponse?)
  {
    hide RunsAreCounted; hide OthersSettleTheDead; hide WritesMoveOn; hide WritesLeaveTheirMark;
    hide CompletionIsOnRecord; hide OneRunAtATime;
  }

  /** A run of the code in which a live workflow's row is failed by the
      reconciler, and its own completion is then refused. */
  lemma LiveRunLosesItsRow() returns (steps: seq<Step>)
    ensures Reached(steps).Some?
    ensures var s := Reached(steps).value;
      s.execution == Live(0, Posting) && s.row == Some(Row(Status.Failed, ByReconciler))
  {
    steps := LostRestart();
    hide Reached;
    steps := Then(steps, FetchRow);
    steps := Then(steps, SendWrite);
    steps := Then(steps, Land(Write(0, Running)));
    steps := Then(steps, WriteAcknowledged);
    assert Reached(steps).value.execution == Live(0, Phases);
    steps := Then(steps, PhasesSucceed);
    steps := Then(steps, SendWrite);
    steps := Then(steps, Land(Write(0, Completed)));
    steps := Then(steps, WriteAcknowledged);
  }

  lemma LostRestart() returns (steps: seq<Step>)
    ensures Reached(steps) ==
      Some(State(Some(Row(Status.Failed, ByReconciler)), Live(0, Fetch), 1, {}, {}, Created, Idle, false))
  {
    hide Reached;
    steps := FoundMissing();
    steps := Then(steps, Restart(LostResponse));
    steps := Then(steps, SettleOverBudget);
  }

  lemma FoundMissing() returns (steps: seq<Step>)
    ensures Reached(steps) ==
      Some(State(Some(Row(Queued, ByCreatePath)), Absent, 0, {}, {}, Created, Answered(Queued, IsMissing), false))
  {
    steps := [];
    assert Reached([]) == Some(Initial());
    hide Reached;
    steps := Then(steps, CreateStarts(NeverArrived));
    steps := Then(steps, CreateCannotDescribe);
    steps := Then(steps, ReadRow);
    steps := Then(steps, DescribeExecution);
  }
}
