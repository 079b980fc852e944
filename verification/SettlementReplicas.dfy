/** The settlement protocol with any number of reconcilers, one to a replica of
    the API: each guards only itself against overlapping passes. */
module SettlementReplicas {
  import opened Wrappers
  import opened SnapshotRows
  import opened Settlement

  /** The protocol's state, its own view unused, and what each replica holds for the row. */
  datatype Cluster = Cluster(core: State, views: seq<View>)

  /** A step, taken with the view of one replica. */
  datatype Turn = Turn(replica: nat, step: Step)

  function SeenBy(c: Cluster, v: View): State {
    c.core.(view := v)
  }

  predicate CanTurn(c: Cluster, t: Turn) {
    t.replica < |c.views| && CanTake(SeenBy(c, c.views[t.replica]), t.step)
  }

  function TakeTurn(c: Cluster, t: Turn): Cluster
    requires CanTurn(c, t)
  {
    var s := Take(SeenBy(c, c.views[t.replica]), t.step);
    Cluster(s.(view := Idle), c.views[t.replica := s.view])
  }

  /** Nothing is claimed here about purges, so all of them count as late. */
  function Start(replicas: nat): Cluster {
    Cluster(Initial().(latePurge := true), seq(replicas, i => Idle))
  }

  function Led(replicas: nat, turns: seq<Turn>): Option<Cluster> {
    if turns == [] then Some(Start(replicas))
    else
      var before := Led(replicas, turns[..|turns| - 1]);
      var t := turns[|turns| - 1];
      if before.Some? && CanTurn(before.value, t) then Some(TakeTurn(before.value, t)) else None
  }

  // ---------- One replica at the row at a time ----------

  /** At most one replica is at the row, and `v` is what it holds. */
  ghost predicate HeldOnly(c: Cluster, v: View) {
    if v.Idle? then forall r | 0 <= r < |c.views| :: c.views[r].Idle?
    else exists r :: 0 <= r < |c.views| && c.views[r] == v
           && forall q | 0 <= q < |c.views| && q != r :: c.views[q].Idle?
  }

  ghost predicate OneAtATime(c: Cluster) {
    exists v :: HeldOnly(c, v)
  }

  ghost predicate TakesTurns(replicas: nat, turns: seq<Turn>) {
    forall k | 0 <= k <= |turns| && Led(replicas, turns[..k]).Some? :: OneAtATime(Led(replicas, turns[..k]).value)
  }

  predicate AllWithinBudget(turns: seq<Turn>) {
    forall t | t in turns :: t.step != SettleOverBudget
  }

  ghost predicate ClusterInv(c: Cluster) {
    c.core.latePurge && exists v :: HeldOnly(c, v) && Inv(SeenBy(c, v))
  }

  /** What the rest of the world does is the same whoever looks at the row. */
  lemma OthersIgnoreViews(s: State, step: Step, v: View)
    requires s.latePurge && s.view.Idle? && CanTake(s, step) && !ForReconciler(step)
    ensures CanTake(s.(view := v), step) && Take(s.(view := v), step) == Take(s, step).(view := v)
  {
  }

  lemma TurnKeepsInv(c: Cluster, t: Turn)
    requires ClusterInv(c) && CanTurn(c, t) && t.step != SettleOverBudget && OneAtATime(TakeTurn(c, t))
    ensures ClusterInv(TakeTurn(c, t))
  {
    hide Inv; hide Take; hide CanTake;
    var v :| HeldOnly(c, v) && Inv(SeenBy(c, v));
    var after := TakeTurn(c, t);
    var mine := c.views[t.replica];
    PurgesStayLate(SeenBy(c, mine), t.step);
    if mine == v {
      var s := Take(SeenBy(c, v), t.step);
      StepKeepsInv(SeenBy(c, v), t.step);
      assert SeenBy(after, s.view) == s;
      HeldByTheMover(c, t, v);
    } else {
      IdleMoverIsNotAtTheRow(c, t, v);
      OthersIgnoreViews(SeenBy(c, Idle), t.step, v);
      assert SeenBy(c, Idle).(view := v) == SeenBy(c, v);
      StepKeepsInv(SeenBy(c, v), t.step);
      assert SeenBy(after, v) == Take(SeenBy(c, v), t.step);
      assert HeldOnly(after, v);
    }
  }

  lemma PurgesStayLate(s: State, step: Step)
    requires s.latePurge && CanTake(s, step)
    ensures Take(s, step).latePurge
  {
  }

  lemma HeldByTheMover(c: Cluster, t: Turn, v: View)
    requires HeldOnly(c, v) && CanTurn(c, t) && c.views[t.replica] == v
    ensures HeldOnly(TakeTurn(c, t), Take(SeenBy(c, v), t.step).view)
  {
    hide Take; hide CanTake;
    var after := TakeTurn(c, t);
    forall q | 0 <= q < |c.views| && q != t.replica ensures after.views[q].Idle? {
      assert c.views[q].Idle?;
    }
    assert after.views[t.replica] == Take(SeenBy(c, v), t.step).view;
  }

  lemma NotTwoAtTheRow(c: Cluster, q: nat, r: nat)
    requires OneAtATime(c) && q < |c.views| && r < |c.views| && q != r
    ensures c.views[q].Idle? || c.views[r].Idle?
  {
    var v :| HeldOnly(c, v);
  }

  /** A replica away from the row, moving while another is at it, is not
      looking at the row: it would be the second one there. */
  lemma IdleMoverIsNotAtTheRow(c: Cluster, t: Turn, v: View)
    requires HeldOnly(c, v) && CanTurn(c, t) && c.views[t.replica] != v && OneAtATime(TakeTurn(c, t))
    ensures c.views[t.replica].Idle? && !ForReconciler(t.step)
    ensures TakeTurn(c, t).views == c.views && HeldOnly(c, v)
  {
    var r :| 0 <= r < |c.views| && c.views[r] == v && forall q | 0 <= q < |c.views| && q != r :: c.views[q].Idle?;
    var after := TakeTurn(c, t);
    assert after.views[r] == v;
    NotTwoAtTheRow(after, t.replica, r);
    assert after.views == c.views;
  }

  lemma {:induction false} TurnsKeepInv(replicas: nat, turns: seq<Turn>)
    requires Led(replicas, turns).Some? && TakesTurns(replicas, turns) && AllWithinBudget(turns)
    ensures ClusterInv(Led(replicas, turns).value)
  {
    hide Inv; hide TakeTurn; hide CanTurn;
    if turns == [] {
      StartKeepsInv(replicas);
    } else {
      var n := |turns| - 1;
      assert turns[n] in turns;
      assert turns[..n + 1] == turns;
      forall k | 0 <= k <= n ensures turns[..n][..k] == turns[..k] {
      }
      TurnsKeepInv(replicas, turns[..n]);
      TurnKeepsInv(Led(replicas, turns[..n]).value, turns[n]);
    }
  }

  lemma StartKeepsInv(replicas: nat)
    ensures ClusterInv(Start(replicas))
  {
    var c := Start(replicas);
    assert HeldOnly(c, Idle);
    assert Inv(SeenBy(c, Idle));
  }

  /** With any number of replicas, as long as no two are at the row at once: a row
      is settled from a describe answer only while no run is live, and the row of
      a live run only by a workflow. */
  lemma ReplicasOneAtATimeAreSafe(replicas: nat, turns: seq<Turn>)
    requires Led(replicas, turns).Some? && TakesTurns(replicas, turns) && AllWithinBudget(turns)
    ensures var c := Led(replicas, turns).value;
      && (forall r | 0 <= r < |c.views| && CanTurn(c, Turn(r, Settle)) :: !c.core.execution.Live?)
      && (c.core.execution.Live? && c.core.row.Some? && Terminal(c.core.row.value.status) ==>
            c.core.row.value.writer.Workflow?)
  {
    TurnsKeepInv(replicas, turns);
    var c := Led(replicas, turns).value;
    hide Led; hide TakeTurn; hide CanTurn; hide Inv; hide HeldOnly;
    var v :| HeldOnly(c, v) && Inv(SeenBy(c, v));
    InvMeans(SeenBy(c, v));
    forall r | 0 <= r < |c.views| && CanTurn(c, Turn(r, Settle)) ensures !c.core.execution.Live? {
      SettlerHolds(c, r);
      HolderHolds(c, v, r);
    }
  }

  lemma SettlerHolds(c: Cluster, r: nat)
    requires CanTurn(c, Turn(r, Settle))
    ensures r < |c.views| && c.views[r].Answered?
  {
  }

  lemma HolderHolds(c: Cluster, v: View, r: nat)
    requires HeldOnly(c, v) && r < |c.views| && !c.views[r].Idle?
    ensures c.views[r] == v
  {
  }

  lemma InvMeans(s: State)
    requires Inv(s)
    ensures s.view.Answered? ==> !s.execution.Live?
    ensures s.execution.Live? && s.row.Some? && Terminal(s.row.value.status) ==> s.row.value.writer.Workflow?
  {
    hide RunsAreCounted; hide WritesMoveOn; hide WritesLeaveTheirMark; hide CompletionIsOnRecord; hide OneRunAtATime;
  }

  // ---------- Any number at the row at once ----------

  predicate ReachesTheServer(step: Step) {
    (step.Restart? || step.CreateStarts?) && !step.call.NeverArrived?
  }

  ghost predicate EndsIt(replicas: nat, turns: seq<Turn>, i: nat)
    requires i < |turns|
  {
    var before := Led(replicas, turns[..i]);
    before.Some? && CanTurn(before.value, turns[i])
    && Ends(SeenBy(before.value, before.value.views[turns[i].replica]), turns[i].step)
  }

  /** Some start since turn `p` reached the server, and nothing has ended its run. */
  ghost predicate RunSince(replicas: nat, turns: seq<Turn>, p: nat) {
    exists k | p <= k < |turns| ::
      ReachesTheServer(turns[k].step) && forall i | k < i < |turns| :: !EndsIt(replicas, turns, i)
  }

  /** The replica has done nothing about the row since turn `p`. */
  predicate Waits(turns: seq<Turn>, r: nat, p: nat) {
    forall i | p <= i < |turns| :: turns[i].replica == r ==> !ForReconciler(turns[i].step)
  }

  lemma TurnMovesRuns(c: Cluster, t: Turn)
    requires CanTurn(c, t)
    ensures TakeTurn(c, t).core.execution.Live? <==>
      ReachesTheServer(t.step) || (c.core.execution.Live? && !Ends(SeenBy(c, c.views[t.replica]), t.step))
    ensures |TakeTurn(c, t).views| == |c.views|
    ensures forall r | 0 <= r < |c.views| && !(t.replica == r && ForReconciler(t.step)) :: TakeTurn(c, t).views[r] == c.views[r]
  {
  }

  lemma EndsItAlready(replicas: nat, turns: seq<Turn>, n: nat, i: nat)
    requires i < n <= |turns|
    ensures EndsIt(replicas, turns[..n], i) == EndsIt(replicas, turns, i)
  {
    hide Led; hide CanTurn; hide Ends;
    assert turns[..n][..i] == turns[..i];
  }

  lemma RunOneFurther(replicas: nat, turns: seq<Turn>, p: nat)
    requires p < |turns|
    ensures RunSince(replicas, turns, p) <==>
      ReachesTheServer(turns[|turns| - 1].step)
      || (RunSince(replicas, turns[..|turns| - 1], p) && !EndsIt(replicas, turns, |turns| - 1))
  {
    hide ReachesTheServer; hide Led; hide CanTurn;
    var n := |turns| - 1;
    hide EndsIt;
    forall i: nat | i < n ensures EndsIt(replicas, turns[..n], i) == EndsIt(replicas, turns, i) {
      EndsItAlready(replicas, turns, n, i);
    }
    if k :| p <= k < |turns| && ReachesTheServer(turns[k].step) && forall i | k < i < |turns| :: !EndsIt(replicas, turns, i) {
      if k < n {
        assert turns[..n][k] == turns[k];
      }
    }
    if ReachesTheServer(turns[n].step) {
      assert RunSince(replicas, turns, p);
    } else if RunSince(replicas, turns[..n], p) && !EndsIt(replicas, turns, n) {
      var k :| p <= k < n && ReachesTheServer(turns[..n][k].step) && forall i | k < i < n :: !EndsIt(replicas, turns[..n], i);
      assert turns[k] == turns[..n][k];
    }
  }

  lemma {:induction false} RunsSince(replicas: nat, turns: seq<Turn>, r: nat, p: nat)
    requires Led(replicas, turns).Some? && p <= |turns| && Waits(turns, r, p)
    ensures Led(replicas, turns[..p]).Some?
    ensures var start := Led(replicas, turns[..p]).value; var c := Led(replicas, turns).value;
      && (r < |c.views| ==> r < |start.views| && c.views[r] == start.views[r])
      && (!start.core.execution.Live? ==> (c.core.execution.Live? <==> RunSince(replicas, turns, p)))
  {
    if p == |turns| {
      assert turns[..p] == turns;
    } else {
      var n := |turns| - 1;
      assert turns[..n][..p] == turns[..p];
      RunsSince(replicas, turns[..n], r, p);
      RunOneFurther(replicas, turns, p);
      hide RunSince; hide TakeTurn; hide CanTurn;
      TurnMovesRuns(Led(replicas, turns[..n]).value, turns[n]);
    }
  }

  lemma AnsweredMeansDead(c: Cluster, r: nat)
    requires CanTurn(c, Turn(r, DescribeExecution)) && TakeTurn(c, Turn(r, DescribeExecution)).views[r].Answered?
    ensures !TakeTurn(c, Turn(r, DescribeExecution)).core.execution.Live?
  {
  }

  /** Whatever any number of replicas and everyone else do between a replica's
      describe and its settling of the row, it settles a live run's row exactly
      when a start has reached the server since and its run has not ended. */
  lemma SettleHitsALiveRunIff(replicas: nat, turns: seq<Turn>, r: nat, p: nat)
    requires Led(replicas, turns).Some? && 0 < p <= |turns|
    requires turns[p - 1] == Turn(r, DescribeExecution) && Waits(turns, r, p)
    requires CanTurn(Led(replicas, turns).value, Turn(r, Settle))
    ensures Led(replicas, turns).value.core.execution.Live? <==> RunSince(replicas, turns, p)
  {
    RunsSince(replicas, turns, r, p);
    SettlerHolds(Led(replicas, turns).value, r);
    var upTo := turns[..p];
    assert upTo[..p - 1] == turns[..p - 1] && upTo[p - 1] == turns[p - 1];
    hide RunSince; hide TakeTurn; hide CanTurn;
    AnsweredMeansDead(Led(replicas, turns[..p - 1]).value, r);
  }

  // ---------- Two replicas at the row at once ----------

  /** A created row, a run and two views: all that moves in the example below. */
  function Pair(row: Row, execution: Execution, runs: nat, first: View, second: View): Cluster {
    Cluster(State(Some(row), execution, runs, {}, {}, Created, Idle, true), [first, second])
  }

  const QUEUED := Row(Queued, ByCreatePath)
  const MISSING := Answered(Queued, IsMissing)

  /** Both find the execution missing; the first starts a run that fails before
      its first write, finds it closed, and is about to settle; the second starts
      another on what it found earlier. The first then fails the row of a live run. */
  lemma TwoReplicasSettleALiveRun() returns (turns: seq<Turn>)
    ensures Led(2, turns).Some? && AllWithinBudget(turns)
    ensures var c := Led(2, turns).value;
      c.core.execution == Live(1, Fetch) && c.core.row == Some(Row(Status.Failed, ByReconciler))
  {
    turns := FirstFindsItsRunClosed();
    hide Led;
    var closed := Answered(Queued, IsClosed(ClosedFailed));
    turns := Then(turns, Turn(1, Restart(Confirmed)), Pair(QUEUED, Live(1, Fetch), 2, closed, Idle));
    turns := Then(turns, Turn(0, Settle), Pair(Row(Status.Failed, ByReconciler), Live(1, Fetch), 2, Idle, Idle));
  }

  lemma FirstFindsItsRunClosed() returns (turns: seq<Turn>)
    ensures AllWithinBudget(turns) && Led(2, turns) ==
      Some(Pair(QUEUED, Closed(ClosedFailed), 1, Answered(Queued, IsClosed(ClosedFailed)), MISSING))
  {
    turns := FirstRunFails();
    hide Led;
    turns := Then(turns, Turn(0, ReadRow), Pair(QUEUED, Closed(ClosedFailed), 1, Read(Queued), MISSING));
    turns := Then(turns, Turn(0, DescribeExecution),
                  Pair(QUEUED, Closed(ClosedFailed), 1, Answered(Queued, IsClosed(ClosedFailed)), MISSING));
  }

  lemma FirstRunFails() returns (turns: seq<Turn>)
    ensures AllWithinBudget(turns) && Led(2, turns) == Some(Pair(QUEUED, Closed(ClosedFailed), 1, Idle, MISSING))
  {
    turns := BothFindItMissing();
    hide Led;
    turns := Then(turns, Turn(0, Restart(Confirmed)), Pair(QUEUED, Live(0, Fetch), 1, Idle, MISSING));
    turns := Then(turns, Turn(0, RunFails(false)), Pair(QUEUED, Closed(ClosedFailed), 1, Idle, MISSING));
  }

  lemma BothFindItMissing() returns (turns: seq<Turn>)
    ensures AllWithinBudget(turns) && Led(2, turns) == Some(Pair(QUEUED, Absent, 0, MISSING, MISSING))
  {
    turns := CreatedWithoutARun();
    hide Led;
    turns := Then(turns, Turn(0, ReadRow), Pair(QUEUED, Absent, 0, Read(Queued), Idle));
    turns := Then(turns, Turn(0, DescribeExecution), Pair(QUEUED, Absent, 0, MISSING, Idle));
    turns := Then(turns, Turn(1, ReadRow), Pair(QUEUED, Absent, 0, MISSING, Read(Queued)));
    turns := Then(turns, Turn(1, DescribeExecution), Pair(QUEUED, Absent, 0, MISSING, MISSING));
  }

  const UNCREATED := Initial().(latePurge := true)

  lemma NothingLed()
    ensures Led(2, []) == Some(Cluster(UNCREATED, [Idle, Idle]))
  {
    assert Start(2).views == [Idle, Idle];
  }

  lemma CreatedWithoutARun() returns (turns: seq<Turn>)
    ensures AllWithinBudget(turns) && Led(2, turns) == Some(Pair(QUEUED, Absent, 0, Idle, Idle))
  {
    NothingLed();
    hide Led;
    turns := Then([], Turn(0, CreateStarts(NeverArrived)), Cluster(UNCREATED.(create := StartErrored), [Idle, Idle]));
    turns := Then(turns, Turn(0, CreateCannotDescribe), Pair(QUEUED, Absent, 0, Idle, Idle));
  }

  lemma Then(turns: seq<Turn>, t: Turn, after: Cluster) returns (more: seq<Turn>)
    requires Led(2, turns).Some? && CanTurn(Led(2, turns).value, t) && AllWithinBudget(turns) && t.step != SettleOverBudget
    requires TakeTurn(Led(2, turns).value, t) == after
    ensures Led(2, more) == Some(after) && AllWithinBudget(more)
  {
    more := turns + [t];
    assert more[..|more| - 1] == turns;
  }
}
