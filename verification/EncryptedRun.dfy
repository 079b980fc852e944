/** One orchestrator run as the sequence of activities it awaits: the readiness
    polls under a fixed deadline, the encrypted passes, and the status writes
    around them. */
module EncryptedRun {
  import opened Wrappers
  import opened SnapshotRows

  const MINUTE_MS := 60_000
  const POLL_DELAYS_MS: seq<int> := [MINUTE_MS, 15 * MINUTE_MS, 60 * MINUTE_MS]
  const STEADY_POLL_DELAY_MS := 60 * MINUTE_MS
  const ENCRYPTION_DEADLINE_MS := 24 * 60 * MINUTE_MS

  datatype Failure = SnapshotNotFound | Cancellation | OtherFailure

  datatype Observation = Observation(scoreType: string, observation: int)

  /** One readiness poll: the clock when its sleep began and ended and when its
      pass was over, and what the pass said. */
  datatype Poll = Poll(deadline: int, slept: int, woke: int, finished: int, ready: bool)

  /** An awaited activity. */
  datatype Event =
    | FetchedSnapshot
    | WroteRow(status: Option<Status>, outputs: bool)
    | Prepared
    | RanAlgorithm
    | SubmittedRaw(timestamp: int)
    | Polled(poll: Poll)
    | EncryptedPass(timestamp: int, observations: seq<Observation>, submitted: bool)

  /** How the i-th awaited activity of the run goes: whether it fails, how long
      it takes, and what it answers. `late` is how long a sleep lasts whose
      requested time is not positive. */
  datatype Script = Script(
    failure: nat -> Option<Failure>,
    took: nat -> nat,
    late: nat -> nat,
    ready: nat -> bool,
    submitted: nat -> bool)

  predicate Succeeded(script: Script, i: nat) {
    script.failure(i).None?
  }

  predicate AllSucceeded(script: Script, from: nat, to: nat) {
    forall i | from <= i < to :: Succeeded(script, i)
  }

  datatype Result = Done | Threw(failure: Failure) | CutOff

  datatype Readiness = Ready | TimedOut | Broke(failure: Failure)

  // ---------- Readiness polls ----------

  function Delay(pollIndex: nat): (ms: int)
    ensures ms >= MINUTE_MS
  {
    if pollIndex < |POLL_DELAYS_MS| then POLL_DELAYS_MS[pollIndex] else STEADY_POLL_DELAY_MS
  }

  /** The delays of the first `n` polls together. */
  function Elapsed(n: nat): int {
    if n == 0 then 0 else Elapsed(n - 1) + Delay(n - 1)
  }

  /** The `i`-th poll of a call, begun at `began`. */
  predicate OnSchedule(p: Poll, i: nat, began: int, deadline: int) {
    && p.deadline == deadline && p.slept == began && p.woke <= p.finished
    && (if began < deadline then p.woke == began + Min(Delay(i), deadline - began) else began <= p.woke)
  }

  function Min(a: int, b: int): int {
    if a <= b then a else b
  }

  /** When the first `n` polls were over. */
  function Until(polls: seq<Poll>, entered: int, n: nat): int
    requires n <= |polls|
  {
    if n == 0 then entered else polls[n - 1].finished
  }

  /** The polls of one call: back to back, each on schedule, and all but the
      last not ready and over before the deadline. */
  predicate Polling(polls: seq<Poll>, entered: int, deadline: int) {
    && (forall i | 0 <= i < |polls| :: OnSchedule(polls[i], i, Until(polls, entered, i), deadline))
    && (forall i | 0 <= i < |polls| - 1 :: !polls[i].ready && polls[i].finished < deadline)
  }

  /** No sleep that starts before the deadline lasts past it. */
  lemma NoSleepCrossesTheDeadline(polls: seq<Poll>, entered: int, deadline: int, i: nat)
    requires Polling(polls, entered, deadline) && i < |polls|
    ensures polls[i].slept < deadline ==> polls[i].slept < polls[i].woke <= deadline
  {
    assert OnSchedule(polls[i], i, Until(polls, entered, i), deadline);
  }

  /** A poll over before the deadline waited out its whole delay. */
  lemma WholeDelay(p: Poll, i: nat, began: int, deadline: int)
    requires OnSchedule(p, i, began, deadline) && p.finished < deadline
    ensures began + Delay(i) <= p.finished
  {
    hide Delay;
  }

  /** So did every poll but the last. */
  lemma {:induction false} DelaysAddUp(polls: seq<Poll>, entered: int, deadline: int, n: nat)
    requires Polling(polls, entered, deadline) && 0 < n < |polls|
    ensures entered + Elapsed(n) <= polls[n - 1].finished < deadline
  {
    hide Delay; hide OnSchedule;
    var last := polls[n - 1];
    assert OnSchedule(last, n - 1, Until(polls, entered, n - 1), deadline);
    assert last.finished < deadline;
    WholeDelay(last, n - 1, Until(polls, entered, n - 1), deadline);
    assert Elapsed(n) == Elapsed(n - 1) + Delay(n - 1);
    if n == 1 {
      assert Elapsed(0) == 0;
    } else {
      DelaysAddUp(polls, entered, deadline, n - 1);
    }
  }

  lemma {:induction false} ElapsedInMinutes(n: nat)
    ensures n * MINUTE_MS <= Elapsed(n)
    ensures n == 1 ==> Elapsed(n) == MINUTE_MS
    ensures n >= 2 ==> Elapsed(n) == 16 * MINUTE_MS + (n - 2) * STEADY_POLL_DELAY_MS
  {
    if n > 0 {
      ElapsedInMinutes(n - 1);
    }
  }

  /** A call polls once, or no more often than whole minutes fit before the deadline, rounded up. */
  lemma PollsAreFew(polls: seq<Poll>, entered: int, deadline: int)
    requires Polling(polls, entered, deadline)
    ensures |polls| <= 1 || (|polls| - 1) * MINUTE_MS < deadline - entered
    ensures deadline - entered <= ENCRYPTION_DEADLINE_MS ==> |polls| <= 26
  {
    hide Elapsed; hide Polling;
    if |polls| > 1 {
      DelaysAddUp(polls, entered, deadline, |polls| - 1);
      ElapsedInMinutes(|polls| - 1);
    }
  }

  // ---------- Rounds ----------

  /** A sleep begun before the deadline is over by then. */
  predicate SleptInTime(p: Poll) {
    p.slept < p.deadline ==> p.woke <= p.deadline
  }

  /** A poll that said ready, or was over before the deadline. */
  predicate OverInTime(p: Poll) {
    p.ready || p.finished < p.deadline
  }

  /** Polls under one deadline, no sleep begun before it lasting past it and no
      poll over at or after it without being ready, unless it is the last event;
      each encrypted pass right after a ready poll, all with the same timestamp
      and observations, and none submitted but the last. */
  ghost predicate IsRounds(
    events: seq<Event>, script: Script, base: nat, deadline: int, timestamp: int, observations: seq<Observation>)
  {
    && (forall e | e in events :: e.Polled? || e.EncryptedPass?)
    && (forall e | e in events && e.Polled? :: e.poll.deadline == deadline && SleptInTime(e.poll))
    && (forall i | 0 <= i < |events| - 1 && events[i].Polled? :: OverInTime(events[i].poll))
    && (forall e | e in events && e.EncryptedPass? :: e.timestamp == timestamp && e.observations == observations)
    && (forall i | 0 <= i < |events| && events[i].EncryptedPass? ::
          i > 0 && events[i - 1].Polled? && events[i - 1].poll.ready && Succeeded(script, base + i - 1))
    && (forall i | 0 <= i < |events| - 1 && events[i].EncryptedPass? :: !events[i].submitted)
  }

  /** A pass that submitted, right after a ready poll. */
  predicate EndsSubmitted(events: seq<Event>, script: Script, base: nat) {
    && |events| >= 2 && events[|events| - 1].EncryptedPass? && events[|events| - 1].submitted
    && Succeeded(script, base + |events| - 1)
  }

  function AsEvents(polls: seq<Poll>): seq<Event> {
    seq(|polls|, i requires 0 <= i < |polls| => Polled(polls[i]))
  }

  lemma PollsExtendRounds(
    events: seq<Event>, polls: seq<Poll>, script: Script, base: nat, deadline: int, timestamp: int,
    observations: seq<Observation>, entered: int)
    requires IsRounds(events, script, base, deadline, timestamp, observations)
    requires Polling(polls, entered, deadline)
    requires events == [] || (events[|events| - 1].EncryptedPass? && !events[|events| - 1].submitted)
    ensures IsRounds(events + AsEvents(polls), script, base, deadline, timestamp, observations)
  {
    hide Polling; hide SleptInTime; hide OverInTime;
    PunctualPolls(polls, entered, deadline);
    var more := events + AsEvents(polls);
    forall i | 0 <= i < |more| && more[i].EncryptedPass? ensures i < |events| {
    }
    forall i | 0 <= i < |more| - 1 && more[i].Polled? ensures OverInTime(more[i].poll) {
    }
    forall e | e in more && e.Polled? ensures e.poll.deadline == deadline && SleptInTime(e.poll) {
    }
  }

  lemma PunctualPolls(polls: seq<Poll>, entered: int, deadline: int)
    requires Polling(polls, entered, deadline)
    ensures forall p | p in polls :: p.deadline == deadline && SleptInTime(p)
    ensures forall i | 0 <= i < |polls| - 1 :: OverInTime(polls[i])
  {
    hide Delay;
    forall i | 0 <= i < |polls| ensures polls[i].deadline == deadline && SleptInTime(polls[i]) {
      assert OnSchedule(polls[i], i, Until(polls, entered, i), deadline);
      NoSleepCrossesTheDeadline(polls, entered, deadline, i);
    }
  }

  lemma PassExtendsRounds(
    events: seq<Event>, pass: Event, script: Script, base: nat, deadline: int, timestamp: int, observations: seq<Observation>)
    requires IsRounds(events, script, base, deadline, timestamp, observations)
    requires pass.EncryptedPass? && pass.timestamp == timestamp && pass.observations == observations
    requires events != [] && events[|events| - 1].Polled? && events[|events| - 1].poll.ready
    requires Succeeded(script, base + |events| - 1)
    ensures IsRounds(events + [pass], script, base, deadline, timestamp, observations)
  {
    hide SleptInTime;
  }

  lemma NoRounds(script: Script, base: nat, deadline: int, timestamp: int, observations: seq<Observation>)
    ensures IsRounds([], script, base, deadline, timestamp, observations)
  {
  }

  lemma NoPolls(entered: int, deadline: int)
    ensures Polling([], entered, deadline)
  {
  }

  lemma PollExtends(polls: seq<Poll>, poll: Poll, entered: int, deadline: int)
    requires Polling(polls, entered, deadline)
    requires polls != [] ==> !polls[|polls| - 1].ready && polls[|polls| - 1].finished < deadline
    requires OnSchedule(poll, |polls|, Until(polls, entered, |polls|), deadline)
    ensures Polling(polls + [poll], entered, deadline)
  {
    hide OnSchedule;
    var more := polls + [poll];
    forall i | 0 <= i < |more| ensures OnSchedule(more[i], i, Until(more, entered, i), deadline) {
      if i < |polls| {
        assert OnSchedule(polls[i], i, Until(polls, entered, i), deadline);
      }
    }
  }

  // ---------- The order of a whole run ----------

  const PERSISTED := WroteRow(None, true)
  const COMPLETED := WroteRow(Some(Completed), true)
  const RUNNING := WroteRow(Some(Running), false)

  /** The completed write at `k` of a combined run was earned: native outputs were
      persisted and raw scores submitted, and right before it a poll was ready and
      the pass that followed submitted. All of these succeeded. */
  predicate EarnedAt(log: seq<Event>, script: Script, k: nat)
    requires k < |log|
  {
    && k >= 4
    && (exists a, b :: 0 <= a < b < k - 2 && log[a] == PERSISTED && Succeeded(script, a) && log[b].SubmittedRaw? && Succeeded(script, b))
    && log[k - 2].Polled? && log[k - 2].poll.ready && Succeeded(script, k - 2)
    && log[k - 1].EncryptedPass? && log[k - 1].submitted && Succeeded(script, k - 1)
  }

  predicate CompletionIsEarned(log: seq<Event>, script: Script) {
    forall k | 0 <= k < |log| && log[k] == COMPLETED :: EarnedAt(log, script, k)
  }

  /** Every submission of the run, raw or encrypted, goes under one timestamp,
      and every encrypted one with the same observations. */
  predicate OneSubmissionKey(log: seq<Event>, timestamp: int, observations: seq<Observation>) {
    forall e | e in log ::
      && (e.SubmittedRaw? ==> e.timestamp == timestamp)
      && (e.EncryptedPass? ==> e.timestamp == timestamp && e.observations == observations)
  }

  /** Every poll of the run was over in time. */
  predicate Punctual(log: seq<Event>) {
    forall e | e in log && e.Polled? :: OverInTime(e.poll)
  }

  predicate IsFailureWrite(e: Event) {
    e.WroteRow? && e.status in {Some(Status.Failed), Some(Cancelled)}
  }

  /** One deadline for the whole run; no sleep begun before it lasts past it; and
      a poll over at or after it without being ready is followed by nothing but
      the write that says the run failed. */
  ghost predicate DeadlineKept(log: seq<Event>) {
    && (forall d, e | d in log && e in log && d.Polled? && e.Polled? :: d.poll.deadline == e.poll.deadline)
    && (forall e | e in log && e.Polled? :: SleptInTime(e.poll))
    && (forall i, j | 0 <= i < j < |log| && log[i].Polled? && !OverInTime(log[i].poll) :: IsFailureWrite(log[j]))
  }

  lemma NoPollsKeepTheDeadline(log: seq<Event>)
    requires forall e | e in log :: !e.Polled?
    ensures DeadlineKept(log) && Punctual(log)
  {
  }

  /** What is not a poll may follow while every poll was in time, and the failure write always. */
  lemma AppendKeepsTheDeadline(log: seq<Event>, e: Event)
    requires DeadlineKept(log) && !e.Polled? && (Punctual(log) || IsFailureWrite(e))
    ensures DeadlineKept(log + [e])
    ensures Punctual(log + [e]) <==> Punctual(log)
  {
    hide SleptInTime; hide OverInTime; hide IsFailureWrite;
    var more := log + [e];
    forall i, j | 0 <= i < j < |more| && more[i].Polled? && !OverInTime(more[i].poll) ensures IsFailureWrite(more[j]) {
      assert more[i] in log;
    }
  }

  /** The last of these events is a poll that was neither ready nor over in time. */
  predicate EndsLate(events: seq<Event>) {
    events != [] && events[|events| - 1].Polled? && !OverInTime(events[|events| - 1].poll)
  }

  /** Rounds appended to a run without polls keep the deadline, and all their
      polls were in time unless the last event is one that was not. */
  lemma RoundsKeepTheDeadline(
    log: seq<Event>, rounds: seq<Event>, script: Script, base: nat, deadline: int, timestamp: int, observations: seq<Observation>)
    requires forall e | e in log :: !e.Polled?
    requires IsRounds(rounds, script, base, deadline, timestamp, observations)
    ensures DeadlineKept(log + rounds)
    ensures Punctual(log + rounds) <==> !EndsLate(rounds)
  {
    hide SleptInTime; hide OverInTime; hide IsFailureWrite;
    var more := log + rounds;
    forall e | e in more && e.Polled? ensures e in rounds {
    }
    forall i | 0 <= i < |more| - 1 && more[i].Polled? ensures OverInTime(more[i].poll) {
      if i < |log| {
        assert false;
      }
    }
    if EndsLate(rounds) {
      assert rounds[|rounds| - 1] in more;
    } else {
      forall e | e in more && e.Polled? ensures OverInTime(e.poll) {
        var k :| 0 <= k < |rounds| && rounds[k] == e;
      }
    }
  }

  predicate InOrder(log: seq<Event>, script: Script, combined: bool, timestamp: int, observations: seq<Observation>) {
    (combined ==> CompletionIsEarned(log, script)) && OneSubmissionKey(log, timestamp, observations)
  }

  lemma EarnedStays(log: seq<Event>, more: seq<Event>, script: Script)
    requires CompletionIsEarned(log, script)
    requires forall k | |log| <= k < |log + more| && (log + more)[k] == COMPLETED :: EarnedAt(log + more, script, k)
    ensures CompletionIsEarned(log + more, script)
  {
    forall k | 0 <= k < |log| && (log + more)[k] == COMPLETED ensures EarnedAt(log + more, script, k) {
      assert EarnedAt(log, script, k);
      var a, b :| 0 <= a < b < k - 2 && log[a] == PERSISTED && Succeeded(script, a) && log[b].SubmittedRaw? && Succeeded(script, b);
      assert (log + more)[a] == PERSISTED && (log + more)[b].SubmittedRaw?;
    }
  }

  lemma KeyStays(log: seq<Event>, more: seq<Event>, timestamp: int, observations: seq<Observation>)
    requires OneSubmissionKey(log, timestamp, observations) && OneSubmissionKey(more, timestamp, observations)
    ensures OneSubmissionKey(log + more, timestamp, observations)
  {
  }

  /** Nothing but a combined run's completed write has anything to earn. */
  lemma AppendInOrder(
    log: seq<Event>, e: Event, script: Script, combined: bool, timestamp: int, observations: seq<Observation>)
    requires InOrder(log, script, combined, timestamp, observations)
    requires !e.EncryptedPass? && (e.SubmittedRaw? ==> e.timestamp == timestamp) && (combined ==> e != COMPLETED)
    ensures InOrder(log + [e], script, combined, timestamp, observations)
  {
    hide EarnedAt; hide CompletionIsEarned; hide OneSubmissionKey;
    assert OneSubmissionKey([e], timestamp, observations) by { KeyOfOne(e, timestamp, observations); }
    KeyStays(log, [e], timestamp, observations);
    if combined {
      EarnedStays(log, [e], script);
    }
  }

  lemma KeyOfOne(e: Event, timestamp: int, observations: seq<Observation>)
    requires !e.EncryptedPass? && (e.SubmittedRaw? ==> e.timestamp == timestamp)
    ensures OneSubmissionKey([e], timestamp, observations)
  {
  }

  lemma RoundsInOrder(
    log: seq<Event>, rounds: seq<Event>, script: Script, deadline: int, timestamp: int, observations: seq<Observation>)
    requires InOrder(log, script, true, timestamp, observations)
    requires IsRounds(rounds, script, |log|, deadline, timestamp, observations)
    ensures InOrder(log + rounds, script, true, timestamp, observations)
  {
    hide EarnedAt;
    forall k | |log| <= k < |log + rounds| ensures (log + rounds)[k] != COMPLETED {
      assert rounds[k - |log|] in rounds;
    }
    EarnedStays(log, rounds, script);
    KeyStays(log, rounds, timestamp, observations);
  }

  lemma SubmissionFollowsReady(
    rounds: seq<Event>, script: Script, base: nat, deadline: int, timestamp: int, observations: seq<Observation>)
    requires IsRounds(rounds, script, base, deadline, timestamp, observations) && EndsSubmitted(rounds, script, base)
    ensures var n := |rounds|;
      && n >= 2 && rounds[n - 1].EncryptedPass? && rounds[n - 1].submitted && Succeeded(script, base + n - 1)
      && rounds[n - 2].Polled? && rounds[n - 2].poll.ready && Succeeded(script, base + n - 2)
  {
    hide SleptInTime; hide OverInTime;
  }

  /** Persisted, submitted raw, and rounds that ended in a submission: completion is earned. */
  lemma CompletionInOrder(
    log: seq<Event>, rounds: seq<Event>, script: Script, deadline: int, timestamp: int, observations: seq<Observation>)
    requires InOrder(log + rounds, script, true, timestamp, observations)
    requires |log| >= 2 && log[|log| - 2] == PERSISTED && log[|log| - 1].SubmittedRaw?
    requires Succeeded(script, |log| - 2) && Succeeded(script, |log| - 1)
    requires IsRounds(rounds, script, |log|, deadline, timestamp, observations) && EndsSubmitted(rounds, script, |log|)
    ensures InOrder(log + rounds + [COMPLETED], script, true, timestamp, observations)
  {
    hide CompletionIsEarned; hide OneSubmissionKey; hide IsRounds; hide EndsSubmitted;
    SubmissionFollowsReady(rounds, script, |log|, deadline, timestamp, observations);
    var before := log + rounds;
    var after := before + [COMPLETED];
    var k := |before|;
    assert EarnedAt(after, script, k) by {
      assert after[k - 1] == rounds[|rounds| - 1] && after[k - 2] == rounds[|rounds| - 2];
      assert after[|log| - 2] == PERSISTED && after[|log| - 1].SubmittedRaw?;
    }
    EarnedStays(before, [COMPLETED], script);
    KeyOfOne(COMPLETED, timestamp, observations);
    KeyStays(before, [COMPLETED], timestamp, observations);
  }

  function WithStatus(statuses: seq<Status>, e: Event): seq<Status> {
    if e.WroteRow? && e.status.Some? then statuses + [e.status.value] else statuses
  }

  /** The statuses a run asks for, in order. */
  function Statuses(log: seq<Event>): seq<Status> {
    if log == [] then []
    else
      var e := log[|log| - 1];
      WithStatus(Statuses(log[..|log| - 1]), e)
  }

  lemma OneMoreStatus(log: seq<Event>, e: Event)
    ensures Statuses(log + [e]) == WithStatus(Statuses(log), e)
  {
    assert (log + [e])[..|log|] == log;
  }

  lemma {:induction false} RoundsAskForNothing(log: seq<Event>, rounds: seq<Event>)
    requires forall e | e in rounds :: !e.WroteRow?
    ensures Statuses(log + rounds) == Statuses(log)
  {
    if rounds == [] {
      assert log + rounds == log;
    } else {
      var n := |rounds| - 1;
      RoundsAskForNothing(log, rounds[..n]);
      OneMoreStatus(log + rounds[..n], rounds[n]);
      assert log + rounds[..n] + [rounds[n]] == log + rounds;
    }
  }

  // ---------- How a run ends ----------

  /** The encrypted passes of a run. */
  function Passes(log: seq<Event>): nat {
    if log == [] then 0 else Passes(log[..|log| - 1]) + if log[|log| - 1].EncryptedPass? then 1 else 0
  }

  lemma {:induction false} PassesAddUp(a: seq<Event>, b: seq<Event>)
    ensures Passes(a + b) == Passes(a) + Passes(b)
  {
    if b == [] {
      assert a + b == a;
    } else {
      var n := |b| - 1;
      PassesAddUp(a, b[..n]);
      assert (a + b)[..|a| + n] == a + b[..n];
    }
  }

  lemma {:induction false} NoPasses(log: seq<Event>)
    requires forall e | e in log :: !e.EncryptedPass?
    ensures Passes(log) == 0
  {
    if log != [] {
      NoPasses(log[..|log| - 1]);
    }
  }

  lemma NothingYet()
    ensures Passes([]) == 0 && !EndsLate([])
  {
  }

  lemma PassAppended(events: seq<Event>, pass: Event)
    requires pass.EncryptedPass?
    ensures Passes(events + [pass]) == Passes(events) + 1 && !EndsLate(events + [pass])
  {
    assert (events + [pass])[..|events|] == events;
  }

  lemma PollsAppended(events: seq<Event>, polls: seq<Poll>, entered: int, deadline: int)
    requires Polling(polls, entered, deadline) && polls != []
    ensures var more, last := events + AsEvents(polls), polls[|polls| - 1];
      && Passes(more) == Passes(events)
      && more[|more| - 1] == Polled(last)
      && (forall e | e in more && e.Polled? :: e in events || e.poll.deadline == deadline)
      && (EndsLate(more) <==> !last.ready && last.finished >= deadline)
  {
    hide Polling;
    PunctualPolls(polls, entered, deadline);
    PassesAddUp(events, AsEvents(polls));
    NoPasses(AsEvents(polls));
    assert polls[|polls| - 1] in polls;
  }

  /** Why the phases begun at `from` ended as they did: they threw exactly when
      the last awaited activity failed, a poll missed the deadline, or the
      algorithm is one they cannot run; and everything before the last succeeded. */
  predicate EndedFor(log: seq<Event>, script: Script, from: nat, supported: bool, result: Result) {
    && from < |log|
    && AllSucceeded(script, from, |log| - 1)
    && (result.Threw? <==> !Succeeded(script, |log| - 1) || !Punctual(log) || !supported)
    && (result.Threw? ==>
          result.failure == if script.failure(|log| - 1).Some? then script.failure(|log| - 1).value else OtherFailure)
  }

  /** What the phases await, in order, up to the readiness polls of a combined run. */
  function Plan(combined: bool, supported: bool, startTime: int): seq<Event> {
    [Prepared]
    + if !supported then []
      else [RanAlgorithm] + if combined then [PERSISTED, SubmittedRaw(startTime)] else [COMPLETED]
  }

  /** `log` goes on from `from` along `plan`, as far as both reach. */
  predicate Follows(log: seq<Event>, from: seq<Event>, plan: seq<Event>) {
    from <= log && (log <= from + plan || from + plan <= log)
  }

  // ---------- The run ----------

  class Run {
    const script: Script
    const startTime: int
    var log: seq<Event>
    var clock: int

    constructor (script: Script, startTime: int)
      ensures this.script == script && this.startTime == startTime && log == [] && clock == startTime
    {
      this.script, this.startTime := script, startTime;
      log, clock := [], startTime;
    }

    method Await(e: Event) returns (failure: Option<Failure>)
      modifies this
      ensures log == old(log) + [e] && failure == script.failure(|old(log)|) && old(clock) <= clock
    {
      failure := script.failure(|log|);
      clock := clock + script.took(|log|);
      log := log + [e];
    }

    method Sleep(ms: int)
      modifies `clock
      ensures if ms > 0 then clock == old(clock) + ms else old(clock) <= clock
    {
      clock := clock + if ms > 0 then ms else script.late(|log|);
    }

    /** Polls until ready, failed or out of time. A not-ready poll over at or
        after the deadline always ends the call, and only such a one times it out. */
    method PollForEncryptionReadiness(givenDeadline: Option<int>) returns (outcome: Readiness, ghost polls: seq<Poll>)
      modifies this
      ensures log == old(log) + AsEvents(polls) && polls != [] && old(clock) <= clock
      ensures var deadline := if givenDeadline.Some? then givenDeadline.value else old(clock) + ENCRYPTION_DEADLINE_MS;
        var last := polls[|polls| - 1];
        && Polling(polls, old(clock), deadline)
        && (match outcome
            case Ready => last.ready && Succeeded(script, |log| - 1)
            case TimedOut => !last.ready && last.finished >= deadline && Succeeded(script, |log| - 1)
            case Broke(failure) => script.failure(|log| - 1) == Some(failure))
      ensures |old(log)| < |log| && AllSucceeded(script, |old(log)|, |log| - 1)
    {
      hide Delay; hide Elapsed; hide Polling;
      var submittedAt := clock;
      var deadline := if givenDeadline.Some? then givenDeadline.value else submittedAt + ENCRYPTION_DEADLINE_MS;
      var polledAtOffsets: seq<int> := [];
      polls := [];
      NoPolls(clock, deadline);
      while true
        invariant log == old(log) + AsEvents(polls) && |polls| == |polledAtOffsets| && old(clock) <= clock
        invariant Polling(polls, old(clock), deadline) && Until(polls, old(clock), |polls|) == clock
        invariant polls != [] ==> clock < deadline && !polls[|polls| - 1].ready
        invariant AllSucceeded(script, |old(log)|, |log|)
        decreases polls == [], deadline - clock
      {
        var delay := Delay(|polledAtOffsets|);
        var slept := clock;
        Sleep(Min(delay, deadline - clock));
        var woke := clock;
        var index := |log|;
        clock := clock + script.took(index);
        var poll := Poll(deadline, slept, woke, clock, script.ready(index));
        log := log + [Polled(poll)];
        PollExtends(polls, poll, old(clock), deadline);
        assert AsEvents(polls + [poll]) == AsEvents(polls) + [Polled(poll)];
        polls := polls + [poll];
        if script.failure(index).Some? {
          outcome := Broke(script.failure(index).value);
          return;
        }
        polledAtOffsets := polledAtOffsets + [clock - submittedAt];
        if poll.ready {
          outcome := Ready;
          return;
        }
        if clock >= deadline {
          outcome := TimedOut;
          return;
        }
      }
    }

    /** Rounds of polling and processing until a pass submits. The trace is cut
        off after `rounds` rounds. */
    method RunEncryptedCustomScoreLifecycle(observations: seq<Observation>, timestamp: int, rounds: nat)
      returns (result: Result, ghost events: seq<Event>)
      modifies this
      ensures log == old(log) + events && old(clock) <= clock
      ensures IsRounds(events, script, |old(log)|, old(clock) + ENCRYPTION_DEADLINE_MS, timestamp, observations)
      // a day from here
      ensures forall e | e in events && e.Polled? :: e.poll.deadline == old(clock) + 86_400_000
      ensures result.Done? ==> EndsSubmitted(events, script, |old(log)|)
      ensures events != [] ==> AllSucceeded(script, |old(log)|, |log| - 1)
      // it throws exactly for a failed activity or a poll that missed the deadline
      ensures result.Threw? <==> events != [] && (!Succeeded(script, |log| - 1) || EndsLate(events))
      ensures result.Threw? ==>
        result.failure == if script.failure(|log| - 1).Some? then script.failure(|log| - 1).value else OtherFailure
      // a pass that did not submit leads to another round
      ensures result.CutOff? ==> Passes(events) == rounds
    {
      hide Polling; hide IsRounds; hide Passes; hide EndsLate;
      var deadline := clock + ENCRYPTION_DEADLINE_MS;
      events := [];
      assert IsRounds([], script, |old(log)|, deadline, timestamp, observations) by {
        NoRounds(script, |old(log)|, deadline, timestamp, observations);
      }
      NothingYet();
      for round := 1 to rounds + 1
        invariant log == old(log) + events && old(clock) <= clock
        invariant IsRounds(events, script, |old(log)|, deadline, timestamp, observations)
        invariant forall e | e in events && e.Polled? :: e.poll.deadline == deadline
        invariant events != [] ==> events[|events| - 1].EncryptedPass? && !events[|events| - 1].submitted
        invariant AllSucceeded(script, |old(log)|, |log|)
        invariant Passes(events) == round - 1 && !EndsLate(events)
      {
        ghost var entered := clock;
        var readiness, polls := PollForEncryptionReadiness(Some(deadline));
        PollsExtendRounds(events, polls, script, |old(log)|, deadline, timestamp, observations, entered);
        PollsAppended(events, polls, entered, deadline);
        events := events + AsEvents(polls);
        match readiness {
          case TimedOut => return Threw(OtherFailure), events;
          case Broke(failure) => return Threw(failure), events;
          case Ready =>
        }
        var submitted := script.submitted(|log|);
        var pass := EncryptedPass(timestamp, observations, submitted);
        PassExtendsRounds(events, pass, script, |old(log)|, deadline, timestamp, observations);
        var failure := Await(pass);
        PassAppended(events, pass);
        events := events + [pass];
        if failure.Some? {
          return Threw(failure.value), events;
        }
        if submitted {
          return Done, events;
        }
      }
      result := CutOff;
    }

    /** Awaits an activity that has nothing to earn. */
    method AwaitInOrder(e: Event, ghost combined: bool, ghost observations: seq<Observation>) returns (failure: Option<Failure>)
      requires InOrder(log, script, combined, startTime, observations)
      requires !e.EncryptedPass? && (e.SubmittedRaw? ==> e.timestamp == startTime) && (combined ==> e != COMPLETED)
      requires DeadlineKept(log) && !e.Polled? && (Punctual(log) || IsFailureWrite(e))
      modifies this
      ensures log == old(log) + [e] && failure == script.failure(|old(log)|) && old(clock) <= clock
      ensures InOrder(log, script, combined, startTime, observations)
      ensures Statuses(log) == WithStatus(Statuses(old(log)), e)
      ensures DeadlineKept(log) && (Punctual(log) <==> Punctual(old(log)))
      ensures Passes(log) == Passes(old(log))
    {
      hide InOrder; hide Statuses; hide DeadlineKept; hide Punctual; hide Passes;
      PassesAddUp(log, [e]);
      NoPasses([e]);
      AppendKeepsTheDeadline(log, e);
      AppendInOrder(log, e, script, combined, startTime, observations);
      OneMoreStatus(log, e);
      failure := Await(e);
    }

    /** The phases after the running write: the only status they ask for is
        `completed`, last. */
    method RunSnapshotPhases(combined: bool, supported: bool, observations: seq<Observation>, rounds: nat)
      returns (result: Result)
      requires InOrder(log, script, combined, startTime, observations)
      requires forall e | e in log :: !e.Polled?
      modifies this
      ensures DeadlineKept(log)
      ensures InOrder(log, script, combined, startTime, observations)
      ensures Statuses(log) in {Statuses(old(log)), Statuses(old(log)) + [Completed]}
      ensures result.Done? ==> Statuses(log) == Statuses(old(log)) + [Completed]
      ensures EndedFor(log, script, |old(log)|, supported, result)
      ensures Follows(log, old(log), Plan(combined, supported, startTime))
      ensures !combined || !supported ==> log <= old(log) + Plan(combined, supported, startTime) && !result.CutOff?
      ensures result.Done? ==> Plan(combined, supported, startTime) <= log[|old(log)|..]
      ensures result.CutOff? ==> Passes(log) == Passes(old(log)) + rounds
    {
      hide InOrder; hide Statuses; hide IsRounds; hide EndsSubmitted; hide DeadlineKept; hide Punctual; hide Passes;
      NoPollsKeepTheDeadline(log);
      var failure := AwaitInOrder(Prepared, combined, observations);
      if failure.Some? {
        return Threw(failure.value);
      }
      if !supported {
        return Threw(OtherFailure);
      }
      failure := AwaitInOrder(RanAlgorithm, combined, observations);
      if failure.Some? {
        return Threw(failure.value);
      }
      if !combined {
        failure := AwaitInOrder(COMPLETED, combined, observations);
        return if failure.Some? then Threw(failure.value) else Done;
      }
      result := RunCombinedPhases(observations, rounds);
    }

    method RunCombinedPhases(observations: seq<Observation>, rounds: nat) returns (result: Result)
      requires InOrder(log, script, true, startTime, observations)
      requires forall e | e in log :: !e.Polled?
      modifies this
      ensures DeadlineKept(log)
      ensures InOrder(log, script, true, startTime, observations)
      ensures Statuses(log) in {Statuses(old(log)), Statuses(old(log)) + [Completed]}
      ensures result.Done? ==> Statuses(log) == Statuses(old(log)) + [Completed]
      ensures EndedFor(log, script, |old(log)|, true, result)
      ensures Follows(log, old(log), [PERSISTED, SubmittedRaw(startTime)])
      ensures result.Done? || result.CutOff? ==> [PERSISTED, SubmittedRaw(startTime)] <= log[|old(log)|..]
      ensures result.CutOff? ==> Passes(log) == Passes(old(log)) + rounds
    {
      hide InOrder; hide Statuses; hide IsRounds; hide EndsSubmitted; hide DeadlineKept; hide Punctual; hide Passes;
      NoPollsKeepTheDeadline(log);
      var failure := AwaitInOrder(PERSISTED, true, observations);
      if failure.Some? {
        return Threw(failure.value);
      }
      failure := AwaitInOrder(SubmittedRaw(startTime), true, observations);
      if failure.Some? {
        return Threw(failure.value);
      }
      ghost var head, deadline := log, clock + ENCRYPTION_DEADLINE_MS;
      var lifecycle, events := RunEncryptedCustomScoreLifecycle(observations, startTime, rounds);
      RoundsInOrder(head, events, script, deadline, startTime, observations);
      RoundsKeepTheDeadline(head, events, script, |head|, deadline, startTime, observations);
      OnlyPollsAndPasses(events, script, |head|, deadline, startTime, observations);
      RoundsAskForNothing(head, events);
      PassesAddUp(head, events);
      if !lifecycle.Done? {
        return lifecycle;
      }
      CompletionInOrder(head, events, script, deadline, startTime, observations);
      OneMoreStatus(log, COMPLETED);
      EndsInAPass(events, script, |head|);
      AppendKeepsTheDeadline(log, COMPLETED);
      failure := Await(COMPLETED);
      result := if failure.Some? then Threw(failure.value) else Done;
    }

    /** The fetch found a run to do and the running write succeeded. */
    predicate PastRunning(status: Status) {
      Succeeded(script, 0) && status != Completed && Succeeded(script, 1)
    }

    /** The whole run with its failure handler. `status` is what the fetch of the snapshot returns. */
    method RunOrchestrator(status: Status, combined: bool, supported: bool, observations: seq<Observation>, rounds: nat)
      returns (result: Result, ghost phases: seq<Event>)
      requires log == []
      modifies this
      ensures combined ==> CompletionIsEarned(log, script)
      ensures OneSubmissionKey(log, startTime, observations)
      // the deadline holds for the whole run, and a poll that missed it always fails the run
      ensures DeadlineKept(log) && (!Punctual(log) ==> result.Threw?)
      ensures !Succeeded(script, 0) || status == Completed ==>
        log == [FetchedSnapshot] && result == (if Succeeded(script, 0) then Done else Threw(script.failure(0).value))
      ensures Succeeded(script, 0) && status != Completed && !Succeeded(script, 1) ==>
        log == [FetchedSnapshot, RUNNING] && Statuses(log) == [Running] && result == Threw(script.failure(1).value)
      // past the running write the phases follow their plan, and nothing follows them but the handler's write
      ensures PastRunning(status) ==> PhasesEnded(phases, log, script, startTime, combined, supported, result, rounds)
      // it throws exactly for a failed activity, a poll that missed the deadline, or an algorithm it cannot run
      ensures result.Threw? <==>
        (exists i :: 0 <= i < |log| && !Succeeded(script, i)) || !Punctual(log) || (PastRunning(status) && !supported)
      // so a supported run that is not combined and whose activities succeed is completed
      ensures PastRunning(status) && supported && !combined && (forall i | 0 <= i < 5 :: Succeeded(script, i)) ==>
        && result == Done
        && log == [FetchedSnapshot, WroteRow(Some(Running), false), Prepared, RanAlgorithm, WroteRow(Some(Completed), true)]
      ensures PastRunning(status) && !supported ==> result.Threw? && RanAlgorithm !in log
      // past the running write, a failure asks for the status that says so unless the row is gone
      ensures PastRunning(status) ==>
        var asked := match result case Threw(Cancellation) => [Cancelled] case Threw(OtherFailure) => [Status.Failed] case _ => [];
        && Statuses(log) in {[Running] + asked, [Running, Completed] + asked}
        && (result.Done? ==> Statuses(log) == [Running, Completed])
    {
      NothingAsked(script, combined, startTime, observations);
      hide Statuses; hide InOrder; hide CompletionIsEarned; hide OneSubmissionKey; hide DeadlineKept; hide Punctual;
      hide PhasesEnded;
      NoPollsKeepTheDeadline(log);
      var failure := AwaitInOrder(FetchedSnapshot, combined, observations);
      phases := log;
      if failure.Some? || status == Completed {
        InOrderMeans(log, script, combined, startTime, observations);
        return if failure.Some? then Threw(failure.value) else Done, phases;
      }
      failure := AwaitInOrder(RUNNING, combined, observations);
      assert Statuses(log) == [Running];
      if failure.Some? {
        InOrderMeans(log, script, combined, startTime, observations);
        return Threw(failure.value), phases;
      }
      result, phases := RunWithHandler(combined, supported, observations, rounds);
      InOrderMeans(log, script, combined, startTime, observations);
    }

    /** What follows the running write: the phases, and the handler if they throw. */
    method RunWithHandler(combined: bool, supported: bool, observations: seq<Observation>, rounds: nat)
      returns (result: Result, ghost phases: seq<Event>)
      requires log == [FetchedSnapshot, RUNNING] && Succeeded(script, 0) && Succeeded(script, 1)
      requires InOrder(log, script, combined, startTime, observations) && Statuses(log) == [Running]
      modifies this
      ensures InOrder(log, script, combined, startTime, observations)
      ensures DeadlineKept(log)
      ensures PhasesEnded(phases, log, script, startTime, combined, supported, result, rounds)
      ensures result.Threw? <==> (exists i :: 0 <= i < |log| && !Succeeded(script, i)) || !Punctual(log) || !supported
      ensures supported && !combined && (forall i | 0 <= i < 5 :: Succeeded(script, i)) ==>
        && result == Done
        && log == [FetchedSnapshot, WroteRow(Some(Running), false), Prepared, RanAlgorithm, WroteRow(Some(Completed), true)]
      ensures !supported ==> RanAlgorithm !in log
      ensures Statuses(log) in {[Running] + HandlerAsks(result), [Running, Completed] + HandlerAsks(result)}
      ensures result.Done? ==> Statuses(log) == [Running, Completed]
    {
      hide Statuses; hide InOrder; hide DeadlineKept; hide Punctual;
      NoPasses(log);
      result := RunSnapshotPhases(combined, supported, observations, rounds);
      phases := log;
      assert [Running] + [Completed] == [Running, Completed];
      assert Statuses(log) in {[Running], [Running, Completed]};
      HandleFailure(result, combined, observations);
      hide PhasesEnded; hide Plan; hide HandlerWrites; hide EndedFor; hide Follows;
      HowItEnded(phases, log, script, startTime, combined, supported, result, rounds);
    }

    method HandleFailure(result: Result, combined: bool, observations: seq<Observation>)
      requires InOrder(log, script, combined, startTime, observations)
      requires DeadlineKept(log)
      modifies this
      ensures InOrder(log, script, combined, startTime, observations)
      ensures DeadlineKept(log) && (Punctual(log) <==> Punctual(old(log)))
      ensures Statuses(log) == Statuses(old(log)) + HandlerAsks(result)
      ensures log == old(log) + HandlerWrites(result)
    {
      hide Statuses; hide InOrder; hide DeadlineKept; hide Punctual;
      if result.Threw? && result.failure != SnapshotNotFound {
        var outcome := if result.failure.Cancellation? then Cancelled else Status.Failed;
        // the handler's own failure never masks the original one
        var ignored := AwaitInOrder(WroteRow(Some(outcome), false), combined, observations);
      }
    }
  }

  /** `phases` is the run up to the end of its phases: along the plan, ended for
      a reason, and followed only by the handler's write. */
  predicate PhasesEnded(
    phases: seq<Event>, log: seq<Event>, script: Script, startTime: int, combined: bool, supported: bool, result: Result, rounds: nat)
  {
    && EndedFor(phases, script, 2, supported, result)
    && Follows(phases, [FetchedSnapshot, RUNNING], Plan(combined, supported, startTime))
    && (!combined || !supported ==> phases <= [FetchedSnapshot, RUNNING] + Plan(combined, supported, startTime))
    && (result.Done? ==> [FetchedSnapshot, RUNNING] + Plan(combined, supported, startTime) <= phases)
    && (result.CutOff? ==> combined && supported && Passes(phases) == rounds)
    && log == phases + HandlerWrites(result)
  }

  lemma HowItEnded(
    phases: seq<Event>, log: seq<Event>, script: Script, startTime: int, combined: bool, supported: bool, result: Result, rounds: nat)
    requires PhasesEnded(phases, log, script, startTime, combined, supported, result, rounds)
    requires Punctual(log) <==> Punctual(phases)
    requires Succeeded(script, 0) && Succeeded(script, 1)
    ensures result.Threw? <==> (exists i :: 0 <= i < |log| && !Succeeded(script, i)) || !Punctual(log) || !supported
    ensures supported && !combined && (forall i | 0 <= i < 5 :: Succeeded(script, i)) ==>
      result == Done && log == [FetchedSnapshot, RUNNING, Prepared, RanAlgorithm, COMPLETED]
    ensures !supported ==> RanAlgorithm !in log
  {
    hide Punctual; hide Passes;
    if result.Threw? && !Succeeded(script, |phases| - 1) {
      assert |phases| - 1 < |log|;
    }
    if supported && !combined {
      var plan := [FetchedSnapshot, RUNNING, Prepared, RanAlgorithm, COMPLETED];
      assert [FetchedSnapshot, RUNNING] + Plan(combined, supported, startTime) == plan;
      NoPollsKeepTheDeadline(phases);
    }
  }

  /** The status the failure handler asks for, given how the phases ended. */
  function HandlerAsks(result: Result): seq<Status> {
    match result
    case Threw(Cancellation) => [Cancelled]
    case Threw(OtherFailure) => [Status.Failed]
    case _ => []
  }

  function HandlerWrites(result: Result): seq<Event> {
    match result
    case Threw(Cancellation) => [WroteRow(Some(Cancelled), false)]
    case Threw(OtherFailure) => [WroteRow(Some(Status.Failed), false)]
    case _ => []
  }

  lemma NothingAsked(script: Script, combined: bool, timestamp: int, observations: seq<Observation>)
    ensures InOrder([], script, combined, timestamp, observations) && Statuses([]) == []
  {
  }

  lemma InOrderMeans(log: seq<Event>, script: Script, combined: bool, timestamp: int, observations: seq<Observation>)
    requires InOrder(log, script, combined, timestamp, observations)
    ensures combined ==> CompletionIsEarned(log, script)
    ensures OneSubmissionKey(log, timestamp, observations)
  {
  }

  lemma EndsInAPass(events: seq<Event>, script: Script, base: nat)
    requires EndsSubmitted(events, script, base)
    ensures events != [] && events[|events| - 1].EncryptedPass?
  {
  }

  lemma OnlyPollsAndPasses(
    events: seq<Event>, script: Script, base: nat, deadline: int, timestamp: int, observations: seq<Observation>)
    requires IsRounds(events, script, base, deadline, timestamp, observations)
    ensures forall e | e in events :: !e.WroteRow?
  {
  }
}
