/** The transport half of a realtime feed: one socket kept open through a
    generation counter, two timers and an asynchronous `open()`, under every
    order of late events. */
module ReconnectingSocket {
  import opened Wrappers

  datatype FeedState = Stopped | Connecting | Live | Retrying | Fatal

  /** `opens` counts the `open()` calls in flight; `sockets[i]` is the
      generation the handlers of the i-th socket ever created captured. */
  datatype Machine = Machine(
    socket: Option<nat>,
    state: FeedState,
    attempt: nat,
    reconnectArmed: bool,
    idleArmed: bool,
    stopped: bool,
    generation: nat,
    opens: nat,
    sockets: seq<nat>)

  /** What a protocol handler does with its handle inside one frame. */
  datatype HandleCall = Send(throws: bool) | MarkLive | Reconnect

  datatype Event =
    | Start
    | Stop
    | OpenAnswers(constructs: bool)
    | OpenFails
    | SocketOpens(id: nat, calls: seq<HandleCall>)
    | FrameArrives(id: nat, text: bool, calls: seq<HandleCall>)
    | SocketCloses(id: nat, fatal: bool)
    | IdleFires
    | ReconnectFires

  // ---------- What each event does ----------

  function Teardown(m: Machine): Machine {
    m.(generation := m.generation + 1, idleArmed := false, socket := None)
  }

  function ScheduleReconnect(m: Machine): Machine {
    if m.stopped || m.reconnectArmed then m
    else m.(attempt := m.attempt + 1, state := Retrying, reconnectArmed := true)
  }

  function DropAndRetry(m: Machine): Machine {
    if m.stopped then m else ScheduleReconnect(Teardown(m))
  }

  function Connect(m: Machine): Machine {
    if m.stopped then m else m.(state := Connecting, opens := m.opens + 1)
  }

  function Called(m: Machine, call: HandleCall): Machine {
    match call
    case Send(throws) => if m.socket.Some? && throws then DropAndRetry(m) else m
    case MarkLive => m.(attempt := 0, state := Live)
    case Reconnect => DropAndRetry(m)
  }

  function CalledAll(m: Machine, calls: seq<HandleCall>): Machine {
    if calls == [] then m else Called(CalledAll(m, calls[..|calls| - 1]), calls[|calls| - 1])
  }

  function Settled(m: Machine): Machine
    requires m.opens > 0
  {
    m.(opens := m.opens - 1)
  }

  predicate CanHappen(m: Machine, e: Event) {
    match e
    case OpenAnswers(_) => m.opens > 0
    case OpenFails => m.opens > 0
    case SocketOpens(id, _) => id < |m.sockets|
    case FrameArrives(id, _, _) => id < |m.sockets|
    case SocketCloses(id, _) => id < |m.sockets|
    case IdleFires => m.idleArmed
    case ReconnectFires => m.reconnectArmed
    case _ => true
  }

  function Step(watchdog: bool, m: Machine, e: Event): Machine
    requires CanHappen(m, e)
  {
    match e
    case Start => if !m.stopped then m else Connect(m.(stopped := false, attempt := 0))
    case Stop => Teardown(m.(stopped := true, reconnectArmed := false)).(state := Stopped)
    case OpenAnswers(constructs) =>
      if m.stopped then Settled(m)
      else if !constructs then ScheduleReconnect(Settled(m))
      else Settled(m).(socket := Some(|m.sockets|), sockets := m.sockets + [m.generation])
    case OpenFails => ScheduleReconnect(Settled(m))
    case SocketOpens(id, calls) =>
      if m.sockets[id] != m.generation then m else CalledAll(m.(idleArmed := watchdog), calls)
    case FrameArrives(id, text, calls) =>
      if m.sockets[id] != m.generation then m
      else if !text then m.(idleArmed := watchdog)
      else CalledAll(m.(idleArmed := watchdog), calls)
    case SocketCloses(id, fatal) =>
      if m.sockets[id] != m.generation then m
      else if fatal then Teardown(m).(state := Fatal)
      else DropAndRetry(m)
    case IdleFires => DropAndRetry(m)
    case ReconnectFires => Connect(m.(reconnectArmed := false))
  }

  // ---------- Every order of events ----------

  function Initial(): Machine {
    Machine(None, Stopped, 0, false, false, true, 0, 0, [])
  }

  /** Where a sequence of events leads; `None` if one of them cannot happen. */
  function Reached(watchdog: bool, events: seq<Event>): Option<Machine> {
    if events == [] then Some(Initial())
    else
      var before := Reached(watchdog, events[..|events| - 1]);
      var e := events[|events| - 1];
      if before.Some? && CanHappen(before.value, e) then Some(Step(watchdog, before.value, e)) else None
  }

  /** A handler that drops its socket and then, still in the same frame, declares the feed live. */
  predicate LiveAfterDrop(calls: seq<HandleCall>) {
    exists i, j :: 0 <= i < j < |calls| && Drops(calls[i]) && calls[j].MarkLive?
  }

  predicate Drops(call: HandleCall) {
    call.Reconnect? || call == Send(true)
  }

  function CallsOf(e: Event): seq<HandleCall> {
    match e
    case SocketOpens(_, calls) => calls
    case FrameArrives(_, _, calls) => calls
    case _ => []
  }

  /** Every `Start` finds no `open()` in flight: a single start, or one after a
      stop whose pending `open()` has settled. */
  predicate StartsAreApart(watchdog: bool, events: seq<Event>) {
    forall k | 0 <= k < |events| && events[k].Start? && Reached(watchdog, events[..k]).Some? ::
      var m := Reached(watchdog, events[..k]).value; m.stopped ==> m.opens == 0
  }

  predicate FramesBehave(events: seq<Event>) {
    forall e | e in events :: !LiveAfterDrop(CallsOf(e))
  }

  predicate Running(m: Machine) {
    !m.stopped && !m.state.Fatal?
  }

  function Count(b: bool): nat {
    if b then 1 else 0
  }

  /** While running, the feed waits for exactly one thing. */
  predicate Exclusive(m: Machine) {
    && (Running(m) ==> m.opens + Count(m.socket.Some?) + Count(m.reconnectArmed) == 1)
    && (!Running(m) ==> m.socket.None? && !m.reconnectArmed && !m.idleArmed)
    && (m.stopped <==> m.state.Stopped?)
    && (m.state.Fatal? ==> m.opens == 0)
    && m.opens <= 1
    && (m.idleArmed ==> m.socket.Some?)
  }

  /** The events acted on are those of the current socket. */
  ghost predicate OneVoice(m: Machine) {
    && (forall i | 0 <= i < |m.sockets| :: m.sockets[i] <= m.generation)
    && (forall i | 0 <= i < |m.sockets| :: m.sockets[i] == m.generation <==> m.socket == Some(i))
    && (m.socket.Some? ==> m.socket.value < |m.sockets|)
  }

  /** A live feed is watched over: a silence always ends in a reconnect. */
  predicate LiveIsWatched(watchdog: bool, m: Machine) {
    m.state.Live? ==> m.idleArmed == watchdog
  }

  predicate LiveHasSocket(m: Machine) {
    m.state.Live? ==> m.socket.Some?
  }

  predicate DropsIn(calls: seq<HandleCall>) {
    exists i :: 0 <= i < |calls| && Drops(calls[i])
  }

  predicate LiveIn(calls: seq<HandleCall>) {
    exists i :: 0 <= i < |calls| && calls[i].MarkLive?
  }

  /** Where the calls of a frame lead from a machine with a current socket: what
      drops it retires it and counts one more attempt, what declares the feed
      live counts none. */
  predicate MidFrame(before: Machine, calls: seq<HandleCall>, after: Machine) {
    && after.stopped == before.stopped && after.opens == before.opens && after.sockets == before.sockets
    && (if DropsIn(calls)
        then
          && after.socket.None? && after.reconnectArmed && !after.idleArmed && after.generation > before.generation
          && after.state == (if LiveAfterDrop(calls) then Live else Retrying)
          && after.attempt == (if LiveAfterDrop(calls) then 0 else if LiveIn(calls) then 1 else before.attempt + 1)
        else
          && after.socket == before.socket && after.reconnectArmed == before.reconnectArmed
          && after.idleArmed == before.idleArmed && after.generation == before.generation
          && after.state == (if LiveIn(calls) then Live else before.state)
          && after.attempt == (if LiveIn(calls) then 0 else before.attempt))
  }

  lemma OneMoreCall(calls: seq<HandleCall>)
    requires calls != []
    ensures var first, last := calls[..|calls| - 1], calls[|calls| - 1];
      && (DropsIn(calls) <==> DropsIn(first) || Drops(last))
      && (LiveIn(calls) <==> LiveIn(first) || last.MarkLive?)
      && (LiveAfterDrop(calls) <==> LiveAfterDrop(first) || (DropsIn(first) && last.MarkLive?))
  {
    hide Drops;
    var n := |calls| - 1;
    assert forall i | 0 <= i < n :: calls[..n][i] == calls[i];
  }

  lemma {:induction false} FrameLeads(m: Machine, calls: seq<HandleCall>)
    requires m.socket.Some? && !m.stopped && !m.reconnectArmed && !m.state.Fatal? && !m.state.Stopped?
    ensures MidFrame(m, calls, CalledAll(m, calls))
  {
    if calls != [] {
      var n := |calls| - 1;
      FrameLeads(m, calls[..n]);
      hide LiveAfterDrop; hide DropsIn; hide LiveIn;
      OneMoreCall(calls);
    }
  }

  /** A frame leaves the feed live without a socket exactly when its handler
      declared it live after dropping it. */
  lemma LiveWithoutSocketIff(m: Machine, calls: seq<HandleCall>)
    requires Exclusive(m) && Running(m) && m.socket.Some?
    ensures LiveHasSocket(CalledAll(m, calls)) <==> !LiveAfterDrop(calls)
  {
    FrameLeads(m, calls);
  }

  ghost predicate Inv(m: Machine) {
    Exclusive(m) && OneVoice(m)
  }

  lemma FrameKeepsInv(watchdog: bool, m: Machine, calls: seq<HandleCall>)
    requires Inv(m) && m.socket.Some?
    ensures Inv(CalledAll(m.(idleArmed := watchdog), calls))
    ensures !LiveAfterDrop(calls) ==>
      && LiveHasSocket(CalledAll(m.(idleArmed := watchdog), calls))
      && LiveIsWatched(watchdog, CalledAll(m.(idleArmed := watchdog), calls))
  {
    hide CalledAll; hide LiveAfterDrop; hide DropsIn; hide LiveIn;
    FrameLeads(m.(idleArmed := watchdog), calls);
  }

  lemma StepKeepsInv(watchdog: bool, m: Machine, e: Event)
    requires Inv(m) && CanHappen(m, e)
    requires e.Start? && m.stopped ==> m.opens == 0
    ensures Inv(Step(watchdog, m, e))
    ensures LiveHasSocket(m) && !LiveAfterDrop(CallsOf(e)) ==> LiveHasSocket(Step(watchdog, m, e))
    ensures LiveIsWatched(watchdog, m) && !LiveAfterDrop(CallsOf(e)) ==> LiveIsWatched(watchdog, Step(watchdog, m, e))
  {
    hide CalledAll; hide LiveAfterDrop;
    match e
    case SocketOpens(id, calls) =>
      if m.sockets[id] == m.generation {
        FrameKeepsInv(watchdog, m, calls);
      }
    case FrameArrives(id, text, calls) =>
      if m.sockets[id] == m.generation {
        FrameKeepsInv(watchdog, m, calls);
      }
    case _ =>
  }

  /** In every order of events: exactly one of an `open()` in flight, a current
      socket and an armed reconnect timer while running; only the current
      socket is listened to; and a live feed has one, under its watchdog. */
  lemma {:induction false} EveryOrderIsExclusive(watchdog: bool, events: seq<Event>)
    requires Reached(watchdog, events).Some? && StartsAreApart(watchdog, events)
    ensures Inv(Reached(watchdog, events).value)
    ensures FramesBehave(events) ==>
      LiveHasSocket(Reached(watchdog, events).value) && LiveIsWatched(watchdog, Reached(watchdog, events).value)
  {
    hide Inv; hide Step; hide CanHappen; hide LiveAfterDrop; hide LiveHasSocket; hide LiveIsWatched;
    if events == [] {
      InitiallyInv(watchdog);
    } else {
      var n := |events| - 1;
      var e := events[n];
      assert e in events;
      forall k | 0 <= k < n ensures events[..n][..k] == events[..k] {
      }
      EveryOrderIsExclusive(watchdog, events[..n]);
      StepKeepsInv(watchdog, Reached(watchdog, events[..n]).value, e);
    }
  }

  lemma InitiallyInv(watchdog: bool)
    ensures Inv(Initial()) && LiveHasSocket(Initial()) && LiveIsWatched(watchdog, Initial())
  {
  }

  /** A start under a pending `open()` breaks exclusivity at once. */
  lemma StartUnderPendingOpen(watchdog: bool, m: Machine)
    requires m.stopped && m.opens > 0
    ensures !Exclusive(Step(watchdog, m, Start))
  {
  }

  lemma PrefixIsReached(watchdog: bool, events: seq<Event>, k: nat)
    requires Reached(watchdog, events).Some? && k <= |events|
    ensures Reached(watchdog, events[..k]).Some?
    ensures k < |events| ==>
      && CanHappen(Reached(watchdog, events[..k]).value, events[k])
      && Reached(watchdog, events[..k + 1]) == Some(Step(watchdog, Reached(watchdog, events[..k]).value, events[k]))
    decreases |events| - k
  {
    hide Step; hide CanHappen;
    if k == |events| {
      assert events[..k] == events;
    } else {
      PrefixIsReached(watchdog, events, k + 1);
      assert events[..k + 1][..k] == events[..k];
    }
  }

  /** Exclusivity holds at every point of a sequence exactly when its starts are
      apart: when each finds no `open()` in flight. */
  lemma ExclusiveIffStartsAreApart(watchdog: bool, events: seq<Event>)
    requires Reached(watchdog, events).Some?
    ensures StartsAreApart(watchdog, events)
      <==> forall k {:trigger events[..k]} | 0 <= k <= |events| ::
             Reached(watchdog, events[..k]).Some? && Inv(Reached(watchdog, events[..k]).value)
  {
    hide Step; hide CanHappen; hide Reached; hide Inv;
    if StartsAreApart(watchdog, events) {
      forall k {:trigger events[..k]} | 0 <= k <= |events|
        ensures Reached(watchdog, events[..k]).Some? && Inv(Reached(watchdog, events[..k]).value)
      {
        PrefixIsReached(watchdog, events, k);
        forall i | 0 <= i < k ensures events[..k][..i] == events[..i] {
        }
        EveryOrderIsExclusive(watchdog, events[..k]);
      }
    } else {
      var k :| 0 <= k < |events| && events[k].Start? && Reached(watchdog, events[..k]).Some?
        && Reached(watchdog, events[..k]).value.stopped && Reached(watchdog, events[..k]).value.opens != 0;
      PrefixIsReached(watchdog, events, k);
      StartUnderPendingOpen(watchdog, Reached(watchdog, events[..k]).value);
      InvIsExclusive(Reached(watchdog, events[..k + 1]).value);
    }
  }

  lemma InvIsExclusive(m: Machine)
    ensures Inv(m) ==> Exclusive(m)
  {
  }

  /** After a stop, until the next start, nothing changes: a late `open()` only settles. */
  lemma StoppedStaysQuiet(watchdog: bool, m: Machine, e: Event)
    requires Inv(m) && m.stopped && CanHappen(m, e) && !e.Start? && !e.Stop?
    ensures Step(watchdog, m, e) == m.(opens := Step(watchdog, m, e).opens)
  {
    hide CalledAll;
  }

  /** After a fatal close, short of a stop, nothing changes at all. */
  lemma FatalStaysQuiet(watchdog: bool, m: Machine, e: Event)
    requires Inv(m) && !m.stopped && m.state.Fatal? && CanHappen(m, e) && !e.Stop?
    ensures Step(watchdog, m, e) == m
  {
    hide CalledAll;
  }

  /** Stopping and starting again under a pending `open()`: both attempts
      capture the same generation, and two sockets are listened to. */
  lemma RestartUnderPendingOpen() returns (events: seq<Event>)
    ensures Reached(true, events).Some?
    ensures var m := Reached(true, events).value;
      |m.sockets| == 2 && m.sockets[0] == m.sockets[1] == m.generation && m.socket == Some(1)
  {
    events := [];
    assert Reached(true, events) == Some(Initial());
    hide Reached;
    events := Then(events, Start);
    events := Then(events, Stop);
    events := Then(events, Start);
    events := Then(events, OpenAnswers(true));
    events := Then(events, OpenAnswers(true));
  }

  lemma Then(events: seq<Event>, e: Event) returns (more: seq<Event>)
    requires Reached(true, events).Some? && CanHappen(Reached(true, events).value, e)
    ensures Reached(true, more) == Some(Step(true, Reached(true, events).value, e))
  {
    more := events + [e];
    assert more[..|more| - 1] == events;
  }

  // ---------- The implementation ----------

  class Feed {
    const watchdog: bool
    var socket: Option<nat>
    var state: FeedState
    var attempt: nat
    var reconnectArmed: bool
    var idleArmed: bool
    var stopped: bool
    var generation: nat
    var opens: nat
    var sockets: seq<nat>

    constructor (watchdog: bool)
      ensures this.watchdog == watchdog && AsMachine() == Initial() && Valid() && LiveOverASocket()
    {
      this.watchdog := watchdog;
      socket, state, attempt := None, Stopped, 0;
      reconnectArmed, idleArmed, stopped := false, false, true;
      generation, opens, sockets := 0, 0, [];
      new;
      InitiallyInv(watchdog);
    }

    ghost function AsMachine(): Machine
      reads this
    {
      Machine(socket, state, attempt, reconnectArmed, idleArmed, stopped, generation, opens, sockets)
    }

    /** While running, the feed waits for exactly one of an `open()`, its socket and
        its reconnect timer; only its current socket is listened to. */
    ghost predicate Valid()
      reads this
    {
      Inv(AsMachine())
    }

    /** A live feed has a socket, and a watchdog armed over it if it was given one. */
    ghost predicate LiveOverASocket()
      reads this
    {
      LiveHasSocket(AsMachine()) && LiveIsWatched(watchdog, AsMachine())
    }

    /** What a handled frame of the current socket comes to: it stays, under an
        armed watchdog, or it is retired and one more attempt is due. */
    twostate predicate FrameHandled(id: nat, calls: seq<HandleCall>)
      reads this
    {
      if DropsIn(calls) then
        && socket.None? && reconnectArmed && !idleArmed && id < |sockets| && sockets[id] != generation
        && (!LiveAfterDrop(calls) ==> state == Retrying && attempt == (if LiveIn(calls) then 1 else old(attempt) + 1))
      else
        && socket == Some(id) && idleArmed == watchdog && !reconnectArmed
        && state == (if LiveIn(calls) then Live else old(state))
        && attempt == (if LiveIn(calls) then 0 else old(attempt))
    }

    method DoTeardown()
      modifies this
      ensures AsMachine() == Teardown(old(AsMachine()))
    {
      generation := generation + 1;
      idleArmed := false;
      socket := None;
    }

    method DoScheduleReconnect()
      modifies this
      ensures AsMachine() == ScheduleReconnect(old(AsMachine()))
    {
      if stopped || reconnectArmed {
        return;
      }
      attempt := attempt + 1;
      state := Retrying;
      reconnectArmed := true;
    }

    method DoDropAndRetry()
      modifies this
      ensures AsMachine() == DropAndRetry(old(AsMachine()))
    {
      if stopped {
        return;
      }
      DoTeardown();
      DoScheduleReconnect();
    }

    method DoConnect()
      modifies this
      ensures AsMachine() == Connect(old(AsMachine()))
    {
      if stopped {
        return;
      }
      state := Connecting;
      opens := opens + 1;
    }

    /** What the protocol handler of one frame does, call by call. */
    method DoHandle(calls: seq<HandleCall>)
      modifies this
      ensures AsMachine() == CalledAll(old(AsMachine()), calls)
    {
      for i := 0 to |calls|
        invariant AsMachine() == CalledAll(old(AsMachine()), calls[..i])
      {
        assert calls[..i + 1][..i] == calls[..i];
        match calls[i]
        case Send(throws) =>
          if socket.Some? && throws {
            DoDropAndRetry();
          }
        case MarkLive =>
          attempt := 0;
          state := Live;
        case Reconnect => DoDropAndRetry();
      }
      assert calls[..|calls|] == calls;
    }

    method OnStart()
      requires Valid()
      modifies this
      ensures AsMachine() == Step(watchdog, old(AsMachine()), Start)
      // a start under a pending open() is the one event that breaks exclusivity
      ensures Valid() <==> !(old(stopped) && old(opens) > 0)
      ensures old(LiveOverASocket()) ==> LiveOverASocket()
      ensures !old(stopped) ==> AsMachine() == old(AsMachine())
      ensures old(stopped) ==> AsMachine() == old(AsMachine()).(stopped := false, attempt := 0, state := Connecting, opens := opens)
      ensures !stopped && opens == old(opens) + if old(stopped) then 1 else 0
    {
      if stopped && opens > 0 {
        StartUnderPendingOpen(watchdog, AsMachine());
      } else {
        StepKeepsInv(watchdog, AsMachine(), Start);
      }
      if !stopped {
        return;
      }
      stopped := false;
      attempt := 0;
      DoConnect();
    }

    method OnStop()
      requires Valid()
      modifies this
      ensures AsMachine() == Step(watchdog, old(AsMachine()), Stop)
      ensures Valid() && LiveOverASocket()
      ensures stopped && socket.None? && !reconnectArmed && !idleArmed && state == Stopped && attempt == old(attempt)
      ensures forall i | 0 <= i < |sockets| :: sockets[i] != generation
    {
      StepKeepsInv(watchdog, AsMachine(), Stop);
      stopped := true;
      if reconnectArmed {
        reconnectArmed := false;
      }
      DoTeardown();
      state := Stopped;
    }

    /** The rest of an attempt once its `open()` settled. */
    method OnOpenSettled(answered: bool, constructs: bool)
      requires opens > 0
      requires Valid()
      modifies this
      ensures AsMachine() == Step(watchdog, old(AsMachine()), if answered then OpenAnswers(constructs) else OpenFails)
      ensures Valid() && (old(LiveOverASocket()) ==> LiveOverASocket())
      // an attempt of a running feed ends in a socket or in an armed reconnect timer
      ensures opens == 0 && (old(Running(AsMachine())) ==>
        if answered && constructs
        then socket == Some(|old(sockets)|) && sockets == old(sockets) + [generation] && state == old(state) && attempt == old(attempt)
        else reconnectArmed && socket.None? && state == Retrying && attempt == old(attempt) + 1)
      ensures old(stopped) ==> socket.None? && !reconnectArmed && stopped
    {
      StepKeepsInv(watchdog, AsMachine(), if answered then OpenAnswers(constructs) else OpenFails);
      opens := opens - 1;
      if !answered {
        DoScheduleReconnect();
        return;
      }
      if stopped {
        return;
      }
      var mine := generation;
      if !constructs {
        DoScheduleReconnect();
        return;
      }
      socket := Some(|sockets|);
      sockets := sockets + [mine];
    }

    method OnOpen(id: nat, calls: seq<HandleCall>)
      requires id < |sockets|
      requires Valid()
      modifies this
      ensures AsMachine() == Step(watchdog, old(AsMachine()), SocketOpens(id, calls))
      ensures Valid() && (old(LiveOverASocket()) && !LiveAfterDrop(calls) ==> LiveOverASocket())
      ensures old(socket) != Some(id) ==> AsMachine() == old(AsMachine())
      ensures old(socket) == Some(id) ==> FrameHandled(id, calls)
    {
      StepKeepsInv(watchdog, AsMachine(), SocketOpens(id, calls));
      if sockets[id] != generation {
        return;
      }
      FrameLeads(AsMachine().(idleArmed := watchdog), calls);
      idleArmed := watchdog;
      DoHandle(calls);
    }

    method OnMessage(id: nat, text: bool, calls: seq<HandleCall>)
      requires id < |sockets|
      requires Valid()
      modifies this
      ensures AsMachine() == Step(watchdog, old(AsMachine()), FrameArrives(id, text, calls))
      ensures Valid() && (old(LiveOverASocket()) && !LiveAfterDrop(calls) ==> LiveOverASocket())
      ensures old(socket) != Some(id) ==> AsMachine() == old(AsMachine())
      ensures old(socket) == Some(id) && text ==> FrameHandled(id, calls)
      ensures !text ==> socket == old(socket) && state == old(state) && generation == old(generation) && attempt == old(attempt)
      ensures old(socket) == Some(id) && !text ==> idleArmed == watchdog
    {
      StepKeepsInv(watchdog, AsMachine(), FrameArrives(id, text, calls));
      if sockets[id] != generation {
        return;
      }
      idleArmed := watchdog;
      if !text {
        return;
      }
      FrameLeads(AsMachine(), calls);
      DoHandle(calls);
    }

    method OnClose(id: nat, fatal: bool)
      requires id < |sockets|
      requires Valid()
      modifies this
      ensures AsMachine() == Step(watchdog, old(AsMachine()), SocketCloses(id, fatal))
      ensures Valid() && (old(LiveOverASocket()) ==> LiveOverASocket())
      ensures old(socket) != Some(id) ==> AsMachine() == old(AsMachine())
      // the current socket is gone: for good after a fatal close, else until the armed timer
      ensures old(socket) == Some(id) ==>
        socket.None? && !idleArmed && sockets[id] != generation && reconnectArmed == !fatal
        && state == (if fatal then Fatal else Retrying) && attempt == (if fatal then old(attempt) else old(attempt) + 1)
    {
      StepKeepsInv(watchdog, AsMachine(), SocketCloses(id, fatal));
      if sockets[id] != generation {
        return;
      }
      if fatal {
        DoTeardown();
        state := Fatal;
        return;
      }
      DoDropAndRetry();
    }

    method OnIdle()
      requires idleArmed
      requires Valid()
      modifies this
      ensures AsMachine() == Step(watchdog, old(AsMachine()), IdleFires)
      ensures Valid() && LiveOverASocket()
      ensures socket.None? && reconnectArmed && !idleArmed && state == Retrying && attempt == old(attempt) + 1
    {
      StepKeepsInv(watchdog, AsMachine(), IdleFires);
      DoDropAndRetry();
    }

    method OnReconnectTimer()
      requires reconnectArmed
      requires Valid()
      modifies this
      ensures AsMachine() == Step(watchdog, old(AsMachine()), ReconnectFires)
      ensures Valid() && LiveOverASocket()
      ensures opens == 1 && socket.None? && !reconnectArmed && state == Connecting && attempt == old(attempt)
    {
      StepKeepsInv(watchdog, AsMachine(), ReconnectFires);
      reconnectArmed := false;
      DoConnect();
    }
  }
}
