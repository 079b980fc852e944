/** The Discord record iterator: a channel's own history, its active threads,
    then its archived threads, yielded in batches with a resume cursor. */
module DiscordCrawl {
  import opened Records
  import opened Wrappers
  import opened DiscordMessages

  datatype ChannelKind = Text | Announcement | Forum

  datatype RawThread = RawThread(
    id: Option<nat>,
    kind: int,
    parentId: Option<nat>,
    archivedAt: Option<int>,   // microseconds, as Discord prints it; None when missing or malformed
    messages: seq<RawMessage>)

  const ANNOUNCEMENT_THREAD := 10
  const PUBLIC_THREAD := 11

  datatype Listing = Listing(threads: seq<RawThread>, hasMore: bool)

  /** Everything the platform holds for one channel. `archivedListing` is the
      archived-threads endpoint as a function of the `before` boundary. */
  datatype Channel = Channel(
    kind: Option<ChannelKind>,   // None: a payload the crawl cannot read
    messages: seq<RawMessage>,
    active: seq<RawThread>,
    archived: seq<RawThread>,
    archivedListing: Option<int> -> Listing)

  datatype Cursor = MessagesFrom(before: Option<nat>) | ThreadsFrom(archivedBefore: Option<int>)

  predicate Crawlable(t: RawThread, resource: nat) {
    (t.kind == PUBLIC_THREAD || t.kind == ANNOUNCEMENT_THREAD) && t.id.Some? && t.parentId == Some(resource)
  }

  /** `Date.parse` keeps milliseconds only. */
  function ToMs(micros: int): int {
    micros / 1000
  }

  function IdOf(t: RawThread): nat {
    if t.id.Some? then t.id.value else 0
  }

  /** The threads the crawl walks, ordered by id. */
  function CrawlableThreads(threads: seq<RawThread>, resource: nat): (r: seq<RawThread>)
    ensures forall t :: t in r <==> t in threads && Crawlable(t, resource)
    ensures forall t :: t in r <==> t in threads && t.kind in {10, 11} && t.id.Some? && t.parentId == Some(resource)
    ensures forall i, j | 0 <= i < j < |r| :: IdOf(r[i]) <= IdOf(r[j])
  {
    if threads == [] then [] else
      var rest := CrawlableThreads(threads[1..], resource);
      if Crawlable(threads[0], resource) then InsertById(threads[0], rest) else rest
  }

  function InsertById(t: RawThread, sorted: seq<RawThread>): (r: seq<RawThread>)
    requires forall i, j | 0 <= i < j < |sorted| :: IdOf(sorted[i]) <= IdOf(sorted[j])
    ensures forall x :: x in r <==> x == t || x in sorted
    ensures forall i, j | 0 <= i < j < |r| :: IdOf(r[i]) <= IdOf(r[j])
  {
    if sorted == [] || IdOf(t) <= IdOf(sorted[0]) then [t] + sorted
    else
      assert forall x | x in sorted[1..] :: IdOf(sorted[0]) <= IdOf(x);
      [sorted[0]] + InsertById(t, sorted[1..])
  }

  // ---------- What the crawl owes ----------

  ghost predicate ThreadHistories(threads: seq<RawThread>) {
    forall t | t in threads :: History(t.messages)
  }

  ghost function ThreadRows(t: RawThread, resource: nat, w: Window): set<Row> {
    RowsBelow(t.messages, SnowflakeForTimestamp(w.end), resource, w)
  }

  ghost function ActiveRows(c: Channel, resource: nat, w: Window): set<Row> {
    set t, r | t in c.active && Crawlable(t, resource) && r in ThreadRows(t, resource, w) :: r
  }

  predicate ArchivedBefore(t: RawThread, boundary: Option<int>) {
    t.archivedAt.Some? && (boundary.Some? ==> t.archivedAt.value < boundary.value)
  }

  ghost function ArchivedRows(c: Channel, resource: nat, w: Window, boundary: Option<int>): set<Row> {
    set t, r | t in c.archived && ArchivedBefore(t, boundary) && r in ThreadRows(t, resource, w) :: r
  }

  /** The archived endpoint never lists a thread newer than the boundary it was
      given. This alone makes the walk end, whatever `hasMore` says. */
  ghost predicate NeverNewer(c: Channel) {
    forall b: int, t {:trigger t in c.archivedListing(Some(b)).threads} ::
      t in c.archivedListing(Some(b)).threads && t.archivedAt.Some? ==> t.archivedAt.value <= b
  }

  /** The endpoint pages through this channel's own archived threads newest first. */
  ghost predicate HonestListing(c: Channel, resource: nat, b: Option<int>) {
    var l := c.archivedListing(b);
    && (forall t | t in l.threads :: t in c.archived && ArchivedBefore(t, b))
    && (forall t | t in c.archived && ArchivedBefore(t, b) && t !in l.threads ::
          l.hasMore && l.threads != [] && forall s | s in l.threads :: t.archivedAt.value < s.archivedAt.value)
  }

  ghost predicate Honest(c: Channel, resource: nat, w: Window) {
    && History(c.messages)
    && ThreadHistories(c.active) && ThreadHistories(c.archived)
    && (c.kind == Some(Forum) ==> c.messages == [])
    && (forall t | t in c.archived :: Crawlable(t, resource) && t.archivedAt.Some?)
    // a thread goes quiet before it is archived
    && (forall t, m | t in c.archived && m in t.messages :: m.timestamp.value * 1000 <= t.archivedAt.value)
    && (forall b: Option<int> :: HonestListing(c, resource, b))
    && NeverNewer(c)
  }

  /** The rows still to be delivered from a cursor. */
  ghost function Owed(c: Channel, resource: nat, w: Window, cursor: Option<Cursor>): set<Row> {
    match cursor
    case None =>
      RowsBelow(c.messages, SnowflakeForTimestamp(w.end), resource, w)
      + ActiveRows(c, resource, w) + ArchivedRows(c, resource, w, None)
    case Some(MessagesFrom(before)) =>
      RowsBelow(c.messages, if before.Some? then before.value else SnowflakeForTimestamp(w.end), resource, w)
      + ActiveRows(c, resource, w) + ArchivedRows(c, resource, w, None)
    case Some(ThreadsFrom(None)) => ActiveRows(c, resource, w) + ArchivedRows(c, resource, w, None)
    case Some(ThreadsFrom(Some(b))) => ArchivedRows(c, resource, w, Some(b))
  }

  ghost function OwedFrom(c: Channel, resource: nat, w: Window): Option<Cursor> -> set<Row> {
    (k: Option<Cursor>) => Owed(c, resource, w, k)
  }

  /** What the archived walk alone still has to deliver. */
  ghost function ArchiveOwedFrom(c: Channel, resource: nat, w: Window): Option<Cursor> -> set<Row> {
    (k: Option<Cursor>) => if k.Some? && k.value.ThreadsFrom? then ArchivedRows(c, resource, w, k.value.archivedBefore) else {}
  }

  /** A cursor this crawl can have handed out: it never reaches past the window end. */
  predicate Issued(cursor: Option<Cursor>, w: Window) {
    (cursor.Some? && cursor.value.MessagesFrom? && cursor.value.before.Some?) ==>
      cursor.value.before.value <= SnowflakeForTimestamp(w.end)
  }

  // ---------- One thread ----------

  method CrawlThreadMessages(
      h: seq<RawMessage>, resource: nat, w: Window, cursor: Cursor, fault: nat -> Fault, start: nat)
    returns (batches: seq<Batch<Cursor, Row>>, swallowed: Option<Category>, threw: bool, next: nat)
    requires History(h)
    ensures start < next && AllAnswer(fault, start, next - 1)
    ensures threw <==> fault(next - 1).Thrown?
    ensures AsSeq(swallowed) == Told(fault(next - 1))
    ensures forall b | b in batches :: b.cursor == cursor
    ensures |batches| > 0 <==> fault(start).Answers?
    ensures RowsOf(batches) <= RowsBelow(h, SnowflakeForTimestamp(w.end), resource, w)
    ensures !threw && swallowed.None? ==> RowsOf(batches) == RowsBelow(h, SnowflakeForTimestamp(w.end), resource, w)
  {
    hide RowsBelow;
    batches, swallowed, threw, next := [], None, false, start;
    var before: nat := SnowflakeForTimestamp(w.end);
    ghost var owed := RowsBelow(h, before, resource, w);
    while true
      invariant start <= next && AllAnswer(fault, start, next)
      invariant forall b | b in batches :: b.cursor == cursor
      invariant |batches| > 0 <==> next > start
      invariant RowsOf(batches) + RowsBelow(h, before, resource, w) == owed
      decreases before
    {
      next := next + 1;
      match fault(next - 1) {
        case Thrown => threw := true; return;
        case ResourceScoped(category) => swallowed := Some(category); return;
        case Answers =>
      }
      var out := ReadPage(h, before, resource, w);
      AppendRows(batches, out, cursor);
      batches := batches + [Batch(out.records, cursor)];
      if out.done || out.nextBefore.None? {
        return;
      }
      before := out.nextBefore.value;
    }
  }

  lemma AppendRows(batches: seq<Batch<Cursor, Row>>, out: PageOutcome, cursor: Cursor)
    ensures RowsOf(batches + [Batch(out.records, cursor)]) == RowsOf(batches) + RecordSet(out)
  {
    RowsOfAppend(batches, [Batch(out.records, cursor)]);
    RowsOfOne(Batch(out.records, cursor));
  }

  // ---------- Phase 1: the channel's own history ----------

  /** Where a message cursor continues from; the threads come after every message. */
  function FromOf(cursor: Cursor): nat {
    if cursor.MessagesFrom? && cursor.before.Some? then cursor.before.value else 0
  }

  function StartOf(cursor: Option<Cursor>, w: Window): nat {
    if cursor.Some? && cursor.value.MessagesFrom? && cursor.value.before.Some? then cursor.value.before.value
    else SnowflakeForTimestamp(w.end)
  }

  /** Each message cursor of the batches is below the one before it. */
  predicate MovesDown(batches: seq<Batch<Cursor, Row>>, top: nat) {
    batches == [] ||
    var n := |batches| - 1;
    && MovesDown(batches[..n], top)
    && (batches[n].cursor.MessagesFrom? ==> FromOf(batches[n].cursor) < if n == 0 then top else FromOf(batches[n - 1].cursor))
  }

  lemma OneMoreMovesDown(batches: seq<Batch<Cursor, Row>>, b: Batch<Cursor, Row>, top: nat)
    requires MovesDown(batches, top)
    requires b.cursor.MessagesFrom? ==> FromOf(b.cursor) < if batches == [] then top else FromOf(batches[|batches| - 1].cursor)
    ensures MovesDown(batches + [b], top)
  {
    assert (batches + [b])[..|batches|] == batches;
  }

  /** So none reaches past where the first began. */
  lemma {:induction false} MovesDownIsIssued(batches: seq<Batch<Cursor, Row>>, top: nat, w: Window)
    requires MovesDown(batches, top) && top <= SnowflakeForTimestamp(w.end)
    ensures forall b | b in batches :: Issued(Some(b.cursor), w)
    ensures batches != [] ==> FromOf(batches[|batches| - 1].cursor) <= SnowflakeForTimestamp(w.end)
  {
    hide SnowflakeForTimestamp;
    if batches != [] {
      var n := |batches| - 1;
      MovesDownIsIssued(batches[..n], top, w);
      assert batches == batches[..n] + [batches[n]];
    }
  }

  lemma NothingMovesDown(top: nat)
    ensures MovesDown([], top)
  {
  }

  /** Where the walk over a channel's own messages stands after `batches`, the
      next page to be read from `at`. */
  ghost predicate Walking(
    c: Channel, resource: nat, w: Window, cursor: Option<Cursor>, batches: seq<Batch<Cursor, Row>>, at: Cursor)
  {
    && Resumable(OwedFrom(c, resource, w), cursor, batches)
    && Owed(c, resource, w, cursor) == RowsOf(batches) + Owed(c, resource, w, Some(at))
    && MovesDown(batches, StartOf(cursor, w)) && StartOf(cursor, w) <= SnowflakeForTimestamp(w.end)
    && (at.MessagesFrom? ==>
          at.before == Some(if batches == [] then StartOf(cursor, w) else FromOf(batches[|batches| - 1].cursor)))
  }

  lemma WalkStarts(c: Channel, resource: nat, w: Window, cursor: Option<Cursor>)
    requires (cursor.Some? ==> cursor.value.MessagesFrom?) && Issued(cursor, w)
    ensures Walking(c, resource, w, cursor, [], MessagesFrom(Some(StartOf(cursor, w))))
  {
    hide RowsBelow; hide ActiveRows; hide ArchivedRows; hide Resumable; hide SnowflakeForTimestamp;
    NoRows();
    ResumableEmpty(OwedFrom(c, resource, w), cursor);
    assert {} + Owed(c, resource, w, cursor) == Owed(c, resource, w, cursor);
  }

  lemma WalkingMeans(c: Channel, resource: nat, w: Window, cursor: Option<Cursor>, batches: seq<Batch<Cursor, Row>>, at: Cursor)
    requires Walking(c, resource, w, cursor, batches, at)
    ensures MovesDown(batches, StartOf(cursor, w)) && forall b | b in batches :: Issued(Some(b.cursor), w)
    ensures Resumable(OwedFrom(c, resource, w), cursor, batches) && RowsOf(batches) <= Owed(c, resource, w, cursor)
    ensures Owed(c, resource, w, cursor) == RowsOf(batches) + Owed(c, resource, w, Some(at))
  {
    hide Owed; hide Resumable; hide MovesDown;
    MovesDownIsIssued(batches, StartOf(cursor, w), w);
  }

  /** One page further: the rows it held and what its cursor owes make up what was owed. */
  lemma OnePageOn(
    c: Channel, resource: nat, w: Window, cursor: Option<Cursor>, batches: seq<Batch<Cursor, Row>>, before: nat,
    out: PageOutcome, following: Cursor)
    requires Walking(c, resource, w, cursor, batches, MessagesFrom(Some(before)))
    requires if following == ThreadsFrom(None)
      then RowsBelow(c.messages, before, resource, w) == RecordSet(out)
      else
        && following.MessagesFrom? && following.before.Some? && following.before.value < before
        && RowsBelow(c.messages, before, resource, w) == RecordSet(out) + RowsBelow(c.messages, following.before.value, resource, w)
    ensures Walking(c, resource, w, cursor, batches + [Batch(out.records, following)], following)
  {
    hide RowsBelow; hide ActiveRows; hide ArchivedRows; hide Resumable; hide RowsOf; hide MovesDown; hide SnowflakeForTimestamp;
    AppendRows(batches, out, following);
    ResumableStep(OwedFrom(c, resource, w), cursor, batches, Batch(out.records, following));
    OneMoreMovesDown(batches, Batch(out.records, following), StartOf(cursor, w));
  }

  method CrawlChannelMessages(
      c: Channel, resource: nat, w: Window, cursor: Option<Cursor>, fault: nat -> Fault, start: nat)
    returns (batches: seq<Batch<Cursor, Row>>, swallowed: Option<Category>, threw: bool, next: nat)
    requires History(c.messages)
    requires cursor.Some? ==> cursor.value.MessagesFrom?
    requires Issued(cursor, w)
    ensures start < next && AllAnswer(fault, start, next - 1)
    ensures threw <==> fault(next - 1).Thrown?
    ensures AsSeq(swallowed) == Told(fault(next - 1))
    ensures |batches| > 0 <==> fault(start).Answers?
    ensures batches == [] ==> next == start + 1
    // every cursor moves on, to an older message or to the threads
    ensures MovesDown(batches, StartOf(cursor, w))
    ensures forall b | b in batches :: Issued(Some(b.cursor), w)
    ensures RowsOf(batches) <= Owed(c, resource, w, cursor)
    ensures Resumable(OwedFrom(c, resource, w), cursor, batches)
    ensures !threw && swallowed.None? ==>
      Owed(c, resource, w, cursor) == RowsOf(batches) + Owed(c, resource, w, Some(ThreadsFrom(None)))
  {
    hide RowsBelow; hide Owed; hide Resumable; hide MovesDown; hide RowsOf; hide Walking; hide Issued; hide FromOf;
    WalkStarts(c, resource, w, cursor);
    batches, swallowed, threw, next := [], None, false, start;
    var before: nat := SnowflakeForTimestamp(w.end);
    if cursor.Some? && cursor.value.before.Some? {
      before := cursor.value.before.value;
    }
    while true
      invariant start <= next && AllAnswer(fault, start, next)
      invariant |batches| > 0 <==> next > start
      invariant Walking(c, resource, w, cursor, batches, MessagesFrom(Some(before)))
      decreases before
    {
      WalkingMeans(c, resource, w, cursor, batches, MessagesFrom(Some(before)));
      next := next + 1;
      match fault(next - 1) {
        case Thrown => threw := true; return;
        case ResourceScoped(category) => swallowed := Some(category); return;
        case Answers =>
      }
      var out := ReadPage(c.messages, before, resource, w);
      var following := if out.done || out.nextBefore.None? then ThreadsFrom(None) else MessagesFrom(out.nextBefore);
      OnePageOn(c, resource, w, cursor, batches, before, out, following);
      batches := batches + [Batch(out.records, following)];
      if out.done || out.nextBefore.None? {
        WalkingMeans(c, resource, w, cursor, batches, following);
        return;
      }
      before := out.nextBefore.value;
    }
  }

  // ---------- Phase 2: active threads ----------

  ghost function RowsOfThreads(threads: seq<RawThread>, resource: nat, w: Window): set<Row> {
    set t, r | t in threads && r in ThreadRows(t, resource, w) :: r
  }

  lemma RowsOfOneMoreThread(threads: seq<RawThread>, t: RawThread, resource: nat, w: Window)
    ensures RowsOfThreads(threads + [t], resource, w) == RowsOfThreads(threads, resource, w) + ThreadRows(t, resource, w)
  {
    assert forall x :: x in threads + [t] <==> x in threads || x == t;
  }

  /** Every request of the stretch failed in the way a call swallows. */
  ghost predicate AllScoped(fault: nat -> Fault, from: nat, to: nat) {
    forall i | from <= i < to :: fault(i).ResourceScoped?
  }

  method CrawlThreads(
      threads: seq<RawThread>, resource: nat, w: Window, cursor: Cursor, fault: nat -> Fault, start: nat)
    returns (batches: seq<Batch<Cursor, Row>>, reasons: seq<Reason>, threw: bool, next: nat)
    requires ThreadHistories(threads)
    ensures Accounted(fault, start, next, Categories(reasons), threw)
    ensures forall b | b in batches :: b.cursor == cursor
    ensures RowsOf(batches) <= RowsOfThreads(threads, resource, w)
    ensures !threw && reasons == [] ==> RowsOf(batches) == RowsOfThreads(threads, resource, w)
    // no batch exactly when the first request of every thread was refused
    ensures batches == [] && !threw <==> AllScoped(fault, start, start + |threads|)
    ensures batches == [] && !threw ==> next == start + |threads|
  {
    hide RowsBelow; hide RowsOf; hide Accounted; hide Categories;
    batches, reasons, threw, next := [], [], false, start;
    OneRequest(fault, start);
    RowsOfAppend<Cursor, Row>([], []);
    assert RowsOf(batches) == {} by { NoRows(); }
    for i := 0 to |threads|
      invariant Accounted(fault, start, next, Categories(reasons), threw) && !threw
      invariant forall b | b in batches :: b.cursor == cursor
      invariant RowsOf(batches) <= RowsOfThreads(threads[..i], resource, w)
      invariant reasons == [] ==> RowsOf(batches) == RowsOfThreads(threads[..i], resource, w)
      invariant batches == [] <==> AllScoped(fault, start, start + i)
      invariant batches == [] ==> next == start + i
    {
      assert threads[..i + 1] == threads[..i] + [threads[i]];
      RowsOfOneMoreThread(threads[..i], threads[i], resource, w);
      var crawled, swallowed, crashed, after := CrawlThreadMessages(threads[i].messages, resource, w, cursor, fault, next);
      RowsOfAppend(batches, crawled);
      UpToTheLast(fault, next, after);
      AccountedConcat(fault, start, next, after, Categories(reasons), AsSeq(swallowed), crashed);
      batches := batches + crawled;
      if swallowed.Some? {
        OneOnRecord(reasons, Reason("thread", swallowed.value));
        reasons := reasons + [Reason("thread", swallowed.value)];
      }
      next := after;
      if crashed {
        threw := true;
        assert RowsOfThreads(threads[..i + 1], resource, w) <= RowsOfThreads(threads, resource, w);
        return;
      }
    }
    assert threads[..|threads|] == threads;
  }

  lemma NoRows()
    ensures RowsOf<Cursor, Row>([]) == {}
  {
  }

  // ---------- Phase 2: archived threads ----------

  /** A thread archived before the window opened is skipped; one without a readable archive time is not. */
  predicate MayHoldWindow(t: RawThread, w: Window) {
    t.archivedAt.Some? ==> w.start <= ToMs(t.archivedAt.value)
  }

  ghost function AwakeRows(threads: seq<RawThread>, resource: nat, w: Window): set<Row> {
    set t, r | t in threads && MayHoldWindow(t, w) && r in ThreadRows(t, resource, w) :: r
  }

  /** The oldest archive time listed, at the millisecond grain the comparison has. */
  ghost predicate IsOldest(threads: seq<RawThread>, oldest: Option<int>) {
    && (oldest.None? ==> forall t | t in threads :: t.archivedAt.None?)
    && (oldest.Some? ==> exists t :: t in threads && t.archivedAt == oldest)
    && (oldest.Some? ==> forall t | t in threads && t.archivedAt.Some? :: ToMs(oldest.value) <= ToMs(t.archivedAt.value))
  }

  method CrawlArchivedPage(
      threads: seq<RawThread>, resource: nat, w: Window, boundary: Option<int>, fault: nat -> Fault, start: nat)
    returns (batches: seq<Batch<Cursor, Row>>, reasons: seq<Reason>, threw: bool, next: nat, oldest: Option<int>)
    requires ThreadHistories(threads)
    ensures Accounted(fault, start, next, Categories(reasons), threw)
    ensures forall b | b in batches :: b.cursor == ThreadsFrom(boundary)
    ensures RowsOf(batches) <= AwakeRows(threads, resource, w)
    ensures !threw && reasons == [] ==> RowsOf(batches) == AwakeRows(threads, resource, w)
    ensures !threw ==> IsOldest(threads, oldest)
    // nothing is asked for of threads that went quiet before the window
    ensures (forall t | t in threads :: t.archivedAt.Some? && t.archivedAt.value / 1000 < w.start) ==> next == start && batches == []
  {
    hide RowsBelow; hide RowsOf; hide Accounted; hide Categories;
    batches, reasons, threw, next, oldest := [], [], false, start, None;
    OneRequest(fault, start);
    assert RowsOf(batches) == {} by { NoRows(); }
    for i := 0 to |threads|
      invariant Accounted(fault, start, next, Categories(reasons), threw) && !threw
      invariant forall b | b in batches :: b.cursor == ThreadsFrom(boundary)
      invariant RowsOf(batches) <= AwakeRows(threads[..i], resource, w)
      invariant reasons == [] ==> RowsOf(batches) == AwakeRows(threads[..i], resource, w)
      invariant IsOldest(threads[..i], oldest)
      invariant (forall t | t in threads[..i] :: t.archivedAt.Some? && t.archivedAt.value / 1000 < w.start) ==> next == start && batches == []
    {
      var t := threads[i];
      AwakeRowsOfOneMore(threads, i, resource, w);
      OldestOfOneMore(threads, i, oldest);
      if t.archivedAt.Some? && (oldest.None? || ToMs(t.archivedAt.value) < ToMs(oldest.value)) {
        oldest := t.archivedAt;
      }
      if MayHoldWindow(t, w) {
        var crawled, swallowed, crashed, after :=
          CrawlThreadMessages(t.messages, resource, w, ThreadsFrom(boundary), fault, next);
        RowsOfAppend(batches, crawled);
        UpToTheLast(fault, next, after);
        AccountedConcat(fault, start, next, after, Categories(reasons), AsSeq(swallowed), crashed);
        batches := batches + crawled;
        if swallowed.Some? {
          OneOnRecord(reasons, Reason("thread", swallowed.value));
          reasons := reasons + [Reason("thread", swallowed.value)];
        }
        next := after;
        if crashed {
          threw := true;
          assert AwakeRows(threads[..i + 1], resource, w) <= AwakeRows(threads, resource, w);
          return;
        }
      }
    }
    assert threads[..|threads|] == threads;
  }

  lemma AwakeRowsOfOneMore(threads: seq<RawThread>, i: nat, resource: nat, w: Window)
    requires i < |threads|
    ensures AwakeRows(threads[..i + 1], resource, w)
      == AwakeRows(threads[..i], resource, w) + if MayHoldWindow(threads[i], w) then ThreadRows(threads[i], resource, w) else {}
  {
    assert threads[..i + 1] == threads[..i] + [threads[i]];
    assert forall x :: x in threads[..i] + [threads[i]] <==> x in threads[..i] || x == threads[i];
  }

  lemma OldestOfOneMore(threads: seq<RawThread>, i: nat, oldest: Option<int>)
    requires i < |threads| && IsOldest(threads[..i], oldest)
    ensures var t := threads[i];
      var better := t.archivedAt.Some? && (oldest.None? || ToMs(t.archivedAt.value) < ToMs(oldest.value));
      IsOldest(threads[..i + 1], if better then t.archivedAt else oldest)
  {
    assert threads[..i + 1] == threads[..i] + [threads[i]];
    assert forall x :: x in threads[..i] + [threads[i]] <==> x in threads[..i] || x == threads[i];
  }

  lemma QuietThreadHasNoRows(c: Channel, resource: nat, w: Window, t: RawThread)
    requires Honest(c, resource, w) && t in c.archived && ToMs(t.archivedAt.value) < w.start
    ensures ThreadRows(t, resource, w) == {}
  {
    forall m | m in t.messages ensures MessageRows(m, resource, w) == {} {
      assert m.timestamp.value * 1000 <= t.archivedAt.value;
      OldMessageHasNoRows(m, resource, w);
    }
  }

  /** Every archived thread below the boundary is on the page, or older than all of it. */
  lemma ListedOrOlder(
    c: Channel, resource: nat, boundary: Option<int>, threads: seq<RawThread>, oldest: Option<int>, t: RawThread)
    requires HonestListing(c, resource, boundary)
    requires forall x | x in c.archived :: Crawlable(x, resource) && x.archivedAt.Some?
    requires threads == CrawlableThreads(c.archivedListing(boundary).threads, resource)
    requires IsOldest(threads, oldest)
    requires t in c.archived && ArchivedBefore(t, boundary)
    ensures t in threads
      || (c.archivedListing(boundary).hasMore && oldest.Some? && t.archivedAt.value < oldest.value)
  {
    if t !in threads {
      assert c.archivedListing(boundary).threads[0] in threads;
    }
  }

  /** One archived page moves the boundary without losing a row, and the walk
      ends only when nothing older can hold one. */
  lemma ArchivedPageLosesNothing(
    c: Channel, resource: nat, w: Window, boundary: Option<int>, threads: seq<RawThread>, oldest: Option<int>)
    requires Honest(c, resource, w)
    requires threads == CrawlableThreads(c.archivedListing(boundary).threads, resource)
    requires IsOldest(threads, oldest)
    ensures AwakeRows(threads, resource, w) <= ArchivedRows(c, resource, w, boundary)
    ensures oldest.Some? ==> ArchivedRows(c, resource, w, oldest) <= ArchivedRows(c, resource, w, boundary)
    ensures ArchivedRows(c, resource, w, boundary)
      <= AwakeRows(threads, resource, w) + if oldest.Some? then ArchivedRows(c, resource, w, oldest) else {}
    ensures oldest.None? || ToMs(oldest.value) < w.start || oldest == boundary || !c.archivedListing(boundary).hasMore
      ==> ArchivedRows(c, resource, w, boundary) == AwakeRows(threads, resource, w)
  {
    hide ThreadRows; hide History; hide CrawlableThreads;
    assert HonestListing(c, resource, boundary);
    AwakeRowsAreOwed(c, resource, w, boundary, threads);
    if oldest.Some? {
      BoundaryMovesBack(c, resource, w, boundary, threads, oldest);
    }
    forall r | r in ArchivedRows(c, resource, w, boundary)
      ensures r in AwakeRows(threads, resource, w)
        || (c.archivedListing(boundary).hasMore && oldest.Some? && oldest != boundary && w.start <= ToMs(oldest.value)
            && r in ArchivedRows(c, resource, w, oldest))
    {
      var t :| t in c.archived && ArchivedBefore(t, boundary) && r in ThreadRows(t, resource, w);
      ListedOrOlder(c, resource, boundary, threads, oldest, t);
      if ToMs(t.archivedAt.value) < w.start {
        QuietThreadHasNoRows(c, resource, w, t);
      }
    }
  }

  lemma HonestPage(c: Channel, resource: nat, w: Window, boundary: Option<int>)
    requires Honest(c, resource, w)
    ensures HonestListing(c, resource, boundary)
  {
  }

  lemma AwakeRowsAreOwed(c: Channel, resource: nat, w: Window, boundary: Option<int>, threads: seq<RawThread>)
    requires HonestListing(c, resource, boundary)
    requires threads == CrawlableThreads(c.archivedListing(boundary).threads, resource)
    ensures AwakeRows(threads, resource, w) <= ArchivedRows(c, resource, w, boundary)
  {
    hide ThreadRows;
  }

  lemma BoundaryMovesBack(
    c: Channel, resource: nat, w: Window, boundary: Option<int>, threads: seq<RawThread>, oldest: Option<int>)
    requires HonestListing(c, resource, boundary)
    requires threads == CrawlableThreads(c.archivedListing(boundary).threads, resource)
    requires IsOldest(threads, oldest) && oldest.Some?
    ensures oldest != boundary
    ensures ArchivedRows(c, resource, w, oldest) <= ArchivedRows(c, resource, w, boundary)
  {
    hide ThreadRows;
  }

  /** The distance the boundary still has to travel back to the window start. */
  function WalkMeasure(boundary: Option<int>, w: Window): nat {
    if boundary.None? then 0 else if boundary.value < w.start * 1000 then 0 else boundary.value - w.start * 1000
  }

  /** The empty batch that closes a page only moves the cursor. */
  lemma MarkKeepsOwing(
    c: Channel, resource: nat, w: Window, boundary: Option<int>, batches: seq<Batch<Cursor, Row>>, moved: Option<int>, all: bool)
    requires Resumable(ArchiveOwedFrom(c, resource, w), Some(ThreadsFrom(boundary)), batches)
    requires all ==>
      ArchivedRows(c, resource, w, boundary) <= RowsOf(batches) + ArchivedRows(c, resource, w, moved)
    ensures RowsOf(batches + [Batch([], ThreadsFrom(moved))]) == RowsOf(batches)
    ensures all ==>
      Resumable(ArchiveOwedFrom(c, resource, w), Some(ThreadsFrom(boundary)), batches + [Batch([], ThreadsFrom(moved))])
  {
    hide ArchivedRows; hide RowsOf; hide Resumable;
    var mark: Batch<Cursor, Row> := Batch([], ThreadsFrom(moved));
    RowsOfAppend(batches, [mark]);
    RowsOfOne(mark);
    if all {
      ResumableStep(ArchiveOwedFrom(c, resource, w), Some(ThreadsFrom(boundary)), batches, mark);
    }
  }

  /** One request of the archived walk, its threads, and the batch that moves the cursor. */
  method ReadArchivedPage(
      c: Channel, resource: nat, w: Window, boundary: Option<int>, fault: nat -> Fault, start: nat)
    returns (batches: seq<Batch<Cursor, Row>>, reasons: seq<Reason>, threw: bool, next: nat, moved: Option<int>, done: bool)
    requires ThreadHistories(c.archivedListing(boundary).threads)
    ensures Accounted(fault, start, next, Categories(reasons), threw)
    ensures forall b | b in batches :: b.cursor.ThreadsFrom?
    ensures batches == [] && !threw <==> fault(start).ResourceScoped?
    ensures batches == [] && !threw ==> done && reasons != []
    ensures !threw && fault(start).Answers? ==> batches[|batches| - 1] == Batch([], ThreadsFrom(moved))
    // the walk stops exactly at the last page, past the window, and where the boundary no longer moves
    ensures !threw && fault(start).Answers? ==>
      && (done <==> !c.archivedListing(boundary).hasMore || moved == boundary || (moved.Some? && moved.value / 1000 < w.start))
      && (moved != boundary ==> IsOldest(CrawlableThreads(c.archivedListing(boundary).threads, resource), moved))
    ensures !threw && !done ==>
      && moved.Some? && moved != boundary && w.start <= ToMs(moved.value)
      && exists t :: t in c.archivedListing(boundary).threads && t.archivedAt == moved
    ensures Honest(c, resource, w) ==>
      && RowsOf(batches) <= ArchivedRows(c, resource, w, boundary)
      && (!threw && !done ==> ArchivedRows(c, resource, w, moved) <= ArchivedRows(c, resource, w, boundary))
    ensures Honest(c, resource, w) && reasons == [] ==>
      && Resumable(ArchiveOwedFrom(c, resource, w), Some(ThreadsFrom(boundary)), batches)
      && (!threw ==> ArchivedRows(c, resource, w, boundary)
                     <= RowsOf(batches) + if done then {} else ArchivedRows(c, resource, w, moved))
  {
    hide RowsBelow; hide RowsOf; hide ArchivedRows; hide AwakeRows; hide Resumable; hide Honest; hide History; hide Accounted; hide Categories;
    OneRequest(fault, start);
    batches, reasons, threw, next, moved, done := [], [], false, start + 1, boundary, true;
    ghost var owed := ArchiveOwedFrom(c, resource, w);
    assert RowsOf(batches) == {} by { NoRows(); }
    ResumableEmpty(owed, Some(ThreadsFrom(boundary)));
    match fault(start) {
      case Thrown => threw := true; return;
      case ResourceScoped(category) =>
        reasons := [Reason("archived_threads", category)];
        OneOnRecord([], reasons[0]);
        return;
      case Answers =>
    }
    var listing := c.archivedListing(boundary);
    var threads := CrawlableThreads(listing.threads, resource);
    var oldest: Option<int>;
    batches, reasons, threw, next, oldest := CrawlArchivedPage(threads, resource, w, boundary, fault, next);
    AccountedConcat(fault, start, start + 1, next, [], Categories(reasons), threw);
    ResumableConstant(owed, ThreadsFrom(boundary), batches);
    if Honest(c, resource, w) {
      HonestPage(c, resource, w, boundary);
      AwakeRowsAreOwed(c, resource, w, boundary, threads);
    }
    if threw {
      return;
    }
    var pastWindow := oldest.Some? && ToMs(oldest.value) < w.start;
    var stuck := oldest.None? || oldest == boundary;
    done := !listing.hasMore || pastWindow || stuck;
    moved := if oldest.Some? then oldest else boundary;
    var mark: Batch<Cursor, Row> := Batch([], ThreadsFrom(moved));
    if Honest(c, resource, w) {
      ArchivedPageLosesNothing(c, resource, w, boundary, threads, oldest);
      MarkKeepsOwing(c, resource, w, boundary, batches, moved, reasons == []);
    }
    batches := batches + [mark];
  }

  /** Terminates for every endpoint that never lists a thread newer than the
      boundary it was asked for; delivers every owed row of an honest one. */
  method CrawlArchivedThreads(
      c: Channel, resource: nat, w: Window, from: Option<int>, fault: nat -> Fault, start: nat)
    returns (batches: seq<Batch<Cursor, Row>>, reasons: seq<Reason>, threw: bool, next: nat)
    requires NeverNewer(c)
    requires forall b :: ThreadHistories(c.archivedListing(b).threads)
    ensures Accounted(fault, start, next, Categories(reasons), threw)
    ensures forall b | b in batches :: b.cursor.ThreadsFrom?
    ensures batches == [] && !threw <==> fault(start).ResourceScoped?
    ensures batches == [] && !threw ==> reasons != []
    ensures Honest(c, resource, w) ==> RowsOf(batches) <= ArchivedRows(c, resource, w, from)
    ensures Honest(c, resource, w) && reasons == [] ==>
      Resumable(ArchiveOwedFrom(c, resource, w), Some(ThreadsFrom(from)), batches)
    ensures Honest(c, resource, w) && reasons == [] && !threw ==> RowsOf(batches) == ArchivedRows(c, resource, w, from)
  {
    hide RowsBelow; hide RowsOf; hide ArchivedRows; hide Resumable; hide Honest; hide ThreadHistories;
    hide Accounted; hide Categories; hide IsOldest; hide CrawlableThreads;
    OneRequest(fault, start);
    batches, reasons, threw, next := [], [], false, start;
    assert RowsOf(batches) == {} by { NoRows(); }
    ghost var owed := ArchiveOwedFrom(c, resource, w);
    ResumableEmpty(owed, Some(ThreadsFrom(from)));
    var boundary := from;
    while true
      invariant Accounted(fault, start, next, Categories(reasons), threw) && !threw
      invariant if batches == [] then next == start else !fault(start).ResourceScoped?
      invariant forall b | b in batches :: b.cursor.ThreadsFrom?
      invariant Honest(c, resource, w) ==>
        && RowsOf(batches) <= ArchivedRows(c, resource, w, from)
        && ArchivedRows(c, resource, w, boundary) <= ArchivedRows(c, resource, w, from)
      invariant Honest(c, resource, w) && reasons == [] ==>
        && Resumable(owed, Some(ThreadsFrom(from)), batches)
        && ArchivedRows(c, resource, w, from) <= RowsOf(batches) + ArchivedRows(c, resource, w, boundary)
      decreases if boundary.None? then 1 else 0, WalkMeasure(boundary, w)
    {
      var page, swallowed, crashed, after, moved, done := ReadArchivedPage(c, resource, w, boundary, fault, next);
      RowsOfAppend(batches, page);
      AccountedConcat(fault, start, next, after, Categories(reasons), Categories(swallowed), crashed);
      OnRecord(reasons, swallowed);
      if Honest(c, resource, w) && reasons == [] && swallowed == [] {
        ResumableConcat(owed, Some(ThreadsFrom(from)), batches, owed, ThreadsFrom(boundary), page);
      }
      batches := batches + page;
      reasons := reasons + swallowed;
      next := after;
      if crashed {
        threw := true;
        return;
      }
      if done {
        return;
      }
      boundary := moved;
    }
  }

  // ---------- The iterator ----------

  lemma ActiveRowsAreThreadRows(c: Channel, resource: nat, w: Window)
    ensures ActiveRows(c, resource, w) == RowsOfThreads(CrawlableThreads(c.active, resource), resource, w)
  {
    hide ThreadRows;
  }

  /** What the platform guarantees a caller of any kind of channel: readable
      histories, and an archived endpoint that respects its boundary. */
  ghost predicate Readable(c: Channel) {
    && History(c.messages) && ThreadHistories(c.active) && NeverNewer(c)
    && forall b :: ThreadHistories(c.archivedListing(b).threads)
  }

  /** No active thread is read: the listing is refused, or the first request of
      each of its threads is. */
  ghost predicate ActiveRefused(c: Channel, resource: nat, fault: nat -> Fault, start: nat) {
    || fault(start).ResourceScoped?
    || (fault(start).Answers? && AllScoped(fault, start + 1, start + 1 + |CrawlableThreads(c.active, resource)|))
  }

  /** The request after a refused active phase. */
  function AfterActive(c: Channel, resource: nat, fault: nat -> Fault, start: nat): nat {
    if fault(start).Answers? then start + 1 + |CrawlableThreads(c.active, resource)| else start + 1
  }

  ghost predicate ThreadsRefused(c: Channel, resource: nat, archivedBefore: Option<int>, fault: nat -> Fault, start: nat) {
    if archivedBefore.Some? then fault(start).ResourceScoped?
    else ActiveRefused(c, resource, fault, start) && fault(AfterActive(c, resource, fault, start)).ResourceScoped?
  }

  /** Active threads, listed once for the whole guild and narrowed to this channel. */
  method CrawlActiveThreads(c: Channel, resource: nat, w: Window, fault: nat -> Fault, start: nat)
    returns (batches: seq<Batch<Cursor, Row>>, reasons: seq<Reason>, threw: bool, next: nat)
    requires ThreadHistories(c.active)
    ensures start < next && Accounted(fault, start, next, Categories(reasons), threw)
    ensures forall b | b in batches :: b.cursor == ThreadsFrom(None)
    ensures RowsOf(batches) <= ActiveRows(c, resource, w)
    ensures !threw && reasons == [] ==> RowsOf(batches) == ActiveRows(c, resource, w)
    ensures batches == [] && !threw <==> ActiveRefused(c, resource, fault, start)
    ensures batches == [] && !threw ==> next == AfterActive(c, resource, fault, start)
  {
    hide RowsBelow; hide RowsOf; hide ActiveRows; hide RowsOfThreads; hide AllScoped; hide Accounted; hide Categories;
    OneRequest(fault, start);
    batches, reasons, threw, next := [], [], false, start + 1;
    assert RowsOf(batches) == {} by { NoRows(); }
    match fault(start) {
      case Thrown => threw := true; return;
      case ResourceScoped(category) =>
        reasons := [Reason("active_threads", category)];
        OneOnRecord([], reasons[0]);
        return;
      case Answers =>
    }
    ActiveRowsAreThreadRows(c, resource, w);
    batches, reasons, threw, next :=
      CrawlThreads(CrawlableThreads(c.active, resource), resource, w, ThreadsFrom(None), fault, next);
    AccountedConcat(fault, start, start + 1, next, [], Categories(reasons), threw);
  }

  /** Everything from the thread cursor on. */
  method CrawlAllThreads(
      c: Channel, resource: nat, w: Window, archivedBefore: Option<int>, fault: nat -> Fault, start: nat)
    returns (batches: seq<Batch<Cursor, Row>>, reasons: seq<Reason>, threw: bool, next: nat)
    requires Readable(c)
    ensures Accounted(fault, start, next, Categories(reasons), threw)
    ensures forall b | b in batches :: b.cursor.ThreadsFrom?
    ensures Honest(c, resource, w) ==> RowsOf(batches) <= Owed(c, resource, w, Some(ThreadsFrom(archivedBefore)))
    ensures Honest(c, resource, w) && reasons == [] ==>
      Resumable(OwedFrom(c, resource, w), Some(ThreadsFrom(archivedBefore)), batches)
    ensures Honest(c, resource, w) && reasons == [] && !threw ==>
      RowsOf(batches) == Owed(c, resource, w, Some(ThreadsFrom(archivedBefore)))
    ensures batches == [] && !threw <==> ThreadsRefused(c, resource, archivedBefore, fault, start)
    ensures batches == [] && !threw ==> reasons != []
  {
    hide RowsBelow; hide RowsOf; hide ArchivedRows; hide ActiveRows; hide Resumable; hide Honest; hide ThreadHistories;
    hide ActiveRefused; hide AfterActive; hide Accounted; hide Categories;
    OneRequest(fault, start);
    batches, reasons, threw, next := [], [], false, start;
    assert RowsOf(batches) == {} by { NoRows(); }
    ghost var owed := OwedFrom(c, resource, w);
    ghost var rest := ArchiveOwedFrom(c, resource, w);
    ghost var from := Some(ThreadsFrom(archivedBefore));
    ResumableEmpty(owed, from);
    if archivedBefore.None? {
      batches, reasons, threw, next := CrawlActiveThreads(c, resource, w, fault, next);
      ResumableConstant(owed, ThreadsFrom(None), batches);
      if threw {
        return;
      }
    }
    var archived, swallowed, crashed, after := CrawlArchivedThreads(c, resource, w, archivedBefore, fault, next);
    RowsOfAppend(batches, archived);
    AccountedConcat(fault, start, next, after, Categories(reasons), Categories(swallowed), crashed);
    OnRecord(reasons, swallowed);
    if Honest(c, resource, w) && reasons == [] && swallowed == [] {
      assert forall k :: rest(k) <= owed(k);
      ResumableConcat(owed, from, batches, rest, ThreadsFrom(archivedBefore), archived);
    }
    batches, reasons, threw, next := batches + archived, reasons + swallowed, crashed, after;
  }

  predicate BeginsWithMessages(c: Channel, cursor: Option<Cursor>) {
    (cursor.None? || cursor.value.MessagesFrom?) && c.kind != Some(Forum)
  }

  function ArchivedFrom(cursor: Option<Cursor>): Option<int> {
    if cursor.Some? && cursor.value.ThreadsFrom? then cursor.value.archivedBefore else None
  }

  /** The channel cannot be read at all. */
  ghost predicate Unreadable(c: Channel, cursor: Option<Cursor>, fault: nat -> Fault) {
    || (fault(0).ResourceScoped? && cursor.None?)
    || (fault(0).Answers? && c.kind.None?)
    || (fault(0).Answers? && c.kind.Some? && c.kind != Some(Forum) && cursor.None? && fault(1).ResourceScoped?)
  }

  /** Nothing of the channel is read, and yet the call does not say it failed:
      it had read something in an earlier call, or it is a forum, whose thread
      phase never does. */
  ghost predicate NothingReadButPartial(c: Channel, resource: nat, cursor: Option<Cursor>, fault: nat -> Fault) {
    || (fault(0).ResourceScoped? && cursor.Some?)
    || (&& fault(0).Answers? && c.kind.Some?
        && if BeginsWithMessages(c, cursor)
           then cursor.Some? && fault(1).ResourceScoped? && ThreadsRefused(c, resource, None, fault, 2)
           else ThreadsRefused(c, resource, ArchivedFrom(cursor), fault, 1))
  }

  /** One call of the iterator against a platform whose i-th request goes as `fault(i)` says. */
  method IterateRecords(c: Channel, resource: nat, w: Window, cursor: Option<Cursor>, fault: nat -> Fault)
    returns (batches: seq<Batch<Cursor, Row>>, ending: Ending, calls: nat)
    requires Readable(c) && Issued(cursor, w)
    ensures forall b | b in batches :: Issued(Some(b.cursor), w)
    // a call may be abandoned after any batch, or throw at any request, and be resumed
    ensures Honest(c, resource, w) && Unswallowed(fault, 0, calls) ==> Resumable(OwedFrom(c, resource, w), cursor, batches)
    ensures Honest(c, resource, w) ==> RowsOf(batches) <= Owed(c, resource, w, cursor)
    // coverage is honest
    ensures ending == Returned(Complete) ==>
      Unswallowed(fault, 0, calls) && (Honest(c, resource, w) ==> RowsOf(batches) == Owed(c, resource, w, cursor))
    ensures ending == Returned(Failed) ==> batches == []
    ensures ending == Returned(Failed) <==> Unreadable(c, cursor, fault)
    ensures ending.Returned? && ending.coverage.Partial? <==>
      ending.Returned? && !Unreadable(c, cursor, fault) && !Unswallowed(fault, 0, calls)
    // a partial call names every failure it swallowed, in order
    ensures ending.Returned? && ending.coverage.Partial? ==>
      ending.coverage.reasons != [] && Categories(ending.coverage.reasons) == Swallowed(fault, 0, calls)
    ensures ending.Returned? && ending.coverage.Partial? && batches == [] <==> NothingReadButPartial(c, resource, cursor, fault)
    ensures ending == Threw <==> calls > 0 && fault(calls - 1).Thrown?
    ensures c.kind.Some? && Unswallowed(fault, 0, calls) && ending.Returned? ==> ending == Returned(Complete)
  {
    hide RowsBelow; hide RowsOf; hide ArchivedRows; hide ActiveRows; hide Resumable; hide ThreadHistories; hide History;
    hide ThreadsRefused; hide MovesDown; hide StartOf; hide SnowflakeForTimestamp; hide NeverNewer;
    hide Accounted; hide Swallowed; hide Categories; hide Unswallowed; hide AllAnswer;
    batches, calls := [], 1;
    assert RowsOf(batches) == {} by { NoRows(); }
    ghost var owed := OwedFrom(c, resource, w);
    ResumableEmpty(owed, cursor);
    OneRequest(fault, 0);
    AccountedMeans(fault, 0, 1, Told(fault(0)), fault(0).Thrown?);
    match fault(0) {
      case Thrown => ending := Threw; return;
      case ResourceScoped(category) =>
        OneOnRecord([], Reason("channel", category));
        ending := Returned(if cursor.Some? then Partial([Reason("channel", category)]) else Failed);
        return;
      case Answers =>
    }
    if c.kind.None? {
      ending := Returned(Failed);
      return;
    }
    var reasons: seq<Reason> := [];
    var archivedBefore := if cursor.Some? && cursor.value.ThreadsFrom? then cursor.value.archivedBefore else None;
    if (cursor.None? || cursor.value.MessagesFrom?) && c.kind != Some(Forum) {
      var swallowed, threw;
      batches, swallowed, threw, calls := CrawlChannelMessages(c, resource, w, cursor, fault, calls);
      UpToTheLast(fault, 1, calls);
      AccountedConcat(fault, 0, 1, calls, [], Told(fault(calls - 1)), threw);
      AccountedMeans(fault, 0, calls, Told(fault(calls - 1)), threw);
      if threw {
        ending := Threw;
        return;
      }
      if swallowed.Some? {
        if cursor.None? && batches == [] {
          ending := Returned(Failed);
          return;
        }
        reasons := [Reason("messages", swallowed.value)];
        OneOnRecord([], reasons[0]);
      }
    } else if Honest(c, resource, w) && c.kind == Some(Forum) {
      ForumOwesNoMessages(c, resource, w);
    }
    assert batches == [] && reasons != [] ==> calls == 2;
    assert Accounted(fault, 0, calls, Categories(reasons), false);
    var threads, swallowed, threw, after := CrawlAllThreads(c, resource, w, archivedBefore, fault, calls);
    AccountedConcat(fault, 0, calls, after, Categories(reasons), Categories(swallowed), threw);
    OnRecord(reasons, swallowed);
    RowsOfAppend(batches, threads);
    if Honest(c, resource, w) && reasons == [] && swallowed == [] {
      ResumableConcat(owed, cursor, batches, owed, ThreadsFrom(archivedBefore), threads);
    }
    batches, reasons, calls := batches + threads, reasons + swallowed, after;
    AccountedMeans(fault, 0, calls, Categories(reasons), threw);
    ending := if threw then Threw else Returned(if reasons == [] then Complete else Partial(reasons));
  }

  lemma ForumOwesNoMessages(c: Channel, resource: nat, w: Window)
    requires Honest(c, resource, w) && c.kind == Some(Forum)
    ensures forall before :: RowsBelow(c.messages, before, resource, w) == {}
  {
  }

  /** A forum whose listings are all refused: `partial`, although no record was
      ever read, by this call or another. */
  method ForumWithoutListings() returns (batches: seq<Batch<Cursor, Row>>, ending: Ending)
    ensures batches == [] && ending.Returned? && ending.coverage.Partial?
  {
    var c := Channel(Some(Forum), [], [], [], b => Listing([], false));
    var fault := (n: nat) => if n == 0 then Answers else ResourceScoped(PermissionDenied);
    assert ThreadsRefused(c, 1, None, fault, 1);
    var calls;
    batches, ending, calls := IterateRecords(c, 1, Window(0, 1), None, fault);
  }
}
