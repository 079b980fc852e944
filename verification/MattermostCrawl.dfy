/** The Mattermost record iterator: a keyset walk from the newest post back,
    while new posts keep arriving. */
module MattermostCrawl {
  import opened Records
  import opened Wrappers
  import opened MattermostPosts

  const POSTS_PER_PAGE := 200

  /** A channel over the whole run. `posts` is every post it ends up with, newest
      first; at request `n` the newest `hidden(n)` of them have not arrived yet. */
  datatype Channel = Channel(posts: seq<RawPost>, hidden: nat -> nat, accounts: map<string, bool>)

  /** The oldest post read so far; absent before the first page. */
  datatype Cursor = Cursor(before: Option<nat>)

  ghost predicate Honest(c: Channel) {
    && (forall i | 0 <= i < |c.posts| :: c.posts[i].id.Some? && c.posts[i].createdAt.Some?)
    // the server orders by distinct creation times, and a root is older than its replies
    && (forall i, j | 0 <= i < j < |c.posts| :: c.posts[i].createdAt.value > c.posts[j].createdAt.value)
    && (forall i, j | 0 <= i < j < |c.posts| :: c.posts[i].id != c.posts[j].id)
    && (forall i, j | 0 <= i < |c.posts| && 0 <= j < |c.posts| && c.posts[j].id == c.posts[i].rootId :: i < j)
    // posts only arrive
    && (forall m: nat, n: nat | m <= n :: c.hidden(n) <= c.hidden(m) <= |c.posts|)
  }

  /** The index of the post with this id, or the number of posts. */
  function IndexOf(posts: seq<RawPost>, id: nat): (i: nat)
    ensures i <= |posts|
    ensures i < |posts| ==> posts[i].id == Some(id)
    ensures forall k | 0 <= k < i :: posts[k].id != Some(id)
  {
    if posts == [] || posts[0].id == Some(id) then 0 else 1 + IndexOf(posts[1..], id)
  }

  /** `GET /posts`: the newest page, or the page just older than a post. */
  function PageStart(c: Channel, cursor: Cursor, now: nat): nat {
    if cursor.before.None? then c.hidden(now)
    else
      var i := IndexOf(c.posts, cursor.before.value);
      if i < |c.posts| then i + 1 else i
  }

  function Page(posts: seq<RawPost>, from: nat): (page: seq<RawPost>)
    ensures |page| <= POSTS_PER_PAGE
  {
    if from > |posts| then []
    else if |posts| - from < POSTS_PER_PAGE then posts[from..]
    else posts[from..from + POSTS_PER_PAGE]
  }

  /** The thread root of a post, which the response carries next to the page. */
  function RootOf(c: Channel, p: RawPost): Option<RawPost> {
    if p.rootId.None? then None
    else
      var i := IndexOf(c.posts, p.rootId.value);
      if i < |c.posts| then Some(c.posts[i]) else None
  }

  function IsBotIn(c: Channel): string -> bool {
    (a: string) => a in c.accounts && c.accounts[a]
  }

  // ---------- What the walk owes ----------

  ghost function RowsBetween(c: Channel, resource: nat, w: Window, lo: nat, hi: nat): set<Row> {
    set k, r | lo <= k < hi && k < |c.posts| && r in PostRows(c.posts[k], RootOf(c, c.posts[k]), resource, w, IsBotIn(c)) :: r
  }

  lemma BetweenSplit(c: Channel, resource: nat, w: Window, lo: nat, mid: nat, hi: nat)
    requires lo <= mid <= hi
    ensures RowsBetween(c, resource, w, lo, hi) == RowsBetween(c, resource, w, lo, mid) + RowsBetween(c, resource, w, mid, hi)
  {
    hide PostRows; hide RootOf; hide IsBotIn;
  }

  lemma BetweenOne(c: Channel, resource: nat, w: Window, k: nat)
    requires k < |c.posts|
    ensures RowsBetween(c, resource, w, k, k + 1) == PostRows(c.posts[k], RootOf(c, c.posts[k]), resource, w, IsBotIn(c))
  {
    hide PostRows; hide RootOf; hide IsBotIn;
  }

  lemma BetweenNothing(c: Channel, resource: nat, w: Window, k: nat)
    ensures RowsBetween(c, resource, w, k, k) == {}
  {
  }

  /** A post older than the window has no row in it: its root is older still. */
  lemma OldPostHasNoRows(c: Channel, resource: nat, w: Window, i: nat)
    requires Honest(c) && i < |c.posts| && c.posts[i].createdAt.value < w.start
    ensures PostRows(c.posts[i], RootOf(c, c.posts[i]), resource, w, IsBotIn(c)) == {}
  {
    var root := RootOf(c, c.posts[i]);
    assert root.Some? ==> root.value.createdAt.value < w.start;
  }

  /** A call without a cursor starts at the newest post. */
  function Parsed(cursor: Option<Cursor>): Cursor {
    if cursor.Some? then cursor.value else Cursor(None)
  }

  /** Rows still to be delivered from a cursor, of the posts already there when
      the newest `absent` had not arrived. */
  ghost function Owed(c: Channel, resource: nat, w: Window, absent: nat, cursor: Option<Cursor>): set<Row> {
    var from := if Parsed(cursor).before.None? then absent else PageStart(c, Parsed(cursor), 0);
    RowsBetween(c, resource, w, if from < absent then absent else from, |c.posts|)
  }

  ghost function OwedFrom(c: Channel, resource: nat, w: Window, absent: nat): Option<Cursor> -> set<Row> {
    (k: Option<Cursor>) => Owed(c, resource, w, absent, k)
  }

  ghost function EverRows(c: Channel, resource: nat, w: Window): set<Row> {
    RowsBetween(c, resource, w, 0, |c.posts|)
  }

  // ---------- The walk ----------

  ghost predicate IsOldest(posts: seq<RawPost>, oldest: Option<(nat, int)>) {
    if oldest.None? then forall p | p in posts :: p.id.None? || p.createdAt.None?
    else
      && (exists p :: p in posts && p.id == Some(oldest.value.0) && p.createdAt == Some(oldest.value.1))
      && forall p | p in posts && p.id.Some? && p.createdAt.Some? :: oldest.value.1 <= p.createdAt.value
  }

  /** Scoreable or not: a page of nothing but join notices still has to advance the walk. */
  method OldestPost(posts: seq<RawPost>) returns (oldest: Option<(nat, int)>)
    ensures IsOldest(posts, oldest)
  {
    oldest := None;
    for i := 0 to |posts|
      invariant IsOldest(posts[..i], oldest)
    {
      var p := posts[i];
      assert posts[..i + 1] == posts[..i] + [p];
      if p.id.None? || p.createdAt.None? {
        continue;
      }
      if oldest.None? || p.createdAt.value < oldest.value.1 {
        assert p in posts[..i + 1];
        oldest := Some((p.id.value, p.createdAt.value));
      }
    }
    assert posts[..|posts|] == posts;
  }

  /** Rows of one page, once every account it credits is known. */
  method PageRecords(
      c: Channel, from: nat, resource: nat, w: Window, bots: BotResolver, fault: nat -> Fault, start: nat)
    returns (records: seq<Row>, threw: bool, next: nat)
    requires bots.Valid() && bots.accounts == c.accounts && from <= |c.posts|
    modifies bots
    ensures bots.Valid() && start <= next
    ensures threw <==> start < next && !fault(next - 1).Answers?
    ensures forall i | start <= i < next - 1 :: fault(i).Answers?
    ensures !threw ==> (set r | r in records) == RowsBetween(c, resource, w, from, from + |Page(c.posts, from)|)
  {
    hide PostRows; hide RowsBetween;
    records := [];
    var page := Page(c.posts, from);
    var accountIds := AccountIds(c, page);
    threw, next := bots.Prime(accountIds, fault, start);
    if threw {
      return;
    }
    BetweenNothing(c, resource, w, from);
    var known := bots.botByAccountId;
    for i := 0 to |page|
      invariant bots.Valid()
      invariant (set r | r in records) == RowsBetween(c, resource, w, from, from + i)
    {
      var p := page[i];
      assert p == c.posts[from + i];
      BetweenSplit(c, resource, w, from, from + i, from + i + 1);
      BetweenOne(c, resource, w, from + i);
      if Scoreable(p) {
        var rows := ToActivityRecords(p, RootOf(c, p), resource, w, KnownBot(known));
        SameFlagsSameRows(p, RootOf(c, p), resource, w, KnownBot(known), IsBotIn(c));
        assert (set r | r in records + rows) == (set r | r in records) + (set r | r in rows);
        records := records + rows;
      } else {
        UnscoreableHasNoRows(p, RootOf(c, p), resource, w, IsBotIn(c));
      }
    }
  }

  function KnownBot(known: map<string, bool>): string -> bool {
    (a: string) => a in known && known[a]
  }

  /** Rows depend on the bot lookup only through the accounts they credit. */
  lemma SameFlagsSameRows(
    p: RawPost, found: Option<RawPost>, resource: nat, w: Window, f: string -> bool, g: string -> bool)
    requires Scoreable(p) && f(p.userId.value) == g(p.userId.value)
    requires var root := ScoreableRoot(found); root.Some? ==> f(root.value.userId.value) == g(root.value.userId.value)
    ensures PostRows(p, found, resource, w, f) == PostRows(p, found, resource, w, g)
  {
    forall r ensures IsRowOf(r, p, found, resource, w, f) <==> IsRowOf(r, p, found, resource, w, g) {
    }
  }

  lemma UnscoreableHasNoRows(p: RawPost, found: Option<RawPost>, resource: nat, w: Window, isBot: string -> bool)
    requires !Scoreable(p)
    ensures PostRows(p, found, resource, w, isBot) == {}
  {
  }

  /** The accounts a page credits: the authors of its scoreable posts and of their roots. */
  method AccountIds(c: Channel, page: seq<RawPost>) returns (ids: seq<string>)
    ensures forall p | p in page && Scoreable(p) ::
      p.userId.value in ids && (ScoreableRoot(RootOf(c, p)).Some? ==> ScoreableRoot(RootOf(c, p)).value.userId.value in ids)
  {
    ids := [];
    for i := 0 to |page|
      invariant forall p | p in page[..i] && Scoreable(p) ::
        p.userId.value in ids && (ScoreableRoot(RootOf(c, p)).Some? ==> ScoreableRoot(RootOf(c, p)).value.userId.value in ids)
    {
      assert page[..i + 1] == page[..i] + [page[i]];
      if Scoreable(page[i]) {
        ids := ids + [page[i].userId.value];
        var root := ScoreableRoot(RootOf(c, page[i]));
        if root.Some? {
          ids := ids + [root.value.userId.value];
        }
      }
    }
    assert page[..|page|] == page;
  }

  /** One page, fetched by request `now`: its rows, and whether the walk can stop after it. */
  method ReadPage(
      c: Channel, cursor: Cursor, resource: nat, w: Window, bots: BotResolver, fault: nat -> Fault, now: nat)
    returns (records: seq<Row>, page: seq<RawPost>, moved: Cursor, done: bool, threw: bool, next: nat)
    requires Honest(c) && bots.Valid() && bots.accounts == c.accounts
    modifies bots
    ensures bots.Valid() && now < next
    ensures threw <==> now + 1 < next && !fault(next - 1).Answers?
    ensures forall i | now < i < next - 1 :: fault(i).Answers?
    ensures var from := PageStart(c, cursor, now);
      && from + |page| <= |c.posts| && page == c.posts[from..from + |page|] && |page| <= POSTS_PER_PAGE
      && (!threw ==>
           && (set r | r in records) == RowsBetween(c, resource, w, from, from + |page|)
           && (done ==> PastWindow(c, w, from + |page|))
           && (!done ==> |page| == POSTS_PER_PAGE && InOrAboveWindow(page, w))
           && (page == [] ==> from == |c.posts|)
           && (if page != [] then moved == Cursor(c.posts[from + |page| - 1].id) && moved.before.Some? else moved == cursor))
  {
    hide RowsBetween; hide PostRows; hide Honest; hide IsOldest; hide PastWindow;
    var from := PageStart(c, cursor, now);
    StartInRange(c, cursor, now);
    page := Page(c.posts, from);
    moved, done := cursor, true;
    records, threw, next := PageRecords(c, from, resource, w, bots, fault, now + 1);
    if threw {
      return;
    }
    var oldest := OldestPost(page);
    done := Stops(oldest, cursor, |page|, w);
    moved := if oldest.None? then cursor else Cursor(Some(oldest.value.0));
    StoppingLosesNothing(c, cursor, now, w, oldest);
    if !done {
      NotStoppedIsAbove(page, oldest, w);
    }
  }

  lemma NotStoppedIsAbove(page: seq<RawPost>, oldest: Option<(nat, int)>, w: Window)
    requires IsOldest(page, oldest) && oldest.Some?
    ensures w.start <= oldest.value.1 ==> InOrAboveWindow(page, w)
  {
  }

  /** The walk ends on an empty page, on one already read, on a short one, and
      on the first post older than the window start. */
  predicate Stops(oldest: Option<(nat, int)>, cursor: Cursor, count: nat, w: Window) {
    || oldest.None?
    || oldest.value.1 < w.start
    || Some(oldest.value.0) == cursor.before
    || count < POSTS_PER_PAGE
  }

  /** No post of these predates the window. */
  predicate InOrAboveWindow(posts: seq<RawPost>, w: Window) {
    forall p | p in posts && p.id.Some? && p.createdAt.Some? :: w.start <= p.createdAt.value
  }

  /** Everything from index `k` on predates the window. */
  ghost predicate PastWindow(c: Channel, w: Window, k: nat) {
    forall i | k <= i < |c.posts| :: c.posts[i].createdAt.Some? && c.posts[i].createdAt.value < w.start
  }

  lemma PastWindowHasNoRows(c: Channel, resource: nat, w: Window, k: nat)
    requires Honest(c) && PastWindow(c, w, k)
    ensures RowsBetween(c, resource, w, k, |c.posts|) == {}
  {
    hide PostRows; hide IsBotIn;
    forall i | k <= i < |c.posts|
      ensures PostRows(c.posts[i], RootOf(c, c.posts[i]), resource, w, IsBotIn(c)) == {}
    {
      OldPostHasNoRows(c, resource, w, i);
    }
  }

  lemma StoppingLosesNothing(c: Channel, cursor: Cursor, now: nat, w: Window, oldest: Option<(nat, int)>)
    requires Honest(c) && PageStart(c, cursor, now) <= |c.posts|
    requires IsOldest(Page(c.posts, PageStart(c, cursor, now)), oldest)
    ensures var from := PageStart(c, cursor, now);
      var count := |Page(c.posts, from)|;
      && (Stops(oldest, cursor, count, w) ==> PastWindow(c, w, from + count))
      && (if count > 0 then oldest.Some? && Some(oldest.value.0) == c.posts[from + count - 1].id else oldest.None?)
  {
    hide Honest; hide IsOldest; hide IndexOf;
    var from := PageStart(c, cursor, now);
    var count := |Page(c.posts, from)|;
    OldestIsLast(c, from, oldest);
    if count > 0 {
      NeverTheBoundary(c, cursor, now, from + count - 1);
      forall i | from + count <= i < |c.posts| ensures c.posts[i].createdAt.Some? && c.posts[i].createdAt.value < oldest.value.1 {
        NewestFirst(c, from + count - 1, i);
      }
    }
  }

  lemma StartInRange(c: Channel, cursor: Cursor, now: nat)
    requires Honest(c)
    ensures PageStart(c, cursor, now) <= |c.posts|
  {
    assert c.hidden(now) <= |c.posts|;
  }

  lemma NewestFirst(c: Channel, i: nat, j: nat)
    requires Honest(c) && i <= j < |c.posts|
    ensures c.posts[i].id.Some? && c.posts[i].createdAt.Some? && c.posts[j].id.Some? && c.posts[j].createdAt.Some?
    ensures i < j ==> c.posts[j].createdAt.value < c.posts[i].createdAt.value
  {
  }

  /** Newest first, so the oldest post of a page is its last. */
  lemma OldestIsLast(c: Channel, from: nat, oldest: Option<(nat, int)>)
    requires Honest(c) && from <= |c.posts| && IsOldest(Page(c.posts, from), oldest)
    ensures var n := |Page(c.posts, from)|;
      if n == 0 then oldest.None?
      else var last := c.posts[from + n - 1];
        last.id.Some? && last.createdAt.Some? && oldest == Some((last.id.value, last.createdAt.value))
  {
    hide Honest;
    var posts := Page(c.posts, from);
    var n := |posts|;
    if n > 0 {
      assert posts[n - 1] == c.posts[from + n - 1] && posts[n - 1] in posts;
      NewestFirst(c, from + n - 1, from + n - 1);
      var p :| p in posts && p.id == Some(oldest.value.0) && p.createdAt == Some(oldest.value.1);
      var k :| 0 <= k < n && posts[k] == p;
      NewestFirst(c, from + k, from + n - 1);
    } else if oldest.Some? {
      assert false;
    }
  }

  /** The walk never meets the post it started after again. */
  lemma NeverTheBoundary(c: Channel, cursor: Cursor, now: nat, i: nat)
    requires Honest(c) && PageStart(c, cursor, now) <= i < |c.posts|
    ensures cursor.before.Some? ==> c.posts[i].id != cursor.before
  {
  }

  /** The cursor that names a post continues right after it. */
  lemma CursorContinues(c: Channel, i: nat, now: nat)
    requires Honest(c) && i < |c.posts|
    ensures PageStart(c, Cursor(c.posts[i].id), now) == i + 1
  {
    NewestFirst(c, i, i);
  }

  /** Where a call stands after `batches`, the next page starting at index `from`:
      it may be abandoned here, it invented nothing, and it owes no more than the rest. */
  ghost predicate Walked(
    c: Channel, resource: nat, w: Window, absent: nat, cursor: Option<Cursor>, batches: seq<Batch<Cursor, Row>>, from: nat)
  {
    && Resumable(OwedFrom(c, resource, w, absent), cursor, batches)
    && RowsOf(batches) <= EverRows(c, resource, w)
    && Owed(c, resource, w, absent, cursor) <= RowsOf(batches) + RowsBetween(c, resource, w, from, |c.posts|)
  }

  /** One page further, its request answered: where the call stands afterwards. */
  method WalkOn(
      c: Channel, resource: nat, w: Window, ghost absent: nat, ghost cursor: Option<Cursor>,
      ghost batches: seq<Batch<Cursor, Row>>, at: Cursor, bots: BotResolver, fault: nat -> Fault, now: nat)
    returns (b: Batch<Cursor, Row>, page: seq<RawPost>, done: bool, threw: bool, next: nat)
    requires Honest(c) && bots.Valid() && bots.accounts == c.accounts && absent <= |c.posts|
    requires at.before.None? ==> at == Parsed(cursor)
    requires Walked(c, resource, w, absent, cursor, batches, PageStart(c, at, now))
    modifies bots
    ensures bots.Valid() && now < next
    ensures threw <==> now + 1 < next && !fault(next - 1).Answers?
    ensures forall i | now < i < next - 1 :: fault(i).Answers?
    ensures var from := PageStart(c, at, now);
      && from + |page| <= |c.posts| && page == c.posts[from..from + |page|] && |page| <= POSTS_PER_PAGE
      && (!threw ==> Walked(c, resource, w, absent, cursor, batches + [b], from + |page|))
      && (!threw && done ==> PastWindow(c, w, from + |page|))
      && (!threw && !done ==> InOrAboveWindow(page, w))
      && (!threw && !done ==> page != [] && b.cursor.before.Some? && PageStart(c, b.cursor, next) == from + |page|)
  {
    hide RowsBetween; hide PostRows; hide Honest; hide PastWindow; hide PageStart; hide Walked; hide IndexOf;
    var records, moved;
    records, page, moved, done, threw, next := ReadPage(c, at, resource, w, bots, fault, now);
    b := Batch(records, moved);
    if !threw {
      ghost var from := PageStart(c, at, now);
      ExtendWalk(c, resource, w, absent, cursor, batches, from, |page|, records, at, moved, now);
      if !done {
        CursorContinues(c, from + |page| - 1, next);
      }
    }
  }

  /** Reads the channel from a cursor back to the window start; the i-th request
      of the run goes as `fault(i)` says. `processed` is every post read, in order. */
  method IterateRecords(
      c: Channel, resource: nat, w: Window, ghost absent: nat, cursor: Option<Cursor>,
      bots: BotResolver, fault: nat -> Fault, start: nat)
    returns (batches: seq<Batch<Cursor, Row>>, processed: seq<RawPost>, ending: Ending, next: nat)
    requires Honest(c) && bots.Valid() && bots.accounts == c.accounts
    requires c.hidden(start) <= absent <= |c.posts|
    modifies bots
    ensures bots.Valid() && start < next
    // one contiguous stretch, newest first: no post is read twice
    ensures var from := PageStart(c, Parsed(cursor), start);
      && from + |processed| <= |c.posts| && processed == c.posts[from..from + |processed|]
      && (ending == Returned(Complete) ==> PastWindow(c, w, from + |processed|))
    // the walk stops at the first page that reaches past the window
    ensures 200 < |processed| ==> InOrAboveWindow(processed[..|processed| - 200], w)
    ensures RowsOf(batches) <= EverRows(c, resource, w)
    ensures Resumable(OwedFrom(c, resource, w, absent), cursor, batches)
    ensures ending == Returned(Complete) ==>
      AllAnswer(fault, start, next) && Owed(c, resource, w, absent, cursor) <= RowsOf(batches)
    ensures ending == Returned(Failed) ==> batches == []
    ensures ending == Returned(Failed) <==> Parsed(cursor).before.None? && fault(start).ResourceScoped?
    ensures ending.Returned? && ending.coverage.Partial? ==>
      fault(next - 1).ResourceScoped? && ending.coverage.reasons == [Reason("posts", fault(next - 1).category)]
    ensures AllAnswer(fault, start, next) ==> ending == Returned(Complete)
    ensures Unswallowed(fault, start, next) ==> ending in {Threw, Returned(Complete)}
  {
    hide RowsBetween; hide PostRows; hide Honest; hide PastWindow; hide RowsOf; hide Resumable; hide PageStart;
    hide Walked; hide Owed; hide EverRows; hide IndexOf;
    batches, processed, ending, next := [], [], Threw, start;
    var at := Parsed(cursor);
    ghost var first := PageStart(c, at, start);
    OwedAtStart(c, resource, w, absent, cursor, start);
    while true
      invariant bots.Valid() && start <= next && AllAnswer(fault, start, next)
      invariant first + |processed| <= |c.posts| && processed == c.posts[first..first + |processed|]
      invariant PageStart(c, at, next) == first + |processed|
      invariant InOrAboveWindow(processed, w)
      invariant if batches == [] then next == start && at == Parsed(cursor) else next > start && at.before.Some?
      invariant Walked(c, resource, w, absent, cursor, batches, first + |processed|)
      decreases |c.posts| - |processed|
    {
      WalkedMeans(c, resource, w, absent, cursor, batches, first + |processed|);
      match fault(next) {
        case Thrown => next := next + 1; return;
        case ResourceScoped(category) =>
          ending := Returned(if at.before.Some? || batches != [] then Partial([Reason("posts", category)]) else Failed);
          next := next + 1;
          return;
        case Answers =>
      }
      var b, page, done, threw, after := WalkOn(c, resource, w, absent, cursor, batches, at, bots, fault, next);
      processed, next := processed + page, after;
      if threw {
        return;
      }
      batches, at := batches + [b], b.cursor;
      if done {
        WalkedMeans(c, resource, w, absent, cursor, batches, first + |processed|);
        PastWindowHasNoRows(c, resource, w, first + |processed|);
        ending := Returned(Complete);
        return;
      }
    }
  }

  lemma WalkedMeans(
    c: Channel, resource: nat, w: Window, absent: nat, cursor: Option<Cursor>, batches: seq<Batch<Cursor, Row>>, from: nat)
    requires Walked(c, resource, w, absent, cursor, batches, from)
    ensures Resumable(OwedFrom(c, resource, w, absent), cursor, batches)
    ensures RowsOf(batches) <= EverRows(c, resource, w)
    ensures Owed(c, resource, w, absent, cursor) <= RowsOf(batches) + RowsBetween(c, resource, w, from, |c.posts|)
  {
  }

  lemma OwedAtStart(c: Channel, resource: nat, w: Window, absent: nat, cursor: Option<Cursor>, start: nat)
    requires Honest(c) && c.hidden(start) <= absent
    ensures PageStart(c, Parsed(cursor), start) <= |c.posts|
    ensures Walked(c, resource, w, absent, cursor, [], PageStart(c, Parsed(cursor), start))
  {
    hide PostRows; hide Resumable;
    StartInRange(c, Parsed(cursor), start);
    ResumableEmpty(OwedFrom(c, resource, w, absent), cursor);
  }

  /** A page that goes on from index `from` leaves what lies behind it owed by its cursor. */
  lemma MovedOwesTheRest(
    c: Channel, resource: nat, w: Window, absent: nat, cursor: Option<Cursor>, from: nat, count: nat,
    at: Cursor, moved: Cursor, now: nat)
    requires Honest(c) && absent <= |c.posts|
    requires from == PageStart(c, at, now) && from + count <= |c.posts| && (count == 0 ==> from == |c.posts|)
    requires at.before.None? ==> at == Parsed(cursor)
    requires if count > 0 then moved == Cursor(c.posts[from + count - 1].id) && moved.before.Some? else moved == at
    ensures Owed(c, resource, w, absent, cursor) <= Owed(c, resource, w, absent, Some(moved))
      || RowsBetween(c, resource, w, from + count, |c.posts|) <= Owed(c, resource, w, absent, Some(moved))
  {
    hide PostRows; hide RowsBetween; hide Honest; hide IndexOf;
    if count > 0 {
      CursorContinues(c, from + count - 1, 0);
      assert PageStart(c, moved, 0) == from + count;
      if from + count < absent {
        var lo := if Parsed(cursor).before.None? then absent else PageStart(c, Parsed(cursor), 0);
        if absent <= lo <= |c.posts| {
          BetweenSplit(c, resource, w, absent, lo, |c.posts|);
        }
        StartInRange(c, Parsed(cursor), 0);
      }
    } else if at.before.Some? {
      assert PageStart(c, moved, 0) == from;
    }
  }

  /** One page more: what the call still owes is what its new cursor owes. */
  lemma ExtendWalk(
    c: Channel, resource: nat, w: Window, absent: nat, cursor: Option<Cursor>,
    batches: seq<Batch<Cursor, Row>>, from: nat, count: nat, records: seq<Row>, at: Cursor, moved: Cursor, now: nat)
    requires Honest(c) && absent <= |c.posts|
    requires from == PageStart(c, at, now) && from + count <= |c.posts| && (count == 0 ==> from == |c.posts|)
    requires at.before.None? ==> at == Parsed(cursor)
    requires if count > 0 then moved == Cursor(c.posts[from + count - 1].id) && moved.before.Some? else moved == at
    requires Walked(c, resource, w, absent, cursor, batches, from)
    requires (set r | r in records) == RowsBetween(c, resource, w, from, from + count)
    ensures Walked(c, resource, w, absent, cursor, batches + [Batch(records, moved)], from + count)
  {
    hide RowsBetween; hide PostRows; hide Honest; hide RowsOf; hide Resumable; hide Owed; hide PageStart;
    var b := Batch(records, moved);
    RowsOfAppend(batches, [b]);
    RowsOfOne(b);
    BetweenSplit(c, resource, w, from, from + count, |c.posts|);
    BetweenSplit(c, resource, w, 0, from, |c.posts|);
    MovedOwesTheRest(c, resource, w, absent, cursor, from, count, at, moved, now);
    ResumableStep(OwedFrom(c, resource, w, absent), cursor, batches, b);
  }
}
