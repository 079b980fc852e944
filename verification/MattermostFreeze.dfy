/** The Mattermost crawl driven by the dataset engine through any number of
    crashes, while posts keep arriving. */
module MattermostFreeze {
  import opened Records
  import opened Wrappers
  import opened MattermostPosts
  import opened MattermostCrawl
  import opened DatasetEngine

  /** Attempt after attempt; requests are numbered across the whole run, so the
      n-th meets `fault(n)` and sees the channel without its newest `hidden(n)` posts.
      Every attempt starts a bot lookup of its own. */
  method FreezeChannel(
      c: Channel, resource: nat, w: Window, fault: nat -> Fault, deaths: seq<nat>, heard: seq<nat -> bool>)
    returns (segments: map<nat, seq<Row>>, checkpoint: Progress<Cursor>)
    requires Honest(c) && |deaths| == |heard|
    ensures StagedRows(segments, checkpoint.segments) <= EverRows(c, resource, w)
    ensures checkpoint.coverage == Some(Complete) ==>
      PresentRows(c, resource, w) <= StagedRows(segments, checkpoint.segments)
    ensures checkpoint.coverage.None? ==>
      PresentRows(c, resource, w)
        <= StagedRows(segments, checkpoint.segments) + Owed(c, resource, w, c.hidden(0), checkpoint.cursor)
    ensures (forall n :: !fault(n).ResourceScoped?) && checkpoint.coverage.Some? ==> checkpoint.coverage == Some(Complete)
  {
    hide Owed; hide RowsOf; hide Resumable; hide StagedRows; hide EverRows; hide PresentRows; hide PageStart; hide PastWindow;
    ghost var absent := c.hidden(0);
    ghost var owed, ever := OwedFrom(c, resource, w, absent), EverRows(c, resource, w);
    var staging := new Staging<Cursor, Row>(owed, ever);
    var next: nat := 0;
    for i := 0 to |deaths|
      invariant fresh(staging)
      invariant staging.Sound(owed, ever)
      invariant (forall n :: !fault(n).ResourceScoped?) && staging.checkpoint.coverage.Some?
        ==> staging.checkpoint.coverage == Some(Complete)
    {
      if staging.checkpoint.coverage.None? {
        ArrivedSince(c, next);
        var bots := new BotResolver(c.accounts);
        var batches, processed, ending, after :=
          IterateRecords(c, resource, w, absent, staging.checkpoint.cursor, bots, fault, next);
        next := after;
        staging.CrawlResource(owed, ever, batches, ending, deaths[i], heard[i]);
      }
    }
    segments, checkpoint := staging.segments, staging.checkpoint;
    NothingReadOwesThePresent(c, resource, w);
  }

  lemma ArrivedSince(c: Channel, n: nat)
    requires Honest(c)
    ensures c.hidden(n) <= c.hidden(0) <= |c.posts|
  {
  }

  // ---------- What the frozen rows are ----------

  /** Whether an index is that of a post the channel already held when the run began. */
  predicate Present(c: Channel, k: nat) {
    c.hidden(0) <= k < |c.posts|
  }

  /** The rows of the posts already there when the run began, their roots
      looked up among those posts only. */
  ghost function PresentRows(c: Channel, resource: nat, w: Window): set<Row>
    requires Honest(c)
  {
    var at := AtStart(c);
    set p, r | p in at.posts && r in PostRows(p, RootOf(at, p), resource, w, IsBotIn(c)) :: r
  }

  /** The channel as it was when the run began. */
  ghost function AtStart(c: Channel): Channel
    requires Honest(c)
  {
    assert c.hidden(0) <= |c.posts| by { ArrivedSince(c, 0); }
    c.(posts := c.posts[c.hidden(0)..])
  }

  /** A root is older than its replies, so arrivals never change what a post is credited against. */
  lemma RootsDoNotArrive(c: Channel, k: nat)
    requires Honest(c) && Present(c, k)
    ensures RootOf(AtStart(c), c.posts[k]) == RootOf(c, c.posts[k])
  {
    ArrivedSince(c, 0);
    var p := c.posts[k];
    var posts := AtStart(c).posts;
    assert forall m | 0 <= m < |posts| :: posts[m] == c.posts[m + c.hidden(0)];
    if p.rootId.Some? {
      var i, j := IndexOf(c.posts, p.rootId.value), IndexOf(posts, p.rootId.value);
      if i < |c.posts| {
        assert k < i;
        assert posts[i - c.hidden(0)] == c.posts[i];
        assert posts[j] == c.posts[j + c.hidden(0)];
      } else if j < |posts| {
        assert false;
      }
    }
  }

  /** A run that has read nothing owes exactly the rows of the posts present at its start. */
  lemma NothingReadOwesThePresent(c: Channel, resource: nat, w: Window)
    requires Honest(c)
    ensures Owed(c, resource, w, c.hidden(0), None) == PresentRows(c, resource, w)
  {
    hide PostRows; hide RootOf; hide IsBotIn; hide Honest; hide Owed; hide PresentRows;
    ArrivedSince(c, 0);
    forall r ensures r in Owed(c, resource, w, c.hidden(0), None) <==> r in PresentRows(c, resource, w) {
      if r in Owed(c, resource, w, c.hidden(0), None) {
        OwedIsPresent(c, resource, w, r);
      }
      if r in PresentRows(c, resource, w) {
        PresentIsOwed(c, resource, w, r);
      }
    }
  }

  lemma OwedIsPresent(c: Channel, resource: nat, w: Window, r: Row)
    requires Honest(c) && r in Owed(c, resource, w, c.hidden(0), None)
    ensures r in PresentRows(c, resource, w)
  {
    hide PostRows; hide RootOf; hide IsBotIn; hide Honest;
    ArrivedSince(c, 0);
    var k :| c.hidden(0) <= k < |c.posts| && r in PostRows(c.posts[k], RootOf(c, c.posts[k]), resource, w, IsBotIn(c));
    RootsDoNotArrive(c, k);
    var at := AtStart(c);
    assert c.posts[k] == at.posts[k - c.hidden(0)];
  }

  lemma PresentIsOwed(c: Channel, resource: nat, w: Window, r: Row)
    requires Honest(c) && r in PresentRows(c, resource, w)
    ensures r in Owed(c, resource, w, c.hidden(0), None)
  {
    hide PostRows; hide RootOf; hide IsBotIn; hide Honest;
    ArrivedSince(c, 0);
    var at := AtStart(c);
    var p :| p in at.posts && r in PostRows(p, RootOf(at, p), resource, w, IsBotIn(c));
    var i :| 0 <= i < |at.posts| && at.posts[i] == p;
    assert p == c.posts[i + c.hidden(0)];
    RootsDoNotArrive(c, i + c.hidden(0));
  }

  /** Why overlap is harmless: two rows of the channel with the same
      deduplication identity are the same row. */
  lemma IdentityDeterminesRow(c: Channel, resource: nat, w: Window, a: Row, b: Row)
    requires Honest(c)
    requires a in EverRows(c, resource, w) && b in EverRows(c, resource, w) && SameIdentity(a, b)
    ensures a == b
  {
    hide EverRows; hide Honest;
    var i := RowIsOfAPost(c, resource, w, a);
    var j := RowIsOfAPost(c, resource, w, b);
    NewestFirst(c, i, i);
    assert i == j by { IdsAreDistinct(c, i, j); }
    OnePostOneRow(a, b, c.posts[i], RootOf(c, c.posts[i]), resource, w, IsBotIn(c));
  }

  lemma IdsAreDistinct(c: Channel, i: nat, j: nat)
    requires Honest(c) && i < |c.posts| && j < |c.posts| && c.posts[i].id == c.posts[j].id
    ensures i == j
  {
  }

  lemma RowIsOfAPost(c: Channel, resource: nat, w: Window, r: Row) returns (i: nat)
    requires r in EverRows(c, resource, w)
    ensures i < |c.posts| && IsRowOf(r, c.posts[i], RootOf(c, c.posts[i]), resource, w, IsBotIn(c))
    ensures c.posts[i].id == Some(r.objectId)
  {
    hide RootOf; hide ReactionCount; hide IsBotIn;
    i :| 0 <= i < |c.posts| && r in PostRows(c.posts[i], RootOf(c, c.posts[i]), resource, w, IsBotIn(c));
    assert IsRowOf(r, c.posts[i], RootOf(c, c.posts[i]), resource, w, IsBotIn(c));
  }

  /** Kind, actor and counterparty tell the rows of one post apart. */
  lemma OnePostOneRow(
    a: Row, b: Row, p: RawPost, found: Option<RawPost>, resource: nat, w: Window, isBot: string -> bool)
    requires IsRowOf(a, p, found, resource, w, isBot) && IsRowOf(b, p, found, resource, w, isBot) && SameIdentity(a, b)
    ensures a == b
  {
    hide ReactionCount;
  }
}
