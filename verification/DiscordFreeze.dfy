/** The Discord crawl driven by the dataset engine through any number of crashes,
    and what the frozen rows are, measured against the channel's whole history. */
module DiscordFreeze {
  import opened Records
  import opened Wrappers
  import opened DiscordMessages
  import opened DiscordCrawl
  import opened DatasetEngine

  /** Attempt after attempt: the i-th meets the faults `faults[i]`, dies before
      the heartbeat of step `deaths[i]`, and has only the heartbeats `heard[i]`
      picks reach the server. */
  method FreezeChannel(
      c: Channel, resource: nat, w: Window, faults: seq<nat -> Fault>, deaths: seq<nat>, heard: seq<nat -> bool>)
    returns (segments: map<nat, seq<Row>>, checkpoint: Progress<Cursor>)
    requires Honest(c, resource, w) && Readable(c) && c.kind.Some?
    requires |faults| == |deaths| == |heard|
    requires forall i | 0 <= i < |faults| :: forall n :: !faults[i](n).ResourceScoped?
    ensures StagedRows(segments, checkpoint.segments) <= Owed(c, resource, w, None)
    ensures checkpoint.coverage.Some? ==>
      checkpoint.coverage == Some(Complete) && StagedRows(segments, checkpoint.segments) == Owed(c, resource, w, None)
    ensures checkpoint.coverage.None? ==>
      Owed(c, resource, w, None) == StagedRows(segments, checkpoint.segments) + Owed(c, resource, w, checkpoint.cursor)
  {
    hide Owed; hide Honest; hide Readable; hide RowsOf; hide Resumable; hide StagedRows; hide Issued;
    ghost var owed := OwedFrom(c, resource, w);
    var staging := new Staging<Cursor, Row>(owed, owed(None));
    assert Issued(None, w) by { NoCursorIsIssued(w); }
    for i := 0 to |faults|
      invariant fresh(staging)
      invariant staging.Sound(owed, owed(None))
      invariant staging.checkpoint.coverage.None? ==> Issued(staging.checkpoint.cursor, w)
      invariant staging.checkpoint.coverage.Some? ==> staging.checkpoint.coverage == Some(Complete)
      invariant staging.checkpoint.coverage.None? ==> owed(staging.checkpoint.cursor) <= owed(None)
    {
      if staging.checkpoint.coverage.None? {
        var batches, ending, calls := IterateRecords(c, resource, w, staging.checkpoint.cursor, faults[i]);
        assert Unswallowed(faults[i], 0, calls);
        forall b | b in batches ensures owed(Some(b.cursor)) <= owed(None) {
          CursorsOweNoMore(c, resource, w, Some(b.cursor));
        }
        staging.CrawlResource(owed, owed(None), batches, ending, deaths[i], heard[i]);
      }
    }
    segments, checkpoint := staging.segments, staging.checkpoint;
  }

  lemma NoCursorIsIssued(w: Window)
    ensures Issued(None, w)
  {
  }

  lemma CursorsOweNoMore(c: Channel, resource: nat, w: Window, cursor: Option<Cursor>)
    requires Issued(cursor, w)
    ensures Owed(c, resource, w, cursor) <= Owed(c, resource, w, None)
  {
    hide MessageRows; hide ThreadRows;
  }

  // ---------- What the frozen rows are ----------

  /** Every row of every message the channel or one of its crawlable threads ever held. */
  ghost function AllInWindowRows(c: Channel, resource: nat, w: Window): set<Row> {
    RowsOfMessages(c.messages, resource, w)
    + (set t, r | t in c.active && Crawlable(t, resource) && r in RowsOfMessages(t.messages, resource, w) :: r)
    + (set t, r | t in c.archived && r in RowsOfMessages(t.messages, resource, w) :: r)
  }

  /** A message written once the window closed, replying to one inside it. */
  predicate LateReply(m: RawMessage, w: Window) {
    CreditsParent(m) && m.timestamp.value >= w.end && InWindow(m.parent.value.timestamp.value, w)
  }

  ghost predicate Holds(c: Channel, resource: nat, m: RawMessage) {
    || m in c.messages
    || (exists t :: t in c.active && Crawlable(t, resource) && m in t.messages)
    || (exists t :: t in c.archived && m in t.messages)
  }

  lemma HeldRow(c: Channel, resource: nat, w: Window, m: RawMessage, r: Row)
    requires Holds(c, resource, m) && r in MessageRows(m, resource, w)
    ensures r in AllInWindowRows(c, resource, w)
  {
    hide MessageRows;
    if m in c.messages {
      assert r in RowsOfMessages(c.messages, resource, w);
    } else if t :| t in c.active && Crawlable(t, resource) && m in t.messages {
      assert r in RowsOfMessages(t.messages, resource, w);
    } else {
      var t :| t in c.archived && m in t.messages;
      assert r in RowsOfMessages(t.messages, resource, w);
    }
  }

  lemma RowIsHeld(c: Channel, resource: nat, w: Window, r: Row) returns (m: RawMessage)
    requires r in AllInWindowRows(c, resource, w)
    ensures Holds(c, resource, m) && r in MessageRows(m, resource, w)
  {
    hide MessageRows;
    if r in RowsOfMessages(c.messages, resource, w) {
      m :| m in c.messages && r in MessageRows(m, resource, w);
    } else if t :| t in c.active && Crawlable(t, resource) && r in RowsOfMessages(t.messages, resource, w) {
      m :| m in t.messages && r in MessageRows(m, resource, w);
    } else {
      var t :| t in c.archived && r in RowsOfMessages(t.messages, resource, w);
      m :| m in t.messages && r in MessageRows(m, resource, w);
    }
  }

  lemma OwedIfBelow(c: Channel, resource: nat, w: Window, m: RawMessage, r: Row)
    requires Honest(c, resource, w)
    requires Holds(c, resource, m) && r in MessageRows(m, resource, w)
    requires m.id.Some? && m.id.value < SnowflakeForTimestamp(w.end)
    ensures r in Owed(c, resource, w, None)
  {
    hide MessageRows; hide SnowflakeForTimestamp; hide HonestListing; hide NeverNewer;
    if m in c.messages {
      assert r in RowsBelow(c.messages, SnowflakeForTimestamp(w.end), resource, w);
    } else if t :| t in c.active && Crawlable(t, resource) && m in t.messages {
      assert r in ThreadRows(t, resource, w);
      assert r in ActiveRows(c, resource, w);
    } else {
      var t :| t in c.archived && m in t.messages;
      assert r in ThreadRows(t, resource, w) && ArchivedBefore(t, None);
      assert r in ArchivedRows(c, resource, w, None);
    }
  }

  lemma OwedIsBelow(c: Channel, resource: nat, w: Window, r: Row) returns (m: RawMessage)
    requires r in Owed(c, resource, w, None)
    ensures Holds(c, resource, m) && r in MessageRows(m, resource, w)
    ensures m.id.Some? && m.id.value < SnowflakeForTimestamp(w.end)
  {
    hide MessageRows; hide SnowflakeForTimestamp;
    var end := SnowflakeForTimestamp(w.end);
    if r in RowsBelow(c.messages, end, resource, w) {
      m :| m in c.messages && m.id.Some? && m.id.value < end && r in MessageRows(m, resource, w);
    } else if t :| t in c.active && Crawlable(t, resource) && r in ThreadRows(t, resource, w) {
      m :| m in t.messages && m.id.Some? && m.id.value < end && r in MessageRows(m, resource, w);
    } else {
      var t :| t in c.archived && ArchivedBefore(t, None) && r in ThreadRows(t, resource, w);
      m :| m in t.messages && m.id.Some? && m.id.value < end && r in MessageRows(m, resource, w);
    }
  }

  lemma HeldIsWellFormed(c: Channel, resource: nat, w: Window, m: RawMessage)
    requires Honest(c, resource, w) && Holds(c, resource, m)
    ensures WellFormed(m)
  {
  }

  /** Every row carries its message's id; of a message written after the window,
      the only row inside it is the one crediting the parent. */
  lemma RowNamesItsMessage(m: RawMessage, resource: nat, w: Window, r: Row)
    requires WellFormed(m) && r in MessageRows(m, resource, w)
    ensures r.objectId == m.id.value
    ensures m.id.value < SnowflakeForTimestamp(w.end) <==> m.timestamp.value < w.end
    ensures m.timestamp.value >= w.end ==> LateReply(m, w)
  {
    hide SnowflakeForTimestamp;
    MessageRowsExact(m, resource, w, r);
    SnowflakeBoundary(m.id.value, w.end);
  }

  lemma LateReplyHasRow(m: RawMessage, resource: nat, w: Window)
    requires LateReply(m, w)
    ensures ReplyReceivedRow(m, resource) in MessageRows(m, resource, w)
  {
    MessageRowsExact(m, resource, w, ReplyReceivedRow(m, resource));
  }

  /** The walk starts at the window end, so the reply-received row of a reply
      written later is never fetched, although its defining time, the parent's,
      is inside the window. Every other in-window row is frozen. */
  lemma {:induction false} FrozenRowsAreTheWindow(c: Channel, resource: nat, w: Window)
    requires Honest(c, resource, w)
    ensures Owed(c, resource, w, None) <= AllInWindowRows(c, resource, w)
    ensures Owed(c, resource, w, None) == AllInWindowRows(c, resource, w)
      <==> forall m | Holds(c, resource, m) :: !LateReply(m, w)
  {
    hide MessageRows; hide Holds; hide SnowflakeForTimestamp; hide Honest; hide Owed; hide AllInWindowRows; hide LateReply;
    forall r | r in Owed(c, resource, w, None) ensures r in AllInWindowRows(c, resource, w) {
      var m := OwedIsBelow(c, resource, w, r);
      HeldRow(c, resource, w, m, r);
    }
    if m :| Holds(c, resource, m) && LateReply(m, w) {
      LateReplyIsLost(c, resource, w, m);
    } else {
      forall r | r in AllInWindowRows(c, resource, w) ensures r in Owed(c, resource, w, None) {
        var m := RowIsHeld(c, resource, w, r);
        HeldIsWellFormed(c, resource, w, m);
        RowNamesItsMessage(m, resource, w, r);
        OwedIfBelow(c, resource, w, m, r);
      }
    }
  }

  lemma LateReplyIsLost(c: Channel, resource: nat, w: Window, m: RawMessage)
    requires Honest(c, resource, w) && Holds(c, resource, m) && LateReply(m, w)
    ensures ReplyReceivedRow(m, resource) in AllInWindowRows(c, resource, w)
    ensures ReplyReceivedRow(m, resource) !in Owed(c, resource, w, None)
  {
    hide MessageRows; hide Holds; hide SnowflakeForTimestamp; hide Honest; hide Owed; hide AllInWindowRows;
    var r := ReplyReceivedRow(m, resource);
    LateReplyHasRow(m, resource, w);
    HeldRow(c, resource, w, m, r);
    HeldIsWellFormed(c, resource, w, m);
    RowNamesItsMessage(m, resource, w, r);
    if r in Owed(c, resource, w, None) {
      var other := OwedIsBelow(c, resource, w, r);
      HeldIsWellFormed(c, resource, w, other);
      RowNamesItsMessage(other, resource, w, r);
      assert false;
    }
  }

  /** One channel, one reply written a moment after the window closed: the row
      crediting its parent is inside the window and is never frozen. */
  lemma LateReplyExample() returns (c: Channel, resource: nat, w: Window)
    ensures Honest(c, resource, w)
    ensures Owed(c, resource, w, None) != AllInWindowRows(c, resource, w)
  {
    var ada := Some(RawUser(Some("ada"), false));
    var reply := RawMessage(
      Some(10 * SNOWFLAKE_STEP), REPLY_MESSAGE, Some(DISCORD_EPOCH_MS + 10), Some(RawUser(Some("bob"), false)),
      [], [], Some(RawParent(Some(DISCORD_EPOCH_MS + 7), ada)));
    c := Channel(Some(Text), [reply], [], [], b => Listing([], false));
    resource, w := 1, Window(DISCORD_EPOCH_MS + 5, DISCORD_EPOCH_MS + 10);
    assert reply in c.messages;
    assert LateReply(reply, w) && Holds(c, resource, reply);
    FrozenRowsAreTheWindow(c, resource, w);
  }

  /** Why overlap is harmless: snowflakes being unique, two frozen rows with the
      same deduplication identity are the same row. */
  lemma IdentityDeterminesRow(c: Channel, resource: nat, w: Window, a: Row, b: Row)
    requires Honest(c, resource, w)
    requires forall x, y | Holds(c, resource, x) && Holds(c, resource, y) && x.id == y.id :: x == y
    requires a in AllInWindowRows(c, resource, w) && b in AllInWindowRows(c, resource, w) && SameIdentity(a, b)
    ensures a == b
  {
    hide MessageRows; hide Holds; hide SnowflakeForTimestamp; hide Honest; hide AllInWindowRows; hide LateReply; hide MentionedUsers;
    var m := RowIsHeld(c, resource, w, a);
    var n := RowIsHeld(c, resource, w, b);
    HeldIsWellFormed(c, resource, w, m);
    HeldIsWellFormed(c, resource, w, n);
    RowNamesItsMessage(m, resource, w, a);
    RowNamesItsMessage(n, resource, w, b);
    MessageRowsExact(m, resource, w, a);
    MessageRowsExact(m, resource, w, b);
    if !IsDirectRow(a, m, resource) {
      var u :| u in MentionedUsers(m.mentions) && a == MentionRow(m, resource, u);
      var v :| v in MentionedUsers(m.mentions) && b == MentionRow(m, resource, v);
      MentionIsUnique(m.mentions, u, v);
    }
  }

  lemma MentionIsUnique(mentions: seq<RawUser>, u: (string, bool), v: (string, bool))
    requires u in MentionedUsers(mentions) && v in MentionedUsers(mentions) && u.0 == v.0
    ensures u == v
  {
  }
}
