/** Discord messages: the snowflake boundary, the rows one message contributes,
    and the decision one history page takes. */
module DiscordMessages {
  import opened Records
  import opened Wrappers

  datatype RawUser = RawUser(id: Option<string>, bot: bool)

  datatype RawParent = RawParent(timestamp: Option<int>, author: Option<RawUser>)

  /** A message as the wire carries it: any field may be missing or malformed (`None`). */
  datatype RawMessage = RawMessage(
    id: Option<nat>,
    kind: int,
    timestamp: Option<int>,
    author: Option<RawUser>,
    mentions: seq<RawUser>,
    reactions: seq<Option<int>>,
    parent: Option<RawParent>)

  const DEFAULT_MESSAGE := 0
  const REPLY_MESSAGE := 19
  const DISCORD_EPOCH_MS := 1_420_070_400_000
  const SNOWFLAKE_STEP := 0x40_0000
  const MESSAGES_PAGE_LIMIT := 100

  // ---------- Snowflakes ----------

  function SnowflakeForTimestamp(ms: int): nat {
    (if ms < DISCORD_EPOCH_MS then 0 else ms - DISCORD_EPOCH_MS) * SNOWFLAKE_STEP
  }

  /** Discord's own rule: the creation time is in the bits above the lowest 22. */
  function CreatedAt(id: nat): int {
    DISCORD_EPOCH_MS + id / SNOWFLAKE_STEP
  }

  lemma SnowflakeBoundary(id: nat, ms: int)
    ensures id < SnowflakeForTimestamp(ms) <==> CreatedAt(id) < ms
  {
    var q := id / SNOWFLAKE_STEP;
    assert q * SNOWFLAKE_STEP <= id < (q + 1) * SNOWFLAKE_STEP;
    if DISCORD_EPOCH_MS <= ms {
      var d := ms - DISCORD_EPOCH_MS;
      if q < d {
        assert (q + 1) * SNOWFLAKE_STEP <= d * SNOWFLAKE_STEP;
      } else {
        assert d * SNOWFLAKE_STEP <= q * SNOWFLAKE_STEP;
      }
    }
  }

  // ---------- The rows of one message ----------

  ghost function Accounts(users: seq<(string, bool)>): set<string> {
    set u | u in users :: u.0
  }

  /** Mentioned accounts in order of first appearance, one entry per account. */
  ghost function MentionedUsers(mentions: seq<RawUser>): (r: seq<(string, bool)>)
    ensures forall i, j | 0 <= i < j < |r| :: r[i].0 != r[j].0
    ensures forall id :: id in Accounts(r) <==> id != "" && exists u :: u in mentions && u.id == Some(id)
  {
    if mentions == [] then [] else
      var last := mentions[|mentions| - 1];
      assert mentions == mentions[..|mentions| - 1] + [last];
      WithMention(MentionedUsers(mentions[..|mentions| - 1]), last)
  }

  ghost function WithMention(users: seq<(string, bool)>, u: RawUser): (r: seq<(string, bool)>)
    ensures Accounts(r) == Accounts(users) + if u.id.Some? && u.id.value != "" then {u.id.value} else {}
    ensures (forall i, j | 0 <= i < j < |users| :: users[i].0 != users[j].0)
            ==> forall i, j | 0 <= i < j < |r| :: r[i].0 != r[j].0
  {
    if u.id.None? || u.id.value == "" || u.id.value in Accounts(users) then users
    else
      var entry := (u.id.value, u.bot);
      assert forall x :: x in users + [entry] <==> x in users || x == entry;
      users + [entry]
  }

  function SumReactionCounts(reactions: seq<Option<int>>): nat {
    if reactions == [] then 0 else
      var last := reactions[|reactions| - 1];
      SumReactionCounts(reactions[..|reactions| - 1]) + if last.Some? && last.value > 0 then last.value else 0
  }

  predicate Scoreable(m: RawMessage) {
    m.id.Some? && m.author.Some? && m.author.value.id.Some? && m.timestamp.Some?
    && (m.kind == DEFAULT_MESSAGE || m.kind == REPLY_MESSAGE)
  }

  function ParentAuthor(m: RawMessage): Option<string> {
    if m.parent.Some? && m.parent.value.author.Some? then m.parent.value.author.value.id else None
  }

  /** Whether the message credits the author it replies to, and at what time. */
  predicate CreditsParent(m: RawMessage) {
    Scoreable(m) && m.kind == REPLY_MESSAGE && ParentAuthor(m).Some? && m.parent.value.timestamp.Some?
  }

  function OwnRow(m: RawMessage, resource: nat): Row
    requires Scoreable(m)
  {
    var reply := m.kind == REPLY_MESSAGE;
    Row(if reply then Reply else Message, m.author.value.id.value, if reply then ParentAuthor(m) else None,
        resource, m.id.value, m.timestamp.value, 1, m.author.value.bot, false)
  }

  function ReactionRow(m: RawMessage, resource: nat): Row
    requires Scoreable(m)
  {
    Row(ReactionReceived, m.author.value.id.value, None, resource, m.id.value, m.timestamp.value,
        SumReactionCounts(m.reactions), m.author.value.bot, false)
  }

  function ReplyReceivedRow(m: RawMessage, resource: nat): Row
    requires CreditsParent(m)
  {
    Row(ReplyReceived, ParentAuthor(m).value, m.author.value.id, resource, m.id.value,
        m.parent.value.timestamp.value, 1, m.parent.value.author.value.bot, false)
  }

  function MentionRow(m: RawMessage, resource: nat, mention: (string, bool)): Row
    requires Scoreable(m)
  {
    Row(MentionReceived, mention.0, m.author.value.id, resource, m.id.value, m.timestamp.value, 1, mention.1, false)
  }

  ghost predicate IsDirectRow(r: Row, m: RawMessage, resource: nat)
    requires Scoreable(m)
  {
    r == OwnRow(m, resource)
    || (r == ReactionRow(m, resource) && r.count > 0)
    || (CreditsParent(m) && r == ReplyReceivedRow(m, resource))
  }

  /** Declaratively: `r` is one of the rows `m` contributes to the window. */
  ghost predicate IsRowOf(r: Row, m: RawMessage, resource: nat, w: Window) {
    Scoreable(m) && InWindow(r.occurredAt, w)
    && (IsDirectRow(r, m, resource)
        || (exists u :: u in MentionedUsers(m.mentions) && r == MentionRow(m, resource, u)))
  }

  /** The flag of the first mention of an account, which decides whether it counts as a bot. */
  function FirstMention(mentions: seq<RawUser>, account: string): Option<bool> {
    if mentions == [] then None
    else if mentions[0].id == Some(account) then Some(mentions[0].bot)
    else FirstMention(mentions[1..], account)
  }

  /** What a row of each kind credits, on the fields of the message alone. */
  predicate Credits(r: Row, m: RawMessage)
    requires m.author.Some?
  {
    match r.kind
    case Message =>
      && m.kind == 0 && m.author.value.id == Some(r.actor) && r.counterparty.None?
      && m.timestamp == Some(r.occurredAt) && r.count == 1 && r.actorIsBot == m.author.value.bot
    case Reply =>
      && m.kind == 19 && m.author.value.id == Some(r.actor)
      && r.counterparty == (if m.parent.Some? && m.parent.value.author.Some? then m.parent.value.author.value.id else None)
      && m.timestamp == Some(r.occurredAt) && r.count == 1 && r.actorIsBot == m.author.value.bot
    case ReactionReceived =>
      && m.author.value.id == Some(r.actor) && r.counterparty.None?
      && m.timestamp == Some(r.occurredAt) && r.count == SumReactionCounts(m.reactions) > 0
      && r.actorIsBot == m.author.value.bot
    case ReplyReceived =>
      && m.kind == 19 && m.parent.Some? && m.parent.value.author.Some? && m.parent.value.author.value.id == Some(r.actor)
      && r.counterparty == m.author.value.id
      && m.parent.value.timestamp == Some(r.occurredAt) && r.count == 1 && r.actorIsBot == m.parent.value.author.value.bot
    case MentionReceived =>
      && r.actor != "" && FirstMention(m.mentions, r.actor) == Some(r.actorIsBot)
      && r.counterparty == m.author.value.id && m.timestamp == Some(r.occurredAt) && r.count == 1
    case _ => false
  }

  /** The rows of a message, naming no row: whom each credits, with whom, when and how much. */
  predicate IsCreditOf(r: Row, m: RawMessage, resource: nat, w: Window) {
    && m.id == Some(r.objectId) && m.author.Some? && m.author.value.id.Some? && m.timestamp.Some? && m.kind in {0, 19}
    && w.start <= r.occurredAt < w.end && r.resource == resource && !r.deleted
    && Credits(r, m)
  }

  lemma {:induction false} FirstMentionOneMore(mentions: seq<RawUser>, last: RawUser, account: string)
    ensures FirstMention(mentions + [last], account) ==
      if FirstMention(mentions, account).Some? then FirstMention(mentions, account)
      else if last.id == Some(account) then Some(last.bot) else None
  {
    if mentions == [] {
      assert mentions + [last] == [last] && [last][1..] == [];
    } else {
      FirstMentionOneMore(mentions[1..], last, account);
      assert (mentions + [last])[1..] == mentions[1..] + [last];
    }
  }

  lemma WithMentionHas(users: seq<(string, bool)>, u: RawUser, account: string, bot: bool)
    ensures (account, bot) in WithMention(users, u) <==>
      || (account, bot) in users
      || (account != "" && u.id == Some(account) && u.bot == bot && account !in Accounts(users))
  {
  }

  lemma {:induction false} FirstMentionDecides(mentions: seq<RawUser>, account: string)
    ensures forall bot :: (account, bot) in MentionedUsers(mentions) <==>
      account != "" && FirstMention(mentions, account) == Some(bot)
  {
    if mentions != [] {
      var n := |mentions| - 1;
      var before, last := mentions[..n], mentions[n];
      assert mentions == before + [last];
      FirstMentionDecides(before, account);
      FirstMentionOneMore(before, last, account);
      var users := MentionedUsers(before);
      assert MentionedUsers(mentions) == WithMention(users, last);
      InAccounts(users, account);
      assert account in Accounts(users) ==> account != "" && FirstMention(before, account).Some?;
      forall bot ensures (account, bot) in users <==> account != "" && FirstMention(before, account) == Some(bot) {
      }
      hide MentionedUsers; hide WithMention; hide FirstMention;
      forall bot ensures (account, bot) in MentionedUsers(mentions) <==>
          account != "" && FirstMention(mentions, account) == Some(bot)
      {
        WithMentionHas(users, last, account, bot);
      }
    }
  }

  lemma InAccounts(users: seq<(string, bool)>, account: string)
    ensures account in Accounts(users) <==> exists bot :: (account, bot) in users
  {
    if account in Accounts(users) {
      var u :| u in users && u.0 == account;
      var bot := u.1;
      assert u == (account, bot) && (account, bot) in users;
    }
    if bot :| (account, bot) in users {
      assert (account, bot).0 in Accounts(users);
    }
  }

  /** The rows a message contributes are exactly those credits. */
  lemma RowsAreCredits(r: Row, m: RawMessage, resource: nat, w: Window)
    ensures IsRowOf(r, m, resource, w) <==> IsCreditOf(r, m, resource, w)
  {
    hide MentionedUsers; hide SumReactionCounts; hide FirstMention;
    FirstMentionDecides(m.mentions, r.actor);
    if IsRowOf(r, m, resource, w) && r.kind.MentionReceived? {
      var u :| u in MentionedUsers(m.mentions) && r == MentionRow(m, resource, u);
      assert u == (r.actor, r.actorIsBot);
    }
    if IsCreditOf(r, m, resource, w) && r.kind.MentionReceived? {
      assert r == MentionRow(m, resource, (r.actor, r.actorIsBot));
    }
  }

  /** Counting adds up, one for one, and passes over what is missing or not positive. */
  lemma {:induction false} ReactionsAddUp(a: seq<Option<int>>, b: seq<Option<int>>)
    ensures SumReactionCounts(a + b) == SumReactionCounts(a) + SumReactionCounts(b)
    ensures SumReactionCounts([]) == 0
    ensures forall n: int :: SumReactionCounts([Some(n)]) == if n > 0 then n else 0
    ensures SumReactionCounts([None]) == 0
  {
    if b == [] {
      assert a + b == a;
    } else {
      var n := |b| - 1;
      ReactionsAddUp(a, b[..n]);
      assert (a + b)[..|a| + n] == a + b[..n];
    }
  }

  method CountReactions(reactions: seq<Option<int>>) returns (total: nat)
    ensures total == SumReactionCounts(reactions)
  {
    total := 0;
    for i := 0 to |reactions|
      invariant total == SumReactionCounts(reactions[..i])
    {
      assert reactions[..i + 1][..i] == reactions[..i];
      if reactions[i].Some? && reactions[i].value > 0 {
        total := total + reactions[i].value;
      }
    }
    assert reactions[..|reactions|] == reactions;
  }

  method CollectMentions(mentions: seq<RawUser>) returns (users: seq<(string, bool)>)
    ensures users == MentionedUsers(mentions)
  {
    users := [];
    var seen: set<string> := {};
    for i := 0 to |mentions|
      invariant users == MentionedUsers(mentions[..i])
      invariant seen == Accounts(users)
    {
      var u := mentions[i];
      assert mentions[..i + 1][..i] == mentions[..i];
      if u.id.Some? && u.id.value != "" && u.id.value !in seen {
        users := users + [(u.id.value, u.bot)];
        seen := seen + {u.id.value};
      }
    }
    assert mentions[..|mentions|] == mentions;
  }

  ghost predicate Distinct(records: seq<Row>) {
    forall i, j | 0 <= i < j < |records| :: !SameIdentity(records[i], records[j])
  }

  /** One raw message to its rows, each kept only if its own defining time is inside the window. */
  method ToActivityRecords(m: RawMessage, resource: nat, w: Window) returns (records: seq<Row>)
    ensures forall r :: r in records <==> IsRowOf(r, m, resource, w)
    ensures (set r | r in records) == MessageRows(m, resource, w)
    // the same on the fields of the message: who is credited, with whom, when and how much
    ensures forall r :: r in records <==> IsCreditOf(r, m, resource, w)
    ensures Distinct(records)
  {
    hide MentionedUsers; hide IsCreditOf;
    forall r ensures IsRowOf(r, m, resource, w) <==> IsCreditOf(r, m, resource, w) {
      RowsAreCredits(r, m, resource, w);
    }
    records := [];
    if !Scoreable(m) {
      return;
    }
    var direct := DirectRecords(m, resource, w);
    var users := CollectMentions(m.mentions);
    var mentions := MentionRecords(m, resource, w, users);
    assert forall i | 0 <= i < |mentions| :: mentions[i] in mentions;
    records := direct + mentions;
    forall r ensures r in MessageRows(m, resource, w) <==> r in records {
      MessageRowsExact(m, resource, w, r);
    }
  }

  lemma RowKinds(m: RawMessage, resource: nat)
    requires Scoreable(m)
    ensures OwnRow(m, resource).kind in {Message, Reply}
    ensures ReactionRow(m, resource).kind == ReactionReceived
    ensures ReactionRow(m, resource).count == SumReactionCounts(m.reactions)
    ensures CreditsParent(m) ==> ReplyReceivedRow(m, resource).kind == ReplyReceived
  {
  }

  method DirectRecords(m: RawMessage, resource: nat, w: Window) returns (records: seq<Row>)
    requires Scoreable(m)
    ensures forall r :: r in records <==> InWindow(r.occurredAt, w) && IsDirectRow(r, m, resource)
    ensures Distinct(records)
    ensures forall i | 0 <= i < |records| :: records[i].kind != MentionReceived
  {
    hide OwnRow; hide ReactionRow; hide ReplyReceivedRow; hide SumReactionCounts; hide CreditsParent;
    RowKinds(m, resource);
    records := [];
    var own := OwnRow(m, resource);
    if InWindow(own.occurredAt, w) {
      records := [own];
    }
    var reactions := CountReactions(m.reactions);
    var reaction := ReactionRow(m, resource);
    if reactions > 0 && InWindow(reaction.occurredAt, w) {
      records := records + [reaction];
    }
    if CreditsParent(m) {
      var received := ReplyReceivedRow(m, resource);
      if InWindow(received.occurredAt, w) {
        records := records + [received];
      }
    }
  }

  method MentionRecords(m: RawMessage, resource: nat, w: Window, users: seq<(string, bool)>)
    returns (records: seq<Row>)
    requires Scoreable(m)
    requires forall i, j | 0 <= i < j < |users| :: users[i].0 != users[j].0
    ensures forall r :: r in records <==> InWindow(r.occurredAt, w) && exists u :: u in users && r == MentionRow(m, resource, u)
    ensures Distinct(records)
  {
    records := [];
    for i := 0 to |users|
      invariant forall r :: r in records <==> InWindow(r.occurredAt, w) && exists u :: u in users[..i] && r == MentionRow(m, resource, u)
      invariant Distinct(records)
    {
      assert users[..i + 1] == users[..i] + [users[i]];
      var r := MentionRow(m, resource, users[i]);
      assert forall u | u in users[..i] :: u.0 != users[i].0;
      if InWindow(r.occurredAt, w) {
        assert forall x | 0 <= x < |records| :: records[x] in records;
        records := records + [r];
      }
    }
    assert users[..|users|] == users;
  }

  /** The set of rows a message contributes; finite because each is one of four shapes. */
  ghost function MessageRows(m: RawMessage, resource: nat, w: Window): (rows: set<Row>) {
    set r | r in Candidates(m, resource) && IsRowOf(r, m, resource, w)
  }

  ghost function Candidates(m: RawMessage, resource: nat): set<Row> {
    if !Scoreable(m) then {} else
      {OwnRow(m, resource), ReactionRow(m, resource)}
      + (if CreditsParent(m) then {ReplyReceivedRow(m, resource)} else {})
      + (set u | u in MentionedUsers(m.mentions) :: MentionRow(m, resource, u))
  }

  lemma MessageRowsExact(m: RawMessage, resource: nat, w: Window, r: Row)
    ensures r in MessageRows(m, resource, w) <==> IsRowOf(r, m, resource, w)
  {
  }

  ghost function RowsOfMessages(messages: seq<RawMessage>, resource: nat, w: Window): set<Row> {
    set m, r | m in messages && r in MessageRows(m, resource, w) :: r
  }

  lemma RowsOfOneMore(messages: seq<RawMessage>, m: RawMessage, resource: nat, w: Window)
    ensures RowsOfMessages(messages + [m], resource, w)
      == RowsOfMessages(messages, resource, w) + MessageRows(m, resource, w)
  {
    assert forall x :: x in messages + [m] <==> x in messages || x == m;
  }

  // ---------- One page ----------

  /** A message as Discord's documentation shapes it: an id that carries the
      creation time, and a parent no newer than the message replying to it. */
  predicate WellFormed(m: RawMessage) {
    m.id.Some? && m.timestamp == Some(CreatedAt(m.id.value))
    && (m.parent.Some? && m.parent.value.timestamp.Some? ==> m.parent.value.timestamp.value <= m.timestamp.value)
  }

  lemma OldMessageHasNoRows(m: RawMessage, resource: nat, w: Window)
    requires WellFormed(m) && m.timestamp.value < w.start
    ensures MessageRows(m, resource, w) == {}
  {
    forall r ensures r !in MessageRows(m, resource, w) {
      MessageRowsExact(m, resource, w, r);
    }
  }

  ghost predicate History(h: seq<RawMessage>) {
    (forall i | 0 <= i < |h| :: WellFormed(h[i]))
    && (forall i, j | 0 <= i < j < |h| :: h[i].id.value > h[j].id.value)
  }

  /** The rows of every message of `h` created before the boundary id. */
  ghost function RowsBelow(h: seq<RawMessage>, before: nat, resource: nat, w: Window): set<Row> {
    set m, r | m in h && m.id.Some? && m.id.value < before && r in MessageRows(m, resource, w) :: r
  }

  /** What the history endpoint answers: the newest messages below `before`, newest first. */
  function MessagePage(h: seq<RawMessage>, before: nat): (page: seq<RawMessage>)
    requires History(h)
    ensures |page| <= MESSAGES_PAGE_LIMIT
    ensures History(page)
    ensures forall m | m in page :: m in h && m.id.value < before
    ensures forall m | m in h && m.id.value < before && m !in page ::
      |page| == MESSAGES_PAGE_LIMIT && m.id.value < page[|page| - 1].id.value
  {
    var below := Older(h, before);
    if |below| < MESSAGES_PAGE_LIMIT then below else
      assert forall m | m in below && m !in below[..MESSAGES_PAGE_LIMIT] :: exists i :: MESSAGES_PAGE_LIMIT <= i < |below| && below[i] == m;
      below[..MESSAGES_PAGE_LIMIT]
  }

  function Older(h: seq<RawMessage>, before: nat): (s: seq<RawMessage>)
    requires History(h)
    ensures History(s)
    ensures forall m :: m in s <==> m in h && m.id.value < before
  {
    if h == [] || h[0].id.value < before then
      assert forall m | m in h :: exists i :: 0 <= i < |h| && h[i] == m;
      h
    else
      assert h == [h[0]] + h[1..];
      Older(h[1..], before)
  }

  datatype PageOutcome = PageOutcome(records: seq<Row>, nextBefore: Option<nat>, done: bool)

  predicate PredatesWindow(m: RawMessage, w: Window) {
    m.timestamp.Some? && m.timestamp.value < w.start
  }

  /** The index of the first message that predates the window, or the page length. */
  ghost function Cut(page: seq<RawMessage>, w: Window): (n: nat)
    ensures n <= |page|
    ensures forall i | 0 <= i < n :: !PredatesWindow(page[i], w)
    ensures n < |page| ==> PredatesWindow(page[n], w)
  {
    if page == [] || PredatesWindow(page[0], w) then 0 else 1 + Cut(page[1..], w)
  }

  /** The last id among the messages read, skipping those that carry none. */
  ghost function LastId(messages: seq<RawMessage>): Option<nat> {
    if messages == [] then None
    else if messages[|messages| - 1].id.Some? then messages[|messages| - 1].id
    else LastId(messages[..|messages| - 1])
  }

  /** What one page decides: its rows are those of the messages up to the first
      one older than the window, and the walk stops there, on a short page, or
      when no id was read to continue from. */
  ghost predicate Decides(page: seq<RawMessage>, resource: nat, w: Window, out: PageOutcome) {
    var cut := Cut(page, w);
    && RecordSet(out) == RowsOfMessages(page[..cut], resource, w)
    && out.nextBefore == LastId(page[..if cut < |page| then cut + 1 else cut])
    && (out.done <==> cut < |page| || |page| < MESSAGES_PAGE_LIMIT || out.nextBefore.None?)
  }

  method ProcessMessagePage(page: seq<RawMessage>, resource: nat, w: Window) returns (out: PageOutcome)
    ensures Decides(page, resource, w, out)
    ensures out.done <==>
      (exists m :: m in page && m.timestamp.Some? && m.timestamp.value < w.start) || |page| < MESSAGES_PAGE_LIMIT || out.nextBefore.None?
  {
    hide MessageRows; hide IsRowOf; hide Distinct;
    var records := [];
    var reachedWindowStart := false;
    var lastId: Option<nat> := None;
    ghost var cut := Cut(page, w);
    var i := 0;
    while i < |page|
      invariant 0 <= i <= cut
      invariant !reachedWindowStart
      invariant (set r | r in records) == RowsOfMessages(page[..i], resource, w)
      invariant lastId == LastId(page[..i])
    {
      var m := page[i];
      assert page[..i + 1] == page[..i] + [m];
      if m.id.Some? {
        lastId := m.id;
      }
      if PredatesWindow(m, w) {
        reachedWindowStart := true;
        break;
      }
      var rows := ToActivityRecords(m, resource, w);
      assert (set r | r in records + rows) == (set r | r in records) + MessageRows(m, resource, w);
      RowsOfOneMore(page[..i], m, resource, w);
      records := records + rows;
      i := i + 1;
    }
    out := PageOutcome(records, lastId, reachedWindowStart || |page| < MESSAGES_PAGE_LIMIT || lastId.None?);
  }

  /** Reads one page and turns it into rows: the two steps every message walk repeats. */
  method ReadPage(h: seq<RawMessage>, before: nat, resource: nat, w: Window) returns (out: PageOutcome)
    requires History(h)
    ensures out.done ==> RowsBelow(h, before, resource, w) == RecordSet(out)
    ensures !out.done ==>
      && out.nextBefore.Some? && out.nextBefore.value < before
      && RowsBelow(h, before, resource, w) == RecordSet(out) + RowsBelow(h, out.nextBefore.value, resource, w)
  {
    out := ProcessMessagePage(MessagePage(h, before), resource, w);
    PageLosesNothing(h, before, resource, w, out);
  }

  ghost function RecordSet(out: PageOutcome): set<Row> {
    set r | r in out.records
  }

  /** On a well-formed history nothing in the window is skipped, and the walk
      stops only when no message below the page has a row in the window. */
  lemma PageLosesNothing(h: seq<RawMessage>, before: nat, resource: nat, w: Window, out: PageOutcome)
    requires History(h) && Decides(MessagePage(h, before), resource, w, out)
    ensures out.done ==> RowsBelow(h, before, resource, w) == RecordSet(out)
    ensures !out.done ==>
      && out.nextBefore.Some? && out.nextBefore.value < before
      && RowsBelow(h, before, resource, w) == RecordSet(out) + RowsBelow(h, out.nextBefore.value, resource, w)
  {
    PageRowsAreOwed(h, before, resource, w, out);
    if !out.done {
      ContinuesBelow(h, before, resource, w, out);
      BelowIsNoMore(h, out.nextBefore.value, before, resource, w);
    }
    hide Decides; hide MessagePage; hide RowsBelow; hide RecordSet; hide History;
    forall r | r in RowsBelow(h, before, resource, w)
      ensures r in RecordSet(out) || (!out.done && r in RowsBelow(h, out.nextBefore.value, resource, w))
    {
      OwedRowIsReadOrLater(h, before, resource, w, out, r);
    }
  }

  /** A page the walk goes on from is full of messages of the window, or above
      it, and the walk goes on from its last. */
  lemma ContinuesBelow(h: seq<RawMessage>, before: nat, resource: nat, w: Window, out: PageOutcome)
    requires History(h) && Decides(MessagePage(h, before), resource, w, out) && !out.done
    ensures out.nextBefore.Some? && out.nextBefore.value < before
  {
    hide MessageRows; hide RowsOfMessages; hide RecordSet;
    var page := MessagePage(h, before);
    assert page[..|page|] == page;
    assert page[|page| - 1] in page;
  }

  lemma BelowIsNoMore(h: seq<RawMessage>, lower: nat, before: nat, resource: nat, w: Window)
    requires lower <= before
    ensures RowsBelow(h, lower, resource, w) <= RowsBelow(h, before, resource, w)
  {
    hide MessageRows;
  }

  lemma PageRowsAreOwed(h: seq<RawMessage>, before: nat, resource: nat, w: Window, out: PageOutcome)
    requires History(h) && Decides(MessagePage(h, before), resource, w, out)
    ensures RecordSet(out) <= RowsBelow(h, before, resource, w)
  {
    hide MessageRows;
    var page := MessagePage(h, before);
    forall r | r in RecordSet(out) ensures r in RowsBelow(h, before, resource, w) {
      var m :| m in page[..Cut(page, w)] && r in MessageRows(m, resource, w);
      assert m in page;
    }
  }

  lemma OwedRowIsReadOrLater(h: seq<RawMessage>, before: nat, resource: nat, w: Window, out: PageOutcome, r: Row)
    requires History(h) && Decides(MessagePage(h, before), resource, w, out)
    requires r in RowsBelow(h, before, resource, w)
    ensures r in RecordSet(out)
      || (!out.done && out.nextBefore.Some? && r in RowsBelow(h, out.nextBefore.value, resource, w))
  {
    hide MessageRows; hide MessagePage;
    var page := MessagePage(h, before);
    var cut := Cut(page, w);
    var m :| m in h && m.id.Some? && m.id.value < before && r in MessageRows(m, resource, w);
    MessageIsReadOrOlder(h, before, resource, w, m);
    if PredatesWindow(m, w) {
      OldMessageHasNoRows(m, resource, w);
    } else if m !in page[..cut] {
      assert page[..cut] == page;
    }
  }

  /** Every message below the boundary is read before the cut, predates the
      window, or is older than a full page none of whose messages does. */
  lemma MessageIsReadOrOlder(h: seq<RawMessage>, before: nat, resource: nat, w: Window, m: RawMessage)
    requires History(h) && m in h && m.id.Some? && m.id.value < before
    ensures var page := MessagePage(h, before);
      || m in page[..Cut(page, w)]
      || PredatesWindow(m, w)
      || (Cut(page, w) == |page| == MESSAGES_PAGE_LIMIT && m.id.value < page[|page| - 1].id.value)
  {
    hide MessagePage; hide History; hide CreatedAt;
    var page := MessagePage(h, before);
    var cut := Cut(page, w);
    if cut == |page| {
      assert page[..cut] == page;
    } else if m !in page[..cut] {
      NotBeforeTheCut(page, cut, m);
      LastIsOldest(page, cut);
      assert m.id.value <= page[cut].id.value;
      OlderPredatesWindow(h, page[cut], m, w);
    }
  }

  /** A message of the page that is not before the cut is no newer than the one at it. */
  lemma NotBeforeTheCut(page: seq<RawMessage>, cut: nat, m: RawMessage)
    requires History(page) && cut < |page| && m !in page[..cut] && m.id.Some?
    ensures page[cut].id.Some? && (m in page ==> m.id.value <= page[cut].id.value)
  {
    if m in page {
      assert page == page[..cut] + page[cut..];
      var j :| 0 <= j < |page[cut..]| && page[cut..][j] == m;
      assert page[cut + j] == m;
    }
  }

  lemma LastIsOldest(page: seq<RawMessage>, k: nat)
    requires History(page) && k < |page|
    ensures page[|page| - 1].id.Some? && page[k].id.Some? && page[|page| - 1].id.value <= page[k].id.value
  {
  }

  lemma OlderPredatesWindow(h: seq<RawMessage>, newer: RawMessage, older: RawMessage, w: Window)
    requires History(h) && newer in h && older in h && older.id.Some? && newer.id.Some?
    requires older.id.value <= newer.id.value && PredatesWindow(newer, w)
    ensures PredatesWindow(older, w)
  {
    hide CreatedAt;
    IdOrderIsTimeOrder(newer.id.value, older.id.value);
  }

  lemma IdOrderIsTimeOrder(newer: nat, older: nat)
    requires older <= newer
    ensures CreatedAt(older) <= CreatedAt(newer)
  {
    var a, b := newer / SNOWFLAKE_STEP, older / SNOWFLAKE_STEP;
    assert older == b * SNOWFLAKE_STEP + older % SNOWFLAKE_STEP;
    assert newer == a * SNOWFLAKE_STEP + newer % SNOWFLAKE_STEP;
    assert b <= a;
  }
}
