/** Mattermost posts: what makes one scoreable, the rows it contributes, and the
    bulk lookup that flags bots. */
module MattermostPosts {
  import opened Records
  import opened Wrappers

  /** A post as the wire carries it; `None` where a field is missing, empty or not a finite number. */
  datatype RawPost = RawPost(
    id: Option<nat>,
    userId: Option<string>,
    createdAt: Option<int>,
    rootId: Option<nat>,
    system: bool,
    deleted: bool,
    reactors: seq<Option<string>>)

  predicate Scoreable(p: RawPost) {
    !p.system && !p.deleted && p.id.Some? && p.userId.Some? && p.createdAt.Some? && p.createdAt.value > 0
  }

  /** How many reactions one account left. */
  function ReactionCount(reactors: seq<Option<string>>, account: string): nat {
    if reactors == [] then 0 else
      ReactionCount(reactors[..|reactors| - 1], account) + if reactors[|reactors| - 1] == Some(account) then 1 else 0
  }

  lemma CountedIffReacted(reactors: seq<Option<string>>, account: string)
    ensures ReactionCount(reactors, account) > 0 <==> Some(account) in reactors
  {
    if reactors != [] {
      assert reactors == reactors[..|reactors| - 1] + [reactors[|reactors| - 1]];
    }
  }

  method ToReactionCounts(reactors: seq<Option<string>>) returns (counts: map<string, nat>)
    ensures forall a :: a in counts <==> Some(a) in reactors
    ensures forall a | a in counts :: counts[a] == ReactionCount(reactors, a) > 0
  {
    counts := map[];
    for i := 0 to |reactors|
      invariant forall a :: a in counts <==> Some(a) in reactors[..i]
      invariant forall a | a in counts :: counts[a] == ReactionCount(reactors[..i], a)
    {
      assert reactors[..i + 1] == reactors[..i] + [reactors[i]];
      assert reactors[..i + 1][..i] == reactors[..i];
      if reactors[i].Some? {
        var a := reactors[i].value;
        CountedIffReacted(reactors[..i], a);
        counts := counts[a := (if a in counts then counts[a] else 0) + 1];
      }
    }
    assert reactors[..|reactors|] == reactors;
    forall a | a in counts ensures ReactionCount(reactors, a) > 0 {
      CountedIffReacted(reactors, a);
    }
  }

  // ---------- Rows ----------

  function OwnRow(p: RawPost, root: Option<RawPost>, resource: nat, isBot: string -> bool): Row
    requires Scoreable(p) && (root.Some? ==> Scoreable(root.value))
  {
    Row(if p.rootId.None? then Message else Reply, p.userId.value,
        if root.Some? then root.value.userId else None,
        resource, p.id.value, p.createdAt.value, 1, isBot(p.userId.value), false)
  }

  function ReactionRow(p: RawPost, account: string, count: nat, resource: nat, isBot: string -> bool): Row
    requires Scoreable(p)
  {
    Row(ReactionReceived, p.userId.value, Some(account), resource, p.id.value, p.createdAt.value, count,
        isBot(p.userId.value), false)
  }

  function ReplyReceivedRow(p: RawPost, root: RawPost, resource: nat, isBot: string -> bool): Row
    requires Scoreable(p) && Scoreable(root)
  {
    Row(ReplyReceived, root.userId.value, p.userId, resource, p.id.value, root.createdAt.value, 1,
        isBot(root.userId.value), false)
  }

  /** The thread root a post is credited against: only a scoreable one counts. */
  function ScoreableRoot(found: Option<RawPost>): (root: Option<RawPost>)
    ensures root.Some? ==> Scoreable(root.value)
  {
    if found.Some? && Scoreable(found.value) then found else None
  }

  /** Declaratively: `r` is one of the rows `p` contributes, `found` being its thread root if the page carries it. */
  ghost predicate IsRowOf(r: Row, p: RawPost, found: Option<RawPost>, resource: nat, w: Window, isBot: string -> bool) {
    var root := ScoreableRoot(found);
    && Scoreable(p) && InWindow(r.occurredAt, w)
    && (|| r == OwnRow(p, root, resource, isBot)
        || (exists a :: Some(a) in p.reactors
              && r == ReactionRow(p, a, ReactionCount(p.reactors, a), resource, isBot))
        || (root.Some? && r == ReplyReceivedRow(p, root.value, resource, isBot)))
  }

  ghost function PostRows(p: RawPost, found: Option<RawPost>, resource: nat, w: Window, isBot: string -> bool): (rows: set<Row>)
    ensures forall r :: r in rows <==> IsRowOf(r, p, found, resource, w, isBot)
  {
    if !Scoreable(p) then {} else
      var root := ScoreableRoot(found);
      var candidates := {OwnRow(p, root, resource, isBot)}
        + (set a | a in p.reactors && a.Some? :: ReactionRow(p, a.value, ReactionCount(p.reactors, a.value), resource, isBot))
        + (if root.Some? then {ReplyReceivedRow(p, root.value, resource, isBot)} else {});
      set r | r in candidates && IsRowOf(r, p, found, resource, w, isBot)
  }

  /** Neither a system message nor deleted, with an id, an author and a positive time. */
  predicate Counts(p: RawPost) {
    !p.system && !p.deleted && p.id.Some? && p.userId.Some? && p.createdAt.Some? && p.createdAt.value > 0
  }

  /** The rows of a post, naming no row: whom each credits, with whom, when and how much. */
  predicate IsCreditOf(r: Row, p: RawPost, found: Option<RawPost>, resource: nat, w: Window, isBot: string -> bool) {
    && Counts(p) && p.id == Some(r.objectId) && r.resource == resource && w.start <= r.occurredAt < w.end
    && r.actorIsBot == isBot(r.actor) && !r.deleted
    && match r.kind
       case Message =>
         p.rootId.None? && p.userId == Some(r.actor) && p.createdAt == Some(r.occurredAt) && r.count == 1
         && r.counterparty == (if found.Some? && Counts(found.value) then found.value.userId else None)
       case Reply =>
         p.rootId.Some? && p.userId == Some(r.actor) && p.createdAt == Some(r.occurredAt) && r.count == 1
         && r.counterparty == (if found.Some? && Counts(found.value) then found.value.userId else None)
       case ReactionReceived =>
         p.userId == Some(r.actor) && p.createdAt == Some(r.occurredAt)
         && r.counterparty.Some? && r.counterparty in p.reactors
         && r.count == ReactionCount(p.reactors, r.counterparty.value)
       case ReplyReceived =>
         found.Some? && Counts(found.value) && found.value.userId == Some(r.actor)
         && found.value.createdAt == Some(r.occurredAt) && r.counterparty == p.userId && r.count == 1
       case _ => false
  }

  /** The rows a post contributes are exactly those credits. */
  lemma RowsAreCredits(r: Row, p: RawPost, found: Option<RawPost>, resource: nat, w: Window, isBot: string -> bool)
    ensures IsRowOf(r, p, found, resource, w, isBot) <==> IsCreditOf(r, p, found, resource, w, isBot)
  {
    hide ReactionCount;
  }

  /** Counting one account's reactions adds up, one for each of its own. */
  lemma {:induction false} ReactionsAddUp(a: seq<Option<string>>, b: seq<Option<string>>, account: string)
    ensures ReactionCount(a + b, account) == ReactionCount(a, account) + ReactionCount(b, account)
    ensures ReactionCount([], account) == ReactionCount([None], account) == 0
    ensures forall other :: ReactionCount([Some(other)], account) == if other == account then 1 else 0
  {
    if b == [] {
      assert a + b == a;
    } else {
      var n := |b| - 1;
      ReactionsAddUp(a, b[..n], account);
      assert (a + b)[..|a| + n] == a + b[..n];
    }
  }

  method ToActivityRecords(
      p: RawPost, found: Option<RawPost>, resource: nat, w: Window, isBot: string -> bool)
    returns (records: seq<Row>)
    requires Scoreable(p)
    ensures (set r | r in records) == PostRows(p, found, resource, w, isBot)
    // the same on the fields of the post: who is credited, with whom, when and how much
    ensures forall r :: r in records <==> IsCreditOf(r, p, found, resource, w, isBot)
  {
    hide IsCreditOf;
    forall r ensures IsRowOf(r, p, found, resource, w, isBot) <==> IsCreditOf(r, p, found, resource, w, isBot) {
      RowsAreCredits(r, p, found, resource, w, isBot);
    }
    var root := ScoreableRoot(found);
    records := [];
    var own := OwnRow(p, root, resource, isBot);
    if InWindow(own.occurredAt, w) {
      records := [own];
    }
    var counts := ToReactionCounts(p.reactors);
    var reactions := ReactionRecords(p, counts, resource, w, isBot);
    records := records + reactions;
    if root.Some? {
      var received := ReplyReceivedRow(p, root.value, resource, isBot);
      if InWindow(received.occurredAt, w) {
        records := records + [received];
      }
    }
    forall r ensures r in records <==> r in PostRows(p, found, resource, w, isBot) {
    }
  }

  method ReactionRecords(p: RawPost, counts: map<string, nat>, resource: nat, w: Window, isBot: string -> bool)
    returns (records: seq<Row>)
    requires Scoreable(p)
    ensures forall r :: r in records <==>
      InWindow(r.occurredAt, w) && exists a :: a in counts && r == ReactionRow(p, a, counts[a], resource, isBot)
  {
    records := [];
    var left := counts.Keys;
    while left != {}
      invariant left <= counts.Keys
      invariant forall r :: r in records <==>
        InWindow(r.occurredAt, w) && exists a :: a in counts && a !in left && r == ReactionRow(p, a, counts[a], resource, isBot)
      decreases left
    {
      var a :| a in left;
      var row := ReactionRow(p, a, counts[a], resource, isBot);
      if InWindow(row.occurredAt, w) {
        records := records + [row];
      }
      left := left - {a};
    }
  }

  // ---------- Bots ----------

  const USER_LOOKUP_CHUNK := 100

  /** The `is_bot` flag of every account the run credits, asked for in bulk and kept. */
  class BotResolver {
    /** What the platform knows: the accounts a lookup answers for. */
    const accounts: map<string, bool>
    var botByAccountId: map<string, bool>
    /** Every account id asked for so far, in order. */
    var asked: seq<string>

    constructor (accounts: map<string, bool>)
      ensures Valid() && this.accounts == accounts && botByAccountId == map[] && asked == []
    {
      this.accounts := accounts;
      botByAccountId := map[];
      asked := [];
    }

    /** An account the platform does not answer for is taken for a human. */
    predicate IsBotAccount(account: string) {
      account in accounts && accounts[account]
    }

    ghost predicate Valid()
      reads this
    {
      && (forall a | a in botByAccountId :: botByAccountId[a] == IsBotAccount(a))
      && (forall a | a in botByAccountId && a in accounts :: a in asked)
    }

    predicate IsBot(account: string)
      reads this
    {
      account in botByAccountId && botByAccountId[account]
    }

    /** Looks up the accounts not known yet, a chunk at a time; `fault` says which
        lookups fail. Nothing already known is asked for again, and nothing twice. */
    method Prime(accountIds: seq<string>, fault: nat -> Fault, start: nat) returns (threw: bool, next: nat)
      requires Valid()
      modifies this
      ensures Valid() && start <= next
      ensures threw <==> start < next && !fault(next - 1).Answers?
      ensures forall i | start <= i < next - 1 :: fault(i).Answers?
      ensures forall a | a in old(botByAccountId) :: a in botByAccountId
      ensures !threw ==> forall a | a in accountIds :: a in botByAccountId && IsBot(a) == IsBotAccount(a)
      ensures exists more :: asked == old(asked) + more && Fresh(more, accountIds, old(botByAccountId))
    {
      hide Fresh;
      threw, next := false, start;
      ghost var known := botByAccountId;
      var unknown := Unknown(accountIds);
      FreshPrefix(unknown, accountIds, known, 0);
      var index := 0;
      while index < |unknown|
        invariant 0 <= index <= |unknown| && Valid()
        invariant start <= next && forall i | start <= i < next :: fault(i).Answers?
        invariant asked == old(asked) + unknown[..index]
        invariant forall a | a in known :: a in botByAccountId
        invariant forall a | a in unknown[..index] && a in accounts :: a in botByAccountId
      {
        var upTo := if index + USER_LOOKUP_CHUNK < |unknown| then index + USER_LOOKUP_CHUNK else |unknown|;
        assert unknown[..upTo] == unknown[..index] + unknown[index..upTo];
        FreshPrefix(unknown, accountIds, known, upTo);
        var answered := LookUp(unknown[index..upTo], fault(next));
        assert asked == old(asked) + unknown[..upTo];
        next := next + 1;
        if !answered {
          threw := true;
          return;
        }
        index := upTo;
      }
      assert unknown[..|unknown|] == unknown;
      FreshPrefix(unknown, accountIds, known, |unknown|);
      botByAccountId := botByAccountId + map a | a in unknown && a !in botByAccountId :: false;
    }

    /** One bulk lookup; a failed one leaves what is known as it was. */
    method LookUp(chunk: seq<string>, fault: Fault) returns (answered: bool)
      requires Valid() && |chunk| <= 100
      modifies this
      ensures Valid() && asked == old(asked) + chunk
      ensures answered <==> fault.Answers?
      ensures forall a | a in old(botByAccountId) :: a in botByAccountId
      ensures answered ==> forall a | a in chunk && a in accounts :: a in botByAccountId
    {
      asked := asked + chunk;
      answered := fault.Answers?;
      if answered {
        botByAccountId := botByAccountId + map a | a in chunk && a in accounts :: accounts[a];
      }
    }

    /** The distinct ids of the list that are not known yet, in order. */
    method Unknown(accountIds: seq<string>) returns (unknown: seq<string>)
      ensures forall a :: a in unknown <==> a in accountIds && a !in botByAccountId
      ensures Fresh(unknown, accountIds, botByAccountId)
    {
      unknown := [];
      for i := 0 to |accountIds|
        invariant forall a :: a in unknown <==> a in accountIds[..i] && a !in botByAccountId
        invariant forall x, y | 0 <= x < y < |unknown| :: unknown[x] != unknown[y]
      {
        assert accountIds[..i + 1] == accountIds[..i] + [accountIds[i]];
        if accountIds[i] !in botByAccountId && accountIds[i] !in unknown {
          unknown := unknown + [accountIds[i]];
        }
      }
      assert accountIds[..|accountIds|] == accountIds;
    }
  }

  /** Ids worth asking for: from the list, not known, each once. */
  ghost predicate Fresh(ids: seq<string>, wanted: seq<string>, known: map<string, bool>) {
    && (forall i | 0 <= i < |ids| :: ids[i] in wanted && ids[i] !in known)
    && (forall i, j | 0 <= i < j < |ids| :: ids[i] != ids[j])
  }

  lemma FreshPrefix(ids: seq<string>, wanted: seq<string>, known: map<string, bool>, k: nat)
    requires Fresh(ids, wanted, known) && k <= |ids|
    ensures Fresh(ids[..k], wanted, known)
  {
  }
}
