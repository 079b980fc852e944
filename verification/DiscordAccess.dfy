/** Discord's effective-permission algorithm for one channel. */
module DiscordAccess {
  import opened Wrappers

  // ---------- Permission masks ----------

  /** A permission mask, as the integer the platform sends. */
  type Mask = nat

  predicate Bit(mask: Mask, k: nat) {
    if k == 0 then mask % 2 == 1 else Bit(mask / 2, k - 1)
  }

  function Or(a: Mask, b: Mask): Mask {
    if a == 0 then b
    else 2 * Or(a / 2, b / 2) + if a % 2 == 1 || b % 2 == 1 then 1 else 0
  }

  /** `a & ~b`. */
  function AndNot(a: Mask, b: Mask): Mask {
    if a == 0 then 0
    else 2 * AndNot(a / 2, b / 2) + if a % 2 == 1 && b % 2 == 0 then 1 else 0
  }

  lemma {:induction false} BitOfZero(k: nat)
    ensures !Bit(0, k)
  {
    if k > 0 {
      BitOfZero(k - 1);
    }
  }

  lemma {:induction false} BitOfOr(a: Mask, b: Mask, k: nat)
    ensures Bit(Or(a, b), k) <==> Bit(a, k) || Bit(b, k)
    decreases k
  {
    if a == 0 {
      BitOfZero(k);
    } else if k > 0 {
      BitOfOr(a / 2, b / 2, k - 1);
    }
  }

  lemma {:induction false} BitOfAndNot(a: Mask, b: Mask, k: nat)
    ensures Bit(AndNot(a, b), k) <==> Bit(a, k) && !Bit(b, k)
    decreases k
  {
    if a == 0 {
      BitOfZero(k);
    } else if k > 0 {
      BitOfAndNot(a / 2, b / 2, k - 1);
    }
  }

  const ADMINISTRATOR: nat := 3
  const VIEW_CHANNEL: nat := 10
  const READ_MESSAGE_HISTORY: nat := 16

  // ---------- Raw input ----------

  datatype OverwriteKind = RoleOverwrite | MemberOverwrite | OtherOverwrite

  datatype Overwrite = Overwrite(id: nat, kind: OverwriteKind, allow: Mask, deny: Mask)

  /** The overwrites of a channel object: absent, not a list, or a list whose
      malformed entries are `None`. */
  datatype RawOverwrites = NoOverwrites | NotAList | Entries(entries: seq<Option<Overwrite>>)

  datatype Context = Context(guildId: nat, botUserId: nat, botRoleIds: seq<nat>, permissionsByRoleId: map<nat, Mask>)

  datatype Access = Readable | MissingViewChannel | MissingReadHistory | Malformed

  method ParseOverwrites(raw: RawOverwrites) returns (overwrites: Option<seq<Overwrite>>)
    ensures overwrites == Parsed(raw)
  {
    match raw
    case NoOverwrites => overwrites := Some([]);
    case NotAList => overwrites := None;
    case Entries(entries) =>
      var parsed: seq<Overwrite> := [];
      for i := 0 to |entries|
        invariant |parsed| == i && forall k | 0 <= k < i :: entries[k] == Some(parsed[k])
      {
        if entries[i].None? {
          assert None in entries;
          return None;
        }
        parsed := parsed + [entries[i].value];
      }
      overwrites := Some(parsed);
      assert parsed == Parsed(raw).value;
  }

  function Parsed(raw: RawOverwrites): Option<seq<Overwrite>> {
    match raw
    case NoOverwrites => Some([])
    case NotAList => None
    case Entries(entries) =>
      if None in entries then None
      else Some(seq(|entries|, i requires 0 <= i < |entries| => assert entries[i] in entries; entries[i].value))
  }

  // ---------- The per-bit rule ----------

  function RoleMask(ctx: Context, roleId: nat): Mask {
    if roleId in ctx.permissionsByRoleId then ctx.permissionsByRoleId[roleId] else 0
  }

  /** A bit the guild grants before any channel overwrite. */
  predicate InBase(ctx: Context, bit: nat) {
    exists r :: (r == ctx.guildId || r in ctx.botRoleIds) && r in ctx.permissionsByRoleId && Bit(ctx.permissionsByRoleId[r], bit)
  }

  predicate Targets(o: Overwrite, kind: OverwriteKind, id: nat) {
    o.kind == kind && o.id == id
  }

  /** The first overwrite of a kind for an id. */
  function Found(overwrites: seq<Overwrite>, kind: OverwriteKind, id: nat): Option<Overwrite> {
    if overwrites == [] then None
    else if Targets(overwrites[0], kind, id) then Some(overwrites[0])
    else Found(overwrites[1..], kind, id)
  }

  predicate Allows(found: Option<Overwrite>, bit: nat) {
    found.Some? && Bit(found.value.allow, bit)
  }

  predicate Denies(found: Option<Overwrite>, bit: nat) {
    found.Some? && Bit(found.value.deny, bit)
  }

  predicate IsBotRole(ctx: Context, o: Overwrite) {
    o.kind.RoleOverwrite? && o.id in ctx.botRoleIds
  }

  predicate RolesAllow(ctx: Context, overwrites: seq<Overwrite>, bit: nat) {
    exists o :: o in overwrites && o.kind.RoleOverwrite? && o.id in ctx.botRoleIds && Bit(o.allow, bit)
  }

  predicate RolesDeny(ctx: Context, overwrites: seq<Overwrite>, bit: nat) {
    exists o :: o in overwrites && o.kind.RoleOverwrite? && o.id in ctx.botRoleIds && Bit(o.deny, bit)
  }

  /** The most specific level that mentions a bit decides it, allow beating deny
      inside a level: the member's overwrite over those of the bot's roles over
      that of @everyone over the base. */
  predicate GrantedBy(
    ctx: Context, overwrites: seq<Overwrite>, everyone: Option<Overwrite>, member: Option<Overwrite>, bit: nat)
  {
    if Allows(member, bit) then true
    else if Denies(member, bit) then false
    else if RolesAllow(ctx, overwrites, bit) then true
    else if RolesDeny(ctx, overwrites, bit) then false
    else if Allows(everyone, bit) then true
    else if Denies(everyone, bit) then false
    else InBase(ctx, bit)
  }

  function EveryoneOf(ctx: Context, overwrites: seq<Overwrite>): Option<Overwrite> {
    Found(overwrites, RoleOverwrite, ctx.guildId)
  }

  function MemberOf(ctx: Context, overwrites: seq<Overwrite>): Option<Overwrite> {
    Found(overwrites, MemberOverwrite, ctx.botUserId)
  }

  predicate Granted(ctx: Context, overwrites: seq<Overwrite>, bit: nat) {
    GrantedBy(ctx, overwrites, EveryoneOf(ctx, overwrites), MemberOf(ctx, overwrites), bit)
  }

  /** The verdict if these were the overwrites of @everyone and of the bot member:
      bit 3 is Administrator, bit 10 View Channel, bit 16 Read Message History. */
  function VerdictBy(
    ctx: Context, overwrites: seq<Overwrite>, everyone: Option<Overwrite>, member: Option<Overwrite>): Access
  {
    if InBase(ctx, 3) then Readable
    else if !GrantedBy(ctx, overwrites, everyone, member, 10) then MissingViewChannel
    else if !GrantedBy(ctx, overwrites, everyone, member, 16) then MissingReadHistory
    else Readable
  }

  function VerdictOf(ctx: Context, overwrites: seq<Overwrite>): Access {
    VerdictBy(ctx, overwrites, EveryoneOf(ctx, overwrites), MemberOf(ctx, overwrites))
  }

  function Verdict(ctx: Context, raw: RawOverwrites): Access {
    var parsed := Parsed(raw);
    if InBase(ctx, 3) then Readable
    else if parsed.None? then Malformed
    else VerdictOf(ctx, parsed.value)
  }

  // ---------- The algorithm ----------

  method BasePermissions(ctx: Context) returns (permissions: Mask)
    ensures forall b :: Bit(permissions, b) <==> InBase(ctx, b)
  {
    hide Bit; hide Or;
    permissions := RoleMask(ctx, ctx.guildId);
    forall b ensures !Bit(0, b) {
      BitOfZero(b);
    }
    for i := 0 to |ctx.botRoleIds|
      invariant forall b :: Bit(permissions, b) <==>
        Bit(RoleMask(ctx, ctx.guildId), b) || exists k :: 0 <= k < i && Bit(RoleMask(ctx, ctx.botRoleIds[k]), b)
    {
      var more := RoleMask(ctx, ctx.botRoleIds[i]);
      forall b ensures Bit(Or(permissions, more), b) <==> Bit(permissions, b) || Bit(more, b) {
        BitOfOr(permissions, more, b);
      }
      permissions := Or(permissions, more);
    }
    forall b ensures Bit(permissions, b) <==> InBase(ctx, b) {
      if r :| r in ctx.botRoleIds && Bit(RoleMask(ctx, r), b) {
        var k :| 0 <= k < |ctx.botRoleIds| && ctx.botRoleIds[k] == r;
        assert Bit(RoleMask(ctx, ctx.botRoleIds[k]), b);
      }
    }
  }

  method Find(overwrites: seq<Overwrite>, kind: OverwriteKind, id: nat) returns (found: Option<Overwrite>)
    ensures found == Found(overwrites, kind, id)
  {
    for i := 0 to |overwrites|
      invariant Found(overwrites, kind, id) == Found(overwrites[i..], kind, id)
    {
      if overwrites[i].kind == kind && overwrites[i].id == id {
        return Some(overwrites[i]);
      }
      assert overwrites[i..][1..] == overwrites[i + 1..];
    }
    found := None;
  }

  /** The union of what the bot's role overwrites allow, and of what they deny. */
  method RoleOverwrites(ctx: Context, overwrites: seq<Overwrite>) returns (allow: Mask, deny: Mask)
    ensures forall b :: Bit(allow, b) <==> RolesAllow(ctx, overwrites, b)
    ensures forall b :: Bit(deny, b) <==> RolesDeny(ctx, overwrites, b)
  {
    hide Bit; hide Or;
    allow, deny := 0, 0;
    forall b ensures !Bit(0, b) {
      BitOfZero(b);
    }
    for i := 0 to |overwrites|
      invariant forall b :: Bit(allow, b) <==> RolesAllow(ctx, overwrites[..i], b)
      invariant forall b :: Bit(deny, b) <==> RolesDeny(ctx, overwrites[..i], b)
    {
      var o := overwrites[i];
      assert overwrites[..i + 1] == overwrites[..i] + [o];
      if IsBotRole(ctx, o) {
        forall b ensures Bit(Or(allow, o.allow), b) <==> Bit(allow, b) || Bit(o.allow, b) {
          BitOfOr(allow, o.allow, b);
        }
        forall b ensures Bit(Or(deny, o.deny), b) <==> Bit(deny, b) || Bit(o.deny, b) {
          BitOfOr(deny, o.deny, b);
        }
        allow, deny := Or(allow, o.allow), Or(deny, o.deny);
      }
    }
    assert overwrites[..|overwrites|] == overwrites;
  }

  /** One level applied to a mask: what it denies is taken out, what it allows put in. */
  function Applied(permissions: Mask, allow: Mask, deny: Mask): (applied: Mask)
    ensures forall b :: Bit(applied, b) <==> AfterLevel(permissions, allow, deny, b)
  {
    BitOfApplied(permissions, allow, deny);
    Or(AndNot(permissions, deny), allow)
  }

  predicate AfterLevel(permissions: Mask, allow: Mask, deny: Mask, bit: nat) {
    Bit(allow, bit) || (Bit(permissions, bit) && !Bit(deny, bit))
  }

  lemma BitOfApplied(permissions: Mask, allow: Mask, deny: Mask)
    ensures forall b :: Bit(Or(AndNot(permissions, deny), allow), b) <==> AfterLevel(permissions, allow, deny, b)
  {
    hide Bit; hide Or; hide AndNot;
    forall b ensures Bit(Or(AndNot(permissions, deny), allow), b) <==> AfterLevel(permissions, allow, deny, b) {
      BitOfOr(AndNot(permissions, deny), allow, b);
      BitOfAndNot(permissions, deny, b);
    }
  }

  method EffectivePermissions(ctx: Context, base: Mask, overwrites: seq<Overwrite>) returns (permissions: Mask)
    requires forall b :: Bit(base, b) <==> InBase(ctx, b)
    ensures forall b :: Bit(permissions, b) <==> Granted(ctx, overwrites, b)
  {
    hide InBase; hide RolesAllow; hide RolesDeny; hide Found; hide Bit; hide Applied;
    permissions := base;
    var everyone := Find(overwrites, RoleOverwrite, ctx.guildId);
    if everyone.Some? {
      permissions := Applied(permissions, everyone.value.allow, everyone.value.deny);
    }
    var roleAllow, roleDeny := RoleOverwrites(ctx, overwrites);
    permissions := Applied(permissions, roleAllow, roleDeny);
    var member := Find(overwrites, MemberOverwrite, ctx.botUserId);
    if member.Some? {
      permissions := Applied(permissions, member.value.allow, member.value.deny);
    }
  }

  method ResolveChannelAccess(ctx: Context, raw: RawOverwrites) returns (access: Access)
    ensures access == Verdict(ctx, raw)
  {
    hide InBase; hide GrantedBy; hide Parsed; hide Bit;
    var base := BasePermissions(ctx);
    if Bit(base, ADMINISTRATOR) {
      return Readable;
    }
    var overwrites := ParseOverwrites(raw);
    if overwrites.None? {
      return Malformed;
    }
    var permissions := EffectivePermissions(ctx, base, overwrites.value);
    assert Bit(permissions, VIEW_CHANNEL) == Granted(ctx, overwrites.value, VIEW_CHANNEL);
    assert Bit(permissions, READ_MESSAGE_HISTORY) == Granted(ctx, overwrites.value, READ_MESSAGE_HISTORY);
    if !Bit(permissions, VIEW_CHANNEL) {
      return MissingViewChannel;
    }
    if !Bit(permissions, READ_MESSAGE_HISTORY) {
      return MissingReadHistory;
    }
    return Readable;
  }

  // ---------- Order ----------

  lemma {:induction false} FoundIsAMatch(overwrites: seq<Overwrite>, kind: OverwriteKind, id: nat)
    ensures IsCandidate(overwrites, kind, id, Found(overwrites, kind, id))
  {
    if overwrites != [] {
      FoundIsAMatch(overwrites[1..], kind, id);
      assert overwrites == [overwrites[0]] + overwrites[1..];
    }
  }

  /** An overwrite some order of the list would have the code find for a target. */
  predicate IsCandidate(overwrites: seq<Overwrite>, kind: OverwriteKind, id: nat, found: Option<Overwrite>) {
    if found.Some? then found.value in overwrites && Targets(found.value, kind, id)
    else forall o | o in overwrites :: !Targets(o, kind, id)
  }

  /** No two different overwrites for one target. */
  predicate OneFor(overwrites: seq<Overwrite>, kind: OverwriteKind, id: nat) {
    forall a, b | a in overwrites && b in overwrites && Targets(a, kind, id) && Targets(b, kind, id) :: a == b
  }

  ghost predicate SameOverwrites(xs: seq<Overwrite>, ys: seq<Overwrite>) {
    forall o :: o in xs <==> o in ys
  }

  lemma FoundIgnoresOrder(xs: seq<Overwrite>, ys: seq<Overwrite>, kind: OverwriteKind, id: nat)
    requires OneFor(xs, kind, id) && SameOverwrites(xs, ys)
    ensures Found(xs, kind, id) == Found(ys, kind, id)
  {
    FoundIsAMatch(xs, kind, id);
    FoundIsAMatch(ys, kind, id);
  }

  ghost predicate SameButForOrder(a: Context, b: Context) {
    && a.guildId == b.guildId && a.botUserId == b.botUserId && a.permissionsByRoleId == b.permissionsByRoleId
    && (forall r :: r in a.botRoleIds <==> r in b.botRoleIds)
  }

  /** The roles' part of the rule depends on neither order. */
  lemma VerdictByIgnoresOrder(
    a: Context, b: Context, xs: seq<Overwrite>, ys: seq<Overwrite>, everyone: Option<Overwrite>, member: Option<Overwrite>)
    requires SameButForOrder(a, b) && SameOverwrites(xs, ys)
    ensures VerdictBy(a, xs, everyone, member) == VerdictBy(b, ys, everyone, member)
  {
    hide Bit;
    forall bit ensures InBase(a, bit) == InBase(b, bit) {
    }
    forall bit ensures RolesAllow(a, xs, bit) == RolesAllow(b, ys, bit) && RolesDeny(a, xs, bit) == RolesDeny(b, ys, bit) {
    }
  }

  /** Neither the order of the bot's roles nor the order of the overwrites decides
      anything, as long as @everyone and the bot member have one overwrite each;
      every other target may have any number. */
  lemma VerdictIgnoresOrder(a: Context, b: Context, xs: seq<Overwrite>, ys: seq<Overwrite>)
    requires SameButForOrder(a, b) && SameOverwrites(xs, ys)
    requires OneFor(xs, RoleOverwrite, a.guildId) && OneFor(xs, MemberOverwrite, a.botUserId)
    ensures VerdictOf(a, xs) == VerdictOf(b, ys)
  {
    hide Found; hide VerdictBy;
    FoundIgnoresOrder(xs, ys, RoleOverwrite, a.guildId);
    FoundIgnoresOrder(xs, ys, MemberOverwrite, a.botUserId);
    VerdictByIgnoresOrder(a, b, xs, ys, EveryoneOf(a, xs), MemberOf(a, xs));
  }

  /** Every reordering of the overwrites gives one verdict. */
  ghost predicate OrderIsIdle(ctx: Context, xs: seq<Overwrite>) {
    forall ys | multiset(ys) == multiset(xs) :: VerdictOf(ctx, ys) == VerdictOf(ctx, xs)
  }

  /** The overwrites held for the two targets all lead to one verdict. */
  ghost predicate CandidatesAgree(ctx: Context, xs: seq<Overwrite>) {
    forall everyone, member
      | IsCandidate(xs, RoleOverwrite, ctx.guildId, everyone) && IsCandidate(xs, MemberOverwrite, ctx.botUserId, member) ::
      VerdictBy(ctx, xs, everyone, member) == VerdictOf(ctx, xs)
  }

  /** Order matters exactly when @everyone or the bot member has overwrites that
      would lead to different verdicts. */
  lemma OrderMattersIff(ctx: Context, xs: seq<Overwrite>)
    ensures OrderIsIdle(ctx, xs) <==> CandidatesAgree(ctx, xs)
  {
    hide VerdictBy; hide VerdictOf; hide IsCandidate;
    if CandidatesAgree(ctx, xs) {
      forall ys | multiset(ys) == multiset(xs) ensures VerdictOf(ctx, ys) == VerdictOf(ctx, xs) {
        ReorderedFindsCandidates(ctx, xs, ys);
      }
    }
    if OrderIsIdle(ctx, xs) {
      forall everyone, member
        | IsCandidate(xs, RoleOverwrite, ctx.guildId, everyone) && IsCandidate(xs, MemberOverwrite, ctx.botUserId, member)
        ensures VerdictBy(ctx, xs, everyone, member) == VerdictOf(ctx, xs)
      {
        var ys := OrderFinding(ctx, xs, everyone, member);
        assert VerdictOf(ctx, ys) == VerdictOf(ctx, xs);
      }
    }
  }

  lemma SameElements(xs: seq<Overwrite>, ys: seq<Overwrite>)
    requires multiset(xs) == multiset(ys)
    ensures SameOverwrites(xs, ys)
  {
    forall o ensures o in xs <==> o in ys {
      assert o in xs <==> o in multiset(xs);
      assert o in ys <==> o in multiset(ys);
    }
  }

  /** A reordering finds some candidate for each target. */
  lemma ReorderedFindsCandidates(ctx: Context, xs: seq<Overwrite>, ys: seq<Overwrite>)
    requires multiset(ys) == multiset(xs)
    ensures IsCandidate(xs, RoleOverwrite, ctx.guildId, EveryoneOf(ctx, ys))
    ensures IsCandidate(xs, MemberOverwrite, ctx.botUserId, MemberOf(ctx, ys))
    ensures VerdictOf(ctx, ys) == VerdictBy(ctx, xs, EveryoneOf(ctx, ys), MemberOf(ctx, ys))
  {
    hide Found; hide VerdictBy;
    SameElements(xs, ys);
    FoundIsAMatch(ys, RoleOverwrite, ctx.guildId);
    FoundIsAMatch(ys, MemberOverwrite, ctx.botUserId);
    VerdictByIgnoresOrder(ctx, ctx, ys, xs, EveryoneOf(ctx, ys), MemberOf(ctx, ys));
  }

  /** Any two candidates are found by some order: the one that has them first. */
  lemma OrderFinding(ctx: Context, xs: seq<Overwrite>, everyone: Option<Overwrite>, member: Option<Overwrite>)
    returns (ys: seq<Overwrite>)
    requires IsCandidate(xs, RoleOverwrite, ctx.guildId, everyone)
    requires IsCandidate(xs, MemberOverwrite, ctx.botUserId, member)
    ensures multiset(ys) == multiset(xs)
    ensures VerdictOf(ctx, ys) == VerdictBy(ctx, xs, everyone, member)
  {
    hide Found; hide VerdictBy;
    ys := xs;
    if everyone.Some? {
      ys := ToFront(ys, everyone.value);
      AtFront(ys, RoleOverwrite, ctx.guildId);
    }
    SameElements(xs, ys);
    if member.Some? {
      ys := ToFront(ys, member.value);
    }
    SameElements(xs, ys);
    FrontIsFound(ctx, xs, ys, everyone, member);
    VerdictByIgnoresOrder(ctx, ctx, ys, xs, everyone, member);
  }

  lemma AtFront(xs: seq<Overwrite>, kind: OverwriteKind, id: nat)
    requires xs != [] && Targets(xs[0], kind, id)
    ensures Found(xs, kind, id) == Some(xs[0])
  {
  }

  lemma ToFront(xs: seq<Overwrite>, o: Overwrite) returns (ys: seq<Overwrite>)
    requires o in xs
    ensures multiset(ys) == multiset(xs) && ys != [] && ys[0] == o
    ensures forall kind, id | !Targets(o, kind, id) :: Found(ys, kind, id) == Found(xs, kind, id)
  {
    var i :| 0 <= i < |xs| && xs[i] == o;
    ys := [o] + xs[..i] + xs[i + 1..];
    assert xs == xs[..i] + [o] + xs[i + 1..];
    assert ys[1..] == xs[..i] + xs[i + 1..];
    forall kind, id | !Targets(o, kind, id) ensures Found(ys, kind, id) == Found(xs, kind, id) {
      FoundWithout(xs[..i], o, xs[i + 1..], kind, id);
    }
  }

  /** What an overwrite is not for does not depend on it. */
  lemma {:induction false} FoundWithout(head: seq<Overwrite>, o: Overwrite, tail: seq<Overwrite>, kind: OverwriteKind, id: nat)
    requires !Targets(o, kind, id)
    ensures Found(head + [o] + tail, kind, id) == Found(head + tail, kind, id)
  {
    if head == [] {
      assert head + [o] + tail == [o] + tail && head + tail == tail;
    } else {
      FoundWithout(head[1..], o, tail, kind, id);
      assert (head + [o] + tail)[1..] == head[1..] + [o] + tail;
      assert (head + tail)[1..] == head[1..] + tail;
    }
  }

  lemma FrontIsFound(
    ctx: Context, xs: seq<Overwrite>, ys: seq<Overwrite>, everyone: Option<Overwrite>, member: Option<Overwrite>)
    requires SameOverwrites(xs, ys)
    requires IsCandidate(xs, RoleOverwrite, ctx.guildId, everyone)
    requires IsCandidate(xs, MemberOverwrite, ctx.botUserId, member)
    requires member.Some? ==> ys != [] && ys[0] == member.value
    requires everyone.Some? ==> Found(ys, RoleOverwrite, ctx.guildId) == everyone
    ensures EveryoneOf(ctx, ys) == everyone && MemberOf(ctx, ys) == member
  {
    FoundIsAMatch(ys, RoleOverwrite, ctx.guildId);
    FoundIsAMatch(ys, MemberOverwrite, ctx.botUserId);
  }

  /** Two overwrites for the bot member: the first one found decides, so order does. */
  lemma DuplicatesDependOnOrder() returns (ctx: Context, xs: seq<Overwrite>, ys: seq<Overwrite>)
    ensures multiset(xs) == multiset(ys)
    ensures VerdictOf(ctx, xs) == Readable && VerdictOf(ctx, ys) == MissingViewChannel
  {
    ctx := Context(1, 7, [], map[1 := 0x1_0000]);
    var grants := Overwrite(7, MemberOverwrite, 0x400, 0);
    var denies := Overwrite(7, MemberOverwrite, 0, 0x400);
    xs, ys := [grants, denies], [denies, grants];
    ExampleBits();
    FoundFirst(grants, denies);
    FoundFirst(denies, grants);
    FoundIsAMatch(xs, RoleOverwrite, 1);
    FoundIsAMatch(ys, RoleOverwrite, 1);
    hide Found; hide Bit;
    BitOfZero(10);
    BitOfZero(16);
    assert InBase(ctx, 16) by {
      assert 1 in ctx.permissionsByRoleId && Bit(ctx.permissionsByRoleId[1], 16);
    }
  }

  lemma ExampleBits()
    ensures Bit(0x1_0000, 16) && !Bit(0x1_0000, 3)
    ensures Bit(0x400, 10) && !Bit(0x400, 16)
  {
    assert Bit(1, 0) && Bit(0x400, 10) == Bit(0x200, 9) == Bit(0x100, 8) == Bit(0x80, 7) == Bit(0x40, 6)
      == Bit(0x20, 5) == Bit(0x10, 4) == Bit(8, 3) == Bit(4, 2) == Bit(2, 1) == Bit(1, 0);
    BitOfZero(5);
    assert Bit(0x400, 16) == Bit(0x200, 15) == Bit(0x100, 14) == Bit(0x80, 13) == Bit(0x40, 12)
      == Bit(0x20, 11) == Bit(0x10, 10) == Bit(8, 9) == Bit(4, 8) == Bit(2, 7) == Bit(1, 6) == Bit(0, 5);
    assert Bit(0x1_0000, 16) == Bit(0x8000, 15) == Bit(0x4000, 14) == Bit(0x2000, 13) == Bit(0x1000, 12)
      == Bit(0x800, 11) == Bit(0x400, 10);
    assert !Bit(0x1_0000, 3) by {
      assert Bit(0x1_0000, 3) == Bit(0x8000, 2) == Bit(0x4000, 1) == Bit(0x2000, 0);
    }
  }

  lemma FoundFirst(a: Overwrite, b: Overwrite)
    ensures Found([a, b], a.kind, a.id) == Some(a)
  {
  }
}
