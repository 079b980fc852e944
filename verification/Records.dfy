/** The canonical row contract every platform crawl maps onto, and what it means
    for a resume cursor to be sound. */
module Records {
  import opened Wrappers

  /** Half-open fetch window, in milliseconds since the epoch. */
  datatype Window = Window(start: int, end: int)

  predicate InWindow(ms: int, w: Window) {
    w.start <= ms < w.end
  }

  datatype ActivityKind =
    | Message | Reply | ReactionReceived | ReplyReceived | MentionReceived
    | IssueOpened | PullRequestOpened | PullRequestMerged | PullRequestReview | Comment

  datatype Row = Row(
    kind: ActivityKind,
    actor: string,
    counterparty: Option<string>,
    resource: nat,
    objectId: nat,
    occurredAt: int,
    count: nat,
    actorIsBot: bool,
    deleted: bool)

  /** The identity the dataset engine deduplicates on. */
  predicate SameIdentity(a: Row, b: Row) {
    a.kind == b.kind && a.actor == b.actor && a.counterparty == b.counterparty
    && a.resource == b.resource && a.objectId == b.objectId
  }

  datatype Category = AuthFailed | PermissionDenied | RateLimited | NotFound | UpstreamError
                    | NetworkError | ContractViolation | OutboundPolicy

  /** How one platform request goes: it answers, it fails for this resource only
      (revoked access, a deleted object), or it fails in a way the call rethrows. */
  datatype Fault = Answers | ResourceScoped(category: Category) | Thrown

  datatype Reason = Reason(part: string, category: Category)

  datatype Coverage = Complete | Partial(reasons: seq<Reason>) | Failed

  /** How one call of a record iterator ends. */
  datatype Ending = Returned(coverage: Coverage) | Threw

  ghost predicate AllAnswer(fault: nat -> Fault, from: nat, to: nat) {
    forall i | from <= i < to :: fault(i).Answers?
  }

  /** No request of the stretch failed in the way a call swallows. */
  ghost predicate Unswallowed(fault: nat -> Fault, from: nat, to: nat) {
    forall i | from <= i < to :: !fault(i).ResourceScoped?
  }

  /** What the failures a stretch swallows were, in order. */
  function Swallowed(fault: nat -> Fault, from: nat, to: nat): (categories: seq<Category>)
    ensures categories == [] <==> Unswallowed(fault, from, to)
  {
    if to <= from then [] else Swallowed(fault, from, to - 1) + Told(fault(to - 1))
  }

  function Told(f: Fault): seq<Category> {
    if f.ResourceScoped? then [f.category] else []
  }

  function AsSeq(category: Option<Category>): seq<Category> {
    if category.Some? then [category.value] else []
  }

  function Categories(reasons: seq<Reason>): (categories: seq<Category>)
    ensures categories == [] <==> reasons == []
  {
    seq(|reasons|, i requires 0 <= i < |reasons| => reasons[i].category)
  }

  /** How the requests `start..next` were accounted for: the stretch stops at the
      first one that throws, and every failure swallowed is on record, in order. */
  ghost predicate Accounted(fault: nat -> Fault, start: nat, next: nat, told: seq<Category>, threw: bool) {
    && start <= next
    && (forall i | start <= i < next - 1 :: !fault(i).Thrown?)
    && (threw <==> start < next && fault(next - 1).Thrown?)
    && told == Swallowed(fault, start, next)
  }

  lemma AccountedMeans(fault: nat -> Fault, start: nat, next: nat, told: seq<Category>, threw: bool)
    requires Accounted(fault, start, next, told, threw)
    ensures told == Swallowed(fault, start, next) && (told == [] <==> Unswallowed(fault, start, next))
    ensures threw <==> start < next && fault(next - 1).Thrown?
  {
  }

  lemma OneRequest(fault: nat -> Fault, start: nat)
    ensures Accounted(fault, start, start, [], false)
    ensures Accounted(fault, start, start + 1, Told(fault(start)), fault(start).Thrown?)
  {
    assert Swallowed(fault, start, start) == [];
  }

  /** A stretch that answers up to its last request. */
  lemma UpToTheLast(fault: nat -> Fault, start: nat, next: nat)
    requires start < next && AllAnswer(fault, start, next - 1)
    ensures Accounted(fault, start, next, Told(fault(next - 1)), fault(next - 1).Thrown?)
  {
    assert Unswallowed(fault, start, next - 1);
  }

  lemma {:induction false} SwallowedSplit(fault: nat -> Fault, from: nat, mid: nat, upTo: nat)
    requires from <= mid <= upTo
    ensures Swallowed(fault, from, upTo) == Swallowed(fault, from, mid) + Swallowed(fault, mid, upTo)
    decreases upTo
  {
    if mid < upTo {
      SwallowedSplit(fault, from, mid, upTo - 1);
    }
  }

  lemma OnRecord(reasons: seq<Reason>, more: seq<Reason>)
    ensures Categories(reasons + more) == Categories(reasons) + Categories(more)
  {
  }

  lemma OneOnRecord(reasons: seq<Reason>, reason: Reason)
    ensures Categories(reasons + [reason]) == Categories(reasons) + [reason.category]
    ensures Categories([reason]) == [reason.category]
  {
  }

  lemma AccountedConcat(
    fault: nat -> Fault, start: nat, mid: nat, next: nat, first: seq<Category>, second: seq<Category>, threw: bool)
    requires Accounted(fault, start, mid, first, false) && Accounted(fault, mid, next, second, threw)
    ensures Accounted(fault, start, next, first + second, threw) && start <= mid <= next
    ensures first == [] ==> Accounted(fault, start, next, second, threw)
    ensures second == [] ==> Accounted(fault, start, next, first, threw)
  {
    assert [] + second == second && first + [] == first;
    SwallowedSplit(fault, start, mid, next);
  }

  datatype Batch<C, R> = Batch(records: seq<R>, cursor: C)

  ghost function RowsOf<C(!new), R(!new)>(batches: seq<Batch<C, R>>): set<R> {
    set b, r | b in batches && r in b.records :: r
  }

  /** Where a consumer that kept `batches` resumes. */
  function CursorAfter<C, R>(start: Option<C>, batches: seq<Batch<C, R>>): Option<C> {
    if batches == [] then start else Some(batches[|batches| - 1].cursor)
  }

  /** `owed(c)` is the set of rows still to be delivered from cursor `c`. A call
      may be abandoned after any batch exactly when, at every such point, what it
      yielded plus what the last cursor still owes is all it owed at the start. */
  ghost predicate Resumable<C(!new), R(!new)>(
    owed: Option<C> -> set<R>, start: Option<C>, batches: seq<Batch<C, R>>)
  {
    forall k {:trigger batches[..k]} | 0 <= k <= |batches| ::
      owed(start) <= RowsOf(batches[..k]) + owed(CursorAfter(start, batches[..k]))
  }

  lemma RowsOfAppend<C(!new), R(!new)>(a: seq<Batch<C, R>>, b: seq<Batch<C, R>>)
    ensures RowsOf(a + b) == RowsOf(a) + RowsOf(b)
  {
  }

  lemma RowsOfOne<C(!new), R(!new)>(b: Batch<C, R>)
    ensures RowsOf([b]) == set r | r in b.records
  {
    assert b in [b];
  }

  lemma ResumableEmpty<C(!new), R(!new)>(owed: Option<C> -> set<R>, start: Option<C>)
    ensures Resumable<C, R>(owed, start, [])
  {
  }

  /** Batches that all name the cursor the call started from owe the same throughout. */
  lemma ResumableConstant<C(!new), R(!new)>(owed: Option<C> -> set<R>, cursor: C, batches: seq<Batch<C, R>>)
    requires forall b | b in batches :: b.cursor == cursor
    ensures Resumable(owed, Some(cursor), batches)
  {
    forall k {:trigger batches[..k]} | 0 <= k <= |batches|
      ensures owed(Some(cursor)) <= RowsOf(batches[..k]) + owed(CursorAfter(Some(cursor), batches[..k]))
    {
      assert k > 0 ==> batches[k - 1] in batches;
    }
  }

  /** Two phases, one after the other. `rest` is what the second phase has to
      deliver; it may owe less than `owed` says, never more. */
  lemma ResumableConcat<C(!new), R(!new)>(
    owed: Option<C> -> set<R>, start: Option<C>, a: seq<Batch<C, R>>,
    rest: Option<C> -> set<R>, mid: C, b: seq<Batch<C, R>>)
    requires Resumable(owed, start, a)
    requires Resumable(rest, Some(mid), b)
    requires owed(start) <= RowsOf(a) + rest(Some(mid))
    requires forall c :: rest(c) <= owed(c)
    ensures Resumable(owed, start, a + b)
  {
    forall k {:trigger (a + b)[..k]} | 0 <= k <= |a + b|
      ensures owed(start) <= RowsOf((a + b)[..k]) + owed(CursorAfter(start, (a + b)[..k]))
    {
      if k <= |a| {
        assert (a + b)[..k] == a[..k];
      } else {
        var tail := b[..k - |a|];
        assert (a + b)[..k] == a + tail;
        RowsOfAppend(a, tail);
        assert CursorAfter(start, a + tail) == CursorAfter(Some(mid), tail);
        assert rest(Some(mid)) <= RowsOf(tail) + rest(CursorAfter(Some(mid), tail));
      }
    }
  }

  /** One more batch, whose cursor moves on past the rows it carries. */
  lemma ResumableStep<C(!new), R(!new)>(
    owed: Option<C> -> set<R>, start: Option<C>, a: seq<Batch<C, R>>, b: Batch<C, R>)
    requires Resumable(owed, start, a)
    requires owed(start) <= RowsOf(a) + (set r | r in b.records) + owed(Some(b.cursor))
    ensures Resumable(owed, start, a + [b])
  {
    forall k {:trigger (a + [b])[..k]} | 0 <= k <= |a + [b]|
      ensures owed(start) <= RowsOf((a + [b])[..k]) + owed(CursorAfter(start, (a + [b])[..k]))
    {
      if k <= |a| {
        assert (a + [b])[..k] == a[..k];
      } else {
        assert (a + [b])[..k] == a + [b];
        RowsOfAppend(a, [b]);
        RowsOfOne(b);
      }
    }
  }
}
