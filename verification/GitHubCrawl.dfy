/** The GitHub record iterator: three listings walked page by page, with the
    reviews of a pull request read while its issues page is walked. */
module GitHubCrawl {
  import opened Records
  import opened Wrappers

  datatype RawUser = RawUser(id: Option<nat>, isBot: bool)

  datatype Pull = Pull(mergedAt: Option<int>)

  datatype RawIssue = RawIssue(
    id: Option<nat>, number: Option<nat>, user: Option<RawUser>,
    createdAt: Option<int>, pull: Option<Pull>, updatedAt: int)

  datatype RawReview = RawReview(id: Option<nat>, user: Option<RawUser>, pending: bool, submittedAt: Option<int>)

  datatype RawComment = RawComment(id: Option<nat>, user: Option<RawUser>, createdAt: Option<int>, updatedAt: int)

  /** A repository in the order its listings are served. */
  datatype Repository = Repository(
    issues: seq<RawIssue>,
    reviews: nat -> seq<RawReview>,      // by pull request number
    issueComments: seq<RawComment>,
    reviewComments: seq<RawComment>)

  datatype Phase = Issues | IssueComments | ReviewComments

  datatype Cursor = Cursor(phase: Phase, page: nat)

  const PAGE_LIMIT := 100

  // ---------- Rows ----------

  function Decimal(n: nat): string {
    if n < 10 then [('0' as int + n) as char] else Decimal(n / 10) + [('0' as int + n % 10) as char]
  }

  predicate HasActor(user: Option<RawUser>) {
    user.Some? && user.value.id.Some?
  }

  predicate IsPullRequest(issue: RawIssue) {
    issue.pull.Some?
  }

  function PullRequestNumber(issue: RawIssue): Option<nat> {
    if IsPullRequest(issue) then issue.number else None
  }

  function DraftRow(kind: ActivityKind, user: RawUser, counterparty: Option<string>, resource: nat, id: nat, at: int): Row
    requires user.id.Some?
  {
    Row(kind, Decimal(user.id.value), counterparty, resource, id, at, 1, user.isBot, false)
  }

  /** The value a decimal numeral stands for. */
  function Value(digits: string): int {
    if digits == "" then 0 else Value(digits[..|digits| - 1]) * 10 + (digits[|digits| - 1] as int - '0' as int)
  }

  /** An account is credited under its own number. */
  lemma {:induction false} DecimalStandsFor(n: nat)
    ensures Value(Decimal(n)) == n && Decimal(n) != ""
  {
    var digits := Decimal(n);
    if n < 10 {
      assert digits[..0] == "";
      assert Value("") == 0;
    } else {
      DecimalStandsFor(n / 10);
      assert digits[..|digits| - 1] == Decimal(n / 10);
    }
  }

  // Below, rows are told by the fields of what they come from alone.

  /** An issue credits its author with opening it, a pull request with opening
      and with merging it, each at its own time. */
  predicate IsIssueRow(r: Row, issue: RawIssue, resource: nat, w: Window) {
    && issue.id == Some(r.objectId) && r.resource == resource && w.start <= r.occurredAt < w.end
    && issue.user.Some? && issue.user.value.id.Some? && r.actor == Decimal(issue.user.value.id.value)
    && r.actorIsBot == issue.user.value.isBot && r.counterparty.None? && r.count == 1 && !r.deleted
    && match r.kind
       case IssueOpened => issue.pull.None? && issue.createdAt == Some(r.occurredAt)
       case PullRequestOpened => issue.pull.Some? && issue.createdAt == Some(r.occurredAt)
       case PullRequestMerged => issue.pull.Some? && issue.pull.value.mergedAt == Some(r.occurredAt)
       case _ => false
  }

  /** A submitted review credits whoever wrote it, the author of the pull request being the counterparty. */
  predicate IsReviewRow(r: Row, review: RawReview, author: Option<string>, resource: nat, w: Window) {
    && review.id == Some(r.objectId) && r.resource == resource && w.start <= r.occurredAt < w.end
    && review.user.Some? && review.user.value.id.Some? && r.actor == Decimal(review.user.value.id.value)
    && r.actorIsBot == review.user.value.isBot && r.counterparty == author && r.count == 1 && !r.deleted
    && r.kind == PullRequestReview && !review.pending && review.submittedAt == Some(r.occurredAt)
  }

  predicate IsCommentRow(r: Row, comment: RawComment, resource: nat, w: Window) {
    && comment.id == Some(r.objectId) && r.resource == resource && w.start <= r.occurredAt < w.end
    && comment.user.Some? && comment.user.value.id.Some? && r.actor == Decimal(comment.user.value.id.value)
    && r.actorIsBot == comment.user.value.isBot && r.counterparty.None? && r.count == 1 && !r.deleted
    && r.kind == Comment && comment.createdAt == Some(r.occurredAt)
  }

  function ToRecord(kind: ActivityKind, user: RawUser, counterparty: Option<string>, resource: nat, id: nat,
                    at: Option<int>, w: Window): (rows: seq<Row>)
    requires user.id.Some?
    ensures forall r :: r in rows <==>
      at.Some? && InWindow(at.value, w) && r == DraftRow(kind, user, counterparty, resource, id, at.value)
  {
    if at.None? || !InWindow(at.value, w) then [] else [DraftRow(kind, user, counterparty, resource, id, at.value)]
  }

  function ToIssueRecords(issue: RawIssue, resource: nat, w: Window): (rows: seq<Row>)
    ensures forall r :: r in rows <==> IsIssueRow(r, issue, resource, w)
  {
    if !HasActor(issue.user) || issue.id.None? then []
    else if !IsPullRequest(issue) then
      ToRecord(IssueOpened, issue.user.value, None, resource, issue.id.value, issue.createdAt, w)
    else
      ToRecord(PullRequestOpened, issue.user.value, None, resource, issue.id.value, issue.createdAt, w)
      + ToRecord(PullRequestMerged, issue.user.value, None, resource, issue.id.value, issue.pull.value.mergedAt, w)
  }

  // ---------- Row sets, item by item ----------

  ghost function IssueRows(issue: RawIssue, resource: nat, w: Window): (rows: set<Row>)
    ensures forall r :: r in rows <==> IsIssueRow(r, issue, resource, w)
  {
    set r | r in ToIssueRecords(issue, resource, w)
  }

  ghost function ReviewRow(review: RawReview, author: Option<string>, resource: nat, w: Window): (rows: set<Row>)
    ensures forall r :: r in rows <==> IsReviewRow(r, review, author, resource, w)
  {
    if HasActor(review.user) && review.id.Some? && !review.pending then
      set r | r in ToRecord(PullRequestReview, review.user.value, author, resource, review.id.value, review.submittedAt, w)
    else {}
  }

  ghost function CommentRow(comment: RawComment, resource: nat, w: Window): (rows: set<Row>)
    ensures forall r :: r in rows <==> IsCommentRow(r, comment, resource, w)
  {
    if HasActor(comment.user) && comment.id.Some? then
      set r | r in ToRecord(Comment, comment.user.value, None, resource, comment.id.value, comment.createdAt, w)
    else {}
  }

  ghost function RowsOfReviews(reviews: seq<RawReview>, author: Option<string>, resource: nat, w: Window): set<Row> {
    set v, r | v in reviews && r in ReviewRow(v, author, resource, w) :: r
  }

  ghost function RowsOfComments(comments: seq<RawComment>, resource: nat, w: Window): set<Row> {
    set c, r | c in comments && r in CommentRow(c, resource, w) :: r
  }

  lemma ReviewsSplit(a: seq<RawReview>, b: seq<RawReview>, author: Option<string>, resource: nat, w: Window)
    ensures RowsOfReviews(a + b, author, resource, w)
      == RowsOfReviews(a, author, resource, w) + RowsOfReviews(b, author, resource, w)
  {
    hide ReviewRow;
    assert forall v :: v in a + b <==> v in a || v in b;
  }

  lemma OneReview(v: RawReview, author: Option<string>, resource: nat, w: Window)
    ensures RowsOfReviews([v], author, resource, w) == ReviewRow(v, author, resource, w)
  {
    hide ReviewRow;
    assert v in [v];
  }

  lemma CommentsSplit(a: seq<RawComment>, c: RawComment, resource: nat, w: Window)
    ensures RowsOfComments(a + [c], resource, w) == RowsOfComments(a, resource, w) + CommentRow(c, resource, w)
  {
    hide CommentRow;
    assert forall x :: x in a + [c] <==> x in a || x == c;
  }

  method ToReviewRecords(reviews: seq<RawReview>, resource: nat, w: Window, author: Option<string>)
    returns (records: seq<Row>)
    ensures (set r | r in records) == RowsOfReviews(reviews, author, resource, w)
  {
    hide RowsOfReviews; hide IsReviewRow;
    records := [];
    assert RowsOfReviews([], author, resource, w) == {} by { ReviewsSplit([], [], author, resource, w); NoReviews(author, resource, w); }
    for i := 0 to |reviews|
      invariant (set r | r in records) == RowsOfReviews(reviews[..i], author, resource, w)
    {
      var review := reviews[i];
      assert reviews[..i + 1] == reviews[..i] + [review];
      ReviewsSplit(reviews[..i], [review], author, resource, w);
      OneReview(review, author, resource, w);
      if !HasActor(review.user) || review.id.None? || review.pending {
        continue;
      }
      records := records
        + ToRecord(PullRequestReview, review.user.value, author, resource, review.id.value, review.submittedAt, w);
    }
    assert reviews[..|reviews|] == reviews;
  }

  lemma NoReviews(author: Option<string>, resource: nat, w: Window)
    ensures RowsOfReviews([], author, resource, w) == {}
  {
  }

  method ToCommentRecords(comments: seq<RawComment>, resource: nat, w: Window) returns (records: seq<Row>)
    ensures (set r | r in records) == RowsOfComments(comments, resource, w)
  {
    hide IsCommentRow;
    records := [];
    for i := 0 to |comments|
      invariant (set r | r in records) == RowsOfComments(comments[..i], resource, w)
    {
      var comment := comments[i];
      assert comments[..i + 1] == comments[..i] + [comment];
      CommentsSplit(comments[..i], comment, resource, w);
      if !HasActor(comment.user) || comment.id.None? {
        continue;
      }
      records := records + ToRecord(Comment, comment.user.value, None, resource, comment.id.value, comment.createdAt, w);
    }
    assert comments[..|comments|] == comments;
  }

  function AuthorOf(issue: RawIssue): Option<string> {
    if HasActor(issue.user) then Some(Decimal(issue.user.value.id.value)) else None
  }

  /** The reviews listing of a pull request; anything else has none. */
  function ReviewsOf(repo: Repository, issue: RawIssue): seq<RawReview> {
    if PullRequestNumber(issue).None? then [] else repo.reviews(issue.number.value)
  }

  ghost function ReviewRows(repo: Repository, issue: RawIssue, resource: nat, w: Window): set<Row> {
    RowsOfReviews(ReviewsOf(repo, issue), AuthorOf(issue), resource, w)
  }

  ghost function RowsOfIssues(repo: Repository, issues: seq<RawIssue>, resource: nat, w: Window): set<Row> {
    set i, r | i in issues && r in IssueRows(i, resource, w) + ReviewRows(repo, i, resource, w) :: r
  }

  lemma IssuesSplit(repo: Repository, a: seq<RawIssue>, b: seq<RawIssue>, resource: nat, w: Window)
    ensures RowsOfIssues(repo, a + b, resource, w) == RowsOfIssues(repo, a, resource, w) + RowsOfIssues(repo, b, resource, w)
  {
    hide IssueRows; hide ReviewRows;
    assert forall i :: i in a + b <==> i in a || i in b;
  }

  lemma OneIssue(repo: Repository, issue: RawIssue, resource: nat, w: Window)
    ensures RowsOfIssues(repo, [issue], resource, w) == IssueRows(issue, resource, w) + ReviewRows(repo, issue, resource, w)
  {
    hide IssueRows; hide ReviewRows;
    assert issue in [issue];
  }

  // ---------- Listings and pages ----------

  /** `since` keeps what was updated at or after the window start. */
  function ListedIssues(repo: Repository, w: Window): seq<RawIssue> {
    Filter(repo.issues, (i: RawIssue) => w.start <= i.updatedAt)
  }

  function ListedComments(comments: seq<RawComment>, w: Window): seq<RawComment> {
    Filter(comments, (c: RawComment) => w.start <= c.updatedAt)
  }

  function Filter<T(!new)>(items: seq<T>, keep: T -> bool): (r: seq<T>)
    ensures forall x :: x in r <==> x in items && keep(x)
  {
    if items == [] then [] else
      (if keep(items[0]) then [items[0]] else []) + Filter(items[1..], keep)
  }

  /** The items a listing holds from index `lo` on. */
  function From<T>(items: seq<T>, lo: nat): seq<T> {
    if lo < |items| then items[lo..] else []
  }

  /** A page of a listing, numbered from one. */
  function PageOf<T>(items: seq<T>, page: nat): (r: seq<T>)
    requires page >= 1
    ensures |r| <= PAGE_LIMIT
    ensures From(items, (page - 1) * PAGE_LIMIT) == r + From(items, page * PAGE_LIMIT)
    ensures |r| < PAGE_LIMIT ==> |items| < page * PAGE_LIMIT
    ensures |r| == PAGE_LIMIT ==> page * PAGE_LIMIT <= |items|
  {
    var rest := From(items, (page - 1) * PAGE_LIMIT);
    if |rest| < PAGE_LIMIT then rest else rest[..PAGE_LIMIT]
  }

  function Length(repo: Repository, w: Window, phase: Phase): nat {
    match phase
    case Issues => |ListedIssues(repo, w)|
    case IssueComments => |ListedComments(repo.issueComments, w)|
    case ReviewComments => |ListedComments(repo.reviewComments, w)|
  }

  /** The rows one phase still owes from item `lo` on. */
  ghost function PhaseRows(repo: Repository, resource: nat, w: Window, phase: Phase, lo: nat): set<Row> {
    match phase
    case Issues => RowsOfIssues(repo, From(ListedIssues(repo, w), lo), resource, w)
    case IssueComments => RowsOfComments(From(ListedComments(repo.issueComments, w), lo), resource, w)
    case ReviewComments => RowsOfComments(From(ListedComments(repo.reviewComments, w), lo), resource, w)
  }

  ghost function LaterRows(repo: Repository, resource: nat, w: Window, phase: Phase): set<Row> {
    match phase
    case Issues =>
      PhaseRows(repo, resource, w, IssueComments, 0) + PhaseRows(repo, resource, w, ReviewComments, 0)
    case IssueComments => PhaseRows(repo, resource, w, ReviewComments, 0)
    case ReviewComments => {}
  }

  /** The rows still to be delivered from a cursor. */
  ghost function Owed(repo: Repository, resource: nat, w: Window, cursor: Option<Cursor>): set<Row> {
    var c := if cursor.Some? then cursor.value else Cursor(Issues, 1);
    PhaseRows(repo, resource, w, c.phase, if c.page >= 1 then (c.page - 1) * PAGE_LIMIT else 0)
    + LaterRows(repo, resource, w, c.phase)
  }

  ghost function OwedFrom(repo: Repository, resource: nat, w: Window): Option<Cursor> -> set<Row> {
    (k: Option<Cursor>) => Owed(repo, resource, w, k)
  }

  predicate Issued(cursor: Option<Cursor>) {
    cursor.Some? ==> cursor.value.page >= 1
  }

  // ---------- One pull request's reviews ----------

  /** Every review of one pull request, or nothing at all when a page fails. */
  method FetchReviewRecords(
      repo: Repository, issue: RawIssue, resource: nat, w: Window, fault: nat -> Fault, start: nat)
    returns (records: seq<Row>, failed: Option<Category>, threw: bool, next: nat)
    ensures Accounted(fault, start, next, AsSeq(failed), threw)
    ensures failed.Some? || threw ==> records == []
    ensures failed.None? && !threw ==> (set r | r in records) == ReviewRows(repo, issue, resource, w)
  {
    hide RowsOfReviews; hide Accounted;
    records, failed, threw, next := [], None, false, start;
    OneRequest(fault, start);
    NoReviews(AuthorOf(issue), resource, w);
    if PullRequestNumber(issue).None? {
      return;
    }
    var all := repo.reviews(issue.number.value);
    var page := 1;
    assert From(all, 0) == all;
    while true
      invariant page >= 1
      invariant start <= next && AllAnswer(fault, start, next)
      invariant RowsOfReviews(all, AuthorOf(issue), resource, w) == (set r | r in records)
        + RowsOfReviews(From(all, (page - 1) * PAGE_LIMIT), AuthorOf(issue), resource, w)
      decreases |all| + PAGE_LIMIT - page * PAGE_LIMIT
    {
      next := next + 1;
      UpToTheLast(fault, start, next);
      match fault(next - 1) {
        case Thrown => records, threw := [], true; return;
        case ResourceScoped(category) => records, failed := [], Some(category); return;
        case Answers =>
      }
      var batch := PageOf(all, page);
      var rows := ToReviewRecords(batch, resource, w, AuthorOf(issue));
      ReviewsSplit(batch, From(all, page * PAGE_LIMIT), AuthorOf(issue), resource, w);
      records := records + rows;
      if |batch| < PAGE_LIMIT {
        return;
      }
      page := page + 1;
    }
  }

  // ---------- One page ----------

  method IssuePageRecords(
      repo: Repository, issues: seq<RawIssue>, resource: nat, w: Window, fault: nat -> Fault, start: nat)
    returns (records: seq<Row>, reasons: seq<Reason>, threw: bool, next: nat)
    ensures Accounted(fault, start, next, Categories(reasons), threw)
    ensures (set r | r in records) <= RowsOfIssues(repo, issues, resource, w)
    ensures reasons == [] && !threw ==> (set r | r in records) == RowsOfIssues(repo, issues, resource, w)
  {
    hide RowsOfIssues; hide ReviewRows; hide IssueRows; hide Accounted; hide Categories;
    records, reasons, threw, next := [], [], false, start;
    OneRequest(fault, start);
    NoIssues(repo, resource, w);
    for i := 0 to |issues|
      invariant Accounted(fault, start, next, Categories(reasons), threw) && !threw
      invariant (set r | r in records) <= RowsOfIssues(repo, issues[..i], resource, w)
      invariant reasons == [] ==> (set r | r in records) == RowsOfIssues(repo, issues[..i], resource, w)
    {
      assert issues[..i + 1] == issues[..i] + [issues[i]];
      IssuesSplit(repo, issues[..i], [issues[i]], resource, w);
      OneIssue(repo, issues[i], resource, w);
      assert (set r | r in ToIssueRecords(issues[i], resource, w)) == IssueRows(issues[i], resource, w) by {
        IssueRowsAreRecords(issues[i], resource, w);
      }
      records := records + ToIssueRecords(issues[i], resource, w);
      var reviews, failed, crashed, after := FetchReviewRecords(repo, issues[i], resource, w, fault, next);
      records := records + reviews;
      AccountedConcat(fault, start, next, after, Categories(reasons), AsSeq(failed), crashed);
      if failed.Some? {
        OneOnRecord(reasons, Reason("reviews", failed.value));
        reasons := reasons + [Reason("reviews", failed.value)];
      }
      next := after;
      if crashed {
        threw := true;
        assert issues == issues[..i + 1] + issues[i + 1..];
        IssuesSplit(repo, issues[..i + 1], issues[i + 1..], resource, w);
        return;
      }
    }
    assert issues[..|issues|] == issues;
  }

  lemma NoIssues(repo: Repository, resource: nat, w: Window)
    ensures RowsOfIssues(repo, [], resource, w) == {}
  {
  }

  lemma IssueRowsAreRecords(issue: RawIssue, resource: nat, w: Window)
    ensures (set r | r in ToIssueRecords(issue, resource, w)) == IssueRows(issue, resource, w)
  {
  }

  lemma NothingElse(told: seq<Category>)
    ensures Categories([]) == [] && [] + told == told == told + []
  {
  }

  /** The page's own request, and for an issues page every reviews request it needs. */
  method ReadPage(
      repo: Repository, resource: nat, w: Window, phase: Phase, page: nat, fault: nat -> Fault, start: nat)
    returns (records: seq<Row>, count: nat, lost: Option<Category>, reasons: seq<Reason>, threw: bool, next: nat)
    requires page >= 1
    ensures start < next
    ensures Accounted(fault, start, next, Categories(reasons) + AsSeq(lost), threw)
    ensures lost.Some? <==> fault(start).ResourceScoped?
    ensures lost.Some? ==> !threw
    ensures lost.None? && !threw ==> fault(start).Answers?
    ensures (set r | r in records) <= PhaseRows(repo, resource, w, phase, (page - 1) * PAGE_LIMIT)
    ensures lost.None? && !threw ==>
      && count <= PAGE_LIMIT
      && PhaseRows(repo, resource, w, phase, page * PAGE_LIMIT) <= PhaseRows(repo, resource, w, phase, (page - 1) * PAGE_LIMIT)
      && (reasons == [] ==> PhaseRows(repo, resource, w, phase, (page - 1) * PAGE_LIMIT)
                            == (set r | r in records) + PhaseRows(repo, resource, w, phase, page * PAGE_LIMIT))
      && (count < PAGE_LIMIT ==> PhaseRows(repo, resource, w, phase, page * PAGE_LIMIT) == {})
      && (count == PAGE_LIMIT ==> page * PAGE_LIMIT <= Length(repo, w, phase))
  {
    hide RowsOfIssues; hide RowsOfComments; hide ListedIssues; hide ListedComments; hide Accounted; hide Categories;
    OneRequest(fault, start);
    records, count, lost, reasons, threw, next := [], 0, None, [], false, start + 1;
    match fault(start) {
      case Thrown => threw := true; NothingElse([]); return;
      case ResourceScoped(category) => lost := Some(category); NothingElse(AsSeq(lost)); return;
      case Answers =>
    }
    NothingElse([]);
    if phase == Issues {
      var items := PageOf(ListedIssues(repo, w), page);
      IssuesSplit(repo, items, From(ListedIssues(repo, w), page * PAGE_LIMIT), resource, w);
      NoIssues(repo, resource, w);
      records, reasons, threw, next := IssuePageRecords(repo, items, resource, w, fault, next);
      AccountedConcat(fault, start, start + 1, next, [], Categories(reasons), threw);
      NothingElse(Categories(reasons));
      count := |items|;
    } else {
      var comments := ListedComments(if phase == IssueComments then repo.issueComments else repo.reviewComments, w);
      var items := PageOf(comments, page);
      CommentsConcat(items, From(comments, page * PAGE_LIMIT), resource, w);
      NoComments(resource, w);
      records := ToCommentRecords(items, resource, w);
      count := |items|;
    }
  }

  lemma CommentsConcat(a: seq<RawComment>, b: seq<RawComment>, resource: nat, w: Window)
    ensures RowsOfComments(a + b, resource, w) == RowsOfComments(a, resource, w) + RowsOfComments(b, resource, w)
  {
    hide CommentRow;
    assert forall x :: x in a + b <==> x in a || x in b;
  }

  lemma NoComments(resource: nat, w: Window)
    ensures RowsOfComments([], resource, w) == {}
  {
  }

  // ---------- One phase ----------

  /** Where the crawl continues once a phase is done; the last phase names itself. */
  function NextPhase(phase: Phase): Phase {
    match phase
    case Issues => IssueComments
    case IssueComments => ReviewComments
    case ReviewComments => ReviewComments
  }

  method CrawlPhase(
      repo: Repository, resource: nat, w: Window, phase: Phase, first: nat, fault: nat -> Fault, start: nat)
    returns (batches: seq<Batch<Cursor, Row>>, lost: Option<Category>, reasons: seq<Reason>, threw: bool, next: nat)
    requires first >= 1
    ensures start < next
    ensures Accounted(fault, start, next, Categories(reasons) + AsSeq(lost), threw)
    ensures forall b | b in batches :: b.cursor.page >= 1
    ensures lost.Some? ==> !threw
    // every cursor moves on, to the next page or to the next phase
    ensures PagesInOrder(batches, phase, first)
      || (batches != [] && PagesInOrder(batches[..|batches| - 1], phase, first)
          && batches[|batches| - 1].cursor == Cursor(if phase == Issues then IssueComments else ReviewComments, 1))
    ensures fault(start).ResourceScoped? <==> lost.Some? && batches == []
    ensures lost.None? && !threw ==> batches != []
    ensures RowsOf(batches) <= PhaseRows(repo, resource, w, phase, (first - 1) * PAGE_LIMIT)
    ensures lost.None? && reasons == [] ==>
      Resumable(OwedFrom(repo, resource, w), Some(Cursor(phase, first)), batches)
    ensures lost.None? && reasons == [] && !threw ==>
      RowsOf(batches) == PhaseRows(repo, resource, w, phase, (first - 1) * PAGE_LIMIT)
  {
    hide RowsOf; hide PhaseRows; hide Resumable; hide Accounted; hide Categories; hide PagesInOrder; hide Paging;
    batches, lost, reasons, threw, next := [], None, [], false, start;
    PagingStarts(repo, resource, w, phase, first);
    OneRequest(fault, start);
    var page := first;
    while true
      invariant page >= first && !threw && lost.None?
      invariant start <= next && (start == next ==> batches == [])
      invariant next > start ==> |batches| > 0 && !fault(start).ResourceScoped?
      invariant Accounted(fault, start, next, Categories(reasons), false)
      invariant page == first + |batches| && PagesInOrder(batches, phase, first)
      invariant Paging(repo, resource, w, phase, first, batches, page, reasons == [])
      decreases Length(repo, w, phase) + PAGE_LIMIT - page * PAGE_LIMIT
    {
      PagingMeans(repo, resource, w, phase, first, batches, page, reasons == []);
      var records, count, missing, swallowed, crashed, after := ReadPage(repo, resource, w, phase, page, fault, next);
      AccountedConcat(fault, start, next, after, Categories(reasons), Categories(swallowed) + AsSeq(missing), crashed);
      StillOnRecord(reasons, swallowed, missing);
      next := after;
      if crashed || missing.Some? {
        reasons, threw, lost := reasons + swallowed, crashed, missing;
        return;
      }
      var done := count < PAGE_LIMIT;
      var b := Batch(records, if done then Cursor(NextPhase(phase), 1) else Cursor(phase, page + 1));
      PagingOn(repo, resource, w, phase, first, batches, page, reasons == [], swallowed == [], b, done);
      OnePageMore(batches, b, phase, first);
      batches, reasons := batches + [b], reasons + swallowed;
      page := page + 1;
      if done {
        PagingMeans(repo, resource, w, phase, first, batches, page, reasons == []);
        return;
      }
    }
  }

  /** Where a phase stands after `batches`, with `page` to be read next. */
  ghost predicate Paging(
    repo: Repository, resource: nat, w: Window, phase: Phase, first: nat, batches: seq<Batch<Cursor, Row>>, page: nat, all: bool)
    requires first >= 1 && page >= 1
  {
    var at, rest := PhaseRows(repo, resource, w, phase, (first - 1) * PAGE_LIMIT), PhaseRows(repo, resource, w, phase, (page - 1) * PAGE_LIMIT);
    && (forall b | b in batches :: b.cursor.page >= 1)
    && RowsOf(batches) <= at && rest <= at
    && (all ==> Resumable(OwedFrom(repo, resource, w), Some(Cursor(phase, first)), batches) && at == RowsOf(batches) + rest)
  }

  lemma PagingStarts(repo: Repository, resource: nat, w: Window, phase: Phase, first: nat)
    requires first >= 1
    ensures Paging(repo, resource, w, phase, first, [], first, true) && PagesInOrder([], phase, first)
  {
    hide PhaseRows; hide Resumable;
    NoBatches();
    ResumableEmpty(OwedFrom(repo, resource, w), Some(Cursor(phase, first)));
  }

  lemma PagingMeans(
    repo: Repository, resource: nat, w: Window, phase: Phase, first: nat, batches: seq<Batch<Cursor, Row>>, page: nat, all: bool)
    requires first >= 1 && page >= 1 && Paging(repo, resource, w, phase, first, batches, page, all)
    ensures forall b | b in batches :: b.cursor.page >= 1
    ensures RowsOf(batches) <= PhaseRows(repo, resource, w, phase, (first - 1) * PAGE_LIMIT)
    ensures PhaseRows(repo, resource, w, phase, (page - 1) * PAGE_LIMIT) <= PhaseRows(repo, resource, w, phase, (first - 1) * PAGE_LIMIT)
    ensures all ==> Resumable(OwedFrom(repo, resource, w), Some(Cursor(phase, first)), batches)
    ensures all && PhaseRows(repo, resource, w, phase, (page - 1) * PAGE_LIMIT) == {} ==>
      RowsOf(batches) == PhaseRows(repo, resource, w, phase, (first - 1) * PAGE_LIMIT)
  {
    hide PhaseRows; hide Resumable; hide RowsOf;
  }

  /** One page further, all of its rows read or some of them on record as lost. */
  lemma PagingOn(
    repo: Repository, resource: nat, w: Window, phase: Phase, first: nat, batches: seq<Batch<Cursor, Row>>, page: nat,
    all: bool, whole: bool, b: Batch<Cursor, Row>, done: bool)
    requires first >= 1 && page >= 1 && Paging(repo, resource, w, phase, first, batches, page, all)
    requires var here, rest := PhaseRows(repo, resource, w, phase, (page - 1) * PAGE_LIMIT), PhaseRows(repo, resource, w, phase, page * PAGE_LIMIT);
      && (set r | r in b.records) <= here && rest <= here
      && (whole ==> here == (set r | r in b.records) + rest)
      && (done ==> rest == {})
    requires b.cursor == if done then Cursor(NextPhase(phase), 1) else Cursor(phase, page + 1)
    ensures Paging(repo, resource, w, phase, first, batches + [b], page + 1, all && whole)
  {
    hide PhaseRows; hide Resumable; hide RowsOf;
    RowsOfAppend(batches, [b]);
    RowsOfOne(b);
    if all && whole {
      ResumableStep(OwedFrom(repo, resource, w), Some(Cursor(phase, first)), batches, b);
    }
  }

  lemma StillOnRecord(reasons: seq<Reason>, swallowed: seq<Reason>, missing: Option<Category>)
    ensures Categories(reasons + swallowed) + AsSeq(missing) == Categories(reasons) + (Categories(swallowed) + AsSeq(missing))
    ensures missing.None? ==> Categories(reasons + swallowed) == Categories(reasons) + (Categories(swallowed) + AsSeq(missing))
  {
    OnRecord(reasons, swallowed);
  }

  /** Each batch names the page after its own. */
  predicate PagesInOrder(batches: seq<Batch<Cursor, Row>>, phase: Phase, first: nat) {
    forall i | 0 <= i < |batches| :: batches[i].cursor == Cursor(phase, first + i + 1)
  }

  lemma OnePageMore(batches: seq<Batch<Cursor, Row>>, b: Batch<Cursor, Row>, phase: Phase, first: nat)
    requires PagesInOrder(batches, phase, first)
    ensures b.cursor == Cursor(phase, first + |batches| + 1) ==> PagesInOrder(batches + [b], phase, first)
    ensures (batches + [b])[..|batches|] == batches
  {
  }

  lemma NoBatches()
    ensures RowsOf<Cursor, Row>([]) == {}
  {
  }

  // ---------- The iterator ----------

  /** What a phase leaves behind is what the next one owes from its first page. */
  lemma OwedByPhase(repo: Repository, resource: nat, w: Window, at: Cursor)
    requires at.page >= 1
    ensures Owed(repo, resource, w, None) == Owed(repo, resource, w, Some(Cursor(Issues, 1)))
    ensures Owed(repo, resource, w, Some(at)) == PhaseRows(repo, resource, w, at.phase, (at.page - 1) * PAGE_LIMIT)
      + if at.phase == ReviewComments then {} else Owed(repo, resource, w, Some(Cursor(NextPhase(at.phase), 1)))
  {
    hide PhaseRows;
  }

  lemma ListingOnRecord(reasons: seq<Reason>, swallowed: seq<Reason>, lost: Option<Category>)
    ensures Categories(reasons + swallowed + if lost.Some? then [Reason("listing", lost.value)] else [])
      == Categories(reasons) + (Categories(swallowed) + AsSeq(lost))
  {
    OnRecord(reasons, swallowed);
    if lost.Some? {
      OneOnRecord(reasons + swallowed, Reason("listing", lost.value));
    } else {
      assert reasons + swallowed + [] == reasons + swallowed;
    }
  }

  /** One call. `reachable` says whether the installation still lists the repository. */
  method IterateRecords(
      repo: Repository, reachable: bool, resource: nat, w: Window, cursor: Option<Cursor>, fault: nat -> Fault)
    returns (batches: seq<Batch<Cursor, Row>>, ending: Ending, calls: nat)
    requires Issued(cursor)
    ensures forall b | b in batches :: Issued(Some(b.cursor))
    ensures Unswallowed(fault, 0, calls) ==> Resumable(OwedFrom(repo, resource, w), cursor, batches)
    ensures RowsOf(batches) <= Owed(repo, resource, w, cursor)
    ensures ending == Returned(Complete) ==>
      Unswallowed(fault, 0, calls) && RowsOf(batches) == Owed(repo, resource, w, cursor)
    ensures ending == Returned(Failed) ==> batches == []
    ensures ending == Returned(Failed) <==>
      || fault(0).ResourceScoped?
      || (fault(0).Answers? && !reachable)
      || (fault(0).Answers? && cursor.None? && fault(1).ResourceScoped?)
    ensures ending.Returned? && ending.coverage.Partial? ==>
      && ending.coverage.reasons != [] && !Unswallowed(fault, 0, calls)
      && Categories(ending.coverage.reasons) == Swallowed(fault, 0, calls)
    ensures ending == Threw <==> calls > 0 && fault(calls - 1).Thrown?
    ensures reachable && Unswallowed(fault, 0, calls) && ending.Returned? ==> ending == Returned(Complete)
  {
    hide RowsOf; hide PhaseRows; hide Resumable; hide Owed; hide Accounted; hide Categories; hide Swallowed; hide Unswallowed;
    batches, calls := [], 1;
    OneRequest(fault, 0);
    AccountedMeans(fault, 0, 1, Told(fault(0)), fault(0).Thrown?);
    ghost var owed := OwedFrom(repo, resource, w);
    NoBatches();
    ResumableEmpty(owed, cursor);
    match fault(0) {
      case Thrown => ending := Threw; return;
      case ResourceScoped(category) => ending := Returned(Failed); return;
      case Answers =>
    }
    if !reachable {
      ending := Returned(Failed);
      return;
    }
    var reasons: seq<Reason> := [];
    var at := if cursor.Some? then cursor.value else Cursor(Issues, 1);
    var finished := false;
    OwedByPhase(repo, resource, w, at);
    while !finished
      invariant calls >= 1 && Accounted(fault, 0, calls, Categories(reasons), false)
      invariant calls > 1 ==> !(cursor.None? && fault(1).ResourceScoped?)
      invariant calls == 1 ==> batches == [] && !finished
      invariant batches == [] ==> calls == 1 || cursor.Some?
      invariant at.page >= 1
      invariant forall b | b in batches :: Issued(Some(b.cursor))
      invariant RowsOf(batches) <= Owed(repo, resource, w, cursor)
      invariant !finished ==> Owed(repo, resource, w, Some(at)) <= Owed(repo, resource, w, cursor)
      invariant reasons == [] ==>
        && Resumable(owed, cursor, batches)
        && Owed(repo, resource, w, cursor)
           == RowsOf(batches) + if finished then {} else Owed(repo, resource, w, Some(at))
      decreases if finished then 0 else match at.phase case Issues => 3 case IssueComments => 2 case ReviewComments => 1
    {
      OwedByPhase(repo, resource, w, at);
      var crawled, lost, swallowed, threw, after := CrawlPhase(repo, resource, w, at.phase, at.page, fault, calls);
      AccountedConcat(fault, 0, calls, after, Categories(reasons), Categories(swallowed) + AsSeq(lost), threw);
      ghost var told := Categories(reasons) + (Categories(swallowed) + AsSeq(lost));
      AccountedMeans(fault, 0, after, told, threw);
      ListingOnRecord(reasons, swallowed, lost);
      calls := after;
      RowsOfAppend(batches, crawled);
      if reasons == [] && lost.None? && swallowed == [] {
        ResumableConcat(owed, cursor, batches, owed, at, crawled);
      }
      if lost.Some? && cursor.None? && batches + crawled == [] {
        ending := Returned(Failed);
        return;
      }
      batches := batches + crawled;
      reasons := reasons + swallowed + if lost.Some? then [Reason("listing", lost.value)] else [];
      if threw {
        ending := Threw;
        return;
      }
      if at.phase == ReviewComments {
        finished := true;
      } else {
        at := Cursor(NextPhase(at.phase), 1);
      }
    }
    AccountedMeans(fault, 0, calls, Categories(reasons), false);
    ending := Returned(if reasons == [] then Complete else Partial(reasons));
  }
}
