/** The GitHub crawl driven by the dataset engine through any number of crashes. */
module GitHubFreeze {
  import opened Records
  import opened Wrappers
  import opened GitHubCrawl
  import opened DatasetEngine

  method FreezeRepository(
      repo: Repository, resource: nat, w: Window, faults: seq<nat -> Fault>, deaths: seq<nat>, heard: seq<nat -> bool>)
    returns (segments: map<nat, seq<Row>>, checkpoint: Progress<Cursor>)
    requires |faults| == |deaths| == |heard|
    requires forall i | 0 <= i < |faults| :: forall n :: !faults[i](n).ResourceScoped?
    ensures StagedRows(segments, checkpoint.segments) <= Owed(repo, resource, w, None)
    ensures checkpoint.coverage.Some? ==>
      checkpoint.coverage == Some(Complete) && StagedRows(segments, checkpoint.segments) == Owed(repo, resource, w, None)
    ensures checkpoint.coverage.None? ==>
      Owed(repo, resource, w, None) == StagedRows(segments, checkpoint.segments) + Owed(repo, resource, w, checkpoint.cursor)
  {
    hide Owed; hide RowsOf; hide Resumable; hide StagedRows;
    ghost var owed := OwedFrom(repo, resource, w);
    var staging := new Staging<Cursor, Row>(owed, owed(None));
    for i := 0 to |faults|
      invariant fresh(staging)
      invariant staging.Sound(owed, owed(None))
      invariant staging.checkpoint.coverage.None? ==> Issued(staging.checkpoint.cursor)
      invariant staging.checkpoint.coverage.Some? ==> staging.checkpoint.coverage == Some(Complete)
      invariant staging.checkpoint.coverage.None? ==> owed(staging.checkpoint.cursor) <= owed(None)
    {
      if staging.checkpoint.coverage.None? {
        var batches, ending, calls := IterateRecords(repo, true, resource, w, staging.checkpoint.cursor, faults[i]);
        assert Unswallowed(faults[i], 0, calls);
        forall b | b in batches ensures owed(Some(b.cursor)) <= owed(None) {
          CursorsOweNoMore(repo, resource, w, b.cursor);
        }
        staging.CrawlResource(owed, owed(None), batches, ending, deaths[i], heard[i]);
      }
    }
    segments, checkpoint := staging.segments, staging.checkpoint;
  }

  lemma CursorsOweNoMore(repo: Repository, resource: nat, w: Window, cursor: Cursor)
    requires cursor.page >= 1
    ensures Owed(repo, resource, w, Some(cursor)) <= Owed(repo, resource, w, None)
  {
    hide IssueRows; hide ReviewRows; hide CommentRow;
    var lo := (cursor.page - 1) * PAGE_LIMIT;
    TailOwesNoMore(repo, resource, w, cursor.phase, lo);
  }

  lemma TailOwesNoMore(repo: Repository, resource: nat, w: Window, phase: Phase, lo: nat)
    ensures PhaseRows(repo, resource, w, phase, lo) <= PhaseRows(repo, resource, w, phase, 0)
  {
    hide IssueRows; hide ReviewRows; hide CommentRow;
  }

  // ---------- What the frozen rows are ----------

  ghost function AllInWindowRows(repo: Repository, resource: nat, w: Window): set<Row> {
    RowsOfIssues(repo, repo.issues, resource, w)
    + RowsOfComments(repo.issueComments, resource, w) + RowsOfComments(repo.reviewComments, resource, w)
  }

  /** An object is updated no earlier than anything recorded on it: its opening,
      its merge, and for a pull request each of its reviews. */
  ghost predicate UpdatesAreLast(repo: Repository) {
    && (forall i | i in repo.issues ::
          && (i.createdAt.Some? ==> i.createdAt.value <= i.updatedAt)
          && (i.pull.Some? && i.pull.value.mergedAt.Some? ==> i.pull.value.mergedAt.value <= i.updatedAt)
          && (forall v | v in ReviewsOf(repo, i) && v.submittedAt.Some? :: v.submittedAt.value <= i.updatedAt))
    && (forall c | c in repo.issueComments || c in repo.reviewComments ::
          c.createdAt.Some? ==> c.createdAt.value <= c.updatedAt)
  }

  /** The reviews of a pull request, each with the request's author as counterparty. */
  ghost predicate IsReviewOn(r: Row, repo: Repository, issue: RawIssue, resource: nat, w: Window) {
    && issue.pull.Some? && issue.number.Some?
    && exists v :: v in repo.reviews(issue.number.value)
         && IsReviewRow(r, v, if issue.user.Some? && issue.user.value.id.Some? then Some(Decimal(issue.user.value.id.value)) else None,
                        resource, w)
  }

  lemma ReviewRowsAreCredits(r: Row, repo: Repository, issue: RawIssue, resource: nat, w: Window)
    ensures r in ReviewRows(repo, issue, resource, w) <==> IsReviewOn(r, repo, issue, resource, w)
  {
    hide IsReviewRow;
    if r in ReviewRows(repo, issue, resource, w) {
      var v :| v in ReviewsOf(repo, issue) && r in ReviewRow(v, AuthorOf(issue), resource, w);
      assert v in repo.reviews(issue.number.value);
    }
    if IsReviewOn(r, repo, issue, resource, w) {
      var v :| v in repo.reviews(issue.number.value) && IsReviewRow(r, v, AuthorOf(issue), resource, w);
      assert v in ReviewsOf(repo, issue) && r in ReviewRow(v, AuthorOf(issue), resource, w);
    }
  }

  /** The rows of a repository's whole history inside the window, by what each comes from. */
  lemma WindowRowsAreCredits(r: Row, repo: Repository, resource: nat, w: Window)
    ensures r in AllInWindowRows(repo, resource, w) <==>
      || (exists i :: i in repo.issues && (IsIssueRow(r, i, resource, w) || IsReviewOn(r, repo, i, resource, w)))
      || (exists c :: c in repo.issueComments && IsCommentRow(r, c, resource, w))
      || (exists c :: c in repo.reviewComments && IsCommentRow(r, c, resource, w))
  {
    hide RowsOfIssues; hide RowsOfComments; hide IsIssueRow; hide IsReviewOn; hide IsCommentRow;
    IssueCredits(r, repo, resource, w);
    CommentCredits(r, repo.issueComments, resource, w);
    CommentCredits(r, repo.reviewComments, resource, w);
  }

  lemma IssueCredits(r: Row, repo: Repository, resource: nat, w: Window)
    ensures r in RowsOfIssues(repo, repo.issues, resource, w) <==>
      exists i :: i in repo.issues && (IsIssueRow(r, i, resource, w) || IsReviewOn(r, repo, i, resource, w))
  {
    hide IsIssueRow; hide ReviewRows; hide IsReviewOn;
    if r in RowsOfIssues(repo, repo.issues, resource, w) {
      var i :| i in repo.issues && r in IssueRows(i, resource, w) + ReviewRows(repo, i, resource, w);
      ReviewRowsAreCredits(r, repo, i, resource, w);
    }
    if i :| i in repo.issues && (IsIssueRow(r, i, resource, w) || IsReviewOn(r, repo, i, resource, w)) {
      ReviewRowsAreCredits(r, repo, i, resource, w);
      assert r in IssueRows(i, resource, w) + ReviewRows(repo, i, resource, w);
    }
  }

  lemma CommentCredits(r: Row, comments: seq<RawComment>, resource: nat, w: Window)
    ensures r in RowsOfComments(comments, resource, w) <==> exists c :: c in comments && IsCommentRow(r, c, resource, w)
  {
    hide IsCommentRow;
    if c :| c in comments && IsCommentRow(r, c, resource, w) {
      assert r in CommentRow(c, resource, w);
    }
  }

  /** The `since` filter of the listings hides nothing that happened inside the
      window, so an old pull request merged or reviewed inside it is credited. */
  lemma FrozenRowsAreTheWindow(repo: Repository, resource: nat, w: Window)
    requires UpdatesAreLast(repo)
    ensures Owed(repo, resource, w, None) == AllInWindowRows(repo, resource, w)
  {
    hide RowsOfComments; hide RowsOfIssues; hide ListedIssues; hide ListedComments;
    ListingKeepsIssueRows(repo, resource, w);
    ListingKeepsCommentRows(repo.issueComments, resource, w);
    ListingKeepsCommentRows(repo.reviewComments, resource, w);
  }

  lemma ListingKeepsIssueRows(repo: Repository, resource: nat, w: Window)
    requires UpdatesAreLast(repo)
    ensures RowsOfIssues(repo, ListedIssues(repo, w), resource, w) == RowsOfIssues(repo, repo.issues, resource, w)
  {
    forall i | i in repo.issues && i !in ListedIssues(repo, w)
      ensures IssueRows(i, resource, w) + ReviewRows(repo, i, resource, w) == {}
    {
    }
  }

  lemma ListingKeepsCommentRows(comments: seq<RawComment>, resource: nat, w: Window)
    requires forall c | c in comments :: c.createdAt.Some? ==> c.createdAt.value <= c.updatedAt
    ensures RowsOfComments(ListedComments(comments, w), resource, w) == RowsOfComments(comments, resource, w)
  {
    forall c | c in comments && c !in ListedComments(comments, w) ensures CommentRow(c, resource, w) == {} {
    }
  }
}
