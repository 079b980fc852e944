/** The dataset engine's staging of one resource: rows are buffered, uploaded as
    numbered segments, and resumed after a crash from the last heartbeat that
    reached the server. Platform-neutral: any iterator whose cursors are sound
    (`Records.Resumable`) plugs in. */
module DatasetEngine {
  import opened Records
  import opened Wrappers

  const SEGMENT_MAX_ROWS := 5_000

  /** The checkpoint a heartbeat carries. */
  datatype Progress<C> = Progress(segments: nat, cursor: Option<C>, coverage: Option<Coverage>)

  ghost function StagedRows<R(!new)>(segments: map<nat, seq<R>>, n: nat): set<R> {
    set i, r | i in segments && i < n && r in segments[i] :: r
  }

  ghost predicate Uploaded<R>(segments: map<nat, seq<R>>, n: nat) {
    forall i: nat | i < n :: i in segments
  }

  lemma StagedAfterUpload<R(!new)>(segments: map<nat, seq<R>>, n: nat, rows: seq<R>, m: nat)
    requires m <= n
    ensures StagedRows(segments[n := rows], n + 1) == StagedRows(segments, n) + set r | r in rows
    ensures StagedRows(segments[n := rows], m) == StagedRows(segments, m)
  {
    var after := segments[n := rows];
    assert n in after;
    forall r ensures r in StagedRows(after, n + 1) <==> r in StagedRows(segments, n) || r in rows {
      if r in StagedRows(segments, n) {
        var i :| i in segments && i < n && r in segments[i];
        assert i in after && after[i] == segments[i];
      }
      if r in rows {
        assert after[n] == rows;
      }
    }
    forall r ensures r in StagedRows(after, m) <==> r in StagedRows(segments, m) {
      if r in StagedRows(segments, m) {
        var i :| i in segments && i < m && r in segments[i];
        assert i in after && after[i] == segments[i];
      }
    }
  }

  class Staging<C(!new), R(!new)> {
    /** Objects in durable storage, by segment index. */
    var segments: map<nat, seq<R>>
    /** The last checkpoint the server heard; what the next attempt starts from. */
    var checkpoint: Progress<C>

    /** Nothing is lost and nothing invented: what is staged behind the
        checkpoint, plus what its cursor still owes, is everything owed; once the
        crawl is recorded as complete, everything owed is staged; and only rows
        the platform ever had are. */
    ghost predicate Sound(owed: Option<C> -> set<R>, ever: set<R>)
      reads this
    {
      && Uploaded(segments, checkpoint.segments)
      && StagedRows(segments, checkpoint.segments) <= ever
      && (checkpoint.coverage.None? ==>
            owed(None) <= StagedRows(segments, checkpoint.segments) + owed(checkpoint.cursor))
      && (checkpoint.coverage == Some(Complete) ==> owed(None) <= StagedRows(segments, checkpoint.segments))
    }

    constructor (ghost owed: Option<C> -> set<R>, ghost ever: set<R>)
      ensures Sound(owed, ever) && checkpoint == Progress(0, None, None)
    {
      segments := map[];
      checkpoint := Progress(0, None, None);
    }

    /** Uploads what is buffered, if anything, under the next index, and only then moves the cursor. */
    method FlushSegment(progress: Progress<C>, buffered: seq<R>, cursor: Option<C>) returns (flushed: Progress<C>)
      requires Uploaded(segments, progress.segments)
      modifies `segments
      ensures Uploaded(segments, flushed.segments) && progress.segments <= flushed.segments
      ensures flushed.cursor == cursor && flushed.coverage == progress.coverage
      ensures flushed.segments == if buffered == [] then progress.segments else progress.segments + 1
      ensures StagedRows(segments, flushed.segments) == StagedRows(old(segments), progress.segments) + set r | r in buffered
      ensures forall m: nat | m <= progress.segments :: StagedRows(segments, m) == StagedRows(old(segments), m)
      ensures forall i | i in old(segments) :: i in segments
    {
      flushed := progress;
      if buffered != [] {
        forall m: nat | m <= progress.segments
          ensures StagedRows(segments[progress.segments := buffered], m) == StagedRows(segments, m)
        {
          StagedAfterUpload(segments, progress.segments, buffered, m);
        }
        StagedAfterUpload(segments, progress.segments, buffered, progress.segments);
        segments := segments[progress.segments := buffered];
        flushed := flushed.(segments := flushed.segments + 1);
      }
      flushed := flushed.(cursor := cursor);
    }

    /** Takes in one batch: a full buffer goes up with the batch's cursor; with
        nothing pending the cursor may advance without an upload. */
    method Buffer(progress: Progress<C>, pending: seq<R>, b: Batch<C, R>) returns (moved: Progress<C>, buffered: seq<R>)
      requires Uploaded(segments, progress.segments)
      modifies `segments
      ensures var full := |pending| + |b.records| >= 5_000;
        && buffered == (if full then [] else pending + b.records)
        && moved.cursor == (if buffered == [] then Some(b.cursor) else progress.cursor)
        && moved.segments == (if full then progress.segments + 1 else progress.segments)
      ensures moved.coverage == progress.coverage && Uploaded(segments, moved.segments)
      ensures StagedRows(segments, moved.segments) + (set r | r in buffered)
        == StagedRows(old(segments), progress.segments) + (set r | r in pending) + (set r | r in b.records)
      ensures forall m: nat | m <= progress.segments :: StagedRows(segments, m) == StagedRows(old(segments), m)
      ensures forall i | i in old(segments) :: i in segments
    {
      hide StagedRows;
      moved, buffered := progress, pending + b.records;
      assert (set r | r in buffered) == (set r | r in pending) + (set r | r in b.records);
      if |buffered| >= SEGMENT_MAX_ROWS {
        moved := FlushSegment(progress, buffered, Some(b.cursor));
        buffered := [];
        assert (set r | r in buffered) == {};
      } else if buffered == [] {
        moved := moved.(cursor := Some(b.cursor));
      }
    }

    /** One attempt at one resource. The iterator yields `batches` and then ends
        as `ending` says. The attempt dies before the heartbeat of step `dies`
        (a step past the last one: it does not die), and only the heartbeats
        `heard` picks reach the server. */
    method CrawlResource(
        ghost owed: Option<C> -> set<R>, ghost ever: set<R>, batches: seq<Batch<C, R>>, ending: Ending, dies: nat, heard: nat -> bool)
      requires Sound(owed, ever) && checkpoint.coverage.None?
      requires Resumable(owed, checkpoint.cursor, batches)
      requires RowsOf(batches) <= ever
      requires ending == Returned(Complete) ==> owed(checkpoint.cursor) <= RowsOf(batches)
      modifies this
      ensures Sound(owed, ever)
      ensures checkpoint.coverage.Some? ==> ending == Returned(checkpoint.coverage.value)
      ensures ending.Returned? && |batches| < dies && heard(|batches|) ==> checkpoint.coverage == Some(ending.coverage)
      ensures checkpoint.coverage.None? ==> FromBatch(batches, old(checkpoint.cursor), checkpoint.cursor)
      // with every heartbeat heard, a crash costs fewer rows than one segment holds
      ensures (forall i :: heard(i)) && checkpoint.coverage.None? ==>
        BoundedLoss(batches[..if dies < |batches| then dies else |batches|], old(checkpoint.cursor), checkpoint.cursor)
    {
      hide StagedRows; hide Resumable; hide RowsOf; hide BoundedLoss; hide RowCount; hide CursorAfter; hide FromBatch;
      ghost var start := checkpoint.cursor;
      ghost var before := StagedRows(segments, checkpoint.segments);
      var progress := checkpoint;
      var buffered: seq<R> := [];
      ghost var covered: nat := 0;
      RowsOfNone<C, R>();
      NoRowsPending(batches, start, 0);
      for i := 0 to |batches|
        invariant Sound(owed, ever) && checkpoint.coverage.None?
        invariant FromBatch(batches, start, checkpoint.cursor)
        invariant checkpoint.segments <= progress.segments && progress.coverage.None?
        invariant Uploaded(segments, progress.segments)
        invariant StagedRows(segments, progress.segments) + (set r | r in buffered) == before + RowsOf(batches[..i])
        invariant owed(None) <= StagedRows(segments, progress.segments) + owed(progress.cursor)
        invariant covered <= i && progress.cursor == CursorAfter(start, batches[..covered])
        invariant RowCount(batches[covered..i]) == |buffered| < SEGMENT_MAX_ROWS
        invariant (forall k :: heard(k)) ==> checkpoint == progress
        invariant i <= dies
      {
        var b := batches[i];
        BoundedBy(batches, covered, i, start, progress.cursor);
        OneMoreBatch(owed, start, batches, i);
        OneMorePending(batches, covered, i);
        NoRowsPending(batches, start, i + 1);
        progress, buffered := Buffer(progress, buffered, b);
        if buffered == [] {
          covered := i + 1;
          assert (set r | r in buffered) == {};
        }
        if i == dies {
          return;
        }
        if heard(i) {
          NoRowsPending(batches, start, covered);
          checkpoint := progress;
        }
      }
      assert batches[..|batches|] == batches;
      BoundedBy(batches, covered, |batches|, start, progress.cursor);
      if ending.Threw? {
        return;
      }
      Finish(owed, ever, progress, buffered, ending.coverage, |batches| < dies && heard(|batches|));
    }

    /** What is buffered goes up, and the coverage is recorded, if the heartbeat is heard. */
    method Finish(
        ghost owed: Option<C> -> set<R>, ghost ever: set<R>, progress: Progress<C>, buffered: seq<R>, coverage: Coverage, heard: bool)
      requires Sound(owed, ever) && checkpoint.coverage.None?
      requires Uploaded(segments, progress.segments) && checkpoint.segments <= progress.segments
      requires StagedRows(segments, progress.segments) + (set r | r in buffered) <= ever
      requires coverage.Complete? ==> owed(None) <= StagedRows(segments, progress.segments) + set r | r in buffered
      modifies this
      ensures Sound(owed, ever)
      ensures if heard then checkpoint.coverage == Some(coverage) else checkpoint == old(checkpoint)
    {
      hide StagedRows;
      var finished := FlushSegment(progress, buffered, None);
      finished := finished.(coverage := Some(coverage));
      if heard {
        checkpoint := finished;
      }
    }
  }

  ghost function RowCount<C, R>(batches: seq<Batch<C, R>>): nat {
    if batches == [] then 0 else RowCount(batches[..|batches| - 1]) + |batches[|batches| - 1].records|
  }

  /** The cursor is that of one of the batches, or of the start, and the batches
      after it hold fewer rows than a segment. */
  ghost predicate BoundedLoss<C(!new), R(!new)>(batches: seq<Batch<C, R>>, start: Option<C>, cursor: Option<C>) {
    exists k {:trigger batches[k..]} ::
      0 <= k <= |batches| && cursor == CursorAfter(start, batches[..k]) && RowCount(batches[k..]) < 5_000
  }

  lemma BoundedBy<C(!new), R(!new)>(
    batches: seq<Batch<C, R>>, covered: nat, i: nat, start: Option<C>, cursor: Option<C>)
    requires covered <= i <= |batches| && cursor == CursorAfter(start, batches[..covered])
    requires RowCount(batches[covered..i]) < SEGMENT_MAX_ROWS
    ensures BoundedLoss(batches[..i], start, cursor)
  {
    assert batches[..i][..covered] == batches[..covered] && batches[..i][covered..] == batches[covered..i];
  }

  lemma OneMorePending<C, R>(batches: seq<Batch<C, R>>, covered: nat, i: nat)
    requires covered <= i < |batches|
    ensures RowCount(batches[covered..i + 1]) == RowCount(batches[covered..i]) + |batches[i].records|
  {
    assert batches[covered..i + 1][..i - covered] == batches[covered..i];
  }

  lemma NoRowsPending<C(!new), R(!new)>(batches: seq<Batch<C, R>>, start: Option<C>, i: nat)
    requires i <= |batches|
    ensures RowCount(batches[i..i]) == 0
    ensures CursorAfter(start, batches[..i]) == if i == 0 then start else Some(batches[i - 1].cursor)
    ensures FromBatch(batches, start, CursorAfter(start, batches[..i]))
  {
  }

  /** A cursor the attempt started from, or one of those it was handed. */
  ghost predicate FromBatch<C(!new), R(!new)>(batches: seq<Batch<C, R>>, start: Option<C>, cursor: Option<C>) {
    cursor == start || exists b :: b in batches && cursor == Some(b.cursor)
  }

  lemma RowsOfNone<C(!new), R(!new)>()
    ensures RowsOf<C, R>([]) == {}
  {
  }

  lemma RowsOfPrefix<C(!new), R(!new)>(batches: seq<Batch<C, R>>, k: nat)
    requires k <= |batches|
    ensures RowsOf(batches[..k]) <= RowsOf(batches)
  {
  }

  lemma OneMoreBatch<C(!new), R(!new)>(owed: Option<C> -> set<R>, start: Option<C>, batches: seq<Batch<C, R>>, i: nat)
    requires Resumable(owed, start, batches) && i < |batches|
    ensures RowsOf(batches[..i + 1]) == RowsOf(batches[..i]) + (set r | r in batches[i].records)
    ensures RowsOf(batches[..i + 1]) <= RowsOf(batches)
    ensures owed(start) <= RowsOf(batches[..i + 1]) + owed(Some(batches[i].cursor))
  {
    assert batches[..i + 1] == batches[..i] + [batches[i]];
    RowsOfAppend(batches[..i], [batches[i]]);
    RowsOfOne(batches[i]);
    RowsOfPrefix(batches, i + 1);
    OwedAtPrefix(owed, start, batches, i + 1);
  }

  lemma OwedAtPrefix<C(!new), R(!new)>(owed: Option<C> -> set<R>, start: Option<C>, batches: seq<Batch<C, R>>, k: nat)
    requires Resumable(owed, start, batches) && k <= |batches|
    ensures owed(start) <= RowsOf(batches[..k]) + owed(CursorAfter(start, batches[..k]))
  {
  }
}
