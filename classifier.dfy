/** The live classification in `_read_output`: every line of a chunk of
    gallery-dl's output is either an error line, a line naming a media file
    (counted once per batch as downloaded or skipped), or ignored. */
module Classifier {
  import opened Wrappers
  import opened PyText
  import opened MediaPath

  /** The counters of `_totals`. */
  datatype Totals = Totals(downloaded: nat, skipped: nat, failed: nat)

  /** The outcome of `os.stat(path)`: a modification time (milliseconds),
      `FileNotFoundError`, or any other exception. */
  datatype StatResult = Found(mtime: int) | NotFound | StatError

  /** The 0.5 s grace after the batch start, in milliseconds. */
  const GraceMs: int := 500

  /** What the classifier keeps between lines: the totals, the paths seen in
      the current batch (`_seen_paths`) and the error lines counted in it
      (`_error_lines`). */
  datatype Live = Live(totals: Totals, seen: set<string>, errorLines: nat)

  /** The stripped, lower-cased line holds one of the four error keywords. */
  predicate IsErrorLine(line: string) {
    var low := AsciiLower(line);
    Contains(low, "error:") || Contains(low, "http error")
    || Contains(low, "forbidden") || Contains(low, "not found")
  }

  /** A path not seen before counts as skipped: the file is older than the
      batch start plus the grace, or stat failed other than by not finding
      it.  Otherwise it counts as downloaded. */
  predicate CountsAsSkipped(r: StatResult, startedAt: int) {
    match r
    case Found(mtime) => mtime < startedAt + GraceMs
    case NotFound => false
    case StatError => true
  }

  /** The path a non-error line contributes, if any. */
  function PathOf(line: string): (r: Option<string>)
    ensures r.Some? ==> !IsErrorLine(line) && FindMediaPath(line) == r
    ensures r.None? ==> IsErrorLine(line) || FindMediaPath(line).None?
  {
    if IsErrorLine(line) then None else FindMediaPath(line)
  }

  /** One iteration of the loop over `data.splitlines()`. */
  function StepLine(st: Live, raw: string, startedAt: int, stat: string -> StatResult): Live
  {
    var line := Strip(raw);
    if IsErrorLine(line) then
      Live(st.totals.(failed := st.totals.failed + 1), st.seen, st.errorLines + 1)
    else
      match FindMediaPath(line)
      case None => st
      case Some(path) =>
        if path in st.seen then st
        else if CountsAsSkipped(stat(path), startedAt) then
          Live(st.totals.(skipped := st.totals.skipped + 1), st.seen + {path}, st.errorLines)
        else
          Live(st.totals.(downloaded := st.totals.downloaded + 1), st.seen + {path}, st.errorLines)
  }

  /** The state after the lines `lines`, in order. */
  function StepLines(st: Live, lines: seq<string>, startedAt: int, stat: string -> StatResult): Live
  {
    if lines == [] then st
    else StepLine(StepLines(st, lines[..|lines| - 1], startedAt, stat), lines[|lines| - 1], startedAt, stat)
  }

  /** Classifying one more line of a list. */
  lemma StepLinesSnoc(st: Live, lines: seq<string>, i: nat, startedAt: int, stat: string -> StatResult)
    requires i < |lines|
    ensures StepLines(st, lines[..i + 1], startedAt, stat)
            == StepLine(StepLines(st, lines[..i], startedAt, stat), lines[i], startedAt, stat)
  {
    assert lines[..i + 1][..i] == lines[..i];
  }

  /** Number of error lines among `lines`. */
  function ErrorCount(lines: seq<string>): (n: nat)
    ensures n <= |lines|
  {
    if lines == [] then 0
    else ErrorCount(lines[..|lines| - 1]) + if IsErrorLine(Strip(lines[|lines| - 1])) then 1 else 0
  }

  // ---------- One line ----------

  /** An error line adds exactly one failure and one error line and leaves
      the other counters and the seen paths alone, even when it also names a
      media file. */
  lemma ErrorLineTakesPriority(st: Live, raw: string, startedAt: int, stat: string -> StatResult)
    requires IsErrorLine(Strip(raw))
    ensures StepLine(st, raw, startedAt, stat).totals.failed == st.totals.failed + 1
    ensures StepLine(st, raw, startedAt, stat).errorLines == st.errorLines + 1
    ensures StepLine(st, raw, startedAt, stat).totals.downloaded == st.totals.downloaded
    ensures StepLine(st, raw, startedAt, stat).totals.skipped == st.totals.skipped
    ensures StepLine(st, raw, startedAt, stat).seen == st.seen
  {
  }

  /** A line that is no error and names no media file, or names one already
      seen in this batch, changes nothing. */
  lemma QuietLineIsNoOp(st: Live, raw: string, startedAt: int, stat: string -> StatResult)
    requires PathOf(Strip(raw)).None? || PathOf(Strip(raw)).value in st.seen
    requires !IsErrorLine(Strip(raw))
    ensures StepLine(st, raw, startedAt, stat) == st
  {
  }

  /** A new path joins the seen set and adds exactly one to `downloaded` or
      to `skipped`: to `skipped` exactly when its stat says so. */
  lemma NewPathCountsOnce(st: Live, raw: string, startedAt: int, stat: string -> StatResult, path: string)
    requires PathOf(Strip(raw)) == Some(path) && path !in st.seen
    ensures StepLine(st, raw, startedAt, stat).seen == st.seen + {path}
    ensures StepLine(st, raw, startedAt, stat).totals.failed == st.totals.failed
    ensures StepLine(st, raw, startedAt, stat).errorLines == st.errorLines
    ensures StepLine(st, raw, startedAt, stat).totals.downloaded + StepLine(st, raw, startedAt, stat).totals.skipped
            == st.totals.downloaded + st.totals.skipped + 1
    ensures StepLine(st, raw, startedAt, stat).totals.skipped == st.totals.skipped + 1
            <==> CountsAsSkipped(stat(path), startedAt)
  {
  }

  /** The verdict on a new path: a file older than the batch start plus the
      grace was skipped, a newer one or a missing one was downloaded, and
      any other stat failure counts as skipped. */
  lemma StatVerdicts(startedAt: int, mtime: int)
    ensures CountsAsSkipped(Found(mtime), startedAt) <==> mtime < startedAt + GraceMs
    ensures !CountsAsSkipped(NotFound, startedAt)
    ensures CountsAsSkipped(StatError, startedAt)
  {
  }

  // ---------- A chunk of lines ----------

  /** Accounting for one line, in the form the chunk lemma chains. */
  lemma StepLineAccounting(st: Live, raw: string, startedAt: int, stat: string -> StatResult)
    ensures st.seen <= StepLine(st, raw, startedAt, stat).seen
    ensures StepLine(st, raw, startedAt, stat).totals.failed
            == st.totals.failed + if IsErrorLine(Strip(raw)) then 1 else 0
    ensures StepLine(st, raw, startedAt, stat).errorLines
            == st.errorLines + if IsErrorLine(Strip(raw)) then 1 else 0
    ensures StepLine(st, raw, startedAt, stat).totals.downloaded + StepLine(st, raw, startedAt, stat).totals.skipped
            == st.totals.downloaded + st.totals.skipped + |StepLine(st, raw, startedAt, stat).seen - st.seen|
  {
    var st' := StepLine(st, raw, startedAt, stat);
    if st'.seen != st.seen {
      var path := PathOf(Strip(raw)).value;
      assert st'.seen - st.seen == {path};
    } else {
      assert st'.seen - st.seen == {};
    }
  }

  /** Cardinalities of differences add up along a chain of subsets. */
  lemma DiffChain(a: set<string>, b: set<string>, c: set<string>)
    requires a <= b <= c
    ensures |c - a| == |b - a| + |c - b|
  {
    assert c - a == (b - a) + (c - b);
    assert (b - a) !! (c - b);
  }

  /** Accounting over a sequence of lines: the seen set only grows,
      `failed` and the per-batch error count grow by the number of error
      lines, and `downloaded + skipped` grows by the number of distinct new
      paths. */
  lemma {:induction false} StepLinesAccounting(st: Live, lines: seq<string>, startedAt: int, stat: string -> StatResult)
    ensures st.seen <= StepLines(st, lines, startedAt, stat).seen
    ensures StepLines(st, lines, startedAt, stat).totals.failed == st.totals.failed + ErrorCount(lines)
    ensures StepLines(st, lines, startedAt, stat).errorLines == st.errorLines + ErrorCount(lines)
    ensures StepLines(st, lines, startedAt, stat).totals.downloaded + StepLines(st, lines, startedAt, stat).totals.skipped
            == st.totals.downloaded + st.totals.skipped + |StepLines(st, lines, startedAt, stat).seen - st.seen|
  {
    if lines != [] {
      var init := lines[..|lines| - 1];
      var raw := lines[|lines| - 1];
      StepLinesAccounting(st, init, startedAt, stat);
      var mid := StepLines(st, init, startedAt, stat);
      StepLineAccounting(mid, raw, startedAt, stat);
      var last := StepLine(mid, raw, startedAt, stat);
      assert StepLines(st, lines, startedAt, stat) == last;
      assert ErrorCount(lines) == ErrorCount(init) + if IsErrorLine(Strip(raw)) then 1 else 0;
      DiffChain(st.seen, mid.seen, last.seen);
    }
  }

  /** The bookkeeping relation the runner keeps: no more error lines than
      failures and no more seen paths than counted files. */
  predicate Consistent(st: Live) {
    st.errorLines <= st.totals.failed
    && |st.seen| <= st.totals.downloaded + st.totals.skipped
  }

  /** Classifying lines keeps the bookkeeping relation. */
  lemma StepLinesConsistent(st: Live, lines: seq<string>, startedAt: int, stat: string -> StatResult)
    requires Consistent(st)
    ensures Consistent(StepLines(st, lines, startedAt, stat))
  {
    StepLinesAccounting(st, lines, startedAt, stat);
    var st' := StepLines(st, lines, startedAt, stat);
    assert st'.seen == st.seen + (st'.seen - st.seen);
  }

  /** After a line, its path (if it contributes one) is in the seen set, and
      nothing left it. */
  lemma StepLineRecordsPath(st: Live, raw: string, startedAt: int, stat: string -> StatResult)
    ensures st.seen <= StepLine(st, raw, startedAt, stat).seen
    ensures PathOf(Strip(raw)).Some? ==> PathOf(Strip(raw)).value in StepLine(st, raw, startedAt, stat).seen
  {
  }

  /** Every media path of an error-free line is in the seen set once its
      line has been classified. */
  lemma {:induction false} StepLinesRecordsPaths(st: Live, lines: seq<string>, startedAt: int, stat: string -> StatResult)
    ensures forall k :: 0 <= k < |lines| && PathOf(Strip(lines[k])).Some? ==>
              PathOf(Strip(lines[k])).value in StepLines(st, lines, startedAt, stat).seen
  {
    if lines != [] {
      var n := |lines| - 1;
      var init := lines[..n];
      StepLinesRecordsPaths(st, init, startedAt, stat);
      var mid := StepLines(st, init, startedAt, stat);
      StepLineRecordsPath(mid, lines[n], startedAt, stat);
      var last := StepLines(st, lines, startedAt, stat);
      assert last == StepLine(mid, lines[n], startedAt, stat);
      forall k | 0 <= k < |lines| && PathOf(Strip(lines[k])).Some?
        ensures PathOf(Strip(lines[k])).value in last.seen
      {
        if k < n {
          assert lines[k] == init[k];
          assert PathOf(Strip(lines[k])).value in mid.seen;
        } else {
          assert k == n;
        }
      }
    }
  }

  /** Lines whose paths are all seen and that hold no error change nothing. */
  lemma {:induction false} SeenLinesAreNoOp(st: Live, lines: seq<string>, startedAt: int, stat: string -> StatResult)
    requires forall k :: 0 <= k < |lines| ==> !IsErrorLine(Strip(lines[k]))
    requires forall k :: 0 <= k < |lines| && PathOf(Strip(lines[k])).Some? ==> PathOf(Strip(lines[k])).value in st.seen
    ensures StepLines(st, lines, startedAt, stat) == st
  {
    if lines != [] {
      var init := lines[..|lines| - 1];
      forall k | 0 <= k < |init| ensures init[k] == lines[k] {}
      SeenLinesAreNoOp(st, init, startedAt, stat);
      QuietLineIsNoOp(st, lines[|lines| - 1], startedAt, stat);
    }
  }

  /** Within a batch, output repeated without error lines is counted once:
      classifying the same error-free chunk again changes nothing. */
  lemma ReplayIsNoOp(st: Live, lines: seq<string>, startedAt: int, stat: string -> StatResult)
    requires forall k :: 0 <= k < |lines| ==> !IsErrorLine(Strip(lines[k]))
    ensures StepLines(StepLines(st, lines, startedAt, stat), lines, startedAt, stat)
            == StepLines(st, lines, startedAt, stat)
  {
    StepLinesRecordsPaths(st, lines, startedAt, stat);
    SeenLinesAreNoOp(StepLines(st, lines, startedAt, stat), lines, startedAt, stat);
  }
}
