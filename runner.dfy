/** The run state machine of the main window: `start_run` queues the URLs
    and plans the batches, `_run_next_batch` launches gallery-dl on one batch
    at a time, `_read_output` classifies what the process prints,
    `_finished_batch` accounts for a finished batch and moves on, and
    `stop_run` ends the run.

    The process is modelled by three flags: `hasProc` (the `proc` attribute
    is not `None`), `procRunning` (its state is not `NotRunning`) and
    `killed` (`stop_run` has sent it `terminate` and `kill`; Qt goes on
    reporting it running until its finished signal is handled), and by the
    arguments it was started with.  Its signals become the methods `OnData`
    and `OnFinished`; the clock, the output chunk and `os.stat` are
    parameters. */
module Runner {
  import opened Wrappers
  import opened PyText
  import opened Urls
  import opened Batches
  import opened Classifier
  import opened CommonArgs
  import opened MediaPath

  /** The end index of the Python slice `xs[:n]` on a list of length `len`:
      a negative `n` counts from the end, and the index is clamped. */
  function SliceEnd(n: int, len: nat): (e: nat)
    ensures e <= len
  {
    if n < 0 then (if len + n < 0 then 0 else len + n)
    else if n > len then len
    else n
  }

  /** `sum(len(b) for b in bs)`. */
  function SumLens(bs: seq<seq<string>>): nat {
    if bs == [] then 0 else SumLens(bs[..|bs| - 1]) + |bs[|bs| - 1]|
  }

  /** `sum(len(b) for b in batches[:n])`: the URLs of the first `n` batches. */
  function DoneUrls(bs: seq<seq<string>>, n: int): nat {
    SumLens(bs[..SliceEnd(n, |bs|)])
  }

  /** Counting the URLs of the batches is measuring their concatenation. */
  lemma {:induction false} SumLensFlatten(bs: seq<seq<string>>)
    ensures SumLens(bs) == |Flatten(bs)|
  {
    if bs != [] {
      SumLensFlatten(bs[..|bs| - 1]);
    }
  }

  /** A prefix of the batches holds no more URLs than all of them. */
  lemma {:induction false} SumLensPrefix(bs: seq<seq<string>>, k: nat)
    requires k <= |bs|
    ensures SumLens(bs[..k]) <= SumLens(bs)
    decreases |bs|
  {
    if k < |bs| {
      var init := bs[..|bs| - 1];
      assert init[..k] == bs[..k];
      SumLensPrefix(init, k);
    } else {
      assert bs[..k] == bs;
    }
  }

  /** No batch is finished before the first. */
  lemma DoneUrlsNone(bs: seq<seq<string>>)
    ensures DoneUrls(bs, 0) == 0
  {
    assert bs[..0] == [];
  }

  /** The count of done URLs never exceeds the URLs of all batches. */
  lemma DoneUrlsBound(bs: seq<seq<string>>, n: int)
    ensures DoneUrls(bs, n) <= SumLens(bs)
  {
    SumLensPrefix(bs, SliceEnd(n, |bs|));
  }

  /** Past the last batch, every URL is done. */
  lemma DoneUrlsAll(bs: seq<seq<string>>, n: int)
    requires n >= |bs|
    ensures DoneUrls(bs, n) == SumLens(bs)
  {
    assert bs[..|bs|] == bs;
  }

  /** Finishing batch `n` adds its URLs to the count. */
  lemma DoneUrlsStep(bs: seq<seq<string>>, n: int)
    requires 0 <= n < |bs|
    ensures DoneUrls(bs, n + 1) == DoneUrls(bs, n) + |bs[n]|
  {
    assert bs[..n + 1][..n] == bs[..n];
  }

  /** A run of at least one URL has at least one batch, and its batches
      hold exactly as many URLs as the queue. */
  lemma PlanCounts(urls: seq<string>, baseLen: int)
    requires urls != []
    ensures 0 < |Plan(urls, baseLen, MaxCmdLen)|
    ensures SumLens(Plan(urls, baseLen, MaxCmdLen)) == |urls|
  {
    PlanConcat(urls, baseLen, MaxCmdLen);
    PlanShape(urls, baseLen, MaxCmdLen);
    SumLensFlatten(Plan(urls, baseLen, MaxCmdLen));
  }

  /** The length of the joined common arguments, `len(" ".join(args))`. */
  function BaseLen(s: Settings, downloadsDir: string): nat {
    |Join(CommonArgs.CommonArgs(s, downloadsDir), " ")|
  }

  /** The planning step of `start_run()`: the batches of the queue, against
      the length of the common arguments built from the settings. */
  method PlanRun(urls: seq<string>, s: Settings, downloadsDir: string) returns (planned: seq<seq<string>>)
    requires urls != []
    ensures planned == Plan(urls, BaseLen(s, downloadsDir), MaxCmdLen)
    ensures 0 < |planned| && SumLens(planned) == |urls|
  {
    var baseLen := BaseLen(s, downloadsDir);
    planned := BuildBatches(urls, baseLen, MaxCmdLen);
    PlanCounts(urls, baseLen);
  }

  /** How `start_run` ends. */
  datatype Outcome =
    | BinaryMissing
    | NoUrls(skipped: nat)
    | AlreadyRunning
    | Started(skipped: nat, duplicates: nat)

  class Navillera {
    /** `user_downloads_dir() / "gallery-dl"`, the output directory used when
        the field is blank. */
    const downloadsDir: string
    /** The values of the settings widgets. */
    var settings: Settings
    var queue: seq<string>
    var batches: seq<seq<string>>
    var batchIndex: int
    /** The totals, the paths seen in the current batch and the error lines
        counted in it. */
    var live: Live
    /** `time.time()` at the launch of the current batch, in milliseconds. */
    var batchStartedAt: int
    var batchUrls: seq<string>
    var hasProc: bool
    var procRunning: bool
    var killed: bool
    /** The settings the arguments of the current process were built from:
        it was started with `CommonArgs(procSettings, downloadsDir)`
        followed by `batchUrls`. */
    var procSettings: Settings
    /** The last (done, total) pair shown by `_update_summary_labels`. */
    var progress: (nat, nat)
    var runEnabled: bool
    var stopEnabled: bool

    /** What holds between events:
        - the batches hold as many URLs as the queue;
        - a running process either runs the current batch, with the Stop
          button enabled, or has been killed by a stop, which emptied the
          batch list and disabled Stop;
        - while there is a process the label shows the batches before the
          current one, out of the queue length;
        - a process is reported running until its finished signal is
          handled, which also drops it;
        - with no process no batch is left to launch;
        - Run and Stop are enabled alternately;
        - the classifier's bookkeeping relation holds. */
    predicate Valid()
      reads this
    {
      RunValid() && Consistent(live)
    }

    /** The part of `Valid()` about the run, apart from the classifier. */
    predicate RunValid()
      reads this`batchIndex, this`batches, this`queue, this`procRunning, this`hasProc,
            this`killed, this`stopEnabled, this`runEnabled, this`batchUrls, this`progress
    {
      batchIndex >= -1
      && SumLens(batches) == |queue|
      && (procRunning ==> hasProc)
      && (procRunning && !killed ==> stopEnabled && 0 <= batchIndex < |batches|
                                     && batchUrls == batches[batchIndex])
      && (killed ==> procRunning && batches == [] && !stopEnabled)
      && (hasProc ==> 0 <= batchIndex && progress == (DoneUrls(batches, batchIndex), |queue|))
      && (hasProc ==> procRunning)
      && (!hasProc ==> batchIndex + 1 >= |batches|)
      && progress.0 <= progress.1
      && stopEnabled == !runEnabled
    }

    /** What `_run_next_batch` needs: no process is running, the label shows
        the batches before the next one, and a stale process can only be
        there when a batch is about to be launched. */
    predicate ReadyForNext()
      reads this
    {
      batchIndex >= -1
      && SumLens(batches) == |queue|
      && !procRunning && !killed
      && (hasProc ==> batchIndex + 1 < |batches|)
      && (batchIndex + 1 < |batches| ==> stopEnabled)
      && progress == (DoneUrls(batches, batchIndex + 1), |queue|)
      && stopEnabled == !runEnabled
      && Consistent(live)
    }

    /** The state `__init__` sets up, with the widget values given. */
    constructor (initial: Settings, downloads: string)
      ensures Valid()
      ensures downloadsDir == downloads && settings == initial
      ensures queue == [] && batches == [] && batchIndex == -1 && batchUrls == []
      ensures live == Live(Totals(0, 0, 0), {}, 0) && batchStartedAt == 0
      ensures !hasProc && !procRunning && !killed && procSettings == initial
      ensures progress == (0, 0) && runEnabled && !stopEnabled
    {
      downloadsDir := downloads;
      settings := initial;
      queue := [];
      batches := [];
      batchIndex := -1;
      live := Live(Totals(0, 0, 0), {}, 0);
      batchStartedAt := 0;
      batchUrls := [];
      hasProc := false;
      procRunning := false;
      killed := false;
      procSettings := initial;
      progress := (0, 0);
      runEnabled := true;
      stopEnabled := false;
    }

    /** `start_run()`, with the text of the URL box, whether the binary is
        present and the current time.  It refuses to start without the
        binary, without URLs, or while a process runs, changing nothing;
        otherwise it queues the de-duplicated URLs, resets the totals, plans
        the batches against the length of the common arguments and launches
        the first batch. */
    method StartRun(text: string, binPresent: bool, now: int) returns (outcome: Outcome)
      requires Valid()
      modifies this
      ensures Valid()
      ensures !binPresent ==> outcome == BinaryMissing && unchanged(this)
      ensures binPresent && Accepted(StrippedLines(text), IsHttpUrl) == [] ==>
                outcome == NoUrls(Rejected(StrippedLines(text), IsHttpUrl)) && unchanged(this)
      ensures binPresent && Accepted(StrippedLines(text), IsHttpUrl) != [] && old(procRunning) ==>
                outcome == AlreadyRunning && unchanged(this)
      ensures binPresent && Accepted(StrippedLines(text), IsHttpUrl) != [] && !old(procRunning) ==>
                outcome.Started? && outcome.skipped == Rejected(StrippedLines(text), IsHttpUrl)
                && queue == Unique(Accepted(StrippedLines(text), IsHttpUrl))
                && outcome.duplicates + |queue| == |Accepted(StrippedLines(text), IsHttpUrl)|
                && settings == Repaired(old(settings))
                && batches == Plan(queue, BaseLen(old(settings), downloadsDir), MaxCmdLen)
                && live == Live(Totals(0, 0, 0), {}, 0)
                && batchIndex == 0 && 0 < |batches| && batchUrls == batches[0] && batchStartedAt == now
                && hasProc && procRunning
                && procSettings == Repaired(old(settings))
                && progress == (0, |queue|) && !runEnabled && stopEnabled
    {
      if !binPresent {
        return BinaryMissing;
      }
      var urlsRaw, skipped := CleanUrls(text);
      if urlsRaw == [] {
        return NoUrls(skipped);
      }
      var urls := Dedup(urlsRaw);
      UniqueShorter(urlsRaw);
      if hasProc && procRunning {
        return AlreadyRunning;
      }
      var planned := PlanRun(urls, settings, downloadsDir);
      QueueRun(urls, planned);
      RunNextBatch(now);
      outcome := Started(skipped, |urlsRaw| - |urls|);
    }

    /** The middle of `start_run()` once it is clear a run starts: the
        de-duplicated URLs become the queue, the totals and the per-batch
        state are reset, Run is disabled and Stop enabled, the settings take
        the user-agent repair of the call that measured the common
        arguments, the planned batches are stored, and the label shows 0 out
        of the queue length. */
    method QueueRun(urls: seq<string>, planned: seq<seq<string>>)
      requires !procRunning && !killed && 0 < |planned| && SumLens(planned) == |urls|
      modifies this`queue, this`live, this`runEnabled, this`stopEnabled, this`settings,
               this`batches, this`batchIndex, this`progress
      ensures ReadyForNext()
      ensures queue == urls && live == Live(Totals(0, 0, 0), {}, 0)
      ensures !runEnabled && stopEnabled
      ensures settings == Repaired(old(settings))
      ensures batches == planned && batchIndex == -1 && progress == (0, |urls|)
    {
      DoneUrlsNone(planned);
      queue := urls;
      live := Live(Totals(0, 0, 0), {}, 0);
      runEnabled := false;
      stopEnabled := true;
      settings := Repaired(settings);
      batches := planned;
      batchIndex := -1;
      progress := (0, |urls|);
    }

    /** `_run_next_batch()`.  Past the last batch it announces the end and
        re-enables Run; otherwise it takes the next batch, records the start
        time, resets the per-batch classifier state and launches the process
        on the common arguments followed by the batch. */
    method RunNextBatch(now: int)
      requires ReadyForNext()
      modifies this`batchIndex, this`runEnabled, this`stopEnabled, this`progress, this`batchUrls,
               this`batchStartedAt, this`live, this`settings, this`procSettings, this`hasProc,
               this`procRunning
      ensures Valid()
      ensures batchIndex == old(batchIndex) + 1
      ensures batchIndex >= |batches| ==>
                !hasProc && !procRunning && runEnabled && !stopEnabled
                && progress == (|queue|, |queue|)
                && unchanged(this`live, this`settings, this`batchUrls,
                             this`batchStartedAt, this`procSettings)
      ensures batchIndex < |batches| ==>
                batchUrls == batches[batchIndex] && batchStartedAt == now
                && live == old(live).(seen := {}, errorLines := 0)
                && settings == Repaired(old(settings)) && procSettings == old(settings)
                && hasProc && procRunning
                && unchanged(this`progress, this`runEnabled, this`stopEnabled)
    {
      if batchIndex + 1 >= |batches| {
        FinishRun();
      } else {
        batchIndex := batchIndex + 1;
        DoneUrlsBound(batches, batchIndex);
        LaunchBatch(now);
      }
    }

    /** `_run_next_batch()` once the batches are used up: the run is over,
        and the label shows every URL done. */
    method FinishRun()
      requires ReadyForNext() && batchIndex + 1 >= |batches|
      modifies this`batchIndex, this`runEnabled, this`stopEnabled, this`progress
      ensures Valid()
      ensures batchIndex == old(batchIndex) + 1
      ensures !hasProc && runEnabled && !stopEnabled && progress == (|queue|, |queue|)
    {
      batchIndex := batchIndex + 1;
      DoneUrlsAll(batches, batchIndex);
      runEnabled := true;
      stopEnabled := false;
      progress := (|queue|, |queue|);
    }

    /** The launch of batch `batchIndex` in `_run_next_batch()`: the batch
        and its start time are recorded, the per-batch classifier state is
        reset and the process is started on the common arguments followed by
        the batch. */
    method LaunchBatch(now: int)
      requires 0 <= batchIndex < |batches|
      modifies this`batchUrls, this`batchStartedAt, this`live, this`settings, this`procSettings,
               this`hasProc, this`procRunning
      ensures batchUrls == batches[batchIndex] && batchStartedAt == now
      ensures live == old(live).(seen := {}, errorLines := 0)
      ensures settings == Repaired(old(settings)) && procSettings == old(settings)
      ensures hasProc && procRunning
    {
      batchUrls := batches[batchIndex];
      batchStartedAt := now;
      live := live.(seen := {}, errorLines := 0);
      procSettings := settings;
      settings := Repaired(settings);
      hasProc := true;
      procRunning := true;
    }

    /** `_read_output()` on one chunk of output, with `stat` standing for
        `os.stat` during the chunk.  Without a process or with an empty
        chunk nothing happens; otherwise every line of the chunk is
        classified in order.  The label the loop refreshes after each
        counted line already shows the URLs of the batches before the
        current one, so only the classifier's state changes. */
    method OnData(data: string, stat: string -> StatResult)
      requires Valid()
      modifies this`live
      ensures Valid()
      ensures old(hasProc) && data != [] ==>
                live == StepLines(old(live), SplitLines(data), batchStartedAt, stat)
      ensures !(old(hasProc) && data != []) ==> live == old(live)
      ensures hasProc ==> progress == (DoneUrls(batches, batchIndex), |queue|)
    {
      if !hasProc {
        return;
      }
      if data == [] {
        return;
      }
      var lines := SplitLines(data);
      var i := 0;
      while i < |lines|
        invariant i <= |lines|
        invariant live == StepLines(old(live), lines[..i], batchStartedAt, stat)
      {
        StepLinesSnoc(old(live), lines, i, batchStartedAt, stat);
        ClassifyLine(lines[i], stat);
        i := i + 1;
      }
      assert lines[..i] == lines;
      StepLinesConsistent(old(live), lines, batchStartedAt, stat);
    }

    /** One iteration of the loop of `_read_output()`: an error line counts
        a failure; otherwise a media path not seen in this batch is recorded
        and counted as skipped or downloaded by its modification time. */
    method ClassifyLine(raw: string, stat: string -> StatResult)
      modifies this`live
      ensures live == StepLine(old(live), raw, batchStartedAt, stat)
    {
      var line := Strip(raw);
      if IsErrorLine(line) {
        live := live.(errorLines := live.errorLines + 1,
                      totals := live.totals.(failed := live.totals.failed + 1));
        return;
      }
      var m := FindMediaPath(line);
      if m.None? || m.value in live.seen {
        return;
      }
      var path := m.value;
      live := live.(seen := live.seen + {path});
      if CountsAsSkipped(stat(path), batchStartedAt) {
        live := live.(totals := live.totals.(skipped := live.totals.skipped + 1));
      } else {
        live := live.(totals := live.totals.(downloaded := live.totals.downloaded + 1));
      }
    }

    /** `_finished_batch()` with the exit code of the process.  A non-zero
        code counts one failure; the label moves on to include the finished
        batch, the per-batch state is reset and the next batch, if any, is
        launched. */
    method OnFinished(exitCode: int, now: int)
      requires Valid()
      modifies this`live, this`batchIndex, this`runEnabled, this`stopEnabled, this`progress,
               this`batchUrls, this`batchStartedAt, this`settings, this`procSettings, this`hasProc,
               this`procRunning, this`killed
      ensures Valid()
      ensures !killed
      ensures live.totals == old(live.totals).(failed := old(live.totals.failed) + if old(hasProc) && exitCode != 0 then 1 else 0)
      ensures live.seen == {} && live.errorLines == 0
      ensures batchIndex == old(batchIndex) + 1
      ensures batchIndex < |batches| ==>
                hasProc && procRunning && batchUrls == batches[batchIndex] && batchStartedAt == now
                && progress == (DoneUrls(batches, batchIndex), |queue|)
                && procSettings == old(settings) && settings == Repaired(old(settings))
      ensures batchIndex >= |batches| ==>
                !hasProc && !procRunning
                && progress == (|queue|, |queue|) && runEnabled && !stopEnabled
    {
      EndBatch(exitCode);
      RunNextBatch(now);
    }

    /** The accounting of `_finished_batch()` before it moves on: the exit
        code of the process (0 without one) counts a failure when it is not
        zero, the label shows the batches up to the finished one, the process
        is dropped and the per-batch classifier state is reset. */
    method EndBatch(exitCode: int)
      requires Valid()
      modifies this`live, this`progress, this`hasProc, this`procRunning, this`killed
      ensures ReadyForNext()
      ensures live == Live(old(live.totals).(failed := old(live.totals.failed) + if old(hasProc) && exitCode != 0 then 1 else 0), {}, 0)
      ensures progress == (DoneUrls(batches, batchIndex + 1), |queue|)
      ensures !hasProc && !procRunning && !killed
    {
      var code := if hasProc then exitCode else 0;
      var failed := if code != 0 then live.totals.failed + 1 else live.totals.failed;
      progress := (DoneUrls(batches, batchIndex + 1), |queue|);
      hasProc, procRunning, killed := false, false, false;
      live := Live(live.totals.(failed := failed), {}, 0);
    }

    /** `stop_run()` as it is meant to behave: a running process is sent
        `terminate` and `kill`, and its finished signal is handled only after
        the call; the queue and the batch list are emptied, Run is re-enabled
        and the label reset.  The process stays the `proc` attribute, and Qt
        reports it running until that signal, so `start_run` still refuses
        in between.  The totals stay as they are.  `StopAsWritten` is the
        call as Qt runs it. */
    method Stop()
      requires Valid()
      modifies this`killed, this`queue, this`batches, this`runEnabled, this`stopEnabled, this`progress
      ensures Valid()
      ensures queue == [] && batches == []
      ensures progress == (0, 0) && runEnabled && !stopEnabled
      ensures killed <==> procRunning
    {
      if hasProc && procRunning {
        killed := true;
      }
      queue := [];
      batches := [];
      runEnabled := true;
      stopEnabled := false;
      progress := (0, 0);
    }

    /** `stop_run()` as written.  `waitForFinished(1500)` delivers the
        finished signal before it returns when the terminated process exits
        in time (`exitsInTime`), so `_finished_batch` runs while the batch
        list is still there: it counts the exit code and launches the next
        batch, if any.  The lists are emptied only afterwards, and a process
        nobody stopped is left running with no batch list behind it, which
        breaks `RunValid()`.  When the process outlives the wait it is
        killed, and the call is `Stop()`. */
    method StopAsWritten(exitsInTime: bool, exitCode: int, now: int)
      requires Valid()
      modifies this`live, this`batchIndex, this`runEnabled, this`stopEnabled, this`progress,
               this`batchUrls, this`batchStartedAt, this`settings, this`procSettings, this`hasProc,
               this`procRunning, this`killed, this`queue, this`batches
      ensures queue == [] && batches == [] && progress == (0, 0) && runEnabled && !stopEnabled
      ensures procRunning <==>
                old(procRunning) && (!exitsInTime || old(batchIndex) + 1 < |old(batches)|)
      ensures old(procRunning) && !exitsInTime ==> killed && Valid()
      ensures old(procRunning) && exitsInTime && old(batchIndex) + 1 < |old(batches)| ==>
                procRunning && !killed && batchUrls == old(batches)[old(batchIndex) + 1] && !RunValid()
      ensures !(old(procRunning) && exitsInTime && old(batchIndex) + 1 < |old(batches)|) ==> Valid()
      ensures old(procRunning) && exitsInTime ==>
                live.totals == old(live.totals).(failed := old(live.totals.failed) + if exitCode != 0 then 1 else 0)
      ensures !(old(procRunning) && exitsInTime) ==> live == old(live)
    {
      if hasProc && procRunning {
        if exitsInTime {
          OnFinished(exitCode, now);
        } else {
          killed := true;
        }
      }
      queue := [];
      batches := [];
      runEnabled := true;
      stopEnabled := false;
      progress := (0, 0);
    }
  }

  /** A stop during the first of two batches, with a process that exits
      within the 1.5 s wait, leaves the second batch running after
      `stop_run()` returns, with the queue and the batch list empty. */
  method StopLeavesNextBatchRunning(w: Navillera, exitCode: int, now: int)
    requires w.Valid() && w.procRunning && w.batchIndex == 0 && |w.batches| == 2
    modifies w
    ensures w.procRunning && !w.killed && w.batchUrls == old(w.batches)[1]
    ensures w.queue == [] && w.batches == [] && !w.stopEnabled
  {
    w.StopAsWritten(true, exitCode, now);
  }

  /** Between a stop and the finished signal of the killed process, a
      `start_run()` with URLs is refused: Qt still reports the process
      running, and nothing of the stopped run is left. */
  method StopThenStart(w: Navillera, text: string, now: int) returns (outcome: Outcome)
    requires w.Valid() && w.procRunning
    requires Accepted(StrippedLines(text), IsHttpUrl) != []
    modifies w
    ensures w.Valid() && outcome == AlreadyRunning
    ensures w.procRunning && w.killed && w.queue == [] && w.batches == []
  {
    w.Stop();
    outcome := w.StartRun(text, true, now);
  }

  /** After a stop, the finished signal of the stopped process, arriving
      once `stop_run()` has returned (the process was killed after the wait,
      or, in the intended behaviour, however it ended), launches nothing:
      the run is over, the label reads 0 / 0 and Run is enabled. */
  method StopThenFinished(w: Navillera, exitCode: int, now: int)
    requires w.Valid()
    modifies w
    ensures w.Valid()
    ensures !w.hasProc && !w.procRunning && w.queue == [] && w.batches == []
    ensures w.progress == (0, 0) && w.runEnabled && !w.stopEnabled
    ensures w.live.totals.downloaded == old(w.live.totals.downloaded)
    ensures w.live.totals.skipped == old(w.live.totals.skipped)
  {
    w.Stop();
    w.OnFinished(exitCode, now);
  }
}
