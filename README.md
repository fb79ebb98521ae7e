# Navillera batch engine in Dafny

Navillera is a Qt front end for gallery-dl. Underneath the widgets of its main
window is a small engine, and the Dafny modules here model that engine:

- **URL cleaning.** `_clean_urls` takes the text of the URL box line by line.
  It strips each line, passes over empty ones, peels one pair of angle
  brackets, keeps the http(s) URLs that have a network location, and counts
  every other non-empty line as skipped. `start_run` then removes repeated
  URLs and keeps the first occurrence of each (module `Urls`).
- **Batch planning.** `_build_batches` packs the queue greedily into batches,
  so that each command line stays under a budget of 30000 characters
  (module `Batches`).
- **User-agent repair.** `_build_common_args` assembles the gallery-dl options
  from the settings widgets. If the custom user agent is blank, it re-checks
  "Use system browser UA" (module `CommonArgs`).
- **Live classification.** `_read_output` reads each line of the process
  output and decides one of three things (modules `Classifier` and
  `MediaPath`):
  - an error line, which counts as a failure;
  - a media path not yet seen in this batch, which counts as downloaded or
    skipped according to its modification time;
  - a line that is ignored.
- **Run state machine.** The class `Runner.Navillera` models the window's
  run state:
  - `start_run` queues the URLs and plans the batches;
  - `_run_next_batch` launches one process per batch;
  - `_read_output` and `_finished_batch` account for each batch;
  - `stop_run` ends the run.
- **Version helpers.** `is_newer` compares version strings as lists of
  integers. `parse_version` is a search with the pattern
  `\b(\d+\.\d+(?:\.\d+)*)\b` (module `Versions`).
- **Python string operations.** The code uses `strip`, `splitlines`,
  `split`, `join`, `lower`, `in`, `isdigit`, `int` and `str`. These are
  written out in module `PyText`.

Some of the code changes state step by step, so it is modelled by imperative
Dafny:

- the three loops (`CleanUrls`/`FilterLines`, `Dedup`, `BuildBatches`);
- the output loop (`OnData`);
- the fields of the window (class `Navillera`).

Each of these methods is proved equal to a function of its inputs or of the
old state (`Accepted`, `Unique`, `Plan`, `StepLines`), and the lemmas state
what those functions guarantee.

The two regular expressions are written out as the search Python's engine
performs: the leftmost start, then the greedy choice of length. Each is
proved to return the leftmost and, at that start, the longest match of a
declarative reading of the pattern (`MediaPath.IsMatch`, `Versions.IsVersionAt`).

## Model

| member | source | states |
|---|---|---|
| PyText.Strip | navillera.py:561 | the stripped line has no whitespace at either end and is no longer than the line |
| PyText.StripSlice | navillera.py:561 | the stripped line is the slice of the line that starts after its leading whitespace |
| PyText.StripTrailSpaces | navillera.py:561 | everything after the stripped part of the line is whitespace |
| PyText.StripRemovesOnlySpace | navillera.py:561 | `strip` removes only whitespace, from both ends, and keeps the middle of the string as it is |
| PyText.StripOfStripped | navillera.py:561 | a line without surrounding whitespace is left as it is |
| PyText.StripIdempotent | navillera.py:561 | stripping twice is stripping once |
| PyText.SplitLines | navillera.py:561 | `splitlines` of the empty text is the empty list, and only of the empty text |
| PyText.SplitLinesSpec | navillera.py:823 | no line of `splitlines` holds a line boundary |
| PyText.NextBreakAfterLine | navillera.py:561 | in a text that opens with a line free of boundaries and then a boundary, the first boundary is right after that line |
| PyText.SplitLinesCons | navillera.py:561 | a line followed by a boundary other than the "\r" of "\r\n" is the first line, and splitting goes on after that boundary |
| PyText.SplitLinesCrLf | navillera.py:561 | a line followed by "\r\n" is the first line, and splitting goes on after the two characters |
| PyText.SplitLinesOne | navillera.py:561 | a non-empty text without boundaries is one line |
| PyText.SplitLinesJoin | navillera.py:561 | a text whose only boundaries are "\n", and which does not end in one, is its lines joined by "\n" |
| PyText.JoinSplitLines | navillera.py:561 | lines free of boundaries, the last one not empty, joined by "\n" split back into the same lines |
| PyText.JoinNonEmpty | navillera.py:561 | proof helper: joining lines whose last one is not empty gives a non-empty text |
| PyText.NextBreak | navillera.py:561 | the first line boundary: none before it, and one at it unless the text ends |
| PyText.IndexOf | navillera.py:118-119 | the first occurrence of a character: none before it, and that character at it unless the string ends |
| PyText.Split | navillera.py:119 | `split` on one character never returns an empty list, and no piece holds the separator |
| PyText.SplitJoin | navillera.py:119 | joining the pieces of a split with the separator gives the string back |
| PyText.AsciiLower | navillera.py:825 | `lower` keeps the length |
| PyText.AsciiLowerSpec | navillera.py:825 | `lower` lowers every character on its own |
| PyText.NatToString | navillera.py:694-700 | `str(n)` is a non-empty string of decimal digits that starts with '0' exactly when `n` is 0, so no rendering of two or more digits has a leading zero |
| PyText.NatToStringValue | navillera.py:694-700 | reading `str(n)` back as an integer gives `n` |
| Urls.UrlSplit | navillera.py:569 | the scheme `urlparse` reports is lower-case and holds only scheme characters; the network location holds no '/', '?' or '#' |
| Urls.IsHttpUrl | navillera.py:569-570 | definition: the scheme `urlparse` reports is "http" or "https" and the network location is not empty |
| Urls.Peel | navillera.py:566-567 | peeling the brackets of a stripped line leaves a stripped string that is no longer than the line |
| Urls.StrippedLines | navillera.py:561 | every line of the list has no surrounding whitespace |
| Urls.VerdictOf | navillera.py:564-575 | an empty line is passed over; a non-empty line is kept exactly when its peeled text passes the URL test, and what is kept is that peeled text |
| Urls.CleanUrls | navillera.py:560-576 | `_clean_urls` returns the accepted URLs of the stripped lines, and counts their rejected lines as skipped |
| Urls.FilterLines | navillera.py:563-575 | the loop's list is the accepted URLs in line order, and its counter is the number of rejected lines |
| Urls.JudgeLine | navillera.py:564-575 | one loop iteration decides the verdict `VerdictOf` gives on the line |
| Urls.VerdictsPrefix | navillera.py:563 | the verdicts on the first `i` lines are the first `i` verdicts |
| Urls.VerdictStep | navillera.py:570-575 | one more line appends its URL when it is kept, and adds one to the skip count when it is skipped |
| Urls.KeptSound | navillera.py:570-571 | every kept URL comes from some line judged `Keep` for that URL |
| Urls.KeptComplete | navillera.py:570-571 | the URL of every `Keep` verdict is among the kept ones |
| Urls.KeptPlusSkipped | navillera.py:564-575 | every non-empty line is either kept or skipped |
| Urls.NonBlankCount | navillera.py:564-565 | the verdicts that are not `Blank` are those on non-empty lines |
| Urls.AcceptedSound | navillera.py:564-571 | every accepted URL is the peeled text of a non-empty line and passes the URL test |
| Urls.AcceptedComplete | navillera.py:564-571 | every non-empty line whose peeled text passes the test contributes that text |
| Urls.AcceptedMembership | navillera.py:560-576 | a string is accepted exactly when some non-empty line peels to it and it passes the test |
| Urls.AcceptedAreUrls | navillera.py:566-571 | every accepted URL passes the http(s) test and has no surrounding whitespace |
| Urls.AcceptedPlusRejected | navillera.py:564-575 | the accepted URLs plus the skipped lines are exactly the non-empty lines |
| Urls.FirstIndex | navillera.py:719-724 | the position of the first occurrence of a URL: it is there, and not before |
| Urls.Dedup | navillera.py:719-724 | the dedup loop's result is `Unique` of its input |
| Urls.Unique | navillera.py:719-724 | definition: each URL at its first occurrence, in order, dropping later repeats |
| Urls.UniqueSameElements | navillera.py:719-724 | de-duplication keeps exactly the URLs of its input |
| Urls.UniqueHasNoDuplicates | navillera.py:719-724 | the result holds no URL twice |
| Urls.UniqueKeepsFirstOccurrenceOrder | navillera.py:719-724 | the result lists the URLs in the order of their first occurrence in the input |
| Urls.FirstIndexInit | navillera.py:719-724 | a URL's first occurrence is the same with or without the last entry, when it occurs earlier |
| Urls.FirstIndexUnique | navillera.py:719-724 | the first occurrence is the only position with no equal entry before it |
| Urls.UniqueOfDistinct | navillera.py:719-724 | a list without repeats is left unchanged |
| Urls.UniqueLength | navillera.py:725-726 | the result has one entry per distinct URL, so `len(urls_raw) - len(urls)` counts the repeated entries removed |
| Urls.UniqueShorter | navillera.py:713-726 | de-duplication never lengthens the list and keeps a non-empty list non-empty |
| Urls.DistinctCard | navillera.py:719-724 | a list without repeats has as many entries as distinct elements |
| Batches.PlanStep | navillera.py:754-761 | definition: one iteration, which closes the open batch and starts a new one holding the URL, charged at `base_args_len` plus its length, when the open batch is not empty and the URL plus a space would pass the budget; otherwise it appends the URL and charges its length plus one |
| Batches.Plan | navillera.py:748-764 | definition: the steps folded over the URLs from `base_args_len`, then the open batch appended when it is not empty |
| Batches.BuildBatches | navillera.py:749-764 | the loop returns `Plan`, the fold of one planner step per URL |
| Batches.FlattenAppend | navillera.py:756 | proof helper for the batch plan: appending a batch appends its URLs to the concatenation |
| Batches.FoldTracksLength | navillera.py:752-761 | `cur` is empty only before the first URL; `cur_len` is the common length plus each URL's length and separator, one less in a batch seeded after an overflow |
| Batches.FoldConcat | navillera.py:753-761 | at every step, the closed batches and then the open one give back the URLs read so far |
| Batches.StepConcat | navillera.py:754-761 | one planner step appends its URL to that concatenation |
| Batches.InitLast | navillera.py:753 | proof helper for the batch plan: a non-empty list is its front followed by its last element |
| Batches.FoldNonEmpty | navillera.py:755-757 | no closed batch is empty |
| Batches.FoldWithinBudget | navillera.py:754-761 | a batch of two or more URLs never has `cur_len` over the budget |
| Batches.GreedyClose | navillera.py:755-758 | closing the open batch because the next URL does not fit keeps the packing greedy |
| Batches.GreedyExtend | navillera.py:759-761 | adding a URL to the open batch keeps the packing greedy |
| Batches.FoldGreedy | navillera.py:753-761 | every batch but the open one was closed because the next URL would have overflowed it |
| Batches.PlanConcat | navillera.py:749-764 | concatenating the batches gives back the input, in order |
| Batches.PlanShape | navillera.py:755-763 | every batch is non-empty, and there are no batches exactly when there are no URLs |
| Batches.PlanWithinBudget | navillera.py:754-761 | only a batch of a single URL can exceed the budget |
| Batches.PlanGreedy | navillera.py:755-758 | each batch after the first starts with a URL that did not fit into the one before it |
| Batches.PlanCommandLenBound | navillera.py:754-761 | because the seed URL is charged without its separator, a real command line can exceed the budget by one character, and never by more |
| Batches.TwoOverflowingUrls | navillera.py:754-761 | common arguments of length 29990 and two 15-character URLs give two single-URL batches |
| Batches.SeedUnderchargeExample | navillera.py:758 | a concrete plan whose second batch has a real length of 11 under a budget of 10 |
| MediaPath.FirstExt | navillera.py:820-821 | the extension found matches at the position under `re.IGNORECASE` folding and ends at a word boundary |
| MediaPath.FirstExtSpec | navillera.py:820 | the extension found is one of the alternatives, and none is found only when no alternative matches |
| MediaPath.Lead | navillera.py:819-821 | a match opens with a drive root of 3 characters (a letter under `re.IGNORECASE` folding, ':' and '\\'), a '/' or nothing |
| MediaPath.FoldCharSpec | navillera.py:819-821 | the characters `[A-Za-z]` accepts under `re.IGNORECASE` are the ASCII letters and U+0130, U+0131, U+017F and U+212A; on ASCII the folding is lower-casing, and digits fold only to digits |
| MediaPath.KelvinSignExtension | navillera.py:818-821 | "/a.m\u212Av" is found as a media path, the Kelvin sign matching the "k" of "mkv" |
| MediaPath.DotlessIExtension | navillera.py:818-821 | "/a.g\u0131f" is found as a media path, the dotless i matching the "i" of "gif" |
| MediaPath.RunEnd | navillera.py:819 | the end of the run of path characters: the character there is not one |
| MediaPath.RunEndSpec | navillera.py:819 | every character from the start to the end of the run is a path character |
| MediaPath.LastDotExt | navillera.py:819-820 | the dot the greedy body backs off to lies inside the run and is followed by an extension |
| MediaPath.LastDotExtSpec | navillera.py:819-820 | no admissible dot lies after it, and there is none at all when none is picked |
| MediaPath.MatchInRun | navillera.py:819-820 | a match from a start ends its body exactly at an admissible dot inside the run of path characters |
| MediaPath.MatchAt | navillera.py:818-821 | the pattern tried at one start ends at an admissible dot after it |
| MediaPath.MatchAtSpec | navillera.py:818-821 | trying the pattern at one start gives the longest match there, or nothing exactly when none starts there |
| MediaPath.SearchFrom | navillera.py:836 | the match `search` finds starts at or after the position and ends at an admissible dot |
| MediaPath.SearchFromSpec | navillera.py:836 | `search` returns a match with none starting earlier and none longer at its start, or nothing exactly when the pattern matches nowhere |
| MediaPath.MatchText | navillera.py:839 | `group(0)` runs from the start through the dot and the extension |
| MediaPath.FindMediaPath | navillera.py:836-839 | definition: `file_re.search(line)` followed by `m.group(0)`, as the leftmost start's match text |
| MediaPath.FindMediaPathNone | navillera.py:836-838 | no path is found exactly when the pattern matches nowhere in the line |
| MediaPath.FindMediaPathLeftmostLongest | navillera.py:836-839 | a path found is the text of the leftmost match, and of the longest one at that start |
| MediaPath.MatchCoversPathChars | navillera.py:818-821 | after the root, a match covers only path characters |
| MediaPath.MatchTextRoot | navillera.py:818-821 | a matched path opens with a root and holds only path characters after it |
| MediaPath.MatchTextExt | navillera.py:820 | a matched path ends in a dot and one of the extensions, read case-folded |
| MediaPath.LowerPrefixChars | navillera.py:820 | a case-folded occurrence fits in the text and matches character by character |
| MediaPath.LowerPrefixFromChars | navillera.py:820 | a character-by-character match after folding is a case-folded occurrence |
| MediaPath.LowerPrefixShift | navillera.py:839 | an occurrence stays one in a slice of the text that contains it |
| MediaPath.ExtCharsArePathChars | navillera.py:819-820 | every character that folds to a letter or digit of an extension is a path character |
| Classifier.IsErrorLine | navillera.py:825-828 | definition: the lower-cased line holds "error:", "http error", "forbidden" or "not found" |
| Classifier.StepLine | navillera.py:823-857 | definition: one iteration of the loop, which strips the line, counts an error line as a failure, and otherwise records a new media path and counts it as skipped or downloaded by `os.stat` |
| Classifier.PathOf | navillera.py:828-839 | a line contributes a path only when it is no error line, and then it is the path the search finds |
| Classifier.ErrorCount | navillera.py:828 | there are no more error lines than lines |
| Classifier.StepLinesSnoc | navillera.py:823 | classifying one more line is one more loop iteration |
| Classifier.ErrorLineTakesPriority | navillera.py:828-833 | an error line adds exactly one failure and one error line, even when it names a media file, and changes neither the other counters nor the seen paths |
| Classifier.QuietLineIsNoOp | navillera.py:836-841 | a line that names no media file, or one already seen in this batch, changes nothing |
| Classifier.NewPathCountsOnce | navillera.py:840-854 | a new path joins the seen set and adds exactly one to downloaded or to skipped; it goes to skipped exactly when its stat says so |
| Classifier.StatVerdicts | navillera.py:844-854 | a file older than the batch start plus 0.5 s is skipped, a missing file is downloaded, and any other stat failure counts as skipped |
| Classifier.StepLineAccounting | navillera.py:823-857 | for one line, failed grows by one exactly for an error line, and downloaded plus skipped grows by the number of new seen paths |
| Classifier.DiffChain | navillera.py:842 | the new paths of two steps add up |
| Classifier.StepLinesAccounting | navillera.py:823-857 | over a chunk, the seen set only grows, failed and the error-line count grow by the number of error lines, and downloaded plus skipped grows by the number of distinct new paths |
| Classifier.StepLinesConsistent | navillera.py:823-857 | classification keeps error lines within failures, and seen paths within counted files |
| Classifier.StepLineRecordsPath | navillera.py:840-842 | a line's path is in the seen set after the line, and no path leaves it |
| Classifier.StepLinesRecordsPaths | navillera.py:840-842 | after a chunk, the path of every line of it is in the seen set |
| Classifier.SeenLinesAreNoOp | navillera.py:836-841 | error-free lines whose paths are all seen change nothing |
| Classifier.ReplayIsNoOp | navillera.py:840-841 | within a batch, the same error-free chunk classified again changes nothing |
| CommonArgs.Repaired | navillera.py:659-668 | definition: a blank custom user agent with the browser box unchecked re-checks the box, and any other settings are kept |
| CommonArgs.BuildCommonArgs | navillera.py:656-702 | definition: the options `_build_common_args` assembles from the settings, in their order |
| CommonArgs.Words | navillera.py:656-702 | every option contributes two words to the argument list |
| CommonArgs.WordsAt | navillera.py:656-702 | the words alternate: flag name, then its value |
| CommonArgs.LookupAppend | navillera.py:657 | looking a flag up in two lists of options, the first list wins |
| CommonArgs.LookupOne | navillera.py:657 | looking a flag up in a single option |
| CommonArgs.LookupBuilt | navillera.py:656-702 | each flag's value is read back from the built options: the user agent (custom only when unchecked and not blank), the cookies file when given, the output directory or the default, the filter expression of the drop-down, and each non-zero number |
| CommonArgs.NumbersRoundTrip | navillera.py:346-356 | with the spin boxes in range an HTTP timeout is always passed, and the three numbers read back as the widget values |
| CommonArgs.UaRepairIsStable | navillera.py:660-671 | only a blank custom user agent re-checks the box, nothing else changes, the repair is idempotent, and the repaired settings give the same options |
| Versions.Parts | navillera.py:117-119 | definition: the pieces of ASCII digits of the text before the first dash, split at '.', read as numbers |
| Versions.IsNewer | navillera.py:116-123 | definition: `parts(remote) > parts(local)` as Python compares lists |
| Versions.MainPart | navillera.py:118 | the part before the first dash holds no dash, and is the whole string when it has none |
| Versions.DigitParts | navillera.py:119 | only the pieces `isdigit` accepts are kept |
| Versions.ListLessIrreflexive | navillera.py:121 | no integer list is below itself |
| Versions.ListLessAsymmetric | navillera.py:121 | of two integer lists at most one is below the other |
| Versions.ListLessTransitive | navillera.py:121 | the list order is transitive |
| Versions.ListLessTotal | navillera.py:121 | two different lists are ordered one way or the other |
| Versions.ListLessHasWitness | navillera.py:121 | a list below another has a common prefix after which it runs out or is smaller |
| Versions.WitnessGivesListLess | navillera.py:121 | such a prefix makes it below the other |
| Versions.ListLessMeans | navillera.py:121 | Python's `<` on lists is the lexicographic order |
| Versions.IsNewerIsStrict | navillera.py:116-123 | a version is never newer than itself, and of two versions at most one is newer than the other |
| Versions.IsNewerTransitive | navillera.py:116-123 | "newer" is transitive |
| Versions.IndexOfAt | navillera.py:118-119 | the first separator after a piece without one is found right after that piece |
| Versions.IndexOfAbsent | navillera.py:118-119 | a character that does not occur is not found |
| Versions.SplitCons | navillera.py:119 | splitting a piece, the separator and the rest gives the piece, then the split of the rest |
| Versions.JoinSplit | navillera.py:119 | splitting the join of pieces without the separator gives the pieces back |
| Versions.JoinAvoids | navillera.py:119 | a join holds no character that neither the pieces nor the separator hold |
| Versions.NatStrings | navillera.py:119 | renders each number of a list with `str` |
| Versions.DigitPartsOfNatStrings | navillera.py:119 | the digit pieces of rendered numbers read back as the numbers |
| Versions.PartsOfRender | navillera.py:117-119 | `parts` reads a rendered version back as its numbers |
| Versions.IsNewerOnNumbers | navillera.py:116-123 | on rendered versions `is_newer` is exactly the lexicographic order of the numbers |
| Versions.IgnoresSuffix | navillera.py:118 | text after the first dash is ignored |
| Versions.NumericExamples | navillera.py:116-123 | "1.10" is newer than "1.9" but not the other way round, and "1.2.1" is newer than "1.2" |
| Versions.DigitEnd | navillera.py:86 | `\d+` takes the whole run of digits |
| Versions.DigitEndExact | navillera.py:86 | a run of digits followed by a non-digit ends there |
| Versions.DigitsSpan | navillera.py:86 | a run of digits is one dotted group |
| Versions.DotNumsCons | navillera.py:86 | a group, a dot and dotted groups are dotted groups |
| Versions.DotNumsHead | navillera.py:86 | dotted groups open with a digit |
| Versions.DotNumsFirst | navillera.py:86 | dotted groups read as their first group, then either the end or a dot and more groups |
| Versions.DotNumsUncons | navillera.py:86 | the same, stated inside the text the groups are taken from |
| Versions.DotNumsGroups | navillera.py:86 | dotted groups are read group by group as maximal runs of digits |
| Versions.GroupsDotNums | navillera.py:86 | what is read group by group is dotted groups |
| Versions.VersionAtMeans | navillera.py:86 | the declarative and the positional readings of a match agree |
| Versions.VersionAtMeansAll | navillera.py:86 | the two readings agree at every position |
| Versions.Tail | navillera.py:86 | `(?:\.\d+)*\b` from a group ends at a word boundary after the first group |
| Versions.TailSound | navillera.py:86 | what `Tail` takes is read as dotted groups |
| Versions.TailComplete | navillera.py:86 | every run of dotted groups ending at a boundary ends at or before the end `Tail` picks |
| Versions.MatchAt | navillera.py:86 | the pattern tried at one start gives a match that no match from there is longer than |
| Versions.MatchAtComplete | navillera.py:86 | a match at a start needs a digit, a dot and a further group there, and ends within what `Tail` picks |
| Versions.SearchFrom | navillera.py:89 | `search` finds a match with none starting earlier and none longer at its start, or nothing exactly when none exists |
| Versions.ParseVersion | navillera.py:88-90 | a parsed version is at least two digit groups joined by single dots, and nothing is returned exactly when the pattern matches nowhere |
| Versions.ParseVersionLeftmostLongest | navillera.py:88-90 | the parsed version is the text of the leftmost match, and of the longest one at that start |
| Versions.ParsedVersionParts | navillera.py:86-123 | `is_newer` reads every group of a parsed version, and there are at least two |
| Versions.DigitPartsKeepsDigits | navillera.py:119 | when every piece is digits, every piece is kept |
| Runner.SliceEnd | navillera.py:831 | proof helper for `self._batches[: self._batch_index]`: the end of the slice `xs[:n]` is within the list |
| Runner.SumLensFlatten | navillera.py:866 | counting the URLs of the batches is measuring their concatenation |
| Runner.SumLensPrefix | navillera.py:866 | a prefix of the batches holds no more URLs than all of them |
| Runner.DoneUrlsNone | navillera.py:741-744 | before the first batch no URL is done |
| Runner.DoneUrlsBound | navillera.py:831 | the done count never exceeds the URLs of all batches |
| Runner.DoneUrlsAll | navillera.py:769-773 | past the last batch every URL is done |
| Runner.DoneUrlsStep | navillera.py:866 | finishing a batch adds its URLs to the done count |
| Runner.PlanCounts | navillera.py:740 | a run of at least one URL has at least one batch, and the batches hold exactly as many URLs as the queue |
| Runner.PlanRun | navillera.py:740 | the batches are the plan of the queue against the length of the joined common arguments |
| Runner.Navillera.constructor | navillera.py:171-206 | the initial state: no process, empty queue and batches, index -1, zero totals |
| Runner.Navillera.StartRun | navillera.py:705-747 | without the binary, without URLs, or while a process runs nothing changes; otherwise the queue is the de-duplicated accepted URLs, the outcome carries the skipped lines and the duplicates removed, the totals are reset, the batches are planned, and the first batch is launched with the progress at 0 |
| Runner.Navillera.QueueRun | navillera.py:732-744 | the queue, the reset totals, the buttons, the repaired settings, the planned batches, index -1, and a progress of 0 out of the queue length |
| Runner.Navillera.RunNextBatch | navillera.py:766-791 | the index advances; past the last batch the run ends with progress N / N and Run enabled; otherwise the next batch is launched, the per-batch state is reset and the start time recorded |
| Runner.Navillera.FinishRun | navillera.py:767-774 | "All done": Run enabled, Stop disabled, every URL done |
| Runner.Navillera.LaunchBatch | navillera.py:776-791 | the batch and its start time are recorded, the seen paths and error lines are reset, the process is started on the common arguments of the settings of the moment, and the settings take the repair |
| Runner.Navillera.OnData | navillera.py:805-857 | without a process or with an empty chunk nothing changes; otherwise the state after the chunk is that of its lines classified in order, and the label shows the URLs of the batches before the current one |
| Runner.Navillera.ClassifyLine | navillera.py:823-857 | one loop iteration updates the classifier state as `StepLine` says |
| Runner.Navillera.OnFinished | navillera.py:859-876 | a non-zero exit code of a present process adds exactly one failure, nothing else changes the totals, the per-batch state is reset, and the next batch is launched or the run ends |
| Runner.Navillera.EndBatch | navillera.py:860-872 | the failure for a non-zero exit code (0 without a process), progress through the finished batch, the process dropped, and the per-batch state reset |
| Runner.Navillera.Stop | navillera.py:793-803 | as intended: a running process is killed but still reported running until its finished signal, which is not handled inside the call; the queue and batches are emptied, the label reads 0 / 0, Run is enabled, and the invariant holds |
| Runner.Navillera.StopAsWritten | navillera.py:793-803 | as written: a process that outlives the wait is killed, as in `Stop`; when it exits within the wait, `_finished_batch` runs first, counts the exit code and launches the next batch if there is one; the lists are then emptied, so a process nobody stopped runs with no batch list and the invariant is broken exactly then |
| Runner.StopThenStart | navillera.py:728-730 | between a stop and the finished signal of the killed process, `start_run` answers "A job is already running" and nothing of the stopped run is left |
| Runner.StopLeavesNextBatchRunning | navillera.py:776-803 | stopping during the first of two batches, with a process that exits within the wait, leaves the second batch running after `stop_run` returns |
| Runner.StopThenFinished | navillera.py:793-803 | when the finished signal of the stopped process arrives after `stop_run` has returned (the kill path), it launches nothing, and downloaded and skipped stay as they were |

## Left out

- The Qt widgets, layout, styling, shortcuts, drag and drop, message boxes and
  file dialogs are left out as interface glue. The log pane and its scroll
  handling (navillera.py:812-815) are left out too, as are the log messages.
- `QSettings` persistence (`_save_settings`, `_load_settings`) is left out:
  it is storage, not logic. No clamping of stored values is modelled;
  `CommonArgs.InRange` states the spin-box ranges as an assumption of
  `NumbersRoundTrip` only.
- Some code does network, process, hashing or file-system work:
  `maybe_check_update`, `fetch_binary`, `download_file`, `sha256sum`,
  `make_executable`, `get_latest_version_tag`, `get_local_version`,
  `_run_once` and `test_url`. It is left out. `bin_present()` is a parameter
  of `StartRun`.
- The clock is a parameter. `time.time()` becomes an integer number of
  milliseconds, and the 0.5 s grace is 500 ms, so float modification times
  are not modelled.
- `os.stat` is a parameter `stat` of `OnData`. It is one fixed oracle for the
  whole chunk, so files changing while a chunk is read are not modelled.
- `user_downloads_dir()` is the constant field `downloadsDir`.
- The `QProcess` is reduced to three flags (`hasProc`, `procRunning`,
  `killed`) and its
  arguments (`procSettings`, `batchUrls`). Its start, its signals and the
  decoding of its output (`decode(errors="replace")`) are outside the model:
  the output arrives as a string. A process that fails to start is not
  modelled. Neither is concurrency.
- Runner.Navillera.Stop: `terminate`, `waitForFinished(1500)` and `kill`
  are one step that marks the process `killed`. Qt goes on reporting it
  running until its finished signal is handled after `stop_run` returns
  (`Runner.StopThenFinished`), so a `start_run` in between is refused
  (`Runner.StopThenStart`). That is the case when the process is killed
  after the wait. When the terminated process exits within the wait, Qt
  emits the finished signal inside `waitForFinished`; that case is
  `Runner.Navillera.StopAsWritten`, listed under Findings.
- Editing the settings widgets during a run is not modelled. Each launch
  builds the options from the current `settings`, so an edit would only
  change that field.
- Runner.Navillera.OnData: the label refresh after each counted line is
  not written out as an assignment. Under `Valid()` the label already shows
  exactly the pair the refresh computes, and the method's postcondition
  states that.
- Runner.Navillera.RunValid: it ties the batches to the queue by their URL
  count only. That the batches concatenate to the queue is stated by
  `Batches.PlanConcat` about the plan `StartRun` stores.
- The process arguments `_build_common_args() + self._batch_urls` are not
  stored as one list. They are `CommonArgs(procSettings, downloadsDir)`
  followed by `batchUrls`.
- Urls.UrlSplit models only the scheme and network location of
  `urlparse`. It models none of the `ValueError`s `urlsplit` raises on a
  network location:
  - an unbalanced '[' or ']';
  - (from Python 3.11.4) a bracketed host that is not an IPv6 or IPvFuture
    address, such as `http://[abc]/`;
  - a non-ASCII network location whose NFKC normal form holds '/', '?',
    '#', '@' or ':' (the check `_checknetloc` makes), such as `http://\u2100`
    (NFKC "a/c") or `http://a\uff0fb`. Unicode normalisation is outside the
    model.

  The model accepts such a line as a URL; the source ends `start_run` with
  the exception, and nothing is queued.
- Character classes are taken on ASCII where Python's are Unicode:
  - `\d` in the version pattern and `\w`/`\b` in both patterns see only
    ASCII digits, letters and '_'. A non-ASCII letter or digit right after
    an extension or a version (`/a.jpg\u00e9`) is a boundary in the model
    and not in the source, so the model matches where the source does not;
  - `lower()` in the error-keyword test is ASCII lower-casing. This is exact
    for the four keywords, as `PyText.AsciiLower` explains.
- `IGNORECASE` in the media pattern is modelled by `MediaPath.FoldChar`:
  ASCII case, plus U+0130 and U+0131 for "i", U+017F for "s" and U+212A
  for "k", which CPython's matcher also takes as case variants. It is
  applied to the drive letter and the extensions, the only letters of the
  pattern.
- Versions.IsNewer: `isdigit` and `int` are taken on ASCII digits
  (`Versions.DigitParts` keeps the pieces of ASCII digits). Python's
  `isdigit` also accepts other Unicode digits. `int` reads the decimal ones
  (`"1.0.\u0663"` is newer than `"1.0"` in the source, not in the model) and
  raises `ValueError` on the rest (`"2.\u00b2"`), after which `is_newer`
  returns False; the model compares the pieces it keeps instead.
- PyText.Contains is stated as plain recursion and has no separate lemma.
  It stands for Python's `in` on strings.

## Findings

| source | as written | input that shows it | evidently intended | confidence | as-written member | corrected member |
|---|---|---|---|---|---|---|
| navillera.py:793-803 | `stop_run` waits for the terminated process with `waitForFinished(1500)`, which emits `finished` before it returns; `_finished_batch` then runs while `_batches` is still set, counts the exit code and launches the next batch (776-791), and only then are the queue and batch list emptied and Stop disabled | a run of two batches, stopped during the first one, whose process exits within 1.5 s of `terminate` | Stop ends the run: the running process is killed and no other one is launched | not executed | Runner.Navillera.StopAsWritten | Runner.Navillera.Stop |
