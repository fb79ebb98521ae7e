/** The batch planner (`_build_batches`): the URL list is packed greedily
    into batches whose command line stays under a length budget. */
module Batches {

  /** The default budget `max_cmd_len`, kept below the 32k limit of a Windows
      command line. */
  const MaxCmdLen: int := 30000

  /** What the source charges for the URLs of a batch: each URL its length
      plus one separator. */
  function Cost(b: seq<string>): nat
  {
    if b == [] then 0 else Cost(b[..|b| - 1]) + |b[|b| - 1]| + 1
  }

  /** The running length `cur_len` the planner tracks for a batch: the common
      arguments plus the cost of the URLs, except that a batch seeded after an
      overflow (every batch but the first) is charged one less, because its
      first URL is charged `len(u)` only. */
  function Charged(b: seq<string>, seeded: bool, baseLen: int): int
  {
    baseLen + Cost(b) - if seeded then 1 else 0
  }

  /** The planner's loop state: closed batches, the open batch and its
      running length. */
  datatype PlanState = PlanState(closed: seq<seq<string>>, cur: seq<string>, curLen: int)

  /** One loop iteration of `_build_batches` on URL `u`. */
  function PlanStep(st: PlanState, u: string, baseLen: int, maxLen: int): PlanState
  {
    var add := |u| + 1;
    if st.cur != [] && st.curLen + add > maxLen then
      PlanState(st.closed + [st.cur], [u], baseLen + |u|)
    else
      PlanState(st.closed, st.cur + [u], st.curLen + add)
  }

  /** The loop state after the URLs `urls` have been processed. */
  function PlanFold(urls: seq<string>, baseLen: int, maxLen: int): PlanState
  {
    if urls == [] then PlanState([], [], baseLen)
    else PlanStep(PlanFold(urls[..|urls| - 1], baseLen, maxLen), urls[|urls| - 1], baseLen, maxLen)
  }

  /** The batches `_build_batches` returns: the closed ones and, when it is
      not empty, the open one. */
  function Plan(urls: seq<string>, baseLen: int, maxLen: int): seq<seq<string>>
  {
    var st := PlanFold(urls, baseLen, maxLen);
    if st.cur != [] then st.closed + [st.cur] else st.closed
  }

  /** `_build_batches(urls, base_args_len, max_cmd_len)`. */
  method BuildBatches(urls: seq<string>, baseLen: int, maxLen: int) returns (batches: seq<seq<string>>)
    ensures batches == Plan(urls, baseLen, maxLen)
  {
    batches := [];
    var cur: seq<string> := [];
    var curLen := baseLen;
    var i := 0;
    while i < |urls|
      invariant i <= |urls|
      invariant PlanState(batches, cur, curLen) == PlanFold(urls[..i], baseLen, maxLen)
    {
      var u := urls[i];
      assert urls[..i + 1][..i] == urls[..i];
      var add := |u| + 1;
      if cur != [] && curLen + add > maxLen {
        batches := batches + [cur];
        cur := [u];
        curLen := baseLen + |u|;
      } else {
        cur := cur + [u];
        curLen := curLen + add;
      }
      i := i + 1;
    }
    assert urls[..i] == urls;
    if cur != [] {
      batches := batches + [cur];
    }
  }

  /** All URLs of a list of batches, in order. */
  function Flatten(bs: seq<seq<string>>): seq<string>
  {
    if bs == [] then [] else Flatten(bs[..|bs| - 1]) + bs[|bs| - 1]
  }

  lemma {:induction false} FlattenAppend(a: seq<seq<string>>, b: seq<string>)
    ensures Flatten(a + [b]) == Flatten(a) + b
  {
    assert (a + [b])[..|a|] == a;
  }

  // ---------- Invariants of the loop state ----------

  predicate AllNonEmpty(bs: seq<seq<string>>) {
    forall k :: 0 <= k < |bs| ==> bs[k] != []
  }

  /** Every batch of two or more URLs has a running length within budget. */
  predicate WithinBudget(bs: seq<seq<string>>, baseLen: int, maxLen: int) {
    forall k :: 0 <= k < |bs| && |bs[k]| >= 2 ==> Charged(bs[k], k > 0, baseLen) <= maxLen
  }

  /** Every batch but the last was closed because the first URL of the next
      one would have pushed its running length over the budget. */
  predicate Greedy(bs: seq<seq<string>>, baseLen: int, maxLen: int) {
    AllNonEmpty(bs) &&
    forall k :: 0 <= k < |bs| - 1 ==> Charged(bs[k], k > 0, baseLen) + |bs[k + 1][0]| + 1 > maxLen
  }

  /** The open batch is empty only before the first URL, and its running
      length is what `Charged` says. */
  lemma {:induction false} FoldTracksLength(urls: seq<string>, baseLen: int, maxLen: int)
    ensures PlanFold(urls, baseLen, maxLen).cur == [] <==> urls == []
    ensures urls == [] ==> PlanFold(urls, baseLen, maxLen) == PlanState([], [], baseLen)
    ensures urls != [] ==> PlanFold(urls, baseLen, maxLen).curLen
                           == Charged(PlanFold(urls, baseLen, maxLen).cur, PlanFold(urls, baseLen, maxLen).closed != [], baseLen)
  {
    if urls != [] {
      var init := urls[..|urls| - 1];
      var u := urls[|urls| - 1];
      FoldTracksLength(init, baseLen, maxLen);
      var st := PlanFold(init, baseLen, maxLen);
      assert [u][..0] == [];
      assert Cost([u]) == |u| + 1;
      if !(st.cur != [] && st.curLen + |u| + 1 > maxLen) {
        assert (st.cur + [u])[..|st.cur|] == st.cur;
      }
    }
  }

  /** Nothing is lost or reordered: closed batches then the open batch give
      back the URLs processed. */
  lemma {:induction false} FoldConcat(urls: seq<string>, baseLen: int, maxLen: int)
    ensures Flatten(PlanFold(urls, baseLen, maxLen).closed) + PlanFold(urls, baseLen, maxLen).cur == urls
  {
    if urls != [] {
      var init := urls[..|urls| - 1];
      var u := urls[|urls| - 1];
      var st := PlanFold(init, baseLen, maxLen);
      FoldConcat(init, baseLen, maxLen);
      StepConcat(st, u, baseLen, maxLen);
      var st' := PlanFold(urls, baseLen, maxLen);
      assert st' == PlanStep(st, u, baseLen, maxLen);
      InitLast(urls);
    }
  }

  /** A non-empty sequence is its front followed by its last element. */
  lemma InitLast<T>(s: seq<T>)
    requires s != []
    ensures s[..|s| - 1] + [s[|s| - 1]] == s
  {
  }

  /** One step of the planner appends its URL to the concatenation. */
  lemma StepConcat(st: PlanState, u: string, baseLen: int, maxLen: int)
    ensures Flatten(PlanStep(st, u, baseLen, maxLen).closed) + PlanStep(st, u, baseLen, maxLen).cur
            == Flatten(st.closed) + st.cur + [u]
  {
    if st.cur != [] && st.curLen + |u| + 1 > maxLen {
      FlattenAppend(st.closed, st.cur);
    }
  }

  /** No closed batch is empty. */
  lemma {:induction false} FoldNonEmpty(urls: seq<string>, baseLen: int, maxLen: int)
    ensures AllNonEmpty(PlanFold(urls, baseLen, maxLen).closed)
  {
    if urls != [] {
      var init := urls[..|urls| - 1];
      FoldNonEmpty(init, baseLen, maxLen);
      var st := PlanFold(init, baseLen, maxLen);
      var st' := PlanFold(urls, baseLen, maxLen);
      if st'.closed != st.closed {
        assert st'.closed == st.closed + [st.cur] && st.cur != [];
      }
    }
  }

  /** A batch of two or more URLs never has a running length over the
      budget: every URL added to a non-empty batch fitted. */
  lemma {:induction false} FoldWithinBudget(urls: seq<string>, baseLen: int, maxLen: int)
    ensures WithinBudget(PlanFold(urls, baseLen, maxLen).closed, baseLen, maxLen)
    ensures |PlanFold(urls, baseLen, maxLen).cur| >= 2 ==> PlanFold(urls, baseLen, maxLen).curLen <= maxLen
  {
    if urls != [] {
      var init := urls[..|urls| - 1];
      FoldWithinBudget(init, baseLen, maxLen);
      FoldTracksLength(init, baseLen, maxLen);
      var st := PlanFold(init, baseLen, maxLen);
      var u := urls[|urls| - 1];
      if st.cur != [] && st.curLen + |u| + 1 > maxLen {
        var closed' := st.closed + [st.cur];
        forall k | 0 <= k < |closed'| && |closed'[k]| >= 2
          ensures Charged(closed'[k], k > 0, baseLen) <= maxLen
        {
          if k < |st.closed| {
            assert closed'[k] == st.closed[k];
          }
        }
      }
    }
  }

  /** Closing the last batch because `u` did not fit keeps the packing greedy. */
  lemma GreedyClose(bs: seq<seq<string>>, u: string, baseLen: int, maxLen: int)
    requires Greedy(bs, baseLen, maxLen) && bs != []
    requires Charged(bs[|bs| - 1], |bs| > 1, baseLen) + |u| + 1 > maxLen
    ensures Greedy(bs + [[u]], baseLen, maxLen)
  {
    var bs' := bs + [[u]];
    forall k | 0 <= k < |bs'| - 1
      ensures Charged(bs'[k], k > 0, baseLen) + |bs'[k + 1][0]| + 1 > maxLen
    {
      assert bs'[k] == bs[k];
      if k < |bs| - 1 {
        assert bs'[k + 1] == bs[k + 1];
      }
    }
  }

  /** Adding a URL to the last batch keeps the packing greedy. */
  lemma GreedyExtend(bs: seq<seq<string>>, u: string, baseLen: int, maxLen: int)
    requires Greedy(bs, baseLen, maxLen) && bs != []
    ensures Greedy(bs[..|bs| - 1] + [bs[|bs| - 1] + [u]], baseLen, maxLen)
  {
    var n := |bs|;
    var bs' := bs[..n - 1] + [bs[n - 1] + [u]];
    assert |bs'| == n;
    forall k | 0 <= k < n
      ensures bs'[k] != []
      ensures k < n - 1 ==> bs'[k] == bs[k]
      ensures bs'[k][0] == bs[k][0]
    {
      if k < n - 1 {
        assert bs'[k] == bs[k];
      } else {
        assert bs'[k] == bs[n - 1] + [u];
      }
    }
  }

  /** A batch was closed only because the next URL did not fit. */
  lemma {:induction false} FoldGreedy(urls: seq<string>, baseLen: int, maxLen: int)
    ensures urls != [] ==> Greedy(PlanFold(urls, baseLen, maxLen).closed + [PlanFold(urls, baseLen, maxLen).cur], baseLen, maxLen)
  {
    if urls != [] {
      var init := urls[..|urls| - 1];
      var u := urls[|urls| - 1];
      var st := PlanFold(init, baseLen, maxLen);
      if init == [] {
        assert PlanFold(urls, baseLen, maxLen) == PlanState([], [u], baseLen + |u| + 1);
      } else {
        FoldTracksLength(init, baseLen, maxLen);
        FoldGreedy(init, baseLen, maxLen);
        var bs := st.closed + [st.cur];
        assert bs[|bs| - 1] == st.cur && (|bs| > 1 <==> st.closed != []);
        if st.curLen + |u| + 1 > maxLen {
          GreedyClose(bs, u, baseLen, maxLen);
        } else {
          GreedyExtend(bs, u, baseLen, maxLen);
          assert bs[..|bs| - 1] == st.closed;
        }
      }
    }
  }

  // ---------- Properties of the returned batches ----------

  /** Concatenating the batches gives back the input. */
  lemma PlanConcat(urls: seq<string>, baseLen: int, maxLen: int)
    ensures Flatten(Plan(urls, baseLen, maxLen)) == urls
  {
    FoldConcat(urls, baseLen, maxLen);
    var st := PlanFold(urls, baseLen, maxLen);
    if st.cur != [] {
      FlattenAppend(st.closed, st.cur);
    }
  }

  /** Every batch is non-empty, and there are batches exactly when there are
      URLs. */
  lemma PlanShape(urls: seq<string>, baseLen: int, maxLen: int)
    ensures AllNonEmpty(Plan(urls, baseLen, maxLen))
    ensures Plan(urls, baseLen, maxLen) == [] <==> urls == []
  {
    FoldNonEmpty(urls, baseLen, maxLen);
    FoldTracksLength(urls, baseLen, maxLen);
  }

  /** The budget holds for every batch of two or more URLs; only a batch of a
      single URL can overflow it. */
  lemma PlanWithinBudget(urls: seq<string>, baseLen: int, maxLen: int)
    ensures WithinBudget(Plan(urls, baseLen, maxLen), baseLen, maxLen)
  {
    FoldWithinBudget(urls, baseLen, maxLen);
    FoldTracksLength(urls, baseLen, maxLen);
    var st := PlanFold(urls, baseLen, maxLen);
    var bs := Plan(urls, baseLen, maxLen);
    if st.cur != [] {
      forall k | 0 <= k < |bs| && |bs[k]| >= 2 ensures Charged(bs[k], k > 0, baseLen) <= maxLen {
        if k < |st.closed| {
          assert bs[k] == st.closed[k];
        }
      }
    }
  }

  /** Greedy packing: each batch after the first exists because its first URL
      did not fit into the one before. */
  lemma PlanGreedy(urls: seq<string>, baseLen: int, maxLen: int)
    ensures Greedy(Plan(urls, baseLen, maxLen), baseLen, maxLen)
  {
    FoldGreedy(urls, baseLen, maxLen);
    FoldTracksLength(urls, baseLen, maxLen);
  }

  /** The length of the command line a batch gives: the joined common
      arguments, then a space and the URL for each URL. */
  function CommandLen(b: seq<string>, baseLen: int): int
  {
    baseLen + Cost(b)
  }

  /** Because a seeded batch is charged one less, its real command length can
      exceed the budget by one character; never by more. */
  lemma PlanCommandLenBound(urls: seq<string>, baseLen: int, maxLen: int)
    ensures forall k :: 0 <= k < |Plan(urls, baseLen, maxLen)| && |Plan(urls, baseLen, maxLen)[k]| >= 2 ==>
              CommandLen(Plan(urls, baseLen, maxLen)[k], baseLen) <= maxLen + (if k > 0 then 1 else 0)
  {
    PlanWithinBudget(urls, baseLen, maxLen);
    var bs := Plan(urls, baseLen, maxLen);
    forall k | 0 <= k < |bs| && |bs[k]| >= 2
      ensures CommandLen(bs[k], baseLen) <= maxLen + (if k > 0 then 1 else 0)
    {
      assert Charged(bs[k], k > 0, baseLen) <= maxLen;
    }
  }

  /** Common arguments of length 29990 and two 15-character URLs give two
      single-URL batches: the first URL is accepted though it overflows, and
      the second does not fit next to it. */
  lemma TwoOverflowingUrls()
    ensures Plan(["https://x.com/1", "https://x.com/2"], 29990, MaxCmdLen)
            == [["https://x.com/1"], ["https://x.com/2"]]
  {
    var u1, u2 := "https://x.com/1", "https://x.com/2";
    assert [u1, u2][..1] == [u1];
    assert [u1][..0] == [];
    assert PlanFold([], 29990, MaxCmdLen) == PlanState([], [], 29990);
    assert PlanFold([u1], 29990, MaxCmdLen) == PlanState([], [u1], 30006);
    assert PlanFold([u1, u2], 29990, MaxCmdLen) == PlanState([[u1]], [u2], 30005);
  }

  /** The undercharged seed made visible: with budget 10 and no common
      arguments, "bbb" seeds a batch that "cccccc" then joins, for a command
      of 11 characters. */
  lemma SeedUnderchargeExample()
    ensures Plan(["aaaaaaaaaa", "bbb", "cccccc"], 0, 10) == [["aaaaaaaaaa"], ["bbb", "cccccc"]]
    ensures CommandLen(["bbb", "cccccc"], 0) == 11
  {
    var a, b, c := "aaaaaaaaaa", "bbb", "cccccc";
    assert [a, b, c][..2] == [a, b];
    assert [a, b][..1] == [a];
    assert [a][..0] == [];
    assert PlanFold([a], 0, 10) == PlanState([], [a], 11);
    assert PlanFold([a, b], 0, 10) == PlanState([[a]], [b], 3);
    assert PlanFold([a, b, c], 0, 10) == PlanState([[a]], [b, c], 10);
    assert [b, c][..1] == [b];
    assert [b][..0] == [];
    assert Cost([b]) == 4;
  }
}
