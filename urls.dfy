/** URL normalisation (`_clean_urls`) and the order-preserving
    de-duplication that `start_run` applies to its result. */
module Urls {
  import opened PyText

  /** The two parts of `urllib.parse.urlsplit` that the cleaner reads. */
  datatype SplitUrl = SplitUrl(scheme: string, netloc: string)

  /** The characters `urlsplit` strips from the left of its input. */
  predicate IsC0OrSpace(c: char) { c <= ' ' }

  function LStripC0(s: string): (r: string)
    ensures |r| <= |s|
    ensures r == [] || !IsC0OrSpace(r[0])
  {
    if |s| > 0 && IsC0OrSpace(s[0]) then LStripC0(s[1..]) else s
  }

  /** `urlsplit` deletes tabs and line feeds wherever they occur. */
  function RemoveUnsafe(s: string): (r: string)
    ensures |r| <= |s|
    ensures forall k :: 0 <= k < |r| ==> r[k] != '\t' && r[k] != '\r' && r[k] != '\n'
  {
    if s == [] then []
    else
      var tail := RemoveUnsafe(s[1..]);
      if s[0] in {'\t', '\r', '\n'} then tail else [s[0]] + tail
  }

  predicate IsSchemeChar(c: char) {
    IsAsciiLetter(c) || IsAsciiDigit(c) || c == '+' || c == '-' || c == '.'
  }

  predicate AllSchemeChars(s: string)
    ensures AllSchemeChars(s) ==> forall k :: 0 <= k < |s| ==> IsSchemeChar(s[k])
  {
    s == [] || (IsSchemeChar(s[0]) && AllSchemeChars(s[1..]))
  }

  predicate IsNetlocDelimiter(c: char) { c == '/' || c == '?' || c == '#' }

  /** End of the network location that starts at `from`: the first '/', '?'
      or '#' at or after it, or the end of `s`. */
  function NetlocEnd(s: string, from: nat): (e: nat)
    requires from <= |s|
    ensures from <= e <= |s|
    ensures forall k :: from <= k < e ==> !IsNetlocDelimiter(s[k])
    ensures e < |s| ==> IsNetlocDelimiter(s[e])
    decreases |s| - from
  {
    if from == |s| || IsNetlocDelimiter(s[from]) then from else NetlocEnd(s, from + 1)
  }

  /** The scheme and network location `urlsplit` finds: the scheme is the text
      before the first ':' when it starts with an ASCII letter and holds only
      scheme characters (lower-cased); the network location follows a "//". */
  function UrlSplit(url: string): (r: SplitUrl)
    ensures forall k :: 0 <= k < |r.scheme| ==> IsSchemeChar(r.scheme[k]) && !('A' <= r.scheme[k] <= 'Z')
    ensures forall k :: 0 <= k < |r.netloc| ==> !IsNetlocDelimiter(r.netloc[k])
  {
    var u := RemoveUnsafe(LStripC0(url));
    var i := IndexOf(u, ':');
    var hasScheme := 0 < i < |u| && IsAsciiLetter(u[0]) && AllSchemeChars(u[..i]);
    AsciiLowerSpec(u[..i]);
    var scheme := if hasScheme then AsciiLower(u[..i]) else [];
    var rest := if hasScheme then u[i + 1..] else u;
    var netloc := if |rest| >= 2 && rest[..2] == "//" then rest[2..NetlocEnd(rest, 2)] else [];
    SplitUrl(scheme, netloc)
  }

  /** The test `_clean_urls` applies: scheme http or https and a non-empty
      network location. */
  predicate IsHttpUrl(s: string) {
    var p := UrlSplit(s);
    (p.scheme == "http" || p.scheme == "https") && p.netloc != []
  }

  /** One pair of enclosing angle brackets is removed, and the inside stripped.
      (A one-character line cannot both start with '<' and end with '>'.) */
  function Peel(ln: string): (r: string)
    ensures IsStripped(ln) ==> IsStripped(r)
    ensures |r| <= |ln|
  {
    if |ln| > 0 && ln[0] == '<' && ln[|ln| - 1] == '>' then Strip(ln[1..|ln| - 1]) else ln
  }

  /** `[ln.strip() for ln in text.splitlines()]`. */
  function StrippedLines(text: string): (lines: seq<string>)
    ensures forall k :: 0 <= k < |lines| ==> IsStripped(lines[k])
  {
    var raw := SplitLines(text);
    seq(|raw|, k requires 0 <= k < |raw| => Strip(raw[k]))
  }

  // The list facts below are stated for any URL test `ok`; `_clean_urls`
  // uses `IsHttpUrl`.  Keeping the test a parameter keeps URL parsing out of
  // the proofs about filtering and counting.

  /** What `_clean_urls` does with one stripped line: an empty line is passed
      over, otherwise the peeled text is kept when it passes the test and the
      line is counted as skipped when it does not. */
  datatype Verdict = Blank | Keep(url: string) | Skip

  function VerdictOf(ln: string, ok: string -> bool): (v: Verdict)
    ensures v.Blank? <==> ln == []
    ensures v.Keep? <==> ln != [] && ok(Peel(ln))
    ensures v.Keep? ==> v.url == Peel(ln)
  {
    if ln == [] then Blank else if ok(Peel(ln)) then Keep(Peel(ln)) else Skip
  }

  /** The verdict on every line, line by line. */
  function Verdicts(lines: seq<string>, ok: string -> bool): (vs: seq<Verdict>)
    ensures |vs| == |lines|
  {
    seq(|lines|, k requires 0 <= k < |lines| => VerdictOf(lines[k], ok))
  }

  /** The kept URLs of a list of verdicts, in order. */
  function Kept(vs: seq<Verdict>): seq<string>
  {
    if vs == [] then []
    else Kept(vs[..|vs| - 1]) + if vs[|vs| - 1].Keep? then [vs[|vs| - 1].url] else []
  }

  /** The number of skipped lines among the verdicts. */
  function Skipped(vs: seq<Verdict>): nat
  {
    if vs == [] then 0
    else Skipped(vs[..|vs| - 1]) + if vs[|vs| - 1].Skip? then 1 else 0
  }

  /** The number of verdicts on non-empty lines. */
  function NonBlank(vs: seq<Verdict>): nat
  {
    if vs == [] then 0
    else NonBlank(vs[..|vs| - 1]) + if vs[|vs| - 1].Blank? then 0 else 1
  }

  /** The URLs `_clean_urls` keeps from the stripped lines, in order. */
  function Accepted(lines: seq<string>, ok: string -> bool): seq<string>
  {
    Kept(Verdicts(lines, ok))
  }

  /** The number of non-empty lines `_clean_urls` counts as skipped. */
  function Rejected(lines: seq<string>, ok: string -> bool): nat
  {
    Skipped(Verdicts(lines, ok))
  }

  function NonEmptyCount(lines: seq<string>): nat
  {
    if lines == [] then 0
    else NonEmptyCount(lines[..|lines| - 1]) + if lines[|lines| - 1] == [] then 0 else 1
  }

  /** The verdicts on a prefix are a prefix of the verdicts. */
  lemma VerdictsPrefix(lines: seq<string>, i: nat, ok: string -> bool)
    requires i <= |lines|
    ensures Verdicts(lines[..i], ok) == Verdicts(lines, ok)[..i]
  {
  }

  /** How the kept URLs and the skip count extend by one verdict. */
  lemma VerdictStep(vs: seq<Verdict>, i: nat)
    requires i < |vs|
    ensures Kept(vs[..i + 1]) == Kept(vs[..i]) + if vs[i].Keep? then [vs[i].url] else []
    ensures Skipped(vs[..i + 1]) == Skipped(vs[..i]) + if vs[i].Skip? then 1 else 0
  {
    assert vs[..i + 1][..i] == vs[..i];
  }

  /** `_clean_urls`: the accepted URLs and the number of skipped lines. */
  method CleanUrls(text: string) returns (urls: seq<string>, skipped: nat)
    ensures urls == Accepted(StrippedLines(text), IsHttpUrl)
    ensures skipped == Rejected(StrippedLines(text), IsHttpUrl)
  {
    urls, skipped := FilterLines(StrippedLines(text));
  }

  /** The loop of `_clean_urls` over the stripped lines. */
  method FilterLines(lines: seq<string>) returns (urls: seq<string>, skipped: nat)
    ensures urls == Accepted(lines, IsHttpUrl)
    ensures skipped == Rejected(lines, IsHttpUrl)
  {
    ghost var vs := Verdicts(lines, IsHttpUrl);
    urls, skipped := [], 0;
    var i := 0;
    while i < |lines|
      invariant i <= |lines|
      invariant urls == Kept(vs[..i])
      invariant skipped == Skipped(vs[..i])
    {
      var v := JudgeLine(lines[i]);
      VerdictStep(vs, i);
      match v {
        case Keep(u) => urls := urls + [u];
        case Skip => skipped := skipped + 1;
        case Blank =>
      }
      i := i + 1;
    }
    assert vs[..i] == vs;
  }

  /** The body of that loop for one stripped line: an empty line is passed
      over, angle brackets are peeled, and the URL test decides. */
  method JudgeLine(ln: string) returns (v: Verdict)
    ensures v == VerdictOf(ln, IsHttpUrl)
  {
    if ln == [] {
      return Blank;
    }
    var u := ln;
    if |u| > 0 && u[0] == '<' && u[|u| - 1] == '>' {
      u := Strip(u[1..|u| - 1]);
    }
    var good := IsHttpUrl(u);
    v := if good then Keep(u) else Skip;
  }

  /** Every kept URL has a `Keep` verdict: the index of one is returned. */
  lemma {:induction false} KeptSound(vs: seq<Verdict>, u: string) returns (k: nat)
    requires u in Kept(vs)
    ensures k < |vs| && vs[k] == Keep(u)
  {
    var n := |vs| - 1;
    if u in Kept(vs[..n]) {
      k := KeptSound(vs[..n], u);
      assert vs[..n][k] == vs[k];
    } else {
      k := n;
    }
  }

  /** Every `Keep` verdict contributes its URL. */
  lemma {:induction false} KeptComplete(vs: seq<Verdict>, k: nat)
    requires k < |vs| && vs[k].Keep?
    ensures vs[k].url in Kept(vs)
  {
    var n := |vs| - 1;
    if k < n {
      assert vs[..n][k] == vs[k];
      KeptComplete(vs[..n], k);
    }
  }

  /** Every verdict on a non-empty line is a keep or a skip. */
  lemma {:induction false} KeptPlusSkipped(vs: seq<Verdict>)
    ensures |Kept(vs)| + Skipped(vs) == NonBlank(vs)
  {
    if vs != [] {
      KeptPlusSkipped(vs[..|vs| - 1]);
    }
  }

  /** The non-blank verdicts are the non-empty lines. */
  lemma {:induction false} NonBlankCount(lines: seq<string>, ok: string -> bool)
    ensures NonBlank(Verdicts(lines, ok)) == NonEmptyCount(lines)
  {
    if lines != [] {
      var n := |lines| - 1;
      NonBlankCount(lines[..n], ok);
      VerdictsPrefix(lines, n, ok);
    }
  }

  /** A non-empty stripped line that peels to the accepted URL `u`. */
  predicate YieldsUrl(ln: string, u: string, ok: string -> bool) {
    ln != [] && Peel(ln) == u && ok(u)
  }

  /** Every accepted URL comes from a line: the index of one is returned. */
  lemma AcceptedSound(lines: seq<string>, u: string, ok: string -> bool) returns (k: nat)
    requires u in Accepted(lines, ok)
    ensures k < |lines| && YieldsUrl(lines[k], u, ok)
  {
    k := KeptSound(Verdicts(lines, ok), u);
    assert VerdictOf(lines[k], ok) == Keep(u);
  }

  /** Every non-empty line whose peeled text passes the test is accepted. */
  lemma AcceptedComplete(lines: seq<string>, k: nat, ok: string -> bool)
    requires k < |lines| && lines[k] != [] && ok(Peel(lines[k]))
    ensures Peel(lines[k]) in Accepted(lines, ok)
  {
    assert Verdicts(lines, ok)[k] == VerdictOf(lines[k], ok);
    KeptComplete(Verdicts(lines, ok), k);
  }

  /** Every accepted URL passes the http(s) test and has no surrounding
      whitespace. */
  lemma AcceptedAreUrls(lines: seq<string>, ok: string -> bool)
    requires forall k :: 0 <= k < |lines| ==> IsStripped(lines[k])
    ensures forall k :: 0 <= k < |Accepted(lines, ok)| ==>
              ok(Accepted(lines, ok)[k]) && IsStripped(Accepted(lines, ok)[k])
  {
    forall j | 0 <= j < |Accepted(lines, ok)|
      ensures ok(Accepted(lines, ok)[j]) && IsStripped(Accepted(lines, ok)[j])
    {
      var k := AcceptedSound(lines, Accepted(lines, ok)[j], ok);
    }
  }

  /** A string is accepted exactly when some non-empty line peels to it and
      it passes the http(s) test. */
  lemma AcceptedMembership(lines: seq<string>, u: string, ok: string -> bool)
    ensures u in Accepted(lines, ok) <==> exists k :: 0 <= k < |lines| && YieldsUrl(lines[k], u, ok)
  {
    if u in Accepted(lines, ok) {
      var k := AcceptedSound(lines, u, ok);
    }
    if exists k :: 0 <= k < |lines| && YieldsUrl(lines[k], u, ok) {
      var k :| 0 <= k < |lines| && YieldsUrl(lines[k], u, ok);
      AcceptedComplete(lines, k, ok);
    }
  }

  /** Each non-empty line is either accepted or counted as skipped. */
  lemma AcceptedPlusRejected(lines: seq<string>, ok: string -> bool)
    ensures |Accepted(lines, ok)| + Rejected(lines, ok) == NonEmptyCount(lines)
  {
    KeptPlusSkipped(Verdicts(lines, ok));
    NonBlankCount(lines, ok);
  }

  // ---------- De-duplication ----------

  /** The de-duplicated list: each URL at its first occurrence. */
  function Unique(s: seq<string>): seq<string>
  {
    if s == [] then []
    else
      var init := s[..|s| - 1];
      if s[|s| - 1] in init then Unique(init) else Unique(init) + [s[|s| - 1]]
  }

  predicate NoDuplicates(s: seq<string>) {
    forall i, j :: 0 <= i < j < |s| ==> s[i] != s[j]
  }

  /** The position of the first occurrence of `x` in `s`. */
  function FirstIndex(s: seq<string>, x: string): (i: nat)
    requires x in s
    ensures i < |s| && s[i] == x && x !in s[..i]
  {
    if s[0] == x then 0
    else
      assert s == [s[0]] + s[1..];
      var j := FirstIndex(s[1..], x);
      assert s[..j + 1] == [s[0]] + s[1..][..j];
      j + 1
  }

  /** The dedup loop of `start_run`: the URLs in order, skipping any already
      seen. */
  method Dedup(urlsRaw: seq<string>) returns (urls: seq<string>)
    ensures urls == Unique(urlsRaw)
  {
    var seen: set<string> := {};
    urls := [];
    var i := 0;
    while i < |urlsRaw|
      invariant i <= |urlsRaw|
      invariant urls == Unique(urlsRaw[..i])
      invariant forall x :: x in seen <==> x in urlsRaw[..i]
    {
      var u := urlsRaw[i];
      assert urlsRaw[..i + 1][..i] == urlsRaw[..i];
      if u !in seen {
        urls := urls + [u];
        seen := seen + {u};
      }
      i := i + 1;
    }
    assert urlsRaw[..i] == urlsRaw;
  }

  /** De-duplication keeps exactly the URLs of its input. */
  lemma {:induction false} UniqueSameElements(s: seq<string>)
    ensures forall x :: x in Unique(s) <==> x in s
  {
    if s != [] {
      var init := s[..|s| - 1];
      UniqueSameElements(init);
      assert s == init + [s[|s| - 1]];
    }
  }

  /** The result holds no URL twice. */
  lemma {:induction false} UniqueHasNoDuplicates(s: seq<string>)
    ensures NoDuplicates(Unique(s))
  {
    if s != [] {
      var init := s[..|s| - 1];
      UniqueHasNoDuplicates(init);
      UniqueSameElements(init);
    }
  }

  /** The result lists the URLs in the order of their first occurrence. */
  lemma {:induction false} UniqueKeepsFirstOccurrenceOrder(s: seq<string>)
    ensures forall x :: x in Unique(s) ==> x in s
    ensures forall i, j :: 0 <= i < j < |Unique(s)| ==>
              FirstIndex(s, Unique(s)[i]) < FirstIndex(s, Unique(s)[j])
  {
    UniqueSameElements(s);
    if s != [] {
      var init := s[..|s| - 1];
      var last := s[|s| - 1];
      var u := Unique(init);
      var w := Unique(s);
      UniqueKeepsFirstOccurrenceOrder(init);
      UniqueSameElements(init);
      if last in init {
        assert w == u;
      } else {
        assert w == u + [last];
      }
      forall i, j | 0 <= i < j < |w|
        ensures FirstIndex(s, w[i]) < FirstIndex(s, w[j])
      {
        assert w[i] == u[i];
        FirstIndexInit(s, u[i]);
        if j < |u| {
          assert w[j] == u[j];
          FirstIndexInit(s, u[j]);
        } else {
          assert w[j] == last;
          FirstIndexUnique(s, last, |s| - 1);
        }
      }
    }
  }

  /** Before the last element, the first occurrence is found in the rest. */
  lemma FirstIndexInit(s: seq<string>, x: string)
    requires s != [] && x in s[..|s| - 1]
    ensures FirstIndex(s, x) == FirstIndex(s[..|s| - 1], x)
  {
    var init := s[..|s| - 1];
    var f := FirstIndex(init, x);
    assert s[..f] == init[..f];
    FirstIndexUnique(s, x, f);
  }

  /** The first occurrence is the only position with nothing equal before it. */
  lemma FirstIndexUnique(s: seq<string>, x: string, i: nat)
    requires i < |s| && s[i] == x && x !in s[..i]
    ensures FirstIndex(s, x) == i
  {
  }

  /** A list without duplicates is left as it is. */
  lemma {:induction false} UniqueOfDistinct(s: seq<string>)
    requires NoDuplicates(s)
    ensures Unique(s) == s
  {
    if s != [] {
      var init := s[..|s| - 1];
      UniqueOfDistinct(init);
      assert s == init + [s[|s| - 1]];
    }
  }

  /** The length of the result is the number of distinct URLs, so
      `len(urls_raw) - len(urls)` is the number of repeated entries removed. */
  lemma UniqueLength(s: seq<string>)
    ensures |Unique(s)| == |set x | x in s|
  {
    UniqueHasNoDuplicates(s);
    UniqueSameElements(s);
    DistinctCard(Unique(s));
    assert (set x | x in Unique(s)) == (set x | x in s);
  }

  /** De-duplication never lengthens the list and leaves a non-empty list
      non-empty, so the number of removed entries is a natural number. */
  lemma {:induction false} UniqueShorter(s: seq<string>)
    ensures |Unique(s)| <= |s|
    ensures s != [] ==> Unique(s) != []
  {
    if s != [] {
      UniqueShorter(s[..|s| - 1]);
      UniqueSameElements(s);
      assert s[|s| - 1] in s;
    }
  }

  lemma {:induction false} DistinctCard(t: seq<string>)
    requires NoDuplicates(t)
    ensures |set x | x in t| == |t|
  {
    if t != [] {
      var init := t[..|t| - 1];
      DistinctCard(init);
      assert (set x | x in t) == (set x | x in init) + {t[|t| - 1]};
    }
  }
}
