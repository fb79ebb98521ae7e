/** The version helpers: `is_newer`, which compares two version strings as
    Python compares lists of integers, and `parse_version`, the regular
    expression `\b(\d+\.\d+(?:\.\d+)*)\b` searched for in the output of
    `gallery-dl --version`.  Digits and word characters are the ASCII ones. */
module Versions {
  import opened Wrappers
  import opened PyText

  // ---------- is_newer ----------

  /** `v.split("-", 1)[0]`: the text before the first dash. */
  function MainPart(v: string): (m: string)
    ensures '-' !in m
    ensures '-' !in v ==> m == v
  {
    v[..IndexOf(v, '-')]
  }

  /** `[int(x) for x in pieces if x.isdigit()]` on pieces of ASCII digits. */
  function DigitParts(pieces: seq<string>): (ns: seq<nat>)
    ensures |ns| <= |pieces|
  {
    if pieces == [] then []
    else (if IsDigits(pieces[0]) then [DigitsValue(pieces[0])] else []) + DigitParts(pieces[1..])
  }

  /** The `parts` helper of `is_newer`. */
  function Parts(v: string): seq<nat> {
    DigitParts(Split(MainPart(v), '.'))
  }

  /** Python's `a < b` on lists of integers. */
  predicate ListLess(a: seq<nat>, b: seq<nat>)
    decreases |a|
  {
    if a == [] then b != []
    else b != [] && (a[0] < b[0] || (a[0] == b[0] && ListLess(a[1..], b[1..])))
  }

  /** `is_newer(local, remote)`: `parts(remote) > parts(local)`, with
      `isdigit` and `int` taken on ASCII digits.  On those `int` always
      succeeds, so the `except` branch, which Python reaches through a piece
      of non-decimal Unicode digits such as "\u00b2", does not arise. */
  predicate IsNewer(local: string, remote: string) {
    ListLess(Parts(local), Parts(remote))
  }

  // ---------- The list order ----------

  lemma {:induction false} ListLessIrreflexive(a: seq<nat>)
    ensures !ListLess(a, a)
    decreases |a|
  {
    if a != [] {
      ListLessIrreflexive(a[1..]);
    }
  }

  lemma {:induction false} ListLessAsymmetric(a: seq<nat>, b: seq<nat>)
    requires ListLess(a, b)
    ensures !ListLess(b, a)
    decreases |a|
  {
    if a != [] && a[0] == b[0] {
      ListLessAsymmetric(a[1..], b[1..]);
    }
  }

  lemma {:induction false} ListLessTransitive(a: seq<nat>, b: seq<nat>, c: seq<nat>)
    requires ListLess(a, b) && ListLess(b, c)
    ensures ListLess(a, c)
    decreases |a|
  {
    if a != [] && a[0] == b[0] && b[0] == c[0] {
      ListLessTransitive(a[1..], b[1..], c[1..]);
    }
  }

  /** Two different lists are always ordered one way or the other. */
  lemma {:induction false} ListLessTotal(a: seq<nat>, b: seq<nat>)
    requires a != b
    ensures ListLess(a, b) || ListLess(b, a)
    decreases |a|
  {
    if a != [] && b != [] && a[0] == b[0] {
      ListLessTotal(a[1..], b[1..]);
    }
  }

  /** The textbook definition of the lexicographic order: after a common
      prefix either `a` runs out first or its next element is smaller. */
  predicate LessAt(a: seq<nat>, b: seq<nat>, k: nat) {
    k <= |a| && k <= |b| && a[..k] == b[..k]
    && ((k == |a| && k < |b|) || (k < |a| && k < |b| && a[k] < b[k]))
  }

  lemma {:induction false} ListLessHasWitness(a: seq<nat>, b: seq<nat>) returns (k: nat)
    requires ListLess(a, b)
    ensures LessAt(a, b, k)
    decreases |a|
  {
    if a == [] || a[0] < b[0] {
      k := 0;
    } else {
      var k' := ListLessHasWitness(a[1..], b[1..]);
      k := k' + 1;
      assert a[..k] == [a[0]] + a[1..][..k'];
      assert b[..k] == [b[0]] + b[1..][..k'];
    }
  }

  lemma {:induction false} WitnessGivesListLess(a: seq<nat>, b: seq<nat>, k: nat)
    requires LessAt(a, b, k)
    ensures ListLess(a, b)
    decreases k
  {
    if k > 0 {
      assert a[0] == a[..k][0] && b[0] == b[..k][0];
      assert a[1..][..k - 1] == a[..k][1..] && b[1..][..k - 1] == b[..k][1..];
      WitnessGivesListLess(a[1..], b[1..], k - 1);
    }
  }

  /** `ListLess` is the lexicographic order. */
  lemma ListLessMeans(a: seq<nat>, b: seq<nat>)
    ensures ListLess(a, b) <==> exists k: nat :: LessAt(a, b, k)
  {
    if ListLess(a, b) {
      var k := ListLessHasWitness(a, b);
    }
    if exists k: nat :: LessAt(a, b, k) {
      var k: nat :| LessAt(a, b, k);
      WitnessGivesListLess(a, b, k);
    }
  }

  /** A version is never newer than itself, and of two versions at most one
      is newer than the other. */
  lemma IsNewerIsStrict(v: string, w: string)
    ensures !IsNewer(v, v)
    ensures IsNewer(v, w) ==> !IsNewer(w, v)
  {
    ListLessIrreflexive(Parts(v));
    if IsNewer(v, w) {
      ListLessAsymmetric(Parts(v), Parts(w));
    }
  }

  lemma IsNewerTransitive(u: string, v: string, w: string)
    requires IsNewer(u, v) && IsNewer(v, w)
    ensures IsNewer(u, w)
  {
    ListLessTransitive(Parts(u), Parts(v), Parts(w));
  }

  // ---------- Splitting and joining ----------

  lemma IndexOfAt(a: string, c: char, b: string)
    requires c !in a
    ensures IndexOf(a + [c] + b, c) == |a|
  {
    var s := a + [c] + b;
    assert s[..|a|] == a;
    assert s[|a|] == c;
  }

  lemma IndexOfAbsent(a: string, c: char)
    requires c !in a
    ensures IndexOf(a, c) == |a|
  {
  }

  /** Splitting after one piece and a separator. */
  lemma SplitCons(d: string, sep: char, r: string)
    requires sep !in d
    ensures Split(d + [sep] + r, sep) == [d] + Split(r, sep)
  {
    var s := d + [sep] + r;
    IndexOfAt(d, sep, r);
    assert s[..|d|] == d;
    assert s[|d| + 1..] == r;
  }

  /** Splitting the join of pieces without the separator gives the pieces
      back. */
  lemma {:induction false} JoinSplit(parts: seq<string>, sep: char)
    requires |parts| >= 1
    requires forall k :: 0 <= k < |parts| ==> sep !in parts[k]
    ensures Split(Join(parts, [sep]), sep) == parts
    decreases |parts|
  {
    if |parts| == 1 {
      IndexOfAbsent(parts[0], sep);
    } else {
      JoinSplit(parts[1..], sep);
      SplitCons(parts[0], sep, Join(parts[1..], [sep]));
      assert [parts[0]] + parts[1..] == parts;
    }
  }

  lemma {:induction false} JoinAvoids(parts: seq<string>, sep: string, c: char)
    requires c !in sep
    requires forall k :: 0 <= k < |parts| ==> c !in parts[k]
    ensures c !in Join(parts, sep)
    decreases |parts|
  {
    if |parts| > 1 {
      JoinAvoids(parts[1..], sep, c);
    }
  }

  // ---------- Versions as numbers ----------

  /** The decimal renderings of a list of numbers. */
  function NatStrings(ns: seq<nat>): (ps: seq<string>)
    ensures |ps| == |ns|
    ensures forall k :: 0 <= k < |ns| ==> ps[k] == NatToString(ns[k])
  {
    if ns == [] then [] else [NatToString(ns[0])] + NatStrings(ns[1..])
  }

  /** The version string of a list of numbers, `".".join(map(str, ns))`. */
  function Render(ns: seq<nat>): string {
    Join(NatStrings(ns), ".")
  }

  lemma {:induction false} DigitPartsOfNatStrings(ns: seq<nat>)
    ensures DigitParts(NatStrings(ns)) == ns
    decreases |ns|
  {
    if ns != [] {
      NatToStringValue(ns[0]);
      DigitPartsOfNatStrings(ns[1..]);
      assert NatStrings(ns)[1..] == NatStrings(ns[1..]);
      assert [ns[0]] + ns[1..] == ns;
    }
  }

  /** `parts` reads a rendered version back as its numbers. */
  lemma PartsOfRender(ns: seq<nat>)
    ensures Parts(Render(ns)) == ns
  {
    var ps := NatStrings(ns);
    forall k | 0 <= k < |ps| ensures '-' !in ps[k] && '.' !in ps[k] {
      assert IsDigits(ps[k]);
    }
    JoinAvoids(ps, ".", '-');
    if ns == [] {
      assert Render(ns) == [];
      assert Split([], '.') == [[]];
    } else {
      JoinSplit(ps, '.');
    }
    DigitPartsOfNatStrings(ns);
  }

  /** On rendered versions `is_newer` is exactly the lexicographic order of
      the numbers: "1.10" is newer than "1.9" and "1.2.1" than "1.2". */
  lemma IsNewerOnNumbers(a: seq<nat>, b: seq<nat>)
    ensures IsNewer(Render(a), Render(b)) <==> ListLess(a, b)
  {
    PartsOfRender(a);
    PartsOfRender(b);
  }

  /** Text after the first dash is ignored. */
  lemma IgnoresSuffix(v: string, suffix: string)
    requires '-' !in v
    ensures Parts(v + ['-'] + suffix) == Parts(v)
  {
    IndexOfAt(v, '-', suffix);
    assert (v + ['-'] + suffix)[..|v|] == v;
  }

  lemma NumericExamples()
    ensures IsNewer("1.9", "1.10") && !IsNewer("1.10", "1.9")
    ensures IsNewer("1.2", "1.2.1")
  {
    assert Render([1, 9]) == "1.9";
    assert Render([1, 10]) == "1.10";
    assert Render([1, 2]) == "1.2";
    assert Render([1, 2, 1]) == "1.2.1";
    IsNewerOnNumbers([1, 9], [1, 10]);
    IsNewerOnNumbers([1, 10], [1, 9]);
    IsNewerOnNumbers([1, 2], [1, 2, 1]);
  }

  // ---------- parse_version ----------

  /** `\b` before position `i` where a digit follows. */
  predicate BoundBefore(s: string, i: nat)
    requires i <= |s|
  {
    i == 0 || !IsWordChar(s[i - 1])
  }

  /** `\b` at position `e` after a digit. */
  predicate BoundAfter(s: string, e: nat) {
    e >= |s| || !IsWordChar(s[e])
  }

  /** Pieces joined by dots, every piece a non-empty run of digits. */
  predicate IsDotNums(t: string) {
    forall k :: 0 <= k < |Split(t, '.')| ==> IsDigits(Split(t, '.')[k])
  }

  /** What the group of the pattern captures: at least two digit groups
      joined by single dots. */
  predicate IsVersion(t: string) {
    |Split(t, '.')| >= 2 && IsDotNums(t)
  }

  /** The pattern matches the text between `i` and `e`. */
  predicate IsVersionAt(s: string, i: nat, e: nat) {
    i < e <= |s| && BoundBefore(s, i) && BoundAfter(s, e) && IsVersion(s[i..e])
  }

  /** End of the run of digits starting at `p` (`\d+` is greedy). */
  function DigitEnd(s: string, p: nat): (g: nat)
    requires p <= |s|
    ensures p <= g <= |s|
    ensures forall k :: p <= k < g ==> IsAsciiDigit(s[k])
    ensures g < |s| ==> !IsAsciiDigit(s[g])
    decreases |s| - p
  {
    if p == |s| || !IsAsciiDigit(s[p]) then p else DigitEnd(s, p + 1)
  }

  lemma DigitEndExact(s: string, p: nat, x: nat)
    requires p <= x <= |s|
    requires forall k :: p <= k < x ==> IsAsciiDigit(s[k])
    requires x < |s| ==> !IsAsciiDigit(s[x])
    ensures DigitEnd(s, p) == x
  {
  }

  /** A digit starts a group at `q`. */
  predicate GroupStart(s: string, q: nat) {
    q < |s| && IsAsciiDigit(s[q])
  }

  /** Another `\.\d+` follows the group ending at `g`. */
  predicate Continues(s: string, g: nat) {
    g + 1 < |s| && s[g] == '.' && IsAsciiDigit(s[g + 1])
  }

  /** The text from `q` to `e` is read, group by group, as maximal digit
      runs separated by single dots. */
  predicate Groups(s: string, q: nat, e: nat)
    requires q <= e <= |s|
    decreases e - q
  {
    var g := DigitEnd(s, q);
    q < g <= e && (g == e || (s[g] == '.' && Groups(s, g + 1, e)))
  }

  /** A match of the pattern from `i` to `e`, position by position. */
  predicate VersionSpan(s: string, i: nat, e: nat) {
    i < e <= |s| && BoundBefore(s, i) && BoundAfter(s, e) && Groups(s, i, e) && DigitEnd(s, i) < e
  }

  lemma DigitsSpan(s: string, q: nat, g: nat)
    requires q < g <= |s|
    requires forall k :: q <= k < g ==> IsAsciiDigit(s[k])
    ensures Split(s[q..g], '.') == [s[q..g]]
    ensures IsDotNums(s[q..g])
  {
    IndexOfAbsent(s[q..g], '.');
  }

  lemma DotNumsCons(s: string, q: nat, g: nat, e: nat)
    requires q < g && g + 1 < e <= |s|
    requires forall k :: q <= k < g ==> IsAsciiDigit(s[k])
    requires s[g] == '.'
    requires IsDotNums(s[g + 1..e])
    ensures Split(s[q..e], '.') == [s[q..g]] + Split(s[g + 1..e], '.')
    ensures IsDotNums(s[q..e])
  {
    DigitsSpan(s, q, g);
    assert '.' !in s[q..g];
    assert s[q..e] == s[q..g] + ['.'] + s[g + 1..e];
    SplitCons(s[q..g], '.', s[g + 1..e]);
  }

  /** A run of dotted groups opens with a digit. */
  lemma DotNumsHead(t: string)
    requires IsDotNums(t)
    ensures |t| > 0 && IsAsciiDigit(t[0])
  {
    var m := IndexOf(t, '.');
    assert Split(t, '.')[0] == t[..m];
    assert IsDigits(t[..m]);
    assert t[..m][0] == t[0];
  }

  /** The first group of a run of dotted groups and what follows it. */
  lemma DotNumsFirst(t: string) returns (m: nat)
    requires IsDotNums(t)
    ensures 0 < m <= |t| && forall k :: 0 <= k < m ==> IsAsciiDigit(t[k])
    ensures m == |t| ==> |Split(t, '.')| == 1
    ensures m < |t| ==>
              (t[m] == '.' && IsDotNums(t[m + 1..]) && |Split(t, '.')| == 1 + |Split(t[m + 1..], '.')|)
  {
    m := IndexOf(t, '.');
    var ps := Split(t, '.');
    assert ps[0] == t[..m];
    assert IsDigits(t[..m]);
    forall k | 0 <= k < m ensures IsAsciiDigit(t[k]) {
      assert t[k] == t[..m][k];
    }
    if m < |t| {
      var rest := Split(t[m + 1..], '.');
      assert ps == [t[..m]] + rest;
      forall k | 0 <= k < |rest| ensures IsDigits(rest[k]) {
        assert rest[k] == ps[k + 1];
      }
    }
  }

  /** Reading a run of dotted groups from its first group on. */
  lemma DotNumsUncons(s: string, q: nat, e: nat) returns (g: nat)
    requires q < e <= |s| && BoundAfter(s, e)
    requires IsDotNums(s[q..e])
    ensures g == DigitEnd(s, q) && q < g <= e
    ensures g == e ==> |Split(s[q..e], '.')| == 1
    ensures g < e ==>
              (s[g] == '.' && g + 1 < e && IsDotNums(s[g + 1..e])
               && |Split(s[q..e], '.')| == 1 + |Split(s[g + 1..e], '.')|)
  {
    var t := s[q..e];
    var m := DotNumsFirst(t);
    forall k | q <= k < q + m ensures IsAsciiDigit(s[k]) {
      assert s[k] == t[k - q];
    }
    g := q + m;
    if m == |t| {
      DigitEndExact(s, q, e);
    } else {
      assert s[g] == t[m];
      DigitEndExact(s, q, g);
      var rest := s[g + 1..e];
      assert t[m + 1..] == rest;
      DotNumsHead(rest);
    }
  }

  /** A run of dotted groups is read group by group. */
  lemma {:induction false} DotNumsGroups(s: string, q: nat, e: nat)
    requires q < e <= |s| && BoundAfter(s, e)
    requires IsDotNums(s[q..e])
    ensures Groups(s, q, e)
    ensures |Split(s[q..e], '.')| >= 2 ==> DigitEnd(s, q) < e
    decreases e - q
  {
    var g := DotNumsUncons(s, q, e);
    if g < e {
      DotNumsGroups(s, g + 1, e);
    }
  }

  /** What is read group by group is a run of dotted groups. */
  lemma {:induction false} GroupsDotNums(s: string, q: nat, e: nat)
    requires q < e <= |s|
    requires Groups(s, q, e)
    ensures IsDotNums(s[q..e])
    ensures DigitEnd(s, q) < e ==> |Split(s[q..e], '.')| >= 2
    decreases e - q
  {
    var g := DigitEnd(s, q);
    if g == e {
      DigitsSpan(s, q, g);
    } else {
      assert Groups(s, g + 1, e);
      GroupsDotNums(s, g + 1, e);
      DotNumsCons(s, q, g, e);
    }
  }

  /** The two readings of a match agree. */
  lemma VersionAtMeans(s: string, i: nat, e: nat)
    ensures IsVersionAt(s, i, e) <==> VersionSpan(s, i, e)
  {
    if i < e <= |s| && BoundAfter(s, e) {
      if IsVersion(s[i..e]) {
        DotNumsGroups(s, i, e);
      }
      if Groups(s, i, e) {
        GroupsDotNums(s, i, e);
      }
    }
  }

  lemma VersionAtMeansAll(s: string)
    ensures forall i: nat, e: nat :: IsVersionAt(s, i, e) <==> VersionSpan(s, i, e)
  {
    forall i: nat, e: nat ensures IsVersionAt(s, i, e) <==> VersionSpan(s, i, e) {
      VersionAtMeans(s, i, e);
    }
  }

  /** The groups `(?:\.\d+)*` and the closing `\b`, tried from the group
      starting at `q`: the star takes every further group it can and gives
      them back one at a time until a boundary follows. */
  function Tail(s: string, q: nat): (r: Option<nat>)
    requires GroupStart(s, q)
    ensures r.Some? ==> DigitEnd(s, q) <= r.value <= |s| && BoundAfter(s, r.value)
    decreases |s| - q
  {
    var g := DigitEnd(s, q);
    if Continues(s, g) then
      match Tail(s, g + 1)
      case Some(e) => Some(e)
      case None => Some(g)
    else if BoundAfter(s, g) then Some(g)
    else None
  }

  /** What `Tail` picks is a run of dotted groups. */
  lemma {:induction false} TailSound(s: string, q: nat)
    requires GroupStart(s, q) && Tail(s, q).Some?
    ensures Groups(s, q, Tail(s, q).value)
    decreases |s| - q
  {
    var g := DigitEnd(s, q);
    if Continues(s, g) && Tail(s, g + 1).Some? {
      TailSound(s, g + 1);
    }
  }

  /** Every run of dotted groups from `q` that ends at a boundary ends at
      or before the end `Tail` picks. */
  lemma {:induction false} TailComplete(s: string, q: nat, e: nat)
    requires GroupStart(s, q) && q <= e <= |s| && BoundAfter(s, e)
    requires Groups(s, q, e)
    ensures Tail(s, q).Some? && e <= Tail(s, q).value
    decreases |s| - q
  {
    var g := DigitEnd(s, q);
    if g < e {
      assert DigitEnd(s, g + 1) > g + 1;
      TailComplete(s, g + 1, e);
    }
  }

  /** The pattern tried at position `i`: the longest match starting there. */
  function MatchAt(s: string, i: nat): (r: Option<nat>)
    requires i <= |s|
    ensures r.Some? ==> VersionSpan(s, i, r.value)
    ensures forall e: nat :: VersionSpan(s, i, e) ==> r.Some? && e <= r.value
  {
    MatchAtComplete(s, i);
    if i < |s| && BoundBefore(s, i) && IsAsciiDigit(s[i]) && Continues(s, DigitEnd(s, i)) then
      var g := DigitEnd(s, i);
      match Tail(s, g + 1)
      case Some(e) =>
        TailSound(s, g + 1);
        Some(e)
      case None => None
    else None
  }

  lemma MatchAtComplete(s: string, i: nat)
    requires i <= |s|
    ensures forall e: nat :: VersionSpan(s, i, e) ==>
              i < |s| && IsAsciiDigit(s[i]) && Continues(s, DigitEnd(s, i))
              && Tail(s, DigitEnd(s, i) + 1).Some? && e <= Tail(s, DigitEnd(s, i) + 1).value
  {
    forall e: nat | VersionSpan(s, i, e)
      ensures i < |s| && IsAsciiDigit(s[i]) && Continues(s, DigitEnd(s, i))
              && Tail(s, DigitEnd(s, i) + 1).Some? && e <= Tail(s, DigitEnd(s, i) + 1).value
    {
      var g := DigitEnd(s, i);
      assert s[g] == '.' && Groups(s, g + 1, e);
      assert DigitEnd(s, g + 1) > g + 1;
      TailComplete(s, g + 1, e);
    }
  }

  /** `re.search` from position `i` on. */
  function SearchFrom(s: string, i: nat): (r: Option<(nat, nat)>)
    requires i <= |s|
    ensures r.Some? ==> i <= r.value.0 && VersionSpan(s, r.value.0, r.value.1)
    ensures r.Some? ==> forall i': nat, e': nat :: i <= i' < r.value.0 ==> !VersionSpan(s, i', e')
    ensures r.Some? ==> forall e': nat :: VersionSpan(s, r.value.0, e') ==> e' <= r.value.1
    ensures r.None? ==> forall i': nat, e': nat :: i <= i' ==> !VersionSpan(s, i', e')
    decreases |s| - i
  {
    if i == |s| then
      assert forall i': nat, e': nat :: i <= i' ==> !VersionSpan(s, i', e');
      None
    else
      match MatchAt(s, i)
      case Some(e) => Some((i, e))
      case None => SearchFrom(s, i + 1)
  }

  /** `parse_version(text)`: the captured group of the first match. */
  function ParseVersion(text: string): (r: Option<string>)
    ensures r.Some? ==> IsVersion(r.value)
    ensures r.None? <==> forall i: nat, e: nat :: !IsVersionAt(text, i, e)
  {
    VersionAtMeansAll(text);
    match SearchFrom(text, 0)
    case None => None
    case Some((i, e)) => Some(text[i..e])
  }

  /** The result is the leftmost match, and the longest at its start. */
  lemma ParseVersionLeftmostLongest(text: string, v: string)
    requires ParseVersion(text) == Some(v)
    ensures exists i: nat, e: nat :: IsVersionAt(text, i, e) && v == text[i..e]
              && (forall i': nat, e': nat :: i' < i ==> !IsVersionAt(text, i', e'))
              && (forall e': nat :: IsVersionAt(text, i, e') ==> e' <= e)
  {
    VersionAtMeansAll(text);
    var m := SearchFrom(text, 0);
    var i, e := m.value.0, m.value.1;
    assert IsVersionAt(text, i, e) && v == text[i..e];
    assert forall i': nat, e': nat :: i' < i ==> !IsVersionAt(text, i', e');
    assert forall e': nat :: IsVersionAt(text, i, e') ==> e' <= e;
  }

  /** A parsed version holds no dash, so `is_newer` reads every one of its
      groups. */
  lemma ParsedVersionParts(v: string)
    requires IsVersion(v)
    ensures |Parts(v)| == |Split(v, '.')| >= 2
  {
    var ps := Split(v, '.');
    forall k | 0 <= k < |ps| ensures '-' !in ps[k] {
      assert IsDigits(ps[k]);
    }
    SplitJoin(v, '.');
    JoinAvoids(ps, ".", '-');
    DigitPartsKeepsDigits(ps);
  }

  lemma {:induction false} DigitPartsKeepsDigits(pieces: seq<string>)
    requires forall k :: 0 <= k < |pieces| ==> IsDigits(pieces[k])
    ensures |DigitParts(pieces)| == |pieces|
    decreases |pieces|
  {
    if pieces != [] {
      DigitPartsKeepsDigits(pieces[1..]);
    }
  }
}
