/** The media-path matcher of the live classifier (`file_re` in
    `_read_output`): a search for an absolute path, Windows (`C:\...`) or
    POSIX (`/...`), that ends in a known image or video extension.

    The pattern is written out as the search Python's regular-expression
    engine performs: the leftmost start position that admits a match, and
    there, because the path body `[^:*?"<>|\r\n]+` is greedy, the last dot
    that is followed by an extension and a word boundary.  `IsMatch` is the
    declarative reading of the pattern; `FindMediaPath` is proved to pick
    the leftmost, then longest, of the positions `IsMatch` admits.

    `re.IGNORECASE` is modelled by `FoldChar`, the case folding CPython's
    matcher applies when it compares a character with an ASCII letter of
    the pattern. */
module MediaPath {
  import opened Wrappers
  import opened PyText

  /** The character `re.IGNORECASE` compares with an ASCII letter or digit
      of the pattern: an upper-case ASCII letter folds to lower case, and so
      do the four non-ASCII characters CPython's matcher takes as case
      variants of ASCII letters: U+0130 and U+0131 of "i", U+017F of "s" and
      the Kelvin sign U+212A of "k". */
  function FoldChar(c: char): char {
    if 'A' <= c <= 'Z' then (c as int + 32) as char
    else if c == '\U{130}' || c == '\U{131}' then 'i'
    else if c == '\U{17F}' then 's'
    else if c == '\U{212A}' then 'k'
    else c
  }

  /** The drive letter `[A-Za-z]` under `re.IGNORECASE`: the ASCII letters and
      the four non-ASCII case variants; on ASCII the folding is lower-casing. */
  lemma FoldCharSpec(c: char)
    ensures IsAsciiLetter(FoldChar(c)) <==>
              IsAsciiLetter(c) || c == '\U{130}' || c == '\U{131}' || c == '\U{17F}' || c == '\U{212A}'
    ensures c < '\U{80}' ==> FoldChar(c) == AsciiLowerChar(c)
    ensures IsAsciiDigit(FoldChar(c)) <==> IsAsciiDigit(c)
  {
  }

  /** A character the path body `[^:*?"<>|\r\n]` accepts. */
  predicate IsPathChar(c: char) {
    c != ':' && c != '*' && c != '?' && c != '"' && c != '<' && c != '>'
    && c != '|' && c != '\r' && c != '\n'
  }

  /** The extension alternatives in the order the pattern tries them
      (`jpe?g` tries "jpeg" before "jpg"). */
  const Exts: seq<string> := ["jpeg", "jpg", "png", "gif", "webp", "mp4", "webm", "mkv", "mov", "avi"]

  /** `\b` at position `j` after a word character: the end of the text or a
      non-word character. */
  predicate BoundaryAt(s: string, j: nat) {
    j >= |s| || !IsWordChar(s[j])
  }

  /** Extension `e` matches at position `j`, case-insensitively, and is
      followed by a word boundary. */
  predicate ExtAt(s: string, j: nat, e: string) {
    j + |e| <= |s| && LowerPrefix(s, j, e) && BoundaryAt(s, j + |e|)
  }

  /** `e` occurs at position `j` of `s` when `s` is read case-folded. */
  predicate LowerPrefix(s: string, j: nat, e: string)
    decreases |e|
  {
    e == [] || (j < |s| && FoldChar(s[j]) == e[0] && LowerPrefix(s, j + 1, e[1..]))
  }

  /** The first alternative of `es` that matches at `j`. */
  function FirstExt(s: string, j: nat, es: seq<string>): (r: Option<string>)
    ensures r.Some? ==> ExtAt(s, j, r.value)
  {
    if es == [] then None
    else if ExtAt(s, j, es[0]) then Some(es[0])
    else FirstExt(s, j, es[1..])
  }

  /** `FirstExt` returns one of the alternatives, and finds none only when
      none matches. */
  lemma {:induction false} FirstExtSpec(s: string, j: nat, es: seq<string>)
    ensures FirstExt(s, j, es).Some? ==> exists k :: 0 <= k < |es| && es[k] == FirstExt(s, j, es).value
    ensures FirstExt(s, j, es).None? ==> forall k :: 0 <= k < |es| ==> !ExtAt(s, j, es[k])
  {
    if es != [] && !ExtAt(s, j, es[0]) {
      FirstExtSpec(s, j, es[1..]);
      if FirstExt(s, j, es).Some? {
        var k :| 0 <= k < |es[1..]| && es[1..][k] == FirstExt(s, j, es).value;
        assert es[k + 1] == FirstExt(s, j, es).value;
      } else {
        assert forall k :: 1 <= k < |es| ==> es[k] == es[1..][k - 1];
      }
    } else if es != [] {
      assert es[0] == FirstExt(s, j, es).value;
    }
  }

  /** Length of the root a match starting at `i` opens with: 3 for a drive
      `[A-Za-z]:\`, 1 for `/`, 0 when neither alternative can start there. */
  function Lead(s: string, i: nat): (n: nat)
    ensures n == 0 || n == 1 || n == 3
    ensures n > 0 ==> i + n <= |s|
  {
    if i + 3 <= |s| && IsAsciiLetter(FoldChar(s[i])) && s[i + 1] == ':' && s[i + 2] == '\\' then 3
    else if i < |s| && s[i] == '/' then 1
    else 0
  }

  /** A dot at `d` followed by an extension and a boundary. */
  predicate DotExt(s: string, d: nat) {
    d < |s| && s[d] == '.' && FirstExt(s, d + 1, Exts).Some?
  }

  /** The pattern matches starting at `i` with its path body ending at the
      dot `q`: a root, at least one path character, the dot, an extension. */
  predicate IsMatch(s: string, i: nat, q: nat) {
    Lead(s, i) > 0 && i + Lead(s, i) < q < |s|
    && (forall k :: i + Lead(s, i) <= k < q ==> IsPathChar(s[k]))
    && DotExt(s, q)
  }

  /** Index of the first character at or after `p` the path body refuses. */
  function RunEnd(s: string, p: nat): (e: nat)
    requires p <= |s|
    ensures p <= e <= |s|
    ensures e < |s| ==> !IsPathChar(s[e])
    decreases |s| - p
  {
    if p == |s| || !IsPathChar(s[p]) then p else RunEnd(s, p + 1)
  }

  /** Everything from `p` up to `RunEnd(s, p)` is a path character. */
  lemma {:induction false} RunEndSpec(s: string, p: nat)
    requires p <= |s|
    ensures forall k :: p <= k < RunEnd(s, p) ==> IsPathChar(s[k])
    decreases |s| - p
  {
    if p < |s| && IsPathChar(s[p]) {
      RunEndSpec(s, p + 1);
    }
  }

  /** The greedy body backing off: the last dot `d` with `p < d <= q` that
      is followed by an extension. */
  function LastDotExt(s: string, p: nat, q: nat): (r: Option<nat>)
    ensures r.Some? ==> p < r.value <= q && DotExt(s, r.value)
    decreases q
  {
    if q <= p then None
    else if DotExt(s, q) then Some(q)
    else LastDotExt(s, p, q - 1)
  }

  /** No admissible dot lies after the one `LastDotExt` picks, and none at
      all when it picks none. */
  lemma {:induction false} LastDotExtSpec(s: string, p: nat, q: nat)
    ensures LastDotExt(s, p, q).Some? ==> forall d :: LastDotExt(s, p, q).value < d <= q ==> !DotExt(s, d)
    ensures LastDotExt(s, p, q).None? ==> forall d :: p < d <= q ==> !DotExt(s, d)
    decreases q
  {
    if p < q && !DotExt(s, q) {
      LastDotExtSpec(s, p, q - 1);
    }
  }

  /** The dots where a match starting at `i` can end its body are exactly the
      dots followed by an extension inside the run of path characters. */
  lemma MatchInRun(s: string, i: nat)
    ensures Lead(s, i) > 0 ==> forall q: nat :: IsMatch(s, i, q) <==>
              i + Lead(s, i) < q <= RunEnd(s, i + Lead(s, i)) && DotExt(s, q)
  {
    if Lead(s, i) > 0 {
      RunEndSpec(s, i + Lead(s, i));
    }
  }

  /** The match the pattern makes when tried at position `i`: the last
      admissible dot of the run of path characters after the root. */
  function MatchAt(s: string, i: nat): (r: Option<nat>)
    ensures r.Some? ==> i < r.value && DotExt(s, r.value)
  {
    var l := Lead(s, i);
    if l > 0 then LastDotExt(s, i + l, RunEnd(s, i + l)) else None
  }

  /** `MatchAt` finds a match that ends at the last admissible dot, and
      finds none only when no match starts at `i`. */
  lemma MatchAtSpec(s: string, i: nat)
    ensures MatchAt(s, i).Some? ==> IsMatch(s, i, MatchAt(s, i).value)
    ensures MatchAt(s, i).Some? ==> forall q :: MatchAt(s, i).value < q ==> !IsMatch(s, i, q)
    ensures MatchAt(s, i).None? ==> forall q :: !IsMatch(s, i, q)
  {
    MatchInRun(s, i);
    var l := Lead(s, i);
    if l > 0 {
      LastDotExtSpec(s, i + l, RunEnd(s, i + l));
    }
  }

  /** `re.search` from position `i` on: the leftmost start with a match and
      there the last admissible dot. */
  function SearchFrom(s: string, i: nat): (r: Option<(nat, nat)>)
    requires i <= |s|
    ensures r.Some? ==> i <= r.value.0 < r.value.1 && DotExt(s, r.value.1)
    decreases |s| - i
  {
    if i == |s| then None
    else
      match MatchAt(s, i)
      case Some(q) => Some((i, q))
      case None => SearchFrom(s, i + 1)
  }

  /** What `SearchFrom` returns is a match, no match starts earlier, none
      at its start ends later, and when it returns nothing no match starts
      at or after `i`. */
  lemma {:induction false} SearchFromSpec(s: string, i: nat)
    requires i <= |s|
    ensures SearchFrom(s, i).Some? ==> IsMatch(s, SearchFrom(s, i).value.0, SearchFrom(s, i).value.1)
    ensures SearchFrom(s, i).Some? ==>
              forall i', q' :: i <= i' < SearchFrom(s, i).value.0 ==> !IsMatch(s, i', q')
    ensures SearchFrom(s, i).Some? ==>
              forall q' :: SearchFrom(s, i).value.1 < q' ==> !IsMatch(s, SearchFrom(s, i).value.0, q')
    ensures SearchFrom(s, i).None? ==> forall i', q' :: i <= i' ==> !IsMatch(s, i', q')
    decreases |s| - i
  {
    if i == |s| {
      assert forall i': nat, q': nat :: i <= i' ==> !IsMatch(s, i', q');
    } else {
      MatchAtSpec(s, i);
      if MatchAt(s, i).None? {
        SearchFromSpec(s, i + 1);
      }
    }
  }

  /** The text a match at start `i` with body ending at dot `q` covers. */
  function MatchText(s: string, i: nat, q: nat): (t: string)
    requires i <= q && DotExt(s, q)
    ensures |t| == q + 1 + |FirstExt(s, q + 1, Exts).value| - i
  {
    s[i..q + 1 + |FirstExt(s, q + 1, Exts).value|]
  }

  /** `file_re.search(line)` and `m.group(0)`. */
  function FindMediaPath(line: string): Option<string>
  {
    match SearchFrom(line, 0)
    case None => None
    case Some((i, q)) => Some(MatchText(line, i, q))
  }

  /** The search finds nothing exactly when the pattern matches nowhere. */
  lemma FindMediaPathNone(line: string)
    ensures FindMediaPath(line).None? <==> forall i, q :: !IsMatch(line, i, q)
  {
    SearchFromSpec(line, 0);
  }

  lemma {:induction false} LowerPrefixChars(s: string, j: nat, e: string)
    requires LowerPrefix(s, j, e)
    ensures e != [] ==> j + |e| <= |s|
    ensures forall m :: 0 <= m < |e| ==> FoldChar(s[j + m]) == e[m]
    decreases |e|
  {
    if e != [] {
      LowerPrefixChars(s, j + 1, e[1..]);
      assert forall m :: 1 <= m < |e| ==> e[m] == e[1..][m - 1];
    }
  }

  lemma {:induction false} LowerPrefixFromChars(s: string, j: nat, e: string)
    requires j + |e| <= |s|
    requires forall m :: 0 <= m < |e| ==> FoldChar(s[j + m]) == e[m]
    ensures LowerPrefix(s, j, e)
    decreases |e|
  {
    if e != [] {
      assert forall m :: 0 <= m < |e| - 1 ==> e[1..][m] == e[m + 1] && s[j + 1 + m] == s[j + (m + 1)];
      LowerPrefixFromChars(s, j + 1, e[1..]);
    }
  }

  /** A returned path is the text of the leftmost match and, at its start,
      of the longest one. */
  lemma FindMediaPathLeftmostLongest(line: string, path: string)
    requires FindMediaPath(line) == Some(path)
    ensures exists i, q :: IsMatch(line, i, q) && path == MatchText(line, i, q)
              && (forall i', q' :: i' < i ==> !IsMatch(line, i', q'))
              && (forall q' :: q < q' ==> !IsMatch(line, i, q'))
  {
    SearchFromSpec(line, 0);
    var m := SearchFrom(line, 0);
    assert IsMatch(line, m.value.0, m.value.1) && path == MatchText(line, m.value.0, m.value.1);
  }

  /** From the root on, a match covers only path characters: the body, the
      dot and the letters and digits of the extension. */
  lemma MatchCoversPathChars(line: string, i: nat, q: nat)
    requires IsMatch(line, i, q)
    ensures forall k :: i + Lead(line, i) <= k < q + 1 + |FirstExt(line, q + 1, Exts).value| ==>
              IsPathChar(line[k])
  {
    var e := FirstExt(line, q + 1, Exts).value;
    FirstExtSpec(line, q + 1, Exts);
    var x :| 0 <= x < |Exts| && Exts[x] == e;
    LowerPrefixChars(line, q + 1, e);
    forall k | q < k < q + 1 + |e| ensures IsPathChar(line[k]) {
      var n := k - q - 1;
      assert FoldChar(line[q + 1 + n]) == e[n];
      ExtCharsArePathChars(x, n, line[k]);
    }
  }

  /** The text of a match opens with a root and holds only path characters
      after it. */
  lemma MatchTextRoot(line: string, i: nat, q: nat)
    requires IsMatch(line, i, q)
    ensures Lead(MatchText(line, i, q), 0) > 0
    ensures forall k :: Lead(MatchText(line, i, q), 0) <= k < |MatchText(line, i, q)| ==>
              IsPathChar(MatchText(line, i, q)[k])
  {
    var path := MatchText(line, i, q);
    var j := q + 1 + |FirstExt(line, q + 1, Exts).value|;
    assert path == line[i..j];
    var l := Lead(line, i);
    assert Lead(path, 0) == l by {
      assert path[..l] == line[i..i + l];
    }
    MatchCoversPathChars(line, i, q);
    forall k | l <= k < |path| ensures IsPathChar(path[k]) {
      assert path[k] == line[i + k];
    }
  }

  /** The text of a match ends in a dot and one of the extensions, in any
      case. */
  lemma MatchTextExt(line: string, i: nat, q: nat)
    requires IsMatch(line, i, q)
    ensures exists x :: 0 <= x < |Exts| && |Exts[x]| + 1 < |MatchText(line, i, q)|
              && LowerPrefix(MatchText(line, i, q), |MatchText(line, i, q)| - |Exts[x]|, Exts[x])
              && MatchText(line, i, q)[|MatchText(line, i, q)| - |Exts[x]| - 1] == '.'
  {
    var path := MatchText(line, i, q);
    var e := FirstExt(line, q + 1, Exts).value;
    FirstExtSpec(line, q + 1, Exts);
    var x :| 0 <= x < |Exts| && Exts[x] == e;
    var end := q + 1 + |e|;
    assert path == line[i..end];
    LowerPrefixShift(line, i, end, q + 1, e);
    assert |path| - |e| == q + 1 - i;
    assert path[q - i] == line[q];
    assert |Exts[x]| + 1 < |path| && LowerPrefix(path, |path| - |Exts[x]|, Exts[x])
           && path[|path| - |Exts[x]| - 1] == '.';
  }

  /** A case-folded occurrence stays one in a slice that contains it. */
  lemma {:induction false} LowerPrefixShift(s: string, a: nat, b: nat, j: nat, e: string)
    requires a <= j && j + |e| <= b <= |s| && LowerPrefix(s, j, e)
    ensures LowerPrefix(s[a..b], j - a, e)
    decreases |e|
  {
    if e != [] {
      LowerPrefixShift(s, a, b, j + 1, e[1..]);
      assert s[a..b][j - a] == s[j];
    }
  }

  /** Every character of an extension is a path character whatever case
      it appears in. */
  lemma ExtCharsArePathChars(x: nat, k: nat, c: char)
    requires x < |Exts| && k < |Exts[x]| && FoldChar(c) == Exts[x][k]
    ensures IsPathChar(c)
  {
  }

  /** Under `re.IGNORECASE` the Kelvin sign matches the "k" of "mkv". */
  lemma KelvinSignExtension()
    ensures FindMediaPath("/a.m\U{212A}v") == Some("/a.m\U{212A}v")
  {
    var s := "/a.m\U{212A}v";
    assert LowerPrefix(s, 3, "mkv");
    assert !ExtAt(s, 3, "mp4") && !ExtAt(s, 3, "mov");
    assert FirstExt(s, 3, Exts) == Some("mkv");
    assert RunEnd(s, 1) == 6;
    assert LastDotExt(s, 1, 6) == Some(2);
    assert Lead(s, 0) == 1;
    assert SearchFrom(s, 0) == Some((0, 2));
    assert MatchText(s, 0, 2) == s[0..6] == s;
  }

  /** Under `re.IGNORECASE` a dotless i matches the "i" of "gif". */
  lemma DotlessIExtension()
    ensures FindMediaPath("/a.g\U{131}f") == Some("/a.g\U{131}f")
  {
    var s := "/a.g\U{131}f";
    assert LowerPrefix(s, 3, "gif");
    assert FirstExt(s, 3, Exts) == Some("gif");
    assert RunEnd(s, 1) == 6;
    assert LastDotExt(s, 1, 6) == Some(2);
    assert Lead(s, 0) == 1;
    assert SearchFrom(s, 0) == Some((0, 2));
    assert MatchText(s, 0, 2) == s[0..6] == s;
  }
}
