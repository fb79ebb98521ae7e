/** The gallery-dl options every batch shares (`_build_common_args`), built
    from the values of the settings widgets.  The one side effect of the
    source, re-checking "Use system browser UA" when the custom user agent
    is blank, is returned as the new settings. */
module CommonArgs {
  import opened Wrappers
  import opened PyText

  /** The entries of the filter drop-down. */
  datatype Filter = Both | Images | Videos

  /** The widget values the arguments are built from.  The numbers are the
      values of the spin boxes. */
  datatype Settings = Settings(
    uaUseBrowser: bool,
    uaText: string,
    cookiesFile: string,
    outputDir: string,
    filter: Filter,
    retries: nat,
    timeout: nat,
    sleep: nat)

  /** The ranges the spin boxes enforce. */
  predicate InRange(s: Settings) {
    s.retries <= 10 && 5 <= s.timeout <= 300 && s.sleep <= 10
  }

  const ImagesFilter: string := "extension in ('jpg','jpeg','png')"
  const VideosFilter: string := "extension in ('mp4','webm')"

  /** One option on the command line: a flag and its value. */
  datatype Flag = Flag(name: string, value: string)

  /** The options and the settings after the call. */
  datatype Built = Built(flags: seq<Flag>, settings: Settings)

  /** The command-line words of a list of options: each flag followed by
      its value. */
  function Words(flags: seq<Flag>): (w: seq<string>)
    ensures |w| == 2 * |flags|
  {
    if flags == [] then [] else [flags[0].name, flags[0].value] + Words(flags[1..])
  }

  /** Word `2k` is the name of option `k` and word `2k + 1` its value. */
  lemma {:induction false} WordsAt(flags: seq<Flag>)
    ensures forall k :: 0 <= k < |flags| ==>
              Words(flags)[2 * k] == flags[k].name && Words(flags)[2 * k + 1] == flags[k].value
  {
    if flags != [] {
      WordsAt(flags[1..]);
      var w := Words(flags);
      assert w == [flags[0].name, flags[0].value] + Words(flags[1..]);
      forall k | 1 <= k < |flags|
        ensures w[2 * k] == flags[k].name && w[2 * k + 1] == flags[k].value
      {
        assert w[2 * k] == Words(flags[1..])[2 * (k - 1)];
        assert w[2 * k + 1] == Words(flags[1..])[2 * (k - 1) + 1];
      }
    }
  }

  /** An option, or nothing. */
  function Opt(present: bool, name: string, value: string): seq<Flag>
  {
    if present then [Flag(name, value)] else []
  }

  /** The custom user agent is used only when the box is unchecked and the
      stripped text is not empty. */
  predicate UsesCustomUa(s: Settings) {
    !s.uaUseBrowser && Strip(s.uaText) != []
  }

  function FilterArgs(f: Filter): seq<Flag>
  {
    match f
    case Both => []
    case Images => [Flag("--filter", ImagesFilter)]
    case Videos => [Flag("--filter", VideosFilter)]
  }

  function UaValue(s: Settings): string {
    if UsesCustomUa(s) then Strip(s.uaText) else "browser"
  }

  function OutDirValue(s: Settings, defaultOutDir: string): string {
    if Strip(s.outputDir) != [] then Strip(s.outputDir) else defaultOutDir
  }

  /** The settings after `_build_common_args()`: a blank custom user agent
      re-checks "Use system browser UA". */
  function Repaired(s: Settings): Settings {
    if s.uaUseBrowser || Strip(s.uaText) != [] then s else s.(uaUseBrowser := true)
  }

  /** `_build_common_args()`, as options; `defaultOutDir` stands for
      `str(user_downloads_dir() / "gallery-dl")`. */
  function BuildCommonArgs(s: Settings, defaultOutDir: string): Built
  {
    var cookies := Strip(s.cookiesFile);
    var flags :=
      [Flag("--user-agent", UaValue(s))]
      + Opt(cookies != [], "--cookies", cookies)
      + [Flag("-d", OutDirValue(s, defaultOutDir))]
      + FilterArgs(s.filter)
      + Opt(s.retries != 0, "--retries", NatToString(s.retries))
      + Opt(s.timeout != 0, "--http-timeout", NatToString(s.timeout))
      + Opt(s.sleep != 0, "--sleep-request", NatToString(s.sleep));
    Built(flags, Repaired(s))
  }

  /** The argument list `_build_common_args()` returns. */
  function CommonArgs(s: Settings, defaultOutDir: string): seq<string>
  {
    Words(BuildCommonArgs(s, defaultOutDir).flags)
  }

  // ---------- Reading the options back ----------

  /** The value given to flag `g`: the first option named `g`. */
  function Lookup(flags: seq<Flag>, g: string): Option<string>
  {
    if flags == [] then None
    else if flags[0].name == g then Some(flags[0].value)
    else Lookup(flags[1..], g)
  }

  /** Looking a flag up in two lists of options: the first list wins. */
  lemma {:induction false} LookupAppend(a: seq<Flag>, b: seq<Flag>, g: string)
    ensures Lookup(a + b, g) == if Lookup(a, g).Some? then Lookup(a, g) else Lookup(b, g)
  {
    if a != [] {
      assert (a + b)[1..] == a[1..] + b;
      LookupAppend(a[1..], b, g);
    } else {
      assert a + b == b;
    }
  }

  lemma LookupOne(f: Flag, g: string)
    ensures Lookup([f], g) == if f.name == g then Some(f.value) else None
  {
    assert [f][1..] == [];
  }

  /** The value of every flag, read back from the built options. */
  lemma {:induction false} LookupBuilt(s: Settings, d: string, g: string)
    ensures Lookup(BuildCommonArgs(s, d).flags, g) ==
      if g == "--user-agent" then Some(UaValue(s))
      else if g == "--cookies" then (if Strip(s.cookiesFile) != [] then Some(Strip(s.cookiesFile)) else None)
      else if g == "-d" then Some(OutDirValue(s, d))
      else if g == "--filter" then
        (match s.filter case Both => None case Images => Some(ImagesFilter) case Videos => Some(VideosFilter))
      else if g == "--retries" then (if s.retries != 0 then Some(NatToString(s.retries)) else None)
      else if g == "--http-timeout" then (if s.timeout != 0 then Some(NatToString(s.timeout)) else None)
      else if g == "--sleep-request" then (if s.sleep != 0 then Some(NatToString(s.sleep)) else None)
      else None
  {
    var cookies := Strip(s.cookiesFile);
    var p1 := [Flag("--user-agent", UaValue(s))];
    var p2 := Opt(cookies != [], "--cookies", cookies);
    var p3 := [Flag("-d", OutDirValue(s, d))];
    var p4 := FilterArgs(s.filter);
    var p5 := Opt(s.retries != 0, "--retries", NatToString(s.retries));
    var p6 := Opt(s.timeout != 0, "--http-timeout", NatToString(s.timeout));
    var p7 := Opt(s.sleep != 0, "--sleep-request", NatToString(s.sleep));
    assert BuildCommonArgs(s, d).flags == p1 + p2 + p3 + p4 + p5 + p6 + p7;
    LookupAppend(p1 + p2 + p3 + p4 + p5 + p6, p7, g);
    LookupAppend(p1 + p2 + p3 + p4 + p5, p6, g);
    LookupAppend(p1 + p2 + p3 + p4, p5, g);
    LookupAppend(p1 + p2 + p3, p4, g);
    LookupAppend(p1 + p2, p3, g);
    LookupAppend(p1, p2, g);
    LookupOne(p1[0], g);
    LookupOne(p3[0], g);
    if p2 != [] { LookupOne(p2[0], g); }
    if p4 != [] { LookupOne(p4[0], g); }
    if p5 != [] { LookupOne(p5[0], g); }
    if p6 != [] { LookupOne(p6[0], g); }
    if p7 != [] { LookupOne(p7[0], g); }
  }

  /** With the spin boxes in range an HTTP timeout is always passed, and the
      numbers read back as the widget values. */
  lemma NumbersRoundTrip(s: Settings, d: string)
    requires InRange(s)
    ensures Lookup(BuildCommonArgs(s, d).flags, "--http-timeout") == Some(NatToString(s.timeout))
    ensures DigitsValue(NatToString(s.timeout)) == s.timeout
    ensures Lookup(BuildCommonArgs(s, d).flags, "--retries") == if s.retries == 0 then None else Some(NatToString(s.retries))
    ensures DigitsValue(NatToString(s.retries)) == s.retries
    ensures Lookup(BuildCommonArgs(s, d).flags, "--sleep-request") == if s.sleep == 0 then None else Some(NatToString(s.sleep))
    ensures DigitsValue(NatToString(s.sleep)) == s.sleep
  {
    LookupBuilt(s, d, "--http-timeout");
    LookupBuilt(s, d, "--retries");
    LookupBuilt(s, d, "--sleep-request");
    NatToStringValue(s.timeout);
    NatToStringValue(s.retries);
    NatToStringValue(s.sleep);
  }

  /** The user-agent repair: only a blank custom agent re-checks the box,
      nothing else in the settings changes, and every batch after it gets
      the same options.  This is why the length measured in `start_run` is
      the length of the options `_run_next_batch` passes. */
  lemma UaRepairIsStable(s: Settings, d: string)
    ensures Repaired(s).uaUseBrowser <==> s.uaUseBrowser || Strip(s.uaText) == []
    ensures Repaired(s).(uaUseBrowser := s.uaUseBrowser) == s
    ensures Repaired(Repaired(s)) == Repaired(s)
    ensures BuildCommonArgs(Repaired(s), d) == BuildCommonArgs(s, d)
  {
  }
}
