/**
 * The pure string logic of the page: the `name@version` parser
 * (`Page.parsePageVersion`), the version check of `addVersion`, and the two
 * launcher-script templates. Both regular expressions are modelled by
 * deterministic matchers that follow their structure; each matcher is
 * proved to accept exactly the strings described by `DottedNumeric`, a
 * direct description of "two or more dot-separated runs of digits".
 */
module PageVersion {
  import opened Wrappers

  predicate IsDigit(c: char) {
    '0' <= c <= '9'
  }

  /** `\w`: an ASCII letter, a digit or `_`. */
  predicate IsWordChar(c: char) {
    ('a' <= c <= 'z') || ('A' <= c <= 'Z') || IsDigit(c) || c == '_'
  }

  /** `[\w\-~]`. */
  predicate IsNameChar(c: char) {
    IsWordChar(c) || c == '-' || c == '~'
  }

  /** `[@/\\]`. */
  predicate IsSeparator(c: char) {
    c == '@' || c == '/' || c == '\\'
  }

  /** `\w[\w\-~]*`. */
  predicate IsPageName(s: string) {
    |s| > 0 && IsWordChar(s[0]) && forall i :: 0 <= i < |s| ==> IsNameChar(s[i])
  }

  predicate AllDigits(s: string) {
    forall i :: 0 <= i < |s| ==> IsDigit(s[i])
  }

  predicate HasDot(s: string) {
    exists i :: 0 <= i < |s| && s[i] == '.'
  }

  /** Runs of digits separated by single dots: digits and dots only, a digit at both ends, no two dots in a row. */
  predicate DigitGroups(v: string) {
    && |v| > 0
    && IsDigit(v[0])
    && IsDigit(v[|v| - 1])
    && (forall i :: 0 <= i < |v| ==> IsDigit(v[i]) || v[i] == '.')
    && (forall i :: 0 < i < |v| && v[i] == '.' ==> v[i - 1] != '.')
  }

  /** Two or more dot-separated runs of digits, such as `1.0` or `2.1.3`. */
  predicate DottedNumeric(v: string) {
    DigitGroups(v) && HasDot(v)
  }

  /** The length of the longest run of digits at the start of `s` (what a greedy `\d+` consumes). */
  function LeadingDigits(s: string): (k: nat)
    ensures k <= |s|
    ensures forall i :: 0 <= i < k ==> IsDigit(s[i])
    ensures k < |s| ==> !IsDigit(s[k])
  {
    if s == [] || !IsDigit(s[0]) then 0 else 1 + LeadingDigits(s[1..])
  }

  /** `(\.\d+)+`: one or more groups, each a dot and a run of digits. */
  predicate DotRuns(s: string)
    decreases |s|
  {
    && |s| > 1
    && s[0] == '.'
    && var k := LeadingDigits(s[1..]);
       k > 0 && (1 + k == |s| || DotRuns(s[1 + k..]))
  }

  /** `\d+(\.\d+)+`: the version group of the pattern in `parsePageVersion`. */
  predicate VersionGroup(v: string) {
    var k := LeadingDigits(v);
    k > 0 && DotRuns(v[k..])
  }

  /** `^(\d+\.)+\d+$`: the test `addVersion` applies to its argument. */
  predicate AcceptedVersion(v: string)
    decreases |v|
  {
    var k := LeadingDigits(v);
    && 0 < k < |v|
    && v[k] == '.'
    && var rest := v[k + 1..];
       (|rest| > 0 && AllDigits(rest)) || AcceptedVersion(rest)
  }

  /** A non-empty run of digits is exactly a digit group without a dot. */
  lemma DigitRunIsGroup(r: string)
    ensures (|r| > 0 && AllDigits(r)) <==> (DigitGroups(r) && !HasDot(r))
  {
    if |r| > 0 && AllDigits(r) {
      assert forall i :: 0 <= i < |r| ==> r[i] != '.' by {
        forall i | 0 <= i < |r| ensures r[i] != '.' { assert IsDigit(r[i]); }
      }
    }
    if DigitGroups(r) && !HasDot(r) {
      forall i | 0 <= i < |r| ensures IsDigit(r[i]) {
        assert r[i] != '.';
      }
    }
  }

  /** Forward half of `SplitFirstGroup`: what follows the first dot of a digit-group string is one too. */
  lemma GroupsAfterFirstDot(v: string, k: nat)
    requires 0 < k < |v| && v[k] == '.'
    requires DigitGroups(v)
    ensures DigitGroups(v[k + 1..])
  {
    var rest := v[k + 1..];
    assert k + 1 < |v|;
    assert IsDigit(rest[0]) by {
      assert rest[0] == v[k + 1];
      assert v[k + 1] != '.' by { assert v[k + 1 - 1] == '.'; }
    }
    assert rest[|rest| - 1] == v[|v| - 1];
    forall i | 0 <= i < |rest| ensures IsDigit(rest[i]) || rest[i] == '.' {
      assert rest[i] == v[k + 1 + i];
    }
    forall i | 0 < i < |rest| && rest[i] == '.' ensures rest[i - 1] != '.' {
      assert rest[i] == v[k + 1 + i];
      assert rest[i - 1] == v[k + 1 + i - 1];
    }
  }

  /** Backward half of `SplitFirstGroup`: a run of digits, a dot and a digit-group string form one. */
  lemma GroupsBeforeFirstDot(v: string, k: nat)
    requires 0 < k < |v| && v[k] == '.'
    requires forall i :: 0 <= i < k ==> IsDigit(v[i])
    requires DigitGroups(v[k + 1..])
    ensures DigitGroups(v)
  {
    var rest := v[k + 1..];
    assert v[|v| - 1] == rest[|rest| - 1];
    forall i | 0 <= i < |v| ensures IsDigit(v[i]) || v[i] == '.' {
      if i > k { assert v[i] == rest[i - k - 1]; }
    }
    forall i | 0 < i < |v| && v[i] == '.' ensures v[i - 1] != '.' {
      if i == k {
        assert IsDigit(v[k - 1]);
      } else if i > k + 1 {
        assert v[i] == rest[i - k - 1];
        assert v[i - 1] == rest[i - k - 2];
      }
    }
  }

  /**
   * How a digit-group string decomposes at the end of its first run:
   * with `k` the length of that run, `v` is a digit-group string exactly when
   * either it is all digits, or `v[k]` is a dot and what follows is again a
   * digit-group string.
   */
  lemma SplitFirstGroup(v: string)
    ensures var k := LeadingDigits(v);
      && (k == 0 ==> !DigitGroups(v))
      && (0 < k == |v| ==> DigitGroups(v) && !HasDot(v))
      && (0 < k < |v| && v[k] != '.' ==> !DigitGroups(v))
      && (0 < k < |v| && v[k] == '.' ==> HasDot(v) && (DigitGroups(v) <==> DigitGroups(v[k + 1..])))
  {
    var k := LeadingDigits(v);
    if 0 < k == |v| {
      DigitRunIsGroup(v);
    }
    if 0 < k < |v| && v[k] != '.' {
      assert !(IsDigit(v[k]) || v[k] == '.');
    }
    if 0 < k < |v| && v[k] == '.' {
      assert HasDot(v) by { assert v[k] == '.'; }
      if DigitGroups(v) {
        GroupsAfterFirstDot(v, k);
      }
      if DigitGroups(v[k + 1..]) {
        GroupsBeforeFirstDot(v, k);
      }
    }
  }

  lemma {:induction false} DotRunsAreGroups(s: string)
    ensures DotRuns(s) <==> |s| > 1 && s[0] == '.' && DigitGroups(s[1..])
    decreases |s|
  {
    if |s| > 1 && s[0] == '.' {
      var t := s[1..];
      var k := LeadingDigits(t);
      SplitFirstGroup(t);
      if 0 < k < |t| {
        assert s[1 + k..] == t[k..];
        DotRunsAreGroups(t[k..]);
        assert t[k..][1..] == t[k + 1..];
        if t[k] == '.' && k + 1 == |t| {
          assert t[k + 1..] == [];
        }
      }
    }
  }

  /** The version group of `parsePageVersion` describes exactly the dotted-numeric versions. */
  lemma VersionGroupIsDottedNumeric(v: string)
    ensures VersionGroup(v) <==> DottedNumeric(v)
  {
    var k := LeadingDigits(v);
    SplitFirstGroup(v);
    DotRunsAreGroups(v[k..]);
    if 0 < k < |v| {
      assert v[k..][1..] == v[k + 1..];
      if v[k] == '.' && k + 1 == |v| {
        assert v[k + 1..] == [];
      }
    }
  }

  /** The test in `addVersion` accepts exactly the dotted-numeric versions. */
  lemma {:induction false} AcceptedIsDottedNumeric(v: string)
    ensures AcceptedVersion(v) <==> DottedNumeric(v)
    decreases |v|
  {
    var k := LeadingDigits(v);
    SplitFirstGroup(v);
    if 0 < k < |v| && v[k] == '.' {
      var rest := v[k + 1..];
      AcceptedIsDottedNumeric(rest);
      DigitRunIsGroup(rest);
    }
  }

  /** The two regular expressions describe the same language. */
  lemma AcceptedIsVersionGroup(v: string)
    ensures AcceptedVersion(v) <==> VersionGroup(v)
  {
    AcceptedIsDottedNumeric(v);
    VersionGroupIsDottedNumeric(v);
  }

  /** The position of the first `@`, `/` or `\` in `s`, or `|s|` when there is none. */
  function FirstSeparator(s: string): (i: nat)
    ensures i <= |s|
    ensures forall j :: 0 <= j < i ==> !IsSeparator(s[j])
    ensures i < |s| ==> IsSeparator(s[i])
  {
    if s == [] || IsSeparator(s[0]) then 0 else 1 + FirstSeparator(s[1..])
  }

  /** The `{pageName, version}` object `parsePageVersion` returns. */
  datatype PageVersion = PageVersion(pageName: string, version: string)

  /**
   * `Page.parsePageVersion`: no name character is a separator, so a match of
   * `^(\w[\w\-~]*)[@/\\](\d+(\.\d+)+)$` splits at the first separator.
   */
  function ParsePageVersion(s: string): Option<PageVersion> {
    var i := FirstSeparator(s);
    if i < |s| && IsPageName(s[..i]) && VersionGroup(s[i + 1..]) then
      Some(PageVersion(s[..i], s[i + 1..]))
    else
      None
  }

  /** `s` is `name`, one separator, then `version`, each of the required form. */
  predicate MatchesPattern(s: string, name: string, version: string) {
    && |s| == |name| + 1 + |version|
    && s[..|name|] == name
    && IsSeparator(s[|name|])
    && s[|name| + 1..] == version
    && IsPageName(name)
    && DottedNumeric(version)
  }

  /** A name followed by a separator: the first separator is the one after the name. */
  lemma FirstSeparatorAfterName(s: string, name: string)
    requires |name| < |s| && s[..|name|] == name && IsPageName(name) && IsSeparator(s[|name|])
    ensures FirstSeparator(s) == |name|
  {
    var i := FirstSeparator(s);
    forall j | 0 <= j < |name| ensures !IsSeparator(s[j]) {
      assert s[j] == name[j];
      assert IsNameChar(name[j]);
    }
  }

  /** `parsePageVersion` returns `{name, version}` exactly when `s` is `name ++ sep ++ version`. */
  lemma ParseMatchesPattern(s: string, name: string, version: string)
    ensures ParsePageVersion(s) == Some(PageVersion(name, version)) <==> MatchesPattern(s, name, version)
  {
    VersionGroupIsDottedNumeric(version);
    if MatchesPattern(s, name, version) {
      FirstSeparatorAfterName(s, name);
    }
  }

  /** `parsePageVersion` returns null exactly when no split of `s` matches. */
  lemma ParseNullIffNoMatch(s: string)
    ensures ParsePageVersion(s).None? <==> forall name, version :: !MatchesPattern(s, name, version)
  {
    if ParsePageVersion(s).Some? {
      var pv := ParsePageVersion(s).value;
      ParseMatchesPattern(s, pv.pageName, pv.version);
    }
    forall name, version | MatchesPattern(s, name, version)
      ensures ParsePageVersion(s).Some?
    {
      ParseMatchesPattern(s, name, version);
    }
  }

  const LauncherSuffix := " -t 000000"
  const ShPrefix := "#!/bin/sh\nfb build "
  const BatPrefix := "fb build "

  /** The POSIX launcher `fb-build.sh`: builds `name/version`, with a placeholder timestamp. */
  function ShLauncher(name: string, version: string): string {
    ShPrefix + name + "/" + version + LauncherSuffix
  }

  /** The Windows launcher `fb-build.bat`: builds `name@version`, with a placeholder timestamp. */
  function BatLauncher(name: string, version: string): string {
    BatPrefix + name + "@" + version + LauncherSuffix
  }

  /** The argument a launcher passes to `fb build`: what lies between `prefix` and the timestamp option. */
  function LauncherArgument(script: string, prefix: string): Option<string> {
    if |script| >= |prefix| + |LauncherSuffix|
      && script[..|prefix|] == prefix
      && script[|script| - |LauncherSuffix|..] == LauncherSuffix
    then Some(script[|prefix|..|script| - |LauncherSuffix|])
    else None
  }

  /** A page name, a separator and a dotted-numeric version, written one after the other, parse back. */
  lemma ParseJoined(name: string, sep: char, version: string)
    requires IsPageName(name) && IsSeparator(sep) && DottedNumeric(version)
    ensures ParsePageVersion(name + [sep] + version) == Some(PageVersion(name, version))
  {
    var s := name + [sep] + version;
    assert s[..|name|] == name;
    assert s[|name| + 1..] == version;
    assert MatchesPattern(s, name, version);
    ParseMatchesPattern(s, name, version);
  }

  /** The argument of a script built from `prefix`, `arg` and the timestamp option is `arg`. */
  lemma LauncherArgumentOf(prefix: string, arg: string)
    ensures LauncherArgument(prefix + arg + LauncherSuffix, prefix) == Some(arg)
  {
    var script := prefix + arg + LauncherSuffix;
    assert script[..|prefix|] == prefix;
    assert script[|script| - |LauncherSuffix|..] == LauncherSuffix;
    assert script[|prefix|..|script| - |LauncherSuffix|] == arg;
  }

  /** The argument of the POSIX launcher is `name/version`. */
  lemma ShArgument(name: string, version: string)
    ensures LauncherArgument(ShLauncher(name, version), ShPrefix) == Some(name + "/" + version)
  {
    assert ShLauncher(name, version) == ShPrefix + (name + "/" + version) + LauncherSuffix;
    LauncherArgumentOf(ShPrefix, name + "/" + version);
  }

  /** The argument of the Windows launcher is `name@version`. */
  lemma BatArgument(name: string, version: string)
    ensures LauncherArgument(BatLauncher(name, version), BatPrefix) == Some(name + "@" + version)
  {
    assert BatLauncher(name, version) == BatPrefix + (name + "@" + version) + LauncherSuffix;
    LauncherArgumentOf(BatPrefix, name + "@" + version);
  }

  /**
   * Round trip: for a valid page name and an accepted version, the argument
   * in either generated launcher parses back to that name and version.
   */
  lemma LauncherRoundTrip(name: string, version: string)
    requires IsPageName(name) && AcceptedVersion(version)
    ensures LauncherArgument(ShLauncher(name, version), ShPrefix) == Some(name + "/" + version)
    ensures LauncherArgument(BatLauncher(name, version), BatPrefix) == Some(name + "@" + version)
    ensures ParsePageVersion(name + "/" + version) == Some(PageVersion(name, version))
    ensures ParsePageVersion(name + "@" + version) == Some(PageVersion(name, version))
  {
    AcceptedIsDottedNumeric(version);
    ShArgument(name, version);
    BatArgument(name, version);
    ParseJoined(name, '/', version);
    ParseJoined(name, '@', version);
  }
}
