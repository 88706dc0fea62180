/** The URL and script tests of the backend: `isTestUrl`, the three regular
    expressions it and the init reply use, and the test-mode additions to
    the exrc text. A regular expression test is a search for a match at
    some position of the value's string form. */
module Urls {
  import opened Json

  const TestHost: string := "http://127.0.0.1"
  const TestPage: string := "/test_frame.html"
  const AppModeUrl: string := "http://wasavi.appsweets.net/"
  const AppModeUrlSecure: string := "https://wasavi.appsweets.net/"

  predicate StartsWith(s: string, p: string) {
    |p| <= |s| && s[..|p|] == p
  }

  predicate IsDigit(c: char) {
    '0' <= c <= '9'
  }

  /** The regular expression class `\w`. */
  predicate IsWordChar(c: char) {
    'a' <= c <= 'z' || 'A' <= c <= 'Z' || '0' <= c <= '9' || c == '_'
  }

  /** The number of digits `s` starts with. */
  function DigitRun(s: string): (n: nat)
    ensures n <= |s|
    ensures forall i :: 0 <= i < n ==> IsDigit(s[i])
    ensures n < |s| ==> !IsDigit(s[n])
  {
    if s != [] && IsDigit(s[0]) then 1 + DigitRun(s[1..]) else 0
  }

  /** A run of digits followed by a non-digit, or by nothing, is exactly the
      run `DigitRun` measures. */
  lemma {:induction false} DigitRunExact(d: string, u: string)
    requires forall i :: 0 <= i < |d| ==> IsDigit(d[i])
    requires u == [] || !IsDigit(u[0])
    ensures DigitRun(d + u) == |d|
    decreases |d|
  {
    if d != [] {
      assert (d + u)[1..] == d[1..] + u;
      DigitRunExact(d[1..], u);
    } else {
      assert d + u == u;
    }
  }

  // ---------------------------------------------------------------------
  // TEST_MODE_URL

  /** `TEST_MODE_URL.test(s)`, the anchored pattern
      `^http://127.0.0.1(:\d+)?/test_frame.html`, scanned left to right. */
  predicate MatchesTestMode(s: string) {
    StartsWith(s, TestHost) &&
    var r := s[|TestHost|..];
    if r != [] && r[0] == ':' && DigitRun(r[1..]) > 0 then StartsWith(r[1 + DigitRun(r[1..])..], TestPage)
    else StartsWith(r, TestPage)
  }

  /** The optional port group `(:\d+)?`. */
  predicate PortPart(p: string) {
    p == "" || (|p| >= 2 && p[0] == ':' && forall i :: 1 <= i < |p| ==> IsDigit(p[i]))
  }

  /** A prefix `a + b` is the prefix `a` followed, in the rest, by `b`. */
  lemma PrefixSplit(s: string, a: string, b: string)
    ensures StartsWith(s, a + b) <==> StartsWith(s, a) && StartsWith(s[|a|..], b)
  {
    if StartsWith(s, a + b) {
      assert s[..|a|] == (a + b)[..|a|];
      assert s[|a|..][..|b|] == (a + b)[|a|..];
    }
    if StartsWith(s, a) && StartsWith(s[|a|..], b) {
      assert s[..|a + b|] == s[..|a|] + s[|a|..][..|b|];
    }
  }

  /** What the scanner accepts begins with the host, a port part and the
      test page. */
  lemma TestModeSound(s: string) returns (p: string)
    requires MatchesTestMode(s)
    ensures PortPart(p) && StartsWith(s, TestHost + p + TestPage)
  {
    var r := s[|TestHost|..];
    if r != [] && r[0] == ':' && DigitRun(r[1..]) > 0 {
      var n := 1 + DigitRun(r[1..]);
      p := r[..n];
      assert r[n..] == r[|p|..];
    } else {
      p := "";
      assert r == r[|p|..];
    }
    PrefixSplit(r, p, TestPage);
    PrefixSplit(s, TestHost, p + TestPage);
    assert TestHost + p + TestPage == TestHost + (p + TestPage);
  }

  /** Every string beginning with the host, a port part and the test page is
      accepted. */
  lemma TestModeComplete(s: string, p: string)
    requires PortPart(p) && StartsWith(s, TestHost + p + TestPage)
    ensures MatchesTestMode(s)
  {
    assert TestHost + p + TestPage == TestHost + (p + TestPage);
    PrefixSplit(s, TestHost, p + TestPage);
    var r := s[|TestHost|..];
    PrefixSplit(r, p, TestPage);
    var u := r[|p|..];
    assert u[0] == TestPage[0] == '/';
    if p != "" {
      assert r[..|p|] == p;
      assert r[1..] == p[1..] + u;
      DigitRunExact(p[1..], u);
      assert r[1 + DigitRun(r[1..])..] == u;
    }
  }

  /** The scanner accepts exactly the strings that begin with the host, an
      optional port and the test page. */
  lemma TestModeMeaning(s: string)
    ensures MatchesTestMode(s) <==> exists p :: PortPart(p) && StartsWith(s, TestHost + p + TestPage)
  {
    if MatchesTestMode(s) {
      var p := TestModeSound(s);
    }
    if exists p :: PortPart(p) && StartsWith(s, TestHost + p + TestPage) {
      var p :| PortPart(p) && StartsWith(s, TestHost + p + TestPage);
      TestModeComplete(s, p);
    }
  }

  // ---------------------------------------------------------------------
  // Unanchored patterns

  /** `/[?&]testmode/`, `/[?&]nooverride\b/` and `/\bset list\b/`. */
  datatype Pattern = TestmodeQuery | NooverrideQuery | SetListWord

  /** A word boundary `\b` just before position `i`, which the patterns only
      ask for next to a word character. */
  predicate BoundaryBefore(s: string, i: int)
    requires 0 <= i <= |s|
  {
    i == 0 || !IsWordChar(s[i - 1])
  }

  predicate BoundaryAfter(s: string, j: int)
    requires 0 <= j <= |s|
  {
    j == |s| || !IsWordChar(s[j])
  }

  /** The query flag `name` right after a `?` or `&` at position `i`. */
  predicate FlagAt(s: string, i: int, name: string) {
    0 <= i && i + 1 + |name| <= |s| && (s[i] == '?' || s[i] == '&') && s[i + 1..i + 1 + |name|] == name
  }

  /** The pattern matches at position `i` of `s`. */
  predicate MatchAt(s: string, i: int, p: Pattern) {
    match p
    case TestmodeQuery => FlagAt(s, i, "testmode")
    case NooverrideQuery => FlagAt(s, i, "nooverride") && BoundaryAfter(s, i + 11)
    case SetListWord =>
      0 <= i && i + 8 <= |s| && s[i..i + 8] == "set list" && BoundaryBefore(s, i) && BoundaryAfter(s, i + 8)
  }

  /** The search for a match at `i` or later. */
  function Search(s: string, p: Pattern, i: nat): bool
    decreases |s| + 1 - i
  {
    if i > |s| then false else MatchAt(s, i, p) || Search(s, p, i + 1)
  }

  /** `pattern.test(s)`. */
  function Test(s: string, p: Pattern): bool {
    Search(s, p, 0)
  }

  /** The search succeeds exactly when the pattern matches somewhere. */
  lemma {:induction false} SearchFinds(s: string, p: Pattern, i: nat)
    ensures Search(s, p, i) <==> exists j :: i <= j <= |s| && MatchAt(s, j, p)
    decreases |s| + 1 - i
  {
    if i <= |s| {
      SearchFinds(s, p, i + 1);
      if !MatchAt(s, i, p) && exists j :: i <= j <= |s| && MatchAt(s, j, p) {
        var j :| i <= j <= |s| && MatchAt(s, j, p);
        assert i + 1 <= j;
      }
    }
  }

  lemma TestMeaning(s: string, p: Pattern)
    ensures Test(s, p) <==> exists j :: 0 <= j <= |s| && MatchAt(s, j, p)
  {
    SearchFinds(s, p, 0);
  }

  /** A match survives text appended after it, when that text starts with a
      character that is not a word character. */
  lemma MatchAtExtends(s: string, t: string, i: int, p: Pattern)
    requires MatchAt(s, i, p)
    requires t != [] && !IsWordChar(t[0])
    ensures MatchAt(s + t, i, p)
  {
    var w := s + t;
    assert w[..|s|] == s;
    match p
    case TestmodeQuery =>
      assert w[i + 1..i + 9] == s[i + 1..i + 9];
    case NooverrideQuery =>
      assert w[i + 1..i + 11] == s[i + 1..i + 11];
    case SetListWord =>
      assert w[i..i + 8] == s[i..i + 8];
  }

  // ---------------------------------------------------------------------
  // isTestUrl

  /** `isTestUrl(url)`, `None` where it throws. The test-mode pattern sees
      the string form of any value; the prefix checks call `url.indexOf`,
      which a string and an array have and every other value lacks. On an
      array `indexOf(x) === 0` asks whether the first element is `x`. */
  function IsTestUrlValue(url: Option<Value>): Option<bool> {
    if MatchesTestMode(OptToJsString(url)) then Some(true)
    else if url.None? then None
    else match url.value
      case Str(u) =>
        Some((StartsWith(u, AppModeUrl) || StartsWith(u, AppModeUrlSecure)) && Test(u, TestmodeQuery))
      case Arr(es) =>
        Some(|es| > 0 && (es[0] == Str(AppModeUrl) || es[0] == Str(AppModeUrlSecure)) &&
          Test(ToJsString(url.value), TestmodeQuery))
      case _ => None
  }

  /** `isTestUrl` throws exactly on a value that is neither a string nor an
      array: no other value's string form begins like a URL. */
  lemma IsTestUrlThrows(url: Option<Value>)
    ensures IsTestUrlValue(url).None? <==> !(url.Some? && (url.value.Str? || url.value.Arr?))
  {
    var t := OptToJsString(url);
    if url.Some? && url.value.Num? {
      assert t[0] == '-' || '0' <= t[0] <= '9';
      assert TestHost[0] == 'h';
    }
    if url.None? || (url.Some? && (url.value.Null? || url.value.Bool? || url.value.Obj?)) {
      assert t[0] != 'h';
      assert TestHost[0] == 'h';
    }
  }

  /** On a string, `isTestUrl` holds exactly for a local test page, or for
      the application page asked for test mode. */
  lemma IsTestUrlOnString(u: string)
    ensures IsTestUrlValue(Some(Str(u))) == Some(
      (exists p :: PortPart(p) && StartsWith(u, TestHost + p + TestPage)) ||
      ((StartsWith(u, AppModeUrl) || StartsWith(u, AppModeUrlSecure)) &&
       exists j :: 0 <= j <= |u| && MatchAt(u, j, TestmodeQuery)))
  {
    TestModeMeaning(u);
    TestMeaning(u, TestmodeQuery);
  }

  // ---------------------------------------------------------------------
  // The exrc text in test mode

  /** The first test-mode addition: a `set list` line, unless the text
      already has that command as words. Appending converts the value to its
      string form. */
  function WithList(exrc: Option<Value>): Option<Value> {
    if Test(OptToJsString(exrc), SetListWord) then exrc
    else Some(Str(OptToJsString(exrc) + "\nset list"))
  }

  /** The exrc value the init reply carries when the pushed payload's URL is
      a test URL whose string form is `url`: the `set list` addition, then a
      `set nooverride` line when the URL asks for it. */
  function AugmentExrc(exrc: Option<Value>, url: string): Option<Value> {
    if Test(url, NooverrideQuery) then Some(Str(OptToJsString(WithList(exrc)) + "\nset nooverride"))
    else WithList(exrc)
  }

  /** An appended `set list` line is the command as words. */
  lemma ListLineMatches(e: string)
    ensures MatchAt(e + "\nset list", |e| + 1, SetListWord)
  {
    var t := "\nset list";
    assert (e + t)[|e| + 1..|e| + 9] == t[1..9];
    assert (e + t)[|e|] == '\n';
  }

  /** After the first addition the text has the `set list` command and
      starts with the original text; a value is left as it is exactly when
      its text already had the command. */
  lemma WithListSpec(exrc: Option<Value>)
    ensures var e := OptToJsString(exrc);
      var l := OptToJsString(WithList(exrc));
      Test(l, SetListWord) && StartsWith(l, e) &&
      (Test(e, SetListWord) ==> WithList(exrc) == exrc) &&
      (!Test(e, SetListWord) ==> l == e + "\nset list")
  {
    var e := OptToJsString(exrc);
    var l := OptToJsString(WithList(exrc));
    if !Test(e, SetListWord) {
      ListLineMatches(e);
      TestMeaning(l, SetListWord);
      assert l[..|e|] == e;
    }
  }

  /** Appending text that starts with a line break keeps a `set list`
      command and the text before it. */
  lemma AppendKeepsList(l: string, e: string, t: string)
    requires Test(l, SetListWord) && StartsWith(l, e)
    requires t != [] && t[0] == '\n'
    ensures Test(l + t, SetListWord) && StartsWith(l + t, e)
  {
    TestMeaning(l, SetListWord);
    var j :| 0 <= j <= |l| && MatchAt(l, j, SetListWord);
    MatchAtExtends(l, t, j, SetListWord);
    TestMeaning(l + t, SetListWord);
    assert (l + t)[..|e|] == l[..|e|];
  }

  /** The augmented text has the `set list` command, starts with the original
      text, and ends with a `set nooverride` line when the URL asks for it;
      otherwise it is the first addition alone. */
  lemma AugmentExrcSpec(exrc: Option<Value>, url: string)
    ensures var r := OptToJsString(AugmentExrc(exrc, url));
      Test(r, SetListWord) &&
      StartsWith(r, OptToJsString(exrc)) &&
      (Test(url, NooverrideQuery) ==> |r| >= 15 && r[|r| - 15..] == "\nset nooverride") &&
      (!Test(url, NooverrideQuery) ==> AugmentExrc(exrc, url) == WithList(exrc))
  {
    WithListSpec(exrc);
    if Test(url, NooverrideQuery) {
      AppendKeepsList(OptToJsString(WithList(exrc)), OptToJsString(exrc), "\nset nooverride");
    }
  }

  /** Augmenting twice adds nothing more about `set list`: a text that has
      the command keeps it as it is. */
  lemma AugmentListOnce(exrc: Option<Value>, url: string)
    requires !Test(url, NooverrideQuery)
    ensures AugmentExrc(AugmentExrc(exrc, url), url) == AugmentExrc(exrc, url)
  {
    WithListSpec(exrc);
    WithListSpec(WithList(exrc));
  }
}
