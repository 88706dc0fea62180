/** `getShrinkedCode`: a script's text with its head comment, its line
    comments and its line breaks removed, so that it fits on one line. The
    two regular-expression replacements are written out as left-to-right
    scans with the regular expressions' own character classes. */
module Shrink {

  /** The characters `.` does not match: the line terminators. */
  predicate IsLineTerminator(c: char) {
    c == '\n' || c == '\r' || c == '\U{2028}' || c == '\U{2029}'
  }

  /** The characters `\s` matches. */
  predicate IsSpace(c: char) {
    c == '\t' || c == '\n' || c == '\U{000B}' || c == '\U{000C}' || c == '\r' || c == ' ' ||
    c == '\U{00A0}' || c == '\U{1680}' || ('\U{2000}' <= c <= '\U{200A}') ||
    c == '\U{2028}' || c == '\U{2029}' || c == '\U{202F}' || c == '\U{205F}' || c == '\U{3000}' || c == '\U{FEFF}'
  }

  /** `pat` occurs in `s` at index `i`. */
  predicate OccursAt(s: string, pat: string, i: nat) {
    i + |pat| <= |s| && s[i..i + |pat|] == pat
  }

  /** `s.indexOf(pat)`: the first index where `pat` occurs, -1 when it does
      not occur. */
  function IndexOf(s: string, pat: string): (r: int)
    ensures -1 <= r <= |s|
    ensures r >= 0 ==> OccursAt(s, pat, r) && forall i :: 0 <= i < r ==> !OccursAt(s, pat, i)
    ensures r == -1 ==> forall i :: 0 <= i <= |s| ==> !OccursAt(s, pat, i)
    decreases |s|
  {
    if |pat| > |s| then -1
    else if s[..|pat|] == pat then 0
    else
      var r := IndexOf(s[1..], pat);
      if r == -1 then
        assert forall i :: 1 <= i <= |s| ==> (OccursAt(s, pat, i) <==> OccursAt(s[1..], pat, i - 1)) by {
          forall i | 1 <= i <= |s| ensures OccursAt(s, pat, i) <==> OccursAt(s[1..], pat, i - 1) {
            if i + |pat| <= |s| {
              assert s[i..i + |pat|] == s[1..][i - 1..i - 1 + |pat|];
            }
          }
        }
        -1
      else
        assert forall i :: 1 <= i <= r + 1 ==> (OccursAt(s, pat, i) <==> OccursAt(s[1..], pat, i - 1)) by {
          forall i | 1 <= i <= r + 1 ensures OccursAt(s, pat, i) <==> OccursAt(s[1..], pat, i - 1) {
            if i + |pat| <= |s| {
              assert s[i..i + |pat|] == s[1..][i - 1..i - 1 + |pat|];
            }
          }
        }
        r + 1
  }

  /** Strip the head comment: everything up to and including the first
      blank line, when there is one. */
  function StripHead(src: string): (r: string)
    ensures IndexOf(src, "\n\n") >= 0 ==> src == src[..IndexOf(src, "\n\n")] + "\n\n" + r
    ensures IndexOf(src, "\n\n") == -1 ==> r == src
  {
    var b := IndexOf(src, "\n\n");
    if b >= 0 then
      assert src == src[..b] + src[b..b + 2] + src[b + 2..];
      src[b + 2..]
    else src
  }

  /** The rest of a line comment, up to but not including its line
      terminator: what `.*` matches greedily. */
  function SkipLine(s: string): (r: string)
    ensures |r| <= |s| && (r != [] ==> IsLineTerminator(r[0]))
    ensures exists k :: 0 <= k <= |s| && r == s[k..] && forall j :: 0 <= j < k ==> !IsLineTerminator(s[j])
  {
    if s == [] || IsLineTerminator(s[0]) then
      assert s == s[0..];
      s
    else
      var r := SkipLine(s[1..]);
      var k :| 0 <= k <= |s[1..]| && r == s[1..][k..] && forall j :: 0 <= j < k ==> !IsLineTerminator(s[1..][j]);
      assert r == s[k + 1..];
      assert forall j :: 0 <= j < k + 1 ==> !IsLineTerminator(s[j]) by {
        forall j | 0 <= j < k + 1 ensures !IsLineTerminator(s[j]) {
          if j > 0 {
            assert s[j] == s[1..][j - 1];
          }
        }
      }
      r
  }

  /** `s` starts a line comment. */
  predicate StartsComment(s: string) {
    |s| >= 2 && s[0] == '/' && s[1] == '/'
  }

  /** `src.replace(/\/\/.*\/g, ' ')`: each line comment becomes one space. */
  function StripComments(s: string): string
    decreases |s|
  {
    if s == [] then []
    else if StartsComment(s) then [' '] + StripComments(SkipLine(s[2..]))
    else [s[0]] + StripComments(s[1..])
  }

  /** The leading run of whitespace that `[\n\s]*` matches greedily. */
  function SkipSpaces(s: string): (r: string)
    ensures |r| <= |s| && (r != [] ==> !IsSpace(r[0]))
  {
    if s != [] && IsSpace(s[0]) then SkipSpaces(s[1..]) else s
  }

  /** `src.replace(/\n[\n\s]*\/g, ' ')`: each line break, with the
      whitespace after it, becomes one space. */
  function Collapse(s: string): string
    decreases |s|
  {
    if s == [] then []
    else if s[0] == '\n' then [' '] + Collapse(SkipSpaces(s[1..]))
    else [s[0]] + Collapse(s[1..])
  }

  /** `getShrinkedCode(src)`. */
  function ShrinkedCode(src: string): string {
    Collapse(StripComments(StripHead(src)))
  }

  /** No two slashes in a row: no line comment starts anywhere. */
  predicate NoCommentStart(s: string) {
    forall i :: 0 <= i < |s| - 1 ==> !(s[i] == '/' && s[i + 1] == '/')
  }

  /** No line break. */
  predicate OneLine(s: string) {
    forall i :: 0 <= i < |s| ==> s[i] != '\n'
  }

  // ---------------------------------------------------------------------
  // Properties

  /** The first character of the stripped text: a comment turns into a
      space, anything else is kept. */
  lemma StripCommentsHead(s: string)
    requires s != []
    ensures StripComments(s) != [] && StripComments(s)[0] == if StartsComment(s) then ' ' else s[0]
  {
  }

  /** After the comments are stripped no line comment starts anywhere. */
  lemma {:induction false} StripCommentsLeavesNone(s: string)
    ensures NoCommentStart(StripComments(s))
    decreases |s|
  {
    if s == [] {
    } else if StartsComment(s) {
      StripCommentsLeavesNone(SkipLine(s[2..]));
    } else {
      var rest := StripComments(s[1..]);
      StripCommentsLeavesNone(s[1..]);
      if rest != [] {
        StripCommentsHead(s[1..]);
        assert s[0] == '/' ==> rest[0] != '/';
      }
      var r := [s[0]] + rest;
      forall i | 0 <= i < |r| - 1
        ensures !(r[i] == '/' && r[i + 1] == '/')
      {
        if i > 0 {
          assert r[i] == rest[i - 1] && r[i + 1] == rest[i];
        }
      }
    }
  }

  /** Text without line comments is left as it is. */
  lemma {:induction false} StripCommentsNoneUnchanged(s: string)
    requires NoCommentStart(s)
    ensures StripComments(s) == s
    decreases |s|
  {
    if s != [] {
      assert !StartsComment(s);
      assert NoCommentStart(s[1..]) by {
        forall i | 0 <= i < |s[1..]| - 1
          ensures !(s[1..][i] == '/' && s[1..][i + 1] == '/')
        {
          assert s[1..][i] == s[i + 1] && s[1..][i + 1] == s[i + 2];
        }
      }
      StripCommentsNoneUnchanged(s[1..]);
      assert s == [s[0]] + s[1..];
    }
  }

  /** The first character of the collapsed text: a line break turns into a
      space, anything else is kept. */
  lemma CollapseHead(s: string)
    requires s != []
    ensures Collapse(s) != [] && Collapse(s)[0] == if s[0] == '\n' then ' ' else s[0]
  {
  }

  /** The collapsed text is on one line. */
  lemma {:induction false} CollapseOneLine(s: string)
    ensures OneLine(Collapse(s))
    decreases |s|
  {
    if s == [] {
    } else if s[0] == '\n' {
      CollapseOneLine(SkipSpaces(s[1..]));
    } else {
      CollapseOneLine(s[1..]);
    }
  }

  /** Collapsing line breaks never makes a comment start: every line break
      becomes a space. */
  lemma {:induction false} CollapseKeepsNoComment(s: string)
    requires NoCommentStart(s)
    ensures NoCommentStart(Collapse(s))
    decreases |s|
  {
    if s == [] {
    } else if s[0] == '\n' {
      var t := SkipSpaces(s[1..]);
      NoCommentStartSuffix(s, |s| - |t|);
      assert s[|s| - |t|..] == t by {
        SkipSpacesSuffix(s[1..]);
      }
      CollapseKeepsNoComment(t);
      var r := [' '] + Collapse(t);
      forall i | 0 <= i < |r| - 1
        ensures !(r[i] == '/' && r[i + 1] == '/')
      {
        if i > 0 {
          assert r[i] == Collapse(t)[i - 1] && r[i + 1] == Collapse(t)[i];
        }
      }
    } else {
      NoCommentStartSuffix(s, 1);
      CollapseKeepsNoComment(s[1..]);
      var rest := Collapse(s[1..]);
      if rest != [] {
        CollapseHead(s[1..]);
      }
      var r := [s[0]] + rest;
      forall i | 0 <= i < |r| - 1
        ensures !(r[i] == '/' && r[i + 1] == '/')
      {
        if i > 0 {
          assert r[i] == rest[i - 1] && r[i + 1] == rest[i];
        }
      }
    }
  }

  lemma SkipSpacesSuffix(s: string)
    ensures s[|s| - |SkipSpaces(s)|..] == SkipSpaces(s)
    decreases |s|
  {
    if s != [] && IsSpace(s[0]) {
      SkipSpacesSuffix(s[1..]);
      assert s[1..][|s[1..]| - |SkipSpaces(s[1..])|..] == s[|s| - |SkipSpaces(s)|..];
    }
  }

  lemma NoCommentStartSuffix(s: string, k: nat)
    requires k <= |s| && NoCommentStart(s)
    ensures NoCommentStart(s[k..])
  {
    forall i | 0 <= i < |s[k..]| - 1
      ensures !(s[k..][i] == '/' && s[k..][i + 1] == '/')
    {
      assert s[k..][i] == s[k + i] && s[k..][i + 1] == s[k + i + 1];
    }
  }

  /** Text on one line is left as it is. */
  lemma {:induction false} CollapseOneLineUnchanged(s: string)
    requires OneLine(s)
    ensures Collapse(s) == s
    decreases |s|
  {
    if s != [] {
      assert OneLine(s[1..]) by {
        forall i | 0 <= i < |s[1..]| ensures s[1..][i] != '\n' {
          assert s[1..][i] == s[i + 1];
        }
      }
      CollapseOneLineUnchanged(s[1..]);
      assert s == [s[0]] + s[1..];
    }
  }

  /** Text on one line has no blank line, so no head comment to strip. */
  lemma OneLineNoBlankLine(s: string)
    requires OneLine(s)
    ensures IndexOf(s, "\n\n") == -1 && StripHead(s) == s
  {
    forall i | 0 <= i <= |s|
      ensures !OccursAt(s, "\n\n", i)
    {
      if i + 2 <= |s| {
        assert s[i..i + 2][0] == s[i];
      }
    }
  }

  /** The shrunk code is one line with no line comment left in it. */
  lemma ShrinkedCodeShape(src: string)
    ensures OneLine(ShrinkedCode(src)) && NoCommentStart(ShrinkedCode(src))
  {
    var t := StripComments(StripHead(src));
    StripCommentsLeavesNone(StripHead(src));
    CollapseOneLine(t);
    CollapseKeepsNoComment(t);
  }

  /** Shrinking shrunk code changes nothing: it has no blank line, no line
      comment and no line break left. */
  lemma ShrinkedCodeIdempotent(src: string)
    ensures ShrinkedCode(ShrinkedCode(src)) == ShrinkedCode(src)
  {
    var c := ShrinkedCode(src);
    ShrinkedCodeShape(src);
    OneLineNoBlankLine(c);
    StripCommentsNoneUnchanged(c);
    CollapseOneLineUnchanged(c);
  }
}
