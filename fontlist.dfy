/** The font-family setting's validation: a CSS-like list of family names,
    each a double-quoted name, a single-quoted name or a bare word of
    letters and hyphens, separated by commas, with white space allowed
    around every name. `IsFontList` is the scanner that decides the
    regular expression the source tests; `Parse`, `WellFormed` and `Render`
    are the grammar written declaratively, and the two are proved to accept
    the same strings. */
module FontList {
  import opened Json

  /** The font list used when a stored or supplied value fails validation:
      `"Consolas","Monaco","Courier New","Courier",monospace`, written out
      name by name. */
  const DefaultFont: string :=
    "\"Consolas\"" + (("," + "\"Monaco\"") + (("," + "\"Courier New\"") +
      (("," + "\"Courier\"") + ("," + "monospace"))))

  /** JavaScript's `\s` class. */
  const SpaceChars: set<char> := {
    ' ', '\t', '\n', '\r', '\U{B}', '\U{C}', '\U{A0}', '\U{1680}',
    '\U{2000}', '\U{2001}', '\U{2002}', '\U{2003}', '\U{2004}', '\U{2005}',
    '\U{2006}', '\U{2007}', '\U{2008}', '\U{2009}', '\U{200A}',
    '\U{2028}', '\U{2029}', '\U{202F}', '\U{205F}', '\U{3000}', '\U{FEFF}'
  }

  predicate IsSpace(c: char) {
    c in SpaceChars
  }

  /** The class `[a-zA-Z-]` of a bare family name. */
  predicate IsNameChar(c: char) {
    ('a' <= c <= 'z') || ('A' <= c <= 'Z') || c == '-'
  }

  /** Characters a quoted family name may not contain, for a given quote. */
  predicate EndsQuoted(c: char, quote: char) {
    c == quote || c == ',' || c == ';'
  }

  predicate Spaces(w: string) {
    forall i :: 0 <= i < |w| ==> IsSpace(w[i])
  }

  predicate QuotedFamily(f: string, quote: char) {
    |f| >= 3 && f[0] == quote && f[|f| - 1] == quote
    && forall i :: 0 < i < |f| - 1 ==> !EndsQuoted(f[i], quote)
  }

  predicate BareFamily(f: string) {
    |f| >= 1 && forall i :: 0 <= i < |f| ==> IsNameChar(f[i])
  }

  /** One alternative of the regular expression's family group. */
  predicate Family(f: string) {
    QuotedFamily(f, '"') || QuotedFamily(f, '\'') || BareFamily(f)
  }

  // ---------------------------------------------------------------------
  // The scanner: each step consumes a prefix of the text and returns the rest

  /** What is left after a greedy `\s*`. */
  function DropSpaces(t: string): (u: string)
    ensures |u| <= |t|
    decreases |t|
  {
    if t != [] && IsSpace(t[0]) then DropSpaces(t[1..]) else t
  }

  /** What is left after a greedy `[a-zA-Z-]*`. */
  function DropName(t: string): (u: string)
    ensures |u| <= |t|
    decreases |t|
  {
    if t != [] && IsNameChar(t[0]) then DropName(t[1..]) else t
  }

  /** What is left after the body of a quoted name: everything before the
      first quote, comma or semicolon. */
  function DropQuoted(t: string, quote: char): (u: string)
    ensures |u| <= |t|
    decreases |t|
  {
    if t != [] && !EndsQuoted(t[0], quote) then DropQuoted(t[1..], quote) else t
  }

  /** What is left after one family name, if the text starts with one. */
  function DropFamily(t: string): (r: Option<string>)
    ensures r.Some? ==> |r.value| < |t|
  {
    if t != [] && (t[0] == '"' || t[0] == '\'') then
      var u := DropQuoted(t[1..], t[0]);
      if u != [] && u[0] == t[0] && |u| < |t| - 1 then Some(u[1..]) else None
    else if t != [] && IsNameChar(t[0]) then
      Some(DropName(t))
    else
      None
  }

  /** Whether the text after a family name is a sequence of `, name`
      items followed by trailing white space. */
  function ItemsFollow(t: string): bool
    decreases |t|
  {
    var u := DropSpaces(t);
    if u == [] then true
    else if u[0] != ',' then false
    else
      match DropFamily(DropSpaces(u[1..]))
      case None => false
      case Some(v) => ItemsFollow(v)
  }

  /** The source's font-list regular expression, anchored at both ends. */
  predicate IsFontList(s: string) {
    match DropFamily(DropSpaces(s))
    case None => false
    case Some(v) => ItemsFollow(v)
  }

  // ---------------------------------------------------------------------
  // The grammar, declaratively

  /** `before , after family` */
  datatype Sep = Sep(before: string, after: string, family: string)

  /** `lead first (sep)* trail` */
  datatype Parse = Parse(lead: string, first: string, rest: seq<Sep>, trail: string)

  predicate WellFormedRest(rest: seq<Sep>) {
    forall i :: 0 <= i < |rest| ==>
      Spaces(rest[i].before) && Spaces(rest[i].after) && Family(rest[i].family)
  }

  predicate WellFormed(p: Parse) {
    Spaces(p.lead) && Family(p.first) && WellFormedRest(p.rest) && Spaces(p.trail)
  }

  function RenderRest(rest: seq<Sep>): string {
    if rest == [] then ""
    else rest[0].before + "," + rest[0].after + rest[0].family + RenderRest(rest[1..])
  }

  function Render(p: Parse): string {
    p.lead + p.first + RenderRest(p.rest) + p.trail
  }

  // ---------------------------------------------------------------------
  // Scanner and grammar agree

  lemma SpaceIsNotNameChar(c: char)
    requires IsSpace(c)
    ensures !IsNameChar(c)
  {
  }

  lemma {:induction false} DropSpacesOver(w: string, x: string)
    requires Spaces(w) && (x == [] || !IsSpace(x[0]))
    ensures DropSpaces(w + x) == x
    decreases |w|
  {
    if w != [] {
      assert (w + x)[1..] == w[1..] + x;
      DropSpacesOver(w[1..], x);
    } else {
      assert w + x == x;
    }
  }

  lemma {:induction false} DropNameOver(w: string, x: string)
    requires forall i :: 0 <= i < |w| ==> IsNameChar(w[i])
    requires x == [] || !IsNameChar(x[0])
    ensures DropName(w + x) == x
    decreases |w|
  {
    if w != [] {
      assert (w + x)[1..] == w[1..] + x;
      DropNameOver(w[1..], x);
    } else {
      assert w + x == x;
    }
  }

  lemma {:induction false} DropQuotedOver(w: string, quote: char, x: string)
    requires forall i :: 0 <= i < |w| ==> !EndsQuoted(w[i], quote)
    requires x != [] && x[0] == quote
    ensures DropQuoted(w + x, quote) == x
    decreases |w|
  {
    if w != [] {
      assert (w + x)[1..] == w[1..] + x;
      DropQuotedOver(w[1..], quote, x);
    } else {
      assert w + x == x;
    }
  }

  lemma DropFamilyOver(f: string, x: string)
    requires Family(f) && (x == [] || !IsNameChar(x[0]))
    ensures DropFamily(f + x) == Some(x)
  {
    var t := f + x;
    assert t[0] == f[0];
    if QuotedFamily(f, '"') || QuotedFamily(f, '\'') {
      var q := f[0];
      var inner := f[1..|f| - 1];
      assert t[1..] == inner + ([q] + x);
      DropQuotedOver(inner, q, [q] + x);
      assert ([q] + x)[1..] == x;
    } else {
      DropNameOver(f, x);
    }
  }

  /** What may follow a family name never continues a bare name. */
  lemma AfterFamilyStop(rest: seq<Sep>, trail: string)
    requires WellFormedRest(rest) && Spaces(trail)
    ensures var t := RenderRest(rest) + trail; t == [] || !IsNameChar(t[0])
  {
    var t := RenderRest(rest) + trail;
    if rest != [] {
      var sep := rest[0];
      assert t == sep.before + ("," + (sep.after + sep.family + RenderRest(rest[1..]) + trail));
      if sep.before != [] {
        assert t[0] == sep.before[0];
        SpaceIsNotNameChar(t[0]);
      } else {
        assert t[0] == ',';
      }
    } else if trail != [] {
      assert t[0] == trail[0];
      SpaceIsNotNameChar(t[0]);
    }
  }

  /** A family name never starts with white space. */
  lemma FamilyStartsSolid(f: string, x: string)
    requires Family(f)
    ensures !IsSpace((f + x)[0])
  {
    assert (f + x)[0] == f[0];
    if IsSpace(f[0]) {
      SpaceIsNotNameChar(f[0]);
    }
  }

  lemma WellFormedRestTail(rest: seq<Sep>)
    requires rest != [] && WellFormedRest(rest)
    ensures WellFormedRest(rest[1..])
    ensures Spaces(rest[0].before) && Spaces(rest[0].after) && Family(rest[0].family)
  {
    forall k | 0 <= k < |rest[1..]|
      ensures Spaces(rest[1..][k].before) && Spaces(rest[1..][k].after) && Family(rest[1..][k].family)
    {
      assert rest[1..][k] == rest[k + 1];
    }
  }

  lemma {:induction false} ItemsFollowComplete(rest: seq<Sep>, trail: string)
    requires WellFormedRest(rest) && Spaces(trail)
    ensures ItemsFollow(RenderRest(rest) + trail)
    decreases |rest|
  {
    if rest == [] {
      assert RenderRest(rest) + trail == trail + [];
      DropSpacesOver(trail, []);
    } else {
      var sep := rest[0];
      var tail := RenderRest(rest[1..]) + trail;
      WellFormedRestTail(rest);
      var t := RenderRest(rest) + trail;
      assert t == sep.before + ("," + (sep.after + (sep.family + tail)));
      DropSpacesOver(sep.before, "," + (sep.after + (sep.family + tail)));
      assert ("," + (sep.after + (sep.family + tail)))[1..] == sep.after + (sep.family + tail);
      FamilyStartsSolid(sep.family, tail);
      DropSpacesOver(sep.after, sep.family + tail);
      AfterFamilyStop(rest[1..], trail);
      DropFamilyOver(sep.family, tail);
      ItemsFollowComplete(rest[1..], trail);
    }
  }

  /** Every string the grammar derives passes the scanner. */
  lemma RenderAccepted(p: Parse)
    requires WellFormed(p)
    ensures IsFontList(Render(p))
  {
    var tail := RenderRest(p.rest) + p.trail;
    assert Render(p) == p.lead + (p.first + tail);
    FamilyStartsSolid(p.first, tail);
    DropSpacesOver(p.lead, p.first + tail);
    AfterFamilyStop(p.rest, p.trail);
    DropFamilyOver(p.first, tail);
    ItemsFollowComplete(p.rest, p.trail);
  }

  lemma {:induction false} DropSpacesSplit(t: string) returns (w: string)
    ensures t == w + DropSpaces(t) && Spaces(w)
    ensures DropSpaces(t) == [] || !IsSpace(DropSpaces(t)[0])
    decreases |t|
  {
    if t != [] && IsSpace(t[0]) {
      var w' := DropSpacesSplit(t[1..]);
      w := [t[0]] + w';
      assert t == [t[0]] + t[1..];
    } else {
      w := [];
    }
  }

  lemma {:induction false} DropNameSplit(t: string) returns (w: string)
    ensures t == w + DropName(t)
    ensures forall i :: 0 <= i < |w| ==> IsNameChar(w[i])
    decreases |t|
  {
    if t != [] && IsNameChar(t[0]) {
      var w' := DropNameSplit(t[1..]);
      w := [t[0]] + w';
      assert t == [t[0]] + t[1..];
    } else {
      w := [];
    }
  }

  lemma {:induction false} DropQuotedSplit(t: string, quote: char) returns (w: string)
    ensures t == w + DropQuoted(t, quote)
    ensures forall i :: 0 <= i < |w| ==> !EndsQuoted(w[i], quote)
    decreases |t|
  {
    if t != [] && !EndsQuoted(t[0], quote) {
      var w' := DropQuotedSplit(t[1..], quote);
      w := [t[0]] + w';
      assert t == [t[0]] + t[1..];
    } else {
      w := [];
    }
  }

  lemma DropFamilySplit(t: string) returns (f: string)
    requires DropFamily(t).Some?
    ensures t == f + DropFamily(t).value && Family(f)
  {
    var v := DropFamily(t).value;
    if t[0] == '"' || t[0] == '\'' {
      var q := t[0];
      var u := DropQuoted(t[1..], q);
      var w := DropQuotedSplit(t[1..], q);
      f := [q] + w + [q];
      assert t == [q] + t[1..];
      assert u == [q] + v;
      assert f[1..|f| - 1] == w;
      assert QuotedFamily(f, q);
    } else {
      f := DropNameSplit(t);
      assert BareFamily(f);
    }
  }

  lemma {:induction false} ItemsFollowSound(t: string) returns (rest: seq<Sep>, trail: string)
    requires ItemsFollow(t)
    ensures WellFormedRest(rest) && Spaces(trail)
    ensures t == RenderRest(rest) + trail
    decreases |t|
  {
    var u := DropSpaces(t);
    var before := DropSpacesSplit(t);
    if u == [] {
      rest, trail := [], t;
    } else {
      var u' := DropSpaces(u[1..]);
      var after := DropSpacesSplit(u[1..]);
      var v := DropFamily(u').value;
      var family := DropFamilySplit(u');
      var rest', trail' := ItemsFollowSound(v);
      var sep := Sep(before, after, family);
      rest, trail := [sep] + rest', trail';
      WellFormedRestCons(sep, rest');
      ItemRendered(t, u, sep, v, rest', trail');
    }
  }

  /** Reassembling the text of one `, name` item and what follows it. */
  lemma ItemRendered(t: string, u: string, sep: Sep, v: string, rest: seq<Sep>, trail: string)
    requires u != [] && u[0] == ','
    requires t == sep.before + u && u[1..] == sep.after + (sep.family + v)
    requires v == RenderRest(rest) + trail
    ensures t == RenderRest([sep] + rest) + trail
  {
    var r := RenderRest(rest);
    assert RenderRest([sep] + rest) == sep.before + "," + sep.after + sep.family + r by {
      assert ([sep] + rest)[1..] == rest;
    }
    assert u == "," + (sep.after + (sep.family + (r + trail))) by {
      assert u == [u[0]] + u[1..];
    }
  }

  lemma WellFormedRestCons(sep: Sep, rest: seq<Sep>)
    requires Spaces(sep.before) && Spaces(sep.after) && Family(sep.family)
    requires WellFormedRest(rest)
    ensures WellFormedRest([sep] + rest)
  {
    forall k | 0 <= k < |[sep] + rest|
      ensures Spaces(([sep] + rest)[k].before) && Spaces(([sep] + rest)[k].after)
        && Family(([sep] + rest)[k].family)
    {
      if k > 0 {
        assert ([sep] + rest)[k] == rest[k - 1];
      }
    }
  }

  /** Every string the scanner accepts is derived by the grammar. */
  lemma AcceptedHasParse(s: string) returns (p: Parse)
    requires IsFontList(s)
    ensures WellFormed(p) && Render(p) == s
  {
    var u := DropSpaces(s);
    var lead := DropSpacesSplit(s);
    var v := DropFamily(u).value;
    var first := DropFamilySplit(u);
    var rest, trail := ItemsFollowSound(v);
    p := Parse(lead, first, rest, trail);
    Reassociate(lead, first, RenderRest(rest), trail);
  }

  lemma Reassociate(a: string, b: string, c: string, d: string)
    ensures a + (b + (c + d)) == a + b + c + d
  {
  }

  lemma DefaultFamiliesWellFormed()
    ensures Family("\"Consolas\"") && Family("\"Monaco\"") && Family("\"Courier New\"")
    ensures Family("\"Courier\"") && Family("monospace")
  {
    assert QuotedFamily("\"Consolas\"", '"');
    assert QuotedFamily("\"Monaco\"", '"');
    assert QuotedFamily("\"Courier New\"", '"');
    assert QuotedFamily("\"Courier\"", '"');
    assert BareFamily("monospace");
  }

  /** The default font list, as the grammar derives it. */
  function DefaultFontParse(): Parse {
    Parse("", "\"Consolas\"", [Sep("", "", "\"Monaco\""), Sep("", "", "\"Courier New\""),
      Sep("", "", "\"Courier\""), Sep("", "", "monospace")], "")
  }

  lemma DefaultFontWellFormed()
    ensures WellFormed(DefaultFontParse())
  {
    var rest := DefaultFontParse().rest;
    DefaultFamiliesWellFormed();
    assert Spaces("");
    forall i | 0 <= i < |rest|
      ensures Spaces(rest[i].before) && Spaces(rest[i].after) && Family(rest[i].family)
    {
      assert i == 0 || i == 1 || i == 2 || i == 3;
    }
  }

  lemma DefaultFontRendered()
    ensures Render(DefaultFontParse()) == DefaultFont
  {
  }

  /** The default font list is itself a valid font list. */
  lemma DefaultFontIsFontList()
    ensures IsFontList(DefaultFont)
  {
    var p := DefaultFontParse();
    DefaultFontWellFormed();
    DefaultFontRendered();
    RenderAccepted(p);
  }

  // ---------------------------------------------------------------------
  // The setting's normaliser

  /** The `fontFamily` setter: keep a value whose string form is a valid font
      list, otherwise fall back to the default list. The regular-expression
      test converts a non-string value to a string first, so `null` or
      `true` pass as the bare names "null" and "true". */
  function NormaliseFontFamily(v: Value): (r: Value)
    ensures IsFontList(ToJsString(r))
    ensures r == v || r == Str(DefaultFont)
  {
    if IsFontList(ToJsString(v)) then v else DefaultFontIsFontList(); Str(DefaultFont)
  }

  /** Normalising twice gives what normalising once gives. */
  lemma NormaliseFontFamilyIdempotent(v: Value)
    ensures NormaliseFontFamily(NormaliseFontFamily(v)) == NormaliseFontFamily(v)
  {
    DefaultFontIsFontList();
  }

  /** A supplied string is kept exactly when the grammar derives it. */
  lemma NormaliseKeepsExactlyGrammatical(s: string)
    ensures NormaliseFontFamily(Str(s)) == Str(s) <==> exists p :: WellFormed(p) && Render(p) == s
  {
    if IsFontList(s) {
      var p := AcceptedHasParse(s);
    } else {
      forall p | WellFormed(p) ensures Render(p) != s {
        RenderAccepted(p);
      }
      DefaultFontIsFontList();
    }
  }
}
