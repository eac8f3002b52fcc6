/**
 * `slugify` (lib/utils.ts): lower-case, trim, turn each run of white space or
 * underscores into one hyphen, drop every character that is not a word
 * character, Hebrew or a hyphen, collapse hyphen runs, and strip hyphens
 * from both ends.
 */
module Slug {
  import opened Text

  /** The Hebrew block U+0590..U+05FF. */
  predicate IsHebrew(c: char) { '\U{590}' <= c <= '\U{5FF}' }

  /** `\w` of a regular expression without the `u` flag. */
  predicate IsWordChar(c: char) { IsAsciiLower(c) || IsAsciiUpper(c) || IsAsciiDigit(c) || c == '_' }

  /** `[\s_]`. */
  predicate IsSpaceOrUnderscore(c: char) { IsWhitespace(c) || c == '_' }

  predicate IsHyphen(c: char) { c == '-' }

  /** The characters `/[^\w֐-׿-]+/g` leaves alone. */
  predicate Kept(c: char) { IsWordChar(c) || IsHebrew(c) || c == '-' }

  /** A character a slug may contain. */
  predicate IsSlugChar(c: char) { IsAsciiLower(c) || IsAsciiDigit(c) || IsHebrew(c) || c == '-' }

  /** A slug character other than the separator. */
  predicate Solid(c: char) { IsAsciiLower(c) || IsAsciiDigit(c) || IsHebrew(c) }

  const KelvinSign: char := '\U{212A}'
  const CapitalIWithDot: char := '\U{130}'

  /** A character that leaves something in the slug: an ASCII letter or digit, Hebrew, or one of the two capitals that lower-case to ASCII. */
  predicate IsContent(c: char) {
    IsAsciiLower(c) || IsAsciiUpper(c) || IsAsciiDigit(c) || IsHebrew(c) || c == KelvinSign || c == CapitalIWithDot
  }

  /** No two hyphens in a row. */
  predicate NoDoubleHyphen(s: string) {
    forall i :: 0 <= i < |s| - 1 ==> !(s[i] == '-' && s[i + 1] == '-')
  }

  /** Some character of `s` is a slug character other than the separator. */
  ghost predicate HasSolid(s: string) {
    exists x :: x in s && Solid(x)
  }

  /**
   * `toLowerCase` of one character, as far as the later steps can tell: ASCII
   * capitals, KELVIN SIGN (to `k`) and LATIN CAPITAL LETTER I WITH DOT ABOVE
   * (to `i` and a combining dot) are mapped; every other character is kept,
   * since its real lower-case form is neither ASCII, Hebrew, white space, `_`
   * nor `-`, so it is dropped later exactly as the character itself is.
   */
  function LowerChar(c: char): (r: string)
    ensures forall x :: x in r ==> !IsAsciiUpper(x)
    ensures HasSolid(r) <==> IsContent(c)
    ensures IsSlugChar(c) ==> r == [c]
  {
    if IsAsciiUpper(c) then
      var l := (c as int + 32) as char;
      assert l in [l] && Solid(l);
      [l]
    else if c == KelvinSign then assert "k"[0] in "k"; "k"
    else if c == CapitalIWithDot then assert "i\U{307}"[0] in "i\U{307}"; "i\U{307}"
    else assert c in [c]; [c]
  }

  function Lower(s: string): (r: string)
    ensures forall x :: x in r ==> !IsAsciiUpper(x)
    ensures HasSolid(r) <==> exists x :: x in s && IsContent(x)
    ensures (forall i :: 0 <= i < |s| ==> IsSlugChar(s[i])) ==> r == s
  {
    if |s| == 0 then ""
    else
      assert forall x :: x in s <==> x == s[0] || x in s[1..];
      LowerChar(s[0]) + Lower(s[1..])
  }

  /**
   * `s.replace(/[...]+/g, sep)` for the class `p`: each maximal run of
   * characters satisfying `p` becomes one `sep`; `inRun` says the character
   * just before `s` belonged to such a run.
   */
  function SquashRuns(s: string, p: char -> bool, sep: char, inRun: bool): (r: string)
    ensures forall x :: x in r ==> x == sep || (x in s && !p(x))
    ensures forall x :: x in s && !p(x) ==> x in r
    ensures (forall i :: 0 <= i < |s| ==> !p(s[i])) ==> r == s
  {
    if |s| == 0 then ""
    else
      assert forall x :: x in s <==> x == s[0] || x in s[1..];
      if p(s[0]) then (if inRun then "" else [sep]) + SquashRuns(s[1..], p, sep, true)
      else [s[0]] + SquashRuns(s[1..], p, sep, false)
  }

  /** Squashing hyphen runs leaves no two hyphens in a row (and none first after a run). */
  lemma {:induction false} SquashLeavesNoDouble(s: string, inRun: bool)
    ensures var r := SquashRuns(s, IsHyphen, '-', inRun);
      NoDoubleHyphen(r) && (inRun && |r| > 0 ==> r[0] != '-')
    decreases |s|
  {
    if |s| > 0 {
      var rest := SquashRuns(s[1..], IsHyphen, '-', s[0] == '-');
      SquashLeavesNoDouble(s[1..], s[0] == '-');
      var r := SquashRuns(s, IsHyphen, '-', inRun);
      if s[0] == '-' && inRun {
        assert r == rest;
      } else {
        assert r == [if s[0] == '-' then '-' else s[0]] + rest;
        assert forall i :: 1 <= i < |r| ==> r[i] == rest[i - 1];
      }
    }
  }

  /** Hyphen squashing is the identity on a string without double hyphens. */
  lemma {:induction false} SquashHyphensIdentity(t: string, inRun: bool)
    requires NoDoubleHyphen(t) && (inRun && |t| > 0 ==> t[0] != '-')
    ensures SquashRuns(t, IsHyphen, '-', inRun) == t
    decreases |t|
  {
    if |t| > 0 {
      assert NoDoubleHyphen(t[1..]) by {
        forall i | 0 <= i < |t[1..]| - 1
          ensures !(t[1..][i] == '-' && t[1..][i + 1] == '-')
        {
          assert t[1..][i] == t[i + 1] && t[1..][i + 1] == t[i + 2];
        }
      }
      SquashHyphensIdentity(t[1..], t[0] == '-');
      assert t == [t[0]] + t[1..];
    }
  }

  // ------------------------------------------------------------ the five replace steps

  /** `.replace(/[\s_]+/g, '-')`. */
  function SpacesToHyphens(s: string): (r: string)
    ensures forall x :: x in r ==> x == '-' || (x in s && !IsSpaceOrUnderscore(x))
    ensures forall x :: x in s && !IsSpaceOrUnderscore(x) ==> x in r
    ensures (forall i :: 0 <= i < |s| ==> !IsSpaceOrUnderscore(s[i])) ==> r == s
  {
    SquashRuns(s, IsSpaceOrUnderscore, '-', false)
  }

  /** `.replace(/[^\w֐-׿-]+/g, '')`. */
  function DropDisallowed(s: string): (r: string)
    ensures forall x :: x in r <==> x in s && Kept(x)
    ensures (forall i :: 0 <= i < |s| ==> Kept(s[i])) ==> r == s
  {
    if |s| == 0 then ""
    else
      assert forall x :: x in s <==> x == s[0] || x in s[1..];
      (if Kept(s[0]) then [s[0]] else "") + DropDisallowed(s[1..])
  }

  /** `.replace(/--+/g, '-')`: a run of two or more hyphens becomes one, which is every run becoming one. */
  function CollapseHyphens(s: string): (r: string)
    ensures forall x :: x in r ==> x == '-' || x in s
    ensures forall x :: x in s && x != '-' ==> x in r
    ensures NoDoubleHyphen(r)
    ensures NoDoubleHyphen(s) ==> r == s
  {
    SquashLeavesNoDouble(s, false);
    if NoDoubleHyphen(s) then
      SquashHyphensIdentity(s, false);
      SquashRuns(s, IsHyphen, '-', false)
    else
      SquashRuns(s, IsHyphen, '-', false)
  }

  /** `.replace(/^-+|-+$/g, '')`. */
  function StripHyphens(s: string): (r: string)
    ensures |r| > 0 ==> r[0] != '-' && r[|r| - 1] != '-'
    ensures forall x :: x in r ==> x in s
    ensures forall x :: x in s && x != '-' ==> x in r
    ensures NoDoubleHyphen(s) ==> NoDoubleHyphen(r)
    ensures (|s| > 0 ==> s[0] != '-' && s[|s| - 1] != '-') ==> r == s
  {
    StripSlice(s);
    Strip(s, IsHyphen)
  }

  lemma StripSlice(s: string)
    ensures NoDoubleHyphen(s) ==> NoDoubleHyphen(Strip(s, IsHyphen))
    ensures (|s| > 0 ==> s[0] != '-' && s[|s| - 1] != '-') ==> Strip(s, IsHyphen) == s
  {
    var a := SkipWhile(s, IsHyphen, 0);
    var b := BackWhile(s, IsHyphen, a, |s|);
    var r := s[a..b];
    assert Strip(s, IsHyphen) == r;
    if NoDoubleHyphen(s) {
      forall i | 0 <= i < |r| - 1
        ensures !(r[i] == '-' && r[i + 1] == '-')
      {
        assert r[i] == s[a + i] && r[i + 1] == s[a + i + 1];
      }
    }
    if |s| > 0 && s[0] != '-' && s[|s| - 1] != '-' {
      assert a == 0 && b == |s|;
    }
  }

  function Slugify(text: string): (slug: string)
    ensures forall x :: x in slug ==> IsSlugChar(x)
    ensures NoDoubleHyphen(slug)
    ensures |slug| > 0 ==> slug[0] != '-' && slug[|slug| - 1] != '-'
  {
    StripHyphens(CollapseHyphens(DropDisallowed(SpacesToHyphens(Trim(Lower(text))))))
  }

  // ------------------------------------------------------------ properties

  /** A slug holds no white space and no underscore. */
  lemma SlugHasNoSpace(text: string)
    ensures forall i :: 0 <= i < |Slugify(text)| ==> !IsWhitespace(Slugify(text)[i]) && Slugify(text)[i] != '_'
  {
    SlugCharsAreNotSpace(Slugify(text));
  }

  lemma SlugCharsAreNotSpace(s: string)
    requires forall x :: x in s ==> IsSlugChar(x)
    ensures forall i :: 0 <= i < |s| ==> !IsWhitespace(s[i]) && s[i] != '_'
  {
    forall i | 0 <= i < |s| ensures !IsWhitespace(s[i]) && s[i] != '_' {
      assert s[i] in s;
      SlugCharFacts(s[i]);
    }
  }

  /** A string already in slug shape. */
  predicate IsSlug(t: string) {
    && (forall x :: x in t ==> IsSlugChar(x))
    && NoDoubleHyphen(t)
    && (|t| > 0 ==> t[0] != '-' && t[|t| - 1] != '-')
  }

  /** Slug characters are untouched by the first four steps. */
  lemma SlugCharFacts(c: char)
    requires IsSlugChar(c)
    ensures !IsWhitespace(c) && !IsSpaceOrUnderscore(c) && Kept(c)
  {
  }

  /** The first four steps leave a string of slug characters unchanged. */
  lemma SlugCharsUntouched(t: string)
    requires forall i :: 0 <= i < |t| ==> IsSlugChar(t[i])
    ensures Lower(t) == t && Trim(t) == t && SpacesToHyphens(t) == t && DropDisallowed(t) == t
  {
    forall i | 0 <= i < |t|
      ensures !IsWhitespace(t[i]) && !IsSpaceOrUnderscore(t[i]) && Kept(t[i])
    {
      SlugCharFacts(t[i]);
    }
  }

  /** Every step of slugify leaves a slug unchanged. */
  lemma SlugFixedPoint(t: string)
    requires IsSlug(t)
    ensures Slugify(t) == t
  {
    assert forall i :: 0 <= i < |t| ==> IsSlugChar(t[i]) by {
      forall i | 0 <= i < |t| ensures IsSlugChar(t[i]) {
        assert t[i] in t;
      }
    }
    SlugCharsUntouched(t);
    assert CollapseHyphens(t) == t;
    assert StripHyphens(t) == t;
  }

  /** slugify is idempotent. */
  lemma SlugifyIdempotent(text: string)
    ensures Slugify(Slugify(text)) == Slugify(text)
  {
    SlugFixedPoint(Slugify(text));
  }

  // Each step after lower-casing keeps a non-separator slug character if and only if it had one.

  lemma SolidSurvivesTrim(s: string)
    ensures HasSolid(Trim(s)) <==> HasSolid(s)
  {
    if HasSolid(s) {
      var x :| x in s && Solid(x);
      assert x in Trim(s);
    }
  }

  lemma SolidSurvivesSpaces(s: string)
    ensures HasSolid(SpacesToHyphens(s)) <==> HasSolid(s)
  {
    if HasSolid(s) {
      var x :| x in s && Solid(x);
      assert x in SpacesToHyphens(s);
    }
  }

  lemma SolidSurvivesDrop(s: string)
    ensures HasSolid(DropDisallowed(s)) <==> HasSolid(s)
  {
    if HasSolid(s) {
      var x :| x in s && Solid(x);
      assert x in DropDisallowed(s);
    }
  }

  lemma SolidSurvivesCollapse(s: string)
    ensures HasSolid(CollapseHyphens(s)) <==> HasSolid(s)
  {
    if HasSolid(s) {
      var x :| x in s && Solid(x);
      assert x in CollapseHyphens(s);
    }
  }

  lemma SolidSurvivesStrip(s: string)
    ensures HasSolid(StripHyphens(s)) <==> HasSolid(s)
  {
    if HasSolid(s) {
      var x :| x in s && Solid(x);
      assert x in StripHyphens(s);
    }
  }

  /**
   * The slug is empty exactly when the text has no ASCII letter or digit, no
   * Hebrew character, and neither capital that lower-cases to ASCII: accented
   * and other non-ASCII letters alone give an empty slug.
   */
  lemma SlugEmptyIff(text: string)
    ensures Slugify(text) == "" <==> forall i :: 0 <= i < |text| ==> !IsContent(text[i])
  {
    var lowered := Lower(text);
    var trimmed := Trim(lowered);
    var dashed := SpacesToHyphens(trimmed);
    var kept := DropDisallowed(dashed);
    var squashed := CollapseHyphens(kept);
    var slug := StripHyphens(squashed);
    assert slug == Slugify(text);
    SolidSurvivesTrim(lowered);
    SolidSurvivesSpaces(trimmed);
    SolidSurvivesDrop(dashed);
    SolidSurvivesCollapse(kept);
    SolidSurvivesStrip(squashed);
    assert HasSolid(slug) <==> exists x :: x in text && IsContent(x);
    if |slug| > 0 {
      assert slug[0] in slug && Solid(slug[0]);
    }
    if exists i :: 0 <= i < |text| && IsContent(text[i]) {
      var i :| 0 <= i < |text| && IsContent(text[i]);
      assert text[i] in text;
    }
  }
}
