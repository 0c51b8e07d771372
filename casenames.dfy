/** The three case conversions of the repository: `hyphenate` (a camel-case
    style key to a CSS property name, in all three files), `hyphenToCamelCase`
    and `convertCamalCaseToHyphen` (runner.ts). All three work on ASCII
    letters only, as their regular expressions do. */
module CaseNames {
  import opened Strings

  predicate IsUpper(c: char) { 'A' <= c <= 'Z' }
  predicate IsLower(c: char) { 'a' <= c <= 'z' }

  function ToLower(c: char): (r: char)
    ensures IsUpper(c) ==> IsLower(r)
    ensures !IsUpper(c) ==> r == c
  {
    if IsUpper(c) then (c as int + 32) as char else c
  }

  function ToUpper(c: char): (r: char)
    ensures IsLower(c) ==> IsUpper(r)
    ensures !IsLower(c) ==> r == c
  {
    if IsLower(c) then (c as int - 32) as char else c
  }

  predicate NoUpper(s: string) {
    forall i :: 0 <= i < |s| ==> !IsUpper(s[i])
  }

  /** `prop.replace(/[A-Z]/g, m => '-' + m.toLowerCase())`. */
  function Dashed(s: string): string
    decreases |s|
  {
    if s == [] then []
    else (if IsUpper(s[0]) then ['-', ToLower(s[0])] else [s[0]]) + Dashed(s[1..])
  }

  /** `hyphenate(prop)`: a custom property (`--name`) is kept as it is. */
  function Hyphenate(prop: string): string {
    if StartsWith(prop, "--") then prop else Dashed(prop)
  }

  /** `escapedText.replace(/-([a-z])/g, g => g[1].toUpperCase())`: matches are
      found left to right and do not overlap. */
  function HyphenToCamelCase(s: string): string
    decreases |s|
  {
    if |s| >= 2 && s[0] == '-' && IsLower(s[1]) then [ToUpper(s[1])] + HyphenToCamelCase(s[2..])
    else if s == [] then []
    else [s[0]] + HyphenToCamelCase(s[1..])
  }

  /** `name.replace(/([a-z])([A-Z])/g, '$1-$2')`. */
  function SplitHumps(s: string): string
    decreases |s|
  {
    if |s| >= 2 && IsLower(s[0]) && IsUpper(s[1]) then [s[0], '-', s[1]] + SplitHumps(s[2..])
    else if s == [] then []
    else [s[0]] + SplitHumps(s[1..])
  }

  function LowerAll(s: string): (r: string)
    ensures |r| == |s| && NoUpper(r)
    ensures forall i :: 0 <= i < |s| ==> r[i] == ToLower(s[i])
  {
    seq(|s|, i requires 0 <= i < |s| => ToLower(s[i]))
  }

  /** `convertCamalCaseToHyphen(name)`, for ASCII text (`toLowerCase` is
      modelled on ASCII letters). */
  function ConvertCamelCaseToHyphen(name: string): string {
    LowerAll(SplitHumps(name))
  }

  // ---------------------------------------------------------------------
  // Properties

  /** Every capital letter becomes a dash and its lower-case letter; nothing
      else changes. */
  lemma {:induction false} DashedShape(s: string)
    ensures NoUpper(Dashed(s))
    ensures |Dashed(s)| >= |s|
    ensures NoUpper(s) ==> Dashed(s) == s
    decreases |s|
  {
    if s != [] {
      DashedShape(s[1..]);
      var h := if IsUpper(s[0]) then ['-', ToLower(s[0])] else [s[0]];
      assert NoUpper(h);
      assert Dashed(s) == h + Dashed(s[1..]);
      if NoUpper(s) {
        assert NoUpper(s[1..]) by {
          forall i | 0 <= i < |s[1..]| ensures !IsUpper(s[1..][i]) { assert s[1..][i] == s[i + 1]; }
        }
        assert [s[0]] + s[1..] == s;
      }
    }
  }

  /** `hyphenate` leaves no capital letter, except in a custom property. */
  lemma HyphenateNoUpper(prop: string)
    requires !StartsWith(prop, "--")
    ensures NoUpper(Hyphenate(prop))
  {
    DashedShape(prop);
  }

  /** `hyphenate` is idempotent. */
  lemma HyphenateIdempotent(prop: string)
    ensures Hyphenate(Hyphenate(prop)) == Hyphenate(prop)
  {
    if !StartsWith(prop, "--") {
      DashedShape(prop);
      DashedShape(Dashed(prop));
    }
  }

  /** A camel-case name without dashes survives the round trip through
      `hyphenate` and `hyphenToCamelCase`. */
  lemma {:induction false} CamelRoundTrip(s: string)
    requires forall i :: 0 <= i < |s| ==> s[i] != '-'
    ensures HyphenToCamelCase(Dashed(s)) == s
    decreases |s|
  {
    if s != [] {
      var rest := s[1..];
      assert forall i :: 0 <= i < |rest| ==> rest[i] != '-' by {
        forall i | 0 <= i < |rest| ensures rest[i] != '-' { assert rest[i] == s[i + 1]; }
      }
      CamelRoundTrip(rest);
      if IsUpper(s[0]) {
        var d := ['-', ToLower(s[0])] + Dashed(rest);
        assert d[2..] == Dashed(rest);
        assert HyphenToCamelCase(d) == [s[0]] + HyphenToCamelCase(Dashed(rest));
      } else {
        var d := [s[0]] + Dashed(rest);
        assert d[1..] == Dashed(rest);
        assert HyphenToCamelCase(d) == [s[0]] + HyphenToCamelCase(Dashed(rest));
      }
      assert [s[0]] + rest == s;
    }
  }

  /** The same round trip through `hyphenate` itself: a dash-free name never
      starts with `--`. */
  lemma HyphenateRoundTrip(s: string)
    requires forall i :: 0 <= i < |s| ==> s[i] != '-'
    ensures HyphenToCamelCase(Hyphenate(s)) == s
  {
    assert s != [] ==> s[0] != '-';
    CamelRoundTrip(s);
  }

  /** A CSS-style name (no capitals, each dash followed by a lower-case letter)
      survives the opposite round trip. */
  predicate KebabName(h: string) {
    NoUpper(h) && forall i :: 0 <= i < |h| && h[i] == '-' ==> i + 1 < |h| && IsLower(h[i + 1])
  }

  lemma {:induction false} KebabRoundTrip(h: string)
    requires KebabName(h)
    ensures Dashed(HyphenToCamelCase(h)) == h
    decreases |h|
  {
    if |h| >= 2 && h[0] == '-' && IsLower(h[1]) {
      var rest := h[2..];
      assert KebabName(rest) by {
        forall i | 0 <= i < |rest| ensures !IsUpper(rest[i]) { assert rest[i] == h[i + 2]; }
        forall i | 0 <= i < |rest| && rest[i] == '-' ensures i + 1 < |rest| && IsLower(rest[i + 1]) {
          assert rest[i] == h[i + 2];
        }
      }
      KebabRoundTrip(rest);
      var c := [ToUpper(h[1])] + HyphenToCamelCase(rest);
      assert c[1..] == HyphenToCamelCase(rest);
      assert Dashed(c) == ['-', h[1]] + Dashed(HyphenToCamelCase(rest));
      assert ['-', h[1]] + rest == h;
    } else if h != [] {
      var rest := h[1..];
      assert KebabName(rest) by {
        forall i | 0 <= i < |rest| ensures !IsUpper(rest[i]) { assert rest[i] == h[i + 1]; }
        forall i | 0 <= i < |rest| && rest[i] == '-' ensures i + 1 < |rest| && IsLower(rest[i + 1]) {
          assert rest[i] == h[i + 1];
        }
      }
      KebabRoundTrip(rest);
      var c := [h[0]] + HyphenToCamelCase(rest);
      assert c[1..] == HyphenToCamelCase(rest);
      assert !IsUpper(h[0]);
      assert Dashed(c) == [h[0]] + Dashed(HyphenToCamelCase(rest));
      assert [h[0]] + rest == h;
    }
  }

  /** Names where every capital follows a lower-case letter: the shape both
      kebab-case conversions agree on. */
  predicate SimpleCamel(s: string) {
    forall i :: 0 <= i < |s| && IsUpper(s[i]) ==> i > 0 && IsLower(s[i - 1])
  }

  /** `convertCamalCaseToHyphen` and `hyphenate` agree on simple camel-case
      names (and on nothing more in general: `aBC` gives `a-bc` and `a-b-c`). */
  lemma {:induction false} ConvertAgreesWithDashed(s: string)
    requires SimpleCamel(s) && (s == [] || !IsUpper(s[0]))
    ensures ConvertCamelCaseToHyphen(s) == Dashed(s)
    decreases |s|
  {
    if |s| >= 2 && IsLower(s[0]) && IsUpper(s[1]) {
      var rest := s[2..];
      assert rest != [] ==> rest[0] == s[2];
      forall i | 0 < i < |rest| && IsUpper(rest[i]) ensures IsLower(rest[i - 1]) {
        assert rest[i] == s[i + 2] && rest[i - 1] == s[i + 1];
      }
      ConvertAgreesWithDashed(rest);
      var sp := [s[0], '-', s[1]] + SplitHumps(rest);
      assert LowerAll(sp) == [s[0], '-', ToLower(s[1])] + LowerAll(SplitHumps(rest));
      var dd := Dashed(s);
      assert s[1..][1..] == rest;
      assert s[1..][0] == s[1];
      assert Dashed(s[1..]) == ['-', ToLower(s[1])] + Dashed(rest);
      assert dd == [s[0]] + (['-', ToLower(s[1])] + Dashed(rest));
    } else if s != [] {
      var rest := s[1..];
      assert rest != [] ==> rest[0] == s[1];
      forall i | 0 < i < |rest| && IsUpper(rest[i]) ensures IsLower(rest[i - 1]) {
        assert rest[i] == s[i + 1] && rest[i - 1] == s[i];
      }
      ConvertAgreesWithDashed(rest);
      var sp := [s[0]] + SplitHumps(rest);
      assert LowerAll(sp) == [ToLower(s[0])] + LowerAll(SplitHumps(rest));
      assert Dashed(s) == [s[0]] + Dashed(rest);
    }
  }
}
