/** The pieces of ECMAScript string semantics the compiler depends on:
    the white space that `String.prototype.trim` and `Number(string)` skip,
    `trim`, `split` on one character, and the test `!Number.isNaN(Number(s))`,
    which holds exactly when `s` matches the StringNumericLiteral grammar
    (section 7.1.4.1 of ECMA-262). */
module JsText {
  import opened Strings

  /** WhiteSpace and LineTerminator code points of ECMA-262, sections 12.2 and 12.3
      (TAB, VT, FF, ZWNBSP, the Zs category, LF, CR, LS, PS). */
  predicate IsJsSpace(c: char) {
    c == '\t' || c == '\U{000B}' || c == '\U{000C}' || c == ' ' || c == '\U{00A0}'
    || c == '\U{FEFF}' || c == '\U{1680}' || ('\U{2000}' <= c <= '\U{200A}')
    || c == '\U{202F}' || c == '\U{205F}' || c == '\U{3000}'
    || IsLineTerminator(c)
  }

  predicate IsLineTerminator(c: char) {
    c == '\n' || c == '\r' || c == '\U{2028}' || c == '\U{2029}'
  }

  /** The number of leading white-space characters. */
  function LeadingSpace(s: string): (n: nat)
    ensures n <= |s|
    ensures forall i :: 0 <= i < n ==> IsJsSpace(s[i])
    ensures n < |s| ==> !IsJsSpace(s[n])
    decreases |s|
  {
    if s != [] && IsJsSpace(s[0]) then 1 + LeadingSpace(s[1..]) else 0
  }

  /** The number of trailing white-space characters. */
  function TrailingSpace(s: string): (n: nat)
    ensures n <= |s|
    ensures forall i :: |s| - n <= i < |s| ==> IsJsSpace(s[i])
    ensures n < |s| ==> !IsJsSpace(s[|s| - n - 1])
    decreases |s|
  {
    if s != [] && IsJsSpace(s[|s| - 1]) then 1 + TrailingSpace(s[..|s| - 1]) else 0
  }

  /** `s.trim()`. */
  function Trim(s: string): (r: string)
    ensures r == [] || (!IsJsSpace(r[0]) && !IsJsSpace(r[|r| - 1]))
  {
    var a := LeadingSpace(s);
    var t := s[a..];
    t[..|t| - TrailingSpace(t)]
  }

  /** `s.split(d)` for a one-character separator `d`: always at least one piece. */
  function Split(s: string, d: char): (r: seq<string>)
    ensures |r| >= 1
    decreases |s|
  {
    if s == [] then [""]
    else if s[0] == d then [""] + Split(s[1..], d)
    else
      var rest := Split(s[1..], d);
      [[s[0]] + rest[0]] + rest[1..]
  }

  /** The number of leading decimal digits. */
  function LeadingDigits(s: string): (n: nat)
    ensures n <= |s|
    ensures forall i :: 0 <= i < n ==> IsDigit(s[i])
    ensures n < |s| ==> !IsDigit(s[n])
    decreases |s|
  {
    if s != [] && IsDigit(s[0]) then 1 + LeadingDigits(s[1..]) else 0
  }

  /** SignedInteger ::: DecimalDigits | + DecimalDigits | - DecimalDigits */
  predicate IsSignedInteger(s: string) {
    var t := if s != [] && (s[0] == '+' || s[0] == '-') then s[1..] else s;
    t != [] && AllDigits(t)
  }

  /** ExponentPart, or nothing at all. */
  predicate IsOptExponent(s: string) {
    s == [] || ((s[0] == 'e' || s[0] == 'E') && IsSignedInteger(s[1..]))
  }

  /** StrUnsignedDecimalLiteral ::: Infinity | DecimalDigits . DecimalDigits? ExponentPart?
      | . DecimalDigits ExponentPart? | DecimalDigits ExponentPart? */
  predicate IsUnsignedDecimal(s: string) {
    if s == "Infinity" then true
    else
      var n := LeadingDigits(s);
      var rest := s[n..];
      if rest != [] && rest[0] == '.' then
        var frac := rest[1..];
        var m := LeadingDigits(frac);
        (n > 0 || m > 0) && IsOptExponent(frac[m..])
      else
        n > 0 && IsOptExponent(rest)
  }

  /** StrDecimalLiteral: an optional sign and a StrUnsignedDecimalLiteral. */
  predicate IsDecimalLiteral(s: string) {
    if s != [] && (s[0] == '+' || s[0] == '-') then IsUnsignedDecimal(s[1..])
    else IsUnsignedDecimal(s)
  }

  predicate IsHexDigit(c: char) {
    IsDigit(c) || ('a' <= c <= 'f') || ('A' <= c <= 'F')
  }

  /** NonDecimalIntegerLiteral without separators: 0x.., 0o.., 0b.. (no sign). */
  predicate IsNonDecimalInteger(s: string) {
    |s| >= 3 && s[0] == '0' &&
    var body := s[2..];
    if s[1] == 'x' || s[1] == 'X' then forall i :: 0 <= i < |body| ==> IsHexDigit(body[i])
    else if s[1] == 'o' || s[1] == 'O' then forall i :: 0 <= i < |body| ==> '0' <= body[i] <= '7'
    else if s[1] == 'b' || s[1] == 'B' then forall i :: 0 <= i < |body| ==> body[i] == '0' || body[i] == '1'
    else false
  }

  /** `!Number.isNaN(Number(s))`: after trimming, `s` is empty (Number gives 0)
      or a StrNumericLiteral. */
  predicate IsNumeric(s: string) {
    var t := Trim(s);
    t == [] || IsDecimalLiteral(t) || IsNonDecimalInteger(t)
  }

  /** No numeric string starts with a single quote, so a quoted payload is
      never also numeric. */
  lemma QuotedNotNumeric(s: string)
    requires s != [] && s[0] == '\''
    ensures !IsNumeric(s)
  {
    var a := LeadingSpace(s);
    assert a == 0;
    var t := Trim(s);
    assert s[a..] == s;
    assert t != [] && t[0] == '\'';
    assert LeadingDigits(t) == 0;
    assert LeadingDigits(t[1..]) >= 0;
  }

  /** Every non-empty string of decimal digits is numeric. */
  lemma DigitsNumeric(s: string)
    requires s != [] && AllDigits(s)
    ensures IsNumeric(s)
  {
    assert LeadingSpace(s) == 0;
    assert s[0..] == s;
    assert !IsJsSpace(s[|s| - 1]);
    assert TrailingSpace(s) == 0;
    assert Trim(s) == s;
    assert s[..|s|] == s;
    DigitsLength(s);
    assert s[|s|..] == [];
  }

  /** All of a digit string is leading digits. */
  lemma {:induction false} DigitsLength(s: string)
    requires AllDigits(s)
    ensures LeadingDigits(s) == |s|
    decreases |s|
  {
    if s != [] {
      DigitsLength(s[1..]);
    }
  }

  /** Joining the pieces of a split with the separator gives the string back. */
  lemma {:induction false} SplitJoin(s: string, d: char)
    ensures Join(Split(s, d), [d]) == s
    decreases |s|
  {
    if s != [] {
      var rest := Split(s[1..], d);
      SplitJoin(s[1..], d);
      if s[0] == d {
        JoinCons("", rest, [d]);
        assert "" + [d] + s[1..] == s;
      } else if |rest| == 1 {
        assert [[s[0]] + rest[0]] + rest[1..] == [[s[0]] + rest[0]];
        assert [s[0]] + rest[0] == s;
      } else {
        assert [[s[0]] + rest[0]] + rest[1..] == [[s[0]] + rest[0]] + rest[1..];
        JoinCons([s[0]] + rest[0], rest[1..], [d]);
        assert [rest[0]] + rest[1..] == rest;
        JoinCons(rest[0], rest[1..], [d]);
        assert [s[0]] + (rest[0] + [d] + Join(rest[1..], [d])) == s;
      }
    }
  }

  /** A split has one piece more than the string has separators; in
      particular a string holds the separator exactly when it splits into at
      least two pieces. */
  lemma {:induction false} SplitCount(s: string, d: char)
    ensures |Split(s, d)| >= 2 <==> exists i :: 0 <= i < |s| && s[i] == d
    decreases |s|
  {
    if s != [] {
      SplitCount(s[1..], d);
      if exists i :: 0 <= i < |s[1..]| && s[1..][i] == d {
        var i :| 0 <= i < |s[1..]| && s[1..][i] == d;
        assert s[i + 1] == d;
      }
      if exists i :: 0 <= i < |s| && s[i] == d {
        var i :| 0 <= i < |s| && s[i] == d;
        if i > 0 { assert s[1..][i - 1] == d; }
      }
    }
  }

  /** Splitting distributes over a separator. */
  lemma {:induction false} SplitAround(p: string, d: char, q: string)
    ensures Split(p + [d] + q, d) == Split(p, d) + Split(q, d)
    decreases |p|
  {
    if p == [] {
      assert p + [d] + q == [d] + q;
      assert ([d] + q)[1..] == q;
    } else {
      var s := p + [d] + q;
      assert s[0] == p[0];
      assert s[1..] == p[1..] + [d] + q;
      SplitAround(p[1..], d, q);
      if p[0] != d {
        var rest := Split(s[1..], d);
        assert rest == Split(p[1..], d) + Split(q, d);
        assert rest[1..] == Split(p[1..], d)[1..] + Split(q, d);
      }
    }
  }
}
