/** The nested-parenthesis tokenizer of the style DSL (`replaceNestedParentheses`
    inside `SSToTailwind`). A left-to-right scan with a depth counter replaces
    every top-level `( ... )` group by `("COUNTi")`, i counting the groups, and
    collects the group's text as constant or variable tokens. */
module Tokenizer {
  import opened Strings
  import opened JsText

  datatype Kind = Constant | Variable

  /** One entry of `params`: `{type: 'constant' | 'variable', value}`. */
  datatype Token = Token(kind: Kind, value: string)

  /** `s.startsWith("'") && s.endsWith("'")`. */
  predicate IsQuoted(s: string) {
    StartsWith(s, "'") && EndsWith(s, "'")
  }

  /** `s.slice(1, -1)`. */
  function Unquote(s: string): string {
    if |s| >= 2 then s[1..|s| - 1] else ""
  }

  /** The tokens pushed when a top-level group closes. A numeric payload pushes
      a constant AND then, as it is not quoted, a variable token. */
  function Classify(payload: string): seq<Token> {
    (if IsNumeric(payload) then [Token(Constant, payload)] else [])
    + (if IsQuoted(payload) then [Token(Constant, Unquote(payload))] else [Token(Variable, payload)])
  }

  /** A single-quoted payload gives one constant token, quotes stripped. */
  lemma ClassifyQuoted(payload: string)
    requires IsQuoted(payload)
    ensures Classify(payload) == [Token(Constant, Unquote(payload))]
  {
    QuotedNotNumeric(payload);
  }

  /** A numeric payload (the empty one included) gives a constant token and
      then a variable token with the same text. */
  lemma ClassifyNumeric(payload: string)
    requires IsNumeric(payload)
    ensures Classify(payload) == [Token(Constant, payload), Token(Variable, payload)]
  {
    if IsQuoted(payload) {
      QuotedNotNumeric(payload);
    }
  }

  /** Any other payload gives one variable token. */
  lemma ClassifyOther(payload: string)
    requires !IsNumeric(payload) && !IsQuoted(payload)
    ensures Classify(payload) == [Token(Variable, payload)]
  {
  }

  /** The variables of the scan: `level`, `count`, `output`, `innerOutput`, `params`. */
  datatype ScanState = ScanState(level: int, count: nat, output: string, inner: string, params: seq<Token>)

  const Start := ScanState(0, 0, "", "", [])

  /** The placeholder emitted for the group numbered `n`, without its closing parenthesis. */
  function Placeholder(n: nat): string {
    "(\"COUNT" + NatToString(n) + "\""
  }

  /** One iteration of the scan, on the character `c`. */
  function ScanChar(st: ScanState, c: char): ScanState {
    if c == '(' then
      if st.level == 0 then st.(output := st.output + Placeholder(st.count), count := st.count + 1, level := 1)
      else st.(inner := st.inner + [c], level := st.level + 1)
    else if c == ')' then
      if st.level - 1 == 0 then
        st.(level := 0, params := st.params + Classify(st.inner), output := st.output + [c], inner := "")
      else st.(level := st.level - 1, inner := st.inner + [c])
    else if st.level == 0 then st.(output := st.output + [c])
    else st.(inner := st.inner + [c])
  }

  /** The scan from state `st` over `s`. */
  function Scan(st: ScanState, s: string): ScanState
    decreases |s|
  {
    if s == [] then st else Scan(ScanChar(st, s[0]), s[1..])
  }

  /** What `replaceNestedParentheses(s)` returns: `[output, params]`. */
  function Tokenize(s: string): (string, seq<Token>) {
    var f := Scan(Start, s);
    (f.output, f.params)
  }

  method ReplaceNestedParentheses(str: string) returns (output: string, params: seq<Token>)
    ensures (output, params) == Tokenize(str)
  {
    var level: int := 0;
    var count: nat := 0;
    output := "";
    var innerOutput := "";
    params := [];
    var i := 0;
    while i < |str|
      invariant 0 <= i <= |str|
      invariant Scan(ScanState(level, count, output, innerOutput, params), str[i..]) == Scan(Start, str)
    {
      assert str[i..][1..] == str[i + 1..];
      if str[i] == '(' {
        if level == 0 {
          output := output + Placeholder(count);
          count := count + 1;
        } else {
          innerOutput := innerOutput + [str[i]];
        }
        level := level + 1;
      } else if str[i] == ')' {
        level := level - 1;
        if level == 0 {
          params := params + Classify(innerOutput);
          output := output + [str[i]];
          innerOutput := "";
        } else {
          innerOutput := innerOutput + [str[i]];
        }
      } else if level == 0 {
        output := output + [str[i]];
      } else {
        innerOutput := innerOutput + [str[i]];
      }
      i := i + 1;
    }
  }

  // ---------------------------------------------------------------------
  // Properties of the scan

  lemma {:induction false} ScanAppend(st: ScanState, a: string, b: string)
    ensures Scan(st, a + b) == Scan(Scan(st, a), b)
    decreases |a|
  {
    if a == [] {
      assert a + b == b;
    } else {
      assert (a + b)[0] == a[0];
      assert (a + b)[1..] == a[1..] + b;
      ScanAppend(ScanChar(st, a[0]), a[1..], b);
    }
  }

  predicate NoParens(s: string) {
    forall i :: 0 <= i < |s| ==> s[i] != '(' && s[i] != ')'
  }

  /** At depth 0, characters other than parentheses are copied to the skeleton
      verbatim and in order, and nothing else changes. */
  lemma {:induction false} ScanText(st: ScanState, s: string)
    requires st.level == 0 && NoParens(s)
    ensures Scan(st, s) == st.(output := st.output + s)
    decreases |s|
  {
    if s == [] {
      assert st.output + s == st.output;
    } else {
      assert NoParens(s[1..]) by {
        forall i | 0 <= i < |s[1..]| ensures s[1..][i] != '(' && s[1..][i] != ')' {
          assert s[1..][i] == s[i + 1];
        }
      }
      ScanText(ScanChar(st, s[0]), s[1..]);
      assert st.output + [s[0]] + s[1..] == st.output + s;
    }
  }

  /** A string without parentheses is returned unchanged, with no tokens. */
  lemma ParenFreeUnchanged(s: string)
    requires NoParens(s)
    ensures Tokenize(s) == (s, [])
  {
    ScanText(Start, s);
    assert "" + s == s;
  }

  /** Nesting depth: opening minus closing parentheses. */
  function Depth(s: string): int
    decreases |s|
  {
    if s == [] then 0
    else (if s[0] == '(' then 1 else if s[0] == ')' then -1 else 0) + Depth(s[1..])
  }

  /** A balanced payload: it ends at depth 0 and never goes below it. */
  predicate Balanced(p: string) {
    Depth(p) == 0 && forall k :: 0 <= k <= |p| ==> Depth(p[..k]) >= 0
  }

  /** Inside a group (depth at least 1 throughout), every character, nested
      parentheses included, goes to the payload verbatim. */
  lemma {:induction false} ScanInside(st: ScanState, s: string)
    requires st.level >= 1
    requires forall k :: 0 <= k <= |s| ==> st.level + Depth(s[..k]) >= 1
    ensures Scan(st, s) == st.(level := st.level + Depth(s), inner := st.inner + s)
    decreases |s|
  {
    if s == [] {
      assert st.inner + s == st.inner;
    } else {
      var c := s[0];
      var d := if c == '(' then 1 else if c == ')' then -1 else 0;
      assert s[..1][1..] == [];
      assert Depth(s[..1]) == d;
      var st' := ScanChar(st, c);
      assert st' == st.(level := st.level + d, inner := st.inner + [c]);
      forall k | 0 <= k <= |s[1..]|
        ensures st'.level + Depth(s[1..][..k]) >= 1
      {
        assert s[..k + 1][1..] == s[1..][..k];
        assert Depth(s[..k + 1]) == d + Depth(s[1..][..k]);
      }
      ScanInside(st', s[1..]);
      assert st.inner + [c] + s[1..] == st.inner + s;
    }
  }

  /** A well-formed top-level piece of an expression: text without parentheses,
      or a parenthesised group with a balanced payload. */
  datatype Piece = Text(text: string) | Group(payload: string)

  predicate WellFormed(pieces: seq<Piece>) {
    forall i :: 0 <= i < |pieces| ==>
      match pieces[i]
      case Text(t) => NoParens(t)
      case Group(p) => Balanced(p)
  }

  /** The source text the pieces stand for. */
  function Render(pieces: seq<Piece>): string
    decreases |pieces|
  {
    if pieces == [] then ""
    else
      (match pieces[0]
       case Text(t) => t
       case Group(p) => "(" + p + ")")
      + Render(pieces[1..])
  }

  function GroupCount(pieces: seq<Piece>): nat
    decreases |pieces|
  {
    if pieces == [] then 0 else (if pieces[0].Group? then 1 else 0) + GroupCount(pieces[1..])
  }

  /** The expected skeleton: text kept, the n-th group (from `n`) replaced by `("COUNTn")`. */
  function Skeleton(pieces: seq<Piece>, n: nat): string
    decreases |pieces|
  {
    if pieces == [] then ""
    else
      match pieces[0]
      case Text(t) => t + Skeleton(pieces[1..], n)
      case Group(_) => Placeholder(n) + ")" + Skeleton(pieces[1..], n + 1)
  }

  /** The expected tokens: each group's payload classified, in order. */
  function Payloads(pieces: seq<Piece>): seq<Token>
    decreases |pieces|
  {
    if pieces == [] then []
    else
      match pieces[0]
      case Text(_) => Payloads(pieces[1..])
      case Group(p) => Classify(p) + Payloads(pieces[1..])
  }

  /** One group at depth 0: the placeholder replaces it, its payload is classified,
      and the payload buffer is empty again afterwards. */
  lemma ScanGroup(st: ScanState, p: string)
    requires st.level == 0 && st.inner == "" && Balanced(p)
    ensures Scan(st, "(" + p + ")")
         == st.(output := st.output + Placeholder(st.count) + ")", count := st.count + 1,
                params := st.params + Classify(p))
  {
    var st1 := ScanChar(st, '(');
    assert Scan(st, "(") == st1;
    ScanInside(st1, p);
    var st2 := Scan(st1, p);
    assert st2.level == 1 && st2.inner == p;
    assert Scan(st2, ")") == ScanChar(st2, ')');
    ScanAppend(st, "(", p);
    ScanAppend(st, "(" + p, ")");
  }

  lemma WellFormedTail(pieces: seq<Piece>)
    requires pieces != [] && WellFormed(pieces)
    ensures WellFormed(pieces[1..])
    ensures pieces[0].Text? ==> NoParens(pieces[0].text)
    ensures pieces[0].Group? ==> Balanced(pieces[0].payload)
  {
    forall i | 0 <= i < |pieces[1..]| ensures pieces[1..][i] == pieces[i + 1] { }
  }

  /** The skeleton/payload characterisation of the tokenizer on well-formed input:
      each top-level group i becomes `("COUNTi")`, text between groups is copied,
      and the tokens are the classified payloads in order. */
  lemma {:induction false} ScanPieces(st: ScanState, pieces: seq<Piece>)
    requires st.level == 0 && st.inner == "" && WellFormed(pieces)
    ensures Scan(st, Render(pieces))
         == st.(output := st.output + Skeleton(pieces, st.count),
                count := st.count + GroupCount(pieces),
                params := st.params + Payloads(pieces))
    decreases |pieces|
  {
    if pieces == [] {
      assert st.output + "" == st.output;
      assert st.params + [] == st.params;
    } else {
      WellFormedTail(pieces);
      var rest := pieces[1..];
      var first := match pieces[0] case Text(t) => t case Group(p) => "(" + p + ")";
      assert Render(pieces) == first + Render(rest);
      ScanAppend(st, first, Render(rest));
      var mid := Scan(st, first);
      if pieces[0].Text? {
        ScanText(st, first);
        assert mid == st.(output := st.output + first);
      } else {
        ScanGroup(st, pieces[0].payload);
      }
      ScanPieces(mid, rest);
      PiecesStep(st, pieces);
    }
  }

  /** The bookkeeping step of `ScanPieces`: the expected results of all pieces
      are those of the first piece followed by those of the rest. */
  lemma PiecesStep(st: ScanState, pieces: seq<Piece>)
    requires pieces != []
    ensures pieces[0].Text? ==>
      st.output + pieces[0].text + Skeleton(pieces[1..], st.count) == st.output + Skeleton(pieces, st.count)
      && Payloads(pieces[1..]) == Payloads(pieces) && GroupCount(pieces[1..]) == GroupCount(pieces)
    ensures pieces[0].Group? ==>
      st.output + Placeholder(st.count) + ")" + Skeleton(pieces[1..], st.count + 1) == st.output + Skeleton(pieces, st.count)
      && st.params + Classify(pieces[0].payload) + Payloads(pieces[1..]) == st.params + Payloads(pieces)
      && 1 + GroupCount(pieces[1..]) == GroupCount(pieces)
  {
    var rest := pieces[1..];
    match pieces[0]
    case Text(t) =>
      assert Skeleton(pieces, st.count) == t + Skeleton(rest, st.count);
      assert st.output + t + Skeleton(rest, st.count) == st.output + (t + Skeleton(rest, st.count));
    case Group(p) =>
      var ph := Placeholder(st.count) + ")";
      assert Skeleton(pieces, st.count) == ph + Skeleton(rest, st.count + 1);
      assert st.output + Placeholder(st.count) + ")" + Skeleton(rest, st.count + 1)
          == st.output + (ph + Skeleton(rest, st.count + 1));
      assert Payloads(pieces) == Classify(p) + Payloads(rest);
      assert st.params + Classify(p) + Payloads(rest) == st.params + (Classify(p) + Payloads(rest));
  }

  /** The tokenizer on well-formed input, from the start. */
  lemma TokenizePieces(pieces: seq<Piece>)
    requires WellFormed(pieces)
    ensures Tokenize(Render(pieces)) == (Skeleton(pieces, 0), Payloads(pieces))
  {
    ScanPieces(Start, pieces);
    assert "" + Skeleton(pieces, 0) == Skeleton(pieces, 0);
    assert [] + Payloads(pieces) == Payloads(pieces);
  }

  /** A payload without parentheses is balanced. */
  lemma ParenFreeBalanced(p: string)
    requires NoParens(p)
    ensures Balanced(p)
  {
    forall k | 0 <= k <= |p| ensures Depth(p[..k]) == 0 {
      ParenFreeDepth(p[..k]);
    }
    assert p[..|p|] == p;
  }

  lemma {:induction false} ParenFreeDepth(s: string)
    requires NoParens(s)
    ensures Depth(s) == 0
    decreases |s|
  {
    if s != [] {
      assert NoParens(s[1..]) by {
        forall i | 0 <= i < |s[1..]| ensures s[1..][i] != '(' && s[1..][i] != ')' {
          assert s[1..][i] == s[i + 1];
        }
      }
      ParenFreeDepth(s[1..]);
    }
  }

  /** Group numbers and token indices drift apart after a numeric payload:
      the second group's placeholder is `COUNT1`, and token 1 is the first
      payload's variable token, not the second payload's. */
  lemma NumericPayloadShifts(p: string, q: string)
    requires IsNumeric(p)
    ensures Skeleton([Group(p), Group(q)], 0) == Placeholder(0) + ")" + (Placeholder(1) + ")")
    ensures |Payloads([Group(p), Group(q)])| >= 3
    ensures Payloads([Group(p), Group(q)])[..2] == [Token(Constant, p), Token(Variable, p)]
  {
    var pieces := [Group(p), Group(q)];
    ClassifyNumeric(p);
    assert pieces[1..] == [Group(q)];
    assert pieces[1..][1..] == [];
    assert Skeleton(pieces[1..], 1) == Placeholder(1) + ")" + "";
    assert Payloads(pieces[1..]) == Classify(q) + [];
    assert |Classify(q)| >= 1;
  }
}
