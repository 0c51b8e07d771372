/** Reading the tokenizer's skeleton as a chain of steps. The compiler hands
    the skeleton to `new Function('SS', `return ${text}.$$$PROCESS`)`; the
    model evaluates the chains that consist of `SS` followed by property reads
    `.name` and placeholder calls `("COUNTi")`, with white space between them,
    and reports any other text as `NotModelled`. */
module ChainParser {
  import opened Strings
  import opened JsText
  import opened Outcomes
  import opened Interpreter

  predicate IsIdentChar(c: char) {
    ('a' <= c <= 'z') || ('A' <= c <= 'Z') || IsDigit(c) || c == '$' || c == '_'
  }

  /** The length of the identifier-character run at the start of `s`. */
  function IdentLen(s: string): (n: nat)
    ensures n <= |s|
    ensures forall i :: 0 <= i < n ==> IsIdentChar(s[i])
    ensures n < |s| ==> !IsIdentChar(s[n])
    decreases |s|
  {
    if s != [] && IsIdentChar(s[0]) then 1 + IdentLen(s[1..]) else 0
  }

  const CallOpen := "(\"COUNT"
  const CallClose := "\")"

  /** `s` without its leading white space. */
  function SkipSpace(s: string): (t: string)
    ensures |t| <= |s|
  {
    s[LeadingSpace(s)..]
  }

  /** The steps after `SS`. */
  function ParseSteps(s: string): Result<seq<Step>>
    decreases |s|, 1
  {
    var t := SkipSpace(s);
    if t == [] then Ok([])
    else if t[0] == '.' then ParseRead(t[1..])
    else if StartsWith(t, CallOpen) then ParseCall(t[|CallOpen|..])
    else Err(NotModelled)
  }

  /** A property read `.name`, after its dot. */
  function ParseRead(s: string): Result<seq<Step>>
    decreases |s|, 0
  {
    var u := SkipSpace(s);
    var n := IdentLen(u);
    if n == 0 || IsDigit(u[0]) then Err(NotModelled)
    else Prepend(Access(u[..n]), ParseSteps(u[n..]))
  }

  /** A placeholder call `("COUNTi")`, after its `("COUNT`. */
  function ParseCall(s: string): Result<seq<Step>>
    decreases |s|, 0
  {
    var d := LeadingDigits(s);
    if d == 0 || !StartsWith(s[d..], CallClose) then Err(NotModelled)
    else Prepend(Call(Str("COUNT" + s[..d])), ParseSteps(s[d + |CallClose|..]))
  }

  /** A parse result with `step` in front. */
  function Prepend(step: Step, r: Result<seq<Step>>): Result<seq<Step>> {
    match r
    case Ok(steps) => Ok([step] + steps)
    case Err(e) => Err(e)
  }

  /** The evaluation of `return ${skeleton}.$$$PROCESS`, without the final read.
      A line break right after `return` ends the statement, so the function
      returns `undefined` and reading `.classes` of it throws. */
  function ParseChain(skeleton: string): Result<seq<Step>> {
    var a := LeadingSpace(skeleton);
    if exists i :: 0 <= i < a && IsLineTerminator(skeleton[i]) then Err(TypeError)
    else
      var t := skeleton[a..];
      if !StartsWith(t, "SS") || (|t| > 2 && IsIdentChar(t[2])) then Err(NotModelled)
      else ParseSteps(t[2..])
  }

  // ---------------------------------------------------------------------
  // Printing a chain, and the round trip

  predicate IsIdentifier(n: string) {
    n != [] && !IsDigit(n[0]) && forall i :: 0 <= i < |n| ==> IsIdentChar(n[i])
  }

  /** The steps a skeleton can hold: reads of identifiers and calls on placeholders. */
  predicate SkeletonStep(s: Step) {
    match s
    case Access(n) => IsIdentifier(n)
    case Call(a) => a.Str? && StartsWith(a.s, "COUNT") && |a.s| > 5 && AllDigits(a.s[5..])
  }

  /** A step written out; a call on anything but a string is written as its
      brackets only (such calls never come out of a skeleton). */
  function StepText(s: Step): string {
    match s
    case Access(n) => "." + n
    case Call(a) => "(\"" + (if a.Str? then a.s else "") + "\")"
  }

  function StepsText(steps: seq<Step>): string
    decreases |steps|
  {
    if steps == [] then "" else StepText(steps[0]) + StepsText(steps[1..])
  }

  /** The chain `SS.a.b("COUNT0")...` written out. */
  function ChainText(steps: seq<Step>): string {
    "SS" + StepsText(steps)
  }

  lemma {:induction false} IdentLenExact(n: string, rest: string)
    requires forall i :: 0 <= i < |n| ==> IsIdentChar(n[i])
    requires rest == [] || !IsIdentChar(rest[0])
    ensures IdentLen(n + rest) == |n|
    decreases |n|
  {
    if n == [] {
      assert n + rest == rest;
    } else {
      var tail := n[1..];
      assert forall i :: 0 <= i < |tail| ==> IsIdentChar(tail[i]) by {
        forall i | 0 <= i < |tail| ensures IsIdentChar(tail[i]) { assert tail[i] == n[i + 1]; }
      }
      assert (n + rest)[0] == n[0];
      assert (n + rest)[1..] == tail + rest;
      IdentLenExact(tail, rest);
    }
  }

  lemma {:induction false} DigitsLenExact(d: string, rest: string)
    requires AllDigits(d)
    requires rest == [] || !IsDigit(rest[0])
    ensures LeadingDigits(d + rest) == |d|
    decreases |d|
  {
    if d == [] {
      assert d + rest == rest;
    } else {
      var tail := d[1..];
      assert AllDigits(tail) by {
        forall i | 0 <= i < |tail| ensures IsDigit(tail[i]) { assert tail[i] == d[i + 1]; }
      }
      assert (d + rest)[0] == d[0];
      assert (d + rest)[1..] == tail + rest;
      DigitsLenExact(tail, rest);
    }
  }

  /** The text of a chain of steps that are not all consumed starts with '.' or '('. */
  lemma StepsTextStart(steps: seq<Step>)
    ensures StepsText(steps) == [] || StepsText(steps)[0] == '.' || StepsText(steps)[0] == '('
  {
  }

  lemma ParseAccessText(n: string, rest: string)
    requires IsIdentifier(n)
    requires rest == [] || rest[0] == '.' || rest[0] == '('
    ensures ParseSteps("." + n + rest) == Prepend(Access(n), ParseSteps(rest))
  {
    var s := "." + n + rest;
    assert LeadingSpace(s) == 0;
    assert SkipSpace(s) == s;
    assert s[1..] == n + rest;
    assert LeadingSpace(n + rest) == 0;
    assert SkipSpace(n + rest) == n + rest;
    IdentLenExact(n, rest);
    assert (n + rest)[..|n|] == n;
    assert (n + rest)[|n|..] == rest;
  }

  lemma ParseStepsCallOpen(x: string)
    ensures ParseSteps(CallOpen + x) == ParseCall(x)
  {
    var s := CallOpen + x;
    assert s[0] == '(';
    assert LeadingSpace(s) == 0;
    assert SkipSpace(s) == s;
    assert s[..|CallOpen|] == CallOpen;
    assert s[|CallOpen|..] == x;
  }

  lemma ParseCallDigits(d: string, rest: string)
    requires d != [] && AllDigits(d)
    ensures ParseCall(d + CallClose + rest) == Prepend(Call(Str("COUNT" + d)), ParseSteps(rest))
  {
    var after := d + CallClose + rest;
    assert after == d + (CallClose + rest);
    DigitsLenExact(d, CallClose + rest);
    assert after[..|d|] == d;
    assert after[|d|..] == CallClose + rest;
    assert StartsWith(after[|d|..], CallClose);
    assert after[|d| + |CallClose|..] == rest;
  }

  lemma ParseCallText(d: string, rest: string)
    requires d != [] && AllDigits(d)
    ensures ParseSteps(CallOpen + d + CallClose + rest) == Prepend(Call(Str("COUNT" + d)), ParseSteps(rest))
  {
    assert CallOpen + d + CallClose + rest == CallOpen + (d + CallClose + rest);
    ParseStepsCallOpen(d + CallClose + rest);
    ParseCallDigits(d, rest);
  }

  lemma ParseStepText(step: Step, rest: string)
    requires SkeletonStep(step)
    requires rest == [] || rest[0] == '.' || rest[0] == '('
    ensures ParseSteps(StepText(step) + rest) == Prepend(step, ParseSteps(rest))
  {
    match step
    case Access(n) =>
      ParseAccessText(n, rest);
    case Call(a) =>
      var d := a.s[5..];
      assert a.s == "COUNT" + d;
      assert StepText(step) + rest == CallOpen + d + CallClose + rest;
      ParseCallText(d, rest);
  }

  /** Parsing undoes printing: every chain of skeleton steps is read back as itself. */
  lemma {:induction false} ParseStepsText(steps: seq<Step>)
    requires forall i :: 0 <= i < |steps| ==> SkeletonStep(steps[i])
    ensures ParseSteps(StepsText(steps)) == Ok(steps)
    decreases |steps|
  {
    if steps == [] {
      assert StepsText(steps) == "";
      assert LeadingSpace("") == 0;
    } else {
      var tail := steps[1..];
      assert forall i :: 0 <= i < |tail| ==> SkeletonStep(tail[i]) by {
        forall i | 0 <= i < |tail| ensures SkeletonStep(tail[i]) { assert tail[i] == steps[i + 1]; }
      }
      var rest := StepsText(tail);
      assert StepsText(steps) == StepText(steps[0]) + rest;
      StepsTextStart(tail);
      ParseStepsText(tail);
      ParseStepText(steps[0], rest);
      assert [steps[0]] + tail == steps;
    }
  }

  /** The chain text of skeleton steps parses back to the same steps. */
  lemma ParseChainText(steps: seq<Step>)
    requires forall i :: 0 <= i < |steps| ==> SkeletonStep(steps[i])
    ensures ParseChain(ChainText(steps)) == Ok(steps)
  {
    var c := ChainText(steps);
    assert LeadingSpace(c) == 0;
    assert c[0..] == c;
    assert c[2..] == StepsText(steps);
    StepsTextStart(steps);
    ParseStepsText(steps);
  }
}
