/** The resolver and the assembly of `SSToTailwind`: every candidate of the
    evaluated chain is mapped through the `lookups` and `replaceStyles` tables
    to a class fragment (`parseOut`), variable-valued arbitrary styles are
    collected in `stylesOutput`, and the fragments are joined into a template
    literal. The tables are parameters. */
module Resolver {
  import opened Strings
  import opened JsText
  import opened Outcomes
  import opened Tokenizer
  import opened Interpreter
  import opened ChainParser

  /** `lookups` (shorthand key to class name, `''` meaning the key itself)
      and `replaceStyles` (camel-case CSS property to utility prefix). */
  datatype Tables = Tables(lookups: map<string, string>, replaceStyles: map<string, string>)

  /** `{classString, styles}`; `styles` is `null` or an object literal's text. */
  datatype Compiled = Compiled(classString: string, styles: Option<string>)

  /** What one `parseOut` call contributes: its class fragment and the text it
      appends to `stylesOutput`. */
  datatype Fragment = Fragment(cls: string, style: string)

  /** `params[Number(value.replace('COUNT', ''))]`. The index is read as a
      string of decimal digits, the empty string being 0; an index outside
      `params` gives `undefined`, and reading a field of it throws. */
  function Param(value: string, params: seq<Token>): Result<Token> {
    var t := ReplaceFirst(value, "COUNT", "");
    if AllDigits(t) && DigitsValue(t) < |params| then Ok(params[DigitsValue(t)]) else Err(TypeError)
  }

  /** The responsive prefix: `key.includes('sm') ? 'sm:' : ''` (a substring test). */
  function SmPrefix(key: string): string {
    if Contains(key, "sm") then "sm:" else ""
  }

  /** The tail of `parseOut` once `innerKey` is known: an unconditional class
      for `true`, a template conditional for a `COUNT` placeholder, and an
      `Invalid value` error for anything else. */
  function Gate(prefix: string, innerKey: string, value: Value, params: seq<Token>, style: string): Result<Fragment> {
    if value == Bool(true) then Ok(Fragment(prefix + innerKey, style))
    else if value.Str? && StartsWith(value.s, "COUNT") then
      var p :- Param(value.s, params);
      Ok(Fragment("${(" + p.value + "?('" + prefix + innerKey + "'):'')}", style))
    else Err(InvalidValue)
  }

  /** `parseOut([key, value])`. A key missing from `lookups` takes the
      arbitrary-value path; on a variable token it appends to the styles and
      then falls through to the class path, where `innerKey` is `undefined`. */
  function ParseOut(c: Candidate, params: seq<Token>, t: Tables): Result<Fragment> {
    var key := c.key;
    var value := c.cond;
    var cleanKey := ReplaceFirst(key, "sm:", "");
    if cleanKey !in t.lookups then
      if !value.Str? then Err(TypeError)      // `value.replace` on a non-string
      else
        var p :- Param(value.s, params);
        if p.kind == Variable then
          if Contains(key, "sm") then Err(SmallVariable)
          else Gate(SmPrefix(key), "undefined", value, params, "'" + cleanKey + "':" + p.value + ",")
        else if cleanKey in t.replaceStyles then
          Ok(Fragment(SmPrefix(key) + t.replaceStyles[cleanKey] + "-[" + p.value + "]", ""))
        else
          Ok(Fragment(SmPrefix(key) + key + "-[" + p.value + "]", ""))
    else
      var innerKey := if t.lookups[cleanKey] == "" then cleanKey else t.lookups[cleanKey];
      Gate(SmPrefix(key), innerKey, value, params, "")
  }

  /** `classes.map(parseOut)` together with the `stylesOutput` it accumulates. */
  function ResolveAll(cs: seq<Candidate>, params: seq<Token>, t: Tables): Result<(seq<string>, string)>
    decreases |cs|
  {
    if cs == [] then Ok(([], ""))
    else
      var done :- ResolveAll(cs[..|cs| - 1], params, t);
      var f :- ParseOut(cs[|cs| - 1], params, t);
      Ok((done.0 + [f.cls], done.1 + f.style))
  }

  /** Once a prefix of the candidates fails, the whole resolution fails with
      the same error: the first failing candidate decides. */
  lemma {:induction false} ResolveAllStops(cs: seq<Candidate>, k: nat, params: seq<Token>, t: Tables)
    requires k <= |cs| && ResolveAll(cs[..k], params, t).Err?
    ensures ResolveAll(cs, params, t) == ResolveAll(cs[..k], params, t)
    decreases |cs| - k
  {
    if k < |cs| {
      assert cs[..k + 1][..k] == cs[..k];
      ResolveAllStops(cs, k + 1, params, t);
    } else {
      assert cs[..k] == cs;
    }
  }

  const IconImage := "[p.image as 'icon']"
  const IconPlain := "[icon as 'icon']"

  /** The returned template and style literal. */
  function Assemble(fragments: seq<string>, stylesOutput: string, iconPlain: bool, iconImage: bool): Compiled {
    Compiled("`" + Join(fragments, " ") + (if iconPlain then " ${icon}" else "")
             + (if iconImage then " ${p.image}" else "") + "`",
             if stylesOutput == "" then None else Some("{" + stylesOutput + "}"))
  }

  /** The text with the icon idioms removed, and which of them were found:
      `[p.image as 'icon']` is looked for first, `[icon as 'icon']` second. */
  function StripIcons(text: string): (string, bool, bool) {
    var iconImage := Contains(text, IconImage);
    var t1 := if iconImage then ReplaceAll(text, IconImage, "") else text;
    var iconPlain := Contains(t1, IconPlain);
    var t2 := if iconPlain then ReplaceAll(t1, IconPlain, "") else t1;
    (t2, iconPlain, iconImage)
  }

  /** `SSToTailwind(text)`. */
  function Compile(text: string, t: Tables): Result<Compiled> {
    var stripped := StripIcons(text);
    var tokens := Tokenize(stripped.0);
    var steps :- ParseChain(tokens.0);
    var evaluated :- Evaluate(steps);
    var resolved :- ResolveAll(evaluated.0, tokens.1, t);
    Ok(Assemble(resolved.0, resolved.1, stripped.1, stripped.2))
  }

  /** Running the compiled function on a fresh `$SS` proxy: every step of the
      chain is a property read or a call on the proxy, and the final read of
      `$$$PROCESS` returns the collected classes and styles. */
  method RunChain(steps: seq<Step>) returns (r: Result<(seq<Candidate>, map<string, Value>)>)
    ensures r == Evaluate(steps)
  {
    var ss := new ChainProxy();
    var i := 0;
    while i < |steps|
      invariant 0 <= i <= |steps|
      invariant Run(ss.Snapshot(), steps[i..]) == Run(Initial, steps)
    {
      assert steps[i..][1..] == steps[i + 1..];
      match steps[i] {
        case Access(name) =>
          var finished := ss.Get(name);
          if finished.Some? {
            return Err(TypeError);
          }
        case Call(arg) =>
          var failed := ss.Apply(arg);
          if failed {
            return Err(TypeError);
          }
      }
      i := i + 1;
    }
    var j := ss.Get(Finalize);
    return Ok(j.value);
  }

  /** `classes.map(parseOut)`, accumulating the arbitrary styles. */
  method ResolveClasses(classes: seq<Candidate>, params: seq<Token>, t: Tables) returns (r: Result<(seq<string>, string)>)
    ensures r == ResolveAll(classes, params, t)
  {
    var fragments: seq<string> := [];
    var stylesOutput := "";
    for k := 0 to |classes|
      invariant ResolveAll(classes[..k], params, t) == Ok((fragments, stylesOutput))
    {
      assert classes[..k + 1][..k] == classes[..k];
      var f := ParseOut(classes[k], params, t);
      if f.Err? {
        ResolveAllStops(classes, k + 1, params, t);
        return Err(f.error);
      }
      fragments := fragments + [f.value.cls];
      stylesOutput := stylesOutput + f.value.style;
    }
    assert classes[..|classes|] == classes;
    return Ok((fragments, stylesOutput));
  }

  method SSToTailwind(text: string, t: Tables) returns (r: Result<Compiled>)
    ensures r == Compile(text, t)
  {
    var stripped := StripIcons(text);
    var skeleton, params := ReplaceNestedParentheses(stripped.0);
    var parsed := ParseChain(skeleton);
    if parsed.Err? {
      return Err(parsed.error);
    }
    var evaluated := RunChain(parsed.value);
    if evaluated.Err? {
      return Err(evaluated.error);
    }
    var resolved := ResolveClasses(evaluated.value.0, params, t);
    if resolved.Err? {
      return Err(resolved.error);
    }
    return Ok(Assemble(resolved.value.0, resolved.value.1, stripped.1, stripped.2));
  }

  // ---------------------------------------------------------------------
  // Properties of `parseOut`

  /** A key found in `lookups` resolves to the key itself when mapped to `''`,
      otherwise to the mapped string; `true` gives `[sm:]name`, a `COUNTi`
      placeholder gives `${(tok.value?('[sm:]name'):'')}`, anything else is an
      `Invalid value` error. Nothing is added to the styles. */
  lemma KnownKey(c: Candidate, params: seq<Token>, t: Tables)
    requires ReplaceFirst(c.key, "sm:", "") in t.lookups
    ensures var clean := ReplaceFirst(c.key, "sm:", "");
      var name := if t.lookups[clean] == "" then clean else t.lookups[clean];
      && (c.cond == Bool(true) ==> ParseOut(c, params, t) == Ok(Fragment(SmPrefix(c.key) + name, "")))
      && (c.cond.Str? && StartsWith(c.cond.s, "COUNT") && Param(c.cond.s, params).Ok? ==>
            ParseOut(c, params, t)
            == Ok(Fragment("${(" + Param(c.cond.s, params).value.value + "?('" + SmPrefix(c.key) + name + "'):'')}", "")))
      && (c.cond != Bool(true) && !(c.cond.Str? && StartsWith(c.cond.s, "COUNT")) ==>
            ParseOut(c, params, t) == Err(InvalidValue))
  {
  }

  /** A key missing from `lookups` with a constant token gives
      `[sm:]prefix-[v]` when `replaceStyles` has the key, else `[sm:]key-[v]`,
      and adds nothing to the styles. */
  lemma UnknownKeyConstant(c: Candidate, params: seq<Token>, t: Tables)
    requires ReplaceFirst(c.key, "sm:", "") !in t.lookups
    requires c.cond.Str? && Param(c.cond.s, params).Ok? && Param(c.cond.s, params).value.kind == Constant
    ensures var clean := ReplaceFirst(c.key, "sm:", "");
      var v := Param(c.cond.s, params).value.value;
      ParseOut(c, params, t)
      == Ok(Fragment(SmPrefix(c.key) + (if clean in t.replaceStyles then t.replaceStyles[clean] else c.key) + "-[" + v + "]", ""))
  {
  }

  /** A key missing from `lookups` with a variable token appends
      `'cleanKey':expr,` to the styles, and fails when the key contains `sm`. */
  lemma UnknownKeyVariable(c: Candidate, params: seq<Token>, t: Tables)
    requires ReplaceFirst(c.key, "sm:", "") !in t.lookups
    requires c.cond.Str? && Param(c.cond.s, params).Ok? && Param(c.cond.s, params).value.kind == Variable
    ensures Contains(c.key, "sm") ==> ParseOut(c, params, t) == Err(SmallVariable)
    ensures !Contains(c.key, "sm") && ParseOut(c, params, t).Ok? ==>
      ParseOut(c, params, t).value.style
      == "'" + ReplaceFirst(c.key, "sm:", "") + "':" + Param(c.cond.s, params).value.value + ","
  {
  }

  /** The variable path does not return early: with a `COUNTi` placeholder it
      also yields the class fragment `${(expr?('undefined'):'')}`. */
  lemma VariableFallsThrough(c: Candidate, params: seq<Token>, t: Tables)
    requires ReplaceFirst(c.key, "sm:", "") !in t.lookups && !Contains(c.key, "sm")
    requires c.cond.Str? && StartsWith(c.cond.s, "COUNT")
    requires Param(c.cond.s, params).Ok? && Param(c.cond.s, params).value.kind == Variable
    ensures var e := Param(c.cond.s, params).value.value;
      ParseOut(c, params, t)
      == Ok(Fragment("${(" + e + "?('undefined'):'')}", "'" + ReplaceFirst(c.key, "sm:", "") + "':" + e + ","))
  {
    var e := Param(c.cond.s, params).value.value;
    assert SmPrefix(c.key) == "";
    assert "${(" + e + "?('" + "" + "undefined" + "'):'')}" == "${(" + e + "?('undefined'):'')}";
  }

  /** Exactly the variable arbitrary-value path contributes style text. */
  predicate TakesStylePath(c: Candidate, params: seq<Token>, t: Tables) {
    ReplaceFirst(c.key, "sm:", "") !in t.lookups && c.cond.Str?
    && Param(c.cond.s, params).Ok? && Param(c.cond.s, params).value.kind == Variable
  }

  lemma StyleIffVariablePath(c: Candidate, params: seq<Token>, t: Tables)
    requires ParseOut(c, params, t).Ok?
    ensures ParseOut(c, params, t).value.style != "" <==> TakesStylePath(c, params, t)
  {
  }

  // ---------------------------------------------------------------------
  // Properties of the whole resolution

  /** The fragments are the candidates' fragments in candidate order, and the
      collected style text is theirs concatenated. */
  lemma {:induction false} ResolveAllInOrder(cs: seq<Candidate>, params: seq<Token>, t: Tables)
    requires ResolveAll(cs, params, t).Ok?
    ensures var r := ResolveAll(cs, params, t).value;
      && |r.0| == |cs|
      && (forall i :: 0 <= i < |cs| ==> ParseOut(cs[i], params, t).Ok? && r.0[i] == ParseOut(cs[i], params, t).value.cls)
      && (r.1 == "" <==> forall i :: 0 <= i < |cs| ==> !TakesStylePath(cs[i], params, t))
    decreases |cs|
  {
    if cs != [] {
      var init := cs[..|cs| - 1];
      var last := cs[|cs| - 1];
      ResolveAllInOrder(init, params, t);
      StyleIffVariablePath(last, params, t);
      var done := ResolveAll(init, params, t).value;
      var f := ParseOut(last, params, t).value;
      assert ResolveAll(cs, params, t).value == (done.0 + [f.cls], done.1 + f.style);
      forall i | 0 <= i < |cs|
        ensures ParseOut(cs[i], params, t).Ok? && (done.0 + [f.cls])[i] == ParseOut(cs[i], params, t).value.cls
      {
        if i < |cs| - 1 { assert cs[i] == init[i]; }
      }
      assert (done.1 + f.style == "") <==> (done.1 == "" && f.style == "");
      if done.1 + f.style == "" {
        forall i | 0 <= i < |cs| ensures !TakesStylePath(cs[i], params, t) {
          if i < |cs| - 1 { assert cs[i] == init[i]; }
        }
      } else {
        if done.1 != "" {
          var i :| 0 <= i < |init| && TakesStylePath(init[i], params, t);
          assert cs[i] == init[i];
        } else {
          assert TakesStylePath(cs[|cs| - 1], params, t);
        }
      }
    }
  }

  /** The compiled result, in terms of the evaluated chain: the class string is
      a backtick, the fragments of the candidates (the prepended `flex` first)
      joined by single spaces, the icon suffixes, and a closing backtick; the
      styles are `null` exactly when no candidate took the variable
      arbitrary-value path. */
  lemma CompileShape(text: string, t: Tables)
    requires Compile(text, t).Ok?
    ensures var stripped := StripIcons(text);
      var tokens := Tokenize(stripped.0);
      var steps := ParseChain(tokens.0).value;
      var cs := Evaluate(steps).value.0;
      var fragments := ResolveAll(cs, tokens.1, t).value.0;
      var c := Compile(text, t).value;
      && |cs| >= 1 && cs[0] == Candidate("flex", Bool(true))
      && |fragments| == |cs|
      && (forall i :: 0 <= i < |cs| ==>
            ParseOut(cs[i], tokens.1, t).Ok? && fragments[i] == ParseOut(cs[i], tokens.1, t).value.cls)
      && c.classString == "`" + Join(fragments, " ") + (if stripped.1 then " ${icon}" else "")
                          + (if stripped.2 then " ${p.image}" else "") + "`"
      && (c.styles.None? <==> forall i :: 0 <= i < |cs| ==> !TakesStylePath(cs[i], tokens.1, t))
  {
    var stripped := StripIcons(text);
    var tokens := Tokenize(stripped.0);
    var steps := ParseChain(tokens.0).value;
    var cs := Evaluate(steps).value.0;
    ResolveAllInOrder(cs, tokens.1, t);
  }

  // ---------------------------------------------------------------------
  // Chains of plain reads

  /** A name that a plain read carries to the resolver unchanged: an
      identifier that is not one of the proxy's sentinel names, holds no `_`
      and is not responsive. */
  predicate PlainName(n: string) {
    IsIdentifier(n) && !IsSentinel(n) && !Contains(n, "sm") && forall i :: 0 <= i < |n| ==> n[i] != '_'
  }

  /** The chain `.n1.n2...` as steps. */
  function Reads(ns: seq<string>): (r: seq<Step>)
    ensures |r| == |ns| && forall i :: 0 <= i < |ns| ==> r[i] == Access(ns[i])
  {
    seq(|ns|, i requires 0 <= i < |ns| => Access(ns[i]))
  }

  /** The unconditional candidates `[n, true]`. */
  function Marks(ns: seq<string>): (r: seq<Candidate>)
    ensures |r| == |ns| && forall i :: 0 <= i < |ns| ==> r[i] == Candidate(ns[i], Bool(true))
  {
    seq(|ns|, i requires 0 <= i < |ns| => Candidate(ns[i], Bool(true)))
  }

  /** `lookups[n] || n`. */
  function ClassName(t: Tables, n: string): string
    requires n in t.lookups
  {
    if t.lookups[n] == "" then n else t.lookups[n]
  }

  function ClassNames(t: Tables, ns: seq<string>): (r: seq<string>)
    requires forall i :: 0 <= i < |ns| ==> ns[i] in t.lookups
    ensures |r| == |ns| && forall i :: 0 <= i < |ns| ==> r[i] == ClassName(t, ns[i])
  {
    seq(|ns|, i requires 0 <= i < |ns| => ClassName(t, ns[i]))
  }

  /** A plain read appends its name as an unconditional candidate. */
  lemma AccessPlain(st: State, n: string)
    requires !st.isSmall && PlainName(n)
    ensures Accessed(st, n) == st.(classes := st.classes + [Candidate(n, Bool(true))])
  {
    ReplaceCharAbsent(n, '_', '-');
    assert KeyFor(false, n) == "" + n == n;
  }

  /** One plain read at the head of a chain. */
  lemma ReadsStep(st: State, ns: seq<string>)
    requires !st.isSmall && ns != []
    requires forall i :: 0 <= i < |ns| ==> PlainName(ns[i])
    ensures Run(st, Reads(ns)) == Run(st.(classes := st.classes + [Candidate(ns[0], Bool(true))]), Reads(ns[1..]))
  {
    var n := ns[0];
    var steps := Reads(ns);
    assert steps[0] == Access(n);
    assert steps[1..] == Reads(ns[1..]);
    assert n != Finalize;
    AccessPlain(st, n);
  }

  /** Plain reads append their names, in order, as unconditional candidates. */
  lemma {:induction false} RunReads(st: State, ns: seq<string>)
    requires !st.isSmall
    requires forall i :: 0 <= i < |ns| ==> PlainName(ns[i])
    ensures Run(st, Reads(ns)) == Ok(st.(classes := st.classes + Marks(ns)))
    decreases |ns|
  {
    if ns == [] {
      assert st.classes + Marks(ns) == st.classes;
    } else {
      var n := ns[0];
      ReadsStep(st, ns);
      var st' := st.(classes := st.classes + [Candidate(n, Bool(true))]);
      RunReads(st', ns[1..]);
      MarksCons(st.classes, ns);
    }
  }

  lemma MarksCons(cs: seq<Candidate>, ns: seq<string>)
    requires ns != []
    ensures cs + [Candidate(ns[0], Bool(true))] + Marks(ns[1..]) == cs + Marks(ns)
  {
    assert Marks(ns) == [Candidate(ns[0], Bool(true))] + Marks(ns[1..]);
  }

  /** A non-responsive key found in `lookups`, read unconditionally, resolves
      to its class name and adds no style. */
  lemma PlainCandidate(n: string, params: seq<Token>, t: Tables)
    requires n in t.lookups && !Contains(n, "sm")
    ensures ParseOut(Candidate(n, Bool(true)), params, t) == Ok(Fragment(ClassName(t, n), ""))
  {
    assert "sm" + ":" == "sm:";
    if Contains(n, "sm:") {
      ContainsPrefixOf(n, "sm", ":");
    }
    ReplaceFirstAbsent(n, "sm:", "");
    assert "" + ClassName(t, n) == ClassName(t, n);
  }

  lemma {:induction false} ResolveMarks(ns: seq<string>, params: seq<Token>, t: Tables)
    requires forall i :: 0 <= i < |ns| ==> ns[i] in t.lookups && !Contains(ns[i], "sm")
    ensures ResolveAll(Marks(ns), params, t) == Ok((ClassNames(t, ns), ""))
    decreases |ns|
  {
    if ns != [] {
      var init := ns[..|ns| - 1];
      var n := ns[|ns| - 1];
      assert Marks(ns)[..|ns| - 1] == Marks(init);
      ResolveMarks(init, params, t);
      PlainCandidate(n, params, t);
      assert ClassNames(t, ns) == ClassNames(t, init) + [ClassName(t, n)];
      assert "" + "" == "";
    }
  }

  /** The text of plain reads consists of dots and identifier characters. */
  lemma {:induction false} ReadsText(ns: seq<string>)
    requires forall i :: 0 <= i < |ns| ==> PlainName(ns[i])
    ensures forall i :: 0 <= i < |Reads(ns)| ==> SkeletonStep(Reads(ns)[i])
    ensures forall i :: 0 <= i < |StepsText(Reads(ns))| ==>
      StepsText(Reads(ns))[i] == '.' || IsIdentChar(StepsText(Reads(ns))[i])
    decreases |ns|
  {
    if ns != [] {
      assert Reads(ns)[1..] == Reads(ns[1..]);
      ReadsText(ns[1..]);
      var head := StepText(Reads(ns)[0]);
      assert head == "." + ns[0];
      assert StepsText(Reads(ns)) == head + StepsText(Reads(ns[1..]));
    }
  }

  /** The text of plain reads holds no icon idiom and no parenthesis, so
      it reaches the chain parser unchanged. */
  lemma ReadsClean(ns: seq<string>)
    requires forall i :: 0 <= i < |ns| ==> PlainName(ns[i])
    ensures StripIcons(ChainText(Reads(ns))) == (ChainText(Reads(ns)), false, false)
    ensures Tokenize(ChainText(Reads(ns))) == (ChainText(Reads(ns)), [])
  {
    var text := ChainText(Reads(ns));
    ReadsText(ns);
    var rest := StepsText(Reads(ns));
    assert text == "SS" + rest;
    assert forall i :: 0 <= i < |text| ==> text[i] == '.' || IsIdentChar(text[i]) by {
      forall i | 0 <= i < |text| ensures text[i] == '.' || IsIdentChar(text[i]) {
        if i >= 2 { assert text[i] == rest[i - 2]; }
      }
    }
    FirstCharAbsent(text, IconImage);
    FirstCharAbsent(text, IconPlain);
    assert NoParens(text);
    ParenFreeUnchanged(text);
  }

  /** Plain reads evaluate to `flex` followed by their unconditional candidates. */
  lemma EvaluateReads(ns: seq<string>)
    requires forall i :: 0 <= i < |ns| ==> PlainName(ns[i])
    ensures Evaluate(Reads(ns)) == Ok((Marks(["flex"] + ns), map[]))
  {
    RunReads(Initial, ns);
    assert [] + Marks(ns) == Marks(ns);
    assert [Candidate("flex", Bool(true))] + Marks(ns) == Marks(["flex"] + ns);
  }

  /** `SS.n1.n2...nk` for plain names found in `lookups` compiles to
      `flex c1 c2 ... ck` (each name's class) with no style object. */
  lemma CompileReads(ns: seq<string>, t: Tables)
    requires "flex" in t.lookups
    requires forall i :: 0 <= i < |ns| ==> PlainName(ns[i]) && ns[i] in t.lookups
    ensures Compile(ChainText(Reads(ns)), t)
            == Ok(Compiled("`" + Join(ClassNames(t, ["flex"] + ns), " ") + "`", None))
  {
    var text := ChainText(Reads(ns));
    var all := ["flex"] + ns;
    assert !Contains("flex", "sm") by {
      FirstCharAbsent("flex", "sm");
    }
    forall i | 0 <= i < |all| ensures all[i] in t.lookups && !Contains(all[i], "sm") {
      if i > 0 { assert all[i] == ns[i - 1]; }
    }
    var names := ClassNames(t, all);
    ReadsClean(ns);
    assert forall i :: 0 <= i < |Reads(ns)| ==> SkeletonStep(Reads(ns)[i]);
    ParseChainText(Reads(ns));
    EvaluateReads(ns);
    ResolveMarks(all, [], t);
    CompileClean(text, t, Reads(ns), Marks(all), map[], names, "");
    AssemblePlain(names);
  }

  /** `Compile` of a text without icon idioms and parentheses, stage by stage. */
  lemma CompileClean(text: string, t: Tables, steps: seq<Step>, cs: seq<Candidate>, styles: map<string, Value>,
                     fragments: seq<string>, out: string)
    requires StripIcons(text) == (text, false, false) && Tokenize(text) == (text, [])
    requires ParseChain(text) == Ok(steps) && Evaluate(steps) == Ok((cs, styles))
    requires ResolveAll(cs, [], t) == Ok((fragments, out))
    ensures Compile(text, t) == Ok(Assemble(fragments, out, false, false))
  {
  }

  /** Without icons and style text the template is the joined fragments in backticks. */
  lemma AssemblePlain(fragments: seq<string>)
    ensures Assemble(fragments, "", false, false) == Compiled("`" + Join(fragments, " ") + "`", None)
  {
    var j := Join(fragments, " ");
    assert "`" + j + "" + "" + "`" == "`" + j + "`";
  }
}
