/** The style-DSL rewrite of `processFile` (runner.ts): on an element with a
    lower-case tag, an `ss={...}` or `use:ss={...}` attribute is compiled by
    `SSToTailwind`; the element gets `class="<n>"` (and `style="<m>"` when
    the DSL produced styles), and the file-level lists `classNodes` and
    `styleNodes` record the class and style expressions under those
    counters, for the second pass that splices them into the text. An
    existing `class` is folded into the class expression with `clsx`. */
module DslRewriter {
  import opened Strings
  import opened Outcomes
  import opened Jsx
  import opened CaseNames
  import StyleString
  import Resolver

  /** An entry of `classNodes`: the counter of the element's `class`
      attribute (`null` until it is made) and the class expression. */
  datatype ClassNode = ClassNode(index: Option<int>, text: string)

  /** An entry of `styleNodes`: the counter and the style object text. */
  datatype StyleNode = StyleNode(index: int, text: string)

  /** The transform's file-level variables. */
  datatype Nodes = Nodes(classNodes: seq<ClassNode>, styleNodes: seq<StyleNode>, classIndex: nat, styleIndex: nat)

  const NoNodes := Nodes([], [], 0, 0)

  predicate IsDsl(name: Option<string>) {
    name == Some("use:ss") || name == Some("ss")
  }

  /** The attributes that make the transform look at an element: a name
      starting with `use:ss` or `ss`. */
  predicate Triggers(a: Attr) {
    a.NamedAttr? && a.name.Some? && (StartsWith(a.name.value, "use:ss") || StartsWith(a.name.value, "ss"))
  }

  /** An element whose tag is an identifier starting with a lower-case
      letter (the first character changes under `toUpperCase`). */
  predicate Intrinsic(tag: Option<string>) {
    tag.Some? && tag.value != [] && IsLower(tag.value[0])
  }

  /** The variables of the attribute loop: `foundProps`, `classAttribute`,
      `styleAttribute`, `styleObject`, and the file-level `classNodes`. */
  datatype Found = Found(kept: seq<Attr>, classInit: Init, styleInit: Init, styleObject: Option<string>,
                         classNodes: seq<ClassNode>)

  /** One turn of the attribute loop. The DSL attribute must hold a JSX
      expression; its source text goes to `SSToTailwind`, whose
      `styles` replaces any earlier one. */
  function Visit(t: Resolver.Tables, f: Found, a: Attr): Result<Found> {
    match a
    case SpreadAttr(_) => Ok(f.(kept := f.kept + [a]))
    case NamedAttr(name, init) =>
      if IsDsl(name) then
        if !(init.ExprValue? && init.expr.Some?) then Err(TypeError)
        else
          var template :- Resolver.Compile(Print(init.expr.value), t);
          Ok(f.(styleObject := template.styles, classNodes := f.classNodes + [ClassNode(None, template.classString)]))
      else if name == Some("class") then Ok(f.(classInit := init))
      else if name == Some("style") then Ok(f.(styleInit := init))
      else Ok(f.(kept := f.kept + [a]))
  }

  function Collect(t: Resolver.Tables, nodes: seq<ClassNode>, attrs: seq<Attr>): Result<Found>
    decreases |attrs|
  {
    if attrs == [] then Ok(Found([], NoValue, NoValue, None, nodes))
    else
      var f :- Collect(t, nodes, attrs[..|attrs| - 1]);
      Visit(t, f, attrs[|attrs| - 1])
  }

  /** `classText`: the source text of the class initializer; empty (falsy)
      when there is none or the expression is empty. */
  function ClassText(init: Init): string {
    match init
    case StringValue(l) => Print(l)
    case ExprValue(e) => if e.Some? then Print(e.value) else ""
    case NoValue => ""
  }

  /** Whether `styleText` is truthy. A string literal is converted by
      `styleStringToStyleObject` (an object, always truthy, or a throw). */
  function StyleText(init: Init): Result<bool> {
    match init
    case StringValue(l) =>
      var o :- StyleString.StyleObject(Print(l));
      Ok(true)
    case ExprValue(e) => Ok(e.Some? && Print(e.value) != "")
    case NoValue => Ok(false)
  }

  /** The class expression `clsx(<classText>,<text>)`. */
  function Clsx(classText: string, text: string): string {
    "clsx(" + classText + "," + text + ")"
  }

  /** `classNodes[classNodes.length - 1][1] = clsx(...)`: the last class
      node, whichever element it came from. */
  function Wrap(nodes: seq<ClassNode>, classText: string): Result<seq<ClassNode>> {
    if nodes == [] then Err(TypeError)
    else
      var last := nodes[|nodes| - 1];
      Ok(nodes[..|nodes| - 1] + [last.(text := Clsx(classText, last.text))])
  }

  /** A string-literal attribute holding a counter. */
  function Counter(name: string, n: nat): Attr {
    Named(name, StringValue(Lit(NatToString(n))))
  }

  /** The statements after the loop. */
  function Finish(n: Nodes, f: Found): Result<(seq<Attr>, Nodes)> {
    var classText := ClassText(f.classInit);
    var styled :- StyleText(f.styleInit);
    var wrapped :- if classText != "" then Wrap(f.classNodes, classText) else Ok(f.classNodes);
    if styled && f.styleObject.Some? then Err(MixedStyle)
    else Numbered(n, f.kept, f.styleObject, wrapped)
  }

  /** The counter attributes, pushed after the kept ones, and the new nodes. */
  function Numbered(n: Nodes, kept: seq<Attr>, styleObject: Option<string>, wrapped: seq<ClassNode>): Result<(seq<Attr>, Nodes)> {
    var styleAttrs := if styleObject.Some? then [Counter("style", n.styleIndex)] else [];
    var styleNodes := if styleObject.Some? then n.styleNodes + [StyleNode(n.styleIndex, styleObject.value)] else n.styleNodes;
    var styleIndex := if styleObject.Some? then n.styleIndex + 1 else n.styleIndex;
    if wrapped == [] then Err(TypeError)
    else
      var last := wrapped[|wrapped| - 1];
      Ok((kept + styleAttrs + [Counter("class", n.classIndex)],
          Nodes(wrapped[..|wrapped| - 1] + [last.(index := Some(n.classIndex))], styleNodes, n.classIndex + 1, styleIndex)))
  }

  /** The transform callback on one `JsxAttributes` node, with the tag of
      its element (None for a missing parent or a tag that is not an
      identifier): the new attributes and file-level variables. */
  function Step(n: Nodes, t: Resolver.Tables, tag: Option<string>, attrs: seq<Attr>): Result<(seq<Attr>, Nodes)> {
    if !Intrinsic(tag) || !(exists i :: 0 <= i < |attrs| && Triggers(attrs[i])) then Ok((attrs, n))
    else
      var f :- Collect(t, n.classNodes, attrs);
      Finish(n, f)
  }

  /** A method's result and new state, as a value to compare with `Step`;
      after a throw the state does not matter. */
  function Outcome(r: Result<seq<Attr>>, n: Nodes): Result<(seq<Attr>, Nodes)> {
    if r.Ok? then Ok((r.value, n)) else Err(r.error)
  }

  /** Once the loop throws, the callback throws with it. */
  lemma {:induction false} CollectStop(t: Resolver.Tables, nodes: seq<ClassNode>, attrs: seq<Attr>, k: nat)
    requires k <= |attrs| && Collect(t, nodes, attrs[..k]).Err?
    ensures Collect(t, nodes, attrs) == Collect(t, nodes, attrs[..k])
    decreases |attrs| - k
  {
    if k < |attrs| {
      assert attrs[..k + 1][..k] == attrs[..k];
      CollectStop(t, nodes, attrs, k + 1);
    } else {
      assert attrs[..k] == attrs;
    }
  }

  /** `properties.some(...)` for the DSL names. */
  method HasTrigger(attrs: seq<Attr>) returns (r: bool)
    ensures r <==> exists i :: 0 <= i < |attrs| && Triggers(attrs[i])
  {
    for i := 0 to |attrs|
      invariant forall j :: 0 <= j < i ==> !Triggers(attrs[j])
    {
      var a := attrs[i];
      if a.NamedAttr? && a.name.Some? && (StartsWith(a.name.value, "use:ss") || StartsWith(a.name.value, "ss")) {
        return true;
      }
    }
    return false;
  }

  method ReadClassText(init: Init) returns (r: string)
    ensures r == ClassText(init)
  {
    r := "";
    match init {
      case StringValue(l) => r := Print(l);
      case ExprValue(e) => if e.Some? { r := Print(e.value); }
      case NoValue =>
    }
  }

  method ReadStyleText(init: Init) returns (r: Result<bool>)
    ensures r == StyleText(init)
  {
    match init {
      case StringValue(l) =>
        var o := StyleString.StyleStringToStyleObject(Print(l));
        if o.Err? {
          return Err(o.error);
        }
        return Ok(true);
      case ExprValue(e) => return Ok(e.Some? && Print(e.value) != "");
      case NoValue => return Ok(false);
    }
  }

  /** The state `processFile` keeps across the elements of one file. */
  class Rewriter {
    var classNodes: seq<ClassNode>
    var styleNodes: seq<StyleNode>
    var classIndex: nat
    var styleIndex: nat
    const tables: Resolver.Tables

    function State(): Nodes
      reads this
    {
      Nodes(classNodes, styleNodes, classIndex, styleIndex)
    }

    constructor(t: Resolver.Tables)
      ensures State() == NoNodes && tables == t
    {
      classNodes := [];
      styleNodes := [];
      classIndex := 0;
      styleIndex := 0;
      tables := t;
    }

    method Transform(tag: Option<string>, attrs: seq<Attr>) returns (r: Result<seq<Attr>>)
      modifies this
      ensures Outcome(r, State()) == Step(old(State()), tables, tag, attrs)
    {
      if tag.None? || tag.value == [] || !IsLower(tag.value[0]) {
        assert !Intrinsic(tag);
        return Ok(attrs);
      }
      var open := HasTrigger(attrs);
      if !open {
        return Ok(attrs);
      }
      ghost var before := State();
      assert Step(before, tables, tag, attrs) == (var f :- Collect(tables, before.classNodes, attrs); Finish(before, f));
      var found := ReadAttributes(attrs);
      if found.Err? {
        return Err(found.error);
      }
      assert before == Nodes(classNodes, styleNodes, classIndex, styleIndex).(classNodes := before.classNodes);
      r := Complete(found.value);
    }

    /** The attribute loop; it pushes a class node for each DSL attribute. */
    method ReadAttributes(attrs: seq<Attr>) returns (r: Result<Found>)
      modifies this
      ensures r == Collect(tables, old(classNodes), attrs)
      ensures r.Ok? ==> classNodes == r.value.classNodes
      ensures styleNodes == old(styleNodes) && classIndex == old(classIndex) && styleIndex == old(styleIndex)
    {
      ghost var nodes := classNodes;
      var foundProps: seq<Attr> := [];
      var classAttribute: Init := NoValue;
      var styleAttribute: Init := NoValue;
      var styleObject: Option<string> := None;
      for i := 0 to |attrs|
        invariant Collect(tables, nodes, attrs[..i])
                  == Ok(Found(foundProps, classAttribute, styleAttribute, styleObject, classNodes))
        invariant styleNodes == old(styleNodes) && classIndex == old(classIndex) && styleIndex == old(styleIndex)
      {
        assert attrs[..i + 1][..i] == attrs[..i];
        var property := attrs[i];
        if property.SpreadAttr? {
          foundProps := foundProps + [property];
          continue;
        }
        var name := property.name;
        if name == Some("use:ss") || name == Some("ss") {
          if !(property.init.ExprValue? && property.init.expr.Some?) {
            CollectStop(tables, nodes, attrs, i + 1);
            return Err(TypeError);
          }
          var template := Resolver.SSToTailwind(Print(property.init.expr.value), tables);
          if template.Err? {
            CollectStop(tables, nodes, attrs, i + 1);
            return Err(template.error);
          }
          styleObject := template.value.styles;
          classNodes := classNodes + [ClassNode(None, template.value.classString)];
          continue;
        }
        if name == Some("class") {
          classAttribute := property.init;
        } else if name == Some("style") {
          styleAttribute := property.init;
        } else {
          foundProps := foundProps + [property];
        }
      }
      assert attrs[..|attrs|] == attrs;
      return Ok(Found(foundProps, classAttribute, styleAttribute, styleObject, classNodes));
    }

    /** The statements after the loop. */
    method Complete(f: Found) returns (r: Result<seq<Attr>>)
      requires classNodes == f.classNodes
      modifies this
      ensures Outcome(r, State()) == Finish(old(State()), f)
    {
      var foundProps := f.kept;
      var classText := ReadClassText(f.classInit);
      var styleText := ReadStyleText(f.styleInit);
      if styleText.Err? {
        return Err(styleText.error);
      }
      if classText != "" {
        if |classNodes| == 0 {
          return Err(TypeError);
        }
        var last := classNodes[|classNodes| - 1];
        classNodes := classNodes[..|classNodes| - 1] + [last.(text := "clsx(" + classText + "," + last.text + ")")];
      }
      assert (if classText != "" then Wrap(f.classNodes, classText) else Ok(f.classNodes)) == Ok(classNodes);
      if styleText.value && f.styleObject.Some? {
        return Err(MixedStyle);
      }
      r := Emit(f.kept, f.styleObject);
    }

    /** The counter attributes and the indices of the last nodes. */
    method Emit(kept: seq<Attr>, styleObject: Option<string>) returns (r: Result<seq<Attr>>)
      modifies this
      ensures Outcome(r, State()) == Numbered(old(State()), kept, styleObject, old(classNodes))
    {
      var foundProps := kept;
      if styleObject.Some? {
        var items := Counter("style", styleIndex);
        styleIndex := styleIndex + 1;
        styleNodes := styleNodes + [StyleNode(styleIndex - 1, styleObject.value)];
        foundProps := foundProps + [items];
      }
      var items := Counter("class", classIndex);
      classIndex := classIndex + 1;
      if |classNodes| == 0 {
        return Err(TypeError);
      }
      classNodes := classNodes[..|classNodes| - 1] + [classNodes[|classNodes| - 1].(index := Some(classIndex - 1))];
      foundProps := foundProps + [items];
      assert foundProps == kept + (if styleObject.Some? then [Counter("style", old(styleIndex))] else [])
                           + [Counter("class", old(classIndex))];
      return Ok(foundProps);
    }
  }

  // ---------------------------------------------------------------------
  // The file

  /** A `JsxAttributes` node, in the order the transform visits them
      (children before their parents), with its element's tag. */
  datatype Element = Element(tag: Option<string>, attrs: seq<Attr>)

  /** What `processFile` hands to the second pass: the source unchanged
      (after the two text replacements) when no element was rewritten, else
      the rewritten attribute lists and the two node lists. */
  datatype Processed = Unchanged(src: string)
                     | Transformed(elements: seq<seq<Attr>>, classNodes: seq<ClassNode>, styleNodes: seq<StyleNode>)

  /** The two text replacements made before parsing. */
  function Prepare(src: string): string {
    ReplaceAll(ReplaceAll(src, " ss,", " className,"), " ss?: SSType;", " className: string;")
  }

  function RunAll(t: Resolver.Tables, es: seq<Element>): Result<(seq<seq<Attr>>, Nodes)>
    decreases |es|
  {
    if es == [] then Ok(([], NoNodes))
    else
      var run :- RunAll(t, es[..|es| - 1]);
      var e := es[|es| - 1];
      var step :- Step(run.1, t, e.tag, e.attrs);
      Ok((run.0 + [step.0], step.1))
  }

  /** The two assignments after the transform, which set the last class
      and style nodes' counters to the last counter values. */
  function FixUp(n: Nodes): Nodes
    requires n.classNodes != []
  {
    var cs := n.classNodes;
    var ss := n.styleNodes;
    n.(classNodes := cs[..|cs| - 1] + [cs[|cs| - 1].(index := Some(n.classIndex - 1))],
       styleNodes := if ss == [] then ss else ss[..|ss| - 1] + [ss[|ss| - 1].(index := n.styleIndex - 1)])
  }

  /** `processFile` up to the second pass, given the elements of the parse
      of the prepared source. */
  function Process(src: string, elements: seq<Element>, t: Resolver.Tables): Result<Processed> {
    var run :- RunAll(t, elements);
    if run.1.classNodes == [] then Ok(Unchanged(Prepare(src)))
    else
      var fixed := FixUp(run.1);
      Ok(Transformed(run.0, fixed.classNodes, fixed.styleNodes))
  }

  lemma {:induction false} RunAllStop(t: Resolver.Tables, es: seq<Element>, k: nat)
    requires k <= |es| && RunAll(t, es[..k]).Err?
    ensures RunAll(t, es) == RunAll(t, es[..k])
    decreases |es| - k
  {
    if k < |es| {
      assert es[..k + 1][..k] == es[..k];
      RunAllStop(t, es, k + 1);
    } else {
      assert es[..k] == es;
    }
  }

  method ProcessFile(src: string, elements: seq<Element>, t: Resolver.Tables) returns (r: Result<Processed>)
    ensures r == Process(src, elements, t)
  {
    var prepared := ReplaceAll(src, " ss,", " className,");
    prepared := ReplaceAll(prepared, " ss?: SSType;", " className: string;");
    var rw := new Rewriter(t);
    var outs: seq<seq<Attr>> := [];
    for i := 0 to |elements|
      invariant RunAll(t, elements[..i]) == Ok((outs, rw.State()))
      invariant rw.tables == t
    {
      assert elements[..i + 1][..i] == elements[..i];
      var out := rw.Transform(elements[i].tag, elements[i].attrs);
      if out.Err? {
        RunAllStop(t, elements, i + 1);
        return Err(out.error);
      }
      outs := outs + [out.value];
    }
    assert elements[..|elements|] == elements;
    if |rw.classNodes| == 0 {
      return Ok(Unchanged(prepared));
    }
    rw.classNodes := rw.classNodes[..|rw.classNodes| - 1]
                     + [rw.classNodes[|rw.classNodes| - 1].(index := Some(rw.classIndex - 1))];
    if |rw.styleNodes| > 0 {
      rw.styleNodes := rw.styleNodes[..|rw.styleNodes| - 1]
                       + [rw.styleNodes[|rw.styleNodes| - 1].(index := rw.styleIndex - 1)];
    }
    return Ok(Transformed(outs, rw.classNodes, rw.styleNodes));
  }

  // ---------------------------------------------------------------------
  // Reference definitions for the attribute loop

  predicate IsDslAttr(a: Attr) {
    a.NamedAttr? && IsDsl(a.name)
  }

  /** Attributes the loop passes through unchanged. */
  predicate Passed(a: Attr) {
    !IsDslAttr(a) && !HasName(a, "class") && !HasName(a, "style")
  }

  function KeptOf(attrs: seq<Attr>): seq<Attr>
    decreases |attrs|
  {
    if attrs == [] then []
    else
      var a := attrs[|attrs| - 1];
      KeptOf(attrs[..|attrs| - 1]) + (if Passed(a) then [a] else [])
  }

  /** The source text a DSL attribute hands to `SSToTailwind` (empty when
      it holds no expression, in which case the loop throws instead). */
  function DslSource(a: Attr): string {
    if a.NamedAttr? && a.init.ExprValue? && a.init.expr.Some? then Print(a.init.expr.value) else ""
  }

  /** The source texts of the DSL attributes, in order. */
  function DslSources(attrs: seq<Attr>): seq<string>
    decreases |attrs|
  {
    if attrs == [] then []
    else
      var a := attrs[|attrs| - 1];
      DslSources(attrs[..|attrs| - 1]) + (if IsDslAttr(a) then [DslSource(a)] else [])
  }

  function DslCount(attrs: seq<Attr>): nat {
    |DslSources(attrs)|
  }

  /** `template.classString` of a DSL text (empty when it does not compile). */
  function ClassStringOf(t: Resolver.Tables, src: string): string {
    var c := Resolver.Compile(src, t);
    if c.Ok? then c.value.classString else ""
  }

  /** `template.styles` of the last DSL text: the element's style object. */
  function StylesOf(t: Resolver.Tables, srcs: seq<string>): Option<string> {
    if srcs == [] then None
    else
      var c := Resolver.Compile(srcs[|srcs| - 1], t);
      if c.Ok? then c.value.styles else None
  }

  /** What the loop leaves, read off the attributes: the passed attributes
      in order, the last `class` and `style` initializers, one new class
      node, without counter, per DSL attribute, and no style object without
      a DSL attribute. */
  predicate FoundFits(nodes: seq<ClassNode>, attrs: seq<Attr>, f: Found) {
    f.kept == KeptOf(attrs) && f.classInit == InitOr(Latest(attrs, "class")) &&
    f.styleInit == InitOr(Latest(attrs, "style")) &&
    |f.classNodes| == |nodes| + DslCount(attrs) && f.classNodes[..|nodes|] == nodes &&
    (forall i :: |nodes| <= i < |f.classNodes| ==> f.classNodes[i].index.None?) &&
    (DslCount(attrs) == 0 ==> f.styleObject.None?)
  }

  /** What the loop records for the DSL texts `srcs`: each one compiles,
      its class node (after the `nodes` of earlier elements) holds the
      compiled class string, and the style object is the last one's
      compiled styles. */
  predicate Records(t: Resolver.Tables, nodes: seq<ClassNode>, srcs: seq<string>, cs: seq<ClassNode>, styleObject: Option<string>) {
    (forall i :: 0 <= i < |srcs| ==> Resolver.Compile(srcs[i], t).Ok?) &&
    TextsAre(nodes, cs, ClassStrings(t, srcs)) &&
    styleObject == StylesOf(t, srcs)
  }

  /** The compiled class strings of the DSL texts, in order. */
  function ClassStrings(t: Resolver.Tables, srcs: seq<string>): seq<string> {
    seq(|srcs|, i requires 0 <= i < |srcs| => ClassStringOf(t, srcs[i]))
  }

  /** After the `nodes` of earlier elements, one class node per text. */
  predicate TextsAre(nodes: seq<ClassNode>, cs: seq<ClassNode>, names: seq<string>) {
    |cs| == |nodes| + |names| && forall i :: 0 <= i < |names| ==> cs[|nodes| + i].text == names[i]
  }

  predicate CompiledFits(t: Resolver.Tables, nodes: seq<ClassNode>, attrs: seq<Attr>, f: Found) {
    Records(t, nodes, DslSources(attrs), f.classNodes, f.styleObject)
  }

  lemma {:induction false} CollectCompiled(t: Resolver.Tables, nodes: seq<ClassNode>, attrs: seq<Attr>)
    requires Collect(t, nodes, attrs).Ok?
    ensures CompiledFits(t, nodes, attrs, Collect(t, nodes, attrs).value)
    decreases |attrs|
  {
    if attrs != [] {
      var init := attrs[..|attrs| - 1];
      var a := attrs[|attrs| - 1];
      CollectCompiled(t, nodes, init);
      var f0 := Collect(t, nodes, init).value;
      assert Collect(t, nodes, attrs) == Visit(t, f0, a);
      assert DslSources(attrs) == DslSources(init) + (if IsDslAttr(a) then [DslSource(a)] else []);
      VisitRecords(t, nodes, DslSources(init), f0, a);
    }
  }

  lemma VisitRecords(t: Resolver.Tables, nodes: seq<ClassNode>, srcs: seq<string>, f: Found, a: Attr)
    requires Records(t, nodes, srcs, f.classNodes, f.styleObject) && Visit(t, f, a).Ok?
    ensures Records(t, nodes, srcs + (if IsDslAttr(a) then [DslSource(a)] else []),
                    Visit(t, f, a).value.classNodes, Visit(t, f, a).value.styleObject)
  {
    if IsDslAttr(a) {
      var c := VisitDsl(t, f, a);
      RecordsSnoc(t, nodes, srcs, f.classNodes, f.styleObject, DslSource(a), c);
    } else {
      VisitOther(t, f, a);
      assert srcs + [] == srcs;
    }
  }

  /** A DSL attribute compiles its text, sets the style object and pushes a
      class node. */
  lemma VisitDsl(t: Resolver.Tables, f: Found, a: Attr) returns (c: Resolver.Compiled)
    requires IsDslAttr(a) && Visit(t, f, a).Ok?
    ensures Resolver.Compile(DslSource(a), t) == Ok(c)
    ensures Visit(t, f, a).value == f.(styleObject := c.styles, classNodes := f.classNodes + [ClassNode(None, c.classString)])
  {
    c := Resolver.Compile(DslSource(a), t).value;
  }

  lemma VisitOther(t: Resolver.Tables, f: Found, a: Attr)
    requires !IsDslAttr(a) && Visit(t, f, a).Ok?
    ensures Visit(t, f, a).value.styleObject == f.styleObject && Visit(t, f, a).value.classNodes == f.classNodes
  {
  }

  lemma RecordsSnoc(t: Resolver.Tables, nodes: seq<ClassNode>, srcs: seq<string>, cs: seq<ClassNode>,
                    styleObject: Option<string>, src: string, c: Resolver.Compiled)
    requires Records(t, nodes, srcs, cs, styleObject) && Resolver.Compile(src, t) == Ok(c)
    ensures Records(t, nodes, srcs + [src], cs + [ClassNode(None, c.classString)], c.styles)
  {
    var srcs' := srcs + [src];
    var cs' := cs + [ClassNode(None, c.classString)];
    var names := ClassStrings(t, srcs);
    assert ClassStrings(t, srcs') == names + [c.classString];
    forall i | 0 <= i < |srcs'| ensures Resolver.Compile(srcs'[i], t).Ok? {
      if i < |srcs| {
        assert srcs'[i] == srcs[i];
      }
    }
    forall i | 0 <= i < |names| + 1 ensures cs'[|nodes| + i].text == (names + [c.classString])[i] {
      if i < |names| {
        assert cs'[|nodes| + i] == cs[|nodes| + i];
      }
    }
  }

  lemma {:induction false} CollectFits(t: Resolver.Tables, nodes: seq<ClassNode>, attrs: seq<Attr>)
    requires Collect(t, nodes, attrs).Ok?
    ensures FoundFits(nodes, attrs, Collect(t, nodes, attrs).value)
    decreases |attrs|
  {
    if attrs != [] {
      var init := attrs[..|attrs| - 1];
      CollectFits(t, nodes, init);
      VisitFits(t, nodes, attrs);
    }
  }

  lemma VisitFits(t: Resolver.Tables, nodes: seq<ClassNode>, attrs: seq<Attr>)
    requires attrs != []
    requires Collect(t, nodes, attrs[..|attrs| - 1]).Ok?
    requires FoundFits(nodes, attrs[..|attrs| - 1], Collect(t, nodes, attrs[..|attrs| - 1]).value)
    requires Collect(t, nodes, attrs).Ok?
    ensures FoundFits(nodes, attrs, Collect(t, nodes, attrs).value)
  {
    var init := attrs[..|attrs| - 1];
    var a := attrs[|attrs| - 1];
    var f0 := Collect(t, nodes, init).value;
    var f := Collect(t, nodes, attrs).value;
    assert f == Visit(t, f0, a).value;
    if IsDslAttr(a) {
      assert f.classNodes == f0.classNodes + [f.classNodes[|f.classNodes| - 1]];
      assert f.classNodes[..|nodes|] == f0.classNodes[..|nodes|];
      assert !HasName(a, "class") && !HasName(a, "style") && !Passed(a);
    } else if HasName(a, "class") {
      assert !HasName(a, "style") && !Passed(a);
    } else if HasName(a, "style") {
      assert !Passed(a);
    } else {
      assert Passed(a);
    }
  }

  // ---------------------------------------------------------------------
  // Properties

  /** The invariant of the file-level variables: style node `i` holds
      counter `i`; class counters are below `classIndex` and increase along
      the list; the last class node holds the last counter. */
  predicate Consistent(n: Nodes) {
    |n.styleNodes| == n.styleIndex &&
    (forall i :: 0 <= i < |n.styleNodes| ==> n.styleNodes[i].index == i) &&
    (forall i :: 0 <= i < |n.classNodes| && n.classNodes[i].index.Some? ==>
                 0 <= n.classNodes[i].index.value < n.classIndex) &&
    (forall i, j :: 0 <= i < j < |n.classNodes| && n.classNodes[i].index.Some? && n.classNodes[j].index.Some? ==>
                    n.classNodes[i].index.value < n.classNodes[j].index.value) &&
    (n.classNodes != [] ==> n.classNodes[|n.classNodes| - 1].index == Some(n.classIndex - 1))
  }

  /** The statements after the loop, on a successful run: the counter
      attributes go after the passed attributes, the counters move on by
      one, the style object goes into a new style node, and only the last
      class node changes: it gets the counter and, when there is a class
      text, becomes `clsx(<classText>,<its text>)`. */
  predicate Finished(n: Nodes, f: Found, out: seq<Attr>, m: Nodes) {
    var styled := f.styleObject.Some?;
    out == f.kept + (if styled then [Counter("style", n.styleIndex)] else []) + [Counter("class", n.classIndex)] &&
    m.classIndex == n.classIndex + 1 &&
    m.styleIndex == (if styled then n.styleIndex + 1 else n.styleIndex) &&
    m.styleNodes == (if styled then n.styleNodes + [StyleNode(n.styleIndex, f.styleObject.value)] else n.styleNodes) &&
    |m.classNodes| == |f.classNodes| && m.classNodes != [] &&
    m.classNodes[..|m.classNodes| - 1] == f.classNodes[..|f.classNodes| - 1] &&
    m.classNodes[|m.classNodes| - 1].index == Some(n.classIndex) &&
    var classText := ClassText(f.classInit);
    var text := f.classNodes[|f.classNodes| - 1].text;
    m.classNodes[|m.classNodes| - 1].text == if classText != "" then Clsx(classText, text) else text
  }

  lemma FinishShape(n: Nodes, f: Found)
    requires Finish(n, f).Ok?
    ensures Finished(n, f, Finish(n, f).value.0, Finish(n, f).value.1)
  {
    var classText := ClassText(f.classInit);
    var wrapped := (if classText != "" then Wrap(f.classNodes, classText) else Ok(f.classNodes)).value;
    assert |wrapped| == |f.classNodes|;
    assert wrapped[..|wrapped| - 1] == f.classNodes[..|f.classNodes| - 1];
  }

  /** A rewritten element: its passed attributes in order, then
      `style="<styleIndex>"` when the last DSL text compiled to styles, then
      `class="<classIndex>"`; the counters move on by one, the new style
      node holds those styles under the style counter, and there is one new
      class node per DSL text, the last one holding the class counter. */
  predicate Rewrote(n: Nodes, t: Resolver.Tables, attrs: seq<Attr>, out: seq<Attr>, m: Nodes) {
    var srcs := DslSources(attrs);
    var styles := StylesOf(t, srcs);
    out == KeptOf(attrs) + (if styles.Some? then [Counter("style", n.styleIndex)] else []) + [Counter("class", n.classIndex)] &&
    m.classIndex == n.classIndex + 1 &&
    m.styleIndex == (if styles.Some? then n.styleIndex + 1 else n.styleIndex) &&
    m.styleNodes == (if styles.Some? then n.styleNodes + [StyleNode(n.styleIndex, styles.value)] else n.styleNodes) &&
    |m.classNodes| == |n.classNodes| + |srcs| && m.classNodes != [] &&
    m.classNodes[|m.classNodes| - 1].index == Some(n.classIndex)
  }

  /** The class nodes of a rewritten element: the nodes of earlier elements
      are untouched when it has a DSL attribute; the node of each DSL text
      holds its compiled class string, the last one wrapped as
      `clsx(<classText>,...)` when the element has a class text. Without a
      DSL text it is the previous element's last node that is wrapped. */
  predicate Recorded(n: Nodes, t: Resolver.Tables, attrs: seq<Attr>, m: Nodes) {
    var names := ClassStrings(t, DslSources(attrs));
    |m.classNodes| == |n.classNodes| + |names| && m.classNodes != [] && NodesHold(n, attrs, names, m)
  }

  predicate NodesHold(n: Nodes, attrs: seq<Attr>, names: seq<string>, m: Nodes)
    requires |m.classNodes| == |n.classNodes| + |names| && m.classNodes != []
  {
    var k := |n.classNodes|;
    (names != [] ==> m.classNodes[..k] == n.classNodes) &&
    (forall i :: 0 <= i < |names| - 1 ==> m.classNodes[k + i] == ClassNode(None, names[i])) &&
    var classText := ClassText(InitOr(Latest(attrs, "class")));
    var inner := if names != [] then names[|names| - 1] else n.classNodes[k - 1].text;
    m.classNodes[|m.classNodes| - 1].text == if classText != "" then Clsx(classText, inner) else inner
  }

  lemma StepShape(n: Nodes, t: Resolver.Tables, tag: Option<string>, attrs: seq<Attr>)
    requires Intrinsic(tag) && exists i :: 0 <= i < |attrs| && Triggers(attrs[i])
    requires Step(n, t, tag, attrs).Ok?
    ensures Rewrote(n, t, attrs, Step(n, t, tag, attrs).value.0, Step(n, t, tag, attrs).value.1)
  {
    StepOpen(n, t, tag, attrs);
    var f := Collect(t, n.classNodes, attrs).value;
    CollectFits(t, n.classNodes, attrs);
    CollectCompiled(t, n.classNodes, attrs);
    FinishShape(n, f);
    FoundShape(n, t, attrs, f, Finish(n, f).value.0, Finish(n, f).value.1);
  }

  lemma StepRecords(n: Nodes, t: Resolver.Tables, tag: Option<string>, attrs: seq<Attr>)
    requires Intrinsic(tag) && exists i :: 0 <= i < |attrs| && Triggers(attrs[i])
    requires Step(n, t, tag, attrs).Ok?
    ensures Recorded(n, t, attrs, Step(n, t, tag, attrs).value.1)
  {
    StepOpen(n, t, tag, attrs);
    var f := Collect(t, n.classNodes, attrs).value;
    CollectFits(t, n.classNodes, attrs);
    CollectCompiled(t, n.classNodes, attrs);
    FinishShape(n, f);
    FoundNodes(n, attrs, f, Finish(n, f).value.0, Finish(n, f).value.1, ClassStrings(t, DslSources(attrs)));
  }

  lemma StepOpen(n: Nodes, t: Resolver.Tables, tag: Option<string>, attrs: seq<Attr>)
    requires Intrinsic(tag) && exists i :: 0 <= i < |attrs| && Triggers(attrs[i])
    requires Step(n, t, tag, attrs).Ok?
    ensures Collect(t, n.classNodes, attrs).Ok?
    ensures Step(n, t, tag, attrs) == Finish(n, Collect(t, n.classNodes, attrs).value)
  {
  }

  lemma FoundShape(n: Nodes, t: Resolver.Tables, attrs: seq<Attr>, f: Found, out: seq<Attr>, m: Nodes)
    requires FoundFits(n.classNodes, attrs, f) && CompiledFits(t, n.classNodes, attrs, f)
    requires Finished(n, f, out, m)
    ensures Rewrote(n, t, attrs, out, m)
  {
  }

  lemma FoundNodes(n: Nodes, attrs: seq<Attr>, f: Found, out: seq<Attr>, m: Nodes, names: seq<string>)
    requires FoundFits(n.classNodes, attrs, f) && TextsAre(n.classNodes, f.classNodes, names)
    requires Finished(n, f, out, m)
    ensures |m.classNodes| == |n.classNodes| + |names| && m.classNodes != []
    ensures NodesHold(n, attrs, names, m)
  {
    LastWrapped(n.classNodes, f.classNodes, m.classNodes, names, ClassText(f.classInit));
  }

  /** The nodes after the loop (earlier nodes, then one unindexed node per
      class string), with the last one changed as `Finish` does. */
  lemma LastWrapped(ns: seq<ClassNode>, fs: seq<ClassNode>, ms: seq<ClassNode>, names: seq<string>, classText: string)
    requires |fs| == |ns| + |names| && fs[..|ns|] == ns
    requires forall i :: 0 <= i < |names| ==> fs[|ns| + i].text == names[i] && fs[|ns| + i].index.None?
    requires |ms| == |fs| && ms != [] && ms[..|ms| - 1] == fs[..|fs| - 1]
    requires ms[|ms| - 1].text == if classText != "" then Clsx(classText, fs[|fs| - 1].text) else fs[|fs| - 1].text
    ensures names != [] ==> ms[..|ns|] == ns
    ensures forall i :: 0 <= i < |names| - 1 ==> ms[|ns| + i] == ClassNode(None, names[i])
    ensures var inner := if names != [] then names[|names| - 1] else ns[|ns| - 1].text;
            ms[|ms| - 1].text == if classText != "" then Clsx(classText, inner) else inner
  {
    var k := |ns|;
    if names != [] {
      assert ms[..k] == ms[..|ms| - 1][..k];
      assert fs[..k] == fs[..|fs| - 1][..k];
      forall i | 0 <= i < |names| - 1 ensures ms[k + i] == ClassNode(None, names[i]) {
        assert ms[k + i] == ms[..|ms| - 1][k + i];
      }
    } else {
      assert fs == fs[..k];
    }
  }

  /** The element's own `style` attribute never survives the rewrite (the
      one `style` left is the counter), even when no style node replaces
      it; nor does any DSL attribute. */
  lemma StyleAttributeDropped(n: Nodes, t: Resolver.Tables, tag: Option<string>, attrs: seq<Attr>)
    requires Intrinsic(tag) && exists i :: 0 <= i < |attrs| && Triggers(attrs[i])
    requires Step(n, t, tag, attrs).Ok?
    ensures var out := Step(n, t, tag, attrs).value.0;
            forall i :: 0 <= i < |out| ==>
              !IsDslAttr(out[i]) && (HasName(out[i], "style") ==> out[i] == Counter("style", n.styleIndex))
  {
    StepShape(n, t, tag, attrs);
    KeptPassed(attrs);
    var out := Step(n, t, tag, attrs).value.0;
    var kept := KeptOf(attrs);
    forall i | 0 <= i < |out|
      ensures !IsDslAttr(out[i]) && (HasName(out[i], "style") ==> out[i] == Counter("style", n.styleIndex))
    {
      if i < |kept| {
        assert out[i] == kept[i];
      }
    }
  }

  lemma PlainNames()
    ensures !StartsWith("class", "ss") && !StartsWith("style", "ss")
    ensures !StartsWith("class", "use:ss") && !StartsWith("style", "use:ss")
  {
    assert "class"[..2][0] == 'c';
    assert "style"[..2][1] == 't';
  }

  lemma {:induction false} KeptPassed(attrs: seq<Attr>)
    ensures forall k :: 0 <= k < |KeptOf(attrs)| ==> Passed(KeptOf(attrs)[k]) && KeptOf(attrs)[k] in attrs
    decreases |attrs|
  {
    if attrs != [] {
      var init := attrs[..|attrs| - 1];
      KeptPassed(init);
      assert forall x :: x in init ==> x in attrs;
    }
  }

  /** Each step keeps the file-level variables consistent. */
  lemma StepConsistent(n: Nodes, t: Resolver.Tables, tag: Option<string>, attrs: seq<Attr>)
    requires Consistent(n) && Step(n, t, tag, attrs).Ok?
    ensures Consistent(Step(n, t, tag, attrs).value.1)
  {
    if Intrinsic(tag) && exists i :: 0 <= i < |attrs| && Triggers(attrs[i]) {
      StepOpen(n, t, tag, attrs);
      var f := Collect(t, n.classNodes, attrs).value;
      CollectFits(t, n.classNodes, attrs);
      FinishShape(n, f);
      FinishConsistent(n, f, Finish(n, f).value.1);
    }
  }

  lemma FinishConsistent(n: Nodes, f: Found, m: Nodes)
    requires Consistent(n) && Finish(n, f).Ok? && m == Finish(n, f).value.1
    requires |f.classNodes| >= |n.classNodes| && f.classNodes[..|n.classNodes|] == n.classNodes
    requires forall i :: |n.classNodes| <= i < |f.classNodes| ==> f.classNodes[i].index.None?
    ensures Consistent(m)
  {
    FinishShape(n, f);
    LastIndexed(n.classNodes, f.classNodes, m.classNodes, n.classIndex);
  }

  /** Class indices stay below the counter and increasing when the last node
      of a list that extends `cs` with unindexed nodes gets the counter. */
  lemma LastIndexed(cs: seq<ClassNode>, fs: seq<ClassNode>, ms: seq<ClassNode>, k: nat)
    requires forall i :: 0 <= i < |cs| && cs[i].index.Some? ==> 0 <= cs[i].index.value < k
    requires forall i, j :: 0 <= i < j < |cs| && cs[i].index.Some? && cs[j].index.Some? ==>
                            cs[i].index.value < cs[j].index.value
    requires |fs| >= |cs| && fs[..|cs|] == cs
    requires forall i :: |cs| <= i < |fs| ==> fs[i].index.None?
    requires |ms| == |fs| && ms != [] && ms[..|ms| - 1] == fs[..|fs| - 1] && ms[|ms| - 1].index == Some(k)
    ensures forall i :: 0 <= i < |ms| && ms[i].index.Some? ==> 0 <= ms[i].index.value < k + 1
    ensures forall i, j :: 0 <= i < j < |ms| && ms[i].index.Some? && ms[j].index.Some? ==>
                           ms[i].index.value < ms[j].index.value
  {
    var last := |ms| - 1;
    forall i | 0 <= i < last
      ensures ms[i].index.Some? ==> i < |cs| && ms[i] == cs[i]
    {
      assert ms[i] == ms[..last][i] == fs[..last][i] == fs[i];
      if i < |cs| {
        assert fs[i] == fs[..|cs|][i];
      }
    }
  }

  /** The file-level variables stay consistent over a whole file. */
  lemma {:induction false} RunAllConsistent(t: Resolver.Tables, es: seq<Element>)
    requires RunAll(t, es).Ok?
    ensures Consistent(RunAll(t, es).value.1)
    decreases |es|
  {
    if es != [] {
      var init := es[..|es| - 1];
      var e := es[|es| - 1];
      RunAllConsistent(t, init);
      StepConsistent(RunAll(t, init).value.1, t, e.tag, e.attrs);
    }
  }

  /** The assignments after the transform change nothing: the last nodes
      already hold the last counters. */
  lemma FixUpKeeps(n: Nodes)
    requires Consistent(n) && n.classNodes != []
    ensures FixUp(n) == n
  {
    var cs := n.classNodes;
    assert cs[..|cs| - 1] + [cs[|cs| - 1]] == cs;
    if n.styleNodes != [] {
      var ss := n.styleNodes;
      assert ss[..|ss| - 1] + [ss[|ss| - 1]] == ss;
    }
  }

  /** `processFile` up to the second pass: it fails with the first element
      that fails; otherwise it gives the source unchanged when no element
      was rewritten, and else the rewritten elements with consistent node
      lists. */
  lemma ProcessResult(src: string, es: seq<Element>, t: Resolver.Tables)
    ensures RunAll(t, es).Err? ==> Process(src, es, t) == Err(RunAll(t, es).error)
    ensures RunAll(t, es).Ok? ==>
            var (outs, n) := RunAll(t, es).value;
            Consistent(n) &&
            Process(src, es, t) == if n.classNodes == [] then Ok(Unchanged(Prepare(src)))
                                   else Ok(Transformed(outs, n.classNodes, n.styleNodes))
  {
    if RunAll(t, es).Ok? {
      RunAllConsistent(t, es);
      var n := RunAll(t, es).value.1;
      if n.classNodes != [] {
        FixUpKeeps(n);
      }
    }
  }

  /** Elements the transform leaves alone. */
  predicate Idle(e: Element) {
    !Intrinsic(e.tag) || forall i :: 0 <= i < |e.attrs| ==> !Triggers(e.attrs[i])
  }

  lemma {:induction false} RunAllIdle(t: Resolver.Tables, es: seq<Element>)
    requires forall i :: 0 <= i < |es| ==> Idle(es[i])
    ensures RunAll(t, es).Ok? && RunAll(t, es).value.1 == NoNodes
    ensures |RunAll(t, es).value.0| == |es|
    ensures forall i :: 0 <= i < |es| ==> RunAll(t, es).value.0[i] == es[i].attrs
    decreases |es|
  {
    if es != [] {
      var init := es[..|es| - 1];
      assert forall i :: 0 <= i < |init| ==> init[i] == es[i];
      RunAllIdle(t, init);
      var e := es[|es| - 1];
      assert Idle(e);
      assert Step(NoNodes, t, e.tag, e.attrs) == Ok((e.attrs, NoNodes));
    }
  }

  /** A file without any DSL trigger on a lower-case element comes back as
      its prepared source. */
  lemma IdleFileUnchanged(src: string, es: seq<Element>, t: Resolver.Tables)
    requires forall i :: 0 <= i < |es| ==> Idle(es[i])
    ensures Process(src, es, t) == Ok(Unchanged(Prepare(src)))
  {
    RunAllIdle(t, es);
  }

  /** Rewriting a rewritten element again changes nothing, provided the
      only trigger names it had were exactly `ss` and `use:ss` (a passed
      `ssFoo` attribute would trigger the rewrite again). */
  lemma RewriteTwice(n: Nodes, t: Resolver.Tables, tag: Option<string>, attrs: seq<Attr>)
    requires Intrinsic(tag) && exists i :: 0 <= i < |attrs| && Triggers(attrs[i])
    requires forall i :: 0 <= i < |attrs| && Triggers(attrs[i]) ==> IsDslAttr(attrs[i])
    requires Step(n, t, tag, attrs).Ok?
    ensures var (out, m) := Step(n, t, tag, attrs).value;
            Step(m, t, tag, out) == Ok((out, m))
  {
    StepShape(n, t, tag, attrs);
    KeptPassed(attrs);
    PlainNames();
    var (out, m) := Step(n, t, tag, attrs).value;
    var kept := KeptOf(attrs);
    forall i | 0 <= i < |out| ensures !Triggers(out[i]) {
      if i < |kept| {
        assert out[i] == kept[i];
        assert kept[i] in attrs;
        assert Passed(kept[i]);
      }
    }
  }

  /** Two DSL attributes on one element: the first one's class node never
      gets a counter, so no `class` attribute will ever refer to it. */
  lemma SecondDslOrphansFirst(n: Nodes, t: Resolver.Tables, tag: Option<string>, attrs: seq<Attr>)
    requires Intrinsic(tag) && exists i :: 0 <= i < |attrs| && Triggers(attrs[i])
    requires Step(n, t, tag, attrs).Ok? && DslCount(attrs) >= 2
    ensures var m := Step(n, t, tag, attrs).value.1;
            |n.classNodes| < |m.classNodes| - 1 && m.classNodes[|n.classNodes|].index.None?
  {
    StepOpen(n, t, tag, attrs);
    var f := Collect(t, n.classNodes, attrs).value;
    CollectFits(t, n.classNodes, attrs);
    FinishShape(n, f);
    var m := Finish(n, f).value.1;
    var k := |n.classNodes|;
    assert m.classNodes[k] == m.classNodes[..|m.classNodes| - 1][k] == f.classNodes[..|f.classNodes| - 1][k];
  }

  /** An element that triggers the rewrite through another `ss...` name but
      has no DSL attribute takes over the previous element's class node:
      that node gets the new counter, orphaning the earlier `class`
      attribute. With no earlier node the transform throws. */
  lemma TriggerWithoutDsl(n: Nodes, t: Resolver.Tables, tag: Option<string>, attrs: seq<Attr>)
    requires Intrinsic(tag) && exists i :: 0 <= i < |attrs| && Triggers(attrs[i])
    requires DslCount(attrs) == 0
    ensures n.classNodes == [] ==> Step(n, t, tag, attrs) == Err(TypeError)
    ensures Step(n, t, tag, attrs).Ok? ==>
            var m := Step(n, t, tag, attrs).value.1;
            |m.classNodes| == |n.classNodes| > 0 &&
            m.classNodes[..|n.classNodes| - 1] == n.classNodes[..|n.classNodes| - 1] &&
            m.classNodes[|n.classNodes| - 1].index == Some(n.classIndex)
  {
    CollectIdle(t, n.classNodes, attrs);
    var f := Collect(t, n.classNodes, attrs).value;
    CollectFits(t, n.classNodes, attrs);
    assert f.classNodes == n.classNodes;
    StyleTextErrors(f.styleInit);
    if Step(n, t, tag, attrs).Ok? {
      StepOpen(n, t, tag, attrs);
      FinishShape(n, f);
    }
  }

  /** Without DSL attributes the attribute loop cannot fail. */
  lemma {:induction false} CollectIdle(t: Resolver.Tables, nodes: seq<ClassNode>, attrs: seq<Attr>)
    requires DslCount(attrs) == 0
    ensures Collect(t, nodes, attrs).Ok?
    decreases |attrs|
  {
    if attrs != [] {
      CollectIdle(t, nodes, attrs[..|attrs| - 1]);
    }
  }

  /** `styleText` only ever throws a TypeError. */
  lemma StyleTextErrors(init: Init)
    ensures StyleText(init).Err? ==> StyleText(init) == Err(TypeError)
  {
    if init.StringValue? {
      StyleString.StyleObjectErrors(Print(init.lit));
    }
  }

  /** A DSL that yields styles on an element that also has a `style`
      attribute is rejected, when that attribute is a string literal that
      converts to a style object or a non-empty `style={...}` expression; a
      string literal that does not convert throws a TypeError first. An
      empty or missing style lets the rewrite go on. */
  lemma MixedStyleRejected(n: Nodes, t: Resolver.Tables, tag: Option<string>, attrs: seq<Attr>)
    requires Intrinsic(tag) && exists i :: 0 <= i < |attrs| && Triggers(attrs[i])
    requires Collect(t, n.classNodes, attrs).Ok? && StylesOf(t, DslSources(attrs)).Some?
    ensures var style := InitOr(Latest(attrs, "style"));
            match style
            case StringValue(l) =>
              Step(n, t, tag, attrs) == if StyleString.StyleObject(Print(l)).Ok? then Err(MixedStyle) else Err(TypeError)
            case ExprValue(e) => Step(n, t, tag, attrs) == Err(MixedStyle) <==> e.Some? && Print(e.value) != ""
            case NoValue => Step(n, t, tag, attrs) != Err(MixedStyle)
  {
    CollectFits(t, n.classNodes, attrs);
    CollectCompiled(t, n.classNodes, attrs);
    var style := InitOr(Latest(attrs, "style"));
    if style.StringValue? {
      StyleString.StyleObjectErrors(Print(style.lit));
    }
  }
}
