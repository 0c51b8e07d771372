/** The marker-prefix rewrite of a JSX element's attributes: index.ts and its
    compiled form index.js. `$name` and `$name={test}` become parts of a
    `class` template literal, `$$name={value}` becomes a field of a `style`
    object; an existing `class` or `style` is merged in. The two files differ
    in how they read attribute names: the TypeScript reads
    `name.escapedText` unguarded and throws on a spread or namespaced
    attribute, the compiled file guards the read and passes such attributes
    through. */
module MarkerRewriter {
  import opened Strings
  import opened Outcomes
  import opened Jsx
  import opened CaseNames

  datatype Variant = Source | Compiled

  /** `$name` (always on) or `$name={test}`; a string-literal initializer has
      no expression, so its test is missing. */
  datatype Toggle = Always | When(test: Option<Expr>)

  datatype ClassMark = ClassMark(name: string, toggle: Toggle)
  datatype StyleMark = StyleMark(name: string, value: Option<Expr>)

  /** The loop's variables: `foundProps`, `classAttribute` (NoValue for
      null), `styleAttribute` (its initializer), `addClasses`, `addStyle`. */
  datatype Scan = Scan(kept: seq<Attr>, classInit: Init, style: Option<Init>,
                       classes: seq<ClassMark>, styles: seq<StyleMark>)

  const Empty := Scan([], NoValue, None, [], [])

  predicate Marker(a: Attr) {
    a.NamedAttr? && a.name.Some? && StartsWith(a.name.value, "$")
  }

  /** A spread attribute, or one whose name has no `escapedText`. */
  predicate Unnamed(a: Attr) {
    a.SpreadAttr? || a.name.None?
  }

  /** One test of `properties.some(...)`: whether the name starts with `$`. */
  function Probe(v: Variant, a: Attr): Result<bool> {
    if v == Source && Unnamed(a) then Err(TypeError) else Ok(Marker(a))
  }

  /** `properties.some(...)`: stops at the first marker. */
  function Gate(v: Variant, attrs: seq<Attr>): Result<bool>
    decreases |attrs|
  {
    if attrs == [] then Ok(false)
    else
      var hit :- Probe(v, attrs[0]);
      if hit then Ok(true) else Gate(v, attrs[1..])
  }

  /** The expression of an initializer; a string literal has none. */
  function ExprOf(init: Init): Option<Expr> {
    if init.ExprValue? then init.expr else None
  }

  /** One turn of the `for (const property of properties)` loop. */
  function Visit(v: Variant, s: Scan, a: Attr): Result<Scan> {
    match a
    case SpreadAttr(_) => Ok(s.(kept := s.kept + [a]))
    case NamedAttr(None, _) =>
      if v == Source then Err(TypeError) else Ok(s.(kept := s.kept + [a]))
    case NamedAttr(Some(n), init) =>
      if StartsWith(n, "$$") then
        if init.NoValue? then Err(TypeError)
        else Ok(s.(styles := s.styles + [StyleMark(ReplaceFirst(n, "$$", ""), ExprOf(init))]))
      else if StartsWith(n, "$") then
        var toggle := if init.NoValue? then Always else When(ExprOf(init));
        Ok(s.(classes := s.classes + [ClassMark(ReplaceFirst(n, "$", ""), toggle)]))
      else if n == "class" then Ok(s.(classInit := init))
      else if n == "style" then Ok(s.(style := Some(init)))
      else Ok(s.(kept := s.kept + [a]))
  }

  /** The loop's state after the attributes `attrs`. */
  function Collect(v: Variant, attrs: seq<Attr>): Result<Scan>
    decreases |attrs|
  {
    if attrs == [] then Ok(Empty)
    else
      var s :- Collect(v, attrs[..|attrs| - 1]);
      Visit(v, s, attrs[|attrs| - 1])
  }

  /** The literal after the `i`-th of `n` class spans. */
  function Separator(i: nat, n: nat): Literal {
    if i == n - 1 then Tail("") else Middle(" ")
  }

  function ClassTerm(c: ClassMark): Expr
    requires c.toggle != When(None)
  {
    match c.toggle
    case Always => Lit(c.name)
    case When(t) => Cond(t.value, Lit(c.name), Lit(""))
  }

  /** `addClasses.map(...)`: a conditional needs a test expression, and the
      factory throws on a missing one. */
  function ClassSpans(cs: seq<ClassMark>): Result<seq<Span>> {
    if exists i :: 0 <= i < |cs| && cs[i].toggle == When(None) then Err(TypeError)
    else Ok(seq(|cs|, i requires 0 <= i < |cs| && cs[i].toggle != When(None) => Span(ClassTerm(cs[i]), Separator(i, |cs|))))
  }

  /** The span for an existing `class`, put in front of the others. An empty
      JSX expression gives a span without expression, printed as nothing. */
  function Leading(init: Init, lit: Literal): seq<Span> {
    match init
    case NoValue => []
    case StringValue(l) => [Span(l, lit)]
    case ExprValue(e) => [Span(if e.Some? then e.value else Code(""), lit)]
  }

  /** The new `class` attribute, when there are `$` marks. The literal after
      the existing class is the one chosen for index 0 of the marks. */
  function ClassAttr(s: Scan): Result<Option<Attr>> {
    if s.classes == [] then Ok(None)
    else
      var spans :- ClassSpans(s.classes);
      var lead := Leading(s.classInit, Separator(0, |s.classes|));
      Ok(Some(Named("class", ExprValue(Some(Template(lead + spans))))))
  }

  /** The `hyphenate(name): value` assignments; a missing value makes the
      factory throw. */
  function Assigns(ss: seq<StyleMark>): Result<seq<Prop>> {
    if exists i :: 0 <= i < |ss| && ss[i].value.None? then Err(TypeError)
    else Ok(seq(|ss|, i requires 0 <= i < |ss| && ss[i].value.Some? => Assign(Hyphenate(ss[i].name), ss[i].value.value)))
  }

  /** The `style` attribute of the result: the existing one unchanged when
      there are no `$$` marks, else an object of the fields, after a spread
      of the existing style expression. */
  function StyleAttr(s: Scan): Result<Option<Attr>> {
    if s.styles == [] then
      Ok(if s.style.Some? then Some(Named("style", s.style.value)) else None)
    else
      var assigns :- Assigns(s.styles);
      match s.style
      case None => Ok(Some(Named("style", ExprValue(Some(Object(assigns))))))
      case Some(NoValue) => Err(TypeError)
      case Some(StringValue(_)) => Err(StyleStringAndFields)
      case Some(ExprValue(e)) => Ok(Some(Named("style", ExprValue(Some(Object([SpreadOf(ExprValue(e))] + assigns))))))
  }

  function Listed(o: Option<Attr>): seq<Attr> {
    if o.Some? then [o.value] else []
  }

  /** The transform callback on one `JsxAttributes` node. */
  function Rewritten(v: Variant, attrs: seq<Attr>): Result<seq<Attr>> {
    var open :- Gate(v, attrs);
    if !open then Ok(attrs)
    else
      var s :- Collect(v, attrs);
      var cls :- ClassAttr(s);
      var sty :- StyleAttr(s);
      Ok(s.kept + Listed(cls) + Listed(sty))
  }

  // ---------------------------------------------------------------------
  // The callback, statement by statement

  method Opens(v: Variant, attrs: seq<Attr>) returns (r: Result<bool>)
    ensures r == Gate(v, attrs)
  {
    for i := 0 to |attrs|
      invariant Gate(v, attrs) == Gate(v, attrs[i..])
    {
      assert attrs[i..][1..] == attrs[i + 1..];
      if v == Source && Unnamed(attrs[i]) {
        return Err(TypeError);
      }
      if Marker(attrs[i]) {
        return Ok(true);
      }
    }
    return Ok(false);
  }

  method ScanAttributes(v: Variant, attrs: seq<Attr>) returns (r: Result<Scan>)
    ensures r == Collect(v, attrs)
  {
    var foundProps: seq<Attr> := [];
    var classAttribute: Init := NoValue;
    var styleAttribute: Option<Init> := None;
    var addClasses: seq<ClassMark> := [];
    var addStyle: seq<StyleMark> := [];
    for i := 0 to |attrs|
      invariant Collect(v, attrs[..i]) == Ok(Scan(foundProps, classAttribute, styleAttribute, addClasses, addStyle))
    {
      assert attrs[..i + 1][..i] == attrs[..i];
      var property := attrs[i];
      if property.SpreadAttr? {
        foundProps := foundProps + [property];
        continue;
      }
      if property.name.None? {
        if v == Source {
          CollectStop(v, attrs, i + 1);
          return Err(TypeError);
        }
        foundProps := foundProps + [property];
        continue;
      }
      var name := property.name.value;
      if StartsWith(name, "$$") {
        if property.init.NoValue? {
          CollectStop(v, attrs, i + 1);
          return Err(TypeError);
        }
        addStyle := addStyle + [StyleMark(ReplaceFirst(name, "$$", ""), ExprOf(property.init))];
      } else if StartsWith(name, "$") {
        var toggle := if property.init.NoValue? then Always else When(ExprOf(property.init));
        addClasses := addClasses + [ClassMark(ReplaceFirst(name, "$", ""), toggle)];
      } else if name == "class" {
        classAttribute := property.init;
      } else if name == "style" {
        styleAttribute := Some(property.init);
      } else {
        foundProps := foundProps + [property];
      }
    }
    assert attrs[..|attrs|] == attrs;
    return Ok(Scan(foundProps, classAttribute, styleAttribute, addClasses, addStyle));
  }

  method BuildClass(s: Scan) returns (r: Result<Option<Attr>>)
    ensures r == ClassAttr(s)
  {
    if |s.classes| == 0 {
      return Ok(None);
    }
    var n := |s.classes|;
    var templateSpans: seq<Span> := [];
    for i := 0 to n
      invariant |templateSpans| == i
      invariant forall k :: 0 <= k < i ==> s.classes[k].toggle != When(None)
      invariant forall k :: 0 <= k < i ==> templateSpans[k] == Span(ClassTerm(s.classes[k]), Separator(k, n))
    {
      var e := s.classes[i];
      var lit := if i == n - 1 then Tail("") else Middle(" ");
      match e.toggle {
        case Always =>
          templateSpans := templateSpans + [Span(Lit(e.name), lit)];
        case When(test) =>
          if test.None? {
            return Err(TypeError);
          }
          templateSpans := templateSpans + [Span(Cond(test.value, Lit(e.name), Lit("")), lit)];
      }
    }
    var spans := ClassSpans(s.classes);
    assert spans.Ok? && spans.value == templateSpans;
    var lead := if 0 == n - 1 then Tail("") else Middle(" ");
    templateSpans := Leading(s.classInit, lead) + templateSpans;
    return Ok(Some(Named("class", ExprValue(Some(Template(templateSpans))))));
  }

  method BuildStyle(s: Scan) returns (r: Result<Option<Attr>>)
    ensures r == StyleAttr(s)
  {
    if |s.styles| == 0 {
      return Ok(if s.style.Some? then Some(Named("style", s.style.value)) else None);
    }
    var assigns: seq<Prop> := [];
    for i := 0 to |s.styles|
      invariant |assigns| == i
      invariant forall k :: 0 <= k < i ==> s.styles[k].value.Some?
      invariant forall k :: 0 <= k < i ==> assigns[k] == Assign(Hyphenate(s.styles[k].name), s.styles[k].value.value)
    {
      var element := s.styles[i];
      if element.value.None? {
        return Err(TypeError);
      }
      assigns := assigns + [Assign(Hyphenate(element.name), element.value.value)];
    }
    var expected := Assigns(s.styles);
    assert expected.Ok?;
    assert expected.value == assigns;
    match s.style {
      case None =>
        return Ok(Some(Named("style", ExprValue(Some(Object(assigns))))));
      case Some(init) =>
        if init.NoValue? {
          return Err(TypeError);
        }
        if init.StringValue? {
          return Err(StyleStringAndFields);
        }
        return Ok(Some(Named("style", ExprValue(Some(Object([SpreadOf(init)] + assigns))))));
    }
  }

  method RewriteAttributes(v: Variant, attrs: seq<Attr>) returns (r: Result<seq<Attr>>)
    ensures r == Rewritten(v, attrs)
  {
    var open := Opens(v, attrs);
    if open.Err? {
      return Err(open.error);
    }
    if !open.value {
      return Ok(attrs);
    }
    var s := ScanAttributes(v, attrs);
    if s.Err? {
      return Err(s.error);
    }
    var cls := BuildClass(s.value);
    if cls.Err? {
      return Err(cls.error);
    }
    var sty := BuildStyle(s.value);
    if sty.Err? {
      return Err(sty.error);
    }
    return Ok(s.value.kept + Listed(cls.value) + Listed(sty.value));
  }

  /** Once the loop throws, the callback throws with it. */
  lemma {:induction false} CollectStop(v: Variant, attrs: seq<Attr>, k: nat)
    requires k <= |attrs| && Collect(v, attrs[..k]).Err?
    ensures Collect(v, attrs) == Collect(v, attrs[..k])
    decreases |attrs| - k
  {
    if k < |attrs| {
      assert attrs[..k + 1][..k] == attrs[..k];
      CollectStop(v, attrs, k + 1);
    } else {
      assert attrs[..k] == attrs;
    }
  }

  // ---------------------------------------------------------------------
  // Reference definitions, one per loop variable

  /** Attributes the loop passes through: not a marker, not `class`, not `style`. */
  predicate Ordinary(a: Attr) {
    !Marker(a) && !HasName(a, "class") && !HasName(a, "style")
  }

  predicate IsStyleMark(a: Attr) {
    Marker(a) && StartsWith(a.name.value, "$$")
  }

  predicate IsClassMark(a: Attr) {
    Marker(a) && !StartsWith(a.name.value, "$$")
  }

  /** The attributes the callback throws on inside the loop. */
  predicate Rejected(v: Variant, a: Attr) {
    (v == Source && a.NamedAttr? && a.name.None?) || (IsStyleMark(a) && a.init.NoValue?)
  }

  function OrdinaryOf(attrs: seq<Attr>): seq<Attr>
    decreases |attrs|
  {
    if attrs == [] then []
    else
      var a := attrs[|attrs| - 1];
      OrdinaryOf(attrs[..|attrs| - 1]) + (if Ordinary(a) then [a] else [])
  }

  function ClassMarks(attrs: seq<Attr>): seq<ClassMark>
    decreases |attrs|
  {
    if attrs == [] then []
    else
      var a := attrs[|attrs| - 1];
      ClassMarks(attrs[..|attrs| - 1])
        + (if IsClassMark(a) then [ClassMark(a.name.value[1..], if a.init.NoValue? then Always else When(ExprOf(a.init)))]
           else [])
  }

  function StyleMarks(attrs: seq<Attr>): seq<StyleMark>
    decreases |attrs|
  {
    if attrs == [] then []
    else
      var a := attrs[|attrs| - 1];
      StyleMarks(attrs[..|attrs| - 1]) + (if IsStyleMark(a) then [StyleMark(a.name.value[2..], ExprOf(a.init))] else [])
  }

  // ---------------------------------------------------------------------
  // Properties

  predicate NoMarkerBefore(attrs: seq<Attr>, i: nat)
    requires i <= |attrs|
  {
    forall j :: 0 <= j < i ==> !Marker(attrs[j])
  }

  /** The gate opens exactly when some attribute name starts with `$`. The
      compiled file never throws; the TypeScript throws, with a TypeError,
      exactly when a spread or namespaced attribute comes before every
      marker. */
  lemma {:induction false} GateFinds(v: Variant, attrs: seq<Attr>)
    ensures Gate(v, attrs).Ok? ==> (Gate(v, attrs).value <==> exists i :: 0 <= i < |attrs| && Marker(attrs[i]))
    ensures Gate(v, attrs).Err? <==>
            v == Source && exists i :: 0 <= i < |attrs| && Unnamed(attrs[i]) && NoMarkerBefore(attrs, i)
    ensures Gate(v, attrs).Err? ==> Gate(v, attrs) == Err(TypeError)
    decreases |attrs|
  {
    if attrs != [] {
      var rest := attrs[1..];
      GateFinds(v, rest);
      assert forall i :: 0 <= i < |rest| ==> rest[i] == attrs[i + 1];
      if v == Source && Unnamed(attrs[0]) {
        assert NoMarkerBefore(attrs, 0);
      } else if !Marker(attrs[0]) {
        forall i | 0 <= i < |rest| ensures NoMarkerBefore(rest, i) <==> NoMarkerBefore(attrs, i + 1) {
          if NoMarkerBefore(rest, i) {
            forall j | 0 <= j < i + 1 ensures !Marker(attrs[j]) {
              if j > 0 { assert attrs[j] == rest[j - 1]; }
            }
          }
        }
        if exists i :: 0 <= i < |attrs| && Unnamed(attrs[i]) && NoMarkerBefore(attrs, i) {
          var i :| 0 <= i < |attrs| && Unnamed(attrs[i]) && NoMarkerBefore(attrs, i);
          if i > 0 {
            assert Unnamed(rest[i - 1]) && NoMarkerBefore(rest, i - 1);
          }
        }
      } else {
        forall i | 0 <= i < |attrs| && NoMarkerBefore(attrs, i) ensures i == 0 {
        }
      }
    }
  }

  /** The loop state the reference definitions give. */
  function Refs(attrs: seq<Attr>): Scan {
    Scan(OrdinaryOf(attrs), InitOr(Latest(attrs, "class")), Latest(attrs, "style"), ClassMarks(attrs), StyleMarks(attrs))
  }

  /** The loop, in the terms of the attributes: it throws a TypeError at a
      namespaced attribute (TypeScript only) or a `$$` attribute without
      initializer; otherwise it keeps the ordinary attributes in order, the
      last `class` and `style` initializers, and the `$` and `$$` marks in
      order with their prefix cut off. */
  lemma {:induction false} CollectFields(v: Variant, attrs: seq<Attr>)
    ensures Collect(v, attrs) ==
            if exists i :: 0 <= i < |attrs| && Rejected(v, attrs[i]) then Err(TypeError) else Ok(Refs(attrs))
    decreases |attrs|
  {
    if attrs != [] {
      var init := attrs[..|attrs| - 1];
      var a := attrs[|attrs| - 1];
      CollectFields(v, init);
      assert forall i :: 0 <= i < |init| ==> init[i] == attrs[i];
      assert (exists i :: 0 <= i < |attrs| && Rejected(v, attrs[i]))
             <==> (exists i :: 0 <= i < |init| && Rejected(v, init[i])) || Rejected(v, a);
      if Collect(v, init).Ok? && !Rejected(v, a) {
        VisitRefs(v, attrs);
      }
    }
  }

  /** One turn of the loop moves the reference state one attribute on. */
  lemma VisitRefs(v: Variant, attrs: seq<Attr>)
    requires attrs != [] && !Rejected(v, attrs[|attrs| - 1])
    ensures Visit(v, Refs(attrs[..|attrs| - 1]), attrs[|attrs| - 1]) == Ok(Refs(attrs))
  {
    var a := attrs[|attrs| - 1];
    PlainNames();
    if a.NamedAttr? && a.name.Some? && StartsWith(a.name.value, "$$") {
      VisitStyleMark(v, attrs);
    } else if a.NamedAttr? && a.name.Some? && StartsWith(a.name.value, "$") {
      VisitClassMark(v, attrs);
    } else {
      VisitPlain(v, attrs);
    }
  }

  lemma VisitPlain(v: Variant, attrs: seq<Attr>)
    requires attrs != [] && !Rejected(v, attrs[|attrs| - 1]) && !Marker(attrs[|attrs| - 1])
    ensures Visit(v, Refs(attrs[..|attrs| - 1]), attrs[|attrs| - 1]) == Ok(Refs(attrs))
  {
    var init := attrs[..|attrs| - 1];
    var a := attrs[|attrs| - 1];
    assert !IsClassMark(a) && !IsStyleMark(a);
    assert ClassMarks(attrs) == ClassMarks(init);
    assert StyleMarks(attrs) == StyleMarks(init);
    if HasName(a, "class") {
      VisitClassAttr(v, attrs);
    } else if HasName(a, "style") {
      VisitStyleAttr(v, attrs);
    } else {
      VisitOrdinary(v, attrs);
    }
  }

  lemma VisitClassAttr(v: Variant, attrs: seq<Attr>)
    requires attrs != [] && HasName(attrs[|attrs| - 1], "class")
    requires ClassMarks(attrs) == ClassMarks(attrs[..|attrs| - 1]) && StyleMarks(attrs) == StyleMarks(attrs[..|attrs| - 1])
    ensures Visit(v, Refs(attrs[..|attrs| - 1]), attrs[|attrs| - 1]) == Ok(Refs(attrs))
  {
    var init := attrs[..|attrs| - 1];
    var a := attrs[|attrs| - 1];
    PlainNames();
    assert Visit(v, Refs(init), a) == Ok(Refs(init).(classInit := a.init));
    assert Latest(attrs, "style") == Latest(init, "style");
    assert OrdinaryOf(attrs) == OrdinaryOf(init);
  }

  lemma VisitStyleAttr(v: Variant, attrs: seq<Attr>)
    requires attrs != [] && HasName(attrs[|attrs| - 1], "style")
    requires ClassMarks(attrs) == ClassMarks(attrs[..|attrs| - 1]) && StyleMarks(attrs) == StyleMarks(attrs[..|attrs| - 1])
    ensures Visit(v, Refs(attrs[..|attrs| - 1]), attrs[|attrs| - 1]) == Ok(Refs(attrs))
  {
    var init := attrs[..|attrs| - 1];
    var a := attrs[|attrs| - 1];
    PlainNames();
    assert Visit(v, Refs(init), a) == Ok(Refs(init).(style := Some(a.init)));
    assert Latest(attrs, "class") == Latest(init, "class");
    assert OrdinaryOf(attrs) == OrdinaryOf(init);
  }

  /** A `$$` name is also a `$` name. */
  lemma DoubleDollar(n: string)
    ensures StartsWith(n, "$$") ==> StartsWith(n, "$")
  {
    if |n| >= 2 {
      assert n[..1] == n[..2][..1];
    }
  }

  lemma VisitOrdinary(v: Variant, attrs: seq<Attr>)
    requires attrs != [] && !Rejected(v, attrs[|attrs| - 1]) && Ordinary(attrs[|attrs| - 1])
    requires ClassMarks(attrs) == ClassMarks(attrs[..|attrs| - 1]) && StyleMarks(attrs) == StyleMarks(attrs[..|attrs| - 1])
    ensures Visit(v, Refs(attrs[..|attrs| - 1]), attrs[|attrs| - 1]) == Ok(Refs(attrs))
  {
    var init := attrs[..|attrs| - 1];
    var a := attrs[|attrs| - 1];
    var st := Refs(init);
    if a.NamedAttr? && a.name.Some? {
      var n := a.name.value;
      DoubleDollar(n);
      assert !StartsWith(n, "$$") && !StartsWith(n, "$") && n != "class" && n != "style";
    }
    assert Visit(v, st, a) == Ok(st.(kept := st.kept + [a]));
    assert Latest(attrs, "style") == Latest(init, "style");
    assert Latest(attrs, "class") == Latest(init, "class");
    assert OrdinaryOf(attrs) == OrdinaryOf(init) + [a];
  }

  lemma VisitStyleMark(v: Variant, attrs: seq<Attr>)
    requires attrs != [] && !Rejected(v, attrs[|attrs| - 1])
    requires var a := attrs[|attrs| - 1]; a.NamedAttr? && a.name.Some? && StartsWith(a.name.value, "$$")
    ensures Visit(v, Refs(attrs[..|attrs| - 1]), attrs[|attrs| - 1]) == Ok(Refs(attrs))
  {
    var init := attrs[..|attrs| - 1];
    var a := attrs[|attrs| - 1];
    var n := a.name.value;
    PlainNames();
    assert n[..1] == n[..2][..1];
    ReplaceFirstPrefix(n, "$$", "");
    assert ReplaceFirst(n, "$$", "") == n[2..];
    assert IsStyleMark(a) && !IsClassMark(a) && !Ordinary(a) && !HasName(a, "class") && !HasName(a, "style");
    var st := Refs(init);
    assert !a.init.NoValue?;
    assert a == NamedAttr(Some(n), a.init);
    assert Visit(v, st, a) == Ok(st.(styles := st.styles + [StyleMark(n[2..], ExprOf(a.init))]));
    assert StyleMarks(attrs) == StyleMarks(init) + [StyleMark(n[2..], ExprOf(a.init))];
    assert ClassMarks(attrs) == ClassMarks(init);
    assert OrdinaryOf(attrs) == OrdinaryOf(init);
    assert Latest(attrs, "class") == Latest(init, "class");
    assert Latest(attrs, "style") == Latest(init, "style");
  }

  lemma VisitClassMark(v: Variant, attrs: seq<Attr>)
    requires attrs != []
    requires var a := attrs[|attrs| - 1];
             a.NamedAttr? && a.name.Some? && StartsWith(a.name.value, "$") && !StartsWith(a.name.value, "$$")
    ensures Visit(v, Refs(attrs[..|attrs| - 1]), attrs[|attrs| - 1]) == Ok(Refs(attrs))
  {
    var a := attrs[|attrs| - 1];
    var n := a.name.value;
    PlainNames();
    ReplaceFirstPrefix(n, "$", "");
    assert ReplaceFirst(n, "$", "") == n[1..];
    assert IsClassMark(a) && !IsStyleMark(a) && !Ordinary(a) && !HasName(a, "class") && !HasName(a, "style");
    var init := attrs[..|attrs| - 1];
    var st := Refs(init);
    var toggle := if a.init.NoValue? then Always else When(ExprOf(a.init));
    assert a == NamedAttr(Some(n), a.init);
    assert Visit(v, st, a) == Ok(st.(classes := st.classes + [ClassMark(n[1..], toggle)]));
    assert ClassMarks(attrs) == ClassMarks(init) + [ClassMark(n[1..], toggle)];
    assert StyleMarks(attrs) == StyleMarks(init);
    assert OrdinaryOf(attrs) == OrdinaryOf(init);
    assert Latest(attrs, "class") == Latest(init, "class");
    assert Latest(attrs, "style") == Latest(init, "style");
  }

  lemma {:induction false} OrdinaryFrom(attrs: seq<Attr>)
    ensures forall k :: 0 <= k < |OrdinaryOf(attrs)| ==> Ordinary(OrdinaryOf(attrs)[k]) && OrdinaryOf(attrs)[k] in attrs
    decreases |attrs|
  {
    if attrs != [] {
      var init := attrs[..|attrs| - 1];
      OrdinaryFrom(init);
      assert forall x :: x in init ==> x in attrs;
    }
  }

  /** `class` and `style` are not markers. */
  lemma PlainNames()
    ensures !StartsWith("class", "$") && !StartsWith("style", "$")
  {
    assert "class"[..1][0] == 'c';
    assert "style"[..1][0] == 's';
  }

  /** Without any marker the attributes come back unchanged, unless the
      TypeScript trips over a spread or namespaced one. */
  lemma NoMarkersUnchanged(v: Variant, attrs: seq<Attr>)
    requires forall i :: 0 <= i < |attrs| ==> !Marker(attrs[i])
    ensures Rewritten(v, attrs) ==
            if v == Source && exists i :: 0 <= i < |attrs| && Unnamed(attrs[i]) then Err(TypeError) else Ok(attrs)
  {
    GateFinds(v, attrs);
  }

  /** The values a class template's spans take at run time. */
  function ClassValues(cs: seq<ClassMark>, holds: string -> bool, show: string -> string): (r: seq<string>)
    ensures |r| == |cs|
  {
    seq(|cs|, i requires 0 <= i < |cs| =>
          match cs[i].toggle
          case Always => cs[i].name
          case When(t) => if t.Some? && Truthy(t.value, holds, show) then cs[i].name else "")
  }

  /** The run-time value of the existing class, with the space after it. */
  function LeadingValue(init: Init, holds: string -> bool, show: string -> string): string {
    match init
    case NoValue => ""
    case StringValue(l) => Eval(l, holds, show) + " "
    case ExprValue(e) => Eval(if e.Some? then e.value else Code(""), holds, show) + " "
  }

  /** The new class attribute is one template literal exactly when there
      are two marks or more, or no existing class; it then evaluates to the
      existing class and a space, then the names of the marks that are on,
      separated by spaces. */
  lemma ClassValue(s: Scan, holds: string -> bool, show: string -> string)
    requires s.classes != []
    requires forall i :: 0 <= i < |s.classes| ==> s.classes[i].toggle != When(None)
    ensures ClassAttr(s).Ok? && ClassAttr(s).value.Some?
    ensures var a := ClassAttr(s).value.value;
            a.name == Some("class") && a.init.ExprValue? && a.init.expr.Some? && a.init.expr.value.Template? &&
            (Closed(a.init.expr.value.spans) <==> |s.classes| >= 2 || s.classInit.NoValue?) &&
            (Closed(a.init.expr.value.spans) ==>
               Eval(a.init.expr.value, holds, show)
                 == LeadingValue(s.classInit, holds, show) + Join(ClassValues(s.classes, holds, show), " "))
  {
    var n := |s.classes|;
    var spans := ClassSpans(s.classes).value;
    var lead := Leading(s.classInit, Separator(0, n));
    var all := lead + spans;
    assert forall i :: 0 <= i < n ==> spans[i].literal == Separator(i, n);
    assert all[|all| - 1] == spans[n - 1];
    if n >= 2 || s.classInit.NoValue? {
      forall i | 0 <= i < |all| - 1 ensures all[i].literal.Middle? {
        if i < |lead| { assert all[i] == lead[0]; } else { assert all[i] == spans[i - |lead|]; }
      }
    } else {
      assert all[0] == lead[0] && lead[0].literal == Tail("");
    }
    TemplateAppend(lead, spans, holds, show);
    SpansValue(s.classes, holds, show);
    LeadValue(s.classInit, n, holds, show);
  }

  lemma SpansValue(cs: seq<ClassMark>, holds: string -> bool, show: string -> string)
    requires forall i :: 0 <= i < |cs| ==> cs[i].toggle != When(None)
    ensures ClassSpans(cs).Ok?
    ensures Eval(Template(ClassSpans(cs).value), holds, show) == Join(ClassValues(cs, holds, show), " ")
  {
    var n := |cs|;
    var spans := ClassSpans(cs).value;
    var vals := ClassValues(cs, holds, show);
    var spanParts := seq(n, i requires 0 <= i < n => Eval(spans[i].expr, holds, show) + spans[i].literal.text);
    forall i | 0 <= i < n ensures spanParts[i] == vals[i] + (if i == n - 1 then "" else " ") {
      assert spans[i] == Span(ClassTerm(cs[i]), Separator(i, n));
      match cs[i].toggle {
        case Always =>
        case When(t) =>
          assert Eval(ClassTerm(cs[i]), holds, show) == if Truthy(t.value, holds, show) then cs[i].name else "";
      }
    }
    assert spanParts == seq(n, i requires 0 <= i < n => vals[i] + (if i == n - 1 then "" else " "));
    SpacedConcat(vals);
  }

  /** The existing class's span is followed by a middle part exactly when
      there are two marks or more; it then evaluates to its value and a
      space. */
  lemma LeadValue(init: Init, count: nat, holds: string -> bool, show: string -> string)
    requires count > 0
    ensures forall sp :: sp in Leading(init, Separator(0, count)) ==> (sp.literal.Middle? <==> count >= 2)
    ensures count >= 2 || init.NoValue? ==>
              Eval(Template(Leading(init, Separator(0, count))), holds, show) == LeadingValue(init, holds, show)
  {
    var lead := Leading(init, Separator(0, count));
    if lead != [] {
      var parts := seq(|lead|, i requires 0 <= i < |lead| => Eval(lead[i].expr, holds, show) + lead[i].literal.text);
      assert parts == [Eval(lead[0].expr, holds, show) + lead[0].literal.text];
      assert Concat(parts) == parts[0] + Concat([]);
    }
  }

  /** The one-mark quirk: with exactly one mark, the existing class's span
      gets the tail too. `class="a" $b` is then printed as
      `` class={`${"a"}`"b"}`} ``, which is not one template literal. */
  lemma OneMarkUnclosed(base: string, name: string)
    ensures var s := Scan([], StringValue(Lit(base)), None, [ClassMark(name, Always)], []);
            var spans := [Span(Lit(base), Tail("")), Span(Lit(name), Tail(""))];
            ClassAttr(s) == Ok(Some(Named("class", ExprValue(Some(Template(spans)))))) &&
            !Closed(spans) &&
            PrintInit(ExprValue(Some(Template(spans)))) == "{`${\"" + base + "\"}`\"" + name + "\"}`}"
  {
    OneMarkSpans(base, name);
    OneMarkPrinted(base, name);
  }

  lemma OneMarkSpans(base: string, name: string)
    ensures ClassAttr(Scan([], StringValue(Lit(base)), None, [ClassMark(name, Always)], []))
            == Ok(Some(Named("class", ExprValue(Some(Template([Span(Lit(base), Tail("")), Span(Lit(name), Tail(""))]))))))
  {
    var s := Scan([], StringValue(Lit(base)), None, [ClassMark(name, Always)], []);
    assert ClassSpans(s.classes).value[0] == Span(Lit(name), Tail(""));
    assert ClassSpans(s.classes).value == [Span(Lit(name), Tail(""))];
    assert Leading(s.classInit, Separator(0, 1)) + [Span(Lit(name), Tail(""))]
        == [Span(Lit(base), Tail("")), Span(Lit(name), Tail(""))];
  }

  lemma OneMarkPrinted(base: string, name: string)
    ensures PrintInit(ExprValue(Some(Template([Span(Lit(base), Tail("")), Span(Lit(name), Tail(""))]))))
            == "{`${\"" + base + "\"}`\"" + name + "\"}`}"
  {
    var spans := [Span(Lit(base), Tail("")), Span(Lit(name), Tail(""))];
    var printed := seq(|spans|, i requires 0 <= i < |spans| => Print(spans[i].expr) + Close(spans[i].literal));
    assert printed[0] == "\"" + base + "\"" + "}`";
    assert printed[1] == "\"" + name + "\"" + "}`";
    assert printed[1..] == [printed[1]];
    assert Concat(printed[1..]) == printed[1] + Concat([]);
    assert Print(Template(spans)) == "`${" + Concat(printed);
  }

  /** When the style step fails, and with which error. */
  lemma StyleErrors(s: Scan)
    ensures StyleAttr(s).Err? <==>
            s.styles != [] &&
            ((exists i :: 0 <= i < |s.styles| && s.styles[i].value.None?) ||
             s.style == Some(NoValue) || (s.style.Some? && s.style.value.StringValue?))
    ensures StyleAttr(s) == Err(StyleStringAndFields) <==>
            s.styles != [] && (forall i :: 0 <= i < |s.styles| ==> s.styles[i].value.Some?) &&
            s.style.Some? && s.style.value.StringValue?
  {
  }

  /** The fields of the new style object: the `$$` marks in order, under
      their hyphenated names, which hold no capital letter unless they are
      custom properties; after a spread of the existing style expression. */
  lemma StyleFields(s: Scan)
    requires s.styles != [] && StyleAttr(s).Ok?
    ensures var a := StyleAttr(s).value;
            a.Some? && a.value.name == Some("style") && a.value.init.ExprValue? &&
            a.value.init.expr.Some? && a.value.init.expr.value.Object? &&
            var props := a.value.init.expr.value.props;
            var base := if s.style.Some? then 1 else 0;
            |props| == base + |s.styles| &&
            (s.style.Some? ==> props[0] == SpreadOf(s.style.value)) &&
            forall i :: 0 <= i < |s.styles| ==>
              s.styles[i].value.Some? &&
              props[base + i] == Assign(Hyphenate(s.styles[i].name), s.styles[i].value.value) &&
              (!StartsWith(s.styles[i].name, "--") ==> NoUpper(props[base + i].name))
  {
    forall i | 0 <= i < |s.styles| && !StartsWith(s.styles[i].name, "--") ensures NoUpper(Hyphenate(s.styles[i].name)) {
      HyphenateNoUpper(s.styles[i].name);
    }
  }

  /** A successful rewrite keeps the ordinary attributes in order, adds
      `class` exactly when there are `$` marks, and then, last, `style` when
      there are `$$` marks or a style attribute; without `$$` marks that is
      the input's own `style` attribute, unchanged. No marker is left. */
  lemma RewriteShape(v: Variant, attrs: seq<Attr>)
    requires Gate(v, attrs) == Ok(true) && Rewritten(v, attrs).Ok?
    ensures var out := Rewritten(v, attrs).value;
            var o := OrdinaryOf(attrs);
            |o| <= |out| && out[..|o|] == o &&
            |out| == |o| + (if ClassMarks(attrs) == [] then 0 else 1)
                         + (if StyleMarks(attrs) == [] && Latest(attrs, "style").None? then 0 else 1) &&
            (ClassMarks(attrs) != [] ==> HasName(out[|o|], "class")) &&
            (forall i :: |o| <= i < |out| ==> HasName(out[i], "class") || HasName(out[i], "style")) &&
            (StyleMarks(attrs) != [] || Latest(attrs, "style").Some? ==> HasName(out[|out| - 1], "style")) &&
            (StyleMarks(attrs) == [] && Latest(attrs, "style").Some? ==>
               out[|out| - 1] == Named("style", Latest(attrs, "style").value)) &&
            forall i :: 0 <= i < |out| ==> !Marker(out[i])
  {
    CollectFields(v, attrs);
    OrdinaryFrom(attrs);
    var s := Refs(attrs);
    var cls := ClassAttr(s).value;
    var sty := StyleAttr(s).value;
    assert Rewritten(v, attrs) == Ok(s.kept + Listed(cls) + Listed(sty));
    assert cls.Some? <==> s.classes != [];
    assert cls.Some? ==> HasName(cls.value, "class");
    assert sty.Some? <==> s.styles != [] || s.style.Some?;
    assert sty.Some? ==> HasName(sty.value, "style");
    Assembled(s.kept, cls, sty);
  }

  /** The ordinary attributes followed by the new `class` and `style`. */
  lemma Assembled(kept: seq<Attr>, cls: Option<Attr>, sty: Option<Attr>)
    requires forall k :: 0 <= k < |kept| ==> Ordinary(kept[k])
    requires cls.Some? ==> HasName(cls.value, "class")
    requires sty.Some? ==> HasName(sty.value, "style")
    ensures var out := kept + Listed(cls) + Listed(sty);
            |out| == |kept| + (if cls.Some? then 1 else 0) + (if sty.Some? then 1 else 0) &&
            out[..|kept|] == kept &&
            (cls.Some? ==> out[|kept|] == cls.value) &&
            (sty.Some? ==> out[|out| - 1] == sty.value) &&
            (forall i :: |kept| <= i < |out| ==> HasName(out[i], "class") || HasName(out[i], "style")) &&
            forall i :: 0 <= i < |out| ==> !Marker(out[i])
  {
    var out := kept + Listed(cls) + Listed(sty);
    assert out[..|kept|] == kept;
    PlainNames();
    forall i | 0 <= i < |out| ensures !Marker(out[i]) {
      if i < |kept| {
        assert out[i] == kept[i];
      }
    }
  }

  /** Without `$` marks an existing `class` attribute is lost: the result
      holds no `class` attribute at all. */
  lemma ClassLostWithoutMarks(v: Variant, attrs: seq<Attr>)
    requires Gate(v, attrs) == Ok(true) && Rewritten(v, attrs).Ok? && ClassMarks(attrs) == []
    ensures forall i :: 0 <= i < |Rewritten(v, attrs).value| ==> !HasName(Rewritten(v, attrs).value[i], "class")
  {
    CollectFields(v, attrs);
    OrdinaryFrom(attrs);
    var s := Refs(attrs);
    var sty := StyleAttr(s).value;
    assert ClassAttr(s) == Ok(None);
    assert Rewritten(v, attrs) == Ok(s.kept + Listed(ClassAttr(s).value) + Listed(sty));
    assert s.kept + Listed(None) == s.kept;
    assert sty.Some? ==> HasName(sty.value, "style");
    NoClassIn(s.kept, sty);
  }

  lemma NoClassIn(kept: seq<Attr>, sty: Option<Attr>)
    requires forall k :: 0 <= k < |kept| ==> Ordinary(kept[k])
    requires sty.Some? ==> HasName(sty.value, "style")
    ensures forall i :: 0 <= i < |kept + Listed(sty)| ==> !HasName((kept + Listed(sty))[i], "class")
  {
    var out := kept + Listed(sty);
    forall i | 0 <= i < |out| ensures !HasName(out[i], "class") {
      if i < |kept| {
        assert out[i] == kept[i];
      }
    }
  }

  /** Rewriting the result again changes nothing; the TypeScript throws on
      the second pass when a spread attribute is left. */
  lemma RewriteTwice(v: Variant, attrs: seq<Attr>, out: seq<Attr>)
    requires Rewritten(v, attrs) == Ok(out)
    ensures Rewritten(v, out) ==
            if v == Source && exists i :: 0 <= i < |out| && out[i].SpreadAttr? then Err(TypeError) else Ok(out)
  {
    GateFinds(v, attrs);
    if Gate(v, attrs) == Ok(false) {
      forall i | 0 <= i < |attrs| ensures NoMarkerBefore(attrs, i) {
      }
    } else {
      RewriteTwiceOpen(v, attrs, out);
    }
  }

  lemma RewriteTwiceOpen(v: Variant, attrs: seq<Attr>, out: seq<Attr>)
    requires Gate(v, attrs) == Ok(true) && Rewritten(v, attrs) == Ok(out)
    ensures Rewritten(v, out) ==
            if v == Source && exists i :: 0 <= i < |out| && out[i].SpreadAttr? then Err(TypeError) else Ok(out)
  {
    RewriteShape(v, attrs);
    CollectFields(v, attrs);
    OrdinaryFrom(attrs);
    var o := OrdinaryOf(attrs);
    NamedTail(v, attrs, o, out);
    NoMarkersUnchanged(v, out);
  }

  /** Past the kept attributes every attribute has a name, and a kept
      attribute without one is a spread: `Collect` rejected the rest. */
  lemma NamedTail(v: Variant, attrs: seq<Attr>, o: seq<Attr>, out: seq<Attr>)
    requires forall i :: 0 <= i < |attrs| ==> !Rejected(v, attrs[i])
    requires forall k :: 0 <= k < |o| ==> o[k] in attrs
    requires |o| <= |out| && out[..|o|] == o
    requires forall i :: |o| <= i < |out| ==> HasName(out[i], "class") || HasName(out[i], "style")
    ensures forall i :: 0 <= i < |out| && Unnamed(out[i]) && v == Source ==> out[i].SpreadAttr?
  {
    forall i | 0 <= i < |out| && Unnamed(out[i]) && v == Source ensures out[i].SpreadAttr? {
      if i < |o| {
        assert out[i] == o[i];
        var j :| 0 <= j < |attrs| && attrs[j] == o[i];
        assert !Rejected(v, attrs[j]);
      }
    }
  }
}
