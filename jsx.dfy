/** The slice of a TSX syntax tree the attribute transforms read and build:
    the attributes of one JSX element, their initializers, and the
    expressions the transforms create (string literals, conditionals,
    template literals, object literals). Expressions taken over from the
    source file stay opaque, as their source text. */
module Jsx {
  import opened Strings
  import opened Outcomes

  datatype Expr =
    | Code(text: string)                  // a node of the source file, by its source text
    | Lit(value: string)                  // a string literal the transform creates
    | Cond(test: Expr, yes: Expr, no: Expr)
    | Template(spans: seq<Span>)          // a template literal with an empty head
    | Object(props: seq<Prop>)

  /** The literal text after a template span: a middle part, or the tail. */
  datatype Literal = Middle(text: string) | Tail(text: string)

  datatype Span = Span(expr: Expr, literal: Literal)

  /** An object-literal member: `...x` or `name: value`. */
  datatype Prop = SpreadOf(init: Init) | Assign(name: string, value: Expr)

  /** An attribute's initializer: none (`<a x>`), a string literal
      (`x="..."`), or a JSX expression (`x={...}`, possibly empty). */
  datatype Init = NoValue | StringValue(lit: Expr) | ExprValue(expr: Option<Expr>)

  /** `{...x}`, or an attribute. The name is the identifier's `escapedText`,
      absent when the name node has none. Which of the two a namespaced name
      such as `use:ss` is depends on the parser: one that reads `use:ss` as a
      single identifier gives `Some("use:ss")`, which is the form the DSL
      transform's `name === 'use:ss'` test matches; one that builds a
      namespaced-name node gives `None`, on which the marker transform of
      `index.ts` throws. Both are inputs of the model. */
  datatype Attr = SpreadAttr(text: string) | NamedAttr(name: Option<string>, init: Init)

  function Named(name: string, init: Init): Attr {
    NamedAttr(Some(name), init)
  }

  predicate HasName(a: Attr, name: string) {
    a.NamedAttr? && a.name == Some(name)
  }

  /** The initializer of the last attribute named `name`. */
  function Latest(attrs: seq<Attr>, name: string): Option<Init>
    decreases |attrs|
  {
    if attrs == [] then None
    else if HasName(attrs[|attrs| - 1], name) then Some(attrs[|attrs| - 1].init)
    else Latest(attrs[..|attrs| - 1], name)
  }

  /** An initializer read where a missing one counts as none. */
  function InitOr(o: Option<Init>): Init {
    if o.Some? then o.value else NoValue
  }

  /** Concatenation of a sequence of strings. */
  function Concat(parts: seq<string>): string
    decreases |parts|
  {
    if parts == [] then "" else parts[0] + Concat(parts[1..])
  }

  /** The text the printer gives an expression (escaping inside string
      literals is not modelled). */
  function Print(e: Expr): string
    decreases e
  {
    match e
    case Code(t) => t
    case Lit(v) => "\"" + v + "\""
    case Cond(t, y, n) => Print(t) + " ? " + Print(y) + " : " + Print(n)
    case Template(spans) =>
      "`${" + Concat(seq(|spans|, i requires 0 <= i < |spans| => Print(spans[i].expr) + Close(spans[i].literal)))
    case Object(props) =>
      "{ " + Join(seq(|props|, i requires 0 <= i < |props| =>
                      match props[i]
                      case SpreadOf(init) => "..." + PrintInit(init)
                      case Assign(n, v) => n + ": " + Print(v)), ", ") + " }"
  }

  /** The printed text after a span's expression: a middle part reopens a
      substitution, the tail ends the template literal, wherever it stands. */
  function Close(l: Literal): string {
    match l
    case Middle(t) => "}" + t + "${"
    case Tail(t) => "}" + t + "`"
  }

  /** The spans print as one template literal: every span but the last is
      followed by a middle part, and the last by the tail. */
  predicate Closed(spans: seq<Span>) {
    spans != [] && spans[|spans| - 1].literal.Tail? &&
    forall i :: 0 <= i < |spans| - 1 ==> spans[i].literal.Middle?
  }

  /** An initializer as printed (a JSX expression keeps its braces). */
  function PrintInit(init: Init): string
    decreases init
  {
    match init
    case NoValue => ""
    case StringValue(lit) => Print(lit)
    case ExprValue(None) => "{}"
    case ExprValue(Some(e)) => "{" + Print(e) + "}"
  }

  /** The string value of a generated expression at run time, given the
      truthiness (`holds`) and the string value (`show`) of each source
      expression. A template has this value only when its spans are
      `Closed`; otherwise the printed text is not one template literal. */
  function Eval(e: Expr, holds: string -> bool, show: string -> string): string
    decreases e, 0
  {
    match e
    case Code(t) => show(t)
    case Lit(v) => v
    case Cond(t, y, n) => if Truthy(t, holds, show) then Eval(y, holds, show) else Eval(n, holds, show)
    case Template(spans) =>
      Concat(seq(|spans|, i requires 0 <= i < |spans| => Eval(spans[i].expr, holds, show) + spans[i].literal.text))
    case Object(_) => "[object Object]"
  }

  function Truthy(e: Expr, holds: string -> bool, show: string -> string): bool
    decreases e, 1
  {
    match e
    case Code(t) => holds(t)
    case Lit(v) => v != ""
    case Cond(t, y, n) => if Truthy(t, holds, show) then Truthy(y, holds, show) else Truthy(n, holds, show)
    case Template(_) => Eval(e, holds, show) != ""
    case Object(_) => true
  }

  /** A template's value: each span's value followed by its literal text. */
  lemma {:induction false} TemplateEval(spans: seq<Span>, holds: string -> bool, show: string -> string)
    ensures Eval(Template(spans), holds, show)
            == if spans == [] then ""
               else Eval(spans[0].expr, holds, show) + spans[0].literal.text + Eval(Template(spans[1..]), holds, show)
  {
    var parts := seq(|spans|, i requires 0 <= i < |spans| => Eval(spans[i].expr, holds, show) + spans[i].literal.text);
    if spans != [] {
      var rest := seq(|spans| - 1, i requires 0 <= i < |spans| - 1 => Eval(spans[1..][i].expr, holds, show) + spans[1..][i].literal.text);
      assert parts[1..] == rest;
    }
  }

  /** Closed spans print as the usual template text: each expression in
      `${...}`, followed by its literal text, all between two backticks. */
  lemma PrintClosed(spans: seq<Span>)
    requires Closed(spans)
    ensures Print(Template(spans))
            == "`" + Concat(seq(|spans|, i requires 0 <= i < |spans| => "${" + Print(spans[i].expr) + "}" + spans[i].literal.text)) + "`"
  {
    var printed := seq(|spans|, i requires 0 <= i < |spans| => Print(spans[i].expr) + Close(spans[i].literal));
    var usual := seq(|spans|, i requires 0 <= i < |spans| => "${" + Print(spans[i].expr) + "}" + spans[i].literal.text);
    ClosedShift(spans, printed, usual);
    assert Print(Template(spans)) == "`${" + Concat(printed);
    Regroup("`", "${", Concat(printed));
    Regroup("`", Concat(usual), "`");
  }

  lemma Regroup(a: string, b: string, c: string)
    ensures (a + b) + c == a + (b + c)
  {
  }

  lemma ClosedShift(spans: seq<Span>, printed: seq<string>, usual: seq<string>)
    requires Closed(spans)
    requires printed == seq(|spans|, i requires 0 <= i < |spans| => Print(spans[i].expr) + Close(spans[i].literal))
    requires usual == seq(|spans|, i requires 0 <= i < |spans| => "${" + Print(spans[i].expr) + "}" + spans[i].literal.text)
    ensures "${" + Concat(printed) == Concat(usual) + "`"
  {
    forall i | 0 <= i < |spans|
      ensures "${" + printed[i] == usual[i] + (if i == |spans| - 1 then "`" else "${")
    {
      assert spans[i].literal.Tail? <==> i == |spans| - 1;
      ShiftPart(Print(spans[i].expr), spans[i].literal);
    }
    ShiftedConcat(printed, usual);
  }

  lemma ShiftPart(e: string, l: Literal)
    ensures "${" + (e + Close(l)) == ("${" + e + "}" + l.text) + (if l.Tail? then "`" else "${")
  {
  }

  /** Moving an opening `${` through a run of parts turns it into a closing
      backtick at the end. */
  lemma {:induction false} ShiftedConcat(printed: seq<string>, usual: seq<string>)
    requires |printed| == |usual| > 0
    requires forall i :: 0 <= i < |printed| ==> "${" + printed[i] == usual[i] + (if i == |printed| - 1 then "`" else "${")
    ensures "${" + Concat(printed) == Concat(usual) + "`"
    decreases |printed|
  {
    if |printed| == 1 {
      assert Concat(printed) == printed[0] + Concat([]) == printed[0];
      assert Concat(usual) == usual[0] + Concat([]) == usual[0];
    } else {
      var p, u := printed[1..], usual[1..];
      assert forall i :: 0 <= i < |p| ==> p[i] == printed[i + 1] && u[i] == usual[i + 1];
      ShiftedConcat(p, u);
      calc {
        "${" + Concat(printed);
        ("${" + printed[0]) + Concat(p);
        (usual[0] + "${") + Concat(p);
        usual[0] + ("${" + Concat(p));
        usual[0] + (Concat(u) + "`");
        Concat(usual) + "`";
      }
    }
  }

  lemma {:induction false} ConcatAppend(a: seq<string>, b: seq<string>)
    ensures Concat(a + b) == Concat(a) + Concat(b)
    decreases |a|
  {
    if a == [] {
      assert a + b == b;
    } else {
      assert (a + b)[1..] == a[1..] + b;
      ConcatAppend(a[1..], b);
    }
  }

  /** Strings each followed by a space, the last by nothing, concatenate to
      their space-separated join. */
  lemma {:induction false} SpacedConcat(vals: seq<string>)
    ensures Concat(seq(|vals|, i requires 0 <= i < |vals| => vals[i] + (if i == |vals| - 1 then "" else " ")))
            == Join(vals, " ")
    decreases |vals|
  {
    var parts := seq(|vals|, i requires 0 <= i < |vals| => vals[i] + (if i == |vals| - 1 then "" else " "));
    if |vals| == 1 {
      assert parts == [vals[0] + ""];
      assert Concat(parts) == vals[0] + "" + Concat([]);
    } else if |vals| > 1 {
      var rest := vals[1..];
      var restParts := seq(|rest|, i requires 0 <= i < |rest| => rest[i] + (if i == |rest| - 1 then "" else " "));
      assert parts[1..] == restParts;
      SpacedConcat(rest);
      assert Concat(parts) == vals[0] + " " + Concat(restParts);
    }
  }

  /** A template of two runs of spans evaluates to the two values, joined. */
  lemma TemplateAppend(a: seq<Span>, b: seq<Span>, holds: string -> bool, show: string -> string)
    ensures Eval(Template(a + b), holds, show) == Eval(Template(a), holds, show) + Eval(Template(b), holds, show)
  {
    var ab := a + b;
    var parts := seq(|ab|, i requires 0 <= i < |ab| => Eval(ab[i].expr, holds, show) + ab[i].literal.text);
    var pa := seq(|a|, i requires 0 <= i < |a| => Eval(a[i].expr, holds, show) + a[i].literal.text);
    var pb := seq(|b|, i requires 0 <= i < |b| => Eval(b[i].expr, holds, show) + b[i].literal.text);
    assert parts == pa + pb;
    ConcatAppend(pa, pb);
  }
}
