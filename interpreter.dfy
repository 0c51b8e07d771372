/** The chain interpreter of the style DSL: the `$SS` proxy in `SSToTailwind`.
    Its state is an ordered list of class candidates, a style map and the flags
    `isSmall`, `isStyle` and `isPreload`; property reads and calls on the proxy
    become `Get(name)` and `Apply(arg)` on a `ChainProxy` object, and an
    evaluated chain becomes an explicit list of steps. */
module Interpreter {
  import opened Strings
  import opened Outcomes

  /** The JavaScript values a chain call can receive. A `preload` argument is
      represented by what its `$$$PROCESS` read returns, `Processed(classes, styles)`. */
  datatype Value =
    | Bool(b: bool)
    | Str(s: string)
    | Undefined
    | Fields(fields: map<string, Value>)
    | Processed(classes: seq<Candidate>, styles: map<string, Value>)

  /** An entry `[key, value]` of `classes`: a class key and its condition. */
  datatype Candidate = Candidate(key: string, cond: Value)

  /** JavaScript truthiness. */
  predicate Truthy(v: Value) {
    match v
    case Bool(b) => b
    case Str(s) => s != ""
    case Undefined => false
    case Fields(_) => true
    case Processed(_, _) => true
  }

  /** `Object.assign(styles, v)`: an object's fields are copied over, and a
      string's characters under their indices `"0"`, `"1"`, ...; `true`,
      `false`, `undefined` and the proxy a `preload` argument stands for have
      no enumerable own fields. */
  function Assign(styles: map<string, Value>, v: Value): map<string, Value> {
    match v
    case Fields(m) => styles + m
    case Str(s) => styles + CharFields(s)
    case _ => styles
  }

  /** The enumerable own fields of a string: each character, as a string of
      length one, under its index. */
  function CharFields(s: string): map<string, Value>
    decreases |s|
  {
    if s == [] then map[]
    else CharFields(s[..|s| - 1])[NatToString(|s| - 1) := Str([s[|s| - 1]])]
  }

  /** The array index names `"0"`, ..., `"n-1"`. */
  function IndexNames(n: nat): set<string> {
    if n == 0 then {} else IndexNames(n - 1) + {NatToString(n - 1)}
  }

  /** The fields a string contributes are named by its indices, and only by them. */
  lemma {:induction false} CharFieldsKeys(s: string)
    ensures CharFields(s).Keys == IndexNames(|s|)
    decreases |s|
  {
    if s != [] {
      var init := s[..|s| - 1];
      CharFieldsKeys(init);
      assert CharFields(s).Keys == CharFields(init).Keys + {NatToString(|init|)};
    }
  }

  /** The proxy's closure variables. */
  datatype State = State(classes: seq<Candidate>, styles: map<string, Value>,
                         isSmall: bool, isStyle: bool, isPreload: bool)

  const Initial := State([], map[], false, false, false)

  const Finalize := "$$$PROCESS"

  /** A property read or a call in an evaluated chain. */
  datatype Step = Access(name: string) | Call(arg: Value)

  predicate IsSentinel(name: string) {
    name == Finalize || name == "$s" || name == "$style" || name == "preload"
  }

  /** The key a plain property read appends: `_` becomes `-`, and `sm:` is
      prefixed once `$s` has been read. */
  function KeyFor(isSmall: bool, name: string): string {
    (if isSmall then "sm:" else "") + ReplaceChar(name, '_', '-')
  }

  /** The proxy's state after the `get` trap for `name`. */
  function Accessed(st: State, name: string): State {
    if name == Finalize then st.(classes := [Candidate("flex", Bool(true))] + st.classes)
    else if name == "$s" then st.(isSmall := true)
    else if name == "$style" then st.(isStyle := true)
    else if name == "preload" then st.(isPreload := true)
    else st.(classes := st.classes + [Candidate(KeyFor(st.isSmall, name), Bool(true))])
  }

  /** The proxy's state after the `apply` trap with first argument `arg`. */
  function Called(st: State, arg: Value): Result<State> {
    if st.isStyle then Ok(st.(styles := Assign(st.styles, arg), isStyle := false))
    else if st.isPreload then
      if !Truthy(arg) then Ok(st.(isPreload := false))
      else if arg.Processed? then
        Ok(st.(isPreload := false, classes := st.classes + arg.classes, styles := st.styles + arg.styles))
      else Err(TypeError)         // `args[0].$$$PROCESS` is undefined, `result.classes` throws
    else if st.classes == [] then Err(TypeError)   // `classes[-1]` is undefined
    else Ok(st.(classes := st.classes[..|st.classes| - 1] + [st.classes[|st.classes| - 1].(cond := arg)]))
  }

  /** Driving the proxy through `steps`. A `$$$PROCESS` read returns a plain
      object, so a step after one fails. */
  function Run(st: State, steps: seq<Step>): Result<State>
    decreases |steps|
  {
    if steps == [] then Ok(st)
    else
      match steps[0]
      case Access(n) => if n == Finalize then Err(TypeError) else Run(Accessed(st, n), steps[1..])
      case Call(a) =>
        var next :- Called(st, a);
        Run(next, steps[1..])
  }

  /** `new Function('SS', `return ${text}.$$$PROCESS`)(SS)` for a chain whose
      evaluation is `steps`: `{classes, styles}` after the final read. */
  function Evaluate(steps: seq<Step>): Result<(seq<Candidate>, map<string, Value>)> {
    var st :- Run(Initial, steps);
    var fin := Accessed(st, Finalize);
    Ok((fin.classes, fin.styles))
  }

  /** The `$SS` proxy object. */
  class ChainProxy {
    var classes: seq<Candidate>
    var styles: map<string, Value>
    var isSmall: bool
    var isStyle: bool
    var isPreload: bool

    function Snapshot(): State
      reads this
    {
      State(classes, styles, isSmall, isStyle, isPreload)
    }

    constructor ()
      ensures Snapshot() == Initial
    {
      classes := [];
      styles := map[];
      isSmall, isStyle, isPreload := false, false, false;
    }

    /** The `get` trap. It returns `Some({classes, styles})` for `$$$PROCESS`
        and `None` ("the proxy itself") otherwise. */
    method Get(prop: string) returns (result: Option<(seq<Candidate>, map<string, Value>)>)
      modifies this
      ensures Snapshot() == Accessed(old(Snapshot()), prop)
      ensures result == if prop == Finalize then Some((classes, styles)) else None
    {
      if prop == Finalize {
        classes := [Candidate("flex", Bool(true))] + classes;
        return Some((classes, styles));
      }
      if prop == "$s" {
        isSmall := true;
        return None;
      }
      if prop == "$style" {
        isStyle := true;
        return None;
      }
      if prop == "preload" {
        isPreload := true;
        return None;
      }
      var key := ReplaceChar(prop, '_', '-');
      if isSmall {
        key := "sm:" + key;
      } else {
        assert "" + key == key;
      }
      classes := classes + [Candidate(key, Bool(true))];
      return None;
    }

    /** The `apply` trap. `failed` reports a JavaScript runtime error; the
        state left behind then is of no further use, as the error ends the
        whole rewrite. */
    method Apply(arg: Value) returns (failed: bool)
      modifies this
      ensures failed == Called(old(Snapshot()), arg).Err?
      ensures !failed ==> Snapshot() == Called(old(Snapshot()), arg).value
    {
      if isStyle {
        styles := Assign(styles, arg);
        isStyle := false;
        return false;
      }
      if isPreload {
        isPreload := false;
        if Truthy(arg) {
          if !arg.Processed? {
            return true;
          }
          classes := classes + arg.classes;
          styles := styles + arg.styles;
        }
        return false;
      }
      if classes == [] {
        return true;
      }
      classes := classes[..|classes| - 1] + [classes[|classes| - 1].(cond := arg)];
      return false;
    }
  }

  // ---------------------------------------------------------------------
  // Properties of one step

  /** `$$$PROCESS` prepends `('flex', true)` and leaves everything else alone. */
  lemma FinalizePrependsFlex(st: State)
    ensures Accessed(st, Finalize).classes == [Candidate("flex", Bool(true))] + st.classes
    ensures Accessed(st, Finalize).(classes := st.classes) == st
  {
  }

  /** `$s`, `$style` and `preload` only set their own flag. */
  lemma SentinelsOnlySetFlag(st: State)
    ensures Accessed(st, "$s") == st.(isSmall := true)
    ensures Accessed(st, "$style") == st.(isStyle := true)
    ensures Accessed(st, "preload") == st.(isPreload := true)
  {
  }

  /** Any other name appends one candidate `(name with '_' -> '-', true)`,
      prefixed with `sm:` exactly when `$s` was read before. */
  lemma PlainAccessAppends(st: State, name: string)
    requires !IsSentinel(name)
    ensures var r := Accessed(st, name);
      && r.classes == st.classes + [Candidate(KeyFor(st.isSmall, name), Bool(true))]
      && r.(classes := st.classes) == st
    ensures StartsWith(KeyFor(st.isSmall, name), "sm:") <== st.isSmall
    ensures !st.isSmall ==> KeyFor(st.isSmall, name) == ReplaceChar(name, '_', '-')
  {
  }

  /** With `isStyle` set, a call merges its argument into the styles and clears the flag. */
  lemma StyleCallMerges(st: State, arg: Value)
    requires st.isStyle
    ensures Called(st, arg) == Ok(st.(styles := Assign(st.styles, arg), isStyle := false))
  {
  }

  /** `$style` called with a string, as every placeholder call `("COUNTn")`
      is: the string's characters land in the styles under the index names. */
  lemma StyleCallOnString(st: State, t: string)
    requires st.isStyle
    ensures Called(st, Str(t)).Ok?
    ensures Called(st, Str(t)).value.styles.Keys == st.styles.Keys + IndexNames(|t|)
  {
    CharFieldsKeys(t);
  }

  /** With `isPreload` set (and not `isStyle`), a call clears the flag and appends
      a truthy argument's processed classes and styles. */
  lemma PreloadCallSplices(st: State, cs: seq<Candidate>, ss: map<string, Value>)
    requires !st.isStyle && st.isPreload
    ensures Called(st, Processed(cs, ss))
         == Ok(st.(isPreload := false, classes := st.classes + cs, styles := st.styles + ss))
    ensures forall v :: !Truthy(v) ==> Called(st, v) == Ok(st.(isPreload := false))
  {
  }

  /** Otherwise a call overwrites the condition of the last candidate only:
      the keys and every earlier candidate are unchanged. */
  lemma PlainCallSetsLastCondition(st: State, arg: Value)
    requires !st.isStyle && !st.isPreload && st.classes != []
    ensures Called(st, arg).Ok?
    ensures var r := Called(st, arg).value;
      && |r.classes| == |st.classes|
      && r.classes[..|st.classes| - 1] == st.classes[..|st.classes| - 1]
      && r.classes[|st.classes| - 1] == Candidate(st.classes[|st.classes| - 1].key, arg)
      && r.(classes := st.classes) == st
  {
  }

  /** A call with no candidate to set fails as `classes[-1][1] = ...` does. */
  lemma CallWithoutCandidateFails(st: State, arg: Value)
    requires !st.isStyle && !st.isPreload && st.classes == []
    ensures Called(st, arg) == Err(TypeError)
  {
  }

  // ---------------------------------------------------------------------
  // Properties of whole chains

  /** `isSmall` is never cleared: once `$s` has been read, it stays set. */
  lemma {:induction false} SmallIsSticky(st: State, steps: seq<Step>)
    requires st.isSmall && Run(st, steps).Ok?
    ensures Run(st, steps).value.isSmall
    decreases |steps|
  {
    if steps != [] {
      match steps[0]
      case Access(n) => SmallIsSticky(Accessed(st, n), steps[1..]);
      case Call(a) => SmallIsSticky(Called(st, a).value, steps[1..]);
    }
  }

  function Keys(cs: seq<Candidate>): seq<string> {
    seq(|cs|, i requires 0 <= i < |cs| => cs[i].key)
  }

  /** The keys that the plain property reads of `steps` append, in order,
      starting with the `isSmall` flag `small`. */
  function AccessKeys(small: bool, steps: seq<Step>): seq<string>
    decreases |steps|
  {
    if steps == [] then []
    else
      match steps[0]
      case Access(n) =>
        if n == "$s" then AccessKeys(true, steps[1..])
        else if IsSentinel(n) then AccessKeys(small, steps[1..])
        else [KeyFor(small, n)] + AccessKeys(small, steps[1..])
      case Call(_) => AccessKeys(small, steps[1..])
  }

  predicate NoPreload(steps: seq<Step>) {
    forall i :: 0 <= i < |steps| ==> steps[i] != Access("preload")
  }

  /** Without `preload`, the candidate keys after a chain are the keys of its
      plain property reads in read order: calls never add, drop or reorder
      candidates, they only replace conditions. */
  lemma {:induction false} KeysFollowAccesses(st: State, steps: seq<Step>)
    requires NoPreload(steps) && !st.isPreload && Run(st, steps).Ok?
    ensures Keys(Run(st, steps).value.classes) == Keys(st.classes) + AccessKeys(st.isSmall, steps)
    decreases |steps|
  {
    if steps == [] {
      assert Keys(st.classes) + [] == Keys(st.classes);
    } else {
      assert NoPreload(steps[1..]) by {
        forall i | 0 <= i < |steps[1..]| ensures steps[1..][i] == steps[i + 1] { }
      }
      assert steps[0] != Access("preload") by { assert steps[0] == steps[0]; }
      match steps[0]
      case Access(n) =>
        var next := Accessed(st, n);
        KeysFollowAccesses(next, steps[1..]);
        AccessedKeys(st, n, AccessKeys(next.isSmall, steps[1..]));
      case Call(a) =>
        var next := Called(st, a).value;
        CalledKeys(st, a);
        KeysFollowAccesses(next, steps[1..]);
    }
  }

  /** A property read adds its key, unless it is a sentinel. */
  lemma AccessedKeys(st: State, n: string, later: seq<string>)
    requires n != "preload"
    ensures var next := Accessed(st, n);
            n != Finalize ==>
            Keys(next.classes) + later
            == Keys(st.classes) + ((if n == "$s" || IsSentinel(n) then [] else [KeyFor(st.isSmall, n)]) + later)
    ensures !st.isPreload ==> !Accessed(st, n).isPreload
    ensures n == "$s" ==> Accessed(st, n).isSmall
    ensures n != "$s" ==> Accessed(st, n).isSmall == st.isSmall
  {
    if !IsSentinel(n) {
      assert Keys(Accessed(st, n).classes) == Keys(st.classes) + [KeyFor(st.isSmall, n)];
    }
  }

  /** Without `isPreload`, a call keeps the keys. */
  lemma CalledKeys(st: State, a: Value)
    requires !st.isPreload && Called(st, a).Ok?
    ensures Keys(Called(st, a).value.classes) == Keys(st.classes)
    ensures !Called(st, a).value.isPreload && Called(st, a).value.isSmall == st.isSmall
  {
  }

  /** After a chain, the candidates that existed before it, all but the last
      one, are unchanged: reads append and calls touch only the tail. */
  lemma {:induction false} EarlierCandidatesStable(st: State, steps: seq<Step>)
    requires Run(st, steps).Ok? && st.classes != []
    ensures var r := Run(st, steps).value.classes;
      |r| >= |st.classes| && r[..|st.classes| - 1] == st.classes[..|st.classes| - 1]
    decreases |steps|
  {
    if steps != [] {
      var k := |st.classes| - 1;
      var next: State;
      match steps[0] {
        case Access(n) =>
          next := Accessed(st, n);
          AccessedKeeps(st, n);
          assert next.classes[..k] == next.classes[..|st.classes|][..k];
        case Call(a) =>
          next := Called(st, a).value;
          CalledKeeps(st, a);
      }
      EarlierCandidatesStable(next, steps[1..]);
      var r := Run(next, steps[1..]).value.classes;
      assert r[..k] == r[..|next.classes| - 1][..k];
    }
  }

  /** A read other than `$$$PROCESS` keeps every candidate. */
  lemma AccessedKeeps(st: State, n: string)
    requires n != Finalize
    ensures |Accessed(st, n).classes| >= |st.classes|
    ensures Accessed(st, n).classes[..|st.classes|] == st.classes
  {
    var r := Accessed(st, n).classes;
    if !(n == "$s" || n == "$style" || n == "preload") {
      assert r == st.classes + [Candidate(KeyFor(st.isSmall, n), Bool(true))];
    }
  }

  /** A successful call keeps every candidate but the last. */
  lemma CalledKeeps(st: State, a: Value)
    requires Called(st, a).Ok? && st.classes != []
    ensures |Called(st, a).value.classes| >= |st.classes|
    ensures Called(st, a).value.classes[..|st.classes| - 1] == st.classes[..|st.classes| - 1]
  {
    var k := |st.classes| - 1;
    var r := Called(st, a).value.classes;
    if st.isStyle || (st.isPreload && !Truthy(a)) {
      assert r == st.classes;
    } else if st.isPreload {
      assert r == st.classes + a.classes;
      assert r[..k] == (st.classes + a.classes)[..k];
    } else {
      assert r == st.classes[..k] + [st.classes[k].(cond := a)];
    }
  }
}
