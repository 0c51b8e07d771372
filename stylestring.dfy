/** `styleStringToStyleObject` (runner.ts): a CSS declaration list
    `key: value; key: value` read into an object. The DSL rewriter hands it
    the source text of a string literal, quotes included. */
module StyleString {
  import opened Strings
  import opened JsText
  import opened Outcomes

  /** `const [key, value] = line.split(':')`, trimmed: the first two pieces,
      anything after a second `:` ignored. A line without `:` has no second
      piece, and `value.trim()` throws. */
  function Entry(line: string): Result<(string, string)> {
    var parts := Split(line, ':');
    if |parts| < 2 then Err(TypeError) else Ok((Trim(parts[0]), Trim(parts[1])))
  }

  /** Every line's entry, in order. */
  function EntriesOf(lines: seq<string>): (r: seq<Result<(string, string)>>)
    ensures |r| == |lines| && forall i :: 0 <= i < |lines| ==> r[i] == Entry(lines[i])
  {
    seq(|lines|, i requires 0 <= i < |lines| => Entry(lines[i]))
  }

  /** The object after the loop has seen the entries `es`; the first failing
      entry stops it, and a later key overwrites an earlier one. */
  function Collect(es: seq<Result<(string, string)>>): Result<map<string, string>>
    decreases |es|
  {
    if es == [] then Ok(map[])
    else
      var m :- Collect(es[..|es| - 1]);
      var e :- es[|es| - 1];
      Ok(m[e.0 := e.1])
  }

  function StyleObject(style: string): Result<map<string, string>> {
    Collect(EntriesOf(Split(style, ';')))
  }

  method StyleStringToStyleObject(style: string) returns (r: Result<map<string, string>>)
    ensures r == StyleObject(style)
  {
    var lines := Split(style, ';');
    ghost var es := EntriesOf(lines);
    var result: map<string, string> := map[];
    for i := 0 to |lines|
      invariant Collect(es[..i]) == Ok(result)
    {
      assert es[..i + 1][..i] == es[..i];
      var parts := Split(lines[i], ':');
      if |parts| < 2 {
        CollectStop(es, i + 1);
        return Err(TypeError);
      }
      result := result[Trim(parts[0]) := Trim(parts[1])];
    }
    assert es[..|lines|] == es;
    return Ok(result);
  }

  /** Once an entry fails, the whole conversion fails with it. */
  lemma {:induction false} CollectStop(es: seq<Result<(string, string)>>, k: nat)
    requires k <= |es| && Collect(es[..k]).Err?
    ensures Collect(es) == Collect(es[..k])
    decreases |es| - k
  {
    if k < |es| {
      assert es[..k + 1][..k] == es[..k];
      CollectStop(es, k + 1);
    } else {
      assert es[..k] == es;
    }
  }

  predicate HasColon(line: string) {
    exists i :: 0 <= i < |line| && line[i] == ':'
  }

  /** A line converts exactly when it holds a `:`. */
  lemma EntryOk(line: string)
    ensures Entry(line).Ok? <==> HasColon(line)
  {
    SplitCount(line, ':');
  }

  predicate AllOk(es: seq<Result<(string, string)>>) {
    forall i :: 0 <= i < |es| ==> es[i].Ok?
  }

  /** The conversion succeeds exactly when every entry does. */
  lemma {:induction false} CollectOk(es: seq<Result<(string, string)>>)
    ensures Collect(es).Ok? <==> AllOk(es)
    decreases |es|
  {
    if es != [] {
      var init := es[..|es| - 1];
      CollectOk(init);
      assert forall i :: 0 <= i < |init| ==> init[i] == es[i];
    }
  }

  /** The keys of the object are the entries' keys. */
  lemma {:induction false} CollectKeys(es: seq<Result<(string, string)>>)
    requires AllOk(es)
    ensures Collect(es).Ok?
    ensures forall k :: k in Collect(es).value <==> exists i :: 0 <= i < |es| && es[i].value.0 == k
    decreases |es|
  {
    CollectOk(es);
    if es != [] {
      var init := es[..|es| - 1];
      assert forall i :: 0 <= i < |init| ==> init[i] == es[i];
      CollectKeys(init);
      forall k ensures k in Collect(es).value <==> exists i :: 0 <= i < |es| && es[i].value.0 == k {
        if exists i :: 0 <= i < |es| && es[i].value.0 == k {
          var i :| 0 <= i < |es| && es[i].value.0 == k;
          if i < |init| { assert init[i].value.0 == k; }
        }
      }
    }
  }

  /** No later entry has the key of entry `i`. */
  predicate LastWithKey(es: seq<Result<(string, string)>>, i: nat)
    requires i < |es| && AllOk(es)
  {
    forall j :: i < j < |es| ==> es[j].value.0 != es[i].value.0
  }

  /** Each key holds the value of the last entry with that key. */
  lemma {:induction false} CollectLastWins(es: seq<Result<(string, string)>>, i: nat)
    requires AllOk(es) && i < |es|
    ensures Collect(es).Ok?
    ensures LastWithKey(es, i) ==>
      es[i].value.0 in Collect(es).value && Collect(es).value[es[i].value.0] == es[i].value.1
    decreases |es|
  {
    CollectOk(es);
    var init := es[..|es| - 1];
    if i < |init| && LastWithKey(es, i) {
      assert forall j :: 0 <= j < |init| ==> init[j] == es[j];
      assert LastWithKey(init, i);
      CollectLastWins(init, i);
    }
  }

  predicate EveryLineHasColon(lines: seq<string>) {
    forall i :: 0 <= i < |lines| ==> HasColon(lines[i])
  }

  /** The conversion of a style text, in the terms of its lines: it succeeds
      exactly when every line holds a `:`. */
  lemma StyleObjectOk(style: string)
    ensures StyleObject(style).Ok? <==> EveryLineHasColon(Split(style, ';'))
  {
    var lines := Split(style, ';');
    var es := EntriesOf(lines);
    CollectOk(es);
    forall i | 0 <= i < |lines| ensures es[i].Ok? <==> HasColon(lines[i]) {
      EntryOk(lines[i]);
    }
    assert AllOk(es) <==> EveryLineHasColon(lines);
  }

  /** A style literal that ends in `;` fails: its last line is the closing quote. */
  lemma TrailingSemicolonFails(body: string, quote: char)
    requires quote != ':' && quote != ';'
    ensures StyleObject(body + [';', quote]).Err?
  {
    assert body + [';', quote] == body + [';'] + [quote];
    SplitAround(body, ';', [quote]);
    var lines := Split(body + [';', quote], ';');
    assert [quote][1..] == [];
    assert Split([], ';') == [""];
    assert [quote] + "" == [quote];
    assert Split([quote], ';') == [[quote]];
    assert lines[|lines| - 1] == [quote];
    assert !HasColon([quote]);
    assert !EveryLineHasColon(lines);
    StyleObjectOk(body + [';', quote]);
  }

  /** The conversion only ever throws a TypeError. */
  lemma {:induction false} CollectErrors(es: seq<Result<(string, string)>>)
    requires forall i :: 0 <= i < |es| && es[i].Err? ==> es[i] == Err(TypeError)
    ensures Collect(es).Err? ==> Collect(es) == Err(TypeError)
    decreases |es|
  {
    if es != [] {
      CollectErrors(es[..|es| - 1]);
    }
  }

  lemma StyleObjectErrors(style: string)
    ensures StyleObject(style).Err? ==> StyleObject(style) == Err(TypeError)
  {
    CollectErrors(EntriesOf(Split(style, ';')));
  }
}
