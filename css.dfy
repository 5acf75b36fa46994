/** CSS fragments as the grid calculator builds them: a sequence of
    declarations and nested rules, each value a sequence of template pieces.
    Whitespace and indentation of the template text are not represented. */
module Css {
  import opened JsValues

  /** One piece of a declaration value or a selector: fixed template text, or
      one interpolated expression. */
  datatype Token =
    | Text(s: string)        // literal template text
    | Number(n: Num)         // `${n}` for a pixel quantity
    | Pct(p: Percent)        // `${percentage(d)}`
    | Fraction(x: real)      // `${x}` for a number passed straight through
    | Selector(s: string)    // `${selector}` for a configured selector
    | GridClass              // `${this.Grid}`: the generated class of the Grid component

  type Value = seq<Token>

  /** `property: value;`, or `selector { body }`. */
  datatype Item = Decl(property: string, value: Value) | Rule(selector: Value, body: seq<Item>)

  type Fragment = seq<Item>

  /** `n px`, as the templates write `${n}px`. */
  function Px(n: Num): Value { [Number(n), Text("px")] }

  /** `-n px`, as the templates write `-${n}px`: a literal minus in front of the
      interpolated number, whatever its sign. */
  function NegPx(n: Num): Value { [Text("-"), Number(n), Text("px")] }

  predicate Declares(it: Item, p: string) {
    it.Decl? && it.property == p
  }

  /** The value property `p` takes in a block: that of its LAST top-level
      declaration, since a later declaration overrides an earlier one. */
  function Effective(f: Fragment, p: string): (r: Option<Value>)
    ensures r.None? <==> forall i :: 0 <= i < |f| ==> !Declares(f[i], p)
    ensures r.Some? ==> exists i :: 0 <= i < |f| && f[i] == Decl(p, r.value) &&
                                    forall j :: i < j < |f| ==> !Declares(f[j], p)
  {
    if f == [] then None
    else if Declares(f[|f| - 1], p) then Some(f[|f| - 1].value)
    else Effective(f[..|f| - 1], p)
  }

  /** Appending a block overrides exactly the properties the appended block
      declares. */
  lemma {:induction false} EffectiveAppend(a: Fragment, b: Fragment, p: string)
    ensures Effective(a + b, p) == if Effective(b, p).Some? then Effective(b, p) else Effective(a, p)
  {
    if b == [] {
      assert a + b == a;
    } else {
      var n := |b| - 1;
      assert (a + b)[|a + b| - 1] == b[n];
      assert (a + b)[..|a + b| - 1] == a + b[..n];
      if !Declares(b[n], p) {
        EffectiveAppend(a, b[..n], p);
      }
    }
  }

  /** A property declared exactly once in a block takes that declaration's
      value. */
  lemma EffectiveSingle(f: Fragment, p: string, k: nat)
    requires k < |f| && Declares(f[k], p)
    requires forall j :: 0 <= j < |f| && j != k ==> !Declares(f[j], p)
    ensures Effective(f, p) == Some(f[k].value)
  {
  }

  /** `p` has exactly one top-level declaration in `f`, and its value is `v`. */
  predicate DeclaredOnce(f: Fragment, p: string, v: Value) {
    exists k :: 0 <= k < |f| && f[k] == Decl(p, v) &&
                forall j :: 0 <= j < |f| && j != k ==> !Declares(f[j], p)
  }

  /** A property declared exactly once in a block takes that declaration's
      value. */
  lemma DeclaredOnceEffective(f: Fragment, p: string, v: Value)
    requires DeclaredOnce(f, p, v)
    ensures Effective(f, p) == Some(v)
  {
    var k :| 0 <= k < |f| && f[k] == Decl(p, v) &&
             forall j :: 0 <= j < |f| && j != k ==> !Declares(f[j], p);
    EffectiveSingle(f, p, k);
  }

  /** One declaration seen from the outermost block: the selectors of the
      rules it is nested in, outermost first, its property and its value. */
  datatype Entry = Entry(path: seq<Value>, property: string, value: Value)

  /** Every declaration of a fragment, in document order, with its path. */
  function Flatten(f: Fragment): (r: seq<Entry>)
  {
    if f == [] then []
    else
      var first := match f[0]
        case Decl(p, v) => [Entry([], p, v)]
        case Rule(s, body) => Under(s, Flatten(body));
      first + Flatten(f[1..])
  }

  /** The entries of a rule's body, seen from outside the rule `s`. */
  function Under(s: Value, es: seq<Entry>): (r: seq<Entry>)
    ensures |r| == |es|
    ensures forall i :: 0 <= i < |es| ==>
              r[i] == Entry([s] + es[i].path, es[i].property, es[i].value)
  {
    if es == [] then [] else [es[0].(path := [s] + es[0].path)] + Under(s, es[1..])
  }

  /** Flattening a concatenation is the concatenation of the flattenings. */
  lemma {:induction false} FlattenAppend(a: Fragment, b: Fragment)
    ensures Flatten(a + b) == Flatten(a) + Flatten(b)
  {
    if a == [] {
      assert a + b == b;
    } else {
      assert (a + b)[0] == a[0];
      assert (a + b)[1..] == a[1..] + b;
      FlattenAppend(a[1..], b);
    }
  }

  /** A block of plain declarations flattens to one entry per declaration,
      each at the outermost level. */
  lemma {:induction false} FlattenDecls(f: Fragment)
    requires forall i :: 0 <= i < |f| ==> f[i].Decl?
    ensures |Flatten(f)| == |f|
    ensures forall i :: 0 <= i < |f| ==> Flatten(f)[i] == Entry([], f[i].property, f[i].value)
  {
    if f != [] {
      FlattenDecls(f[1..]);
    }
  }

  /** A single rule flattens to its body's entries, seen from outside it. */
  lemma FlattenRule(s: Value, body: Fragment)
    ensures Flatten([Rule(s, body)]) == Under(s, Flatten(body))
  {
    assert [Rule(s, body)][1..] == [];
  }
}
