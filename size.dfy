/** `$size` (mgqpy/operators/size.py): the value at the end of the path must
    be a list of exactly `int(ov)` elements; nested lists are not searched. */
module Size {
  import opened Values
  import opened Paths

  /** `int(ov)` for a number: truncation toward zero of units / 10^scale. */
  function Truncate(v: Value): int
    requires IsNumber(v)
  {
    TruncateUnits(AsDecimal(v).units, Pow10(AsDecimal(v).scale))
  }

  /** Truncating division of x by the positive p: the remainder left over
      has the sign of x and is smaller than p. */
  function TruncateUnits(x: int, p: int): (n: int)
    requires p >= 1
    ensures x >= 0 ==> 0 <= n && 0 <= x - n * p < p
    ensures x < 0 ==> n <= 0 && -p < x - n * p <= 0
  {
    if x >= 0 then
      DivBounds(x, p);
      x / p
    else
      DivBounds(-x, p);
      -((-x) / p)
  }

  lemma DivBounds(x: int, p: int)
    requires x >= 0 && p >= 1
    ensures 0 <= x / p && 0 <= x - (x / p) * p < p
    ensures -p < -x - (-(x / p)) * p <= 0
  {
    var q := x / p;
    assert x == q * p + x % p;
    assert -x - (-q) * p == -(x - q * p);
  }

  /** `_validate_size(ov)` */
  predicate ValidOperand(ov: Value) { IsNumber(ov) }

  /** The test at the end of the path. */
  function Leaf(doc: Value, n: int): Outcome {
    Done(doc.Arr? && |doc.elems| == n)
  }

  /** `_match_size(doc, path, ov)`: no element search at the end of the path,
      and a path that cannot be followed is false. */
  function Size(doc: Value, path: seq<string>, ov: Value): Outcome {
    if !ValidOperand(ov) then Done(false)
    else Resolve(doc, path, v => Leaf(v, Truncate(ov)), false, Done(false))
  }

  /** `$size` holds exactly when some place the path reaches is a list of the
      truncated length; a non-number operand is false everywhere. */
  lemma Semantics(doc: Value, path: seq<string>, ov: Value)
    ensures !ValidOperand(ov) ==> Size(doc, path, ov) == Done(false)
    ensures ValidOperand(ov) ==>
            Size(doc, path, ov) ==
            Done(exists e :: e in Endpoints(doc, path, false) && e.Reached? && e.v.Arr? &&
                   |e.v.elems| == Truncate(ov))
  {
    if ValidOperand(ov) {
      var n := Truncate(ov);
      ResolveByEndpoints(doc, path, v => Leaf(v, n), false, Done(false));
    }
  }

  /** At the end of the path only the value itself counts, never a list
      nested in it: `[[1, 2]]` has size 1, not 2. */
  lemma NoElementSearch(doc: Value, ov: Value)
    requires ValidOperand(ov)
    ensures Size(doc, [], ov) == Done(doc.Arr? && |doc.elems| == Truncate(ov))
    ensures Size(Arr([Arr([Int(1), Int(2)])]), [], Int(2)) == Done(false)
  {
    assert Truncate(Int(2)) == 2;
  }

  /** `{"foo": [1, 2, 3]}` has `$size` 3 and not 2. */
  lemma Scenario()
    ensures Size(Obj([("foo", Arr([Int(1), Int(2), Int(3)]))]), ["foo"], Int(3)) == Done(true)
    ensures Size(Obj([("foo", Arr([Int(1), Int(2), Int(3)]))]), ["foo"], Int(2)) == Done(false)
  {
    var doc := Obj([("foo", Arr([Int(1), Int(2), Int(3)]))]);
    assert doc.fields[0].0 == "foo";
    assert ["foo"][1..] == [];
    assert Truncate(Int(3)) == 3 && Truncate(Int(2)) == 2;
    ResolveKey(doc, ["foo"], v => Leaf(v, 3), false, Done(false));
    ResolveKey(doc, ["foo"], v => Leaf(v, 2), false, Done(false));
  }
}
