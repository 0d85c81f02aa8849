/** `$mod` (src/mgqpy/operators/mod.py): the operand is `[divisor, remainder]`,
    both numbers; a numeric leaf matches when `floor(doc % floor(divisor))`
    equals `floor(remainder)`, with `%` as Python computes it for the leaf's
    type. */
module Mod {
  import opened Values
  import opened Paths

  function Abs(x: int): int { if x < 0 then -x else x }

  /** `math.floor` of an exact decimal. */
  function Floor(d: DecimalVal): (r: int)
    ensures r * Pow10(d.scale) <= d.units < (r + 1) * Pow10(d.scale)
  {
    d.units / Pow10(d.scale)
  }

  function FloorOf(v: Value): int
    requires IsNumber(v)
  {
    Floor(AsDecimal(v))
  }

  /** Python's `%` on ints (and bools): the remainder takes the divisor's sign. */
  function FlooredMod(x: int, m: int): (r: int)
    requires m != 0
    ensures m > 0 ==> 0 <= r < m
    ensures m < 0 ==> m < r <= 0
  {
    if m > 0 then x % m else -((-x) % (-m))
  }

  /** `decimal.Decimal`'s `%`: the remainder takes the dividend's sign. */
  function TruncatedMod(x: int, m: int): (r: int)
    requires m != 0
    ensures x >= 0 ==> 0 <= r < Abs(m)
    ensures x < 0 ==> -Abs(m) < r <= 0
  {
    if x >= 0 then x % Abs(m) else -((-x) % Abs(m))
  }

  /** Both are remainders: x minus either one is a multiple of m. */
  lemma FlooredModDivides(x: int, m: int)
    requires m != 0
    ensures exists q :: x == q * m + FlooredMod(x, m)
  {
    if m > 0 {
      assert x == (x / m) * m + FlooredMod(x, m);
    } else {
      var q := (-x) / (-m);
      assert -x == q * (-m) + (-x) % (-m);
      assert x == q * m + FlooredMod(x, m);
    }
  }

  lemma TruncatedModDivides(x: int, m: int)
    requires m != 0
    ensures exists q :: x == q * m + TruncatedMod(x, m)
  {
    if m > 0 && x >= 0 {
      assert TruncatedMod(x, m) == x % m;
      assert x == (x / m) * m + x % m;
    } else if m > 0 {
      var q := (-x) / m;
      assert TruncatedMod(x, m) == -((-x) % m);
      assert -x == q * m + (-x) % m;
      assert x == (-q) * m + TruncatedMod(x, m);
    } else if x >= 0 {
      var q := x / (-m);
      assert TruncatedMod(x, m) == x % (-m);
      assert x == q * (-m) + x % (-m);
      assert x == (-q) * m + TruncatedMod(x, m);
    } else {
      var q := (-x) / (-m);
      assert TruncatedMod(x, m) == -((-x) % (-m));
      assert -x == q * (-m) + (-x) % (-m);
      assert x == q * m + TruncatedMod(x, m);
    }
  }

  /** `math.floor(doc % divisor)`: a Decimal u / 10^s leaves the remainder
      TruncatedMod(u, divisor * 10^s) / 10^s. */
  function DocRemainder(doc: Value, m: int): int
    requires IsNumber(doc) && m != 0
  {
    if doc.Decimal? then
      Floor(DecimalVal(TruncatedMod(doc.dec.units, m * Pow10(doc.dec.scale)), doc.dec.scale))
    else FlooredMod(AsDecimal(doc).units, m)
  }

  /** `_validate_mod(ov)` */
  predicate ValidOperand(ov: Value) {
    ov.Arr? && |ov.elems| == 2 && IsNumber(ov.elems[0]) && IsNumber(ov.elems[1])
  }

  /** The test at the end of the path; a divisor that floors to 0 raises
      (ZeroDivisionError, or InvalidOperation for a Decimal) at a numeric leaf. */
  function Leaf(doc: Value, divisor: int, remainder: int): Outcome {
    if !IsNumber(doc) then Done(false)
    else if divisor == 0 then Raised
    else Done(DocRemainder(doc, divisor) == remainder)
  }

  /** `_match_mod(doc, path, ov)`; the operand check the source repeats at
      every level is made once, since the operand never changes. */
  function Mod(doc: Value, path: seq<string>, ov: Value): Outcome {
    if !ValidOperand(ov) then Done(false)
    else Resolve(doc, path, v => Leaf(v, FloorOf(ov.elems[0]), FloorOf(ov.elems[1])), true, Done(false))
  }

  /** An operand that is not a list of two numbers is false everywhere. */
  lemma InvalidOperand(doc: Value, path: seq<string>, ov: Value)
    requires !ValidOperand(ov)
    ensures Mod(doc, path, ov) == Done(false)
  {
  }

  /** With a divisor that does not floor to 0, `$mod` holds exactly when some
      place the path reaches is a number with the expected remainder. */
  lemma Semantics(doc: Value, path: seq<string>, ov: Value)
    requires ValidOperand(ov) && FloorOf(ov.elems[0]) != 0
    ensures Mod(doc, path, ov) ==
            Done(exists e :: e in Endpoints(doc, path, true) && e.Reached? && IsNumber(e.v) &&
                   DocRemainder(e.v, FloorOf(ov.elems[0])) == FloorOf(ov.elems[1]))
  {
    var m, r := FloorOf(ov.elems[0]), FloorOf(ov.elems[1]);
    ResolveByEndpoints(doc, path, v => Leaf(v, m, r), true, Done(false));
  }

  /** A divisor that floors to 0 raises as soon as a number is reached. */
  lemma ZeroDivisor(x: int)
    ensures Mod(Int(x), [], Arr([Decimal(DecimalVal(5, 1)), Int(0)])) == Raised
  {
  }

  /** For a non-negative value and a positive divisor, the int and the Decimal
      reading of `%` agree; for a negative value they can differ: -7 leaves 2
      as an int but -1 as a Decimal. */
  lemma DecimalAgreesOnNonNegative(x: int, m: int)
    requires x >= 0 && m > 0
    ensures DocRemainder(Decimal(DecimalVal(x, 0)), m) == DocRemainder(Int(x), m)
    ensures DocRemainder(Int(-7), 3) == 2 && DocRemainder(Decimal(DecimalVal(-7, 0)), 3) == -1
  {
  }

  /** `{"foo": {"$mod": [m, 0]}}` on `{"foo": x}` */
  lemma FooScenario(x: int, m: int)
    requires m != 0
    ensures Mod(Obj([("foo", Int(x))]), ["foo"], Arr([Int(m), Int(0)])) == Done(FlooredMod(x, m) == 0)
  {
    assert [("foo", Int(x))][0].0 == "foo";
    assert FloorOf(Int(m)) == m && FloorOf(Int(0)) == 0;
    assert ["foo"][1..] == [];
    var leaf := v => Leaf(v, m, 0);
    var doc := Obj([("foo", Int(x))]);
    assert Mod(doc, ["foo"], Arr([Int(m), Int(0)])) == Resolve(doc, ["foo"], leaf, true, Done(false));
    ResolveKey(doc, ["foo"], leaf, true, Done(false));
    assert Resolve(doc, ["foo"], leaf, true, Done(false)) == Resolve(Int(x), [], leaf, true, Done(false));
    assert Resolve(Int(x), [], leaf, true, Done(false)) == Leaf(Int(x), m, 0);
  }

  /** `{"foo": {"$mod": [3, 0]}}` and `[-3, -0]` keep -3, 0, 3 and 6, and drop
      1, 2, 4, 5 and the string "6". */
  lemma ThreeZeroScenario()
    ensures forall x | x in {-3, 0, 3, 6} :: Mod(Obj([("foo", Int(x))]), ["foo"], Arr([Int(3), Int(0)])) == Done(true)
    ensures forall x | x in {1, 2, 4, 5} :: Mod(Obj([("foo", Int(x))]), ["foo"], Arr([Int(3), Int(0)])) == Done(false)
    ensures forall x | x in {-3, 0, 3, 6} :: Mod(Obj([("foo", Int(x))]), ["foo"], Arr([Int(-3), Int(0)])) == Done(true)
    ensures Mod(Obj([("foo", Str("6"))]), ["foo"], Arr([Int(3), Int(0)])) == Done(false)
  {
    assert [("foo", Str("6"))][0].0 == "foo";
    forall x | x in {-3, 0, 3, 6, 1, 2, 4, 5}
      ensures Mod(Obj([("foo", Int(x))]), ["foo"], Arr([Int(3), Int(0)])) == Done(FlooredMod(x, 3) == 0)
      ensures Mod(Obj([("foo", Int(x))]), ["foo"], Arr([Int(-3), Int(0)])) == Done(FlooredMod(x, -3) == 0)
    {
      FooScenario(x, 3);
      FooScenario(x, -3);
    }
  }
}
