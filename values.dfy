/** The JSON-like documents and operands the matcher works on, and the parts of
    Python's own `==` and ordering that the operators rely on. */
module Values {

  datatype Option<+T> = None | Some(value: T)

  /** Result of a three-way comparison. */
  datatype Ordering = Less | Equal | Greater

  /** The flags `re.compile` accepts from the `$options` string. */
  datatype RegexFlag = IgnoreCase | Multiline | DotAll | Verbose

  /** A `datetime.datetime`: wall-clock time in some fixed unit, plus the UTC
      offset in the same unit when the value is zone-aware. */
  datatype DateTimeVal = DateTimeVal(local: int, offset: Option<int>)
  {
    predicate Aware() { offset.Some? }
    /** The instant an aware value denotes. */
    function Utc(): int requires Aware() { local - offset.value }
  }

  /** A finite `decimal.Decimal`, as the exact number units / 10^scale. */
  datatype DecimalVal = DecimalVal(units: int, scale: nat)

  /** A document or operand: every kind the engine distinguishes at run time. */
  datatype Value =
    | Null
    | Bool(b: bool)
    | Int(i: int)
    | Str(s: string)
    | Date(day: int)                                  // datetime.date
    | DateTime(dt: DateTimeVal)                       // datetime.datetime
    | Decimal(dec: DecimalVal)                        // decimal.Decimal
    | Uuid(id: nat)                                   // uuid.UUID, by its 128-bit integer
    | Pattern(source: string, flags: set<RegexFlag>)  // a compiled re.Pattern
    | Arr(elems: seq<Value>)                          // list
    | Obj(fields: seq<(string, Value)>)               // dict, in insertion order

  /** What a matcher produces: a boolean, or a Python exception that escapes it. */
  datatype Outcome = Done(matched: bool) | Raised

  /** The library code the engine calls but that is not part of this model:
      the parsers behind `date.fromisoformat`, `datetime.fromisoformat`,
      `uuid.UUID` and `decimal.Decimal` applied to a string (None where they
      raise), and the regular-expression engine. */
  datatype Env = Env(
    parseDate: string -> Option<int>,
    parseDateTime: string -> Option<DateTimeVal>,
    parseUuid: string -> Option<nat>,
    parseDecimal: string -> Option<DecimalVal>,
    compiles: (string, set<RegexFlag>) -> bool,
    search: (string, set<RegexFlag>, string) -> bool)

  // ---------------------------------------------------------------------------
  // Dictionaries

  predicate HasKey(fs: seq<(string, Value)>, k: string) {
    exists i :: 0 <= i < |fs| && fs[i].0 == k
  }

  /** Position of the (first) entry with key k. */
  function KeyIndex(fs: seq<(string, Value)>, k: string): (r: nat)
    requires HasKey(fs, k)
    ensures r < |fs| && fs[r].0 == k
    ensures forall j :: 0 <= j < r ==> fs[j].0 != k
  {
    if fs[0].0 == k then 0
    else
      assert HasKey(fs[1..], k) by {
        var i :| 0 <= i < |fs| && fs[i].0 == k;
        assert fs[1..][i - 1].0 == k;
      }
      1 + KeyIndex(fs[1..], k)
  }

  /** `d[k]` */
  function Get(fs: seq<(string, Value)>, k: string): Value
    requires HasKey(fs, k)
  {
    fs[KeyIndex(fs, k)].1
  }

  predicate UniqueKeys(fs: seq<(string, Value)>) {
    forall i, j :: 0 <= i < j < |fs| ==> fs[i].0 != fs[j].0
  }

  /** Every dict in v, at any depth, has distinct keys: true of any value Python builds. */
  predicate WellFormed(v: Value)
    decreases v
  {
    match v
    case Arr(xs) => forall i | 0 <= i < |xs| :: WellFormed(xs[i])
    case Obj(fs) => UniqueKeys(fs) && forall i | 0 <= i < |fs| :: WellFormed(fs[i].1)
    case _ => true
  }

  /** w is v or a value nested anywhere inside it. */
  predicate Occurs(w: Value, v: Value)
    decreases v
  {
    w == v ||
    (v.Arr? && exists i :: 0 <= i < |v.elems| && Occurs(w, v.elems[i])) ||
    (v.Obj? && exists i :: 0 <= i < |v.fields| && Occurs(w, v.fields[i].1))
  }

  // ---------------------------------------------------------------------------
  // Path segments

  predicate IsDigit(c: char) { '0' <= c <= '9' }

  /** `key.isdigit()`, restricted to ASCII digits. */
  predicate IsDigits(s: string) {
    |s| > 0 && forall i :: 0 <= i < |s| ==> IsDigit(s[i])
  }

  /** `int(key)` for a string of decimal digits. */
  function DigitsValue(s: string): nat
    requires forall i :: 0 <= i < |s| ==> IsDigit(s[i])
  {
    if |s| == 0 then 0
    else
      assert IsDigit(s[|s| - 1]);
      10 * DigitsValue(s[..|s| - 1]) + (s[|s| - 1] as int - '0' as int)
  }

  // ---------------------------------------------------------------------------
  // Numbers: bool, int and Decimal are all `numbers.Number`

  predicate IsNumber(v: Value) { v.Bool? || v.Int? || v.Decimal? }

  function Pow10(n: nat): (r: nat)
    ensures r >= 1
  {
    if n == 0 then 1 else 10 * Pow10(n - 1)
  }

  /** A number as units / 10^scale. */
  function AsDecimal(v: Value): DecimalVal
    requires IsNumber(v)
  {
    match v
    case Bool(b) => DecimalVal(if b then 1 else 0, 0)
    case Int(i) => DecimalVal(i, 0)
    case Decimal(d) => d
  }

  function IntCompare(x: int, y: int): (r: Ordering)
    ensures r == Less <==> x < y
    ensures r == Equal <==> x == y
  {
    if x < y then Less else if x == y then Equal else Greater
  }

  /** Numeric comparison across bool, int and Decimal (True == 1). */
  function NumCompare(a: Value, b: Value): Ordering
    requires IsNumber(a) && IsNumber(b)
  {
    var x, y := AsDecimal(a), AsDecimal(b);
    IntCompare(x.units * Pow10(y.scale), y.units * Pow10(x.scale))
  }

  /** Python's ordering of `str`: lexicographic by code point. */
  function StrCompare(a: string, b: string): Ordering
  {
    if |a| == 0 && |b| == 0 then Equal
    else if |a| == 0 then Less
    else if |b| == 0 then Greater
    else if a[0] < b[0] then Less
    else if a[0] > b[0] then Greater
    else StrCompare(a[1..], b[1..])
  }

  /** Naive datetimes compare by wall clock, aware ones by instant; mixing
      the two cannot be ordered (TypeError) and is never equal. */
  function DateTimeCompare(x: DateTimeVal, y: DateTimeVal): Option<Ordering>
  {
    if !x.Aware() && !y.Aware() then Some(IntCompare(x.local, y.local))
    else if x.Aware() && y.Aware() then Some(IntCompare(x.Utc(), y.Utc()))
    else None
  }

  function Flip(o: Ordering): Ordering {
    match o
    case Less => Greater
    case Equal => Equal
    case Greater => Less
  }

  function FlipOpt(o: Option<Ordering>): Option<Ordering> {
    if o.None? then None else Some(Flip(o.value))
  }

  // ---------------------------------------------------------------------------
  // Python `==`

  /** `a == b` in Python, for the kinds above. Dict equality ignores key order:
      same size, and every key of a is in b with an equal value. */
  predicate PyEq(a: Value, b: Value)
    decreases a
  {
    if IsNumber(a) && IsNumber(b) then NumCompare(a, b) == Equal
    else match (a, b)
      case (Null, Null) => true
      case (Str(x), Str(y)) => x == y
      case (Date(x), Date(y)) => x == y
      case (DateTime(x), DateTime(y)) => DateTimeCompare(x, y) == Some(Equal)
      case (Uuid(x), Uuid(y)) => x == y
      case (Pattern(s1, f1), Pattern(s2, f2)) => s1 == s2 && f1 == f2
      case (Arr(xs), Arr(ys)) =>
        |xs| == |ys| && forall i | 0 <= i < |xs| :: PyEq(xs[i], ys[i])
      case (Obj(xs), Obj(ys)) =>
        |xs| == |ys| &&
        forall i | 0 <= i < |xs| :: HasKey(ys, xs[i].0) && PyEq(xs[i].1, Get(ys, xs[i].0))
      case _ => false
  }

  // ---------------------------------------------------------------------------
  // Python `<`, `<=`, `>`, `>=`

  /** The ordering Python's comparison operators use, or None where they raise
      TypeError: mismatched kinds, None, dicts, patterns, naive vs aware. */
  function NativeCompare(a: Value, b: Value): Option<Ordering>
    decreases a, 1
  {
    if IsNumber(a) && IsNumber(b) then Some(NumCompare(a, b))
    else match (a, b)
      case (Str(x), Str(y)) => Some(StrCompare(x, y))
      case (Date(x), Date(y)) => Some(IntCompare(x, y))
      case (DateTime(x), DateTime(y)) => DateTimeCompare(x, y)
      case (Uuid(x), Uuid(y)) => Some(IntCompare(x, y))
      case (Arr(xs), Arr(ys)) => ListCompare(a, b, 0)
      case _ => None
  }

  /** List ordering from position i on: the first pair of elements that are not
      `==` decides (and may raise); if there is none, the shorter list is smaller. */
  function ListCompare(a: Value, b: Value, i: nat): Option<Ordering>
    requires a.Arr? && b.Arr?
    decreases a, 0, |a.elems| - i
  {
    var xs, ys := a.elems, b.elems;
    if i >= |xs| || i >= |ys| then Some(IntCompare(|xs|, |ys|))
    else if PyEq(xs[i], ys[i]) then ListCompare(a, b, i + 1)
    else NativeCompare(xs[i], ys[i])
  }

  /** `a op b` where op accepts exactly the orderings in `accept`. */
  function Compared(c: Option<Ordering>, accept: set<Ordering>): Outcome {
    if c.None? then Raised else Done(c.value in accept)
  }

  const GE: set<Ordering> := {Greater, Equal}
  const GT: set<Ordering> := {Greater}
  const LE: set<Ordering> := {Less, Equal}
  const LT: set<Ordering> := {Less}

  /** `a >= b` is `not (a < b)` and `a <= b` is `not (a > b)`, raising alike. */
  lemma ComparedComplement(c: Option<Ordering>)
    ensures Compared(c, GE) == Negate(Compared(c, LT))
    ensures Compared(c, LE) == Negate(Compared(c, GT))
  {
    if c.Some? {
      assert c.value in GE <==> c.value != Less;
      assert c.value in LE <==> c.value != Greater;
    }
  }

  // ---------------------------------------------------------------------------
  // any / all / not over outcomes

  /** `any([...])`: the whole list is built first, so any exception escapes. */
  function AnyEager(os: seq<Outcome>): Outcome {
    if exists i :: 0 <= i < |os| && os[i].Raised? then Raised
    else Done(exists i :: 0 <= i < |os| && os[i].matched)
  }

  /** `all(results)` over a list built first. */
  function AllEager(os: seq<Outcome>): Outcome {
    if exists i :: 0 <= i < |os| && os[i].Raised? then Raised
    else Done(forall i :: 0 <= i < |os| ==> os[i].matched)
  }

  /** `any(generator)`: stops at the first true, or at the first exception. */
  function AnyLazy(os: seq<Outcome>): Outcome {
    if |os| == 0 then Done(false)
    else if os[0] == Done(false) then AnyLazy(os[1..])
    else os[0]
  }

  /** `all(generator)`: stops at the first false, or at the first exception. */
  function AllLazy(os: seq<Outcome>): Outcome {
    if |os| == 0 then Done(true)
    else if os[0] == Done(true) then AllLazy(os[1..])
    else os[0]
  }

  /** `not x`, where the exception of x still escapes. */
  function Negate(o: Outcome): Outcome {
    if o.Raised? then Raised else Done(!o.matched)
  }

  /** Over a single result, `all` and `any` are that result. */
  lemma EagerSingle(o: Outcome)
    ensures AllEager([o]) == o && AnyEager([o]) == o
  {
    var s := [o];
    assert s[0] == o;
    if o.Raised? {
      assert s[0].Raised?;
    } else {
      assert !exists i :: 0 <= i < |s| && s[i].Raised?;
      assert (forall i :: 0 <= i < |s| ==> s[i].matched) == o.matched;
      assert (exists i :: 0 <= i < |s| && s[i].matched) == o.matched;
    }
  }

  /** An exception anywhere in the list escapes `all`. */
  lemma RaisedEscapes(a: seq<Outcome>, f: seq<Outcome>, b: seq<Outcome>)
    requires Raised in f
    ensures AllEager(a + f + b) == Raised
  {
    var k :| 0 <= k < |f| && f[k] == Raised;
    assert (a + f + b)[|a| + k] == Raised;
  }

  /** `all` over two lists joined is the conjunction of the two, and an
      exception in either escapes. */
  lemma AllEagerConcat(xs: seq<Outcome>, ys: seq<Outcome>)
    ensures AllEager(xs + ys) ==
            if AllEager(xs).Raised? || AllEager(ys).Raised? then Raised
            else Done(AllEager(xs).matched && AllEager(ys).matched)
  {
    var zs := xs + ys;
    assert forall k :: 0 <= k < |xs| ==> zs[k] == xs[k];
    assert forall k :: 0 <= k < |ys| ==> zs[|xs| + k] == ys[k];
    if exists k :: 0 <= k < |zs| && zs[k].Raised? {
      var k :| 0 <= k < |zs| && zs[k].Raised?;
      if k >= |xs| { assert ys[k - |xs|].Raised?; }
    } else if (forall k :: 0 <= k < |xs| ==> xs[k].matched) && (forall k :: 0 <= k < |ys| ==> ys[k].matched) {
      forall k | 0 <= k < |zs| ensures zs[k].matched {
        if k >= |xs| { assert zs[k] == ys[k - |xs|]; }
      }
    }
  }

  /** Where nothing raises, the generator forms agree with the list forms and
      are the plain disjunction and conjunction. */
  lemma {:induction false} LazyWithoutRaise(os: seq<Outcome>)
    requires forall i :: 0 <= i < |os| ==> !os[i].Raised?
    ensures AnyLazy(os) == AnyEager(os) == Done(exists i :: 0 <= i < |os| && os[i].matched)
    ensures AllLazy(os) == AllEager(os) == Done(forall i :: 0 <= i < |os| ==> os[i].matched)
  {
    if |os| > 0 {
      LazyWithoutRaise(os[1..]);
      assert forall i :: 1 <= i < |os| ==> os[i] == os[1..][i - 1];
    }
  }

  /** A generator `any` that is true names a true element, and one that is
      false saw only false elements; dually for `all`. */
  lemma {:induction false} LazyWitness(os: seq<Outcome>)
    ensures AnyLazy(os) == Done(true) ==> exists i :: 0 <= i < |os| && os[i] == Done(true)
    ensures AnyLazy(os) == Done(false) ==> forall i :: 0 <= i < |os| ==> os[i] == Done(false)
    ensures AllLazy(os) == Done(false) ==> exists i :: 0 <= i < |os| && os[i] == Done(false)
    ensures AllLazy(os) == Done(true) ==> forall i :: 0 <= i < |os| ==> os[i] == Done(true)
  {
    if |os| > 0 {
      LazyWitness(os[1..]);
      assert forall i :: 1 <= i < |os| ==> os[i] == os[1..][i - 1];
      if AnyLazy(os) == Done(true) && os[0] == Done(false) {
        var i :| 0 <= i < |os[1..]| && os[1..][i] == Done(true);
        assert os[i + 1] == Done(true);
      }
      if AllLazy(os) == Done(false) && os[0] == Done(true) {
        var i :| 0 <= i < |os[1..]| && os[1..][i] == Done(false);
        assert os[i + 1] == Done(false);
      }
    }
  }

  /** The generator stops at the first true, so a later exception is never
      reached; the list form builds every element and raises. */
  lemma ShortCircuit()
    ensures AnyLazy([Done(true), Raised]) == Done(true) && AnyEager([Done(true), Raised]) == Raised
    ensures AllLazy([Done(false), Raised]) == Done(false) && AllEager([Done(false), Raised]) == Raised
  {
    assert [Done(true), Raised][1].Raised?;
    assert [Done(false), Raised][1].Raised?;
  }

  // ---------------------------------------------------------------------------
  // Properties of `==` and of the ordering

  function KeySet(fs: seq<(string, Value)>): set<string> {
    set i | 0 <= i < |fs| :: fs[i].0
  }

  lemma KeySetCons(fs: seq<(string, Value)>)
    requires |fs| > 0
    ensures KeySet(fs) == {fs[0].0} + KeySet(fs[1..])
  {
    var rest := fs[1..];
    forall k | k in KeySet(fs) ensures k in {fs[0].0} + KeySet(rest) {
      var i :| 0 <= i < |fs| && fs[i].0 == k;
      if i > 0 { assert rest[i - 1].0 == k; }
    }
    forall k | k in KeySet(rest) ensures k in KeySet(fs) {
      var i :| 0 <= i < |rest| && rest[i].0 == k;
      assert fs[i + 1].0 == k;
    }
  }

  lemma {:induction false} KeySetSize(fs: seq<(string, Value)>)
    requires UniqueKeys(fs)
    ensures |KeySet(fs)| == |fs|
  {
    if |fs| > 0 {
      var rest := fs[1..];
      assert UniqueKeys(rest) by {
        forall i, j | 0 <= i < j < |rest| ensures rest[i].0 != rest[j].0 {
          assert rest[i] == fs[i + 1] && rest[j] == fs[j + 1];
        }
      }
      KeySetSize(rest);
      KeySetCons(fs);
      assert fs[0].0 !in KeySet(rest) by {
        forall i | 0 <= i < |rest| ensures rest[i].0 != fs[0].0 {
          assert rest[i] == fs[i + 1];
        }
      }
    }
  }

  lemma {:induction false} SubsetSize<T>(a: set<T>, b: set<T>)
    requires a <= b
    ensures |a| <= |b|
    decreases a
  {
    if a != {} {
      var x :| x in a;
      SubsetSize(a - {x}, b - {x});
    }
  }

  lemma SubsetSameSize<T>(a: set<T>, b: set<T>)
    requires a <= b && |a| == |b|
    ensures a == b
  {
    if !(b <= a) {
      var x :| x in b && x !in a;
      SubsetSize(a, b - {x});
    }
  }

  /** On dicts with distinct keys, Python's `==` is symmetric. */
  lemma {:induction false} PyEqSymmetric(a: Value, b: Value)
    requires WellFormed(a) && WellFormed(b)
    requires PyEq(a, b)
    ensures PyEq(b, a)
    decreases a
  {
    if IsNumber(a) && IsNumber(b) {
    } else if a.Arr? && b.Arr? {
      forall i | 0 <= i < |a.elems| ensures PyEq(b.elems[i], a.elems[i]) {
        PyEqSymmetric(a.elems[i], b.elems[i]);
      }
    } else if a.Obj? && b.Obj? {
      var xs, ys := a.fields, b.fields;
      assert KeySet(xs) <= KeySet(ys) by {
        forall k | k in KeySet(xs) ensures k in KeySet(ys) {
          var i :| 0 <= i < |xs| && xs[i].0 == k;
          assert HasKey(ys, k);
          var j := KeyIndex(ys, k);
          assert ys[j].0 == k;
        }
      }
      KeySetSize(xs);
      KeySetSize(ys);
      SubsetSameSize(KeySet(xs), KeySet(ys));
      forall j | 0 <= j < |ys| ensures HasKey(xs, ys[j].0) && PyEq(ys[j].1, Get(xs, ys[j].0)) {
        var k := ys[j].0;
        assert k in KeySet(ys);
        var i :| 0 <= i < |xs| && xs[i].0 == k;
        assert KeyIndex(xs, k) == i;
        assert KeyIndex(ys, k) == j;
        PyEqSymmetric(xs[i].1, ys[j].1);
      }
    }
  }

  lemma {:induction false} StrCompareFlip(x: string, y: string)
    ensures StrCompare(y, x) == Flip(StrCompare(x, y))
  {
    if |x| > 0 && |y| > 0 && x[0] == y[0] {
      StrCompareFlip(x[1..], y[1..]);
    }
  }

  /** Every well-formed value equals itself. */
  lemma {:induction false} PyEqReflexive(v: Value)
    requires WellFormed(v)
    ensures PyEq(v, v)
    decreases v
  {
    match v
    case Arr(xs) =>
      forall i | 0 <= i < |xs| ensures PyEq(xs[i], xs[i]) { PyEqReflexive(xs[i]); }
    case Obj(fs) =>
      forall i | 0 <= i < |fs| ensures HasKey(fs, fs[i].0) && PyEq(fs[i].1, Get(fs, fs[i].0)) {
        assert HasKey(fs, fs[i].0);
        assert KeyIndex(fs, fs[i].0) == i;
        PyEqReflexive(fs[i].1);
      }
    case _ =>
  }

  /** Only equal strings compare Equal. */
  lemma {:induction false} StrCompareEqual(x: string, y: string)
    ensures StrCompare(x, y) == Equal <==> x == y
  {
    if |x| > 0 && |y| > 0 && x[0] == y[0] {
      StrCompareEqual(x[1..], y[1..]);
      assert x == [x[0]] + x[1..] && y == [y[0]] + y[1..];
    }
  }

  /** Swapping the operands of a comparison reverses its outcome, and a pair
      that cannot be ordered cannot be ordered either way round. */
  lemma {:induction false} NativeCompareFlip(a: Value, b: Value)
    requires WellFormed(a) && WellFormed(b)
    ensures NativeCompare(b, a) == FlipOpt(NativeCompare(a, b))
    decreases a, 1
  {
    if IsNumber(a) && IsNumber(b) {
    } else if a.Str? && b.Str? {
      StrCompareFlip(a.s, b.s);
    } else if a.Arr? && b.Arr? {
      ListCompareFlip(a, b, 0);
    }
  }

  lemma {:induction false} ListCompareFlip(a: Value, b: Value, i: nat)
    requires a.Arr? && b.Arr? && WellFormed(a) && WellFormed(b)
    ensures ListCompare(b, a, i) == FlipOpt(ListCompare(a, b, i))
    decreases a, 0, |a.elems| - i
  {
    var xs, ys := a.elems, b.elems;
    if i < |xs| && i < |ys| {
      if PyEq(xs[i], ys[i]) {
        PyEqSymmetric(xs[i], ys[i]);
        ListCompareFlip(a, b, i + 1);
      } else {
        if PyEq(ys[i], xs[i]) { PyEqSymmetric(ys[i], xs[i]); }
        NativeCompareFlip(xs[i], ys[i]);
      }
    }
  }
}
