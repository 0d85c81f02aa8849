/** The insertion-order comparison of two dicts that `$gt`, `$gte`, `$lt` and
    `$lte` share: `zip_longest` over the two key lists, stopping at the first
    key pair or value pair that differs. The four operators differ only in how
    they read each way the walk can stop. */
module ObjectOrder {
  import opened Values

  /** Where the walk over the keys stops. */
  datatype Stop =
    | DocExhausted                            // the document dict ran out of keys first
    | OvExhausted                             // the operand dict ran out of keys first
    | KeysDiffer(docKey: string, ovKey: string)
    | ValuesDiffer(docAbove: bool)            // at equal keys, doc value > (true) or < (false) operand value
    | Identical                               // the loop ran to completion

  /** The `for doc_key, ov_key in zip_longest(...)` loop; None where comparing
      two values under the same key raises. For a dict the i-th entry's value
      is `doc[doc_key]`, since its keys are distinct. */
  function Walk(d: seq<(string, Value)>, o: seq<(string, Value)>): Option<Stop>
    decreases |d|
  {
    if |d| == 0 && |o| == 0 then Some(Identical)
    else if |d| == 0 then Some(DocExhausted)
    else if |o| == 0 then Some(OvExhausted)
    else if d[0].0 != o[0].0 then Some(KeysDiffer(d[0].0, o[0].0))
    else
      match NativeCompare(d[0].1, o[0].1)
      case None => None
      case Some(Greater) => Some(ValuesDiffer(true))
      case Some(Less) => Some(ValuesDiffer(false))
      case Some(Equal) => Walk(d[1..], o[1..])
  }

  /** How an operator reads the stops: its result when the document runs out
      first, when the operand runs out first, when the walk completes, and
      whether it asks for the document side to be above (`$gt`, `$gte`) or
      below (`$lt`, `$lte`) the operand at the first difference. */
  datatype Rule = Rule(docShorter: bool, ovShorter: bool, identical: bool, above: bool)

  const GtRule := Rule(false, true, false, true)
  const GteRule := Rule(false, true, true, true)
  const LtRule := Rule(true, false, false, false)
  const LteRule := Rule(true, false, true, false)

  function Decide(w: Option<Stop>, rule: Rule): Outcome {
    match w
    case None => Raised
    case Some(DocExhausted) => Done(rule.docShorter)
    case Some(OvExhausted) => Done(rule.ovShorter)
    case Some(KeysDiffer(dk, ok)) => Done(StrCompare(dk, ok) == (if rule.above then Greater else Less))
    case Some(ValuesDiffer(up)) => Done(up == rule.above)
    case Some(Identical) => Done(rule.identical)
  }

  /** The object branch of an ordering operator, after its both-empty check. */
  function Compare(d: seq<(string, Value)>, o: seq<(string, Value)>, rule: Rule): Outcome {
    Decide(Walk(d, o), rule)
  }

  /** The walk seen from the other side. */
  function Swap(w: Option<Stop>): Option<Stop> {
    match w
    case None => None
    case Some(DocExhausted) => Some(OvExhausted)
    case Some(OvExhausted) => Some(DocExhausted)
    case Some(KeysDiffer(dk, ok)) => Some(KeysDiffer(ok, dk))
    case Some(ValuesDiffer(up)) => Some(ValuesDiffer(!up))
    case Some(Identical) => Some(Identical)
  }

  predicate ValuesWellFormed(fs: seq<(string, Value)>) {
    forall i :: 0 <= i < |fs| ==> WellFormed(fs[i].1)
  }

  /** Swapping the two dicts swaps the stop: the side that runs out, the key
      pair and the direction of the deciding values. */
  lemma {:induction false} WalkSwap(d: seq<(string, Value)>, o: seq<(string, Value)>)
    requires ValuesWellFormed(d) && ValuesWellFormed(o)
    ensures Walk(o, d) == Swap(Walk(d, o))
    decreases |d|
  {
    if |d| > 0 && |o| > 0 && d[0].0 == o[0].0 {
      NativeCompareFlip(d[0].1, o[0].1);
      if NativeCompare(d[0].1, o[0].1) == Some(Equal) {
        WalkSwap(d[1..], o[1..]);
      }
    }
  }

  /** The walk stops at a key pair only where the keys differ. */
  lemma {:induction false} KeysDifferDistinct(d: seq<(string, Value)>, o: seq<(string, Value)>)
    ensures Walk(d, o).Some? && Walk(d, o).value.KeysDiffer? ==>
            Walk(d, o).value.docKey != Walk(d, o).value.ovKey
    decreases |d|
  {
    if |d| > 0 && |o| > 0 && d[0].0 == o[0].0 && NativeCompare(d[0].1, o[0].1) == Some(Equal) {
      KeysDifferDistinct(d[1..], o[1..]);
    }
  }

  /** `$gt` of d over o is `$lt` of o under d, and `$gte` is `$lte` mirrored. */
  lemma Mirror(d: seq<(string, Value)>, o: seq<(string, Value)>)
    requires ValuesWellFormed(d) && ValuesWellFormed(o)
    ensures Compare(o, d, LtRule) == Compare(d, o, GtRule)
    ensures Compare(o, d, LteRule) == Compare(d, o, GteRule)
  {
    WalkSwap(d, o);
    var w := Walk(d, o);
    if w.Some? && w.value.KeysDiffer? {
      StrCompareFlip(w.value.docKey, w.value.ovKey);
    }
  }

  /** The inclusive rule of each direction differs from the strict one only
      when the walk completes, i.e. when no key or value pair differs. */
  lemma TieBreak(d: seq<(string, Value)>, o: seq<(string, Value)>)
    ensures Compare(d, o, GteRule) == Done(true) <==>
            Compare(d, o, GtRule) == Done(true) || Walk(d, o) == Some(Identical)
    ensures Compare(d, o, LteRule) == Done(true) <==>
            Compare(d, o, LtRule) == Done(true) || Walk(d, o) == Some(Identical)
    ensures Compare(d, o, GtRule).Raised? <==> Compare(d, o, GteRule).Raised?
  {
  }

  /** Each strict rule is the negation of the inclusive rule of the other
      direction. */
  lemma Complement(d: seq<(string, Value)>, o: seq<(string, Value)>)
    ensures Compare(d, o, GteRule) == Negate(Compare(d, o, LtRule))
    ensures Compare(d, o, LteRule) == Negate(Compare(d, o, GtRule))
  {
    KeysDifferDistinct(d, o);
    var w := Walk(d, o);
    if w.Some? && w.value.KeysDiffer? {
      StrCompareEqual(w.value.docKey, w.value.ovKey);
      StrCompareFlip(w.value.docKey, w.value.ovKey);
    }
  }

  /** The walk follows insertion order while `==` does not: a dict with the
      same entries in another order is equal, yet `$gte` is false and `$lte`
      true because the first keys already differ. */
  lemma KeyOrderMatters()
    ensures PyEq(Obj([("a", Int(1)), ("b", Int(2))]), Obj([("b", Int(2)), ("a", Int(1))]))
    ensures Compare([("a", Int(1)), ("b", Int(2))], [("b", Int(2)), ("a", Int(1))], GteRule) == Done(false)
    ensures Compare([("a", Int(1)), ("b", Int(2))], [("b", Int(2)), ("a", Int(1))], LteRule) == Done(true)
  {
    var xs := [("a", Int(1)), ("b", Int(2))];
    var ys := [("b", Int(2)), ("a", Int(1))];
    assert HasKey(ys, "a") && HasKey(ys, "b") by { assert ys[1].0 == "a" && ys[0].0 == "b"; }
    assert Get(ys, "a") == Int(1);
    assert StrCompare("a", "b") == Less;
  }
}
