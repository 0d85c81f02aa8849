/** `$eq`, `$ne` of the current package (src/mgqpy/operators/eq_ne_not.py):
    a pattern operand decides a string leaf by search alone; everything else is
    coerced pairwise and then compared with `==`. */
module EqSrc {
  import opened Values
  import opened Paths
  import opened Coercion
  import EqLegacy

  /** The test at the end of the path. */
  function Leaf(env: Env, doc: Value, ov: Value): Outcome {
    if ov.Pattern? && doc.Str? then Done(env.search(ov.source, ov.flags, doc.s))
    else
      var (d, o) := Coerce(env, doc, ov);
      Done(PyEq(d, o))
  }

  /** `_match_eq(doc, path, ov)` */
  function Eq(env: Env, doc: Value, path: seq<string>, ov: Value): Outcome {
    Resolve(doc, path, v => Leaf(env, v, ov), true, Done(ov.Null?))
  }

  /** `_match_ne(doc, path, ov)` */
  function Ne(env: Env, doc: Value, path: seq<string>, ov: Value): Outcome {
    Negate(Eq(env, doc, path, ov))
  }

  /** Whether one place the path reaches (or falls off at) satisfies `$eq`. */
  predicate Accepts(env: Env, e: Endpoint, ov: Value) {
    match e
    case Reached(v) => Leaf(env, v, ov) == Done(true)
    case Fell => ov.Null?
  }

  /** `$eq` holds exactly when some place the path reaches equals the operand
      after coercion (or is a string the pattern operand is found in), or the
      path falls off somewhere and the operand is null. It never raises. */
  lemma Semantics(env: Env, doc: Value, path: seq<string>, ov: Value)
    ensures Eq(env, doc, path, ov) ==
            Done(exists e :: e in Endpoints(doc, path, true) && Accepts(env, e, ov))
  {
    ResolveByEndpoints(doc, path, v => Leaf(env, v, ov), true, Done(ov.Null?));
  }

  /** `$ne` is exactly the negation of the whole `$eq` traversal: it holds
      when no place the path reaches is accepted by `$eq`, so a single equal
      element of a list already makes it false. */
  lemma NeIsNotEq(env: Env, doc: Value, path: seq<string>, ov: Value)
    ensures Ne(env, doc, path, ov) ==
            Done(!exists e :: e in Endpoints(doc, path, true) && Accepts(env, e, ov))
    ensures Eq(env, doc, path, ov).Done? && Ne(env, doc, path, ov).matched == !Eq(env, doc, path, ov).matched
  {
    Semantics(env, doc, path, ov);
  }

  /** A pattern operand decides a string leaf by the search alone. */
  lemma PatternLeaf(env: Env, s: string, source: string, flags: set<RegexFlag>)
    ensures Eq(env, Str(s), [], Pattern(source, flags)) == Done(env.search(source, flags, s))
  {
  }

  /** Away from patterns, the leaf test does not depend on which side is the
      document value. */
  lemma LeafSymmetric(env: Env, a: Value, b: Value)
    requires WellFormed(a) && WellFormed(b)
    requires !a.Pattern? && !b.Pattern?
    ensures Leaf(env, a, b) == Leaf(env, b, a)
  {
    CoerceSymmetric(env, a, b);
    CoerceWellFormed(env, a, b);
    var (x, y) := Coerce(env, a, b);
    if PyEq(x, y) { PyEqSymmetric(x, y); }
    if PyEq(y, x) { PyEqSymmetric(y, x); }
  }

  /** With no date, datetime, Decimal or UUID in the document or the operand,
      the current `$eq` is the older one. */
  lemma AgreesWithLegacy(env: Env, doc: Value, path: seq<string>, ov: Value)
    requires TriggerFree(doc) && !Triggers(ov)
    ensures Eq(env, doc, path, ov) == EqLegacy.Eq(env, doc, path, ov)
  {
    forall v | Occurs(v, doc) ensures Leaf(env, v, ov) == EqLegacy.Leaf(env, v, ov) {
      CoercePassthrough(env, v, ov);
    }
    ResolveAgree(doc, path, v => Leaf(env, v, ov), v => EqLegacy.Leaf(env, v, ov), true, Done(ov.Null?));
  }

  /** Coercion at work: a string that parses as the Decimal operand's value
      matches it here but not in the older `$eq`. */
  lemma DecimalString(env: Env, s: string, d: DecimalVal)
    requires env.parseDecimal(s) == Some(d)
    ensures Eq(env, Str(s), [], Decimal(d)) == Done(true)
    ensures EqLegacy.Eq(env, Str(s), [], Decimal(d)) == Done(false)
  {
    assert PyEq(Decimal(d), Decimal(d));
  }
}
