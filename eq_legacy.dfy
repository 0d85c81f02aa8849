/** `$eq`, `$ne` of the older package (mgqpy/operators/eq_ne_not.py): no
    coercion; a compiled-pattern operand also accepts a string it is found in. */
module EqLegacy {
  import opened Values
  import opened Paths

  /** The test at the end of the path: a pattern search that succeeds, or else
      Python's `doc == ov`. */
  function Leaf(env: Env, doc: Value, ov: Value): Outcome {
    if ov.Pattern? && doc.Str? && env.search(ov.source, ov.flags, doc.s) then Done(true)
    else Done(PyEq(doc, ov))
  }

  /** `_match_eq(doc, path, ov)`: a path that cannot be followed matches a null operand. */
  function Eq(env: Env, doc: Value, path: seq<string>, ov: Value): Outcome {
    Resolve(doc, path, v => Leaf(env, v, ov), true, Done(ov.Null?))
  }

  /** `_match_ne(doc, path, ov)` */
  function Ne(env: Env, doc: Value, path: seq<string>, ov: Value): Outcome {
    Negate(Eq(env, doc, path, ov))
  }

  /** `$eq` holds exactly when some place the path reaches (a list, or any of
      its elements at any depth, at the end of the path) equals the operand or
      holds a string the pattern operand is found in, or when the path falls
      off somewhere and the operand is null. It never raises. */
  lemma Semantics(env: Env, doc: Value, path: seq<string>, ov: Value)
    ensures Eq(env, doc, path, ov) ==
            Done(exists e :: e in Endpoints(doc, path, true) &&
                   match e
                   case Reached(v) => PyEq(v, ov) || (ov.Pattern? && v.Str? && env.search(ov.source, ov.flags, v.s))
                   case Fell => ov.Null?)
  {
    ResolveByEndpoints(doc, path, v => Leaf(env, v, ov), true, Done(ov.Null?));
  }

  /** `$ne` is exactly the negation of the whole `$eq` traversal. */
  lemma NeIsNotEq(env: Env, doc: Value, path: seq<string>, ov: Value)
    ensures Eq(env, doc, path, ov).Done? && Ne(env, doc, path, ov).Done?
    ensures Ne(env, doc, path, ov).matched == !Eq(env, doc, path, ov).matched
  {
    ResolveNeverRaises(doc, path, v => Leaf(env, v, ov), true, Done(ov.Null?));
  }

  /** A pattern operand matches a string leaf it is found in; where the search
      fails the string is compared with `==`, which a pattern never equals. */
  lemma PatternLeaf(env: Env, s: string, source: string, flags: set<RegexFlag>)
    ensures Eq(env, Str(s), [], Pattern(source, flags)) == Done(env.search(source, flags, s))
  {
  }
}
