/** `$lte` of the older package (mgqpy/operators/lte.py): the list, dict and
    null rules of `$gte` mirrored, then the older coercion and native `<=`
    inside a `try` whose failure gives false. */
module Lte {
  import opened Values
  import opened Paths
  import opened ObjectOrder
  import Coercion
  import CoerceLegacy
  import Gte

  /** The test at the end of the path; only the list and dict comparisons,
      which sit outside the `try`, can raise. */
  function Leaf(env: Env, doc: Value, ov: Value): Outcome {
    if doc.Arr? && ov.Arr? then Compared(NativeCompare(doc, ov), LE)
    else if doc.Obj? && ov.Obj? then
      if |doc.fields| == 0 && |ov.fields| == 0 then Done(true)
      else Compare(doc.fields, ov.fields, LteRule)
    else if doc.Null? && ov.Null? then Done(true)
    else
      var (d, o) := CoerceLegacy.Coerce(env, doc, ov);
      match NativeCompare(d, o)
      case None => Done(false)
      case Some(c) => Done(c in LE)
  }

  /** `_match_lte(doc, path, ov)`: a path that cannot be followed matches a null operand. */
  function Lte(env: Env, doc: Value, path: seq<string>, ov: Value): Outcome {
    Resolve(doc, path, v => Leaf(env, v, ov), true, Done(ov.Null?))
  }

  /** Away from dates, datetimes, Decimals and UUIDs the leaf test is the
      `$gte` leaf test with the two sides swapped. */
  lemma MirrorsGte(env: Env, a: Value, b: Value)
    requires WellFormed(a) && WellFormed(b)
    requires !Coercion.Triggers(a) && !Coercion.Triggers(b)
    ensures Leaf(env, a, b) == Gte.Leaf(b, a)
  {
    NativeCompareFlip(a, b);
    if a.Obj? && b.Obj? {
      Mirror(b.fields, a.fields);
    } else if a.Str? && b.Str? {
      StrCompareFlip(a.s, b.s);
    }
  }

  /** With a null operand `$lte` and `$gte` agree everywhere: a null leaf or a
      path that falls off matches, nothing else does. */
  lemma NullOperand(env: Env, doc: Value, path: seq<string>)
    ensures Lte(env, doc, path, Null) == Gte.Gte(doc, path, Null)
  {
    forall v | Occurs(v, doc) ensures Leaf(env, v, Null) == Gte.Leaf(v, Null) {
    }
    ResolveAgree(doc, path, v => Leaf(env, v, Null), v => Gte.Leaf(v, Null), true, Done(true));
  }

  /** Unlike `$gte`, this `$lte` orders dates, also against a string that
      parses as one. */
  lemma OrdersDates(env: Env, x: int, y: int, s: string)
    ensures Leaf(env, Date(x), Date(y)) == Done(x <= y)
    ensures Gte.Leaf(Date(y), Date(x)) == Done(false)
    ensures env.parseDate(s) == Some(y) ==> Leaf(env, Date(x), Str(s)) == Done(x <= y)
  {
  }

  /** Only a list against a list or a dict against a dict can raise. */
  lemma LeafRaises(env: Env, a: Value, b: Value)
    ensures Leaf(env, a, b).Raised? ==> (a.Arr? && b.Arr?) || (a.Obj? && b.Obj?)
  {
  }
}
