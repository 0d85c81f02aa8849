/** `$lt` of the current package (src/mgqpy/operators/lt.py): the list and
    dict rules, then coercion and native `<` inside a `try` whose failure gives
    false; a path that cannot be followed is false. */
module LtSrc {
  import opened Values
  import opened Paths
  import opened ObjectOrder
  import opened Coercion
  import LtLegacy

  /** The test at the end of the path; only the list and dict comparisons,
      which sit outside the `try`, can raise. */
  function Leaf(env: Env, doc: Value, ov: Value): Outcome {
    if doc.Arr? && ov.Arr? then Compared(NativeCompare(doc, ov), LT)
    else if doc.Obj? && ov.Obj? then
      if |doc.fields| == 0 && |ov.fields| == 0 then Done(false)
      else Compare(doc.fields, ov.fields, LtRule)
    else
      var (d, o) := Coerce(env, doc, ov);
      match NativeCompare(d, o)
      case None => Done(false)
      case Some(c) => Done(c == Less)
  }

  /** `_match_lt(doc, path, ov)` */
  function Lt(env: Env, doc: Value, path: seq<string>, ov: Value): Outcome {
    Resolve(doc, path, v => Leaf(env, v, ov), true, Done(false))
  }

  /** With no date, datetime, Decimal or UUID in the document or the operand,
      the current `$lt` is the older one. */
  lemma AgreesWithLegacy(env: Env, doc: Value, path: seq<string>, ov: Value)
    requires TriggerFree(doc) && !Triggers(ov)
    ensures Lt(env, doc, path, ov) == LtLegacy.Lt(doc, path, ov)
  {
    forall v | Occurs(v, doc) ensures Leaf(env, v, ov) == LtLegacy.Leaf(v, ov) {
      CoercePassthrough(env, v, ov);
    }
    ResolveAgree(doc, path, v => Leaf(env, v, ov), v => LtLegacy.Leaf(v, ov), true, Done(false));
  }

  /** The leaf test is asymmetric: coercion does not depend on the side, so
      no two values are each below the other. */
  lemma Asymmetric(env: Env, a: Value, b: Value)
    requires WellFormed(a) && WellFormed(b)
    ensures !(Leaf(env, a, b) == Done(true) && Leaf(env, b, a) == Done(true))
  {
    if a.Arr? && b.Arr? {
      NativeCompareFlip(a, b);
    } else if a.Obj? && b.Obj? {
      if !(|a.fields| == 0 && |b.fields| == 0) {
        Mirror(a.fields, b.fields);
        var w := Walk(a.fields, b.fields);
        if w.Some? && w.value.KeysDiffer? {
          StrCompareFlip(w.value.docKey, w.value.ovKey);
        }
      }
    } else {
      CoerceSymmetric(env, a, b);
      CoerceWellFormed(env, a, b);
      NativeCompareFlip(Coerce(env, a, b).0, Coerce(env, a, b).1);
    }
  }

  /** Coercion at work: "9" is below Decimal 10 once parsed, and swapping the
      sides gives the opposite answer. */
  lemma DecimalString(env: Env)
    requires env.parseDecimal("9") == Some(DecimalVal(9, 0))
    ensures Leaf(env, Str("9"), Decimal(DecimalVal(10, 0))) == Done(true)
    ensures Leaf(env, Decimal(DecimalVal(10, 0)), Str("9")) == Done(false)
  {
  }

  /** A null operand matches nothing: null against null raises inside the
      `try`, and the default where the path falls off is false. */
  lemma NullNeverMatches(env: Env, doc: Value, path: seq<string>)
    ensures Lt(env, doc, path, Null) == Done(false)
  {
    ResolveByEndpoints(doc, path, v => Leaf(env, v, Null), true, Done(false));
  }
}
