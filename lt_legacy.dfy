/** `$lt` of the older package (mgqpy/operators/lt.py; the same function is
    repeated in mgqpy/__init__.py): like `$gte` reversed and strict, with no
    null rule and a false default where the path cannot be followed. */
module LtLegacy {
  import opened Values
  import opened Paths
  import opened ObjectOrder
  import Gte

  /** The test at the end of the path; a raised TypeError escapes. */
  function Leaf(doc: Value, ov: Value): Outcome {
    if doc.Arr? && ov.Arr? then Compared(NativeCompare(doc, ov), LT)
    else if doc.Obj? && ov.Obj? then
      if |doc.fields| == 0 && |ov.fields| == 0 then Done(false)
      else Compare(doc.fields, ov.fields, LtRule)
    else if IsNumber(doc) && IsNumber(ov) then Done(NumCompare(doc, ov) == Less)
    else if doc.Str? && ov.Str? then Done(StrCompare(doc.s, ov.s) == Less)
    else Done(false)
  }

  /** `_match_lt(doc, path, ov)` */
  function Lt(doc: Value, path: seq<string>, ov: Value): Outcome {
    Resolve(doc, path, v => Leaf(v, ov), true, Done(false))
  }

  /** There is no null rule: a null operand matches nothing, not even a null
      leaf or a missing path. */
  lemma NullNeverMatches(doc: Value, path: seq<string>)
    ensures Lt(doc, path, Null) == Done(false)
  {
    ResolveByEndpoints(doc, path, v => Leaf(v, Null), true, Done(false));
  }

  /** On every pair of kinds the two operators order, `$gte` is the negation
      of this `$lt` (and one raises exactly when the other does); on any other
      pair both are false. */
  lemma GteComplementsLt(a: Value, b: Value)
    ensures (IsNumber(a) && IsNumber(b)) || (a.Str? && b.Str?) || (a.Null? && b.Null?) ||
            (a.Arr? && b.Arr?) || (a.Obj? && b.Obj?)
            ==> Gte.Leaf(a, b) == Negate(Leaf(a, b))
    ensures !((IsNumber(a) && IsNumber(b)) || (a.Str? && b.Str?) || (a.Null? && b.Null?) ||
              (a.Arr? && b.Arr?) || (a.Obj? && b.Obj?))
            ==> Gte.Leaf(a, b) == Done(false) && Leaf(a, b) == Done(false)
  {
    if a.Arr? && b.Arr? {
      ComparedComplement(NativeCompare(a, b));
    } else if a.Obj? && b.Obj? && !(|a.fields| == 0 && |b.fields| == 0) {
      Complement(a.fields, b.fields);
    }
  }
}
