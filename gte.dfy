/** `$gte` (mgqpy/operators/gte.py; the same function is repeated in
    mgqpy/__init__.py): native `>=` on numbers, strings and lists, the
    insertion-order walk on dicts, null matching null; no coercion. */
module Gte {
  import opened Values
  import opened Paths
  import opened ObjectOrder

  /** The test at the end of the path; a raised TypeError escapes. */
  function Leaf(doc: Value, ov: Value): Outcome {
    if doc.Arr? && ov.Arr? then Compared(NativeCompare(doc, ov), GE)
    else if doc.Obj? && ov.Obj? then
      if |doc.fields| == 0 && |ov.fields| == 0 then Done(true)
      else Compare(doc.fields, ov.fields, GteRule)
    else if IsNumber(doc) && IsNumber(ov) then Done(NumCompare(doc, ov) in GE)
    else if doc.Str? && ov.Str? then Done(StrCompare(doc.s, ov.s) in GE)
    else Done(doc.Null? && ov.Null?)
  }

  /** `_match_gte(doc, path, ov)`: a path that cannot be followed matches a null operand. */
  function Gte(doc: Value, path: seq<string>, ov: Value): Outcome {
    Resolve(doc, path, v => Leaf(v, ov), true, Done(ov.Null?))
  }

  /** A null operand matches exactly the documents in which the path reaches
      a null or falls off somewhere. */
  lemma NullOperand(doc: Value, path: seq<string>)
    ensures Gte(doc, path, Null) ==
            Done(exists e :: e in Endpoints(doc, path, true) && (e.Fell? || e.v.Null?))
  {
    ResolveByEndpoints(doc, path, v => Leaf(v, Null), true, Done(true));
  }

  /** Only a list against a list or a dict against a dict can raise. */
  lemma LeafRaises(a: Value, b: Value)
    ensures Leaf(a, b).Raised? ==> (a.Arr? && b.Arr?) || (a.Obj? && b.Obj?)
  {
  }

  /** Any pair other than number/number, str/str, null/null, list/list and
      dict/dict is false. */
  lemma MixedKinds(a: Value, b: Value)
    requires !(IsNumber(a) && IsNumber(b)) && !(a.Str? && b.Str?) && !(a.Null? && b.Null?)
    requires !(a.Arr? && b.Arr?) && !(a.Obj? && b.Obj?)
    ensures Leaf(a, b) == Done(false)
  {
  }
}
