/** `$all` (mgqpy/operators/all.py): the value at the end of the path must be
    a list, and every operand element must be one of its members or equal to
    the whole list. */
module All {
  import opened Values
  import opened Paths

  /** `o in doc` for a list: some member is `==` to o. */
  predicate Member(o: Value, es: seq<Value>) {
    exists i :: 0 <= i < |es| && PyEq(es[i], o)
  }

  /** `_validate_all(ov)` */
  predicate ValidOperand(ov: Value) { ov.Arr? }

  /** The test at the end of the path: `all([o in doc or o == doc for o in ov])`. */
  function Leaf(doc: Value, os: seq<Value>): Outcome {
    if !doc.Arr? then Done(false)
    else Done(forall j :: 0 <= j < |os| ==> Member(os[j], doc.elems) || PyEq(os[j], doc))
  }

  /** `_match_all(doc, path, ov)`: no element search at the end of the path,
      and a path that cannot be followed is false. */
  function All(doc: Value, path: seq<string>, ov: Value): Outcome {
    if !ValidOperand(ov) then Done(false)
    else Resolve(doc, path, v => Leaf(v, ov.elems), false, Done(false))
  }

  /** `$all` holds exactly when some place the path reaches is a list that
      passes the leaf test; a non-list operand is false everywhere. */
  lemma Semantics(doc: Value, path: seq<string>, ov: Value)
    ensures !ValidOperand(ov) ==> All(doc, path, ov) == Done(false)
    ensures ValidOperand(ov) ==>
            All(doc, path, ov) ==
            Done(exists e :: e in Endpoints(doc, path, false) && e.Reached? && Leaf(e.v, ov.elems) == Done(true))
  {
    if ValidOperand(ov) {
      ResolveByEndpoints(doc, path, v => Leaf(v, ov.elems), false, Done(false));
    }
  }

  /** An empty operand list matches every list the path reaches (vacuous `all`). */
  lemma EmptyOperand(doc: Value, path: seq<string>)
    ensures All(doc, path, Arr([])) ==
            Done(exists e :: e in Endpoints(doc, path, false) && e.Reached? && e.v.Arr?)
  {
    Semantics(doc, path, Arr([]));
  }

  /** Dropping operand elements keeps a match. */
  lemma OperandSubset(doc: Value, os: seq<Value>, sub: seq<Value>)
    requires forall k :: 0 <= k < |sub| ==> sub[k] in os
    ensures Leaf(doc, os) == Done(true) ==> Leaf(doc, sub) == Done(true)
  {
    if Leaf(doc, os) == Done(true) {
      forall k | 0 <= k < |sub| ensures Member(sub[k], doc.elems) || PyEq(sub[k], doc) {
        assert sub[k] in os;
        var j :| 0 <= j < |os| && os[j] == sub[k];
        assert Member(os[j], doc.elems) || PyEq(os[j], doc);
      }
    }
  }

  /** A list holds all of its own elements. */
  lemma OwnElements(es: seq<Value>)
    requires WellFormed(Arr(es))
    ensures Leaf(Arr(es), es) == Done(true)
  {
    forall j | 0 <= j < |es| ensures Member(es[j], es) {
      PyEqReflexive(es[j]);
    }
  }

  /** The whole-list clause: `[1, 2]` matches `$all: [[1, 2]]` by being equal
      to the operand element, while `[1, 2, 3]` does not. */
  lemma WholeListClause()
    ensures Leaf(Arr([Int(1), Int(2)]), [Arr([Int(1), Int(2)])]) == Done(true)
    ensures Leaf(Arr([Int(1), Int(2), Int(3)]), [Arr([Int(1), Int(2)])]) == Done(false)
  {
    assert PyEq(Arr([Int(1), Int(2)]), Arr([Int(1), Int(2)]));
    var es := [Int(1), Int(2), Int(3)];
    var o := Arr([Int(1), Int(2)]);
    assert !Member(o, es) by {
      forall i | 0 <= i < |es| ensures !PyEq(es[i], o) {
      }
    }
    assert !(Member([o][0], es) || PyEq([o][0], Arr(es)));
  }
}
