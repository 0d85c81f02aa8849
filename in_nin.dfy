/** `$in` and `$nin` (src/mgqpy/operators/in_nin.py), built on the current
    `$eq`: the operand must be a list, and a value is "in" it when it is `$eq`
    to one of its elements. */
module InNin {
  import opened Values
  import opened Paths
  import EqSrc

  /** `_validate_in_nin(ov)` */
  predicate ValidOperand(ov: Value) { ov.Arr? }

  /** `any([_match_eq(doc, [], o) for o in ov])` */
  function Leaf(env: Env, doc: Value, os: seq<Value>): Outcome {
    AnyEager(seq(|os|, j requires 0 <= j < |os| => EqSrc.Eq(env, doc, [], os[j])))
  }

  /** `None in ov` */
  predicate HasNull(os: seq<Value>) { exists j :: 0 <= j < |os| && os[j].Null? }

  /** `_match_in(doc, path, ov)`; the operand check the source repeats at
      every level is made once, since the operand never changes. */
  function In(env: Env, doc: Value, path: seq<string>, ov: Value): Outcome {
    if !ValidOperand(ov) then Done(false)
    else Resolve(doc, path, v => Leaf(env, v, ov.elems), true, Done(HasNull(ov.elems)))
  }

  /** `_match_nin(doc, path, ov)` */
  function Nin(env: Env, doc: Value, path: seq<string>, ov: Value): Outcome {
    if !ValidOperand(ov) then Done(false)
    else Negate(In(env, doc, path, ov))
  }

  lemma {:induction false} LeafNeverRaises(env: Env, v: Value, os: seq<Value>)
    ensures Leaf(env, v, os) == Done(exists j :: 0 <= j < |os| && EqSrc.Eq(env, v, [], os[j]) == Done(true))
  {
    var s := seq(|os|, j requires 0 <= j < |os| => EqSrc.Eq(env, v, [], os[j]));
    forall j | 0 <= j < |os| ensures s[j].Done? && s[j] == EqSrc.Eq(env, v, [], os[j]) {
      EqSrc.NeIsNotEq(env, v, [], os[j]);
    }
    assert Leaf(env, v, os) == AnyEager(s);
  }

  /** Along the whole path, `$in` is the disjunction of `$eq` over the operand
      list: the traversal of `$in` and the traversals of the `$eq`s reach the
      same places, and the null default is `None in ov`. */
  lemma {:induction false} InIsSomeEq(env: Env, doc: Value, path: seq<string>, os: seq<Value>)
    ensures In(env, doc, path, Arr(os)) ==
            Done(exists j :: 0 <= j < |os| && EqSrc.Eq(env, doc, path, os[j]) == Done(true))
  {
    var E := Endpoints(doc, path, true);
    var leaf := v => Leaf(env, v, os);
    var missing := Done(HasNull(os));
    forall v ensures !leaf(v).Raised? { LeafNeverRaises(env, v, os); }
    ResolveByEndpoints(doc, path, leaf, true, missing);
    forall j | 0 <= j < |os| { EqSrc.Semantics(env, doc, path, os[j]); }
    if exists e :: e in E && Test(e, leaf, missing) == Done(true) {
      var e :| e in E && Test(e, leaf, missing) == Done(true);
      if e.Reached? {
        LeafNeverRaises(env, e.v, os);
        var j :| 0 <= j < |os| && EqSrc.Eq(env, e.v, [], os[j]) == Done(true);
        EqSrc.Semantics(env, e.v, [], os[j]);
        var e' :| e' in Endpoints(e.v, [], true) && EqSrc.Accepts(env, e', os[j]);
        EndpointsClosed(doc, path, e.v);
        assert e' in E;
      } else {
        var j :| 0 <= j < |os| && os[j].Null?;
        assert EqSrc.Accepts(env, e, os[j]);
      }
    }
    if exists j :: 0 <= j < |os| && EqSrc.Eq(env, doc, path, os[j]) == Done(true) {
      var j :| 0 <= j < |os| && EqSrc.Eq(env, doc, path, os[j]) == Done(true);
      var e :| e in E && EqSrc.Accepts(env, e, os[j]);
      if e.Reached? {
        LeafNeverRaises(env, e.v, os);
        EqSrc.Semantics(env, e.v, [], os[j]);
        assert e in Endpoints(e.v, [], true);
        assert Test(e, leaf, missing) == Done(true);
      } else {
        assert Test(e, leaf, missing) == Done(true);
      }
    }
  }

  /** For a list operand `$nin` is exactly `not $in`; neither raises. */
  lemma NinIsNotIn(env: Env, doc: Value, path: seq<string>, os: seq<Value>)
    ensures In(env, doc, path, Arr(os)).Done? && Nin(env, doc, path, Arr(os)).Done?
    ensures Nin(env, doc, path, Arr(os)).matched == !In(env, doc, path, Arr(os)).matched
  {
    InIsSomeEq(env, doc, path, os);
  }

  /** A non-list operand makes both false, so they are not complements then. */
  lemma NonListOperand(env: Env, doc: Value, path: seq<string>, ov: Value)
    requires !ov.Arr?
    ensures In(env, doc, path, ov) == Done(false) && Nin(env, doc, path, ov) == Done(false)
  {
  }

  /** An empty operand list: `$in` never matches and `$nin` always does. */
  lemma EmptyOperand(env: Env, doc: Value, path: seq<string>)
    ensures In(env, doc, path, Arr([])) == Done(false)
    ensures Nin(env, doc, path, Arr([])) == Done(true)
  {
    InIsSomeEq(env, doc, path, []);
  }

  /** Where the path cannot be followed, `$in` matches iff the list holds null. */
  lemma MissingPath(env: Env, doc: Value, path: seq<string>, os: seq<Value>)
    requires |path| > 0 && !doc.Arr? && !(doc.Obj? && HasKey(doc.fields, path[0]))
    ensures In(env, doc, path, Arr(os)) == Done(exists j :: 0 <= j < |os| && os[j].Null?)
  {
  }
}
