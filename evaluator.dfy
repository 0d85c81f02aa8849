/** The condition evaluator the logical operators, `$not` and `$elemMatch`
    call back into (`mgqpy._match_cond(cond, doc)`). Its code is not part of
    this model; it is given here the shape of `Query.match`: every field of
    the condition must hold, a field holding a dict of operators runs each
    operator, and any other value is compared by equality. The three
    logical keys take a list of sub-conditions instead of a path. */
module Evaluator {
  import opened Values
  import opened Paths
  import EqSrc
  import InNin
  import Gte
  import Lte
  import LtSrc
  import Query
  import Mod
  import Size
  import All
  import Regex

  /** The keys that take a list of conditions rather than a field path. */
  const LogicalOps: set<string> := {"$and", "$or", "$nor"}

  /** The operators a field expression may use; `$options` only qualifies `$regex`. */
  const FieldOps: set<string> :=
    {"$eq", "$ne", "$gt", "$gte", "$lt", "$lte", "$in", "$nin", "$mod", "$size", "$all",
     "$elemMatch", "$regex", "$options", "$not"}

  /** A non-empty dict whose keys are all operators; anything else is a literal. */
  predicate IsOpExpression(exp: Value) {
    exp.Obj? && |exp.fields| > 0 && forall i :: 0 <= i < |exp.fields| ==> exp.fields[i].0 in FieldOps
  }

  /** `$options` beside `$regex`, or none. */
  function Options(exp: Value): Value
    requires exp.Obj?
  {
    if HasKey(exp.fields, "$options") then Get(exp.fields, "$options") else Str("")
  }

  /** `_match_cond(cond, doc)`: every field of the condition holds; a
      condition that is not a dict cannot be iterated by key and raises. */
  function MatchCond(env: Env, cond: Value, doc: Value): Outcome
    decreases cond, 1
  {
    if !cond.Obj? then Raised
    else AllEager(seq(|cond.fields|, i requires 0 <= i < |cond.fields| =>
                        MatchField(env, cond.fields[i].0, cond.fields[i].1, doc)))
  }

  /** One field of a condition. */
  function MatchField(env: Env, path: string, exp: Value, doc: Value): Outcome
    decreases exp, 2
  {
    if path in LogicalOps then Logical(env, path, exp, doc)
    else if IsOpExpression(exp) then
      AllEager(seq(|exp.fields|, i requires 0 <= i < |exp.fields| =>
                     MatchOp(env, exp.fields[i].0, exp.fields[i].1, path, Options(exp), doc)))
    else EqSrc.Eq(env, doc, Split(path), exp)
  }

  /** One operator of a field expression applied along the field's path. */
  function MatchOp(env: Env, op: string, ov: Value, path: string, options: Value, doc: Value): Outcome
    decreases ov, 4
  {
    var p := Split(path);
    if op == "$eq" then EqSrc.Eq(env, doc, p, ov)
    else if op == "$ne" then EqSrc.Ne(env, doc, p, ov)
    else if op == "$gt" then Query.Gt(doc, p, ov)
    else if op == "$gte" then Gte.Gte(doc, p, ov)
    else if op == "$lt" then LtSrc.Lt(env, doc, p, ov)
    else if op == "$lte" then Lte.Lte(env, doc, p, ov)
    else if op == "$in" then InNin.In(env, doc, p, ov)
    else if op == "$nin" then InNin.Nin(env, doc, p, ov)
    else if op == "$mod" then Mod.Mod(doc, p, ov)
    else if op == "$size" then Size.Size(doc, p, ov)
    else if op == "$all" then All.All(doc, p, ov)
    else if op == "$regex" then Regex.Regex(env, doc, p, ov, options)
    else if op == "$elemMatch" then ElemMatch(env, doc, p, ov)
    else if op == "$not" then Negate(MatchField(env, path, ov, doc))
    else Done(true)  // `$options`, read by `$regex`
  }

  /** `_match_elem_match(doc, path, ov)`: no element search at the end of
      the path, and a path that cannot be followed is false. */
  function ElemMatch(env: Env, doc: Value, path: seq<string>, ov: Value): Outcome
    decreases ov, 3
  {
    Resolve(doc, path, v => ElemLeaf(env, ov, v), false, Done(false))
  }

  /** The `$elemMatch` test at the end of the path: a list with an element
      that, taken as a document of its own, satisfies the whole condition. */
  function ElemLeaf(env: Env, cond: Value, doc: Value): Outcome
    decreases cond, 2
  {
    if !doc.Arr? then Done(false)
    else AnyLazy(seq(|doc.elems|, i requires 0 <= i < |doc.elems| => MatchCond(env, cond, doc.elems[i])))
  }

  /** `_match_and`, `_match_or`, `_match_nor` (mgqpy/operators/and_or_nor.py):
      a non-list operand is false for all three; none of them reads a path. */
  function Logical(env: Env, kind: string, exp: Value, doc: Value): Outcome
    decreases exp, 1
  {
    if !exp.Arr? then Done(false)
    else
      var rs := seq(|exp.elems|, i requires 0 <= i < |exp.elems| => MatchCond(env, exp.elems[i], doc));
      if kind == "$and" then AllLazy(rs)
      else if kind == "$or" then AnyLazy(rs)
      else Negate(AnyLazy(rs))
  }

  // ---------------------------------------------------------------------------
  // Properties

  /** A condition is the conjunction of its fields: splitting its dict splits
      the result, and an exception in either part escapes. */
  lemma CondFieldsAnd(env: Env, a: seq<(string, Value)>, b: seq<(string, Value)>, doc: Value)
    ensures MatchCond(env, Obj(a + b), doc) ==
            if MatchCond(env, Obj(a), doc).Raised? || MatchCond(env, Obj(b), doc).Raised? then Raised
            else Done(MatchCond(env, Obj(a), doc).matched && MatchCond(env, Obj(b), doc).matched)
  {
    var fa := FieldOutcomes(env, Obj(a), doc);
    var fb := FieldOutcomes(env, Obj(b), doc);
    var fab := FieldOutcomes(env, Obj(a + b), doc);
    assert fab == fa + fb;
    AllEagerConcat(fa, fb);
  }

  /** The outcomes of the fields of a condition, in order. */
  function FieldOutcomes(env: Env, cond: Value, doc: Value): (rs: seq<Outcome>)
    requires cond.Obj?
    ensures MatchCond(env, cond, doc) == AllEager(rs)
    ensures |rs| == |cond.fields|
    ensures forall i :: 0 <= i < |cond.fields| ==> rs[i] == MatchField(env, cond.fields[i].0, cond.fields[i].1, doc)
  {
    seq(|cond.fields|, i requires 0 <= i < |cond.fields| =>
          MatchField(env, cond.fields[i].0, cond.fields[i].1, doc))
  }

  /** A one-field condition is that field. */
  lemma SingleField(env: Env, path: string, exp: Value, doc: Value)
    ensures MatchCond(env, Obj([(path, exp)]), doc) == MatchField(env, path, exp, doc)
  {
    assert FieldOutcomes(env, Obj([(path, exp)]), doc) == [MatchField(env, path, exp, doc)];
    EagerSingle(MatchField(env, path, exp, doc));
  }

  /** `$not` negates the evaluation of the one-field condition `{path: ov}`. */
  lemma NotIsNegatedCond(env: Env, path: string, ov: Value, options: Value, doc: Value)
    ensures MatchOp(env, "$not", ov, path, options, doc) == Negate(MatchCond(env, Obj([(path, ov)]), doc))
  {
    SingleField(env, path, ov, doc);
  }

  /** A non-list operand makes `$and`, `$or` and `$nor` all false. */
  lemma LogicalNonList(env: Env, exp: Value, doc: Value)
    requires !exp.Arr?
    ensures Logical(env, "$and", exp, doc) == Done(false)
    ensures Logical(env, "$or", exp, doc) == Done(false)
    ensures Logical(env, "$nor", exp, doc) == Done(false)
  {
  }

  /** An empty list: `$and` holds, `$or` does not, `$nor` holds. */
  lemma LogicalEmpty(env: Env, doc: Value)
    ensures Logical(env, "$and", Arr([]), doc) == Done(true)
    ensures Logical(env, "$or", Arr([]), doc) == Done(false)
    ensures Logical(env, "$nor", Arr([]), doc) == Done(true)
  {
  }

  /** Where no sub-condition raises, `$and` is the conjunction and `$or` the
      disjunction of the sub-conditions. */
  lemma LogicalSemantics(env: Env, conds: seq<Value>, doc: Value)
    requires forall i :: 0 <= i < |conds| ==> !MatchCond(env, conds[i], doc).Raised?
    ensures Logical(env, "$and", Arr(conds), doc) ==
            Done(forall i :: 0 <= i < |conds| ==> MatchCond(env, conds[i], doc) == Done(true))
    ensures Logical(env, "$or", Arr(conds), doc) ==
            Done(exists i :: 0 <= i < |conds| && MatchCond(env, conds[i], doc) == Done(true))
  {
    var rs := seq(|conds|, i requires 0 <= i < |conds| => MatchCond(env, conds[i], doc));
    assert Logical(env, "$and", Arr(conds), doc) == AllLazy(rs);
    assert Logical(env, "$or", Arr(conds), doc) == AnyLazy(rs);
    LazyWithoutRaise(rs);
    assert forall i :: 0 <= i < |conds| ==> (rs[i].matched <==> MatchCond(env, conds[i], doc) == Done(true));
  }

  /** For a list operand `$nor` is `not $or`. */
  lemma NorIsNotOr(env: Env, conds: seq<Value>, doc: Value)
    ensures Logical(env, "$nor", Arr(conds), doc) == Negate(Logical(env, "$or", Arr(conds), doc))
  {
  }

  /** At a list, `$elemMatch` holds when some element, as a document, meets
      the condition, provided no element raises; a non-list never matches. */
  lemma ElemLeafSemantics(env: Env, cond: Value, doc: Value)
    requires doc.Arr? ==> forall i :: 0 <= i < |doc.elems| ==> !MatchCond(env, cond, doc.elems[i]).Raised?
    ensures !doc.Arr? ==> ElemLeaf(env, cond, doc) == Done(false)
    ensures doc.Arr? ==> ElemLeaf(env, cond, doc) ==
                         Done(exists i :: 0 <= i < |doc.elems| && MatchCond(env, cond, doc.elems[i]) == Done(true))
  {
    if doc.Arr? {
      var rs := seq(|doc.elems|, i requires 0 <= i < |doc.elems| => MatchCond(env, cond, doc.elems[i]));
      assert ElemLeaf(env, cond, doc) == AnyLazy(rs);
      LazyWithoutRaise(rs);
      assert forall i :: 0 <= i < |rs| ==> (rs[i].matched <==> MatchCond(env, cond, doc.elems[i]) == Done(true));
    }
  }

  /** Both fields of an `$elemMatch` condition hold on one and the same element. */
  lemma SameElement(env: Env, a: string, e1: Value, b: string, e2: Value, doc: Value)
    requires ElemLeaf(env, Obj([(a, e1), (b, e2)]), doc) == Done(true)
    ensures doc.Arr?
    ensures exists i :: 0 <= i < |doc.elems| &&
                        MatchField(env, a, e1, doc.elems[i]) == Done(true) &&
                        MatchField(env, b, e2, doc.elems[i]) == Done(true)
  {
    var cond := Obj([(a, e1), (b, e2)]);
    var rs := seq(|doc.elems|, i requires 0 <= i < |doc.elems| => MatchCond(env, cond, doc.elems[i]));
    assert ElemLeaf(env, cond, doc) == AnyLazy(rs);
    LazyWitness(rs);
    var i :| 0 <= i < |rs| && rs[i] == Done(true);
    var d := doc.elems[i];
    var fs := FieldOutcomes(env, cond, d);
    assert fs == [MatchField(env, a, e1, d), MatchField(env, b, e2, d)];
    assert fs[0].matched && fs[1].matched;
  }

  /** Along a path, `$elemMatch` holds when some place the path reaches is a
      list passing the test above, provided none of them raises. */
  lemma ElemMatchSemantics(env: Env, doc: Value, path: seq<string>, cond: Value)
    requires forall e :: e in Endpoints(doc, path, false) && e.Reached? ==> !ElemLeaf(env, cond, e.v).Raised?
    ensures ElemMatch(env, doc, path, cond) ==
            Done(exists e :: e in Endpoints(doc, path, false) && e.Reached? && ElemLeaf(env, cond, e.v) == Done(true))
  {
    ResolveByEndpoints(doc, path, v => ElemLeaf(env, cond, v), false, Done(false));
  }

  /** `{"$in": [x]}` and `{"$eq": x}` select the same documents. */
  lemma InSingleton(env: Env, path: string, x: Value, doc: Value)
    requires path !in LogicalOps
    ensures MatchField(env, path, Obj([("$in", Arr([x]))]), doc) ==
            MatchField(env, path, Obj([("$eq", x)]), doc)
  {
    var p := Split(path);
    InNin.InIsSomeEq(env, doc, p, [x]);
    EqSrc.NeIsNotEq(env, doc, p, x);
    var ins := Obj([("$in", Arr([x]))]);
    var eqs := Obj([("$eq", x)]);
    assert OpOutcomes(env, path, ins, doc) == [InNin.In(env, doc, p, Arr([x]))];
    assert OpOutcomes(env, path, eqs, doc) == [EqSrc.Eq(env, doc, p, x)];
    var e := EqSrc.Eq(env, doc, p, x);
    assert (exists j :: 0 <= j < |[x]| && EqSrc.Eq(env, doc, p, [x][j]) == Done(true)) <==> e == Done(true) by {
      assert [x][0] == x;
    }
    assert InNin.In(env, doc, p, Arr([x])) == e;
    EagerSingle(InNin.In(env, doc, p, Arr([x])));
    EagerSingle(EqSrc.Eq(env, doc, p, x));
  }

  /** The outcomes of the operators of an operator expression, in order. */
  function OpOutcomes(env: Env, path: string, exp: Value, doc: Value): (rs: seq<Outcome>)
    requires path !in LogicalOps && IsOpExpression(exp)
    ensures MatchField(env, path, exp, doc) == AllEager(rs)
    ensures |rs| == |exp.fields|
    ensures forall i :: 0 <= i < |exp.fields| ==> rs[i] == MatchOp(env, exp.fields[i].0, exp.fields[i].1, path, Options(exp), doc)
  {
    seq(|exp.fields|, i requires 0 <= i < |exp.fields| =>
          MatchOp(env, exp.fields[i].0, exp.fields[i].1, path, Options(exp), doc))
  }

  /** `$options` only qualifies `$regex`: the pair is the regular expression
      search with those options. */
  lemma RegexWithOptions(env: Env, path: string, pattern: Value, options: Value, doc: Value)
    requires path !in LogicalOps
    ensures MatchField(env, path, Obj([("$regex", pattern), ("$options", options)]), doc) ==
            Regex.Regex(env, doc, Split(path), pattern, options)
  {
    var exp := Obj([("$regex", pattern), ("$options", options)]);
    assert exp.fields[1].0 == "$options";
    assert Options(exp) == options;
    assert OpOutcomes(env, path, exp, doc) == [Regex.Regex(env, doc, Split(path), pattern, options), Done(true)];
  }
}
