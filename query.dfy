/** The `Query` class of the older package (mgqpy/__init__.py): a filter is a
    dict of field paths; a field value that is a non-empty dict of comparison
    operators runs each operator it knows, anything else is matched by
    equality, and the filter holds when every result holds. The comparison
    functions the class calls are written out in the same file, without
    coercion. */
module Query {
  import opened Values
  import opened Paths
  import opened ObjectOrder
  import EqLegacy
  import Gte
  import LtLegacy

  /** `cmp_ops` */
  const CmpOps: set<string> := {"$eq", "$gt", "$gte", "$in", "$lt", "$lte", "$ne", "$nin"}

  /** `is_all_ops`: a non-empty dict whose keys are all comparison operators. */
  predicate IsAllOps(exp: Value) {
    exp.Obj? && |exp.fields| > 0 && forall i :: 0 <= i < |exp.fields| ==> exp.fields[i].0 in CmpOps
  }

  // ---------------------------------------------------------------------------
  // The comparison functions of mgqpy/__init__.py

  /** `_match_eq`: plain `==`, with neither pattern search nor coercion. */
  function EqLeaf(doc: Value, ov: Value): Outcome {
    Done(PyEq(doc, ov))
  }

  function Eq(doc: Value, path: seq<string>, ov: Value): Outcome {
    Resolve(doc, path, v => EqLeaf(v, ov), true, Done(ov.Null?))
  }

  /** `_match_gt` at the end of the path. Dicts get no both-empty check, and
      no null rule applies. */
  function GtLeaf(doc: Value, ov: Value): Outcome {
    if doc.Arr? && ov.Arr? then Compared(NativeCompare(doc, ov), GT)
    else if doc.Obj? && ov.Obj? then Compare(doc.fields, ov.fields, GtRule)
    else if IsNumber(doc) && IsNumber(ov) then Done(NumCompare(doc, ov) == Greater)
    else if doc.Str? && ov.Str? then Done(StrCompare(doc.s, ov.s) == Greater)
    else Done(false)
  }

  /** `_match_gt(doc, path, ov)`: a path that cannot be followed is false. */
  function Gt(doc: Value, path: seq<string>, ov: Value): Outcome {
    Resolve(doc, path, v => GtLeaf(v, ov), true, Done(false))
  }

  /** `_match_lte` of this file, which unlike mgqpy/operators/lte.py does not
      coerce and orders only numbers, strings, lists and dicts. */
  function LteLeaf(doc: Value, ov: Value): Outcome {
    if doc.Arr? && ov.Arr? then Compared(NativeCompare(doc, ov), LE)
    else if doc.Obj? && ov.Obj? then
      if |doc.fields| == 0 && |ov.fields| == 0 then Done(true)
      else Compare(doc.fields, ov.fields, LteRule)
    else if IsNumber(doc) && IsNumber(ov) then Done(NumCompare(doc, ov) in LE)
    else if doc.Str? && ov.Str? then Done(StrCompare(doc.s, ov.s) in LE)
    else Done(doc.Null? && ov.Null?)
  }

  /** `_match_lte(doc, path, ov)`: a path that cannot be followed matches a null operand. */
  function Lte(doc: Value, path: seq<string>, ov: Value): Outcome {
    Resolve(doc, path, v => LteLeaf(v, ov), true, Done(ov.Null?))
  }

  // `_match_gte` and `_match_lt` of this file are the functions of
  // mgqpy/operators/gte.py and mgqpy/operators/lt.py: Gte.Gte, LtLegacy.Lt.

  // ---------------------------------------------------------------------------
  // `Query.match`

  /** The comparison each dispatched operator runs. */
  function RunOp(op: string, doc: Value, path: seq<string>, ov: Value): Outcome {
    if op == "$eq" then Eq(doc, path, ov)
    else if op == "$gt" then Gt(doc, path, ov)
    else if op == "$gte" then Gte.Gte(doc, path, ov)
    else if op == "$lt" then LtLegacy.Lt(doc, path, ov)
    else Lte(doc, path, ov)
  }

  /** `if op in exp_or_ov: results.append(...)` */
  function OpResults(op: string, path: seq<string>, exp: Value, doc: Value): seq<Outcome>
    requires exp.Obj?
  {
    if HasKey(exp.fields, op) then [RunOp(op, doc, path, Get(exp.fields, op))] else []
  }

  /** The results one field appends, in the order of the `if`s: each of
      `$eq`, `$gt`, `$gte`, `$lt`, `$lte` present in an operator expression,
      or a single equality for anything else. */
  function FieldResults(path: string, exp: Value, doc: Value): seq<Outcome> {
    var p := Split(path);
    if IsAllOps(exp) then OpsResults(p, exp, doc) else [Eq(doc, p, exp)]
  }

  /** The appends of an operator expression. */
  function OpsResults(path: seq<string>, exp: Value, doc: Value): seq<Outcome>
    requires exp.Obj?
  {
    OpResults("$eq", path, exp, doc) + OpResults("$gt", path, exp, doc) + OpResults("$gte", path, exp, doc) +
    OpResults("$lt", path, exp, doc) + OpResults("$lte", path, exp, doc)
  }

  /** Every result the loop appends, field after field. */
  function Results(query: seq<(string, Value)>, doc: Value): seq<Outcome> {
    if |query| == 0 then [] else FieldResults(query[0].0, query[0].1, doc) + Results(query[1..], doc)
  }

  /** `Query(query).match(doc)`: `all(results)`, where an exception from any
      comparison escapes before the list is complete. */
  function Eval(query: seq<(string, Value)>, doc: Value): Outcome {
    AllEager(Results(query, doc))
  }

  /** The outcomes of a list of results that all completed. */
  function Completed(bs: seq<bool>): (os: seq<Outcome>)
    ensures |os| == |bs| && forall k :: 0 <= k < |bs| ==> os[k] == Done(bs[k])
  {
    seq(|bs|, k requires 0 <= k < |bs| => Done(bs[k]))
  }

  /** A filter holds the query dict it was built from. */
  class QueryFilter {
    const query: seq<(string, Value)>

    constructor(query: seq<(string, Value)>)
      ensures this.query == query
    {
      this.query := query;
    }

    /** `match(doc)`: the loop over the fields appending to `results`; an
        exception ends the loop and escapes. */
    method Match(doc: Value) returns (r: Outcome)
      ensures r == Eval(query, doc)
    {
      var results: seq<bool> := [];
      var i := 0;
      while i < |query|
        invariant 0 <= i <= |query|
        invariant Results(query[..i], doc) == Completed(results)
      {
        var path, exp := query[i].0, query[i].1;
        var raised;
        ghost var before := results;
        results, raised := AppendField(doc, path, exp, results);
        if raised {
          RaisedInField(query, i, doc);
          return Raised;
        }
        ResultsStep(query, i, doc);
        i := i + 1;
      }
      assert query[..|query|] == query;
      r := Done(forall k :: 0 <= k < |results| ==> results[k]);
    }

    /** The body of the loop for one field: the `is_all_ops` test, then the
        appends; `raised` reports an exception from a comparison. */
    static method AppendField(doc: Value, path: string, exp: Value, results: seq<bool>)
      returns (results': seq<bool>, raised: bool)
      ensures raised <==> Raised in FieldResults(path, exp, doc)
      ensures !raised ==> Completed(results') == Completed(results) + FieldResults(path, exp, doc)
    {
      var parts := Split(path);
      if IsAllOps(exp) {
        results', raised := AppendOps(doc, parts, exp, results);
      } else {
        var o := Eq(doc, parts, exp);
        raised := o.Raised?;
        results' := if raised then results else results + [o.matched];
      }
    }

    /** The five `if op in exp_or_ov: results.append(...)` of an operator
        expression, in order; an exception ends them. */
    static method AppendOps(doc: Value, path: seq<string>, exp: Value, results: seq<bool>)
      returns (results': seq<bool>, raised: bool)
      requires exp.Obj?
      ensures raised <==> Raised in OpsResults(path, exp, doc)
      ensures !raised ==> Completed(results') == Completed(results) + OpsResults(path, exp, doc)
    {
      ghost var a, b, c := OpResults("$eq", path, exp, doc), OpResults("$gt", path, exp, doc), OpResults("$gte", path, exp, doc);
      ghost var d, e := OpResults("$lt", path, exp, doc), OpResults("$lte", path, exp, doc);
      assert OpsResults(path, exp, doc) == a + b + c + d + e;
      var r1, r2, r3, r4: seq<bool>;
      results' := results;
      r1, raised := Append("$eq", doc, path, exp, results);
      if raised { return; }
      r2, raised := Append("$gt", doc, path, exp, r1);
      if raised { return; }
      Extend(results, r1, r2, a, b);
      r3, raised := Append("$gte", doc, path, exp, r2);
      if raised { return; }
      Extend(results, r2, r3, a + b, c);
      r4, raised := Append("$lt", doc, path, exp, r3);
      if raised { return; }
      Extend(results, r3, r4, a + b + c, d);
      results', raised := Append("$lte", doc, path, exp, r4);
      if raised { return; }
      Extend(results, r4, results', a + b + c + d, e);
    }

    /** One `if op in exp_or_ov: results.append(...)`; `raised` reports an
        exception from the comparison. */
    static method Append(op: string, doc: Value, path: seq<string>, exp: Value, results: seq<bool>)
      returns (results': seq<bool>, raised: bool)
      requires exp.Obj?
      ensures raised <==> Raised in OpResults(op, path, exp, doc)
      ensures !raised ==> Completed(results') == Completed(results) + OpResults(op, path, exp, doc)
    {
      results', raised := results, false;
      if HasKey(exp.fields, op) {
        var o := RunOp(op, doc, path, Get(exp.fields, op));
        if o.Raised? {
          raised := true;
        } else {
          results' := results + [o.matched];
        }
      }
    }
  }

  lemma Extend(r0: seq<bool>, r1: seq<bool>, r2: seq<bool>, x: seq<Outcome>, y: seq<Outcome>)
    requires Completed(r1) == Completed(r0) + x
    requires Completed(r2) == Completed(r1) + y
    ensures Completed(r2) == Completed(r0) + (x + y)
  {
  }

  lemma {:induction false} ResultsConcat(a: seq<(string, Value)>, b: seq<(string, Value)>, doc: Value)
    ensures Results(a + b, doc) == Results(a, doc) + Results(b, doc)
  {
    if |a| == 0 {
      assert a + b == b;
    } else {
      assert (a + b)[0] == a[0];
      assert (a + b)[1..] == a[1..] + b;
      ResultsConcat(a[1..], b, doc);
    }
  }

  lemma ResultsStep(query: seq<(string, Value)>, i: nat, doc: Value)
    requires i < |query|
    ensures Results(query[..i + 1], doc) == Results(query[..i], doc) + FieldResults(query[i].0, query[i].1, doc)
  {
    assert query[..i + 1] == query[..i] + [query[i]];
    ResultsConcat(query[..i], [query[i]], doc);
    assert Results([query[i]], doc) == FieldResults(query[i].0, query[i].1, doc) + Results([], doc);
  }

  lemma SplitAt(query: seq<(string, Value)>, i: nat, doc: Value)
    requires i < |query|
    ensures Results(query, doc) ==
            Results(query[..i], doc) + FieldResults(query[i].0, query[i].1, doc) + Results(query[i + 1..], doc)
  {
    calc {
      Results(query, doc);
      { assert query[..i + 1] + query[i + 1..] == query; }
      Results(query[..i + 1] + query[i + 1..], doc);
      { ResultsConcat(query[..i + 1], query[i + 1..], doc); }
      Results(query[..i + 1], doc) + Results(query[i + 1..], doc);
      { ResultsStep(query, i, doc); }
      Results(query[..i], doc) + FieldResults(query[i].0, query[i].1, doc) + Results(query[i + 1..], doc);
    }
  }

  /** An exception in any field is the outcome of the whole filter. */
  lemma RaisedInField(query: seq<(string, Value)>, i: nat, doc: Value)
    requires i < |query|
    requires Raised in FieldResults(query[i].0, query[i].1, doc)
    ensures Eval(query, doc) == Raised
  {
    SplitAt(query, i, doc);
    RaisedEscapes(Results(query[..i], doc), FieldResults(query[i].0, query[i].1, doc), Results(query[i + 1..], doc));
  }

  // ---------------------------------------------------------------------------
  // Properties

  /** The filter is the conjunction of its fields: splitting the query dict
      splits the result, and an exception in either part escapes. */
  lemma FieldsAnd(a: seq<(string, Value)>, b: seq<(string, Value)>, doc: Value)
    ensures Eval(a + b, doc) ==
            if Eval(a, doc).Raised? || Eval(b, doc).Raised? then Raised
            else Done(Eval(a, doc).matched && Eval(b, doc).matched)
  {
    ResultsConcat(a, b, doc);
    AllEagerConcat(Results(a, doc), Results(b, doc));
  }

  /** An empty filter matches every document. */
  lemma EmptyQuery(doc: Value)
    ensures Eval([], doc) == Done(true)
  {
  }

  /** `{}` and a dict that mixes an operator with any other key are literal
      values to compare with `==`. */
  lemma LiteralValues(path: string, exp: Value, doc: Value)
    requires !exp.Obj? || |exp.fields| == 0 || exists i :: 0 <= i < |exp.fields| && exp.fields[i].0 !in CmpOps
    ensures FieldResults(path, exp, doc) == [Eq(doc, Split(path), exp)]
  {
  }

  /** `$in`, `$ne` and `$nin` are operators, so a field holding only those
      is an operator expression, but no branch runs them: the field adds no
      condition and such a filter matches every document. */
  lemma UnhandledOperators(path: string, exp: Value, doc: Value)
    requires exp.Obj? && |exp.fields| > 0
    requires forall i :: 0 <= i < |exp.fields| ==> exp.fields[i].0 in {"$in", "$ne", "$nin"}
    ensures FieldResults(path, exp, doc) == []
    ensures Eval([(path, exp)], doc) == Done(true)
  {
    assert !HasKey(exp.fields, "$eq") && !HasKey(exp.fields, "$gt") && !HasKey(exp.fields, "$gte");
    assert !HasKey(exp.fields, "$lt") && !HasKey(exp.fields, "$lte");
    assert [(path, exp)][1..] == [];
    assert Results([(path, exp)], doc) == FieldResults(path, exp, doc) + Results([], doc);
  }

  /** Two operators on one field are both checked. */
  lemma OperatorsAnded(path: string, lo: Value, hi: Value, doc: Value)
    ensures Eval([(path, Obj([("$gt", lo), ("$lt", hi)]))], doc) ==
            AllEager([Gt(doc, Split(path), lo), LtLegacy.Lt(doc, Split(path), hi)])
  {
    var fs := [("$gt", lo), ("$lt", hi)];
    assert fs[0].0 == "$gt" && fs[1].0 == "$lt";
    assert !HasKey(fs, "$eq") && !HasKey(fs, "$gte") && !HasKey(fs, "$lte");
    assert HasKey(fs, "$gt") && HasKey(fs, "$lt");
    assert Get(fs, "$gt") == lo && Get(fs, "$lt") == hi;
    assert IsAllOps(Obj(fs));
    var p := Split(path);
    assert OpResults("$gt", p, Obj(fs), doc) == [Gt(doc, p, lo)];
    assert OpResults("$lt", p, Obj(fs), doc) == [LtLegacy.Lt(doc, p, hi)];
    assert OpsResults(p, Obj(fs), doc) == [Gt(doc, p, lo), LtLegacy.Lt(doc, p, hi)];
    assert [(path, Obj(fs))][1..] == [];
    assert Results([(path, Obj(fs))], doc) == FieldResults(path, Obj(fs), doc) + Results([], doc);
    assert FieldResults(path, Obj(fs), doc) == [Gt(doc, p, lo), LtLegacy.Lt(doc, p, hi)];
    assert Results([(path, Obj(fs))], doc) == [Gt(doc, p, lo), LtLegacy.Lt(doc, p, hi)];
  }

  /** Without a pattern operand this equality is the one of
      mgqpy/operators/eq_ne_not.py. */
  lemma EqAgreesWithOperatorsFile(env: Env, doc: Value, path: seq<string>, ov: Value)
    requires !ov.Pattern?
    ensures Eq(doc, path, ov) == EqLegacy.Eq(env, doc, path, ov)
  {
    forall v | Occurs(v, doc) ensures EqLeaf(v, ov) == EqLegacy.Leaf(env, v, ov) {
    }
    ResolveAgree(doc, path, v => EqLeaf(v, ov), v => EqLegacy.Leaf(env, v, ov), true, Done(ov.Null?));
  }

  /** `$gt` is `$lt` with the sides swapped, and `$gte` is `$lte` swapped,
      at the end of the path. */
  lemma Duality(a: Value, b: Value)
    requires WellFormed(a) && WellFormed(b)
    ensures GtLeaf(a, b) == LtLegacy.Leaf(b, a)
    ensures Gte.Leaf(a, b) == LteLeaf(b, a)
  {
    NativeCompareFlip(a, b);
    if a.Obj? && b.Obj? {
      Mirror(a.fields, b.fields);
    } else if a.Str? && b.Str? {
      StrCompareFlip(a.s, b.s);
    }
  }

  /** Against null, `$gt` (like `$lt`) matches nothing, while `$lte` (like
      `$gte`) matches a null leaf and a path that falls off. */
  lemma NullOperand(doc: Value, path: seq<string>)
    ensures Gt(doc, path, Null) == Done(false)
    ensures Lte(doc, path, Null) == Gte.Gte(doc, path, Null)
  {
    ResolveByEndpoints(doc, path, v => GtLeaf(v, Null), true, Done(false));
    forall v | Occurs(v, doc) ensures LteLeaf(v, Null) == Gte.Leaf(v, Null) {
    }
    ResolveAgree(doc, path, v => LteLeaf(v, Null), v => Gte.Leaf(v, Null), true, Done(true));
  }

  /** Dicts under `$gt`: the operand running out first gives true; the
      document running out first, identical dicts and two empty dicts give false. */
  lemma GtObjects(d: seq<(string, Value)>, o: seq<(string, Value)>)
    ensures Walk(d, o) == Some(OvExhausted) ==> GtLeaf(Obj(d), Obj(o)) == Done(true)
    ensures Walk(d, o) == Some(DocExhausted) || Walk(d, o) == Some(Identical) ==> GtLeaf(Obj(d), Obj(o)) == Done(false)
    ensures GtLeaf(Obj([]), Obj([])) == Done(false)
  {
  }
}
