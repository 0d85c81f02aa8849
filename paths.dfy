/** Field paths and the traversal that every operator repeats: descend by key
    into dicts, by index into lists, fan out over list elements otherwise, and
    fall back to an operator-specific result where the path cannot be followed. */
module Paths {
  import opened Values

  // ---------------------------------------------------------------------------
  // `path.split(".")`

  /** Python's `s.split(".")`: never empty; "" gives [""], "a..b" gives ["a", "", "b"]. */
  function Split(s: string): (r: seq<string>)
    ensures |r| >= 1
  {
    if |s| == 0 then [""]
    else
      var tail := Split(s[1..]);
      if s[0] == '.' then [""] + tail
      else [[s[0]] + tail[0]] + tail[1..]
  }

  /** `".".join(parts)` */
  function Join(parts: seq<string>): string
    requires |parts| >= 1
  {
    if |parts| == 1 then parts[0] else parts[0] + "." + Join(parts[1..])
  }

  predicate NoDot(s: string) { forall i :: 0 <= i < |s| ==> s[i] != '.' }

  /** Splitting loses nothing: joining the segments back gives the field name. */
  lemma {:induction false} JoinSplit(s: string)
    ensures Join(Split(s)) == s
  {
    if |s| > 0 {
      var tail := Split(s[1..]);
      JoinSplit(s[1..]);
      if s[0] == '.' {
        assert Split(s) == [""] + tail;
        assert Split(s)[1..] == tail;
        assert s == "" + "." + s[1..];
      } else {
        var r := Split(s);
        assert r == [[s[0]] + tail[0]] + tail[1..];
        if |tail| == 1 {
          assert r == [[s[0]] + tail[0]];
        } else {
          assert r[1..] == tail[1..];
          assert Join(tail) == tail[0] + "." + Join(tail[1..]);
        }
      }
    }
  }

  /** No segment contains the separator. */
  lemma {:induction false} SplitNoDot(s: string)
    ensures forall i :: 0 <= i < |Split(s)| ==> NoDot(Split(s)[i])
  {
    if |s| > 0 {
      SplitNoDot(s[1..]);
      var tail := Split(s[1..]);
      if s[0] != '.' {
        var r := Split(s);
        forall i | 0 <= i < |r| ensures NoDot(r[i]) {
          if i == 0 {
            assert r[0] == [s[0]] + tail[0];
            assert NoDot(tail[0]);
          } else {
            assert r[i] == tail[i];
          }
        }
      } else {
        var r := Split(s);
        forall i | 0 <= i < |r| ensures NoDot(r[i]) {
          if i > 0 { assert r[i] == tail[i - 1]; }
        }
      }
    }
  }

  lemma {:induction false} SplitNoDotWhole(s: string)
    requires NoDot(s)
    ensures Split(s) == [s]
  {
    if |s| > 0 {
      SplitNoDotWhole(s[1..]);
      assert [s[0]] + s[1..] == s;
    }
  }

  /** Splitting a join of dot-free segments gives the segments back. */
  lemma {:induction false} SplitJoin(parts: seq<string>)
    requires |parts| >= 1
    requires forall i :: 0 <= i < |parts| ==> NoDot(parts[i])
    ensures Split(Join(parts)) == parts
    decreases |parts|
  {
    if |parts| == 1 {
      SplitNoDotWhole(parts[0]);
    } else {
      SplitJoin(parts[1..]);
      SplitPrefix(parts[0], Join(parts[1..]));
      assert [parts[0]] + parts[1..] == parts;
    }
  }

  /** Split(a + "." + b) == [a] + Split(b) when a has no dot. */
  lemma {:induction false} SplitPrefix(a: string, b: string)
    requires NoDot(a)
    ensures Split(a + "." + b) == [a] + Split(b)
  {
    if |a| == 0 {
      assert a + "." + b == "." + b;
      assert ("." + b)[1..] == b;
    } else {
      var s := a + "." + b;
      assert s[1..] == a[1..] + "." + b;
      SplitPrefix(a[1..], b);
      assert [a[0]] + a[1..] == a;
    }
  }

  // ---------------------------------------------------------------------------
  // The shared traversal

  /** The index a segment selects in a list of length n, if any: an all-digit
      segment whose value is below n. */
  predicate IndexesInto(key: string, n: nat) {
    IsDigits(key) && DigitsValue(key) < n
  }

  /** Resolve(doc, path, leaf, anyElem, missing) is the skeleton shared by the
      operators, with `leaf` the test at the end of the path, `anyElem` whether
      that test is also tried on every element of a list (recursively, before
      the list itself), and `missing` the result where the path ends early. */
  function Resolve(doc: Value, path: seq<string>, leaf: Value -> Outcome,
                   anyElem: bool, missing: Outcome): Outcome
    decreases doc
  {
    if |path| == 0 then
      if anyElem && doc.Arr? then
        var fromElems := AnyEager(seq(|doc.elems|, i requires 0 <= i < |doc.elems| =>
                                        Resolve(doc.elems[i], path, leaf, anyElem, missing)));
        if fromElems == Done(false) then leaf(doc) else fromElems
      else leaf(doc)
    else
      var key, rest := path[0], path[1..];
      if doc.Obj? && HasKey(doc.fields, key) then
        Resolve(doc.fields[KeyIndex(doc.fields, key)].1, rest, leaf, anyElem, missing)
      else if doc.Arr? && IndexesInto(key, |doc.elems|) then
        Resolve(doc.elems[DigitsValue(key)], rest, leaf, anyElem, missing)
      else if doc.Arr? then
        AnyEager(seq(|doc.elems|, i requires 0 <= i < |doc.elems| =>
                       Resolve(doc.elems[i], path, leaf, anyElem, missing)))
      else missing
  }

  /** At the end of the path, a list matches when some element does (tried
      first) or when the list itself passes the leaf test. */
  lemma ResolveLeafList(doc: Value, leaf: Value -> Outcome, missing: Outcome)
    requires doc.Arr?
    requires forall v :: !leaf(v).Raised?
    requires forall i :: 0 <= i < |doc.elems| ==> !Resolve(doc.elems[i], [], leaf, true, missing).Raised?
    ensures Resolve(doc, [], leaf, true, missing) ==
            Done((exists i :: 0 <= i < |doc.elems| && Resolve(doc.elems[i], [], leaf, true, missing) == Done(true))
                 || leaf(doc) == Done(true))
  {
    var s := seq(|doc.elems|, i requires 0 <= i < |doc.elems| => Resolve(doc.elems[i], [], leaf, true, missing));
    assert forall i :: 0 <= i < |doc.elems| ==> s[i] == Resolve(doc.elems[i], [], leaf, true, missing);
  }

  /** A dict that has the segment as a key is entered there. */
  lemma ResolveKey(doc: Value, path: seq<string>, leaf: Value -> Outcome, anyElem: bool, missing: Outcome)
    requires |path| > 0 && doc.Obj? && HasKey(doc.fields, path[0])
    ensures Resolve(doc, path, leaf, anyElem, missing) ==
            Resolve(Get(doc.fields, path[0]), path[1..], leaf, anyElem, missing)
  {
  }

  /** An all-digit, in-range segment on a list selects that element only. */
  lemma ResolveIndex(doc: Value, path: seq<string>, leaf: Value -> Outcome, anyElem: bool, missing: Outcome)
    requires |path| > 0 && doc.Arr? && IndexesInto(path[0], |doc.elems|)
    ensures Resolve(doc, path, leaf, anyElem, missing) ==
            Resolve(doc.elems[DigitsValue(path[0])], path[1..], leaf, anyElem, missing)
  {
  }

  /** Any other segment on a list tries every element with the whole path,
      and the missing default is not applied at this level. */
  lemma ResolveFanOut(doc: Value, path: seq<string>, leaf: Value -> Outcome, anyElem: bool, missing: Outcome)
    requires |path| > 0 && doc.Arr? && !IndexesInto(path[0], |doc.elems|)
    requires forall i :: 0 <= i < |doc.elems| ==> !Resolve(doc.elems[i], path, leaf, anyElem, missing).Raised?
    ensures Resolve(doc, path, leaf, anyElem, missing) ==
            Done(exists i :: 0 <= i < |doc.elems| && Resolve(doc.elems[i], path, leaf, anyElem, missing) == Done(true))
  {
    var s := seq(|doc.elems|, i requires 0 <= i < |doc.elems| => Resolve(doc.elems[i], path, leaf, anyElem, missing));
    assert forall i :: 0 <= i < |doc.elems| ==> s[i] == Resolve(doc.elems[i], path, leaf, anyElem, missing);
  }

  /** Where the path cannot be followed, the operator's default applies. */
  lemma ResolveMissing(doc: Value, path: seq<string>, leaf: Value -> Outcome, anyElem: bool, missing: Outcome)
    requires |path| > 0 && !doc.Arr? && !(doc.Obj? && HasKey(doc.fields, path[0]))
    ensures Resolve(doc, path, leaf, anyElem, missing) == missing
  {
  }

  /** When neither the leaf test nor the default raises, nothing escapes. */
  lemma {:induction false} ResolveNeverRaises(doc: Value, path: seq<string>, leaf: Value -> Outcome,
                                              anyElem: bool, missing: Outcome)
    requires forall v :: !leaf(v).Raised?
    requires !missing.Raised?
    ensures !Resolve(doc, path, leaf, anyElem, missing).Raised?
    decreases doc
  {
    if |path| == 0 {
      if anyElem && doc.Arr? {
        forall i | 0 <= i < |doc.elems| ensures !Resolve(doc.elems[i], path, leaf, anyElem, missing).Raised? {
          ResolveNeverRaises(doc.elems[i], path, leaf, anyElem, missing);
        }
        var s := seq(|doc.elems|, i requires 0 <= i < |doc.elems| => Resolve(doc.elems[i], path, leaf, anyElem, missing));
        assert forall i :: 0 <= i < |s| ==> !s[i].Raised?;
      }
    } else {
      var key, rest := path[0], path[1..];
      if doc.Obj? && HasKey(doc.fields, key) {
        ResolveNeverRaises(doc.fields[KeyIndex(doc.fields, key)].1, rest, leaf, anyElem, missing);
      } else if doc.Arr? && IndexesInto(key, |doc.elems|) {
        ResolveNeverRaises(doc.elems[DigitsValue(key)], rest, leaf, anyElem, missing);
      } else if doc.Arr? {
        forall i | 0 <= i < |doc.elems| ensures !Resolve(doc.elems[i], path, leaf, anyElem, missing).Raised? {
          ResolveNeverRaises(doc.elems[i], path, leaf, anyElem, missing);
        }
        var s := seq(|doc.elems|, i requires 0 <= i < |doc.elems| => Resolve(doc.elems[i], path, leaf, anyElem, missing));
        assert forall i :: 0 <= i < |s| ==> !s[i].Raised?;
      }
    }
  }

  // ---------------------------------------------------------------------------
  // A reference reading of the traversal: the places a path reaches

  /** Where one branch of the traversal ends: at a value the leaf test is
      applied to, or where the path could not be followed. */
  datatype Endpoint = Reached(v: Value) | Fell

  /** Every place `Resolve` may end when following `path` from `doc`. */
  function Endpoints(doc: Value, path: seq<string>, anyElem: bool): set<Endpoint>
    decreases doc
  {
    if |path| == 0 then
      {Reached(doc)} +
      (if anyElem && doc.Arr? then
         set i, e | 0 <= i < |doc.elems| && e in Endpoints(doc.elems[i], path, anyElem) :: e
       else {})
    else
      var key, rest := path[0], path[1..];
      if doc.Obj? && HasKey(doc.fields, key) then
        Endpoints(doc.fields[KeyIndex(doc.fields, key)].1, rest, anyElem)
      else if doc.Arr? && IndexesInto(key, |doc.elems|) then
        Endpoints(doc.elems[DigitsValue(key)], rest, anyElem)
      else if doc.Arr? then
        set i, e | 0 <= i < |doc.elems| && e in Endpoints(doc.elems[i], path, anyElem) :: e
      else {Fell}
  }

  /** What the operator makes of one endpoint. */
  function Test(e: Endpoint, leaf: Value -> Outcome, missing: Outcome): Outcome {
    match e
    case Reached(v) => leaf(v)
    case Fell => missing
  }

  /** The endpoints reached through the elements of a list. */
  function ElemEndpoints(es: seq<Value>, path: seq<string>, anyElem: bool): set<Endpoint> {
    set i, e | 0 <= i < |es| && e in Endpoints(es[i], path, anyElem) :: e
  }

  /** The traversal holds exactly when some place the path reaches passes the
      leaf test, or the path falls off somewhere and the default is true,
      provided no reached place raises. */
  lemma {:induction false} ResolveByEndpoints(doc: Value, path: seq<string>, leaf: Value -> Outcome,
                                              anyElem: bool, missing: Outcome)
    requires forall e :: e in Endpoints(doc, path, anyElem) ==> !Test(e, leaf, missing).Raised?
    ensures Resolve(doc, path, leaf, anyElem, missing) ==
            Done(exists e :: e in Endpoints(doc, path, anyElem) && Test(e, leaf, missing) == Done(true))
    decreases doc
  {
    if |path| == 0 {
      if anyElem && doc.Arr? {
        assert Endpoints(doc, path, anyElem) == {Reached(doc)} + ElemEndpoints(doc.elems, path, anyElem);
        var s := seq(|doc.elems|, i requires 0 <= i < |doc.elems| => Resolve(doc.elems[i], path, leaf, anyElem, missing));
        ElementsByEndpoints(doc, s, path, leaf, anyElem, missing);
        assert Resolve(doc, path, leaf, anyElem, missing) ==
               if AnyEager(s) == Done(false) then leaf(doc) else AnyEager(s);
        var E, U := Endpoints(doc, path, anyElem), ElemEndpoints(doc.elems, path, anyElem);
        assert Reached(doc) in E;
        if exists e :: e in U && Test(e, leaf, missing) == Done(true) {
          var e :| e in U && Test(e, leaf, missing) == Done(true);
          assert e in E;
        }
      } else {
        assert Endpoints(doc, path, anyElem) == {Reached(doc)};
      }
    } else {
      var key, rest := path[0], path[1..];
      if doc.Obj? && HasKey(doc.fields, key) {
        ResolveByEndpoints(doc.fields[KeyIndex(doc.fields, key)].1, rest, leaf, anyElem, missing);
      } else if doc.Arr? && IndexesInto(key, |doc.elems|) {
        ResolveByEndpoints(doc.elems[DigitsValue(key)], rest, leaf, anyElem, missing);
      } else if doc.Arr? {
        assert Endpoints(doc, path, anyElem) == ElemEndpoints(doc.elems, path, anyElem);
        var s := seq(|doc.elems|, i requires 0 <= i < |doc.elems| => Resolve(doc.elems[i], path, leaf, anyElem, missing));
        ElementsByEndpoints(doc, s, path, leaf, anyElem, missing);
        assert Resolve(doc, path, leaf, anyElem, missing) == AnyEager(s);
        var E, U := Endpoints(doc, path, anyElem), ElemEndpoints(doc.elems, path, anyElem);
        if exists e :: e in U && Test(e, leaf, missing) == Done(true) {
          var e :| e in U && Test(e, leaf, missing) == Done(true);
          assert e in E;
        }
      } else {
        assert Endpoints(doc, path, anyElem) == {Fell};
      }
    }
  }

  /** The `any([...])` over the elements of a list, read through endpoints. */
  lemma {:induction false} ElementsByEndpoints(doc: Value, s: seq<Outcome>, path: seq<string>,
                                               leaf: Value -> Outcome, anyElem: bool, missing: Outcome)
    requires doc.Arr? && |s| == |doc.elems|
    requires forall i :: 0 <= i < |s| ==> s[i] == Resolve(doc.elems[i], path, leaf, anyElem, missing)
    requires forall e :: e in ElemEndpoints(doc.elems, path, anyElem) ==> !Test(e, leaf, missing).Raised?
    ensures AnyEager(s) ==
            Done(exists e :: e in ElemEndpoints(doc.elems, path, anyElem) && Test(e, leaf, missing) == Done(true))
    decreases doc, 0
  {
    var es := doc.elems;
    var U := ElemEndpoints(es, path, anyElem);
    forall i | 0 <= i < |es|
      ensures s[i] == Done(exists e :: e in Endpoints(es[i], path, anyElem) && Test(e, leaf, missing) == Done(true))
    {
      assert Endpoints(es[i], path, anyElem) <= U;
      ResolveByEndpoints(es[i], path, leaf, anyElem, missing);
    }
    if exists e :: e in U && Test(e, leaf, missing) == Done(true) {
      var e :| e in U && Test(e, leaf, missing) == Done(true);
      var i :| 0 <= i < |es| && e in Endpoints(es[i], path, anyElem);
      assert s[i].matched;
    }
  }

  /** Whatever the end-of-path traversal reaches from a reached value is
      itself reached from the document. */
  lemma {:induction false} EndpointsClosed(doc: Value, path: seq<string>, v: Value)
    requires Reached(v) in Endpoints(doc, path, true)
    ensures Endpoints(v, [], true) <= Endpoints(doc, path, true)
    decreases doc
  {
    if |path| == 0 {
      if v != doc {
        var i :| 0 <= i < |doc.elems| && Reached(v) in Endpoints(doc.elems[i], path, true);
        EndpointsClosed(doc.elems[i], path, v);
      }
    } else {
      var key, rest := path[0], path[1..];
      if doc.Obj? && HasKey(doc.fields, key) {
        EndpointsClosed(doc.fields[KeyIndex(doc.fields, key)].1, rest, v);
      } else if doc.Arr? && IndexesInto(key, |doc.elems|) {
        EndpointsClosed(doc.elems[DigitsValue(key)], rest, v);
      } else if doc.Arr? {
        var i :| 0 <= i < |doc.elems| && Reached(v) in Endpoints(doc.elems[i], path, true);
        EndpointsClosed(doc.elems[i], path, v);
      }
    }
  }

  /** Every value the traversal reaches occurs in the document. */
  lemma {:induction false} EndpointsOccur(doc: Value, path: seq<string>, anyElem: bool)
    ensures forall v :: Reached(v) in Endpoints(doc, path, anyElem) ==> Occurs(v, doc)
    decreases doc
  {
    forall v | Reached(v) in Endpoints(doc, path, anyElem) ensures Occurs(v, doc) {
      if |path| == 0 {
        if v != doc {
          var i :| 0 <= i < |doc.elems| && Reached(v) in Endpoints(doc.elems[i], path, anyElem);
          EndpointsOccur(doc.elems[i], path, anyElem);
        }
      } else {
        var key, rest := path[0], path[1..];
        if doc.Obj? && HasKey(doc.fields, key) {
          var k := KeyIndex(doc.fields, key);
          EndpointsOccur(doc.fields[k].1, rest, anyElem);
        } else if doc.Arr? && IndexesInto(key, |doc.elems|) {
          EndpointsOccur(doc.elems[DigitsValue(key)], rest, anyElem);
        } else if doc.Arr? {
          var i :| 0 <= i < |doc.elems| && Reached(v) in Endpoints(doc.elems[i], path, anyElem);
          EndpointsOccur(doc.elems[i], path, anyElem);
        }
      }
    }
  }

  /** Two leaf tests that agree on every value occurring in the document give
      the same traversal result. */
  lemma {:induction false} ResolveAgree(doc: Value, path: seq<string>, leaf1: Value -> Outcome,
                                        leaf2: Value -> Outcome, anyElem: bool, missing: Outcome)
    requires forall v :: Occurs(v, doc) ==> leaf1(v) == leaf2(v)
    ensures Resolve(doc, path, leaf1, anyElem, missing) == Resolve(doc, path, leaf2, anyElem, missing)
    decreases doc
  {
    assert Occurs(doc, doc);
    if |path| > 0 && doc.Obj? && HasKey(doc.fields, path[0]) {
      var k := KeyIndex(doc.fields, path[0]);
      forall v | Occurs(v, doc.fields[k].1) ensures leaf1(v) == leaf2(v) {
        assert Occurs(v, doc);
      }
      ResolveAgree(doc.fields[k].1, path[1..], leaf1, leaf2, anyElem, missing);
    } else if |path| > 0 && doc.Arr? && IndexesInto(path[0], |doc.elems|) {
      var k := DigitsValue(path[0]);
      forall v | Occurs(v, doc.elems[k]) ensures leaf1(v) == leaf2(v) {
        assert Occurs(v, doc);
      }
      ResolveAgree(doc.elems[k], path[1..], leaf1, leaf2, anyElem, missing);
    } else if doc.Arr? {
      forall i | 0 <= i < |doc.elems|
        ensures Resolve(doc.elems[i], path, leaf1, anyElem, missing) == Resolve(doc.elems[i], path, leaf2, anyElem, missing)
      {
        forall v | Occurs(v, doc.elems[i]) ensures leaf1(v) == leaf2(v) {
          assert Occurs(v, doc);
        }
        ResolveAgree(doc.elems[i], path, leaf1, leaf2, anyElem, missing);
      }
      assert seq(|doc.elems|, i requires 0 <= i < |doc.elems| => Resolve(doc.elems[i], path, leaf1, anyElem, missing)) ==
             seq(|doc.elems|, i requires 0 <= i < |doc.elems| => Resolve(doc.elems[i], path, leaf2, anyElem, missing));
    }
  }
}
