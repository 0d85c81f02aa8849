/** `$regex` with `$options` (src/mgqpy/operators/regex.py): a string leaf
    matches when the compiled pattern is found anywhere in it; the regular
    expression engine itself is the `compiles`/`search` pair of `Env`. */
module Regex {
  import opened Values
  import opened Paths

  /** The kinds `"i" in options` accepts; any other kind raises `TypeError`. */
  predicate Iterable(options: Value) {
    options.Str? || options.Arr? || options.Obj?
  }

  /** `letter in options`: a substring test on a string, an `==` test against
      the elements of a list, a key test on a dict. */
  predicate Contains(options: Value, letter: char)
    requires Iterable(options)
  {
    match options
    case Str(s) => letter in s
    case Arr(es) => exists j :: 0 <= j < |es| && PyEq(es[j], Str([letter]))
    case Obj(fs) => HasKey(fs, [letter])
  }

  /** The flags the four independent `if`s build from `$options`. */
  function Flags(options: Value): set<RegexFlag>
    requires Iterable(options)
  {
    (if Contains(options, 'i') then {IgnoreCase} else {}) +
    (if Contains(options, 'm') then {Multiline} else {}) +
    (if Contains(options, 's') then {DotAll} else {}) +
    (if Contains(options, 'x') then {Verbose} else {})
  }

  /** `re.compile(pattern, flags)`, as the source and flags the search then
      runs with. A string compiles with the flags or raises; an already
      compiled pattern is returned as it is when no flag is asked for and
      raises `ValueError` otherwise; any other kind raises `TypeError`. */
  function Compile(env: Env, pattern: Value, flags: set<RegexFlag>): Option<(string, set<RegexFlag>)> {
    match pattern
    case Str(p) => if env.compiles(p, flags) then Some((p, flags)) else None
    case Pattern(source, own) => if flags == {} then Some((source, own)) else None
    case _ => None
  }

  /** The test at the end of the path. Non-strings never match; the flags are
      built and the pattern compiled only at a string, and either step may
      raise there. */
  function Leaf(env: Env, doc: Value, pattern: Value, options: Value): Outcome {
    if !doc.Str? then Done(false)
    else if !Iterable(options) then Raised
    else
      match Compile(env, pattern, Flags(options))
      case None => Raised
      case Some((source, flags)) => Done(env.search(source, flags, doc.s))
  }

  /** `_match_regex(doc, path, {"$regex": pattern, "$options": options})` */
  function Regex(env: Env, doc: Value, path: seq<string>, pattern: Value, options: Value): Outcome {
    Resolve(doc, path, v => Leaf(env, v, pattern, options), true, Done(false))
  }

  /** Each letter of an options string contributes its own flag, whatever
      else the string holds. */
  lemma FlagsByLetter(options: string)
    ensures IgnoreCase in Flags(Str(options)) <==> 'i' in options
    ensures Multiline in Flags(Str(options)) <==> 'm' in options
    ensures DotAll in Flags(Str(options)) <==> 's' in options
    ensures Verbose in Flags(Str(options)) <==> 'x' in options
  {
  }

  /** Options strings combine by union. */
  lemma {:induction false} FlagsUnion(a: string, b: string)
    ensures Flags(Str(a + b)) == Flags(Str(a)) + Flags(Str(b))
  {
    forall c | c in "imsx" ensures c in a + b <==> c in a || c in b {
      if c in a + b {
        var k :| 0 <= k < |a + b| && (a + b)[k] == c;
        if k >= |a| { assert b[k - |a|] == c; }
      }
      if c in a {
        var k :| 0 <= k < |a| && a[k] == c;
        assert (a + b)[k] == c;
      }
      if c in b {
        var k :| 0 <= k < |b| && b[k] == c;
        assert (a + b)[|a| + k] == c;
      }
    }
  }

  /** Any other character adds no flag. */
  lemma OtherCharacters(c: char)
    requires c !in "imsx"
    ensures Flags(Str([c])) == {}
  {
  }

  /** In a list the letters must be whole elements: `["i", "m"]` sets two
      flags. */
  lemma ListOptions()
    ensures Flags(Arr([Str("i"), Str("m")])) == {IgnoreCase, Multiline}
  {
    var es := [Str("i"), Str("m")];
    assert PyEq(es[0], Str("i")) && PyEq(es[1], Str("m"));
    forall j | 0 <= j < |es| ensures !PyEq(es[j], Str("s")) && !PyEq(es[j], Str("x")) {
      assert es[j].s == "i" || es[j].s == "m";
    }
  }

  /** A list element is not searched for letters: `["im"]` sets no flag. */
  lemma ListElementsWhole()
    ensures Flags(Arr([Str("im")])) == {}
  {
    var es := [Str("im")];
    forall j, c | 0 <= j < |es| && c in "imsx" ensures !PyEq(es[j], Str([c])) {
      assert es[j].s == "im";
    }
  }

  /** In a dict the letters must be whole keys: `{"s": None}` sets one flag. */
  lemma DictOptions()
    ensures Flags(Obj([("s", Null)])) == {DotAll}
  {
    var fs := [("s", Null)];
    assert fs[0].0 == "s";
  }

  /** `$regex` holds exactly when some place the path reaches, searching the
      elements of lists as well, is a string the compiled pattern is found
      in; a path that cannot be followed is false. This is the whole answer
      whenever the options are iterable and the pattern compiles with them. */
  lemma Semantics(env: Env, doc: Value, path: seq<string>, pattern: Value, options: Value)
    requires Iterable(options) && Compile(env, pattern, Flags(options)).Some?
    ensures var c := Compile(env, pattern, Flags(options)).value;
            Regex(env, doc, path, pattern, options) ==
            Done(exists e :: e in Endpoints(doc, path, true) && e.Reached? && e.v.Str? &&
                             env.search(c.0, c.1, e.v.s))
  {
    var c := Compile(env, pattern, Flags(options)).value;
    var leaf := v => Leaf(env, v, pattern, options);
    forall e | e in Endpoints(doc, path, true)
      ensures !Test(e, leaf, Done(false)).Raised?
      ensures Test(e, leaf, Done(false)) == Done(true) <==> e.Reached? && e.v.Str? && env.search(c.0, c.1, e.v.s)
    {
    }
    ResolveByEndpoints(doc, path, leaf, true, Done(false));
  }

  /** A document with no string anywhere never matches, and never reaches the
      compile step, so even an invalid pattern cannot raise. */
  lemma StringsOnly(env: Env, doc: Value, path: seq<string>, pattern: Value, options: Value)
    requires forall v :: Occurs(v, doc) ==> !v.Str?
    ensures Regex(env, doc, path, pattern, options) == Done(false)
  {
    EndpointsOccur(doc, path, true);
    ResolveByEndpoints(doc, path, v => Leaf(env, v, pattern, options), true, Done(false));
  }

  /** At a string the answer is the search, anywhere in the string; a pattern
      that does not compile raises. */
  lemma SearchDecides(env: Env, s: string, pattern: string, options: string)
    ensures Regex(env, Str(s), [], Str(pattern), Str(options)) ==
            if env.compiles(pattern, Flags(Str(options))) then Done(env.search(pattern, Flags(Str(options)), s))
            else Raised
  {
  }

  /** A compiled pattern searches with its own source and flags when the
      options ask for no flag, and raises when they ask for one. */
  lemma CompiledPattern(env: Env, s: string, source: string, own: set<RegexFlag>, options: Value)
    requires Iterable(options)
    ensures Flags(options) == {} ==>
            Regex(env, Str(s), [], Pattern(source, own), options) == Done(env.search(source, own, s))
    ensures Flags(options) != {} ==> Regex(env, Str(s), [], Pattern(source, own), options) == Raised
  {
  }

  /** Options of any kind but a string, list or dict raise at a string leaf,
      and only there. */
  lemma NonIterableOptions(env: Env, s: string, pattern: Value, options: Value)
    requires !Iterable(options)
    ensures Regex(env, Str(s), [], pattern, options) == Raised
    ensures Regex(env, Int(0), [], pattern, options) == Done(false)
  {
  }
}
