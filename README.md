# mgqpy matching engine in Dafny

mgqpy evaluates a MongoDB-style filter (`{"a.b": {"$gte": 3}, "c": "x"}`)
as a boolean predicate over an in-memory, JSON-like Python document. This
project models the engine's core and proves its behaviour: the dotted-path
traversal shared by every operator, the leaf rule of each operator, the
type coercion applied before comparisons, the `Query.match` loop and the
condition evaluator that the logical operators, `$not` and `$elemMatch`
call back into.

The repository holds two snapshots of the engine side by side. `mgqpy/` is
the older one: its equality, `$gte` and `$lt` compare without coercion.
`src/mgqpy/` coerces both sides before comparing. Each file is modelled as
written, in its own module, and lemmas relate the two where they meet.

## Layout

| file | module | models |
|---|---|---|
| values.dfy | `Values` | documents and operands (`Value`), Python `==` (dicts compared as maps, `True == 1`), native ordering that may raise, eager `any([...])` versus lazy `any(...)` |
| paths.dfy | `Paths` | `path.split(".")` and the traversal skeleton `Resolve`, with a reference definition by the set of endpoints a path reaches |
| coerce.dfy | `Coercion` | `coerce`, `_try_date`, `_try_uuid`, `_try_decimal` of `src/mgqpy/utils.py` |
| coerce_legacy.dfy | `CoerceLegacy` | the older `coerce` of `mgqpy/utils.py` |
| object_order.dfy | `ObjectOrder` | the insertion-order `zip_longest` walk shared by the four ordering operators on dicts |
| eq_legacy.dfy, eq_src.dfy | `EqLegacy`, `EqSrc` | `_match_eq` and `_match_ne` of both snapshots |
| in_nin.dfy | `InNin` | `_match_in`, `_match_nin`, `_validate_in_nin` |
| gte.dfy, lte.dfy | `Gte`, `Lte` | `_match_gte` and `_match_lte` of `mgqpy/operators/` |
| lt_legacy.dfy, lt_src.dfy | `LtLegacy`, `LtSrc` | `_match_lt` of both snapshots |
| mod.dfy, size.dfy, all.dfy, regex.dfy | `Mod`, `Size`, `All`, `Regex` | `$mod`, `$size`, `$all`, `$regex` with their operand checks |
| query.dfy | `Query` | `cmp_ops`, the `Query` class and its `match` loop, and the comparison functions written out in `mgqpy/__init__.py` |
| evaluator.dfy | `Evaluator` | the condition evaluator `_match_cond`, `$not`, `$elemMatch`, `$and`/`$or`/`$nor` |

How the model is built:

- **Results.** A match returns `Outcome`: `Done(b)`, or `Raised` when a
  Python exception escapes. Exceptions come from ordering two dicts or two
  lists whose elements do not compare, from a `$mod` divisor that floors
  to zero, and from a `$regex` whose `$options` `in` cannot search or whose
  pattern does not compile. `any([...])` builds
  its whole list first, so a raising element raises even after a true one.
  `any(...)` and `all(...)` over a generator stop at the first decisive
  element. `Values` keeps the two apart (`AnyEager`/`AnyLazy`).
- **Traversal.** `Paths.Resolve(doc, path, leaf, anyElem, missing)` is the
  recursion every operator file repeats. An empty path runs the leaf test;
  with `anyElem`, an array leaf first tries its elements. A dict key
  descends. An all-digit, in-range segment on a list selects that index
  only (CPython's 4300-digit limit on `int(key)` is left out, see below). Any other segment on a list ORs over its elements with the same
  path. Anything else gives the operator's `missing` default. Each operator
  is `Resolve` with its own leaf. `Paths.Endpoints` lists the values a path
  reaches, and `ResolveByEndpoints` proves that the traversal is "some
  endpoint passes".
- **Library code.** ISO-8601, `Decimal` and `UUID` parsing and the regex
  engine are fields of an `Env` record of functions. `Env.compiles` says
  whether a pattern compiles and `Env.search` is `re.search`. Every lemma
  holds for every `Env`.
- **Numbers.** A number is a `Bool`, an `Int` or a `Decimal`. A `Decimal`
  is held exactly as `units / 10^scale`. Python's floored `%` on ints and
  `Decimal`'s truncated `%` are written out (`Mod.FlooredMod`,
  `Mod.TruncatedMod`).
- **`Query.match`.** It is a loop that appends to a local list of results.
  It is modelled as the method `Query.QueryFilter.Match` of a class holding
  the query, and proved equal to the function `Query.Eval`, which the
  lemmas about `Query` use.
- **`_match_cond`.** Its code is not part of this model. `Evaluator` gives it
  the shape of `Query.match`: a condition holds when every field holds. A
  field whose value is a non-empty dict of operators runs each operator,
  and any other value is compared by `$eq`. `$and`, `$or` and `$nor` take a
  list of sub-conditions. Each operator is dispatched to the file that
  implements it: `src/mgqpy/` where it has one (`$eq`, `$ne`, `$in`, `$nin`,
  `$lt`, `$mod`, `$regex`, `$elemMatch`), else `mgqpy/operators/` (`$gte`,
  `$lte`, `$size`, `$all`, the logical operators), and `$gt` from
  `mgqpy/__init__.py`, the only file that has it.

Behaviour of the code worth knowing, all of it modelled as written:

- An empty `$all` operand matches every list leaf, because `all([])` is
  true (mgqpy/operators/all.py:12).
- In both `coerce` functions, a date or datetime paired with a string is
  tried before a `Decimal`.
- Comparing two lists or two dicts whose entries do not order raises
  `TypeError` out of `$gte`, `$lte`, both `$lt` and the `Query`
  comparisons: each compares lists and dicts outside any `try`.
- On a `Decimal` document, `$mod` takes `Decimal`'s `%`, whose remainder has
  the sign of the dividend, while an int document takes the floored
  remainder (src/mgqpy/operators/mod.py:19, `Mod.DecimalAgreesOnNonNegative`).

## Model

| member | source | states |
|---|---|---|
| Values.ComparedComplement | mgqpy/operators/gte.py:35-39 | for one native comparison, `>=` is the negation of `<` and `<=` of `>`; a comparison that raises raises for both |
| Values.AllEagerConcat | mgqpy/__init__.py:77 | `all` over two result lists joined is the conjunction of the two, and an exception in either escapes |
| Values.LazyWithoutRaise | mgqpy/operators/and_or_nor.py:8-15 | when no sub-result raises, generator `any`/`all` agree with list `any`/`all` and mean "some is true" / "every one is true" |
| Values.LazyWitness | mgqpy/operators/and_or_nor.py:8-15 | generator `any` true has a true element, false means every element is false; `all` dually |
| Values.ShortCircuit | mgqpy/operators/and_or_nor.py:8-15 | a generator stops at a decisive element before one that raises, a list does not |
| Values.PyEqSymmetric | mgqpy/operators/eq_ne_not.py:16 | Python `==` on documents is symmetric, with dicts compared as key-to-value maps |
| Values.PyEqReflexive | mgqpy/operators/all.py:12 | every well-formed document equals itself |
| Values.NativeCompareFlip | mgqpy/operators/gte.py:12-39 | native ordering of b against a is the flip of a against b, and raises exactly when it does |
| Values.ListCompareFlip | mgqpy/operators/gte.py:12-14 | lexicographic list ordering, compared from any element on, is antisymmetric in the same way |
| Values.StrCompareFlip | mgqpy/operators/gte.py:26-27 | code-point string order flips when the sides swap |
| Values.StrCompareEqual | mgqpy/operators/gte.py:26-27 | two strings compare equal exactly when they are the same string |
| Paths.Split | mgqpy/__init__.py:61 | `path.split(".")` yields at least one segment |
| Paths.JoinSplit | mgqpy/__init__.py:61 | joining the segments with "." gives the path back |
| Paths.SplitNoDot | mgqpy/__init__.py:61 | no segment contains "." |
| Paths.SplitNoDotWhole | mgqpy/__init__.py:61 | a path without "." is a single segment |
| Paths.SplitJoin | mgqpy/__init__.py:61 | splitting the join of non-empty list of dot-free segments gives the segments back |
| Paths.SplitPrefix | mgqpy/__init__.py:61 | a dot-free first component splits off as the first segment |
| Paths.ResolveLeafList | mgqpy/operators/eq_ne_not.py:8-16 | at the end of the path a list matches when some element matches or when the whole list passes the leaf test |
| Paths.ResolveKey | mgqpy/operators/eq_ne_not.py:21-22 | a dict holding the segment as a key descends into that key and nothing else |
| Paths.ResolveIndex | mgqpy/operators/eq_ne_not.py:24-27 | an all-digit, in-range segment on a list selects that element only, with no fan-out |
| Paths.ResolveFanOut | mgqpy/operators/eq_ne_not.py:29-30 | any other segment on a list is true when some element, with the same path, is true |
| Paths.ResolveMissing | mgqpy/operators/eq_ne_not.py:32-35 | a path that cannot be followed from a non-list gives the operator's default |
| Paths.ResolveNeverRaises | mgqpy/operators/eq_ne_not.py:7-35 | when the leaf test and the default never raise, the traversal never raises |
| Paths.ResolveByEndpoints | mgqpy/operators/eq_ne_not.py:7-35 | the traversal is true exactly when some endpoint the path reaches passes its test (leaf test on a reached value, default where the path falls off) |
| Paths.ElementsByEndpoints | mgqpy/operators/eq_ne_not.py:29-30 | the OR over a list's elements is "some endpoint of some element passes" |
| Paths.EndpointsClosed | mgqpy/operators/eq_ne_not.py:9-10 | the elements a reached list offers at the leaf are endpoints of the whole traversal too |
| Paths.EndpointsOccur | mgqpy/operators/eq_ne_not.py:7-35 | every value the traversal reaches occurs inside the document |
| Paths.ResolveAgree | mgqpy/operators/eq_ne_not.py:7-35 | two leaf tests that agree on every value inside the document give the same traversal result |
| Coercion.TryDate | src/mgqpy/utils.py:47-60 | the result is the string unchanged or a value of the requested date or datetime kind |
| Coercion.CoercePassthrough | src/mgqpy/utils.py:18-43 | if neither side is a date, datetime, Decimal or UUID the pair comes back unchanged |
| Coercion.CoerceOnlyPartnerChanges | src/mgqpy/utils.py:18-39 | the side that triggers a rule keeps its value and position; one side is always unchanged; a changed side only became the kind of its partner |
| Coercion.CoerceWellFormed | src/mgqpy/utils.py:9-43 | coercion keeps documents well formed |
| Coercion.CoerceSymmetric | src/mgqpy/utils.py:18-39 | swapping the arguments swaps the results, so the order of the cases favours neither side |
| Coercion.CoerceDateString | src/mgqpy/utils.py:20-27 | a string beside a datetime parses as a datetime and a naive result takes the datetime's zone; beside a date it parses as a date; a failed parse leaves the string |
| Coercion.TryDecimalTryUuidScope | src/mgqpy/utils.py:64-86 | `_try_decimal` leaves every kind but ints and strings alone, bools included; an int within `str`'s 4300-digit limit becomes the equal Decimal, a longer one stays the int; either way the result is `==` to the int; `_try_uuid` leaves non-strings alone |
| Coercion.DigitsBelow | src/mgqpy/utils.py:83-84 | an int has at most k decimal digits exactly when its magnitude is below 10^k, the bound `str(int)` checks |
| Coercion.IntConversionLimit | src/mgqpy/utils.py:81-85 | `_try_decimal` turns an int into a Decimal exactly when its magnitude is below 10^4300; beyond that `str` raises `ValueError`, which is caught |
| CoerceLegacy.TryDate | mgqpy/utils.py:43-53 | the result is the string unchanged or a value of the requested kind |
| CoerceLegacy.CoerceOnlyPartnerChanges | mgqpy/utils.py:18-39 | no trigger means no change; the triggering side keeps value and position; a changed side only became its partner's kind |
| CoerceLegacy.CoerceDateString | mgqpy/utils.py:20-23 | a string beside a date or datetime parses into the same kind, with no zone fill; a failed parse leaves the string |
| CoerceLegacy.AgreesWithCoerce | mgqpy/utils.py:20-23 | the two `coerce` functions differ exactly when an aware datetime meets a string that parses as a naive datetime |
| EqLegacy.Semantics | mgqpy/operators/eq_ne_not.py:7-35 | `$eq` holds exactly when some reached value `==` the operand or is a string the pattern operand finds, or the path falls off and the operand is null |
| EqLegacy.NeIsNotEq | mgqpy/operators/eq_ne_not.py:38-39 | `$ne` never raises and is the negation of `$eq` over the whole traversal |
| EqLegacy.PatternLeaf | mgqpy/operators/eq_ne_not.py:12-14 | a pattern operand matches a string exactly when `search` finds it |
| EqSrc.Semantics | src/mgqpy/operators/eq_ne_not.py:9-37 | `$eq` holds exactly when some endpoint is accepted: a reached value equal to the operand after coercion or found by the pattern, or a missing path with a null operand |
| EqSrc.NeIsNotEq | src/mgqpy/operators/eq_ne_not.py:40-41 | `$ne` holds exactly when no place the path reaches is accepted by `$eq`, so it never raises and is the negation of `$eq` |
| EqSrc.PatternLeaf | src/mgqpy/operators/eq_ne_not.py:14-15 | a pattern operand matches a string exactly when `search` finds it |
| EqSrc.LeafSymmetric | src/mgqpy/operators/eq_ne_not.py:17-18 | coerce-then-`==` gives the same answer with document and operand swapped |
| EqSrc.AgreesWithLegacy | src/mgqpy/operators/eq_ne_not.py:17-18 | without a date, datetime, Decimal or UUID on either side the two snapshots' `$eq` agree |
| EqSrc.DecimalString | src/mgqpy/operators/eq_ne_not.py:17-18 | a numeric string equals its Decimal after coercion, while the older `$eq` says no |
| InNin.LeafNeverRaises | src/mgqpy/operators/in_nin.py:15 | the leaf of `$in` never raises and is "some operand element is `$eq` to the value" |
| InNin.InIsSomeEq | src/mgqpy/operators/in_nin.py:7-34 | with a list operand, `$in` along a path is the OR of `$eq` along the same path over the operand elements |
| InNin.NinIsNotIn | src/mgqpy/operators/in_nin.py:37-41 | with a list operand, `$nin` never raises and is the negation of `$in` |
| InNin.NonListOperand | src/mgqpy/operators/in_nin.py:8-9 | a non-list operand makes both `$in` and `$nin` false, so they are not complements there |
| InNin.EmptyOperand | src/mgqpy/operators/in_nin.py:15 | an empty operand list: `$in` never matches, `$nin` always does |
| InNin.MissingPath | src/mgqpy/operators/in_nin.py:31-34 | a path that cannot be followed matches exactly when the operand list holds null |
| Gte.NullOperand | mgqpy/operators/gte.py:41-61 | a null operand matches exactly when the path reaches a null or falls off |
| Gte.LeafRaises | mgqpy/operators/gte.py:12-33 | the leaf raises only for two lists or two dicts |
| Gte.MixedKinds | mgqpy/operators/gte.py:35-44 | any pair that is not number/number, string/string, null/null, list/list or dict/dict gives false |
| LtLegacy.NullNeverMatches | mgqpy/operators/lt.py:35-57 | with no null rule, a null operand never matches, missing path included |
| LtLegacy.GteComplementsLt | mgqpy/operators/lt.py:12-41 | on comparable kind pairs the leaf of `$gte` is the negation of the leaf of `$lt`; on any other pair both are false |
| Lte.MirrorsGte | mgqpy/operators/lte.py:14-44 | without coercion triggers, `doc <= ov` is the `$gte` leaf with the sides swapped |
| Lte.NullOperand | mgqpy/operators/lte.py:37-65 | with a null operand `$lte` is `$gte`: null leaves and missing paths match |
| Lte.OrdersDates | mgqpy/operators/lte.py:40-44 | dates order by day, and a date string is parsed before comparing; the older `$gte` has no date rule |
| Lte.LeafRaises | mgqpy/operators/lte.py:14-35 | the leaf raises only for two lists or two dicts; everything else is caught |
| LtSrc.AgreesWithLegacy | src/mgqpy/operators/lt.py:37-41 | without coercion triggers the two snapshots' `$lt` agree |
| LtSrc.Asymmetric | src/mgqpy/operators/lt.py:9-43 | a leaf is never below an operand that is below it |
| LtSrc.DecimalString | src/mgqpy/operators/lt.py:37-41 | a numeric string orders against a Decimal after coercion |
| LtSrc.NullNeverMatches | src/mgqpy/operators/lt.py:37-59 | a null operand never matches: `None < None` raises and is caught, and a missing path is false |
| ObjectOrder.WalkSwap | mgqpy/operators/gte.py:20-32 | walking the keys with the dicts swapped swaps the side that runs out, the differing keys and the deciding direction |
| ObjectOrder.KeysDifferDistinct | mgqpy/operators/gte.py:26-27 | the walk stops at a key pair only where the keys differ |
| ObjectOrder.Mirror | mgqpy/operators/lt.py:16-33 | `$gt` of d over o is `$lt` of o under d, and `$gte` is `$lte` mirrored |
| ObjectOrder.TieBreak | mgqpy/operators/lte.py:18-35 | the inclusive rule differs from the strict one only on dicts whose walk completes |
| ObjectOrder.Complement | mgqpy/operators/gte.py:16-33 | `$gte` on dicts is the negation of `$lt`, and `$lte` of `$gt` |
| ObjectOrder.KeyOrderMatters | mgqpy/operators/gte.py:20-27 | two dicts equal under `==` but in another key order are not `$gte` |
| Mod.Floor | src/mgqpy/operators/mod.py:17-18 | `math.floor` of an exact decimal is the greatest integer not above it |
| Mod.FlooredMod | src/mgqpy/operators/mod.py:19 | Python's int `%` takes the divisor's sign and is below it in size |
| Mod.TruncatedMod | src/mgqpy/operators/mod.py:19 | Decimal `%` takes the dividend's sign and is below the divisor in size |
| Mod.FlooredModDivides | src/mgqpy/operators/mod.py:19 | the floored remainder differs from the dividend by a multiple of the divisor |
| Mod.TruncatedModDivides | src/mgqpy/operators/mod.py:19 | the truncated remainder differs from the dividend by a multiple of the divisor |
| Mod.InvalidOperand | src/mgqpy/operators/mod.py:7-8 | an operand that is not a list of two numbers gives false |
| Mod.Semantics | src/mgqpy/operators/mod.py:6-37 | with a non-zero divisor `$mod` holds exactly when some reached number has the given floored remainder |
| Mod.ZeroDivisor | src/mgqpy/operators/mod.py:17-19 | a divisor that floors to zero raises |
| Mod.DecimalAgreesOnNonNegative | src/mgqpy/operators/mod.py:19 | on non-negative values the Decimal remainder agrees with the int one; on negatives they differ |
| Mod.FooScenario | src/mgqpy/operators/mod.py:10-27 | `{"foo": x}` matches `[m, 0]` exactly when m divides x |
| Mod.ThreeZeroScenario | src/mgqpy/operators/mod.py:10-21 | `[3, 0]` and `[-3, 0]` match -3, 0, 3, 6 and `[3, 0]` rejects 1, 2, 4, 5 and the string "6" |
| Size.TruncateUnits | mgqpy/operators/size.py:13 | `int(x)` truncates toward zero: it lies within one unit of x on the side of zero |
| Size.Semantics | mgqpy/operators/size.py:5-32 | a non-number operand gives false; otherwise `$size` holds when some endpoint, without element search, is a list of the truncated length |
| Size.NoElementSearch | mgqpy/operators/size.py:9-16 | at the leaf only the value itself counts; nested lists are not searched |
| Size.Scenario | mgqpy/operators/size.py:5-32 | `{"foo": [1,2,3]}` has size 3 and not size 2 |
| All.Semantics | mgqpy/operators/all.py:4-32 | a non-list operand gives false; otherwise `$all` holds when some endpoint, without element search, is a list holding each operand element as a member or equal to the whole list |
| All.EmptyOperand | mgqpy/operators/all.py:12 | an empty operand matches exactly when the path reaches a list |
| All.OperandSubset | mgqpy/operators/all.py:12 | dropping operand elements keeps a match |
| All.OwnElements | mgqpy/operators/all.py:12 | a list matches the list of its own elements |
| All.WholeListClause | mgqpy/operators/all.py:12 | `[1,2]` matches `[[1,2]]` through `o == doc`, and `[1,2,3]` does not |
| Regex.FlagsByLetter | src/mgqpy/operators/regex.py:13-21 | for an options string, each of i, m, s, x sets its flag, and a flag is set only by its letter |
| Regex.FlagsUnion | src/mgqpy/operators/regex.py:13-21 | the flags of joined option strings are the union of their flags |
| Regex.OtherCharacters | src/mgqpy/operators/regex.py:13-21 | any other character adds no flag |
| Regex.ListOptions | src/mgqpy/operators/regex.py:14-21 | `in` on a list options value tests whole elements: `["i", "m"]` sets IGNORECASE and MULTILINE |
| Regex.ListElementsWhole | src/mgqpy/operators/regex.py:14-21 | a list element is not searched for letters: `["im"]` sets no flag |
| Regex.DictOptions | src/mgqpy/operators/regex.py:14-21 | `in` on a dict options value tests keys: `{"s": None}` sets DOTALL |
| Regex.Semantics | src/mgqpy/operators/regex.py:5-44 | with options that `in` accepts and a pattern that compiles with them, `$regex` holds exactly when some place the path reaches, list elements included, is a string the search finds the pattern in; a missing path is false |
| Regex.StringsOnly | src/mgqpy/operators/regex.py:10-11 | a document in which no string is reached never matches and never raises |
| Regex.SearchDecides | src/mgqpy/operators/regex.py:23-28 | on a string, a compiling pattern matches exactly when `search` finds it anywhere, and one that does not compile raises |
| Regex.CompiledPattern | src/mgqpy/operators/regex.py:23-25 | an already compiled pattern searches with its own source and flags when the options set no flag, and raises when they set one |
| Regex.NonIterableOptions | src/mgqpy/operators/regex.py:14 | options that `in` cannot search (null, numbers, dates, UUIDs, patterns) raise at a string leaf and nowhere else |
| Query.QueryFilter.constructor | mgqpy/__init__.py:46-48 | the filter keeps the query it is given |
| Query.QueryFilter.Match | mgqpy/__init__.py:50-77 | the loop returns `all` of the per-field results in query order, an exception escaping |
| Query.QueryFilter.AppendField | mgqpy/__init__.py:54-75 | one field appends exactly its operator results, or a literal `$eq` result, or raises |
| Query.QueryFilter.AppendOps | mgqpy/__init__.py:63-73 | an operator expression appends `$eq`, `$gt`, `$gte`, `$lt`, `$lte` results in that order for the keys it holds |
| Query.QueryFilter.Append | mgqpy/__init__.py:64-73 | one operator appends its result when its key is present and nothing otherwise |
| Query.RaisedInField | mgqpy/__init__.py:51-77 | an exception in any field escapes `match` |
| Query.FieldsAnd | mgqpy/__init__.py:53-77 | splitting the query splits the result into a conjunction |
| Query.EmptyQuery | mgqpy/__init__.py:51-77 | an empty query matches every document |
| Query.LiteralValues | mgqpy/__init__.py:55-75 | a value that is not a non-empty dict of `cmp_ops` keys is matched by `$eq` |
| Query.UnhandledOperators | mgqpy/__init__.py:33-73 | an expression of only `$in`, `$ne`, `$nin` adds no condition |
| Query.OperatorsAnded | mgqpy/__init__.py:63-73 | `$gt` and `$lt` on one path are ANDed |
| Query.EqAgreesWithOperatorsFile | mgqpy/__init__.py:80-104 | for a non-pattern operand the inline `_match_eq` is the operators file's |
| Query.Duality | mgqpy/__init__.py:107-266 | the inline `$gt` leaf is the `$lt` leaf with the sides swapped, and `$gte` is the inline `$lte` swapped |
| Query.NullOperand | mgqpy/__init__.py:132-323 | with a null operand `$gt` is always false, and the inline `$lte` is `$gte` |
| Query.GtObjects | mgqpy/__init__.py:116-130 | on dicts `$gt` holds when the operand runs out first, is false when the document runs out first or the walk completes, and is false for two empty dicts |
| Evaluator.CondFieldsAnd | mgqpy/__init__.py:53-77 | a condition is the conjunction of its fields, an exception escaping |
| Evaluator.SingleField | mgqpy/__init__.py:53-77 | a one-field condition is that field |
| Evaluator.NotIsNegatedCond | src/mgqpy/operators/eq_ne_not.py:44-45 | `$not` negates the one-field condition `{path: ov}` |
| Evaluator.LogicalNonList | mgqpy/operators/and_or_nor.py:4-31 | a non-list operand makes `$and`, `$or` and `$nor` false |
| Evaluator.LogicalEmpty | mgqpy/operators/and_or_nor.py:8-22 | empty lists: `$and` true, `$or` false, `$nor` true |
| Evaluator.LogicalSemantics | mgqpy/operators/and_or_nor.py:8-15 | `$and` holds when every sub-condition holds and `$or` when some does |
| Evaluator.NorIsNotOr | mgqpy/operators/and_or_nor.py:15-22 | `$nor` is `not $or` on every list operand |
| Evaluator.ElemLeafSemantics | src/mgqpy/operators/elem_match.py:8-15 | the leaf holds exactly when it is a list with an element that satisfies the whole condition as a document |
| Evaluator.SameElement | src/mgqpy/operators/elem_match.py:12 | both fields of a two-field condition hold on one and the same element |
| Evaluator.ElemMatchSemantics | src/mgqpy/operators/elem_match.py:7-31 | `$elemMatch` holds when some endpoint, without element search, passes the leaf; a missing path is false |
| Evaluator.InSingleton | src/mgqpy/operators/in_nin.py:15 | `$in` with one operand element is `$eq` with that element |
| Evaluator.RegexWithOptions | src/mgqpy/operators/regex.py:13-23 | `$regex` reads the `$options` beside it, and `$options` itself adds no condition |

## Left out

- Floating point: `float` documents and operands, float `$mod` and `$size`
  operands, and int/float equality are not modelled; numbers are bools,
  integers and exact decimals.
- `Decimal` NaN, sNaN and infinities cannot be represented: `DecimalVal` is
  a finite `units / 10^scale`. The model therefore does not capture that a
  NaN is unequal to itself or that ordering a NaN raises `InvalidOperation`.
- `Paths.IndexesInto`: a segment selects a list index only when it is made
  of ASCII digits. The code's `key.isdigit()` also accepts other Unicode
  digits. The model fans out over the elements where the code would select
  an index (`"١"`), or where `int(key)` would raise `ValueError` (`"²"`).
- `Paths.IndexesInto`: CPython's 4300-digit limit on `int(str)` is not
  modelled. On a list, an ASCII-digit segment of more than 4300 digits
  makes `int(key)` raise `ValueError` outside any `try` in every operator
  file (for example src/mgqpy/operators/regex.py:36-37). The model treats
  it as an out-of-range index and fans out over the elements instead, so
  `{"a": [1]}` with path `"a."` followed by 4301 ones is `Done(false)`
  rather than a raise.
- `Paths.ResolveNeverRaises`: "never raises" holds for the model only; in
  the code a list segment of more than 4300 digits raises, as above.
- `EqLegacy.NeIsNotEq`: `$ne` too raises on such a segment in the code.
- `EqSrc.NeIsNotEq`: `$ne` too raises on such a segment in the code.
- `InNin.NinIsNotIn`: `$nin` too raises on such a segment in the code.
- `Regex.StringsOnly`: a document without strings still raises on such a
  segment in the code.
- ISO-8601, `Decimal` and `UUID` parsing, and datetime zone arithmetic, are
  functions of `Env`. Aware and naive datetimes compare by their UTC and
  local values respectively, and comparing one of each raises.
- The regex engine is `Env.compiles` and `Env.search`. Bytes patterns do
  not exist in the model, and a compiled pattern is assumed to have
  compiled.
- `Decimal` arithmetic context (precision, rounding) is not modelled;
  decimals are exact.
- `Evaluator.MatchCond`: `_match_cond` is not part of this model, so its
  shape is chosen here (see above). A condition that is not a dict raises, and
  a `$regex` without `$options` uses "".
- `Query.validate`, `Query.test` and the `TypeError`/`ValueError` for bad
  `$in`/`$mod` operands appear only in tests, not in the code modelled; the
  operators modelled return false for bad operands, as written.
- `$all` over `$elemMatch` wrappers is not implemented by `mgqpy/operators/all.py`
  and is not modelled.
- The operand checks of `$mod`, `$size`, `$all`, `$in` and `$nin` run at
  every level of the recursion in the code and once at the top in the
  model; the operand never changes, so the result is the same.
- `ObjectOrder.Walk`: the value compared for a key is the entry at the same
  position, which is the value of that key because a dict's keys are
  distinct.
- `Evaluator.Logical` takes no path, since the logical operators ignore it.
- MongoDB conformance runs, the test harness and benchmarking are network
  and process I/O and are not modelled.
