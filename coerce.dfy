/** Best-effort pairwise coercion applied before `==` and the relational
    operators (src/mgqpy/utils.py): a date, datetime, Decimal or UUID on one
    side may convert the other side to its own kind; a failed conversion
    leaves the value as it was, so coercion never raises. */
module Coercion {
  import opened Values

  /** The kinds that start a conversion of the other side. */
  predicate Triggers(v: Value) {
    v.Date? || v.DateTime? || v.Decimal? || v.Uuid?
  }

  /** The target of `_try_date`: a date, or a datetime that receives the
      given zone when the parsed string has none. */
  datatype DateTarget = ToDate | ToDateTime(zone: Option<int>)

  /** No date, datetime, Decimal or UUID anywhere in v. */
  ghost predicate TriggerFree(v: Value) {
    forall w :: Occurs(w, v) ==> !Triggers(w)
  }

  /** `_try_date(s, target, tzinfo=...)` */
  function TryDate(env: Env, s: string, target: DateTarget): (r: Value)
    ensures r == Str(s) || r.Date? || r.DateTime?
    ensures target.ToDate? ==> r.Date? || r == Str(s)
    ensures target.ToDateTime? ==> r.DateTime? || r == Str(s)
  {
    match target
    case ToDate =>
      (match env.parseDate(s)
       case None => Str(s)
       case Some(d) => Date(d))
    case ToDateTime(zone) =>
      (match env.parseDateTime(s)
       case None => Str(s)
       case Some(dt) =>
         if zone.Some? && !dt.Aware() then DateTime(DateTimeVal(dt.local, zone)) else DateTime(dt))
  }

  /** `_try_uuid(val)`: only strings are converted. */
  function TryUuid(env: Env, v: Value): Value {
    match v
    case Str(s) =>
      (match env.parseUuid(s)
       case None => v
       case Some(n) => Uuid(n))
    case _ => v
  }

  /** CPython's default limit on the decimal digits `str(int)` may produce
      (`sys.int_info.default_max_str_digits`); a longer int makes `str`
      raise `ValueError`. */
  const MaxStrDigits: nat := 4300

  /** The number of decimal digits of n. */
  function DecimalDigits(n: nat): (r: nat)
    ensures r >= 1
  {
    if n < 10 then 1 else 1 + DecimalDigits(n / 10)
  }

  /** `str(i)` succeeds: the magnitude has at most `MaxStrDigits` digits. */
  predicate StrConvertible(i: int) {
    DecimalDigits(if i < 0 then -i else i) <= MaxStrDigits
  }

  /** `_try_decimal(val)`: ints (not bools) and strings are converted. An int
      converts exactly unless it is too long for `str`, whose `ValueError`
      is caught and leaves the int; a string converts when it parses. */
  function TryDecimal(env: Env, v: Value): Value {
    match v
    case Int(i) => if StrConvertible(i) then Decimal(DecimalVal(i, 0)) else v
    case Str(s) =>
      (match env.parseDecimal(s)
       case None => v
       case Some(d) => Decimal(d))
    case _ => v
  }

  /** `coerce(a, b)`: the first matching rule wins. */
  function Coerce(env: Env, a: Value, b: Value): (Value, Value) {
    if a.DateTime? && b.Str? then (a, TryDate(env, b.s, ToDateTime(a.dt.offset)))
    else if a.Date? && b.Str? then (a, TryDate(env, b.s, ToDate))
    else if a.Str? && b.DateTime? then (TryDate(env, a.s, ToDateTime(b.dt.offset)), b)
    else if a.Str? && b.Date? then (TryDate(env, a.s, ToDate), b)
    else if a.Decimal? then (a, TryDecimal(env, b))
    else if b.Decimal? then (TryDecimal(env, a), b)
    else if a.Uuid? then (a, TryUuid(env, b))
    else if b.Uuid? then (TryUuid(env, a), b)
    else (a, b)
  }

  /** What one side may become when the other side is `partner`: a string may
      become the partner's date, datetime, Decimal or UUID kind, an int may
      become a Decimal; nothing else changes. */
  predicate ConvertedFor(before: Value, after: Value, partner: Value) {
    after == before ||
    (before.Str? && partner.Date? && after.Date?) ||
    (before.Str? && partner.DateTime? && after.DateTime?) ||
    ((before.Str? || before.Int?) && partner.Decimal? && after.Decimal?) ||
    (before.Str? && partner.Uuid? && after.Uuid?)
  }

  /** With no date, datetime, Decimal or UUID on either side, nothing changes. */
  lemma CoercePassthrough(env: Env, a: Value, b: Value)
    requires !Triggers(a) && !Triggers(b)
    ensures Coerce(env, a, b) == (a, b)
  {
  }

  /** A triggering side is returned unchanged and in place; at most one side
      changes, and only into the kind of the other side. */
  lemma CoerceOnlyPartnerChanges(env: Env, a: Value, b: Value)
    ensures Triggers(a) ==> Coerce(env, a, b).0 == a
    ensures Triggers(b) ==> Coerce(env, a, b).1 == b
    ensures Coerce(env, a, b).0 == a || Coerce(env, a, b).1 == b
    ensures ConvertedFor(a, Coerce(env, a, b).0, b)
    ensures ConvertedFor(b, Coerce(env, a, b).1, a)
  {
  }

  /** Coercion only ever produces scalars from scalars, so it keeps values
      well formed. */
  lemma CoerceWellFormed(env: Env, a: Value, b: Value)
    requires WellFormed(a) && WellFormed(b)
    ensures WellFormed(Coerce(env, a, b).0) && WellFormed(Coerce(env, a, b).1)
  {
  }

  /** The rules do not depend on which side the document value is on. */
  lemma CoerceSymmetric(env: Env, a: Value, b: Value)
    ensures Coerce(env, b, a) == (Coerce(env, a, b).1, Coerce(env, a, b).0)
  {
  }

  /** A string next to a datetime is parsed as a datetime; a naive parse gets
      the datetime's zone. Next to a date it is parsed as a date. A failed
      parse leaves the string. */
  lemma CoerceDateString(env: Env, t: Value, s: string)
    requires t.Date? || t.DateTime?
    ensures t.DateTime? ==>
      Coerce(env, t, Str(s)) ==
        (t, match env.parseDateTime(s)
            case None => Str(s)
            case Some(dt) =>
              if dt.Aware() || !t.dt.Aware() then DateTime(dt)
              else DateTime(DateTimeVal(dt.local, t.dt.offset)))
    ensures t.Date? ==>
      Coerce(env, t, Str(s)) ==
        (t, match env.parseDate(s)
            case None => Str(s)
            case Some(d) => Date(d))
  {
  }

  /** `_try_decimal` is the identity on Decimals, bools and every kind other
      than int and str; `_try_uuid` is the identity on everything but str. */
  lemma TryDecimalTryUuidScope(env: Env, v: Value)
    ensures !(v.Int? || v.Str?) ==> TryDecimal(env, v) == v
    ensures TryDecimal(env, Bool(true)) == Bool(true) && TryDecimal(env, Bool(false)) == Bool(false)
    ensures v.Int? ==> PyEq(v, TryDecimal(env, v))
    ensures v.Int? && StrConvertible(v.i) ==> TryDecimal(env, v) == Decimal(DecimalVal(v.i, 0))
    ensures v.Int? && !StrConvertible(v.i) ==> TryDecimal(env, v) == v
    ensures !v.Str? ==> TryUuid(env, v) == v
  {
  }

  /** n has at most k digits exactly when it is below 10^k. */
  lemma {:induction false} DigitsBelow(n: nat, k: nat)
    requires k >= 1
    ensures DecimalDigits(n) <= k <==> n < Pow10(k)
    decreases n
  {
    if n < 10 {
      assert Pow10(k) == 10 * Pow10(k - 1);
    } else if k == 1 {
      assert Pow10(1) == 10 * Pow10(0);
    } else {
      DigitsBelow(n / 10, k - 1);
      assert Pow10(k) == 10 * Pow10(k - 1);
      assert n / 10 < Pow10(k - 1) <==> n < 10 * Pow10(k - 1);
    }
  }

  /** An int converts to a Decimal exactly when its magnitude is below
      10^4300: `10**4300 - 1` converts and `10**4300` stays an int. */
  lemma IntConversionLimit(env: Env, i: int)
    ensures TryDecimal(env, Int(i)).Decimal? <==> -(Pow10(MaxStrDigits) as int) < i < Pow10(MaxStrDigits)
  {
    DigitsBelow(if i < 0 then -i else i, MaxStrDigits);
  }
}
