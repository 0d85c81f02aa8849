/** The older coercion in mgqpy/utils.py: the date rule picks the parse by the
    kind of the temporal side and never fills in a zone. */
module CoerceLegacy {
  import opened Values
  import C = Coercion

  /** `_try_date(s, target)` of the older helpers. */
  function TryDate(env: Env, s: string, toDateTime: bool): (r: Value)
    ensures r == Str(s) || (if toDateTime then r.DateTime? else r.Date?)
  {
    if toDateTime then
      (match env.parseDateTime(s)
       case None => Str(s)
       case Some(dt) => DateTime(dt))
    else
      (match env.parseDate(s)
       case None => Str(s)
       case Some(d) => Date(d))
  }

  /** `coerce(a, b)` of the older helpers. */
  function Coerce(env: Env, a: Value, b: Value): (Value, Value) {
    if (a.Date? || a.DateTime?) && b.Str? then (a, TryDate(env, b.s, a.DateTime?))
    else if a.Str? && (b.Date? || b.DateTime?) then (TryDate(env, a.s, b.DateTime?), b)
    else if a.Decimal? then (a, C.TryDecimal(env, b))
    else if b.Decimal? then (C.TryDecimal(env, a), b)
    else if a.Uuid? then (a, C.TryUuid(env, b))
    else if b.Uuid? then (C.TryUuid(env, a), b)
    else (a, b)
  }

  /** Passthrough, triggering side unchanged, only the partner converted. */
  lemma CoerceOnlyPartnerChanges(env: Env, a: Value, b: Value)
    ensures !C.Triggers(a) && !C.Triggers(b) ==> Coerce(env, a, b) == (a, b)
    ensures C.Triggers(a) ==> Coerce(env, a, b).0 == a
    ensures C.Triggers(b) ==> Coerce(env, a, b).1 == b
    ensures C.ConvertedFor(a, Coerce(env, a, b).0, b)
    ensures C.ConvertedFor(b, Coerce(env, a, b).1, a)
  {
  }

  /** The parsed string takes the kind of the temporal side, with no zone fill. */
  lemma CoerceDateString(env: Env, t: Value, s: string)
    requires t.Date? || t.DateTime?
    ensures t.DateTime? ==>
      Coerce(env, t, Str(s)) ==
        (t, match env.parseDateTime(s) case None => Str(s) case Some(dt) => DateTime(dt))
    ensures t.Date? ==>
      Coerce(env, t, Str(s)) ==
        (t, match env.parseDate(s) case None => Str(s) case Some(d) => Date(d))
  {
  }

  /** The two snapshots agree except where the newer one fills in a zone: a
      naive string parse next to an aware datetime. */
  lemma AgreesWithCoerce(env: Env, a: Value, b: Value)
    ensures Coerce(env, a, b) != C.Coerce(env, a, b) <==>
      ((a.DateTime? && a.dt.Aware() && b.Str? &&
        env.parseDateTime(b.s).Some? && !env.parseDateTime(b.s).value.Aware()) ||
       (b.DateTime? && b.dt.Aware() && a.Str? &&
        env.parseDateTime(a.s).Some? && !env.parseDateTime(a.s).value.Aware()))
  {
  }
}
