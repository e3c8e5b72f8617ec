/** The reader as it works: objects are consumed key by key, and leftover keys are an error. */
module PolicyReader {

  import opened Outcomes
  import opened Fractions
  import opened JsonDocuments
  import opened Domain
  import opened Identity
  import opened Economics
  import opened PolicyDocuments
  import opened PolicyRoundTrips
  import opened Policies

  /** A JSON object being consumed. */
  class Consumed {
    var raw: map<string, Json>

    constructor (fields: map<string, Json>)
      ensures raw == fields
    {
      raw := fields;
    }

    method Take(key: string) returns (r: Result<Json>)
      modifies this
      ensures r == if key in old(raw) then Ok(old(raw)[key]) else Refused(Malformed)
      ensures raw == old(raw) - {key}
    {
      if key !in raw {
        assert raw == raw - {key};
        return Refused(Malformed);
      }
      r := Ok(raw[key]);
      raw := raw - {key};
    }

    method TakeOptional(key: string) returns (r: Option<Json>)
      modifies this
      ensures r == if key in old(raw) then Some(old(raw)[key]) else None
      ensures raw == old(raw) - {key}
    {
      r := if key in raw then Some(raw[key]) else None;
      raw := raw - {key};
    }

    /** Nothing may be left over. */
    method Done() returns (ok: bool)
      ensures ok <==> raw == map[]
    {
      ok := raw == map[];
    }
  }

  /** When all required keys were there, nothing is left exactly when there were no others. */
  lemma NothingLeft(fields: map<string, Json>, keys: set<string>, left: map<string, Json>)
    requires keys <= fields.Keys && left == fields - keys
    ensures left == map[] <==> fields.Keys == keys
  {
    assert left.Keys == fields.Keys - keys;
    if fields.Keys == keys { assert left.Keys == {}; }
    if left == map[] {
      forall k | k in fields.Keys ensures k in keys {
        assert k in keys || k in fields.Keys - keys;
      }
    }
  }

  lemma NoOthers(fields: map<string, Json>, keys: set<string>, left: map<string, Json>)
    requires left == fields - keys
    ensures left == map[] <==> fields.Keys <= keys
  {
    assert left.Keys == fields.Keys - keys;
    if left == map[] {
      forall k | k in fields.Keys ensures k in keys {
        assert k in keys || k in fields.Keys - keys;
      }
    }
  }

  method ParseLimits(d: Notation, v: Json) returns (r: Result<Limits>)
    requires Faithful(d)
    ensures r == ReadLimits(d, v)
  {
    if !v.Object? {
      return Refused(Malformed);
    }
    var o := new Consumed(v.fields);
    var mostRaw :- o.Take("max_executable_price");
    var leastRaw :- o.Take("min_executable_price");
    var impactRaw :- o.Take("max_price_impact_bps");
    var slippageRaw :- o.Take("max_slippage_bps");
    assert o.raw == v.fields - LIMIT_KEYS;
    NothingLeft(v.fields, LIMIT_KEYS, o.raw);
    var most :- ReadDecimal(d, mostRaw, false);
    var least :- ReadDecimal(d, leastRaw, false);
    var impact :- ReadNat(impactRaw, BPS_DENOMINATOR);
    var slippage :- ReadNat(slippageRaw, BPS_DENOMINATOR);
    var done := o.Done();
    if !done || Less(most, least) {
      return Refused(Malformed);
    }
    return Ok(Limits(most, least, impact, slippage));
  }

  method ParseTiming(v: Json) returns (r: Result<Timing>)
    ensures r == ReadTiming(v)
  {
    if !v.Object? {
      return Refused(Malformed);
    }
    var o := new Consumed(v.fields);
    var fromRaw :- o.Take("valid_from_epoch_s");
    var expiryRaw :- o.Take("expiry_epoch_s");
    var ttlRaw :- o.Take("quote_ttl_s");
    assert o.raw == v.fields - TIMING_KEYS;
    NothingLeft(v.fields, TIMING_KEYS, o.raw);
    var validFrom :- ReadInt(fromRaw, 0, MAX_EPOCH);
    var expiry :- ReadInt(expiryRaw, 0, MAX_EPOCH);
    var quoteTtl :- ReadInt(ttlRaw, 1, 86_400);
    var done := o.Done();
    if !done || expiry <= validFrom {
      return Refused(Malformed);
    }
    return Ok(Timing(validFrom, expiry, quoteTtl));
  }

  method ParseReentry(v: Json) returns (r: Result<Reentry>)
    ensures r == ReadReentry(v)
  {
    if !v.Object? {
      return Refused(Malformed);
    }
    var o := new Consumed(v.fields);
    var cyclesRaw :- o.Take("max_cycles");
    var hysteresisRaw :- o.Take("rearm_hysteresis_bps");
    var cooldownRaw :- o.Take("rearm_cooldown_s");
    assert o.raw == v.fields - REENTRY_KEYS;
    NothingLeft(v.fields, REENTRY_KEYS, o.raw);
    var maxCycles :- ReadInt(cyclesRaw, 1, 10_000);
    var hysteresis :- ReadInt(hysteresisRaw, 0, BPS_DENOMINATOR);
    var cooldown :- ReadInt(cooldownRaw, 0, MAX_EPOCH);
    var done := o.Done();
    if !done {
      return Refused(Malformed);
    }
    return Ok(Reentry(maxCycles, hysteresis, cooldown));
  }

  method ParseRecycling(d: Notation, v: Json) returns (r: Result<Recycling>)
    requires Faithful(d)
    ensures r == ReadRecycling(d, v)
  {
    if !v.Object? {
      return Refused(Malformed);
    }
    var o := new Consumed(v.fields);
    var recycleRaw :- o.Take("profit_recycle_ratio");
    var bankRaw :- o.Take("banked_profit_ratio");
    assert o.raw == v.fields - RECYCLING_KEYS;
    NothingLeft(v.fields, RECYCLING_KEYS, o.raw);
    var recycle :- ReadDecimal(d, recycleRaw, true);
    var bank :- ReadDecimal(d, bankRaw, true);
    var done := o.Done();
    if !done || recycle.den <= 0 || bank.den <= 0 || Less(Whole(1), Plus(recycle, bank)) {
      return Refused(Malformed);
    }
    return Ok(Recycling(recycle, bank));
  }

  method ParseCapital(d: Notation, v: Json) returns (r: Result<Capital>)
    requires Faithful(d)
    ensures r == ReadCapital(d, v)
  {
    if !v.Object? {
      return Refused(Malformed);
    }
    var o := new Consumed(v.fields);
    var a, b, c, e, f, g := TakeSix(o, "allocation_quote", "per_order_cap_quote", "per_instrument_cap_quote",
                                    "per_network_cap_quote", "global_portfolio_cap_quote", "reserved_cash_quote");
    if a.None? || b.None? || c.None? || e.None? || f.None? || g.None? {
      return Refused(Malformed);
    }
    assert o.raw == v.fields - CAPITAL_KEYS;
    NothingLeft(v.fields, CAPITAL_KEYS, o.raw);
    var allocation :- ReadDecimal(d, a.value, false);
    var perOrder :- ReadDecimal(d, b.value, false);
    var perInstrument :- ReadDecimal(d, c.value, false);
    var perNetwork :- ReadDecimal(d, e.value, false);
    var global :- ReadDecimal(d, f.value, false);
    var reserved :- ReadDecimal(d, g.value, true);
    var done := o.Done();
    if !done {
      return Refused(Malformed);
    }
    return Ok(Capital(allocation, perOrder, perInstrument, perNetwork, global, reserved));
  }

  method ParseInstrument(v: Json) returns (r: Result<Instrument>)
    ensures r == ReadInstrument(v)
  {
    if !v.Object? {
      return Refused(Malformed);
    }
    var o := new Consumed(v.fields);
    var refRaw :- o.Take("ref");
    var decimalsRaw :- o.Take("decimals");
    var classRaw := o.TakeOptional("asset_class");
    var symbolRaw := o.TakeOptional("display_symbol");
    var done := o.Done();
    assert o.raw == v.fields - (INSTRUMENT_KEYS + INSTRUMENT_LABELS);
    NoOthers(v.fields, INSTRUMENT_KEYS + INSTRUMENT_LABELS, o.raw);
    if !done {
      return Refused(Malformed);
    }
    var ref :- ReadRef(refRaw);
    var decimals :- ReadNat(decimalsRaw, 36);
    if classRaw.Some? && classRaw.value != Text("FUNGIBLE") {
      return Refused(Malformed);
    }
    if symbolRaw.None? {
      return Ok(Instrument(ref, decimals, None));
    }
    var symbol :- ReadText(symbolRaw.value, 64);
    return Ok(Instrument(ref, decimals, Some(symbol)));
  }

  method ParseLevel(d: Notation, v: Json, kind: Kind, side: Side, index: nat, seen: set<string>) returns (r: Result<Level>)
    requires Faithful(d)
    ensures r == ReadLevel(d, v, kind, side, index, seen)
  {
    if !v.Object? {
      return Refused(Malformed);
    }
    var o := new Consumed(v.fields);
    var idRaw :- o.Take("level_id");
    var triggerRaw :- o.Take("trigger_price");
    var sizeRaw :- o.Take(SizeKey(kind));
    assert o.raw == v.fields - LevelKeys(kind);
    NothingLeft(v.fields, LevelKeys(kind), o.raw);
    var id :- ReadText(idRaw, 64);
    if id in seen {
      return Refused(Malformed);
    }
    var trigger :- ReadDecimal(d, triggerRaw, false);
    var size :- ReadDecimal(d, sizeRaw, false);
    if kind == Exit && Less(Whole(1), size) {
      return Refused(Malformed);
    }
    var done := o.Done();
    if !done {
      return Refused(Malformed);
    }
    return Ok(Level(id, kind, side, index, trigger, size));
  }

  lemma {:induction false} RefusedStays(d: Notation, items: seq<Json>, k: nat, n: nat, kind: Kind, side: Side, seen: set<string>)
    requires k <= n <= |items| && ReadLevels(d, items, k, kind, side, seen) == Refused(Malformed)
    ensures ReadLevels(d, items, n, kind, side, seen) == Refused(Malformed)
    decreases n
  {
    if k < n { RefusedStays(d, items, k, n - 1, kind, side, seen); }
  }

  lemma LevelErrors(d: Notation, v: Json, kind: Kind, side: Side, index: nat, seen: set<string>)
    requires Faithful(d) && ReadLevel(d, v, kind, side, index, seen).Refused?
    ensures ReadLevel(d, v, kind, side, index, seen) == Refused(Malformed)
  {
  }

  lemma RefusedLevel(d: Notation, items: seq<Json>, k: nat, kind: Kind, side: Side, seen: set<string>, levels: seq<Level>)
    requires Faithful(d) && k < |items| && ReadLevels(d, items, k, kind, side, seen) == Ok(levels)
    requires ReadLevel(d, items[k], kind, side, k, seen + Ids(levels)).Refused?
    ensures ReadLevels(d, items, |items|, kind, side, seen) == Refused(Malformed)
  {
    LevelErrors(d, items[k], kind, side, k, seen + Ids(levels));
    RefusedStays(d, items, k + 1, |items|, kind, side, seen);
  }

  /** Appends rung after rung; `used` grows by the ids of the ladder. */
  method ParseLadder(d: Notation, v: Json, kind: Kind, side: Side, seen: set<string>)
      returns (r: Result<Ladder>, used: set<string>)
    requires Faithful(d)
    ensures r == ReadLadder(d, v, kind, side, seen)
    ensures r.Ok? ==> used == seen + Ids(r.value.levels)
  {
    used := seen;
    if !HasExactly(v, {"levels"}) || !v.fields["levels"].List? {
      return Refused(Malformed), used;
    }
    var items := v.fields["levels"].items;
    if items == [] || MAX_LEVELS < |items| {
      return Refused(Malformed), used;
    }
    var levels: seq<Level> := [];
    for index := 0 to |items|
      invariant ReadLevels(d, items, index, kind, side, seen) == Ok(levels) && used == seen + Ids(levels)
    {
      var level := ParseLevel(d, items[index], kind, side, index, used);
      if level.Refused? {
        RefusedLevel(d, items, index, kind, side, seen, levels);
        return Refused(Malformed), used;
      }
      NextLevel(d, items, index + 1, kind, side, seen, levels, level.value);
      IdsAppend(levels, level.value);
      used := used + {level.value.id};
      levels := levels + [level.value];
    }
    if !TriggersOrdered(side, levels) {
      return Refused(Malformed), used;
    }
    return Ok(Ladder(kind, side, levels)), used;
  }

  lemma IdsAppend(levels: seq<Level>, l: Level)
    ensures Ids(levels + [l]) == Ids(levels) + {l.id}
  {
  }

  function Lookup(fields: map<string, Json>, key: string): Option<Json> {
    if key in fields then Some(fields[key]) else None
  }

  /** Takes six different keys, whether or not they are there. */
  method TakeSix(o: Consumed, k1: string, k2: string, k3: string, k4: string, k5: string, k6: string)
      returns (v1: Option<Json>, v2: Option<Json>, v3: Option<Json>, v4: Option<Json>, v5: Option<Json>, v6: Option<Json>)
    requires k2 !in {k1} && k3 !in {k1, k2} && k4 !in {k1, k2, k3} && k5 !in {k1, k2, k3, k4} && k6 !in {k1, k2, k3, k4, k5}
    modifies o
    ensures o.raw == old(o.raw) - {k1, k2, k3, k4, k5, k6}
    ensures v1 == Lookup(old(o.raw), k1) && v2 == Lookup(old(o.raw), k2) && v3 == Lookup(old(o.raw), k3)
    ensures v4 == Lookup(old(o.raw), k4) && v5 == Lookup(old(o.raw), k5) && v6 == Lookup(old(o.raw), k6)
  {
    v1 := o.TakeOptional(k1);
    v2 := o.TakeOptional(k2);
    v3 := o.TakeOptional(k3);
    assert o.raw == old(o.raw) - {k1, k2, k3};
    v4 := o.TakeOptional(k4);
    v5 := o.TakeOptional(k5);
    v6 := o.TakeOptional(k6);
  }

  const FIRST_KEYS: set<string> := {"schema", "policy_name", "side", "base", "quote", "entry_ladder"}
  const OTHER_KEYS: set<string> := {"exit_ladder", "capital", "limits", "timing", "reentry", "recycling"}

  lemma KeysSplit()
    ensures FIRST_KEYS + OTHER_KEYS == ROOT_KEYS + {"recycling"} && FIRST_KEYS * OTHER_KEYS == {}
  {
  }

  lemma OthersRemain(fields: map<string, Json>, key: string)
    requires key in OTHER_KEYS
    ensures Lookup(fields - FIRST_KEYS, key) == Lookup(fields, key)
  {
  }

  lemma NoneLeft(fields: map<string, Json>, left: map<string, Json>)
    requires left == fields - FIRST_KEYS - OTHER_KEYS
    ensures left == map[] <==> fields.Keys <= ROOT_KEYS + {"recycling"}
  {
    KeysSplit();
    assert left == fields - (FIRST_KEYS + OTHER_KEYS);
    NoOthers(fields, FIRST_KEYS + OTHER_KEYS, left);
  }

  /** The blocks of a document, when there are no others. */
  method TakeRoot(v: Json) returns (r: Option<Root>)
    ensures r == RootOf(v)
  {
    if !v.Object? {
      return None;
    }
    var o := new Consumed(v.fields);
    var schema, name, side, base, quote, entry :=
      TakeSix(o, "schema", "policy_name", "side", "base", "quote", "entry_ladder");
    var exit, capital, limits, timing, reentry, recycling :=
      TakeSix(o, "exit_ladder", "capital", "limits", "timing", "reentry", "recycling");
    OthersRemain(v.fields, "exit_ladder");
    OthersRemain(v.fields, "capital");
    OthersRemain(v.fields, "limits");
    OthersRemain(v.fields, "timing");
    OthersRemain(v.fields, "reentry");
    OthersRemain(v.fields, "recycling");
    var done := o.Done();
    NoneLeft(v.fields, o.raw);
    if !done || schema.None? || name.None? || side.None? || base.None? || quote.None? || entry.None? || exit.None?
       || capital.None? || limits.None? || timing.None? || reentry.None? {
      return None;
    }
    return Some(Root(schema.value, name.value, side.value, base.value, quote.value, entry.value, exit.value,
                     capital.value, limits.value, timing.value, reentry.value, recycling));
  }

  /** Admits a strict-parsed document, or fails closed. */
  method ParsePolicy(d: Notation, v: Json) returns (r: Result<Policy>)
    requires Faithful(d)
    ensures r == ReadPolicy(d, v)
  {
    var found := TakeRoot(v);
    if found.None? {
      return Refused(Malformed);
    }
    var root := found.value;
    var terms := ParseTerms(d, root);
    if terms.Refused? {
      return Refused(terms.error);
    }
    TermsAreFit(d, root);
    return Admit(d, terms.value);
  }

  method ParseTerms(d: Notation, root: Root) returns (r: Result<Terms>)
    requires Faithful(d)
    ensures r == ReadTerms(d, root)
  {
    if root.schema != Text(SCHEMA_ID) {
      return Refused(Malformed);
    }
    var side :- ReadSide(root.side);
    var base := ParseInstrument(root.base);
    var quote := ParseInstrument(root.quote);
    var entry, entryIds := ParseLadder(d, root.entry, Entry, side, {});
    if entry.Refused? {
      return Refused(entry.error);
    }
    assert entryIds == Ids(entry.value.levels);
    var exit, _ := ParseLadder(d, root.exit, Exit, side.Opposite(), entryIds);
    var capital := ParseCapital(d, root.capital);
    var limits := ParseLimits(d, root.limits);
    var timing := ParseTiming(root.timing);
    var reentry := ParseReentry(root.reentry);
    var recycling: Result<Recycling> := Ok(INERT);
    if root.recycling.Some? {
      recycling := ParseRecycling(d, root.recycling.value);
    }
    return Assemble(ReadText(root.name, 128), side, base, quote, entry.value, exit, capital, limits, timing, reentry, recycling);
  }

  /** The runtime's own reading, in the canonical notation. */
  function PolicyOf(v: Json): Result<Policy> {
    CanonicalIsFaithful();
    ReadPolicy(CANONICAL, v)
  }

  /** In the runtime's notation: an admitted document guarantees what the bounds rely on, and its
      canonical form is admissible and a fixpoint. */
  lemma AdmittedIsFixpoint(v: Json)
    requires PolicyOf(v).Ok?
    ensures Admitted(PolicyOf(v).value)
    ensures var p := PolicyOf(v).value;
            PolicyOf(p.canonical) == Ok(p.(terms := Unlabelled(p.terms)))
  {
    CanonicalIsFaithful();
    AdmittedDocument(CANONICAL, v);
    CanonicalIsFixpoint(CANONICAL, v);
  }
}
