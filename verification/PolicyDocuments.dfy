/** What a policy document says: the reading of every part, and the canonical document. */
module PolicyDocuments {

  import opened Outcomes
  import opened Fractions
  import opened PowersOfTen
  import opened Decimals
  import opened JsonDocuments
  import opened Domain
  import opened Identity
  import opened Economics

  const SCHEMA_ID: string := "qntyspot.policy.v0"
  const MAX_LEVELS: nat := 64
  const MAX_EPOCH: int := 4_102_444_800

  // ---------------------------------------------------------------------------------
  // Scalars
  // ---------------------------------------------------------------------------------

  function ReadInt(v: Json, least: int, most: int): Result<int> {
    if v.Integer? && least <= v.number <= most then Ok(v.number) else Refused(Malformed)
  }

  function ReadNat(v: Json, most: nat): Result<nat> {
    if v.Integer? && 0 <= v.number <= most then Ok(v.number) else Refused(Malformed)
  }

  /** How decimals are spelled: the parts of a document are read and written with whatever notation
      reads back what it writes. */
  datatype Notation = Notation(read: string -> Result<Frac>, write: Frac -> Result<string>)

  ghost predicate Faithful(d: Notation) {
    && (forall s :: ReadsSoundly(d.read(s)))
    && forall f: Frac, s: string :: f.Valid() && d.write(f) == Ok(s) ==> d.read(s) == Ok(f)
  }

  /** A refusal carries the one error of a malformed document. */
  predicate ReadsSoundly(r: Result<Frac>) {
    match r
    case Ok(f) => f.Valid() && 0 <= f.num
    case Refused(e) => e == Malformed
  }

  /** The one notation of the runtime. */
  const CANONICAL: Notation := Notation((s: string) => Parse(s), (f: Frac) => if 0 < f.den then Format(f) else Refused(Malformed))

  lemma CanonicalIsFaithful()
    ensures Faithful(CANONICAL)
  {
    forall s ensures ReadsSoundly(CANONICAL.read(s)) {
      if CANONICAL.read(s).Ok? { AcceptedIsNatural(s); }
    }
    forall f: Frac, s | f.Valid() && CANONICAL.write(f) == Ok(s) ensures CANONICAL.read(s) == Ok(f) {
      FormatThenParse(f, s);
    }
  }

  function ReadDecimal(d: Notation, v: Json, allowZero: bool): Result<Frac> {
    if !v.Text? then Refused(Malformed)
    else
      var f :- d.read(v.text);
      if f.num == 0 && !allowZero then Refused(Malformed) else Ok(f)
  }

  /** The characters that `str.strip` removes. */
  predicate IsSpace(c: char) {
    || '\U{0009}' <= c <= '\U{000D}' || '\U{001C}' <= c <= '\U{0020}' || c == '\U{0085}' || c == '\U{00A0}'
    || c == '\U{1680}' || '\U{2000}' <= c <= '\U{200A}' || c == '\U{2028}' || c == '\U{2029}'
    || c == '\U{202F}' || c == '\U{205F}' || c == '\U{3000}'
  }

  predicate IsText(s: string, longest: nat) {
    s != "" && !IsSpace(s[0]) && !IsSpace(s[|s| - 1]) && |s| <= longest
  }

  function ReadText(v: Json, longest: nat): Result<string> {
    if v.Text? && IsText(v.text, longest) then Ok(v.text) else Refused(Malformed)
  }

  /** An object with exactly these keys. */
  predicate HasExactly(v: Json, keys: set<string>) {
    v.Object? && v.fields.Keys == keys
  }

  /** An object with all required keys, and none but the optional ones besides. */
  predicate HasKeys(v: Json, required: set<string>, optional: set<string>) {
    v.Object? && required <= v.fields.Keys <= required + optional
  }

  // ---------------------------------------------------------------------------------
  // Instruments
  // ---------------------------------------------------------------------------------

  const INSTRUMENT_KEYS: set<string> := {"ref", "decimals"}
  const INSTRUMENT_LABELS: set<string> := {"asset_class", "display_symbol"}

  function ReadInstrument(v: Json): Result<Instrument> {
    if !HasKeys(v, INSTRUMENT_KEYS, INSTRUMENT_LABELS) then Refused(Malformed)
    else
      var ref :- ReadRef(v.fields["ref"]);
      var decimals :- ReadNat(v.fields["decimals"], 36);
      if "asset_class" in v.fields && v.fields["asset_class"] != Text("FUNGIBLE") then Refused(Malformed)
      else if "display_symbol" in v.fields then
        var symbol :- ReadText(v.fields["display_symbol"], 64);
        Ok(Instrument(ref, decimals, Some(symbol)))
      else Ok(Instrument(ref, decimals, None))
  }

  /** The instrument in a canonical document: the label is left out. */
  function InstrumentDocument(i: Instrument): Json {
    Object(map["ref" := IdentityFields(i.ref), "decimals" := Integer(i.decimals), "asset_class" := Text("FUNGIBLE")])
  }

  // ---------------------------------------------------------------------------------
  // Ladders
  // ---------------------------------------------------------------------------------

  function SizeKey(kind: Kind): string {
    if kind == Entry then "input_amount" else "input_ratio"
  }

  function LevelKeys(kind: Kind): set<string> {
    {"level_id", "trigger_price", SizeKey(kind)}
  }

  function ReadLevel(d: Notation, v: Json, kind: Kind, side: Side, index: nat, seen: set<string>): Result<Level> {
    if !HasExactly(v, LevelKeys(kind)) then Refused(Malformed)
    else
      var id :- ReadText(v.fields["level_id"], 64);
      if id in seen then Refused(Malformed)
      else
        var trigger :- ReadDecimal(d, v.fields["trigger_price"], false);
        var size :- ReadDecimal(d, v.fields[SizeKey(kind)], false);
        if kind == Exit && Less(Whole(1), size) then Refused(Malformed)
        else Ok(Level(id, kind, side, index, trigger, size))
  }

  function Ids(levels: seq<Level>): set<string> {
    set l | l in levels :: l.id
  }

  /** The first `n` rungs in order; an id may be used once in a policy. */
  function ReadLevels(d: Notation, items: seq<Json>, n: nat, kind: Kind, side: Side, seen: set<string>): Result<seq<Level>>
    requires n <= |items|
  {
    if n == 0 then Ok([])
    else
      var init :- ReadLevels(d, items, n - 1, kind, side, seen);
      var level :- ReadLevel(d, items[n - 1], kind, side, n - 1, seen + Ids(init));
      Ok(init + [level])
  }

  function ReadLadder(d: Notation, v: Json, kind: Kind, side: Side, seen: set<string>): Result<Ladder> {
    if !HasExactly(v, {"levels"}) || !v.fields["levels"].List? then Refused(Malformed)
    else
      var items := v.fields["levels"].items;
      if items == [] || MAX_LEVELS < |items| then Refused(Malformed)
      else
        var levels :- ReadLevels(d, items, |items|, kind, side, seen);
        if !TriggersOrdered(side, levels) then Refused(Malformed) else Ok(Ladder(kind, side, levels))
  }

  function LevelDocument(d: Notation, l: Level): Result<Json>
    requires l.Valid()
  {
    var trigger :- d.write(l.trigger);
    var size :- d.write(l.size);
    Ok(Object(map["level_id" := Text(l.id), "trigger_price" := Text(trigger), SizeKey(l.kind) := Text(size)]))
  }

  function LevelDocuments(d: Notation, levels: seq<Level>, n: nat): Result<seq<Json>>
    requires n <= |levels| && forall i :: 0 <= i < n ==> levels[i].Valid()
  {
    if n == 0 then Ok([])
    else
      var init :- LevelDocuments(d, levels, n - 1);
      var last :- LevelDocument(d, levels[n - 1]);
      Ok(init + [last])
  }

  function LadderDocument(d: Notation, l: Ladder): Result<Json>
    requires l.Valid()
  {
    var items :- LevelDocuments(d, l.levels, |l.levels|);
    Ok(Object(map["levels" := List(items)]))
  }

  // ---------------------------------------------------------------------------------
  // The remaining blocks
  // ---------------------------------------------------------------------------------

  const CAPITAL_KEYS: set<string> := {
    "allocation_quote", "per_order_cap_quote", "per_instrument_cap_quote", "per_network_cap_quote",
    "global_portfolio_cap_quote", "reserved_cash_quote"}

  function ReadCapital(d: Notation, v: Json): Result<Capital> {
    if !HasExactly(v, CAPITAL_KEYS) then Refused(Malformed)
    else
      var allocation :- ReadDecimal(d, v.fields["allocation_quote"], false);
      var perOrder :- ReadDecimal(d, v.fields["per_order_cap_quote"], false);
      var perInstrument :- ReadDecimal(d, v.fields["per_instrument_cap_quote"], false);
      var perNetwork :- ReadDecimal(d, v.fields["per_network_cap_quote"], false);
      var global :- ReadDecimal(d, v.fields["global_portfolio_cap_quote"], false);
      var reserved :- ReadDecimal(d, v.fields["reserved_cash_quote"], true);
      Ok(Capital(allocation, perOrder, perInstrument, perNetwork, global, reserved))
  }

  predicate CapitalValid(c: Capital) {
    && c.allocation.Valid() && c.perOrder.Valid() && c.perInstrument.Valid()
    && c.perNetwork.Valid() && c.global.Valid() && c.reserved.Valid()
  }

  function CapitalDocument(d: Notation, c: Capital): Result<Json>
    requires CapitalValid(c)
  {
    var allocation :- d.write(c.allocation);
    var perOrder :- d.write(c.perOrder);
    var perInstrument :- d.write(c.perInstrument);
    var perNetwork :- d.write(c.perNetwork);
    var global :- d.write(c.global);
    var reserved :- d.write(c.reserved);
    Ok(Object(map["allocation_quote" := Text(allocation), "per_order_cap_quote" := Text(perOrder),
                  "per_instrument_cap_quote" := Text(perInstrument), "per_network_cap_quote" := Text(perNetwork),
                  "global_portfolio_cap_quote" := Text(global), "reserved_cash_quote" := Text(reserved)]))
  }

  /** The caps in atomic units of the quote instrument, if they convert exactly and cohere. */
  function BudgetOf(c: Capital, decimals: nat): Result<Budget>
    requires CapitalValid(c)
  {
    var allocation :- ToAtomic(c.allocation, decimals);
    var perOrder :- ToAtomic(c.perOrder, decimals);
    var perInstrument :- ToAtomic(c.perInstrument, decimals);
    var perNetwork :- ToAtomic(c.perNetwork, decimals);
    var global :- ToAtomic(c.global, decimals);
    var reserved :- ToAtomic(c.reserved, decimals);
    var budget := Budget(allocation, perOrder, perInstrument, perNetwork, global, reserved);
    if budget.Coherent() then Ok(budget) else Refused(Malformed)
  }

  predicate IsAtomic(f: Frac, decimals: nat, n: int) {
    f.num * Pow(10, decimals) == n * f.den
  }

  /** Every cap of the budget is exactly the capital's, in atomic units, and the caps cohere. */
  lemma BudgetIsExact(c: Capital, decimals: nat, b: Budget)
    requires CapitalValid(c)
    ensures BudgetOf(c, decimals) == Ok(b) <==>
              && IsAtomic(c.allocation, decimals, b.allocation) && IsAtomic(c.perOrder, decimals, b.perOrder)
              && IsAtomic(c.perInstrument, decimals, b.perInstrument) && IsAtomic(c.perNetwork, decimals, b.perNetwork)
              && IsAtomic(c.global, decimals, b.global) && IsAtomic(c.reserved, decimals, b.reserved)
              && b.Coherent()
  {
    ToAtomicIsExact(c.allocation, decimals, b.allocation);
    ToAtomicIsExact(c.perOrder, decimals, b.perOrder);
    ToAtomicIsExact(c.perInstrument, decimals, b.perInstrument);
    ToAtomicIsExact(c.perNetwork, decimals, b.perNetwork);
    ToAtomicIsExact(c.global, decimals, b.global);
    ToAtomicIsExact(c.reserved, decimals, b.reserved);
  }

  const LIMIT_KEYS: set<string> := {
    "max_executable_price", "min_executable_price", "max_price_impact_bps", "max_slippage_bps"}

  function ReadLimits(d: Notation, v: Json): Result<Limits> {
    if !HasExactly(v, LIMIT_KEYS) then Refused(Malformed)
    else
      var most :- ReadDecimal(d, v.fields["max_executable_price"], false);
      var least :- ReadDecimal(d, v.fields["min_executable_price"], false);
      var impact :- ReadNat(v.fields["max_price_impact_bps"], BPS_DENOMINATOR);
      var slippage :- ReadNat(v.fields["max_slippage_bps"], BPS_DENOMINATOR);
      if Less(most, least) then Refused(Malformed) else Ok(Limits(most, least, impact, slippage))
  }

  function LimitsDocument(d: Notation, l: Limits): Result<Json>
    requires LimitsValid(l)
  {
    var most :- d.write(l.maxPrice);
    var least :- d.write(l.minPrice);
    Ok(Object(map["max_executable_price" := Text(most), "min_executable_price" := Text(least),
                  "max_price_impact_bps" := Integer(l.impactBps), "max_slippage_bps" := Integer(l.slippageBps)]))
  }

  const TIMING_KEYS: set<string> := {"valid_from_epoch_s", "expiry_epoch_s", "quote_ttl_s"}

  function ReadTiming(v: Json): Result<Timing> {
    if !HasExactly(v, TIMING_KEYS) then Refused(Malformed)
    else
      var validFrom :- ReadInt(v.fields["valid_from_epoch_s"], 0, MAX_EPOCH);
      var expiry :- ReadInt(v.fields["expiry_epoch_s"], 0, MAX_EPOCH);
      var quoteTtl :- ReadInt(v.fields["quote_ttl_s"], 1, 86_400);
      if expiry <= validFrom then Refused(Malformed) else Ok(Timing(validFrom, expiry, quoteTtl))
  }

  function TimingDocument(t: Timing): Json {
    Object(map["valid_from_epoch_s" := Integer(t.validFrom), "expiry_epoch_s" := Integer(t.expiry),
               "quote_ttl_s" := Integer(t.quoteTtl)])
  }

  const REENTRY_KEYS: set<string> := {"max_cycles", "rearm_hysteresis_bps", "rearm_cooldown_s"}

  function ReadReentry(v: Json): Result<Reentry> {
    if !HasExactly(v, REENTRY_KEYS) then Refused(Malformed)
    else
      var maxCycles :- ReadInt(v.fields["max_cycles"], 1, 10_000);
      var hysteresis :- ReadInt(v.fields["rearm_hysteresis_bps"], 0, BPS_DENOMINATOR);
      var cooldown :- ReadInt(v.fields["rearm_cooldown_s"], 0, MAX_EPOCH);
      Ok(Reentry(maxCycles, hysteresis, cooldown))
  }

  function ReentryDocument(r: Reentry): Json {
    Object(map["max_cycles" := Integer(r.maxCycles), "rearm_hysteresis_bps" := Integer(r.hysteresisBps),
               "rearm_cooldown_s" := Integer(r.cooldown)])
  }

  const RECYCLING_KEYS: set<string> := {"profit_recycle_ratio", "banked_profit_ratio"}

  function ReadRecycling(d: Notation, v: Json): Result<Recycling> {
    if !HasExactly(v, RECYCLING_KEYS) then Refused(Malformed)
    else ReadRatios(ReadDecimal(d, v.fields["profit_recycle_ratio"], true), ReadDecimal(d, v.fields["banked_profit_ratio"], true))
  }

  function ReadRatios(recycle: Result<Frac>, bank: Result<Frac>): Result<Recycling> {
    if recycle.Refused? then Refused(recycle.error)
    else if bank.Refused? then Refused(bank.error)
    else RecyclingOf(recycle.value, bank.value)
  }

  function RecyclingOf(recycle: Frac, bank: Frac): Result<Recycling> {
    if recycle.den <= 0 || bank.den <= 0 || Less(Whole(1), Plus(recycle, bank)) then Refused(Malformed)
    else Ok(Recycling(recycle, bank))
  }

  predicate RecyclingValid(r: Recycling) {
    r.recycle.Valid() && r.bank.Valid()
  }

  function RecyclingDocument(d: Notation, r: Recycling): Result<Json>
    requires RecyclingValid(r)
  {
    var recycle :- d.write(r.recycle);
    var bank :- d.write(r.bank);
    Ok(Object(map["profit_recycle_ratio" := Text(recycle), "banked_profit_ratio" := Text(bank)]))
  }

  const INERT: Recycling := Recycling(Frac(0, 1), Frac(0, 1))
}
