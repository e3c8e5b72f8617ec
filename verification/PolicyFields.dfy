/** What an admitted policy document says, key by key. */
module PolicyFields {

  import opened Outcomes
  import opened Fractions
  import opened PowersOfTen
  import opened Decimals
  import opened JsonDocuments
  import opened Domain
  import opened Identity
  import opened Economics
  import opened PolicyDocuments
  import opened PolicyRoundTrips
  import opened Policies

  // ---------------------------------------------------------------------------------
  // Parts
  // ---------------------------------------------------------------------------------

  /** The value under a key of an object. */
  predicate Says(v: Json, key: string, part: Json) {
    v.Object? && key in v.fields && v.fields[key] == part
  }

  /** The value under a key is a text that spells the number. */
  predicate Spells(d: Notation, v: Json, key: string, f: Frac) {
    v.Object? && key in v.fields && v.fields[key].Text? && d.read(v.fields[key].text) == Ok(f)
  }

  predicate Positive(d: Notation, v: Json, key: string, f: Frac) {
    Spells(d, v, key, f) && f.num != 0
  }

  lemma DecimalExactly(d: Notation, v: Json, allowZero: bool, f: Frac)
    ensures ReadDecimal(d, v, allowZero) == Ok(f) <==> v.Text? && d.read(v.text) == Ok(f) && (f.num != 0 || allowZero)
  {
  }

  /** The code points that count as spaces. */
  lemma SpacesExactly(c: char)
    ensures IsSpace(c) <==>
            c as int in {0x09, 0x0A, 0x0B, 0x0C, 0x0D, 0x1C, 0x1D, 0x1E, 0x1F, 0x20, 0x85, 0xA0, 0x1680, 0x2000, 0x2001, 0x2002,
                         0x2003, 0x2004, 0x2005, 0x2006, 0x2007, 0x2008, 0x2009, 0x200A, 0x2028, 0x2029, 0x202F, 0x205F, 0x3000}
  {
  }

  /** The runtime reads and writes the canonical decimals. */
  lemma RuntimeNotation(s: string, f: Frac)
    ensures CANONICAL.read(s) == Parse(s)
    ensures f.Valid() ==> CANONICAL.write(f) == Format(f)
  {
  }

  /** A label is not empty, has no spaces at its ends and is not too long. */
  lemma TextExactly(v: Json, longest: nat, s: string)
    ensures ReadText(v, longest) == Ok(s) <==>
              && v == Text(s) && 1 <= |s| <= longest && !IsSpace(s[0]) && !IsSpace(s[|s| - 1])
  {
  }

  // ---------------------------------------------------------------------------------
  // The blocks of amounts
  // ---------------------------------------------------------------------------------

  ghost predicate LimitsSaid(d: Notation, v: Json, l: Limits) {
    && Positive(d, v, "max_executable_price", l.maxPrice) && Positive(d, v, "min_executable_price", l.minPrice)
    && Says(v, "max_price_impact_bps", Integer(l.impactBps)) && Says(v, "max_slippage_bps", Integer(l.slippageBps))
    && v.fields.Keys == {"max_executable_price", "min_executable_price", "max_price_impact_bps", "max_slippage_bps"}
  }

  lemma LimitsExactly(d: Notation, v: Json, l: Limits)
    ensures ReadLimits(d, v) == Ok(l) <==>
              && LimitsSaid(d, v, l)
              && l.impactBps <= 10_000 && l.slippageBps <= 10_000
              && l.minPrice.num * l.maxPrice.den <= l.maxPrice.num * l.minPrice.den
  {
    if HasExactly(v, LIMIT_KEYS) {
      DecimalExactly(d, v.fields["max_executable_price"], false, l.maxPrice);
      DecimalExactly(d, v.fields["min_executable_price"], false, l.minPrice);
    }
  }

  ghost predicate CapitalSaid(d: Notation, v: Json, c: Capital) {
    && Positive(d, v, "allocation_quote", c.allocation) && Positive(d, v, "per_order_cap_quote", c.perOrder)
    && Positive(d, v, "per_instrument_cap_quote", c.perInstrument) && Positive(d, v, "per_network_cap_quote", c.perNetwork)
    && Positive(d, v, "global_portfolio_cap_quote", c.global) && Spells(d, v, "reserved_cash_quote", c.reserved)
    && v.fields.Keys == {"allocation_quote", "per_order_cap_quote", "per_instrument_cap_quote", "per_network_cap_quote",
                         "global_portfolio_cap_quote", "reserved_cash_quote"}
  }

  lemma CapitalExactly(d: Notation, v: Json, c: Capital)
    ensures ReadCapital(d, v) == Ok(c) <==> CapitalSaid(d, v, c)
  {
    if HasExactly(v, CAPITAL_KEYS) {
      DecimalExactly(d, v.fields["allocation_quote"], false, c.allocation);
      DecimalExactly(d, v.fields["per_order_cap_quote"], false, c.perOrder);
      DecimalExactly(d, v.fields["per_instrument_cap_quote"], false, c.perInstrument);
      DecimalExactly(d, v.fields["per_network_cap_quote"], false, c.perNetwork);
      DecimalExactly(d, v.fields["global_portfolio_cap_quote"], false, c.global);
      DecimalExactly(d, v.fields["reserved_cash_quote"], true, c.reserved);
    }
  }

  /** A number of atomic units: ten to the decimals times the amount, with no remainder. */
  predicate InUnits(f: Frac, decimals: nat, n: int) {
    f.num * Pow(10, decimals) == n * f.den
  }

  /** The caps convert exactly, and each scope holds what is inside it. */
  lemma BudgetExactly(c: Capital, decimals: nat, b: Budget)
    requires CapitalValid(c)
    ensures BudgetOf(c, decimals) == Ok(b) <==>
              && InUnits(c.allocation, decimals, b.allocation) && InUnits(c.perOrder, decimals, b.perOrder)
              && InUnits(c.perInstrument, decimals, b.perInstrument) && InUnits(c.perNetwork, decimals, b.perNetwork)
              && InUnits(c.global, decimals, b.global) && InUnits(c.reserved, decimals, b.reserved)
              && 0 < b.perOrder <= b.allocation <= b.perInstrument <= b.perNetwork <= b.global
              && 0 <= b.reserved < b.global
  {
    BudgetIsExact(c, decimals, b);
  }

  lemma TimingExactly(v: Json, t: Timing)
    ensures ReadTiming(v) == Ok(t) <==>
              && Says(v, "valid_from_epoch_s", Integer(t.validFrom)) && Says(v, "expiry_epoch_s", Integer(t.expiry))
              && Says(v, "quote_ttl_s", Integer(t.quoteTtl))
              && v.fields.Keys == {"valid_from_epoch_s", "expiry_epoch_s", "quote_ttl_s"}
              && 0 <= t.validFrom < t.expiry <= 4_102_444_800 && 1 <= t.quoteTtl <= 86_400
  {
  }

  lemma ReentryExactly(v: Json, r: Reentry)
    ensures ReadReentry(v) == Ok(r) <==>
              && Says(v, "max_cycles", Integer(r.maxCycles)) && Says(v, "rearm_hysteresis_bps", Integer(r.hysteresisBps))
              && Says(v, "rearm_cooldown_s", Integer(r.cooldown))
              && v.fields.Keys == {"max_cycles", "rearm_hysteresis_bps", "rearm_cooldown_s"}
              && 1 <= r.maxCycles <= 10_000 && 0 <= r.hysteresisBps <= 10_000 && 0 <= r.cooldown <= 4_102_444_800
  {
  }

  /** The recycled and the banked part of a profit are at most the whole of it. */
  lemma RecyclingExactly(d: Notation, v: Json, r: Recycling)
    requires Faithful(d)
    ensures ReadRecycling(d, v) == Ok(r) <==>
              && Spells(d, v, "profit_recycle_ratio", r.recycle) && Spells(d, v, "banked_profit_ratio", r.bank)
              && v.fields.Keys == {"profit_recycle_ratio", "banked_profit_ratio"}
              && r.recycle.num * r.bank.den + r.bank.num * r.recycle.den <= r.recycle.den * r.bank.den
  {
    if HasExactly(v, RECYCLING_KEYS) {
      DecimalExactly(d, v.fields["profit_recycle_ratio"], true, r.recycle);
      DecimalExactly(d, v.fields["banked_profit_ratio"], true, r.bank);
      if Spells(d, v, "profit_recycle_ratio", r.recycle) && Spells(d, v, "banked_profit_ratio", r.bank) {
        assert ReadsSoundly(d.read(v.fields["profit_recycle_ratio"].text));
        assert ReadsSoundly(d.read(v.fields["banked_profit_ratio"].text));
        SumWithinOne(r.recycle, r.bank);
      }
    }
  }

  lemma SumWithinOne(a: Frac, b: Frac)
    requires 0 < a.den && 0 < b.den
    ensures Less(Whole(1), Plus(a, b)) <==> a.den * b.den < a.num * b.den + b.num * a.den
  {
    PlusIs(a, b);
    var s := Plus(a, b);
    ProductPositive(a.den, b.den);
    SameSign(s.num, s.den, a.num * b.den + b.num * a.den, a.den * b.den);
  }

  lemma SameSign(n: int, m: int, k: int, l: int)
    requires 0 < m && 0 < l && n * l == k * m
    ensures m < n <==> l < k
  {
    if m < n { assert m * l < n * l; }
    if l < k { assert l * m < k * m; }
  }

  // ---------------------------------------------------------------------------------
  // Instruments
  // ---------------------------------------------------------------------------------

  /** An instrument is its reference and its decimals; it may say that it is fungible and carry a label. */
  lemma InstrumentExactly(v: Json, i: Instrument)
    ensures ReadInstrument(v) == Ok(i) <==>
              && v.Object? && {"ref", "decimals"} <= v.fields.Keys <= {"ref", "decimals", "asset_class", "display_symbol"}
              && ReadRef(v.fields["ref"]) == Ok(i.ref) && v.fields["decimals"] == Integer(i.decimals) && i.decimals <= 36
              && ("asset_class" in v.fields ==> v.fields["asset_class"] == Text("FUNGIBLE"))
              && (if "display_symbol" in v.fields then
                    i.symbol.Some? && ReadText(v.fields["display_symbol"], 64) == Ok(i.symbol.value)
                  else i.symbol.None?)
  {
    assert INSTRUMENT_KEYS + INSTRUMENT_LABELS == {"ref", "decimals", "asset_class", "display_symbol"};
  }

  // ---------------------------------------------------------------------------------
  // Ladders
  // ---------------------------------------------------------------------------------

  /** A rung as it is written. */
  ghost predicate RungSaid(d: Notation, v: Json, kind: Kind, l: Level) {
    && Says(v, "level_id", Text(l.id)) && Positive(d, v, "trigger_price", l.trigger)
    && Positive(d, v, if kind == Entry then "input_amount" else "input_ratio", l.size)
    && v.fields.Keys == {"level_id", "trigger_price", if kind == Entry then "input_amount" else "input_ratio"}
  }

  lemma RungExactly(d: Notation, v: Json, kind: Kind, side: Side, index: nat, seen: set<string>, l: Level)
    ensures ReadLevel(d, v, kind, side, index, seen) == Ok(l) <==>
              && RungSaid(d, v, kind, l) && l.kind == kind && l.side == side && l.index == index
              && ReadText(Text(l.id), 64) == Ok(l.id) && l.id !in seen && (kind == Exit ==> l.size.num <= l.size.den)
  {
    if HasExactly(v, LevelKeys(kind)) {
      DecimalExactly(d, v.fields["trigger_price"], false, l.trigger);
      DecimalExactly(d, v.fields[SizeKey(kind)], false, l.size);
    }
  }

  /** The rungs of a list, each in its place, of one kind and side, and under names of their own. */
  ghost predicate RungsSaid(
      d: Notation, items: seq<Json>, n: nat, kind: Kind, side: Side, seen: set<string>, levels: seq<Level>)
    requires n <= |items|
  {
    RungsPlaced(d, items, n, kind, side, seen, levels) && NamesDiffer(levels)
  }

  ghost predicate RungsPlaced(
      d: Notation, items: seq<Json>, n: nat, kind: Kind, side: Side, seen: set<string>, levels: seq<Level>)
    requires n <= |items|
  {
    |levels| == n && forall i :: 0 <= i < n ==> RungAt(d, items[i], kind, side, seen, levels[i], i)
  }

  predicate NamesDiffer(levels: seq<Level>) {
    forall i, j :: 0 <= i < j < |levels| ==> levels[i].id != levels[j].id
  }

  ghost predicate RungAt(d: Notation, v: Json, kind: Kind, side: Side, seen: set<string>, l: Level, i: nat) {
    && RungSaid(d, v, kind, l) && l.kind == kind && l.side == side && l.index == i
    && ReadText(Text(l.id), 64) == Ok(l.id) && l.id !in seen && (kind == Exit ==> l.size.num <= l.size.den)
  }

  lemma {:induction false} RungsExactly(
      d: Notation, items: seq<Json>, n: nat, kind: Kind, side: Side, seen: set<string>, levels: seq<Level>)
    requires n <= |items|
    ensures ReadLevels(d, items, n, kind, side, seen) == Ok(levels) <==> RungsSaid(d, items, n, kind, side, seen, levels)
    decreases n
  {
    if n == 0 {
    } else if |levels| == n {
      var init, last := levels[..n - 1], levels[n - 1];
      assert levels == init + [last];
      RungsExactly(d, items, n - 1, kind, side, seen, init);
      LastRung(d, items, n, kind, side, seen, init, last);
      LastRead(d, items, n, kind, side, seen, init, last);
    } else if ReadLevels(d, items, n, kind, side, seen) == Ok(levels) {
      RungsExactly(d, items, n - 1, kind, side, seen, ReadLevels(d, items, n - 1, kind, side, seen).value);
    }
  }

  lemma LastRead(d: Notation, items: seq<Json>, n: nat, kind: Kind, side: Side, seen: set<string>,
                 init: seq<Level>, last: Level)
    requires 0 < n <= |items|
    ensures ReadLevels(d, items, n, kind, side, seen) == Ok(init + [last]) <==>
              && ReadLevels(d, items, n - 1, kind, side, seen) == Ok(init)
              && ReadLevel(d, items[n - 1], kind, side, n - 1, seen + Ids(init)) == Ok(last)
  {
    if ReadLevels(d, items, n, kind, side, seen) == Ok(init + [last]) {
      var i := ReadLevels(d, items, n - 1, kind, side, seen).value;
      var l := ReadLevel(d, items[n - 1], kind, side, n - 1, seen + Ids(i)).value;
      assert i + [l] == init + [last];
      assert (i + [l])[..|i|] == (init + [last])[..|init|];
    }
  }

  lemma LastRung(d: Notation, items: seq<Json>, n: nat, kind: Kind, side: Side, seen: set<string>,
                 init: seq<Level>, last: Level)
    requires 0 < n <= |items| && |init| == n - 1
    ensures RungsSaid(d, items, n, kind, side, seen, init + [last]) <==>
              && RungsSaid(d, items, n - 1, kind, side, seen, init)
              && ReadLevel(d, items[n - 1], kind, side, n - 1, seen + Ids(init)) == Ok(last)
  {
    LastName(init, last);
    LastPlaced(d, items, n, kind, side, seen, init, last);
    RungExactly(d, items[n - 1], kind, side, n - 1, seen + Ids(init), last);
    assert last.id !in seen + Ids(init) <==> last.id !in seen && last.id !in Ids(init);
  }

  lemma LastName(init: seq<Level>, last: Level)
    ensures NamesDiffer(init + [last]) <==> NamesDiffer(init) && last.id !in Ids(init)
  {
    var levels := init + [last];
    if NamesDiffer(levels) {
      assert forall i :: 0 <= i < |init| ==> levels[i] == init[i];
      assert levels[|init|] == last;
    }
    if last.id !in Ids(init) {
      assert forall i :: 0 <= i < |init| ==> init[i].id in Ids(init);
    }
  }

  lemma LastPlaced(d: Notation, items: seq<Json>, n: nat, kind: Kind, side: Side, seen: set<string>,
                   init: seq<Level>, last: Level)
    requires 0 < n <= |items| && |init| == n - 1
    ensures RungsPlaced(d, items, n, kind, side, seen, init + [last]) <==>
            RungsPlaced(d, items, n - 1, kind, side, seen, init) && RungAt(d, items[n - 1], kind, side, seen, last, n - 1)
  {
    var levels := init + [last];
    assert levels[n - 1] == last && forall i :: 0 <= i < n - 1 ==> levels[i] == init[i];
    if RungsPlaced(d, items, n, kind, side, seen, levels) {
      forall i | 0 <= i < n - 1 ensures RungAt(d, items[i], kind, side, seen, init[i], i) {
        assert RungAt(d, items[i], kind, side, seen, levels[i], i);
      }
    }
  }

  /** Triggers fall strictly from rung to rung when buying and rise strictly when selling. */
  ghost predicate StepsTheRightWay(side: Side, levels: seq<Level>) {
    forall i, j :: 0 <= i && j == i + 1 < |levels| ==>
      var a, b := levels[i].trigger, levels[j].trigger;
      if side == Buy then b.num * a.den < a.num * b.den else a.num * b.den < b.num * a.den
  }

  lemma OrderedExactly(side: Side, levels: seq<Level>)
    ensures TriggersOrdered(side, levels) <==> StepsTheRightWay(side, levels)
  {
    if TriggersOrdered(side, levels) {
      forall i, j | 0 <= i && j == i + 1 < |levels|
        ensures var a, b := levels[i].trigger, levels[j].trigger;
                if side == Buy then b.num * a.den < a.num * b.den else a.num * b.den < b.num * a.den
      {
        assert OrderedAt(side, levels, j);
      }
    }
    if StepsTheRightWay(side, levels) {
      forall j | 0 < j < |levels| ensures OrderedAt(side, levels, j) {
        var i := j - 1;
        assert Ordered(side, levels[i], levels[j]);
      }
    }
  }

  lemma LadderExactly(d: Notation, v: Json, kind: Kind, side: Side, seen: set<string>, l: Ladder)
    ensures ReadLadder(d, v, kind, side, seen) == Ok(l) <==>
              && v.Object? && v.fields.Keys == {"levels"} && v.fields["levels"].List?
              && 1 <= |v.fields["levels"].items| <= 64 && l.kind == kind && l.side == side
              && RungsSaid(d, v.fields["levels"].items, |v.fields["levels"].items|, kind, side, seen, l.levels)
              && StepsTheRightWay(side, l.levels)
  {
    if v.Object? && v.fields.Keys == {"levels"} && v.fields["levels"].List? {
      var items := v.fields["levels"].items;
      RungsExactly(d, items, |items|, kind, side, seen, l.levels);
      OrderedExactly(side, l.levels);
    }
  }

  // ---------------------------------------------------------------------------------
  // The whole document
  // ---------------------------------------------------------------------------------

  /** The blocks under their keys, the last of them optional, and nothing else. */
  lemma RootExactly(v: Json, r: Root)
    ensures RootOf(v) == Some(r) <==>
              && Says(v, "schema", r.schema) && Says(v, "policy_name", r.name) && Says(v, "side", r.side)
              && Says(v, "base", r.base) && Says(v, "quote", r.quote)
              && Says(v, "entry_ladder", r.entry) && Says(v, "exit_ladder", r.exit)
              && Says(v, "capital", r.capital) && Says(v, "limits", r.limits) && Says(v, "timing", r.timing)
              && Says(v, "reentry", r.reentry) && (r.recycling.Some? ==> Says(v, "recycling", r.recycling.value))
              && v.fields.Keys == {"schema", "policy_name", "side", "base", "quote", "entry_ladder", "exit_ladder", "capital",
                                   "limits", "timing", "reentry"} + (if r.recycling.Some? then {"recycling"} else {})
  {
    if v.Object? {
      var rest := v.fields.Keys - {"recycling"};
      assert "recycling" in v.fields ==> v.fields.Keys == rest + {"recycling"};
      assert "recycling" !in v.fields ==> v.fields.Keys == rest;
    }
  }

  /** Two instruments of one chain, or of one cluster. */
  predicate OneNetwork(a: InstrumentRef, b: InstrumentRef) {
    || (a.Evm? && b.Evm? && a.chainId == b.chainId)
    || (a.Solana? && b.Solana? && a.cluster == b.cluster)
  }

  lemma SideExactly(v: Json, s: Side)
    ensures ReadSide(v) == Ok(s) <==> v == Text(if s == Buy then "BUY" else "SELL")
  {
    assert "BUY"[0] != "SELL"[0];
  }

  /** The exit ladder trades the other way, and the names of its rungs differ from those of the entry ladder. */
  lemma TermsExactly(d: Notation, r: Root, t: Terms)
    ensures ReadTerms(d, r) == Ok(t) <==>
              && r.schema == Text("qntyspot.policy.v0") && ReadText(r.name, 128) == Ok(t.name)
              && r.side == Text(if t.side == Buy then "BUY" else "SELL")
              && ReadInstrument(r.base) == Ok(t.base) && ReadInstrument(r.quote) == Ok(t.quote)
              && t.base.ref != t.quote.ref && OneNetwork(t.base.ref, t.quote.ref)
              && ReadLadder(d, r.entry, Entry, t.side, {}) == Ok(t.entry)
              && ReadLadder(d, r.exit, Exit, if t.side == Buy then Sell else Buy, Ids(t.entry.levels)) == Ok(t.exit)
              && ReadCapital(d, r.capital) == Ok(t.capital) && ReadLimits(d, r.limits) == Ok(t.limits)
              && ReadTiming(r.timing) == Ok(t.timing) && ReadReentry(r.reentry) == Ok(t.reentry)
              && (if r.recycling.None? then t.recycling == Recycling(Frac(0, 1), Frac(0, 1))
                  else ReadRecycling(d, r.recycling.value) == Ok(t.recycling))
  {
    ReadBlocks(d, r, t);
    SideExactly(r.side, t.side);
    assert ReadsAs(d, r, t) ==> (ReadSide(r.side) == Ok(t.side));
  }

  /** The shares of the inventory that the first rungs dispose of, added up. */
  ghost function SharesOf(levels: seq<Level>, n: nat): real
    requires n <= |levels| && forall i :: 0 <= i < n ==> 0 < levels[i].size.den
  {
    if n == 0 then 0.0
    else SharesOf(levels, n - 1) + levels[n - 1].size.num as real / levels[n - 1].size.den as real
  }

  lemma {:induction false} TotalIsSum(levels: seq<Level>, n: nat)
    requires n <= |levels| && forall i :: 0 <= i < n ==> levels[i].Valid()
    ensures TotalShare(levels, n).num as real / TotalShare(levels, n).den as real == SharesOf(levels, n)
    decreases n
  {
    if n != 0 {
      TotalIsSum(levels, n - 1);
      var a, b := TotalShare(levels, n - 1), levels[n - 1].size;
      PlusIs(a, b);
      SumOfQuotients(Plus(a, b), a, b);
    }
  }

  lemma SumOfQuotients(r: Frac, a: Frac, b: Frac)
    requires 0 < r.den && 0 < a.den && 0 < b.den && r.num * (a.den * b.den) == (a.num * b.den + b.num * a.den) * r.den
    ensures r.num as real / r.den as real == a.num as real / a.den as real + b.num as real / b.den as real
  {
    var n, m, k, l, p, q := a.num as real, a.den as real, b.num as real, b.den as real, r.num as real, r.den as real;
    assert p * (m * l) == (n * l + k * m) * q;
    Quotients(n, m, k, l, p, q);
  }

  lemma Quotients(n: real, m: real, k: real, l: real, p: real, q: real)
    requires 0.0 < m && 0.0 < l && 0.0 < q && p * (m * l) == (n * l + k * m) * q
    ensures p / q == n / m + k / l
  {
    var x, y, z := n / m, k / l, p / q;
    assert x * m == n && y * l == k && z * q == p;
    assert (z * q) * (m * l) == (x * m * l + y * l * m) * q;
    assert z * (q * m * l) == (x + y) * (q * m * l);
  }

  lemma AtMostOne(f: Frac)
    requires 0 < f.den
    ensures AtMost(f, Whole(1)) <==> f.num as real / f.den as real <= 1.0
  {
    var n, m := f.num as real, f.den as real;
    assert (n / m) * m == n;
  }

  lemma SharesExactly(levels: seq<Level>)
    requires forall i :: 0 <= i < |levels| ==> levels[i].Valid()
    ensures SharesAtMostOne(levels) <==> SharesOf(levels, |levels|) <= 1.0
  {
    TotalIsSum(levels, |levels|);
    AtMostOne(TotalShare(levels, |levels|));
  }

  /** Whether a rung that buys is triggered at or below the hard maximum, and one that sells at or above the
      hard minimum. */
  predicate Triggers(limits: Limits, buys: bool, l: Level) {
    if buys then l.trigger.num * limits.maxPrice.den <= limits.maxPrice.num * l.trigger.den
    else limits.minPrice.num * l.trigger.den <= l.trigger.num * limits.minPrice.den
  }

  /** An amount that is an integer of at most so many atomic units. */
  ghost predicate WithinUnits(f: Frac, decimals: nat, most: int) {
    exists n: int :: n <= most && InUnits(f, decimals, n)
  }

  lemma UnitsExactly(f: Frac, decimals: nat, most: int)
    requires f.Valid()
    ensures WithinUnits(f, decimals, most) <==> ToAtomic(f, decimals).Ok? && ToAtomic(f, decimals).value <= most
  {
    forall n: int ensures ToAtomic(f, decimals) == Ok(n) <==> InUnits(f, decimals, n) {
      ToAtomicIsExact(f, decimals, n);
    }
    OneNumber(ToAtomic(f, decimals), f, decimals, most);
  }

  lemma OneNumber(r: Result<int>, f: Frac, decimals: nat, most: int)
    requires forall n: int :: r == Ok(n) <==> InUnits(f, decimals, n)
    ensures WithinUnits(f, decimals, most) <==> r.Ok? && r.value <= most
  {
    if WithinUnits(f, decimals, most) {
      var n: int :| n <= most && InUnits(f, decimals, n);
      assert r == Ok(n);
    }
  }

  /** The cross-field checks: the exit rungs dispose of at most the whole inventory, the caps cohere, every rung is
      triggered within the hard limit of its side, and every entry of a BUY policy is an exact amount of the quote
      instrument within the cap of an order. */
  lemma CoherentExactly(t: Terms, b: Budget)
    requires TermsFit(t)
    ensures Coherent(t) == Ok(b) <==>
              && SharesOf(t.exit.levels, |t.exit.levels|) <= 1.0
              && BudgetOf(t.capital, t.quote.decimals) == Ok(b)
              && (forall l <- t.entry.levels :: Triggers(t.limits, t.side == Buy, l))
              && (forall l <- t.exit.levels :: Triggers(t.limits, t.side == Sell, l))
              && (t.side == Buy ==> forall l <- t.entry.levels :: WithinUnits(l.size, t.quote.decimals, b.perOrder))
  {
    SharesExactly(t.exit.levels);
    RungsExecute(t, b, t.entry.levels, Entry, t.side);
    RungsExecute(t, b, t.exit.levels, Exit, t.side.Opposite());
  }

  lemma RungsExecute(t: Terms, b: Budget, levels: seq<Level>, kind: Kind, side: Side)
    requires forall l <- levels :: l.Valid() && l.kind == kind && l.side == side
    ensures AllCouldExecute(t, b, levels) <==>
              && (forall l <- levels :: Triggers(t.limits, side == Buy, l))
              && (t.side == Buy && kind == Entry ==> forall l <- levels :: WithinUnits(l.size, t.quote.decimals, b.perOrder))
  {
    forall l | l in levels
      ensures CouldExecute(t, b, l) <==>
                && Triggers(t.limits, side == Buy, l)
                && (t.side == Buy && kind == Entry ==> WithinUnits(l.size, t.quote.decimals, b.perOrder))
    {
      UnitsExactly(l.size, t.quote.decimals, b.perOrder);
    }
    if AllCouldExecute(t, b, levels) {
      forall l | l in levels ensures CouldExecute(t, b, l) {
        var i :| 0 <= i < |levels| && levels[i] == l;
        assert CouldExecute(t, b, levels[i]);
      }
    }
    if forall l <- levels :: CouldExecute(t, b, l) {
      assert AllCouldExecute(t, b, levels) by {
        assert forall i :: 0 <= i < |levels| ==> levels[i] in levels;
      }
    }
  }

  // ---------------------------------------------------------------------------------
  // The canonical document
  // ---------------------------------------------------------------------------------

  /** The text under a key is the number as the notation writes it. */
  predicate Writes(d: Notation, v: Json, key: string, f: Frac) {
    v.Object? && key in v.fields && v.fields[key].Text? && d.write(f) == Ok(v.fields[key].text)
  }

  ghost predicate RungWritten(d: Notation, v: Json, l: Level) {
    && Says(v, "level_id", Text(l.id)) && Writes(d, v, "trigger_price", l.trigger)
    && Writes(d, v, if l.kind == Entry then "input_amount" else "input_ratio", l.size)
    && v.fields.Keys == {"level_id", "trigger_price", if l.kind == Entry then "input_amount" else "input_ratio"}
  }

  ghost predicate LadderWritten(d: Notation, v: Json, levels: seq<Level>) {
    && v.Object? && v.fields.Keys == {"levels"} && v.fields["levels"].List?
    && RungsWritten(d, v.fields["levels"].items, levels, |levels|)
  }

  ghost predicate RungsWritten(d: Notation, items: seq<Json>, levels: seq<Level>, n: nat) {
    |items| == n <= |levels| && forall i :: 0 <= i < n ==> RungWritten(d, items[i], levels[i])
  }

  lemma {:induction false} RungsAreWritten(d: Notation, levels: seq<Level>, n: nat)
    requires n <= |levels| && forall i :: 0 <= i < n ==> levels[i].Valid()
    requires LevelDocuments(d, levels, n).Ok?
    ensures RungsWritten(d, LevelDocuments(d, levels, n).value, levels, n)
    decreases n
  {
    if n != 0 {
      DocumentsStep(d, levels, n);
      RungsAreWritten(d, levels, n - 1);
      NextWritten(d, levels, n, LevelDocuments(d, levels, n - 1).value, LevelDocument(d, levels[n - 1]));
    }
  }

  lemma NextWritten(d: Notation, levels: seq<Level>, n: nat, items: seq<Json>, item: Result<Json>)
    requires 0 < n <= |levels| && levels[n - 1].Valid() && item == LevelDocument(d, levels[n - 1]) && item.Ok?
    requires RungsWritten(d, items, levels, n - 1)
    ensures RungsWritten(d, items + [item.value], levels, n)
  {
    RungIsWritten(d, levels[n - 1]);
  }

  lemma RungIsWritten(d: Notation, l: Level)
    requires l.Valid() && LevelDocument(d, l).Ok?
    ensures RungWritten(d, LevelDocument(d, l).value, l)
  {
    var v := LevelDocument(d, l).value;
    var key := if l.kind == Entry then "input_amount" else "input_ratio";
    assert key == SizeKey(l.kind);
    assert v == Object(map["level_id" := Text(l.id), "trigger_price" := Text(d.write(l.trigger).value),
                           key := Text(d.write(l.size).value)]);
    assert v.fields.Keys == {"level_id", "trigger_price", key};
    assert |key| != |"level_id"| && |key| != |"trigger_price"| && |"level_id"| != |"trigger_price"|;
    assert Says(v, "level_id", Text(l.id));
    assert Writes(d, v, "trigger_price", l.trigger);
    assert Writes(d, v, key, l.size);
  }

  lemma LadderIsWritten(d: Notation, l: Ladder)
    requires l.Valid() && LadderDocument(d, l).Ok?
    ensures LadderWritten(d, LadderDocument(d, l).value, l.levels)
  {
    RungsAreWritten(d, l.levels, |l.levels|);
    var v := LadderDocument(d, l).value;
    assert v.fields.Keys == {"levels"};
  }

  ghost predicate CapitalWritten(d: Notation, v: Json, c: Capital) {
    && Writes(d, v, "allocation_quote", c.allocation) && Writes(d, v, "per_order_cap_quote", c.perOrder)
    && Writes(d, v, "per_instrument_cap_quote", c.perInstrument) && Writes(d, v, "per_network_cap_quote", c.perNetwork)
    && Writes(d, v, "global_portfolio_cap_quote", c.global) && Writes(d, v, "reserved_cash_quote", c.reserved)
    && v.fields.Keys == {"allocation_quote", "per_order_cap_quote", "per_instrument_cap_quote", "per_network_cap_quote",
                         "global_portfolio_cap_quote", "reserved_cash_quote"}
  }

  lemma CapitalIsWritten(d: Notation, c: Capital)
    requires CapitalValid(c) && CapitalDocument(d, c).Ok?
    ensures CapitalWritten(d, CapitalDocument(d, c).value, c)
  {
  }

  ghost predicate LimitsWritten(d: Notation, v: Json, l: Limits) {
    && Writes(d, v, "max_executable_price", l.maxPrice) && Writes(d, v, "min_executable_price", l.minPrice)
    && Says(v, "max_price_impact_bps", Integer(l.impactBps)) && Says(v, "max_slippage_bps", Integer(l.slippageBps))
    && v.fields.Keys == {"max_executable_price", "min_executable_price", "max_price_impact_bps", "max_slippage_bps"}
  }

  lemma LimitsAreWritten(d: Notation, l: Limits)
    requires LimitsValid(l) && LimitsDocument(d, l).Ok?
    ensures LimitsWritten(d, LimitsDocument(d, l).value, l)
  {
  }

  ghost predicate RecyclingWritten(d: Notation, v: Json, r: Recycling) {
    && Writes(d, v, "profit_recycle_ratio", r.recycle) && Writes(d, v, "banked_profit_ratio", r.bank)
    && v.fields.Keys == {"profit_recycle_ratio", "banked_profit_ratio"}
  }

  lemma RecyclingIsWritten(d: Notation, r: Recycling)
    requires RecyclingValid(r) && RecyclingDocument(d, r).Ok?
    ensures RecyclingWritten(d, RecyclingDocument(d, r).value, r)
  {
  }

  /** An instrument is written without its label. */
  function InstrumentWritten(i: Instrument): Json {
    Object(map["ref" := IdentityFields(i.ref), "decimals" := Integer(i.decimals), "asset_class" := Text("FUNGIBLE")])
  }

  ghost predicate Written(d: Notation, r: Root, t: Terms) {
    && r.schema == Text("qntyspot.policy.v0") && r.name == Text(t.name)
    && r.side == Text(if t.side == Buy then "BUY" else "SELL")
    && r.base == InstrumentWritten(t.base) && r.quote == InstrumentWritten(t.quote)
    && LadderWritten(d, r.entry, t.entry.levels) && LadderWritten(d, r.exit, t.exit.levels)
    && CapitalWritten(d, r.capital, t.capital) && LimitsWritten(d, r.limits, t.limits)
    && r.timing == Object(map["valid_from_epoch_s" := Integer(t.timing.validFrom),
                              "expiry_epoch_s" := Integer(t.timing.expiry), "quote_ttl_s" := Integer(t.timing.quoteTtl)])
    && r.reentry == Object(map["max_cycles" := Integer(t.reentry.maxCycles),
                               "rearm_hysteresis_bps" := Integer(t.reentry.hysteresisBps),
                               "rearm_cooldown_s" := Integer(t.reentry.cooldown)])
    && r.recycling.Some? && RecyclingWritten(d, r.recycling.value, t.recycling)
  }

  /** The canonical document writes every term under its key, the recycling block too when it was omitted, and
      leaves out nothing but the labels. */
  lemma CanonicalIsWritten(d: Notation, v: Json, p: Policy)
    requires Faithful(d) && ReadPolicy(d, v) == Ok(p)
    ensures RootOf(p.canonical).Some? && Written(d, RootOf(p.canonical).value, p.terms)
  {
    TermsAreFit(d, RootOf(v).value);
    var t, r := p.terms, CanonicalRoot(d, p.terms).value;
    CanonicalParts(d, t, r);
    RootRoundTrip(r);
    LadderIsWritten(d, t.entry);
    LadderIsWritten(d, t.exit);
    CapitalIsWritten(d, t.capital);
    LimitsAreWritten(d, t.limits);
    RecyclingIsWritten(d, t.recycling);
  }

  // ---------------------------------------------------------------------------------
  // Admission
  // ---------------------------------------------------------------------------------

  ghost predicate Prints(d: Notation, f: Frac) {
    d.write(f).Ok?
  }

  ghost predicate RungsPrint(d: Notation, levels: seq<Level>) {
    forall i :: 0 <= i < |levels| ==> Prints(d, levels[i].trigger) && Prints(d, levels[i].size)
  }

  ghost predicate CapitalPrints(d: Notation, c: Capital) {
    && Prints(d, c.allocation) && Prints(d, c.perOrder) && Prints(d, c.perInstrument)
    && Prints(d, c.perNetwork) && Prints(d, c.global) && Prints(d, c.reserved)
  }

  lemma {:induction false} RungsPrintExactly(d: Notation, levels: seq<Level>, n: nat)
    requires n <= |levels| && forall i :: 0 <= i < n ==> levels[i].Valid()
    ensures LevelDocuments(d, levels, n).Ok? <==> RungsPrint(d, levels[..n])
    decreases n
  {
    if n != 0 {
      RungsPrintExactly(d, levels, n - 1);
      assert levels[..n] == levels[..n - 1] + [levels[n - 1]];
      LastPrints(d, levels[..n - 1], levels[n - 1]);
      assert LevelDocument(d, levels[n - 1]).Ok? <==> Prints(d, levels[n - 1].trigger) && Prints(d, levels[n - 1].size);
    }
  }

  lemma LastPrints(d: Notation, init: seq<Level>, last: Level)
    ensures RungsPrint(d, init + [last]) <==> RungsPrint(d, init) && Prints(d, last.trigger) && Prints(d, last.size)
  {
    var levels := init + [last];
    assert levels[|init|] == last && forall i :: 0 <= i < |init| ==> levels[i] == init[i];
  }

  lemma LadderPrintsExactly(d: Notation, l: Ladder)
    requires l.Valid()
    ensures LadderDocument(d, l).Ok? <==> RungsPrint(d, l.levels)
  {
    RungsPrintExactly(d, l.levels, |l.levels|);
    assert l.levels[..|l.levels|] == l.levels;
  }

  lemma CanonicalExists(d: Notation, t: Terms)
    requires TermsFit(t)
    ensures CanonicalRoot(d, t).Ok? <==>
              && RungsPrint(d, t.entry.levels) && RungsPrint(d, t.exit.levels) && CapitalPrints(d, t.capital)
              && Prints(d, t.limits.maxPrice) && Prints(d, t.limits.minPrice)
              && Prints(d, t.recycling.recycle) && Prints(d, t.recycling.bank)
  {
    LadderPrintsExactly(d, t.entry);
    LadderPrintsExactly(d, t.exit);
    assert CapitalDocument(d, t.capital).Ok? <==> CapitalPrints(d, t.capital);
    assert LimitsDocument(d, t.limits).Ok? <==> Prints(d, t.limits.maxPrice) && Prints(d, t.limits.minPrice);
    assert RecyclingDocument(d, t.recycling).Ok? <==> Prints(d, t.recycling.recycle) && Prints(d, t.recycling.bank);
  }

  /** A document is admitted exactly when its blocks read, the whole is coherent and every amount prints. */
  lemma AdmittedExactly(d: Notation, v: Json, t: Terms, b: Budget)
    requires Faithful(d)
    ensures (ReadPolicy(d, v).Ok? && ReadPolicy(d, v).value.terms == t && ReadPolicy(d, v).value.budget == b) <==>
              && RootOf(v).Some? && ReadTerms(d, RootOf(v).value) == Ok(t) && TermsFit(t) && Coherent(t) == Ok(b)
              && RungsPrint(d, t.entry.levels) && RungsPrint(d, t.exit.levels) && CapitalPrints(d, t.capital)
              && Prints(d, t.limits.maxPrice) && Prints(d, t.limits.minPrice)
              && Prints(d, t.recycling.recycle) && Prints(d, t.recycling.bank)
  {
    if RootOf(v).Some? && ReadTerms(d, RootOf(v).value) == Ok(t) {
      TermsAreFit(d, RootOf(v).value);
      CanonicalExists(d, t);
    }
  }
}
