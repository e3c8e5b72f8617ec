/** Every part of a canonical document reads back as what it was written from. */
module PolicyRoundTrips {

  import opened Outcomes
  import opened Fractions
  import opened JsonDocuments
  import opened Domain
  import opened Economics
  import opened PolicyDocuments

  lemma DecimalRoundTrip(d: Notation, f: Frac, s: string, allowZero: bool)
    requires Faithful(d) && f.Valid() && d.write(f) == Ok(s) && (f.num == 0 ==> allowZero)
    ensures ReadDecimal(d, Text(s), allowZero) == Ok(f)
  {
  }

  predicate CapitalPositive(c: Capital) {
    && CapitalValid(c)
    && c.allocation.num != 0 && c.perOrder.num != 0 && c.perInstrument.num != 0
    && c.perNetwork.num != 0 && c.global.num != 0
  }

  lemma CapitalIsPositive(d: Notation, v: Json)
    requires Faithful(d) && ReadCapital(d, v).Ok?
    ensures CapitalPositive(ReadCapital(d, v).value)
  {
  }

  lemma CapitalFromTexts(d: Notation, c: Capital, s1: string, s2: string, s3: string, s4: string, s5: string, s6: string)
    requires ReadDecimal(d, Text(s1), false) == Ok(c.allocation) && ReadDecimal(d, Text(s2), false) == Ok(c.perOrder)
    requires ReadDecimal(d, Text(s3), false) == Ok(c.perInstrument) && ReadDecimal(d, Text(s4), false) == Ok(c.perNetwork)
    requires ReadDecimal(d, Text(s5), false) == Ok(c.global) && ReadDecimal(d, Text(s6), true) == Ok(c.reserved)
    ensures ReadCapital(d, Object(map[
              "allocation_quote" := Text(s1), "per_order_cap_quote" := Text(s2), "per_instrument_cap_quote" := Text(s3),
              "per_network_cap_quote" := Text(s4), "global_portfolio_cap_quote" := Text(s5),
              "reserved_cash_quote" := Text(s6)])) == Ok(c)
  {
  }

  lemma CapitalRoundTrip(d: Notation, c: Capital)
    requires Faithful(d) && CapitalPositive(c) && CapitalDocument(d, c).Ok?
    ensures ReadCapital(d, CapitalDocument(d, c).value) == Ok(c)
  {
    var s1, s2, s3 := d.write(c.allocation).value, d.write(c.perOrder).value, d.write(c.perInstrument).value;
    var s4, s5, s6 := d.write(c.perNetwork).value, d.write(c.global).value, d.write(c.reserved).value;
    DecimalRoundTrip(d, c.allocation, s1, false);
    DecimalRoundTrip(d, c.perOrder, s2, false);
    DecimalRoundTrip(d, c.perInstrument, s3, false);
    DecimalRoundTrip(d, c.perNetwork, s4, false);
    DecimalRoundTrip(d, c.global, s5, false);
    DecimalRoundTrip(d, c.reserved, s6, true);
    CapitalFromTexts(d, c, s1, s2, s3, s4, s5, s6);
  }

  lemma LimitsAreValid(d: Notation, v: Json)
    requires Faithful(d) && ReadLimits(d, v).Ok?
    ensures LimitsValid(ReadLimits(d, v).value)
  {
  }

  lemma LimitsFromTexts(d: Notation, l: Limits, s1: string, s2: string)
    requires LimitsValid(l)
    requires ReadDecimal(d, Text(s1), false) == Ok(l.maxPrice) && ReadDecimal(d, Text(s2), false) == Ok(l.minPrice)
    ensures ReadLimits(d, Object(map[
              "max_executable_price" := Text(s1), "min_executable_price" := Text(s2),
              "max_price_impact_bps" := Integer(l.impactBps), "max_slippage_bps" := Integer(l.slippageBps)])) == Ok(l)
  {
  }

  lemma LimitsRoundTrip(d: Notation, l: Limits)
    requires Faithful(d) && LimitsValid(l) && LimitsDocument(d, l).Ok?
    ensures ReadLimits(d, LimitsDocument(d, l).value) == Ok(l)
  {
    var s1, s2 := d.write(l.maxPrice).value, d.write(l.minPrice).value;
    DecimalRoundTrip(d, l.maxPrice, s1, false);
    DecimalRoundTrip(d, l.minPrice, s2, false);
    LimitsFromTexts(d, l, s1, s2);
  }

  lemma TimingRoundTrip(v: Json)
    requires ReadTiming(v).Ok?
    ensures ReadTiming(TimingDocument(ReadTiming(v).value)) == ReadTiming(v)
  {
  }

  lemma ReentryRoundTrip(v: Json)
    requires ReadReentry(v).Ok?
    ensures ReadReentry(ReentryDocument(ReadReentry(v).value)) == ReadReentry(v)
  {
  }

  lemma RecyclingRoundTrip(d: Notation, r: Recycling)
    requires Faithful(d) && RecyclingValid(r) && AtMost(Plus(r.recycle, r.bank), Whole(1)) && RecyclingDocument(d, r).Ok?
    ensures ReadRecycling(d, RecyclingDocument(d, r).value) == Ok(r)
  {
    var s1, s2 := d.write(r.recycle).value, d.write(r.bank).value;
    DecimalRoundTrip(d, r.recycle, s1, true);
    DecimalRoundTrip(d, r.bank, s2, true);
    var fields: map<string, Json> := map["profit_recycle_ratio" := Text(s1), "banked_profit_ratio" := Text(s2)];
    assert fields.Keys == RECYCLING_KEYS;
    assert RecyclingDocument(d, r).value == Object(fields);
  }

  // ---------------------------------------------------------------------------------
  // Ladders
  // ---------------------------------------------------------------------------------

  lemma LevelIsValid(d: Notation, v: Json, kind: Kind, side: Side, index: nat, seen: set<string>)
    requires Faithful(d) && ReadLevel(d, v, kind, side, index, seen).Ok?
    ensures var l := ReadLevel(d, v, kind, side, index, seen).value;
            l.Valid() && l.kind == kind && l.side == side && l.index == index && l.id !in seen && IsText(l.id, 64)
  {
  }

  lemma LevelFromTexts(d: Notation, l: Level, s1: string, s2: string, seen: set<string>)
    requires l.Valid() && l.id !in seen && IsText(l.id, 64)
    requires ReadDecimal(d, Text(s1), false) == Ok(l.trigger) && ReadDecimal(d, Text(s2), false) == Ok(l.size)
    ensures ReadLevel(d, Object(map["level_id" := Text(l.id), "trigger_price" := Text(s1), SizeKey(l.kind) := Text(s2)]),
                      l.kind, l.side, l.index, seen) == Ok(l)
  {
  }

  lemma LevelRoundTrip(d: Notation, l: Level, seen: set<string>)
    requires Faithful(d) && l.Valid() && l.id !in seen && IsText(l.id, 64) && LevelDocument(d, l).Ok?
    ensures ReadLevel(d, LevelDocument(d, l).value, l.kind, l.side, l.index, seen) == Ok(l)
  {
    var s1, s2 := d.write(l.trigger).value, d.write(l.size).value;
    DecimalRoundTrip(d, l.trigger, s1, false);
    DecimalRoundTrip(d, l.size, s2, false);
    LevelFromTexts(d, l, s1, s2, seen);
  }

  /** What reading the rungs guarantees: each is valid and in its place, and no id is used twice. */
  ghost predicate LevelsFit(levels: seq<Level>, kind: Kind, side: Side, seen: set<string>) {
    && (forall i :: 0 <= i < |levels| ==> LevelFits(levels, i, kind, side, seen))
    && forall i, j :: 0 <= i < j < |levels| ==> levels[i].id != levels[j].id
  }

  ghost predicate LevelFits(levels: seq<Level>, i: nat, kind: Kind, side: Side, seen: set<string>)
    requires i < |levels|
  {
    var l := levels[i];
    l.Valid() && l.kind == kind && l.side == side && l.index == i && l.id !in seen && IsText(l.id, 64)
  }

  lemma FitAppends(init: seq<Level>, last: Level, kind: Kind, side: Side, seen: set<string>)
    requires LevelsFit(init, kind, side, seen)
    requires last.Valid() && last.kind == kind && last.side == side && last.index == |init|
    requires last.id !in seen && last.id !in Ids(init) && IsText(last.id, 64)
    ensures LevelsFit(init + [last], kind, side, seen)
  {
    forall i | 0 <= i < |init| ensures LevelFits(init + [last], i, kind, side, seen) && init[i].id != last.id {
      assert LevelFits(init, i, kind, side, seen);
      assert init[i].id in Ids(init);
    }
  }

  lemma {:induction false} ReadLevelsFit(d: Notation, items: seq<Json>, n: nat, kind: Kind, side: Side, seen: set<string>)
    requires Faithful(d) && n <= |items| && ReadLevels(d, items, n, kind, side, seen).Ok?
    ensures |ReadLevels(d, items, n, kind, side, seen).value| == n
    ensures LevelsFit(ReadLevels(d, items, n, kind, side, seen).value, kind, side, seen)
    decreases n
  {
    if n != 0 {
      ReadLevelsFit(d, items, n - 1, kind, side, seen);
      var init := ReadLevels(d, items, n - 1, kind, side, seen).value;
      LevelIsValid(d, items[n - 1], kind, side, n - 1, seen + Ids(init));
      var last := ReadLevel(d, items[n - 1], kind, side, n - 1, seen + Ids(init)).value;
      FitAppends(init, last, kind, side, seen);
    }
  }

  lemma NextLevel(d: Notation, items: seq<Json>, n: nat, kind: Kind, side: Side, seen: set<string>,
                  init: seq<Level>, last: Level)
    requires 0 < n <= |items| && ReadLevels(d, items, n - 1, kind, side, seen) == Ok(init)
    requires ReadLevel(d, items[n - 1], kind, side, n - 1, seen + Ids(init)) == Ok(last)
    ensures ReadLevels(d, items, n, kind, side, seen) == Ok(init + [last])
  {
  }

  lemma {:induction false} ReadLevelsOfPrefix(d: Notation, items: seq<Json>, more: seq<Json>, n: nat, kind: Kind, side: Side, seen: set<string>)
    requires n <= |items| && n <= |more| && forall i :: 0 <= i < n ==> items[i] == more[i]
    ensures ReadLevels(d, items, n, kind, side, seen) == ReadLevels(d, more, n, kind, side, seen)
    decreases n
  {
    if n != 0 { ReadLevelsOfPrefix(d, items, more, n - 1, kind, side, seen); }
  }

  lemma LastLevelRoundTrip(d: Notation, levels: seq<Level>, n: nat, kind: Kind, side: Side, seen: set<string>)
    requires Faithful(d) && 0 < n <= |levels| && LevelsFit(levels, kind, side, seen)
    requires levels[n - 1].Valid() && LevelDocument(d, levels[n - 1]).Ok?
    ensures ReadLevel(d, LevelDocument(d, levels[n - 1]).value, kind, side, n - 1, seen + Ids(levels[..n - 1]))
         == Ok(levels[n - 1])
  {
    var l := levels[n - 1];
    assert LevelFits(levels, n - 1, kind, side, seen);
    assert l.id !in Ids(levels[..n - 1]);
    LevelRoundTrip(d, l, seen + Ids(levels[..n - 1]));
  }

  lemma StepRoundTrip(d: Notation, levels: seq<Level>, n: nat, kind: Kind, side: Side, seen: set<string>,
                      init: seq<Json>, last: Json)
    requires 0 < n <= |levels| && |init| == n - 1
    requires ReadLevels(d, init, n - 1, kind, side, seen) == Ok(levels[..n - 1])
    requires ReadLevel(d, last, kind, side, n - 1, seen + Ids(levels[..n - 1])) == Ok(levels[n - 1])
    ensures ReadLevels(d, init + [last], n, kind, side, seen) == Ok(levels[..n])
  {
    assert levels[..n] == levels[..n - 1] + [levels[n - 1]];
    var items := init + [last];
    assert items[n - 1] == last;
    assert ReadLevels(d, items, n - 1, kind, side, seen) == Ok(levels[..n - 1]) by {
      ReadLevelsOfPrefix(d, init, items, n - 1, kind, side, seen);
    }
    NextLevel(d, items, n, kind, side, seen, levels[..n - 1], levels[n - 1]);
  }

  lemma DocumentsStep(d: Notation, levels: seq<Level>, n: nat)
    requires 0 < n <= |levels| && (forall i :: 0 <= i < n ==> levels[i].Valid())
    requires LevelDocuments(d, levels, n).Ok?
    ensures LevelDocuments(d, levels, n - 1).Ok? && LevelDocument(d, levels[n - 1]).Ok?
    ensures LevelDocuments(d, levels, n).value
         == LevelDocuments(d, levels, n - 1).value + [LevelDocument(d, levels[n - 1]).value]
  {
  }

  lemma {:induction false} LevelsRoundTrip(d: Notation, levels: seq<Level>, n: nat, kind: Kind, side: Side, seen: set<string>)
    requires Faithful(d) && n <= |levels| && LevelsFit(levels, kind, side, seen)
    requires forall i :: 0 <= i < n ==> levels[i].Valid()
    requires LevelDocuments(d, levels, n).Ok?
    ensures |LevelDocuments(d, levels, n).value| == n
    ensures ReadLevels(d, LevelDocuments(d, levels, n).value, n, kind, side, seen) == Ok(levels[..n])
    decreases n
  {
    if n != 0 {
      DocumentsStep(d, levels, n);
      LevelsRoundTrip(d, levels, n - 1, kind, side, seen);
      LastLevelRoundTrip(d, levels, n, kind, side, seen);
      StepRoundTrip(d, levels, n, kind, side, seen,
                    LevelDocuments(d, levels, n - 1).value, LevelDocument(d, levels[n - 1]).value);
    }
  }

  lemma LadderIsValid(d: Notation, v: Json, kind: Kind, side: Side, seen: set<string>)
    requires Faithful(d) && ReadLadder(d, v, kind, side, seen).Ok?
    ensures var l := ReadLadder(d, v, kind, side, seen).value;
            && l.Valid() && l.kind == kind && l.side == side && 1 <= |l.levels| <= MAX_LEVELS
            && LevelsFit(l.levels, kind, side, seen)
  {
    var items := v.fields["levels"].items;
    ReadLevelsFit(d, items, |items|, kind, side, seen);
    var levels := ReadLevels(d, items, |items|, kind, side, seen).value;
    forall l | l in levels ensures l.Valid() && l.kind == kind && l.side == side {
      var i :| 0 <= i < |levels| && levels[i] == l;
      assert LevelFits(levels, i, kind, side, seen);
    }
  }

  lemma LadderRoundTrip(d: Notation, l: Ladder, seen: set<string>)
    requires Faithful(d) && l.Valid() && 1 <= |l.levels| <= MAX_LEVELS && LevelsFit(l.levels, l.kind, l.side, seen)
    requires LadderDocument(d, l).Ok?
    ensures ReadLadder(d, LadderDocument(d, l).value, l.kind, l.side, seen) == Ok(l)
  {
    LevelsRoundTrip(d, l.levels, |l.levels|, l.kind, l.side, seen);
    assert l.levels[..|l.levels|] == l.levels;
    var docs := LevelDocuments(d, l.levels, |l.levels|).value;
    var fields: map<string, Json> := map["levels" := List(docs)];
    assert fields.Keys == {"levels"} && LadderDocument(d, l).value == Object(fields);
  }
}
