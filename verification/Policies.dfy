/** Admission of a whole policy document, its canonical form, and what the two guarantee. */
module Policies {

  import opened Outcomes
  import opened Fractions
  import opened Decimals
  import opened JsonDocuments
  import opened Domain
  import opened Identity
  import opened Economics
  import LimitRendering
  import opened PolicyDocuments
  import opened PolicyRoundTrips

  /** The blocks of a document. */
  datatype Root = Root(
    schema: Json, name: Json, side: Json, base: Json, quote: Json, entry: Json, exit: Json,
    capital: Json, limits: Json, timing: Json, reentry: Json, recycling: Option<Json>)

  const ROOT_KEYS: set<string> := {
    "schema", "policy_name", "side", "base", "quote", "entry_ladder", "exit_ladder",
    "capital", "limits", "timing", "reentry"}

  function RootOf(v: Json): Option<Root> {
    if !HasKeys(v, ROOT_KEYS, {"recycling"}) then None
    else
      var f := v.fields;
      Some(Root(f["schema"], f["policy_name"], f["side"], f["base"], f["quote"], f["entry_ladder"], f["exit_ladder"],
                f["capital"], f["limits"], f["timing"], f["reentry"],
                if "recycling" in f then Some(f["recycling"]) else None))
  }

  /** The document with the given blocks. */
  function RootDocument(r: Root): Json {
    var fields: map<string, Json> := map[
      "schema" := r.schema, "policy_name" := r.name, "side" := r.side, "base" := r.base, "quote" := r.quote,
      "entry_ladder" := r.entry, "exit_ladder" := r.exit, "capital" := r.capital, "limits" := r.limits,
      "timing" := r.timing, "reentry" := r.reentry];
    Object(if r.recycling.Some? then fields["recycling" := r.recycling.value] else fields)
  }

  function ReadSide(v: Json): Result<Side> {
    if v == Text("BUY") then Ok(Buy) else if v == Text("SELL") then Ok(Sell) else Refused(Malformed)
  }

  function SideDocument(s: Side): Json {
    Text(if s == Buy then "BUY" else "SELL")
  }

  /** An absent recycling block recycles and banks nothing. */
  function ReadRecyclingBlock(d: Notation, block: Option<Json>): Result<Recycling> {
    if block.None? then Ok(INERT) else ReadRecycling(d, block.value)
  }

  /** The terms, when every block was read and the instruments are two of one network. */
  function Assemble(
      name: Result<string>, side: Side, base: Result<Instrument>, quote: Result<Instrument>, entry: Ladder,
      exit: Result<Ladder>, capital: Result<Capital>, limits: Result<Limits>, timing: Result<Timing>,
      reentry: Result<Reentry>, recycling: Result<Recycling>): Result<Terms>
  {
    var n :- name;
    var b :- base;
    var q :- quote;
    if b.ref == q.ref || NetworkOf(b.ref) != NetworkOf(q.ref) then Refused(Malformed)
    else
      var x :- exit;
      var c :- capital;
      var l :- limits;
      var t :- timing;
      var r :- reentry;
      var y :- recycling;
      Ok(Terms(n, side, b, q, entry, x, c, l, t, r, y))
  }

  function ReadTerms(d: Notation, r: Root): Result<Terms> {
    if r.schema != Text(SCHEMA_ID) then Refused(Malformed)
    else
      var side :- ReadSide(r.side);
      var entry :- ReadLadder(d, r.entry, Entry, side, {});
      Assemble(ReadText(r.name, 128), side, ReadInstrument(r.base), ReadInstrument(r.quote), entry,
               ReadLadder(d, r.exit, Exit, side.Opposite(), Ids(entry.levels)), ReadCapital(d, r.capital),
               ReadLimits(d, r.limits), ReadTiming(r.timing), ReadReentry(r.reentry), ReadRecyclingBlock(d, r.recycling))
  }

  /** Terms whose blocks read as given. */
  ghost predicate ReadsAs(d: Notation, r: Root, t: Terms) {
    && r.schema == Text(SCHEMA_ID) && ReadText(r.name, 128) == Ok(t.name) && ReadSide(r.side) == Ok(t.side)
    && ReadInstrument(r.base) == Ok(t.base) && ReadInstrument(r.quote) == Ok(t.quote)
    && ReadLadder(d, r.entry, Entry, t.side, {}) == Ok(t.entry)
    && ReadLadder(d, r.exit, Exit, t.side.Opposite(), Ids(t.entry.levels)) == Ok(t.exit)
    && ReadCapital(d, r.capital) == Ok(t.capital) && ReadLimits(d, r.limits) == Ok(t.limits)
    && ReadTiming(r.timing) == Ok(t.timing) && ReadReentry(r.reentry) == Ok(t.reentry)
    && ReadRecyclingBlock(d, r.recycling) == Ok(t.recycling)
  }

  lemma Assembled(
      name: Result<string>, side: Side, base: Result<Instrument>, quote: Result<Instrument>, entry: Ladder,
      exit: Result<Ladder>, capital: Result<Capital>, limits: Result<Limits>, timing: Result<Timing>,
      reentry: Result<Reentry>, recycling: Result<Recycling>, t: Terms)
    ensures Assemble(name, side, base, quote, entry, exit, capital, limits, timing, reentry, recycling) == Ok(t) <==>
              && name == Ok(t.name) && side == t.side && base == Ok(t.base) && quote == Ok(t.quote)
              && t.base.ref != t.quote.ref && NetworkOf(t.base.ref) == NetworkOf(t.quote.ref)
              && entry == t.entry && exit == Ok(t.exit) && capital == Ok(t.capital) && limits == Ok(t.limits)
              && timing == Ok(t.timing) && reentry == Ok(t.reentry) && recycling == Ok(t.recycling)
  {
  }

  lemma ReadBlocks(d: Notation, r: Root, t: Terms)
    ensures ReadTerms(d, r) == Ok(t) <==>
            ReadsAs(d, r, t) && t.base.ref != t.quote.ref && NetworkOf(t.base.ref) == NetworkOf(t.quote.ref)
  {
    if r.schema == Text(SCHEMA_ID) && ReadSide(r.side).Ok? {
      var side := ReadSide(r.side).value;
      var entry := ReadLadder(d, r.entry, Entry, side, {});
      if entry.Ok? {
        Assembled(ReadText(r.name, 128), side, ReadInstrument(r.base), ReadInstrument(r.quote), entry.value,
                  ReadLadder(d, r.exit, Exit, side.Opposite(), Ids(entry.value.levels)), ReadCapital(d, r.capital),
                  ReadLimits(d, r.limits), ReadTiming(r.timing), ReadReentry(r.reentry),
                  ReadRecyclingBlock(d, r.recycling), t);
      }
    }
  }

  /** What reading the blocks guarantees. */
  ghost predicate TermsFit(t: Terms) {
    InstrumentsFit(t) && LaddersFit(t) && AmountsFit(t)
  }

  ghost predicate InstrumentsFit(t: Terms) {
    && IsText(t.name, 128)
    && IsRef(t.base.ref) && IsRef(t.quote.ref) && t.base.decimals <= 36 && t.quote.decimals <= 36
    && t.base.ref != t.quote.ref && NetworkOf(t.base.ref) == NetworkOf(t.quote.ref)
  }

  ghost predicate LaddersFit(t: Terms) {
    && LadderFits(t.entry, Entry, t.side, {})
    && LadderFits(t.exit, Exit, t.side.Opposite(), Ids(t.entry.levels))
  }

  ghost predicate AmountsFit(t: Terms) {
    && CapitalPositive(t.capital) && LimitsValid(t.limits)
    && RecyclingValid(t.recycling) && AtMost(Plus(t.recycling.recycle, t.recycling.bank), Whole(1))
    && t.timing.validFrom < t.timing.expiry && 1 <= t.timing.quoteTtl
  }

  ghost predicate LadderFits(l: Ladder, kind: Kind, side: Side, seen: set<string>) {
    l.Valid() && l.kind == kind && l.side == side && 1 <= |l.levels| <= MAX_LEVELS && LevelsFit(l.levels, kind, side, seen)
  }

  lemma InstrumentIsValid(v: Json)
    ensures ReadInstrument(v).Ok? ==> IsRef(ReadInstrument(v).value.ref) && ReadInstrument(v).value.decimals <= 36
  {
    if ReadInstrument(v).Ok? { ReadRefIsFaithful(v.fields["ref"]); }
  }

  lemma RecyclingBlockIsValid(d: Notation, block: Option<Json>)
    requires Faithful(d) && ReadRecyclingBlock(d, block).Ok?
    ensures var r := ReadRecyclingBlock(d, block).value;
            RecyclingValid(r) && AtMost(Plus(r.recycle, r.bank), Whole(1))
  {
  }

  lemma InertSum()
    ensures AtMost(Plus(Frac(0, 1), Frac(0, 1)), Whole(1))
  {
  }

  lemma TimingIsFit(v: Json)
    ensures ReadTiming(v).Ok? ==> ReadTiming(v).value.validFrom < ReadTiming(v).value.expiry && 1 <= ReadTiming(v).value.quoteTtl
  {
  }

  lemma InstrumentsAreFit(name: Json, base: Json, quote: Json, t: Terms)
    requires ReadText(name, 128) == Ok(t.name) && ReadInstrument(base) == Ok(t.base) && ReadInstrument(quote) == Ok(t.quote)
    requires t.base.ref != t.quote.ref && NetworkOf(t.base.ref) == NetworkOf(t.quote.ref)
    ensures InstrumentsFit(t)
  {
    InstrumentIsValid(base);
    InstrumentIsValid(quote);
  }

  lemma LaddersAreFit(d: Notation, entry: Json, exit: Json, t: Terms)
    requires Faithful(d) && ReadLadder(d, entry, Entry, t.side, {}) == Ok(t.entry)
    requires ReadLadder(d, exit, Exit, t.side.Opposite(), Ids(t.entry.levels)) == Ok(t.exit)
    ensures LaddersFit(t)
  {
    LadderIsValid(d, entry, Entry, t.side, {});
    LadderIsValid(d, exit, Exit, t.side.Opposite(), Ids(t.entry.levels));
  }

  lemma AmountsAreFit(d: Notation, capital: Json, limits: Json, timing: Json, recycling: Option<Json>, t: Terms)
    requires Faithful(d) && ReadCapital(d, capital) == Ok(t.capital) && ReadLimits(d, limits) == Ok(t.limits)
    requires ReadTiming(timing) == Ok(t.timing) && ReadRecyclingBlock(d, recycling) == Ok(t.recycling)
    ensures AmountsFit(t)
  {
    CapitalIsPositive(d, capital);
    LimitsAreValid(d, limits);
    TimingIsFit(timing);
    RecyclingBlockIsValid(d, recycling);
  }

  lemma BlocksAreFit(d: Notation, r: Root, t: Terms)
    requires Faithful(d) && ReadsAs(d, r, t)
    requires t.base.ref != t.quote.ref && NetworkOf(t.base.ref) == NetworkOf(t.quote.ref)
    ensures TermsFit(t)
  {
    InstrumentsAreFit(r.name, r.base, r.quote, t);
    LaddersAreFit(d, r.entry, r.exit, t);
    AmountsAreFit(d, r.capital, r.limits, r.timing, r.recycling, t);
  }

  lemma TermsAreFit(d: Notation, r: Root)
    requires Faithful(d) && ReadTerms(d, r).Ok?
    ensures TermsFit(ReadTerms(d, r).value)
  {
    ReadBlocks(d, r, ReadTerms(d, r).value);
    BlocksAreFit(d, r, ReadTerms(d, r).value);
  }

  // ---------------------------------------------------------------------------------
  // Cross-field checks
  // ---------------------------------------------------------------------------------

  /** A rung priced outside the hard limits, or larger than the per-order cap, could never execute. */
  predicate CouldExecute(t: Terms, budget: Budget, l: Level)
    requires l.Valid()
  {
    && (if l.side == Buy then AtMost(l.trigger, t.limits.maxPrice) else AtMost(t.limits.minPrice, l.trigger))
    && (t.side == Buy && l.kind == Entry ==>
          var amount := ToAtomic(l.size, t.quote.decimals);
          amount.Ok? && amount.value <= budget.perOrder)
  }

  predicate AllCouldExecute(t: Terms, budget: Budget, levels: seq<Level>)
    requires forall l <- levels :: l.Valid()
  {
    forall i :: 0 <= i < |levels| ==> CouldExecute(t, budget, levels[i])
  }

  // ---------------------------------------------------------------------------------
  // Admission
  // ---------------------------------------------------------------------------------

  /** The blocks of the canonical document, when every amount renders. */
  function Rendered(t: Terms, entry: Result<Json>, exit: Result<Json>, capital: Result<Json>, limits: Result<Json>,
                    recycling: Result<Json>): Result<Root>
  {
    var e :- entry;
    var x :- exit;
    var c :- capital;
    var l :- limits;
    var r :- recycling;
    Ok(Root(Text(SCHEMA_ID), Text(t.name), SideDocument(t.side), InstrumentDocument(t.base), InstrumentDocument(t.quote),
            e, x, c, l, TimingDocument(t.timing), ReentryDocument(t.reentry), Some(r)))
  }

  function CanonicalRoot(d: Notation, t: Terms): Result<Root>
    requires TermsFit(t)
  {
    Rendered(t, LadderDocument(d, t.entry), LadderDocument(d, t.exit), CapitalDocument(d, t.capital),
             LimitsDocument(d, t.limits), RecyclingDocument(d, t.recycling))
  }

  /** The budget, when the exit shares, the capital and every rung cohere. */
  function Coherent(t: Terms): Result<Budget>
    requires TermsFit(t)
  {
    if !SharesAtMostOne(t.exit.levels) then Refused(Malformed)
    else
      var budget :- BudgetOf(t.capital, t.quote.decimals);
      if AllCouldExecute(t, budget, t.entry.levels) && AllCouldExecute(t, budget, t.exit.levels) then Ok(budget)
      else Refused(Malformed)
  }

  function Admit(d: Notation, t: Terms): Result<Policy>
    requires TermsFit(t)
  {
    var budget :- Coherent(t);
    var root :- CanonicalRoot(d, t);
    Ok(Policy(t, budget, RootDocument(root)))
  }

  function ReadPolicy(d: Notation, v: Json): Result<Policy>
    requires Faithful(d)
  {
    var root := RootOf(v);
    if root.None? then Refused(Malformed)
    else
      var terms :- ReadTerms(d, root.value);
      TermsAreFit(d, root.value);
      Admit(d, terms)
  }

  lemma CoherentMeansAdmitted(p: Policy)
    requires TermsFit(p.terms) && Coherent(p.terms) == Ok(p.budget)
    ensures Admitted(p)
  {
    if p.terms.side == Buy {
      forall l | l in p.terms.entry.levels ensures EntryFits(p, l) {
        var i :| 0 <= i < |p.terms.entry.levels| && p.terms.entry.levels[i] == l;
        assert CouldExecute(p.terms, p.budget, p.terms.entry.levels[i]);
      }
    }
  }

  lemma AdmitMeansAdmitted(d: Notation, t: Terms)
    requires TermsFit(t) && Admit(d, t).Ok?
    ensures Admitted(Admit(d, t).value)
  {
    CoherentMeansAdmitted(Admit(d, t).value);
  }

  /** Admission establishes what the economic bounds rely on. */
  lemma AdmittedDocument(d: Notation, v: Json)
    requires Faithful(d) && ReadPolicy(d, v).Ok?
    ensures Admitted(ReadPolicy(d, v).value)
  {
    var root := RootOf(v).value;
    TermsAreFit(d, root);
    AdmitMeansAdmitted(d, ReadTerms(d, root).value);
  }

  /** No admitted rung is dead on arrival: at its own trigger price it is within its limit. */
  lemma AdmittedRungsAreAlive(d: Notation, v: Json, level: Level)
    requires Faithful(d) && ReadPolicy(d, v).Ok? && IsLevelOf(ReadPolicy(d, v).value, level)
    ensures var p := ReadPolicy(d, v).value;
            && level.Valid() && LimitsValid(p.terms.limits)
            && NoWorse(level.side, level.trigger, LegLimitPrice(p.terms.limits, level))
  {
    var p := ReadPolicy(d, v).value;
    CanonicalOfTerms(d, v);
    CoherentRungs(p.terms, p.budget, level);
    LimitRendering.RungIsAlive(p.terms.limits, level);
  }

  lemma CoherentRungs(t: Terms, budget: Budget, level: Level)
    requires TermsFit(t) && Coherent(t) == Ok(budget) && (level in t.entry.levels || level in t.exit.levels)
    ensures level.Valid() && CouldExecute(t, budget, level)
  {
    var levels := if level in t.entry.levels then t.entry.levels else t.exit.levels;
    var i :| 0 <= i < |levels| && levels[i] == level;
    assert CouldExecute(t, budget, levels[i]);
  }

  // ---------------------------------------------------------------------------------
  // The canonical form
  // ---------------------------------------------------------------------------------

  lemma RootRoundTrip(r: Root)
    requires r.recycling.Some?
    ensures RootOf(RootDocument(r)) == Some(r)
  {
    var v := RootDocument(r);
    assert v.fields.Keys == ROOT_KEYS + {"recycling"};
  }

  /** The terms without the labels of the instruments. */
  function Unlabelled(t: Terms): Terms {
    t.(base := t.base.(symbol := None), quote := t.quote.(symbol := None))
  }

  lemma InstrumentReadsBack(i: Instrument)
    requires IsRef(i.ref) && i.decimals <= 36
    ensures ReadInstrument(InstrumentDocument(i)) == Ok(i.(symbol := None))
  {
    IdentityRoundTrip(i.ref);
    var v := InstrumentDocument(i);
    assert v.fields.Keys == {"ref", "decimals", "asset_class"};
    assert "display_symbol" !in v.fields;
  }

  lemma RenderedParts(t: Terms, entry: Result<Json>, exit: Result<Json>, capital: Result<Json>, limits: Result<Json>,
                      recycling: Result<Json>, r: Root)
    requires Rendered(t, entry, exit, capital, limits, recycling) == Ok(r)
    ensures entry == Ok(r.entry) && exit == Ok(r.exit) && capital == Ok(r.capital) && limits == Ok(r.limits)
    ensures r.recycling.Some? && recycling == Ok(r.recycling.value)
    ensures r.schema == Text(SCHEMA_ID) && r.name == Text(t.name) && r.side == SideDocument(t.side)
    ensures r.base == InstrumentDocument(t.base) && r.quote == InstrumentDocument(t.quote)
    ensures r.timing == TimingDocument(t.timing) && r.reentry == ReentryDocument(t.reentry)
  {
  }

  lemma CanonicalParts(d: Notation, t: Terms, r: Root)
    requires TermsFit(t) && CanonicalRoot(d, t) == Ok(r)
    ensures LadderDocument(d, t.entry) == Ok(r.entry) && LadderDocument(d, t.exit) == Ok(r.exit)
    ensures CapitalDocument(d, t.capital) == Ok(r.capital) && LimitsDocument(d, t.limits) == Ok(r.limits)
    ensures r.recycling.Some? && RecyclingDocument(d, t.recycling) == Ok(r.recycling.value)
    ensures r.schema == Text(SCHEMA_ID) && r.name == Text(t.name) && r.side == SideDocument(t.side)
    ensures r.base == InstrumentDocument(t.base) && r.quote == InstrumentDocument(t.quote)
    ensures r.timing == TimingDocument(t.timing) && r.reentry == ReentryDocument(t.reentry)
  {
    RenderedParts(t, LadderDocument(d, t.entry), LadderDocument(d, t.exit), CapitalDocument(d, t.capital),
                  LimitsDocument(d, t.limits), RecyclingDocument(d, t.recycling), r);
  }

  lemma LaddersReadBack(d: Notation, t: Terms, entry: Json, exit: Json)
    requires Faithful(d) && LaddersFit(t)
    requires LadderDocument(d, t.entry) == Ok(entry) && LadderDocument(d, t.exit) == Ok(exit)
    ensures ReadLadder(d, entry, Entry, t.side, {}) == Ok(t.entry)
    ensures ReadLadder(d, exit, Exit, t.side.Opposite(), Ids(t.entry.levels)) == Ok(t.exit)
  {
    LadderRoundTrip(d, t.entry, {});
    LadderRoundTrip(d, t.exit, Ids(t.entry.levels));
  }

  lemma AmountsReadBack(d: Notation, t: Terms, capital: Json, limits: Json, recycling: Json)
    requires Faithful(d) && AmountsFit(t)
    requires CapitalDocument(d, t.capital) == Ok(capital) && LimitsDocument(d, t.limits) == Ok(limits)
    requires RecyclingDocument(d, t.recycling) == Ok(recycling)
    ensures ReadCapital(d, capital) == Ok(t.capital) && ReadLimits(d, limits) == Ok(t.limits)
    ensures ReadRecycling(d, recycling) == Ok(t.recycling)
  {
    CapitalRoundTrip(d, t.capital);
    LimitsRoundTrip(d, t.limits);
    RecyclingRoundTrip(d, t.recycling);
  }

  lemma HeadReadsBack(t: Terms)
    requires IsText(t.name, 128)
    ensures ReadText(Text(t.name), 128) == Ok(t.name) && ReadSide(SideDocument(t.side)) == Ok(t.side)
  {
  }

  lemma CanonicalBlocks(d: Notation, t: Terms, r: Root)
    requires Faithful(d) && TermsFit(t) && CanonicalRoot(d, t) == Ok(r)
    requires ReadTiming(TimingDocument(t.timing)) == Ok(t.timing)
    requires ReadReentry(ReentryDocument(t.reentry)) == Ok(t.reentry)
    ensures ReadsAs(d, r, Unlabelled(t))
  {
    CanonicalParts(d, t, r);
    HeadReadsBack(t);
    InstrumentReadsBack(t.base);
    InstrumentReadsBack(t.quote);
    LaddersReadBack(d, t, r.entry, r.exit);
    AmountsReadBack(d, t, r.capital, r.limits, r.recycling.value);
  }

  lemma CanonicalReadsBack(d: Notation, r: Root, t: Terms)
    requires Faithful(d) && ReadTerms(d, r) == Ok(t) && TermsFit(t) && CanonicalRoot(d, t).Ok?
    ensures ReadTerms(d, CanonicalRoot(d, t).value) == Ok(Unlabelled(t))
  {
    ReadBlocks(d, r, t);
    TimingRoundTrip(r.timing);
    ReentryRoundTrip(r.reentry);
    CanonicalBlocks(d, t, CanonicalRoot(d, t).value);
    ReadBlocks(d, CanonicalRoot(d, t).value, Unlabelled(t));
  }

  /** The canonical form of every admitted policy is itself admissible and is a fixpoint: it reads
      as the same policy, labels aside, with the same canonical form. */
  lemma CanonicalIsFixpoint(d: Notation, v: Json)
    requires Faithful(d) && ReadPolicy(d, v).Ok?
    ensures var p := ReadPolicy(d, v).value;
            ReadPolicy(d, p.canonical) == Ok(p.(terms := Unlabelled(p.terms)))
  {
    var p, root := ReadPolicy(d, v).value, RootOf(v).value;
    TermsAreFit(d, root);
    CanonicalReadsBack(d, root, p.terms);
    CanonicalParts(d, p.terms, CanonicalRoot(d, p.terms).value);
    RootRoundTrip(CanonicalRoot(d, p.terms).value);
    LabelsDoNotMatter(d, p.terms);
  }

  lemma LabelsDoNotMatter(d: Notation, t: Terms)
    requires TermsFit(t)
    ensures TermsFit(Unlabelled(t))
    ensures Admit(d, Unlabelled(t)) == match Admit(d, t)
            case Ok(p) => Ok(p.(terms := Unlabelled(t)))
            case Refused(e) => Refused(e)
  {
    LabelsDoNotCohere(t);
    LabelsDoNotRender(d, t);
  }

  lemma LabelsDoNotCohere(t: Terms)
    requires TermsFit(t) && TermsFit(Unlabelled(t))
    ensures Coherent(Unlabelled(t)) == Coherent(t)
  {
    var u := Unlabelled(t);
    forall budget: Budget, l: Level | l.Valid() ensures CouldExecute(u, budget, l) == CouldExecute(t, budget, l) {}
  }

  lemma LabelsDoNotRender(d: Notation, t: Terms)
    requires TermsFit(t) && TermsFit(Unlabelled(t))
    ensures CanonicalRoot(d, Unlabelled(t)) == CanonicalRoot(d, t)
  {
  }

  /** Two admitted documents share one canonical form exactly when they say the same, labels aside. */
  lemma SameCanonicalExactly(d: Notation, v: Json, w: Json)
    requires Faithful(d) && ReadPolicy(d, v).Ok? && ReadPolicy(d, w).Ok?
    ensures ReadPolicy(d, v).value.canonical == ReadPolicy(d, w).value.canonical <==>
            Unlabelled(ReadPolicy(d, v).value.terms) == Unlabelled(ReadPolicy(d, w).value.terms)
  {
    var p, q := ReadPolicy(d, v).value, ReadPolicy(d, w).value;
    CanonicalIsFixpoint(d, v);
    CanonicalIsFixpoint(d, w);
    CanonicalOfTerms(d, v);
    CanonicalOfTerms(d, w);
    if Unlabelled(p.terms) == Unlabelled(q.terms) { SameLabelsAside(d, p.terms, q.terms); }
  }

  lemma CanonicalOfTerms(d: Notation, v: Json)
    requires Faithful(d) && ReadPolicy(d, v).Ok?
    ensures TermsFit(ReadPolicy(d, v).value.terms)
    ensures Admit(d, ReadPolicy(d, v).value.terms) == ReadPolicy(d, v)
  {
    TermsAreFit(d, RootOf(v).value);
  }

  lemma SameLabelsAside(d: Notation, t: Terms, u: Terms)
    requires TermsFit(t) && TermsFit(u) && Admit(d, t).Ok? && Admit(d, u).Ok? && Unlabelled(t) == Unlabelled(u)
    ensures Admit(d, t).value.canonical == Admit(d, u).value.canonical
  {
    LabelsDoNotMatter(d, t);
    LabelsDoNotMatter(d, u);
  }

  // ---------------------------------------------------------------------------------
  // What the canonical form leaves out
  // ---------------------------------------------------------------------------------

  lemma AddedRecycling(fields: map<string, Json>, block: Json)
    requires "recycling" !in fields
    ensures RootOf(Object(fields["recycling" := block]))
         == match RootOf(Object(fields)) case None => None case Some(r) => Some(r.(recycling := Some(block)))
  {
  }

  /** An omitted recycling block and any one that reads as all zero are the same document. */
  lemma OmittedRecyclingIsZero(d: Notation, fields: map<string, Json>, block: Json)
    requires Faithful(d) && "recycling" !in fields && ReadRecycling(d, block) == Ok(INERT)
    ensures ReadPolicy(d, Object(fields["recycling" := block])) == ReadPolicy(d, Object(fields))
  {
    AddedRecycling(fields, block);
    var root := RootOf(Object(fields));
    if root.Some? && root.value.recycling.None? { ZeroBlock(d, root.value, block); }
  }

  lemma ZeroBlock(d: Notation, r: Root, block: Json)
    requires r.recycling.None? && ReadRecycling(d, block) == Ok(INERT)
    ensures ReadTerms(d, r.(recycling := Some(block))) == ReadTerms(d, r)
  {
    SameBlocks(d, r, r.(recycling := Some(block)));
  }

  /** In the runtime's notation these are the blocks whose two ratios are spelled `0`, with or without
      a final newline. */
  lemma ZeroRecyclingExactly(block: Json)
    ensures ReadRecycling(CANONICAL, block) == Ok(INERT) <==>
            && HasExactly(block, RECYCLING_KEYS)
            && IsZeroText(block.fields["profit_recycle_ratio"]) && IsZeroText(block.fields["banked_profit_ratio"])
  {
    if HasExactly(block, RECYCLING_KEYS) {
      var recycle, bank := block.fields["profit_recycle_ratio"], block.fields["banked_profit_ratio"];
      ZeroRatio(recycle);
      ZeroRatio(bank);
      ZerosAreInert();
      OnlyOneReads(ReadDecimal(CANONICAL, recycle, true), ReadDecimal(CANONICAL, bank, true), INERT);
    }
  }

  lemma OnlyOneReads(recycle: Result<Frac>, bank: Result<Frac>, r: Recycling)
    requires ReadRatios(Ok(r.recycle), Ok(r.bank)) == Ok(r)
    ensures ReadRatios(recycle, bank) == Ok(r) <==> recycle == Ok(r.recycle) && bank == Ok(r.bank)
  {
  }

  lemma ZerosAreInert()
    ensures ReadRatios(Ok(Frac(0, 1)), Ok(Frac(0, 1))) == Ok(INERT)
  {
    InertSum();
  }

  lemma ZeroRatio(v: Json)
    ensures ReadDecimal(CANONICAL, v, true) == Ok(Frac(0, 1)) <==> IsZeroText(v)
  {
    if v.Text? { ZeroSpellings(v.text); }
  }

  predicate IsZeroText(v: Json) {
    v == Text("0") || v == Text("0\n")
  }

  lemma ZeroSpellings(s: string)
    ensures Parse(s) == Ok(Frac(0, 1)) <==> s == "0" || s == "0\n"
  {
    ZeroIsSpelled();
    NewlineIsTenth("0");
    if Parse(s) == Ok(Frac(0, 1)) {
      if Spelling(s) {
        SpellingIsUnique(s, "0");
      } else {
        ChopAndRejoin(s);
        var t := Chopped(s);
        ParseThenFormat(t);
        NewlineIsTenth(t);
        ZeroIsWhole(Parse(t).value, 10);
        SpellingIsUnique(t, "0");
      }
    }
  }

  lemma ZeroIsSpelled()
    ensures Spelling("0") && PointAt("0") == 1 && Parse("0") == Ok(Frac(0, 1))
  {
    assert WholeText("0") == "0";
    NoNewlineInSpelling("0");
    assert Chopped("0") == "0";
  }

  lemma ZeroIsWhole(f: Frac, n: int)
    requires f.Valid() && f.num == 0
    ensures f == Frac(0, 1)
  {
    WholeIsValid(0);
    ValidIsUnique(f, Frac(0, 1));
  }

  lemma SameBlocks(d: Notation, r: Root, s: Root)
    requires s == r.(recycling := s.recycling)
    requires ReadRecyclingBlock(d, r.recycling) == ReadRecyclingBlock(d, s.recycling)
    ensures ReadTerms(d, r) == ReadTerms(d, s)
  {
  }

  /** Instruments that differ only in their labels. */
  predicate SameButLabel(v: Json, w: Json) {
    v.Object? && w.Object? && v.fields - {"display_symbol"} == w.fields - {"display_symbol"}
  }

  /** Two admitted documents that differ only in the labels of their instruments share one canonical
      form. */
  lemma LabelsShareCanonical(d: Notation, v: Json, w: Json, r: Root, s: Root)
    requires Faithful(d) && ReadPolicy(d, v).Ok? && ReadPolicy(d, w).Ok?
    requires RootOf(v) == Some(r) && RootOf(w) == Some(s) && s == r.(base := s.base, quote := s.quote)
    requires SameButLabel(r.base, s.base) && SameButLabel(r.quote, s.quote)
    ensures ReadPolicy(d, v).value.canonical == ReadPolicy(d, w).value.canonical
  {
    AdmittedTerms(d, v, r);
    AdmittedTerms(d, w, s);
    RelabelledBlocks(d, r, s);
    SameCanonicalExactly(d, v, w);
  }

  lemma AdmittedTerms(d: Notation, v: Json, r: Root)
    requires Faithful(d) && ReadPolicy(d, v).Ok? && RootOf(v) == Some(r)
    ensures ReadTerms(d, r) == Ok(ReadPolicy(d, v).value.terms)
  {
    TermsAreFit(d, r);
  }

  lemma RelabelledBlocks(d: Notation, r: Root, s: Root)
    requires ReadTerms(d, r).Ok? && ReadTerms(d, s).Ok? && s == r.(base := s.base, quote := s.quote)
    requires SameButLabel(r.base, s.base) && SameButLabel(r.quote, s.quote)
    ensures Unlabelled(ReadTerms(d, r).value) == Unlabelled(ReadTerms(d, s).value)
  {
    var t, u := ReadTerms(d, r).value, ReadTerms(d, s).value;
    ReadBlocks(d, r, t);
    ReadBlocks(d, s, u);
    RelabelledTerms(d, r, s, t, u);
  }

  lemma RelabelledTerms(d: Notation, r: Root, s: Root, t: Terms, u: Terms)
    requires ReadsAs(d, r, t) && ReadsAs(d, s, u) && s == r.(base := s.base, quote := s.quote)
    requires SameButLabel(r.base, s.base) && SameButLabel(r.quote, s.quote)
    ensures Unlabelled(t) == Unlabelled(u)
  {
    SameInstrument(r.base, s.base);
    SameInstrument(r.quote, s.quote);
  }

  lemma SameInstrument(v: Json, w: Json)
    requires SameButLabel(v, w) && ReadInstrument(v).Ok? && ReadInstrument(w).Ok?
    ensures ReadInstrument(v).value.(symbol := None) == ReadInstrument(w).value.(symbol := None)
  {
    assert (v.fields - {"display_symbol"})["ref"] == (w.fields - {"display_symbol"})["ref"];
    assert (v.fields - {"display_symbol"})["decimals"] == (w.fields - {"display_symbol"})["decimals"];
  }
}
