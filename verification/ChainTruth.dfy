/** Conclusions drawn from provider readings of one transaction.

    The settlement evaluator and its approval twin take the same steps and differ in the facts an
    inclusion carries, so both are instances of one development over a fact type `F`. An observation
    digest appears as its rank `id` among the fixed-length hexadecimal digests; that the digest is
    injective is the assumption `CollisionFree`. */
module ChainTruth {
  import opened Outcomes

  datatype Reading<F> = Absent | Pending | Included(block: nat, facts: F)

  datatype Observation<F> = Observation(
    provider: string, transaction: string, observedAt: nat, id: nat, reading: Reading<F>, head: Option<nat>)

  datatype Finality = Finality(minDepth: nat, minProviders: nat) {
    predicate Valid() {
      0 < minDepth && 0 < minProviders
    }
  }

  datatype Verdict = NoEvidence | Visible | InBlock | Confirmed | Reverted | Ambiguous

  /** What settled: the block identity, and either both effective amounts or a revert. */
  datatype Receipt = Success(input: nat, output: nat) | Failure
  datatype Settlement = Settlement(hash: string, parent: string, receipt: Receipt)

  predicate Succeeded(f: Settlement) {
    f.receipt.Success?
  }

  /** Distinct readings have distinct digests. */
  ghost predicate CollisionFree<F(!new)>(h: set<Observation<F>>) {
    forall a, b :: a in h && b in h && a.id == b.id ==> a == b
  }

  // ---------------------------------------------------------------------------------
  // The evidence, as a set
  // ---------------------------------------------------------------------------------

  /** The order in which readings are folded: by time, then by digest. */
  predicate NotAfter<F>(a: Observation<F>, b: Observation<F>) {
    a.observedAt < b.observedAt || (a.observedAt == b.observedAt && a.id <= b.id)
  }

  /** `o` is the reading its provider is held to. */
  ghost predicate IsLatest<F(!new)>(h: set<Observation<F>>, o: Observation<F>) {
    o in h && forall a :: a in h && a.provider == o.provider ==> NotAfter(a, o)
  }

  ghost function Providers<F(!new)>(h: set<Observation<F>>): set<string> {
    set o | o in h :: o.provider
  }

  /** Two inclusions, whenever they were read, that do not report the same facts. */
  ghost predicate Contradicted<F(!new)>(h: set<Observation<F>>) {
    exists a, b :: a in h && b in h && a.reading.Included? && b.reading.Included? && a.reading != b.reading
  }

  /** A provider that reported an inclusion and now reports something else. */
  ghost predicate FellBack<F(!new)>(h: set<Observation<F>>) {
    exists a, o :: a in h && a.reading.Included? && IsLatest(h, o) && o.provider == a.provider && !o.reading.Included?
  }

  ghost predicate SomeIncluded<F(!new)>(h: set<Observation<F>>) {
    exists o :: IsLatest(h, o) && o.reading.Included?
  }

  ghost predicate SomeNotIncluded<F(!new)>(h: set<Observation<F>>) {
    exists o :: IsLatest(h, o) && !o.reading.Included?
  }

  ghost predicate SomePending<F(!new)>(h: set<Observation<F>>) {
    exists o :: o in h && o.reading.Pending?
  }

  /** How far behind a provider's head the inclusion block lies. */
  function DepthOf(head: Option<nat>, block: nat): nat {
    if head.None? || head.value < block then 0 else head.value - block
  }

  ghost predicate DeepFor<F(!new)>(h: set<Observation<F>>, depth: nat) {
    forall o :: IsLatest(h, o) && o.reading.Included? ==> depth <= DepthOf(o.head, o.reading.block)
  }

  /** The verdict, in the order in which the program decides it. */
  ghost function VerdictOf<F(!new)>(h: set<Observation<F>>, acknowledged: bool, finality: Finality, ok: F -> bool): Verdict {
    if Contradicted(h) || FellBack(h) || (SomeIncluded(h) && SomeNotIncluded(h)) then Ambiguous
    else if !SomeIncluded(h) then
      if SomePending(h) then Visible else if acknowledged then Ambiguous else NoEvidence
    else if |Providers(h)| < finality.minProviders then Visible
    else if !DeepFor(h, finality.minDepth) then InBlock
    else if exists o :: IsLatest(h, o) && o.reading.Included? && ok(o.reading.facts) then Confirmed
    else Reverted
  }

  /** Every provider's latest reading is an inclusion, and all inclusions ever read agree. */
  ghost predicate Agreed<F(!new)>(h: set<Observation<F>>) {
    && h != {}
    && (forall o :: IsLatest(h, o) ==> o.reading.Included?)
    && (forall a, b :: a in h && b in h && a.reading.Included? && b.reading.Included? ==> a.reading == b.reading)
  }

  // ---------------------------------------------------------------------------------
  // Latest readings exist and are unique
  // ---------------------------------------------------------------------------------

  lemma {:induction false} LatestExists<F(!new)>(h: set<Observation<F>>, p: string) returns (o: Observation<F>)
    requires exists a :: a in h && a.provider == p
    ensures IsLatest(h, o) && o.provider == p
    decreases h
  {
    var a :| a in h && a.provider == p;
    var rest := h - {a};
    if b :| b in rest && b.provider == p {
      var m := LatestExists(rest, p);
      o := if NotAfter(a, m) then m else a;
      forall c | c in h && c.provider == p ensures NotAfter(c, o) {
        if c != a { assert c in rest; }
      }
    } else {
      o := a;
      assert forall c :: c in h && c != a ==> c in rest;
    }
  }

  lemma LatestIsUnique<F(!new)>(h: set<Observation<F>>, a: Observation<F>, b: Observation<F>)
    requires CollisionFree(h) && IsLatest(h, a) && IsLatest(h, b) && a.provider == b.provider
    ensures a == b
  {
  }

  // ---------------------------------------------------------------------------------
  // When a verdict is terminal
  // ---------------------------------------------------------------------------------

  /** An agreed history is one that none of the contradiction rules rejects and that has an
      inclusion among the latest readings. */
  lemma AgreedMeansNoContradiction<F(!new)>(h: set<Observation<F>>)
    ensures Agreed(h) <==>
            !Contradicted(h) && !FellBack(h) && SomeIncluded(h) && !SomeNotIncluded(h)
  {
    if Agreed(h) {
      var a :| a in h;
      var o := LatestExists(h, a.provider);
    }
  }

  /** A terminal verdict holds exactly when every provider's latest reading is an inclusion, all
      inclusions in the history agree, enough providers agree, and every head is deep enough. */
  lemma TerminalExactly<F(!new)>(h: set<Observation<F>>, acknowledged: bool, finality: Finality, ok: F -> bool)
    ensures VerdictOf(h, acknowledged, finality, ok) in {Confirmed, Reverted} <==>
            Agreed(h) && finality.minProviders <= |Providers(h)| && DeepFor(h, finality.minDepth)
  {
    AgreedMeansNoContradiction(h);
  }

  /** Of the two terminal verdicts, which one is told by any inclusion in the history. */
  lemma TerminalVerdictFollowsInclusion<F(!new)>(
      h: set<Observation<F>>, acknowledged: bool, finality: Finality, ok: F -> bool, a: Observation<F>)
    requires a in h && a.reading.Included?
    ensures VerdictOf(h, acknowledged, finality, ok) == Confirmed ==> ok(a.reading.facts)
    ensures VerdictOf(h, acknowledged, finality, ok) == Reverted ==> !ok(a.reading.facts)
  {
    AgreedMeansNoContradiction(h);
  }

  // ---------------------------------------------------------------------------------
  // Every verdict, from the readings alone
  // ---------------------------------------------------------------------------------

  /** The provider's last word: none of its readings is later, and of the same second none has a later
      digest. */
  ghost predicate LastWord<F(!new)>(h: set<Observation<F>>, o: Observation<F>) {
    && o in h
    && forall a :: a in h && a.provider == o.provider ==>
         a.observedAt < o.observedAt || (a.observedAt == o.observedAt && a.id <= o.id)
  }

  /** Every provider's last word is an inclusion, and no two inclusions ever read differ. */
  ghost predicate Unanimous<F(!new)>(h: set<Observation<F>>) {
    && (exists o :: o in h)
    && (forall o :: LastWord(h, o) ==> o.reading.Included?)
    && (forall a, b :: a in h && b in h && a.reading.Included? && b.reading.Included? ==> a.reading == b.reading)
  }

  /** Every head is at least `depth` blocks above the inclusion. */
  ghost predicate HeadsReach<F(!new)>(h: set<Observation<F>>, depth: nat) {
    forall o :: LastWord(h, o) && o.reading.Included? ==> o.head.Some? && o.reading.block + depth <= o.head.value
  }

  lemma HeadsReachDepth<F(!new)>(h: set<Observation<F>>, depth: nat)
    requires 0 < depth
    ensures DeepFor(h, depth) <==> HeadsReach(h, depth)
  {
    LatestIsLastWord(h);
    if DeepFor(h, depth) {
      forall o | LastWord(h, o) && o.reading.Included? ensures o.head.Some? && o.reading.block + depth <= o.head.value {
        assert IsLatest(h, o);
      }
    }
    if HeadsReach(h, depth) {
      forall o | IsLatest(h, o) && o.reading.Included? ensures depth <= DepthOf(o.head, o.reading.block) {
        assert LastWord(h, o);
      }
    }
  }

  lemma LatestIsLastWord<F(!new)>(h: set<Observation<F>>)
    ensures forall o :: IsLatest(h, o) <==> LastWord(h, o)
  {
  }

  lemma UnanimousMeansAgreed<F(!new)>(h: set<Observation<F>>)
    ensures Unanimous(h) <==> Agreed(h)
  {
    LatestIsLastWord(h);
  }

  /** Once any inclusion `o` was read: ambiguous unless unanimous, then visible while too few providers
      report, in a block while some head is not far enough, and terminal from then on, as the inclusion
      itself says. */
  lemma VerdictOnInclusions<F(!new)>(
      h: set<Observation<F>>, acknowledged: bool, finality: Finality, ok: F -> bool, o: Observation<F>)
    requires finality.Valid() && o in h && o.reading.Included?
    ensures VerdictOf(h, acknowledged, finality, ok)
         == if !Unanimous(h) then Ambiguous
            else if |set a | a in h :: a.provider| < finality.minProviders then Visible
            else if !HeadsReach(h, finality.minDepth) then InBlock
            else if ok(o.reading.facts) then Confirmed
            else Reverted
  {
    UnanimousMeansAgreed(h);
    HeadsReachDepth(h, finality.minDepth);
    InclusionPersists(h, acknowledged, finality, ok);
    if Agreed(h) {
      AgreedVerdict(h, acknowledged, finality, ok);
      TerminalExactly(h, acknowledged, finality, ok);
      TerminalVerdictFollowsInclusion(h, acknowledged, finality, ok, o);
    }
  }

  /** While none was: visible if a pending transaction was ever seen, and otherwise nothing is known of
      a transaction, which is ambiguous if it was acknowledged. */
  lemma VerdictOnNoInclusion<F(!new)>(h: set<Observation<F>>, acknowledged: bool, finality: Finality, ok: F -> bool)
    requires forall o :: o in h ==> !o.reading.Included?
    ensures VerdictOf(h, acknowledged, finality, ok)
         == if exists o :: o in h && o.reading.Pending? then Visible else if acknowledged then Ambiguous else NoEvidence
  {
    WithoutInclusion(h, acknowledged, finality, ok);
  }

  // ---------------------------------------------------------------------------------
  // Evidence grows
  // ---------------------------------------------------------------------------------

  /** The verdicts a verdict may turn into when evidence is added. */
  function MayBecome(v: Verdict): set<Verdict> {
    match v
    case NoEvidence => {NoEvidence, Visible, InBlock, Confirmed, Reverted, Ambiguous}
    case Visible => {Visible, InBlock, Confirmed, Reverted, Ambiguous}
    case InBlock => {InBlock, Confirmed, Reverted, Ambiguous}
    case Confirmed => {Confirmed, InBlock, Ambiguous}
    case Reverted => {Reverted, InBlock, Ambiguous}
    case Ambiguous => {Visible, InBlock, Confirmed, Reverted, Ambiguous}
  }

  lemma ProvidersGrow<F(!new)>(h: set<Observation<F>>, h2: set<Observation<F>>)
    requires h <= h2
    ensures |Providers(h)| <= |Providers(h2)|
  {
    SubsetIsNoLarger(Providers(h), Providers(h2));
  }

  lemma {:induction false} SubsetIsNoLarger<T>(a: set<T>, b: set<T>)
    requires a <= b
    ensures |a| <= |b|
  {
    if a != {} {
      var x :| x in a;
      SubsetIsNoLarger(a - {x}, b - {x});
    }
  }

  /** An inclusion never disappears from the evidence: a history with one is from then on agreed
      or ambiguous. */
  lemma InclusionPersists<F(!new)>(h: set<Observation<F>>, acknowledged: bool, finality: Finality, ok: F -> bool)
    requires exists a :: a in h && a.reading.Included?
    ensures Agreed(h) || VerdictOf(h, acknowledged, finality, ok) == Ambiguous
  {
    AgreedMeansNoContradiction(h);
    var a :| a in h && a.reading.Included?;
    var o := LatestExists(h, a.provider);
  }

  lemma AgreedVerdict<F(!new)>(h: set<Observation<F>>, acknowledged: bool, finality: Finality, ok: F -> bool)
    requires Agreed(h)
    ensures var v := VerdictOf(h, acknowledged, finality, ok);
            if |Providers(h)| < finality.minProviders then v == Visible else v in {InBlock, Confirmed, Reverted}
  {
    AgreedMeansNoContradiction(h);
  }

  lemma EvolvesAfterInclusion<F(!new)>(
      h: set<Observation<F>>, h2: set<Observation<F>>, before: bool, after: bool, finality: Finality, ok: F -> bool)
    requires h <= h2 && exists a :: a in h && a.reading.Included?
    ensures VerdictOf(h2, after, finality, ok) in MayBecome(VerdictOf(h, before, finality, ok))
  {
    var a :| a in h && a.reading.Included?;
    assert a in h2;
    InclusionPersists(h, before, finality, ok);
    InclusionPersists(h2, after, finality, ok);
    TerminalVerdictFollowsInclusion(h, before, finality, ok, a);
    TerminalVerdictFollowsInclusion(h2, after, finality, ok, a);
    ProvidersGrow(h, h2);
    if Agreed(h) { AgreedVerdict(h, before, finality, ok); }
    if Agreed(h2) { AgreedVerdict(h2, after, finality, ok); }
  }

  lemma WithoutInclusion<F(!new)>(h: set<Observation<F>>, acknowledged: bool, finality: Finality, ok: F -> bool)
    requires !exists a :: a in h && a.reading.Included?
    ensures VerdictOf(h, acknowledged, finality, ok)
         == if SomePending(h) then Visible else if acknowledged then Ambiguous else NoEvidence
  {
    assert !SomeIncluded(h);
  }

  /** However the history is extended, a verdict only turns into one `MayBecome` lists. */
  lemma VerdictsEvolve<F(!new)>(
      h: set<Observation<F>>, h2: set<Observation<F>>, before: bool, after: bool, finality: Finality, ok: F -> bool)
    requires h <= h2 && (before ==> after)
    ensures VerdictOf(h2, after, finality, ok) in MayBecome(VerdictOf(h, before, finality, ok))
  {
    if exists a :: a in h && a.reading.Included? {
      EvolvesAfterInclusion(h, h2, before, after, finality, ok);
    } else {
      WithoutInclusion(h, before, finality, ok);
      if exists a :: a in h2 && a.reading.Included? {
        InclusionPersists(h2, after, finality, ok);
        if Agreed(h2) { AgreedVerdict(h2, after, finality, ok); }
      } else {
        WithoutInclusion(h2, after, finality, ok);
        if o :| o in h && o.reading.Pending? { assert o in h2; }
      }
    }
  }

  /** Capital is only released on a revert and a fill is only minted on a confirmation. Whichever
      comes first, no extension of the evidence ever justifies the other. */
  lemma ReleaseAndFillExclude<F(!new)>(
      h: set<Observation<F>>, h2: set<Observation<F>>, before: bool, after: bool, finality: Finality, ok: F -> bool)
    requires h <= h2
    ensures VerdictOf(h, before, finality, ok) == Reverted ==> VerdictOf(h2, after, finality, ok) != Confirmed
    ensures VerdictOf(h, before, finality, ok) == Confirmed ==> VerdictOf(h2, after, finality, ok) != Reverted
  {
    if VerdictOf(h, before, finality, ok) in {Confirmed, Reverted} {
      AgreedMeansNoContradiction(h);
      var a :| IsLatest(h, a) && a.reading.Included?;
      TerminalVerdictFollowsInclusion(h, before, finality, ok, a);
      TerminalVerdictFollowsInclusion(h2, after, finality, ok, a);
    }
  }

  /** A disagreement between inclusions is final; a fallback is not: the provider may come back. */
  lemma DisagreementIsFinal<F(!new)>(
      h: set<Observation<F>>, h2: set<Observation<F>>, acknowledged: bool, finality: Finality, ok: F -> bool)
    requires h <= h2 && Contradicted(h)
    ensures VerdictOf(h2, acknowledged, finality, ok) == Ambiguous
  {
    var a, b :| a in h && b in h && a.reading.Included? && b.reading.Included? && a.reading != b.reading;
    assert a in h2 && b in h2;
  }

  /** A fallback can heal: a provider that lost the inclusion and reports it again confirms it. */
  lemma FallbackMayHeal<F(!new)>(
      hit: Observation<F>, miss: Observation<F>, again: Observation<F>, acknowledged: bool, ok: F -> bool)
    requires hit.provider == miss.provider == again.provider && hit.observedAt < miss.observedAt < again.observedAt
    requires hit.reading.Included? && miss.reading.Absent? && again.reading == hit.reading && ok(hit.reading.facts)
    requires again.head == Some(hit.reading.block + 32)
    ensures VerdictOf({hit, miss}, acknowledged, Finality(32, 1), ok) == Ambiguous
    ensures VerdictOf({hit, miss, again}, acknowledged, Finality(32, 1), ok) == Confirmed
  {
    var h, h2 := {hit, miss}, {hit, miss, again};
    assert hit in h && IsLatest(h, miss);
    assert IsLatest(h2, again);
    assert forall o :: IsLatest(h2, o) ==> o == again;
    assert Providers(h2) == {again.provider};
    TerminalExactly(h2, acknowledged, Finality(32, 1), ok);
    TerminalVerdictFollowsInclusion(h2, acknowledged, Finality(32, 1), ok, hit);
  }

  // ---------------------------------------------------------------------------------
  // The evaluator
  // ---------------------------------------------------------------------------------

  datatype Expectation = Expectation(action: string, transaction: string, chain: nat, taker: string, acknowledged: bool)

  /** The conclusion, bound to the expectation. `included` is the reading the block identity,
      receipt status and amounts are copied from; `evidence` stands for the evidence digest, which
      is taken over the sorted list of observations. */
  datatype Truth<F(==)> = Truth(
    action: string, transaction: string, chain: nat, taker: string, verdict: Verdict,
    agreeing: nat, depth: nat, included: Option<Reading<F>>, evidence: multiset<Observation<F>>)

  ghost function Evidence<F(!new)>(records: seq<Observation<F>>): set<Observation<F>> {
    set o | o in records
  }

  /** The least depth over the providers. */
  ghost predicate IsDepth<F(!new)>(h: set<Observation<F>>, d: nat) {
    DeepFor(h, d) && exists o :: IsLatest(h, o) && o.reading.Included? && DepthOf(o.head, o.reading.block) == d
  }

  ghost predicate IsTruth<F(!new)>(
      e: Expectation, records: seq<Observation<F>>, finality: Finality, ok: F -> bool, t: Truth<F>)
  {
    var h := Evidence(records);
    && t.action == e.action && t.transaction == e.transaction && t.chain == e.chain && t.taker == e.taker
    && t.verdict == VerdictOf(h, e.acknowledged, finality, ok)
    && t.evidence == multiset(records)
    && t.agreeing == (if Agreed(h) then |Providers(h)| else 0)
    && (if Agreed(h) then t.included.Some? && t.included.value.Included? && exists o :: o in h && o.reading == t.included.value
        else t.included == None)
    && (if Agreed(h) && finality.minProviders <= |Providers(h)| then IsDepth(h, t.depth) else t.depth == 0)
  }

  /** What a conclusion reports besides the verdict: the number of providers of unanimous evidence, and
      the one inclusion that they all report. */
  lemma TruthReports<F(!new)>(
      e: Expectation, records: seq<Observation<F>>, finality: Finality, ok: F -> bool, t: Truth<F>)
    requires IsTruth(e, records, finality, ok, t)
    ensures var h := Evidence(records);
            && (t.included.Some? <==> Unanimous(h))
            && t.agreeing == (if Unanimous(h) then |Names(records)| else 0)
            && (t.included.Some? ==> forall o :: o in records && o.reading.Included? ==> t.included.value == o.reading)
  {
    var h := Evidence(records);
    UnanimousMeansAgreed(h);
    if Agreed(h) {
      NamesAreProviders(records);
      forall o | o in records && o.reading.Included? ensures t.included.value == o.reading {
        assert o in h;
      }
    }
  }

  /** The providers that are heard of. */
  ghost function Names<F(!new)>(records: seq<Observation<F>>): set<string> {
    set i | 0 <= i < |records| :: records[i].provider
  }

  lemma NamesAreProviders<F(!new)>(records: seq<Observation<F>>)
    ensures Names(records) == Providers(Evidence(records))
  {
    forall o | o in records ensures o.provider in Names(records) && o.provider in Providers(Evidence(records)) {
      assert o in Evidence(records);
    }
  }

  /** Every head is at least `depth` blocks above the block, and one exactly that. */
  ghost predicate LowestHeadAt<F(!new)>(h: set<Observation<F>>, block: nat, depth: nat) {
    HeadsReach(h, depth) && exists o :: LastWord(h, o) && o.head == Some(block + depth)
  }

  /** And the depth, which is the distance from that inclusion to the lowest head. */
  lemma DepthIsLowest<F(!new)>(
      e: Expectation, records: seq<Observation<F>>, finality: Finality, ok: F -> bool, t: Truth<F>)
    requires IsTruth(e, records, finality, ok, t) && 0 < t.depth
    ensures t.included.Some? && t.included.value.Included? && finality.minProviders <= t.agreeing
    ensures LowestHeadAt(Evidence(records), t.included.value.block, t.depth)
  {
    var o := DepthIsReported(e, records, finality, ok, t);
    AgreedDepth(Evidence(records), t.depth, o);
  }

  lemma DepthIsReported<F(!new)>(
      e: Expectation, records: seq<Observation<F>>, finality: Finality, ok: F -> bool, t: Truth<F>)
    returns (o: Observation<F>)
    requires IsTruth(e, records, finality, ok, t) && 0 < t.depth
    ensures Agreed(Evidence(records)) && IsDepth(Evidence(records), t.depth) && finality.minProviders <= t.agreeing
    ensures o in Evidence(records) && o.reading.Included? && t.included == Some(o.reading)
  {
    o :| o in Evidence(records) && o.reading == t.included.value;
  }

  lemma AgreedDepth<F(!new)>(h: set<Observation<F>>, depth: nat, o: Observation<F>)
    requires Agreed(h) && IsDepth(h, depth) && 0 < depth && o in h && o.reading.Included?
    ensures LowestHeadAt(h, o.reading.block, depth)
  {
    HeadsReachDepth(h, depth);
    var a := LowestHead(h, depth, o);
  }

  lemma LowestHead<F(!new)>(h: set<Observation<F>>, depth: nat, o: Observation<F>) returns (a: Observation<F>)
    requires Agreed(h) && IsDepth(h, depth) && 0 < depth && o in h && o.reading.Included?
    ensures LastWord(h, a) && a.head == Some(o.reading.block + depth)
  {
    a :| IsLatest(h, a) && a.reading.Included? && DepthOf(a.head, a.reading.block) == depth;
    assert a.reading == o.reading;
  }

  function InsertByKey<F>(o: Observation<F>, s: seq<Observation<F>>): seq<Observation<F>> {
    if s == [] || NotAfter(o, s[0]) then [o] + s else [s[0]] + InsertByKey(o, s[1..])
  }

  /** Python's `sorted` by time and digest. */
  function SortByKey<F>(s: seq<Observation<F>>): seq<Observation<F>> {
    if s == [] then [] else InsertByKey(s[0], SortByKey(s[1..]))
  }

  ghost predicate InOrder<F>(s: seq<Observation<F>>) {
    forall i, j :: 0 <= i < j < |s| ==> NotAfter(s[i], s[j])
  }

  lemma {:induction false} InsertKeeps<F(!new)>(o: Observation<F>, s: seq<Observation<F>>)
    requires InOrder(s)
    ensures InOrder(InsertByKey(o, s))
    ensures forall a :: a in InsertByKey(o, s) <==> a == o || a in s
  {
    if s != [] && !NotAfter(o, s[0]) {
      InsertKeeps(o, s[1..]);
      var r := InsertByKey(o, s[1..]);
      forall i | 0 <= i < |r| ensures NotAfter(s[0], r[i]) {
        assert r[i] in r;
      }
      assert forall a :: a in s <==> a == s[0] || a in s[1..];
    }
  }

  lemma {:induction false} SortKeeps<F(!new)>(s: seq<Observation<F>>)
    ensures InOrder(SortByKey(s))
    ensures forall a :: a in SortByKey(s) <==> a in s
  {
    if s != [] {
      SortKeeps(s[1..]);
      InsertKeeps(s[0], SortByKey(s[1..]));
      assert forall a :: a in s <==> a == s[0] || a in s[1..];
    }
  }

  /** The dictionary of latest readings, with its keys in insertion order. */
  method LatestByProvider<F(!new)>(records: seq<Observation<F>>)
      returns (latest: map<string, Observation<F>>, order: seq<string>)
    ensures latest.Keys == Providers(Evidence(records)) && latest.Keys == set p | p in order
    ensures forall i, j :: 0 <= i < j < |order| ==> order[i] != order[j]
    ensures forall p :: p in latest ==> latest[p].provider == p && IsLatest(Evidence(records), latest[p])
  {
    SortKeeps(records);
    latest, order := LastOfEach(SortByKey(records));
    assert forall a :: a in records ==> a.provider in latest && NotAfter(a, latest[a.provider]);
    assert latest.Keys == Providers(Evidence(records));
  }

  method LastOfEach<F(!new)>(sorted: seq<Observation<F>>)
      returns (latest: map<string, Observation<F>>, order: seq<string>)
    requires InOrder(sorted)
    ensures latest.Keys == set p | p in order
    ensures forall i, j :: 0 <= i < j < |order| ==> order[i] != order[j]
    ensures forall a :: a in sorted ==> a.provider in latest && NotAfter(a, latest[a.provider])
    ensures forall p :: p in latest ==> latest[p].provider == p && latest[p] in sorted
  {
    latest, order := map[], [];
    for i := 0 to |sorted|
      invariant latest.Keys == set p | p in order
      invariant forall a, b :: 0 <= a < b < |order| ==> order[a] != order[b]
      invariant forall k :: 0 <= k < i ==> sorted[k].provider in latest && NotAfter(sorted[k], latest[sorted[k].provider])
      invariant forall p :: p in latest ==> latest[p].provider == p && latest[p] in sorted
    {
      var o := sorted[i];
      if o.provider !in latest {
        order := order + [o.provider];
      }
      latest := latest[o.provider := o];
    }
  }

  /** The latest reading of every provider, in dictionary order. */
  function Values<F>(latest: map<string, Observation<F>>, order: seq<string>): (r: seq<Observation<F>>)
    requires forall p :: p in order ==> p in latest
    ensures |r| == |order| && forall i :: 0 <= i < |r| ==> r[i] == latest[order[i]]
  {
    seq(|order|, i requires 0 <= i < |order| => latest[order[i]])
  }

  lemma LatestAreTheValues<F(!new)>(
      h: set<Observation<F>>, latest: map<string, Observation<F>>, order: seq<string>, current: seq<Observation<F>>)
    requires CollisionFree(h) && latest.Keys == Providers(h) && latest.Keys == (set p | p in order)
    requires forall p :: p in latest ==> latest[p].provider == p && IsLatest(h, latest[p])
    requires current == Values(latest, order)
    ensures forall o :: IsLatest(h, o) <==> o in current
  {
    forall o ensures IsLatest(h, o) <==> o in current {
      if IsLatest(h, o) {
        LatestIsUnique(h, o, latest[o.provider]);
        var i :| 0 <= i < |order| && order[i] == o.provider;
        assert current[i] == o;
      }
    }
  }

  lemma {:induction false} DistinctCount(order: seq<string>)
    requires forall i, j :: 0 <= i < j < |order| ==> order[i] != order[j]
    ensures |set p | p in order| == |order|
  {
    if order != [] {
      var rest := order[1..];
      DistinctCount(rest);
      assert (set p | p in order) == {order[0]} + (set p | p in rest);
    }
  }

  lemma ManyFactsContradict<F(!new)>(h: set<Observation<F>>, facts: set<Reading<F>>)
    requires facts == set o | o in h && o.reading.Included? :: o.reading
    ensures 1 < |facts| <==> Contradicted(h)
  {
    if 1 < |facts| {
      var x :| x in facts;
      assert facts - {x} != {} by {
        if facts <= {x} { SubsetIsNoLarger(facts, {x}); }
      }
      var y :| y in facts - {x};
      var a :| a in h && a.reading.Included? && a.reading == x;
      var b :| b in h && b.reading.Included? && b.reading == y;
    }
    if Contradicted(h) {
      var a, b :| a in h && b in h && a.reading.Included? && b.reading.Included? && a.reading != b.reading;
      SubsetIsNoLarger({a.reading, b.reading}, facts);
    }
  }

  /** The rules that keep the evidence from settling anything; `None` when none of them applies. */
  method EarlyVerdict<F(==,!new)>(
      records: seq<Observation<F>>, current: seq<Observation<F>>, acknowledged: bool,
      ghost finality: Finality, ghost ok: F -> bool) returns (v: Option<Verdict>)
    requires forall o :: IsLatest(Evidence(records), o) <==> o in current
    ensures v.None? <==> Agreed(Evidence(records))
    ensures v.Some? ==> v.value == VerdictOf(Evidence(records), acknowledged, finality, ok)
  {
    ghost var h := Evidence(records);
    AgreedMeansNoContradiction(h);
    var factSets := set o | o in records && o.reading.Included? :: o.reading;
    assert factSets == set o | o in h && o.reading.Included? :: o.reading;
    ManyFactsContradict(h, factSets);
    if 1 < |factSets| {
      return Some(Ambiguous);
    }
    var fellBack := exists o, prior | o in current && prior in records ::
      !o.reading.Included? && prior.provider == o.provider && prior.reading.Included?;
    assert fellBack <==> FellBack(h);
    if fellBack {
      return Some(Ambiguous);
    }
    var someIncluded := exists o | o in current :: o.reading.Included?;
    var someNotIncluded := exists o | o in current :: !o.reading.Included?;
    assert someIncluded == SomeIncluded(h) && someNotIncluded == SomeNotIncluded(h);
    if someIncluded && someNotIncluded {
      return Some(Ambiguous);
    }
    if !someIncluded {
      var pending := exists o | o in records :: o.reading.Pending?;
      assert pending == SomePending(h);
      return Some(if pending then Visible else if acknowledged then Ambiguous else NoEvidence);
    }
    return None;
  }

  /** The depth below every head, by a running minimum. */
  method LeastDepth<F(!new)>(ghost h: set<Observation<F>>, current: seq<Observation<F>>) returns (depth: nat)
    requires current != [] && Agreed(h)
    requires forall o :: IsLatest(h, o) <==> o in current
    ensures IsDepth(h, depth)
  {
    assert current[0] in current;
    var block := current[0].reading.block;
    depth := DepthOf(current[0].head, block);
    ghost var at := 0;
    for i := 1 to |current|
      invariant forall k :: 0 <= k < i ==> depth <= DepthOf(current[k].head, block)
      invariant 0 <= at < i && depth == DepthOf(current[at].head, block)
    {
      var d := DepthOf(current[i].head, block);
      if d < depth {
        depth, at := d, i;
      }
    }
    assert forall o :: o in current ==> o.reading == current[0].reading;
    assert IsLatest(h, current[at]);
  }

  /** Draws the strongest conclusion the evidence supports. */
  method Evaluate<F(==,!new)>(e: Expectation, records: seq<Observation<F>>, finality: Finality, ok: F -> bool)
      returns (r: Result<Truth<F>>)
    requires CollisionFree(Evidence(records)) && finality.Valid()
    ensures r.Ok? <==> forall o :: o in records ==> o.transaction == e.transaction
    ensures r.Ok? ==> IsTruth(e, records, finality, ok, r.value)
  {
    if exists o | o in records :: o.transaction != e.transaction {
      return Refused(OutOfContract);
    }
    ghost var h := Evidence(records);
    var latest, order := LatestByProvider(records);
    var current := Values(latest, order);
    LatestAreTheValues(h, latest, order, current);
    var t := Truth(e.action, e.transaction, e.chain, e.taker, Ambiguous, 0, 0, None, multiset(records));
    var early := EarlyVerdict(records, current, e.acknowledged, finality, ok);
    if early.Some? {
      return Ok(t.(verdict := early.value));
    }
    AgreedHasLatest(h);
    var exemplar := current[0];
    assert IsLatest(h, exemplar);
    DistinctCount(order);
    t := t.(agreeing := |order|, included := Some(exemplar.reading));
    if |order| < finality.minProviders {
      AgreedVerdict(h, e.acknowledged, finality, ok);
      return Ok(t.(verdict := Visible));
    }
    var depth := LeastDepth(h, current);
    t := t.(depth := depth);
    ConclusionAt(h, e.acknowledged, finality, ok, exemplar, depth);
    if depth < finality.minDepth {
      return Ok(t.(verdict := InBlock));
    }
    return Ok(t.(verdict := if ok(exemplar.reading.facts) then Confirmed else Reverted));
  }

  lemma AgreedHasLatest<F(!new)>(h: set<Observation<F>>)
    requires Agreed(h)
    ensures exists o :: IsLatest(h, o) && o.reading.Included?
  {
    AgreedMeansNoContradiction(h);
  }

  lemma ConclusionAt<F(!new)>(
      h: set<Observation<F>>, acknowledged: bool, finality: Finality, ok: F -> bool, o: Observation<F>, depth: nat)
    requires Agreed(h) && finality.minProviders <= |Providers(h)| && IsLatest(h, o) && IsDepth(h, depth)
    ensures VerdictOf(h, acknowledged, finality, ok)
         == if depth < finality.minDepth then InBlock else if ok(o.reading.facts) then Confirmed else Reverted
  {
    AgreedMeansNoContradiction(h);
    if depth < finality.minDepth {
      var a :| IsLatest(h, a) && a.reading.Included? && DepthOf(a.head, a.reading.block) == depth;
      assert !DeepFor(h, finality.minDepth);
    } else {
      assert DeepFor(h, finality.minDepth);
      TerminalVerdictFollowsInclusion(h, acknowledged, finality, ok, o);
    }
  }

  /** The same evidence in any order, repeated readings aside, gives the same verdict and the same
      reported facts; a rearrangement gives the same conclusion altogether. */
  lemma OrderDoesNotMatter<F(!new)>(
      e: Expectation, r1: seq<Observation<F>>, r2: seq<Observation<F>>, finality: Finality, ok: F -> bool,
      t1: Truth<F>, t2: Truth<F>)
    requires Evidence(r1) == Evidence(r2)
    requires IsTruth(e, r1, finality, ok, t1) && IsTruth(e, r2, finality, ok, t2)
    ensures t1 == t2.(evidence := t1.evidence)
    ensures multiset(r1) == multiset(r2) ==> t1 == t2
  {
  }

  /** Block, status and amounts, once reported, are reported unchanged from every extension that
      reports any. */
  lemma ReportedFactsNeverChange<F(!new)>(
      e1: Expectation, e2: Expectation, r1: seq<Observation<F>>, r2: seq<Observation<F>>, finality: Finality,
      ok: F -> bool, t1: Truth<F>, t2: Truth<F>)
    requires Evidence(r1) <= Evidence(r2)
    requires IsTruth(e1, r1, finality, ok, t1) && IsTruth(e2, r2, finality, ok, t2)
    requires t1.included.Some? && t2.included.Some?
    ensures t1.included == t2.included
  {
    var o :| o in Evidence(r1) && o.reading == t1.included.value;
    assert o in Evidence(r2);
  }
}
