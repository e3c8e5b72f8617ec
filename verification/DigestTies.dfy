/** When the digests that break ties between readings of one second can change a verdict.

    A view of a history maps its readings to readings that report the same, in the facts that another
    evaluator looks at and under digests of their own. */
module DigestTies {
  import opened ChainTruth

  function Mapped<F, G>(r: Reading<F>, g: F -> G): Reading<G> {
    match r
    case Absent => Absent
    case Pending => Pending
    case Included(block, facts) => Included(block, g(facts))
  }

  ghost predicate Projects<F(!new), G(!new)>(o: Observation<F>, g: F -> G, a: Observation<G>) {
    && a.provider == o.provider && a.observedAt == o.observedAt
    && a.head == o.head && a.reading == Mapped(o.reading, g)
  }

  ghost predicate IsView<F(!new), G(!new)>(h: set<Observation<F>>, g: F -> G, view: Observation<F> -> Observation<G>) {
    forall o :: o in h ==> Projects(o, g, view(o))
  }

  ghost function Image<F(!new), G(!new)>(h: set<Observation<F>>, view: Observation<F> -> Observation<G>): set<Observation<G>> {
    set o | o in h :: view(o)
  }

  /** Two inclusions that differ, but not in the facts that `g` keeps. */
  ghost predicate Merges<F(!new), G(!new)>(h: set<Observation<F>>, g: F -> G) {
    exists a, b :: a in h && b in h && a.reading.Included? && b.reading.Included?
      && a.reading != b.reading && Mapped(a.reading, g) == Mapped(b.reading, g)
  }

  // ---------------------------------------------------------------------------------
  // What no digest decides
  // ---------------------------------------------------------------------------------

  /** No reading of the same provider is of a later second. */
  ghost predicate InLastSecond<F(!new)>(h: set<Observation<F>>, o: Observation<F>) {
    o in h && forall a :: a in h && a.provider == o.provider ==> a.observedAt <= o.observedAt
  }

  ghost predicate HasInclusion<F(!new)>(h: set<Observation<F>>) {
    exists o :: o in h && o.reading.Included?
  }

  /** A provider reports no inclusion in its last second. */
  ghost predicate EndsWithout<F(!new)>(h: set<Observation<F>>, provider: string) {
    forall a :: InLastSecond(h, a) && a.provider == provider ==> !a.reading.Included?
  }

  ghost predicate SomeoneEndsWithout<F(!new)>(h: set<Observation<F>>) {
    exists o :: o in h && EndsWithout(h, o.provider)
  }

  ghost predicate AllEndIncluded<F(!new)>(h: set<Observation<F>>) {
    forall o :: InLastSecond(h, o) ==> o.reading.Included?
  }

  predicate IsDeep<F>(o: Observation<F>, depth: nat) {
    o.reading.Included? && depth <= DepthOf(o.head, o.reading.block)
  }

  ghost predicate AllEndDeep<F(!new)>(h: set<Observation<F>>, depth: nat) {
    forall o :: InLastSecond(h, o) ==> IsDeep(o, depth)
  }

  /** A provider has no deep inclusion in its last second. */
  ghost predicate EndsShallow<F(!new)>(h: set<Observation<F>>, provider: string, depth: nat) {
    forall a :: InLastSecond(h, a) && a.provider == provider ==> !IsDeep(a, depth)
  }

  ghost predicate SomeoneEndsShallow<F(!new)>(h: set<Observation<F>>, depth: nat) {
    exists o :: o in h && EndsShallow(h, o.provider, depth)
  }

  /** The ties of a history decide nothing: its inclusions contradict each other, or there are none, or
      some provider certainly ends without one; or all certainly end with one, and there are too few
      providers, or the heads are certainly deep enough, or one certainly is not. */
  ghost predicate TiesAreHarmless<F(!new)>(h: set<Observation<F>>, finality: Finality) {
    || Contradicted(h) || !HasInclusion(h) || SomeoneEndsWithout(h)
    || (AllEndIncluded(h) &&
        (|Providers(h)| < finality.minProviders || AllEndDeep(h, finality.minDepth) || SomeoneEndsShallow(h, finality.minDepth)))
  }

  lemma LatestIsInLastSecond<F(!new)>(h: set<Observation<F>>, o: Observation<F>)
    requires IsLatest(h, o)
    ensures InLastSecond(h, o)
  {
  }

  lemma EndsWithoutIsAmbiguous<F(!new)>(h: set<Observation<F>>, acknowledged: bool, finality: Finality, ok: F -> bool)
    requires HasInclusion(h) && SomeoneEndsWithout(h)
    ensures VerdictOf(h, acknowledged, finality, ok) == Ambiguous
  {
    var o :| o in h && EndsWithout(h, o.provider);
    var q := LatestExists(h, o.provider);
    LatestIsInLastSecond(h, q);
    InclusionPersists(h, acknowledged, finality, ok);
  }

  function EndVerdict(few: bool, deep: bool, good: bool): Verdict {
    if few then Visible else if !deep then InBlock else if good then Confirmed else Reverted
  }

  /** Where all end included, the verdict is told by the depth that the latest readings give. */
  lemma EndsIncludedVerdict<F(!new)>(
      h: set<Observation<F>>, acknowledged: bool, finality: Finality, ok: F -> bool, o: Observation<F>)
    requires !Contradicted(h) && AllEndIncluded(h) && o in h && o.reading.Included?
    ensures VerdictOf(h, acknowledged, finality, ok)
         == EndVerdict(|Providers(h)| < finality.minProviders, DeepFor(h, finality.minDepth), ok(o.reading.facts))
  {
    forall q | IsLatest(h, q) ensures q.reading.Included? {
      LatestIsInLastSecond(h, q);
    }
    assert Agreed(h);
    AgreedVerdict(h, acknowledged, finality, ok);
    TerminalExactly(h, acknowledged, finality, ok);
    TerminalVerdictFollowsInclusion(h, acknowledged, finality, ok, o);
  }

  lemma DepthOfEnds<F(!new)>(h: set<Observation<F>>, depth: nat)
    requires AllEndIncluded(h)
    ensures AllEndDeep(h, depth) ==> DeepFor(h, depth)
    ensures SomeoneEndsShallow(h, depth) ==> !DeepFor(h, depth)
  {
    forall q | IsLatest(h, q) ensures InLastSecond(h, q) {
      LatestIsInLastSecond(h, q);
    }
    if SomeoneEndsShallow(h, depth) {
      var o :| o in h && EndsShallow(h, o.provider, depth);
      var q := LatestExists(h, o.provider);
    }
  }

  // ---------------------------------------------------------------------------------
  // A view keeps what no digest decides
  // ---------------------------------------------------------------------------------

  lemma ViewOf<F(!new), G(!new)>(h: set<Observation<F>>, g: F -> G, view: Observation<F> -> Observation<G>, o: Observation<F>)
    requires IsView(h, g, view) && o in h
    ensures view(o) in Image(h, view) && Projects(o, g, view(o))
  {
  }

  lemma ViewKeepsLastSecond<F(!new), G(!new)>(
      h: set<Observation<F>>, g: F -> G, view: Observation<F> -> Observation<G>, o: Observation<F>)
    requires IsView(h, g, view) && o in h
    ensures InLastSecond(Image(h, view), view(o)) <==> InLastSecond(h, o)
  {
    ViewOf(h, g, view, o);
    if InLastSecond(Image(h, view), view(o)) {
      forall a | a in h && a.provider == o.provider ensures a.observedAt <= o.observedAt {
        ViewOf(h, g, view, a);
      }
    }
  }

  lemma ViewKeepsProviders<F(!new), G(!new)>(h: set<Observation<F>>, g: F -> G, view: Observation<F> -> Observation<G>)
    requires IsView(h, g, view)
    ensures Providers(Image(h, view)) == Providers(h)
  {
    forall o | o in h ensures o.provider in Providers(Image(h, view)) {
      ViewOf(h, g, view, o);
    }
  }

  lemma ViewKeepsPresence<F(!new), G(!new)>(h: set<Observation<F>>, g: F -> G, view: Observation<F> -> Observation<G>)
    requires IsView(h, g, view)
    ensures HasInclusion(Image(h, view)) == HasInclusion(h) && SomePending(Image(h, view)) == SomePending(h)
  {
    forall o | o in h ensures view(o) in Image(h, view) && Projects(o, g, view(o)) {
      ViewOf(h, g, view, o);
    }
  }

  /** The view contradicts itself exactly when the history does, unless it hides the difference. */
  lemma ViewKeepsContradiction<F(!new), G(!new)>(h: set<Observation<F>>, g: F -> G, view: Observation<F> -> Observation<G>)
    requires IsView(h, g, view)
    ensures Contradicted(Image(h, view)) ==> Contradicted(h)
    ensures Contradicted(h) ==> Contradicted(Image(h, view)) || Merges(h, g)
    ensures Merges(h, g) ==> Contradicted(h)
  {
    forall o | o in h ensures view(o) in Image(h, view) && Projects(o, g, view(o)) {
      ViewOf(h, g, view, o);
    }
  }

  /** Every last reading of a view is the view of one. */
  lemma LastSecondBehind<F(!new), G(!new)>(
      h: set<Observation<F>>, g: F -> G, view: Observation<F> -> Observation<G>, q: Observation<G>)
    returns (o: Observation<F>)
    requires IsView(h, g, view) && InLastSecond(Image(h, view), q)
    ensures InLastSecond(h, o) && q == view(o) && Projects(o, g, q)
  {
    o :| o in h && q == view(o);
    ViewKeepsLastSecond(h, g, view, o);
  }

  lemma ViewKeepsEndsWithout<F(!new), G(!new)>(h: set<Observation<F>>, g: F -> G, view: Observation<F> -> Observation<G>)
    requires IsView(h, g, view) && SomeoneEndsWithout(h)
    ensures SomeoneEndsWithout(Image(h, view))
  {
    var o :| o in h && EndsWithout(h, o.provider);
    ViewOf(h, g, view, o);
    forall q | InLastSecond(Image(h, view), q) && q.provider == o.provider ensures !q.reading.Included? {
      var a := LastSecondBehind(h, g, view, q);
    }
    assert EndsWithout(Image(h, view), view(o).provider);
  }

  lemma ViewKeepsEndsIncluded<F(!new), G(!new)>(h: set<Observation<F>>, g: F -> G, view: Observation<F> -> Observation<G>)
    requires IsView(h, g, view) && AllEndIncluded(h)
    ensures AllEndIncluded(Image(h, view))
  {
    forall q | InLastSecond(Image(h, view), q) ensures q.reading.Included? {
      var a := LastSecondBehind(h, g, view, q);
    }
  }

  lemma ViewKeepsEndsDeep<F(!new), G(!new)>(
      h: set<Observation<F>>, g: F -> G, view: Observation<F> -> Observation<G>, depth: nat)
    requires IsView(h, g, view) && AllEndDeep(h, depth)
    ensures AllEndDeep(Image(h, view), depth)
  {
    forall q | InLastSecond(Image(h, view), q) ensures IsDeep(q, depth) {
      var a := LastSecondBehind(h, g, view, q);
    }
  }

  lemma ViewKeepsEndsShallow<F(!new), G(!new)>(
      h: set<Observation<F>>, g: F -> G, view: Observation<F> -> Observation<G>, depth: nat)
    requires IsView(h, g, view) && SomeoneEndsShallow(h, depth)
    ensures SomeoneEndsShallow(Image(h, view), depth)
  {
    var o :| o in h && EndsShallow(h, o.provider, depth);
    ViewOf(h, g, view, o);
    forall q | InLastSecond(Image(h, view), q) && q.provider == o.provider ensures !IsDeep(q, depth) {
      var a := LastSecondBehind(h, g, view, q);
    }
    assert EndsShallow(Image(h, view), view(o).provider, depth);
  }

  /** A harmless history has the verdict of each of its views. */
  lemma HarmlessIsKept<F(!new), G(!new)>(
      h: set<Observation<F>>, g: F -> G, view: Observation<F> -> Observation<G>,
      acknowledged: bool, finality: Finality, ok: F -> bool, accept: G -> bool)
    requires IsView(h, g, view) && !Contradicted(h) && TiesAreHarmless(h, finality)
    requires forall f :: accept(g(f)) == ok(f)
    ensures VerdictOf(h, acknowledged, finality, ok) == VerdictOf(Image(h, view), acknowledged, finality, accept)
  {
    var seen := Image(h, view);
    ViewKeepsPresence(h, g, view);
    if !HasInclusion(h) {
      WithoutInclusion(h, acknowledged, finality, ok);
      WithoutInclusion(seen, acknowledged, finality, accept);
    } else if SomeoneEndsWithout(h) {
      ViewKeepsEndsWithout(h, g, view);
      EndsWithoutIsAmbiguous(h, acknowledged, finality, ok);
      EndsWithoutIsAmbiguous(seen, acknowledged, finality, accept);
    } else {
      if AllEndDeep(h, finality.minDepth) || SomeoneEndsShallow(h, finality.minDepth) {
        ViewKeepsDepth(h, g, view, finality);
      }
      var o :| o in h && o.reading.Included?;
      EndsIncludedVerdict(h, acknowledged, finality, ok, o);
      EndsIncludedView(h, g, view, o, acknowledged, finality, accept);
    }
  }

  /** Where all end included, a view has the verdict of the history, but for the depth it shows. */
  lemma EndsIncludedView<F(!new), G(!new)>(
      h: set<Observation<F>>, g: F -> G, view: Observation<F> -> Observation<G>, o: Observation<F>,
      acknowledged: bool, finality: Finality, accept: G -> bool)
    requires IsView(h, g, view) && !Contradicted(h) && AllEndIncluded(h) && o in h && o.reading.Included?
    ensures VerdictOf(Image(h, view), acknowledged, finality, accept)
         == EndVerdict(|Providers(h)| < finality.minProviders, DeepFor(Image(h, view), finality.minDepth),
                       accept(g(o.reading.facts)))
  {
    ViewOf(h, g, view, o);
    ViewKeepsContradiction(h, g, view);
    ViewKeepsEndsIncluded(h, g, view);
    ViewKeepsProviders(h, g, view);
    EndsIncludedVerdict(Image(h, view), acknowledged, finality, accept, view(o));
  }

  lemma ViewKeepsDepth<F(!new), G(!new)>(
      h: set<Observation<F>>, g: F -> G, view: Observation<F> -> Observation<G>, finality: Finality)
    requires IsView(h, g, view) && AllEndIncluded(h)
    requires AllEndDeep(h, finality.minDepth) || SomeoneEndsShallow(h, finality.minDepth)
    ensures DeepFor(h, finality.minDepth) == DeepFor(Image(h, view), finality.minDepth)
  {
    var depth := finality.minDepth;
    ViewKeepsEndsIncluded(h, g, view);
    DepthOfEnds(h, depth);
    DepthOfEnds(Image(h, view), depth);
    if AllEndDeep(h, depth) {
      ViewKeepsEndsDeep(h, g, view, depth);
    } else {
      ViewKeepsEndsShallow(h, g, view, depth);
    }
  }

  // ---------------------------------------------------------------------------------
  // Digests that favour some readings
  // ---------------------------------------------------------------------------------

  /** A view under digests that sort the readings which `favoured` picks behind the others. */
  function Favouring<F, G>(g: F -> G, favoured: Observation<F> -> bool, bound: nat): Observation<F> -> Observation<G> {
    (o: Observation<F>) =>
      Observation(o.provider, o.transaction, o.observedAt, o.id + (if favoured(o) then bound else 0), Mapped(o.reading, g), o.head)
  }

  ghost predicate Bounds<F(!new)>(h: set<Observation<F>>, bound: nat) {
    forall o :: o in h ==> o.id < bound
  }

  lemma {:induction false} DigestBound<F(!new)>(h: set<Observation<F>>) returns (bound: nat)
    ensures Bounds(h, bound)
    decreases h
  {
    bound := 0;
    if o :| o in h {
      var rest := DigestBound(h - {o});
      bound := rest + o.id + 1;
      assert forall a :: a in h && a != o ==> a in h - {o};
    }
  }

  lemma FavouringIsView<F(!new), G(!new)>(h: set<Observation<F>>, g: F -> G, favoured: Observation<F> -> bool, bound: nat)
    requires CollisionFree(h) && Bounds(h, bound)
    ensures IsView(h, g, Favouring(g, favoured, bound)) && CollisionFree(Image(h, Favouring(g, favoured, bound)))
  {
  }

  /** In such a view a provider with a favoured reading in its last second is held to one. */
  lemma FavouredIsLatest<F(!new), G(!new)>(
      h: set<Observation<F>>, g: F -> G, favoured: Observation<F> -> bool, bound: nat, q: Observation<G>, a: Observation<F>)
    returns (o: Observation<F>)
    requires CollisionFree(h) && Bounds(h, bound)
    requires IsLatest(Image(h, Favouring(g, favoured, bound)), q)
    requires InLastSecond(h, a) && a.provider == q.provider && favoured(a)
    ensures o in h && q == Favouring(g, favoured, bound)(o) && favoured(o) && InLastSecond(h, o)
  {
    var view := Favouring(g, favoured, bound);
    o :| o in h && q == view(o);
    FavouringIsView(h, g, favoured, bound);
    ViewOf(h, g, view, a);
    assert NotAfter(view(a), q);
  }

  lemma HeldToFavoured<F(!new), G(!new)>(
      h: set<Observation<F>>, g: F -> G, favoured: Observation<F> -> bool, bound: nat, a: Observation<F>)
    returns (q: Observation<G>, o: Observation<F>)
    requires CollisionFree(h) && Bounds(h, bound) && InLastSecond(h, a) && favoured(a)
    ensures IsLatest(Image(h, Favouring(g, favoured, bound)), q) && q.provider == a.provider
    ensures o in h && q == Favouring(g, favoured, bound)(o) && favoured(o)
  {
    var view := Favouring(g, favoured, bound);
    FavouringIsView(h, g, favoured, bound);
    ViewOf(h, g, view, a);
    q := LatestExists(Image(h, view), a.provider);
    o := FavouredIsLatest(h, g, favoured, bound, q, a);
  }

  /** Favouring the inclusions, no provider falls back. */
  lemma FavouringInclusionsAgrees<F(!new), G(!new)>(
      h: set<Observation<F>>, g: F -> G, favoured: Observation<F> -> bool, bound: nat)
    requires forall o :: favoured(o) == o.reading.Included?
    requires CollisionFree(h) && Bounds(h, bound)
    requires !Contradicted(h) && HasInclusion(h) && !SomeoneEndsWithout(h)
    ensures Agreed(Image(h, Favouring(g, favoured, bound)))
  {
    var view := Favouring(g, favoured, bound);
    FavouringIsView(h, g, favoured, bound);
    ViewKeepsContradiction(h, g, view);
    ViewKeepsPresence(h, g, view);
    forall q | IsLatest(Image(h, view), q) ensures q.reading.Included? {
      var a := EndsWith(h, g, view, q);
      var o := FavouredIsLatest(h, g, favoured, bound, q, a);
    }
  }

  lemma EndsWith<F(!new), G(!new)>(
      h: set<Observation<F>>, g: F -> G, view: Observation<F> -> Observation<G>, q: Observation<G>)
    returns (a: Observation<F>)
    requires IsView(h, g, view) && q in Image(h, view) && !SomeoneEndsWithout(h)
    ensures InLastSecond(h, a) && a.provider == q.provider && a.reading.Included?
  {
    var back :| back in h && q == view(back);
    assert !EndsWithout(h, back.provider);
    a :| InLastSecond(h, a) && a.provider == back.provider && a.reading.Included?;
  }

  lemma EndsDeep<F(!new), G(!new)>(
      h: set<Observation<F>>, g: F -> G, view: Observation<F> -> Observation<G>, q: Observation<G>, depth: nat)
    returns (a: Observation<F>)
    requires IsView(h, g, view) && q in Image(h, view) && !SomeoneEndsShallow(h, depth)
    ensures InLastSecond(h, a) && a.provider == q.provider && IsDeep(a, depth)
  {
    var back :| back in h && q == view(back);
    assert !EndsShallow(h, back.provider, depth);
    a :| InLastSecond(h, a) && a.provider == back.provider && IsDeep(a, depth);
  }

  /** Favouring the rest, a provider that ends with both falls back. */
  lemma FavouringMissesFallsBack<F(!new), G(!new)>(
      h: set<Observation<F>>, g: F -> G, favoured: Observation<F> -> bool, bound: nat)
    requires forall o :: favoured(o) == !o.reading.Included?
    requires CollisionFree(h) && Bounds(h, bound) && !SomeoneEndsWithout(h) && !AllEndIncluded(h)
    ensures FellBack(Image(h, Favouring(g, favoured, bound)))
  {
    var miss :| InLastSecond(h, miss) && !miss.reading.Included?;
    assert !EndsWithout(h, miss.provider);
    var hit :| InLastSecond(h, hit) && hit.provider == miss.provider && hit.reading.Included?;
    FavouredFallsBack(h, g, favoured, bound, hit, miss);
  }

  lemma FavouredFallsBack<F(!new), G(!new)>(
      h: set<Observation<F>>, g: F -> G, favoured: Observation<F> -> bool, bound: nat, hit: Observation<F>, miss: Observation<F>)
    requires forall o :: favoured(o) == !o.reading.Included?
    requires CollisionFree(h) && Bounds(h, bound) && InLastSecond(h, miss) && !miss.reading.Included?
    requires hit in h && hit.provider == miss.provider && hit.reading.Included?
    ensures FellBack(Image(h, Favouring(g, favoured, bound)))
  {
    var view := Favouring(g, favoured, bound);
    FavouringIsView(h, g, favoured, bound);
    var q, o := HeldToFavoured(h, g, favoured, bound, miss);
    ViewOf(h, g, view, hit);
    ViewOf(h, g, view, o);
    FallenBack(Image(h, view), view(hit), q);
  }

  lemma FallenBack<F(!new)>(h: set<Observation<F>>, hit: Observation<F>, q: Observation<F>)
    requires hit in h && hit.reading.Included? && IsLatest(h, q) && q.provider == hit.provider && !q.reading.Included?
    ensures FellBack(h)
  {
  }

  lemma FellBackIsAmbiguous<F(!new)>(h: set<Observation<F>>, acknowledged: bool, finality: Finality, ok: F -> bool)
    requires FellBack(h)
    ensures VerdictOf(h, acknowledged, finality, ok) == Ambiguous
  {
  }

  lemma FavouringDeepIsDeep<F(!new), G(!new)>(
      h: set<Observation<F>>, g: F -> G, favoured: Observation<F> -> bool, bound: nat, depth: nat)
    requires forall o :: favoured(o) == IsDeep(o, depth)
    requires CollisionFree(h) && Bounds(h, bound) && !SomeoneEndsShallow(h, depth)
    ensures DeepFor(Image(h, Favouring(g, favoured, bound)), depth)
  {
    var view := Favouring(g, favoured, bound);
    FavouringIsView(h, g, favoured, bound);
    forall q | IsLatest(Image(h, view), q) && q.reading.Included? ensures depth <= DepthOf(q.head, q.reading.block) {
      var a := EndsDeep(h, g, view, q, depth);
      var o := FavouredIsLatest(h, g, favoured, bound, q, a);
    }
  }

  lemma FavouringShallowIsShallow<F(!new), G(!new)>(
      h: set<Observation<F>>, g: F -> G, favoured: Observation<F> -> bool, bound: nat, depth: nat)
    requires forall o :: favoured(o) == !IsDeep(o, depth)
    requires CollisionFree(h) && Bounds(h, bound) && AllEndIncluded(h) && !AllEndDeep(h, depth)
    ensures !DeepFor(Image(h, Favouring(g, favoured, bound)), depth)
  {
    var a :| InLastSecond(h, a) && !IsDeep(a, depth);
    var q, o := HeldToFavoured(h, g, favoured, bound, a);
  }

  // ---------------------------------------------------------------------------------
  // The exact condition
  // ---------------------------------------------------------------------------------

  /** Some two views of a history with harmful ties have different verdicts. */
  lemma HarmIsVisible<F(!new), G(!new)>(
      h: set<Observation<F>>, g: F -> G, acknowledged: bool, finality: Finality, accept: G -> bool)
    returns (one: Observation<F> -> Observation<G>, other: Observation<F> -> Observation<G>)
    requires CollisionFree(h) && !TiesAreHarmless(h, finality)
    ensures IsView(h, g, one) && CollisionFree(Image(h, one))
    ensures IsView(h, g, other) && CollisionFree(Image(h, other))
    ensures VerdictOf(Image(h, one), acknowledged, finality, accept) != VerdictOf(Image(h, other), acknowledged, finality, accept)
  {
    var bound := DigestBound(h);
    if !AllEndIncluded(h) {
      one := AgreedView(h, g, bound, acknowledged, finality, accept);
      other := FallenBackView(h, g, bound, acknowledged, finality, accept);
    } else {
      var o :| o in h && o.reading.Included?;
      one := DeepView(h, g, bound, o, acknowledged, finality, accept);
      other := ShallowView(h, g, bound, o, acknowledged, finality, accept);
    }
  }

  lemma AgreedView<F(!new), G(!new)>(
      h: set<Observation<F>>, g: F -> G, bound: nat, acknowledged: bool, finality: Finality, accept: G -> bool)
    returns (view: Observation<F> -> Observation<G>)
    requires CollisionFree(h) && Bounds(h, bound) && !Contradicted(h) && HasInclusion(h) && !SomeoneEndsWithout(h)
    ensures IsView(h, g, view) && CollisionFree(Image(h, view))
    ensures VerdictOf(Image(h, view), acknowledged, finality, accept) != Ambiguous
  {
    var hits := (o: Observation<F>) => o.reading.Included?;
    view := Favouring(g, hits, bound);
    FavouringIsView(h, g, hits, bound);
    FavouringInclusionsAgrees(h, g, hits, bound);
    AgreedVerdict(Image(h, view), acknowledged, finality, accept);
  }

  lemma FallenBackView<F(!new), G(!new)>(
      h: set<Observation<F>>, g: F -> G, bound: nat, acknowledged: bool, finality: Finality, accept: G -> bool)
    returns (view: Observation<F> -> Observation<G>)
    requires CollisionFree(h) && Bounds(h, bound) && !SomeoneEndsWithout(h) && !AllEndIncluded(h)
    ensures IsView(h, g, view) && CollisionFree(Image(h, view))
    ensures VerdictOf(Image(h, view), acknowledged, finality, accept) == Ambiguous
  {
    var misses := (o: Observation<F>) => !o.reading.Included?;
    view := Favouring(g, misses, bound);
    FavouringIsView(h, g, misses, bound);
    FavouringMissesFallsBack(h, g, misses, bound);
    FellBackIsAmbiguous(Image(h, view), acknowledged, finality, accept);
  }

  lemma DeepView<F(!new), G(!new)>(
      h: set<Observation<F>>, g: F -> G, bound: nat, o: Observation<F>,
      acknowledged: bool, finality: Finality, accept: G -> bool)
    returns (view: Observation<F> -> Observation<G>)
    requires CollisionFree(h) && Bounds(h, bound) && !Contradicted(h) && AllEndIncluded(h) && o in h && o.reading.Included?
    requires finality.minProviders <= |Providers(h)| && !SomeoneEndsShallow(h, finality.minDepth)
    ensures IsView(h, g, view) && CollisionFree(Image(h, view))
    ensures VerdictOf(Image(h, view), acknowledged, finality, accept) != InBlock
  {
    var depth := finality.minDepth;
    var deep := (o: Observation<F>) => IsDeep(o, depth);
    view := Favouring(g, deep, bound);
    FavouringIsView(h, g, deep, bound);
    FavouringDeepIsDeep(h, g, deep, bound, depth);
    EndsIncludedView(h, g, view, o, acknowledged, finality, accept);
  }

  lemma ShallowView<F(!new), G(!new)>(
      h: set<Observation<F>>, g: F -> G, bound: nat, o: Observation<F>,
      acknowledged: bool, finality: Finality, accept: G -> bool)
    returns (view: Observation<F> -> Observation<G>)
    requires CollisionFree(h) && Bounds(h, bound) && !Contradicted(h) && AllEndIncluded(h) && o in h && o.reading.Included?
    requires finality.minProviders <= |Providers(h)| && !AllEndDeep(h, finality.minDepth)
    ensures IsView(h, g, view) && CollisionFree(Image(h, view))
    ensures VerdictOf(Image(h, view), acknowledged, finality, accept) == InBlock
  {
    var depth := finality.minDepth;
    var shallow := (o: Observation<F>) => !IsDeep(o, depth);
    view := Favouring(g, shallow, bound);
    FavouringIsView(h, g, shallow, bound);
    FavouringShallowIsShallow(h, g, shallow, bound, depth);
    EndsIncludedView(h, g, view, o, acknowledged, finality, accept);
  }

  /** The verdict of a view, or ambiguity where the view hides a difference between inclusions. */
  ghost predicate AgreesWithView<F(!new), G(!new)>(
      h: set<Observation<F>>, g: F -> G, view: Observation<F> -> Observation<G>,
      acknowledged: bool, finality: Finality, ok: F -> bool, accept: G -> bool)
  {
    VerdictOf(h, acknowledged, finality, ok)
    == if Merges(h, g) then Ambiguous else VerdictOf(Image(h, view), acknowledged, finality, accept)
  }

  lemma HarmlessAgrees<F(!new), G(!new)>(
      h: set<Observation<F>>, g: F -> G, view: Observation<F> -> Observation<G>,
      acknowledged: bool, finality: Finality, ok: F -> bool, accept: G -> bool)
    requires IsView(h, g, view) && TiesAreHarmless(h, finality)
    requires forall f :: accept(g(f)) == ok(f)
    ensures AgreesWithView(h, g, view, acknowledged, finality, ok, accept)
  {
    ViewKeepsContradiction(h, g, view);
    if !Contradicted(h) {
      HarmlessIsKept(h, g, view, acknowledged, finality, ok, accept);
    }
  }

  /** A history agrees with all of its views, whatever their digests, exactly when its ties are
      harmless. */
  lemma AgreesExactlyWhenHarmless<F(!new), G(!new)>(
      h: set<Observation<F>>, g: F -> G, acknowledged: bool, finality: Finality, ok: F -> bool, accept: G -> bool)
    requires CollisionFree(h) && forall f :: accept(g(f)) == ok(f)
    ensures (forall view :: IsView(h, g, view) && CollisionFree(Image(h, view)) ==>
               AgreesWithView(h, g, view, acknowledged, finality, ok, accept))
       <==> TiesAreHarmless(h, finality)
  {
    if TiesAreHarmless(h, finality) {
      forall view | IsView(h, g, view) && CollisionFree(Image(h, view))
        ensures AgreesWithView(h, g, view, acknowledged, finality, ok, accept)
      {
        HarmlessAgrees(h, g, view, acknowledged, finality, ok, accept);
      }
    } else {
      var one, other := HarmIsVisible(h, g, acknowledged, finality, accept);
      ViewKeepsContradiction(h, g, one);
    }
  }

  /** The verdict of a history does not depend on the digests of its readings at all, exactly when its
      ties are harmless. */
  lemma DigestsDecideNothingExactly<F(!new)>(h: set<Observation<F>>, acknowledged: bool, finality: Finality, ok: F -> bool)
    requires CollisionFree(h)
    ensures (forall view :: IsView(h, (f: F) => f, view) && CollisionFree(Image(h, view)) ==>
               VerdictOf(Image(h, view), acknowledged, finality, ok) == VerdictOf(h, acknowledged, finality, ok))
       <==> TiesAreHarmless(h, finality)
  {
    var same := (f: F) => f;
    AgreesExactlyWhenHarmless(h, same, acknowledged, finality, ok, ok);
    forall view {:trigger Image(h, view)} | true
      ensures AgreesWithView(h, same, view, acknowledged, finality, ok, ok)
         <==> VerdictOf(Image(h, view), acknowledged, finality, ok) == VerdictOf(h, acknowledged, finality, ok)
    {
      MergesNothing(h, same);
    }
  }

  lemma MergesNothing<F(!new)>(h: set<Observation<F>>, same: F -> F)
    requires forall f :: same(f) == f
    ensures !Merges(h, same)
  {
  }
}
