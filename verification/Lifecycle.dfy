/** The lifecycle of an economic action, the one path from chain truth to a receipt, and when
    capital may be released. */
module Lifecycle {

  import opened Outcomes
  import opened ChainTruth
  import opened Domain

  datatype State =
    | Armed | Triggered | QuotePinned | Simulated | Reserved
    | Signed | Submitted | InChain | ConfirmedState | Reconciled | Filled
    | Cancelled | Expired | Rejected | Halted

  function Transitions(s: State): set<State> {
    match s
    case Armed => {Triggered, Cancelled, Expired, Rejected, Halted}
    case Triggered => {QuotePinned, Cancelled, Expired, Rejected, Halted}
    case QuotePinned => {Simulated, Cancelled, Expired, Rejected, Halted}
    case Simulated => {Reserved, Cancelled, Expired, Rejected, Halted}
    case Reserved => {Signed, InChain, Cancelled, Expired, Rejected, Halted}
    case Signed => {Submitted, Rejected, Halted}
    case Submitted => {InChain, Rejected, Halted}
    case InChain => {ConfirmedState, Rejected, Halted}
    case ConfirmedState => {Reconciled, Halted}
    case Reconciled => {Filled, Halted}
    case _ => {}
  }

  const PRE_COMMITMENT: set<State> := {Armed, Triggered, QuotePinned, Simulated, Reserved}

  const EXTERNALLY_AMBIGUOUS: set<State> := {Signed, Submitted, InChain, ConfirmedState}

  /** The state a verdict justifies. */
  function NextState(v: Verdict): Option<State> {
    match v
    case NoEvidence => None
    case Visible => None
    case InBlock => Some(InChain)
    case Confirmed => Some(ConfirmedState)
    case Reverted => Some(Rejected)
    case Ambiguous => Some(Halted)
  }

  /** How far along the way to a fill a state is; the five ends of a life are not on it. */
  function Rank(s: State): Option<nat> {
    match s
    case Armed => Some(0)
    case Triggered => Some(1)
    case QuotePinned => Some(2)
    case Simulated => Some(3)
    case Reserved => Some(4)
    case Signed => Some(5)
    case Submitted => Some(6)
    case InChain => Some(7)
    case ConfirmedState => Some(8)
    case Reconciled => Some(9)
    case _ => None
  }

  /** A step leads to the next state on the way, and only what was found on chain may skip the signing; giving up
      ends before the signing, a rejection before the confirmation, and a halt is possible until the end. */
  lemma TableExactly(s: State, t: State)
    ensures t in Transitions(s) <==>
              && Rank(s).Some?
              && (if Rank(t).Some? then Rank(t).value == Rank(s).value + 1 || (Rank(s).value == 4 && Rank(t).value == 7)
                  else match t
                       case Filled => Rank(s).value == 9
                       case Cancelled => Rank(s).value <= 4
                       case Expired => Rank(s).value <= 4
                       case Rejected => Rank(s).value <= 7
                       case _ => true)
    ensures s in PRE_COMMITMENT <==> Rank(s).Some? && Rank(s).value <= 4
    ensures s in EXTERNALLY_AMBIGUOUS <==> Rank(s).Some? && 5 <= Rank(s).value <= 8
  {
  }

  ghost predicate IsPath(path: seq<State>) {
    path != [] && forall i, j :: 0 <= i && j == i + 1 < |path| ==> path[j] in Transitions(path[i])
  }

  /** Whatever way an action takes to a fill, it was included, confirmed and reconciled, in this order, right before. */
  lemma FillIsConfirmed(path: seq<State>)
    requires IsPath(path) && path[0] in PRE_COMMITMENT && path[|path| - 1] == Filled
    ensures 5 <= |path| && path[|path| - 4..] == [InChain, ConfirmedState, Reconciled, Filled]
  {
    var n := |path| - 1;
    CameFrom(path, n, {Reconciled});
    CameFrom(path, n - 1, {ConfirmedState});
    CameFrom(path, n - 2, {InChain});
    CameFrom(path, n - 3, {Submitted, Reserved});
  }

  lemma CameFrom(path: seq<State>, i: nat, from: set<State>)
    requires IsPath(path) && i < |path| && path[i] != path[0]
    requires forall s: State :: path[i] in Transitions(s) ==> s in from
    ensures 0 < i && path[i - 1] in from
  {
    assert 0 < i;
    var j := i - 1;
    assert path[i] in Transitions(path[j]);
  }

  /** No action is ever twice in the same state: there are no loops. */
  lemma {:induction false} NeverAgain(path: seq<State>, i: nat, j: nat)
    requires IsPath(path) && i < j < |path|
    ensures path[i] != path[j] && Rank(path[i]).Some?
    ensures Rank(path[j]).Some? ==> Rank(path[i]).value < Rank(path[j]).value
    decreases j
  {
    var k := j - 1;
    assert path[j] in Transitions(path[k]);
    TableExactly(path[k], path[j]);
    if i < k { NeverAgain(path, i, k); }
  }

  /** Only four verdicts justify a state, each its own. */
  lemma JustifiesExactly(v: Verdict, s: State)
    ensures NextState(v) == Some(s) <==>
            (v, s) in {(InBlock, InChain), (Confirmed, ConfirmedState), (Reverted, Rejected), (Ambiguous, Halted)}
  {
  }

  /** Before the signing capital may always be released; from then until the reconciliation, exactly when the chain
      is known to have reverted the action; afterwards never. */
  lemma ReleaseExactly(s: State, verdict: Option<Verdict>)
    ensures ReleasePermitted(s, verdict) <==>
            Rank(s).Some? && (Rank(s).value <= 4 || (Rank(s).value <= 8 && verdict == Some(Reverted)))
  {
  }

  /** The state that `w` justifies after `v` did. */
  predicate MoveIsLegal(v: Verdict, w: Verdict) {
    && (v == InBlock ==> NextState(w).Some? && (NextState(w) == NextState(v) || NextState(w).value in Transitions(InChain)))
    && (v == Confirmed ==> NextState(w).Some? && NextState(w).value in {ConfirmedState, InChain, Halted}
                           && (NextState(w).value in Transitions(ConfirmedState) ==> w == Ambiguous))
  }

  lemma LaterVerdictsMoveLegally(v: Verdict, w: Verdict)
    requires w in MayBecome(v)
    ensures MoveIsLegal(v, w)
  {
  }

  /** However the evidence of a found inclusion grows, the state it justifies is the one already
      reached, or one that the table lets an included action move to. A confirmed action is never
      justified in moving anywhere but to a halt. */
  lemma JustifiedMovesAreLegal(
      h: set<Observation<Settlement>>, h2: set<Observation<Settlement>>, before: bool, after: bool, finality: Finality)
    requires h <= h2 && (before ==> after)
    ensures MoveIsLegal(VerdictOf(h, before, finality, Succeeded), VerdictOf(h2, after, finality, Succeeded))
  {
    VerdictsEvolve(h, h2, before, after, finality, Succeeded);
    LaterVerdictsMoveLegally(VerdictOf(h, before, finality, Succeeded), VerdictOf(h2, after, finality, Succeeded));
  }

  /** Whether capital may be released rather than held. */
  predicate ReleasePermitted(before: State, verdict: Option<Verdict>) {
    if before in PRE_COMMITMENT then true
    else if before in EXTERNALLY_AMBIGUOUS then verdict == Some(Reverted)
    else false
  }

  /** The only path from chain truth to a receipt. */
  function Reconcile(e: Expectation, t: Truth<Settlement>, bounds: Bounds): Result<Fill>
    requires bounds.Valid()
  {
    if t.action != e.action || t.transaction != e.transaction || t.chain != e.chain || t.taker != e.taker then
      Refused(OutOfContract)
    else if t.verdict != Confirmed then Refused(SafeHalt)
    else match t.included
      case Some(Included(_, Settlement(_, _, Success(input, output)))) =>
        var fill := Fill(input, output);
        if !fill.Valid() then Refused(OutOfContract)
        else if !fill.Satisfies(bounds) then Refused(SafeHalt)
        else Ok(fill)
      case _ => Refused(OutOfContract)
  }

  /** A fill is accepted exactly when the truth is about the action, its transaction, chain and taker, confirms it,
      and reports positive amounts that take no more than the committed input and pay in the committed proportion. */
  lemma ReconcilesExactly(e: Expectation, t: Truth<Settlement>, bounds: Bounds, fill: Fill)
    requires bounds.Valid()
    ensures Reconcile(e, t, bounds) == Ok(fill) <==>
              && t.action == e.action && t.transaction == e.transaction && t.chain == e.chain && t.taker == e.taker
              && t.verdict == Confirmed && t.included.Some? && t.included.value.Included?
              && t.included.value.facts.receipt.Success?
              && t.included.value.facts.receipt.input == fill.input && t.included.value.facts.receipt.output == fill.output
              && 0 < fill.input <= bounds.maxInput && 0 < fill.output
              && bounds.minOutput * fill.input <= fill.output * bounds.maxInput
  {
    SatisfiesExactly(fill, bounds);
  }

  predicate SettlesWithin(r: Receipt, bounds: Bounds)
    requires bounds.Valid()
  {
    r.Success? && Fill(r.input, r.output).Valid() && Fill(r.input, r.output).Satisfies(bounds)
  }

  /** A receipt is minted exactly from a confirmed success with positive amounts within the bounds,
      and carries the amounts that every inclusion in the evidence reports. */
  lemma ReceiptMeansConfirmedWithinBounds(
      e: Expectation, records: seq<Observation<Settlement>>, finality: Finality, t: Truth<Settlement>, bounds: Bounds)
    requires IsTruth(e, records, finality, Succeeded, t) && bounds.Valid()
    ensures Reconcile(e, t, bounds).Ok? <==>
              && VerdictOf(Evidence(records), e.acknowledged, finality, Succeeded) == Confirmed
              && exists o :: o in records && o.reading.Included? && SettlesWithin(o.reading.facts.receipt, bounds)
    ensures Reconcile(e, t, bounds).Ok? ==>
              forall o :: o in records && o.reading.Included? ==>
                (var fill := Reconcile(e, t, bounds).value;
                 o.reading.facts.receipt == Success(fill.input, fill.output))
  {
    var h := Evidence(records);
    if t.verdict == Confirmed {
      TerminalExactly(h, e.acknowledged, finality, Succeeded);
      var o :| o in h && o.reading == t.included.value;
      assert o in records;
      TerminalVerdictFollowsInclusion(h, e.acknowledged, finality, Succeeded, o);
    }
  }

  /** Amounts within the bounds are accepted as they are. */
  lemma ReconcileAccepts(
      e: Expectation, records: seq<Observation<Settlement>>, finality: Finality, t: Truth<Settlement>, bounds: Bounds,
      fill: Fill)
    requires IsTruth(e, records, finality, Succeeded, t) && t.verdict == Confirmed && bounds.Valid()
    requires t.included.Some? && t.included.value.Included?
    requires fill.Valid() && fill.Satisfies(bounds)
    requires t.included.value.facts.receipt == Success(fill.input, fill.output)
    ensures Reconcile(e, t, bounds) == Ok(fill)
  {
  }

  // ---------------------------------------------------------------------------------
  // Runs
  // ---------------------------------------------------------------------------------

  /** What is recorded of one action: its state, the evidence gathered so far, the states in which
      its capital was released, and whether a fill was minted. */
  datatype Ledger = Ledger(
    state: State, evidence: set<Observation<Settlement>>, acknowledged: bool, releasedIn: set<State>, minted: bool)

  ghost function Current(l: Ledger, finality: Finality): Verdict {
    VerdictOf(l.evidence, l.acknowledged, finality, Succeeded)
  }

  datatype Event =
    | Observe(more: set<Observation<Settlement>>)
    | Acknowledge
    | Move(to: State)
    | Release
    | Mint

  /** Evidence only grows; every move is an enumerated transition; a release needs the permission
      and a mint the confirmation that the evidence gives at that moment. */
  ghost predicate Enabled(l: Ledger, e: Event, finality: Finality) {
    match e
    case Observe(_) => true
    case Acknowledge => true
    case Move(to) => to in Transitions(l.state)
    case Release => ReleasePermitted(l.state, Some(Current(l, finality)))
    case Mint => Current(l, finality) == Confirmed
  }

  ghost function After(l: Ledger, e: Event): Ledger {
    match e
    case Observe(more) => l.(evidence := l.evidence + more)
    case Acknowledge => l.(acknowledged := true)
    case Move(to) => l.(state := to)
    case Release => l.(releasedIn := l.releasedIn + {l.state})
    case Mint => l.(minted := true)
  }

  ghost predicate IsRun(l: Ledger, events: seq<Event>, finality: Finality)
    decreases |events|
  {
    events == [] || (Enabled(l, events[0], finality) && IsRun(After(l, events[0]), events[1..], finality))
  }

  ghost function Final(l: Ledger, events: seq<Event>): Ledger
    decreases |events|
  {
    if events == [] then l else Final(After(l, events[0]), events[1..])
  }

  /** Some earlier evidence justified what was done. */
  ghost predicate JustifiedBy(l: Ledger, v: Verdict, finality: Finality) {
    exists h, acknowledged :: h <= l.evidence && VerdictOf(h, acknowledged, finality, Succeeded) == v
  }

  /** What every step keeps. */
  ghost predicate Sound(l: Ledger, finality: Finality) {
    && (l.minted ==> JustifiedBy(l, Confirmed, finality))
    && (l.releasedIn * EXTERNALLY_AMBIGUOUS != {} ==> JustifiedBy(l, Reverted, finality))
    && l.releasedIn <= PRE_COMMITMENT + EXTERNALLY_AMBIGUOUS
    && (l.minted ==> l.releasedIn <= PRE_COMMITMENT)
  }

  lemma EvidenceKept(l: Ledger, k: Ledger, v: Verdict, finality: Finality)
    requires JustifiedBy(l, v, finality) && l.evidence <= k.evidence
    ensures JustifiedBy(k, v, finality)
  {
  }

  lemma NeverBoth(l: Ledger, finality: Finality)
    ensures Current(l, finality) == Confirmed ==> !JustifiedBy(l, Reverted, finality)
    ensures Current(l, finality) == Reverted ==> !JustifiedBy(l, Confirmed, finality)
  {
  }

  lemma StepKeepsSound(l: Ledger, e: Event, finality: Finality)
    requires Sound(l, finality) && Enabled(l, e, finality)
    ensures Sound(After(l, e), finality)
  {
    var k := After(l, e);
    NeverBoth(l, finality);
    if JustifiedBy(l, Confirmed, finality) { EvidenceKept(l, k, Confirmed, finality); }
    if JustifiedBy(l, Reverted, finality) { EvidenceKept(l, k, Reverted, finality); }
    if e.Mint? {
      assert l.evidence <= k.evidence;
      assert JustifiedBy(k, Confirmed, finality);
    }
    if e.Release? && l.state in EXTERNALLY_AMBIGUOUS {
      assert l.evidence <= k.evidence;
      assert JustifiedBy(k, Reverted, finality);
    }
  }

  lemma {:induction false} RunKeepsSound(l: Ledger, events: seq<Event>, finality: Finality)
    requires Sound(l, finality) && IsRun(l, events, finality)
    ensures Sound(Final(l, events), finality)
    decreases |events|
  {
    if events != [] {
      StepKeepsSound(l, events[0], finality);
      RunKeepsSound(After(l, events[0]), events[1..], finality);
    }
  }

  ghost predicate Fresh(l: Ledger) {
    l.releasedIn == {} && !l.minted
  }

  /** Over every run, capital that was released from SIGNED, SUBMITTED, INCLUDED or CONFIRMED is
      never also settled by a minted fill, whichever came first. */
  lemma ReleasedIsNeverFilled(l: Ledger, events: seq<Event>, finality: Finality)
    requires Fresh(l) && IsRun(l, events, finality)
    ensures Final(l, events).minted ==> Final(l, events).releasedIn <= PRE_COMMITMENT
  {
    RunKeepsSound(l, events, finality);
  }

  /** Once an action may exist outside the process, it never counts as uncommitted again, so from
      there on no run both releases and mints. */
  lemma {:induction false} CommittedStaysCommitted(l: Ledger, events: seq<Event>, finality: Finality)
    requires l.state !in PRE_COMMITMENT && l.releasedIn * PRE_COMMITMENT == {} && IsRun(l, events, finality)
    ensures Final(l, events).state !in PRE_COMMITMENT
    ensures Final(l, events).releasedIn * PRE_COMMITMENT == {}
    decreases |events|
  {
    if events != [] {
      CommittedStaysCommitted(After(l, events[0]), events[1..], finality);
    }
  }

  lemma CommittedNeverReleasesAndMints(l: Ledger, events: seq<Event>, finality: Finality)
    requires Fresh(l) && l.state !in PRE_COMMITMENT && IsRun(l, events, finality)
    ensures !(Final(l, events).minted && Final(l, events).releasedIn != {})
  {
    ReleasedIsNeverFilled(l, events, finality);
    CommittedStaysCommitted(l, events, finality);
  }

  // ---------------------------------------------------------------------------------
  // The exact condition
  // ---------------------------------------------------------------------------------

  function Name(i: nat): (s: string)
    ensures |s| == i
  {
    seq(i, j => 'p')
  }

  /** Provider number `i` reports the inclusion of a success that lies `depth` blocks back. */
  function Vote(i: nat, depth: nat): Observation<Settlement> {
    Observation(Name(i), "", 0, i, Included(0, Settlement("", "", Success(1, 1))), Some(depth))
  }

  ghost function Votes(n: nat, depth: nat): set<Observation<Settlement>> {
    set i: nat | i < n :: Vote(i, depth)
  }

  ghost function Names(n: nat): set<string> {
    set i: nat | i < n :: Name(i)
  }

  lemma {:induction false} CountNames(n: nat)
    ensures |Names(n)| == n
  {
    if n != 0 {
      CountNames(n - 1);
      assert Names(n) == Names(n - 1) + {Name(n - 1)};
      assert Name(n - 1) !in Names(n - 1);
    }
  }

  /** Enough agreeing and deep inclusions confirm. */
  lemma VotesConfirm(acknowledged: bool, finality: Finality)
    ensures VerdictOf(Votes(finality.minProviders + 1, finality.minDepth), acknowledged, finality, Succeeded) == Confirmed
  {
    var n, depth := finality.minProviders + 1, finality.minDepth;
    var h := Votes(n, depth);
    assert Vote(0, depth) in h;
    CountNames(n);
    assert Providers(h) == Names(n) by {
      forall i: nat | i < n ensures Name(i) in Providers(h) {
        assert Vote(i, depth) in h;
      }
    }
    TerminalExactly(h, acknowledged, finality, Succeeded);
    TerminalVerdictFollowsInclusion(h, acknowledged, finality, Succeeded, Vote(0, depth));
  }

  ghost predicate ReleasesAndMints(l: Ledger, events: seq<Event>) {
    Final(l, events).minted && Final(l, events).releasedIn != {}
  }

  /** The permission to release and the path to a receipt exclude each other over all runs exactly
      from the states after commitment. Before it, a release ignores the verdict, and an inclusion
      found later can still be minted. This is a fact about the two functions and the transition
      table alone: what the ledger adds is in `ActionLedger`. */
  lemma ExclusiveExactlyAfterCommitment(l: Ledger, finality: Finality)
    requires Fresh(l) && l.evidence == {}
    ensures (forall events :: IsRun(l, events, finality) ==> !ReleasesAndMints(l, events))
       <==> l.state !in PRE_COMMITMENT
  {
    if l.state in PRE_COMMITMENT {
      ReleaseThenMint(l, finality);
    } else {
      forall events | IsRun(l, events, finality) ensures !ReleasesAndMints(l, events) {
        CommittedNeverReleasesAndMints(l, events, finality);
      }
    }
  }

  lemma ReleaseThenMint(l: Ledger, finality: Finality)
    requires l.evidence == {} && l.state in PRE_COMMITMENT
    ensures var events := [Release, Observe(Votes(finality.minProviders + 1, finality.minDepth)), Mint];
            IsRun(l, events, finality) && ReleasesAndMints(l, events)
  {
    var votes := Votes(finality.minProviders + 1, finality.minDepth);
    var released := After(l, Release);
    var seen := After(released, Observe(votes));
    VotesConfirm(l.acknowledged, finality);
    assert seen.evidence == votes;
    Begin(seen, Mint, [], finality);
    Begin(released, Observe(votes), [Mint], finality);
    Begin(l, Release, [Observe(votes), Mint], finality);
    assert l.state in Final(l, [Release] + ([Observe(votes)] + [Mint])).releasedIn;
    assert [Release] + ([Observe(votes)] + [Mint]) == [Release, Observe(votes), Mint];
  }

  lemma Begin(l: Ledger, e: Event, rest: seq<Event>, finality: Finality)
    requires Enabled(l, e, finality) && IsRun(After(l, e), rest, finality)
    ensures IsRun(l, [e] + rest, finality) && Final(l, [e] + rest) == Final(After(l, e), rest)
  {
  }
}
