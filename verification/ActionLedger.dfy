/** The ledger's account of one action: every release of its capital is a move to a terminal state,
    and a fill is minted only together with the move out of the executable states. */
module ActionLedger {

  import opened Outcomes
  import opened ChainTruth
  import opened Lifecycle

  /** The states whose entry releases the capital. */
  const RELEASING: set<State> := {Cancelled, Expired, Rejected}

  /** The states from which a confirmed settlement can be accounted. */
  const SETTLEABLE: set<State> := {Reserved, Signed, Submitted, InChain, ConfirmedState, Halted}

  /** `recorded` is the verdict of the one reconciliation that is kept of an action. */
  datatype Account = Account(
    state: State, evidence: set<Observation<Settlement>>, acknowledged: bool,
    recorded: Option<Verdict>, released: bool, minted: bool)
  {
    ghost function Verdict(finality: Finality): Verdict {
      VerdictOf(evidence, acknowledged, finality, Succeeded)
    }
  }

  datatype Step =
    | Gather(more: set<Observation<Settlement>>)
    | Submit
    | Advance(to: State)
    | Abandon(to: State)
    | Record
    | Settle(to: State)
    | Recover(to: State)

  /** A transition to a releasing state needs the permission that the recorded verdict gives. The one
      reconciliation of an action is recorded on a terminal or ambiguous verdict; a confirmed one
      settles, into RECONCILED or, when the fills exceed the bounds, into a halt. A halted action is
      recovered only as its recorded verdict says. */
  predicate Enabled(a: Account, s: Step, current: Verdict) {
    match s
    case Gather(_) => true
    case Submit => true
    case Advance(to) => to in Transitions(a.state) && to !in RELEASING
    case Abandon(to) => to in Transitions(a.state) && to in RELEASING && ReleasePermitted(a.state, a.recorded)
    case Record => a.recorded.None? && current in {Reverted, Ambiguous}
    case Settle(to) =>
      a.recorded.None? && current == Confirmed && a.state in SETTLEABLE && to in {Reconciled, Halted}
    case Recover(to) =>
      && a.state == Halted
      && ((to == Reconciled && a.recorded == Some(Confirmed)) || (to == Rejected && a.recorded == Some(Reverted)))
  }

  function After(a: Account, s: Step, current: Verdict): Account {
    match s
    case Gather(more) => a.(evidence := a.evidence + more)
    case Submit => a.(acknowledged := true)
    case Advance(to) => a.(state := to)
    case Abandon(to) => a.(state := to, released := true)
    case Record => a.(recorded := Some(current))
    case Settle(to) => a.(state := to, recorded := Some(Confirmed), minted := true)
    case Recover(to) => a.(state := to, released := a.released || to == Rejected)
  }

  /** What is released is a cancelled, expired or rejected action: before the signing at once, from then on until
      the confirmation a rejected one on a recorded revert. */
  lemma AbandonsExactly(a: Account, to: State, current: Verdict)
    ensures Enabled(a, Abandon(to), current) <==>
              && Rank(a.state).Some?
              && (if Rank(a.state).value <= 4 then to in {Cancelled, Expired, Rejected}
                  else Rank(a.state).value <= 7 && to == Rejected && a.recorded == Some(Reverted))
    ensures Enabled(a, Advance(to), current) ==> to !in {Cancelled, Expired, Rejected}
    ensures After(a, Abandon(to), current).released && After(a, Abandon(to), current).state == to
  {
    TableExactly(a.state, to);
  }

  lemma TouchesTheChain(s: State)
    ensures s in SETTLEABLE <==> s == Halted || (Rank(s).Some? && 4 <= Rank(s).value <= 8)
  {
  }

  /** The one reconciliation that is kept settles what was reserved and is not yet reconciled, or was halted, and only
      on a confirmation; a halted action leaves the halt only as the verdict recorded of it says. */
  lemma SettlesExactly(a: Account, to: State, current: Verdict)
    ensures Enabled(a, Settle(to), current) <==>
              && a.recorded.None? && current == Confirmed && (to == Reconciled || to == Halted)
              && (a.state == Halted || (Rank(a.state).Some? && 4 <= Rank(a.state).value <= 8))
    ensures After(a, Settle(to), current) == a.(state := to, recorded := Some(Confirmed), minted := true)
    ensures Enabled(a, Record, current) <==> a.recorded.None? && (current == Reverted || current == Ambiguous)
    ensures After(a, Record, current) == a.(recorded := Some(current))
    ensures Enabled(a, Recover(to), current) <==>
              && a.state == Halted
              && ((a.recorded == Some(Confirmed) && to == Reconciled) || (a.recorded == Some(Reverted) && to == Rejected))
    ensures After(a, Recover(Rejected), current).released
  {
    TouchesTheChain(a.state);
  }

  ghost function Next(a: Account, s: Step, finality: Finality): Account {
    After(a, s, a.Verdict(finality))
  }

  ghost predicate IsRun(a: Account, steps: seq<Step>, finality: Finality)
    decreases |steps|
  {
    steps == [] || (Enabled(a, steps[0], a.Verdict(finality)) && IsRun(Next(a, steps[0], finality), steps[1..], finality))
  }

  ghost function Final(a: Account, steps: seq<Step>, finality: Finality): Account
    decreases |steps|
  {
    if steps == [] then a else Final(Next(a, steps[0], finality), steps[1..], finality)
  }

  ghost predicate Fresh(a: Account) {
    a.recorded.None? && !a.released && !a.minted
  }

  // ---------------------------------------------------------------------------------
  // Never both
  // ---------------------------------------------------------------------------------

  /** What every step keeps. */
  ghost predicate Sound(a: Account) {
    && (a.released ==> a.state in RELEASING)
    && (a.minted ==> a.recorded == Some(Confirmed) && a.state in {Reconciled, Filled, Halted})
  }

  lemma StepKeepsSound(a: Account, s: Step, current: Verdict)
    requires Sound(a) && Enabled(a, s, current)
    ensures Sound(After(a, s, current))
  {
  }

  lemma {:induction false} RunKeepsSound(a: Account, steps: seq<Step>, finality: Finality)
    requires Sound(a) && IsRun(a, steps, finality)
    ensures Sound(Final(a, steps, finality))
    decreases |steps|
  {
    if steps != [] {
      StepKeepsSound(a, steps[0], a.Verdict(finality));
      RunKeepsSound(Next(a, steps[0], finality), steps[1..], finality);
    }
  }

  /** Because every release is a move to a terminal state, no run whatsoever, from RESERVED either,
      both releases the capital and mints a fill. */
  lemma NeverReleasesAndMints(a: Account, steps: seq<Step>, finality: Finality)
    requires Fresh(a) && IsRun(a, steps, finality)
    ensures var end := Final(a, steps, finality);
            !(end.released && end.minted)
    ensures Final(a, steps, finality).released ==> Final(a, steps, finality).state in RELEASING
  {
    RunKeepsSound(a, steps, finality);
  }

  // ---------------------------------------------------------------------------------
  // What the release can still be wrong about
  // ---------------------------------------------------------------------------------

  ghost predicate Justified(a: Account, v: Verdict, finality: Finality) {
    exists h, acknowledged :: h <= a.evidence && VerdictOf(h, acknowledged, finality, Succeeded) == v
  }

  /** What every step keeps of a committed action. */
  ghost predicate Committed(a: Account, finality: Finality) {
    && a.state !in PRE_COMMITMENT
    && (a.released ==> a.recorded == Some(Reverted))
    && (a.recorded.Some? ==> Justified(a, a.recorded.value, finality))
  }

  lemma StepKeepsStanding(a: Account, s: Step, current: Verdict)
    requires a.state !in PRE_COMMITMENT && (a.released ==> a.recorded == Some(Reverted)) && Enabled(a, s, current)
    ensures var b := After(a, s, current);
            && b.state !in PRE_COMMITMENT && (b.released ==> b.recorded == Some(Reverted))
            && a.evidence <= b.evidence && b.recorded in {a.recorded, Some(current)}
            && (a.recorded.Some? ==> b.recorded == a.recorded)
  {
  }

  lemma StepKeepsCommitted(a: Account, s: Step, finality: Finality)
    requires Committed(a, finality) && Enabled(a, s, a.Verdict(finality))
    ensures Committed(Next(a, s, finality), finality)
  {
    var b := Next(a, s, finality);
    StepKeepsStanding(a, s, a.Verdict(finality));
    if a.recorded.Some? {
      JustifiedStill(a, b, a.recorded.value, finality);
    } else if b.recorded.Some? {
      JustifiedNow(a, b, finality);
    }
  }

  lemma JustifiedStill(a: Account, b: Account, v: Verdict, finality: Finality)
    requires Justified(a, v, finality) && a.evidence <= b.evidence
    ensures Justified(b, v, finality)
  {
  }

  lemma JustifiedNow(a: Account, b: Account, finality: Finality)
    requires a.evidence <= b.evidence
    ensures Justified(b, a.Verdict(finality), finality)
  {
  }

  lemma {:induction false} RunKeepsCommitted(a: Account, steps: seq<Step>, finality: Finality)
    requires Committed(a, finality) && IsRun(a, steps, finality)
    ensures Committed(Final(a, steps, finality), finality)
    decreases |steps|
  {
    if steps != [] {
      StepKeepsCommitted(a, steps[0], finality);
      RunKeepsCommitted(Next(a, steps[0], finality), steps[1..], finality);
    }
  }

  /** The run ends with capital released although the chain settled the action. */
  ghost predicate ReleasesYetConfirms(a: Account, steps: seq<Step>, finality: Finality) {
    var end := Final(a, steps, finality);
    end.released && end.Verdict(finality) == Confirmed
  }

  /** The release stays right about the chain, over every run, exactly when the action had been
      committed: from then on no released action is ever confirmed. */
  lemma ReleaseIsFinalExactlyAfterCommitment(a: Account, finality: Finality)
    requires Fresh(a) && a.evidence == {}
    ensures (forall steps :: IsRun(a, steps, finality) ==> !ReleasesYetConfirms(a, steps, finality))
       <==> a.state !in PRE_COMMITMENT
  {
    if a.state in PRE_COMMITMENT {
      AbandonThenConfirm(a, finality);
    } else {
      forall steps | IsRun(a, steps, finality) ensures !ReleasesYetConfirms(a, steps, finality) {
        RunKeepsCommitted(a, steps, finality);
        var end := Final(a, steps, finality);
        if end.released {
          var h, acknowledged :| h <= end.evidence && VerdictOf(h, acknowledged, finality, Succeeded) == Reverted;
          ReleaseAndFillExclude(h, end.evidence, acknowledged, end.acknowledged, finality, Succeeded);
        }
      }
    }
  }

  lemma AbandonThenConfirm(a: Account, finality: Finality)
    requires Fresh(a) && a.evidence == {} && a.state in PRE_COMMITMENT
    ensures var steps := [Abandon(Cancelled), Gather(Votes(finality.minProviders + 1, finality.minDepth))];
            IsRun(a, steps, finality) && ReleasesYetConfirms(a, steps, finality)
  {
    var votes := Votes(finality.minProviders + 1, finality.minDepth);
    var abandoned := Next(a, Abandon(Cancelled), finality);
    var end := Next(abandoned, Gather(votes), finality);
    VotesConfirm(a.acknowledged, finality);
    assert end.evidence == votes;
    Begin(abandoned, Gather(votes), [], finality);
    assert [Gather(votes)] + [] == [Gather(votes)];
    Begin(a, Abandon(Cancelled), [Gather(votes)], finality);
    assert [Abandon(Cancelled)] + [Gather(votes)] == [Abandon(Cancelled), Gather(votes)];
  }

  lemma Begin(a: Account, s: Step, rest: seq<Step>, finality: Finality)
    requires Enabled(a, s, a.Verdict(finality)) && IsRun(Next(a, s, finality), rest, finality)
    ensures IsRun(a, [s] + rest, finality) && Final(a, [s] + rest, finality) == Final(Next(a, s, finality), rest, finality)
  {
  }
}
