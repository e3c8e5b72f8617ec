/** What an approval's chain truth and the observed allowance together settle. */
module ApprovalSettlement {

  import opened Outcomes
  import opened ChainTruth
  import opened ApprovalTwin

  datatype ApprovalKind = ExactApproval | RevokeToZero

  /** The signing request, as far as reconciliation reads it. */
  datatype Request = Request(id: string, kind: ApprovalKind, externalAction: string, transaction: string, allowance: nat)

  /** The allowance of the request's own token, owner and spender, and the block it was read at. */
  datatype Allowance = Allowance(inScope: bool, amount: nat, block: nat)

  datatype SettlementState = Waiting | Settled | Revoked | SafeHalted

  datatype Settling = Settling(state: SettlementState, requiresRevoke: bool)

  method Reconcile(q: Request, signedFor: string, t: Truth<ApprovalFacts>, a: Allowance) returns (r: Result<Settling>)
    ensures r.Ok? <==>
              && signedFor == q.id && t.transaction == q.transaction && t.action == q.externalAction && a.inScope
              && (t.included.Some? && t.included.value.Included? ==> t.included.value.block <= a.block)
    ensures r.Ok? ==> r.value == SettlingOf(q.kind, q.allowance, t.verdict, a.amount)
    ensures r == Refused(SafeHalt) ==> t.included.Some? && t.included.value.Included? && a.block < t.included.value.block
  {
    if signedFor != q.id || t.transaction != q.transaction || t.action != q.externalAction || !a.inScope {
      return Refused(OutOfContract);
    }
    if t.included.Some? && t.included.value.Included? && a.block < t.included.value.block {
      return Refused(SafeHalt);
    }
    var state, requiresRevoke := Waiting, false;
    if t.verdict == Confirmed {
      if a.amount == q.allowance {
        state := if q.kind == RevokeToZero then Revoked else Settled;
      } else {
        state := SafeHalted;
        requiresRevoke := a.amount != 0;
      }
    } else if t.verdict in {Reverted, Ambiguous} {
      state := SafeHalted;
      requiresRevoke := a.amount != 0;
    }
    return Ok(Settling(state, requiresRevoke));
  }

  function SettlingOf(kind: ApprovalKind, expected: nat, v: Verdict, observed: nat): Settling {
    if v == Confirmed && observed == expected then
      Settling(if kind == RevokeToZero then Revoked else Settled, false)
    else if v in {Confirmed, Reverted, Ambiguous} then Settling(SafeHalted, observed != 0)
    else Settling(Waiting, false)
  }

  /** An approval counts as settled exactly when every provider's latest reading is one agreed,
      successful, deep inclusion and the allowance is exactly the requested one. */
  lemma SettledExactly(
      e: Expectation, records: seq<Observation<ApprovalFacts>>, finality: Finality, t: Truth<ApprovalFacts>,
      kind: ApprovalKind, expected: nat, observed: nat)
    requires IsTruth(e, records, finality, ApprovalSucceeded, t)
    ensures SettlingOf(kind, expected, t.verdict, observed).state in {Settled, Revoked} <==>
              && Agreed(Evidence(records)) && finality.minProviders <= |Providers(Evidence(records))|
              && DeepFor(Evidence(records), finality.minDepth)
              && (exists o :: o in records && o.reading.Included? && o.reading.facts.succeeded)
              && observed == expected
  {
    var h := Evidence(records);
    TerminalExactly(h, e.acknowledged, finality, ApprovalSucceeded);
    if t.verdict in {Confirmed, Reverted} {
      var o :| o in h && o.reading == t.included.value;
      assert o in records;
      TerminalVerdictFollowsInclusion(h, e.acknowledged, finality, ApprovalSucceeded, o);
      forall a | a in records && a.reading.Included? ensures a.reading.facts.succeeded == o.reading.facts.succeeded {
        assert a in h;
      }
    }
  }

  /** What a reconciliation settles, for every verdict and allowance: an exact approval or a revocation by
      a confirmation with exactly the requested allowance, a wait while nothing is terminal, and a halt
      otherwise; and a revocation is required exactly at a halt that leaves an allowance. */
  lemma SettlesExactly(kind: ApprovalKind, expected: nat, v: Verdict, observed: nat)
    ensures var s := SettlingOf(kind, expected, v, observed);
            && (s.state == Settled <==> kind == ExactApproval && v == Confirmed && observed == expected)
            && (s.state == Revoked <==> kind == RevokeToZero && v == Confirmed && observed == expected)
            && (s.state == Waiting <==> v in {NoEvidence, Visible, InBlock})
            && (s.requiresRevoke <==> observed != 0 && (v in {Reverted, Ambiguous} || (v == Confirmed && observed != expected)))
  {
  }

  /** So no allowance that nobody settled is left standing on terminal evidence. */
  lemma NoAllowanceIsLeftStanding(
      e: Expectation, records: seq<Observation<ApprovalFacts>>, finality: Finality, t: Truth<ApprovalFacts>,
      kind: ApprovalKind, expected: nat, observed: nat)
    requires IsTruth(e, records, finality, ApprovalSucceeded, t) && finality.Valid()
    requires forall o :: o in records && o.reading.Included? ==> !o.reading.facts.succeeded
    requires exists o :: o in records && o.reading.Included?
    requires finality.minProviders <= |Providers(Evidence(records))| && HeadsReach(Evidence(records), finality.minDepth)
    ensures var s := SettlingOf(kind, expected, t.verdict, observed);
            s.state == SafeHalted && (s.requiresRevoke <==> 0 < observed)
  {
    var o :| o in records && o.reading.Included?;
    assert o in Evidence(records);
    VerdictOnInclusions(Evidence(records), e.acknowledged, finality, ApprovalSucceeded, o);
    TruthVerdict(e, records, finality, t);
  }

  lemma TruthVerdict(
      e: Expectation, records: seq<Observation<ApprovalFacts>>, finality: Finality, t: Truth<ApprovalFacts>)
    requires IsTruth(e, records, finality, ApprovalSucceeded, t)
    ensures t.verdict == VerdictOf(Evidence(records), e.acknowledged, finality, ApprovalSucceeded)
  {
  }

  lemma ConfirmedBecomes(
      h: set<Observation<ApprovalFacts>>, h2: set<Observation<ApprovalFacts>>, before: bool, after: bool, finality: Finality)
    requires h <= h2 && (before ==> after)
    requires VerdictOf(h, before, finality, ApprovalSucceeded) == Confirmed
    ensures VerdictOf(h2, after, finality, ApprovalSucceeded) in {Confirmed, InBlock, Ambiguous}
  {
    VerdictsEvolve(h, h2, before, after, finality, ApprovalSucceeded);
  }

  lemma SettledMeansConfirmed(kind: ApprovalKind, expected: nat, v: Verdict, observed: nat)
    ensures SettlingOf(kind, expected, v, observed).state in {Settled, Revoked} <==> v == Confirmed && observed == expected
  {
  }

  lemma SettlingAfter(kind: ApprovalKind, expected: nat, v: Verdict, observed: nat)
    requires v in {Confirmed, InBlock, Ambiguous} && observed == expected
    ensures var s := SettlingOf(kind, expected, v, observed);
            && (s.state == SafeHalted ==> v == Ambiguous)
            && (s == SettlingOf(kind, expected, Confirmed, observed) || s.state in {Waiting, SafeHalted})
  {
  }

  /** Once settled, more evidence never turns the approval into a reverted one: with the allowance
      unchanged it stays settled, waits for depth again, or halts on evidence that contradicts itself. */
  lemma SettledStaysOrHalts(
      e1: Expectation, e2: Expectation, r1: seq<Observation<ApprovalFacts>>, r2: seq<Observation<ApprovalFacts>>,
      finality: Finality, t1: Truth<ApprovalFacts>, t2: Truth<ApprovalFacts>,
      kind: ApprovalKind, expected: nat, observed: nat)
    requires Evidence(r1) <= Evidence(r2) && (e1.acknowledged ==> e2.acknowledged)
    requires IsTruth(e1, r1, finality, ApprovalSucceeded, t1) && IsTruth(e2, r2, finality, ApprovalSucceeded, t2)
    requires SettlingOf(kind, expected, t1.verdict, observed).state in {Settled, Revoked}
    ensures t2.verdict != Reverted
    ensures var s1, s2 := SettlingOf(kind, expected, t1.verdict, observed), SettlingOf(kind, expected, t2.verdict, observed);
            && (s2.state == SafeHalted ==> t2.verdict == Ambiguous)
            && (s2 == s1 || s2.state in {Waiting, SafeHalted})
  {
    SettledMeansConfirmed(kind, expected, t1.verdict, observed);
    TruthVerdict(e1, r1, finality, t1);
    TruthVerdict(e2, r2, finality, t2);
    ConfirmedBecomes(Evidence(r1), Evidence(r2), e1.acknowledged, e2.acknowledged, finality);
    SettlingAfter(kind, expected, t2.verdict, observed);
  }
}
