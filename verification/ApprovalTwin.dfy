/** The approval evaluator against the settlement evaluator, on the same readings. */
module ApprovalTwin {
  import opened Outcomes
  import opened ChainTruth
  import opened DigestTies

  /** What an approval inclusion reports: no amounts. */
  datatype ApprovalFacts = ApprovalFacts(hash: string, parent: string, succeeded: bool)

  predicate ApprovalSucceeded(f: ApprovalFacts) {
    f.succeeded
  }

  function WithoutAmounts(f: Settlement): ApprovalFacts {
    ApprovalFacts(f.hash, f.parent, f.receipt.Success?)
  }

  /** The approval evaluator, on the history with the amounts dropped, reaches the verdict of the
      settlement evaluator, unless two inclusions differ in their amounts only, which the settlement
      evaluator alone can see and which makes its verdict ambiguous. */
  ghost predicate TwinAgrees(
      h: set<Observation<Settlement>>, view: Observation<Settlement> -> Observation<ApprovalFacts>,
      acknowledged: bool, finality: Finality)
  {
    VerdictOf(h, acknowledged, finality, Succeeded)
    == if Merges(h, WithoutAmounts) then Ambiguous
       else VerdictOf(Image(h, view), acknowledged, finality, ApprovalSucceeded)
  }

  /** That holds of a history with harmless ties, whatever digests the two evaluators give to its
      readings. */
  lemma ApprovalTwinAgrees(
      h: set<Observation<Settlement>>, view: Observation<Settlement> -> Observation<ApprovalFacts>,
      acknowledged: bool, finality: Finality)
    requires IsView(h, WithoutAmounts, view) && TiesAreHarmless(h, finality)
    ensures TwinAgrees(h, view, acknowledged, finality)
  {
    HarmlessAgrees(h, WithoutAmounts, view, acknowledged, finality, Succeeded, ApprovalSucceeded);
  }

  /** And only of those: in any other, some digests of the approval readings break the agreement. */
  lemma ApprovalTwinAgreesExactly(h: set<Observation<Settlement>>, acknowledged: bool, finality: Finality)
    requires CollisionFree(h)
    ensures (forall view :: IsView(h, WithoutAmounts, view) && CollisionFree(Image(h, view)) ==>
               TwinAgrees(h, view, acknowledged, finality))
       <==> TiesAreHarmless(h, finality)
  {
    AgreesExactlyWhenHarmless(h, WithoutAmounts, acknowledged, finality, Succeeded, ApprovalSucceeded);
    if !TiesAreHarmless(h, finality) {
      var view :| IsView(h, WithoutAmounts, view) && CollisionFree(Image(h, view))
        && !AgreesWithView(h, WithoutAmounts, view, acknowledged, finality, Succeeded, ApprovalSucceeded);
      assert !TwinAgrees(h, view, acknowledged, finality);
    } else {
      forall view | IsView(h, WithoutAmounts, view) ensures TwinAgrees(h, view, acknowledged, finality) {
        ApprovalTwinAgrees(h, view, acknowledged, finality);
      }
    }
  }

  /** For instance, when a provider reports an inclusion and its absence in its last second, the two
      evaluators may hold it to different readings. */
  lemma TiesBreakTheTwin(
      hit: Observation<Settlement>, miss: Observation<Settlement>,
      view: Observation<Settlement> -> Observation<ApprovalFacts>, acknowledged: bool)
    requires hit.provider == miss.provider && hit.observedAt == miss.observedAt && miss.id < hit.id
    requires hit.reading.Included? && Succeeded(hit.reading.facts) && miss.reading.Absent?
    requires hit.head == Some(hit.reading.block + 32)
    requires IsView({hit, miss}, WithoutAmounts, view) && view(hit).id < view(miss).id
    ensures VerdictOf({hit, miss}, acknowledged, Finality(32, 1), Succeeded) == Confirmed
    ensures VerdictOf(Image({hit, miss}, view), acknowledged, Finality(32, 1), ApprovalSucceeded) == Ambiguous
  {
    TieGoesToTheLaterDigest(hit, miss, acknowledged, Succeeded);
    assert Projects(hit, WithoutAmounts, view(hit)) && Projects(miss, WithoutAmounts, view(miss));
    TieGoesToTheLaterDigest(view(hit), view(miss), acknowledged, ApprovalSucceeded);
    assert Image({hit, miss}, view) == {view(hit), view(miss)};
  }

  lemma TieGoesToTheLaterDigest<F(!new)>(
      hit: Observation<F>, miss: Observation<F>, acknowledged: bool, ok: F -> bool)
    requires hit.provider == miss.provider && hit.observedAt == miss.observedAt
    requires hit.reading.Included? && ok(hit.reading.facts) && miss.reading.Absent?
    requires hit.head == Some(hit.reading.block + 32)
    ensures miss.id < hit.id ==> VerdictOf({hit, miss}, acknowledged, Finality(32, 1), ok) == Confirmed
    ensures hit.id < miss.id ==> VerdictOf({hit, miss}, acknowledged, Finality(32, 1), ok) == Ambiguous
  {
    var h := {hit, miss};
    assert hit in h && miss in h;
    if miss.id < hit.id {
      assert forall o :: IsLatest(h, o) ==> o == hit;
      assert Providers(h) == {hit.provider};
      TerminalExactly(h, acknowledged, Finality(32, 1), ok);
      TerminalVerdictFollowsInclusion(h, acknowledged, Finality(32, 1), ok, hit);
    } else if hit.id < miss.id {
      assert IsLatest(h, miss);
    }
  }
}
