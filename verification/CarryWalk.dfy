/** Walking the inventory-carry history of a ledger: where the inventory is, and whether a durable
    prepare lies on the way there. */
module CarryWalk {

  import opened Outcomes

  /** The inventory a cycle carried over from its source cycle when it was opened. The amount is
      kept as the text it was recorded with; a source that is not text is malformed. */
  datatype Carry = Carry(source: Option<string>, amount: string)

  datatype Opening = Opening(cycle: string, carry: Option<Carry>)

  datatype Hop = Hop(cycle: string, amount: string)

  datatype Status = Open | Completed | OtherStatus

  datatype IntentState = Simulated | Expired | OtherState

  /** `traces` counts the receipts, reservations, approvals, envelopes, external actions and signed
      transactions that are recorded for the intent. */
  datatype Intent = Intent(action: string, isSell: bool, exposure: int, state: IntentState, traces: nat)

  /** `expiry` is absent when the stored policy does not show one. */
  datatype Cycle = Cycle(status: Status, expiry: Option<int>, sessions: nat, intents: seq<Intent>, inventory: int)

  datatype Ledger = Ledger(openings: seq<Opening>, cycles: map<string, Cycle>, exact: string, inventory: int)

  // ---------------------------------------------------------------------------------
  // Successors
  // ---------------------------------------------------------------------------------

  predicate WellFormed(openings: seq<Opening>) {
    forall o :: o in openings && o.carry.Some? ==> o.carry.value.source.Some?
  }

  /** Whom a cycle carried its inventory to, in the order of the events. */
  function Successors(openings: seq<Opening>, source: string): seq<Hop> {
    if openings == [] then []
    else
      var last := openings[|openings| - 1];
      Successors(openings[..|openings| - 1], source)
      + if last.carry.Some? && last.carry.value.source == Some(source) then [Hop(last.cycle, last.carry.value.amount)]
        else []
  }

  function Outgoing(successors: map<string, seq<Hop>>, source: string): seq<Hop> {
    if source in successors then successors[source] else []
  }

  method ReadSuccessors(openings: seq<Opening>) returns (r: Result<map<string, seq<Hop>>>)
    ensures r.Ok? <==> WellFormed(openings)
    ensures r.Ok? ==> forall s :: Outgoing(r.value, s) == Successors(openings, s)
  {
    var successors: map<string, seq<Hop>> := map[];
    for i := 0 to |openings|
      invariant forall k :: 0 <= k < i && openings[k].carry.Some? ==> openings[k].carry.value.source.Some?
      invariant forall s :: Outgoing(successors, s) == Successors(openings[..i], s)
    {
      var opening := openings[i];
      assert openings[..i + 1][..i] == openings[..i];
      if opening.carry.None? {
        continue;
      }
      if opening.carry.value.source.None? {
        assert opening in openings;
        return Refused(OutOfContract);
      }
      var source := opening.carry.value.source.value;
      successors := successors[source := Outgoing(successors, source) + [Hop(opening.cycle, opening.carry.value.amount)]];
    }
    assert openings[..|openings|] == openings;
    return Ok(successors);
  }

  /** The opening carries the inventory of the source over. */
  predicate Carries(o: Opening, source: string) {
    o.carry.Some? && o.carry.value.source == Some(source)
  }

  /** The one opening that carries the inventory over, and to whom. */
  predicate IsOnlyCarry(openings: seq<Opening>, source: string, hop: Hop, k: nat) {
    && k < |openings| && Carries(openings[k], source)
    && openings[k].cycle == hop.cycle && openings[k].carry.value.amount == hop.amount
    && forall i :: 0 <= i < |openings| && i != k ==> !Carries(openings[i], source)
  }

  lemma {:induction false} NoSuccessor(openings: seq<Opening>, source: string)
    ensures Successors(openings, source) == [] <==> forall i :: 0 <= i < |openings| ==> !Carries(openings[i], source)
    decreases |openings|
  {
    if openings != [] { NoSuccessor(openings[..|openings| - 1], source); }
  }

  lemma LastCarries(init: seq<Opening>, last: Opening, source: string, hop: Hop)
    requires Carries(last, source)
    ensures (exists k: nat :: IsOnlyCarry(init + [last], source, hop, k)) <==>
            (forall i :: 0 <= i < |init| ==> !Carries(init[i], source)) && hop == Hop(last.cycle, last.carry.value.amount)
  {
    var openings, n := init + [last], |init|;
    assert openings[n] == last;
    if k: nat :| IsOnlyCarry(openings, source, hop, k) {
      assert k == n;
      forall i | 0 <= i < |init| ensures !Carries(init[i], source) {
        assert openings[i] == init[i];
      }
    }
    if (forall i :: 0 <= i < |init| ==> !Carries(init[i], source)) && hop == Hop(last.cycle, last.carry.value.amount) {
      assert IsOnlyCarry(openings, source, hop, n);
    }
  }

  lemma OthersCarry(init: seq<Opening>, last: Opening, source: string, hop: Hop, k: nat)
    requires !Carries(last, source)
    ensures IsOnlyCarry(init + [last], source, hop, k) <==> IsOnlyCarry(init, source, hop, k)
  {
    var openings := init + [last];
    assert openings[|init|] == last && forall i :: 0 <= i < |init| ==> openings[i] == init[i];
  }

  /** A cycle has exactly one successor when exactly one opening carries its inventory over. */
  lemma {:induction false} OneSuccessor(openings: seq<Opening>, source: string, hop: Hop)
    ensures Successors(openings, source) == [hop] <==> exists k: nat :: IsOnlyCarry(openings, source, hop, k)
    decreases |openings|
  {
    if openings != [] {
      var init, last := openings[..|openings| - 1], openings[|openings| - 1];
      assert openings == init + [last];
      if Carries(last, source) {
        NoSuccessor(init, source);
        LastCarries(init, last, source, hop);
        LastIs(Successors(init, source), Hop(last.cycle, last.carry.value.amount), hop);
      } else {
        OneSuccessor(init, source, hop);
        forall k: nat ensures IsOnlyCarry(openings, source, hop, k) <==> IsOnlyCarry(init, source, hop, k) {
          OthersCarry(init, last, source, hop, k);
        }
        assert Successors(openings, source) == Successors(init, source);
      }
    }
  }

  lemma LastIs(init: seq<Hop>, h: Hop, hop: Hop)
    ensures init + [h] == [hop] <==> init == [] && h == hop
  {
    if init + [h] == [hop] {
      assert |init + [h]| == 1;
      assert (init + [h])[0] == h;
    }
  }

  // ---------------------------------------------------------------------------------
  // Chains
  // ---------------------------------------------------------------------------------

  /** The cycle has exactly one successor, to which it carried the exact amount. */
  predicate LeadsTo(l: Ledger, cycle: string, next: string) {
    Successors(l.openings, cycle) == [Hop(next, l.exact)]
  }

  ghost predicate IsChain(l: Ledger, first: string, path: seq<string>) {
    && path != [] && path[0] == first
    && forall i, j :: 0 <= i < j < |path| && j == i + 1 ==> LeadsTo(l, path[i], path[j])
  }

  /** Two chains agree as far as both go. */
  lemma {:induction false} ChainsAgree(l: Ledger, first: string, p: seq<string>, q: seq<string>, i: nat)
    requires IsChain(l, first, p) && IsChain(l, first, q) && i < |p| && i < |q|
    ensures p[i] == q[i]
  {
    if i != 0 {
      ChainsAgree(l, first, p, q, i - 1);
      LeadsToOne(l, p[i - 1], p[i], q[i]);
    }
  }

  lemma LeadsToOne(l: Ledger, cycle: string, a: string, b: string)
    requires LeadsTo(l, cycle, a) && LeadsTo(l, cycle, b)
    ensures a == b
  {
  }

  /** Where a chain repeats a cycle, it goes on repeating. */
  lemma {:induction false} RepeatsGoOn(l: Ledger, first: string, p: seq<string>, i: nat, j: nat, k: nat)
    requires IsChain(l, first, p) && i < j && j + k < |p| && p[i] == p[j]
    ensures p[i + k] == p[j + k]
    decreases k
  {
    if k != 0 {
      RepeatsGoOn(l, first, p, i, j, k - 1);
      var m, n := i + k - 1, j + k - 1;
      LeadsToOne(l, p[m], p[m + 1], p[n + 1]);
    }
  }

  // ---------------------------------------------------------------------------------
  // Recovery
  // ---------------------------------------------------------------------------------

  predicate IsAbandonable(intent: Intent, status: Status) {
    && intent.isSell && intent.exposure == 0 && intent.state in {Simulated, Expired} && intent.traces == 0
    && (intent.state == Simulated ==> status == Open)
  }

  /** A hop after the first shows no trace of anything signed or sent. */
  predicate IsUntouched(c: Cycle, now: int) {
    && c.expiry.Some? && c.expiry.value <= now && c.sessions == 0
    && |c.intents| <= 1 && (forall intent :: intent in c.intents ==> IsAbandonable(intent, c.status))
  }

  /** The abandoned intent of a hop that is still simulated. */
  function Stale(c: Cycle): Option<string> {
    if c.intents != [] && c.intents[0].state == Simulated then Some(c.intents[0].action) else None
  }

  predicate HopAllowed(l: Ledger, cycle: string, isFirst: bool, now: int) {
    && cycle in l.cycles && l.cycles[cycle].status in {Open, Completed}
    && (!isFirst ==> IsUntouched(l.cycles[cycle], now))
  }

  predicate Passed(l: Ledger, cycle: string, next: string, isFirst: bool, now: int) {
    && HopAllowed(l, cycle, isFirst, now) && l.cycles[cycle].status == Completed
    && LeadsTo(l, cycle, next)
    && (!isFirst ==> l.cycles[cycle].inventory == 0)
  }

  predicate HoldsInventory(l: Ledger, cycle: string, isFirst: bool, now: int) {
    && HopAllowed(l, cycle, isFirst, now) && l.cycles[cycle].status == Open
    && Successors(l.openings, cycle) == [] && l.cycles[cycle].inventory == l.inventory
  }

  /** A way from the first purchase to the inventory: every earlier hop is completed, carried the
      exact amount to exactly one successor, and, after the first, is untouched and empty; the last
      is open, has no successor, and holds the exact inventory. */
  ghost predicate IsRecovery(l: Ledger, first: string, now: int, path: seq<string>) {
    && path != [] && path[0] == first
    && (forall i, j :: 0 <= i < j < |path| && j == i + 1 ==> Passed(l, path[i], path[j], i == 0, now))
    && HoldsInventory(l, path[|path| - 1], |path| == 1, now)
  }

  lemma RecoveryIsChain(l: Ledger, first: string, now: int, path: seq<string>)
    requires IsRecovery(l, first, now, path)
    ensures IsChain(l, first, path)
  {
  }

  /** Nothing was signed or sent for the cycle: its policy has expired, it has no session, and its one intent, if any,
      is a sale without exposure or trace that expired, or is still simulated while the cycle is open. */
  predicate LeftAlone(c: Cycle, now: int) {
    && c.expiry.Some? && c.expiry.value <= now && c.sessions == 0
    && (c.intents == [] || (|c.intents| == 1 && LeftBehind(c.intents[0], c.status == Open)))
  }

  predicate LeftBehind(i: Intent, open: bool) {
    && i.isSell && i.exposure == 0 && i.traces == 0
    && match i.state
       case Expired => true
       case Simulated => open
       case OtherState => false
  }

  lemma UntouchedExactly(c: Cycle, now: int)
    ensures IsUntouched(c, now) <==> LeftAlone(c, now)
  {
    if |c.intents| == 1 {
      assert c.intents[0] in c.intents;
      assert forall i <- c.intents :: i == c.intents[0];
    }
  }

  /** What a cycle on the way must be, by its place on the way. */
  ghost predicate IsStation(l: Ledger, path: seq<string>, i: nat, now: int)
    requires i < |path|
  {
    && path[i] in l.cycles && (i != 0 ==> LeftAlone(l.cycles[path[i]], now))
    && if i + 1 < |path| then
         && l.cycles[path[i]].status == Completed && (i != 0 ==> l.cycles[path[i]].inventory == 0)
         && Successors(l.openings, path[i]) == [Hop(path[i + 1], l.exact)]
       else
         && l.cycles[path[i]].status == Open && l.cycles[path[i]].inventory == l.inventory
         && Successors(l.openings, path[i]) == []
  }

  lemma RecoveryExactly(l: Ledger, first: string, now: int, path: seq<string>)
    ensures IsRecovery(l, first, now, path) <==>
            path != [] && path[0] == first && forall i :: 0 <= i < |path| ==> IsStation(l, path, i, now)
  {
    forall c: Cycle ensures IsUntouched(c, now) == LeftAlone(c, now) { UntouchedExactly(c, now); }
    if IsRecovery(l, first, now, path) {
      forall i | 0 <= i < |path| ensures IsStation(l, path, i, now) {
        if i + 1 < |path| {
          var j := i + 1;
          assert Passed(l, path[i], path[j], i == 0, now);
        }
      }
    }
    if path != [] && path[0] == first && forall i :: 0 <= i < |path| ==> IsStation(l, path, i, now) {
      forall i, j | 0 <= i < j < |path| && j == i + 1 ensures Passed(l, path[i], path[j], i == 0, now) {
        assert IsStation(l, path, i, now);
      }
      assert IsStation(l, path, |path| - 1, now);
    }
  }

  /** A recovery path never visits a cycle twice. */
  lemma RecoveryDoesNotRepeat(l: Ledger, first: string, now: int, path: seq<string>, i: nat, j: nat)
    requires IsRecovery(l, first, now, path) && i < j < |path|
    ensures path[i] != path[j]
  {
    var m := |path| - 1 - (j - i);
    assert Passed(l, path[m], path[m + 1], m == 0, now);
    if path[i] == path[j] {
      RepeatsGoOn(l, first, path, i, j, |path| - 1 - j);
    }
  }

  /** The walk so far: the hops that have been passed. */
  ghost predicate Walked(l: Ledger, first: string, now: int, path: seq<string>) {
    && path != [] && path[0] == first
    && forall i, j :: 0 <= i < j < |path| && j == i + 1 ==> Passed(l, path[i], path[j], i == 0, now)
  }

  lemma {:induction false} RecoveryFollows(l: Ledger, first: string, now: int, walked: seq<string>, path: seq<string>, i: nat)
    requires Walked(l, first, now, walked) && IsRecovery(l, first, now, path) && i < |walked|
    ensures i < |path| && walked[i] == path[i]
  {
    if i != 0 {
      RecoveryFollows(l, first, now, walked, path, i - 1);
      assert Passed(l, walked[i - 1], walked[i], i - 1 == 0, now);
      assert i - 1 != |path| - 1;
      assert Passed(l, path[i - 1], path[i], i - 1 == 0, now);
      LeadsToOne(l, path[i - 1], path[i], walked[i]);
    }
  }

  /** Any recovery path continues the walk. */
  lemma RecoveryContinues(l: Ledger, first: string, now: int, walked: seq<string>, path: seq<string>)
    requires Walked(l, first, now, walked) && IsRecovery(l, first, now, path)
    ensures |walked| <= |path| && walked == path[..|walked|]
    ensures var current, isFirst := walked[|walked| - 1], |walked| == 1;
            HoldsInventory(l, current, isFirst, now) || exists next :: Passed(l, current, next, isFirst, now)
  {
    var n := |walked| - 1;
    RecoveryFollows(l, first, now, walked, path, n);
    forall i | 0 <= i < |walked| ensures walked[i] == path[i] {
      RecoveryFollows(l, first, now, walked, path, i);
    }
    if n < |path| - 1 {
      assert Passed(l, path[n], path[n + 1], n == 0, now);
    }
  }

  /** There is at most one recovery path. */
  lemma RecoveryIsUnique(l: Ledger, first: string, now: int, p: seq<string>, q: seq<string>)
    requires IsRecovery(l, first, now, p) && IsRecovery(l, first, now, q)
    ensures p == q
  {
    RecoveryContinues(l, first, now, p, q);
    RecoveryContinues(l, first, now, q, p);
  }

  ghost predicate NoRecovery(l: Ledger, first: string, now: int) {
    forall path :: !IsRecovery(l, first, now, path)
  }

  /** From here the walk can neither stop nor go on. */
  ghost predicate IsDeadEnd(l: Ledger, current: string, isFirst: bool, now: int) {
    !HoldsInventory(l, current, isFirst, now) && forall next :: !Passed(l, current, next, isFirst, now)
  }

  lemma StuckWalk(l: Ledger, first: string, now: int, walked: seq<string>)
    requires Walked(l, first, now, walked) && IsDeadEnd(l, walked[|walked| - 1], |walked| == 1, now)
    ensures NoRecovery(l, first, now)
  {
    forall path ensures !IsRecovery(l, first, now, path) {
      if IsRecovery(l, first, now, path) {
        RecoveryContinues(l, first, now, walked, path);
      }
    }
  }

  lemma RepeatedWalk(l: Ledger, first: string, now: int, walked: seq<string>, i: nat)
    requires Walked(l, first, now, walked) && i < |walked| - 1 && walked[i] == walked[|walked| - 1]
    ensures NoRecovery(l, first, now)
  {
    forall path ensures !IsRecovery(l, first, now, path) {
      if IsRecovery(l, first, now, path) {
        RecoveryFollows(l, first, now, walked, path, i);
        RecoveryFollows(l, first, now, walked, path, |walked| - 1);
        RecoveryDoesNotRepeat(l, first, now, path, i, |walked| - 1);
      }
    }
  }

  datatype Source = Source(cycle: string, stale: Option<string>)

  /** Finds the inventory exactly when there is a recovery path; it is then the end of that path. */
  method RecoverableInventorySource(l: Ledger, first: string, now: int) returns (r: Result<Source>)
    ensures r.Ok? ==> exists path :: IsRecovery(l, first, now, path) && r.value.cycle == path[|path| - 1]
                                     && r.value.stale == if |path| == 1 then None else Stale(l.cycles[r.value.cycle])
    ensures r.Refused? ==> !WellFormed(l.openings) || NoRecovery(l, first, now)
  {
    var read := ReadSuccessors(l.openings);
    if read.Refused? {
      return Refused(OutOfContract);
    }
    var successors := read.value;
    var current, isFirst := first, true;
    var visited: set<string> := {};
    ghost var walked := [first];
    while true
      invariant Walked(l, first, now, walked)
      invariant current == walked[|walked| - 1] && isFirst == (|walked| == 1)
      invariant visited == Before(walked) && visited <= l.cycles.Keys
      decreases |l.cycles.Keys - visited|
    {
      if current in visited {
        ghost var i :| 0 <= i < |walked| - 1 && walked[i] == current;
        RepeatedWalk(l, first, now, walked, i);
        return Refused(OutOfContract);
      }
      var step := StepFrom(l, successors, current, isFirst, now);
      if step.Stuck? {
        StuckWalk(l, first, now, walked);
        return Refused(OutOfContract);
      }
      if step.Found? {
        assert IsRecovery(l, first, now, walked);
        return Ok(Source(current, step.stale));
      }
      VisitedGrows(l.cycles.Keys, visited, current);
      visited := visited + {current};
      Extended(l, first, now, walked, step.cycle);
      BeforeGrows(walked, step.cycle);
      walked := walked + [step.cycle];
      current, isFirst := step.cycle, false;
    }
  }

  datatype Step = Stuck | Found(stale: Option<string>) | Onward(cycle: string)

  /** What one hop of the walk finds. */
  method StepFrom(l: Ledger, successors: map<string, seq<Hop>>, current: string, isFirst: bool, now: int)
      returns (step: Step)
    requires forall s :: Outgoing(successors, s) == Successors(l.openings, s)
    ensures step.Stuck? ==> IsDeadEnd(l, current, isFirst, now)
    ensures step.Found? ==> HoldsInventory(l, current, isFirst, now)
                            && step.stale == if isFirst then None else Stale(l.cycles[current])
    ensures step.Onward? ==> Passed(l, current, step.cycle, isFirst, now)
  {
    if !HopAllowed(l, current, isFirst, now) {
      return Stuck;
    }
    var cycle, outgoing := l.cycles[current], Outgoing(successors, current);
    if cycle.status == Open {
      if outgoing != [] || cycle.inventory != l.inventory {
        return Stuck;
      }
      return Found(if isFirst then None else Stale(cycle));
    }
    if |outgoing| != 1 || outgoing[0].amount != l.exact || (!isFirst && cycle.inventory != 0) {
      return Stuck;
    }
    assert outgoing == [Hop(outgoing[0].cycle, l.exact)];
    return Onward(outgoing[0].cycle);
  }

  ghost function Before(walked: seq<string>): set<string> {
    set i | 0 <= i < |walked| - 1 :: walked[i]
  }

  lemma BeforeGrows(walked: seq<string>, next: string)
    requires walked != []
    ensures Before(walked + [next]) == Before(walked) + {walked[|walked| - 1]}
  {
    var longer := walked + [next];
    forall s | s in Before(walked) ensures s in Before(longer) {
      var i :| 0 <= i < |walked| - 1 && walked[i] == s;
      assert longer[i] == s;
    }
    assert longer[|walked| - 1] == walked[|walked| - 1];
  }

  lemma VisitedGrows(all: set<string>, visited: set<string>, current: string)
    requires current in all && current !in visited
    ensures |all - (visited + {current})| < |all - visited|
  {
    assert all - (visited + {current}) == (all - visited) - {current};
  }

  lemma Extended(l: Ledger, first: string, now: int, walked: seq<string>, next: string)
    requires Walked(l, first, now, walked)
    requires Passed(l, walked[|walked| - 1], next, |walked| == 1, now)
    ensures Walked(l, first, now, walked + [next])
  {
  }

  // ---------------------------------------------------------------------------------
  // Resuming
  // ---------------------------------------------------------------------------------

  /** A chain from the first purchase to the source of a prepare, which it meets only at its end. */
  ghost predicate IsResume(l: Ledger, first: string, source: string, path: seq<string>) {
    && IsChain(l, first, path) && path[|path| - 1] == source
    && forall i :: 0 <= i < |path| - 1 ==> path[i] != source
  }

  ghost predicate NoResume(l: Ledger, first: string, source: string) {
    forall path :: !IsResume(l, first, source, path)
  }

  ghost predicate IsEnd(l: Ledger, cycle: string) {
    forall next :: !LeadsTo(l, cycle, next)
  }

  /** The unique successor that received the exact amount. */
  method ExactSuccessor(l: Ledger, successors: map<string, seq<Hop>>, current: string) returns (next: Option<string>)
    requires forall s :: Outgoing(successors, s) == Successors(l.openings, s)
    ensures next.None? ==> IsEnd(l, current)
    ensures next.Some? ==> LeadsTo(l, current, next.value) && current in successors
  {
    var outgoing := Outgoing(successors, current);
    if |outgoing| != 1 || outgoing[0].amount != l.exact {
      return None;
    }
    assert outgoing == [Hop(outgoing[0].cycle, l.exact)];
    return Some(outgoing[0].cycle);
  }

  /** The walk so far: a chain that has not met the source before its end. */
  ghost predicate OnTheWay(l: Ledger, first: string, source: string, walked: seq<string>, current: string, visited: set<string>) {
    && IsChain(l, first, walked) && current == walked[|walked| - 1] && visited == Before(walked)
    && forall i :: 0 <= i < |walked| - 1 ==> walked[i] != source
  }

  lemma GoesOn(l: Ledger, first: string, source: string, walked: seq<string>, current: string, visited: set<string>, next: string)
    requires OnTheWay(l, first, source, walked, current, visited) && current != source && LeadsTo(l, current, next)
    ensures OnTheWay(l, first, source, walked + [next], next, visited + {current})
  {
    ChainExtended(l, first, walked, next);
    BeforeGrows(walked, next);
  }

  lemma GoesNowhere(l: Ledger, first: string, source: string, walked: seq<string>, current: string, visited: set<string>)
    requires OnTheWay(l, first, source, walked, current, visited) && current != source
    requires current in visited || IsEnd(l, current)
    ensures NoResume(l, first, source)
  {
    if current in visited {
      var i :| 0 <= i < |walked| - 1 && walked[i] == current;
      ResumeNeverRepeats(l, first, source, walked, i);
    } else {
      ResumeIsStuck(l, first, source, walked);
    }
  }

  /** Walks the chain until it meets the source or ends. */
  method WalkTo(l: Ledger, successors: map<string, seq<Hop>>, first: string, source: string) returns (found: bool)
    requires forall s :: Outgoing(successors, s) == Successors(l.openings, s)
    ensures found <==> !NoResume(l, first, source)
  {
    var current := first;
    var visited: set<string> := {};
    ghost var walked := [first];
    while current != source
      invariant OnTheWay(l, first, source, walked, current, visited) && visited <= successors.Keys
      decreases |successors.Keys - visited|
    {
      if current in visited {
        GoesNowhere(l, first, source, walked, current, visited);
        return false;
      }
      var next := ExactSuccessor(l, successors, current);
      if next.None? {
        GoesNowhere(l, first, source, walked, current, visited);
        return false;
      }
      VisitedGrows(successors.Keys, visited, current);
      GoesOn(l, first, source, walked, current, visited, next.value);
      walked, visited, current := walked + [next.value], visited + {current}, next.value;
    }
    assert IsResume(l, first, source, walked);
    return true;
  }

  /** The source of the one durable prepare, if it lies on the chain. */
  method LoadExistingPrepare(l: Ledger, prepares: seq<string>, loadable: set<string>, first: string)
      returns (r: Result<Option<string>>)
    ensures r == Ok(None) <==> prepares == []
    ensures r.Ok? && r.value.Some? <==>
              && |prepares| == 1 && WellFormed(l.openings) && prepares[0] in loadable
              && !NoResume(l, first, prepares[0])
    ensures r.Ok? && r.value.Some? ==> r.value.value == prepares[0]
  {
    if prepares == [] {
      return Ok(None);
    }
    if |prepares| != 1 {
      return Refused(OutOfContract);
    }
    var source := prepares[0];
    var read := ReadSuccessors(l.openings);
    if read.Refused? {
      return Refused(OutOfContract);
    }
    var found := WalkTo(l, read.value, first, source);
    return if found && source in loadable then Ok(Some(source)) else Refused(OutOfContract);
  }

  lemma ChainExtended(l: Ledger, first: string, walked: seq<string>, next: string)
    requires IsChain(l, first, walked) && LeadsTo(l, walked[|walked| - 1], next)
    ensures IsChain(l, first, walked + [next])
  {
  }

  lemma {:induction false} ResumeFollows(l: Ledger, first: string, source: string, walked: seq<string>, path: seq<string>, i: nat)
    requires IsChain(l, first, walked) && IsResume(l, first, source, path) && i < |walked|
    requires forall k :: 0 <= k < i ==> walked[k] != source
    ensures i < |path| && walked[i] == path[i]
  {
    if i != 0 {
      ResumeFollows(l, first, source, walked, path, i - 1);
      assert i - 1 != |path| - 1;
      ChainsAgree(l, first, walked, path, i);
    }
  }

  lemma ResumeLeadsOn(l: Ledger, first: string, source: string, walked: seq<string>, path: seq<string>)
    requires IsChain(l, first, walked) && IsResume(l, first, source, path)
    requires forall i :: 0 <= i < |walked| ==> walked[i] != source
    ensures |walked| < |path| && !IsEnd(l, walked[|walked| - 1])
  {
    var n := |walked| - 1;
    ResumeFollows(l, first, source, walked, path, n);
    assert n != |path| - 1;
    assert LeadsTo(l, path[n], path[n + 1]);
  }

  lemma ResumeIsStuck(l: Ledger, first: string, source: string, walked: seq<string>)
    requires IsChain(l, first, walked) && forall i :: 0 <= i < |walked| ==> walked[i] != source
    requires IsEnd(l, walked[|walked| - 1])
    ensures NoResume(l, first, source)
  {
    forall path ensures !IsResume(l, first, source, path) {
      if IsResume(l, first, source, path) {
        ResumeLeadsOn(l, first, source, walked, path);
      }
    }
  }

  /** A chain that has repeated a cycle never meets another one. */
  lemma RepeatedResume(l: Ledger, first: string, source: string, path: seq<string>, i: nat, j: nat)
    requires IsResume(l, first, source, path) && i < j < |path|
    ensures path[i] != path[j]
  {
    var m := |path| - 1 - (j - i);
    assert path[m] != source;
    if path[i] == path[j] {
      RepeatsGoOn(l, first, path, i, j, |path| - 1 - j);
    }
  }

  lemma ResumeNeverRepeats(l: Ledger, first: string, source: string, walked: seq<string>, i: nat)
    requires IsChain(l, first, walked) && forall k :: 0 <= k < |walked| ==> walked[k] != source
    requires i < |walked| - 1 && walked[i] == walked[|walked| - 1]
    ensures NoResume(l, first, source)
  {
    forall path ensures !IsResume(l, first, source, path) {
      if IsResume(l, first, source, path) {
        ResumeFollows(l, first, source, walked, path, i);
        ResumeFollows(l, first, source, walked, path, |walked| - 1);
        RepeatedResume(l, first, source, path, i, |walked| - 1);
      }
    }
  }

  lemma {:induction false} PrepareFollows(l: Ledger, first: string, now: int, path: seq<string>, resume: seq<string>, i: nat)
    requires IsRecovery(l, first, now, path) && IsChain(l, first, resume) && i < |resume|
    ensures i < |path| && resume[i] == path[i]
  {
    if i != 0 {
      PrepareFollows(l, first, now, path, resume, i - 1);
      assert LeadsTo(l, resume[i - 1], resume[i]);
      assert i - 1 != |path| - 1;
      RecoveryIsChain(l, first, now, path);
      LeadsToOne(l, path[i - 1], path[i], resume[i]);
    }
  }

  /** A durable prepare that the resume walk finds lies on the way to the inventory. */
  lemma PrepareLiesOnTheWay(l: Ledger, first: string, now: int, path: seq<string>, source: string, resume: seq<string>)
    requires IsRecovery(l, first, now, path) && IsResume(l, first, source, resume)
    ensures |resume| <= |path| && resume == path[..|resume|] && source in path
  {
    PrepareFollows(l, first, now, path, resume, |resume| - 1);
    forall i | 0 <= i < |resume| ensures resume[i] == path[i] {
      PrepareFollows(l, first, now, path, resume, i);
    }
    assert source == path[|resume| - 1];
  }

  // ---------------------------------------------------------------------------------
  // Phases
  // ---------------------------------------------------------------------------------

  const LAST_PHASE: nat := 6

  /** The durable phases of prepare records, as indices into the fixed order of phases. */
  class PrepareTable {
    var phases: map<string, nat>

    ghost predicate Valid()
      reads this
    {
      forall id :: id in phases ==> phases[id] <= LAST_PHASE
    }

    constructor ()
      ensures Valid() && phases == map[]
    {
      phases := map[];
    }

    /** Repeating the durable phase changes nothing; otherwise only the next phase is admitted. */
    method AdvancePhase(id: string, phase: nat) returns (r: Result<nat>)
      requires Valid()
      modifies this
      ensures Valid()
      ensures r.Ok? <==> phase <= 6 && id in old(phases) && (old(phases)[id] == phase || old(phases)[id] + 1 == phase)
      ensures r.Ok? ==> r.value == phase && phases == old(phases)[id := phase]
      ensures r.Refused? ==> phases == old(phases)
    {
      if LAST_PHASE < phase || id !in phases {
        return Refused(OutOfContract);
      }
      if phases[id] == phase {
        assert phases == phases[id := phase];
        return Ok(phase);
      }
      if phases[id] + 1 != phase {
        return Refused(SafeHalt);
      }
      phases := phases[id := phase];
      return Ok(phase);
    }

    /** Advances only forward: it succeeds exactly when the record read earlier is not behind the
        durable one by more than a step, and a durable phase never goes back. */
    method AdvanceToPhase(id: string, read: nat, phase: nat) returns (r: Result<nat>)
      requires Valid() && read <= LAST_PHASE && phase <= LAST_PHASE
      requires id in phases && read <= phases[id]
      modifies this
      ensures Valid()
      ensures r.Ok? <==> phase <= read || old(phases)[id] <= read + 1
      ensures r.Ok? ==> r.value == (if read < phase then phase else read)
      ensures phases == old(phases)[id := if r.Ok? && old(phases)[id] < phase then phase else old(phases)[id]]
    {
      var current := read;
      assert phases == phases[id := phases[id]];
      while current < phase
        invariant Valid() && read <= current && (current <= phase || current == read)
        invariant id in phases && current <= phases[id]
        invariant current == read ==> phases == old(phases)
        invariant read < current ==> old(phases)[id] <= read + 1
        invariant phases == old(phases)[id := if old(phases)[id] < current then current else old(phases)[id]]
        decreases phase - current
      {
        var next := AdvancePhase(id, current + 1);
        if next.Refused? {
          return Refused(next.error);
        }
        current := next.value;
      }
      return Ok(current);
    }
  }
}
