/** The guarded one-shot transport of the SELL and of the revoke, as steps of invocations that may
    run at once, crash at any point, and lose what was not yet durable when the machine crashes. */
module Transport {

  import opened Outcomes

  datatype Lane = Sell | Revoke

  /** A guard file. It is created exclusively, written and synced, and then its directory entry is
      synced; only then is it durable. */
  datatype Guard = Absent | Present(owner: nat, written: bool, durable: bool)

  /** How far an invocation has come. `nonce` is the account nonce of the bytes it will send. */
  datatype Stage =
    | Starting
    | SawSellGuard
    | Expecting(nonce: nat)
    | Fresh(nonce: nat)
    | Created(nonce: nat)
    | Written(nonce: nat)
    | Durable(nonce: nat)
    | Ended

  datatype Process = Process(lane: Lane, stage: Stage)

  datatype Tx = Tx(lane: Lane, nonce: nat)

  /** The file system, the ledger's view of the SELL, the chain, and the invocations so far. The
      frozen SELL envelope carries the account nonce `frozen`. */
  datatype World = World(
    frozen: nat, sellGuard: Guard, revokeGuard: Guard, prepared: Option<nat>, terminal: bool,
    processes: map<nat, Process>, sent: seq<Tx>, landed: seq<Tx>, accountNonce: nat)
  {
    function GuardOf(lane: Lane): Guard {
      if lane == Sell then sellGuard else revokeGuard
    }

    function WithGuard(lane: Lane, g: Guard): World {
      if lane == Sell then this.(sellGuard := g) else this.(revokeGuard := g)
    }

    function At(pid: nat, stage: Stage): World
      requires pid in processes
    {
      this.(processes := processes[pid := processes[pid].(stage := stage)])
    }

    predicate Is(pid: nat, stage: Stage) {
      pid in processes && processes[pid].stage == stage
    }

    predicate IsIn(pid: nat, lane: Lane, stage: Stage) {
      Is(pid, stage) && processes[pid].lane == lane
    }
  }

  datatype Event =
    | Start(pid: nat, lane: Lane)
    | LookAtSellGuard(pid: nat)
    | ConsultLedger(pid: nat)
    | CheckFreshness(pid: nat)
    | Create(pid: nat)
    | Write(pid: nat)
    | FailWrite(pid: nat)
    | SyncDirectory(pid: nat)
    | Send(pid: nat)
    | Stop(pid: nat)
    | CrashMachine(sellKept: bool, sellWhole: bool, revokeKept: bool, revokeWhole: bool)
    | PrepareRevoke
    | Land(tx: Tx)
    | LandForeign
    | Reconcile

  predicate Beyond(stage: Stage) {
    stage.Created? || stage.Written? || stage.Durable?
  }

  /** The only safe nonce for a revoke: the frozen one while no SELL guard exists, the next one once
      the SELL is terminal in the ledger. */
  function ExpectedRevokeNonce(w: World): Option<nat> {
    if w.sellGuard.Absent? then Some(w.frozen)
    else if w.sellGuard.written && w.terminal then Some(w.frozen + 1)
    else None
  }

  predicate Enabled(w: World, e: Event) {
    match e
    case Start(pid, _) => pid !in w.processes
    case LookAtSellGuard(pid) => w.Is(pid, Starting)
    case ConsultLedger(pid) => w.IsIn(pid, Revoke, SawSellGuard) && w.sellGuard.Present? && w.sellGuard.written && w.terminal
    case CheckFreshness(pid) =>
      && pid in w.processes && w.processes[pid].stage.Expecting?
      && w.accountNonce == w.processes[pid].stage.nonce
      && (w.processes[pid].lane == Revoke ==>
            w.prepared == Some(w.processes[pid].stage.nonce) && w.revokeGuard.Absent?)
    case Create(pid) => pid in w.processes && w.processes[pid].stage.Fresh? && w.GuardOf(w.processes[pid].lane).Absent?
    case Write(pid) => pid in w.processes && w.processes[pid].stage.Created?
    case FailWrite(pid) => pid in w.processes && w.processes[pid].stage.Created?
    case SyncDirectory(pid) => pid in w.processes && w.processes[pid].stage.Written?
    case Send(pid) => pid in w.processes && w.processes[pid].stage.Durable?
    case Stop(pid) => pid in w.processes
    case CrashMachine(_, _, _, _) => true
    case PrepareRevoke =>
      && ExpectedRevokeNonce(w) == Some(w.accountNonce)
      && (w.prepared.None? || w.prepared == Some(w.accountNonce))
    case Land(tx) => tx in w.sent && tx.nonce == w.accountNonce
    case LandForeign => true
    case Reconcile => Tx(Sell, w.frozen) in w.landed
  }

  /** What a machine crash leaves of a guard: a durable one stays, any other may be lost or torn. */
  function Survivor(g: Guard, kept: bool, whole: bool): Guard {
    if g.Absent? || g.durable then g else if kept then g.(durable := true, written := whole) else Absent
  }

  function After(w: World, e: Event): World
    requires Enabled(w, e)
  {
    match e
    case Start(pid, lane) => w.(processes := w.processes[pid := Process(lane, Starting)])
    case LookAtSellGuard(pid) =>
      if w.sellGuard.Absent? then w.At(pid, Expecting(w.frozen))
      else if w.processes[pid].lane == Revoke then w.At(pid, SawSellGuard)
      else w.At(pid, Ended)
    case ConsultLedger(pid) => w.At(pid, Expecting(w.frozen + 1))
    case CheckFreshness(pid) => w.At(pid, Fresh(w.processes[pid].stage.nonce))
    case Create(pid) =>
      w.At(pid, Created(w.processes[pid].stage.nonce)).WithGuard(w.processes[pid].lane, Present(pid, false, false))
    case Write(pid) =>
      w.At(pid, Written(w.processes[pid].stage.nonce)).WithGuard(w.processes[pid].lane, Present(pid, true, false))
    case FailWrite(pid) => w.At(pid, Ended).WithGuard(w.processes[pid].lane, Absent)
    case SyncDirectory(pid) =>
      w.At(pid, Durable(w.processes[pid].stage.nonce)).WithGuard(w.processes[pid].lane, Present(pid, true, true))
    case Send(pid) =>
      w.At(pid, Ended).(sent := w.sent + [Tx(w.processes[pid].lane, w.processes[pid].stage.nonce)])
    case Stop(pid) => w.At(pid, Ended)
    case CrashMachine(sellKept, sellWhole, revokeKept, revokeWhole) =>
      w.(processes := map pid | pid in w.processes :: Process(w.processes[pid].lane, Ended),
         sellGuard := Survivor(w.sellGuard, sellKept, sellWhole),
         revokeGuard := Survivor(w.revokeGuard, revokeKept, revokeWhole))
    case PrepareRevoke => w.(prepared := Some(w.accountNonce))
    case Land(tx) => w.(landed := w.landed + [tx], accountNonce := w.accountNonce + 1)
    case LandForeign => w.(accountNonce := w.accountNonce + 1)
    case Reconcile => w.(terminal := true)
  }

  function Initial(frozen: nat): World {
    World(frozen, Absent, Absent, None, false, map[], [], [], frozen)
  }

  ghost predicate IsRun(w: World, events: seq<Event>)
    decreases |events|
  {
    events == [] || (Enabled(w, events[0]) && IsRun(After(w, events[0]), events[1..]))
  }

  ghost function Final(w: World, events: seq<Event>): World
    requires IsRun(w, events)
    decreases |events|
  {
    if events == [] then w else Final(After(w, events[0]), events[1..])
  }

  // ---------------------------------------------------------------------------------
  // At most once
  // ---------------------------------------------------------------------------------

  function SentIn(sent: seq<Tx>, lane: Lane): nat {
    if sent == [] then 0 else SentIn(sent[..|sent| - 1], lane) + if sent[|sent| - 1].lane == lane then 1 else 0
  }

  lemma SentAppend(sent: seq<Tx>, tx: Tx, lane: Lane)
    ensures SentIn(sent + [tx], lane) == SentIn(sent, lane) + if tx.lane == lane then 1 else 0
  {
  }

  /** Whoever is past the creation of a guard owns it, and it is as far as that invocation. */
  ghost predicate Owned(w: World, lane: Lane) {
    && (w.GuardOf(lane).Present? ==> w.GuardOf(lane).owner in w.processes)
    && forall pid :: pid in w.processes && w.processes[pid].lane == lane && Beyond(w.processes[pid].stage) ==>
         var g := w.GuardOf(lane);
         && g.Present? && g.owner == pid
         && (g.written <==> !w.processes[pid].stage.Created?)
         && (g.durable <==> w.processes[pid].stage.Durable?)
  }

  /** What was sent, was sent once and behind a durable guard, whose owner has nothing more to do. */
  ghost predicate SentOnce(w: World, lane: Lane) {
    && SentIn(w.sent, lane) <= 1
    && (SentIn(w.sent, lane) == 1 ==>
          && w.GuardOf(lane).Present? && w.GuardOf(lane).durable && w.GuardOf(lane).written
          && forall pid :: pid in w.processes && w.processes[pid].lane == lane ==> !Beyond(w.processes[pid].stage))
  }

  ghost predicate Guarded(w: World) {
    Owned(w, Sell) && Owned(w, Revoke) && SentOnce(w, Sell) && SentOnce(w, Revoke)
  }

  lemma NothingGuardedChanges(w: World, k: World)
    requires Guarded(w)
    requires k.sellGuard == w.sellGuard && k.revokeGuard == w.revokeGuard && k.sent == w.sent && k.processes == w.processes
    ensures Guarded(k)
  {
  }

  /** An invocation that starts, looks around or ends touches no guard. */
  lemma QuietStep(w: World, k: World, pid: nat, p: Process)
    requires Guarded(w) && !Beyond(p.stage)
    requires k.sellGuard == w.sellGuard && k.revokeGuard == w.revokeGuard && k.sent == w.sent
    requires k.processes == w.processes[pid := p]
    ensures Guarded(k)
  {
  }

  /** An invocation that works on the guard of its lane leaves the other lane alone. */
  lemma OtherLane(w: World, k: World, pid: nat, lane: Lane, other: Lane)
    requires Guarded(w) && lane != other && pid in w.processes && w.processes[pid].lane == lane
    requires k.GuardOf(other) == w.GuardOf(other) && k.sent == w.sent
    requires pid in k.processes && k.processes[pid].lane == lane && k.processes == w.processes[pid := k.processes[pid]]
    ensures Owned(k, other) && SentOnce(k, other)
  {
  }

  lemma GuardStep(w: World, e: Event, pid: nat, lane: Lane)
    requires Guarded(w) && Enabled(w, e)
    requires e == Create(pid) || e == Write(pid) || e == FailWrite(pid) || e == SyncDirectory(pid)
    requires lane == w.processes[pid].lane
    ensures Owned(After(w, e), lane) && SentOnce(After(w, e), lane)
  {
    if e != Create(pid) {
      assert w.GuardOf(lane).Present? && w.GuardOf(lane).owner == pid;
    }
  }

  lemma SendStep(w: World, k: World, pid: nat, tx: Tx, lane: Lane)
    requires Guarded(w) && Enabled(w, Send(pid)) && tx.lane == w.processes[pid].lane
    requires k.sellGuard == w.sellGuard && k.revokeGuard == w.revokeGuard && k.sent == w.sent + [tx]
    requires k.processes == w.processes[pid := Process(tx.lane, Ended)]
    ensures Owned(k, lane) && SentOnce(k, lane)
  {
    SentAppend(w.sent, tx, lane);
  }

  lemma CrashStep(w: World, e: Event, lane: Lane)
    requires Guarded(w) && e.CrashMachine?
    ensures Owned(After(w, e), lane) && SentOnce(After(w, e), lane)
  {
  }

  lemma StepKeepsGuarded(w: World, e: Event)
    requires Guarded(w) && Enabled(w, e)
    ensures Guarded(After(w, e))
  {
    var k := After(w, e);
    match e
    case Start(pid, lane) => QuietStep(w, k, pid, Process(lane, Starting));
    case LookAtSellGuard(pid) => QuietStep(w, k, pid, k.processes[pid]);
    case ConsultLedger(pid) => QuietStep(w, k, pid, k.processes[pid]);
    case CheckFreshness(pid) => QuietStep(w, k, pid, k.processes[pid]);
    case Stop(pid) => QuietStep(w, k, pid, k.processes[pid]);
    case Send(pid) =>
      var tx := Tx(w.processes[pid].lane, w.processes[pid].stage.nonce);
      SendStep(w, k, pid, tx, Sell);
      SendStep(w, k, pid, tx, Revoke);
    case CrashMachine(_, _, _, _) =>
      CrashStep(w, e, Sell);
      CrashStep(w, e, Revoke);
    case PrepareRevoke => NothingGuardedChanges(w, k);
    case Land(_) => NothingGuardedChanges(w, k);
    case LandForeign => NothingGuardedChanges(w, k);
    case Reconcile => NothingGuardedChanges(w, k);
    case _ =>
      var lane := w.processes[e.pid].lane;
      GuardStep(w, e, e.pid, lane);
      OtherLane(w, k, e.pid, lane, if lane == Sell then Revoke else Sell);
  }

  lemma {:induction false} RunKeepsGuarded(w: World, events: seq<Event>)
    requires Guarded(w) && IsRun(w, events)
    ensures Guarded(Final(w, events))
    decreases |events|
  {
    if events != [] {
      StepKeepsGuarded(w, events[0]);
      RunKeepsGuarded(After(w, events[0]), events[1..]);
    }
  }

  /** Over all interleavings of concurrent and crashing invocations, the bytes of each lane reach
      transport at most once, and only behind a guard that is durable then and ever after. */
  lemma TransportedAtMostOnce(frozen: nat, events: seq<Event>)
    requires IsRun(Initial(frozen), events)
    ensures var w := Final(Initial(frozen), events);
            forall lane :: SentIn(w.sent, lane) <= 1
                           && (SentIn(w.sent, lane) == 1 ==> w.GuardOf(lane).Present? && w.GuardOf(lane).durable)
  {
    RunKeepsGuarded(Initial(frozen), events);
  }

  /** Once bytes were sent, every later invocation of that lane only observes: it never again gets
      past the creation of a guard. */
  lemma LaterInvocationsObserve(frozen: nat, events: seq<Event>, pid: nat)
    requires IsRun(Initial(frozen), events) && pid in Final(Initial(frozen), events).processes
    ensures var w := Final(Initial(frozen), events);
            SentIn(w.sent, w.processes[pid].lane) == 1 ==> !Beyond(w.processes[pid].stage) && !Enabled(w, Create(pid))
  {
    RunKeepsGuarded(Initial(frozen), events);
  }

  // ---------------------------------------------------------------------------------
  // Nonces
  // ---------------------------------------------------------------------------------

  function NonceOf(stage: Stage): Option<nat> {
    match stage
    case Expecting(n) => Some(n)
    case Fresh(n) => Some(n)
    case Created(n) => Some(n)
    case Written(n) => Some(n)
    case Durable(n) => Some(n)
    case _ => None
  }

  /** Which nonces the lanes may use: the SELL the frozen one, the revoke that one or, once the SELL
      is terminal, the next. */
  predicate MayUse(w: World, lane: Lane, nonce: nat) {
    nonce == w.frozen || (lane == Revoke && nonce == w.frozen + 1 && w.terminal)
  }

  /** A landed transaction was sent; nonces land in order, each once; a terminal SELL has landed. */
  ghost predicate Orderly(w: World) {
    && (forall tx :: tx in w.sent ==> MayUse(w, tx.lane, tx.nonce))
    && (forall pid :: pid in w.processes && NonceOf(w.processes[pid].stage).Some? ==>
          MayUse(w, w.processes[pid].lane, NonceOf(w.processes[pid].stage).value))
    && (forall tx :: tx in w.landed ==> tx in w.sent && tx.nonce < w.accountNonce)
    && (forall s, t :: s in w.landed && t in w.landed && s.nonce == t.nonce ==> s == t)
    && (w.terminal ==> Tx(Sell, w.frozen) in w.landed)
    && w.frozen <= w.accountNonce
  }

  lemma StageStepKeepsOrderly(w: World, k: World, pid: nat, p: Process)
    requires Orderly(w)
    requires k.frozen == w.frozen && k.terminal == w.terminal && k.sent == w.sent && k.landed == w.landed
    requires k.accountNonce == w.accountNonce && k.processes == w.processes[pid := p]
    requires NonceOf(p.stage).Some? ==> MayUse(w, p.lane, NonceOf(p.stage).value)
    ensures Orderly(k)
  {
  }

  /** An invocation that goes on keeps its nonce. */
  lemma NonceKept(w: World, pid: nat)
    requires Orderly(w) && pid in w.processes && NonceOf(w.processes[pid].stage).Some?
    ensures MayUse(w, w.processes[pid].lane, NonceOf(w.processes[pid].stage).value)
  {
  }

  lemma SendKeepsOrderly(w: World, pid: nat)
    requires Orderly(w) && Enabled(w, Send(pid))
    ensures Orderly(After(w, Send(pid)))
  {
    var p := w.processes[pid];
    assert NonceOf(p.stage).Some? && MayUse(w, p.lane, p.stage.nonce);
  }

  lemma ChainStepKeepsOrderly(w: World, e: Event)
    requires Orderly(w) && Enabled(w, e) && (e.Land? || e.LandForeign? || e.Reconcile? || e.PrepareRevoke? || e.CrashMachine?)
    ensures Orderly(After(w, e))
  {
  }

  lemma StepKeepsOrderly(w: World, e: Event)
    requires Orderly(w) && Enabled(w, e)
    ensures Orderly(After(w, e))
  {
    var k := After(w, e);
    match e
    case Start(pid, lane) => StageStepKeepsOrderly(w, k, pid, Process(lane, Starting));
    case LookAtSellGuard(pid) => StageStepKeepsOrderly(w, k, pid, k.processes[pid]);
    case ConsultLedger(pid) => StageStepKeepsOrderly(w, k, pid, k.processes[pid]);
    case CheckFreshness(pid) =>
      NonceKept(w, pid);
      StageStepKeepsOrderly(w, k, pid, k.processes[pid]);
    case Create(pid) =>
      NonceKept(w, pid);
      StageStepKeepsOrderly(w, k, pid, k.processes[pid]);
    case Write(pid) =>
      NonceKept(w, pid);
      StageStepKeepsOrderly(w, k, pid, k.processes[pid]);
    case FailWrite(pid) => StageStepKeepsOrderly(w, k, pid, k.processes[pid]);
    case SyncDirectory(pid) =>
      NonceKept(w, pid);
      StageStepKeepsOrderly(w, k, pid, k.processes[pid]);
    case Stop(pid) => StageStepKeepsOrderly(w, k, pid, k.processes[pid]);
    case Send(pid) => SendKeepsOrderly(w, pid);
    case CrashMachine(_, _, _, _) => ChainStepKeepsOrderly(w, e);
    case PrepareRevoke => ChainStepKeepsOrderly(w, e);
    case Land(_) => ChainStepKeepsOrderly(w, e);
    case LandForeign => ChainStepKeepsOrderly(w, e);
    case Reconcile => ChainStepKeepsOrderly(w, e);
  }

  lemma {:induction false} RunKeepsOrderly(w: World, events: seq<Event>)
    requires Orderly(w) && IsRun(w, events)
    ensures Orderly(Final(w, events)) && Final(w, events).frozen == w.frozen
    decreases |events|
  {
    if events != [] {
      StepKeepsOrderly(w, events[0]);
      RunKeepsOrderly(After(w, events[0]), events[1..]);
    }
  }

  /** Over all interleavings: a revoke is sent with the frozen nonce or, only after the SELL is
      terminal and so has landed, with the next one; the SELL and a revoke of the frozen nonce never
      both land. */
  lemma SellAndEarlyRevokeNeverBothLand(frozen: nat, events: seq<Event>)
    requires IsRun(Initial(frozen), events)
    ensures var w := Final(Initial(frozen), events);
            && (forall tx :: tx in w.sent ==>
                  if tx.lane == Sell then tx.nonce == frozen else tx.nonce == frozen || tx.nonce == frozen + 1)
            && (Tx(Revoke, frozen + 1) in w.sent ==> Tx(Sell, frozen) in w.landed)
            && !(Tx(Sell, frozen) in w.landed && Tx(Revoke, frozen) in w.landed)
  {
    RunKeepsOrderly(Initial(frozen), events);
  }

  // ---------------------------------------------------------------------------------
  // What is sent, and when
  // ---------------------------------------------------------------------------------

  /** A revoke is prepared either for the frozen nonce, while no SELL guard exists, or for the next one, when
      the guard is whole and the ledger has the SELL as terminal; and always for the account's own nonce. */
  lemma PreparedOnlyWhenSafe(w: World)
    requires Enabled(w, PrepareRevoke)
    ensures After(w, PrepareRevoke).prepared == Some(w.accountNonce)
    ensures if w.accountNonce == w.frozen then w.sellGuard.Absent?
            else w.accountNonce == w.frozen + 1 && w.sellGuard.Present? && w.sellGuard.written && w.terminal
  {
  }

  /** An invocation that passed the freshness check. */
  predicate PastFreshness(stage: Stage) {
    stage.Fresh? || stage.Created? || stage.Written? || stage.Durable?
  }

  /** The nonce is the account's or behind it; and if it is a revoke's, it is the prepared one. */
  predicate Checked(w: World, lane: Lane, nonce: nat) {
    nonce <= w.accountNonce && (lane == Revoke ==> w.prepared == Some(nonce))
  }

  /** A prepared revoke is for the frozen nonce, or for the next one of a terminal SELL; whatever passed the
      freshness check, and whatever was sent, was checked. */
  ghost predicate AllChecked(w: World) {
    && (w.prepared.Some? ==> w.prepared.value == w.frozen || (w.prepared.value == w.frozen + 1 && w.terminal))
    && (forall pid :: pid in w.processes && PastFreshness(w.processes[pid].stage) ==>
          Checked(w, w.processes[pid].lane, w.processes[pid].stage.nonce))
    && (forall tx :: tx in w.sent ==> Checked(w, tx.lane, tx.nonce))
  }

  lemma StepKeepsChecked(w: World, k: World, pid: nat, p: Process)
    requires AllChecked(w)
    requires k.frozen == w.frozen && k.terminal == w.terminal && k.sent == w.sent && k.prepared == w.prepared
    requires k.accountNonce == w.accountNonce && k.processes == w.processes[pid := p]
    requires PastFreshness(p.stage) ==> Checked(w, p.lane, p.stage.nonce)
    ensures AllChecked(k)
  {
  }

  lemma EventKeepsChecked(w: World, e: Event)
    requires AllChecked(w) && Enabled(w, e)
    ensures AllChecked(After(w, e))
  {
    var k := After(w, e);
    match e
    case Start(pid, lane) => StepKeepsChecked(w, k, pid, Process(lane, Starting));
    case LookAtSellGuard(pid) => StepKeepsChecked(w, k, pid, k.processes[pid]);
    case ConsultLedger(pid) => StepKeepsChecked(w, k, pid, k.processes[pid]);
    case CheckFreshness(pid) => StepKeepsChecked(w, k, pid, k.processes[pid]);
    case Create(pid) => StepKeepsChecked(w, k, pid, k.processes[pid]);
    case Write(pid) => StepKeepsChecked(w, k, pid, k.processes[pid]);
    case FailWrite(pid) => StepKeepsChecked(w, k, pid, k.processes[pid]);
    case SyncDirectory(pid) => StepKeepsChecked(w, k, pid, k.processes[pid]);
    case Stop(pid) => StepKeepsChecked(w, k, pid, k.processes[pid]);
    case Send(pid) => assert Checked(w, w.processes[pid].lane, w.processes[pid].stage.nonce);
    case CrashMachine(_, _, _, _) =>
    case PrepareRevoke =>
    case Land(_) =>
    case LandForeign =>
    case Reconcile =>
  }

  lemma {:induction false} RunKeepsChecked(w: World, events: seq<Event>)
    requires AllChecked(w) && IsRun(w, events)
    ensures AllChecked(Final(w, events)) && Final(w, events).frozen == w.frozen
    decreases |events|
  {
    if events != [] {
      EventKeepsChecked(w, events[0]);
      RunKeepsChecked(After(w, events[0]), events[1..]);
    }
  }

  /** Over all interleavings: nothing is sent whose nonce the account had not reached, and a revoke is sent
      only with the one nonce that was prepared, which is the frozen one, or the next once the SELL is
      terminal. */
  lemma SentOnlyWhenChecked(frozen: nat, events: seq<Event>, tx: Tx)
    requires IsRun(Initial(frozen), events) && tx in Final(Initial(frozen), events).sent
    ensures var w := Final(Initial(frozen), events);
            && tx.nonce <= w.accountNonce
            && (tx.lane == Revoke ==> w.prepared == Some(tx.nonce))
            && (tx.lane == Revoke ==> tx.nonce == frozen || (tx.nonce == frozen + 1 && w.terminal))
  {
    RunKeepsChecked(Initial(frozen), events);
    assert Checked(Final(Initial(frozen), events), tx.lane, tx.nonce);
  }

  /** What can be done about the guards is decided by what is on the disk: an invocation that finds a SELL
      guard never sells; a guard is created only where there is none; and a write that fails takes its guard
      away again, so that the lane can be tried again. */
  lemma GuardsDecide(w: World, pid: nat)
    requires pid in w.processes
    ensures Enabled(w, LookAtSellGuard(pid)) && w.processes[pid].lane == Sell && w.sellGuard != Absent ==>
              After(w, LookAtSellGuard(pid)).processes[pid].stage == Ended
    ensures Enabled(w, Create(pid)) ==>
              (if w.processes[pid].lane == Sell then w.sellGuard else w.revokeGuard) == Absent
    ensures Enabled(w, FailWrite(pid)) ==>
              var k := After(w, FailWrite(pid));
              k.processes[pid].stage == Ended && (if w.processes[pid].lane == Sell then k.sellGuard else k.revokeGuard) == Absent
  {
  }

  /** A crash of the machine ends every invocation; a guard whose directory entry was synced survives it
      whole, and any other is lost, or kept with content that may be torn. */
  lemma CrashDecides(w: World, sellKept: bool, sellWhole: bool, revokeKept: bool, revokeWhole: bool)
    ensures var k := After(w, CrashMachine(sellKept, sellWhole, revokeKept, revokeWhole));
            && (forall pid :: pid in k.processes ==> k.processes[pid].stage == Ended)
            && (w.sellGuard.Present? && w.sellGuard.durable ==> k.sellGuard == w.sellGuard)
            && (w.sellGuard.Present? && !w.sellGuard.durable ==>
                  k.sellGuard == if sellKept then Present(w.sellGuard.owner, sellWhole, true) else Absent)
            && (w.sellGuard.Absent? ==> k.sellGuard.Absent?)
            && k.sent == w.sent && k.landed == w.landed && k.accountNonce == w.accountNonce
  {
  }

  /** A transaction lands only when it was sent, and only with the account's own nonce; every one that lands, of
      this process or not, takes one nonce. */
  lemma LandingTakesTheNonce(w: World, tx: Tx)
    ensures Enabled(w, Land(tx)) <==> tx in w.sent && tx.nonce == w.accountNonce
    ensures Enabled(w, Land(tx)) ==> After(w, Land(tx)) == w.(landed := w.landed + [tx], accountNonce := w.accountNonce + 1)
    ensures After(w, LandForeign) == w.(accountNonce := w.accountNonce + 1)
  {
  }

  // ---------------------------------------------------------------------------------
  // A revoke beside a SELL guard
  // ---------------------------------------------------------------------------------

  /** A revoke that decided on the frozen nonce is under way. */
  predicate IsEarly(p: Process, frozen: nat) {
    p.lane == Revoke && NonceOf(p.stage) == Some(frozen)
  }

  ghost predicate EarlyRevokeUnderWay(w: World) {
    exists pid :: pid in w.processes && IsEarly(w.processes[pid], w.frozen)
  }

  /** A SELL guard stands beside an early revoke. */
  ghost predicate Beside(w: World) {
    w.sellGuard.Present? && EarlyRevokeUnderWay(w)
  }

  /** The step creates a SELL guard. */
  predicate CreatesSellGuard(w: World, e: Event) {
    e.Create? && Enabled(w, e) && w.processes[e.pid].lane == Sell
  }

  ghost predicate NeverBeside(w: World, events: seq<Event>)
    requires IsRun(w, events)
    decreases |events|
  {
    !Beside(w) && (events != [] ==> NeverBeside(After(w, events[0]), events[1..]))
  }

  ghost predicate NeverCreatedBeside(w: World, events: seq<Event>)
    requires IsRun(w, events)
    decreases |events|
  {
    events != [] ==>
      && !(CreatesSellGuard(w, events[0]) && EarlyRevokeUnderWay(w))
      && NeverCreatedBeside(After(w, events[0]), events[1..])
  }

  /** The SELL guard that an invocation past its creation works on stands already. */
  lemma OwnGuardStands(w: World, pid: nat)
    requires Guarded(w) && pid in w.processes && w.processes[pid].lane == Sell && Beyond(w.processes[pid].stage)
    ensures w.sellGuard.Present?
  {
    assert w.GuardOf(Sell) == w.sellGuard;
  }

  lemma StageStepKeepsApart(w: World, k: World, pid: nat, p: Process)
    requires !Beside(w) && k.frozen == w.frozen && k.processes == w.processes[pid := p]
    requires k.sellGuard.Present? ==> w.sellGuard.Present? && !IsEarly(p, w.frozen)
    ensures !Beside(k)
  {
    forall other | k.sellGuard.Present? && other in k.processes ensures !IsEarly(k.processes[other], k.frozen) {
      assert other == pid || k.processes[other] == w.processes[other];
    }
  }

  /** An invocation that goes on with its nonce is early only if it was. */
  lemma WorkStepKeepsApart(w: World, k: World, pid: nat)
    requires !Beside(w) && k.frozen == w.frozen && pid in w.processes && pid in k.processes
    requires k.processes == w.processes[pid := k.processes[pid]]
    requires IsEarly(k.processes[pid], w.frozen) ==> IsEarly(w.processes[pid], w.frozen)
    requires k.sellGuard.Present? ==> w.sellGuard.Present?
    ensures !Beside(k)
  {
    if k.sellGuard.Present? {
      assert !IsEarly(w.processes[pid], w.frozen);
    }
    StageStepKeepsApart(w, k, pid, k.processes[pid]);
  }

  lemma CreateStep(w: World, pid: nat)
    requires Enabled(w, Create(pid)) && !Beside(w)
    ensures Beside(After(w, Create(pid))) <==> CreatesSellGuard(w, Create(pid)) && EarlyRevokeUnderWay(w)
  {
    var k := After(w, Create(pid));
    if w.processes[pid].lane == Sell {
      if EarlyRevokeUnderWay(w) {
        var other :| other in w.processes && IsEarly(w.processes[other], w.frozen);
        assert IsEarly(k.processes[other], k.frozen);
      }
      if EarlyRevokeUnderWay(k) {
        var other :| other in k.processes && IsEarly(k.processes[other], k.frozen);
        assert IsEarly(w.processes[other], w.frozen);
      }
    } else {
      WorkStepKeepsApart(w, k, pid);
    }
  }

  /** Of all steps, only the creation of a SELL guard while an early revoke is under way brings the two
      together. */
  lemma StepBringsTogether(w: World, e: Event)
    requires Guarded(w) && !Beside(w) && Enabled(w, e)
    ensures Beside(After(w, e)) <==> CreatesSellGuard(w, e) && EarlyRevokeUnderWay(w)
  {
    var k := After(w, e);
    match e
    case Create(pid) => CreateStep(w, pid);
    case Start(pid, lane) => StageStepKeepsApart(w, k, pid, Process(lane, Starting));
    case LookAtSellGuard(pid) => StageStepKeepsApart(w, k, pid, k.processes[pid]);
    case ConsultLedger(pid) => StageStepKeepsApart(w, k, pid, k.processes[pid]);
    case CheckFreshness(pid) => WorkStepKeepsApart(w, k, pid);
    case Write(pid) =>
      if w.processes[pid].lane == Sell { OwnGuardStands(w, pid); }
      WorkStepKeepsApart(w, k, pid);
    case SyncDirectory(pid) =>
      if w.processes[pid].lane == Sell { OwnGuardStands(w, pid); }
      WorkStepKeepsApart(w, k, pid);
    case FailWrite(pid) => WorkStepKeepsApart(w, k, pid);
    case Send(pid) => WorkStepKeepsApart(w, k, pid);
    case Stop(pid) => WorkStepKeepsApart(w, k, pid);
    case CrashMachine(_, _, _, _) => assert !EarlyRevokeUnderWay(k);
    case PrepareRevoke => assert EarlyRevokeUnderWay(k) == EarlyRevokeUnderWay(w);
    case Land(_) => assert EarlyRevokeUnderWay(k) == EarlyRevokeUnderWay(w);
    case LandForeign => assert EarlyRevokeUnderWay(k) == EarlyRevokeUnderWay(w);
    case Reconcile => assert EarlyRevokeUnderWay(k) == EarlyRevokeUnderWay(w);
  }

  lemma {:induction false} NeverTogetherExactly(w: World, events: seq<Event>)
    requires Guarded(w) && !Beside(w) && IsRun(w, events)
    ensures NeverBeside(w, events) <==> NeverCreatedBeside(w, events)
    ensures NeverBeside(w, events) ==> !Beside(Final(w, events))
    decreases |events|
  {
    if events != [] {
      var k := After(w, events[0]);
      StepKeepsGuarded(w, events[0]);
      StepBringsTogether(w, events[0]);
      if !Beside(k) {
        NeverTogetherExactly(k, events[1..]);
      }
    }
  }

  /** Over every run: no early revoke is ever under way beside a SELL guard, exactly when no step
      creates a SELL guard while an early revoke is under way. */
  lemma EarlyRevokeStaysAloneExactly(frozen: nat, events: seq<Event>)
    requires IsRun(Initial(frozen), events)
    ensures NeverBeside(Initial(frozen), events) <==> NeverCreatedBeside(Initial(frozen), events)
  {
    NeverTogetherExactly(Initial(frozen), events);
  }

  /** In such a run, a revoke about to send with the frozen nonce finds no SELL guard, so no SELL was
      ever sent; with the next nonce it follows a landed SELL. */
  lemma EarlyRevokeMeansNoSell(frozen: nat, events: seq<Event>, pid: nat)
    requires IsRun(Initial(frozen), events) && NeverCreatedBeside(Initial(frozen), events)
    requires var w := Final(Initial(frozen), events);
             pid in w.processes && w.processes[pid].lane == Revoke && Enabled(w, Send(pid))
    ensures var w := Final(Initial(frozen), events);
            var nonce := w.processes[pid].stage.nonce;
            && (nonce == frozen ==> w.sellGuard.Absent? && SentIn(w.sent, Sell) == 0)
            && (nonce != frozen ==> nonce == frozen + 1 && Tx(Sell, frozen) in w.landed)
  {
    var w := Final(Initial(frozen), events);
    NeverTogetherExactly(Initial(frozen), events);
    RunKeepsOrderly(Initial(frozen), events);
    RunKeepsGuarded(Initial(frozen), events);
    var p := w.processes[pid];
    assert NonceOf(p.stage) == Some(p.stage.nonce) && MayUse(w, Revoke, p.stage.nonce);
    if p.stage.nonce == frozen { assert IsEarly(p, w.frozen); }
  }

  // ---------------------------------------------------------------------------------
  // Runs without overlap
  // ---------------------------------------------------------------------------------

  /** An invocation starts only when every earlier one has ended. */
  predicate Alone(w: World, e: Event) {
    e.Start? ==> forall pid :: pid in w.processes ==> w.processes[pid].stage == Ended
  }

  ghost predicate IsSequential(w: World, events: seq<Event>)
    requires IsRun(w, events)
    decreases |events|
  {
    events == [] || (Alone(w, events[0]) && IsSequential(After(w, events[0]), events[1..]))
  }

  /** At most one invocation is under way. */
  ghost predicate OneAtATime(w: World) {
    forall p, q :: p in w.processes && q in w.processes && p != q ==>
      w.processes[p].stage == Ended || w.processes[q].stage == Ended
  }

  lemma StepKeepsOneAtATime(w: World, e: Event)
    requires OneAtATime(w) && Enabled(w, e) && Alone(w, e)
    ensures OneAtATime(After(w, e))
    ensures !(CreatesSellGuard(w, e) && EarlyRevokeUnderWay(w))
  {
  }

  /** Runs without overlap are among those: an invocation that creates a SELL guard is the only one
      under way. */
  lemma {:induction false} SequentialNeverCreatesBeside(w: World, events: seq<Event>)
    requires OneAtATime(w) && IsRun(w, events) && IsSequential(w, events)
    ensures NeverCreatedBeside(w, events)
    decreases |events|
  {
    if events != [] {
      StepKeepsOneAtATime(w, events[0]);
      SequentialNeverCreatesBeside(After(w, events[0]), events[1..]);
    }
  }

  /** So without overlap, no revoke of the frozen nonce is sent once a SELL guard stands. */
  lemma SequentialEarlyRevokeMeansNoSell(frozen: nat, events: seq<Event>, pid: nat)
    requires IsRun(Initial(frozen), events) && IsSequential(Initial(frozen), events)
    requires var w := Final(Initial(frozen), events);
             pid in w.processes && w.processes[pid].lane == Revoke && Enabled(w, Send(pid))
    ensures var w := Final(Initial(frozen), events);
            var nonce := w.processes[pid].stage.nonce;
            && (nonce == frozen ==> w.sellGuard.Absent? && SentIn(w.sent, Sell) == 0)
            && (nonce != frozen ==> nonce == frozen + 1 && Tx(Sell, frozen) in w.landed)
  {
    SequentialNeverCreatesBeside(Initial(frozen), events);
    EarlyRevokeMeansNoSell(frozen, events, pid);
  }

  lemma Begin(w: World, e: Event, rest: seq<Event>)
    requires Enabled(w, e) && IsRun(After(w, e), rest)
    ensures IsRun(w, [e] + rest) && Final(w, [e] + rest) == Final(After(w, e), rest)
  {
  }

  lemma {:induction false} RunsJoin(w: World, s: seq<Event>, t: seq<Event>)
    requires IsRun(w, s) && IsRun(Final(w, s), t)
    ensures IsRun(w, s + t) && Final(w, s + t) == Final(Final(w, s), t)
    decreases |s|
  {
    if s == [] {
      assert s + t == t;
    } else {
      RunsJoin(After(w, s[0]), s[1..], t);
      assert s + t == [s[0]] + (s[1..] + t);
      Begin(w, s[0], s[1..] + t);
    }
  }

  function Sending(pid: nat): seq<Event> {
    [CheckFreshness(pid), Create(pid), Write(pid), SyncDirectory(pid), Send(pid)]
  }

  /** An undisturbed invocation that knows its nonce sends. */
  lemma UndisturbedSends(w: World, pid: nat, lane: Lane, nonce: nat)
    requires w.IsIn(pid, lane, Expecting(nonce)) && w.GuardOf(lane).Absent? && w.accountNonce == nonce
    requires lane == Revoke ==> w.prepared == Some(nonce)
    ensures IsRun(w, Sending(pid))
    ensures Final(w, Sending(pid))
         == w.At(pid, Ended).WithGuard(lane, Present(pid, true, true)).(sent := w.sent + [Tx(lane, nonce)])
  {
    var w1 := After(w, CheckFreshness(pid));
    var w2 := After(w1, Create(pid));
    GuardedSends(w2, pid, lane, nonce);
    Begin(w1, Create(pid), [Write(pid), SyncDirectory(pid), Send(pid)]);
    Begin(w, CheckFreshness(pid), [Create(pid), Write(pid), SyncDirectory(pid), Send(pid)]);
  }

  lemma GuardedSends(w: World, pid: nat, lane: Lane, nonce: nat)
    requires w.IsIn(pid, lane, Created(nonce))
    ensures IsRun(w, [Write(pid), SyncDirectory(pid), Send(pid)])
    ensures Final(w, [Write(pid), SyncDirectory(pid), Send(pid)])
         == w.At(pid, Ended).WithGuard(lane, Present(pid, true, true)).(sent := w.sent + [Tx(lane, nonce)])
  {
    var w1 := After(w, Write(pid));
    var w2 := After(w1, SyncDirectory(pid));
    Begin(w2, Send(pid), []);
    Begin(w1, SyncDirectory(pid), [Send(pid)]);
    Begin(w, Write(pid), [SyncDirectory(pid), Send(pid)]);
  }

  lemma BothLook(frozen: nat)
    ensures var events := [PrepareRevoke, Start(1, Revoke), LookAtSellGuard(1), Start(0, Sell), LookAtSellGuard(0)];
            && IsRun(Initial(frozen), events)
            && Final(Initial(frozen), events) == World(frozen, Absent, Absent, Some(frozen), false,
                 map[1 := Process(Revoke, Expecting(frozen)), 0 := Process(Sell, Expecting(frozen))], [], [], frozen)
  {
    var w0 := Initial(frozen);
    var w1 := After(w0, PrepareRevoke);
    var w2 := After(w1, Start(1, Revoke));
    var w3 := After(w2, LookAtSellGuard(1));
    var w4 := After(w3, Start(0, Sell));
    Begin(w4, LookAtSellGuard(0), []);
    Begin(w3, Start(0, Sell), [LookAtSellGuard(0)]);
    Begin(w2, LookAtSellGuard(1), [Start(0, Sell), LookAtSellGuard(0)]);
    Begin(w1, Start(1, Revoke), [LookAtSellGuard(1), Start(0, Sell), LookAtSellGuard(0)]);
    Begin(w0, PrepareRevoke, [Start(1, Revoke), LookAtSellGuard(1), Start(0, Sell), LookAtSellGuard(0)]);
  }

  /** With overlap it is not so: a revoke that looked before the SELL guard was created sends with
      the frozen nonce after the SELL was sent. The two then compete for one nonce. */
  lemma OverlappingRevokeMayFollowSell(frozen: nat)
    ensures var events := [PrepareRevoke, Start(1, Revoke), LookAtSellGuard(1), Start(0, Sell), LookAtSellGuard(0)]
                          + (Sending(0) + Sending(1));
            IsRun(Initial(frozen), events)
            && Final(Initial(frozen), events).sent == [Tx(Sell, frozen), Tx(Revoke, frozen)]
  {
    BothLook(frozen);
    var looked := [PrepareRevoke, Start(1, Revoke), LookAtSellGuard(1), Start(0, Sell), LookAtSellGuard(0)];
    BothSend(Final(Initial(frozen), looked), frozen);
    RunsJoin(Initial(frozen), looked, Sending(0) + Sending(1));
  }

  lemma BothSend(w: World, frozen: nat)
    requires w == World(frozen, Absent, Absent, Some(frozen), false,
                        map[1 := Process(Revoke, Expecting(frozen)), 0 := Process(Sell, Expecting(frozen))], [], [], frozen)
    ensures IsRun(w, Sending(0) + Sending(1))
    ensures Final(w, Sending(0) + Sending(1)).sent == [Tx(Sell, frozen), Tx(Revoke, frozen)]
  {
    UndisturbedSends(w, 0, Sell, frozen);
    UndisturbedSends(Final(w, Sending(0)), 1, Revoke, frozen);
    RunsJoin(w, Sending(0), Sending(1));
  }
}
