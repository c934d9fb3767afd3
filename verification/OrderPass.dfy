/**
  One pass of an order through the block loop, as the effects it leaves behind.

  A pass is decided by the order, the configuration and what the outside world answers
  (`Judge`). Its durable effects (store saves, relayer calls, recorded executions) form a
  sequence (`PassEffects`). Power can be lost between any two of them, and a save can fail
  silently, so everything that must survive a crash is proved for every prefix of that
  sequence and every set of lost saves.
 */
module OrderPass {
  import opened Wrappers
  import Fees = FeePolicy
  import Retry = ConsensusRetry

  type OrderId = string

  datatype Status =
    | Open | Assigned | Solved | Scored | Approved | Submitted | Filled | Rejected | Expired
    | Cancelled | Unstaking | Bridging | BridgeFailed | ExecutingLeg | RollingBack | RolledBack
    | PartialRollback

  datatype Order = Order(
    id: OrderId,
    owner: string,      // submitted_by, in lower case
    status: Status,
    perpetual: bool,
    maxExecutions: int,
    cooldown: real,
    deadline: real,
    executionCount: int,
    lastFilledAt: real,
    lockedFee: int,     // params["platform_fee_wei"]
    userSubmits: bool)  // params["_user_submit"]

  /** How often the relayer may be called for an order: its executions, but at least once. */
  function Cap(o: Order): int {
    if o.perpetual && o.maxExecutions > 1 then o.maxExecutions else 1
  }

  function Executed(o: Order): int {
    if o.perpetual then o.executionCount else 0
  }

  predicate SameTerms(a: Order, b: Order) {
    a.id == b.id && a.perpetual == b.perpetual && a.maxExecutions == b.maxExecutions
  }

  /** The order may be worked on: every relayer call so far is counted, and one is left. */
  predicate Ready(o: Order, relayed: int) {
    relayed == Executed(o) && relayed < Cap(o)
  }

  // ---------------------------------------------------------------- the outside world

  datatype Config = Config(
    chain: Fees.Chain,
    retry: Retry.Config,
    assessPolicy: bool,
    enforcePolicy: bool,
    crossChainEnabled: bool,
    consensus: bool,        // a consensus manager is configured
    failClosed: bool,       // onchain_score_fail_closed()
    minInterval: real)      // PERPETUAL_MIN_INTERVAL_SECONDS

  /** Where the final status of a delegated order may end up. */
  predicate Delegable(s: Status) {
    s in {Bridging, Filled, RolledBack, PartialRollback, Rejected}
  }

  datatype Plan =
    | NoPlan
    | SingleChain
    | MultiLeg(compiles: bool, ends: Status)
    | CrossChain(ends: Status)

  /** The step, if any, at which an exception escapes `process`. */
  datatype Fault = NoFault | AtPlanning | AtScoring | AtConsensus | AtRelay | AtLegs | AtBridge

  datatype Reply = Settled | Reverted(userFault: bool)

  datatype Env = Env(
    now: real,
    appFound: bool,
    contract: bool,            // a contract is deployed for the app on this chain
    funded: bool,              // outcome of the live balance and allowance check
    plan: Plan,
    policyAccepted: bool,
    gasUsed: int,
    gasPrice: int,
    onChainScore: Option<int>,
    threshold: int,
    peers: bool,               // quorum is one, or some peer is reachable
    reached: bool,             // the consensus round reached its quorum
    reply: Reply,
    fault: Fault,
    lost: set<nat>)            // positions of the pass's store writes that fail: saves silently, records by raising

  predicate Requeueable(o: Order, now: real) {
    o.perpetual && o.executionCount < o.maxExecutions && (o.deadline <= 0.0 || now < o.deadline)
  }

  // ---------------------------------------------------------------- what a pass decides

  datatype Verdict =
    | AppMissing
    | Unfunded
    | PlanMissing(requeued: bool)
    | PolicyRefused
    | Uncompilable
    | DelegatedLegs(ends: Status)
    | CrossChainOff
    | FeeRefused
    | ScoreMissing(requeued: bool)
    | ScoreLow(requeued: bool)
    | ConsensusDeferred
    | ConsensusRejected
    | AwaitsUser
    | DelegatedBridge(ends: Status)
    | Relayed(reply: Reply)
    | Escaped(at: Fault)

  function Judge(cfg: Config, env: Env, o: Order, table: Retry.Table): Verdict {
    if env.fault.AtPlanning? then Escaped(AtPlanning)
    else if !env.appFound then AppMissing
    else if o.perpetual && env.contract && !env.funded then Unfunded
    else if env.plan.NoPlan? then PlanMissing(Requeueable(o, env.now))
    else JudgePlanned(cfg, env, o, table)
  }

  /** The policy check of a pass that has a plan. */
  function JudgePlanned(cfg: Config, env: Env, o: Order, table: Retry.Table): Verdict {
    if cfg.enforcePolicy && !env.policyAccepted then PolicyRefused
    else JudgeSolved(cfg, env, o, table)
  }

  /** The middle of a pass, once the plan is accepted. */
  function JudgeSolved(cfg: Config, env: Env, o: Order, table: Retry.Table): Verdict {
    if env.plan.MultiLeg? then
      if !env.plan.compiles then Uncompilable
      else if env.fault.AtLegs? then Escaped(AtLegs)
      else DelegatedLegs(env.plan.ends)
    else if env.plan.CrossChain? && !cfg.crossChainEnabled then CrossChainOff
    else if o.lockedFee > 0 && !FeeCertified(cfg, env, o) then FeeRefused
    else JudgeScored(cfg, env, o, table)
  }

  /** The score gate, once any locked fee is certified. */
  function JudgeScored(cfg: Config, env: Env, o: Order, table: Retry.Table): Verdict {
    if env.fault.AtScoring? then Escaped(AtScoring) else JudgeAdmitted(cfg, env, o, table)
  }

  function JudgeAdmitted(cfg: Config, env: Env, o: Order, table: Retry.Table): Verdict {
    if env.contract && env.onChainScore.None? && cfg.failClosed then ScoreMissing(Requeueable(o, env.now))
    else if env.onChainScore.Some? && env.onChainScore.value < env.threshold then ScoreLow(Requeueable(o, env.now))
    else JudgeConsensus(cfg, env, o, table)
  }

  /** The rest of a pass, once the plan is scored. */
  function JudgeConsensus(cfg: Config, env: Env, o: Order, table: Retry.Table): Verdict {
    if cfg.consensus && env.peers && env.fault.AtConsensus? then Escaped(AtConsensus)
    else if cfg.consensus && !(env.peers && env.reached) then
      if Retry.DecisionOf(cfg.retry, table, o.id, o.deadline, env.now).Requeue?
      then ConsensusDeferred else ConsensusRejected
    else JudgeApproved(env, o)
  }

  /** The end of a pass, once consensus has approved the plan. */
  function JudgeApproved(env: Env, o: Order): Verdict {
    if o.userSubmits then AwaitsUser
    else if env.plan.CrossChain? then
      if env.fault.AtBridge? then Escaped(AtBridge) else DelegatedBridge(env.plan.ends)
    else if env.fault.AtRelay? then Escaped(AtRelay)
    else Relayed(env.reply)
  }

  predicate FeeCertified(cfg: Config, env: Env, o: Order) {
    Fees.Certify(cfg.chain, o.lockedFee, env.gasUsed, env.gasPrice).Certified?
  }

  /** The order's record once the pass is over (an escaping exception is caught by `tick`). */
  function Final(v: Verdict, o: Order, now: real): Order {
    match v
    case PlanMissing(true) | ScoreMissing(true) | ScoreLow(true) => o.(status := Open, lastFilledAt := now)
    case ConsensusDeferred => o.(status := Open)
    case AwaitsUser => o.(status := Approved)
    case DelegatedLegs(ends) => o.(status := ends)
    case DelegatedBridge(ends) => o.(status := ends)
    case Relayed(Settled) => AfterFill(o, now)
    case _ => o.(status := Rejected)
  }

  /** A fill counts an execution of a perpetual, which reopens while executions are left. */
  function AfterFill(o: Order, now: real): Order {
    if !o.perpetual then o.(status := Filled)
    else
      var n := o.executionCount + 1;
      o.(executionCount := n, lastFilledAt := now, status := if n < o.maxExecutions then Open else Filled)
  }

  /** What a pass does to the retry table: a failed round is counted, an approval forgets the order. */
  function TableAfterPass(cfg: Config, v: Verdict, env: Env, o: Order, table: Retry.Table): Retry.Table {
    match v
    case ConsensusDeferred | ConsensusRejected => Retry.TableAfter(cfg.retry, table, o.id, o.deadline, env.now)
    case AwaitsUser | DelegatedBridge(_) | Relayed(_) => table - {o.id}
    case Escaped(at) => if at.AtRelay? || at.AtBridge? then table - {o.id} else table
    case _ => table
  }

  lemma ApprovalForgets(cfg: Config, v: Verdict, env: Env, o: Order, table: Retry.Table)
    requires v == JudgeApproved(env, o)
    ensures TableAfterPass(cfg, v, env, o, table) == table - {o.id}
  {
    assert v.AwaitsUser? || v.DelegatedBridge? || v.Relayed? || v == Escaped(AtBridge) || v == Escaped(AtRelay);
  }

  // ---------------------------------------------------------------- what a pass leaves behind

  datatype Effect = Save(order: Order) | Relay(id: OrderId, filled: bool) | Record(success: bool)

  /** How far a pass got: 1 assessed, 2 SOLVED, 3 SCORED, 4 APPROVED. */
  function Stage(v: Verdict): nat {
    match v
    case AppMissing | Unfunded | PlanMissing(_) | Escaped(AtPlanning) => 0
    case PolicyRefused => 1
    case Uncompilable | DelegatedLegs(_) | CrossChainOff | FeeRefused | Escaped(AtScoring) | Escaped(AtLegs) => 2
    case ScoreMissing(_) | ScoreLow(_) | ConsensusDeferred | ConsensusRejected | Escaped(AtConsensus) => 3
    case _ => 4
  }

  function Staged(cfg: Config, stage: nat, o: Order): seq<Effect> {
    (if stage >= 1 && (cfg.assessPolicy || cfg.enforcePolicy) then [Save(o)] else []) +
    (if stage >= 2 then [Save(o.(status := Solved))] else []) +
    (if stage >= 3 then [Save(o.(status := Scored))] else []) +
    (if stage >= 4 then [Save(o.(status := Approved))] else [])
  }

  /** Refusals that are booked as a failed execution of the solver. */
  predicate Debits(v: Verdict) {
    || v == PlanMissing(false) || v.PolicyRefused? || v.FeeRefused?
    || v == ScoreMissing(false) || v == ScoreLow(false)
    || v == Relayed(Reverted(false))
  }

  /** Verdicts that only reject the order. */
  predicate PlainRefusal(v: Verdict) {
    || v.AppMissing? || v.Unfunded? || v == PlanMissing(false) || v.PolicyRefused? || v.Uncompilable?
    || v.CrossChainOff? || v.FeeRefused? || v == ScoreMissing(false) || v == ScoreLow(false)
  }

  predicate CallsRelayer(v: Verdict) { v.Relayed? || v == Escaped(AtRelay) }

  predicate Fills(v: Verdict) { v == Relayed(Settled) }

  function Closing(v: Verdict, o: Order, now: real): seq<Effect> {
    (if CallsRelayer(v) then [Relay(o.id, Fills(v))] else []) +
    (if v.AwaitsUser? then [] else [Save(Final(v, o, now))]) +
    (if Fills(v) then [Record(true)] else if Debits(v) then [Record(false)] else [])
  }

  function PassEffects(cfg: Config, v: Verdict, o: Order, now: real): seq<Effect> {
    Staged(cfg, Stage(v), o) + Closing(v, o, now)
  }

  /** Closing effects depend on the order's terms, not on the status it passed through. */
  lemma ClosingIgnoresStatus(v: Verdict, o: Order, s: Status, now: real)
    ensures Closing(v, o.(status := s), now) == Closing(v, o, now)
    ensures Final(v, o.(status := s), now) == Final(v, o, now)
  {
  }

  lemma RelayClosing(reply: Reply, o: Order, now: real)
    ensures Closing(Relayed(reply), o, now) ==
            match reply
            case Settled => [Relay(o.id, true), Save(AfterFill(o, now)), Record(true)]
            case Reverted(userFault) =>
              [Relay(o.id, false), Save(o.(status := Rejected))] + if userFault then [] else [Record(false)]
    ensures Final(Relayed(reply), o, now) == if reply.Settled? then AfterFill(o, now) else o.(status := Rejected)
  {
  }

  /** The status a pass has given the order by the time it reaches a stage. */
  function StageStatus(stage: nat, before: Status): Status {
    if stage <= 1 then before else if stage == 2 then Solved else if stage == 3 then Scored else Approved
  }

  /** The record and the effects as `process` itself leaves them: an exception escapes before the last save. */
  function Left(v: Verdict, o: Order, now: real): Order {
    if v.Escaped? then o.(status := StageStatus(Stage(v), o.status)) else Final(v, o, now)
  }

  function Made(cfg: Config, v: Verdict, o: Order, now: real): seq<Effect> {
    if v.Escaped? then Staged(cfg, Stage(v), o) + (if CallsRelayer(v) then [Relay(o.id, false)] else [])
    else PassEffects(cfg, v, o, now)
  }

  lemma StagedGrows(cfg: Config, o: Order, s: nat)
    requires 1 <= s <= 3
    ensures Staged(cfg, s + 1, o) == Staged(cfg, s, o) + [Save(o.(status := StageStatus(s + 1, o.status)))]
    ensures s == 1 ==> Staged(cfg, s, o) == if cfg.assessPolicy || cfg.enforcePolicy then [Save(o)] else []
  {
  }

  /** What `process` makes, seen from stage `s`: the pass ends there, or APPROVED comes next. */
  lemma MadeFrom(cfg: Config, v: Verdict, o: Order, now: real, s: nat)
    requires s == Stage(v) || (s == 3 && Stage(v) == 4)
    ensures Made(cfg, v, o, now) ==
            Staged(cfg, s, o) +
            (if s < Stage(v) then [Save(o.(status := Approved))] else []) +
            (if !v.Escaped? then Closing(v, o, now)
             else if CallsRelayer(v) then [Relay(o.id, false)] else [])
  {
    if s < Stage(v) { StagedGrows(cfg, o, 3); }
  }

  /** The same, seen from the APPROVED save. */
  lemma ApprovalMade(cfg: Config, v: Verdict, o: Order, now: real)
    requires Stage(v) == 4
    ensures var approved := Staged(cfg, 3, o) + [Save(o.(status := Approved))];
            && (v.AwaitsUser? || v == Escaped(AtBridge) ==> Made(cfg, v, o, now) == approved)
            && (v.Escaped? && CallsRelayer(v) ==> Made(cfg, v, o, now) == approved + [Relay(o.id, false)])
            && (!v.Escaped? ==> Made(cfg, v, o, now) == approved + Closing(v, o, now))
  {
    MadeFrom(cfg, v, o, now, 3);
  }

  /** The pass ends with a record of its execution. */
  predicate Records(v: Verdict) { Fills(v) || Debits(v) }

  /** That record raises, which no one but the tick catches. */
  predicate RecordRaises(cfg: Config, env: Env, v: Verdict, o: Order) {
    Records(v) && |PassEffects(cfg, v, o, env.now)| - 1 in env.lost
  }

  /** All effects of one turn: a record that raises is followed by the rejection of the order. */
  function Effects(cfg: Config, env: Env, v: Verdict, o: Order): seq<Effect> {
    PassEffects(cfg, v, o, env.now) +
    if RecordRaises(cfg, env, v, o) then [Save(Final(v, o, env.now).(status := Rejected))] else []
  }

  /** The order's record when its turn is over. */
  function Ended(cfg: Config, env: Env, v: Verdict, o: Order): Order {
    if RecordRaises(cfg, env, v, o) then Final(v, o, env.now).(status := Rejected) else Final(v, o, env.now)
  }

  /** `process` raised: an exception escaped it, or its record raised. */
  predicate ProcessRaises(cfg: Config, env: Env, v: Verdict, o: Order) {
    v.Escaped? || RecordRaises(cfg, env, v, o)
  }

  /** `tick` completes a pass that raised: it rejects the order and saves that. */
  lemma HandlerCompletes(cfg: Config, env: Env, v: Verdict, o: Order)
    ensures Effects(cfg, env, v, o) == Made(cfg, v, o, env.now) +
            if ProcessRaises(cfg, env, v, o) then [Save(Left(v, o, env.now).(status := Rejected))] else []
    ensures Ended(cfg, env, v, o) ==
            if ProcessRaises(cfg, env, v, o) then Left(v, o, env.now).(status := Rejected) else Left(v, o, env.now)
  {
  }

  /** A delegated order is never handed back as OPEN. */
  predicate EndsClosed(v: Verdict) {
    (v.DelegatedLegs? ==> Delegable(v.ends)) && (v.DelegatedBridge? ==> Delegable(v.ends))
  }

  // ---------------------------------------------------------------- what survives a crash

  datatype World = World(
    store: map<OrderId, Order>,
    calls: map<OrderId, nat>,   // relayer submissions per order
    rows: seq<OrderId>,         // the rows of the store, in the order of their first save
    fills: nat,                 // of which the relayer reported success
    successes: nat,             // record_execution(success=True)
    failures: nat,              // record_execution(success=False)
    unrecorded: nat)            // record_execution(success=True) that raised
  {
    function Calls(id: OrderId): nat { if id in calls then calls[id] else 0 }
  }

  function Apply(w: World, e: Effect): World {
    match e
    case Save(o) => w.(store := w.store[o.id := o], rows := if o.id in w.store then w.rows else w.rows + [o.id])
    case Relay(id, filled) => w.(calls := w.calls[id := w.Calls(id) + 1], fills := w.fills + if filled then 1 else 0)
    case Record(success) => if success then w.(successes := w.successes + 1) else w.(failures := w.failures + 1)
  }

  /** A store write that fails changes nothing, but a success that could not be recorded is counted. */
  function Missed(w: World, e: Effect): World {
    match e
    case Save(_) => w
    case Relay(_, _) => Apply(w, e)
    case Record(success) => if success then w.(unrecorded := w.unrecorded + 1) else w
  }

  /** The world after the first `k` effects, of which the store writes at `lost` positions failed. */
  function Play(w: World, effects: seq<Effect>, lost: set<nat>, k: nat): World
    requires k <= |effects|
  {
    if k == 0 then w
    else
      var before := Play(w, effects, lost, k - 1);
      if k - 1 in lost then Missed(before, effects[k - 1]) else Apply(before, effects[k - 1])
  }

  /** What happened up to some point does not depend on what comes after it. */
  lemma {:induction false} PlayExtends(w: World, effects: seq<Effect>, e: Effect, lost: set<nat>, k: nat)
    requires k <= |effects|
    ensures Play(w, effects + [e], lost, k) == Play(w, effects, lost, k)
  {
    if k > 0 { PlayExtends(w, effects, e, lost, k - 1); }
  }

  lemma {:induction false} PlayPrefix(w: World, effects: seq<Effect>, more: seq<Effect>, lost: set<nat>, k: nat)
    requires k <= |effects|
    ensures Play(w, effects + more, lost, k) == Play(w, effects, lost, k)
  {
    if k > 0 { PlayPrefix(w, effects, more, lost, k - 1); }
  }

  /** Number of saves a pass makes before it may call the relayer. */
  function StagedCount(cfg: Config): nat {
    if cfg.assessPolicy || cfg.enforcePolicy then 4 else 3
  }

  /** At least one of the saves made before the relayer is called lands. */
  ghost predicate Anchored(cfg: Config, env: Env) {
    exists j: nat :: j < StagedCount(cfg) && j !in env.lost
  }
}
