/**
  The multi-leg executor: forward legs one by one, a hand-off when a leg waits for a bridge,
  and rollback legs in reverse order when a leg fails.
 */
module MultiLeg {
  import opened Wrappers
  import opened LegPlans
  import Pass = OrderPass

  type Status = Pass.Status

  datatype Simulation = Simulation(success: bool, onChainScore: Option<int>)

  /** A consensus round for one leg. A proposal that raises leaves no result behind. */
  datatype Round = NotConfigured | ProposalRaised | NotReached | Agreed

  /** What the outside answers, by the position of the forward leg. */
  datatype World = World(
    simulate: nat -> Simulation,
    score: nat -> Outcome<real>,
    propose: nat -> Round,
    submit: nat -> Outcome<Receipt>,
    undo: nat -> Outcome<bool>,     // the rollback leg for the forward leg at this position
    tracker: bool,                  // a bridge tracker is configured
    recordRaises: bool)             // recording the execution raises

  /** A call to the relayer. */
  datatype Call =
    | Submit(leg: LegPlan, score: real, agreed: bool)
    | Undo(leg: LegPlan)

  datatype Execution = Execution(score: int, success: bool)

  /** What the bridge tracker is asked to watch. */
  datatype Tracking = Tracking(
    tx: string,
    src: int,
    dst: int,
    protocol: Value,
    remaining: seq<LegPlan>,
    rollback: seq<LegPlan>,
    completed: seq<int>)

  type Mocks = map<int, Metadata>

  datatype Run = Run(plan: MultiLegPlan, mocks: Mocks, world: World)

  // ---------------------------------------------------------------- one leg

  function FirstWith(legs: seq<LegPlan>, index: int): Option<LegPlan> {
    if legs == [] then None
    else if legs[0].index == index then Some(legs[0])
    else FirstWith(legs[1..], index)
  }

  /** The completed bridge leg that a leg with these dependencies has to wait for. */
  function BridgeAwaited(completed: seq<LegPlan>, dependsOn: seq<int>): Option<LegPlan> {
    if dependsOn == [] then None
    else
      var dep := FirstWith(completed, dependsOn[0]);
      if dep.Some? && Says(dep.value.metadata, BridgeProtocol) then dep
      else BridgeAwaited(completed, dependsOn[1..])
  }

  /** The legacy test reads the selector behind a two-character prefix it does not look at. */
  predicate LegacyBridgeCall(ix: Interaction) {
    |ix.callData| >= 10 && ix.callData[2..10] in BRIDGE_SELECTORS
  }

  predicate IsBridge(l: LegPlan, mocks: Mocks) {
    || l.index in mocks
    || (&& (|| (Kind in l.metadata && l.metadata[Kind] in {Text("bridge_source"), Text("bridge")})
            || Says(l.metadata, BridgeProtocol))
        && (l.interactions == [] || exists ix :: ix in l.interactions && LegacyBridgeCall(ix)))
  }

  const BRIDGE_SCORE: real := 0.6

  function ScoreAt(run: Run, k: nat): Outcome<real>
    requires k < |run.plan.forward|
  {
    if IsBridge(run.plan.forward[k], run.mocks) && run.world.simulate(k).success then Returned(BRIDGE_SCORE)
    else run.world.score(k)
  }

  datatype Ending =
    | Completed
    | Waiting(bridge: LegPlan)
    | ScorerRaised
    | RoundLost
    | SubmitFailed

  /** A completed leg remembers its transaction. */
  function Stamped(run: Run, k: nat): LegPlan
    requires k < |run.plan.forward|
  {
    var l := run.plan.forward[k];
    var tx := match run.world.submit(k) case Returned(receipt) => receipt.tx case Raised => "";
    l.(metadata := l.metadata[TxHash := Text(tx)])
  }

  function Completions(run: Run, k: nat): (legs: seq<LegPlan>)
    requires k <= |run.plan.forward|
    ensures |legs| == k
  {
    seq(k, i requires 0 <= i < k => Stamped(run, i))
  }

  /** How the leg at `k` ends, when all legs before it were completed. */
  function EndingAt(run: Run, k: nat): Ending
    requires k < |run.plan.forward|
  {
    var awaited := BridgeAwaited(Completions(run, k), run.plan.forward[k].dependsOn);
    if awaited.Some? then Waiting(awaited.value)
    else if ScoreAt(run, k).Raised? then ScorerRaised
    else if run.world.propose(k).NotReached? then RoundLost
    else if run.world.submit(k).Returned? && run.world.submit(k).value.success then Completed
    else SubmitFailed
  }

  // ---------------------------------------------------------------- a whole run

  /** The first position, from `k` on, whose leg is not completed. */
  function StopFrom(run: Run, k: nat): (n: nat)
    requires k <= |run.plan.forward|
    ensures k <= n <= |run.plan.forward|
    decreases |run.plan.forward| - k
  {
    if k < |run.plan.forward| && EndingAt(run, k).Completed? then StopFrom(run, k + 1) else k
  }

  function Stop(run: Run): (n: nat)
    ensures n <= |run.plan.forward|
  {
    StopFrom(run, 0)
  }

  /** How many forward legs reach the relayer. */
  function Attempts(run: Run): (n: nat)
    ensures n <= |run.plan.forward|
  {
    var n := Stop(run);
    if n < |run.plan.forward| && EndingAt(run, n).SubmitFailed? then n + 1 else n
  }

  function SubmitAt(run: Run, k: nat): Call
    requires k < |run.plan.forward|
  {
    Submit(run.plan.forward[k],
           match ScoreAt(run, k) case Returned(score) => score case Raised => 0.0,
           run.world.propose(k).Agreed?)
  }

  function Submits(run: Run, n: nat): seq<Call>
    requires n <= |run.plan.forward|
  {
    if n == 0 then [] else Submits(run, n - 1) + [SubmitAt(run, n - 1)]
  }

  function RollbackOf(rollback: seq<LegPlan>, index: int): Option<LegPlan> {
    if rollback == [] then None
    else if rollback[0].rollbackFor == Some(index) then Some(rollback[0])
    else RollbackOf(rollback[1..], index)
  }

  /** The rollback calls for the first `n` forward legs, the last leg first. */
  function Undos(plan: MultiLegPlan, n: nat): seq<Call>
    requires n <= |plan.forward|
  {
    if n == 0 then []
    else
      match RollbackOf(plan.rollback, plan.forward[n - 1].index)
      case Some(r) => [Undo(r)] + Undos(plan, n - 1)
      case None => Undos(plan, n - 1)
  }

  /** The leg at `k` has a rollback leg, and it did not go through. */
  predicate UndoFails(run: Run, k: nat)
    requires k < |run.plan.forward|
  {
    RollbackOf(run.plan.rollback, run.plan.forward[k].index).Some? && run.world.undo(k) != Returned(true)
  }

  predicate SomeUndoFails(run: Run, n: nat)
    requires n <= |run.plan.forward|
  {
    exists k :: 0 <= k < n && UndoFails(run, k)
  }

  function Remaining(legs: seq<LegPlan>, index: int): seq<LegPlan> {
    if legs == [] then []
    else if legs[0].index >= index then [legs[0]] + Remaining(legs[1..], index)
    else Remaining(legs[1..], index)
  }

  /** The forward legs as the executor leaves them: completed ones carry their transaction. */
  function LegsAfter(run: Run, n: nat): (legs: seq<LegPlan>)
    requires n <= |run.plan.forward|
    ensures |legs| == |run.plan.forward|
  {
    Completions(run, n) + run.plan.forward[n..]
  }

  function Transaction(l: LegPlan): string {
    if TxHash in l.metadata && l.metadata[TxHash].Text? then l.metadata[TxHash].text else ""
  }

  /** The hand-off at position `n`, if there is a tracker and a transaction to track. */
  function Tracked(run: Run, n: nat, bridge: LegPlan): seq<Tracking>
    requires n < |run.plan.forward|
  {
    var leg := run.plan.forward[n];
    if run.world.tracker && Transaction(bridge) != "" then
      [Tracking(Transaction(bridge), bridge.chain, leg.chain,
                if BridgeProtocol in bridge.metadata then bridge.metadata[BridgeProtocol] else Text("hyperlane"),
                Remaining(LegsAfter(run, n), leg.index),
                run.plan.rollback,
                Mapped(run.plan.forward[..n], (l: LegPlan) => l.index))]
    else []
  }

  /** The better of two on-chain scores, of which either may be missing. */
  function BetterScore(best: Option<int>, score: Option<int>): Option<int> {
    if score.Some? && (best.None? || score.value > best.value) then score else best
  }

  function BestScore(run: Run, n: nat): Option<int> {
    if n == 0 then None else BetterScore(BestScore(run, n - 1), run.world.simulate(n - 1).onChainScore)
  }

  datatype Report = Report(
    status: Status,
    result: Outcome<bool>,
    calls: seq<Call>,
    records: seq<Execution>,
    tracked: seq<Tracking>)

  /** Everything a run leaves behind. */
  function ReportOf(run: Run): Report {
    var n := Stop(run);
    if n == |run.plan.forward| then
      var best := BestScore(run, n);
      var recorded := [Execution(if best.Some? then best.value else 0, true)];
      Report(Pass.Filled, if run.world.recordRaises then Raised else Returned(true), Submits(run, n),
             if run.world.recordRaises then [] else recorded, [])
    else
      match EndingAt(run, n)
      case Waiting(bridge) =>
        Report(Pass.Bridging, Returned(true), Submits(run, n), [], Tracked(run, n, bridge))
      case ScorerRaised =>
        Report(Pass.ExecutingLeg, Raised, Submits(run, n), [], [])
      case _ =>
        Report(if SomeUndoFails(run, n) then Pass.PartialRollback else Pass.RolledBack, Returned(false),
               Submits(run, Attempts(run)) + Undos(run.plan, n), [], [])
  }

  /** The loop's own variables. */
  datatype Progress = Progress(legs: seq<LegPlan>, completed: seq<LegPlan>, best: Option<int>)

  /** The first `k` legs were completed. */
  ghost predicate Reached(run: Run, k: nat, p: Progress) {
    && k <= |run.plan.forward|
    && p.completed == Completions(run, k) && p.legs == LegsAfter(run, k)
    && p.best == BestScore(run, k)
    && forall j :: 0 <= j < k ==> EndingAt(run, j).Completed?
  }

  lemma {:induction false} FirstStop(run: Run, from: nat, k: nat)
    requires from <= k <= |run.plan.forward|
    requires forall j :: from <= j < k ==> EndingAt(run, j).Completed?
    requires k == |run.plan.forward| || !EndingAt(run, k).Completed?
    ensures StopFrom(run, from) == k
    decreases k - from
  {
    if from < k {
      FirstStop(run, from + 1, k);
    }
  }

  lemma ReachedAtStart(run: Run)
    ensures Reached(run, 0, Progress(run.plan.forward, [], None))
  {
  }

  /** Where the loop stands when it stops. */
  lemma ReachedIsStop(run: Run, k: nat, p: Progress)
    requires Reached(run, k, p)
    requires k == |run.plan.forward| || !EndingAt(run, k).Completed?
    ensures Stop(run) == k
    ensures k == |run.plan.forward| ==> Attempts(run) == k
  {
    FirstStop(run, 0, k);
  }

  lemma CompletedNext(run: Run, k: nat, leg: LegPlan)
    requires k < |run.plan.forward| && leg == Stamped(run, k)
    ensures Completions(run, k + 1) == Completions(run, k) + [leg]
    ensures LegsAfter(run, k + 1) == LegsAfter(run, k)[k := leg]
    ensures LegsAfter(run, k)[k] == run.plan.forward[k]
  {
  }

  /** A failed submission is an attempt; any other way to stop is none. */
  lemma StoppedCalls(run: Run, k: nat, before: seq<Call>)
    requires k < |run.plan.forward| && Stop(run) == k
    ensures before + Submits(run, Attempts(run)) ==
            if EndingAt(run, k).SubmitFailed? then before + Submits(run, k) + [SubmitAt(run, k)]
            else before + Submits(run, k)
  {
    Regroup(before, Submits(run, k), [SubmitAt(run, k)]);
  }

  // ---------------------------------------------------------------- the executor

  class MultiLegOrchestrator {
    var status: Status
    var calls: seq<Call>
    var records: seq<Execution>
    var tracked: seq<Tracking>

    constructor (s: Status)
      ensures status == s && calls == [] && records == [] && tracked == []
    {
      status, calls, records, tracked := s, [], [], [];
    }

    /** Undoes completed legs in reverse order; legs without a rollback leg are passed over. */
    method ExecuteRollback(ghost run: Run, completed: seq<LegPlan>, rollback: seq<LegPlan>, undo: nat -> Outcome<bool>)
      requires rollback == run.plan.rollback && undo == run.world.undo
      requires |completed| <= |run.plan.forward| && completed == Completions(run, |completed|)
      modifies `status, `calls
      ensures calls == old(calls) + Undos(run.plan, |completed|)
      ensures status == if SomeUndoFails(run, |completed|) then Pass.PartialRollback else Pass.RolledBack
    {
      status := Pass.RollingBack;
      var failures: seq<int> := [];
      var k := |completed|;
      while k > 0
        invariant 0 <= k <= |completed|
        invariant calls + Undos(run.plan, k) == old(calls) + Undos(run.plan, |completed|)
        invariant failures != [] <==> exists j :: k <= j < |completed| && UndoFails(run, j)
      {
        k := k - 1;
        assert completed[k].index == run.plan.forward[k].index;
        var found := RollbackOf(rollback, completed[k].index);
        if found.Some? {
          Regroup(calls, [Undo(found.value)], Undos(run.plan, k));
          calls := calls + [Undo(found.value)];
          if undo(k) != Returned(true) {
            assert UndoFails(run, k);
            failures := failures + [found.value.index];
          }
        }
      }
      status := if failures != [] then Pass.PartialRollback else Pass.RolledBack;
    }

    /** Hands the order over to the bridge tracker. */
    method HandOff(ghost run: Run, ghost k: nat, leg: LegPlan, bridge: LegPlan, legs: seq<LegPlan>,
                   completed: seq<LegPlan>, rollback: seq<LegPlan>, tracker: bool)
      requires k < |run.plan.forward| && leg == run.plan.forward[k]
      requires completed == Completions(run, k) && legs == LegsAfter(run, k)
      requires rollback == run.plan.rollback && tracker == run.world.tracker
      modifies `status, `tracked
      ensures status == Pass.Bridging && tracked == old(tracked) + Tracked(run, k, bridge)
    {
      if tracker && Transaction(bridge) != "" {
        assert Mapped(completed, (l: LegPlan) => l.index) == Mapped(run.plan.forward[..k], (l: LegPlan) => l.index);
        tracked := tracked + [Tracking(
          Transaction(bridge), bridge.chain, leg.chain,
          if BridgeProtocol in bridge.metadata then bridge.metadata[BridgeProtocol] else Text("hyperlane"),
          Remaining(legs, leg.index), rollback,
          Mapped(completed, (l: LegPlan) => l.index))];
      }
      status := Pass.Bridging;
    }

    /** Scores, proposes and submits one leg that waits for nothing. */
    method ExecuteLeg(ghost run: Run, k: nat, leg: LegPlan, simulation: Simulation, mocks: Mocks, world: World)
        returns (e: Ending)
      requires k < |run.plan.forward| && leg == run.plan.forward[k] && mocks == run.mocks && world == run.world
      requires simulation == world.simulate(k)
      requires !EndingAt(run, k).Waiting?
      modifies `calls
      ensures e == EndingAt(run, k)
      ensures calls == if e.Completed? || e.SubmitFailed? then old(calls) + [SubmitAt(run, k)] else old(calls)
    {
      var score := BRIDGE_SCORE;
      if !(IsBridge(leg, mocks) && simulation.success) {
        var scored := world.score(k);
        if scored.Raised? {
          return ScorerRaised;
        }
        score := scored.value;
      }
      var round := world.propose(k);
      if round.NotReached? {
        return RoundLost;
      }
      calls := calls + [Submit(leg, score, round.Agreed?)];
      var receipt := world.submit(k);
      e := if receipt.Raised? || !receipt.value.success then SubmitFailed else Completed;
    }

    /** One round of the loop over the forward legs. */
    method Step(ghost run: Run, k: nat, plan: MultiLegPlan, mocks: Mocks, world: World, progress: Progress)
        returns (e: Ending, next: Progress)
      requires run == Run(plan, mocks, world) && k < |plan.forward| && Reached(run, k, progress)
      modifies `status, `calls, `tracked
      ensures e == EndingAt(run, k)
      ensures e.Completed? ==> Reached(run, k + 1, next)
      ensures !e.Completed? ==> next == progress
      ensures status == if e.Waiting? then Pass.Bridging else Pass.ExecutingLeg
      ensures calls == if e.Completed? || e.SubmitFailed? then old(calls) + [SubmitAt(run, k)] else old(calls)
      ensures tracked == if e.Waiting? then old(tracked) + Tracked(run, k, e.bridge) else old(tracked)
    {
      next := progress;
      var leg := progress.legs[k];
      status := Pass.ExecutingLeg;
      var awaited := BridgeAwaited(progress.completed, leg.dependsOn);
      if awaited.Some? {
        HandOff(run, k, leg, awaited.value, progress.legs, progress.completed, plan.rollback, world.tracker);
        return Waiting(awaited.value), progress;
      }
      var simulation := world.simulate(k);
      e := ExecuteLeg(run, k, leg, simulation, mocks, world);
      if e.Completed? {
        leg := leg.(metadata := leg.metadata[TxHash := Text(world.submit(k).value.tx)]);
        CompletedNext(run, k, leg);
        next := Progress(progress.legs[k := leg], progress.completed + [leg],
                         BetterScore(progress.best, simulation.onChainScore));
      }
    }

    /** The first `k` legs were completed, and nothing else happened. */
    ghost predicate Going(run: Run, k: nat, progress: Progress, calls0: seq<Call>, tracked0: seq<Tracking>)
      reads this
    {
      && Reached(run, k, progress)
      && calls == calls0 + Submits(run, k) && tracked == tracked0
    }

    /** The loop is over: all legs were completed, or the one at `k` was not. */
    ghost predicate Halted(run: Run, k: nat, progress: Progress, ending: Ending, calls0: seq<Call>, tracked0: seq<Tracking>)
      reads this
    {
      && k == Stop(run) && Reached(run, k, progress)
      && calls == calls0 + Submits(run, Attempts(run))
      && (if k == |run.plan.forward| then tracked == tracked0
          else
            && ending == EndingAt(run, k) && !ending.Completed?
            && status == (if ending.Waiting? then Pass.Bridging else Pass.ExecutingLeg)
            && tracked == if ending.Waiting? then tracked0 + Tracked(run, k, ending.bridge) else tracked0)
    }

    lemma GoingAtStart(run: Run)
      ensures Going(run, 0, Progress(run.plan.forward, [], None), calls, tracked)
    {
      ReachedAtStart(run);
      Nothing(calls);
    }

    lemma HaltedAtEnd(run: Run, progress: Progress, ending: Ending, calls0: seq<Call>, tracked0: seq<Tracking>)
      requires Going(run, |run.plan.forward|, progress, calls0, tracked0)
      ensures Halted(run, |run.plan.forward|, progress, ending, calls0, tracked0)
    {
      ReachedIsStop(run, |run.plan.forward|, progress);
    }

    /** One leg of the loop. */
    method Advance(ghost run: Run, k: nat, plan: MultiLegPlan, mocks: Mocks, world: World, progress: Progress,
                   ghost calls0: seq<Call>, ghost tracked0: seq<Tracking>) returns (e: Ending, next: Progress)
      requires run == Run(plan, mocks, world) && k < |plan.forward| && Going(run, k, progress, calls0, tracked0)
      modifies `status, `calls, `tracked
      ensures e.Completed? ==> Going(run, k + 1, next, calls0, tracked0)
      ensures !e.Completed? ==> Halted(run, k, next, e, calls0, tracked0)
    {
      e, next := Step(run, k, plan, mocks, world, progress);
      if e.Completed? {
        Regroup(calls0, Submits(run, k), [SubmitAt(run, k)]);
      } else {
        ReachedIsStop(run, k, progress);
        StoppedCalls(run, k, calls0);
      }
    }

    /** The loop over the forward legs, up to the first that is not completed. */
    method RunLegs(ghost run: Run, plan: MultiLegPlan, mocks: Mocks, world: World)
        returns (k: nat, ending: Ending, progress: Progress)
      requires run == Run(plan, mocks, world)
      modifies `status, `calls, `tracked
      ensures Halted(run, k, progress, ending, old(calls), old(tracked))
    {
      progress := Progress(plan.forward, [], None);
      ending, k := Completed, 0;
      GoingAtStart(run);
      while k < |plan.forward|
        invariant 0 <= k <= |plan.forward|
        invariant Going(run, k, progress, old(calls), old(tracked))
      {
        ending, progress := Advance(run, k, plan, mocks, world, progress, old(calls), old(tracked));
        if !ending.Completed? {
          return;
        }
        k := k + 1;
      }
      HaltedAtEnd(run, progress, ending, old(calls), old(tracked));
    }

    method Process(plan: MultiLegPlan, mocks: Mocks, world: World) returns (r: Outcome<bool>)
      modifies this
      ensures var report := ReportOf(Run(plan, mocks, world));
              && r == report.result
              && status == report.status
              && calls == old(calls) + report.calls
              && records == old(records) + report.records
              && tracked == old(tracked) + report.tracked
    {
      ghost var run := Run(plan, mocks, world);
      Nothing(old(records));
      Nothing(old(tracked));
      var k, ending, progress := RunLegs(run, plan, mocks, world);
      if k < |plan.forward| {
        if ending.Waiting? {
          return Returned(true);
        }
        if ending.ScorerRaised? {
          return Raised;
        }
        Regroup(old(calls), Submits(run, Attempts(run)), Undos(plan, k));
        ExecuteRollback(run, progress.completed, plan.rollback, world.undo);
        return Returned(false);
      }
      status := Pass.Filled;
      if world.recordRaises {
        return Raised;
      }
      records := records + [Execution(if progress.best.Some? then progress.best.value else 0, true)];
      r := Returned(true);
    }
  }
}
