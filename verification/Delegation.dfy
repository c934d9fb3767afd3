/**
  Orders that the block loop hands to another orchestrator: what it learns from the multi-leg
  executor and from the cross-chain submission, and how such an order ends.
 */
module Delegation {
  import opened Wrappers
  import opened OrderPass
  import opened OrderRuns
  import opened LegPlans
  import Retry = ConsensusRetry
  import Legs = MultiLeg
  import Cross = CrossChainSubmit

  /** The loop's environment answers what a run of the multi-leg executor reports. */
  predicate LegsAnswer(env: Env, run: Legs.Run) {
    var r := Legs.ReportOf(run);
    && env.plan.MultiLeg? && env.plan.compiles
    && (env.fault.AtLegs? <==> r.result.Raised?) && (r.result.Returned? ==> env.plan.ends == r.status)
  }

  /** The loop's environment answers what the submission of an approved cross-chain order reports. */
  predicate BridgeAnswers(env: Env, job: Cross.Job) {
    var r := Cross.ReportOf(job, Approved);
    && env.plan.CrossChain?
    && (env.fault.AtBridge? <==> r.result.Raised?) && (r.result.Returned? ==> env.plan.ends == r.status)
  }

  /** Neither orchestrator hands an order back as OPEN, so the loop's runs may rely on it. */
  lemma DelegatesEndWell(env: Env, run: Legs.Run, job: Cross.Job)
    requires LegsAnswer(env, run) || BridgeAnswers(env, job)
    ensures EndsWell(env)
  {
    Cross.SuccessIsRecordedOnce(job, Approved);
  }

  /** Verdicts of orders that went to an orchestrator. */
  predicate HandedOver(v: Verdict) {
    v.DelegatedLegs? || v.DelegatedBridge? || v == Escaped(AtLegs) || v == Escaped(AtBridge)
  }

  /** The turn of such an order calls no relayer itself, and records nothing. */
  lemma HandOverOnlySaves(cfg: Config, env: Env, v: Verdict, o: Order)
    requires HandedOver(v)
    ensures !RecordRaises(cfg, env, v, o)
    ensures forall e :: e in Effects(cfg, env, v, o) ==> e.Save?
  {
    assert Closing(v, o, env.now) == [Save(Final(v, o, env.now))];
  }

  /**
    A multi-leg order ends its turn with the status the executor gave it, except when an exception
    comes out of the executor, and then the tick rejects it: when a scorer raised and left it
    executing, and when it is filled but its record raised.
   */
  lemma LegsTurn(cfg: Config, env: Env, o: Order, table: Retry.Table, run: Legs.Run)
    requires LegsAnswer(env, run)
    requires var v := Judge(cfg, env, o, table); v.DelegatedLegs? || v == Escaped(AtLegs)
    ensures var v, r := Judge(cfg, env, o, table), Legs.ReportOf(run);
            && Ended(cfg, env, v, o) == o.(status := if r.result.Raised? then Rejected else r.status)
            && (r.result.Raised? <==> r.status.ExecutingLeg? || (r.status.Filled? && run.world.recordRaises))
  {
    HandOverOnlySaves(cfg, env, Judge(cfg, env, o, table), o);
  }

  lemma BridgeTurnEnds(cfg: Config, env: Env, o: Order, table: Retry.Table, job: Cross.Job)
    requires BridgeAnswers(env, job)
    requires var v := Judge(cfg, env, o, table); v.DelegatedBridge? || v == Escaped(AtBridge)
    ensures var v, r := Judge(cfg, env, o, table), Cross.ReportOf(job, Approved);
            Ended(cfg, env, v, o) == o.(status := if r.result.Raised? then Rejected else r.status)
  {
    HandOverOnlySaves(cfg, env, Judge(cfg, env, o, table), o);
  }

  lemma RecordDecides(w: Cross.World, r: Cross.Report, through: bool)
    requires Cross.Consistent(w, r, through) && through
    ensures (if r.result.Raised? then Rejected else r.status).Rejected? <==> w.recordRaises
  {
  }

  /**
    A cross-chain order ends with the status its submission gave it, or rejected if that raised,
    as it does whenever the order went through, bridging or filled, and its record raised.
   */
  lemma BridgeTurn(cfg: Config, env: Env, o: Order, table: Retry.Table, job: Cross.Job)
    requires BridgeAnswers(env, job)
    requires var v := Judge(cfg, env, o, table); v.DelegatedBridge? || v == Escaped(AtBridge)
    ensures var v, r := Judge(cfg, env, o, table), Cross.ReportOf(job, Approved);
            && Ended(cfg, env, v, o) == o.(status := if r.result.Raised? then Rejected else r.status)
            && (Cross.GoesThrough(job) ==> (Ended(cfg, env, v, o).status.Rejected? <==> job.world.recordRaises))
  {
    BridgeTurnEnds(cfg, env, o, table, job);
    Cross.SuccessIsRecordedOnce(job, Approved);
    if Cross.GoesThrough(job) {
      RecordDecides(job.world, Cross.ReportOf(job, Approved), true);
    }
  }

  // ---------------------------------------------------------------- calls of the orchestrators

  lemma {:induction false} SubmitsOnce(run: Legs.Run, n: nat)
    requires n <= |run.plan.forward|
    ensures |Legs.Submits(run, n)| == n
  {
    if n > 0 { SubmitsOnce(run, n - 1); }
  }

  lemma {:induction false} UndoesAtMost(plan: MultiLegPlan, n: nat)
    requires n <= |plan.forward|
    ensures |Legs.Undos(plan, n)| <= n
  {
    if n > 0 { UndoesAtMost(plan, n - 1); }
  }

  /** Legs reach the relayer at most once each, and so do the rollbacks of the completed ones. */
  lemma LegCallsAreBounded(run: Legs.Run)
    ensures |Legs.ReportOf(run).calls| <= Legs.Attempts(run) + Legs.Stop(run) <= 2 * |run.plan.forward|
  {
    SubmitsOnce(run, Legs.Stop(run));
    SubmitsOnce(run, Legs.Attempts(run));
    UndoesAtMost(run.plan, Legs.Stop(run));
  }

  /** A cross-chain submission calls the EVM relayer at most once, and the substrate relayer once per action. */
  lemma BridgeCallsAreBounded(job: Cross.Job, before: Status)
    ensures |Cross.ReportOf(job, before).calls| <= |Cross.Actions(job)| + 1
    ensures var calls := Cross.ReportOf(job, before).calls;
            forall i :: 0 <= i < |calls| - 1 ==> !calls[i].Evm?
  {
    Cross.CallsInOrder(job, before);
  }
}
