/**
  Exactly when a pass ends in which way, and exactly what it then leaves behind.
 */
module OrderVerdicts {
  import opened Wrappers
  import opened OrderPass
  import Fees = FeePolicy
  import Retry = ConsensusRetry

  // ---------------------------------------------------------------- what a pass decides, exactly

  /** A live perpetual: executions and time are left. */
  predicate Live(o: Order, now: real) {
    o.perpetual && o.executionCount < o.maxExecutions && (o.deadline > 0.0 ==> now < o.deadline)
  }

  /** The pass gets as far as a plan. */
  predicate HasPlan(env: Env, o: Order) {
    !env.fault.AtPlanning? && env.appFound && (o.perpetual && env.contract ==> env.funded) && !env.plan.NoPlan?
  }

  /** The policy lets the plan through. */
  predicate PolicyPassed(cfg: Config, env: Env, o: Order) {
    HasPlan(env, o) && (cfg.enforcePolicy ==> env.policyAccepted)
  }

  /** Any locked fee is in the chain's range and covers the measured gas. */
  predicate FeePassed(cfg: Config, env: Env, o: Order) {
    o.lockedFee > 0 ==>
      && cfg.chain.minFee <= o.lockedFee <= cfg.chain.maxFee
      && (env.gasUsed > 0 && env.gasPrice > 0 ==> env.gasUsed * env.gasPrice <= o.lockedFee)
  }

  /** The plan is this loop's own to settle, and its fee is certified. */
  predicate FeeGatePassed(cfg: Config, env: Env, o: Order) {
    && PolicyPassed(cfg, env, o) && !env.plan.MultiLeg? && (env.plan.CrossChain? ==> cfg.crossChainEnabled)
    && FeePassed(cfg, env, o)
  }

  predicate ScoreMissed(cfg: Config, env: Env) { env.contract && cfg.failClosed && env.onChainScore.None? }

  predicate ScoreTooLow(env: Env) { env.onChainScore.Some? && env.onChainScore.value < env.threshold }

  predicate ScorePassed(cfg: Config, env: Env, o: Order) {
    && FeeGatePassed(cfg, env, o) && !env.fault.AtScoring?
    && !ScoreMissed(cfg, env) && !ScoreTooLow(env)
  }

  /** Validators agreed, or are not asked. */
  predicate ConsensusPassed(cfg: Config, env: Env, o: Order) {
    ScorePassed(cfg, env, o) && (cfg.consensus ==> env.peers && env.reached && !env.fault.AtConsensus?)
  }

  /** Proposing to the validators raised. */
  predicate ProposalRaised(cfg: Config, env: Env) { cfg.consensus && env.peers && env.fault.AtConsensus? }

  lemma GasIsCovered(cfg: Config, env: Env, o: Order)
    ensures o.lockedFee > 0 && !FeeCertified(cfg, env, o) <==> !FeePassed(cfg, env, o)
  {
    if env.gasUsed > 0 && env.gasPrice > 0 {
      assert Fees.GasCost(env.gasUsed, env.gasPrice) == env.gasUsed * env.gasPrice;
    } else {
      assert Fees.GasCost(env.gasUsed, env.gasPrice) == 0;
    }
  }

  /** Exactly when a pass ends before any plan is kept. */
  lemma EarlyVerdicts(cfg: Config, env: Env, o: Order, table: Retry.Table)
    ensures var v := Judge(cfg, env, o, table);
            && (v == Escaped(AtPlanning) <==> env.fault.AtPlanning?)
            && (v.AppMissing? <==> !env.fault.AtPlanning? && !env.appFound)
            && (v.Unfunded? <==>
                 !env.fault.AtPlanning? && env.appFound && o.perpetual && env.contract && !env.funded)
            && (v.PlanMissing? <==>
                 && !env.fault.AtPlanning? && env.appFound && (o.perpetual && env.contract ==> env.funded)
                 && env.plan.NoPlan?)
            && (v.PlanMissing? ==> (v.requeued <==> Live(o, env.now)))
            && (v.PolicyRefused? <==> HasPlan(env, o) && cfg.enforcePolicy && !env.policyAccepted)
  {
  }

  /** Exactly when a pass ends with its plan kept but not scored. */
  lemma PlanVerdicts(cfg: Config, env: Env, o: Order, table: Retry.Table)
    ensures var v, kept := Judge(cfg, env, o, table), PolicyPassed(cfg, env, o);
            && (v.Uncompilable? <==> kept && env.plan.MultiLeg? && !env.plan.compiles)
            && (v == Escaped(AtLegs) <==> kept && env.plan.MultiLeg? && env.plan.compiles && env.fault.AtLegs?)
            && (v.DelegatedLegs? <==> kept && env.plan.MultiLeg? && env.plan.compiles && !env.fault.AtLegs?)
            && (v.DelegatedLegs? ==> v.ends == env.plan.ends)
            && (v.CrossChainOff? <==> kept && env.plan.CrossChain? && !cfg.crossChainEnabled)
            && (v.FeeRefused? <==>
                 kept && !env.plan.MultiLeg? && (env.plan.CrossChain? ==> cfg.crossChainEnabled) && !FeePassed(cfg, env, o))
            && (v == Escaped(AtScoring) <==> FeeGatePassed(cfg, env, o) && env.fault.AtScoring?)
  {
    GasIsCovered(cfg, env, o);
  }

  /** Exactly when the score ends a pass. */
  lemma ScoreVerdicts(cfg: Config, env: Env, o: Order, table: Retry.Table)
    ensures var v, scored := Judge(cfg, env, o, table), FeeGatePassed(cfg, env, o) && !env.fault.AtScoring?;
            && (v.ScoreMissing? <==> scored && ScoreMissed(cfg, env))
            && (v.ScoreLow? <==> scored && ScoreTooLow(env))
            && (v.ScoreMissing? ==> (v.requeued <==> Live(o, env.now)))
            && (v.ScoreLow? ==> (v.requeued <==> Live(o, env.now)))
  {
    GasIsCovered(cfg, env, o);
  }

  /** Exactly when the validators end a pass, and whether the order may try again. */
  lemma ConsensusVerdicts(cfg: Config, env: Env, o: Order, table: Retry.Table)
    ensures var v, asked := Judge(cfg, env, o, table), ScorePassed(cfg, env, o) && cfg.consensus;
            && (v == Escaped(AtConsensus) <==> asked && env.peers && env.fault.AtConsensus?)
            && (v.ConsensusDeferred? || v.ConsensusRejected? <==>
                 asked && !ProposalRaised(cfg, env) && !(env.peers && env.reached))
            && (v.ConsensusDeferred? ==> Retry.DecisionOf(cfg.retry, table, o.id, o.deadline, env.now).Requeue?)
            && (v.ConsensusRejected? ==> Retry.DecisionOf(cfg.retry, table, o.id, o.deadline, env.now).Reject?)
  {
    GasIsCovered(cfg, env, o);
  }

  /** Exactly when a pass is approved, and what becomes of it then. */
  lemma ApprovedVerdicts(cfg: Config, env: Env, o: Order, table: Retry.Table)
    ensures var v, agreed := Judge(cfg, env, o, table), ConsensusPassed(cfg, env, o);
            && (v.AwaitsUser? <==> agreed && o.userSubmits)
            && (v == Escaped(AtBridge) <==> agreed && !o.userSubmits && env.plan.CrossChain? && env.fault.AtBridge?)
            && (v.DelegatedBridge? <==> agreed && !o.userSubmits && env.plan.CrossChain? && !env.fault.AtBridge?)
            && (v.DelegatedBridge? ==> v.ends == env.plan.ends)
            && (v == Escaped(AtRelay) <==> agreed && !o.userSubmits && env.plan.SingleChain? && env.fault.AtRelay?)
            && (v.Relayed? <==> agreed && !o.userSubmits && env.plan.SingleChain? && !env.fault.AtRelay?)
            && (v.Relayed? ==> v.reply == env.reply)
  {
    GasIsCovered(cfg, env, o);
  }

  /**
    When an order is relayed. The relayer is called exactly if nothing raised before it, the app
    is found, a perpetual with a contract is funded, the plan is for a single chain and accepted
    where policy is enforced, any locked fee is in range and covers the gas, the score meets the
    threshold or is absent where none is required, consensus is reached where it is configured,
    and the user does not submit the order himself.
   */
  lemma RelayedExactlyIf(cfg: Config, env: Env, o: Order, table: Retry.Table)
    ensures CallsRelayer(Judge(cfg, env, o, table)) <==>
              && !env.fault.AtPlanning? && !env.fault.AtScoring?
              && env.appFound && (o.perpetual && env.contract ==> env.funded)
              && env.plan.SingleChain? && (cfg.enforcePolicy ==> env.policyAccepted)
              && FeePassed(cfg, env, o)
              && (match env.onChainScore
                  case Some(score) => score >= env.threshold
                  case None => !(env.contract && cfg.failClosed))
              && (cfg.consensus ==> env.peers && env.reached && !env.fault.AtConsensus?)
              && !o.userSubmits
  {
    ApprovedVerdicts(cfg, env, o, table);
  }

  // ---------------------------------------------------------------- what a pass leaves, exactly

  /** The statuses saved on the way, up to a stage. */
  lemma StagesAreSaved(cfg: Config, v: Verdict, o: Order)
    ensures var assess := if cfg.assessPolicy || cfg.enforcePolicy then [Save(o)] else [];
            var solved, scored, approved :=
              Save(o.(status := Solved)), Save(o.(status := Scored)), Save(o.(status := Approved));
            Staged(cfg, Stage(v), o) ==
            match v
            case AppMissing | Unfunded | PlanMissing(_) => []
            case PolicyRefused => assess
            case Uncompilable | DelegatedLegs(_) | CrossChainOff | FeeRefused => assess + [solved]
            case ScoreMissing(_) | ScoreLow(_) | ConsensusDeferred | ConsensusRejected => assess + [solved, scored]
            case AwaitsUser | DelegatedBridge(_) | Relayed(_) => assess + [solved, scored, approved]
            case Escaped(at) =>
              if at.AtPlanning? then [] else if at.AtScoring? || at.AtLegs? then assess + [solved]
              else if at.AtConsensus? then assess + [solved, scored] else assess + [solved, scored, approved]
  {
    assert Staged(cfg, 0, o) == [];
    if Stage(v) >= 2 { StagedGrows(cfg, o, 1); }
    if Stage(v) >= 3 { StagedGrows(cfg, o, 2); }
    if Stage(v) >= 4 { StagedGrows(cfg, o, 3); }
  }

  /**
    What a pass does last, verdict by verdict: the relayer call, the save of the outcome, which stays
    in memory too, and the record.
   */
  lemma PassesEndWith(v: Verdict, o: Order, now: real)
    ensures var rejected, rested := Save(o.(status := Rejected)), Save(o.(status := Open, lastFilledAt := now));
            Closing(v, o, now) ==
            match v
            case AppMissing | Unfunded | Uncompilable | CrossChainOff => [rejected]
            case PlanMissing(requeued) => if requeued then [rested] else [rejected, Record(false)]
            case ScoreMissing(requeued) => if requeued then [rested] else [rejected, Record(false)]
            case ScoreLow(requeued) => if requeued then [rested] else [rejected, Record(false)]
            case PolicyRefused | FeeRefused => [rejected, Record(false)]
            case ConsensusDeferred => [Save(o.(status := Open))]
            case ConsensusRejected => [rejected]
            case AwaitsUser => []
            case DelegatedLegs(ends) => [Save(o.(status := ends))]
            case DelegatedBridge(ends) => [Save(o.(status := ends))]
            case Relayed(reply) =>
              (match reply
               case Settled => [Relay(o.id, true), Save(AfterFill(o, now)), Record(true)]
               case Reverted(userFault) => if userFault then [Relay(o.id, false), rejected]
                                           else [Relay(o.id, false), rejected, Record(false)])
            case Escaped(at) => if at.AtRelay? then [Relay(o.id, false), rejected] else [rejected]
    ensures if v.AwaitsUser? then Final(v, o, now) == o.(status := Approved)
            else forall e :: e in Closing(v, o, now) && e.Save? ==> e.order == Final(v, o, now)
  {
  }

  /** A fill closes a one-shot order, and counts an execution of a perpetual, which reopens while some are left. */
  lemma FillsCount(o: Order, now: real)
    ensures var f := AfterFill(o, now);
            && f == o.(status := f.status, executionCount := f.executionCount, lastFilledAt := f.lastFilledAt)
            && (!o.perpetual ==> f == o.(status := Filled))
            && (o.perpetual ==> f.executionCount == o.executionCount + 1 && f.lastFilledAt == now)
            && (f.status.Open? <==> o.perpetual && o.executionCount + 1 < o.maxExecutions)
            && (f.status.Open? || f.status.Filled?)
  {
  }

  /** The retry table counts failed rounds only, and forgets an order that is approved. */
  lemma RetriesAfterPass(cfg: Config, v: Verdict, env: Env, o: Order, table: Retry.Table)
    ensures TableAfterPass(cfg, v, env, o, table) ==
            if v.ConsensusDeferred? || v.ConsensusRejected? then
              Retry.TableAfter(cfg.retry, table, o.id, o.deadline, env.now)
            else if v.AwaitsUser? || v.DelegatedBridge? || v.Relayed? || v == Escaped(AtBridge) || v == Escaped(AtRelay)
            then table - {o.id} else table
  {
  }
}
