/**
  What becomes of a compiled cross-chain plan when the executor runs it.
 */
module CompiledRuns {
  import opened Wrappers
  import opened LegPlans
  import opened MultiLeg
  import opened MultiLegRuns
  import Pass = OrderPass
  import Compiler = BridgeCompiler
  import Compiled = CompiledPlans

  /** What matters of a compiled plan to the executor. */
  ghost predicate Chained(plan: MultiLegPlan) {
    && |plan.forward| >= 3
    && (forall k :: 0 <= k < |plan.forward| ==>
         && plan.forward[k].index == k
         && plan.forward[k].dependsOn == if k == 0 then [] else [k - 1])
    && plan.forward[1].chain == plan.forward[0].chain
    && Says(plan.forward[1].metadata, BridgeProtocol)
    && RollbackOf(plan.rollback, 0) == None
  }

  /** Where the executor hands such a plan over to a bridge. */
  function HandOffAt(plan: MultiLegPlan): nat
    requires plan.forward != []
  {
    if Says(plan.forward[0].metadata, BridgeProtocol) then 1 else 2
  }

  // ---------------------------------------------------------------- the executor on a chain of legs

  lemma {:induction false} FindsByIndex(legs: seq<LegPlan>, offset: int, index: int)
    requires forall k :: 0 <= k < |legs| ==> legs[k].index == offset + k
    ensures FirstWith(legs, index) ==
            if offset <= index < offset + |legs| then Some(legs[index - offset]) else None
  {
    if legs != [] {
      FindsByIndex(legs[1..], offset + 1, index);
    }
  }

  /** In a chain of legs, a leg waits exactly when the leg before it claims a bridge protocol. */
  lemma WaitsForPredecessor(run: Run, k: nat)
    requires Chained(run.plan) && 0 < k < |run.plan.forward|
    ensures EndingAt(run, k).Waiting? <==> Says(run.plan.forward[k - 1].metadata, BridgeProtocol)
    ensures EndingAt(run, k).Waiting? ==> EndingAt(run, k).bridge == Stamped(run, k - 1)
  {
    FindsByIndex(Completions(run, k), 0, k - 1);
    assert BridgeAwaited(Completions(run, k), [k - 1][1..]) == None;
  }

  lemma StopsByHandOff(run: Run)
    requires Chained(run.plan)
    ensures var h, n := HandOffAt(run.plan), Stop(run);
            && n <= h
            && EndingAt(run, h).Waiting?
            && (n == h <==> forall k :: 0 <= k < h ==> Succeeds(run, k))
            && (n < h ==> !EndingAt(run, n).Waiting?)
  {
    var h, n := HandOffAt(run.plan), Stop(run);
    WaitsForPredecessor(run, 1);
    WaitsForPredecessor(run, 2);
    StopIsFirst(run, 0);
    assert EndingAt(run, h).Waiting?;
    assert !EndingAt(run, 0).Waiting?;
    assert h == 2 ==> !EndingAt(run, 1).Waiting?;
    forall k | 0 <= k < n ensures Succeeds(run, k) {
      assert EndingAt(run, k).Completed?;
    }
    if n < h {
      assert !Succeeds(run, n);
    }
  }

  /** How a chain of legs that starts with a bridge ends. */
  ghost predicate EndsAtTheBridge(run: Run)
    requires Chained(run.plan)
  {
    var h, n, r := HandOffAt(run.plan), Stop(run), ReportOf(run);
    && n <= h && Attempts(run) <= h
    && (n == h <==> forall k :: 0 <= k < h ==> Succeeds(run, k))
    && r.status == (if n == h then Pass.Bridging
                    else if ScoreAt(run, n).Raised? then Pass.ExecutingLeg
                    else Pass.RolledBack)
    && r.records == []
    && Submissions(r.calls) == run.plan.forward[..Attempts(run)]
    && Undone(r.calls) == []
  }

  lemma ChainEndsAtTheBridge(run: Run)
    requires Chained(run.plan)
    ensures EndsAtTheBridge(run)
  {
    StopsByHandOff(run);
    CallsOfARun(run);
    NothingToUndo(run);
  }

  lemma NothingToUndo(run: Run)
    requires Chained(run.plan) && Stop(run) <= HandOffAt(run.plan)
    ensures Stop(run) < HandOffAt(run.plan) ==>
              RollbacksFor(run.plan, Stop(run)) == [] && !SomeUndoFails(run, Stop(run))
  {
    assert RollbacksFor(run.plan, 0) == [];
    assert !UndoFails(run, 0);
  }

  // ---------------------------------------------------------------- compiled plans

  /** The executor reads the compiled plan back from the dictionaries it was stored in. */
  ghost predicate Executes(job: Compiler.Job, c: Compiler.Compiled, run: Run) {
    && Compiled.Done(job, c)
    && |job.plan.legs| >= 2
    && c.quotes[0].protocol != ""
    && PlanFromDict(PlanToDict(c.plan)) == Some(run.plan)
    && run.mocks == c.mocks
  }

  lemma {:induction false} NothingUndoes(rollback: seq<LegPlan>, index: int)
    requires forall t :: 0 <= t < |rollback| ==> rollback[t].rollbackFor != Some(index)
    ensures RollbackOf(rollback, index) == None
  {
    if rollback != [] {
      NothingUndoes(rollback[1..], index);
    }
  }

  lemma FirstLegHasNoRollback(job: Compiler.Job, c: Compiler.Compiled)
    requires Compiled.Done(job, c)
    ensures RollbackOf(c.plan.rollback, 0) == None
  {
    forall t | 0 <= t < |c.plan.rollback| ensures c.plan.rollback[t].rollbackFor != Some(0) {
      var i := Compiled.RollbackLegAt(job, c, t);
      assert c.plan.rollback[t].rollbackFor == Some(2 * i + 1);
    }
    NothingUndoes(c.plan.rollback, 0);
  }

  lemma CompiledIsChained(job: Compiler.Job, c: Compiler.Compiled, run: Run)
    requires Executes(job, c, run)
    ensures run.plan == c.plan && Chained(run.plan)
    ensures run.plan.forward[0].chain == job.plan.legs[0].chain
    ensures HandOffAt(run.plan) == if Says(job.plan.legs[0].metadata, BridgeProtocol) then 1 else 2
  {
    PlanRoundTrip(c.plan);
    Compiled.LegsFormAChain(job, c);
    Compiled.SolverMetadataIsOverlaid(job, c, 0, BridgeProtocol);
    Compiled.BridgesCarryTheQuote(job, c, 0);
    Compiled.SolverLegAt(job, c, 0);
    FirstLegHasNoRollback(job, c);
  }

  /** The executor takes every bridge leg of a compiled plan for one, so a simulated one needs no scorer. */
  lemma CompiledBridgesAreRecognised(job: Compiler.Job, c: Compiler.Compiled, run: Run, k: nat)
    requires Executes(job, c, run) && k < |c.plan.forward| && k % 2 == 1
    ensures run.plan == c.plan && IsBridge(run.plan.forward[k], run.mocks)
    ensures run.world.simulate(k).success ==> ScoreAt(run, k) == Returned(BRIDGE_SCORE)
  {
    PlanRoundTrip(c.plan);
    Compiled.LegsAlternate(job, c, k);
    Compiled.LegsFormAChain(job, c);
    Compiled.MocksMarkBridges(job, c, k);
  }

  /**
    A compiled plan never runs to its end: it is handed to the bridge tracker right after its
    first bridge leg, or gives up before. Nothing it submits leaves the first leg's chain, and
    none of its rollback legs is ever submitted.

    If the solver's first leg claims a bridge protocol, the hand-off happens one leg early,
    before the real bridge leg is submitted.
   */
  lemma CompiledPlansEndAtTheBridge(job: Compiler.Job, c: Compiler.Compiled, run: Run)
    requires Executes(job, c, run)
    ensures Chained(run.plan) && EndsAtTheBridge(run)
    ensures HandOffAt(run.plan) == if Says(job.plan.legs[0].metadata, BridgeProtocol) then 1 else 2
    ensures forall l :: l in Submissions(ReportOf(run).calls) ==> l.chain == job.plan.legs[0].chain
  {
    CompiledIsChained(job, c, run);
    ChainEndsAtTheBridge(run);
    FirstChain(run);
  }

  lemma FirstChain(run: Run)
    requires Chained(run.plan) && EndsAtTheBridge(run)
    ensures forall l :: l in Submissions(ReportOf(run).calls) ==> l.chain == run.plan.forward[0].chain
  {
  }

  // ---------------------------------------------------------------- the hand-off

  lemma {:induction false} RemainingIsSuffix(legs: seq<LegPlan>, offset: int, index: int)
    requires forall k :: 0 <= k < |legs| ==> legs[k].index == offset + k
    requires offset <= index <= offset + |legs|
    ensures Remaining(legs, index) == legs[index - offset..]
  {
    if legs != [] {
      if offset < index {
        RemainingIsSuffix(legs[1..], offset + 1, index);
        assert legs[1..][index - (offset + 1)..] == legs[index - offset..];
      } else {
        AllRemain(legs, index);
      }
    }
  }

  lemma {:induction false} AllRemain(legs: seq<LegPlan>, index: int)
    requires forall k :: 0 <= k < |legs| ==> legs[k].index >= index
    ensures Remaining(legs, index) == legs
  {
    if legs != [] {
      AllRemain(legs[1..], index);
    }
  }

  /**
    At the hand-off the tracker is told of the legs done and the legs left, which together are
    all forward legs. It is told nothing if it is missing or the bridge left no transaction.
   */
  ghost predicate HandsOver(run: Run)
    requires Chained(run.plan)
  {
    var h, r := HandOffAt(run.plan), ReportOf(run);
    && Submissions(r.calls) == run.plan.forward[..h]
    && run.world.submit(h - 1).Returned?
    && (r.tracked != [] <==> run.world.tracker && run.world.submit(h - 1).value.tx != "")
    && forall t :: t in r.tracked ==>
         && |t.completed| == h && (forall k :: 0 <= k < h ==> t.completed[k] == run.plan.forward[k].index)
         && t.remaining == run.plan.forward[h..]
         && t.tx == run.world.submit(h - 1).value.tx
         && t.src == run.plan.forward[h - 1].chain && t.dst == run.plan.forward[h].chain
         && t.rollback == run.plan.rollback
  }

  lemma HandOffPartitionsTheLegs(run: Run)
    requires Chained(run.plan) && ReportOf(run).status.Bridging?
    ensures HandsOver(run)
  {
    var h := HandOffAt(run.plan);
    StopsByHandOff(run);
    ChainEndsAtTheBridge(run);
    WaitsForPredecessor(run, h);
    RemainingIsSuffix(LegsAfter(run, h), 0, h);
    assert LegsAfter(run, h)[h..] == run.plan.forward[h..];
    assert Succeeds(run, h - 1);
  }
}
