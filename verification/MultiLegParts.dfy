/**
  The parts of a multi-leg run, exactly: what is found, submitted, undone, recorded and handed over.
 */
module MultiLegParts {
  import opened Wrappers
  import opened LegPlans
  import opened MultiLeg
  import opened MultiLegRuns

  /** `r` is the first of these rollback legs that is for the leg with this number. */
  predicate FirstFor(rollback: seq<LegPlan>, index: int, r: LegPlan, k: nat) {
    && k < |rollback| && rollback[k] == r && r.rollbackFor == Some(index)
    && forall j :: 0 <= j < k ==> rollback[j].rollbackFor != Some(index)
  }

  /** A leg is rolled back by the first rollback leg that is for it. */
  lemma {:induction false} RolledBackBy(rollback: seq<LegPlan>, index: int)
    ensures RollbackOf(rollback, index).None? <==> forall r :: r in rollback ==> r.rollbackFor != Some(index)
    ensures RollbackOf(rollback, index).Some? ==> exists k: nat :: FirstFor(rollback, index, RollbackOf(rollback, index).value, k)
  {
    if rollback != [] {
      RolledBackBy(rollback[1..], index);
      assert forall r :: r in rollback <==> r == rollback[0] || r in rollback[1..];
      if rollback[0].rollbackFor == Some(index) {
        assert FirstFor(rollback, index, rollback[0], 0);
      } else if RollbackOf(rollback, index).Some? {
        var k: nat :| FirstFor(rollback[1..], index, RollbackOf(rollback, index).value, k);
        assert FirstFor(rollback, index, RollbackOf(rollback, index).value, k + 1);
      }
    }
  }

  /** `l` is the first of these legs with this number. */
  predicate FirstNumbered(legs: seq<LegPlan>, index: int, l: LegPlan, k: nat) {
    k < |legs| && legs[k] == l && l.index == index && forall j :: 0 <= j < k ==> legs[j].index != index
  }

  lemma {:induction false} NumberedExactly(legs: seq<LegPlan>, index: int)
    ensures FirstWith(legs, index).None? <==> forall l :: l in legs ==> l.index != index
    ensures FirstWith(legs, index).Some? ==> exists k: nat :: FirstNumbered(legs, index, FirstWith(legs, index).value, k)
  {
    if legs != [] {
      NumberedExactly(legs[1..], index);
      assert forall l :: l in legs <==> l == legs[0] || l in legs[1..];
      if legs[0].index == index {
        assert FirstNumbered(legs, index, legs[0], 0);
      } else if FirstWith(legs, index).Some? {
        var k: nat :| FirstNumbered(legs[1..], index, FirstWith(legs, index).value, k);
        assert FirstNumbered(legs, index, FirstWith(legs, index).value, k + 1);
      }
    }
  }

  /** Undoing a leg fails exactly if there is a rollback leg for it and the relayer does not take it through. */
  lemma UndoFailsExactlyIf(run: Run, k: nat)
    requires k < |run.plan.forward|
    ensures UndoFails(run, k) <==>
              && (exists r :: r in run.plan.rollback && r.rollbackFor == Some(run.plan.forward[k].index))
              && run.world.undo(k) != Returned(true)
  {
    RolledBackBy(run.plan.rollback, run.plan.forward[k].index);
  }

  /**
    Which legs are taken for bridges: those with a mock; and those whose metadata say so, by their
    type or by a protocol, unless they make calls of which none looks like a bridge call.
   */
  lemma BridgesExactly(l: LegPlan, mocks: Mocks)
    ensures IsBridge(l, mocks) <==>
              || l.index in mocks
              || (&& (|| (Kind in l.metadata && (l.metadata[Kind] == Text("bridge") || l.metadata[Kind] == Text("bridge_source")))
                      || Says(l.metadata, BridgeProtocol))
                  && (|l.interactions| > 0 ==>
                       exists ix :: ix in l.interactions && |ix.callData| >= 10 && ix.callData[2..10] == "81b4e8b4"))
  {
    if ix :| ix in l.interactions && |ix.callData| >= 10 && ix.callData[2..10] == "81b4e8b4" {
      assert LegacyBridgeCall(ix);
    }
  }

  lemma {:induction false} SubmitsAt(run: Run, n: nat, k: nat)
    requires k < n <= |run.plan.forward|
    ensures |Submits(run, n)| == n && Submits(run, n)[k] == SubmitAt(run, k)
  {
    SubmitsLength(run, n - 1);
    if k < n - 1 { SubmitsAt(run, n - 1, k); }
  }

  lemma {:induction false} SubmitsLength(run: Run, n: nat)
    requires n <= |run.plan.forward|
    ensures |Submits(run, n)| == n
  {
    if n > 0 { SubmitsLength(run, n - 1); }
  }

  /**
    What the relayer is told with each leg it is given: the leg as the plan has it, the score, which
    for a simulated bridge is 0.6 and otherwise what the scorer said, and whether its validators agreed.
   */
  lemma SubmissionsExactly(run: Run, k: nat)
    requires k < Attempts(run)
    ensures k < |ReportOf(run).calls|
    ensures var call, w := ReportOf(run).calls[k], run.world;
            var simulated := IsBridge(run.plan.forward[k], run.mocks) && w.simulate(k).success;
            && (simulated || w.score(k).Returned?)
            && call == Submit(run.plan.forward[k], if simulated then 0.6 else w.score(k).value, w.propose(k) == Agreed)
  {
    var n := Stop(run);
    SubmitsAt(run, Attempts(run), k);
    StopIsFirst(run, 0);
    if k < n { assert EndingAt(run, k).Completed?; }
  }

  /** A run that completes all legs is filled, and recorded once with its best score, or zero, unless the record raises. */
  lemma FilledRunsExactly(run: Run)
    ensures var best, r := BestScore(run, |run.plan.forward|), ReportOf(run);
            && (r.status.Filled? <==> Stop(run) == |run.plan.forward|)
            && r.records == if r.status.Filled? && !run.world.recordRaises
                            then [Execution(if best.Some? then best.value else 0, true)] else []
  {
    StopIsFirst(run, 0);
  }

  /** The leg at which a run stops is waiting for this bridge leg. */
  predicate StopsFor(run: Run, n: nat, bridge: LegPlan) {
    n == Stop(run) && n < |run.plan.forward| && EndingAt(run, n) == Waiting(bridge)
  }

  /**
    What the bridge tracker is told: the transaction of the bridge, if it has one, its chain and the
    chain of the leg that waits, its protocol or the default one, the numbers of the legs done, the
    legs still to do, and all rollback legs.
   */
  lemma HandOversExactly(run: Run, n: nat, bridge: LegPlan)
    requires StopsFor(run, n, bridge)
    ensures var r, leg := ReportOf(run), run.plan.forward[n];
            var tx := if TxHash in bridge.metadata && bridge.metadata[TxHash].Text? then bridge.metadata[TxHash].text else "";
            && r.status.Bridging? && r.result == Returned(true) && r.records == []
            && |r.tracked| == (if run.world.tracker && tx != "" then 1 else 0)
            && (r.tracked != [] ==>
                 var t := r.tracked[0];
                 && t.tx == tx && t.src == bridge.chain && t.dst == leg.chain && t.rollback == run.plan.rollback
                 && t.protocol == (if BridgeProtocol in bridge.metadata then bridge.metadata[BridgeProtocol]
                                   else Text("hyperlane"))
                 && |t.completed| == n && (forall k :: 0 <= k < n ==> t.completed[k] == run.plan.forward[k].index)
                 && t.remaining == Remaining(LegsAfter(run, n), leg.index))
  {
  }

  /** The legs still to do are those with a number from this one on, in their order. */
  lemma {:induction false} RemainingExactly(legs: seq<LegPlan>, index: int)
    ensures forall l :: l in Remaining(legs, index) <==> l in legs && l.index >= index
    ensures legs != [] ==>
              Remaining(legs, index) == (if legs[0].index >= index then [legs[0]] else []) + Remaining(legs[1..], index)
  {
    if legs != [] {
      RemainingExactly(legs[1..], index);
      assert forall l :: l in legs <==> l == legs[0] || l in legs[1..];
    }
  }
}
