/**
  What every multi-leg run leaves behind.
 */
module MultiLegRuns {
  import opened Wrappers
  import opened LegPlans
  import opened MultiLeg

  /** The leg at `k` is scored, not turned down by its validators, and goes through. */
  predicate Succeeds(run: Run, k: nat)
    requires k < |run.plan.forward|
  {
    && ScoreAt(run, k).Returned?
    && !run.world.propose(k).NotReached?
    && run.world.submit(k).Returned? && run.world.submit(k).value.success
  }

  ghost predicate NeverWaits(run: Run) {
    forall k :: 0 <= k < |run.plan.forward| ==> !EndingAt(run, k).Waiting?
  }

  /** The first of these legs with this number claims a bridge protocol. */
  predicate ClaimsBridge(legs: seq<LegPlan>, index: int) {
    FirstWith(legs, index).Some? && Says(FirstWith(legs, index).value.metadata, BridgeProtocol)
  }

  lemma {:induction false} AwaitedIsClaimed(legs: seq<LegPlan>, dependsOn: seq<int>)
    ensures BridgeAwaited(legs, dependsOn).Some? <==> exists d :: d in dependsOn && ClaimsBridge(legs, d)
  {
    if dependsOn != [] {
      AwaitedIsClaimed(legs, dependsOn[1..]);
      if BridgeAwaited(legs, dependsOn[1..]).Some? {
        var d :| d in dependsOn[1..] && ClaimsBridge(legs, d);
        assert d in dependsOn;
      }
      assert dependsOn[0] in dependsOn;
    }
  }

  /** A transaction stamped on a leg changes neither its number nor its claims. */
  lemma {:induction false} StampsClaimNothing(a: seq<LegPlan>, b: seq<LegPlan>, index: int)
    requires |a| == |b|
    requires forall k :: 0 <= k < |a| ==>
               a[k].index == b[k].index && (Says(a[k].metadata, BridgeProtocol) <==> Says(b[k].metadata, BridgeProtocol))
    ensures ClaimsBridge(a, index) <==> ClaimsBridge(b, index)
  {
    if a != [] { StampsClaimNothing(a[1..], b[1..], index); }
  }

  /** A leg waits exactly if some leg it depends on came before it and claims a bridge protocol. */
  lemma WaitsForClaims(run: Run, k: nat)
    requires k < |run.plan.forward|
    ensures EndingAt(run, k).Waiting? <==>
            exists d :: d in run.plan.forward[k].dependsOn && ClaimsBridge(run.plan.forward[..k], d)
  {
    AwaitedIsClaimed(Completions(run, k), run.plan.forward[k].dependsOn);
    forall d ensures ClaimsBridge(Completions(run, k), d) <==> ClaimsBridge(run.plan.forward[..k], d) {
      StampsClaimNothing(Completions(run, k), run.plan.forward[..k], d);
    }
  }

  lemma {:induction false} ClaimIsThere(legs: seq<LegPlan>, index: int)
    requires ClaimsBridge(legs, index)
    ensures exists l :: l in legs && Says(l.metadata, BridgeProtocol)
  {
    if legs[0].index == index {
      assert legs[0] in legs;
    } else {
      ClaimIsThere(legs[1..], index);
      var l :| l in legs[1..] && Says(l.metadata, BridgeProtocol);
      assert l in legs;
    }
  }

  /** A plan of which no forward leg claims a bridge protocol never waits. */
  lemma PlansWithoutBridgesNeverWait(run: Run)
    requires forall l :: l in run.plan.forward ==> !Says(l.metadata, BridgeProtocol)
    ensures NeverWaits(run)
  {
    forall k | 0 <= k < |run.plan.forward| ensures !EndingAt(run, k).Waiting? {
      WaitsForClaims(run, k);
      forall d | d in run.plan.forward[k].dependsOn ensures !ClaimsBridge(run.plan.forward[..k], d) {
        if ClaimsBridge(run.plan.forward[..k], d) { ClaimIsThere(run.plan.forward[..k], d); }
      }
    }
  }

  lemma {:induction false} StopIsFirst(run: Run, k: nat)
    requires k <= |run.plan.forward|
    ensures var n := StopFrom(run, k);
            && (forall j :: k <= j < n ==> EndingAt(run, j).Completed?)
            && (n < |run.plan.forward| ==> !EndingAt(run, n).Completed?)
    decreases |run.plan.forward| - k
  {
    if k < |run.plan.forward| && EndingAt(run, k).Completed? {
      StopIsFirst(run, k + 1);
    }
  }

  /** The submissions of a run, without its rollbacks. */
  function Submissions(calls: seq<Call>): seq<LegPlan> {
    if calls == [] then []
    else if calls[0].Submit? then [calls[0].leg] + Submissions(calls[1..])
    else Submissions(calls[1..])
  }

  function Undone(calls: seq<Call>): seq<LegPlan> {
    if calls == [] then []
    else if calls[0].Undo? then [calls[0].leg] + Undone(calls[1..])
    else Undone(calls[1..])
  }

  lemma {:induction false} SubmissionsAdd(a: seq<Call>, b: seq<Call>)
    ensures Submissions(a + b) == Submissions(a) + Submissions(b)
  {
    if a == [] {
      assert a + b == b;
    } else {
      SubmissionsAdd(a[1..], b);
      assert (a + b)[1..] == a[1..] + b;
      if a[0].Submit? {
        Regroup([a[0].leg], Submissions(a[1..]), Submissions(b));
      }
    }
  }

  lemma {:induction false} UndoneAdd(a: seq<Call>, b: seq<Call>)
    ensures Undone(a + b) == Undone(a) + Undone(b)
  {
    if a == [] {
      assert a + b == b;
    } else {
      UndoneAdd(a[1..], b);
      assert (a + b)[1..] == a[1..] + b;
      if a[0].Undo? {
        Regroup([a[0].leg], Undone(a[1..]), Undone(b));
      }
    }
  }

  lemma Concatenated(a: seq<Call>, b: seq<Call>)
    ensures Submissions(a + b) == Submissions(a) + Submissions(b)
    ensures Undone(a + b) == Undone(a) + Undone(b)
  {
    SubmissionsAdd(a, b);
    UndoneAdd(a, b);
  }

  lemma {:induction false} SubmitsAreLegs(run: Run, n: nat)
    requires n <= |run.plan.forward|
    ensures Submissions(Submits(run, n)) == run.plan.forward[..n]
    ensures Undone(Submits(run, n)) == []
  {
    if n > 0 {
      SubmitsAreLegs(run, n - 1);
      var last := [SubmitAt(run, n - 1)];
      Concatenated(Submits(run, n - 1), last);
      assert Submissions(last[1..]) == [] && Undone(last[1..]) == [];
      assert run.plan.forward[..n] == run.plan.forward[..n - 1] + [run.plan.forward[n - 1]];
    }
  }

  /** The rollback legs of the first `n` forward legs, in forward order. */
  function RollbacksFor(plan: MultiLegPlan, n: nat): seq<LegPlan>
    requires n <= |plan.forward|
  {
    if n == 0 then []
    else
      match RollbackOf(plan.rollback, plan.forward[n - 1].index)
      case Some(r) => RollbacksFor(plan, n - 1) + [r]
      case None => RollbacksFor(plan, n - 1)
  }

  function Reversed<T>(s: seq<T>): (r: seq<T>)
    ensures |r| == |s| && forall i :: 0 <= i < |s| ==> r[i] == s[|s| - 1 - i]
  {
    seq(|s|, i requires 0 <= i < |s| => s[|s| - 1 - i])
  }

  lemma {:induction false} UndosAreReversed(plan: MultiLegPlan, n: nat)
    requires n <= |plan.forward|
    ensures Undone(Undos(plan, n)) == Reversed(RollbacksFor(plan, n))
    ensures Submissions(Undos(plan, n)) == []
  {
    if n > 0 {
      UndosAreReversed(plan, n - 1);
      var found := RollbackOf(plan.rollback, plan.forward[n - 1].index);
      if found.Some? {
        var u := [Undo(found.value)];
        Concatenated(u, Undos(plan, n - 1));
        assert Undone(u[1..]) == [] && Submissions(u[1..]) == [];
      }
    }
  }

  /**
    Every run submits the forward legs in order up to the one where it stops, and if it gives
    up, then the rollback legs of the completed ones, last leg first.
   */
  lemma CallsOfARun(run: Run)
    ensures var n, r := Stop(run), ReportOf(run);
            && Submissions(r.calls) == run.plan.forward[..Attempts(run)]
            && Undone(r.calls) == (if r.result == Returned(false) then Reversed(RollbacksFor(run.plan, n)) else [])
  {
    var n := Stop(run);
    SubmitsAreLegs(run, n);
    SubmitsAreLegs(run, Attempts(run));
    UndosAreReversed(run.plan, n);
    Concatenated(Submits(run, Attempts(run)), Undos(run.plan, n));
    Nothing(run.plan.forward[..Attempts(run)]);
  }

  /**
    Without bridge hand-offs a run stops at the first leg that does not succeed. An exception comes
    out of it exactly if that leg's scorer raised, or if all legs succeeded and their record raised.
   */
  lemma StopOfARun(run: Run)
    requires NeverWaits(run)
    ensures var n, r := Stop(run), ReportOf(run);
            && (forall k :: 0 <= k < n ==> Succeeds(run, k))
            && (n < |run.plan.forward| ==> !Succeeds(run, n))
            && (r.result.Raised? <==> if n < |run.plan.forward| then ScoreAt(run, n).Raised? else run.world.recordRaises)
            && r.tracked == []
  {
    StopIsFirst(run, 0);
    forall k | 0 <= k < Stop(run) ensures Succeeds(run, k) {
      assert EndingAt(run, k).Completed?;
    }
    assert Stop(run) < |run.plan.forward| ==> !EndingAt(run, Stop(run)).Waiting?;
  }

  /** FILLED means every leg succeeded, recorded or not; PARTIAL_ROLLBACK means an attempted rollback did not. */
  lemma StatusOfARun(run: Run)
    requires NeverWaits(run)
    ensures var n, r := Stop(run), ReportOf(run);
            && (r.status.Filled? <==> forall k :: 0 <= k < |run.plan.forward| ==> Succeeds(run, k))
            && (r.status.PartialRollback? <==>
                  (r.result == Returned(false) && exists k :: 0 <= k < n && UndoFails(run, k)))
            && (r.status.RolledBack? <==>
                  (r.result == Returned(false) && forall k :: 0 <= k < n ==> !UndoFails(run, k)))
            && (r.records != [] <==> r.status.Filled? && !run.world.recordRaises)
  {
    StopOfARun(run);
  }

  /** A leg whose validators turned it down is never submitted, nor is any leg after it. */
  lemma UnreachedIsNeverSubmitted(run: Run, k: nat)
    requires k < |run.plan.forward| && run.world.propose(k).NotReached?
    ensures |Submissions(ReportOf(run).calls)| <= k
  {
    assert Attempts(run) <= k by {
      StopIsFirst(run, 0);
      assert !EndingAt(run, k).Completed? && !EndingAt(run, k).SubmitFailed?;
    }
    CallsOfARun(run);
  }

  /** The same run, with consensus switched off wherever proposing raised. */
  function WithoutProposals(run: Run): Run {
    run.(world := run.world.(propose :=
      (k: nat) => if run.world.propose(k).ProposalRaised? then NotConfigured else run.world.propose(k)))
  }

  lemma SameEnding(run: Run, k: nat)
    requires k < |run.plan.forward|
    ensures EndingAt(WithoutProposals(run), k) == EndingAt(run, k)
    ensures SubmitAt(WithoutProposals(run), k) == SubmitAt(run, k)
  {
    assert Completions(WithoutProposals(run), k) == Completions(run, k);
  }

  lemma {:induction false} SameStop(run: Run, k: nat)
    requires k <= |run.plan.forward|
    ensures StopFrom(WithoutProposals(run), k) == StopFrom(run, k)
    decreases |run.plan.forward| - k
  {
    if k < |run.plan.forward| {
      SameEnding(run, k);
      SameStop(run, k + 1);
    }
  }

  lemma {:induction false} SameSubmits(run: Run, n: nat)
    requires n <= |run.plan.forward|
    ensures Submits(WithoutProposals(run), n) == Submits(run, n)
    ensures BestScore(WithoutProposals(run), n) == BestScore(run, n)
  {
    if n > 0 {
      SameEnding(run, n - 1);
      SameSubmits(run, n - 1);
    }
  }

  /** A proposal that raises protects nothing: the run goes on as if there were no consensus. */
  lemma RaisedProposalIsNoConsensus(run: Run)
    ensures ReportOf(WithoutProposals(run)) == ReportOf(run)
  {
    var n := Stop(run);
    SameStop(run, 0);
    SameSubmits(run, n);
    if n < |run.plan.forward| {
      SameEnding(run, n);
      SameSubmits(run, Attempts(run));
      SameUndos(run, n);
      SameLegs(run, n);
    }
  }

  lemma SameUndos(run: Run, n: nat)
    requires n <= |run.plan.forward|
    ensures SomeUndoFails(WithoutProposals(run), n) <==> SomeUndoFails(run, n)
  {
    assert forall k :: 0 <= k < n ==> (UndoFails(WithoutProposals(run), k) <==> UndoFails(run, k));
  }

  lemma SameLegs(run: Run, n: nat)
    requires n <= |run.plan.forward|
    ensures LegsAfter(WithoutProposals(run), n) == LegsAfter(run, n)
  {
    assert Completions(WithoutProposals(run), n) == Completions(run, n);
  }

  /** A filled order is recorded with the best on-chain score any of its legs reported, or zero. */
  lemma {:induction false} BestScoreIsTheMaximum(run: Run, n: nat)
    ensures BestScore(run, n).None? <==> forall k :: 0 <= k < n ==> run.world.simulate(k).onChainScore.None?
    ensures BestScore(run, n).Some? ==>
              && (exists k :: 0 <= k < n && run.world.simulate(k).onChainScore == BestScore(run, n))
              && forall k :: 0 <= k < n && run.world.simulate(k).onChainScore.Some? ==>
                   run.world.simulate(k).onChainScore.value <= BestScore(run, n).value
  {
    if n > 0 {
      BestScoreIsTheMaximum(run, n - 1);
    }
  }
}
