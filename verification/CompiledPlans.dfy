/**
  What every compiled cross-chain plan is like, whatever the solver and the bridges answered,
  and what the validators' selector scan says about its legs.
 */
module CompiledPlans {
  import opened Wrappers
  import opened LegPlans
  import opened BridgeRegistry
  import opened BridgeCompiler

  predicate IsSolverLeg(l: LegPlan) {
    Kind in l.metadata && l.metadata[Kind] == Text("solver_leg")
  }

  predicate IsBridgeLeg(l: LegPlan) {
    Kind in l.metadata && l.metadata[Kind] == Text("bridge")
  }

  /** A compiled leg, with the platform's metadata taken away. */
  function Work(l: LegPlan): ChainLeg {
    ChainLeg(l.chain, l.interactions, l.selector, l.params, map[])
  }

  function SolverWork(forward: seq<LegPlan>): seq<ChainLeg> {
    if forward == [] then []
    else
      var last := forward[|forward| - 1];
      var rest := SolverWork(forward[..|forward| - 1]);
      if IsSolverLeg(last) then rest + [Work(last)] else rest
  }

  ghost predicate Done(job: Job, c: Compiled) {
    Compilable(job) && Produces(job, c)
  }

  lemma KindsDiffer()
    ensures Text("solver_leg") != Text("bridge")
  {
    assert |"solver_leg"| != |"bridge"|;
  }

  lemma SolverLegAt(job: Job, c: Compiled, i: nat)
    requires Done(job, c) && i < |job.plan.legs|
    ensures 2 * i < |c.plan.forward| && c.plan.forward[2 * i] == SolverLeg(job.plan, i)
  {
    assert c.plan.forward[2 * i] == SolverLeg(job.plan, i);
  }

  lemma BridgeLegAt(job: Job, c: Compiled, i: nat)
    requires Done(job, c) && i < |job.plan.requests|
    ensures Bridged(job, i) && 2 * i + 1 < |c.plan.forward| && c.plan.forward[2 * i + 1] == BridgeLeg(job, i)
  {
    assert Bridged(job, i);
    assert c.plan.forward[2 * i + 1] == BridgeLeg(job, i);
  }

  lemma LengthOf(job: Job, c: Compiled)
    requires Done(job, c)
    ensures |c.plan.forward| == 2 * |job.plan.legs| - 1 == 2 * |job.plan.requests| + 1
  {
  }

  /** The two kinds of forward legs alternate, whatever "type" the solver's metadata claims. */
  lemma LegsAlternate(job: Job, c: Compiled, k: nat)
    requires Done(job, c) && k < |c.plan.forward|
    ensures IsSolverLeg(c.plan.forward[k]) <==> k % 2 == 0
    ensures IsBridgeLeg(c.plan.forward[k]) <==> k % 2 == 1
  {
    KindsDiffer();
    LengthOf(job, c);
    if k % 2 == 0 {
      SolverLegAt(job, c, k / 2);
    } else {
      BridgeLegAt(job, c, k / 2);
    }
  }

  /** Legs are numbered consecutively and each waits for the one before it. */
  lemma LegsFormAChain(job: Job, c: Compiled)
    requires Done(job, c)
    ensures |c.plan.forward| == 2 * |job.plan.legs| - 1
    ensures forall k :: 0 <= k < |c.plan.forward| ==>
              && c.plan.forward[k].index == k
              && c.plan.forward[k].dependsOn == (if k == 0 then [] else [k - 1])
              && c.plan.forward[k].rollbackFor == None
  {
    LengthOf(job, c);
    forall k | 0 <= k < |c.plan.forward|
      ensures c.plan.forward[k].index == k
      ensures c.plan.forward[k].dependsOn == (if k == 0 then [] else [k - 1])
      ensures c.plan.forward[k].rollbackFor == None
    {
      if k % 2 == 0 {
        SolverLegAt(job, c, k / 2);
      } else {
        BridgeLegAt(job, c, k / 2);
      }
    }
  }

  /** Dropping the bridge legs gives back the solver's work, leg for leg and call for call. */
  lemma SolverWorkIsPreserved(job: Job, c: Compiled)
    requires Done(job, c)
    ensures SolverWork(c.plan.forward) == Bare(job.plan.legs)
  {
    var n := |c.plan.forward|;
    LengthOf(job, c);
    forall k | 0 <= k < n ensures IsSolverLeg(c.plan.forward[k]) <==> k % 2 == 0 {
      LegsAlternate(job, c, k);
    }
    forall i | 0 <= i < |job.plan.legs| ensures Work(c.plan.forward[2 * i]) == job.plan.legs[i].(metadata := map[]) {
      SolverLegAt(job, c, i);
    }
    AlternateWork(c.plan.forward, job.plan.legs, n);
    assert c.plan.forward[..n] == c.plan.forward;
    assert SolverWork(c.plan.forward) == Bare(job.plan.legs);
  }

  function Bare(legs: seq<ChainLeg>): seq<ChainLeg> {
    Mapped(legs, (l: ChainLeg) => l.(metadata := map[]))
  }

  lemma {:induction false} AlternateWork(forward: seq<LegPlan>, legs: seq<ChainLeg>, k: nat)
    requires |forward| == 2 * |legs| - 1 && k <= |forward|
    requires forall j :: 0 <= j < |forward| ==> (IsSolverLeg(forward[j]) <==> j % 2 == 0)
    requires forall i :: 0 <= i < |legs| ==> Work(forward[2 * i]) == legs[i].(metadata := map[])
    ensures |SolverWork(forward[..k])| == (k + 1) / 2
    ensures forall i :: 0 <= i < (k + 1) / 2 ==> SolverWork(forward[..k])[i] == legs[i].(metadata := map[])
  {
    if k > 0 {
      AlternateWork(forward, legs, k - 1);
      assert forward[..k][..k - 1] == forward[..k - 1];
      assert k % 2 == 1 ==> Work(forward[2 * (k / 2)]) == legs[k / 2].(metadata := map[]);
    }
  }

  /** Only the two flags of a solver's metadata are overwritten; all the rest reaches the executor as it was. */
  lemma SolverMetadataIsOverlaid(job: Job, c: Compiled, i: nat, key: Key)
    requires Done(job, c) && i < |job.plan.legs|
    ensures var given, left := job.plan.legs[i].metadata, c.plan.forward[2 * i].metadata;
            key != Kind && key != PlatformCompiled ==>
              (key in left <==> key in given) && (key in given ==> left[key] == given[key])
    ensures var left := c.plan.forward[2 * i].metadata;
            && Kind in left && left[Kind] == Text("solver_leg")
            && PlatformCompiled in left && left[PlatformCompiled] == Flag(true)
  {
    SolverLegAt(job, c, i);
  }

  /** Simulation mocks are there for exactly the bridge legs, each as the bridge's adapter built it. */
  lemma MocksMarkBridges(job: Job, c: Compiled, k: int)
    requires Done(job, c)
    ensures k in c.mocks <==> 0 <= k < |c.plan.forward| && IsBridgeLeg(c.plan.forward[k])
    ensures k in c.mocks ==> (job.answers(k / 2).build.Returned? && c.mocks[k] == job.answers(k / 2).build.value.mock)
  {
    if 0 <= k < |c.plan.forward| {
      LegsAlternate(job, c, k);
    }
  }

  /** Each bridge leaves from the chain of the leg before it, in the user's name, for what was quoted. */
  lemma BridgesCarryTheQuote(job: Job, c: Compiled, i: nat)
    requires Done(job, c) && i < |job.plan.requests|
    ensures job.answers(i).build.Returned?
    ensures var b, q := c.plan.forward[2 * i + 1], c.quotes[i];
            && b.chain == c.plan.forward[2 * i].chain == job.plan.requests[i].src
            && b.interactions == job.answers(i).build.value.interactions && b.selector == b.params == ""
            && BridgeRecipient in b.metadata && b.metadata[BridgeRecipient] == Text(job.user)
            && BridgeEstimatedOutput in b.metadata && b.metadata[BridgeEstimatedOutput] == Num(q.estimatedOutput)
            && BridgeProtocol in b.metadata && b.metadata[BridgeProtocol] == Text(q.protocol)
            && BridgeTokenIn in b.metadata && b.metadata[BridgeTokenIn] == Text(q.tokenIn)
            && BridgeTokenOut in b.metadata && b.metadata[BridgeTokenOut] == Text(q.tokenOut)
            && BridgeAmount in b.metadata && b.metadata[BridgeAmount] == Num(q.amountIn)
            && BridgeFee in b.metadata && b.metadata[BridgeFee] == Num(q.fee)
            && PlatformCompiled in b.metadata && b.metadata[PlatformCompiled] == Flag(true)
            && (Says(b.metadata, BridgeProtocol) <==> q.protocol != "")
            && (job.plan.requests[i].minOutput != 0 ==> q.estimatedOutput >= job.plan.requests[i].minOutput)
  {
    assert Joins(job.plan, i);
    BridgeLegAt(job, c, i);
    SolverLegAt(job, c, i);
  }

  /** The chain a request really starts from: its token may name one. */
  function SourceOf(job: Job, i: nat): int
    requires i < |job.plan.requests|
  {
    if job.answers(i).named.Some? then job.answers(i).named.value else job.plan.requests[i].src
  }

  /** Each bridge is quoted by the first best of the adapters that serve its own route and answered. */
  lemma QuotesAreBest(job: Job, c: Compiled, i: nat)
    requires Done(job, c) && i < |job.plan.requests|
    ensures exists k :: FirstBest(job.adapters, job.answers(i).quotes, SourceOf(job, i), job.plan.requests[i].dst, c.quotes[i], k)
  {
    BestOfServing(job.adapters, job.answers(i).quotes, SourceOf(job, i), job.plan.requests[i].dst);
    BridgeLegAt(job, c, i);
  }

  /** The least output a request accepts of a quote: its own, or 99 percent of the estimate, cut off. */
  lemma LeastOutput(br: BridgeRequest, q: Quote)
    ensures br.minOutput != 0 ==> MinOutput(br, q) == br.minOutput
    ensures br.minOutput == 0 && q.estimatedOutput >= 0 ==>
              100 * MinOutput(br, q) <= 99 * q.estimatedOutput < 100 * (MinOutput(br, q) + 1)
    ensures br.minOutput == 0 && q.estimatedOutput < 0 ==>
              100 * (MinOutput(br, q) - 1) < 99 * q.estimatedOutput <= 100 * MinOutput(br, q)
  {
  }

  /**
    Exactly why a request cannot be bridged: no adapter for its route answers; or the best answer
    is below the least output; or is that of a protocol nobody registered; or the calls cannot be
    built. The first that applies, in this order.
   */
  lemma RefusedExactlyIf(job: Job, i: nat)
    requires i < |job.plan.requests|
    ensures var a, br := job.answers(i), job.plan.requests[i];
            var best := QuoteAt(job, i);
            && IsBestFor(job.adapters, a.quotes, SourceOf(job, i), br.dst, best)
            && (Refusal(job, i) == Some(NoRoute(i)) <==> best.None?)
            && (Refusal(job, i) == Some(OutputTooLow(i)) <==>
                 best.Some? && best.value.estimatedOutput < if br.minOutput != 0 then br.minOutput else 0)
            && (Refusal(job, i).Some? && Refusal(job, i).value.AdapterMissing? <==>
                 && best.Some? && best.value.estimatedOutput >= (if br.minOutput != 0 then br.minOutput else 0)
                 && forall k :: 0 <= k < |job.adapters| ==> job.adapters[k].protocol != best.value.protocol)
            && (Refusal(job, i) == Some(BuildFailed(i)) <==>
                 && best.Some? && best.value.estimatedOutput >= (if br.minOutput != 0 then br.minOutput else 0)
                 && (exists k :: 0 <= k < |job.adapters| && job.adapters[k].protocol == best.value.protocol)
                 && a.build.Raised?)
            && (Refusal(job, i).None? <==>
                 && best.Some? && best.value.estimatedOutput >= (if br.minOutput != 0 then br.minOutput else 0)
                 && (exists k :: 0 <= k < |job.adapters| && job.adapters[k].protocol == best.value.protocol)
                 && a.build.Returned?)
  {
    BestOfServing(job.adapters, job.answers(i).quotes, SourceOf(job, i), job.plan.requests[i].dst);
    if QuoteAt(job, i).Some? { LeastOutput(job.plan.requests[i], QuoteAt(job, i).value); }
  }

  /** Request `i` can be bridged: its best quote is enough, from a registered adapter, and the calls can be built. */
  ghost predicate Bridgeable(job: Job, i: nat)
    requires i < |job.plan.requests|
  {
    var a, br := job.answers(i), job.plan.requests[i];
    && a.build.Returned?
    && exists k: nat, j: nat, q ::
         && FirstBest(job.adapters, a.quotes, SourceOf(job, i), br.dst, q, k)
         && q.estimatedOutput >= (if br.minOutput != 0 then br.minOutput else 0)
         && j < |job.adapters| && job.adapters[j].protocol == q.protocol
  }

  lemma FirstBestIsTheQuote(job: Job, i: nat, q: Quote, k: nat)
    requires i < |job.plan.requests|
    requires FirstBest(job.adapters, job.answers(i).quotes, SourceOf(job, i), job.plan.requests[i].dst, q, k)
    ensures QuoteAt(job, i) == Some(q)
  {
    var a, br := job.answers(i), job.plan.requests[i];
    BestOfServing(job.adapters, a.quotes, SourceOf(job, i), br.dst);
    assert job.adapters[k] in job.adapters;
    var k': nat :| FirstBest(job.adapters, a.quotes, SourceOf(job, i), br.dst, QuoteAt(job, i).value, k');
    OneFirstBest(job.adapters, a.quotes, SourceOf(job, i), br.dst, q, k, QuoteAt(job, i).value, k');
  }

  lemma BridgeableIsBridged(job: Job, i: nat)
    requires i < |job.plan.requests|
    ensures Bridged(job, i) <==> Bridgeable(job, i)
  {
    var a, br := job.answers(i), job.plan.requests[i];
    RefusedExactlyIf(job, i);
    if Bridged(job, i) {
      var k: nat :| FirstBest(job.adapters, a.quotes, SourceOf(job, i), br.dst, QuoteAt(job, i).value, k);
      var j :| 0 <= j < |job.adapters| && job.adapters[j].protocol == QuoteAt(job, i).value.protocol;
    }
    if Bridgeable(job, i) {
      var k: nat, j: nat, q :|
        && FirstBest(job.adapters, a.quotes, SourceOf(job, i), br.dst, q, k)
        && q.estimatedOutput >= (if br.minOutput != 0 then br.minOutput else 0)
        && j < |job.adapters| && job.adapters[j].protocol == q.protocol;
      FirstBestIsTheQuote(job, i, q, k);
    }
  }

  /** A plan compiles exactly if it is well-formed and each request can be bridged; otherwise the first that cannot is refused. */
  lemma CompiledExactlyIf(job: Job, e: CompileError)
    ensures Compilable(job) <==>
              WellFormed(job.plan) && forall i: nat :: i < |job.plan.requests| ==> Bridgeable(job, i)
    ensures FirstRefusal(job, e) <==>
              && !e.Invalid? && e.at < |job.plan.requests| && Refusal(job, e.at) == Some(e)
              && forall i: nat :: i < e.at ==> Bridgeable(job, i)
  {
    forall i: nat | i < |job.plan.requests| ensures Bridged(job, i) <==> Bridgeable(job, i) {
      BridgeableIsBridged(job, i);
    }
  }

  /** Exactly when there is a way back: some adapter for the reverse route answers, and the calls can be built. */
  lemma ReversibleExactlyIf(job: Job, i: nat)
    requires i < |job.plan.requests|
    ensures var a, br := job.answers(i), job.plan.requests[i];
            var from := if a.reverseNamed.Some? then a.reverseNamed.value else br.dst;
            Reversible(job, i) <==>
              && a.reverseBuild.Returned?
              && exists b :: b in job.adapters && (from, br.src) in b.routes && a.reverseQuotes(b.protocol).Returned?
  {
    var a, br := job.answers(i), job.plan.requests[i];
    BestOfServing(job.adapters, a.reverseQuotes, if a.reverseNamed.Some? then a.reverseNamed.value else br.dst, br.src);
  }

  /** Each escrow names the leg after its bridge, which exists, on the chain the bridge leads to. */
  lemma EscrowsWaitAtTheDestination(job: Job, c: Compiled, i: nat)
    requires Done(job, c) && i < |job.plan.requests|
    ensures |c.escrows| == |c.quotes| == |job.plan.requests|
    ensures var e := c.escrows[i];
            && 0 < e.leg < |c.plan.forward|
            && c.plan.forward[e.leg].chain == job.plan.requests[i].dst
            && IsSolverLeg(c.plan.forward[e.leg]) && IsBridgeLeg(c.plan.forward[e.leg - 1])
            && e.user == job.user && e.order == job.order
            && e.token == c.quotes[i].tokenOut && e.amount == c.quotes[i].estimatedOutput
            && e.deadline == if job.deadline > 0 then job.deadline else job.answers(i).now + 7200
  {
    BridgeLeadsOn(job, c, i);
  }

  // ---------------------------------------------------------------- rollbacks

  /** Rollback leg `t` of the first `m` requests undoes the bridge of some request. */
  ghost predicate Undoes(job: Job, m: nat, r: LegPlan, t: nat, i: nat) {
    && i < m <= |job.plan.requests|
    && Reversible(job, i)
    && r.index == 100 + t
    && r.rollbackFor == Some(2 * i + 1)
    && r.chain == job.plan.requests[i].dst
  }

  ghost predicate UndoesOne(job: Job, m: nat, r: LegPlan, t: nat) {
    exists i :: Undoes(job, m, r, t, i)
  }

  ghost predicate Ascending(rs: seq<LegPlan>) {
    forall s, t :: 0 <= s < t < |rs| ==>
      rs[s].rollbackFor.Some? && rs[t].rollbackFor.Some? && rs[s].rollbackFor.value < rs[t].rollbackFor.value
  }

  lemma {:induction false} RollbackShape(job: Job, m: nat)
    requires m <= |job.plan.requests| && forall i :: 0 <= i < m ==> Bridged(job, i)
    ensures forall t :: 0 <= t < |Rollbacks(job, m)| ==> UndoesOne(job, m, Rollbacks(job, m)[t], t)
    ensures Ascending(Rollbacks(job, m))
  {
    if m > 0 {
      RollbackShape(job, m - 1);
      var sofar, rs := Rollbacks(job, m - 1), Rollbacks(job, m);
      forall t | 0 <= t < |rs| ensures UndoesOne(job, m, rs[t], t) {
        if t < |sofar| {
          var i :| Undoes(job, m - 1, sofar[t], t, i);
          assert Undoes(job, m, rs[t], t, i);
        } else {
          assert rs[t] == RollbackLeg(job, m - 1, t);
          assert Undoes(job, m, rs[t], t, m - 1);
        }
      }
      forall s, t | 0 <= s < t < |rs|
        ensures rs[s].rollbackFor.Some? && rs[t].rollbackFor.Some? && rs[s].rollbackFor.value < rs[t].rollbackFor.value
      {
        assert UndoesOne(job, m - 1, sofar[s], s);
      }
    }
  }

  lemma {:induction false} ReversibleHasRollback(job: Job, m: nat, i: nat)
    requires i < m <= |job.plan.requests| && forall j :: 0 <= j < m ==> Bridged(job, j)
    requires Reversible(job, i)
    ensures exists r :: r in Rollbacks(job, m) && r.rollbackFor == Some(2 * i + 1)
    decreases m
  {
    var rs := Rollbacks(job, m);
    if i == m - 1 {
      assert rs[|rs| - 1] == RollbackLeg(job, i, |rs| - 1);
      assert rs[|rs| - 1] in rs;
    } else {
      ReversibleHasRollback(job, m - 1, i);
      var r :| r in Rollbacks(job, m - 1) && r.rollbackFor == Some(2 * i + 1);
      assert r in rs;
    }
  }

  /** `r` is for a bridge leg, and starts on the chain that leg leads to. */
  predicate UndoesABridge(c: Compiled, r: LegPlan) {
    && r.rollbackFor.Some? && 0 <= r.rollbackFor.value < |c.plan.forward| - 1
    && IsBridgeLeg(c.plan.forward[r.rollbackFor.value])
    && r.chain == c.plan.forward[r.rollbackFor.value + 1].chain
  }

  /**
    Rollback legs undo distinct bridge legs, each from the chain its bridge leads to, and
    every bridge with a way back has one.
   */
  lemma RollbacksUndoBridges(job: Job, c: Compiled)
    requires Done(job, c)
    ensures forall t :: 0 <= t < |c.plan.rollback| ==> UndoesABridge(c, c.plan.rollback[t])
    ensures forall s, t :: 0 <= s < t < |c.plan.rollback| ==>
              c.plan.rollback[s].rollbackFor != c.plan.rollback[t].rollbackFor
    ensures forall i :: 0 <= i < |job.plan.requests| ==>
              (Reversible(job, i) <==> exists r :: r in c.plan.rollback && r.rollbackFor == Some(2 * i + 1))
  {
    var m, rs := |job.plan.requests|, c.plan.rollback;
    RollbackShape(job, m);
    forall t | 0 <= t < |rs| ensures UndoesABridge(c, rs[t]) {
      var _ := RollbackLegAt(job, c, t);
    }
    forall i | 0 <= i < m
      ensures Reversible(job, i) <==> exists r :: r in rs && r.rollbackFor == Some(2 * i + 1)
    {
      if Reversible(job, i) {
        ReversibleHasRollback(job, m, i);
      } else if t :| 0 <= t < |rs| && rs[t].rollbackFor == Some(2 * i + 1) {
        var _ := RollbackLegAt(job, c, t);
        assert false;
      }
    }
  }

  lemma {:induction false} RollbackIs(job: Job, m: nat, t: nat) returns (i: nat)
    requires m <= |job.plan.requests| && (forall j :: 0 <= j < m ==> Bridged(job, j)) && t < |Rollbacks(job, m)|
    ensures i < m && Bridged(job, i) && Reversible(job, i) && Rollbacks(job, m)[t] == RollbackLeg(job, i, t)
  {
    if t < |Rollbacks(job, m - 1)| { i := RollbackIs(job, m - 1, t); } else { i := m - 1; }
  }

  /** A rollback leg makes the calls built for the way back, under the protocol of the bridge it undoes. */
  lemma RollbacksCarryTheWayBack(job: Job, c: Compiled, t: nat) returns (i: nat)
    requires Done(job, c) && t < |c.plan.rollback|
    ensures i < |c.quotes| && c.plan.rollback[t].rollbackFor == Some(2 * i + 1) && c.plan.rollback[t].dependsOn == []
    ensures c.plan.rollback[t].selector == c.plan.rollback[t].params == c.plan.rollbackHash == ""
    ensures job.answers(i).reverseBuild == Returned(c.plan.rollback[t].interactions)
    ensures c.plan.rollback[t].metadata ==
            map[Kind := Text("rollback_bridge"), BridgeProtocol := Text(c.quotes[i].protocol), PlatformCompiled := Flag(true)]
  {
    i := RollbackIs(job, |job.plan.requests|, t);
  }

  lemma RollbackLegAt(job: Job, c: Compiled, t: nat) returns (i: nat)
    requires Done(job, c) && t < |c.plan.rollback|
    ensures Undoes(job, |job.plan.requests|, c.plan.rollback[t], t, i)
    ensures UndoesABridge(c, c.plan.rollback[t])
  {
    var m := |job.plan.requests|;
    RollbackShape(job, m);
    assert UndoesOne(job, m, c.plan.rollback[t], t);
    i :| Undoes(job, m, c.plan.rollback[t], t, i);
    BridgeLeadsOn(job, c, i);
  }

  /** A bridge is followed by a leg on the chain it leads to. */
  lemma BridgeLeadsOn(job: Job, c: Compiled, i: nat)
    requires Done(job, c) && i < |job.plan.requests|
    ensures 2 * i + 2 < |c.plan.forward|
    ensures IsBridgeLeg(c.plan.forward[2 * i + 1])
    ensures IsSolverLeg(c.plan.forward[2 * i + 2])
    ensures c.plan.forward[2 * i + 2].chain == job.plan.requests[i].dst
  {
    LengthOf(job, c);
    LegsAlternate(job, c, 2 * i + 1);
    LegsAlternate(job, c, 2 * i + 2);
    assert Joins(job.plan, i);
    SolverLegAt(job, c, i + 1);
  }

  /** Rollback numbers start at 100: they collide with forward numbers beyond one hundred forward legs. */
  lemma NumbersStayApart(job: Job, c: Compiled)
    requires Done(job, c)
    ensures (forall r, f :: r in c.plan.rollback && f in c.plan.forward ==> r.index != f.index)
            <==> (c.plan.rollback == [] || |c.plan.forward| <= 100)
  {
    var rs, fs := c.plan.rollback, c.plan.forward;
    RollbackShape(job, |job.plan.requests|);
    LegsFormAChain(job, c);
    forall t | 0 <= t < |rs| ensures rs[t].index == 100 + t {
      assert UndoesOne(job, |job.plan.requests|, rs[t], t);
    }
    if rs != [] && |fs| > 100 {
      assert rs[0] in rs && fs[100] in fs;
      assert rs[0].index == fs[100].index;
    }
  }

  /**
    Without an explicit minimum, a quote is held against 99% of its own estimated output:
    only a negative estimate is refused.
   */
  lemma DefaultMinimumIsRelativeToTheQuote(br: BridgeRequest, q: Quote)
    requires br.minOutput == 0
    ensures q.estimatedOutput < MinOutput(br, q) <==> q.estimatedOutput < 0
  {
  }

  /** A job has one result. */
  lemma ResultIsDetermined(job: Job, c: Compiled, d: Compiled)
    requires Done(job, c) && Done(job, d)
    ensures c == d
  {
    forall k | 0 <= k < |c.plan.forward| ensures c.plan.forward[k] == d.plan.forward[k] {
      if k % 2 == 0 {
        SolverLegAt(job, c, k / 2);
        SolverLegAt(job, d, k / 2);
      } else {
        BridgeLegAt(job, c, k / 2);
        BridgeLegAt(job, d, k / 2);
      }
    }
    assert c.plan.forward == d.plan.forward;
    assert c.escrows == d.escrows && c.quotes == d.quotes;
    assert forall k :: k in c.mocks <==> k in d.mocks;
    assert forall k :: k in c.mocks ==> c.mocks[k] == d.mocks[k];
    assert c.mocks == d.mocks;
  }

  // ---------------------------------------------------------------- the validators' scan

  /** `verify_platform_compiled` on an execution plan's metadata and calls. */
  predicate Approved(metadata: Metadata, calls: seq<Interaction>) {
    if !Says(metadata, PlatformCompiled) then true   // not cross-chain, or a legacy plan
    else forall ix :: ix in calls ==> !CallsBridge(ix)
  }

  /** The metadata of the execution plan built for a leg. */
  function LegMetadataFor(l: LegPlan): Metadata {
    l.metadata[LegIndex := Num(l.index)][ChainId := Num(l.chain)]
  }

  /**
    The scan accepts every solver leg of a compiled plan. It accepts a bridge leg only if the
    adapter's own calls avoid the listed selectors.
   */
  lemma ScanOfCompiledLegs(job: Job, c: Compiled, k: nat)
    requires Done(job, c) && k < |c.plan.forward|
    ensures var l := c.plan.forward[k];
            Approved(LegMetadataFor(l), l.interactions) <==>
              (k % 2 == 1 ==> forall ix :: ix in job.answers(k / 2).build.value.interactions ==> !CallsBridge(ix))
  {
    LengthOf(job, c);
    if k % 2 == 1 {
      BridgeLegAt(job, c, k / 2);
    } else {
      SolverLegAt(job, c, k / 2);
      assert forall ix :: ix in job.plan.legs[k / 2].interactions ==> !CallsBridge(ix);
    }
  }
}
