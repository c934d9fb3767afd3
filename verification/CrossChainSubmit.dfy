/**
  Submission of a legacy cross-chain order: substrate actions one after the other, the source
  interactions through the EVM relayer, and the hand-over to the bridge tracker.
 */
module CrossChainSubmit {
  import opened Wrappers
  import opened LegPlans
  import Pass = OrderPass

  datatype ActionKind = RemoveStake | BridgeDeposit | AnyAction

  datatype Action = Action(kind: ActionKind, amount: int)

  datatype Leg = Leg(
    substrate: bool,        // "runtime" is "substrate"
    source: bool,           // "type" is "source" or "bridge"
    actions: seq<Action>,
    indices: seq<int>)      // interactions of the plan, by index

  datatype World = World(
    act: nat -> Outcome<Receipt>,   // the substrate relayer, by the number of the action
    evm: Outcome<Receipt>,
    substrate: bool,                // a substrate relayer is configured
    tracker: bool,                  // a bridge tracker is configured
    recordRaises: bool)             // recording the execution raises

  datatype Call = Act(action: Action) | Evm(interactions: seq<Interaction>)

  datatype Job = Job(legs: seq<Leg>, interactions: seq<Interaction>, world: World)

  // ---------------------------------------------------------------- substrate actions

  function Substrate(legs: seq<Leg>): seq<Leg> {
    if legs == [] then []
    else if legs[0].substrate then [legs[0]] + Substrate(legs[1..])
    else Substrate(legs[1..])
  }

  function ActionsOf(legs: seq<Leg>): seq<Action> {
    if legs == [] then [] else ActionsOf(legs[..|legs| - 1]) + legs[|legs| - 1].actions
  }

  function Actions(job: Job): seq<Action> {
    ActionsOf(Substrate(job.legs))
  }

  predicate Went(w: World, k: nat) {
    w.act(k).Returned? && w.act(k).value.success
  }

  /** The first action, from `k` on, that does not succeed. */
  function StopFrom(w: World, n: nat, k: nat): (stop: nat)
    requires k <= n
    ensures k <= stop <= n
    decreases n - k
  {
    if k < n && Went(w, k) then StopFrom(w, n, k + 1) else k
  }

  function Acts(actions: seq<Action>): (calls: seq<Call>)
    ensures |calls| == |actions| && forall k :: 0 <= k < |actions| ==> calls[k] == Act(actions[k])
  {
    if actions == [] then [] else Acts(actions[..|actions| - 1]) + [Act(actions[|actions| - 1])]
  }

  /** The extrinsic of the last bridge deposit. */
  function DepositHash(w: World, actions: seq<Action>): string {
    if actions == [] then ""
    else
      var n := |actions| - 1;
      if actions[n].kind.BridgeDeposit? then
        match w.act(n) case Returned(receipt) => receipt.tx case Raised => ""
      else DepositHash(w, actions[..n])
  }

  /** The status while actions are under way: unstaking once one of them unstakes. */
  function StatusAfter(before: Pass.Status, actions: seq<Action>): Pass.Status {
    if exists a :: a in actions && a.kind.RemoveStake? then Pass.Unstaking else before
  }

  // ---------------------------------------------------------------- source interactions

  function SourceIndices(legs: seq<Leg>): seq<int> {
    if legs == [] then []
    else
      var l := legs[|legs| - 1];
      SourceIndices(legs[..|legs| - 1]) + if !l.substrate && l.source then l.indices else []
  }

  predicate Ascending(s: seq<int>) {
    forall i, j :: 0 <= i < j < |s| ==> s[i] < s[j]
  }

  function Insert(s: seq<int>, x: int): (r: seq<int>)
    requires Ascending(s)
    ensures Ascending(r) && forall y :: y in r <==> y == x || y in s
  {
    if s == [] then [x]
    else if x < s[0] then
      assert forall y :: y in s ==> exists j :: 0 <= j < |s| && s[j] == y;
      [x] + s
    else if x == s[0] then s
    else
      var rest := Insert(s[1..], x);
      assert forall j :: 0 <= j < |rest| ==> rest[j] in rest;
      [s[0]] + rest
  }

  /** `sorted(set(s))`. */
  function SortedSet(s: seq<int>): (r: seq<int>)
    ensures Ascending(r) && forall y :: y in r <==> y in s
  {
    if s == [] then []
    else
      assert s == s[..|s| - 1] + [s[|s| - 1]];
      Insert(SortedSet(s[..|s| - 1]), s[|s| - 1])
  }

  /** `interactions[i]` for each index in range; a negative index counts from the end. */
  function Picked(interactions: seq<Interaction>, indices: seq<int>): Outcome<seq<Interaction>> {
    if indices == [] then Returned([])
    else
      var n, i := |interactions|, indices[|indices| - 1];
      var rest := Picked(interactions, indices[..|indices| - 1]);
      if rest.Raised? || i < -n then Raised
      else if i >= n then rest
      else Returned(rest.value + [interactions[if i < 0 then n + i else i]])
  }

  // ---------------------------------------------------------------- a whole submission

  datatype Report = Report(
    status: Pass.Status,
    result: Outcome<bool>,
    calls: seq<Call>,
    tracked: seq<string>,     // transactions handed to the bridge tracker
    recorded: nat)            // successes recorded for the app

  function ReportOf(job: Job, before: Pass.Status): Report {
    var w, actions := job.world, Actions(job);
    var n := |actions|;
    var stop := StopFrom(w, n, 0);
    if Substrate(job.legs) != [] && !w.substrate then Report(Pass.Rejected, Returned(false), [], [], 0)
    else if stop < n then
      var calls := Acts(actions[..stop + 1]);
      if w.act(stop).Raised? then Report(StatusAfter(before, actions[..stop + 1]), Raised, calls, [], 0)
      else Report(Pass.Rejected, Returned(false), calls, [], 0)
    else SourceReport(job, StatusAfter(before, actions))
  }

  /** What follows once every substrate action went through. */
  function SourceReport(job: Job, before: Pass.Status): Report {
    var acts, indices := Acts(Actions(job)), SourceIndices(job.legs);
    var deposit := DepositHash(job.world, Actions(job));
    if indices == [] then Ending(job.world, deposit, acts)
    else
      match Picked(job.interactions, SortedSet(indices))
      case Raised => Report(before, Raised, acts, [], 0)
      case Returned(ixs) =>
        (match job.world.evm
         case Raised => Report(before, Raised, acts + [Evm(ixs)], [], 0)
         case Returned(receipt) =>
           if !receipt.success then Report(Pass.Rejected, Returned(false), acts + [Evm(ixs)], [], 0)
           else Ending(job.world, if receipt.tx != "" then receipt.tx else deposit, acts + [Evm(ixs)]))
  }

  function Ending(w: World, tx: string, calls: seq<Call>): Report {
    var handed := w.tracker && tx != "";
    Report(if handed then Pass.Bridging else Pass.Filled, if w.recordRaises then Raised else Returned(true), calls,
           if handed then [tx] else [], if w.recordRaises then 0 else 1)
  }

  class CrossChainOrchestrator {
    var status: Pass.Status
    var calls: seq<Call>
    var tracked: seq<string>
    var recorded: nat

    constructor (s: Pass.Status)
      ensures status == s && calls == [] && tracked == [] && recorded == 0
    {
      status, calls, tracked, recorded := s, [], [], 0;
    }

    /** The first `k` actions went through. */
    ghost predicate Acted(w: World, all: seq<Action>, k: nat, deposit: string, calls0: seq<Call>, status0: Pass.Status)
      reads this
    {
      && k <= |all|
      && StopFrom(w, |all|, 0) == StopFrom(w, |all|, k)
      && deposit == DepositHash(w, all[..k])
      && calls == calls0 + Acts(all[..k])
      && status == StatusAfter(status0, all[..k])
    }

    /** The action at position `stop` did not go through. */
    ghost predicate Halted(w: World, all: seq<Action>, stop: nat, calls0: seq<Call>, status0: Pass.Status)
      reads this
    {
      && stop < |all| && !Went(w, stop)
      && StopFrom(w, |all|, 0) == stop
      && calls == calls0 + Acts(all[..stop + 1])
      && status == if w.act(stop).Raised? then StatusAfter(status0, all[..stop + 1]) else Pass.Rejected
    }

    method RunAction(ghost all: seq<Action>, action: Action, k: nat, w: World, hash: string,
                     ghost calls0: seq<Call>, ghost status0: Pass.Status) returns (done: bool, deposit: string)
      requires k < |all| && all[k] == action && Acted(w, all, k, hash, calls0, status0)
      modifies `status, `calls
      ensures done == Went(w, k)
      ensures done ==> Acted(w, all, k + 1, deposit, calls0, status0)
      ensures !done ==> Halted(w, all, k, calls0, status0)
    {
      deposit := hash;
      OneMore(w, all, k, calls0, status0);
      if action.kind.RemoveStake? {
        status := Pass.Unstaking;
      }
      calls := calls + [Act(action)];
      var outcome := w.act(k);
      if outcome.Raised? {
        return false, deposit;
      }
      if !outcome.value.success {
        status := Pass.Rejected;
        return false, deposit;
      }
      if action.kind.BridgeDeposit? {
        deposit := outcome.value.tx;
      }
      done := true;
    }

    /** Runs the actions of one leg, which are the next of all actions. */
    method RunLeg(ghost all: seq<Action>, actions: seq<Action>, from: nat, w: World, hash: string,
                  ghost calls0: seq<Call>, ghost status0: Pass.Status) returns (done: bool, k: nat, deposit: string)
      requires from + |actions| <= |all| && all[from..from + |actions|] == actions
      requires Acted(w, all, from, hash, calls0, status0)
      modifies `status, `calls
      ensures done ==> k == from + |actions| && Acted(w, all, k, deposit, calls0, status0)
      ensures !done ==> Halted(w, all, k, calls0, status0)
    {
      k, deposit := from, hash;
      for j := 0 to |actions|
        invariant k == from + j && Acted(w, all, k, deposit, calls0, status0)
      {
        assert all[from + j] == actions[j];
        done, deposit := RunAction(all, actions[j], k, w, deposit, calls0, status0);
        if !done {
          return;
        }
        k := k + 1;
      }
      done := true;
    }

    /** Runs the substrate legs in order; stops at the first action that does not succeed. */
    method RunSubstrate(legs: seq<Leg>, w: World) returns (done: bool, k: nat, deposit: string)
      modifies `status, `calls
      ensures done ==> k == |ActionsOf(legs)| && Acted(w, ActionsOf(legs), k, deposit, old(calls), old(status))
      ensures !done ==> Halted(w, ActionsOf(legs), k, old(calls), old(status))
    {
      deposit := "";
      ghost var all := ActionsOf(legs);
      k := 0;
      Nothing(calls);
      for i := 0 to |legs|
        invariant k == |ActionsOf(legs[..i])|
        invariant Acted(w, all, k, deposit, old(calls), old(status))
      {
        ActionsUpTo(legs, i);
        done, k, deposit := RunLeg(all, legs[i].actions, k, w, deposit, old(calls), old(status));
        if !done {
          return;
        }
      }
      assert legs[..|legs|] == legs;
      done := true;
    }

    method Submit(job: Job) returns (r: Outcome<bool>)
      modifies this
      ensures var report := ReportOf(job, old(status));
              && r == report.result
              && status == report.status
              && calls == old(calls) + report.calls
              && tracked == old(tracked) + report.tracked
              && recorded == old(recorded) + report.recorded
    {
      var w, legs := job.world, Substrate(job.legs);
      Nothing(old(calls));
      Nothing(old(tracked));
      var deposit := "";
      if legs != [] {
        if !w.substrate {
          status := Pass.Rejected;
          return Returned(false);
        }
        var done, k;
        done, k, deposit := RunSubstrate(legs, w);
        if !done {
          return if w.act(k).Raised? then Raised else Returned(false);
        }
        assert Actions(job)[..|Actions(job)|] == Actions(job);
      }
      r := SubmitSource(job, deposit, old(calls));
    }

    /** The source interactions through the EVM relayer, once all substrate actions went through. */
    method SubmitSource(job: Job, deposit: string, ghost calls0: seq<Call>) returns (r: Outcome<bool>)
      requires deposit == DepositHash(job.world, Actions(job)) && calls == calls0 + Acts(Actions(job))
      modifies this
      ensures var report := SourceReport(job, old(status));
              && r == report.result
              && status == report.status
              && calls == calls0 + report.calls
              && tracked == old(tracked) + report.tracked
              && recorded == old(recorded) + report.recorded
    {
      Nothing(calls);
      Nothing(tracked);
      var w, tx := job.world, deposit;
      var indices := SourceIndices(job.legs);
      if indices != [] {
        var picked := Picked(job.interactions, SortedSet(indices));
        if picked.Raised? {
          return Raised;
        }
        calls := calls + [Evm(picked.value)];
        Regroup(calls0, Acts(Actions(job)), [Evm(picked.value)]);
        if w.evm.Raised? {
          return Raised;
        }
        if !w.evm.value.success {
          status := Pass.Rejected;
          return Returned(false);
        }
        tx := if w.evm.value.tx != "" then w.evm.value.tx else deposit;
      }
      r := Conclude(w, tx);
    }

    /** Hands the transaction to the bridge tracker, if there are both, and records the execution. */
    method Conclude(w: World, tx: string) returns (r: Outcome<bool>)
      modifies `status, `tracked, `recorded
      ensures var ending := Ending(w, tx, []);
              && r == ending.result
              && status == ending.status
              && tracked == old(tracked) + ending.tracked
              && recorded == old(recorded) + ending.recorded
    {
      if tx != "" {
        status := Pass.Submitted;
      }
      if w.tracker && tx != "" {
        tracked := tracked + [tx];
        status := Pass.Bridging;
      } else {
        status := Pass.Filled;
      }
      if w.recordRaises {
        return Raised;
      }
      recorded := recorded + 1;
      r := Returned(true);
    }
  }

  lemma {:induction false} ActionsUpTo(legs: seq<Leg>, i: nat)
    requires i < |legs|
    ensures ActionsOf(legs[..i + 1]) == ActionsOf(legs[..i]) + legs[i].actions
    ensures ActionsOf(legs[..i + 1]) <= ActionsOf(legs)
    decreases |legs|
  {
    assert legs[..i + 1][..i] == legs[..i];
    if i + 1 < |legs| {
      var init := legs[..|legs| - 1];
      ActionsUpTo(init, i);
      assert init[..i + 1] == legs[..i + 1] && init[..i] == legs[..i];
    } else {
      assert legs[..i + 1] == legs;
    }
  }

  lemma OneMore(w: World, all: seq<Action>, k: nat, calls: seq<Call>, before: Pass.Status)
    requires k < |all|
    ensures calls + Acts(all[..k + 1]) == calls + Acts(all[..k]) + [Act(all[k])]
    ensures StatusAfter(before, all[..k + 1]) ==
            if all[k].kind.RemoveStake? then Pass.Unstaking else StatusAfter(before, all[..k])
    ensures DepositHash(w, all[..k + 1]) ==
            if !all[k].kind.BridgeDeposit? then DepositHash(w, all[..k])
            else match w.act(k) case Returned(receipt) => receipt.tx case Raised => ""
  {
    assert all[..k + 1][..k] == all[..k];
    assert all[..k + 1] == all[..k] + [all[k]];
    Regroup(calls, Acts(all[..k]), [Act(all[k])]);
  }

  // ---------------------------------------------------------------- what every submission keeps

  lemma {:induction false} StopIsFirst(w: World, n: nat, k: nat)
    requires k <= n
    ensures var stop := StopFrom(w, n, k);
            && (forall j :: k <= j < stop ==> Went(w, j))
            && (stop < n ==> !Went(w, stop))
    decreases n - k
  {
    if k < n && Went(w, k) {
      StopIsFirst(w, n, k + 1);
    }
  }

  predicate AllWent(job: Job) {
    forall k :: 0 <= k < |Actions(job)| ==> Went(job.world, k)
  }

  /**
    The calls are the substrate actions in order, up to and including the first that fails. After
    all of them went through comes one call to the EVM relayer, with the picked interactions,
    exactly if source legs name any indices and none of them is out of range on the low side.
   */
  lemma CallsInOrder(job: Job, before: Pass.Status)
    ensures var actions, r := Actions(job), ReportOf(job, before);
            if Substrate(job.legs) != [] && !job.world.substrate then r.calls == []
            else if AllWent(job) then
              var indices := SourceIndices(job.legs);
              r.calls == Acts(actions) +
                if indices == [] || Picked(job.interactions, SortedSet(indices)).Raised? then []
                else [Evm(Picked(job.interactions, SortedSet(indices)).value)]
            else
              exists k :: && 0 <= k < |actions| && r.calls == Acts(actions[..k + 1])
                          && !Went(job.world, k) && forall j :: 0 <= j < k ==> Went(job.world, j)
  {
    var actions := Actions(job);
    StopIsFirst(job.world, |actions|, 0);
    var stop := StopFrom(job.world, |actions|, 0);
    if AllWent(job) {
      assert stop == |actions|;
      assert Acts(actions) + [] == Acts(actions);
    } else {
      assert stop < |actions|;
    }
  }

  /** The EVM relayer is called only after every substrate action went through. */
  lemma RelayerComesLast(job: Job, before: Pass.Status, k: nat)
    requires k < |ReportOf(job, before).calls| && ReportOf(job, before).calls[k].Evm?
    ensures AllWent(job) && k == |Actions(job)| == |ReportOf(job, before).calls| - 1
  {
    CallsInOrder(job, before);
  }

  /** Every action went through, and the relayer, if it is called, succeeded: only the record is left. */
  predicate GoesThrough(job: Job) {
    && (Substrate(job.legs) == [] || job.world.substrate) && AllWent(job) && SourceGoes(job)
  }

  predicate SourceGoes(job: Job) {
    SourceIndices(job.legs) != [] ==>
      && Picked(job.interactions, SortedSet(SourceIndices(job.legs))).Returned?
      && job.world.evm.Returned? && job.world.evm.value.success
  }

  /** How a submission may end, if `through` says whether it gets as far as its record. */
  predicate Consistent(w: World, r: Report, through: bool) {
    && r.recorded == (if r.result == Returned(true) then 1 else 0)
    && (r.result == Returned(true) <==> through && !w.recordRaises)
    && (through ==> r.status in {Pass.Bridging, Pass.Filled} && (w.recordRaises ==> r.result == Raised))
    && (r.status == Pass.Bridging <==> r.tracked != [])
    && (r.tracked != [] ==> through && w.tracker && |r.tracked| == 1 && r.tracked[0] != "")
    && (r.result == Returned(false) ==> r.status == Pass.Rejected)
  }

  lemma SourceIsConsistent(job: Job, before: Pass.Status)
    requires before != Pass.Bridging
    ensures Consistent(job.world, SourceReport(job, before), SourceGoes(job))
  {
    EndingIsConsistent(job.world, DepositHash(job.world, Actions(job)), Acts(Actions(job)));
    if SourceIndices(job.legs) != [] {
      var picked := Picked(job.interactions, SortedSet(SourceIndices(job.legs)));
      if picked.Returned? && job.world.evm.Returned? {
        var tx := if job.world.evm.value.tx != "" then job.world.evm.value.tx else DepositHash(job.world, Actions(job));
        EndingIsConsistent(job.world, tx, Acts(Actions(job)) + [Evm(picked.value)]);
      }
    }
  }

  lemma EndingIsConsistent(w: World, tx: string, calls: seq<Call>)
    ensures Consistent(w, Ending(w, tx, calls), true)
  {
  }

  /**
    Success is recorded once exactly when the submission reports it, which is exactly when the
    order goes through and its record does not raise; if the record raises, the order is left
    bridging or filled, and an exception comes out. It is bridging exactly when the tracker was
    given its transaction.
   */
  lemma SuccessIsRecordedOnce(job: Job, before: Pass.Status)
    requires before != Pass.Bridging
    ensures Consistent(job.world, ReportOf(job, before), GoesThrough(job))
  {
    StopIsFirst(job.world, |Actions(job)|, 0);
    SourceIsConsistent(job, StatusAfter(before, Actions(job)));
  }

  lemma {:induction false} DepositIsTheLast(w: World, actions: seq<Action>, k: nat)
    requires LastDeposit(actions, k) && w.act(k).Returned?
    ensures DepositHash(w, actions) == w.act(k).value.tx
  {
    if k < |actions| - 1 {
      DepositIsTheLast(w, actions[..|actions| - 1], k);
    }
  }

  predicate LastDeposit(actions: seq<Action>, k: nat) {
    && k < |actions| && actions[k].kind.BridgeDeposit?
    && forall j :: k < j < |actions| ==> !actions[j].kind.BridgeDeposit?
  }

  /** The relayer was called and reported a transaction. */
  predicate HasSource(job: Job) {
    SourceIndices(job.legs) != [] && job.world.evm.Returned? && job.world.evm.value.tx != ""
  }

  /**
    The tracker is given the source transaction if the relayer was called and reported one, and
    the extrinsic of the last bridge deposit otherwise.
   */
  lemma TrackedTransaction(job: Job, before: Pass.Status, k: nat)
    requires ReportOf(job, before).tracked != []
    ensures HasSource(job) ==> ReportOf(job, before).tracked == [job.world.evm.value.tx]
    ensures !HasSource(job) && LastDeposit(Actions(job), k) ==>
              && job.world.act(k).Returned?
              && ReportOf(job, before).tracked == [job.world.act(k).value.tx]
  {
    StopIsFirst(job.world, |Actions(job)|, 0);
    if LastDeposit(Actions(job), k) {
      assert Went(job.world, k);
      DepositIsTheLast(job.world, Actions(job), k);
    }
  }

  /** There is nothing to call for. */
  predicate AsksForNothing(job: Job) {
    Actions(job) == [] && SourceIndices(job.legs) == [] && (Substrate(job.legs) == [] || job.world.substrate)
  }

  /** An order without actions and source interactions is filled, and counted, without any call. */
  lemma FilledWithoutACall(job: Job, before: Pass.Status)
    ensures var r := ReportOf(job, before);
            && (r.calls == [] && r.result == Returned(true) <==> AsksForNothing(job) && !job.world.recordRaises)
            && (AsksForNothing(job) ==> r.calls == [] && r.status == Pass.Filled)
  {
    CallsInOrder(job, before);
  }

  function InRange(indices: seq<int>, n: nat): (r: seq<int>)
    ensures forall y :: y in r <==> y in indices && y < n
  {
    if indices == [] then []
    else
      assert indices == indices[..|indices| - 1] + [indices[|indices| - 1]];
      var rest := InRange(indices[..|indices| - 1], n);
      if indices[|indices| - 1] < n then rest + [indices[|indices| - 1]] else rest
  }

  lemma {:induction false} InRangeAscends(indices: seq<int>, n: nat)
    requires Ascending(indices)
    ensures Ascending(InRange(indices, n))
  {
    if indices != [] {
      var init, last := indices[..|indices| - 1], indices[|indices| - 1];
      InRangeAscends(init, n);
      var rest := InRange(init, n);
      forall j | 0 <= j < |rest| ensures rest[j] < last {
        assert rest[j] in rest;
        var i :| 0 <= i < |init| && init[i] == rest[j];
      }
    }
  }

  /** The interaction at a known position. */
  predicate IsAt(interactions: seq<Interaction>, at: int, ix: Interaction) {
    0 <= at < |interactions| && interactions[at] == ix
  }

  lemma {:induction false} PicksInRange(interactions: seq<Interaction>, indices: seq<int>)
    requires forall i :: 0 <= i < |indices| ==> indices[i] >= 0
    ensures var at := InRange(indices, |interactions|);
            && Picked(interactions, indices).Returned?
            && |Picked(interactions, indices).value| == |at|
            && forall k :: 0 <= k < |at| ==> IsAt(interactions, at[k], Picked(interactions, indices).value[k])
  {
    if indices != [] {
      PicksInRange(interactions, indices[..|indices| - 1]);
    }
  }

  /**
    With non-negative indices the source plan picks the plan's interactions in order and without
    repetition: exactly those a source leg names.
   */
  lemma SourcePlanIsASubsequence(job: Job)
    requires forall i :: i in SourceIndices(job.legs) ==> i >= 0
    ensures var at := InRange(SortedSet(SourceIndices(job.legs)), |job.interactions|);
            && Ascending(at)
            && (forall y :: y in at <==> y in SourceIndices(job.legs) && y < |job.interactions|)
            && var picked := Picked(job.interactions, SortedSet(SourceIndices(job.legs)));
               && picked.Returned? && |picked.value| == |at|
               && forall k :: 0 <= k < |at| ==> IsAt(job.interactions, at[k], picked.value[k])
  {
    var indices := SortedSet(SourceIndices(job.legs));
    assert forall i :: 0 <= i < |indices| ==> indices[i] in indices;
    InRangeAscends(indices, |job.interactions|);
    PicksInRange(job.interactions, indices);
  }
}
