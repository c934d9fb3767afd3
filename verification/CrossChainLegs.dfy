/**
  What a legacy cross-chain submission calls and how it ends, in terms of the legs it was given.
 */
module CrossChainLegs {
  import opened Wrappers
  import opened LegPlans
  import opened CrossChainSubmit
  import Pass = OrderPass

  // ---------------------------------------------------------------- what a job asks for, leg by leg

  /** The actions of the substrate legs, in order. */
  function Asked(legs: seq<Leg>): seq<Action> {
    if legs == [] then [] else (if legs[0].substrate then legs[0].actions else []) + Asked(legs[1..])
  }

  /** The indices of the source legs that are not on the substrate, in order. */
  function Named(legs: seq<Leg>): seq<int> {
    if legs == [] then [] else (if legs[0].source && !legs[0].substrate then legs[0].indices else []) + Named(legs[1..])
  }

  lemma {:induction false} ActionsAdd(a: seq<Leg>, b: seq<Leg>)
    ensures ActionsOf(a + b) == ActionsOf(a) + ActionsOf(b)
  {
    if b == [] {
      assert a + b == a;
    } else {
      var n := |b| - 1;
      assert (a + b)[..|a + b| - 1] == a + b[..n];
      ActionsAdd(a, b[..n]);
    }
  }

  lemma {:induction false} IndicesAdd(a: seq<Leg>, b: seq<Leg>)
    ensures SourceIndices(a + b) == SourceIndices(a) + SourceIndices(b)
  {
    if b == [] {
      assert a + b == a;
    } else {
      var n := |b| - 1;
      assert (a + b)[..|a + b| - 1] == a + b[..n];
      IndicesAdd(a, b[..n]);
    }
  }

  lemma {:induction false} ActionsAreAsked(legs: seq<Leg>)
    ensures ActionsOf(Substrate(legs)) == Asked(legs)
    ensures Substrate(legs) == [] <==> forall l :: l in legs ==> !l.substrate
  {
    if legs != [] {
      ActionsAreAsked(legs[1..]);
      ActionsAdd([legs[0]], Substrate(legs[1..]));
      assert ActionsOf([legs[0]]) == legs[0].actions by { assert [legs[0]][..0] == []; }
      assert forall l :: l in legs <==> l == legs[0] || l in legs[1..];
    }
  }

  lemma {:induction false} IndicesAreNamed(legs: seq<Leg>)
    ensures SourceIndices(legs) == Named(legs)
  {
    if legs != [] {
      IndicesAreNamed(legs[1..]);
      assert legs == [legs[0]] + legs[1..];
      IndicesAdd([legs[0]], legs[1..]);
      assert [legs[0]][..0] == [];
    }
  }

  /** The interactions with these indices, each once and in order, if none is out of range on the low side. */
  function SourcePlan(job: Job): Outcome<seq<Interaction>> {
    Picked(job.interactions, SortedSet(Named(job.legs)))
  }

  /** How many of the asked actions are called: all, or those up to the first that does not go through. */
  ghost predicate Reaches(w: World, asked: seq<Action>, n: nat) {
    && n <= |asked| && (forall k :: 0 <= k < n - 1 ==> Went(w, k))
    && (n == 0 <==> asked == []) && (n < |asked| ==> !Went(w, n - 1))
  }

  /**
    What a submission calls, in terms of its legs. It calls nothing if a substrate leg finds no
    relayer. Otherwise it calls for exactly the actions of the substrate legs, leg by leg, up to
    the first that does not go through; and if all did, the EVM relayer with the interactions
    that the other source legs name, if they name any that can be picked.
   */
  lemma CallsAsAsked(job: Job, before: Pass.Status)
    ensures var asked, calls := Asked(job.legs), ReportOf(job, before).calls;
            if !job.world.substrate && exists l :: l in job.legs && l.substrate then calls == []
            else if forall k :: 0 <= k < |asked| ==> Went(job.world, k) then
              calls == Acts(asked) + if Named(job.legs) == [] || SourcePlan(job).Raised? then []
                                     else [Evm(SourcePlan(job).value)]
            else exists n: nat :: Reaches(job.world, asked, n) && calls == Acts(asked[..n])
  {
    ActionsAreAsked(job.legs);
    IndicesAreNamed(job.legs);
    CallsInOrder(job, before);
    if !((job.world.substrate || Substrate(job.legs) == []) ==> AllWent(job)) {
      var k :| && 0 <= k < |Actions(job)| && ReportOf(job, before).calls == Acts(Actions(job)[..k + 1])
               && !Went(job.world, k) && forall j :: 0 <= j < k ==> Went(job.world, j);
      assert Reaches(job.world, Asked(job.legs), k + 1);
    }
  }

  /** Some action called so far unstakes. */
  predicate Unstakes(actions: seq<Action>) { exists a :: a in actions && a.kind.RemoveStake? }

  /** The substrate relayer is there, or no leg asks for it. */
  predicate Begins(job: Job) { job.world.substrate || forall l :: l in job.legs ==> !l.substrate }

  /** Without a relayer for its substrate legs a submission is rejected. */
  lemma NeedsARelayer(job: Job, before: Pass.Status)
    requires !Begins(job)
    ensures ReportOf(job, before) == Report(Pass.Rejected, Returned(false), [], [], 0)
  {
    ActionsAreAsked(job.legs);
  }

  /** An action that does not go through ends it: rejected if it was refused, as it was, or unstaking, if it raised. */
  lemma StopsAtAction(job: Job, before: Pass.Status, k: nat)
    requires Begins(job) && k < |Asked(job.legs)|
    requires !Went(job.world, k) && forall j :: 0 <= j < k ==> Went(job.world, j)
    ensures var r := ReportOf(job, before);
            && r.tracked == [] && r.recorded == 0
            && if job.world.act(k).Raised?
               then r.result == Raised && r.status == if Unstakes(Asked(job.legs)[..k + 1]) then Pass.Unstaking else before
               else r.result == Returned(false) && r.status == Pass.Rejected
  {
    ActionsAreAsked(job.legs);
    StopIsFirst(job.world, |Actions(job)|, 0);
  }

  /** All actions went through, but the source plan cannot be picked, or the EVM relayer raised or refused. */
  lemma StopsAtSource(job: Job, before: Pass.Status)
    requires Begins(job) && (forall k :: 0 <= k < |Asked(job.legs)| ==> Went(job.world, k)) && Named(job.legs) != []
    requires SourcePlan(job).Raised? || job.world.evm.Raised? || !job.world.evm.value.success
    ensures var r := ReportOf(job, before);
            && r.tracked == [] && r.recorded == 0
            && if SourcePlan(job).Raised? || job.world.evm.Raised?
               then r.result == Raised && r.status == if Unstakes(Asked(job.legs)) then Pass.Unstaking else before
               else r.result == Returned(false) && r.status == Pass.Rejected
  {
    ActionsAreAsked(job.legs);
    IndicesAreNamed(job.legs);
    StopIsFirst(job.world, |Actions(job)|, 0);
  }

  /** Exactly when a submission gets as far as its record. */
  lemma GoesThroughExactlyIf(job: Job)
    ensures GoesThrough(job) <==>
              && Begins(job) && (forall k :: 0 <= k < |Asked(job.legs)| ==> Went(job.world, k))
              && (Named(job.legs) != [] ==>
                   SourcePlan(job).Returned? && job.world.evm.Returned? && job.world.evm.value.success)
  {
    ActionsAreAsked(job.legs);
    IndicesAreNamed(job.legs);
  }

  lemma {:induction false} NoDepositNoHash(w: World, actions: seq<Action>)
    requires forall k: nat :: !LastDeposit(actions, k)
    ensures DepositHash(w, actions) == "" && forall a :: a in actions ==> !a.kind.BridgeDeposit?
  {
    if actions != [] {
      var n := |actions| - 1;
      assert !LastDeposit(actions, n);
      forall k: nat ensures !LastDeposit(actions[..n], k) {
        if LastDeposit(actions[..n], k) { assert LastDeposit(actions, k); }
      }
      NoDepositNoHash(w, actions[..n]);
    }
  }

  /** `tx` is what a tracker would be given: the source transaction, or that of the last bridge deposit, or nothing. */
  ghost predicate IsTransaction(job: Job, tx: string) {
    if Named(job.legs) != [] && job.world.evm.Returned? && job.world.evm.value.tx != "" then tx == job.world.evm.value.tx
    else if exists k: nat :: LastDeposit(Asked(job.legs), k) then
      exists k: nat :: LastDeposit(Asked(job.legs), k) && job.world.act(k) == Returned(Receipt(true, tx))
    else tx == ""
  }

  /**
    A submission that goes through is bridging exactly if there are a tracker and a transaction to
    track, and filled if not; the tracker is given that transaction.
   */
  lemma EndsWhenThrough(job: Job, before: Pass.Status) returns (tx: string)
    requires GoesThrough(job)
    ensures IsTransaction(job, tx)
    ensures var r, handed := ReportOf(job, before), job.world.tracker && tx != "";
            && r.status == (if handed then Pass.Bridging else Pass.Filled)
            && r.tracked == (if handed then [tx] else [])
  {
    ActionsAreAsked(job.legs);
    IndicesAreNamed(job.legs);
    StopIsFirst(job.world, |Actions(job)|, 0);
    var deposit := DepositHash(job.world, Actions(job));
    tx := if Named(job.legs) != [] && job.world.evm.value.tx != "" then job.world.evm.value.tx else deposit;
    if k: nat :| LastDeposit(Actions(job), k) {
      assert Went(job.world, k);
      DepositIsTheLast(job.world, Actions(job), k);
    } else {
      NoDepositNoHash(job.world, Actions(job));
    }
  }
}
