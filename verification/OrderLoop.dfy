/**
  The block loop: the in-memory order book, the durable store, and what happens to both over
  ticks, power losses, restarts and leader changes.

  Each method works on the fields step by step, as the source does, and is proved to leave
  exactly the effects that `OrderPass` predicts. `Run` drives any sequence of events.
 */
module OrderLoop {
  import opened Wrappers
  import opened OrderPass
  import opened OrderSafety
  import opened OrderRuns
  import Retry = ConsensusRetry

  /** An exception leaves the pass where it was. */
  lemma EscapeLeaves(cfg: Config, v: Verdict, o: Order, env: Env, k: nat, book: map<OrderId, Order>, table: Retry.Table)
    requires (v == Escaped(AtScoring) && k == 2) || (v == Escaped(AtConsensus) && k == 3)
    requires o.id in book && book[o.id] == o.(status := if k == 2 then Solved else Scored)
    ensures Made(cfg, v, o, env.now) == Staged(cfg, k, o)
    ensures book[o.id := Left(v, o, env.now)] == book
    ensures TableAfterPass(cfg, v, env, o, table) == table
  {
    MadeFrom(cfg, v, o, env.now, k);
  }

  lemma RefusalMade(cfg: Config, v: Verdict, o: Order, now: real)
    requires PlainRefusal(v)
    ensures Made(cfg, v, o, now) == Staged(cfg, Stage(v), o) +
            ([Save(o.(status := Rejected))] + if Debits(v) then [Record(false)] else [])
    ensures Left(v, o, now) == o.(status := Rejected)
  {
    assert Closing(v, o, now) == [Save(o.(status := Rejected))] + if Debits(v) then [Record(false)] else [];
  }

  /** The last effect is a record. */
  predicate EndsInRecord(fx: seq<Effect>) { fx != [] && fx[|fx| - 1].Record? }

  lemma RecordIsLast(cfg: Config, v: Verdict, o: Order, now: real)
    requires !v.Escaped?
    ensures EndsInRecord(Made(cfg, v, o, now)) <==> Records(v)
  {
    if Records(v) {
      assert Closing(v, o, now)[|Closing(v, o, now)| - 1].Record?;
    } else if v.AwaitsUser? {
      assert Made(cfg, v, o, now) == Staged(cfg, 3, o) + [Save(o.(status := Approved))];
    } else {
      assert Closing(v, o, now)[|Closing(v, o, now)| - 1].Save?;
    }
  }

  /** The tick's handler sees an exception exactly if `process` raised. */
  lemma HandlerSees(cfg: Config, env: Env, v: Verdict, o: Order)
    ensures var fx := Made(cfg, v, o, env.now);
            v.Escaped? || (EndsInRecord(fx) && |fx| - 1 in env.lost) <==> ProcessRaises(cfg, env, v, o)
  {
    if !v.Escaped? { RecordIsLast(cfg, v, o, env.now); }
  }

  /** What `process` left, with the handler's rejection if it raised. */
  lemma HandlerLeaves(cfg: Config, env: Env, v: Verdict, o: Order, fx: seq<Effect>, left: Order, raised: bool)
    requires fx == Made(cfg, v, o, env.now) && left == Left(v, o, env.now)
    requires raised == (v.Escaped? || (EndsInRecord(fx) && |fx| - 1 in env.lost))
    ensures Effects(cfg, env, v, o) == if raised then fx + [Save(left.(status := Rejected))] else fx
    ensures Ended(cfg, env, v, o) == if raised then left.(status := Rejected) else left
    ensures left.id == o.id
  {
    HandlerSees(cfg, env, v, o);
    HandlerCompletes(cfg, env, v, o);
    assert fx + [] == fx;
  }

  lemma Overwritten(book: map<OrderId, Order>, id: OrderId, a: Order, b: Order)
    ensures book[id := a][id := b] == book[id := b]
  {
  }

  /** The order of the next turn is in the book. */
  lemma NextIsKnown(cfg: Config, p: Powered, ids: seq<OrderId>, e: Event, i: nat, known: set<OrderId>)
    requires e.Tick? && i < |ids| && Known(p.s, known) && forall id :: id in ids ==> id in p.s.book
    ensures var q := AfterTurns(cfg, p, ids, e.envs, e.cancels, i);
            ids[i] in q.s.book && q.s.book[ids[i]].id == ids[i]
  {
    TurnsAreKnown(cfg, p, ids, e, i, known);
    assert ids[i] in ids;
  }

  lemma ClaimStep(cfg: Config, arrival: seq<OrderId>, i: nat, book: map<OrderId, Order>, ids: seq<OrderId>, now: real)
    requires i < |arrival| && |ids| < MAX_SNAPSHOT && Distinct(arrival)
    ensures arrival[i] !in arrival[..i] && arrival[..i + 1] == arrival[..i] + [arrival[i]]
    ensures ids + Claimed(cfg, arrival[i..], book, now, MAX_SNAPSHOT - |ids|) ==
            if arrival[i] in book && Eligible(cfg, book[arrival[i]], now)
            then (ids + [arrival[i]]) + Claimed(cfg, arrival[i + 1..], book, now, MAX_SNAPSHOT - |ids| - 1)
            else ids + Claimed(cfg, arrival[i + 1..], book, now, MAX_SNAPSHOT - |ids|)
  {
    assert arrival[i..][1..] == arrival[i + 1..];
  }

  lemma MarksOne(book: map<OrderId, Order>, ids: seq<OrderId>, id: OrderId)
    requires id in book && id !in ids
    ensures MarkedBook(book, ids + [id]) == MarkedBook(book, ids)[id := book[id].(status := Assigned)]
  {
  }

  /** A snapshot after the first `i` arrivals. */
  ghost predicate Claiming(cfg: Config, arrival: seq<OrderId>, book0: map<OrderId, Order>, now: real,
                           i: nat, ids: seq<OrderId>, book: map<OrderId, Order>)
  {
    && i <= |arrival| && |ids| <= MAX_SNAPSHOT && book == MarkedBook(book0, ids)
    && (forall id :: id in ids ==> id in arrival[..i])
    && Claimed(cfg, arrival, book0, now, MAX_SNAPSHOT) ==
       ids + Claimed(cfg, arrival[i..], book0, now, MAX_SNAPSHOT - |ids|)
  }

  lemma ClaimingStep(cfg: Config, arrival: seq<OrderId>, book0: map<OrderId, Order>, now: real,
                     i: nat, ids: seq<OrderId>, book: map<OrderId, Order>)
    requires Claiming(cfg, arrival, book0, now, i, ids, book)
    requires i < |arrival| && |ids| < MAX_SNAPSHOT && Distinct(arrival)
    ensures var id := arrival[i];
            if id in book && Eligible(cfg, book[id], now)
            then Claiming(cfg, arrival, book0, now, i + 1, ids + [id], book[id := book[id].(status := Assigned)])
            else Claiming(cfg, arrival, book0, now, i + 1, ids, book)
  {
    ClaimStep(cfg, arrival, i, book0, ids, now);
    if arrival[i] in book && Eligible(cfg, book[arrival[i]], now) { MarksOne(book0, ids, arrival[i]); }
  }

  lemma CancelsOne(book: map<OrderId, Order>, id: OrderId)
    requires id in book && Cancellable(book[id])
    ensures CancelledBook(book, {id}) == book[id := book[id].(status := Cancelled)]
  {
  }

  class BlockLoop {
    const cfg: Config

    // Lost with the process.
    var book: map<OrderId, Order>
    var arrival: seq<OrderId>
    var retries: Retry.Table

    // Durable: the store, the recorded executions, and what the relayer was asked to do.
    var world: World

    // How many more durable effects happen before power is lost. Code that runs on without
    // power changes nothing durable, and its memory is wiped by the restart.
    var fuse: nat

    // The current pass: its effects so far, which of its store writes fail, and how it started.
    var trace: seq<Effect>
    var lost: set<nat>
    ghost var world0: World
    ghost var fuse0: nat

    constructor (cfg: Config)
      ensures this.cfg == cfg && Now() == FRESH
    {
      this.cfg := cfg;
      book, arrival, retries := map[], [], map[];
      world, fuse, trace, lost := World(map[], map[], [], 0, 0, 0, 0), 0, [], {};
    }

    ghost function Now(): State
      reads this
    {
      State(book, arrival, retries, world)
    }

    // ---------------------------------------------------------------- one pass

    /** The durable state is what the effects made before power was lost left behind. */
    ghost predicate InPass()
      reads this
    {
      world == Play(world0, trace, lost, Reach(trace, fuse0)) && fuse == fuse0 - Reach(trace, fuse0)
    }

    /** The pass ended in a record that raised. */
    predicate LastRaised()
      reads this
    {
      EndsInRecord(trace) && |trace| - 1 in lost
    }

    method Begin(env: Env)
      modifies this`trace, this`lost, this`world0, this`fuse0
      ensures InPass() && trace == [] && lost == env.lost && world0 == world && fuse0 == fuse
    {
      trace, lost, world0, fuse0 := [], env.lost, world, fuse;
    }

    method Perform(e: Effect)
      requires InPass()
      modifies this`world, this`fuse, this`trace
      ensures InPass() && trace == old(trace) + [e]
    {
      PlayExtends(world0, trace, e, lost, Reach(trace, fuse0));
      if fuse > 0 {
        fuse := fuse - 1;
        world := if |trace| in lost then Missed(world, e) else Apply(world, e);
      }
      trace := trace + [e];
    }

    /** `update_order` on the shared record followed by `sync`. */
    method Put(o: Order)
      requires InPass()
      modifies this`book, this`world, this`fuse, this`trace
      ensures InPass() && trace == old(trace) + [Save(o)] && book == old(book)[o.id := o]
    {
      book := book[o.id := o];
      Perform(Save(o));
    }

    /** `_try_requeue_perpetual`. */
    method TryRequeue(o: Order, now: real) returns (requeued: bool)
      requires InPass()
      modifies this`book, this`world, this`fuse, this`trace
      ensures InPass() && requeued == Requeueable(o, now)
      ensures requeued ==> trace == old(trace) + [Save(o.(status := Open, lastFilledAt := now))]
                           && book == old(book)[o.id := o.(status := Open, lastFilledAt := now)]
      ensures !requeued ==> trace == old(trace) && book == old(book)
    {
      requeued := o.perpetual && o.executionCount < o.maxExecutions && (o.deadline <= 0.0 || now < o.deadline);
      if requeued {
        Put(o.(status := Open, lastFilledAt := now));
      }
    }

    /** Reject the order, persist that, and debit the solver if it is to blame. */
    method Refuse(o: Order, debit: bool)
      requires InPass()
      modifies this`book, this`world, this`fuse, this`trace
      ensures InPass() && book == old(book)[o.id := o.(status := Rejected)]
      ensures trace == old(trace) + [Save(o.(status := Rejected))] + if debit then [Record(false)] else []
    {
      Put(o.(status := Rejected));
      if debit { Perform(Record(false)); }
    }

    /** End the pass with a plain refusal. */
    method End(v: Verdict, debit: bool, o0: Order, env: Env)
      requires InPass() && trace == Staged(cfg, Stage(v), o0)
      requires PlainRefusal(v) && debit == Debits(v)
      requires o0.id in book && book[o0.id] == o0.(status := book[o0.id].status)
      modifies this`book, this`world, this`fuse, this`trace
      ensures InPass() && trace == Made(cfg, v, o0, env.now)
      ensures book == old(book)[o0.id := Left(v, o0, env.now)]
      ensures TableAfterPass(cfg, v, env, o0, retries) == retries
    {
      RefusalMade(cfg, v, o0, env.now);
      Refuse(book[o0.id], debit);
    }

    /** A miss that a live perpetual rests through and that ends any other order. */
    method Miss(rest: Verdict, end: Verdict, o0: Order, env: Env) returns (v: Verdict)
      requires InPass() && trace == Staged(cfg, Stage(rest), o0)
      requires (rest == PlanMissing(true) && end == PlanMissing(false))
               || (rest == ScoreMissing(true) && end == ScoreMissing(false))
               || (rest == ScoreLow(true) && end == ScoreLow(false))
      requires o0.id in book && book[o0.id] == o0.(status := book[o0.id].status)
      modifies this`book, this`world, this`fuse, this`trace
      ensures v == if Requeueable(o0, env.now) then rest else end
      ensures InPass() && trace == Made(cfg, v, o0, env.now)
      ensures book == old(book)[o0.id := Left(v, o0, env.now)]
      ensures TableAfterPass(cfg, v, env, o0, retries) == retries
    {
      var requeued := TryRequeue(book[o0.id], env.now);
      if requeued {
        v := rest;
        MadeFrom(cfg, v, o0, env.now, Stage(v));
      } else {
        v := end;
        End(end, true, o0, env);
      }
    }

    /** `_defer_or_reject_consensus`. */
    method DeferOrReject(o0: Order, env: Env) returns (v: Verdict)
      requires InPass() && trace == Staged(cfg, 3, o0)
      requires o0.id in book && book[o0.id] == o0.(status := Scored)
      modifies this`book, this`retries, this`world, this`fuse, this`trace
      ensures v == if Retry.DecisionOf(cfg.retry, old(retries), o0.id, o0.deadline, env.now).Requeue?
                   then ConsensusDeferred else ConsensusRejected
      ensures retries == Retry.TableAfter(cfg.retry, old(retries), o0.id, o0.deadline, env.now)
              == TableAfterPass(cfg, v, env, o0, old(retries))
      ensures InPass() && trace == Made(cfg, v, o0, env.now)
      ensures book == old(book)[o0.id := Left(v, o0, env.now)]
    {
      var requeue := CountAttempt(o0.id, o0.deadline, env.now);
      v := if requeue then ConsensusDeferred else ConsensusRejected;
      Requeue(v, if requeue then Open else Rejected, o0, env);
    }

    method Requeue(v: Verdict, status: Status, o0: Order, env: Env)
      requires InPass() && trace == Staged(cfg, 3, o0)
      requires (v.ConsensusDeferred? && status.Open?) || (v.ConsensusRejected? && status.Rejected?)
      requires o0.id in book && book[o0.id] == o0.(status := Scored)
      modifies this`book, this`world, this`fuse, this`trace
      ensures InPass() && trace == Made(cfg, v, o0, env.now)
      ensures book == old(book)[o0.id := Left(v, o0, env.now)]
    {
      Put(book[o0.id].(status := status));
      MadeFrom(cfg, v, o0, env.now, 3);
    }

    /** The bookkeeping of `_defer_or_reject_consensus`. */
    method CountAttempt(id: OrderId, deadline: real, now: real) returns (requeue: bool)
      modifies this`retries
      ensures retries == Retry.TableAfter(cfg.retry, old(retries), id, deadline, now)
      ensures requeue <==> Retry.DecisionOf(cfg.retry, old(retries), id, deadline, now).Requeue?
    {
      if |retries| > Retry.PRUNE_ABOVE {
        retries := map other | other in retries && now - retries[other].last < Retry.PRUNE_AGE :: retries[other];
      }
      assert retries == Retry.Pruned(old(retries), now);
      var entry := if id in retries then retries[id] else Retry.Entry(0, 0.0);
      var headroom := deadline <= 0.0 || deadline - now > Retry.MIN_DEADLINE_LEFT;
      if entry.attempts > 0 && now - entry.last < cfg.retry.spacing && headroom {
        return true;
      }
      if entry.attempts < cfg.retry.max && headroom {
        retries := retries[id := Retry.Entry(entry.attempts + 1, now)];
        return true;
      }
      retries := retries - {id};
      return false;
    }

    /** The relayer reported a fill. */
    method Fill(o0: Order, now: real)
      requires InPass()
      requires o0.id in book && book[o0.id] == o0.(status := Approved)
      modifies this`book, this`world, this`fuse, this`trace
      ensures InPass() && book == old(book)[o0.id := AfterFill(o0, now)]
      ensures trace == old(trace) + [Save(AfterFill(o0, now)), Record(true)]
    {
      var o := book[o0.id].(status := Filled);
      if o.perpetual {
        o := o.(executionCount := o.executionCount + 1, lastFilledAt := now);
        if o.executionCount < o.maxExecutions { o := o.(status := Open); }
      }
      assert o == AfterFill(o0, now);
      Put(o);
      Perform(Record(true));
    }

    /** Relay an APPROVED order on its chain and book the outcome. */
    method RelayOrder(o0: Order, env: Env) returns (v: Verdict)
      requires InPass()
      requires o0.id in book && book[o0.id] == o0.(status := Approved)
      modifies this`book, this`world, this`fuse, this`trace
      ensures InPass() && v == if env.fault.AtRelay? then Escaped(AtRelay) else Relayed(env.reply)
      ensures trace == old(trace) + if v.Escaped? then [Relay(o0.id, false)] else Closing(v, o0, env.now)
      ensures book == old(book)[o0.id := Left(v, o0, env.now)]
    {
      var o := book[o0.id];
      Perform(Relay(o.id, !env.fault.AtRelay? && env.reply.Settled?));
      if env.fault.AtRelay? { return Escaped(AtRelay); }
      if env.reply.Settled? {
        Fill(o0, env.now);
      } else {
        Refuse(o, !env.reply.userFault);
      }
      v := Relayed(env.reply);
      RelayClosing(env.reply, o0, env.now);
    }

    /** From the APPROVED save on: stop for the user, hand over the bridge, or relay. */
    method Approve(o0: Order, env: Env) returns (v: Verdict)
      requires InPass() && trace == Staged(cfg, 3, o0)
      requires o0.id in book && book[o0.id] == o0.(status := Scored)
      modifies this`book, this`world, this`fuse, this`trace
      ensures InPass() && v == JudgeApproved(env, o0)
      ensures trace == Made(cfg, v, o0, env.now) && book == old(book)[o0.id := Left(v, o0, env.now)]
    {
      var o := book[o0.id].(status := Approved);
      Put(o);
      if o.userSubmits {
        v := AwaitsUser;
      } else if env.plan.CrossChain? {
        v := HandOver(o0, env);
      } else {
        v := RelayOrder(o0, env);
      }
      ApprovalMade(cfg, v, o0, env.now);
    }

    /** A cross-chain plan, handed to its own orchestrator. */
    method HandOver(o0: Order, env: Env) returns (v: Verdict)
      requires InPass() && env.plan.CrossChain?
      requires o0.id in book && book[o0.id] == o0.(status := Approved)
      modifies this`book, this`world, this`fuse, this`trace
      ensures InPass() && v == if env.fault.AtBridge? then Escaped(AtBridge) else DelegatedBridge(env.plan.ends)
      ensures trace == if v.Escaped? then old(trace) else old(trace) + Closing(v, o0, env.now)
      ensures book == old(book)[o0.id := Left(v, o0, env.now)]
    {
      if env.fault.AtBridge? {
        v := Escaped(AtBridge);
      } else {
        Put(book[o0.id].(status := env.plan.ends));
        v := DelegatedBridge(env.plan.ends);
      }
    }

    /** From consensus on. */
    method Conclude(o0: Order, env: Env) returns (v: Verdict)
      requires InPass() && trace == Staged(cfg, 3, o0)
      requires o0.id in book && book[o0.id] == o0.(status := Scored)
      modifies this`book, this`retries, this`world, this`fuse, this`trace
      ensures InPass() && v == JudgeConsensus(cfg, env, o0, old(retries))
      ensures trace == Made(cfg, v, o0, env.now) && book == old(book)[o0.id := Left(v, o0, env.now)]
      ensures retries == TableAfterPass(cfg, v, env, o0, old(retries))
    {
      if cfg.consensus && env.peers && env.fault.AtConsensus? {
        v := Escaped(AtConsensus);
        EscapeLeaves(cfg, v, o0, env, 3, book, retries);
      } else if cfg.consensus && !(env.peers && env.reached) {
        v := DeferOrReject(o0, env);
      } else {
        v := Agree(o0, env);
      }
    }

    /** Consensus was reached, or is not asked for: the order's retries are forgotten. */
    method Agree(o0: Order, env: Env) returns (v: Verdict)
      requires InPass() && trace == Staged(cfg, 3, o0)
      requires o0.id in book && book[o0.id] == o0.(status := Scored)
      modifies this`book, this`retries, this`world, this`fuse, this`trace
      ensures InPass() && v == JudgeApproved(env, o0)
      ensures trace == Made(cfg, v, o0, env.now) && book == old(book)[o0.id := Left(v, o0, env.now)]
      ensures retries == TableAfterPass(cfg, v, env, o0, old(retries))
    {
      retries := retries - {o0.id};
      v := Approve(o0, env);
      ApprovalForgets(cfg, v, env, o0, old(retries));
    }

    /** The on-chain score gate, and what follows it. */
    method Gate(o0: Order, env: Env) returns (v: Verdict)
      requires InPass() && trace == Staged(cfg, 3, o0)
      requires o0.id in book && book[o0.id] == o0.(status := Scored)
      modifies this`book, this`retries, this`world, this`fuse, this`trace
      ensures InPass() && v == JudgeAdmitted(cfg, env, o0, old(retries))
      ensures trace == Made(cfg, v, o0, env.now) && book == old(book)[o0.id := Left(v, o0, env.now)]
      ensures retries == TableAfterPass(cfg, v, env, o0, old(retries))
    {
      if env.contract && env.onChainScore.None? && cfg.failClosed {
        v := Miss(ScoreMissing(true), ScoreMissing(false), o0, env);
      } else if env.onChainScore.Some? && env.onChainScore.value < env.threshold {
        v := Miss(ScoreLow(true), ScoreLow(false), o0, env);
      } else {
        v := Conclude(o0, env);
      }
    }

    /** From the plan on: delegate legs, certify the fee, score. */
    method Solve(o0: Order, env: Env) returns (v: Verdict)
      requires InPass() && trace == Staged(cfg, 2, o0)
      requires o0.id in book && book[o0.id] == o0.(status := Solved)
      requires !env.plan.NoPlan?
      modifies this`book, this`retries, this`world, this`fuse, this`trace
      ensures InPass() && v == JudgeSolved(cfg, env, o0, old(retries))
      ensures trace == Made(cfg, v, o0, env.now) && book == old(book)[o0.id := Left(v, o0, env.now)]
      ensures retries == TableAfterPass(cfg, v, env, o0, old(retries))
    {
      if env.plan.MultiLeg? {
        v := Legs(o0, env);
      } else if env.plan.CrossChain? && !cfg.crossChainEnabled {
        v := CrossChainOff;
        End(v, false, o0, env);
      } else if o0.lockedFee > 0 && !FeeCertified(cfg, env, o0) {
        v := FeeRefused;
        End(v, true, o0, env);
      } else {
        v := Grade(o0, env);
      }
    }

    /** A multi-leg plan, handed to its own orchestrator. */
    method Legs(o0: Order, env: Env) returns (v: Verdict)
      requires InPass() && trace == Staged(cfg, 2, o0)
      requires o0.id in book && book[o0.id] == o0.(status := Solved)
      requires env.plan.MultiLeg?
      modifies this`book, this`world, this`fuse, this`trace
      ensures InPass() && v == JudgeSolved(cfg, env, o0, retries)
      ensures trace == Made(cfg, v, o0, env.now) && book == old(book)[o0.id := Left(v, o0, env.now)]
      ensures Stage(v) == 2
    {
      if !env.plan.compiles {
        v := Uncompilable;
        End(v, false, o0, env);
      } else if env.fault.AtLegs? {
        v := Escaped(AtLegs);
        assert book == book[o0.id := book[o0.id]];
      } else {
        v := DelegatedLegs(env.plan.ends);
        Put(book[o0.id].(status := env.plan.ends));
      }
      MadeFrom(cfg, v, o0, env.now, 2);
    }

    /** The score, and its gate. */
    method Grade(o0: Order, env: Env) returns (v: Verdict)
      requires InPass() && trace == Staged(cfg, 2, o0)
      requires o0.id in book && book[o0.id] == o0.(status := Solved)
      modifies this`book, this`retries, this`world, this`fuse, this`trace
      ensures InPass() && v == JudgeScored(cfg, env, o0, old(retries))
      ensures trace == Made(cfg, v, o0, env.now) && book == old(book)[o0.id := Left(v, o0, env.now)]
      ensures retries == TableAfterPass(cfg, v, env, o0, old(retries))
    {
      if env.fault.AtScoring? {
        v := Escaped(AtScoring);
        EscapeLeaves(cfg, v, o0, env, 2, book, retries);
      } else {
        Put(book[o0.id].(status := Scored));
        StagedGrows(cfg, o0, 2);
        v := Gate(o0, env);
      }
    }

    /** From the policy assessment on. */
    method Assess(o0: Order, env: Env) returns (v: Verdict)
      requires InPass() && trace == []
      requires o0.id in book && book[o0.id] == o0
      requires !env.plan.NoPlan?
      modifies this`book, this`retries, this`world, this`fuse, this`trace
      ensures InPass() && v == JudgePlanned(cfg, env, o0, old(retries))
      ensures trace == Made(cfg, v, o0, env.now) && book == old(book)[o0.id := Left(v, o0, env.now)]
      ensures retries == TableAfterPass(cfg, v, env, o0, old(retries))
    {
      StagedGrows(cfg, o0, 1);
      if cfg.assessPolicy || cfg.enforcePolicy {
        Put(o0);
        if cfg.enforcePolicy && !env.policyAccepted {
          v := PolicyRefused;
          End(v, true, o0, env);
          return;
        }
      }
      v := Accept(o0, env);
    }

    /** The plan is kept. */
    method Accept(o0: Order, env: Env) returns (v: Verdict)
      requires InPass() && trace == Staged(cfg, 1, o0)
      requires o0.id in book && book[o0.id] == o0
      requires !env.plan.NoPlan?
      modifies this`book, this`retries, this`world, this`fuse, this`trace
      ensures InPass() && v == JudgeSolved(cfg, env, o0, old(retries))
      ensures trace == Made(cfg, v, o0, env.now) && book == old(book)[o0.id := Left(v, o0, env.now)]
      ensures retries == TableAfterPass(cfg, v, env, o0, old(retries))
    {
      StagedGrows(cfg, o0, 1);
      Put(o0.(status := Solved));
      v := Solve(o0, env);
    }

    /** `process`: one order through the pipeline. */
    method Process(id: OrderId, env: Env) returns (v: Verdict)
      requires id in book && book[id].id == id
      modifies this`book, this`retries, this`world, this`fuse, this`trace, this`lost, this`world0, this`fuse0
      ensures InPass() && world0 == old(world) && fuse0 == old(fuse) && lost == env.lost
      ensures v == Judge(cfg, env, old(book[id]), old(retries))
      ensures trace == Made(cfg, v, old(book[id]), env.now)
      ensures book == old(book)[id := Left(v, old(book[id]), env.now)]
      ensures retries == TableAfterPass(cfg, v, env, old(book[id]), old(retries))
    {
      Begin(env);
      var o := book[id];
      if env.fault.AtPlanning? {
        v := Escaped(AtPlanning);
        assert book == book[id := o];
        MadeFrom(cfg, v, o, env.now, 0);
      } else if !env.appFound {
        v := AppMissing;
        End(v, false, o, env);
      } else if o.perpetual && env.contract && !env.funded {
        v := Unfunded;
        End(v, false, o, env);
      } else if env.plan.NoPlan? {
        v := Miss(PlanMissing(true), PlanMissing(false), o, env);
      } else {
        v := Assess(o, env);
      }
    }

    /** `process`, and the handler of any exception that comes out of it. */
    method Pass(id: OrderId, env: Env) returns (ghost v: Verdict)
      requires id in book && book[id].id == id
      modifies this`book, this`retries, this`world, this`fuse, this`trace, this`lost, this`world0, this`fuse0
      ensures InPass() && world0 == old(world) && fuse0 == old(fuse) && lost == env.lost
      ensures v == Judge(cfg, env, old(book[id]), old(retries))
      ensures trace == Effects(cfg, env, v, old(book[id]))
      ensures book == old(book)[id := Ended(cfg, env, v, old(book[id]))]
      ensures retries == TableAfterPass(cfg, v, env, old(book[id]), old(retries))
    {
      var verdict := Process(id, env);
      v := verdict;
      var raised := verdict.Escaped? || LastRaised();
      HandlerLeaves(cfg, env, v, old(book[id]), trace, book[id], raised);
      if raised {
        Overwritten(old(book), id, book[id], book[id].(status := Rejected));
        Put(book[id].(status := Rejected));
      }
    }

    /** One order of a tick. */
    method Work(id: OrderId, env: Env)
      requires id in book && book[id].id == id
      modifies this`book, this`retries, this`world, this`fuse, this`trace, this`lost, this`world0, this`fuse0
      ensures Powered(Now(), fuse) == AfterWork(cfg, Powered(old(Now()), old(fuse)), id, env)
    {
      ghost var v := Pass(id, env);
    }

    // ---------------------------------------------------------------- events

    /** `submit`: a fresh order, stored best-effort by the API. */
    method Submit(o: Order, saved: bool)
      modifies this`book, this`arrival, this`world
      ensures Now() == AfterEvent(cfg, old(Now()), Submission(o, saved))
    {
      var order := o.(status := Open, executionCount := 0, lastFilledAt := 0.0);
      if !o.perpetual { order := order.(maxExecutions := 1); }
      book, arrival := book[o.id := order], arrival + [o.id];
      if saved { world := Apply(world, Save(order)); }
    }

    /** `cancel`: only by the owner, and only an OPEN or ASSIGNED order. */
    method Cancel(id: OrderId, user: string) returns (r: Outcome<bool>)
      modifies this`book
      ensures Now() == AfterEvent(cfg, old(Now()), Cancellation(id, user))
      ensures r.Raised? <==> id in old(book) && old(book)[id].owner != user
      ensures r == Returned(true) <==> Accepted(old(book), id, user)
    {
      if id !in book { return Returned(false); }
      if book[id].owner != user { return Raised; }
      if !Cancellable(book[id]) { return Returned(false); }
      CancelsOne(book, id);
      book := book[id := book[id].(status := Cancelled)];
      r := Returned(true);
    }

    /** The owners' cancels that arrive between two turns of a tick. */
    method CancelAll(ids: set<OrderId>)
      modifies this`book
      ensures book == CancelledBook(old(book), ids)
    {
      var todo := ids;
      while todo != {}
        invariant todo <= ids && book == CancelledBook(old(book), ids - todo)
        decreases todo
      {
        var id :| id in todo;
        if id in book && Cancellable(book[id]) {
          book := book[id := book[id].(status := Cancelled)];
        }
        todo := todo - {id};
      }
      assert ids - {} == ids;
    }

    /** `expire_stale`. */
    method ExpireStale(now: real)
      modifies this`book
      ensures book == ExpiredBook(old(book), now)
    {
      var todo := book.Keys;
      while todo != {}
        invariant todo <= book.Keys == old(book).Keys
        invariant forall id :: id in book ==>
                    book[id] == if id in todo then old(book)[id] else AfterExpiry(old(book)[id], now)
        decreases todo
      {
        var id :| id in todo;
        var o := book[id];
        if o.deadline > 0.0 && now > o.deadline && (o.status.Open? || o.status.Assigned?) {
          book := book[id := o.(status := Expired)];
        }
        todo := todo - {id};
      }
    }

    /** `snapshot_open`: claim orders for this tick by marking them ASSIGNED, first come first. */
    method SnapshotOpen(now: real) returns (ids: seq<OrderId>)
      requires Distinct(arrival)
      modifies this`book
      ensures ids == Claimed(cfg, arrival, old(book), now, MAX_SNAPSHOT)
      ensures book == MarkedBook(old(book), ids)
    {
      ghost var book0 := book;
      ids := [];
      var i := 0;
      while i < |arrival| && |ids| < MAX_SNAPSHOT
        invariant 0 <= i && Claiming(cfg, arrival, book0, now, i, ids, book)
      {
        var id := arrival[i];
        ClaimingStep(cfg, arrival, book0, now, i, ids, book);
        if id in book && Eligible(cfg, book[id], now) {
          book := book[id := book[id].(status := Assigned)];
          ids := ids + [id];
        }
        i := i + 1;
      }
    }

    /** `load_open_orders`: re-inject stored OPEN orders that are not in the book. */
    method LoadOpenOrders()
      modifies this`book, this`arrival
      ensures Now() == AfterLoad(old(Now()))
    {
      for i := 0 to |world.rows|
        invariant Now() == Loaded(old(Now()), i)
      {
        var id := world.rows[i];
        if id in world.store && world.store[id].status.Open? && id !in book {
          book, arrival := book[id := world.store[id]], arrival + [id];
        }
      }
    }

    /** Power is lost: memory is gone, and the next process loads what the store calls OPEN. */
    method Restart()
      modifies this`book, this`arrival, this`retries
      ensures Now() == AfterRestart(old(Now()))
    {
      book, arrival, retries := map[], [], map[];
      LoadOpenOrders();
    }

    /** `on_leader_changed`, as far as orders go. */
    method LeaderChanged()
      modifies this`book, this`arrival
      ensures Now() == AfterLoad(old(Now()))
    {
      LoadOpenOrders();
    }

    /** Expire what is stale, and claim the orders of this tick. */
    method Claim(now: real) returns (ids: seq<OrderId>)
      requires Distinct(arrival)
      modifies this`book
      ensures ids == ClaimedIn(cfg, old(Now()), now) && Now() == AfterClaim(cfg, old(Now()), now)
    {
      ExpireStale(now);
      ids := SnapshotOpen(now);
    }

    /** The cancels that arrive before a turn, and the turn. */
    method Turn(id: OrderId, env: Env, cancels: set<OrderId>)
      requires id in book && book[id].id == id
      modifies this
      ensures Powered(Now(), fuse) == AfterWork(cfg, WithCancels(Powered(old(Now()), old(fuse)), cancels), id, env)
    {
      CancelAll(cancels);
      Work(id, env);
    }

    /** The turns of a tick. */
    method Turns(ids: seq<OrderId>, e: Event, ghost known: set<OrderId>)
      requires e.Tick? && Known(Now(), known) && forall id :: id in ids ==> id in book
      modifies this
      ensures Powered(Now(), fuse) ==
              AfterTurns(cfg, Powered(old(Now()), old(fuse)), ids, e.envs, e.cancels, |ids|)
    {
      ghost var p := Powered(Now(), fuse);
      for i := 0 to |ids|
        invariant Powered(Now(), fuse) == AfterTurns(cfg, p, ids, e.envs, e.cancels, i)
      {
        NextIsKnown(cfg, p, ids, e, i, known);
        Turn(ids[i], e.envs(ids[i]), e.cancels(i));
      }
    }

    /** `tick`, within a power budget; when the budget runs out the process restarts. */
    method RunTick(e: Event)
      requires e.Tick? && exists known :: Known(Now(), known)
      modifies this
      ensures Now() == AfterEvent(cfg, old(Now()), e)
    {
      ghost var s0, known: set<OrderId> := Now(), var known :| Known(Now(), known); known;
      fuse := e.power;
      var ids := Claim(e.now);
      ClaimedShape(cfg, arrival, ExpiredBook(s0.book, e.now), e.now, MAX_SNAPSHOT);
      Turns(ids, e, known);
      if fuse == 0 { Restart(); }
    }

    /** Any event of a run. */
    method Handle(e: Event)
      requires exists known :: Known(Now(), known)
      modifies this
      ensures Now() == AfterEvent(cfg, old(Now()), e)
    {
      match e {
        case Submission(order, saved) => Submit(order, saved);
        case Tick(_, _, _, _) => RunTick(e);
        case Cancellation(id, user) => var _ := Cancel(id, user);
        case LeaderChange => LeaderChanged();
        case Restart => Restart();
      }
    }
  }

  /** The loop leaves exactly the state of the fold over the run's events. */
  method Run(cfg: Config, events: seq<Event>) returns (loop: BlockLoop)
    requires UniqueIds(events)
    ensures fresh(loop) && loop.cfg == cfg && loop.Now() == RunFrom(cfg, FRESH, events)
  {
    loop := new BlockLoop(cfg);
    for i := 0 to |events|
      invariant fresh(loop) && loop.cfg == cfg && loop.Now() == RunFrom(cfg, FRESH, events[..i])
    {
      RunIsKnown(cfg, events, i);
      assert events[..i + 1][..i] == events[..i];
      loop.Handle(events[i]);
    }
    assert events[..|events|] == events;
  }
}
