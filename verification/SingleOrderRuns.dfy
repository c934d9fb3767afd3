/**
  Runs of one order that show what a restart can do: how a cancelled order comes back, and how
  lost saves let an order reach the relayer twice. Each says exactly when it happens.
 */
module SingleOrderRuns {
  import opened OrderPass
  import opened OrderSafety
  import opened OrderRuns
  import opened CancelledOrders

  /** No user cancels during the tick. */
  const NO_CANCELS: nat -> set<OrderId> := (i: nat) => {}

  /** Memory holds this one order, not yet claimed. */
  predicate Holds(s: State, o: Order) {
    s.book == map[o.id := o] && s.arrival == [o.id] && o.status.Open?
  }

  lemma AfterOne(cfg: Config, before: seq<Event>, e: Event)
    ensures RunFrom(cfg, FRESH, before + [e]) == AfterEvent(cfg, RunFrom(cfg, FRESH, before), e)
  {
    assert (before + [e])[..|before|] == before;
  }

  lemma RunOfThree(cfg: Config, a: Event, b: Event, c: Event)
    ensures RunFrom(cfg, FRESH, [a, b]) == AfterEvent(cfg, RunFrom(cfg, FRESH, [a]), b)
    ensures RunFrom(cfg, FRESH, [a, b, c]) == AfterEvent(cfg, RunFrom(cfg, FRESH, [a, b]), c)
  {
    AfterOne(cfg, [a], b);
    AfterOne(cfg, [a, b], c);
    assert [a] + [b] == [a, b] && [a, b] + [c] == [a, b, c];
  }

  lemma SubmissionHolds(cfg: Config, o: Order, saved: bool)
    ensures var s := RunFrom(cfg, FRESH, [Submission(o, saved)]);
            && Holds(s, NewOrder(o)) && s.retries == map[] && s.world.calls == map[]
            && s.world.store == (if saved then map[o.id := NewOrder(o)] else map[])
            && s.world.rows == (if saved then [o.id] else [])
  {
    AfterOne(cfg, [], Submission(o, saved));
    assert [] + [Submission(o, saved)] == [Submission(o, saved)];
  }

  /** A tick claims the one order and gives it its turn. */
  lemma OnlyTurn(cfg: Config, s: State, o: Order, e: Event)
    requires e.Tick? && e.cancels == NO_CANCELS
    requires Holds(s, o) && Eligible(cfg, o, e.now) && !Stale(o, e.now)
    ensures TickEnd(cfg, s, e) ==
            AfterWork(cfg, Powered(s.(book := map[o.id := o.(status := Assigned)]), e.power), o.id, e.envs(o.id))
  {
    assert ExpiredBook(s.book, e.now) == s.book;
    assert Claimed(cfg, s.arrival[1..], s.book, e.now, MAX_SNAPSHOT - 1) == [];
    assert ClaimedIn(cfg, s, e.now) == [o.id];
    assert MarkedBook(s.book, [o.id]) == map[o.id := o.(status := Assigned)];
    var p := Powered(AfterClaim(cfg, s, e.now), e.power);
    assert CancelledBook(p.s.book, {}) == p.s.book;
    assert AfterTurns(cfg, p, [o.id], e.envs, e.cancels, 0) == p;
  }

  /** A tick calls the relayer for the one order exactly if its verdict does, and power lasts. */
  lemma OnlyTurnCalls(cfg: Config, s: State, o: Order, e: Event)
    requires e.Tick? && e.cancels == NO_CANCELS
    requires Holds(s, o) && Eligible(cfg, o, e.now) && !Stale(o, e.now)
    ensures AfterEvent(cfg, s, e).world == TickEnd(cfg, s, e).s.world
    ensures var env := e.envs(o.id);
            var v := Judge(cfg, env, o, s.retries);
            AfterEvent(cfg, s, e).world.Calls(o.id) ==
            s.world.Calls(o.id) + if CalledBy(cfg, v, o, Reach(Effects(cfg, env, v, o), e.power)) then 1 else 0
  {
    OnlyTurn(cfg, s, o, e);
    WorkCalls(cfg, Powered(s.(book := map[o.id := o.(status := Assigned)]), e.power), o.id, e.envs(o.id), o);
    RestartKeepsWorld(TickEnd(cfg, s, e).s);
  }

  lemma RestartKeepsWorld(s: State)
    ensures AfterRestart(s).world == s.world && AfterRestart(s).retries == map[]
  {
    LoadKeepsWorld(State(map[], [], map[], s.world), |s.world.rows|);
  }

  /** What a restart finds of a store with one row. */
  lemma RestartHolds(s: State, id: OrderId)
    requires s.world.rows == [id] && id in s.world.store && s.world.store[id].id == id
    ensures var t := AfterRestart(s);
            && t.world == s.world && t.retries == map[]
            && (if StoredOpen(s.world, id) then Holds(t, s.world.store[id]) else t.book == map[] && t.arrival == [])
  {
    var empty := State(map[], [], map[], s.world);
    assert Loaded(empty, 0) == empty;
  }

  /** Nothing is in memory, so a tick does nothing. */
  lemma IdleTick(cfg: Config, s: State, e: Event)
    requires e.Tick? && s.book == map[] && s.arrival == []
    ensures AfterEvent(cfg, s, e).world == s.world
  {
    assert ClaimedIn(cfg, s, e.now) == [];
    RestartKeepsWorld(TickEnd(cfg, s, e).s);
  }

  // ---------------------------------------------------------------- a cancelled order comes back

  function ReturnOfCancelled(o: Order, saved: bool, now: real, env: Env, power: nat): seq<Event> {
    [Submission(o, saved), Cancellation(o.id, o.owner), Restart, Tick(now, (id: OrderId) => env, NO_CANCELS, power)]
  }

  /**
    Submitted, cancelled by its owner, and, after a restart, relayed: this happens exactly to the
    orders whose submission was saved, if the pass gets them through.
   */
  lemma CancelledAndRelayed(cfg: Config, o: Order, saved: bool, now: real, env: Env, power: nat)
    requires !Stale(NewOrder(o), now)
    ensures var n := NewOrder(o);
            var v := Judge(cfg, env, n, map[]);
            RunFrom(cfg, FRESH, ReturnOfCancelled(o, saved, now, env, power)).world.Calls(o.id) ==
            if saved && CalledBy(cfg, v, n, Reach(Effects(cfg, env, v, n), power)) then 1 else 0
    ensures Accepted(RunFrom(cfg, FRESH, [Submission(o, saved)]).book, o.id, o.owner)
  {
    var submit, cancel := Submission(o, saved), Cancellation(o.id, o.owner);
    var tick := Tick(now, (id: OrderId) => env, NO_CANCELS, power);
    SubmissionHolds(cfg, o, saved);
    RunOfThree(cfg, submit, cancel, Restart);
    AfterOne(cfg, [submit, cancel, Restart], tick);
    assert [submit, cancel, Restart] + [tick] == ReturnOfCancelled(o, saved, now, env, power);
    var s := RunFrom(cfg, FRESH, [submit, cancel]);
    var t := RunFrom(cfg, FRESH, [submit, cancel, Restart]);
    if saved {
      RestartHolds(s, o.id);
      OnlyTurnCalls(cfg, t, NewOrder(o), tick);
    } else {
      RestartKeepsWorld(s);
      IdleTick(cfg, t, tick);
    }
  }

  // ---------------------------------------------------------------- lost saves

  /** Power fails right after the relayer call of the first tick; the second tick runs on. */
  function CallAndDie(cfg: Config, o: Order, now: real, env: Env, later: real, env': Env, power: nat): seq<Event> {
    [Submission(o, true), Tick(now, (id: OrderId) => env, NO_CANCELS, StagedCount(cfg) + 1),
     Tick(later, (id: OrderId) => env', NO_CANCELS, power)]
  }

  /** What power loss right after the relayer call leaves of the order in the store. */
  lemma DeadAfterCall(cfg: Config, env: Env, o: Order, w: World)
    requires CallsRelayer(Judge(cfg, env, o, map[])) && !o.perpetual && o.status.Assigned?
    requires w == World(map[o.id := o.(status := Open)], map[], [o.id], 0, 0, 0, 0)
    ensures var v := Judge(cfg, env, o, map[]);
            var fx := Effects(cfg, env, v, o);
            && Before(cfg, v, o) == StagedCount(cfg) < |fx|
            && var w' := Play(w, fx, env.lost, StagedCount(cfg) + 1);
               && w'.Calls(o.id) == 1 && w'.rows == [o.id]
               && o.id in w'.store && w'.store[o.id].id == o.id
               && (Anchored(cfg, env) ==> !w'.store[o.id].status.Open?)
               && (!Anchored(cfg, env) ==> w'.store == w.store)
  {
    var v := Judge(cfg, env, o, map[]);
    var fx, n := Effects(cfg, env, v, o), StagedCount(cfg);
    ClosingHasItsCall(cfg, v, o, env.now);
    TurnCalls(cfg, env, v, o, w, n + 1);
    forall j: nat | j < n ensures fx[j].Save? && fx[j].order.id == o.id && !fx[j].order.status.Open? {
      StagedShape(cfg, v, o, j);
      assert fx[j] == Staged(cfg, Stage(v), o)[j];
    }
    RelayPosition(cfg, env, v, o, n);
    StagedSaves(fx, env.lost, o.id, w, n);
  }

  /** The first effects are saves that are not OPEN: the stored record is OPEN as long as none landed. */
  lemma {:induction false} StagedSaves(fx: seq<Effect>, lost: set<nat>, id: OrderId, w: World, n: nat)
    requires n <= |fx| && id in w.store && w.store[id].id == id
    requires forall j: nat | j < n :: fx[j].Save? && fx[j].order.id == id && !fx[j].order.status.Open?
    ensures var w' := Play(w, fx, lost, n);
            && w'.rows == w.rows && id in w'.store && w'.store[id].id == id
            && ((exists j: nat :: j < n && j !in lost) ==> !w'.store[id].status.Open?)
            && (!(exists j: nat :: j < n && j !in lost) ==> w'.store == w.store)
  {
    if n > 0 { StagedSaves(fx, lost, id, w, n - 1); }
  }

  /**
    The cap fails exactly when no save lands before the relayer call. A one-shot order that two
    passes would relay, with power lost right after the first call, reaches the relayer once if
    some save of the first pass landed before it, and twice otherwise.
   */
  lemma LostSavesCallTwice(cfg: Config, o: Order, now: real, env: Env, later: real, env': Env, power: nat)
    requires !o.perpetual && !Stale(NewOrder(o), now) && !Stale(NewOrder(o), later) && power > StagedCount(cfg)
    requires CallsRelayer(Judge(cfg, env, NewOrder(o), map[])) && CallsRelayer(Judge(cfg, env', NewOrder(o), map[]))
    ensures var w := RunFrom(cfg, FRESH, CallAndDie(cfg, o, now, env, later, env', power)).world;
            && w.Calls(o.id) == (if Anchored(cfg, env) then 1 else 2)
            && (w.Calls(o.id) <= Cap(NewOrder(o)) <==> Anchored(cfg, env))
  {
    var n := NewOrder(o);
    var submit, first := Submission(o, true), Tick(now, (id: OrderId) => env, NO_CANCELS, StagedCount(cfg) + 1);
    var second := Tick(later, (id: OrderId) => env', NO_CANCELS, power);
    SubmissionHolds(cfg, o, true);
    RunOfThree(cfg, submit, first, second);
    var s, t := RunFrom(cfg, FRESH, [submit]), RunFrom(cfg, FRESH, [submit, first]);
    FirstTickDies(cfg, s, n, first, env);
    if Anchored(cfg, env) {
      IdleTick(cfg, t, second);
    } else {
      SecondTickCalls(cfg, t, n, second, env');
    }
  }

  lemma FirstTickDies(cfg: Config, s: State, n: Order, e: Event, env: Env)
    requires Holds(s, n) && !n.perpetual && s.retries == map[]
    requires s.world == World(map[n.id := n], map[], [n.id], 0, 0, 0, 0)
    requires e.Tick? && e.cancels == NO_CANCELS && e.envs(n.id) == env && e.power == StagedCount(cfg) + 1
    requires !Stale(n, e.now) && CallsRelayer(Judge(cfg, env, n, map[]))
    ensures var t := AfterEvent(cfg, s, e);
            && t.world.Calls(n.id) == 1 && t.retries == map[]
            && if Anchored(cfg, env) then t.book == map[] && t.arrival == [] else Holds(t, n)
  {
    var o := n.(status := Assigned);
    OnlyTurn(cfg, s, n, e);
    JudgeIgnoresStatus(cfg, env, n, Assigned, map[]);
    assert o.(status := Open) == n;
    DeadAfterCall(cfg, env, o, s.world);
    RestartHolds(TickEnd(cfg, s, e).s, n.id);
  }

  lemma SecondTickCalls(cfg: Config, t: State, n: Order, e: Event, env: Env)
    requires Holds(t, n) && !n.perpetual && t.retries == map[]
    requires e.Tick? && e.cancels == NO_CANCELS && e.envs(n.id) == env && e.power > StagedCount(cfg)
    requires !Stale(n, e.now) && CallsRelayer(Judge(cfg, env, n, map[]))
    ensures AfterEvent(cfg, t, e).world.Calls(n.id) == t.world.Calls(n.id) + 1
  {
    ClosingHasItsCall(cfg, Judge(cfg, env, n, map[]), n, env.now);
    OnlyTurnCalls(cfg, t, n, e);
  }
}
