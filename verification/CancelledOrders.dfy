/**
  What a user's cancel does and does not stop.

  A cancel marks the order in memory. It does not touch a pass that has claimed the order, and it
  is not saved, so it lasts only as long as the process, unless the stored record is not OPEN.
 */
module CancelledOrders {
  import opened OrderPass
  import opened OrderSafety
  import opened OrderRuns
  import Retry = ConsensusRetry

  predicate SameButStatus(a: Order, b: Order) { a.(status := b.status) == b }

  // ---------------------------------------------------------------- cancels within a tick

  predicate AlikeEffects(a: Effect, b: Effect) {
    if a.Save? && b.Save? then SameButStatus(a.order, b.order) else a == b
  }

  /** Equal up to the statuses of stored records. */
  predicate AlikeWorlds(w: World, w': World) {
    && w.(store := w'.store) == w' && w.store.Keys == w'.store.Keys
    && forall id :: id in w.store ==> SameButStatus(w.store[id], w'.store[id])
  }

  /** Equal up to the statuses of orders. */
  predicate Alike(p: Powered, q: Powered) {
    && p.fuse == q.fuse && p.s.retries == q.s.retries && p.s.arrival == q.s.arrival
    && AlikeWorlds(p.s.world, q.s.world) && p.s.book.Keys == q.s.book.Keys
    && forall id :: id in p.s.book ==> SameButStatus(p.s.book[id], q.s.book[id])
  }

  lemma StagedIgnoresStatus(cfg: Config, stage: nat, o: Order, s: Status)
    ensures var c := o.(status := s);
            && |Staged(cfg, stage, c)| == |Staged(cfg, stage, o)|
            && forall j: nat | j < |Staged(cfg, stage, o)| ::
                 AlikeEffects(Staged(cfg, stage, o)[j], Staged(cfg, stage, c)[j])
  {
  }

  lemma RecordIgnoresStatus(cfg: Config, env: Env, v: Verdict, o: Order, s: Status)
    ensures RecordRaises(cfg, env, v, o.(status := s)) <==> RecordRaises(cfg, env, v, o)
    ensures Ended(cfg, env, v, o.(status := s)) == Ended(cfg, env, v, o)
  {
    ClosingIgnoresStatus(v, o, s, env.now);
    StagedIgnoresStatus(cfg, Stage(v), o, s);
  }

  lemma AlikeBefore(a: seq<Effect>, b: seq<Effect>, rest: seq<Effect>)
    requires |a| == |b| && forall j: nat | j < |a| :: AlikeEffects(a[j], b[j])
    ensures forall j: nat | j < |a + rest| :: AlikeEffects((a + rest)[j], (b + rest)[j])
  {
  }

  /** The effects of a turn do not depend on the status the order came with, but for the first save. */
  lemma EffectsIgnoreStatus(cfg: Config, env: Env, v: Verdict, o: Order, s: Status)
    ensures var c := o.(status := s);
            && |Effects(cfg, env, v, c)| == |Effects(cfg, env, v, o)|
            && Ended(cfg, env, v, c) == Ended(cfg, env, v, o)
            && forall j: nat | j < |Effects(cfg, env, v, o)| ::
                 AlikeEffects(Effects(cfg, env, v, o)[j], Effects(cfg, env, v, c)[j])
  {
    ClosingIgnoresStatus(v, o, s, env.now);
    StagedIgnoresStatus(cfg, Stage(v), o, s);
    RecordIgnoresStatus(cfg, env, v, o, s);
    var rest := Closing(v, o, env.now) +
                if RecordRaises(cfg, env, v, o) then [Save(Final(v, o, env.now).(status := Rejected))] else [];
    EffectsInTwo(cfg, env, v, o, rest);
    EffectsInTwo(cfg, env, v, o.(status := s), rest);
    AlikeBefore(Staged(cfg, Stage(v), o), Staged(cfg, Stage(v), o.(status := s)), rest);
  }

  lemma EffectsInTwo(cfg: Config, env: Env, v: Verdict, o: Order, rest: seq<Effect>)
    requires rest == Closing(v, o, env.now) +
             if RecordRaises(cfg, env, v, o) then [Save(Final(v, o, env.now).(status := Rejected))] else []
    ensures Effects(cfg, env, v, o) == Staged(cfg, Stage(v), o) + rest
  {
  }

  lemma ApplyAlike(w: World, w': World, e: Effect, e': Effect)
    requires AlikeWorlds(w, w') && AlikeEffects(e, e')
    ensures AlikeWorlds(Apply(w, e), Apply(w', e')) && AlikeWorlds(Missed(w, e), Missed(w', e'))
  {
    assert forall id :: w.Calls(id) == w'.Calls(id);
  }

  lemma {:induction false} PlayAlike(w: World, w': World, fx: seq<Effect>, fx': seq<Effect>, lost: set<nat>, k: nat)
    requires AlikeWorlds(w, w') && k <= |fx| == |fx'|
    requires forall j: nat | j < |fx| :: AlikeEffects(fx[j], fx'[j])
    ensures AlikeWorlds(Play(w, fx, lost, k), Play(w', fx', lost, k))
  {
    if k > 0 {
      PlayAlike(w, w', fx, fx', lost, k - 1);
      ApplyAlike(Play(w, fx, lost, k - 1), Play(w', fx', lost, k - 1), fx[k - 1], fx'[k - 1]);
    }
  }

  lemma WorkIsAlike(cfg: Config, p: Powered, q: Powered, id: OrderId, env: Env)
    requires Alike(p, q)
    ensures Alike(AfterWork(cfg, p, id, env), AfterWork(cfg, q, id, env))
  {
    if id in p.s.book {
      var o, c := p.s.book[id], q.s.book[id];
      assert SameButStatus(o, c);
      JudgeIgnoresStatus(cfg, env, o, c.status, p.s.retries);
      var v := Judge(cfg, env, o, p.s.retries);
      EffectsIgnoreStatus(cfg, env, v, o, c.status);
      var fx, fx' := Effects(cfg, env, v, o), Effects(cfg, env, v, c);
      PlayAlike(p.s.world, q.s.world, fx, fx', env.lost, Reach(fx, p.fuse));
      TableIgnoresStatus(cfg, v, env, o, c.status, p.s.retries);
    }
  }

  lemma TableIgnoresStatus(cfg: Config, v: Verdict, env: Env, o: Order, s: Status, table: Retry.Table)
    ensures TableAfterPass(cfg, v, env, o.(status := s), table) == TableAfterPass(cfg, v, env, o, table)
  {
  }

  lemma CancelsAreAlike(p: Powered, q: Powered, a: set<OrderId>, b: set<OrderId>)
    requires Alike(p, q)
    ensures Alike(WithCancels(p, a), WithCancels(q, b))
  {
  }

  lemma {:induction false} TurnsAreAlike(cfg: Config, p: Powered, ids: seq<OrderId>, e: Event,
                                         cancels: nat -> set<OrderId>, n: nat)
    requires e.Tick? && n <= |ids|
    ensures Alike(AfterTurns(cfg, p, ids, e.envs, e.cancels, n), AfterTurns(cfg, p, ids, e.envs, cancels, n))
  {
    if n > 0 {
      TurnsAreAlike(cfg, p, ids, e, cancels, n - 1);
      var q, r := AfterTurns(cfg, p, ids, e.envs, e.cancels, n - 1), AfterTurns(cfg, p, ids, e.envs, cancels, n - 1);
      CancelsAreAlike(q, r, e.cancels(n - 1), cancels(n - 1));
      WorkIsAlike(cfg, WithCancels(q, e.cancels(n - 1)), WithCancels(r, cancels(n - 1)), ids[n - 1], e.envs(ids[n - 1]));
    }
  }

  /**
    Cancels accepted while a tick runs change none of its relayer calls, fills, records, debits,
    retries or saves, but for the status in a saved record: a claimed order is settled or not
    exactly as if nobody had cancelled.
   */
  lemma CancelsDoNotReachClaimedOrders(cfg: Config, s: State, e: Event, cancels: nat -> set<OrderId>)
    requires e.Tick?
    ensures Alike(TickEnd(cfg, s, e), TickEnd(cfg, s, e.(cancels := cancels)))
  {
    var ids := ClaimedIn(cfg, s, e.now);
    TurnsAreAlike(cfg, Powered(AfterClaim(cfg, s, e.now), e.power), ids, e, cancels, |ids|);
  }

  // ---------------------------------------------------------------- orders a tick does not work on

  /** Nothing happened to an order, except that it may have been cancelled. */
  predicate Spared(p: State, q: State, id: OrderId) {
    && q.world.Calls(id) == p.world.Calls(id)
    && (id in q.world.store <==> id in p.world.store)
    && (id in p.world.store ==> q.world.store[id] == p.world.store[id])
    && (id in q.book <==> id in p.book)
    && (id in p.book ==> q.book[id] == p.book[id] || q.book[id] == p.book[id].(status := Cancelled))
  }

  lemma {:induction false} PlaySpares(w: World, fx: seq<Effect>, lost: set<nat>, k: nat, id: OrderId)
    requires k <= |fx| && forall e :: e in fx && e.Save? ==> e.order.id != id
    ensures var w' := Play(w, fx, lost, k);
            (id in w'.store <==> id in w.store) && (id in w.store ==> w'.store[id] == w.store[id])
  {
    if k > 0 {
      PlaySpares(w, fx, lost, k - 1, id);
      assert fx[k - 1] in fx;
    }
  }

  lemma WorkSpares(cfg: Config, p: Powered, other: OrderId, env: Env, id: OrderId)
    requires other != id && (other in p.s.book ==> p.s.book[other].id == other)
    ensures Spared(p.s, AfterWork(cfg, p, other, env).s, id)
  {
    if other in p.s.book {
      var o := p.s.book[other];
      var v := Judge(cfg, env, o, p.s.retries);
      var fx := Effects(cfg, env, v, o);
      EffectsSaveOneOrder(cfg, env, v, o);
      PlaySpares(p.s.world, fx, env.lost, Reach(fx, p.fuse), id);
      TurnCalls(cfg, env, v, o, p.s.world, Reach(fx, p.fuse));
    }
  }

  lemma SparedTwice(p: State, q: State, r: State, id: OrderId)
    requires Spared(p, q, id) && Spared(q, r, id)
    ensures Spared(p, r, id)
  {
  }

  /** The turns from the `m`-th to the `n`-th leave an order alone whose turn is not among them. */
  lemma {:induction false} TurnsSpare(cfg: Config, p: Powered, turns: seq<OrderId>, e: Event, m: nat, n: nat,
                                      id: OrderId, ids: set<OrderId>)
    requires e.Tick? && m <= n <= |turns| && Known(p.s, ids) && id !in turns[m..n]
    ensures Spared(AfterTurns(cfg, p, turns, e.envs, e.cancels, m).s, AfterTurns(cfg, p, turns, e.envs, e.cancels, n).s, id)
  {
    if m < n {
      var other := turns[n - 1];
      assert turns[m..n] == turns[m..n - 1] + [other];
      TurnsSpare(cfg, p, turns, e, m, n - 1, id, ids);
      TurnsAreKnown(cfg, p, turns, e, n - 1, ids);
      var r := AfterTurns(cfg, p, turns, e.envs, e.cancels, n - 1);
      var q := WithCancels(r, e.cancels(n - 1));
      WorkSpares(cfg, q, other, e.envs(other), id);
      SparedTwice(r.s, q.s, AfterWork(cfg, q, other, e.envs(other)).s, id);
      SparedTwice(AfterTurns(cfg, p, turns, e.envs, e.cancels, m).s, r.s, AfterWork(cfg, q, other, e.envs(other)).s, id);
    }
  }

  /** Some cancel of `id` is accepted before one of the turns from the `m`-th to the `n`-th. */
  ghost predicate CancelledBetween(e: Event, id: OrderId, m: nat, n: nat)
    requires e.Tick?
  {
    exists j: nat :: m <= j < n && id in e.cancels(j)
  }

  function Marked(o: Order, cancelled: bool): Order {
    if cancelled && Cancellable(o) then o.(status := Cancelled) else o
  }

  /** All that these turns do to such an order is to mark it if it is cancelled. */
  lemma {:induction false} TurnsMark(cfg: Config, p: Powered, turns: seq<OrderId>, e: Event, m: nat, n: nat,
                                     id: OrderId, ids: set<OrderId>)
    requires e.Tick? && m <= n <= |turns| && Known(p.s, ids) && id !in turns[m..n]
    requires id in AfterTurns(cfg, p, turns, e.envs, e.cancels, m).s.book
    ensures var q, r := AfterTurns(cfg, p, turns, e.envs, e.cancels, m).s, AfterTurns(cfg, p, turns, e.envs, e.cancels, n).s;
            id in r.book && r.book[id] == Marked(q.book[id], CancelledBetween(e, id, m, n))
  {
    if m < n {
      var other := turns[n - 1];
      assert turns[m..n] == turns[m..n - 1] + [other];
      TurnsMark(cfg, p, turns, e, m, n - 1, id, ids);
      OneMoreCancel(e, id, m, n);
    }
  }

  lemma OneMoreCancel(e: Event, id: OrderId, m: nat, n: nat)
    requires e.Tick? && m < n
    ensures CancelledBetween(e, id, m, n) <==> CancelledBetween(e, id, m, n - 1) || id in e.cancels(n - 1)
  {
    if id in e.cancels(n - 1) { assert m <= n - 1 < n; }
  }

  /** The turn of `id`, which came with order `o` and whatever status, leaves its outcome in memory. */
  lemma WorkEnds(cfg: Config, p: Powered, id: OrderId, env: Env, o: Order)
    requires id in p.s.book && SameButStatus(o, p.s.book[id])
    ensures AfterWork(cfg, p, id, env).s.book[id] == Ended(cfg, env, Judge(cfg, env, o, p.s.retries), o)
  {
    var c := p.s.book[id];
    JudgeIgnoresStatus(cfg, env, o, c.status, p.s.retries);
    RecordIgnoresStatus(cfg, env, Judge(cfg, env, o, p.s.retries), o, c.status);
  }

  /** The turn of `id`, which came with order `o` and whatever status: the verdict alone decides the call. */
  lemma WorkCalls(cfg: Config, p: Powered, id: OrderId, env: Env, o: Order)
    requires id in p.s.book && o.id == id && SameButStatus(o, p.s.book[id])
    ensures var v := Judge(cfg, env, o, p.s.retries);
            AfterWork(cfg, p, id, env).s.world.Calls(id) ==
            p.s.world.Calls(id) + if CalledBy(cfg, v, o, Reach(Effects(cfg, env, v, o), p.fuse)) then 1 else 0
  {
    var c := p.s.book[id];
    JudgeIgnoresStatus(cfg, env, o, c.status, p.s.retries);
    var v := Judge(cfg, env, o, p.s.retries);
    EffectsIgnoreStatus(cfg, env, v, o, c.status);
    StagedIgnoresStatus(cfg, Stage(v), o, c.status);
    TurnCalls(cfg, env, v, c, p.s.world, Reach(Effects(cfg, env, v, c), p.fuse));
  }

  lemma ClaimIsKnown(cfg: Config, s: State, now: real, ids: set<OrderId>)
    requires Known(s, ids)
    ensures Known(AfterClaim(cfg, s, now), ids)
  {
  }

  /** Each order is claimed once, and only if it is in the book. */
  lemma ClaimedOnce(cfg: Config, s: State, now: real, i: nat, ids: set<OrderId>)
    requires Known(s, ids) && i < |ClaimedIn(cfg, s, now)|
    ensures var turns := ClaimedIn(cfg, s, now);
            var id := turns[i];
            && id !in turns[0..i] && id !in turns[i + 1..|turns|]
            && id in s.book && s.book[id].id == id
            && id in AfterClaim(cfg, s, now).book && SameButStatus(s.book[id], AfterClaim(cfg, s, now).book[id])
  {
    var turns := ClaimedIn(cfg, s, now);
    ClaimedShape(cfg, s.arrival, ExpiredBook(s.book, now), now, MAX_SNAPSHOT);
    assert turns[i] in turns;
  }

  /** When its turn comes, a claimed order is as it was, but for its status. */
  lemma TurnComes(cfg: Config, s: State, e: Event, i: nat, ids: set<OrderId>)
    requires e.Tick? && Known(s, ids) && i < |ClaimedIn(cfg, s, e.now)|
    ensures var turns := ClaimedIn(cfg, s, e.now);
            var p := AfterTurns(cfg, Powered(AfterClaim(cfg, s, e.now), e.power), turns, e.envs, e.cancels, i);
            && turns[i] in s.book && turns[i] in p.s.book && s.book[turns[i]].id == turns[i]
            && SameButStatus(s.book[turns[i]], p.s.book[turns[i]])
            && p.s.world.Calls(turns[i]) == s.world.Calls(turns[i])
  {
    var turns, p0 := ClaimedIn(cfg, s, e.now), Powered(AfterClaim(cfg, s, e.now), e.power);
    ClaimedOnce(cfg, s, e.now, i, ids);
    ClaimIsKnown(cfg, s, e.now, ids);
    TurnsSpare(cfg, p0, turns, e, 0, i, turns[i], ids);
  }

  /** After its turn, nothing in the tick calls the relayer for an order again. */
  lemma TurnGone(cfg: Config, s: State, e: Event, i: nat, ids: set<OrderId>)
    requires e.Tick? && Known(s, ids) && i < |ClaimedIn(cfg, s, e.now)|
    ensures var turns := ClaimedIn(cfg, s, e.now);
            var p := AfterTurns(cfg, Powered(AfterClaim(cfg, s, e.now), e.power), turns, e.envs, e.cancels, i + 1);
            TickEnd(cfg, s, e).s.world.Calls(turns[i]) == p.s.world.Calls(turns[i])
  {
    var turns, p0 := ClaimedIn(cfg, s, e.now), Powered(AfterClaim(cfg, s, e.now), e.power);
    ClaimedOnce(cfg, s, e.now, i, ids);
    ClaimIsKnown(cfg, s, e.now, ids);
    TurnsSpare(cfg, p0, turns, e, i + 1, |turns|, turns[i], ids);
  }

  /**
    A claimed order reaches the relayer in its tick exactly if its verdict says so and power lasts,
    whoever cancels it after the snapshot, and whenever.
   */
  lemma ClaimedOrdersAreRelayed(cfg: Config, s: State, e: Event, i: nat, ids: set<OrderId>)
    requires e.Tick? && Known(s, ids) && i < |ClaimedIn(cfg, s, e.now)|
    ensures var turns := ClaimedIn(cfg, s, e.now);
            var p := AfterTurns(cfg, Powered(AfterClaim(cfg, s, e.now), e.power), turns, e.envs, e.cancels, i);
            var id, env := turns[i], e.envs(turns[i]);
            && id in s.book
            && var v := Judge(cfg, env, s.book[id], p.s.retries);
               TickEnd(cfg, s, e).s.world.Calls(id) == s.world.Calls(id) +
               if CalledBy(cfg, v, s.book[id], Reach(Effects(cfg, env, v, s.book[id]), p.fuse)) then 1 else 0
  {
    var turns, p0 := ClaimedIn(cfg, s, e.now), Powered(AfterClaim(cfg, s, e.now), e.power);
    var id := turns[i];
    TurnComes(cfg, s, e, i, ids);
    TurnGone(cfg, s, e, i, ids);
    var p := WithCancels(AfterTurns(cfg, p0, turns, e.envs, e.cancels, i), e.cancels(i));
    WorkCalls(cfg, p, id, e.envs(id), s.book[id]);
  }

  lemma TurnEnds(cfg: Config, s: State, e: Event, i: nat, ids: set<OrderId>)
    requires e.Tick? && Known(s, ids) && i < |ClaimedIn(cfg, s, e.now)|
    ensures var turns := ClaimedIn(cfg, s, e.now);
            var p0 := Powered(AfterClaim(cfg, s, e.now), e.power);
            var p, q := AfterTurns(cfg, p0, turns, e.envs, e.cancels, i), AfterTurns(cfg, p0, turns, e.envs, e.cancels, i + 1);
            var id, env := turns[i], e.envs(turns[i]);
            && id in s.book && id in q.s.book
            && q.s.book[id] == Ended(cfg, env, Judge(cfg, env, s.book[id], p.s.retries), s.book[id])
  {
    var turns, p0 := ClaimedIn(cfg, s, e.now), Powered(AfterClaim(cfg, s, e.now), e.power);
    TurnComes(cfg, s, e, i, ids);
    var p := WithCancels(AfterTurns(cfg, p0, turns, e.envs, e.cancels, i), e.cancels(i));
    WorkEnds(cfg, p, turns[i], e.envs(turns[i]), s.book[turns[i]]);
  }

  lemma AfterItsTurn(cfg: Config, s: State, e: Event, i: nat, ids: set<OrderId>)
    requires e.Tick? && Known(s, ids) && i < |ClaimedIn(cfg, s, e.now)|
    ensures var turns := ClaimedIn(cfg, s, e.now);
            var p0 := Powered(AfterClaim(cfg, s, e.now), e.power);
            var q := AfterTurns(cfg, p0, turns, e.envs, e.cancels, i + 1);
            turns[i] in q.s.book ==>
              && turns[i] in TickEnd(cfg, s, e).s.book
              && TickEnd(cfg, s, e).s.book[turns[i]] ==
                 Marked(q.s.book[turns[i]], CancelledBetween(e, turns[i], i + 1, |turns|))
  {
    var turns, p0 := ClaimedIn(cfg, s, e.now), Powered(AfterClaim(cfg, s, e.now), e.power);
    ClaimedOnce(cfg, s, e.now, i, ids);
    ClaimIsKnown(cfg, s, e.now, ids);
    if turns[i] in AfterTurns(cfg, p0, turns, e.envs, e.cancels, i + 1).s.book {
      TurnsMark(cfg, p0, turns, e, i + 1, |turns|, turns[i], ids);
    }
  }

  lemma MarkedIsOpen(o: Order, cancelled: bool)
    ensures Marked(o, cancelled).status.Open? <==> o.status.Open? && !cancelled
  {
  }

  /**
    A cancel of a claimed order that comes before its turn is undone by the turn, without any
    restart: the order ends the tick OPEN exactly if its turn reopens it (a deferred consensus, a
    perpetual that rests or has executions left) and nobody cancels it after its turn.
   */
  lemma TurnsUndoCancels(cfg: Config, s: State, e: Event, i: nat, ids: set<OrderId>)
    requires e.Tick? && Known(s, ids) && i < |ClaimedIn(cfg, s, e.now)|
    ensures var turns := ClaimedIn(cfg, s, e.now);
            var p := AfterTurns(cfg, Powered(AfterClaim(cfg, s, e.now), e.power), turns, e.envs, e.cancels, i);
            var id, env := turns[i], e.envs(turns[i]);
            && id in s.book
            && var ended := Ended(cfg, env, Judge(cfg, env, s.book[id], p.s.retries), s.book[id]);
               && id in TickEnd(cfg, s, e).s.book
               && TickEnd(cfg, s, e).s.book[id] == Marked(ended, CancelledBetween(e, id, i + 1, |turns|))
               && (OpenIn(TickEnd(cfg, s, e).s, id) <==>
                   ended.status.Open? && !CancelledBetween(e, id, i + 1, |turns|))
  {
    TurnEnds(cfg, s, e, i, ids);
    AfterItsTurn(cfg, s, e, i, ids);
    var turns := ClaimedIn(cfg, s, e.now);
    var p := AfterTurns(cfg, Powered(AfterClaim(cfg, s, e.now), e.power), turns, e.envs, e.cancels, i + 1);
    MarkedIsOpen(p.s.book[turns[i]], CancelledBetween(e, turns[i], i + 1, |turns|));
  }

  predicate OpenIn(s: State, id: OrderId) { id in s.book && s.book[id].status.Open? }

  // ---------------------------------------------------------------- cancels of unclaimed orders

  /** Cancelled in memory, or in neither memory nor the stored OPEN orders. */
  predicate Asleep(s: State, id: OrderId) {
    if id in s.book then s.book[id].status.Cancelled? else !StoredOpen(s.world, id)
  }

  lemma TickSpares(cfg: Config, s: State, e: Event, id: OrderId, ids: set<OrderId>)
    requires e.Tick? && Known(s, ids) && Asleep(s, id)
    ensures Spared(s, TickEnd(cfg, s, e).s, id) && Asleep(TickEnd(cfg, s, e).s, id)
    ensures Known(TickEnd(cfg, s, e).s, ids)
  {
    var turns, p := ClaimedIn(cfg, s, e.now), Powered(AfterClaim(cfg, s, e.now), e.power);
    ClaimedShape(cfg, s.arrival, ExpiredBook(s.book, e.now), e.now, MAX_SNAPSHOT);
    TurnsSpare(cfg, p, turns, e, 0, |turns|, id, ids);
    TurnsAreKnown(cfg, p, turns, e, |turns|, ids);
  }

  lemma RestartWakes(s: State, id: OrderId, ids: set<OrderId>)
    requires StoreKnown(s.world, ids)
    ensures var t := AfterRestart(s);
            && t.world == s.world
            && if StoredOpen(s.world, id) then OpenIn(t, id) else Asleep(t, id)
  {
    LoadAddsOpenOrders(State(map[], [], map[], s.world), id);
  }

  /** A cancelled order sleeps through every event, unless a restart finds its stored record OPEN. */
  lemma EventOnSleeper(cfg: Config, s: State, e: Event, id: OrderId, ids: set<OrderId>)
    requires Known(s, ids) && Asleep(s, id) && id in ids && (e.Submission? ==> e.order.id !in ids)
    ensures var t := AfterEvent(cfg, s, e);
            && t.world.Calls(id) == s.world.Calls(id)
            && (StoredOpen(t.world, id) <==> StoredOpen(s.world, id))
            && if StoredOpen(s.world, id) && Restarts(cfg, s, e) then OpenIn(t, id) else Asleep(t, id)
  {
    match e
    case Submission(o, _) =>
    case Tick(_, _, _, _) =>
      TickSpares(cfg, s, e, id, ids);
      if Dies(cfg, s, e) { RestartWakes(TickEnd(cfg, s, e).s, id, ids); }
    case Cancellation(_, _) =>
    case LeaderChange =>
      LoadAddsOpenOrders(s, id);
    case Restart =>
      RestartWakes(s, id, ids);
  }

  // ---------------------------------------------------------------- runs

  /** The state before the `i`-th event of a run. */
  function At(cfg: Config, events: seq<Event>, i: nat): State
    requires i <= |events|
  {
    RunFrom(cfg, FRESH, events[..i])
  }

  /** The event is an accepted cancel of an order that no tick is working on: between ticks, or of an unclaimed order. */
  ghost predicate Cancels(cfg: Config, s: State, e: Event, id: OrderId) {
    id in s.book &&
    match e
    case Cancellation(target, user) => target == id && Accepted(s.book, id, user)
    case Tick(now, _, _, _) =>
      && id !in ClaimedIn(cfg, s, now) && Cancellable(AfterExpiry(s.book[id], now))
      && CancelledBetween(e, id, 0, |ClaimedIn(cfg, s, now)|)
    case _ => false
  }

  /** The `c`-th event of a run cancels an order that is not being worked on, and its owner is told so. */
  ghost predicate CancelledAt(cfg: Config, events: seq<Event>, c: nat, id: OrderId) {
    UniqueIds(events) && c < |events| && Cancels(cfg, At(cfg, events, c), events[c], id)
  }

  /** Some event from the one with the cancel on, before the `n`-th, loses the memory of the process. */
  predicate RestartsBetween(cfg: Config, events: seq<Event>, c: nat, n: nat)
    requires n <= |events|
  {
    exists i :: c <= i < n && Restarts(cfg, At(cfg, events, i), events[i])
  }

  lemma CancelPutsToSleep(cfg: Config, s: State, e: Event, id: OrderId, ids: set<OrderId>)
    requires Known(s, ids) && Cancels(cfg, s, e, id)
    ensures var t := AfterEvent(cfg, s, e);
            && t.world.Calls(id) == s.world.Calls(id)
            && (StoredOpen(t.world, id) <==> StoredOpen(s.world, id))
            && if StoredOpen(s.world, id) && Restarts(cfg, s, e) then OpenIn(t, id) else Asleep(t, id)
  {
    if e.Tick? {
      CancelledInTick(cfg, s, e, id, ids);
      if Dies(cfg, s, e) { RestartWakes(TickEnd(cfg, s, e).s, id, ids); }
    }
  }

  lemma CancelledInTick(cfg: Config, s: State, e: Event, id: OrderId, ids: set<OrderId>)
    requires e.Tick? && Known(s, ids) && Cancels(cfg, s, e, id)
    ensures var t := TickEnd(cfg, s, e).s;
            && Known(t, ids) && Asleep(t, id) && t.world.Calls(id) == s.world.Calls(id)
            && (StoredOpen(t.world, id) <==> StoredOpen(s.world, id))
  {
    var turns, p := ClaimedIn(cfg, s, e.now), Powered(AfterClaim(cfg, s, e.now), e.power);
    ClaimIsKnown(cfg, s, e.now, ids);
    assert turns[0..|turns|] == turns && p.s.book[id] == AfterExpiry(s.book[id], e.now);
    TurnsMark(cfg, p, turns, e, 0, |turns|, id, ids);
    TurnsSpare(cfg, p, turns, e, 0, |turns|, id, ids);
    TurnsAreKnown(cfg, p, turns, e, |turns|, ids);
  }

  lemma NextState(cfg: Config, events: seq<Event>, i: nat)
    requires i < |events|
    ensures At(cfg, events, i + 1) == AfterEvent(cfg, At(cfg, events, i), events[i])
  {
    assert events[..i + 1][..i] == events[..i];
  }

  lemma {:induction false} OrdersStay(events: seq<Event>, i: nat, j: nat)
    requires i <= j <= |events|
    ensures OrdersOf(events[..i]).Keys <= OrdersOf(events[..j]).Keys
  {
    if i < j {
      OrdersStay(events, i, j - 1);
      assert events[..j][..j - 1] == events[..j - 1];
    }
  }

  /** One event of a run: calls and the stored record stay as they are, and only a restart can wake the order. */
  predicate Passes(cfg: Config, events: seq<Event>, id: OrderId, n: nat)
    requires n < |events|
  {
    var s, t := At(cfg, events, n), At(cfg, events, n + 1);
    && t.world.Calls(id) == s.world.Calls(id)
    && (StoredOpen(t.world, id) <==> StoredOpen(s.world, id))
    && if StoredOpen(s.world, id) && Restarts(cfg, s, events[n]) then OpenIn(t, id) else Asleep(t, id)
  }

  lemma SleeperStep(cfg: Config, events: seq<Event>, id: OrderId, n: nat)
    requires UniqueIds(events) && n < |events| && id in OrdersOf(events[..n]) && Asleep(At(cfg, events, n), id)
    ensures Passes(cfg, events, id, n)
  {
    NextState(cfg, events, n);
    RunIsKnown(cfg, events, n);
    EventOnSleeper(cfg, At(cfg, events, n), events[n], id, OrdersOf(events[..n]).Keys);
  }

  lemma CancelSleeps(cfg: Config, events: seq<Event>, c: nat, id: OrderId)
    requires CancelledAt(cfg, events, c, id)
    ensures Passes(cfg, events, id, c) && id in OrdersOf(events[..c + 1])
  {
    NextState(cfg, events, c);
    RunIsKnown(cfg, events, c);
    OrdersStay(events, c, c + 1);
    CancelPutsToSleep(cfg, At(cfg, events, c), events[c], id, OrdersOf(events[..c]).Keys);
  }

  lemma NoRestart(cfg: Config, events: seq<Event>, c: nat, n: nat)
    requires c < n <= |events| && !RestartsBetween(cfg, events, c, n)
    ensures !RestartsBetween(cfg, events, c, n - 1) && !Restarts(cfg, At(cfg, events, n - 1), events[n - 1])
    ensures !RestartsBetween(cfg, events, c + 1, n) && !Restarts(cfg, At(cfg, events, c), events[c])
  {
  }

  lemma {:induction false} StaysAsleep(cfg: Config, events: seq<Event>, m: nat, id: OrderId, n: nat)
    requires UniqueIds(events) && m <= n <= |events| && id in OrdersOf(events[..m]) && Asleep(At(cfg, events, m), id)
    requires !(StoredOpen(At(cfg, events, m).world, id) && RestartsBetween(cfg, events, m, n))
    ensures Asleep(At(cfg, events, n), id)
    ensures At(cfg, events, n).world.Calls(id) == At(cfg, events, m).world.Calls(id)
    ensures StoredOpen(At(cfg, events, n).world, id) <==> StoredOpen(At(cfg, events, m).world, id)
  {
    if m < n {
      if StoredOpen(At(cfg, events, m).world, id) { NoRestart(cfg, events, m, n); }
      StaysAsleep(cfg, events, m, id, n - 1);
      OrdersStay(events, m, n - 1);
      SleeperStep(cfg, events, id, n - 1);
    }
  }

  lemma SleepsUntil(cfg: Config, events: seq<Event>, c: nat, id: OrderId, n: nat)
    requires CancelledAt(cfg, events, c, id) && c < n <= |events|
    requires !(StoredOpen(At(cfg, events, c).world, id) && RestartsBetween(cfg, events, c, n))
    ensures Asleep(At(cfg, events, n), id) && id in OrdersOf(events[..n])
    ensures At(cfg, events, n).world.Calls(id) == At(cfg, events, c).world.Calls(id)
    ensures StoredOpen(At(cfg, events, n).world, id) <==> StoredOpen(At(cfg, events, c).world, id)
  {
    CancelSleeps(cfg, events, c, id);
    if StoredOpen(At(cfg, events, c).world, id) { NoRestart(cfg, events, c, n); }
    StaysAsleep(cfg, events, c + 1, id, n);
    OrdersStay(events, c + 1, n);
  }

  lemma {:induction false} FirstRestart(cfg: Config, events: seq<Event>, c: nat, n: nat) returns (m: nat)
    requires n <= |events| && RestartsBetween(cfg, events, c, n)
    ensures c <= m < n && Restarts(cfg, At(cfg, events, m), events[m]) && !RestartsBetween(cfg, events, c, m)
  {
    if RestartsBetween(cfg, events, c, n - 1) { m := FirstRestart(cfg, events, c, n - 1); } else { m := n - 1; }
  }

  /** Once a cancelled order's stored record is OPEN, the first restart brings the order back. */
  lemma WakesAt(cfg: Config, events: seq<Event>, c: nat, id: OrderId, m: nat)
    requires CancelledAt(cfg, events, c, id) && c <= m < |events|
    requires StoredOpen(At(cfg, events, c).world, id) && !RestartsBetween(cfg, events, c, m)
    requires Restarts(cfg, At(cfg, events, m), events[m])
    ensures OpenIn(At(cfg, events, m + 1), id)
  {
    if m == c {
      CancelSleeps(cfg, events, c, id);
    } else {
      SleepsUntil(cfg, events, c, id, m);
      SleeperStep(cfg, events, id, m);
    }
  }

  /**
    What the cancel of an order that is not being worked on is worth, between ticks or during one.
    In every run, the cancelled order becomes OPEN again exactly if its stored record was OPEN when
    it was cancelled and the process restarts later, or dies, be it in that very tick; otherwise
    the relayer is never called for it again.
   */
  lemma CancelledOrdersReturn(cfg: Config, events: seq<Event>, c: nat, id: OrderId)
    requires CancelledAt(cfg, events, c, id)
    ensures (exists n :: c < n <= |events| && OpenIn(At(cfg, events, n), id)) <==>
            StoredOpen(At(cfg, events, c).world, id) && RestartsBetween(cfg, events, c, |events|)
    ensures (forall n :: c < n <= |events| ==> !OpenIn(At(cfg, events, n), id)) ==>
              RunFrom(cfg, FRESH, events).world.Calls(id) == At(cfg, events, c).world.Calls(id)
  {
    assert events[..|events|] == events;
    if StoredOpen(At(cfg, events, c).world, id) && RestartsBetween(cfg, events, c, |events|) {
      var m := FirstRestart(cfg, events, c, |events|);
      WakesAt(cfg, events, c, id, m);
    } else {
      forall n | c < n <= |events| ensures !OpenIn(At(cfg, events, n), id) {
        SleepsUntil(cfg, events, c, id, n);
      }
      SleepsUntil(cfg, events, c, id, |events|);
    }
  }
}
