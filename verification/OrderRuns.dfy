/**
  Whole runs of the block loop, as a fold over events: orders arrive, ticks run and lose power
  at any effect, users cancel, leaders change and processes restart.
 */
module OrderRuns {
  import opened Wrappers
  import opened OrderPass
  import opened OrderSafety
  import Retry = ConsensusRetry

  const MAX_SNAPSHOT: nat := 50

  datatype Event =
    | Submission(order: Order, saved: bool)
    // `cancels(i)` are accepted between the snapshot and the tick's i-th turn. Power for `power`
    // more durable effects is left; when it runs out the process restarts.
    | Tick(now: real, envs: OrderId -> Env, cancels: nat -> set<OrderId>, power: nat)
    | Cancellation(id: OrderId, user: string)   // the user in lower case
    | LeaderChange
    | Restart

  /** Book, arrival order and retry table are lost with the process; the world is durable. */
  datatype State = State(
    book: map<OrderId, Order>,
    arrival: seq<OrderId>,
    retries: Retry.Table,
    world: World)

  const FRESH: State := State(map[], [], map[], World(map[], map[], [], 0, 0, 0, 0))

  // ---------------------------------------------------------------- the book

  /** A new order is OPEN, has filled nothing, and executes once unless it is perpetual. */
  function NewOrder(o: Order): Order {
    o.(status := Open, executionCount := 0, lastFilledAt := 0.0,
       maxExecutions := if o.perpetual then o.maxExecutions else 1)
  }

  predicate InCooldown(cfg: Config, o: Order, now: real) {
    o.perpetual && o.lastFilledAt > 0.0 &&
    now - o.lastFilledAt < if o.cooldown < cfg.minInterval then cfg.minInterval else o.cooldown
  }

  predicate Eligible(cfg: Config, o: Order, now: real) { o.status.Open? && !InCooldown(cfg, o, now) }

  predicate Stale(o: Order, now: real) {
    o.deadline > 0.0 && now > o.deadline && (o.status.Open? || o.status.Assigned?)
  }

  function AfterExpiry(o: Order, now: real): Order { if Stale(o, now) then o.(status := Expired) else o }

  function ExpiredBook(book: map<OrderId, Order>, now: real): map<OrderId, Order> {
    map id | id in book :: AfterExpiry(book[id], now)
  }

  /** The ids a snapshot claims: the first eligible ones, in arrival order. */
  function Claimed(cfg: Config, arrival: seq<OrderId>, book: map<OrderId, Order>, now: real, max: nat): seq<OrderId> {
    if arrival == [] || max == 0 then []
    else if arrival[0] in book && Eligible(cfg, book[arrival[0]], now) then
      [arrival[0]] + Claimed(cfg, arrival[1..], book, now, max - 1)
    else Claimed(cfg, arrival[1..], book, now, max)
  }

  function MarkedBook(book: map<OrderId, Order>, ids: seq<OrderId>): map<OrderId, Order> {
    map id | id in book :: if id in ids then book[id].(status := Assigned) else book[id]
  }

  predicate Cancellable(o: Order) { o.status.Open? || o.status.Assigned? }

  function CancelledBook(book: map<OrderId, Order>, ids: set<OrderId>): map<OrderId, Order> {
    map id | id in book :: if id in ids && Cancellable(book[id]) then book[id].(status := Cancelled) else book[id]
  }

  /** The owner's cancel of an open or assigned order. */
  predicate Accepted(book: map<OrderId, Order>, id: OrderId, user: string) {
    id in book && book[id].owner == user && Cancellable(book[id])
  }

  /** Stored OPEN orders, row by row, join the book unless it knows them. */
  function Loaded(s: State, n: nat): State
    requires n <= |s.world.rows|
  {
    if n == 0 then s
    else
      var t, id := Loaded(s, n - 1), s.world.rows[n - 1];
      if StoredOpen(s.world, id) && id !in t.book
      then t.(book := t.book[id := s.world.store[id]], arrival := t.arrival + [id]) else t
  }

  function AfterLoad(s: State): State {
    Loaded(s, |s.world.rows|)
  }

  /** Power is lost: memory is gone, and the next process loads what the store calls OPEN. */
  function AfterRestart(s: State): State {
    AfterLoad(State(map[], [], map[], s.world))
  }

  // ---------------------------------------------------------------- ticks

  /** A state within a tick. Without power, code runs on but changes nothing durable. */
  datatype Powered = Powered(s: State, fuse: nat)

  function Reach(fx: seq<Effect>, fuse: nat): nat {
    if |fx| <= fuse then |fx| else fuse
  }

  /** The turn of one order. */
  function AfterWork(cfg: Config, p: Powered, id: OrderId, env: Env): Powered {
    if id !in p.s.book then p
    else
      var o := p.s.book[id];
      var v := Judge(cfg, env, o, p.s.retries);
      var fx := Effects(cfg, env, v, o);
      var k := Reach(fx, p.fuse);
      Powered(State(p.s.book[id := Ended(cfg, env, v, o)], p.s.arrival,
                    TableAfterPass(cfg, v, env, o, p.s.retries),
                    Play(p.s.world, fx, env.lost, k)),
              p.fuse - k)
  }

  function WithCancels(p: Powered, ids: set<OrderId>): Powered {
    p.(s := p.s.(book := CancelledBook(p.s.book, ids)))
  }

  /** After the first `n` turns of a tick. */
  function AfterTurns(cfg: Config, p: Powered, ids: seq<OrderId>, envs: OrderId -> Env,
                      cancels: nat -> set<OrderId>, n: nat): Powered
    requires n <= |ids|
  {
    if n == 0 then p
    else
      var before := AfterTurns(cfg, p, ids, envs, cancels, n - 1);
      AfterWork(cfg, WithCancels(before, cancels(n - 1)), ids[n - 1], envs(ids[n - 1]))
  }

  function ClaimedIn(cfg: Config, s: State, now: real): seq<OrderId> {
    Claimed(cfg, s.arrival, ExpiredBook(s.book, now), now, MAX_SNAPSHOT)
  }

  function AfterClaim(cfg: Config, s: State, now: real): State {
    s.(book := MarkedBook(ExpiredBook(s.book, now), ClaimedIn(cfg, s, now)))
  }

  function TickEnd(cfg: Config, s: State, e: Event): Powered
    requires e.Tick?
  {
    var ids := ClaimedIn(cfg, s, e.now);
    AfterTurns(cfg, Powered(AfterClaim(cfg, s, e.now), e.power), ids, e.envs, e.cancels, |ids|)
  }

  /** Power is lost within this event. */
  predicate Dies(cfg: Config, s: State, e: Event) {
    e.Tick? && TickEnd(cfg, s, e).fuse == 0
  }

  /** This event ends with an empty memory and a load from the store. */
  predicate Restarts(cfg: Config, s: State, e: Event) {
    e.Restart? || Dies(cfg, s, e)
  }

  function AfterEvent(cfg: Config, s: State, e: Event): State {
    match e
    case Submission(o, saved) =>
      var order := NewOrder(o);
      State(s.book[o.id := order], s.arrival + [o.id], s.retries,
            if saved then Apply(s.world, Save(order)) else s.world)
    case Tick(_, _, _, _) =>
      var p := TickEnd(cfg, s, e);
      if p.fuse == 0 then AfterRestart(p.s) else p.s
    case Cancellation(id, user) => if Accepted(s.book, id, user) then s.(book := CancelledBook(s.book, {id})) else s
    case LeaderChange => AfterLoad(s)
    case Restart => AfterRestart(s)
  }

  function RunFrom(cfg: Config, s: State, events: seq<Event>): State {
    if events == [] then s
    else AfterEvent(cfg, RunFrom(cfg, s, events[..|events| - 1]), events[|events| - 1])
  }

  // ---------------------------------------------------------------- well-formed states

  predicate Distinct(ids: seq<OrderId>) {
    forall i, j :: 0 <= i < j < |ids| ==> ids[i] != ids[j]
  }

  lemma Appended(ids: seq<OrderId>, id: OrderId)
    requires Distinct(ids) && id !in ids
    ensures Distinct(ids + [id])
    ensures forall other :: other in ids + [id] <==> other in ids || other == id
  {
  }

  /** The book's orders are found under their own ids, in some order of arrival. */
  ghost predicate Formed(s: State) {
    && Distinct(s.arrival)
    && (forall id :: id in s.arrival <==> id in s.book)
    && (forall id :: id in s.book ==> s.book[id].id == id)
  }

  /** Every order in memory is a submitted one. */
  ghost predicate BookTerms(s: State, terms: map<OrderId, Order>) {
    && Formed(s)
    && forall id :: id in s.book ==> id in terms && SameTerms(s.book[id], terms[id])
  }

  /** An OPEN order in memory keeps to the rule. */
  predicate BookBy(rule: Rule, s: State) {
    forall id :: id in s.book && s.book[id].status.Open? ==> rule.ok(s.book[id], s.world.Calls(id))
  }

  ghost predicate SoundBy(rule: Rule, s: State, terms: map<OrderId, Order>) {
    BookTerms(s, terms) && BookBy(rule, s) && SafeBy(rule, s.world, terms)
  }

  /** Every OPEN order, in memory or in the store, counts all its relayer calls and has one left. */
  ghost predicate Sound(s: State, terms: map<OrderId, Order>) {
    SoundBy(Counting(), s, terms)
  }

  lemma {:induction false} LoadedShape(s: State, n: nat)
    requires n <= |s.world.rows| && Formed(s)
    requires forall id :: id in s.world.store ==> s.world.store[id].id == id
    ensures var t := Loaded(s, n);
            && Formed(t) && t.retries == s.retries && t.world == s.world
            && (forall id :: id in s.book ==> id in t.book && t.book[id] == s.book[id])
            && (forall id :: id in t.book && id !in s.book ==>
                 StoredOpen(s.world, id) && t.book[id] == s.world.store[id])
            && (forall id :: id in s.world.rows[..n] && StoredOpen(s.world, id) ==> id in t.book)
  {
    if n > 0 {
      LoadedShape(s, n - 1);
      var t, id := Loaded(s, n - 1), s.world.rows[n - 1];
      if id !in t.book {
        Appended(t.arrival, id);
      }
      assert s.world.rows[..n] == s.world.rows[..n - 1] + [id];
    }
  }

  /** A load adds exactly the stored OPEN orders the book does not know. */
  lemma LoadAddsOpenOrders(s: State, id: OrderId)
    requires Formed(s) && forall other :: other in s.world.store ==> s.world.store[other].id == other
    requires forall other :: other in s.world.rows <==> other in s.world.store
    ensures var t := AfterLoad(s);
            && Formed(t) && t.retries == s.retries && t.world == s.world
            && (id in t.book <==> id in s.book || StoredOpen(s.world, id))
            && (id in t.book ==> t.book[id] == if id in s.book then s.book[id] else s.world.store[id])
  {
    LoadedShape(s, |s.world.rows|);
    assert s.world.rows[..|s.world.rows|] == s.world.rows;
  }

  lemma LoadIsSound(rule: Rule, s: State, terms: map<OrderId, Order>)
    requires BookTerms(s, terms) && SafeBy(rule, s.world, terms)
    ensures BookTerms(AfterLoad(s), terms) && (BookBy(rule, s) ==> SoundBy(rule, AfterLoad(s), terms))
    ensures AfterLoad(s).world == s.world
  {
    LoadedShape(s, |s.world.rows|);
  }

  lemma RestartIsSoundBy(rule: Rule, s: State, terms: map<OrderId, Order>)
    requires SafeBy(rule, s.world, terms)
    ensures SoundBy(rule, AfterRestart(s), terms) && AfterRestart(s).world == s.world
  {
    LoadIsSound(rule, State(map[], [], map[], s.world), terms);
  }

  /** After a restart exactly the stored OPEN orders are in memory, and all is sound again. */
  lemma RestartIsSound(s: State, terms: map<OrderId, Order>)
    requires Safe(s.world, terms)
    ensures Sound(AfterRestart(s), terms) && AfterRestart(s).world == s.world
    ensures forall id :: id in AfterRestart(s).book <==> StoredOpen(s.world, id)
    ensures forall id :: id in AfterRestart(s).book ==> id in s.world.store && AfterRestart(s).book[id] == s.world.store[id]
  {
    RestartIsSoundBy(Counting(), s, terms);
    forall id ensures id in AfterRestart(s).book <==> StoredOpen(s.world, id)
      ensures id in AfterRestart(s).book ==> id in s.world.store && AfterRestart(s).book[id] == s.world.store[id]
    {
      LoadAddsOpenOrders(State(map[], [], map[], s.world), id);
    }
  }

  // ---------------------------------------------------------------- ids

  /** All records, in memory and in the store, are found under their ids, which are among `ids`. */
  ghost predicate Known(s: State, ids: set<OrderId>) {
    && Formed(s) && s.book.Keys <= ids && StoreKnown(s.world, ids)
  }

  ghost predicate StoreKnown(w: World, ids: set<OrderId>) {
    && w.store.Keys <= ids && (forall id :: id in w.store ==> w.store[id].id == id)
    && forall id :: id in w.rows <==> id in w.store
  }

  lemma EffectsSaveOneOrder(cfg: Config, env: Env, v: Verdict, o: Order)
    ensures forall e :: e in Effects(cfg, env, v, o) && e.Save? ==> e.order.id == o.id
  {
    FinalTerms(v, o, env.now);
  }

  lemma {:induction false} PlayKnown(w: World, fx: seq<Effect>, lost: set<nat>, k: nat, ids: set<OrderId>)
    requires k <= |fx| && StoreKnown(w, ids) && forall e :: e in fx && e.Save? ==> e.order.id in ids
    ensures StoreKnown(Play(w, fx, lost, k), ids)
  {
    if k > 0 {
      PlayKnown(w, fx, lost, k - 1, ids);
      assert fx[k - 1] in fx;
    }
  }

  lemma WorkIsKnown(cfg: Config, p: Powered, id: OrderId, env: Env, ids: set<OrderId>)
    requires Known(p.s, ids)
    ensures Known(AfterWork(cfg, p, id, env).s, ids) && AfterWork(cfg, p, id, env).s.book.Keys == p.s.book.Keys
  {
    if id in p.s.book {
      var o := p.s.book[id];
      var v := Judge(cfg, env, o, p.s.retries);
      EffectsSaveOneOrder(cfg, env, v, o);
      PlayKnown(p.s.world, Effects(cfg, env, v, o), env.lost, Reach(Effects(cfg, env, v, o), p.fuse), ids);
      FinalTerms(v, o, env.now);
    }
  }

  lemma {:induction false} TurnsAreKnown(cfg: Config, p: Powered, turns: seq<OrderId>, e: Event, n: nat, ids: set<OrderId>)
    requires e.Tick? && n <= |turns| && Known(p.s, ids)
    ensures Known(AfterTurns(cfg, p, turns, e.envs, e.cancels, n).s, ids)
    ensures AfterTurns(cfg, p, turns, e.envs, e.cancels, n).s.book.Keys == p.s.book.Keys
  {
    if n > 0 {
      TurnsAreKnown(cfg, p, turns, e, n - 1, ids);
      var q := AfterTurns(cfg, p, turns, e.envs, e.cancels, n - 1);
      WorkIsKnown(cfg, WithCancels(q, e.cancels(n - 1)), turns[n - 1], e.envs(turns[n - 1]), ids);
    }
  }

  lemma LoadIsKnown(s: State, ids: set<OrderId>)
    requires Known(s, ids)
    ensures Known(AfterLoad(s), ids)
  {
    LoadedShape(s, |s.world.rows|);
  }

  /** Whatever happens, the book stays well-formed, as long as new orders have new ids. */
  lemma EventIsKnown(cfg: Config, s: State, e: Event, ids: set<OrderId>)
    requires Known(s, ids) && (e.Submission? ==> e.order.id !in ids)
    ensures Known(AfterEvent(cfg, s, e), if e.Submission? then ids + {e.order.id} else ids)
  {
    match e
    case Submission(o, _) =>
      Appended(s.arrival, o.id);
    case Tick(now, _, _, power) =>
      var turns := ClaimedIn(cfg, s, now);
      TurnsAreKnown(cfg, Powered(AfterClaim(cfg, s, now), power), turns, e, |turns|, ids);
      LoadIsKnown(State(map[], [], map[], TickEnd(cfg, s, e).s.world), ids);
    case Cancellation(_, _) =>
    case LeaderChange =>
      LoadIsKnown(s, ids);
    case Restart =>
      LoadIsKnown(State(map[], [], map[], s.world), ids);
  }

  // ---------------------------------------------------------------- what every event keeps

  lemma {:induction false} ClaimedShape(cfg: Config, arrival: seq<OrderId>, book: map<OrderId, Order>, now: real, max: nat)
    requires Distinct(arrival)
    ensures Distinct(Claimed(cfg, arrival, book, now, max)) && |Claimed(cfg, arrival, book, now, max)| <= max
    ensures forall id :: id in Claimed(cfg, arrival, book, now, max) ==>
              id in arrival && id in book && Eligible(cfg, book[id], now)
  {
    if arrival != [] && max > 0 {
      ClaimedShape(cfg, arrival[1..], book, now, max - 1);
      ClaimedShape(cfg, arrival[1..], book, now, max);
    }
  }

  /** Whatever the outside answers in time, the order's turn keeps to the rule. */
  ghost predicate Promised(cfg: Config, rule: Rule, o: Order, c: int) {
    forall env, table :: EndsWell(env) && rule.timely(env) ==> Allowed(rule, Judge(cfg, env, o, table), o, env.now, c)
  }

  /** A claimed order, with the status that a snapshot gives it. */
  function Assign(o: Order): Order { o.(status := Assigned) }

  /** Orders that keep to the rule and are claimed now promise to go on keeping to it. */
  ghost predicate Lawful(cfg: Config, rule: Rule, now: real) {
    forall o, c {:trigger rule.ok(o, c)} ::
      rule.ok(o, c) && c <= Cap(o) && Eligible(cfg, o, now) && !Stale(o, now) ==> Promised(cfg, rule, Assign(o), c)
  }

  /** Between two turns: with power left, memory is right and the orders still waiting keep to the rule. */
  ghost predicate Ticking(cfg: Config, rule: Rule, p: Powered, ids: seq<OrderId>, terms: map<OrderId, Order>) {
    && BookTerms(p.s, terms) && SafeBy(rule, p.s.world, terms)
    && (forall id :: id in ids ==> id in p.s.book)
    && (p.fuse > 0 ==>
         && BookBy(rule, p.s)
         && forall id :: id in ids ==>
              !p.s.book[id].status.Open? && Promised(cfg, rule, Assign(p.s.book[id]), p.s.world.Calls(id)))
  }

  lemma CancelsKeepTicking(cfg: Config, rule: Rule, p: Powered, ids: seq<OrderId>, terms: map<OrderId, Order>,
                           cancels: set<OrderId>)
    requires Ticking(cfg, rule, p, ids, terms)
    ensures Ticking(cfg, rule, WithCancels(p, cancels), ids, terms)
  {
    var q := WithCancels(p, cancels);
    assert forall id :: id in p.s.book ==> Assign(q.s.book[id]) == Assign(p.s.book[id]);
  }

  /** What an event must satisfy: legs end closed, and some save of every turn lands before it relays. */
  ghost predicate Fair(cfg: Config, e: Event) {
    e.Tick? ==> forall id :: EndsWell(e.envs(id)) && Anchored(cfg, e.envs(id))
  }

  ghost predicate Timely(rule: Rule, e: Event) {
    e.Tick? ==> forall id :: rule.timely(e.envs(id))
  }

  predicate EndsWell(env: Env) {
    match env.plan
    case MultiLeg(compiles, ends) => compiles && !env.fault.AtLegs? ==> Delegable(ends)
    case CrossChain(ends) => !env.fault.AtBridge? ==> Delegable(ends)
    case _ => true
  }

  lemma EndsWellIsClosed(cfg: Config, env: Env, o: Order, table: Retry.Table)
    requires EndsWell(env)
    ensures EndsClosed(Judge(cfg, env, o, table))
  {
  }

  lemma EndedTerms(cfg: Config, env: Env, v: Verdict, o: Order)
    ensures SameTerms(Ended(cfg, env, v, o), o)
  {
    FinalTerms(v, o, env.now);
  }

  /** An order keeps its promise whatever its status has become. */
  lemma PromiseHolds(cfg: Config, rule: Rule, env: Env, o: Order, table: Retry.Table, c: int)
    requires Promised(cfg, rule, Assign(o), c) && EndsWell(env) && rule.timely(env)
    ensures Allowed(rule, Judge(cfg, env, o, table), o, env.now, c)
  {
    JudgeIgnoresStatus(cfg, env, o, Assigned, table);
    ClosingIgnoresStatus(Judge(cfg, env, o, table), o, Assigned, env.now);
    assert Allowed(rule, Judge(cfg, env, Assign(o), table), Assign(o), env.now, c);
  }

  /** Putting one order's outcome into a ticking state keeps it ticking for the others. */
  lemma TurnTaken(cfg: Config, rule: Rule, p: Powered, id: OrderId, rest: seq<OrderId>, terms: map<OrderId, Order>,
                  q: Powered, o: Order, more: nat)
    requires Ticking(cfg, rule, p, [id] + rest, terms) && id !in rest
    requires q.s.book == p.s.book[id := o] && q.s.arrival == p.s.arrival
    requires o.id == id && SameTerms(o, terms[id]) && SafeBy(rule, q.s.world, terms)
    requires q.fuse > 0 ==> p.fuse > 0 && SameCalls(p.s.world, q.s.world, id, more)
                            && (o.status.Open? ==> rule.ok(o, q.s.world.Calls(id)))
    ensures Ticking(cfg, rule, q, rest, terms)
  {
    assert id in [id] + rest;
    assert forall other :: other in rest ==> other in [id] + rest;
  }

  lemma WorkIsSound(cfg: Config, rule: Rule, p: Powered, id: OrderId, rest: seq<OrderId>, env: Env, terms: map<OrderId, Order>)
    requires Ticking(cfg, rule, p, [id] + rest, terms) && id !in rest
    requires EndsWell(env) && rule.timely(env) && Anchored(cfg, env)
    ensures Ticking(cfg, rule, AfterWork(cfg, p, id, env), rest, terms)
  {
    assert id in [id] + rest;
    var o := p.s.book[id];
    var v := Judge(cfg, env, o, p.s.retries);
    var k := Reach(Effects(cfg, env, v, o), p.fuse);
    EndedTerms(cfg, env, v, o);
    if p.fuse > 0 {
      PromiseHolds(cfg, rule, env, o, p.s.retries, p.s.world.Calls(id));
      PassSafeBy(rule, cfg, env, v, o, p.s.world, terms, k);
    }
    TurnTaken(cfg, rule, p, id, rest, terms, AfterWork(cfg, p, id, env), Ended(cfg, env, v, o),
              if CalledBy(cfg, v, o, k) then 1 else 0);
  }

  /** The turns of a tick, one by one. */
  lemma {:induction false} TurnsAreSound(cfg: Config, rule: Rule, p: Powered, ids: seq<OrderId>, e: Event, n: nat,
                                         terms: map<OrderId, Order>)
    requires e.Tick? && Fair(cfg, e) && Timely(rule, e) && Distinct(ids) && n <= |ids|
    requires Ticking(cfg, rule, p, ids, terms)
    ensures Ticking(cfg, rule, AfterTurns(cfg, p, ids, e.envs, e.cancels, n), ids[n..], terms)
  {
    if n > 0 {
      TurnsAreSound(cfg, rule, p, ids, e, n - 1, terms);
      var q := AfterTurns(cfg, p, ids, e.envs, e.cancels, n - 1);
      var id, rest := ids[n - 1], ids[n..];
      assert ids[n - 1..] == [id] + rest;
      CancelsKeepTicking(cfg, rule, q, [id] + rest, terms, e.cancels(n - 1));
      WorkIsSound(cfg, rule, WithCancels(q, e.cancels(n - 1)), id, rest, e.envs(id), terms);
    } else {
      assert ids[0..] == ids;
    }
  }

  lemma ClaimIsSound(cfg: Config, rule: Rule, s: State, now: real, power: nat, terms: map<OrderId, Order>)
    requires SoundBy(rule, s, terms) && Lawful(cfg, rule, now)
    ensures var ids := ClaimedIn(cfg, s, now);
            Distinct(ids) && Ticking(cfg, rule, Powered(AfterClaim(cfg, s, now), power), ids, terms)
  {
    var book, ids := ExpiredBook(s.book, now), ClaimedIn(cfg, s, now);
    ClaimedShape(cfg, s.arrival, book, now, MAX_SNAPSHOT);
    var t := AfterClaim(cfg, s, now);
    forall id | id in t.book
      ensures id in s.book && SameTerms(t.book[id], s.book[id])
      ensures t.book[id].status.Open? ==> t.book[id] == s.book[id]
      ensures id in ids ==> t.book[id] == Assign(s.book[id]) && Promised(cfg, rule, t.book[id], s.world.Calls(id))
    {
      if id in ids { ClaimIsPromised(cfg, rule, s, now, terms, id); }
    }
    PromisedAlike(cfg, rule, s, t, ids, terms, power);
  }

  lemma ClaimIsPromised(cfg: Config, rule: Rule, s: State, now: real, terms: map<OrderId, Order>, id: OrderId)
    requires SoundBy(rule, s, terms) && Lawful(cfg, rule, now)
    requires id in s.book && Eligible(cfg, AfterExpiry(s.book[id], now), now)
    ensures AfterExpiry(s.book[id], now) == s.book[id]
    ensures Promised(cfg, rule, Assign(s.book[id]), s.world.Calls(id))
  {
    assert rule.ok(s.book[id], s.world.Calls(id));
  }

  /** Only the status of orders changed, and none was opened. */
  lemma PromisedAlike(cfg: Config, rule: Rule, s: State, t: State, ids: seq<OrderId>, terms: map<OrderId, Order>, power: nat)
    requires SoundBy(rule, s, terms) && t == s.(book := t.book) && t.book.Keys == s.book.Keys
    requires forall id :: id in t.book ==>
               && id in s.book && SameTerms(t.book[id], s.book[id])
               && (t.book[id].status.Open? ==> t.book[id] == s.book[id])
               && (id in ids ==> t.book[id] == Assign(s.book[id]) && Promised(cfg, rule, t.book[id], s.world.Calls(id)))
    requires forall id :: id in ids ==> id in t.book
    ensures Ticking(cfg, rule, Powered(t, power), ids, terms)
  {
    forall id | id in ids ensures !t.book[id].status.Open? && Promised(cfg, rule, Assign(t.book[id]), t.world.Calls(id)) {
      assert Assign(t.book[id]) == t.book[id];
    }
  }

  lemma NewTermsAreSafe(rule: Rule, w: World, order: Order, saved: bool, terms: map<OrderId, Order>)
    requires SafeBy(rule, w, terms) && order.id !in terms && rule.ok(order, 0)
    ensures w.Calls(order.id) == 0
    ensures SafeBy(rule, if saved then Apply(w, Save(order)) else w, terms[order.id := order])
  {
    assert order.id !in w.store && order.id !in w.calls;
    assert forall id :: Apply(w, Save(order)).Calls(id) == w.Calls(id);
  }

  lemma NewOrderIsSound(rule: Rule, s: State, order: Order, saved: bool, terms: map<OrderId, Order>)
    requires SoundBy(rule, s, terms) && order.id !in terms && rule.ok(order, 0)
    ensures SoundBy(rule, State(s.book[order.id := order], s.arrival + [order.id], s.retries,
                                if saved then Apply(s.world, Save(order)) else s.world),
                    terms[order.id := order])
  {
    NewTermsAreSafe(rule, s.world, order, saved, terms);
    var t := State(s.book[order.id := order], s.arrival + [order.id], s.retries,
                   if saved then Apply(s.world, Save(order)) else s.world);
    assert Formed(t) by { Appended(s.arrival, order.id); }
    forall id | id in t.book ensures id in terms[order.id := order] && SameTerms(t.book[id], terms[order.id := order][id]) {
      assert id != order.id ==> id in s.book;
    }
    forall id | id in t.book && t.book[id].status.Open? ensures rule.ok(t.book[id], t.world.Calls(id)) {
      assert t.world.Calls(id) == s.world.Calls(id);
    }
  }

  /** The terms of every order submitted so far. */
  function TermsAfter(terms: map<OrderId, Order>, e: Event): map<OrderId, Order> {
    if e.Submission? then terms[e.order.id := NewOrder(e.order)] else terms
  }

  /** What a rule must say for an event to keep it. */
  ghost predicate Keeps(cfg: Config, rule: Rule, e: Event) {
    && Fair(cfg, e) && Timely(rule, e)
    && (e.Tick? ==> Lawful(cfg, rule, e.now)) && (e.Submission? ==> rule.ok(NewOrder(e.order), 0))
  }

  lemma EventKeepsRule(cfg: Config, rule: Rule, s: State, e: Event, terms: map<OrderId, Order>)
    requires SoundBy(rule, s, terms) && Keeps(cfg, rule, e)
    requires e.Submission? ==> e.order.id !in terms
    ensures SoundBy(rule, AfterEvent(cfg, s, e), TermsAfter(terms, e))
  {
    match e
    case Submission(o, saved) =>
      NewOrderIsSound(rule, s, NewOrder(o), saved, terms);
    case Tick(now, _, _, power) =>
      var ids := ClaimedIn(cfg, s, now);
      ClaimIsSound(cfg, rule, s, now, power, terms);
      TurnsAreSound(cfg, rule, Powered(AfterClaim(cfg, s, now), power), ids, e, |ids|, terms);
      var p := TickEnd(cfg, s, e);
      if p.fuse == 0 { RestartIsSoundBy(rule, p.s, terms); }
    case Cancellation(id, user) =>
    case LeaderChange =>
      LoadIsSound(rule, s, terms);
    case Restart =>
      RestartIsSoundBy(rule, s, terms);
  }

  lemma CountingIsLawful(cfg: Config, now: real)
    ensures Lawful(cfg, Counting(), now)
  {
    forall o, c | Counting().ok(o, c) ensures Promised(cfg, Counting(), Assign(o), c) {
      forall env, table | EndsWell(env) ensures Allowed(Counting(), Judge(cfg, env, Assign(o), table), Assign(o), env.now, c) {
        EndsWellIsClosed(cfg, env, Assign(o), table);
        assert Ready(Assign(o), c);
        CountingAllows(Judge(cfg, env, Assign(o), table), Assign(o), env.now, c);
      }
    }
  }

  /** Every fair event keeps the books right. */
  lemma EventIsSound(cfg: Config, s: State, e: Event, terms: map<OrderId, Order>)
    requires Sound(s, terms) && Fair(cfg, e)
    requires e.Submission? ==> e.order.id !in terms
    ensures Sound(AfterEvent(cfg, s, e), TermsAfter(terms, e))
  {
    if e.Tick? { CountingIsLawful(cfg, e.now); }
    EventKeepsRule(cfg, Counting(), s, e, terms);
  }

  // ---------------------------------------------------------------- accounts

  /** Fills are recorded, or raised when recorded, except for `open` ones cut off by a crash. */
  predicate Balanced(w: World, open: nat) {
    w.successes + w.unrecorded <= w.fills <= w.successes + w.unrecorded + open
  }

  lemma WorkIsBalanced(cfg: Config, p: Powered, id: OrderId, env: Env, open: nat)
    requires Balanced(p.s.world, if p.fuse > 0 then open else open + 1)
    ensures var q := AfterWork(cfg, p, id, env); Balanced(q.s.world, if q.fuse > 0 then open else open + 1)
  {
    if id in p.s.book && p.fuse > 0 {
      var o := p.s.book[id];
      var fx := Effects(cfg, env, Judge(cfg, env, o, p.s.retries), o);
      PassAccounted(cfg, env, o, p.s.retries, p.s.world, Reach(fx, p.fuse));
    }
  }

  lemma {:induction false} TurnsAreBalanced(cfg: Config, p: Powered, ids: seq<OrderId>, e: Event, n: nat, open: nat)
    requires e.Tick? && n <= |ids| && Balanced(p.s.world, if p.fuse > 0 then open else open + 1)
    ensures var q := AfterTurns(cfg, p, ids, e.envs, e.cancels, n);
            Balanced(q.s.world, if q.fuse > 0 then open else open + 1)
  {
    if n > 0 {
      TurnsAreBalanced(cfg, p, ids, e, n - 1, open);
      var q := AfterTurns(cfg, p, ids, e.envs, e.cancels, n - 1);
      WorkIsBalanced(cfg, WithCancels(q, e.cancels(n - 1)), ids[n - 1], e.envs(ids[n - 1]), open);
    }
  }

  lemma {:induction false} LoadKeepsWorld(s: State, n: nat)
    requires n <= |s.world.rows|
    ensures Loaded(s, n).world == s.world && Loaded(s, n).retries == s.retries
  {
    if n > 0 { LoadKeepsWorld(s, n - 1); }
  }

  /** Any event, from any state, leaves at most one more fill open, and only if power is lost in it. */
  lemma EventIsBalanced(cfg: Config, s: State, e: Event, open: nat)
    requires Balanced(s.world, open)
    ensures Balanced(AfterEvent(cfg, s, e).world, open + if Dies(cfg, s, e) then 1 else 0)
  {
    match e
    case Submission(_, _) =>
    case Tick(now, _, _, power) =>
      var ids := ClaimedIn(cfg, s, now);
      TurnsAreBalanced(cfg, Powered(AfterClaim(cfg, s, now), power), ids, e, |ids|, open);
      LoadKeepsWorld(State(map[], [], map[], TickEnd(cfg, s, e).s.world), |TickEnd(cfg, s, e).s.world.rows|);
    case Cancellation(_, _) =>
    case LeaderChange =>
      LoadKeepsWorld(s, |s.world.rows|);
    case Restart =>
      LoadKeepsWorld(State(map[], [], map[], s.world), |s.world.rows|);
  }

  // ---------------------------------------------------------------- whole runs

  /** The orders known before a run, and those submitted in it. */
  function TermsOf(terms: map<OrderId, Order>, events: seq<Event>): map<OrderId, Order> {
    if events == [] then terms else TermsAfter(TermsOf(terms, events[..|events| - 1]), events[|events| - 1])
  }

  function OrdersOf(events: seq<Event>): map<OrderId, Order> { TermsOf(map[], events) }

  /** No order is submitted under an id that was used before. */
  predicate NewIds(terms: map<OrderId, Order>, events: seq<Event>) {
    forall i :: 0 <= i < |events| && events[i].Submission? ==> events[i].order.id !in TermsOf(terms, events[..i])
  }

  predicate UniqueIds(events: seq<Event>) { NewIds(map[], events) }

  /** Fair events, and no order id used twice. */
  ghost predicate FairFrom(cfg: Config, terms: map<OrderId, Order>, events: seq<Event>) {
    NewIds(terms, events) && forall i :: 0 <= i < |events| ==> Fair(cfg, events[i])
  }

  ghost predicate FairRun(cfg: Config, events: seq<Event>) { FairFrom(cfg, map[], events) }

  lemma {:induction false} RunIsKnown(cfg: Config, events: seq<Event>, n: nat)
    requires UniqueIds(events) && n <= |events|
    ensures Known(RunFrom(cfg, FRESH, events[..n]), OrdersOf(events[..n]).Keys)
  {
    if n > 0 {
      RunIsKnown(cfg, events, n - 1);
      EventIsKnown(cfg, RunFrom(cfg, FRESH, events[..n - 1]), events[n - 1], OrdersOf(events[..n - 1]).Keys);
      assert events[..n][..n - 1] == events[..n - 1];
    }
  }

  /** A fair run without its last event. */
  lemma FairBefore(cfg: Config, terms: map<OrderId, Order>, events: seq<Event>, n: nat)
    requires n == |events| - 1 && FairFrom(cfg, terms, events)
    ensures FairFrom(cfg, terms, events[..n]) && Fair(cfg, events[n])
    ensures events[n].Submission? ==> events[n].order.id !in TermsOf(terms, events[..n])
  {
    assert forall i :: 0 <= i < n ==> events[..n][i] == events[i] && events[..n][..i] == events[..i];
  }

  /** From any sound state, every fair run goes on to be sound. */
  lemma {:induction false} RunIsSound(cfg: Config, s: State, events: seq<Event>, terms: map<OrderId, Order>)
    requires Sound(s, terms) && FairFrom(cfg, terms, events)
    ensures Sound(RunFrom(cfg, s, events), TermsOf(terms, events))
  {
    if events != [] {
      var n := |events| - 1;
      FairBefore(cfg, terms, events, n);
      RunIsSound(cfg, s, events[..n], terms);
      EventIsSound(cfg, RunFrom(cfg, s, events[..n]), events[n], TermsOf(terms, events[..n]));
    }
  }

  lemma FreshIsSound()
    ensures Sound(FRESH, map[])
  {
  }

  /** In every run, no order reaches the relayer more often than its cap. */
  lemma CallsStayWithinCap(cfg: Config, events: seq<Event>, id: OrderId)
    requires FairRun(cfg, events) && id in OrdersOf(events)
    ensures RunFrom(cfg, FRESH, events).world.Calls(id) <= Cap(OrdersOf(events)[id])
  {
    FreshIsSound();
    RunIsSound(cfg, FRESH, events, map[]);
  }

  /** How many ticks of a run lost power. */
  function Deaths(cfg: Config, s: State, events: seq<Event>): nat {
    if events == [] then 0
    else
      var n := |events| - 1;
      Deaths(cfg, s, events[..n]) + if Dies(cfg, RunFrom(cfg, s, events[..n]), events[n]) then 1 else 0
  }

  lemma {:induction false} RunIsBalanced(cfg: Config, s: State, events: seq<Event>, open: nat)
    requires Balanced(s.world, open)
    ensures Balanced(RunFrom(cfg, s, events).world, open + Deaths(cfg, s, events))
    ensures Deaths(cfg, s, events) <= |events|
  {
    if events != [] {
      var n := |events| - 1;
      RunIsBalanced(cfg, s, events[..n], open);
      EventIsBalanced(cfg, RunFrom(cfg, s, events[..n]), events[n], open + Deaths(cfg, s, events[..n]));
    }
  }

  /**
    In every run, fair or not, each fill was recorded as a success, or its record raised, but for
    at most one fill for each tick that lost power; if none did, the books balance exactly.
   */
  lemma FillsAreAccounted(cfg: Config, events: seq<Event>)
    ensures var w, deaths := RunFrom(cfg, FRESH, events).world, Deaths(cfg, FRESH, events);
            && w.successes + w.unrecorded <= w.fills <= w.successes + w.unrecorded + deaths
            && deaths <= |events|
  {
    RunIsBalanced(cfg, FRESH, events, 0);
  }
}
