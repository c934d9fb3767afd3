/**
  The exact condition for the bound on relayer calls: a run for every OPEN record that may be
  relayed too often, and the theorem that these records are all there is.
 */
module Overruns {
  import opened Wrappers
  import opened OrderPass
  import opened OrderSafety
  import opened OrderRuns
  import opened CancelledOrders
  import opened SingleOrderRuns
  import opened CallBounds
  import Retry = ConsensusRetry

  // ---------------------------------------------------------------- a run that overruns

  /** Everything goes well, at the time of the snapshot. */
  function Smooth(at: real): Env {
    Env(at, true, false, true, SingleChain, true, 0, 0, None, 0, true, true, Settled, NoFault, {})
  }

  /** A tick in which every turn goes well, with power to spare. */
  function SmoothTick(at: real): Event {
    Tick(at, (id: OrderId) => Smooth(at), NO_CANCELS, 10)
  }

  /** Events that submit nothing, are fair and leave time alone but for ticks that go forward. */
  ghost predicate Quiet(cfg: Config, now: real, events: seq<Event>) {
    && Forward(now, events)
    && forall i :: 0 <= i < |events| ==> Fair(cfg, events[i]) && !events[i].Submission?
  }

  lemma SmoothIsFair(cfg: Config, at: real)
    ensures Fair(cfg, SmoothTick(at))
  {
    assert 0 !in Smooth(at).lost;
  }

  lemma QuietIsFair(cfg: Config, terms: map<OrderId, Order>, now: real, events: seq<Event>)
    requires Quiet(cfg, now, events)
    ensures FairFrom(cfg, terms, events) && Forward(now, events)
  {
  }

  lemma SmoothVerdict(cfg: Config, o: Order, at: real, table: Retry.Table)
    requires Relayable(cfg, o)
    ensures Judge(cfg, Smooth(at), o, table) == Relayed(Settled)
  {
  }

  lemma SmoothEffects(cfg: Config, o: Order, at: real)
    ensures var fx := Effects(cfg, Smooth(at), Relayed(Settled), o);
            && Before(cfg, Relayed(Settled), o) < |fx| < 10
            && Ended(cfg, Smooth(at), Relayed(Settled), o) == AfterFill(o, at)
  {
    RelayClosing(Settled, o, at);
  }

  /** Only this order is OPEN. */
  ghost predicate OnlyOpen(s: State, id: OrderId) {
    && Formed(s) && OpenIn(s, id)
    && forall other :: other in s.book && other != id ==> !s.book[other].status.Open?
  }

  lemma {:induction false} ClaimsOnly(cfg: Config, arrival: seq<OrderId>, book: map<OrderId, Order>, now: real, max: nat,
                                      id: OrderId)
    requires Distinct(arrival) && max > 0 && id in book && Eligible(cfg, book[id], now)
    requires forall other :: other in book && other != id ==> !book[other].status.Open?
    ensures Claimed(cfg, arrival, book, now, max) == if id in arrival then [id] else []
  {
    if arrival != [] {
      if arrival[0] == id {
        NoneLeft(cfg, arrival[1..], book, now, max - 1, id);
      } else {
        ClaimsOnly(cfg, arrival[1..], book, now, max, id);
      }
    }
  }

  lemma {:induction false} NoneLeft(cfg: Config, arrival: seq<OrderId>, book: map<OrderId, Order>, now: real, max: nat,
                                    id: OrderId)
    requires id !in arrival && forall other :: other in book && other != id ==> !book[other].status.Open?
    ensures Claimed(cfg, arrival, book, now, max) == []
  {
    if arrival != [] && max > 0 { NoneLeft(cfg, arrival[1..], book, now, max, id); }
  }

  lemma ClaimsJustOne(cfg: Config, s: State, id: OrderId, at: real)
    requires OnlyOpen(s, id) && Eligible(cfg, s.book[id], at) && !Stale(s.book[id], at)
    ensures ClaimedIn(cfg, s, at) == [id]
    ensures var t := AfterClaim(cfg, s, at);
            && Formed(t) && t.book.Keys == s.book.Keys && t.book[id] == Assign(s.book[id])
            && forall other :: other in t.book ==> !t.book[other].status.Open?
  {
    ClaimsOnly(cfg, s.arrival, ExpiredBook(s.book, at), at, MAX_SNAPSHOT, id);
  }

  /** The turn of an order for which everything goes well, with power to spare. */
  lemma SmoothWork(cfg: Config, p: Powered, id: OrderId, at: real)
    requires id in p.s.book && p.s.book[id].id == id && Relayable(cfg, p.s.book[id]) && p.fuse == 10
    ensures var q := AfterWork(cfg, p, id, Smooth(at));
            && q.s.book == p.s.book[id := AfterFill(p.s.book[id], at)] && q.s.arrival == p.s.arrival && q.fuse > 0
            && q.s.world.Calls(id) == p.s.world.Calls(id) + 1
  {
    var o := p.s.book[id];
    SmoothVerdict(cfg, o, at, p.s.retries);
    SmoothEffects(cfg, o, at);
    TurnCalls(cfg, Smooth(at), Relayed(Settled), o, p.s.world, |Effects(cfg, Smooth(at), Relayed(Settled), o)|);
  }

  /** A tick that claims one order is its turn. */
  lemma OneTurn(cfg: Config, s: State, id: OrderId, at: real)
    requires ClaimedIn(cfg, s, at) == [id]
    ensures TickEnd(cfg, s, SmoothTick(at)) == AfterWork(cfg, Powered(AfterClaim(cfg, s, at), 10), id, Smooth(at))
  {
    var e, p := SmoothTick(at), Powered(AfterClaim(cfg, s, at), 10);
    assert CancelledBook(p.s.book, {}) == p.s.book;
    assert AfterTurns(cfg, p, [id], e.envs, e.cancels, 0) == p;
  }

  /** With power to spare the tick ends where the turn ends. */
  lemma TickIsTurn(cfg: Config, s: State, id: OrderId, at: real)
    requires ClaimedIn(cfg, s, at) == [id]
    requires var t := AfterClaim(cfg, s, at); id in t.book && t.book[id].id == id && Relayable(cfg, t.book[id])
    ensures AfterEvent(cfg, s, SmoothTick(at)) ==
            AfterWork(cfg, Powered(AfterClaim(cfg, s, at), 10), id, Smooth(at)).s
  {
    OneTurn(cfg, s, id, at);
    SmoothWork(cfg, Powered(AfterClaim(cfg, s, at), 10), id, at);
  }

  lemma FillIgnoresStatus(o: Order, at: real)
    ensures AfterFill(Assign(o), at) == AfterFill(o, at)
  {
  }

  lemma FilledOnly(c: State, t: State, id: OrderId, f: Order)
    requires Formed(c) && id in c.book && f.id == id && t.book == c.book[id := f] && t.arrival == c.arrival
    requires forall other :: other in c.book ==> !c.book[other].status.Open?
    ensures Formed(t) && id in t.book && t.book[id] == f
    ensures forall other :: other in t.book && other != id ==> !t.book[other].status.Open?
  {
  }

  /** One tick relays the only OPEN order, and fills it. */
  lemma TickRelays(cfg: Config, s: State, id: OrderId, at: real)
    requires OnlyOpen(s, id) && Relayable(cfg, s.book[id])
    requires Eligible(cfg, s.book[id], at) && !Stale(s.book[id], at)
    ensures var t := AfterEvent(cfg, s, SmoothTick(at));
            && t.world.Calls(id) == s.world.Calls(id) + 1
            && Formed(t) && id in t.book && t.book[id] == AfterFill(s.book[id], at)
            && forall other :: other in t.book && other != id ==> !t.book[other].status.Open?
  {
    ClaimsJustOne(cfg, s, id, at);
    TickIsTurn(cfg, s, id, at);
    SmoothWork(cfg, Powered(AfterClaim(cfg, s, at), 10), id, at);
    FillIgnoresStatus(s.book[id], at);
    FilledOnly(AfterClaim(cfg, s, at), AfterEvent(cfg, s, SmoothTick(at)), id, AfterFill(s.book[id], at));
  }

  lemma FirstEvent(cfg: Config, s: State, e: Event, rest: seq<Event>)
    ensures RunFrom(cfg, s, [e] + rest) == RunFrom(cfg, AfterEvent(cfg, s, e), rest)
  {
    assert [e] == [] + [e];
    assert RunFrom(cfg, s, [e]) == AfterEvent(cfg, s, e) by { assert [e][..0] == []; }
    RunsAppend(cfg, s, [e], rest);
  }

  lemma {:induction false} RunsAppend(cfg: Config, s: State, a: seq<Event>, b: seq<Event>)
    ensures RunFrom(cfg, s, a + b) == RunFrom(cfg, RunFrom(cfg, s, a), b)
  {
    if b == [] {
      assert a + b == a;
    } else {
      var n := |b| - 1;
      RunsAppend(cfg, s, a, b[..n]);
      assert (a + b)[..|a + b| - 1] == a + b[..n];
    }
  }

  lemma {:induction false} ForwardAppends(now: real, a: seq<Event>, b: seq<Event>)
    requires Forward(now, a) && Forward(ClockAfter(now, a), b)
    ensures Forward(now, a + b) && ClockAfter(now, a + b) == ClockAfter(ClockAfter(now, a), b)
  {
    if b == [] {
      assert a + b == a;
    } else {
      var n := |b| - 1;
      ForwardAppends(now, a, b[..n]);
      assert (a + b)[..|a + b| - 1] == a + b[..n];
    }
  }

  lemma QuietAppends(cfg: Config, now: real, a: seq<Event>, b: seq<Event>)
    requires Quiet(cfg, now, a) && Quiet(cfg, ClockAfter(now, a), b)
    ensures Quiet(cfg, now, a + b)
  {
    ForwardAppends(now, a, b);
  }

  lemma {:induction false} TimesPositive(n: nat, x: real)
    requires x >= 0.0
    ensures Retry.Times(n, x) >= 0.0
  {
    if n > 0 { TimesPositive(n - 1, x); }
  }

  /** `m` more calls fit before the deadline. */
  predicate Fits(cfg: Config, o: Order, m: nat, now: real)
    requires m > 0
  {
    o.deadline <= 0.0 || NextClaim(cfg, o, now) + Retry.Times(m - 1, Pause(cfg, o)) <= o.deadline
  }

  lemma ClaimableWhenNext(cfg: Config, o: Order, m: nat, now: real)
    requires o.status.Open? && m > 0 && Fits(cfg, o, m, now)
    ensures var at := NextClaim(cfg, o, now); at >= now && Eligible(cfg, o, at) && !Stale(o, at)
  {
    TimesPositive(m - 1, Pause(cfg, o));
  }

  /** After a fill, one call less is left, and one pause later it fits. */
  lemma FillLeavesRoom(cfg: Config, o: Order, m: nat, now: real)
    requires now > 0.0 && 1 < m <= CallsLeft(o) && Fits(cfg, o, m, now) && Relayable(cfg, o)
    ensures var at := NextClaim(cfg, o, now);
            var f := AfterFill(o, at);
            f.status.Open? && m - 1 <= CallsLeft(f) && Fits(cfg, f, m - 1, at) && Relayable(cfg, f)
  {
    var at := NextClaim(cfg, o, now);
    assert NextClaim(cfg, AfterFill(o, at), at) == at + Pause(cfg, o);
    assert Retry.Times(m - 1, Pause(cfg, o)) == Retry.Times(m - 2, Pause(cfg, o)) + Pause(cfg, o);
  }

  /** Ticks at the earliest times relay the only OPEN order as often as its record and its deadline allow. */
  lemma {:induction false} RelaysOften(cfg: Config, s: State, id: OrderId, now: real, m: nat) returns (later: seq<Event>)
    requires OnlyOpen(s, id) && now > 0.0 && Relayable(cfg, s.book[id])
    requires 1 <= m <= CallsLeft(s.book[id]) && Fits(cfg, s.book[id], m, now)
    ensures Quiet(cfg, now, later) && RunFrom(cfg, s, later).world.Calls(id) == s.world.Calls(id) + m
    decreases m
  {
    var o := s.book[id];
    var at := NextClaim(cfg, o, now);
    var tick := SmoothTick(at);
    var t := AfterEvent(cfg, s, tick);
    ClaimableWhenNext(cfg, o, m, now);
    TickRelays(cfg, s, id, at);
    OneTickIsQuiet(cfg, now, at);
    var rest := [];
    if m > 1 {
      FillLeavesRoom(cfg, o, m, now);
      rest := RelaysOften(cfg, t, id, at, m - 1);
    }
    later := [tick] + rest;
    QuietAppends(cfg, now, [tick], rest);
    FirstEvent(cfg, s, tick, rest);
  }

  lemma OneTickIsQuiet(cfg: Config, now: real, at: real)
    requires now <= at
    ensures Quiet(cfg, now, [SmoothTick(at)]) && ClockAfter(now, [SmoothTick(at)]) == at && Quiet(cfg, at, [])
  {
    SmoothIsFair(cfg, at);
    assert [SmoothTick(at)][..0] == [];
  }

  predicate Shut(a: Order, b: Order) { b == a || b == a.(status := Cancelled) }

  /** Orders other than `id`, these at least, were cancelled where they could be, and nothing else has changed. */
  ghost predicate Closed(s: State, t: State, id: OrderId, gone: seq<OrderId>) {
    && t == s.(book := t.book) && t.book.Keys == s.book.Keys
    && forall other :: other in s.book ==>
         && Shut(s.book[other], t.book[other])
         && (other == id ==> t.book[other] == s.book[other])
         && (other in gone && other != id ==> !t.book[other].status.Open?)
  }

  lemma OneMoreClosed(s: State, t: State, id: OrderId, gone: seq<OrderId>, x: OrderId)
    requires Closed(s, t, id, gone) && x in t.book && x != id
    ensures var book := if Cancellable(t.book[x]) then t.book[x := t.book[x].(status := Cancelled)] else t.book;
            Closed(s, t.(book := book), id, gone + [x])
  {
  }

  lemma OwnerCancels(cfg: Config, t: State, x: OrderId)
    requires x in t.book
    ensures AfterEvent(cfg, t, Cancellation(x, t.book[x].owner)) ==
            t.(book := if Cancellable(t.book[x]) then t.book[x := t.book[x].(status := Cancelled)] else t.book)
  {
    assert Cancellable(t.book[x]) ==> CancelledBook(t.book, {x}) == t.book[x := t.book[x].(status := Cancelled)];
  }

  lemma CancelIsQuiet(cfg: Config, s: State, now: real, before: seq<Event>, e: Event)
    requires e.Cancellation? && Quiet(cfg, now, before)
    ensures Quiet(cfg, now, before + [e]) && ClockAfter(now, before + [e]) == ClockAfter(now, before)
    ensures RunFrom(cfg, s, before + [e]) == AfterEvent(cfg, RunFrom(cfg, s, before), e)
  {
    assert (before + [e])[..|before|] == before;
  }

  /** The owners of other orders cancel them. */
  lemma {:induction false} OthersCancel(cfg: Config, s: State, id: OrderId, now: real, n: nat) returns (events: seq<Event>)
    requires Formed(s) && n <= |s.arrival|
    ensures Quiet(cfg, now, events) && ClockAfter(now, events) == now
    ensures Closed(s, RunFrom(cfg, s, events), id, s.arrival[..n])
  {
    if n == 0 {
      events := [];
    } else {
      var before := OthersCancel(cfg, s, id, now, n - 1);
      var t, x := RunFrom(cfg, s, before), s.arrival[n - 1];
      assert s.arrival[..n] == s.arrival[..n - 1] + [x] && x in s.arrival;
      events := before;
      if x != id {
        OneMoreClosed(s, t, id, s.arrival[..n - 1], x);
        OwnerCancels(cfg, t, x);
        events := before + [Cancellation(x, t.book[x].owner)];
        CancelIsQuiet(cfg, s, now, before, events[|before|]);
      }
    }
  }

  /** Alone among the OPEN orders, the order is relayed beyond its cap. */
  lemma AloneItOverruns(cfg: Config, s: State, id: OrderId, now: real) returns (later: seq<Event>)
    requires Formed(s) && OpenIn(s, id) && now > 0.0
    requires MayOverrun(cfg, s.book[id], s.world.Calls(id), now)
    ensures Quiet(cfg, now, later) && RunFrom(cfg, s, later).world.Calls(id) == Cap(s.book[id]) + 1
  {
    var cancels := OthersCancel(cfg, s, id, now, |s.arrival|);
    assert s.arrival[..|s.arrival|] == s.arrival;
    var t := RunFrom(cfg, s, cancels);
    assert OnlyOpen(t, id);
    var relays := RelaysOften(cfg, t, id, now, Cap(s.book[id]) - s.world.Calls(id) + 1);
    later := cancels + relays;
    QuietAppends(cfg, now, cancels, relays);
    RunsAppend(cfg, s, cancels, relays);
  }

  // ---------------------------------------------------------------- the exact condition

  /** Records and terms are in order, and no cap has been exceeded so far. */
  ghost predicate Standing(s: State, terms: map<OrderId, Order>) {
    SoundBy(Anything(), s, terms)
  }

  /** No OPEN order, in memory or in the store, may be relayed too often from now on. */
  predicate NoneMayOverrun(cfg: Config, s: State, now: real) {
    && (forall id :: id in s.book && s.book[id].status.Open? ==> !MayOverrun(cfg, s.book[id], s.world.Calls(id), now))
    && (forall id :: id in s.world.store && s.world.store[id].status.Open? ==>
         !MayOverrun(cfg, s.world.store[id], s.world.Calls(id), now))
  }

  /** Whatever fair events follow, in a time that runs forward, the relayer is not called too often for any order. */
  ghost predicate StaysBounded(cfg: Config, s: State, terms: map<OrderId, Order>, now: real) {
    forall later: seq<Event> ::
      FairFrom(cfg, terms, later) && Forward(now, later) ==> Bounded(RunFrom(cfg, s, later).world, terms)
  }

  predicate Bounded(w: World, terms: map<OrderId, Order>) {
    forall id :: id in terms ==> w.Calls(id) <= Cap(terms[id])
  }

  lemma WithinIsBounded(cfg: Config, s: State, terms: map<OrderId, Order>, now: real, later: seq<Event>)
    requires Standing(s, terms) && NoneMayOverrun(cfg, s, now) && now > 0.0
    requires FairFrom(cfg, terms, later) && Forward(now, later)
    ensures Bounded(RunFrom(cfg, s, later).world, terms)
  {
    assert SoundBy(Timed(cfg, now), s, terms);
    RunStaysWithin(cfg, s, later, terms, now);
    forall id | id in terms ensures RunFrom(cfg, s, later).world.Calls(id) <= Cap(terms[id]) {
      TermsStay(terms, later, id);
    }
  }

  /** An OPEN record that may overrun does so in some run; one that only the store has, after a restart. */
  lemma OverrunHappens(cfg: Config, s: State, terms: map<OrderId, Order>, now: real, id: OrderId) returns (later: seq<Event>)
    requires Standing(s, terms) && now > 0.0
    requires (OpenIn(s, id) && MayOverrun(cfg, s.book[id], s.world.Calls(id), now))
             || (StoredOpen(s.world, id) && MayOverrun(cfg, s.world.store[id], s.world.Calls(id), now))
    ensures id in terms && FairFrom(cfg, terms, later) && Forward(now, later)
    ensures RunFrom(cfg, s, later).world.Calls(id) == Cap(terms[id]) + 1
  {
    if OpenIn(s, id) && MayOverrun(cfg, s.book[id], s.world.Calls(id), now) {
      later := AloneItOverruns(cfg, s, id, now);
    } else {
      RestartIsSoundBy(Anything(), s, terms);
      LoadAddsOpenOrders(State(map[], [], map[], s.world), id);
      var rest := AloneItOverruns(cfg, AfterRestart(s), id, now);
      later := [Restart] + rest;
      FirstEvent(cfg, s, Restart, rest);
      assert [Restart][..0] == [];
      QuietAppends(cfg, now, [Restart], rest);
    }
    QuietIsFair(cfg, terms, now, later);
  }

  /**
    From any state at all whose records are in order, the bound on relayer calls holds in every
    fair run that follows, exactly if no OPEN record may be relayed too often: none, in memory or
    in the store, counts so few executions that the calls it would still get exceed what its cap
    leaves, with the last of them before its deadline.
   */
  lemma BoundedExactlyIf(cfg: Config, s: State, terms: map<OrderId, Order>, now: real)
    requires Standing(s, terms) && now > 0.0
    ensures StaysBounded(cfg, s, terms, now) <==> NoneMayOverrun(cfg, s, now)
  {
    if NoneMayOverrun(cfg, s, now) {
      forall later | FairFrom(cfg, terms, later) && Forward(now, later) ensures Bounded(RunFrom(cfg, s, later).world, terms) {
        WithinIsBounded(cfg, s, terms, now, later);
      }
    } else {
      var id :| || (OpenIn(s, id) && MayOverrun(cfg, s.book[id], s.world.Calls(id), now))
                || (StoredOpen(s.world, id) && MayOverrun(cfg, s.world.store[id], s.world.Calls(id), now));
      var later := OverrunHappens(cfg, s, terms, now, id);
      assert !Bounded(RunFrom(cfg, s, later).world, terms);
    }
  }

  /** States that count all calls are among them, at any time. */
  lemma SoundStaysBounded(cfg: Config, s: State, terms: map<OrderId, Order>, now: real)
    requires Sound(s, terms) && now > 0.0
    ensures Standing(s, terms) && StaysBounded(cfg, s, terms, now)
  {
    forall o: Order, c | Counting().ok(o, c) ensures !MayOverrun(cfg, o, c, now) {
      CountingNeverOverruns(cfg, o, c, now);
    }
    BoundedExactlyIf(cfg, s, terms, now);
  }
}
