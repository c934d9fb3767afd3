/**
  Exactly which orders a tick claims, and what submissions and cancels do to the book.
 */
module OrderClaims {
  import opened OrderPass
  import opened OrderRuns

  /** The ids that a snapshot without a limit would claim. */
  function EligibleIds(cfg: Config, arrival: seq<OrderId>, book: map<OrderId, Order>, now: real): seq<OrderId> {
    if arrival == [] then []
    else
      var rest, id := EligibleIds(cfg, arrival[..|arrival| - 1], book, now), arrival[|arrival| - 1];
      if id in book && Eligible(cfg, book[id], now) then rest + [id] else rest
  }

  lemma {:induction false} EligibleIdsAdd(cfg: Config, a: seq<OrderId>, b: seq<OrderId>, book: map<OrderId, Order>, now: real)
    ensures EligibleIds(cfg, a + b, book, now) == EligibleIds(cfg, a, book, now) + EligibleIds(cfg, b, book, now)
  {
    if b == [] {
      assert a + b == a;
    } else {
      var n := |b| - 1;
      assert (a + b)[..|a + b| - 1] == a + b[..n];
      EligibleIdsAdd(cfg, a, b[..n], book, now);
    }
  }

  /** A snapshot claims the first eligible orders, as many as it may. */
  lemma {:induction false} ClaimsTheFirst(cfg: Config, arrival: seq<OrderId>, book: map<OrderId, Order>, now: real, max: nat)
    ensures var all := EligibleIds(cfg, arrival, book, now);
            Claimed(cfg, arrival, book, now, max) == if |all| <= max then all else all[..max]
  {
    if arrival != [] {
      var rest := arrival[1..];
      assert arrival == [arrival[0]] + rest && [arrival[0]][..0] == [];
      EligibleIdsAdd(cfg, [arrival[0]], rest, book, now);
      ClaimsTheFirst(cfg, rest, book, now, max);
      if max > 0 { ClaimsTheFirst(cfg, rest, book, now, max - 1); }
    }
  }

  lemma {:induction false} EligibleIdsAre(cfg: Config, arrival: seq<OrderId>, book: map<OrderId, Order>, now: real)
    ensures forall id :: id in EligibleIds(cfg, arrival, book, now) <==>
              id in arrival && id in book && Eligible(cfg, book[id], now)
  {
    if arrival != [] {
      EligibleIdsAre(cfg, arrival[..|arrival| - 1], book, now);
      assert arrival == arrival[..|arrival| - 1] + [arrival[|arrival| - 1]];
    }
  }

  /** The order's time has run out while it was waiting. */
  predicate RanOut(o: Order, now: real) { (o.status.Open? || o.status.Assigned?) && o.deadline > 0.0 && o.deadline < now }

  /** A perpetual that was filled too short a time ago. */
  predicate Resting(cfg: Config, o: Order, now: real) {
    o.perpetual && o.lastFilledAt > 0.0 && (now - o.lastFilledAt < o.cooldown || now - o.lastFilledAt < cfg.minInterval)
  }

  /**
    Which orders a tick claims: the first fifty, in order of arrival, of those that are OPEN, have
    not run out and are not resting. While there is room, every one of them is claimed.
   */
  lemma ClaimedExactlyIf(cfg: Config, s: State, now: real)
    requires Formed(s)
    ensures var all, ids := EligibleIds(cfg, s.arrival, ExpiredBook(s.book, now), now), ClaimedIn(cfg, s, now);
            && ids == (if |all| <= 50 then all else all[..50])
            && (forall id :: id in all <==>
                 id in s.book && s.book[id].status.Open? && !RanOut(s.book[id], now) && !Resting(cfg, s.book[id], now))
            && (|all| <= 50 ==> forall id :: id in all ==> id in ids)
  {
    ClaimsTheFirst(cfg, s.arrival, ExpiredBook(s.book, now), now, MAX_SNAPSHOT);
    EligibleIdsAre(cfg, s.arrival, ExpiredBook(s.book, now), now);
  }

  /** What claiming does to the book: what ran out has expired, what is claimed is assigned, all else is as it was. */
  lemma ClaimingExactly(cfg: Config, s: State, now: real, id: OrderId)
    requires Formed(s) && id in s.book
    ensures var t := AfterClaim(cfg, s, now);
            && t == s.(book := t.book) && t.book.Keys == s.book.Keys
            && t.book[id] ==
               if id in ClaimedIn(cfg, s, now) then s.book[id].(status := Assigned)
               else if RanOut(s.book[id], now) then s.book[id].(status := Expired) else s.book[id]
  {
    ClaimsTheFirst(cfg, s.arrival, ExpiredBook(s.book, now), now, MAX_SNAPSHOT);
    EligibleIdsAre(cfg, s.arrival, ExpiredBook(s.book, now), now);
  }

  /** What a submission and a cancel leave, seen from the events. */
  lemma BookEventsExactly(cfg: Config, s: State, o: Order, saved: bool, id: OrderId, user: string)
    ensures var t, n := AfterEvent(cfg, s, Submission(o, saved)), o.(status := Open, executionCount := 0, lastFilledAt := 0.0);
            var fresh' := if o.perpetual then n else n.(maxExecutions := 1);
            && t.book == s.book[o.id := fresh'] && t.arrival == s.arrival + [o.id] && t.retries == s.retries
            && t.world == if saved then
                 s.world.(store := s.world.store[o.id := fresh'],
                          rows := s.world.rows + if o.id in s.world.store then [] else [o.id]) else s.world
    ensures var t := AfterEvent(cfg, s, Cancellation(id, user));
            var accepted := id in s.book && s.book[id].owner == user && s.book[id].status in {Open, Assigned};
            && t == s.(book := t.book)
            && t.book == if accepted then s.book[id := s.book[id].(status := Cancelled)] else s.book
  {
    if id in s.book && s.book[id].owner == user && s.book[id].status in {Open, Assigned} {
      assert CancelledBook(s.book, {id}) == s.book[id := s.book[id].(status := Cancelled)];
    }
  }
}
