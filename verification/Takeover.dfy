/**
  A new leader takes over with the order copies it synced from the old one, which may be older
  than what the old leader did last.
 */
module Takeover {
  import opened OrderPass
  import opened OrderSafety
  import opened OrderRuns
  import opened CancelledOrders
  import opened SingleOrderRuns
  import opened CallBounds
  import opened Overruns

  /** Copies of submitted orders, one row each. */
  ghost predicate Copies(store: map<OrderId, Order>, rows: seq<OrderId>, terms: map<OrderId, Order>) {
    && (forall id :: id in store ==> id in terms && SameTerms(store[id], terms[id]) && store[id].id == id)
    && (forall id :: id in rows <==> id in store)
  }

  /** What the relayer was asked stays; the store is now that of the new leader. */
  function HandedOn(w: World, store: map<OrderId, Order>, rows: seq<OrderId>): World {
    w.(store := store, rows := rows)
  }

  /** The new leader keeps its memory and loads the OPEN copies it does not know. */
  function TakenOver(mine: State, w: World, store: map<OrderId, Order>, rows: seq<OrderId>): State {
    AfterLoad(mine.(world := HandedOn(w, store, rows)))
  }

  /** No OPEN record, in memory or among the copies, may be relayed too often. */
  predicate FitToLead(cfg: Config, mine: State, w: World, store: map<OrderId, Order>, now: real) {
    && (forall id :: id in mine.book && mine.book[id].status.Open? ==> !MayOverrun(cfg, mine.book[id], w.Calls(id), now))
    && (forall id :: id in store && store[id].status.Open? ==> !MayOverrun(cfg, store[id], w.Calls(id), now))
  }

  lemma TakeoverStands(mine: State, w: World, store: map<OrderId, Order>, rows: seq<OrderId>, terms: map<OrderId, Order>)
    requires Safe(w, terms) && BookTerms(mine, terms) && Copies(store, rows, terms)
    ensures var s := TakenOver(mine, w, store, rows);
            && Standing(s, terms) && s.world == HandedOn(w, store, rows) && (forall id :: s.world.Calls(id) == w.Calls(id))
            && (forall id :: id in mine.book ==> id in s.book && s.book[id] == mine.book[id])
            && (forall id :: id in s.book && id !in mine.book ==> id in store && s.book[id] == store[id])
  {
    var s := mine.(world := HandedOn(w, store, rows));
    assert forall id :: s.world.Calls(id) == w.Calls(id);
    LoadedShape(s, |rows|);
    LoadIsSound(Anything(), s, terms);
  }

  /**
    After a takeover at `now` the relayer is called within the cap for every order, whatever fair
    events follow, exactly if none of the new leader's OPEN records may be relayed too often: a
    copy that misses calls does no harm if its deadline comes first, or its terms keep it from
    the relayer, or it counts enough executions all the same.
   */
  lemma TakeoverStaysBoundedExactlyIf(cfg: Config, mine: State, w: World, store: map<OrderId, Order>, rows: seq<OrderId>,
                                      terms: map<OrderId, Order>, now: real)
    requires Safe(w, terms) && BookTerms(mine, terms) && Copies(store, rows, terms) && now > 0.0
    ensures StaysBounded(cfg, TakenOver(mine, w, store, rows), terms, now) <==> FitToLead(cfg, mine, w, store, now)
  {
    var s := TakenOver(mine, w, store, rows);
    TakeoverStands(mine, w, store, rows, terms);
    BoundedExactlyIf(cfg, s, terms, now);
    if NoneMayOverrun(cfg, s, now) {
      forall id | id in mine.book && mine.book[id].status.Open? ensures !MayOverrun(cfg, mine.book[id], w.Calls(id), now) {
        assert s.book[id] == mine.book[id];
      }
    }
  }

  /** With one stale copy a used-up order is relayed once more: the copy is OPEN, and its verdict calls. */
  lemma StaleCopyIsRelayed(cfg: Config, w: World, copy: Order, e: Event)
    requires copy.status.Open? && w.Calls(copy.id) == Cap(copy)
    requires e.Tick? && e.cancels == NO_CANCELS && Eligible(cfg, copy, e.now) && !Stale(copy, e.now)
    requires var env := e.envs(copy.id);
             var v := Judge(cfg, env, copy, map[]);
             CalledBy(cfg, v, copy, Reach(Effects(cfg, env, v, copy), e.power))
    ensures var s := TakenOver(FRESH, w, map[copy.id := copy], [copy.id]);
            AfterEvent(cfg, s, e).world.Calls(copy.id) == Cap(copy) + 1
  {
    var s := State(map[], [], map[], HandedOn(w, map[copy.id := copy], [copy.id]));
    RestartHolds(s, copy.id);
    OnlyTurnCalls(cfg, AfterRestart(s), copy, e);
  }
}
