/**
  What one turn of an order keeps: at every prefix of its effects, for every set of failing
  writes, and whatever the outside answers.
 */
module OrderSafety {
  import opened Wrappers
  import opened OrderPass
  import Fees = FeePolicy
  import Retry = ConsensusRetry

  // ---------------------------------------------------------------- rules

  /** What an invariant asks of an OPEN order with a number of relayer calls, and of the outside's answers. */
  datatype Rule = Rule(ok: (Order, int) -> bool, timely: Env -> bool)

  /** The order counts all its calls and has one left, whatever the outside answers and when. */
  function Counting(): Rule {
    Rule((o: Order, c: int) => Ready(o, c), (env: Env) => true)
  }

  /** Everything submitted stays within its cap, and every stored OPEN order keeps to the rule. */
  ghost predicate SafeBy(rule: Rule, w: World, terms: map<OrderId, Order>) {
    && (forall id :: id in terms ==> w.Calls(id) <= Cap(terms[id]))
    && (forall id :: id in w.calls ==> id in terms)
    && (forall id :: id in w.store ==> id in terms && SameTerms(w.store[id], terms[id]) && w.store[id].id == id)
    && (forall id :: id in w.store && w.store[id].status.Open? ==> rule.ok(w.store[id], w.Calls(id)))
    && (forall id :: id in w.rows <==> id in w.store)
  }

  ghost predicate Safe(w: World, terms: map<OrderId, Order>) {
    SafeBy(Counting(), w, terms)
  }

  /** No step of a pass looks at the status. */
  lemma JudgeIgnoresStatus(cfg: Config, env: Env, o: Order, s: Status, table: Retry.Table)
    ensures Judge(cfg, env, o.(status := s), table) == Judge(cfg, env, o, table)
  {
  }

  // ---------------------------------------------------------------- the shape of a turn

  /** How many effects come before the relayer call or the closing save. */
  function Before(cfg: Config, v: Verdict, o: Order): nat {
    |Staged(cfg, Stage(v), o)|
  }

  /**
    Effects of one order `o` that had `c` relayer calls: first `n` saves that are not OPEN, then
    the relayer call, if there is one, and then saves that keep to the rule, and a record.
   */
  ghost predicate Orderly(rule: Rule, fx: seq<Effect>, n: nat, o: Order, c: int, calls: bool) {
    && n <= |fx|
    && (calls ==> n < |fx| && fx[n].Relay?)
    && forall j: nat | j < |fx| :: EffectFits(rule, fx[j], j, n, o, c, calls)
  }

  predicate EffectFits(rule: Rule, e: Effect, j: nat, n: nat, o: Order, c: int, calls: bool) {
    match e
    case Save(f) =>
      SameTerms(f, o) && (f.status.Open? ==> j >= n && rule.ok(f, c + if calls then 1 else 0))
    case Relay(id, _) => calls && j == n && id == o.id
    case Record(_) => j >= n
  }

  /** The verdict calls the relayer only if a call is left, and reopens the order only within the rule. */
  predicate Allowed(rule: Rule, v: Verdict, o: Order, now: real, c: int) {
    && (CallsRelayer(v) ==> c < Cap(o))
    && (Final(v, o, now).status.Open? ==> rule.ok(Final(v, o, now), c + if CallsRelayer(v) then 1 else 0))
  }

  /** The record, if the pass makes one, is the effect at `r`. */
  ghost predicate Booked(fx: seq<Effect>, v: Verdict, r: int) {
    && (Records(v) ==> 0 <= r < |fx| && fx[r] == Record(Fills(v)))
    && forall j: nat | j < |fx| ::
         (fx[j].Record? ==> Records(v) && j == r) && (fx[j].Relay? ==> fx[j].filled == Fills(v))
  }

  /** Where each closing effect sits: the relayer call first, then the save, then the record. */
  lemma ClosingShape(v: Verdict, o: Order, now: real, j: nat)
    requires j < |Closing(v, o, now)|
    ensures var e := Closing(v, o, now)[j];
            if CallsRelayer(v) && j == 0 then e == Relay(o.id, Fills(v))
            else if !v.AwaitsUser? && j == (if CallsRelayer(v) then 1 else 0) then e == Save(Final(v, o, now))
            else e == Record(Fills(v)) && Records(v) && j == |Closing(v, o, now)| - 1
    ensures Records(v) ==> |Closing(v, o, now)| > 0 && Closing(v, o, now)[|Closing(v, o, now)| - 1].Record?
  {
  }

  /** An order that counts its calls goes on to do so. */
  lemma CountingAllows(v: Verdict, o: Order, now: real, c: int)
    requires Ready(o, c) && EndsClosed(v)
    ensures Allowed(Counting(), v, o, now, c)
  {
    assert Final(v, o, now).status.Open? ==> Ready(Final(v, o, now), c + if CallsRelayer(v) then 1 else 0);
  }

  lemma FinalTerms(v: Verdict, o: Order, now: real)
    ensures SameTerms(Final(v, o, now), o)
  {
  }

  lemma StagedShape(cfg: Config, v: Verdict, o: Order, j: nat)
    requires !o.status.Open? && j < Before(cfg, v, o)
    ensures var e := Staged(cfg, Stage(v), o)[j]; e.Save? && SameTerms(e.order, o) && !e.order.status.Open?
  {
  }

  /** Each single effect of a turn fits. */
  lemma EffectIsOrderly(rule: Rule, cfg: Config, env: Env, v: Verdict, o: Order, c: int, j: nat)
    requires !o.status.Open? && Allowed(rule, v, o, env.now, c) && j < |Effects(cfg, env, v, o)|
    ensures EffectFits(rule, Effects(cfg, env, v, o)[j], j, Before(cfg, v, o), o, c, CallsRelayer(v))
  {
    var p, n := PassEffects(cfg, v, o, env.now), Before(cfg, v, o);
    FinalTerms(v, o, env.now);
    if j < n {
      StagedShape(cfg, v, o, j);
      assert Effects(cfg, env, v, o)[j] == Staged(cfg, Stage(v), o)[j];
    } else if j < |p| {
      ClosingShape(v, o, env.now, j - n);
      assert Effects(cfg, env, v, o)[j] == Closing(v, o, env.now)[j - n];
    }
  }

  lemma EffectsAreOrderly(rule: Rule, cfg: Config, env: Env, v: Verdict, o: Order, c: int)
    requires !o.status.Open? && Allowed(rule, v, o, env.now, c)
    ensures Orderly(rule, Effects(cfg, env, v, o), Before(cfg, v, o), o, c, CallsRelayer(v))
    ensures CallsRelayer(v) ==> Before(cfg, v, o) == StagedCount(cfg)
  {
    var fx, n := Effects(cfg, env, v, o), Before(cfg, v, o);
    forall j: nat | j < |fx| ensures EffectFits(rule, fx[j], j, n, o, c, CallsRelayer(v)) {
      EffectIsOrderly(rule, cfg, env, v, o, c, j);
    }
    if CallsRelayer(v) {
      ClosingHasItsCall(cfg, v, o, env.now);
      RelayPosition(cfg, env, v, o, n);
    }
  }

  /** The record is where it belongs. */
  lemma EffectIsBooked(cfg: Config, env: Env, v: Verdict, o: Order, j: nat)
    requires j < |Effects(cfg, env, v, o)|
    ensures var e := Effects(cfg, env, v, o)[j];
            && (e.Record? ==> Records(v) && j == |PassEffects(cfg, v, o, env.now)| - 1)
            && (e.Relay? ==> e.filled == Fills(v))
  {
    var p, n := PassEffects(cfg, v, o, env.now), Before(cfg, v, o);
    if j < n {
      assert Effects(cfg, env, v, o)[j] == Staged(cfg, Stage(v), o)[j];
    } else if j < |p| {
      ClosingShape(v, o, env.now, j - n);
      assert Effects(cfg, env, v, o)[j] == Closing(v, o, env.now)[j - n];
    }
  }

  lemma EffectsAreBooked(cfg: Config, env: Env, v: Verdict, o: Order)
    ensures Booked(Effects(cfg, env, v, o), v, |PassEffects(cfg, v, o, env.now)| - 1)
  {
    var fx, p := Effects(cfg, env, v, o), PassEffects(cfg, v, o, env.now);
    forall j: nat | j < |fx|
      ensures (fx[j].Record? ==> Records(v) && j == |p| - 1) && (fx[j].Relay? ==> fx[j].filled == Fills(v))
    {
      EffectIsBooked(cfg, env, v, o, j);
    }
    if Records(v) {
      ClosingShape(v, o, env.now, |Closing(v, o, env.now)| - 1);
    }
  }

  // ---------------------------------------------------------------- safety, exactly

  /** Some save of the first `k` effects reached the store. */
  ghost predicate SaveLanded(fx: seq<Effect>, lost: set<nat>, k: nat)
    requires k <= |fx|
  {
    exists j: nat :: j < k && fx[j].Save? && j !in lost
  }

  ghost predicate SameCalls(w: World, w': World, id: OrderId, more: nat) {
    && w'.Calls(id) == w.Calls(id) + more
    && forall other :: other != id ==> w'.Calls(other) == w.Calls(other)
  }

  /** Safe, but for the stored record of one order. */
  ghost predicate SafeBut(rule: Rule, w: World, terms: map<OrderId, Order>, id: OrderId) {
    && (forall other :: other in terms ==> w.Calls(other) <= Cap(terms[other]))
    && (forall other :: other in w.calls ==> other in terms)
    && (forall other :: other in w.store ==>
         other in terms && SameTerms(w.store[other], terms[other]) && w.store[other].id == other)
    && (forall other :: other in w.store && other != id && w.store[other].status.Open? ==>
         rule.ok(w.store[other], w.Calls(other)))
    && (forall other :: other in w.rows <==> other in w.store)
  }

  /** The stored record of `id` is OPEN. */
  predicate StoredOpen(w: World, id: OrderId) {
    id in w.store && w.store[id].status.Open?
  }

  /** What a prefix of a turn leaves: its calls, and the stored record, new or untouched. */
  ghost predicate Played(rule: Rule, w: World, w': World, terms: map<OrderId, Order>, o: Order, called: bool, landed: bool) {
    && SafeBut(rule, w', terms, o.id)
    && SameCalls(w, w', o.id, if called then 1 else 0)
    && (landed ==> o.id in w'.store && (StoredOpen(w', o.id) ==> rule.ok(w'.store[o.id], w'.Calls(o.id))))
    && (!landed ==> w'.store == w.store)
  }

  lemma SaveKeepsSafeBut(rule: Rule, w: World, terms: map<OrderId, Order>, f: Order)
    requires f.id in terms && SameTerms(f, terms[f.id]) && SafeBut(rule, w, terms, f.id)
    ensures SafeBut(rule, Apply(w, Save(f)), terms, f.id)
  {
    var w' := Apply(w, Save(f));
    assert forall other :: w'.Calls(other) == w.Calls(other);
    assert forall other :: other in w'.rows <==> other in w.rows || other == f.id;
  }

  lemma SaveIsPlayed(rule: Rule, w: World, w0: World, terms: map<OrderId, Order>, o: Order, f: Order, called: bool, landed: bool)
    requires o.id in terms && SameTerms(o, terms[o.id])
    requires SameTerms(f, o) && (f.status.Open? ==> rule.ok(f, w.Calls(o.id) + if called then 1 else 0))
    requires Played(rule, w, w0, terms, o, called, landed)
    ensures Played(rule, w, Apply(w0, Save(f)), terms, o, called, true)
  {
    SaveKeepsSafeBut(rule, w0, terms, f);
    assert forall other :: Apply(w0, Save(f)).Calls(other) == w0.Calls(other);
  }

  lemma RelayIsPlayed(rule: Rule, w: World, w0: World, terms: map<OrderId, Order>, o: Order, filled: bool, landed: bool)
    requires o.id in terms && SameTerms(o, terms[o.id]) && w.Calls(o.id) < Cap(o)
    requires landed ==> o.id in w0.store && !w0.store[o.id].status.Open?
    requires Played(rule, w, w0, terms, o, false, landed)
    ensures Played(rule, w, Apply(w0, Relay(o.id, filled)), terms, o, true, landed)
  {
    var w' := Apply(w0, Relay(o.id, filled));
    assert w'.Calls(o.id) == w.Calls(o.id) + 1 <= Cap(terms[o.id]);
    assert forall other :: other != o.id ==> w'.Calls(other) == w0.Calls(other);
  }

  lemma OthersArePlayed(rule: Rule, w: World, w0: World, w': World, terms: map<OrderId, Order>, o: Order,
                        called: bool, landed: bool)
    requires Played(rule, w, w0, terms, o, called, landed)
    requires w'.store == w0.store && w'.rows == w0.rows && w'.calls == w0.calls
    ensures Played(rule, w, w', terms, o, called, landed)
  {
    assert forall other :: w'.Calls(other) == w0.Calls(other);
  }

  lemma PlayedMore(rule: Rule, w: World, w0: World, terms: map<OrderId, Order>, o: Order, e: Effect, missed: bool,
                   j: nat, n: nat, calls: bool, landed: bool)
    requires o.id in terms && SameTerms(o, terms[o.id]) && (calls ==> w.Calls(o.id) < Cap(o))
    requires EffectFits(rule, e, j, n, o, w.Calls(o.id), calls)
    requires j <= n ==> landed ==> o.id in w0.store && !w0.store[o.id].status.Open?
    requires Played(rule, w, w0, terms, o, calls && j > n, landed)
    requires calls && j == n ==> e.Relay?
    ensures Played(rule, w, if missed then Missed(w0, e) else Apply(w0, e), terms, o, calls && j >= n,
                   landed || (e.Save? && !missed))
  {
    if e.Relay? {
      RelayIsPlayed(rule, w, w0, terms, o, e.filled, landed);
    } else if e.Save? && !missed {
      SaveIsPlayed(rule, w, w0, terms, o, e.order, calls && j > n, landed);
    } else {
      OthersArePlayed(rule, w, w0, if missed then Missed(w0, e) else Apply(w0, e), terms, o, calls && j > n, landed);
    }
  }

  lemma {:induction false} TurnPlayed(rule: Rule, fx: seq<Effect>, n: nat, o: Order, calls: bool, lost: set<nat>,
                                      w: World, terms: map<OrderId, Order>, k: nat)
    requires k <= |fx| && Orderly(rule, fx, n, o, w.Calls(o.id), calls)
    requires SafeBy(rule, w, terms) && o.id in terms && SameTerms(o, terms[o.id]) && (calls ==> w.Calls(o.id) < Cap(o))
    ensures Played(rule, w, Play(w, fx, lost, k), terms, o, calls && k > n, SaveLanded(fx, lost, k))
    ensures k <= n && SaveLanded(fx, lost, k) ==>
              var w' := Play(w, fx, lost, k); o.id in w'.store && !w'.store[o.id].status.Open?
  {
    if k > 0 {
      var j := k - 1;
      TurnPlayed(rule, fx, n, o, calls, lost, w, terms, j);
      assert EffectFits(rule, fx[j], j, n, o, w.Calls(o.id), calls);
      PlayedMore(rule, w, Play(w, fx, lost, j), terms, o, fx[j], j in lost, j, n, calls, SaveLanded(fx, lost, j));
      assert SaveLanded(fx, lost, k) <==> SaveLanded(fx, lost, j) || (fx[j].Save? && j !in lost);
    }
  }

  /** The relayer was called within the first `k` effects. */
  predicate CalledBy(cfg: Config, v: Verdict, o: Order, k: nat) {
    CallsRelayer(v) && k > Before(cfg, v, o)
  }

  /** One turn of an order, up to its `k`-th effect, starting from a safe world. */
  ghost predicate TurnFrom(cfg: Config, env: Env, o: Order, table: Retry.Table, w: World,
                           terms: map<OrderId, Order>, k: nat) {
    && Safe(w, terms) && o.id in terms && SameTerms(o, terms[o.id]) && Ready(o, w.Calls(o.id))
    && !o.status.Open? && EndsClosed(Judge(cfg, env, o, table))
    && k <= |Effects(cfg, env, Judge(cfg, env, o, table), o)|
  }

  /**
    Crash safety of one turn, exactly. Whatever the environment answers, whichever store writes
    fail, and however many effects happen before power is lost, the world is safe exactly if the
    relayer was not called by then, or some save of the turn reached the store by then, or the
    stored record was not OPEN to begin with. Saves before and after the relayer call both count.
   */
  lemma SafeExactlyIf(cfg: Config, env: Env, o: Order, table: Retry.Table, w: World, terms: map<OrderId, Order>, k: nat)
    requires TurnFrom(cfg, env, o, table, w, terms, k)
    ensures var v := Judge(cfg, env, o, table);
            var fx := Effects(cfg, env, v, o);
            Safe(Play(w, fx, env.lost, k), terms) <==>
              || !CalledBy(cfg, v, o, k)
              || SaveLanded(fx, env.lost, k)
              || !StoredOpen(w, o.id)
  {
    var v := Judge(cfg, env, o, table);
    var fx := Effects(cfg, env, v, o);
    CountingAllows(v, o, env.now, w.Calls(o.id));
    EffectsAreOrderly(Counting(), cfg, env, v, o, w.Calls(o.id));
    TurnPlayed(Counting(), fx, Before(cfg, v, o), o, CallsRelayer(v), env.lost, w, terms, k);
    SafeButIsSafe(Counting(), Play(w, fx, env.lost, k), terms, o.id);
    assert StoredOpen(w, o.id) ==> Ready(w.store[o.id], w.Calls(o.id));
  }

  lemma SafeButIsSafe(rule: Rule, w: World, terms: map<OrderId, Order>, id: OrderId)
    requires SafeBut(rule, w, terms, id)
    ensures SafeBy(rule, w, terms) <==> (StoredOpen(w, id) ==> rule.ok(w.store[id], w.Calls(id)))
  {
  }

  /** One turn within a rule, up to its `k`-th effect, with one save before the relayer call that lands. */
  ghost predicate TurnBy(rule: Rule, cfg: Config, env: Env, v: Verdict, o: Order, w: World,
                         terms: map<OrderId, Order>, k: nat) {
    && SafeBy(rule, w, terms) && o.id in terms && SameTerms(o, terms[o.id]) && !o.status.Open?
    && Allowed(rule, v, o, env.now, w.Calls(o.id)) && Anchored(cfg, env)
    && k <= |Effects(cfg, env, v, o)|
  }

  lemma PassIsSafe(rule: Rule, cfg: Config, env: Env, v: Verdict, o: Order, w: World, terms: map<OrderId, Order>, k: nat)
    requires TurnBy(rule, cfg, env, v, o, w, terms, k)
    ensures SafeBy(rule, Play(w, Effects(cfg, env, v, o), env.lost, k), terms)
  {
    var fx, n := Effects(cfg, env, v, o), Before(cfg, v, o);
    EffectsAreOrderly(rule, cfg, env, v, o, w.Calls(o.id));
    TurnPlayed(rule, fx, n, o, CallsRelayer(v), env.lost, w, terms, k);
    SafeButIsSafe(rule, Play(w, fx, env.lost, k), terms, o.id);
    if CalledBy(cfg, v, o, k) { AnchorLands(cfg, env, v, o, k); }
  }

  /** A save before the relayer call that lands keeps the world within the rule at every later point. */
  lemma PassSafeBy(rule: Rule, cfg: Config, env: Env, v: Verdict, o: Order, w: World, terms: map<OrderId, Order>, k: nat)
    requires TurnBy(rule, cfg, env, v, o, w, terms, k)
    ensures var w' := Play(w, Effects(cfg, env, v, o), env.lost, k);
            && SafeBy(rule, w', terms)
            && SameCalls(w, w', o.id, if CalledBy(cfg, v, o, k) then 1 else 0)
            && (k == |Effects(cfg, env, v, o)| && Ended(cfg, env, v, o).status.Open? ==>
                  rule.ok(Ended(cfg, env, v, o), w'.Calls(o.id)))
  {
    PassIsSafe(rule, cfg, env, v, o, w, terms, k);
    TurnCalls(cfg, env, v, o, w, k);
    EndedIsAllowed(rule, cfg, env, v, o, w.Calls(o.id));
  }

  lemma AnchorLands(cfg: Config, env: Env, v: Verdict, o: Order, k: nat)
    requires !o.status.Open? && Anchored(cfg, env) && CalledBy(cfg, v, o, k)
    requires k <= |Effects(cfg, env, v, o)| && Before(cfg, v, o) == StagedCount(cfg)
    ensures SaveLanded(Effects(cfg, env, v, o), env.lost, k)
  {
    var j: nat :| j < StagedCount(cfg) && j !in env.lost;
    StagedShape(cfg, v, o, j);
    assert Effects(cfg, env, v, o)[j] == Staged(cfg, Stage(v), o)[j];
  }

  lemma EndedIsAllowed(rule: Rule, cfg: Config, env: Env, v: Verdict, o: Order, c: int)
    requires Allowed(rule, v, o, env.now, c)
    ensures Ended(cfg, env, v, o).status.Open? ==>
              rule.ok(Ended(cfg, env, v, o), c + if CalledBy(cfg, v, o, |Effects(cfg, env, v, o)|) then 1 else 0)
  {
    ClosingHasItsCall(cfg, v, o, env.now);
  }

  /** A save before the relayer call that lands keeps the world safe at every later point. */
  lemma PassSafe(cfg: Config, env: Env, o: Order, table: Retry.Table, w: World, terms: map<OrderId, Order>, k: nat)
    requires TurnFrom(cfg, env, o, table, w, terms, k) && Anchored(cfg, env)
    ensures var v := Judge(cfg, env, o, table);
            var w' := Play(w, Effects(cfg, env, v, o), env.lost, k);
            && Safe(w', terms)
            && SameCalls(w, w', o.id, if CalledBy(cfg, v, o, k) then 1 else 0)
            && (k == |Effects(cfg, env, v, o)| && Ended(cfg, env, v, o).status.Open? ==>
                  Ready(Ended(cfg, env, v, o), w'.Calls(o.id)))
  {
    CountingAllows(Judge(cfg, env, o, table), o, env.now, w.Calls(o.id));
    PassSafeBy(Counting(), cfg, env, Judge(cfg, env, o, table), o, w, terms, k);
  }

  /** The one effect of a turn that is a relayer call. */
  lemma RelayPosition(cfg: Config, env: Env, v: Verdict, o: Order, j: nat)
    requires j < |Effects(cfg, env, v, o)|
    ensures var e := Effects(cfg, env, v, o)[j];
            && (e.Relay? <==> CallsRelayer(v) && j == Before(cfg, v, o))
            && (e.Relay? ==> e.id == o.id)
  {
    var p, n := PassEffects(cfg, v, o, env.now), Before(cfg, v, o);
    if j < n {
      assert Effects(cfg, env, v, o)[j] == Staged(cfg, Stage(v), o)[j];
    } else if j < |p| {
      ClosingShape(v, o, env.now, j - n);
      assert Effects(cfg, env, v, o)[j] == Closing(v, o, env.now)[j - n];
    } else {
      ClosingHasItsCall(cfg, v, o, env.now);
    }
  }

  lemma ClosingHasItsCall(cfg: Config, v: Verdict, o: Order, now: real)
    ensures CallsRelayer(v) ==> Before(cfg, v, o) < |PassEffects(cfg, v, o, now)|
  {
  }

  /** The only relayer call among the effects is one for `id` at `n`. */
  ghost predicate CallsAt(fx: seq<Effect>, n: nat, id: OrderId, calls: bool) {
    forall j: nat | j < |fx| :: (fx[j].Relay? <==> calls && j == n) && (fx[j].Relay? ==> fx[j].id == id)
  }

  lemma {:induction false} PlayCalls(fx: seq<Effect>, n: nat, id: OrderId, calls: bool, lost: set<nat>, w: World, k: nat)
    requires k <= |fx| && CallsAt(fx, n, id, calls)
    ensures SameCalls(w, Play(w, fx, lost, k), id, if calls && k > n then 1 else 0)
  {
    if k > 0 { PlayCalls(fx, n, id, calls, lost, w, k - 1); }
  }

  lemma OneCall(cfg: Config, env: Env, v: Verdict, o: Order)
    ensures CallsAt(Effects(cfg, env, v, o), Before(cfg, v, o), o.id, CallsRelayer(v))
  {
    var fx, n := Effects(cfg, env, v, o), Before(cfg, v, o);
    forall j: nat | j < |fx|
      ensures (fx[j].Relay? <==> CallsRelayer(v) && j == n) && (fx[j].Relay? ==> fx[j].id == o.id)
    {
      RelayPosition(cfg, env, v, o, j);
    }
  }

  /** In any world, a turn calls the relayer for its own order only, at most once, and for the right verdicts. */
  lemma TurnCalls(cfg: Config, env: Env, v: Verdict, o: Order, w: World, k: nat)
    requires k <= |Effects(cfg, env, v, o)|
    ensures SameCalls(w, Play(w, Effects(cfg, env, v, o), env.lost, k), o.id, if CalledBy(cfg, v, o, k) then 1 else 0)
  {
    var fx, n := Effects(cfg, env, v, o), Before(cfg, v, o);
    OneCall(cfg, env, v, o);
    PlayCalls(fx, n, o.id, CallsRelayer(v), env.lost, w, k);
  }

  // ---------------------------------------------------------------- accounting

  /** The counters after `k` effects whose record, if any, is at `r`. */
  ghost predicate Counted(v: Verdict, w: World, w': World, n: nat, r: int, lost: set<nat>, k: nat) {
    && w'.fills == w.fills + (if Fills(v) && k > n then 1 else 0)
    && w'.successes == w.successes + (if Fills(v) && k > r && r !in lost then 1 else 0)
    && w'.unrecorded == w.unrecorded + (if Fills(v) && k > r && r in lost then 1 else 0)
    && w'.failures == w.failures + (if Debits(v) && k > r && r !in lost then 1 else 0)
  }

  lemma {:induction false} PlayCounts(fx: seq<Effect>, n: nat, id: OrderId, v: Verdict, r: int, lost: set<nat>,
                                      w: World, k: nat)
    requires k <= |fx| && CallsAt(fx, n, id, CallsRelayer(v)) && Booked(fx, v, r)
    ensures Counted(v, w, Play(w, fx, lost, k), n, r, lost, k)
  {
    if k > 0 { PlayCounts(fx, n, id, v, r, lost, w, k - 1); }
  }

  /**
    Blameless accounting. A turn that runs to its end counts one fill exactly if the relayer
    reported one, and records one success exactly if it filled and its record did not raise; a
    failure is recorded for a solver's fault only. Cut short, it counts no more than that, and a
    fill comes before its record.
   */
  lemma PassAccounted(cfg: Config, env: Env, o: Order, table: Retry.Table, w: World, k: nat)
    requires k <= |Effects(cfg, env, Judge(cfg, env, o, table), o)|
    ensures var v := Judge(cfg, env, o, table);
            var fx := Effects(cfg, env, v, o);
            var w' := Play(w, fx, env.lost, k);
            var fill := if Fills(v) then 1 else 0;
            && 0 <= (w'.successes - w.successes) + (w'.unrecorded - w.unrecorded) <= w'.fills - w.fills <= fill
            && w.successes <= w'.successes && w.unrecorded <= w'.unrecorded && w.failures <= w'.failures
            && (k == |fx| ==>
                 && w'.fills - w.fills == fill
                 && w'.successes - w.successes == (if RecordRaises(cfg, env, v, o) then 0 else fill)
                 && w'.unrecorded - w.unrecorded == (if RecordRaises(cfg, env, v, o) then fill else 0)
                 && w'.failures - w.failures == (if Debits(v) && !RecordRaises(cfg, env, v, o) then 1 else 0))
  {
    var v := Judge(cfg, env, o, table);
    var fx, n := Effects(cfg, env, v, o), Before(cfg, v, o);
    EffectsAreBooked(cfg, env, v, o);
    OneCall(cfg, env, v, o);
    PlayCounts(fx, n, o.id, v, |PassEffects(cfg, v, o, env.now)| - 1, env.lost, w, k);
    if Fills(v) { RelayClosing(Settled, o, env.now); }
  }

  /** A filled order ends as rejected exactly if recording its fill raised. */
  lemma FilledEndsRejected(cfg: Config, env: Env, o: Order, v: Verdict)
    requires Fills(v)
    ensures Ended(cfg, env, v, o).status.Rejected? <==> RecordRaises(cfg, env, v, o)
  {
  }

  /** A pass that hands the order back as OPEN without filling it, or reverts on the user, debits nobody. */
  lemma BlamelessPasses(v: Verdict, o: Order, now: real)
    requires v == Relayed(Reverted(true)) || (Final(v, o, now).status.Open? && !Fills(v)) || v.Unfunded? || v.AwaitsUser?
    requires EndsClosed(v)
    ensures !Debits(v)
    ensures forall e :: e in Closing(v, o, now) ==> !e.Record?
  {
  }

  // ---------------------------------------------------------------- the settlement gate

  /**
    Whenever a single-chain turn calls the relayer, that same turn certified any locked fee
    against its own gas reading, had an on-chain score that met the threshold (or none where
    none is required), reached consensus if that is configured, and saved the order APPROVED
    immediately before the call. It calls once.
   */
  lemma SettlementGate(cfg: Config, env: Env, o: Order, table: Retry.Table, i: nat)
    requires !o.status.Open?
    requires var fx := Effects(cfg, env, Judge(cfg, env, o, table), o);
             i < |fx| && fx[i].Relay?
    ensures o.lockedFee > 0 ==>
              && cfg.chain.minFee <= o.lockedFee <= cfg.chain.maxFee
              && Fees.GasCost(env.gasUsed, env.gasPrice) <= o.lockedFee
    ensures match env.onChainScore
            case Some(score) => score >= env.threshold
            case None => !env.contract || !cfg.failClosed
    ensures cfg.consensus ==> env.peers && env.reached
    ensures cfg.enforcePolicy ==> env.policyAccepted
    ensures env.appFound && env.plan.SingleChain? && !o.userSubmits
    ensures o.perpetual && env.contract ==> env.funded
    ensures i > 0 && Effects(cfg, env, Judge(cfg, env, o, table), o)[i - 1] == Save(o.(status := Approved))
    ensures forall j :: 0 <= j < |Effects(cfg, env, Judge(cfg, env, o, table), o)| && j != i ==>
                          !Effects(cfg, env, Judge(cfg, env, o, table), o)[j].Relay?
  {
    var v := Judge(cfg, env, o, table);
    var fx, n := Effects(cfg, env, v, o), Before(cfg, v, o);
    forall j: nat | j < |fx| && fx[j].Relay? ensures CallsRelayer(v) && j == n {
      RelayPosition(cfg, env, v, o, j);
    }
    GatePassed(cfg, env, o, table);
    assert Staged(cfg, Stage(v), o)[n - 1] == Save(o.(status := Approved));
    assert fx[n - 1] == Staged(cfg, Stage(v), o)[n - 1];
  }

  lemma GatePassed(cfg: Config, env: Env, o: Order, table: Retry.Table)
    requires CallsRelayer(Judge(cfg, env, o, table))
    ensures o.lockedFee > 0 ==>
              && cfg.chain.minFee <= o.lockedFee <= cfg.chain.maxFee
              && Fees.GasCost(env.gasUsed, env.gasPrice) <= o.lockedFee
    ensures match env.onChainScore
            case Some(score) => score >= env.threshold
            case None => !env.contract || !cfg.failClosed
    ensures cfg.consensus ==> env.peers && env.reached
    ensures cfg.enforcePolicy ==> env.policyAccepted
    ensures env.appFound && env.plan.SingleChain? && !o.userSubmits
    ensures o.perpetual && env.contract ==> env.funded
  {
  }

  // ---------------------------------------------------------------- the maximum

  /**
    The cap is `max_executions` for every order that allows at least one execution. For a
    perpetual that allows none, the first pass that gets through all gates is relayed all the
    same: after the first relayer call the order is within its maximum exactly when the
    maximum is at least one.
   */
  lemma FirstCallIgnoresMaximum(cfg: Config, env: Env, o: Order, table: Retry.Table,
                                w: World, terms: map<OrderId, Order>)
    requires TurnFrom(cfg, env, o, table, w, terms, |Effects(cfg, env, Judge(cfg, env, o, table), o)|)
    requires w.Calls(o.id) == 0 && CallsRelayer(Judge(cfg, env, o, table))
    ensures var fx := Effects(cfg, env, Judge(cfg, env, o, table), o);
            Play(w, fx, env.lost, |fx|).Calls(o.id) <= o.maxExecutions <==> o.maxExecutions >= 1
    ensures o.maxExecutions >= 1 && (o.perpetual || o.maxExecutions == 1) ==> Cap(o) == o.maxExecutions
  {
    var v := Judge(cfg, env, o, table);
    ClosingHasItsCall(cfg, v, o, env.now);
    TurnCalls(cfg, env, v, o, w, |Effects(cfg, env, v, o)|);
  }
}
