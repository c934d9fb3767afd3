/**
  From which states the bound on relayer calls holds, whatever happens next.

  An OPEN record that counts too few executions may be relayed too often, but only if its terms
  let the relayer be called at all, and only while its deadline leaves room for the calls, which
  its cooldown keeps apart. That is the exact condition, for a clock that runs forward.
 */
module CallBounds {
  import opened Wrappers
  import opened OrderPass
  import opened OrderSafety
  import opened OrderRuns
  import Retry = ConsensusRetry

  // ---------------------------------------------------------------- what one record may do

  /** Neither the user's own submission nor a locked fee out of range keeps the order from the relayer. */
  predicate Relayable(cfg: Config, o: Order) {
    !o.userSubmits && (o.lockedFee > 0 ==> cfg.chain.minFee <= o.lockedFee <= cfg.chain.maxFee)
  }

  /** How often the relayer is called for an OPEN order if every call is filled. */
  function CallsLeft(o: Order): int {
    if o.perpetual then Max(1, o.maxExecutions - o.executionCount) else 1
  }

  function Interval(cfg: Config, o: Order): real {
    if o.cooldown < cfg.minInterval then cfg.minInterval else o.cooldown
  }

  /** The least time between two fills of a perpetual. */
  function Pause(cfg: Config, o: Order): real {
    if o.perpetual && Interval(cfg, o) > 0.0 then Interval(cfg, o) else 0.0
  }

  /** The earliest time, from `now` on, at which an OPEN order may be claimed. */
  function NextClaim(cfg: Config, o: Order, now: real): real {
    if o.perpetual && o.lastFilledAt > 0.0 && o.lastFilledAt + Interval(cfg, o) > now
    then o.lastFilledAt + Interval(cfg, o) else now
  }

  /**
    One more call than the cap allows is possible: the record counts so few executions that it
    would be reopened often enough, and the last of these calls comes before its deadline.
   */
  predicate MayOverrun(cfg: Config, o: Order, calls: int, now: real) {
    && calls <= Cap(o) && Relayable(cfg, o) && Cap(o) - calls < CallsLeft(o)
    && (o.deadline <= 0.0 || NextClaim(cfg, o, now) + Retry.Times(Cap(o) - calls, Pause(cfg, o)) <= o.deadline)
  }

  function Timed(cfg: Config, now: real): Rule {
    Rule((o: Order, c: int) => !MayOverrun(cfg, o, c, now), (env: Env) => env.now >= now)
  }

  /** No rule at all. */
  function Anything(): Rule {
    Rule((o: Order, c: int) => true, (env: Env) => true)
  }

  /** An order that counts all its calls, and has one left, never overruns. */
  lemma CountingNeverOverruns(cfg: Config, o: Order, c: int, now: real)
    requires Ready(o, c)
    ensures !MayOverrun(cfg, o, c, now)
  {
  }

  lemma NewOrdersNeverOverrun(cfg: Config, o: Order, now: real)
    ensures Timed(cfg, now).ok(NewOrder(o), 0)
  {
    assert !MayOverrun(cfg, NewOrder(o), 0, now);
  }

  lemma TimeOnlyHelps(cfg: Config, o: Order, c: int, now: real, later: real)
    requires now <= later && MayOverrun(cfg, o, c, later)
    ensures MayOverrun(cfg, o, c, now)
  {
  }

  lemma RelayedIsRelayable(cfg: Config, env: Env, o: Order, table: Retry.Table)
    requires CallsRelayer(Judge(cfg, env, o, table))
    ensures Relayable(cfg, o)
  {
    GatePassed(cfg, env, o, table);
  }

  /** Without a call left, a record that may be claimed now may overrun. */
  lemma ClaimedHasACallLeft(cfg: Config, o: Order, c: int, now: real)
    requires c <= Cap(o) && Relayable(cfg, o) && !MayOverrun(cfg, o, c, now)
    requires Eligible(cfg, o, now) && !Stale(o, now)
    ensures c < Cap(o)
  {
    assert NextClaim(cfg, o, now) == now && Retry.Times(0, Pause(cfg, o)) == 0.0;
  }

  /** A fill uses up one call and one pause. */
  lemma FillStaysWithin(cfg: Config, o: Order, c: int, now: real, at: real)
    requires 0.0 < now <= at && c < Cap(o) && !MayOverrun(cfg, o, c, now)
    requires Eligible(cfg, o, now) && AfterFill(o, at).status.Open?
    ensures !MayOverrun(cfg, AfterFill(o, at), c + 1, now)
  {
    var f := AfterFill(o, at);
    var n: nat := Cap(o) - c;
    assert NextClaim(cfg, o, now) == now;
    assert NextClaim(cfg, f, now) >= now + Pause(cfg, o);
    assert Retry.Times(n, Pause(cfg, o)) == Retry.Times(n - 1, Pause(cfg, o)) + Pause(cfg, o);
  }

  /** A rest, or a deferred round, uses up time only. */
  lemma RestStaysWithin(cfg: Config, o: Order, f: Order, c: int, now: real)
    requires !MayOverrun(cfg, o, c, now) && Eligible(cfg, o, now)
    requires f == o.(lastFilledAt := f.lastFilledAt)
    ensures !MayOverrun(cfg, f, c, now)
  {
    assert NextClaim(cfg, o, now) == now <= NextClaim(cfg, f, now);
  }

  /** The ways in which a pass leaves an order OPEN. */
  lemma ReopenedBy(v: Verdict, o: Order, now: real)
    requires EndsClosed(v) && Final(v, o, now).status.Open?
    ensures var f := Final(v, o, now);
            v == Relayed(Settled) || (!CallsRelayer(v) && f == o.(status := Open, lastFilledAt := f.lastFilledAt))
    ensures v == Relayed(Settled) ==> Final(v, o, now) == AfterFill(o, now)
  {
  }

  lemma AllowedInTime(cfg: Config, env: Env, o: Order, table: Retry.Table, c: int, now: real)
    requires now > 0.0 && env.now >= now && EndsWell(env)
    requires c <= Cap(o) && !MayOverrun(cfg, o, c, now) && Eligible(cfg, o, now) && !Stale(o, now)
    ensures Allowed(Timed(cfg, now), Judge(cfg, env, Assign(o), table), Assign(o), env.now, c)
  {
    var v := Judge(cfg, env, Assign(o), table);
    EndsWellIsClosed(cfg, env, Assign(o), table);
    if CallsRelayer(v) {
      RelayedIsRelayable(cfg, env, Assign(o), table);
      ClaimedHasACallLeft(cfg, o, c, now);
    }
    var f := Final(v, Assign(o), env.now);
    if f.status.Open? {
      ReopenedBy(v, Assign(o), env.now);
      assert Assign(o).(status := Open) == o;
      if v == Relayed(Settled) {
        assert f == AfterFill(o, env.now);
        FillStaysWithin(cfg, o, c, now, env.now);
      } else {
        RestStaysWithin(cfg, o, f, c, now);
      }
    }
  }

  lemma TimedIsLawful(cfg: Config, now: real)
    requires now > 0.0
    ensures Lawful(cfg, Timed(cfg, now), now)
  {
    var rule := Timed(cfg, now);
    forall o, c | rule.ok(o, c) && c <= Cap(o) && Eligible(cfg, o, now) && !Stale(o, now)
      ensures Promised(cfg, rule, Assign(o), c)
    {
      forall env, table | EndsWell(env) && rule.timely(env)
        ensures Allowed(rule, Judge(cfg, env, Assign(o), table), Assign(o), env.now, c)
      {
        AllowedInTime(cfg, env, o, table, c, now);
      }
    }
  }

  // ---------------------------------------------------------------- runs with a clock that runs forward

  /** The time of the last tick, `now` if there was none. */
  function ClockAfter(now: real, events: seq<Event>): real {
    if events == [] then now
    else
      var e := events[|events| - 1];
      if e.Tick? then e.now else ClockAfter(now, events[..|events| - 1])
  }

  /** No tick comes before an earlier one, and no turn of a tick before its snapshot. */
  ghost predicate Forward(now: real, events: seq<Event>) {
    events != [] ==>
      var before, e := events[..|events| - 1], events[|events| - 1];
      Forward(now, before) && (e.Tick? ==> ClockAfter(now, before) <= e.now && forall id :: e.envs(id).now >= e.now)
  }

  lemma {:induction false} ClockRunsForward(now: real, events: seq<Event>)
    requires Forward(now, events)
    ensures now <= ClockAfter(now, events)
  {
    if events != [] { ClockRunsForward(now, events[..|events| - 1]); }
  }

  lemma LaterIsSound(cfg: Config, s: State, terms: map<OrderId, Order>, now: real, later: real)
    requires now <= later && SoundBy(Timed(cfg, now), s, terms)
    ensures SoundBy(Timed(cfg, later), s, terms)
  {
    forall o, c | Timed(cfg, now).ok(o, c) ensures Timed(cfg, later).ok(o, c) {
      if MayOverrun(cfg, o, c, later) { TimeOnlyHelps(cfg, o, c, now, later); }
    }
  }

  lemma EventStaysWithin(cfg: Config, s: State, e: Event, terms: map<OrderId, Order>, now: real)
    requires SoundBy(Timed(cfg, now), s, terms) && now > 0.0 && Fair(cfg, e)
    requires e.Submission? ==> e.order.id !in terms
    requires e.Tick? ==> now <= e.now && forall id :: e.envs(id).now >= e.now
    ensures SoundBy(Timed(cfg, if e.Tick? then e.now else now), AfterEvent(cfg, s, e), TermsAfter(terms, e))
  {
    if e.Tick? {
      LaterIsSound(cfg, s, terms, now, e.now);
      TimedIsLawful(cfg, e.now);
      EventKeepsRule(cfg, Timed(cfg, e.now), s, e, terms);
    } else {
      if e.Submission? { NewOrdersNeverOverrun(cfg, e.order, now); }
      EventKeepsRule(cfg, Timed(cfg, now), s, e, terms);
    }
  }

  /** Once no OPEN record may overrun, none ever may. */
  lemma {:induction false} RunStaysWithin(cfg: Config, s: State, events: seq<Event>, terms: map<OrderId, Order>, now: real)
    requires SoundBy(Timed(cfg, now), s, terms) && now > 0.0
    requires FairFrom(cfg, terms, events) && Forward(now, events)
    ensures SoundBy(Timed(cfg, ClockAfter(now, events)), RunFrom(cfg, s, events), TermsOf(terms, events))
  {
    if events != [] {
      var n := |events| - 1;
      FairBefore(cfg, terms, events, n);
      RunStaysWithin(cfg, s, events[..n], terms, now);
      ClockRunsForward(now, events[..n]);
      EventStaysWithin(cfg, RunFrom(cfg, s, events[..n]), events[n], TermsOf(terms, events[..n]), ClockAfter(now, events[..n]));
    }
  }

  lemma {:induction false} TermsStay(terms: map<OrderId, Order>, events: seq<Event>, id: OrderId)
    requires NewIds(terms, events) && id in terms
    ensures id in TermsOf(terms, events) && TermsOf(terms, events)[id] == terms[id]
  {
    if events != [] {
      var n := |events| - 1;
      assert forall i :: 0 <= i < n ==> events[..n][i] == events[i] && events[..n][..i] == events[..i];
      TermsStay(terms, events[..n], id);
    }
  }
}
