/**
  Exactly what one tick of the round coordinator does to its current round, status by status.
 */
module RoundSteps {
  import opened Wrappers
  import opened RoundCoordinator
  import opened RoundRuns

  /** The round that was current before the tick, as the tick leaves it. */
  function Left(cfg: Config, env: Env, s: State): Round
    requires HasRound(s)
  {
    var t := AfterTick(cfg, env, s);
    if |t.rounds| >= |s.rounds| then t.rounds[|s.rounds| - 1] else Current(s)
  }

  /** A round was opened next to it. */
  predicate Opens(cfg: Config, env: Env, s: State, epoch: int) {
    var t := AfterTick(cfg, env, s);
    && |t.rounds| == |s.rounds| + 1
    && Current(t) == Round(Open, epoch, env.now, None, None, None, false, None, NoReason, env.now)
  }

  predicate OpensNothing(cfg: Config, env: Env, s: State) {
    |AfterTick(cfg, env, s).rounds| == |s.rounds|
  }

  /** A round that ends makes way for the next, unless the process dies in between. */
  predicate MakesWay(cfg: Config, env: Env, s: State, epoch: int) {
    if env.interrupted then OpensNothing(cfg, env, s) else Opens(cfg, env, s, epoch)
  }

  /** No tick touches a round before the current one. */
  lemma EarlierRoundsStay(cfg: Config, env: Env, s: State)
    ensures var t := AfterTick(cfg, env, s);
            |s.rounds| <= |t.rounds| && forall i :: 0 <= i < |s.rounds| - 1 ==> t.rounds[i] == s.rounds[i]
  {
  }

  // ---------------------------------------------------------------- epochs

  /** How many epochs the fleet is given to decide: never fewer with more submissions, and never below the floor. */
  lemma WindowGrows(cfg: Config, slate: int, more: int)
    requires slate <= more && cfg.perSubmission >= 0
    ensures cfg.floor <= DecisionWindow(cfg, slate) <= DecisionWindow(cfg, more)
    ensures slate >= 0 && cfg.base + slate * cfg.perSubmission >= cfg.floor ==>
              DecisionWindow(cfg, slate) == cfg.base + slate * cfg.perSubmission
    ensures slate <= 0 && cfg.base >= cfg.floor ==> DecisionWindow(cfg, slate) == cfg.base
  {
    if slate >= 0 {
      Grows(slate, more, cfg.perSubmission);
    } else if more >= 0 {
      Grows(0, more, cfg.perSubmission);
    }
  }

  lemma Grows(a: int, b: int, x: int)
    requires 0 <= a <= b && x >= 0
    ensures 0 <= a * x <= b * x
  {
    assert b * x == a * x + (b - a) * x;
  }

  /** `m` is the largest of these. */
  predicate IsLargest(m: int, of: seq<int>) { m in of && forall x :: x in of ==> x <= m }

  /** The epoch at which a round is opened is the latest that anything in the state is about. */
  lemma NextEpochIsLatest(s: State, now: int)
    ensures var m := NextEpoch(s, now);
            && now <= m && (s.champion.Some? ==> s.champion.value <= m) && (s.manager > 0 ==> s.manager <= m)
            && (HasRound(s) ==>
                 && Current(s).openedEpoch <= m && (Current(s).close.Some? ==> Current(s).close.value <= m)
                 && (Current(s).effective.Some? ==> Current(s).effective.value <= m))
            && (|| m == now || Some(m) == s.champion || (s.manager > 0 && m == s.manager)
                || (HasRound(s) && (m == Current(s).openedEpoch || Some(m) in {Current(s).close, Current(s).effective})))
  {
  }

  /** The epoch a round's decision belongs to: that of a closed round is not before its close, that of an open one is the next. */
  lemma BoundaryIsLatest(s: State, now: int)
    requires HasRound(s)
    ensures var b := Boundary(s, Current(s), now);
            if Current(s).close.Some? then IsLargest(b, [Current(s).close.value, now]) else b == NextEpoch(s, now)
  {
    var b := Boundary(s, Current(s), now);
    if Current(s).close.Some? { assert b == [Current(s).close.value, now][0] || b == [Current(s).close.value, now][1]; }
  }

  // ---------------------------------------------------------------- status by status

  /** An open round is closed exactly if the leader closes it when its time is up, and this fixes its epochs. */
  lemma ClosedExactlyIf(cfg: Config, env: Env, s: State)
    requires HasRound(s) && Current(s).status.Open?
    ensures var r, u, window := Current(s), Left(cfg, env, s), DecisionWindow(cfg, env.slate);
            && (u.status.Closed? <==> env.leader.close && env.elapsed)
            && (!u.status.Closed? ==> u == r)
            && (u.status.Closed? ==>
                 && u == r.(status := Closed, close := u.close, deadline := u.deadline, effective := u.effective,
                            changed := env.now)
                 && u.close.Some? && IsLargest(u.close.value, [r.openedEpoch, env.now])
                 && u.deadline.Some? && IsLargest(u.deadline.value - u.close.value, [1, window])
                 && u.effective.Some? && IsLargest(u.effective.value - u.close.value, [1, cfg.delay, window + 2]))
            && OpensNothing(cfg, env, s) && AfterTick(cfg, env, s).champion == s.champion
            && AfterTick(cfg, env, s).manager == s.manager
  {
    var u, window := Left(cfg, env, s), DecisionWindow(cfg, env.slate);
    if u.status.Closed? {
      assert u.close.value in [Current(s).openedEpoch, env.now];
      assert u.deadline.value - u.close.value in [1, window];
      assert u.effective.value - u.close.value in [1, cfg.delay, window + 2];
    }
  }

  /** The reaper takes an undecided round. */
  predicate Reaped(env: Env, r: Round) {
    && (r.status.Closed? || r.status.Replaying? || r.status.Certifying?)
    && env.leader.reap && r.deadline.Some? && env.now > r.deadline.value
  }

  /** An undecided round past its deadline is aborted for that, exactly if the leader reaps. */
  lemma ReapedExactlyIf(cfg: Config, env: Env, s: State)
    requires HasRound(s) && Reaped(env, Current(s))
    ensures Left(cfg, env, s) == Current(s).(status := Aborted, reason := DeadlineElapsed, changed := env.now)
    ensures OpensNothing(cfg, env, s) && AfterTick(cfg, env, s).champion == s.champion
  {
  }

  /** What becomes of a closed round that is not reaped: it waits for its epoch, then for its evaluation. */
  lemma EvaluatedExactlyIf(cfg: Config, env: Env, s: State)
    requires Sound(s, env.now) && HasRound(s) && !Reaped(env, Current(s))
    requires Current(s).status.Closed? || Current(s).status.Replaying?
    ensures var r, u := Current(s), Left(cfg, env, s);
            var begun := env.leader.evaluate && env.now >= r.close.value && env.leader.evaluating;
            && (!begun ==> u == r && OpensNothing(cfg, env, s))
            && (begun ==>
                 match env.evaluation
                 case FinalistFound =>
                   u == r.(status := Certifying, finalist := true, changed := env.now) && OpensNothing(cfg, env, s)
                 case EvaluationRaised => u == r.(status := Replaying) && OpensNothing(cfg, env, s)
                 case StillScoring => u == r.(status := Replaying) && OpensNothing(cfg, env, s)
                 case BenchmarkFailed =>
                   u == r.(status := Aborted, reason := Unranked, changed := env.now) && MakesWay(cfg, env, s, env.now)
                 case NobodyQualifies =>
                   u == r.(status := Aborted, reason := Unranked, changed := env.now) && MakesWay(cfg, env, s, env.now))
            && AfterTick(cfg, env, s).champion == s.champion
            && AfterTick(cfg, env, s).manager ==
               if env.leader.evaluate && r.close.value <= env.now && s.manager < env.now then env.now else s.manager
  {
    assert Shaped(Current(s), env.now);
  }

  /** What becomes of a round with a finalist that is not reaped: signed in time, vetoed, given up by the fleet, or waiting. */
  lemma CertifiedExactlyIf(cfg: Config, env: Env, s: State)
    requires Sound(s, env.now) && HasRound(s) && !Reaped(env, Current(s)) && Current(s).status.Certifying?
    ensures var r, u := Current(s), Left(cfg, env, s);
            var asked := env.leader.certify && env.consensus && !env.gate.Wait?;
            && (u.status.Certified? <==> asked && env.gate.Allow? && env.certification.Signed? && env.later <= r.deadline.value)
            && (u.status.Aborted? <==>
                 asked && (env.gate.Block? || (env.gate.Allow? && env.certification == Refused(true))))
            && (u.status.Certified? ==>
                 u == r.(status := Certified, certificate := r.effective, changed := env.later))
            && (u.status.Aborted? ==>
                 u == r.(status := Aborted, reason := if env.gate.Block? then VetoConfirmed else FleetAborted,
                         changed := env.now))
            && (!u.status.Certified? && !u.status.Aborted? ==> u == r)
            && OpensNothing(cfg, env, s) && AfterTick(cfg, env, s).champion == s.champion
            && AfterTick(cfg, env, s).manager == s.manager
  {
    assert Shaped(Current(s), env.now);
  }

  /** A finalize attempt that does not go through is tried again later. */
  predicate TriedAgain(cfg: Config, env: Env, r: Round) {
    env.merge.Unmerged? && env.merge.transient && r.effective.Some? && env.now <= r.effective.value + cfg.grace
  }

  /** The leader acts on a certified round whose epoch has come. */
  predicate Due(env: Env, r: Round) {
    env.leader.activate && r.effective.Some? && env.now >= r.effective.value
  }

  /** The epoch that grace is counted from: that of the certificate, or else the effective one; zero stands for none. */
  predicate IsAnchor(r: Round, epoch: int) {
    && epoch != 0
    && (|| r.certificate == Some(epoch)
        || ((r.certificate == None || r.certificate == Some(0)) && r.effective == Some(epoch)))
  }

  /** Exactly when a failed finalize is deferred, in any state. */
  lemma DeferredExactlyIf(cfg: Config, r: Round, merge: Merge, now: int)
    ensures Defers(cfg, r, merge, now) <==>
              && merge.Unmerged?
              && (|| (merge.unknown && (r.deadline == None || r.deadline == Some(0) || now <= r.deadline.value))
                  || (merge.transient && exists a :: IsAnchor(r, a) && a > 0 && now <= a + cfg.grace))
  {
    var anchor := Or(r.certificate, Or(r.effective, 0));
    assert anchor != 0 ==> IsAnchor(r, anchor);
    assert forall a :: IsAnchor(r, a) ==> a == anchor;
  }

  /** Without a finalist, or with a certificate already, nothing is certified. */
  lemma NothingToCertify(cfg: Config, env: Env, s: State)
    requires HasRound(s) && Current(s).status.Certifying? && !Reaped(env, Current(s))
    requires !Current(s).finalist || Current(s).certificate.Some?
    ensures AfterTick(cfg, env, s) == s
  {
  }

  /** Without a certificate no round becomes active, and none is aborted by its activation. */
  lemma NothingWithoutACertificate(cfg: Config, env: Env, s: State)
    requires HasRound(s) && Current(s).status.Certified? && Current(s).certificate.None?
    ensures AfterTick(cfg, env, s) == s.(manager := AfterTick(cfg, env, s).manager)
  {
  }

  /**
    When a round is activated. A certified round becomes active exactly if the leader acts on it
    at its epoch or later, adoption is not frozen, the submission is known and merged, this node
    may adopt, and the swap goes through. Then it is the champion, and the next round opens at
    its epoch unless the process dies.
   */
  lemma ActivatedExactlyIf(cfg: Config, env: Env, s: State)
    requires Sound(s, env.now) && HasRound(s) && Current(s).status.Certified?
    ensures var r, u, t := Current(s), Left(cfg, env, s), AfterTick(cfg, env, s);
            && (u.status.Activated? <==>
                 Due(env, r) && !env.frozen && env.known && env.merge.Merged? && env.adopts && env.swapped)
            && (u.status.Activated? ==>
                 && u == r.(status := Activated, reason := NoReason, changed := env.now)
                 && t.champion == r.effective && MakesWay(cfg, env, s, r.effective.value))
            && (!u.status.Activated? ==> t.champion == s.champion)
            && t.manager == if Due(env, r) && s.manager < env.now then env.now else s.manager
  {
    assert Shaped(Current(s), env.now);
  }

  /** Exactly when, and for what, a certified round is aborted instead, and when it waits. */
  lemma NotActivatedExactlyIf(cfg: Config, env: Env, s: State)
    requires Sound(s, env.now) && HasRound(s) && Current(s).status.Certified?
    ensures var r, u, due := Current(s), Left(cfg, env, s), Due(env, Current(s));
            && (u == r.(status := Aborted, reason := Frozen, changed := env.now) <==> due && env.frozen)
            && (u == r.(status := Aborted, reason := NotMerged, changed := env.now) <==>
                 due && !env.frozen && env.known && env.merge.Unmerged? && !TriedAgain(cfg, env, r))
            && (u == r.(status := Aborted, reason := AdoptGated, changed := env.now) <==>
                 due && !env.frozen && env.known && env.merge.Merged? && !env.adopts)
            && (u.status.Aborted? ==> u.reason in {Frozen, NotMerged, AdoptGated} && MakesWay(cfg, env, s, env.now))
            && (u.status.Certified? <==>
                 || !due
                 || (!env.frozen && (!env.known || TriedAgain(cfg, env, r) || (env.merge.Merged? && env.adopts && !env.swapped))))
            && (u.status.Certified? ==> u == r && OpensNothing(cfg, env, s))
  {
    assert Shaped(Current(s), env.now);
  }

  /** Before there is any round, a tick opens the first, at the latest of clock, champion and manager, and goes on with it. */
  lemma FirstRoundOpens(cfg: Config, env: Env, s: State)
    requires !HasRound(s)
    ensures exists epoch ::
              && IsLargest(epoch, [env.now, if s.champion.Some? then s.champion.value else env.now,
                                   if s.manager > 0 then s.manager else env.now])
              && AfterTick(cfg, env, s) == AfterTick(cfg, env,
                   s.(rounds := [Round(Open, epoch, env.now, None, None, None, false, None, NoReason, env.now)]))
  {
    var epochs := [env.now, if s.champion.Some? then s.champion.value else env.now, if s.manager > 0 then s.manager else env.now];
    var epoch := NextEpoch(s, env.now);
    assert epoch == epochs[0] || epoch == epochs[1] || epoch == epochs[2];
    assert IsLargest(epoch, epochs);
    assert s.rounds + [Round(Open, epoch, env.now, None, None, None, false, None, NoReason, env.now)] ==
           [Round(Open, epoch, env.now, None, None, None, false, None, NoReason, env.now)];
  }

  /** After a round that is over a tick opens the next one, and does nothing else. */
  lemma OpensAfterTheLast(cfg: Config, env: Env, s: State)
    requires HasRound(s) && Over(Current(s))
    ensures Left(cfg, env, s) == Current(s) && Opens(cfg, env, s, NextEpoch(s, env.now))
    ensures AfterTick(cfg, env, s).champion == s.champion && AfterTick(cfg, env, s).manager == s.manager
  {
  }

  /** A run is its ticks, one after the other. */
  lemma {:induction false} RunsGoOn(cfg: Config, first: seq<Env>, later: seq<Env>, s: State)
    ensures AfterRun(cfg, first + later, s) == AfterRun(cfg, later, AfterRun(cfg, first, s))
    ensures forall env :: AfterRun(cfg, [env], s) == AfterTick(cfg, env, s)
  {
    if later == [] {
      assert first + later == first;
    } else {
      var n := |later| - 1;
      assert (first + later)[..|first + later| - 1] == first + later[..n];
      RunsGoOn(cfg, first, later[..n], s);
    }
  }
}
