/**
  What every run of the round coordinator keeps, whoever leads and whatever the fleet answers.
 */
module RoundRuns {
  import opened Wrappers
  import opened RoundCoordinator

  /** The deadline of every round it closes comes before the activation. */
  ghost predicate WellTimed(cfg: Config) {
    cfg.delay >= 2 || forall slate :: DecisionWindow(cfg, slate) >= 0
  }

  predicate Over(r: Round) {
    r.status.Activated? || r.status.Aborted?
  }

  /** The four epochs of a round that was closed. */
  predicate Timed(r: Round) {
    && r.close.Some? && r.deadline.Some? && r.effective.Some?
    && 1 <= r.close.value
    && r.openedEpoch <= r.close.value < r.deadline.value < r.effective.value
  }

  /** What a round is like at clock `now`, by its status. */
  predicate Shaped(r: Round, now: int) {
    && r.created <= now && r.changed <= now
    && match r.status
       case Open =>
         r.close.None? && r.deadline.None? && r.effective.None? && r.certificate.None? && !r.finalist
       case Closed => Timed(r) && r.certificate.None?
       case Replaying => Timed(r) && r.certificate.None?
       case Certifying => Timed(r) && r.certificate.None? && r.finalist && r.close.value <= now
       case Certified => Timed(r) && r.certificate == r.effective && r.finalist && r.close.value <= now
                         && r.changed <= r.deadline.value
       case Activated => Timed(r) && r.certificate == r.effective && r.effective.value <= r.changed
       case Aborted => Timed(r) && r.close.value <= r.changed
  }

  /** The next round is opened later, but ahead of the clock by at most the activation delay. */
  predicate Follows(a: Round, b: Round) {
    && Over(a) && Timed(a)
    && a.close.value <= b.created
    && a.openedEpoch <= b.openedEpoch
    && (a.openedEpoch == b.openedEpoch ==>
         a.reason == Unranked && a.changed == a.openedEpoch == b.created)
    && b.openedEpoch <= Max(b.created, a.effective.value)
  }

  ghost predicate Sound(s: State, now: int) {
    && 1 <= now && s.manager <= now
    && (s.champion.Some? ==> s.champion.value <= now)
    && (forall i :: 0 <= i < |s.rounds| ==> Shaped(s.rounds[i], now))
    && (s.rounds != [] ==> s.rounds[0].openedEpoch <= s.rounds[0].created)
    && forall i :: 0 < i < |s.rounds| ==> Follows(s.rounds[i - 1], s.rounds[i])
  }

  predicate ClockMoves(envs: seq<Env>, start: int) {
    && (forall i :: 0 <= i < |envs| ==> start <= envs[i].now <= envs[i].later)
    && forall i, j :: 0 <= i < j < |envs| ==> envs[i].later <= envs[j].now
  }

  // ---------------------------------------------------------------- epoch arithmetic

  /** Certification ends before activation exactly if the window is no negative number or the delay is at least two. */
  lemma DeadlineBeforeActivation(cfg: Config, slate: int, close: int)
    ensures close < Deadline(cfg, slate, close)
    ensures Deadline(cfg, slate, close) < Effective(cfg, slate, close)
            <==> DecisionWindow(cfg, slate) >= 0 || cfg.delay >= 2
  {
  }

  // ---------------------------------------------------------------- one tick

  lemma ReplacedCurrent(s: State, r: Round, now: int)
    requires Sound(s, now) && s.rounds != [] && Shaped(r, now)
    requires r.openedEpoch == Current(s).openedEpoch && r.created == Current(s).created
    ensures Sound(WithCurrent(s, r), now)
  {
  }

  lemma OpenedNext(s: State, epoch: int, now: int)
    requires Sound(s, now)
    requires s.rounds == [] ==> epoch <= now
    requires s.rounds != [] ==> Follows(Current(s), Opened(s, epoch, now).rounds[|s.rounds|])
    ensures Sound(Opened(s, epoch, now), now)
  {
  }

  /** The clock alone breaks nothing. */
  lemma TimePasses(s: State, before: int, now: int)
    requires Sound(s, before) && before <= now
    ensures Sound(s, now)
  {
  }

  lemma OpensByItself(s: State, now: int)
    requires Sound(s, now)
    requires s.rounds == [] || Over(Current(s))
    ensures Sound(Opened(s, NextEpoch(s, now), now), now)
  {
    if s.rounds != [] {
      assert Shaped(Current(s), now);
    }
    OpenedNext(s, NextEpoch(s, now), now);
  }

  /** A round that ends at `now` and makes way for the next one. */
  lemma Completes(s: State, r: Round, epoch: int, env: Env)
    requires Sound(s, env.now) && s.rounds != [] && Shaped(r, env.now) && Over(r)
    requires r.openedEpoch == Current(s).openedEpoch && r.created == Current(s).created && r.changed == env.now
    requires r.close.value <= env.now
    requires r.openedEpoch <= epoch <= Max(env.now, r.effective.value)
    requires r.openedEpoch == epoch ==> r.reason == Unranked && env.now == epoch
    ensures Sound(Completed(WithCurrent(s, r), epoch, env), env.now)
  {
    ReplacedCurrent(s, r, env.now);
    if !env.interrupted {
      OpenedNext(WithCurrent(s, r), epoch, env.now);
    }
  }

  lemma ClosingIsSound(cfg: Config, env: Env, s: State)
    requires WellTimed(cfg) && Sound(s, env.now) && s.rounds != [] && Current(s).status.Open?
    ensures Sound(CloseRound(cfg, env, s), env.now)
  {
    DeadlineBeforeActivation(cfg, env.slate, CloseEpoch(Current(s).openedEpoch, env.now));
    assert cfg.delay < 2 ==> DecisionWindow(cfg, env.slate) >= 0;
    assert Shaped(Current(s), env.now);
    ReplacedCurrent(s, Current(CloseRound(cfg, env, s)), env.now);
  }

  lemma AbortingIsSound(s: State, reason: Reason, now: int)
    requires Sound(s, now) && s.rounds != []
    requires Current(s).status in {Closed, Replaying, Certifying} && Current(s).close.value <= now
    ensures Sound(AbortedFor(s, reason, now), now)
  {
    assert Shaped(Current(s), now);
    ReplacedCurrent(s, Current(AbortedFor(s, reason, now)), now);
  }

  lemma EvaluatingIsSound(env: Env, s: State)
    requires Sound(s, env.now) && s.rounds != [] && Current(s).status in {Closed, Replaying}
    requires Current(s).close.Some? && Current(s).close.value <= env.now
    ensures Sound(Evaluate(env, s), env.now)
  {
    var r, epoch := Current(s), Boundary(s, Current(s), env.now);
    assert Shaped(r, env.now) && epoch == env.now;
    var seen := s.(manager := Max(s.manager, epoch));
    assert Sound(seen, env.now);
    var replaying := r.(status := Replaying);
    ReplacedCurrent(seen, replaying, env.now);
    var t := WithCurrent(seen, replaying);
    ReplacedCurrent(t, replaying.(status := Certifying, finalist := true, changed := env.now), env.now);
    Completes(t, replaying.(status := Aborted, reason := Unranked, changed := env.now), epoch, env);
  }

  lemma CertifyingIsSound(env: Env, s: State)
    requires Sound(s, env.now) && s.rounds != [] && Current(s).status.Certifying? && env.now <= env.later
    ensures Sound(Certify(env, s), env.later)
  {
    var r := Current(s);
    assert Shaped(r, env.now);
    TimePasses(s, env.now, env.later);
    AbortingIsSound(s, VetoConfirmed, env.now);
    AbortingIsSound(s, FleetAborted, env.now);
    TimePasses(AbortedFor(s, VetoConfirmed, env.now), env.now, env.later);
    TimePasses(AbortedFor(s, FleetAborted, env.now), env.now, env.later);
    if !Elapsed(r, env.later) && Or(r.effective, Boundary(s, r, env.now)) == r.effective.value {
      ReplacedCurrent(s, r.(status := Certified, certificate := r.effective, effective := r.effective,
                            changed := env.later), env.later);
    }
  }

  lemma ActivatingIsSound(cfg: Config, env: Env, s: State)
    requires Sound(s, env.now) && s.rounds != [] && Current(s).status.Certified?
    requires env.now >= Or(Current(s).effective, Boundary(s, Current(s), env.now))
    ensures Sound(Activate(cfg, env, s), env.now)
  {
    var r := Current(s);
    assert Shaped(r, env.now);
    var seen := s.(manager := Max(s.manager, env.now));
    assert Sound(seen, env.now);
    Completes(seen, r.(status := Aborted, reason := Frozen, changed := env.now), env.now, env);
    Completes(seen, r.(status := Aborted, reason := NotMerged, changed := env.now), env.now, env);
    Completes(seen, r.(status := Aborted, reason := AdoptGated, changed := env.now), env.now, env);
    var crowned := seen.(champion := r.effective);
    assert Sound(crowned, env.now);
    var done := r.(status := Activated, reason := NoReason, changed := env.now);
    Completes(crowned, done, r.effective.value, env);
    assert WithCurrent(seen, done).(champion := r.effective) == WithCurrent(crowned, done);
  }

  lemma StepIsSound(cfg: Config, env: Env, s: State)
    requires WellTimed(cfg) && Sound(s, env.now) && env.now <= env.later && s.rounds != []
    ensures Sound(AfterTick(cfg, env, s), env.later)
  {
    var r := Current(s);
    assert Shaped(r, env.now);
    if r.status.Certifying? && !Elapsed(r, env.now) {
      CertifyingIsSound(env, s);
      TimePasses(s, env.now, env.later);
    } else {
      if r.status.Open? {
        ClosingIsSound(cfg, env, s);
      } else if Over(r) {
        OpensByItself(s, env.now);
      } else if r.status.Certified? {
        if env.now >= Or(r.effective, Boundary(s, r, env.now)) {
          ActivatingIsSound(cfg, env, s);
        }
      } else if Elapsed(r, env.now) && env.leader.reap {
        AbortingIsSound(s, DeadlineElapsed, env.now);
      } else if r.close.value <= env.now {
        Undecided(cfg, env, s);
      }
      TimePasses(AfterTick(cfg, env, s), env.now, env.later);
    }
  }

  lemma Undecided(cfg: Config, env: Env, s: State)
    requires Sound(s, env.now) && env.now <= env.later && s.rounds != []
    requires Current(s).status in {Closed, Replaying, Certifying}
    requires Current(s).close.Some? && Current(s).close.value <= env.now
    requires Elapsed(Current(s), env.now) || !Current(s).status.Certifying?
    requires !(env.leader.reap && Elapsed(Current(s), env.now))
    ensures Sound(AfterTick(cfg, env, s), env.now)
  {
    if Current(s).status.Certifying? {
      assert Shaped(Current(s), env.now);
      AbortingIsSound(s, VetoConfirmed, env.now);
      AbortingIsSound(s, FleetAborted, env.now);
    } else if env.leader.evaluate {
      EvaluatingIsSound(env, s);
    }
  }

  lemma TickIsSound(cfg: Config, env: Env, s: State)
    requires WellTimed(cfg) && Sound(s, env.now) && env.now <= env.later
    ensures Sound(AfterTick(cfg, env, s), env.later)
  {
    if s.rounds == [] {
      var t := Opened(s, NextEpoch(s, env.now), env.now);
      OpensByItself(s, env.now);
      StepIsSound(cfg, env, t);
      assert AfterTick(cfg, env, t) == AfterTick(cfg, env, s);
    } else {
      StepIsSound(cfg, env, s);
    }
  }

  // ---------------------------------------------------------------- whole runs

  function Latest(envs: seq<Env>, start: int): int {
    if envs == [] then start else envs[|envs| - 1].later
  }

  /** Every run keeps the history of rounds sound. */
  lemma {:induction false} RunsAreSound(cfg: Config, envs: seq<Env>, s: State, start: int)
    requires WellTimed(cfg) && Sound(s, start) && ClockMoves(envs, start)
    ensures Sound(AfterRun(cfg, envs, s), Latest(envs, start))
  {
    if envs != [] {
      var n := |envs| - 1;
      RunsAreSound(cfg, envs[..n], s, start);
      TimePasses(AfterRun(cfg, envs[..n], s), Latest(envs[..n], start), envs[n].now);
      TickIsSound(cfg, envs[n], AfterRun(cfg, envs[..n], s));
    }
  }

  /** At any time at most one round is under way, and it is the current one. */
  lemma OneRoundUnderWay(s: State, now: int)
    requires Sound(s, now)
    ensures forall i :: 0 <= i < |s.rounds| - 1 ==> Over(s.rounds[i])
  {
    forall i | 0 <= i < |s.rounds| - 1 ensures Over(s.rounds[i]) {
      assert Follows(s.rounds[i + 1 - 1], s.rounds[i + 1]);
    }
  }

  /** Rounds open in order, and a round is ahead of the clock by at most its predecessor's activation delay. */
  lemma {:induction false} RoundsOpenInOrder(s: State, now: int, i: nat, j: nat)
    requires Sound(s, now) && i < j < |s.rounds|
    ensures s.rounds[i].openedEpoch <= s.rounds[j].openedEpoch
    ensures s.rounds[i].openedEpoch == s.rounds[j].openedEpoch ==>
              s.rounds[i].reason == Unranked && s.rounds[i].changed == s.rounds[i].openedEpoch
    ensures var a, b := s.rounds[j - 1], s.rounds[j];
            && a.close.Some? && a.effective.Some?
            && b.openedEpoch - b.created <= a.effective.value - a.close.value
    decreases j
  {
    assert Follows(s.rounds[j - 1], s.rounds[j]);
    if i < j - 1 {
      RoundsOpenInOrder(s, now, i, j - 1);
    }
  }

  /** Certification happens within the deadline and activation at the effective epoch or later. */
  lemma DecisionsAreTimely(s: State, now: int, i: nat)
    requires Sound(s, now) && i < |s.rounds|
    ensures var r := s.rounds[i];
            && (r.close.Some? ==> Timed(r))
            && (r.status.Certified? ==> r.changed <= r.deadline.value)
            && (r.status.Activated? ==> r.effective.Some? && r.changed >= r.effective.value
                                        && r.certificate == r.effective)
  {
    assert Shaped(s.rounds[i], now);
  }

  // ---------------------------------------------------------------- single steps

  /**
    When nobody qualifies, the next round opens at the current epoch: later than the one
    before it, unless the clock still stands where that one opened.
   */
  lemma ReopeningAfterEvaluation(cfg: Config, env: Env, s: State)
    requires Sound(s, env.now) && s.rounds != [] && Current(s).status in {Closed, Replaying}
    requires env.leader.evaluate && env.leader.evaluating && !env.interrupted
    requires env.evaluation.BenchmarkFailed? || env.evaluation.NobodyQualifies?
    requires !(env.leader.reap && Elapsed(Current(s), env.now)) && env.now >= Current(s).close.value
    ensures var t := AfterTick(cfg, env, s);
            && |t.rounds| == |s.rounds| + 1
            && Current(t).openedEpoch == env.now
            && (Current(t).openedEpoch > Current(s).openedEpoch <==> env.now != Current(s).openedEpoch)
  {
    assert Shaped(Current(s), env.now);
  }

  predicate Leads(l: Leader) {
    l.close || l.reap || l.evaluate || l.evaluating || l.certify || l.activate
  }

  /** A node that never leads changes no round: it can only open a next one when the last is over. */
  lemma FollowersOnlyOpen(cfg: Config, env: Env, s: State)
    requires !Leads(env.leader)
    ensures var t := AfterTick(cfg, env, s);
            && s.rounds <= t.rounds && |t.rounds| <= |s.rounds| + 1
            && t.manager == s.manager && t.champion == s.champion
            && (t.rounds != s.rounds ==> s.rounds == [] || Over(Current(s)))
            && forall i :: |s.rounds| <= i < |t.rounds| ==> t.rounds[i].status.Open?
  {
  }

  /** A certification attempt is made only when the deadline has not passed. */
  lemma CertifiedOnlyInTime(cfg: Config, env: Env, s: State)
    requires Sound(s, env.now) && env.now <= env.later && s.rounds != []
    requires AfterTick(cfg, env, s).rounds[|s.rounds| - 1].status.Certified? && !Current(s).status.Certified?
    ensures Current(s).status.Certifying? && env.leader.certify
    ensures env.now <= env.later <= Current(s).deadline.value
  {
    assert Shaped(Current(s), env.now);
  }

  /** Activation is by a leader, of a certified round, at its effective epoch or later. */
  lemma ActivatedOnlyWhenDue(cfg: Config, env: Env, s: State)
    requires Sound(s, env.now) && s.rounds != []
    requires AfterTick(cfg, env, s).rounds[|s.rounds| - 1].status.Activated? && !Current(s).status.Activated?
    ensures Current(s).status.Certified? && env.leader.activate && env.merge.Merged? && !env.frozen
    ensures Current(s).effective.Some? && env.now >= Current(s).effective.value
    ensures AfterTick(cfg, env, s).champion == Current(s).effective
  {
    assert Shaped(Current(s), env.now);
  }

  /**
    A finalize attempt that does not go through is deferred exactly when its failure is a
    transient one within the grace period. An unknown outcome alone is never deferred: by the
    effective epoch the decision deadline, which bounds that wait, has passed.
   */
  lemma UnknownOutcomesAreNotDeferred(cfg: Config, env: Env, s: State)
    requires Sound(s, env.now) && s.rounds != [] && Current(s).status.Certified?
    requires env.leader.activate && env.now >= Current(s).effective.value
    requires !env.frozen && env.known && env.merge.Unmerged?
    ensures var r, t := Current(s), AfterTick(cfg, env, s);
            && t.rounds[|s.rounds| - 1] ==
               if env.merge.transient && env.now <= r.effective.value + cfg.grace then r
               else r.(status := Aborted, reason := NotMerged, changed := env.now)
  {
    assert Shaped(Current(s), env.now);
  }
}
