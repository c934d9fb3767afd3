/**
  The solver-round coordinator: a leader closes, evaluates, certifies and activates rounds
  against an epoch clock, aborts those that miss their deadline, and opens the next one.
 */
module RoundCoordinator {
  import opened Wrappers

  datatype Status = Open | Closed | Replaying | Certifying | Certified | Activated | Aborted

  datatype Reason = NoReason | DeadlineElapsed | VetoConfirmed | FleetAborted | Unranked | Frozen | NotMerged | AdoptGated

  datatype Round = Round(
    status: Status,
    openedEpoch: int,
    created: int,             // the clock when the round was opened
    close: Option<int>,
    deadline: Option<int>,
    effective: Option<int>,
    finalist: bool,
    certificate: Option<int>, // the effective epoch it names
    reason: Reason,
    changed: int)             // the clock at the latest status change

  datatype State = State(
    rounds: seq<Round>,       // the last one is current
    champion: Option<int>,    // the epoch the active champion was activated for
    manager: int)             // the epoch manager's current epoch

  datatype Config = Config(
    delay: int,               // SOLVER_ROUND_ACTIVATION_DELAY_EPOCHS
    floor: int,               // SOLVER_ROUND_DECISION_EPOCHS
    base: int,
    perSubmission: int,
    grace: int)               // how long a transient finalize failure is deferred

  /** Leadership is asked again at every step. */
  datatype Leader = Leader(close: bool, reap: bool, evaluate: bool, evaluating: bool, certify: bool, activate: bool)

  datatype Evaluation = EvaluationRaised | BenchmarkFailed | StillScoring | NobodyQualifies | FinalistFound

  datatype Gate = Allow | Wait | Block

  datatype Certification = Signed | Refused(fleetAborted: bool)

  datatype Merge = Merged | Unmerged(unknown: bool, transient: bool)

  /** What the world answers during one tick. */
  datatype Env = Env(
    now: int,                 // the epoch clock
    later: int,               // the clock when certification checks the deadline itself
    leader: Leader,
    elapsed: bool,            // the round was open long enough
    slate: int,               // submissions that will be benchmarked
    evaluation: Evaluation,
    consensus: bool,          // a champion consensus manager exists
    gate: Gate,
    certification: Certification,
    frozen: bool,             // adoption is disabled
    known: bool,              // the certified submission is still in the store
    merge: Merge,
    adopts: bool,             // a definite leader, or a follower that may adopt
    swapped: bool,            // the solver swap did not raise
    interrupted: bool)        // the process dies before the next round is opened

  // ---------------------------------------------------------------- epoch arithmetic

  function MaxOpt(a: int, b: Option<int>): int {
    if b.Some? then Max(a, b.value) else a
  }

  /** `a or b`: zero counts as missing. */
  function Or(a: Option<int>, b: int): int {
    if a.Some? && a.value != 0 then a.value else b
  }

  function DecisionWindow(cfg: Config, slate: int): int {
    Max(cfg.base + Max(0, slate) * cfg.perSubmission, cfg.floor)
  }

  function CloseEpoch(openedEpoch: int, now: int): int {
    Max(openedEpoch, now)
  }

  function Deadline(cfg: Config, slate: int, close: int): int {
    close + Max(1, DecisionWindow(cfg, slate))
  }

  function Effective(cfg: Config, slate: int, close: int): int {
    close + Max(1, Max(cfg.delay, DecisionWindow(cfg, slate) + 2))
  }

  /** The epoch at which the coordinator itself opens a round. */
  function NextEpoch(s: State, now: int): int {
    var e := MaxOpt(now, s.champion);
    var f := if s.manager > 0 then Max(e, s.manager) else e;
    if s.rounds == [] then f
    else
      var r := s.rounds[|s.rounds| - 1];
      Max(MaxOpt(MaxOpt(f, r.close), r.effective), r.openedEpoch)
  }

  function Boundary(s: State, r: Round, now: int): int {
    if r.close.Some? then Max(r.close.value, now) else Max(r.openedEpoch, NextEpoch(s, now))
  }

  // ---------------------------------------------------------------- the steps

  predicate HasRound(s: State) {
    s.rounds != []
  }

  function Current(s: State): Round
    requires HasRound(s)
  {
    s.rounds[|s.rounds| - 1]
  }

  function WithCurrent(s: State, r: Round): State
    requires HasRound(s)
  {
    s.(rounds := s.rounds[|s.rounds| - 1 := r])
  }

  function Opened(s: State, openedEpoch: int, now: int): State {
    s.(rounds := s.rounds + [Round(Open, openedEpoch, now, None, None, None, false, None, NoReason, now)])
  }

  function AbortedFor(s: State, reason: Reason, now: int): State
    requires HasRound(s)
  {
    WithCurrent(s, Current(s).(status := Aborted, reason := reason, changed := now))
  }

  /** A round that is over makes way for the next, unless the process dies in between. */
  function Completed(s: State, epoch: int, env: Env): State {
    if env.interrupted then s else Opened(s, epoch, env.now)
  }

  function CloseRound(cfg: Config, env: Env, s: State): State
    requires HasRound(s)
  {
    var r := Current(s);
    var close := CloseEpoch(r.openedEpoch, env.now);
    WithCurrent(s, r.(status := Closed, close := Some(close),
                      deadline := Some(Deadline(cfg, env.slate, close)),
                      effective := Some(Effective(cfg, env.slate, close)), changed := env.now))
  }

  function Evaluate(env: Env, s: State): State
    requires HasRound(s)
  {
    var epoch := Boundary(s, Current(s), env.now);
    var seen := s.(manager := Max(s.manager, epoch));
    if !env.leader.evaluating then seen
    else
      var t := WithCurrent(seen, Current(seen).(status := Replaying));
      match env.evaluation
      case EvaluationRaised => t
      case StillScoring => t
      case BenchmarkFailed => Completed(AbortedFor(t, Unranked, env.now), epoch, env)
      case NobodyQualifies => Completed(AbortedFor(t, Unranked, env.now), epoch, env)
      case FinalistFound =>
        WithCurrent(t, Current(t).(status := Certifying, finalist := true, changed := env.now))
  }

  predicate Elapsed(r: Round, now: int) {
    r.deadline.Some? && now > r.deadline.value
  }

  function Certify(env: Env, s: State): State
    requires HasRound(s)
  {
    var r := Current(s);
    if !env.consensus || r.certificate.Some? || !r.finalist || env.gate.Wait? then s
    else if env.gate.Block? then AbortedFor(s, VetoConfirmed, env.now)
    else if env.certification.Signed? && !Elapsed(r, env.later) then
      var effective := Or(r.effective, Boundary(s, r, env.now));
      WithCurrent(s, r.(status := Certified, certificate := Some(effective), effective := Some(effective),
                        changed := env.later))
    else if env.certification.Refused? && env.certification.fleetAborted then AbortedFor(s, FleetAborted, env.now)
    else s
  }

  /** The finalize outcome leaves the round certified for a later attempt. */
  predicate Defers(cfg: Config, r: Round, merge: Merge, now: int) {
    && merge.Unmerged?
    && (|| (merge.unknown && (Or(r.deadline, 0) == 0 || now <= r.deadline.value))
        || (var anchor := Or(r.certificate, Or(r.effective, 0));
            merge.transient && anchor > 0 && now <= anchor + cfg.grace))
  }

  function Activate(cfg: Config, env: Env, s: State): State
    requires HasRound(s)
  {
    var r := Current(s);
    var seen := s.(manager := Max(s.manager, env.now));
    if r.certificate.None? then seen
    else
      var effective := Or(r.certificate, Or(r.effective, env.now));
      if env.frozen then Completed(AbortedFor(seen, Frozen, env.now), env.now, env)
      else if env.now < effective || !env.known then seen
      else if env.merge.Unmerged? then
        if Defers(cfg, r, env.merge, env.now) then seen
        else Completed(AbortedFor(seen, NotMerged, env.now), env.now, env)
      else if !env.adopts then Completed(AbortedFor(seen, AdoptGated, env.now), env.now, env)
      else if !env.swapped then seen
      else
        var t := WithCurrent(seen, r.(status := Activated, effective := Some(effective), reason := NoReason,
                                      changed := env.now)).(champion := Some(effective));
        Completed(t, effective, env)
  }

  /** The state after one tick of the loop. */
  function AfterTick(cfg: Config, env: Env, s: State): State {
    var t := if s.rounds == [] then Opened(s, NextEpoch(s, env.now), env.now) else s;
    var r := Current(t);
    if r.status.Open? && env.leader.close && env.elapsed then CloseRound(cfg, env, t)
    else if r.status in {Closed, Replaying, Certifying} && env.leader.reap && Elapsed(r, env.now) then
      AbortedFor(t, DeadlineElapsed, env.now)
    else if r.status in {Closed, Replaying} && env.leader.evaluate then
      if r.close.Some? && env.now < r.close.value then t else Evaluate(env, t)
    else if r.status.Certifying? && env.leader.certify then Certify(env, t)
    else if r.status.Certified? && env.leader.activate && env.now >= Or(r.effective, Boundary(t, r, env.now)) then
      Activate(cfg, env, t)
    else if r.status in {Activated, Aborted} then Opened(t, NextEpoch(t, env.now), env.now)
    else t
  }

  function AfterRun(cfg: Config, envs: seq<Env>, s: State): State {
    if envs == [] then s else AfterTick(cfg, envs[|envs| - 1], AfterRun(cfg, envs[..|envs| - 1], s))
  }

  // ---------------------------------------------------------------- the coordinator

  class Coordinator {
    const cfg: Config
    var rounds: seq<Round>
    var champion: Option<int>
    var manager: int

    constructor (c: Config, s: State)
      ensures cfg == c && Now() == s
    {
      cfg, rounds, champion, manager := c, s.rounds, s.champion, s.manager;
    }

    ghost function Now(): State
      reads this
    {
      State(rounds, champion, manager)
    }

    method OpenNext(openedEpoch: int, now: int)
      modifies `rounds
      ensures Now() == Opened(old(Now()), openedEpoch, now)
    {
      rounds := rounds + [Round(Open, openedEpoch, now, None, None, None, false, None, NoReason, now)];
    }

    method Put(r: Round)
      requires rounds != []
      modifies `rounds
      ensures Now() == WithCurrent(old(Now()), r)
    {
      rounds := rounds[|rounds| - 1 := r];
    }

    method Abort(reason: Reason, now: int)
      requires rounds != []
      modifies `rounds
      ensures Now() == AbortedFor(old(Now()), reason, now)
    {
      Put(rounds[|rounds| - 1].(status := Aborted, reason := reason, changed := now));
    }

    method CompleteRound(reason: Reason, epoch: int, env: Env)
      requires rounds != []
      modifies `rounds
      ensures Now() == Completed(AbortedFor(old(Now()), reason, env.now), epoch, env)
    {
      Abort(reason, env.now);
      if !env.interrupted {
        OpenNext(epoch, env.now);
      }
    }

    method FollowingEpoch(now: int) returns (next: int)
      ensures next == NextEpoch(Now(), now)
    {
      next := now;
      if champion.Some? {
        next := Max(next, champion.value);
      }
      if manager > 0 {
        next := Max(next, manager);
      }
      if rounds != [] {
        var r := rounds[|rounds| - 1];
        if r.close.Some? {
          next := Max(next, r.close.value);
        }
        if r.effective.Some? {
          next := Max(next, r.effective.value);
        }
        next := Max(next, r.openedEpoch);
      }
    }

    method BoundaryOf(r: Round, now: int) returns (epoch: int)
      ensures epoch == Boundary(Now(), r, now)
    {
      if r.close.Some? {
        return Max(r.close.value, now);
      }
      epoch := FollowingEpoch(now);
      epoch := Max(r.openedEpoch, epoch);
    }

    method MaybeClose(env: Env) returns (done: bool)
      requires rounds != []
      modifies `rounds
      ensures done == (Current(old(Now())).status.Open? && env.leader.close && env.elapsed)
      ensures Now() == if done then CloseRound(cfg, env, old(Now())) else old(Now())
    {
      var r := rounds[|rounds| - 1];
      if r.status != Open || !env.leader.close || !env.elapsed {
        return false;
      }
      var close := Max(r.openedEpoch, env.now);
      var window := DecisionWindow(cfg, env.slate);
      var delay := Max(cfg.delay, window + 2);
      Put(r.(status := Closed, close := Some(close), deadline := Some(close + Max(1, window)),
             effective := Some(close + Max(1, delay)), changed := env.now));
      done := true;
    }

    method MaybeAbortExpired(env: Env) returns (done: bool)
      requires rounds != []
      modifies `rounds
      ensures done == (Current(old(Now())).status in {Closed, Replaying, Certifying} && env.leader.reap
                       && Elapsed(Current(old(Now())), env.now))
      ensures Now() == if done then AbortedFor(old(Now()), DeadlineElapsed, env.now) else old(Now())
    {
      var r := rounds[|rounds| - 1];
      if r.status !in {Closed, Replaying, Certifying} || !env.leader.reap || !Elapsed(r, env.now) {
        return false;
      }
      Abort(DeadlineElapsed, env.now);
      done := true;
    }

    method EvaluateRound(env: Env)
      requires rounds != []
      modifies `rounds, `manager
      ensures Now() == Evaluate(env, old(Now()))
    {
      var epoch := BoundaryOf(rounds[|rounds| - 1], env.now);
      manager := Max(manager, epoch);
      if !env.leader.evaluating {
        return;
      }
      Put(rounds[|rounds| - 1].(status := Replaying));
      match env.evaluation {
        case EvaluationRaised =>
        case StillScoring =>
        case BenchmarkFailed =>
          CompleteRound(Unranked, epoch, env);
        case NobodyQualifies =>
          CompleteRound(Unranked, epoch, env);
        case FinalistFound =>
          Put(rounds[|rounds| - 1].(status := Certifying, finalist := true, changed := env.now));
      }
    }

    method CertifyRound(env: Env)
      requires rounds != []
      modifies `rounds
      ensures Now() == Certify(env, old(Now()))
    {
      var r := rounds[|rounds| - 1];
      if !env.consensus || r.certificate.Some? || !r.finalist || env.gate.Wait? {
        return;
      }
      if env.gate.Block? {
        Abort(VetoConfirmed, env.now);
        return;
      }
      var boundary := BoundaryOf(r, env.now);
      if env.certification.Signed? && !Elapsed(r, env.later) {
        var effective := Or(r.effective, boundary);
        Put(r.(status := Certified, certificate := Some(effective), effective := Some(effective), changed := env.later));
      } else if env.certification.Refused? && env.certification.fleetAborted {
        Abort(FleetAborted, env.now);
      }
    }

    method ActivateRound(env: Env)
      requires rounds != []
      modifies this
      ensures Now() == Activate(cfg, env, old(Now()))
    {
      manager := Max(manager, env.now);
      var r := rounds[|rounds| - 1];
      if r.certificate.None? {
        return;
      }
      var effective := Or(r.certificate, Or(r.effective, env.now));
      if env.frozen {
        CompleteRound(Frozen, env.now, env);
        return;
      }
      if env.now < effective || !env.known {
        return;
      }
      if env.merge.Unmerged? {
        if !Defers(cfg, r, env.merge, env.now) {
          CompleteRound(NotMerged, env.now, env);
        }
        return;
      }
      if !env.adopts {
        CompleteRound(AdoptGated, env.now, env);
        return;
      }
      if !env.swapped {
        return;
      }
      champion := Some(effective);
      Put(r.(status := Activated, effective := Some(effective), reason := NoReason, changed := env.now));
      if !env.interrupted {
        OpenNext(effective, env.now);
      }
    }

    method Tick(env: Env)
      modifies this
      ensures Now() == AfterTick(cfg, env, old(Now()))
    {
      if rounds == [] {
        var next := FollowingEpoch(env.now);
        OpenNext(next, env.now);
      }
      var closed := MaybeClose(env);
      if closed {
        return;
      }
      var aborted := MaybeAbortExpired(env);
      if aborted {
        return;
      }
      var r := rounds[|rounds| - 1];
      if env.leader.evaluate && r.status in {Closed, Replaying} {
        if r.close.None? || env.now >= r.close.value {
          EvaluateRound(env);
        }
        return;
      }
      if r.status.Certifying? && env.leader.certify {
        CertifyRound(env);
        return;
      }
      var boundary := BoundaryOf(r, env.now);
      if r.status.Certified? && env.leader.activate && env.now >= Or(r.effective, boundary) {
        ActivateRound(env);
        return;
      }
      if r.status in {Activated, Aborted} {
        var next := FollowingEpoch(env.now);
        OpenNext(next, env.now);
      }
    }

    method Run(envs: seq<Env>)
      modifies this
      ensures Now() == AfterRun(cfg, envs, old(Now()))
    {
      for i := 0 to |envs|
        invariant Now() == AfterRun(cfg, envs[..i], old(Now()))
      {
        assert envs[..i + 1][..i] == envs[..i];
        Tick(envs[i]);
      }
      assert envs[..|envs|] == envs;
    }
  }
}
