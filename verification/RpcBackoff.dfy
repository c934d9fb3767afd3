/**
  Retries with exponential backoff for chain reads, and the middleware that sends writes
  through exactly once.
 */
module RpcBackoff {
  import opened Wrappers

  // ---------------------------------------------------------------- what may be retried

  /** What is known about an exception from a chain client. */
  datatype Error = Error(
    connection: bool,          // a timeout or a connection error
    status: Option<int>,       // the HTTP status it carries
    code: Option<int>,         // the JSON-RPC error code it carries
    transport: bool,           // raised by an HTTP client library
    system: bool)              // an operating-system error

  /** How one request ends: an exception, or a response that may carry a JSON-RPC error code. */
  datatype Reply = Failed(error: Error) | Answered(code: Option<int>)

  predicate RetryableStatus(status: int) {
    status in {429, 500, 502, 503, 504}
  }

  predicate RetryableCode(code: int) {
    code == -32005
  }

  predicate RetryableError(e: Error) {
    if e.connection then true
    else if e.status.Some? then RetryableStatus(e.status.value)
    else if e.code.Some? then RetryableCode(e.code.value)
    else e.transport || e.system
  }

  predicate Retryable(r: Reply) {
    match r
    case Failed(e) => RetryableError(e)
    case Answered(code) => code.Some? && RetryableCode(code.value)
  }

  // ---------------------------------------------------------------- the delay

  const MIN_DELAY: real := 0.02

  function Power(n: nat): (p: int)
    ensures p >= 1
  {
    if n == 0 then 1 else 2 * Power(n - 1)
  }

  function MinReal(a: real, b: real): real {
    if a <= b then a else b
  }

  function MaxReal(a: real, b: real): real {
    if a >= b then a else b
  }

  datatype Config = Config(attempts: int, base: real, cap: real, deadline: Option<real>)

  function Ceiling(cfg: Config, k: nat): real {
    MinReal(cfg.base * Power(k) as real, cfg.cap)
  }

  /** The pause after attempt `k`, scaled by a jitter between 0.5 and 1.5. */
  function Delay(cfg: Config, k: nat, jitter: real): real {
    MaxReal(MIN_DELAY, Ceiling(cfg, k) * jitter)
  }

  /** The longest pause. */
  function Slack(cfg: Config): real {
    MaxReal(MIN_DELAY, 1.5 * cfg.cap)
  }

  lemma DelayIsBounded(cfg: Config, k: nat, jitter: real)
    requires 0.5 <= jitter <= 1.5
    ensures MIN_DELAY <= Delay(cfg, k, jitter) <= Slack(cfg)
  {
    Jittered(Ceiling(cfg, k), jitter);
  }

  lemma Jittered(ceiling: real, jitter: real)
    requires 0.5 <= jitter <= 1.5
    ensures ceiling * jitter <= MaxReal(0.0, 1.5 * ceiling)
  {
    if ceiling >= 0.0 {
      assert ceiling * (1.5 - jitter) >= 0.0;
    } else {
      assert -ceiling * jitter >= 0.0;
    }
  }

  // ---------------------------------------------------------------- a run of attempts

  /** What the world does during one retried call. */
  datatype World = World(
    reply: nat -> Reply,
    takes: nat -> real,        // how long attempt `k` takes
    jitter: nat -> real)

  ghost predicate Plausible(w: World) {
    forall k :: w.takes(k) >= 0.0 && 0.5 <= w.jitter(k) <= 1.5
  }

  function Attempts(cfg: Config): (n: int)
    ensures n >= 1
  {
    if cfg.attempts >= 1 then cfg.attempts else 1
  }

  /** When attempt `k` begins, counted from the first. */
  function Begins(cfg: Config, w: World, k: nat): real
    decreases k, 0
  {
    if k == 0 then 0.0 else Ends(cfg, w, k - 1) + Delay(cfg, k - 1, w.jitter(k - 1))
  }

  function Ends(cfg: Config, w: World, k: nat): real
    decreases k, 1
  {
    Begins(cfg, w, k) + w.takes(k)
  }

  predicate OutOfTime(cfg: Config, w: World, k: nat) {
    cfg.deadline.Some? && Ends(cfg, w, k) >= cfg.deadline.value
  }

  /** No attempt follows attempt `k`. */
  predicate Final(cfg: Config, w: World, k: nat) {
    k >= Attempts(cfg) - 1 || !Retryable(w.reply(k)) || OutOfTime(cfg, w, k)
  }

  function LastFrom(cfg: Config, w: World, k: nat): (n: nat)
    requires k < Attempts(cfg)
    ensures k <= n < Attempts(cfg)
    decreases Attempts(cfg) - k
  {
    if Final(cfg, w, k) then k else LastFrom(cfg, w, k + 1)
  }

  /** The last attempt that is made. */
  function Last(cfg: Config, w: World): (n: nat)
    ensures n < Attempts(cfg)
  {
    LastFrom(cfg, w, 0)
  }

  class Caller {
    var calls: nat
    var clock: real

    constructor (now: real)
      ensures calls == 0 && clock == now
    {
      calls, clock := 0, now;
    }

    /** One request to the provider. */
    method Attempt(w: World, k: nat) returns (r: Reply)
      modifies this
      ensures r == w.reply(k) && calls == old(calls) + 1 && clock == old(clock) + w.takes(k)
    {
      calls, clock := calls + 1, clock + w.takes(k);
      r := w.reply(k);
    }

    method Retry(cfg: Config, w: World) returns (r: Reply)
      modifies this
      ensures var n := Last(cfg, w);
              && r == w.reply(n)
              && calls == old(calls) + n + 1
              && clock == old(clock) + Ends(cfg, w, n)
    {
      var attempts := Attempts(cfg);
      var start := clock;
      var attempt: nat := 0;
      while attempt < attempts
        invariant attempt < attempts
        invariant LastFrom(cfg, w, 0) == LastFrom(cfg, w, attempt)
        invariant calls == old(calls) + attempt
        invariant clock == start + Begins(cfg, w, attempt)
        decreases attempts - attempt
      {
        var last := attempt == attempts - 1;
        r := Attempt(w, attempt);
        if last || !Retryable(r) {
          return;
        }
        if cfg.deadline.Some? && clock - start >= cfg.deadline.value {
          return;
        }
        clock := clock + Delay(cfg, attempt, w.jitter(attempt));
        attempt := attempt + 1;
      }
      assert false;
    }

    /** The read-scoped middleware. */
    method Request(rpc: string, cfg: Config, w: World) returns (r: Reply)
      modifies this
      ensures IsWrite(rpc) ==> r == w.reply(0) && calls == old(calls) + 1
      ensures !IsWrite(rpc) ==> r == w.reply(Last(cfg, w)) && calls == old(calls) + Last(cfg, w) + 1
    {
      if IsWrite(rpc) {
        r := Attempt(w, 0);
      } else {
        r := Retry(cfg, w);
      }
    }
  }

  const WRITE_METHODS: set<string> :=
    {"eth_sendRawTransaction", "eth_sendTransaction", "eth_sign", "eth_signTransaction", "eth_signTypedData",
     "personal_sendTransaction", "personal_sign", "personal_signTypedData"}

  const WRITE_PREFIXES: seq<string> := ["anvil_", "evm_", "hardhat_", "miner_", "txpool_", "ganache_"]

  /** A method that changes state, or submits or signs a transaction. */
  predicate IsWrite(rpc: string) {
    rpc in WRITE_METHODS || exists p :: p in WRITE_PREFIXES && p <= rpc
  }

  // ---------------------------------------------------------------- what the driver refines

  /** The driver stops at the first attempt that is final, and only there. */
  lemma {:induction false} LastIsFirstFinal(cfg: Config, w: World, k: nat)
    requires k < Attempts(cfg)
    ensures var n := LastFrom(cfg, w, k);
            Final(cfg, w, n) && forall j :: k <= j < n ==> !Final(cfg, w, j)
    decreases Attempts(cfg) - k
  {
    if !Final(cfg, w, k) {
      LastIsFirstFinal(cfg, w, k + 1);
    }
  }

  lemma {:induction false} FirstFinalIsLast(cfg: Config, w: World, from: nat, k: nat)
    requires from <= k < Attempts(cfg) && Final(cfg, w, k)
    requires forall j :: from <= j < k ==> !Final(cfg, w, j)
    ensures LastFrom(cfg, w, from) == k
    decreases k - from
  {
    if from < k {
      FirstFinalIsLast(cfg, w, from + 1, k);
    }
  }

  /** Without a deadline: the first outcome that cannot be retried, or else that of the last attempt. */
  lemma WithoutDeadline(cfg: Config, w: World, k: nat)
    requires cfg.deadline.None? && k < Attempts(cfg)
    ensures Last(cfg, w) == k <==>
            (forall j :: 0 <= j < k ==> Retryable(w.reply(j)))
            && (k == Attempts(cfg) - 1 || !Retryable(w.reply(k)))
  {
    LastIsFirstFinal(cfg, w, 0);
    forall j | 0 <= j < Last(cfg, w) ensures Retryable(w.reply(j)) {
      assert !Final(cfg, w, j);
    }
    if (forall j :: 0 <= j < k ==> Retryable(w.reply(j))) && (k == Attempts(cfg) - 1 || !Retryable(w.reply(k))) {
      FirstFinalIsLast(cfg, w, 0, k);
    }
  }

  lemma {:induction false} FreeIsLater(cfg: Config, w: World, k: nat)
    requires k < Attempts(cfg)
    ensures LastFrom(cfg, w, k) <= LastFrom(cfg.(deadline := None), w, k)
    decreases Attempts(cfg) - k
  {
    if !Final(cfg, w, k) {
      FreeIsLater(cfg, w, k + 1);
    }
  }

  /** A deadline only cuts the attempts short, and every outcome but the last could be retried. */
  lemma DeadlineOnlyShortens(cfg: Config, w: World)
    ensures Last(cfg, w) <= Last(cfg.(deadline := None), w)
    ensures Last(cfg, w) < Last(cfg.(deadline := None), w) ==> OutOfTime(cfg, w, Last(cfg, w))
    ensures forall j :: 0 <= j < Last(cfg, w) ==> Retryable(w.reply(j))
  {
    var free := cfg.(deadline := None);
    FreeIsLater(cfg, w, 0);
    LastIsFirstFinal(cfg, w, 0);
    LastIsFirstFinal(free, w, 0);
    forall j | 0 <= j < Last(cfg, w) ensures Retryable(w.reply(j)) {
      assert !Final(cfg, w, j);
    }
    assert Last(cfg, w) < Last(free, w) ==> !Final(free, w, Last(cfg, w));
  }

  /** No attempt but the first begins later than the deadline plus one longest pause. */
  lemma AttemptsBeginInTime(cfg: Config, w: World, k: nat)
    requires Plausible(w) && cfg.deadline.Some?
    requires 0 < k <= Last(cfg, w)
    ensures Begins(cfg, w, k) < cfg.deadline.value + Slack(cfg)
  {
    LastIsFirstFinal(cfg, w, 0);
    assert !Final(cfg, w, k - 1);
    DelayIsBounded(cfg, k - 1, w.jitter(k - 1));
  }

  /** Attempts follow one another by at least the minimal pause. */
  lemma {:induction false} AttemptsAreSpaced(cfg: Config, w: World, j: nat, k: nat)
    requires Plausible(w) && j < k
    ensures Begins(cfg, w, k) >= Ends(cfg, w, j) + (k - j) as real * MIN_DELAY
    decreases k - j
  {
    DelayIsBounded(cfg, k - 1, w.jitter(k - 1));
    if j < k - 1 {
      AttemptsAreSpaced(cfg, w, j, k - 1);
      assert w.takes(k - 1) >= 0.0;
      assert (k - j) as real * MIN_DELAY == (k - 1 - j) as real * MIN_DELAY + MIN_DELAY;
    }
  }

  // ---------------------------------------------------------------- what is retried, and when

  /** Exactly which exceptions are worth another attempt. */
  lemma RetriedExactlyIf(e: Error)
    ensures RetryableError(e) <==>
              || e.connection
              || (e.status.Some? && (e.status.value == 429 || e.status.value == 500 || 502 <= e.status.value <= 504))
              || (e.status.None? && e.code == Some(-32005))
              || (e.status.None? && e.code.None? && (e.transport || e.system))
  {
  }

  /** A response is worth another attempt exactly if it carries the code for an exceeded limit. */
  lemma ResponseRetriedExactlyIf(r: Reply)
    ensures Retryable(r) <==>
            match r case Failed(e) => RetryableError(e) case Answered(code) => code == Some(-32005)
  {
  }

  /** The pause doubles from the base until it reaches the cap; jitter scales it, and it is never below 20 milliseconds. */
  lemma PausesDouble(cfg: Config, k: nat, jitter: real)
    ensures Ceiling(cfg, 0) == if cfg.base <= cfg.cap then cfg.base else cfg.cap
    ensures cfg.cap >= 0.0 && cfg.base >= 0.0 ==>
              Ceiling(cfg, k + 1) == if 2.0 * Ceiling(cfg, k) <= cfg.cap then 2.0 * Ceiling(cfg, k) else cfg.cap
    ensures Delay(cfg, k, jitter) == if Ceiling(cfg, k) * jitter <= 0.02 then 0.02 else Ceiling(cfg, k) * jitter
  {
    var p, q := Power(k) as real, Power(k + 1) as real;
    assert q == 2.0 * p;
    assert cfg.base * q == 2.0 * (cfg.base * p) by { Doubled(cfg.base, p, q); }
  }

  lemma Doubled(base: real, p: real, q: real)
    requires q == 2.0 * p
    ensures base * q == 2.0 * (base * p)
  {
  }

  /** The time since the first attempt began by the end of attempt `k`: all attempts so far, and the pauses between them. */
  function Elapsed(cfg: Config, w: World, k: nat): real {
    w.takes(k) + if k == 0 then 0.0 else Elapsed(cfg, w, k - 1) + Delay(cfg, k - 1, w.jitter(k - 1))
  }

  lemma {:induction false} ElapsedIsTheClock(cfg: Config, w: World, k: nat)
    ensures Ends(cfg, w, k) == Elapsed(cfg, w, k)
  {
    if k > 0 { ElapsedIsTheClock(cfg, w, k - 1); }
  }

  /** Attempt `k` is followed by another: one is left, the outcome can be retried, and any deadline is still ahead. */
  predicate GoesOn(cfg: Config, w: World, k: nat) {
    k + 1 < cfg.attempts && Retryable(w.reply(k)) && (cfg.deadline.Some? ==> Elapsed(cfg, w, k) < cfg.deadline.value)
  }

  /** The driver makes exactly the attempts up to the first that is not followed by another. */
  lemma LastExactlyIf(cfg: Config, w: World, n: nat)
    ensures Last(cfg, w) == n <==> !GoesOn(cfg, w, n) && forall k :: 0 <= k < n ==> GoesOn(cfg, w, k)
  {
    LastIsFirstFinal(cfg, w, 0);
    forall k: nat ensures GoesOn(cfg, w, k) <==> !Final(cfg, w, k) { ElapsedIsTheClock(cfg, w, k); }
    if !GoesOn(cfg, w, n) && forall k :: 0 <= k < n ==> GoesOn(cfg, w, k) {
      assert n == Last(cfg, w) || n < Last(cfg, w) || Last(cfg, w) < n;
    }
  }

  /** At least one attempt is made, and at most as many as are configured. */
  lemma AttemptsAreBounded(cfg: Config, w: World)
    ensures Last(cfg, w) + 1 <= if cfg.attempts >= 1 then cfg.attempts else 1
    ensures cfg.deadline.None? && (forall k :: Retryable(w.reply(k))) ==>
              Last(cfg, w) + 1 == if cfg.attempts >= 1 then cfg.attempts else 1
  {
    LastIsFirstFinal(cfg, w, 0);
  }

  /** The calls that are never repeated. */
  lemma WritesAreSentOnce(rpc: string)
    ensures IsWrite(rpc) <==>
              || rpc in {"eth_sendRawTransaction", "eth_sendTransaction", "eth_sign", "eth_signTransaction",
                         "eth_signTypedData", "personal_sendTransaction", "personal_sign", "personal_signTypedData"}
              || "anvil_" <= rpc || "evm_" <= rpc || "hardhat_" <= rpc || "miner_" <= rpc || "txpool_" <= rpc
              || "ganache_" <= rpc
  {
    if p :| p in WRITE_PREFIXES && p <= rpc {
      var i :| 0 <= i < 6 && WRITE_PREFIXES[i] == p;
    }
    assert "anvil_" in WRITE_PREFIXES && "evm_" in WRITE_PREFIXES && "hardhat_" in WRITE_PREFIXES;
    assert "miner_" in WRITE_PREFIXES && "txpool_" in WRITE_PREFIXES && "ganache_" in WRITE_PREFIXES;
  }
}
