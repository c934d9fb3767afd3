/**
  The cross-chain compiler: a solver's plan of chain legs and bridge requests becomes a
  plan of alternating solver legs and bridge legs with escrows, rollbacks and simulation
  mocks; and the check validators apply to each compiled leg.
 */
module BridgeCompiler {
  import opened Wrappers
  import opened LegPlans
  import opened BridgeRegistry

  datatype ChainLeg = ChainLeg(
    chain: int,
    interactions: seq<Interaction>,
    selector: string,
    params: string,
    metadata: Metadata)

  datatype BridgeRequest = BridgeRequest(
    token: string,
    amount: int,
    src: int,
    dst: int,
    minOutput: int)

  datatype CrossChainPlan = CrossChainPlan(legs: seq<ChainLeg>, requests: seq<BridgeRequest>)

  // ---------------------------------------------------------------- validation

  datatype Flaw =
    | NoLegs
    | RequestCount
    | AmountNotPositive(at: nat)
    | SameChain(at: nat)
    | SourceMismatch(at: nat)
    | DestinationMismatch(at: nat)
    | BridgeCall(leg: nat)

  predicate AboutRequest(f: Flaw) {
    f.AmountNotPositive? || f.SameChain? || f.SourceMismatch? || f.DestinationMismatch?
  }

  /** What each reported error says about the plan. */
  predicate Flawed(p: CrossChainPlan, f: Flaw) {
    match f
    case NoLegs => p.legs == []
    case RequestCount => p.legs != [] && |p.requests| != |p.legs| - 1
    case AmountNotPositive(i) => p.legs != [] && i < |p.requests| && p.requests[i].amount <= 0
    case SameChain(i) => p.legs != [] && i < |p.requests| && p.requests[i].src == p.requests[i].dst
    case SourceMismatch(i) =>
      i < |p.requests| && i < |p.legs| && p.legs[i].chain != p.requests[i].src
    case DestinationMismatch(i) =>
      i < |p.requests| && i + 1 < |p.legs| && p.legs[i + 1].chain != p.requests[i].dst
    case BridgeCall(i) =>
      i < |p.legs| && exists ix :: ix in p.legs[i].interactions && CallsBridge(ix)
  }

  /** A plan the compiler accepts: requests join neighbouring legs, solvers call no bridge. */
  predicate WellFormed(p: CrossChainPlan) {
    && p.legs != []
    && |p.requests| == |p.legs| - 1
    && (forall i :: 0 <= i < |p.requests| ==> Joins(p, i))
    && forall i :: 0 <= i < |p.legs| ==> forall ix :: ix in p.legs[i].interactions ==> !CallsBridge(ix)
  }

  predicate Joins(p: CrossChainPlan, i: nat)
    requires i < |p.requests| && i + 1 < |p.legs|
  {
    var br := p.requests[i];
    && br.amount > 0
    && br.src != br.dst
    && br.src == p.legs[i].chain
    && br.dst == p.legs[i + 1].chain
  }

  lemma WellFormedMeansFlawless(p: CrossChainPlan)
    ensures WellFormed(p) <==> forall f :: !Flawed(p, f)
    ensures p.legs == [] ==> forall f :: Flawed(p, f) <==> f == NoLegs
  {
    if WellFormed(p) {
      forall f: Flaw ensures !Flawed(p, f) {
        if f.AmountNotPositive? || f.SameChain? || f.SourceMismatch? || f.DestinationMismatch? {
          assert f.at < |p.requests| ==> Joins(p, f.at);
        }
      }
    }
    if forall f :: !Flawed(p, f) {
      assert !Flawed(p, NoLegs) && !Flawed(p, RequestCount);
      forall i | 0 <= i < |p.requests| ensures Joins(p, i) {
        assert !Flawed(p, AmountNotPositive(i)) && !Flawed(p, SameChain(i));
        assert !Flawed(p, SourceMismatch(i)) && !Flawed(p, DestinationMismatch(i));
      }
      forall i | 0 <= i < |p.legs|
        ensures forall ix :: ix in p.legs[i].interactions ==> !CallsBridge(ix)
      {
        assert !Flawed(p, BridgeCall(i));
      }
    }
  }

  // ---------------------------------------------------------------- the world

  datatype Built = Built(interactions: seq<Interaction>, mock: Metadata)

  /** What the outside answers while one bridge request is compiled. */
  datatype Answers = Answers(
    named: Option<int>,              // chain named by the request's token, if it is a CAIP-10 address
    quotes: Quoting,
    build: Outcome<Built>,           // the adapter's bridge calls and mock configuration
    reverseNamed: Option<int>,
    reverseQuotes: Quoting,
    reverseBuild: Outcome<seq<Interaction>>,
    now: int)                        // clock, when the order has no deadline

  datatype Escrow = Escrow(order: string, leg: int, token: string, amount: int, user: string, deadline: int)

  datatype Compiled = Compiled(
    plan: MultiLegPlan,
    escrows: seq<Escrow>,
    quotes: seq<Quote>,
    mocks: map<int, Metadata>)

  /** The lists the compiler appends to. */
  datatype Draft = Draft(
    forward: seq<LegPlan>,
    rollback: seq<LegPlan>,
    escrows: seq<Escrow>,
    quotes: seq<Quote>,
    mocks: map<int, Metadata>)

  datatype CompileError =
    | Invalid
    | NoRoute(at: nat)
    | OutputTooLow(at: nat)
    | AdapterMissing(at: nat)
    | BuildFailed(at: nat)

  datatype Priced = Found(quote: Quote, built: Built) | Failed(error: CompileError)

  datatype Result = Ok(compiled: Compiled) | Err(error: CompileError)

  /** Everything one compilation reads. */
  datatype Job = Job(
    plan: CrossChainPlan,
    order: string,
    user: string,
    deadline: int,
    adapters: seq<Adapter>,
    answers: nat -> Answers)

  function Percent99(x: int): int {
    if x >= 0 then x * 99 / 100 else -(-x * 99 / 100)
  }

  function MinOutput(br: BridgeRequest, q: Quote): int {
    if br.minOutput != 0 then br.minOutput else Percent99(q.estimatedOutput)
  }

  function QuoteAt(job: Job, i: nat): Option<Quote>
    requires i < |job.plan.requests|
  {
    var br := job.plan.requests[i];
    BestFor(job.adapters, job.answers(i).quotes, job.answers(i).named, br.src, br.dst)
  }

  /** Why request `i` cannot be compiled, in the order in which the code finds out. */
  function Refusal(job: Job, i: nat): Option<CompileError>
    requires i < |job.plan.requests|
  {
    match QuoteAt(job, i)
    case None => Some(NoRoute(i))
    case Some(q) =>
      if q.estimatedOutput < MinOutput(job.plan.requests[i], q) then Some(OutputTooLow(i))
      else if !Known(job.adapters, q.protocol) then Some(AdapterMissing(i))
      else if job.answers(i).build.Raised? then Some(BuildFailed(i))
      else None
  }

  /** Request `i` has a quote, an adapter and bridge calls. */
  predicate Bridged(job: Job, i: nat) {
    i < |job.plan.requests| && Refusal(job, i).None?
  }

  // ---------------------------------------------------------------- the compiled plan, in closed form

  function SolverLeg(p: CrossChainPlan, i: nat): LegPlan
    requires i < |p.legs|
  {
    var l := p.legs[i];
    LegPlan(2 * i, l.chain, l.selector, l.params, l.interactions,
            if i > 0 then [2 * i - 1] else [], None,
            l.metadata[Kind := Text("solver_leg")][PlatformCompiled := Flag(true)])
  }

  function BridgeLeg(job: Job, i: nat): LegPlan
    requires Bridged(job, i)
  {
    var q := QuoteAt(job, i).value;
    LegPlan(2 * i + 1, job.plan.requests[i].src, "", "", job.answers(i).build.value.interactions, [2 * i], None,
            map[Kind := Text("bridge"),
                BridgeProtocol := Text(q.protocol),
                BridgeTokenIn := Text(q.tokenIn),
                BridgeTokenOut := Text(q.tokenOut),
                BridgeAmount := Num(q.amountIn),
                BridgeEstimatedOutput := Num(q.estimatedOutput),
                BridgeFee := Num(q.fee),
                BridgeRecipient := Text(job.user),
                PlatformCompiled := Flag(true)])
  }

  function EscrowAt(job: Job, i: nat): Escrow
    requires Bridged(job, i)
  {
    var q := QuoteAt(job, i).value;
    Escrow(job.order, 2 * i + 2, q.tokenOut, q.estimatedOutput, job.user,
           if job.deadline > 0 then job.deadline else job.answers(i).now + 7200)
  }

  /** A way back exists for request `i`: a reverse quote, and calls that could be built. */
  predicate Reversible(job: Job, i: nat)
    requires i < |job.plan.requests|
  {
    var br, a := job.plan.requests[i], job.answers(i);
    && BestFor(job.adapters, a.reverseQuotes, a.reverseNamed, br.dst, br.src).Some?
    && a.reverseBuild.Returned?
  }

  function RollbackLeg(job: Job, i: nat, number: nat): LegPlan
    requires Bridged(job, i) && Reversible(job, i)
  {
    LegPlan(100 + number, job.plan.requests[i].dst, "", "", job.answers(i).reverseBuild.value, [], Some(2 * i + 1),
            map[Kind := Text("rollback_bridge"),
                BridgeProtocol := Text(QuoteAt(job, i).value.protocol),
                PlatformCompiled := Flag(true)])
  }

  /** The rollback legs of the first `m` requests. */
  function Rollbacks(job: Job, m: nat): seq<LegPlan>
    requires forall i :: 0 <= i < m ==> Bridged(job, i)
  {
    if m == 0 then []
    else
      var sofar := Rollbacks(job, m - 1);
      assert Bridged(job, m - 1);
      if Reversible(job, m - 1) then sofar + [RollbackLeg(job, m - 1, |sofar|)] else sofar
  }

  predicate Compilable(job: Job) {
    WellFormed(job.plan) && forall i :: 0 <= i < |job.plan.requests| ==> Bridged(job, i)
  }

  /** `c` is what the plan compiles to. */
  ghost predicate Produces(job: Job, c: Compiled)
    requires |job.plan.legs| == |job.plan.requests| + 1
  {
    var m := |job.plan.requests|;
    && c.plan.rollbackHash == ""
    && Forward(job, 2 * m + 1, c.plan.forward)
    && Aside(job, m, Draft(c.plan.forward, c.plan.rollback, c.escrows, c.quotes, c.mocks))
  }

  /** The error of the first request that cannot be bridged. */
  ghost predicate FirstRefusal(job: Job, e: CompileError) {
    && e != Invalid
    && e.at < |job.plan.requests| && Refusal(job, e.at) == Some(e)
    && forall i :: 0 <= i < e.at ==> Bridged(job, i)
  }

  /** The first `size` forward legs: solver legs at even positions, bridge legs at odd ones. */
  ghost predicate Forward(job: Job, size: nat, forward: seq<LegPlan>)
    requires size > 0 ==> (size - 1) / 2 < |job.plan.legs|
  {
    && |forward| == size
    && (forall i: nat {:trigger SolverLeg(job.plan, i)} :: 2 * i < size ==> forward[2 * i] == SolverLeg(job.plan, i))
    && forall i: nat {:trigger Bridged(job, i)} :: 2 * i + 1 < size ==>
         Bridged(job, i) && forward[2 * i + 1] == BridgeLeg(job, i)
  }

  /** Everything compiled besides the forward legs, after `m` requests. */
  ghost predicate Aside(job: Job, m: nat, d: Draft) {
    && (forall i :: 0 <= i < m ==> Bridged(job, i))
    && d.rollback == Rollbacks(job, m)
    && AllPriced(job, m, d.quotes, d.escrows)
    && Mocked(job, m, d.mocks)
  }

  ghost predicate AllPriced(job: Job, m: nat, quotes: seq<Quote>, escrows: seq<Escrow>) {
    && |quotes| == |escrows| == m
    && forall i :: 0 <= i < m ==>
         Bridged(job, i) && quotes[i] == QuoteAt(job, i).value && escrows[i] == EscrowAt(job, i)
  }

  ghost predicate Mocked(job: Job, m: nat, mocks: map<int, Metadata>) {
    && (forall k :: k in mocks <==> 0 <= k < 2 * m && k % 2 == 1)
    && forall k :: k in mocks ==> Bridged(job, k / 2) && mocks[k] == job.answers(k / 2).build.value.mock
  }

  lemma BridgeAppended(job: Job, i: nat, d: Draft, bridge: LegPlan, escrow: Escrow, q: Quote, mock: Metadata)
    requires Bridged(job, i) && i < |job.plan.legs|
    requires Forward(job, 2 * i + 1, d.forward) && Aside(job, i, d)
    requires bridge == BridgeLeg(job, i) && escrow == EscrowAt(job, i)
    requires q == QuoteAt(job, i).value && mock == job.answers(i).build.value.mock
    ensures Forward(job, 2 * i + 2, d.forward + [bridge])
    ensures AllPriced(job, i + 1, d.quotes + [q], d.escrows + [escrow])
    ensures Mocked(job, i + 1, d.mocks[2 * i + 1 := mock])
  {
  }

  lemma SolverAppended(job: Job, i: nat, forward: seq<LegPlan>, leg: LegPlan)
    requires i < |job.plan.legs| && leg == SolverLeg(job.plan, i)
    requires i > 0 ==> Forward(job, 2 * i, forward)
    requires i == 0 ==> forward == []
    ensures Forward(job, 2 * i + 1, forward + [leg])
  {
  }

  // ---------------------------------------------------------------- the compiler

  class CrossChainCompiler {
    const registry: Registry

    constructor (r: Registry)
      ensures registry == r
    {
      registry := r;
    }

    /** The errors of one bridge request. */
    method CheckRequest(p: CrossChainPlan, i: nat) returns (errors: seq<Flaw>)
      requires p.legs != [] && i < |p.requests|
      ensures forall f :: f in errors <==> AboutRequest(f) && f.at == i && Flawed(p, f)
    {
      var br := p.requests[i];
      errors := (if br.amount <= 0 then [AmountNotPositive(i)] else [])
                + (if br.src == br.dst then [SameChain(i)] else []);
      if i < |p.legs| && p.legs[i].chain != br.src {
        errors := errors + [SourceMismatch(i)];
      }
      if i + 1 < |p.legs| && p.legs[i + 1].chain != br.dst {
        errors := errors + [DestinationMismatch(i)];
      }
    }

    /** One error for every bridge call in a solver's leg. */
    method CheckLeg(p: CrossChainPlan, i: nat) returns (errors: seq<Flaw>)
      requires i < |p.legs|
      ensures forall f :: f in errors <==> f == BridgeCall(i) && Flawed(p, f)
    {
      errors := [];
      var ixs := p.legs[i].interactions;
      for j := 0 to |ixs|
        invariant forall f :: f in errors <==> f == BridgeCall(i) && exists k :: 0 <= k < j && CallsBridge(ixs[k])
      {
        if CallsBridge(ixs[j]) {
          errors := errors + [BridgeCall(i)];
        }
      }
    }

    method Validate(p: CrossChainPlan) returns (errors: seq<Flaw>)
      ensures forall f :: f in errors <==> Flawed(p, f)
    {
      if p.legs == [] {
        return [NoLegs];
      }
      errors := if |p.requests| != |p.legs| - 1 then [RequestCount] else [];
      for i := 0 to |p.requests|
        invariant forall f :: f in errors <==> Flawed(p, f) && !f.BridgeCall? && (AboutRequest(f) ==> f.at < i)
      {
        var more := CheckRequest(p, i);
        errors := errors + more;
      }
      for i := 0 to |p.legs|
        invariant forall f :: f in errors <==> Flawed(p, f) && (f.BridgeCall? ==> f.leg < i)
      {
        var more := CheckLeg(p, i);
        errors := errors + more;
      }
    }

    /** The quote for one request, or the reason to stop. */
    method Price(ghost job: Job, plan: CrossChainPlan, a: Answers, i: nat) returns (r: Priced)
      requires job.plan == plan && job.adapters == registry.adapters && i < |plan.requests| && a == job.answers(i)
      ensures r.Failed? ==> Refusal(job, i) == Some(r.error) && r.error != Invalid && r.error.at == i
      ensures r.Found? ==> Bridged(job, i) && QuoteAt(job, i) == Some(r.quote) && a.build == Returned(r.built)
    {
      var br := plan.requests[i];
      var quoted := registry.BestQuote(a.quotes, a.named, br.src, br.dst);
      if quoted.None? {
        return Failed(NoRoute(i));
      }
      var q := quoted.value;
      var least := if br.minOutput != 0 then br.minOutput else Percent99(q.estimatedOutput);
      if q.estimatedOutput < least {
        return Failed(OutputTooLow(i));
      }
      var found := registry.Get(q.protocol);
      if !found {
        return Failed(AdapterMissing(i));
      }
      if a.build.Raised? {
        return Failed(BuildFailed(i));
      }
      r := Found(q, a.build.value);
    }

    /** The rollback legs once request `i` has been looked at: one more, if there is a way back. */
    method AddRollback(ghost job: Job, br: BridgeRequest, a: Answers, i: nat, q: Quote, user: string,
                       rollback: seq<LegPlan>) returns (more: seq<LegPlan>)
      requires job.adapters == registry.adapters
      requires i < |job.plan.requests| && br == job.plan.requests[i] && a == job.answers(i)
      requires forall j :: 0 <= j <= i ==> Bridged(job, j)
      requires QuoteAt(job, i) == Some(q) && rollback == Rollbacks(job, i)
      ensures more == Rollbacks(job, i + 1)
    {
      more := rollback;
      var back := registry.BestQuote(a.reverseQuotes, a.reverseNamed, br.dst, br.src);
      if back.Some? && a.reverseBuild.Returned? {
        more := more + [LegPlan(
          100 + |rollback|, br.dst, "", "", a.reverseBuild.value, [], Some(2 * i + 1),
          map[Kind := Text("rollback_bridge"),
              BridgeProtocol := Text(q.protocol),
              PlatformCompiled := Flag(true)])];
      }
    }

    /** Appends the bridge leg of request `i` with its mock and escrow, and its rollback if there is one. */
    method AddBridge(ghost job: Job, br: BridgeRequest, a: Answers, i: nat, d: Draft, q: Quote, built: Built,
                     order: string, user: string, deadline: int) returns (e: Draft)
      requires job.adapters == registry.adapters && job.order == order && job.user == user && job.deadline == deadline
      requires i < |job.plan.requests| && br == job.plan.requests[i] && a == job.answers(i)
      requires Bridged(job, i) && QuoteAt(job, i) == Some(q) && a.build == Returned(built)
      requires i < |job.plan.legs|
      requires Forward(job, 2 * i + 1, d.forward) && Aside(job, i, d)
      ensures Forward(job, 2 * i + 2, e.forward) && Aside(job, i + 1, e)
    {
      var index := 2 * i + 1;
      var bridge := LegPlan(
        index, br.src, "", "", built.interactions, [index - 1], None,
        map[Kind := Text("bridge"),
            BridgeProtocol := Text(q.protocol),
            BridgeTokenIn := Text(q.tokenIn),
            BridgeTokenOut := Text(q.tokenOut),
            BridgeAmount := Num(q.amountIn),
            BridgeEstimatedOutput := Num(q.estimatedOutput),
            BridgeFee := Num(q.fee),
            BridgeRecipient := Text(user),
            PlatformCompiled := Flag(true)]);
      var escrow := Escrow(order, index + 1, q.tokenOut, q.estimatedOutput, user,
                           if deadline > 0 then deadline else a.now + 7200);
      var rollback := AddRollback(job, br, a, i, q, user, d.rollback);
      e := Draft(d.forward + [bridge], rollback, d.escrows + [escrow], d.quotes + [q], d.mocks[index := built.mock]);
      BridgeAppended(job, i, d, bridge, escrow, q, built.mock);
    }

    /** Appends solver leg `i`, under the compiler's own flags. */
    method AddSolverLeg(ghost job: Job, l: ChainLeg, i: nat, d: Draft) returns (e: Draft)
      requires i < |job.plan.legs| && l == job.plan.legs[i]
      requires if i == 0 then d.forward == [] else Forward(job, 2 * i, d.forward)
      ensures Forward(job, 2 * i + 1, e.forward)
      ensures e == d.(forward := e.forward)
    {
      var index := 2 * i;
      var leg := LegPlan(
        index, l.chain, l.selector, l.params, l.interactions, if index > 0 then [index - 1] else [], None,
        l.metadata[Kind := Text("solver_leg")][PlatformCompiled := Flag(true)]);
      SolverAppended(job, i, d.forward, leg);
      e := d.(forward := d.forward + [leg]);
    }

    /** The legs of a plan that passed validation, up to the first request that cannot be bridged. */
    method Assemble(ghost job: Job, plan: CrossChainPlan, order: string, user: string, deadline: int,
                    answers: nat -> Answers) returns (r: Result)
      requires job == Job(plan, order, user, deadline, registry.adapters, answers)
      requires |plan.legs| == |plan.requests| + 1
      ensures r.Ok? ==> (forall i :: 0 <= i < |plan.requests| ==> Bridged(job, i))
      ensures r.Ok? ==> Produces(job, r.compiled)
      ensures r.Err? ==> FirstRefusal(job, r.error)
    {
      var d := Draft([], [], [], [], map[]);
      ghost var n := |plan.requests|;
      for i := 0 to |plan.legs|
        invariant i <= n ==> Aside(job, i, d) && if i == 0 then d.forward == [] else Forward(job, 2 * i, d.forward)
        invariant i > n ==> Aside(job, n, d) && Forward(job, 2 * n + 1, d.forward)
      {
        d := AddSolverLeg(job, plan.legs[i], i, d);
        if i < |plan.requests| {
          var priced := Price(job, plan, answers(i), i);
          if priced.Failed? {
            return Err(priced.error);
          }
          d := AddBridge(job, plan.requests[i], answers(i), i, d, priced.quote, priced.built, order, user, deadline);
        }
      }
      r := Ok(Compiled(MultiLegPlan(d.forward, d.rollback, ""), d.escrows, d.quotes, d.mocks));
    }

    method Compile(plan: CrossChainPlan, order: string, user: string, deadline: int, answers: nat -> Answers)
        returns (r: Result)
      ensures var job := Job(plan, order, user, deadline, registry.adapters, answers);
              && (r.Ok? <==> Compilable(job))
              && (r.Ok? ==> Produces(job, r.compiled))
              && (r == Err(Invalid) <==> !WellFormed(plan))
              && (r.Err? && r.error != Invalid ==> FirstRefusal(job, r.error))
    {
      ghost var job := Job(plan, order, user, deadline, registry.adapters, answers);
      var errors := Validate(plan);
      WellFormedMeansFlawless(plan);
      if errors != [] {
        assert Flawed(plan, errors[0]);
        return Err(Invalid);
      }
      r := Assemble(job, plan, order, user, deadline, answers);
      assert r.Err? ==> !Bridged(job, r.error.at);
    }
  }
}
