/**
  The bridge adapters known to the platform, and the choice of the best quote among them.
 */
module BridgeRegistry {
  import opened Wrappers

  datatype Adapter = Adapter(protocol: string, routes: set<(int, int)>)

  datatype Quote = Quote(
    protocol: string,
    tokenIn: string,
    tokenOut: string,
    amountIn: int,
    estimatedOutput: int,
    fee: int)

  /** What each adapter answers when it is asked for a quote, by protocol name. */
  type Quoting = string -> Outcome<Quote>

  /** Registered names are the keys of a dictionary: each occurs once. */
  predicate OnePerProtocol(adapters: seq<Adapter>) {
    forall i, j :: 0 <= i < j < |adapters| ==> adapters[i].protocol != adapters[j].protocol
  }

  predicate Known(adapters: seq<Adapter>, protocol: string) {
    exists i :: 0 <= i < |adapters| && adapters[i].protocol == protocol
  }

  /** The adapters that support a route, in registration order. */
  function Serving(adapters: seq<Adapter>, src: int, dst: int): seq<Adapter> {
    if adapters == [] then []
    else
      var rest := Serving(adapters[..|adapters| - 1], src, dst);
      var last := adapters[|adapters| - 1];
      if (src, dst) in last.routes then rest + [last] else rest
  }

  /** The best quote so far, after one more answer. */
  function Better(best: Option<Quote>, answer: Outcome<Quote>): Option<Quote> {
    match answer
    case Raised => best
    case Returned(q) =>
      if best.None? || q.estimatedOutput > best.value.estimatedOutput then Some(q) else best
  }

  function Best(asked: seq<Adapter>, quotes: Quoting): Option<Quote> {
    if asked == [] then None
    else Better(Best(asked[..|asked| - 1], quotes), quotes(asked[|asked| - 1].protocol))
  }

  /** A token written as a CAIP-10 address may name the source chain itself. */
  function SourceChain(named: Option<int>, src: int): int {
    if named.Some? then named.value else src
  }

  function BestFor(adapters: seq<Adapter>, quotes: Quoting, named: Option<int>, src: int, dst: int): Option<Quote> {
    Best(Serving(adapters, SourceChain(named, src), dst), quotes)
  }

  /** `q` is the answer of the adapter at `k`, no answer beats it, and no earlier one equals it. */
  predicate FirstMaximum(asked: seq<Adapter>, quotes: Quoting, q: Quote, k: nat) {
    && k < |asked| && quotes(asked[k].protocol) == Returned(q)
    && (forall j :: 0 <= j < |asked| && quotes(asked[j].protocol).Returned? ==>
         quotes(asked[j].protocol).value.estimatedOutput <= q.estimatedOutput)
    && (forall j :: 0 <= j < k && quotes(asked[j].protocol).Returned? ==>
         quotes(asked[j].protocol).value.estimatedOutput < q.estimatedOutput)
  }

  /** No quote comes back only if every adapter asked failed; otherwise the first best one does. */
  lemma {:induction false} BestIsFirstMaximum(asked: seq<Adapter>, quotes: Quoting)
    ensures Best(asked, quotes).None? <==>
            forall j :: 0 <= j < |asked| ==> quotes(asked[j].protocol).Raised?
    ensures Best(asked, quotes).Some? ==> exists k :: FirstMaximum(asked, quotes, Best(asked, quotes).value, k)
  {
    if asked != [] {
      var n := |asked| - 1;
      var init := asked[..n];
      BestIsFirstMaximum(init, quotes);
      assert forall j :: 0 <= j < n ==> asked[j] == init[j];
      if Best(asked, quotes).Some? {
        var q := Best(asked, quotes).value;
        if Best(init, quotes).Some? && Best(init, quotes).value == q {
          var k :| FirstMaximum(init, quotes, q, k);
          assert FirstMaximum(asked, quotes, q, k);
        } else {
          assert quotes(asked[n].protocol) == Returned(q);
          if Best(init, quotes).Some? {
            var k :| FirstMaximum(init, quotes, Best(init, quotes).value, k);
          }
          assert FirstMaximum(asked, quotes, q, n);
        }
      }
    }
  }

  /** Only adapters that support the route are asked, and all of them are. */
  lemma {:induction false} ServingIsSupport(adapters: seq<Adapter>, src: int, dst: int)
    ensures forall a :: a in Serving(adapters, src, dst) <==> a in adapters && (src, dst) in a.routes
  {
    if adapters != [] {
      var init := adapters[..|adapters| - 1];
      ServingIsSupport(init, src, dst);
      assert adapters == init + [adapters[|adapters| - 1]];
    }
  }

  /** The adapters asked keep the order in which they were registered. */
  lemma {:induction false} ServingAdds(a: seq<Adapter>, b: seq<Adapter>, src: int, dst: int)
    ensures Serving(a + b, src, dst) == Serving(a, src, dst) + Serving(b, src, dst)
  {
    if b == [] {
      assert a + b == a;
    } else {
      var n := |b| - 1;
      assert (a + b)[..|a + b| - 1] == a + b[..n];
      ServingAdds(a, b[..n], src, dst);
    }
  }

  /** This adapter serves the route and answered. */
  predicate Answers(a: Adapter, quotes: Quoting, source: int, dst: int) {
    (source, dst) in a.routes && quotes(a.protocol).Returned?
  }

  /** `q` is the answer of a registered adapter for the route, none beats it, and no earlier one equals it. */
  predicate FirstBest(adapters: seq<Adapter>, quotes: Quoting, source: int, dst: int, q: Quote, k: nat) {
    && k < |adapters| && Answers(adapters[k], quotes, source, dst) && quotes(adapters[k].protocol).value == q
    && (forall j :: 0 <= j < |adapters| && Answers(adapters[j], quotes, source, dst) ==>
         quotes(adapters[j].protocol).value.estimatedOutput <= q.estimatedOutput)
    && (forall j :: 0 <= j < k && Answers(adapters[j], quotes, source, dst) ==>
         quotes(adapters[j].protocol).value.estimatedOutput < q.estimatedOutput)
  }

  lemma OneFirstBest(adapters: seq<Adapter>, quotes: Quoting, source: int, dst: int, q: Quote, k: nat, q': Quote, k': nat)
    requires FirstBest(adapters, quotes, source, dst, q, k) && FirstBest(adapters, quotes, source, dst, q', k')
    ensures q == q' && k == k'
  {
    assert Answers(adapters[k], quotes, source, dst) && Answers(adapters[k'], quotes, source, dst);
  }

  /** What the registry says about a route: nothing, if no adapter for it answers; or the first best answer. */
  ghost predicate IsBestFor(adapters: seq<Adapter>, quotes: Quoting, source: int, dst: int, best: Option<Quote>) {
    && (best.None? <==> forall a :: a in adapters && (source, dst) in a.routes ==> quotes(a.protocol).Raised?)
    && (best.Some? ==> exists k :: FirstBest(adapters, quotes, source, dst, best.value, k))
  }

  lemma {:induction false} BestOfServing(adapters: seq<Adapter>, quotes: Quoting, source: int, dst: int)
    ensures IsBestFor(adapters, quotes, source, dst, Best(Serving(adapters, source, dst), quotes))
  {
    if adapters != [] {
      var n := |adapters| - 1;
      var init, last := adapters[..n], adapters[n];
      BestOfServing(init, quotes, source, dst);
      assert adapters == init + [last];
      var before := Best(Serving(init, source, dst), quotes);
      assert (Serving(init, source, dst) + [last])[..|Serving(init, source, dst)|] == Serving(init, source, dst);
      OneMoreAdapter(adapters, n, quotes, source, dst, before);
    }
  }

  lemma OneMoreAdapter(adapters: seq<Adapter>, n: nat, quotes: Quoting, source: int, dst: int, before: Option<Quote>)
    requires n == |adapters| - 1 && IsBestFor(adapters[..n], quotes, source, dst, before)
    ensures IsBestFor(adapters, quotes, source, dst,
                      if (source, dst) in adapters[n].routes then Better(before, quotes(adapters[n].protocol)) else before)
  {
    assert adapters == adapters[..n] + [adapters[n]];
    if Answers(adapters[n], quotes, source, dst) {
      var q := quotes(adapters[n].protocol).value;
      if before.None? {
        assert forall j :: 0 <= j < n ==> adapters[j] in adapters[..n];
        assert FirstBest(adapters, quotes, source, dst, q, n);
      } else {
        var k :| FirstBest(adapters[..n], quotes, source, dst, before.value, k);
        assert forall j :: 0 <= j < n ==> adapters[..n][j] == adapters[j];
        if q.estimatedOutput > before.value.estimatedOutput {
          assert FirstBest(adapters, quotes, source, dst, q, n);
        } else {
          assert FirstBest(adapters, quotes, source, dst, before.value, k);
        }
      }
    } else if before.Some? {
      var k :| FirstBest(adapters[..n], quotes, source, dst, before.value, k);
      assert forall j :: 0 <= j < n ==> adapters[..n][j] == adapters[j];
      assert FirstBest(adapters, quotes, source, dst, before.value, k);
    }
  }

  class Registry {
    var adapters: seq<Adapter>

    ghost predicate Valid()
      reads this
    {
      OnePerProtocol(adapters)
    }

    constructor ()
      ensures Valid() && adapters == []
    {
      adapters := [];
    }

    /** A second registration under one name replaces the first where it stands. */
    method Register(adapter: Adapter)
      requires Valid()
      modifies this
      ensures Valid()
      ensures Known(old(adapters), adapter.protocol) ==>
                |adapters| == |old(adapters)| &&
                forall i :: 0 <= i < |adapters| ==>
                  adapters[i] == if old(adapters)[i].protocol == adapter.protocol then adapter else old(adapters)[i]
      ensures !Known(old(adapters), adapter.protocol) ==> adapters == old(adapters) + [adapter]
    {
      var i := 0;
      while i < |adapters|
        invariant 0 <= i <= |adapters|
        invariant adapters == old(adapters)
        invariant forall j :: 0 <= j < i ==> adapters[j].protocol != adapter.protocol
      {
        if adapters[i].protocol == adapter.protocol {
          adapters := adapters[i := adapter];
          return;
        }
        i := i + 1;
      }
      adapters := adapters + [adapter];
    }

    method FindBridge(src: int, dst: int) returns (found: seq<Adapter>)
      ensures found == Serving(adapters, src, dst)
      ensures forall a :: a in found <==> a in adapters && (src, dst) in a.routes
    {
      ServingIsSupport(adapters, src, dst);
      found := [];
      for i := 0 to |adapters|
        invariant found == Serving(adapters[..i], src, dst)
      {
        assert adapters[..i + 1][..i] == adapters[..i];
        if (src, dst) in adapters[i].routes {
          found := found + [adapters[i]];
        }
      }
      assert adapters[..|adapters|] == adapters;
    }

    method BestQuote(quotes: Quoting, named: Option<int>, src: int, dst: int) returns (best: Option<Quote>)
      ensures best == BestFor(adapters, quotes, named, src, dst)
      ensures IsBestFor(adapters, quotes, if named.Some? then named.value else src, dst, best)
    {
      BestOfServing(adapters, quotes, SourceChain(named, src), dst);
      var asked := FindBridge(SourceChain(named, src), dst);
      best := None;
      for i := 0 to |asked|
        invariant best == Best(asked[..i], quotes)
      {
        assert asked[..i + 1][..i] == asked[..i];
        var answer := quotes(asked[i].protocol);
        if answer.Returned? {
          if best.None? || answer.value.estimatedOutput > best.value.estimatedOutput {
            best := Some(answer.value);
          }
        }
      }
      assert asked[..|asked|] == asked;
    }

    method Get(protocol: string) returns (found: bool)
      ensures found == Known(adapters, protocol)
    {
      found := exists i :: 0 <= i < |adapters| && adapters[i].protocol == protocol;
    }
  }
}
