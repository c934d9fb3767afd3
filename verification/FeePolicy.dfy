/**
  Protocol fee: the quote, its certification against fresh gas, and the relayer's bid cap.

  All amounts are integers in wei. Dafny's `/` agrees with Python's `//` here because every
  divisor is positive.
 */
module FeePolicy {
  import opened Wrappers

  /** Per-chain settings: revenue floor, margin in basis points, on-chain clamp. */
  datatype Chain = Chain(floor: int, marginBps: int, minFee: int, maxFee: int)

  const BPS: int := 10000

  function GasCost(gasUsed: int, gasPrice: int): int {
    Max(0, gasUsed) * Max(0, gasPrice)
  }

  function WithMargin(cost: int, marginBps: int): int {
    cost + cost * marginBps / BPS
  }

  function Quote(c: Chain, gasUsed: int, gasPrice: int): int {
    Min(Max(c.floor, WithMargin(GasCost(gasUsed, gasPrice), c.marginBps)), c.maxFee)
  }

  datatype Verdict = Certified | BelowMin | AboveMax | DoesNotCoverGas

  function Certify(c: Chain, locked: int, gasUsed: int, gasPrice: int): Verdict {
    if locked < c.minFee then BelowMin
    else if locked > c.maxFee then AboveMax
    else if locked < GasCost(gasUsed, gasPrice) then DoesNotCoverGas
    else Certified
  }

  /** Zero stands for "no cap available" (a gas estimate that is not positive). */
  function BidCap(locked: int, gasUnits: int): int {
    if gasUnits <= 0 then 0 else locked / gasUnits
  }

  /** An integer cost is within the margin exactly when it is at most the marked-up cost. */
  lemma MarginIsExact(cost: int, later: int, marginBps: int)
    ensures later <= WithMargin(cost, marginBps) <==> later * 10000 <= cost * (10000 + marginBps)
  {
    var product := cost * marginBps;
    assert cost * (BPS + marginBps) == cost * BPS + product;
    assert product == (product / BPS) * BPS + product % BPS;
  }

  /**
    A quote made at one gas reading and certified at a later one: it certifies exactly when
    it reaches the on-chain minimum and the later cost is at most the floor or the quoted cost
    with its margin, and at most the on-chain maximum.
   */
  lemma QuoteCertifies(c: Chain, g: int, p: int, g': int, p': int)
    ensures var later := GasCost(g', p');
            Certify(c, Quote(c, g, p), g', p').Certified? <==>
            && c.minFee <= Quote(c, g, p)
            && later <= c.maxFee
            && (later <= c.floor || later * 10000 <= GasCost(g, p) * (10000 + c.marginBps))
  {
    MarginIsExact(GasCost(g, p), GasCost(g', p'), c.marginBps);
  }

  /** The bid cap is the largest price whose total spend stays within the locked fee; without a gas estimate it is zero. */
  lemma BidCapIsLargest(locked: int, gasUnits: int, price: int)
    ensures gasUnits > 0 ==> (price <= BidCap(locked, gasUnits) <==> price * gasUnits <= locked)
    ensures gasUnits <= 0 ==> BidCap(locked, gasUnits) == 0
  {
    if gasUnits <= 0 { return; }
    var cap := locked / gasUnits;
    assert locked == cap * gasUnits + locked % gasUnits;
    if price <= cap {
      assert price * gasUnits <= cap * gasUnits;
    } else {
      assert price * gasUnits >= (cap + 1) * gasUnits;
      assert (cap + 1) * gasUnits == cap * gasUnits + gasUnits;
    }
  }

  /** A certified fee always leaves the relayer able to bid the price it was certified at. */
  lemma CertifiedFeeIsBiddable(c: Chain, locked: int, gasUsed: int, gasPrice: int)
    requires Certify(c, locked, gasUsed, gasPrice).Certified?
    requires gasUsed > 0
    ensures gasPrice <= BidCap(locked, gasUsed)
    ensures BidCap(locked, gasUsed) * gasUsed <= locked
  {
    BidCapIsLargest(locked, gasUsed, Max(0, gasPrice));
    BidCapIsLargest(locked, gasUsed, BidCap(locked, gasUsed));
  }

  // ---------------------------------------------------------------- a run of fills

  /** A settled order: what it locked, the gas it was certified with, and what it then burned. */
  datatype Fill = Fill(locked: int, gasUnits: int, certifiedPrice: int, paidPrice: int, gasBurned: int)

  ghost predicate Honest(c: Chain, f: Fill) {
    && f.gasUnits > 0
    && Certify(c, f.locked, f.gasUnits, f.certifiedPrice).Certified?
    && 0 <= f.paidPrice <= BidCap(f.locked, f.gasUnits)
    && 0 <= f.gasBurned <= f.gasUnits
  }

  function Income(fills: seq<Fill>): int {
    if fills == [] then 0 else fills[0].locked + Income(fills[1..])
  }

  function Spend(fills: seq<Fill>): int {
    if fills == [] then 0 else fills[0].paidPrice * fills[0].gasBurned + Spend(fills[1..])
  }

  /** Fees cover gas over any run of certified fills whose bids respect the cap. */
  lemma {:induction false} FeesCoverGas(c: Chain, fills: seq<Fill>)
    requires forall f :: f in fills ==> Honest(c, f)
    ensures Spend(fills) <= Income(fills)
  {
    if fills != [] {
      var f := fills[0];
      assert Honest(c, f);
      BidCapIsLargest(f.locked, f.gasUnits, f.paidPrice);
      assert f.paidPrice * f.gasBurned <= f.paidPrice * f.gasUnits;
      FeesCoverGas(c, fills[1..]);
    }
  }

  // ---------------------------------------------------------------- one quote, one certificate

  /** Gas costs its units times its price; a reading that is not positive costs nothing. */
  lemma GasCosts(gasUsed: int, gasPrice: int)
    ensures gasUsed >= 0 && gasPrice >= 0 ==> GasCost(gasUsed, gasPrice) == gasUsed * gasPrice
    ensures gasUsed <= 0 || gasPrice <= 0 ==> GasCost(gasUsed, gasPrice) == 0
  {
  }

  /** A fee is certified exactly if it is in the chain's range and covers the gas; what is missing is named in this order. */
  lemma CertifiedExactlyIf(c: Chain, locked: int, gasUsed: int, gasPrice: int)
    ensures var v := Certify(c, locked, gasUsed, gasPrice);
            && (v.Certified? <==> c.minFee <= locked <= c.maxFee && GasCost(gasUsed, gasPrice) <= locked)
            && (v.BelowMin? <==> locked < c.minFee)
            && (v.AboveMax? <==> c.minFee <= locked && locked > c.maxFee)
            && (v.DoesNotCoverGas? <==> c.minFee <= locked <= c.maxFee && GasCost(gasUsed, gasPrice) > locked)
  {
  }

  /** A quote never exceeds the chain's maximum, and below it is the floor or the gas with its margin, whichever is more. */
  lemma QuoteExactly(c: Chain, gasUsed: int, gasPrice: int)
    ensures var q, marked := Quote(c, gasUsed, gasPrice), WithMargin(GasCost(gasUsed, gasPrice), c.marginBps);
            && q <= c.maxFee && (q < c.maxFee ==> q >= c.floor && q >= marked)
            && (q == c.maxFee || q == c.floor || q == marked)
            && (q == c.maxFee ==> c.floor >= c.maxFee || marked >= c.maxFee)
  {
  }
}
