/**
  The split of emission between miners and the subnet owner, over the reals.
 */
module WeightPolicy {

  type Hotkey = string

  /** A dictionary of weights, in insertion order. */
  datatype Share = Share(hotkey: Hotkey, weight: real)

  type Weights = seq<Share>

  const GENESIS: Hotkey := "__genesis__"
  const CHAMPION_FRACTION: real := 0.75

  function Sum(w: Weights): real {
    if w == [] then 0.0 else Sum(w[..|w| - 1]) + w[|w| - 1].weight
  }

  /** The weight of a hotkey, zero if it has none. */
  function WeightOf(w: Weights, key: Hotkey): real {
    if w == [] then 0.0
    else if w[|w| - 1].hotkey == key then w[|w| - 1].weight
    else WeightOf(w[..|w| - 1], key)
  }

  function Without(w: Weights, owner: Hotkey): (r: Weights)
    ensures forall s :: s in r <==> s in w && s.hotkey != owner
  {
    if w == [] then []
    else
      var rest := Without(w[..|w| - 1], owner);
      var last := w[|w| - 1];
      assert w == w[..|w| - 1] + [last];
      if last.hotkey == owner then rest else rest + [last]
  }

  function Part(weight: real, total: real, fraction: real): real
    requires total > 0.0
  {
    weight / total * fraction
  }

  function Scaled(w: Weights, total: real, fraction: real): Weights
    requires total > 0.0
  {
    if w == [] then []
    else
      var last := w[|w| - 1];
      Scaled(w[..|w| - 1], total, fraction) + [Share(last.hotkey, Part(last.weight, total, fraction))]
  }

  function Clamped(fraction: real): real {
    if fraction <= 0.0 then 0.0 else if fraction >= 1.0 then 1.0 else fraction
  }

  /** `apply_champion_burn_ramp`; an empty owner is one that cannot be resolved. */
  function Ramp(w: Weights, owner: Hotkey, fraction: real): Weights {
    if w == [] || owner == "" then w
    else
      var miners := Without(w, owner);
      var total := Sum(miners);
      if total <= 0.0 then [Share(owner, 1.0)]
      else Scaled(miners, total, Clamped(fraction)) + [Share(owner, 1.0 - Clamped(fraction))]
  }

  /** `build_bootstrap_or_champion_weights`, hotkeys without surrounding blanks. */
  function Bootstrap(champion: Hotkey, owner: Hotkey): Weights {
    if champion != "" && champion != GENESIS then Ramp([Share(champion, 1.0)], owner, CHAMPION_FRACTION)
    else if owner != "" then [Share(owner, 1.0)]
    else []
  }

  /** Two dictionaries that give every hotkey the same weight. */
  ghost predicate SameWeights(a: Weights, b: Weights) {
    forall key :: WeightOf(a, key) == WeightOf(b, key)
  }

  // ---------------------------------------------------------------- arithmetic

  lemma PartsAdd(a: real, b: real, t: real, f: real)
    requires t > 0.0
    ensures Part(a + b, t, f) == Part(a, t, f) + Part(b, t, f)
    ensures Part(0.0, t, f) == 0.0
    ensures Part(t, t, f) == f
  {
    var x, y := a / t, b / t;
    assert (a + b) / t == x + y;
    assert (x + y) * f == x * f + y * f;
    assert t / t == 1.0;
  }

  lemma PartAgain(a: real, t: real, f: real, g: real)
    requires t > 0.0 && f > 0.0
    ensures Part(Part(a, t, f), f, g) == Part(a, t, g)
  {
    var x := a / t;
    assert x * f / f == x;
  }

  /** `x` is to `y` as `a` is to `b`. */
  predicate InProportion(x: real, y: real, a: real, b: real) { x * b == y * a }

  lemma PartsCross(x: real, y: real, a: real, b: real, t: real, f: real)
    requires t > 0.0 && x == Part(a, t, f) && y == Part(b, t, f)
    ensures InProportion(x, y, a, b)
  {
    var r := f / t;
    assert x == r * a;
    assert y == r * b;
    Swap(r, a, b);
  }

  lemma Swap(r: real, a: real, b: real)
    ensures r * a * b == r * b * a
  {
    var p := a * b;
    assert r * a * b == r * p;
    assert r * b * a == r * p;
  }

  lemma {:induction false} SumScaled(w: Weights, total: real, fraction: real)
    requires total > 0.0
    ensures Sum(Scaled(w, total, fraction)) == Part(Sum(w), total, fraction)
  {
    if w == [] {
      PartsAdd(0.0, 0.0, total, fraction);
    } else {
      var n := |w| - 1;
      SumScaled(w[..n], total, fraction);
      Appended(Scaled(w[..n], total, fraction), Share(w[n].hotkey, Part(w[n].weight, total, fraction)));
      PartsAdd(Sum(w[..n]), w[n].weight, total, fraction);
    }
  }

  lemma Appended(w: Weights, s: Share)
    ensures Sum(w + [s]) == Sum(w) + s.weight
    ensures forall key :: WeightOf(w + [s], key) == if s.hotkey == key then s.weight else WeightOf(w, key)
    ensures forall owner :: Without(w + [s], owner) == if s.hotkey == owner then Without(w, owner) else Without(w, owner) + [s]
  {
    assert (w + [s])[..|w|] == w;
  }

  lemma {:induction false} WithoutAbsent(w: Weights, owner: Hotkey)
    requires forall s :: s in w ==> s.hotkey != owner
    ensures Without(w, owner) == w
  {
    if w != [] {
      var n := |w| - 1;
      WithoutAbsent(w[..n], owner);
      assert w == w[..n] + [w[n]] && w[n] in w;
    }
  }

  lemma {:induction false} WeightWithout(w: Weights, owner: Hotkey, key: Hotkey)
    ensures WeightOf(Without(w, owner), key) == if key == owner then 0.0 else WeightOf(w, key)
  {
    if w != [] {
      var n := |w| - 1;
      WeightWithout(w[..n], owner, key);
      Appended(Without(w[..n], owner), w[n]);
    }
  }

  lemma {:induction false} WeightScaled(w: Weights, total: real, fraction: real, key: Hotkey)
    requires total > 0.0
    ensures WeightOf(Scaled(w, total, fraction), key) == Part(WeightOf(w, key), total, fraction)
  {
    if w == [] {
      PartsAdd(0.0, 0.0, total, fraction);
    } else {
      var n := |w| - 1;
      WeightScaled(w[..n], total, fraction, key);
      Appended(Scaled(w[..n], total, fraction), Share(w[n].hotkey, Part(w[n].weight, total, fraction)));
    }
  }

  lemma {:induction false} ScaledWithout(w: Weights, total: real, fraction: real, owner: Hotkey)
    requires total > 0.0
    ensures Without(Scaled(w, total, fraction), owner) == Scaled(Without(w, owner), total, fraction)
  {
    if w != [] {
      var n := |w| - 1;
      ScaledWithout(w[..n], total, fraction, owner);
      Appended(Scaled(w[..n], total, fraction), Share(w[n].hotkey, Part(w[n].weight, total, fraction)));
      if w[n].hotkey != owner {
        assert (Without(w[..n], owner) + [w[n]])[..|Without(w[..n], owner)|] == Without(w[..n], owner);
      }
    }
  }

  // ---------------------------------------------------------------- one ramp

  /** With a known owner the weights always add up to one. */
  lemma RampSumsToOne(w: Weights, owner: Hotkey, fraction: real)
    requires w != [] && owner != ""
    ensures Sum(Ramp(w, owner, fraction)) == 1.0
  {
    var miners := Without(w, owner);
    var total, f := Sum(miners), Clamped(fraction);
    if total > 0.0 {
      SumScaled(miners, total, f);
      PartsAdd(0.0, 0.0, total, f);
      Appended(Scaled(miners, total, f), Share(owner, 1.0 - f));
    } else {
      OneShare(owner);
    }
  }

  lemma OneShare(owner: Hotkey)
    ensures Sum([Share(owner, 1.0)]) == 1.0
    ensures Without([Share(owner, 1.0)], owner) == []
    ensures forall key :: WeightOf([Share(owner, 1.0)], key) == if key == owner then 1.0 else 0.0
  {
    Appended([], Share(owner, 1.0));
    assert [] + [Share(owner, 1.0)] == [Share(owner, 1.0)];
  }

  /** Each miner receives its part of the miners' total, scaled to the fraction; the owner the rest. */
  lemma RampWeights(w: Weights, owner: Hotkey, fraction: real, key: Hotkey)
    requires w != [] && owner != "" && Sum(Without(w, owner)) > 0.0
    ensures WeightOf(Ramp(w, owner, fraction), key) ==
            if key == owner then 1.0 - Clamped(fraction)
            else Part(WeightOf(w, key), Sum(Without(w, owner)), Clamped(fraction))
  {
    var miners := Without(w, owner);
    var total, f := Sum(miners), Clamped(fraction);
    Appended(Scaled(miners, total, f), Share(owner, 1.0 - f));
    WeightScaled(miners, total, f, key);
    WeightWithout(w, owner, key);
  }

  /** The owner's share is what the fraction leaves, where a fraction counts as zero below zero and as one above one. */
  lemma OwnersShare(w: Weights, owner: Hotkey, fraction: real)
    requires w != [] && owner != "" && Sum(Without(w, owner)) > 0.0
    ensures WeightOf(Ramp(w, owner, fraction), owner) ==
            if fraction <= 0.0 then 1.0 else if fraction >= 1.0 then 0.0 else 1.0 - fraction
  {
    RampWeights(w, owner, fraction, owner);
  }

  /** Without weights, or without a known owner, nothing is ramped; without a miner of weight the owner takes all. */
  lemma RampEdges(w: Weights, owner: Hotkey, fraction: real)
    ensures w == [] || owner == "" ==> Ramp(w, owner, fraction) == w
    ensures w != [] && owner != "" && Sum(Without(w, owner)) <= 0.0 ==> Ramp(w, owner, fraction) == [Share(owner, 1.0)]
  {
  }

  /** Ratios among miners are kept, even when the owner appears as a miner. */
  lemma RampKeepsRatios(w: Weights, owner: Hotkey, fraction: real, a: Hotkey, b: Hotkey)
    requires w != [] && owner != "" && Sum(Without(w, owner)) > 0.0
    requires a != owner && b != owner
    ensures InProportion(WeightOf(Ramp(w, owner, fraction), a), WeightOf(Ramp(w, owner, fraction), b),
                         WeightOf(w, a), WeightOf(w, b))
  {
    RampWeights(w, owner, fraction, a);
    RampWeights(w, owner, fraction, b);
    PartsCross(WeightOf(Ramp(w, owner, fraction), a), WeightOf(Ramp(w, owner, fraction), b),
               WeightOf(w, a), WeightOf(w, b), Sum(Without(w, owner)), Clamped(fraction));
  }

  // ---------------------------------------------------------------- ramping again

  lemma RampedMiners(w: Weights, owner: Hotkey, fraction: real)
    requires w != [] && owner != "" && Sum(Without(w, owner)) > 0.0
    ensures Without(Ramp(w, owner, fraction), owner)
            == Scaled(Without(w, owner), Sum(Without(w, owner)), Clamped(fraction))
    ensures Sum(Without(Ramp(w, owner, fraction), owner)) == Clamped(fraction)
    ensures Ramp(w, owner, fraction) != []
  {
    var miners := Without(w, owner);
    var total, f := Sum(miners), Clamped(fraction);
    WithoutAbsent(miners, owner);
    ScaledWithout(miners, total, f, owner);
    Appended(Scaled(miners, total, f), Share(owner, 1.0 - f));
    SumScaled(miners, total, f);
    PartsAdd(0.0, 0.0, total, f);
  }

  lemma {:induction false} Rescaled(w: Weights, total: real, f: real, g: real)
    requires total > 0.0 && f > 0.0
    ensures Scaled(Scaled(w, total, f), f, g) == Scaled(w, total, g)
  {
    if w != [] {
      var n := |w| - 1;
      Rescaled(w[..n], total, f, g);
      var once := Scaled(w[..n], total, f);
      assert Scaled(w, total, f)[..|once|] == once;
      PartAgain(w[n].weight, total, f, g);
    }
  }

  /** After any positive fraction, a second ramp depends on its own fraction only. */
  lemma RampIsAProjection(w: Weights, owner: Hotkey, f: real, g: real)
    requires w != [] && owner != "" && f > 0.0
    ensures Ramp(Ramp(w, owner, f), owner, g) == Ramp(w, owner, g)
  {
    var miners := Without(w, owner);
    if Sum(miners) > 0.0 {
      RampedMiners(w, owner, f);
      Rescaled(miners, Sum(miners), Clamped(f), Clamped(g));
    } else {
      OneShare(owner);
    }
  }

  /**
    After a fraction of zero the miners are lost: a second ramp gives everything to the owner.
    That is what its own fraction asks for only if that is zero too, or no miner had weight.
   */
  lemma RampAfterZero(w: Weights, owner: Hotkey, f: real, g: real)
    requires w != [] && owner != "" && f <= 0.0
    ensures Ramp(Ramp(w, owner, f), owner, g) == [Share(owner, 1.0)]
    ensures SameWeights(Ramp(Ramp(w, owner, f), owner, g), Ramp(w, owner, g))
            <==> g <= 0.0 || Sum(Without(w, owner)) <= 0.0
  {
    OneShare(owner);
    if Sum(Without(w, owner)) > 0.0 {
      RampedMiners(w, owner, f);
      OwnerTakesAll(w, owner, g);
    }
  }

  /** With miners of some weight, the owner takes all exactly if the fraction is not positive. */
  lemma OwnerTakesAll(w: Weights, owner: Hotkey, g: real)
    requires w != [] && owner != "" && Sum(Without(w, owner)) > 0.0
    ensures SameWeights([Share(owner, 1.0)], Ramp(w, owner, g)) <==> g <= 0.0
  {
    OneShare(owner);
    RampWeights(w, owner, g, owner);
    if g <= 0.0 {
      forall key ensures WeightOf([Share(owner, 1.0)], key) == WeightOf(Ramp(w, owner, g), key) {
        RampWeights(w, owner, g, key);
      }
    } else {
      assert WeightOf([Share(owner, 1.0)], owner) != WeightOf(Ramp(w, owner, g), owner);
    }
  }

  // ---------------------------------------------------------------- bootstrap

  /** A champion shares with a known owner, takes all without one, and the owner takes all without a champion. */
  lemma BootstrapSplits(champion: Hotkey, owner: Hotkey)
    ensures var w := Bootstrap(champion, owner);
            var genuine := champion != "" && champion != "__genesis__";
            && (w != [] <==> genuine || owner != "")
            && (w != [] ==> Sum(w) == 1.0)
            && (genuine && champion != owner ==>
                 WeightOf(w, champion) == if owner == "" then 1.0 else 0.75)
            && (owner != "" && (!genuine || champion == owner) ==> WeightOf(w, owner) == 1.0)
  {
    var alone := [Share(champion, 1.0)];
    OneShare(champion);
    OneShare(owner);
    if champion != "" && champion != GENESIS && owner != "" {
      RampSumsToOne(alone, owner, CHAMPION_FRACTION);
      if champion != owner {
        WithoutAbsent(alone, owner);
        RampWeights(alone, owner, CHAMPION_FRACTION, champion);
        PartsAdd(0.0, 0.0, 1.0, CHAMPION_FRACTION);
      }
    }
  }
}
