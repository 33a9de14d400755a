/**
 Position sizing: conviction weights with a cap whose excess is redistributed over at most ten rounds. The
 dictionary of weights is kept as its names, in insertion order, and the weights aligned with them.
 */
module Sizing {
  import opened Sums

  const ROUNDS: nat := 10

  // ----- sums over weights --------------------------------------------------------

  predicate NonNegative(w: seq<real>) { forall i :: 0 <= i < |w| ==> w[i] >= 0.0 }

  predicate AllWithin(w: seq<real>, cap: real) { forall i :: 0 <= i < |w| ==> w[i] <= cap }

  function Over(w: seq<real>, cap: real): seq<real> {
    seq(|w|, i requires 0 <= i < |w| => if w[i] > cap then w[i] - cap else 0.0)
  }

  function Within(w: seq<real>, cap: real): seq<real> {
    seq(|w|, i requires 0 <= i < |w| => if w[i] > cap then 0.0 else w[i])
  }

  function Excess(w: seq<real>, cap: real): real { Sum(Over(w, cap)) }

  function UncappedTotal(w: seq<real>, cap: real): real { Sum(Within(w, cap)) }

  /** What one uncapped name receives of the excess. */
  function Gain(excess: real, x: real, uncapped: real): real
    requires uncapped > 0.0
  {
    excess * (x / uncapped)
  }

  /** One name after one round: capped, or topped up in proportion to its weight. */
  function Raised(x: real, cap: real, excess: real, uncapped: real): real {
    if x >= cap then cap
    else if uncapped > 0.0 then x + Gain(excess, x, uncapped)
    else x
  }

  function CapRound(w: seq<real>, cap: real): seq<real> {
    seq(|w|, i requires 0 <= i < |w| => Raised(w[i], cap, Excess(w, cap), UncappedTotal(w, cap)))
  }

  function CapLoop(w: seq<real>, cap: real, rounds: nat): (r: seq<real>)
    ensures |r| == |w|
    decreases rounds, |w|
  {
    if rounds == 0 || Excess(w, cap) == 0.0 then w else CapLoop(CapRound(w, cap), cap, rounds - 1)
  }

  lemma {:induction false} SumNonNegative(w: seq<real>)
    requires NonNegative(w)
    ensures Sum(w) >= 0.0
    ensures Sum(w) == 0.0 <==> forall i :: 0 <= i < |w| ==> w[i] == 0.0
  {
    if w != [] {
      SumNonNegative(w[..|w| - 1]);
    }
  }

  /** Two different entries of a non-negative sequence fit under its sum. */
  lemma {:induction false} SumAtLeast(w: seq<real>, i: nat, j: nat)
    requires NonNegative(w) && i < |w| && j < |w|
    ensures w[i] <= Sum(w) && (i != j ==> w[i] + w[j] <= Sum(w))
    decreases |w|
  {
    var prefix := w[..|w| - 1];
    SumNonNegative(prefix);
    if i < |w| - 1 {
      SumAtLeast(prefix, i, if j < |w| - 1 then j else i);
    }
    if j < |w| - 1 {
      SumAtLeast(prefix, j, j);
    }
  }

  function CountAbove(w: seq<real>, cap: real): nat {
    if w == [] then 0 else CountAbove(w[..|w| - 1], cap) + (if w[|w| - 1] > cap then 1 else 0)
  }

  function CountAt(w: seq<real>, cap: real): nat {
    if w == [] then 0 else CountAt(w[..|w| - 1], cap) + (if w[|w| - 1] == cap then 1 else 0)
  }

  /** The part of the weights that is strictly below the cap: what a round tops up. */
  function Below(w: seq<real>, cap: real): real {
    if w == [] then 0.0 else Below(w[..|w| - 1], cap) + (if w[|w| - 1] < cap then w[|w| - 1] else 0.0)
  }

  /** The weight of the names above, and at, the cap once they are cut to it. */
  function CutMass(w: seq<real>, cap: real): real {
    if w == [] then 0.0 else CutMass(w[..|w| - 1], cap) + (if w[|w| - 1] > cap then cap else 0.0)
  }

  function AtMass(w: seq<real>, cap: real): real {
    if w == [] then 0.0 else AtMass(w[..|w| - 1], cap) + (if w[|w| - 1] == cap then cap else 0.0)
  }

  /** What a round adds to the names below the cap. */
  function TopUp(w: seq<real>, cap: real, e: real, u: real): real
    requires u > 0.0
  {
    if w == [] then 0.0 else
      TopUp(w[..|w| - 1], cap, e, u) + (if w[|w| - 1] < cap then Gain(e, w[|w| - 1], u) else 0.0)
  }

  /** Splitting a sequence of weights at the cap. */
  lemma {:induction false} SumSplits(w: seq<real>, cap: real)
    ensures Sum(w) == UncappedTotal(w, cap) + Excess(w, cap) + CutMass(w, cap)
    ensures UncappedTotal(w, cap) == Below(w, cap) + AtMass(w, cap)
  {
    if w != [] {
      var prefix := w[..|w| - 1];
      SumSplits(prefix, cap);
      assert Over(w, cap)[..|w| - 1] == Over(prefix, cap);
      assert Within(w, cap)[..|w| - 1] == Within(prefix, cap);
    }
  }

  /** `n` times the cap. */
  function Mass(cap: real, n: nat): real {
    if n == 0 then 0.0 else Mass(cap, n - 1) + cap
  }

  lemma {:induction false} MassIsProduct(cap: real, n: nat)
    ensures Mass(cap, n) == cap * n as real
  {
    if n > 0 {
      MassIsProduct(cap, n - 1);
    }
  }

  lemma {:induction false} MassOrder(cap: real, m: nat, n: nat)
    requires cap > 0.0 && m <= n
    ensures Mass(cap, m) <= Mass(cap, n)
    decreases n
  {
    if m < n {
      MassOrder(cap, m, n - 1);
    }
  }

  lemma {:induction false} MassAdds(cap: real, m: nat, n: nat)
    ensures Mass(cap, m + n) == Mass(cap, m) + Mass(cap, n)
    decreases n
  {
    if n > 0 {
      MassAdds(cap, m, n - 1);
    }
  }

  lemma {:induction false} MassesCount(w: seq<real>, cap: real)
    ensures CutMass(w, cap) == Mass(cap, CountAbove(w, cap))
    ensures AtMass(w, cap) == Mass(cap, CountAt(w, cap))
  {
    if w != [] {
      MassesCount(w[..|w| - 1], cap);
    }
  }

  lemma {:induction false} BelowNonNegative(w: seq<real>, cap: real)
    requires NonNegative(w)
    ensures Below(w, cap) >= 0.0
    ensures cap >= 0.0 ==> AtMass(w, cap) >= 0.0
  {
    if w != [] {
      BelowNonNegative(w[..|w| - 1], cap);
    }
  }

  // ----- one round ----------------------------------------------------------------

  function RaisedAll(w: seq<real>, cap: real, e: real, u: real): seq<real> {
    seq(|w|, i requires 0 <= i < |w| => Raised(w[i], cap, e, u))
  }

  lemma {:induction false} RaisedSum(w: seq<real>, cap: real, e: real, u: real)
    ensures Sum(RaisedAll(w, cap, e, u))
         == CutMass(w, cap) + AtMass(w, cap) + Below(w, cap) + (if u > 0.0 then TopUp(w, cap, e, u) else 0.0)
  {
    if w != [] {
      RaisedSum(w[..|w| - 1], cap, e, u);
      assert RaisedAll(w, cap, e, u)[..|w| - 1] == RaisedAll(w[..|w| - 1], cap, e, u);
    }
  }

  /** What a round hands on of the excess: the share of the names below the cap in the uncapped total. */
  function HandedOn(e: real, u: real, below: real): real {
    if u > 0.0 then e / u * below else 0.0
  }

  lemma ShareOfExcess(e: real, x: real, y: real, u: real)
    requires u > 0.0
    ensures HandedOn(e, u, y) + Gain(e, x, u) == HandedOn(e, u, y + x)
    ensures HandedOn(e, u, 0.0) == 0.0
  {
  }

  lemma {:induction false} TopUpIsAShare(w: seq<real>, cap: real, e: real, u: real)
    requires u > 0.0
    ensures TopUp(w, cap, e, u) == HandedOn(e, u, Below(w, cap))
  {
    if w == [] {
      ShareOfExcess(e, 0.0, 0.0, u);
    } else {
      TopUpIsAShare(w[..|w| - 1], cap, e, u);
      ShareOfExcess(e, w[|w| - 1], Below(w[..|w| - 1], cap), u);
    }
  }

  /** A round redistributes the excess over the names below the cap and loses what falls to names at the cap. */
  lemma RoundSum(w: seq<real>, cap: real)
    ensures Sum(CapRound(w, cap))
         == Sum(w) - Excess(w, cap) + HandedOn(Excess(w, cap), UncappedTotal(w, cap), Below(w, cap))
  {
    var e, u := Excess(w, cap), UncappedTotal(w, cap);
    SumSplits(w, cap);
    RaisedSum(w, cap, e, u);
    if u > 0.0 {
      TopUpIsAShare(w, cap, e, u);
    }
    assert CapRound(w, cap) == RaisedAll(w, cap, e, u);
  }

  lemma ExcessSign(w: seq<real>, cap: real)
    ensures Excess(w, cap) >= 0.0
    ensures Excess(w, cap) == 0.0 <==> AllWithin(w, cap)
  {
    SumNonNegative(Over(w, cap));
    if Excess(w, cap) == 0.0 {
      forall i | 0 <= i < |w| ensures w[i] <= cap {
        assert Over(w, cap)[i] == 0.0;
      }
    }
  }

  lemma PartOfExcess(e: real, part: real, whole: real)
    requires e >= 0.0 && 0.0 <= part <= whole
    ensures 0.0 <= HandedOn(e, whole, part) <= e
    ensures part == whole > 0.0 ==> HandedOn(e, whole, part) == e
  {
    if whole > 0.0 {
      assert e / whole * whole == e;
      assert e / whole >= 0.0;
      TimesOrder(e / whole, part, whole);
    }
  }

  lemma GainOrder(e: real, x: real, y: real, u: real)
    requires e >= 0.0 && u > 0.0 && x <= y
    ensures Gain(e, x, u) <= Gain(e, y, u)
    ensures Gain(e, 0.0, u) == 0.0 && Gain(e, u, u) == e
  {
    QuotientOrder(x, y, u);
    TimesOrder(e, x / u, y / u);
  }

  lemma RaisedNonNegative(w: seq<real>, cap: real, e: real, u: real)
    requires NonNegative(w) && cap > 0.0 && e >= 0.0
    ensures NonNegative(RaisedAll(w, cap, e, u))
  {
    forall i | 0 <= i < |w| ensures Raised(w[i], cap, e, u) >= 0.0 {
      if u > 0.0 {
        GainOrder(e, 0.0, w[i], u);
      }
    }
  }

  /** No round raises the total, and weights stay non-negative. */
  lemma RoundNeverGrows(w: seq<real>, cap: real)
    requires NonNegative(w) && cap > 0.0
    ensures Sum(CapRound(w, cap)) <= Sum(w)
    ensures NonNegative(CapRound(w, cap))
  {
    var e, u := Excess(w, cap), UncappedTotal(w, cap);
    RoundSum(w, cap);
    ExcessSign(w, cap);
    SumSplits(w, cap);
    BelowNonNegative(w, cap);
    PartOfExcess(e, Below(w, cap), u);
    RaisedNonNegative(w, cap, e, u);
    assert CapRound(w, cap) == RaisedAll(w, cap, e, u);
  }

  lemma {:induction false} LoopNeverGrows(w: seq<real>, cap: real, rounds: nat)
    requires NonNegative(w) && cap > 0.0
    ensures Sum(CapLoop(w, cap, rounds)) <= Sum(w)
    ensures NonNegative(CapLoop(w, cap, rounds))
    decreases rounds
  {
    if rounds > 0 && Excess(w, cap) != 0.0 {
      RoundNeverGrows(w, cap);
      LoopNeverGrows(CapRound(w, cap), cap, rounds - 1);
    }
  }

  // ----- ten rounds suffice for every cap of at least 1/11 --------------------------

  /** Names at the cap stay there and every name above it joins them. */
  lemma {:induction false} RaisedCountAt(w: seq<real>, cap: real, e: real, u: real)
    ensures CountAt(RaisedAll(w, cap, e, u), cap) >= CountAt(w, cap) + CountAbove(w, cap)
  {
    if w != [] {
      RaisedCountAt(w[..|w| - 1], cap, e, u);
      assert RaisedAll(w, cap, e, u)[..|w| - 1] == RaisedAll(w[..|w| - 1], cap, e, u);
    }
  }

  lemma {:induction false} SomeAbove(w: seq<real>, cap: real)
    requires Excess(w, cap) != 0.0
    ensures CountAbove(w, cap) >= 1
  {
    if w != [] {
      assert Over(w, cap)[..|w| - 1] == Over(w[..|w| - 1], cap);
      if w[|w| - 1] <= cap {
        SomeAbove(w[..|w| - 1], cap);
      }
    }
  }

  lemma CountsFit(w: seq<real>, cap: real)
    requires NonNegative(w) && Excess(w, cap) != 0.0
    ensures Mass(cap, CountAt(w, cap) + CountAbove(w, cap)) < Sum(w)
  {
    SumSplits(w, cap);
    MassesCount(w, cap);
    MassAdds(cap, CountAt(w, cap), CountAbove(w, cap));
    BelowNonNegative(w, cap);
    ExcessSign(w, cap);
  }

  /** After `rounds` more rounds nothing is above the cap when the names at the cap already nearly fill the total. */
  lemma {:induction false} LoopConverges(w: seq<real>, cap: real, rounds: nat)
    requires NonNegative(w) && cap > 0.0 && Sum(w) <= 1.0
    requires Mass(cap, CountAt(w, cap) + rounds + 1) >= 1.0
    ensures Excess(CapLoop(w, cap, rounds), cap) == 0.0
    decreases rounds
  {
    if Excess(w, cap) != 0.0 {
      SomeAbove(w, cap);
      CountsFit(w, cap);
      if rounds == 0 {
        MassOrder(cap, CountAt(w, cap) + 1, CountAt(w, cap) + CountAbove(w, cap));
        assert false;
      }
      var next := CapRound(w, cap);
      RoundNeverGrows(w, cap);
      assert next == RaisedAll(w, cap, Excess(w, cap), UncappedTotal(w, cap));
      RaisedCountAt(w, cap, Excess(w, cap), UncappedTotal(w, cap));
      MassOrder(cap, CountAt(w, cap) + rounds + 1, CountAt(next, cap) + rounds);
      LoopConverges(next, cap, rounds - 1);
    }
  }

  // ----- when the total is kept -------------------------------------------------------

  lemma PartLost(e: real, part: real, whole: real)
    requires e > 0.0 && 0.0 <= part < whole
    ensures HandedOn(e, whole, part) < e
  {
    assert e / whole * whole == e;
    assert e / whole > 0.0;
    TimesStrict(e / whole, part, whole);
  }

  /** Names at the cap have no weight only if there are none. */
  lemma NoneAtCap(w: seq<real>, cap: real)
    requires cap > 0.0
    ensures AtMass(w, cap) >= 0.0
    ensures AtMass(w, cap) == 0.0 <==> CountAt(w, cap) == 0
  {
    MassesCount(w, cap);
    if CountAt(w, cap) > 0 {
      MassOrder(cap, 1, CountAt(w, cap));
      assert Mass(cap, 1) == Mass(cap, 0) + cap;
    }
  }

  /** A round with an excess keeps the total exactly if no name is at the cap already and some name can take it. */
  lemma RoundKeepsTotalExactly(w: seq<real>, cap: real)
    requires NonNegative(w) && cap > 0.0 && Excess(w, cap) != 0.0
    ensures Sum(CapRound(w, cap)) == Sum(w) <==> CountAt(w, cap) == 0 && UncappedTotal(w, cap) > 0.0
  {
    var e, u, below := Excess(w, cap), UncappedTotal(w, cap), Below(w, cap);
    RoundSum(w, cap);
    ExcessSign(w, cap);
    SumSplits(w, cap);
    BelowNonNegative(w, cap);
    NoneAtCap(w, cap);
    if below < u {
      PartLost(e, below, u);
    } else {
      PartOfExcess(e, below, u);
    }
  }

  /** After a round with an excess some name is at the cap. */
  lemma RoundFillsCap(w: seq<real>, cap: real)
    requires Excess(w, cap) != 0.0
    ensures CountAt(CapRound(w, cap), cap) >= 1
  {
    SomeAbove(w, cap);
    RaisedCountAt(w, cap, Excess(w, cap), UncappedTotal(w, cap));
    assert CapRound(w, cap) == RaisedAll(w, cap, Excess(w, cap), UncappedTotal(w, cap));
  }

  /**
   The condition on the weights before the loop: nothing is above the cap, or the first round hands all of the
   excess on and settles it. From the second round on names at the cap are counted but receive nothing.
   */
  predicate SettlesAtOnce(w: seq<real>, cap: real) {
    AllWithin(w, cap)
    || (CountAt(w, cap) == 0 && UncappedTotal(w, cap) > 0.0 && AllWithin(CapRound(w, cap), cap))
  }

  lemma SecondRoundLoses(w: seq<real>, next: seq<real>, cap: real, rounds: nat)
    requires Excess(w, cap) != 0.0 && next == CapRound(w, cap) && NonNegative(next) && cap > 0.0 && rounds >= 1
    ensures Sum(CapLoop(next, cap, rounds)) <= Sum(next)
    ensures Sum(CapLoop(next, cap, rounds)) == Sum(next) <==> AllWithin(next, cap)
  {
    ExcessSign(next, cap);
    LoopNeverGrows(next, cap, rounds);
    if Excess(next, cap) != 0.0 {
      RoundFillsCap(w, cap);
      RoundNeverGrows(next, cap);
      RoundKeepsTotalExactly(next, cap);
      LoopNeverGrows(CapRound(next, cap), cap, rounds - 1);
    }
  }

  /** For every positive cap and all non-negative weights, two or more rounds keep the total exactly then. */
  lemma LoopKeepsTotalExactly(w: seq<real>, cap: real, rounds: nat)
    requires NonNegative(w) && cap > 0.0 && rounds >= 2
    ensures Sum(CapLoop(w, cap, rounds)) == Sum(w) <==> SettlesAtOnce(w, cap)
  {
    ExcessSign(w, cap);
    if Excess(w, cap) != 0.0 {
      var next := CapRound(w, cap);
      RoundNeverGrows(w, cap);
      RoundKeepsTotalExactly(w, cap);
      SecondRoundLoses(w, next, cap, rounds - 1);
    }
  }

  // ----- a cap of at least one half -------------------------------------------------

  lemma {:induction false} CountsOfNone(w: seq<real>, cap: real)
    requires forall i :: 0 <= i < |w| ==> w[i] < cap
    ensures CountAbove(w, cap) == 0 && CountAt(w, cap) == 0
    ensures Excess(w, cap) == 0.0 && CutMass(w, cap) == 0.0
  {
    if w != [] {
      CountsOfNone(w[..|w| - 1], cap);
      assert Over(w, cap)[..|w| - 1] == Over(w[..|w| - 1], cap);
    }
  }

  lemma {:induction false} CountsOfOne(w: seq<real>, cap: real, m: nat)
    requires m < |w| && w[m] > cap && forall i :: 0 <= i < |w| && i != m ==> w[i] < cap
    ensures CountAbove(w, cap) == 1 && CountAt(w, cap) == 0
    ensures Excess(w, cap) == w[m] - cap && CutMass(w, cap) == cap
  {
    var prefix := w[..|w| - 1];
    assert Over(w, cap)[..|w| - 1] == Over(prefix, cap);
    if m < |w| - 1 {
      CountsOfOne(prefix, cap, m);
    } else {
      CountsOfNone(prefix, cap);
    }
  }

  /** The single name above a cap of at least one half. */
  lemma OneAbove(w: seq<real>, cap: real, m: nat)
    requires NonNegative(w) && Sum(w) == 1.0 && cap >= 0.5 && m < |w| && w[m] > cap
    ensures CountAbove(w, cap) == 1 && CountAt(w, cap) == 0
    ensures UncappedTotal(w, cap) == 1.0 - w[m] && Excess(w, cap) == w[m] - cap
  {
    forall i | 0 <= i < |w| && i != m ensures w[i] < cap {
      SumAtLeast(w, i, m);
    }
    CountsOfOne(w, cap, m);
    SumSplits(w, cap);
  }

  lemma RaisedBound(x: real, cap: real, e: real, u: real)
    requires x < cap ==> 0.0 <= x <= u && u + e <= cap && e >= 0.0
    ensures Raised(x, cap, e, u) <= cap
  {
    if x < cap && u > 0.0 {
      GainOrder(e, x, u, u);
    }
  }

  /** With a cap of at least one half no name is left above it after one round. */
  lemma HalfCapRoundBound(w: seq<real>, cap: real, m: nat, i: nat)
    requires NonNegative(w) && Sum(w) == 1.0 && 0.5 <= cap && m < |w| && w[m] > cap && i < |w|
    ensures CapRound(w, cap)[i] <= cap
  {
    var e, u := Excess(w, cap), UncappedTotal(w, cap);
    OneAbove(w, cap, m);
    SumAtLeast(w, i, m);
    SumAtLeast(w, m, m);
    RaisedBound(w[i], cap, e, u);
  }

  /** With a cap of at least one half only a lone name cannot hand its excess on. */
  lemma HalfCapSettles(w: seq<real>, cap: real)
    requires NonNegative(w) && Sum(w) == 1.0 && cap >= 0.5
    ensures SettlesAtOnce(w, cap) <==> cap >= 1.0 || forall i :: 0 <= i < |w| ==> w[i] < 1.0
  {
    forall i | 0 <= i < |w| ensures w[i] <= 1.0 {
      SumAtLeast(w, i, i);
    }
    if m :| 0 <= m < |w| && w[m] > cap {
      OneAbove(w, cap, m);
      forall i | 0 <= i < |w| ensures CapRound(w, cap)[i] <= cap && (i != m ==> w[i] < 1.0) {
        HalfCapRoundBound(w, cap, m, i);
        SumAtLeast(w, i, m);
      }
    }
  }

  // ----- order --------------------------------------------------------------------

  /** Names ordered by weight stay ordered, except that a name at the cap waits there for the others. */
  ghost predicate Ranked(w: seq<real>, i: nat, j: nat, cap: real)
    requires i < |w| && j < |w|
  {
    w[i] <= w[j] || w[j] == cap
  }

  lemma RaisedOrder(x: real, y: real, cap: real, e: real, u: real)
    requires x <= y < cap && e >= 0.0
    ensures Raised(x, cap, e, u) <= Raised(y, cap, e, u)
  {
    if u > 0.0 {
      GainOrder(e, x, y, u);
    }
  }

  lemma {:induction false} LoopRanked(w: seq<real>, cap: real, rounds: nat, i: nat, j: nat)
    requires i < |w| && j < |w| && Ranked(w, i, j, cap)
    ensures Ranked(CapLoop(w, cap, rounds), i, j, cap)
    decreases rounds
  {
    if rounds > 0 && Excess(w, cap) != 0.0 {
      ExcessSign(w, cap);
      if w[j] < cap {
        RaisedOrder(w[i], w[j], cap, Excess(w, cap), UncappedTotal(w, cap));
      }
      LoopRanked(CapRound(w, cap), cap, rounds - 1, i, j);
    }
  }

  // ----- proportions --------------------------------------------------------------

  /** Two names whose weights are in the ratio of `p` to `q`. */
  predicate InRatio(x: real, y: real, p: real, q: real) { Times(x, q) == Times(y, p) }

  lemma GainFactor(e: real, x: real, u: real)
    requires u > 0.0
    ensures Gain(e, x, u) == e / u * x
  {
  }

  lemma GainInRatio(x: real, y: real, p: real, q: real, e: real, u: real)
    requires u > 0.0 && InRatio(x, y, p, q)
    ensures InRatio(x + Gain(e, x, u), y + Gain(e, y, u), p, q)
  {
    var k := e / u;
    GainFactor(e, x, u);
    GainFactor(e, y, u);
    assert Times(x + k * x, q) == Times(x, q) + k * Times(x, q);
    assert Times(y + k * y, p) == Times(y, p) + k * Times(y, p);
  }

  /** No name drops below the cap once it has reached it, and names that never reach it keep their ratio. */
  lemma {:induction false} LoopProportions(w: seq<real>, cap: real, rounds: nat, i: nat, j: nat, p: real, q: real)
    requires i < |w| && j < |w|
    ensures w[i] >= cap ==> CapLoop(w, cap, rounds)[i] >= cap
    ensures w[i] < cap && w[j] < cap && InRatio(w[i], w[j], p, q)
              && CapLoop(w, cap, rounds)[i] < cap && CapLoop(w, cap, rounds)[j] < cap ==>
            InRatio(CapLoop(w, cap, rounds)[i], CapLoop(w, cap, rounds)[j], p, q)
    decreases rounds
  {
    if rounds > 0 && Excess(w, cap) != 0.0 {
      var next, e, u := CapRound(w, cap), Excess(w, cap), UncappedTotal(w, cap);
      LoopProportions(next, cap, rounds - 1, i, j, p, q);
      LoopProportions(next, cap, rounds - 1, j, i, q, p);
      if u > 0.0 && InRatio(w[i], w[j], p, q) {
        GainInRatio(w[i], w[j], p, q, e, u);
      }
    }
  }

  // ----- sizing -------------------------------------------------------------------

  function Scaled(w: seq<real>, c: real): seq<real> {
    seq(|w|, i requires 0 <= i < |w| => Times(c, w[i]))
  }

  lemma {:induction false} ScaledSum(w: seq<real>, c: real)
    ensures Sum(Scaled(w, c)) == Times(c, Sum(w))
  {
    if w != [] {
      var prefix := w[..|w| - 1];
      ScaledSum(prefix, c);
      assert Scaled(w, c)[..|w| - 1] == Scaled(prefix, c);
      TimesDistributes(c, Sum(prefix), w[|w| - 1]);
    }
  }

  function Shares(c: seq<real>, total: real): seq<real>
    requires total != 0.0
  {
    seq(|c|, i requires 0 <= i < |c| => Quotient(c[i], total))
  }

  lemma {:induction false} SharesSum(c: seq<real>, total: real)
    requires total > 0.0
    ensures Sum(Shares(c, total)) == Quotient(Sum(c), total)
  {
    if c != [] {
      var prefix := c[..|c| - 1];
      SharesSum(prefix, total);
      assert Shares(c, total)[..|c| - 1] == Shares(prefix, total);
      QuotientAdds(Sum(prefix), c[|c| - 1], total);
    }
  }

  function Normalized(c: seq<real>): seq<real>
    requires Sum(c) != 0.0
  {
    Shares(c, Sum(c))
  }

  function EqualWeight(n: nat, cap: real): real
    requires n > 0
  {
    if 1.0 / n as real <= cap then 1.0 / n as real else cap
  }

  /** Target weights for the given convictions, before the cash buffer is taken out. */
  function Weights(c: seq<real>, cap: real): seq<real> {
    if c == [] then []
    else if Sum(c) == 0.0 then seq(|c|, _ => EqualWeight(|c|, cap))
    else CapLoop(Normalized(c), cap, ROUNDS)
  }

  function TargetWeights(c: seq<real>, cap: real, buffer: real): seq<real> {
    Scaled(Weights(c, cap), 1.0 - buffer)
  }

  lemma NormalizedSum(c: seq<real>)
    requires NonNegative(c) && Sum(c) > 0.0
    ensures NonNegative(Normalized(c)) && Sum(Normalized(c)) == 1.0
    ensures forall i, j :: 0 <= i < |c| && 0 <= j < |c| && c[i] <= c[j] ==> Normalized(c)[i] <= Normalized(c)[j]
    ensures forall i :: 0 <= i < |c| && c[i] > 0.0 ==> Normalized(c)[i] > 0.0
  {
    var total := Sum(c);
    SharesSum(c, total);
    QuotientAdds(total, total, total);
    forall i, j | 0 <= i < |c| && 0 <= j < |c| && c[i] <= c[j] ensures Quotient(c[i], total) <= Quotient(c[j], total) {
      QuotientOrder(c[j], c[i], total);
    }
    forall i | 0 <= i < |c| ensures Quotient(c[i], total) >= 0.0 && (c[i] > 0.0 ==> Quotient(c[i], total) > 0.0) {
      QuotientOrder(0.0, c[i], total);
      QuotientOrder(c[i], 0.0, total);
    }
  }

  lemma EqualWeights(n: nat, cap: real)
    requires n > 0 && cap > 0.0
    ensures 0.0 < EqualWeight(n, cap) <= cap
    ensures EqualWeight(n, cap) * n as real <= 1.0
    ensures EqualWeight(n, cap) * n as real == 1.0 <==> cap * n as real >= 1.0
  {
    var r, equal := n as real, 1.0 / n as real;
    assert equal * r == 1.0;
    if equal > cap {
      assert (equal - cap) * r > 0.0;
    } else {
      assert (cap - equal) * r >= 0.0;
    }
  }

  /** Ten rounds from normalized weights suffice for every cap of at least 1/11. */
  lemma TenRoundsSuffice(w: seq<real>, cap: real)
    requires NonNegative(w) && Sum(w) == 1.0 && 11.0 * cap >= 1.0
    ensures var r := CapLoop(w, cap, ROUNDS);
      && AllWithin(r, cap)
      && (forall i, j :: 0 <= i < |w| && 0 <= j < |w| && w[i] <= w[j] ==> r[i] <= r[j])
  {
    var r := CapLoop(w, cap, ROUNDS);
    MassIsProduct(cap, 11);
    MassOrder(cap, 11, CountAt(w, cap) + ROUNDS + 1);
    LoopConverges(w, cap, ROUNDS);
    ExcessSign(r, cap);
    forall i, j | 0 <= i < |w| && 0 <= j < |w| && w[i] <= w[j] ensures r[i] <= r[j] {
      LoopRanked(w, cap, ROUNDS, i, j);
    }
  }

  lemma LargestEqualWeight(n: nat, cap: real)
    requires n > 0 && cap > 0.0
    ensures var w := EqualWeight(n, cap);
      w <= cap && Times(w, n as real) <= 1.0 && (w == cap || Times(w, n as real) == 1.0)
  {
    EqualWeights(n, cap);
    QuotientTimes(1.0, n as real);
    assert 1.0 / n as real == Quotient(1.0, n as real);
  }

  /** With no conviction at all every name gets the largest equal weight that fits under the cap and into one. */
  lemma EqualWeightsExactly(c: seq<real>, cap: real, i: nat)
    requires Sum(c) == 0.0 && cap > 0.0 && i < |c|
    ensures var w := Weights(c, cap)[i];
      w <= cap && Times(w, |c| as real) <= 1.0 && (w == cap || Times(w, |c| as real) == 1.0)
  {
    LargestEqualWeight(|c|, cap);
    assert Weights(c, cap)[i] == EqualWeight(|c|, cap);
  }

  /** Weights that respect the cap and follow the order of the convictions. */
  ghost predicate CappedInOrder(w: seq<real>, c: seq<real>, cap: real)
    requires |w| == |c|
  {
    && AllWithin(w, cap)
    && (forall i, j :: 0 <= i < |c| && 0 <= j < |c| && c[i] <= c[j] ==> w[i] <= w[j])
  }

  lemma EqualBounded(c: seq<real>, cap: real)
    requires c != [] && Sum(c) == 0.0 && cap > 0.0
    ensures NonNegative(Weights(c, cap)) && Sum(Weights(c, cap)) <= 1.0
    ensures CappedInOrder(Weights(c, cap), c, cap)
  {
    EqualWeights(|c|, cap);
    SumConstant(Weights(c, cap), EqualWeight(|c|, cap));
  }

  /**
   For every positive cap and any non-negative convictions the weights are non-negative and total at most one;
   for every cap of at least 1/11 the ten rounds suffice: no weight exceeds the cap and the order of the
   convictions is kept.
   */
  lemma WeightsBounded(c: seq<real>, cap: real)
    requires NonNegative(c) && cap > 0.0
    ensures |Weights(c, cap)| == |c| && NonNegative(Weights(c, cap)) && Sum(Weights(c, cap)) <= 1.0
    ensures 11.0 * cap >= 1.0 ==> CappedInOrder(Weights(c, cap), c, cap)
  {
    SumNonNegative(c);
    if c == [] {
    } else if Sum(c) == 0.0 {
      EqualBounded(c, cap);
    } else {
      NormalizedSum(c);
      LoopNeverGrows(Normalized(c), cap, ROUNDS);
      if 11.0 * cap >= 1.0 {
        TenRoundsSuffice(Normalized(c), cap);
      }
    }
  }

  lemma SharesInRatio(x: real, y: real, total: real)
    requires total > 0.0
    ensures InRatio(Quotient(x, total), Quotient(y, total), x, y)
  {
    assert x / total * y == y / total * x;
  }

  /** For every cap, names that end up below it are weighted in proportion to their convictions. */
  lemma UncappedKeepProportions(c: seq<real>, cap: real, i: nat, j: nat)
    requires NonNegative(c) && cap > 0.0 && i < |c| && j < |c|
    ensures |Weights(c, cap)| == |c|
    ensures Weights(c, cap)[i] < cap && Weights(c, cap)[j] < cap ==>
      InRatio(Weights(c, cap)[i], Weights(c, cap)[j], c[i], c[j])
  {
    SumNonNegative(c);
    if Sum(c) > 0.0 {
      var w := Normalized(c);
      SharesInRatio(c[i], c[j], Sum(c));
      LoopProportions(w, cap, ROUNDS, i, j, c[i], c[j]);
      LoopProportions(w, cap, ROUNDS, j, i, c[j], c[i]);
    }
  }

  ghost predicate TwoPositive(c: seq<real>) {
    exists i, j :: 0 <= i < j < |c| && c[i] > 0.0 && c[j] > 0.0
  }

  lemma TwoShare(c: seq<real>, i: nat, j: nat, k: nat)
    requires NonNegative(c) && Sum(c) > 0.0 && i < j < |c| && k < |c| && c[i] > 0.0 && c[j] > 0.0
    ensures Normalized(c)[k] < 1.0
  {
    NormalizedSum(c);
    SumAtLeast(Normalized(c), k, if k == i then j else i);
  }

  lemma {:induction false} LoneSum(c: seq<real>, m: nat)
    requires m < |c| && forall i :: 0 <= i < |c| && i != m ==> c[i] == 0.0
    ensures Sum(c) == c[m]
  {
    if m < |c| - 1 {
      LoneSum(c[..|c| - 1], m);
    } else {
      SumNonNegative(c[..|c| - 1]);
    }
  }

  lemma LoneName(c: seq<real>)
    requires NonNegative(c) && Sum(c) > 0.0
    ensures TwoPositive(c) <==> forall i :: 0 <= i < |c| ==> Normalized(c)[i] < 1.0
  {
    if i, j :| 0 <= i < j < |c| && c[i] > 0.0 && c[j] > 0.0 {
      forall k | 0 <= k < |c| ensures Normalized(c)[k] < 1.0 {
        TwoShare(c, i, j, k);
      }
    } else {
      SumNonNegative(c);
      var m :| 0 <= m < |c| && c[m] != 0.0;
      LoneSum(c, m);
      QuotientAdds(c[m], c[m], c[m]);
      assert Normalized(c)[m] == Quotient(c[m], c[m]);
    }
  }

  /** What decides whether the weights are complete, in terms of the convictions and the cap. */
  predicate CanRedistribute(c: seq<real>, cap: real) {
    c != [] && if Sum(c) == 0.0 then cap * |c| as real >= 1.0 else SettlesAtOnce(Normalized(c), cap)
  }

  /**
   For every positive cap and all non-negative convictions the weights total exactly one if and only if nothing
   is above the cap or the first round settles the excess (all convictions zero: the cap leaves room for all).
   */
  lemma WeightsTotalExactly(c: seq<real>, cap: real)
    requires NonNegative(c) && cap > 0.0
    ensures Sum(Weights(c, cap)) == 1.0 <==> CanRedistribute(c, cap)
  {
    SumNonNegative(c);
    if c == [] {
    } else if Sum(c) == 0.0 {
      EqualWeights(|c|, cap);
      SumConstant(Weights(c, cap), EqualWeight(|c|, cap));
    } else {
      NormalizedSum(c);
      LoopKeepsTotalExactly(Normalized(c), cap, ROUNDS);
    }
  }

  lemma HalfOfTwo(cap: real, n: nat)
    requires cap >= 0.5 && n > 0
    ensures cap * n as real >= 1.0 <==> cap >= 1.0 || n >= 2
  {
    var r := n as real;
    if n >= 2 {
      assert (cap - 0.5) * r >= 0.0 && r >= 2.0;
    } else {
      assert r == 1.0;
    }
  }

  lemma HalfCapShares(c: seq<real>, cap: real)
    requires NonNegative(c) && Sum(c) > 0.0 && cap >= 0.5
    ensures SettlesAtOnce(Normalized(c), cap) <==> cap >= 1.0 || TwoPositive(c)
  {
    NormalizedSum(c);
    HalfCapSettles(Normalized(c), cap);
    LoneName(c);
  }

  /** For a cap of at least one half that means: a cap of one, or a second name that can take the excess. */
  lemma HalfCapTotal(c: seq<real>, cap: real)
    requires NonNegative(c) && cap >= 0.5
    ensures CanRedistribute(c, cap) <==>
      c != [] && (cap >= 1.0 || if Sum(c) == 0.0 then |c| >= 2 else TwoPositive(c))
  {
    SumNonNegative(c);
    if c != [] && Sum(c) == 0.0 {
      HalfOfTwo(cap, |c|);
    } else if c != [] {
      HalfCapShares(c, cap);
    }
  }

  lemma SumOfThree(w: seq<real>)
    requires |w| == 3
    ensures Sum(w) == w[0] + w[1] + w[2]
  {
    assert w[..2][..1] == w[..1] && w[..1][..0] == [];
    assert Sum(w[..1]) == w[0] && Sum(w[..2]) == Sum(w[..1]) + w[1];
  }

  /** Below one half two positive convictions are not enough: the second round loses weight to the name at the cap. */
  lemma ThreeNamesLoseWeight()
    ensures var c := [50.0, 35.0, 15.0];
      TwoPositive(c) && !CanRedistribute(c, 0.4) && Sum(Weights(c, 0.4)) < 1.0
  {
    var c, w := [50.0, 35.0, 15.0], [0.5, 0.35, 0.15];
    assert c[0] > 0.0 && c[1] > 0.0;
    SumOfThree(c);
    SumOfThree(w);
    assert Normalized(c) == w;
    assert Over(w, 0.4) == [0.1, 0.0, 0.0] && Within(w, 0.4) == [0.0, 0.35, 0.15];
    SumOfThree(Over(w, 0.4));
    SumOfThree(Within(w, 0.4));
    assert Gain(0.1, 0.35, 0.5) == 0.07;
    assert CapRound(w, 0.4)[1] == 0.42;
    WeightsTotalExactly(c, 0.4);
    WeightsBounded(c, 0.4);
  }

  lemma ZeroFactor(x: real, y: real)
    requires x * y == 0.0
    ensures x == 0.0 || y == 0.0
  {
  }

  lemma TimesOne(scale: real, total: real)
    ensures Times(scale, total) == scale <==> scale == 0.0 || total == 1.0
  {
    if Times(scale, total) == scale {
      assert scale * (total - 1.0) == 0.0;
      ZeroFactor(scale, total - 1.0);
    }
  }

  /** The same, after the cash buffer: what the target weights of `size_positions` add up to. */
  lemma TargetTotal(c: seq<real>, cap: real, buffer: real)
    requires NonNegative(c) && cap > 0.0
    ensures Sum(TargetWeights(c, cap, buffer)) == 1.0 - buffer <==> buffer == 1.0 || CanRedistribute(c, cap)
  {
    WeightsTotalExactly(c, cap);
    ScaledSum(Weights(c, cap), 1.0 - buffer);
    TimesOne(1.0 - buffer, Sum(Weights(c, cap)));
  }

  lemma ScaledOrder(w: seq<real>, c: real)
    requires c >= 0.0
    ensures forall i, j :: 0 <= i < |w| && 0 <= j < |w| && w[i] <= w[j] ==> Scaled(w, c)[i] <= Scaled(w, c)[j]
    ensures forall i, x :: 0 <= i < |w| && w[i] <= x ==> Scaled(w, c)[i] <= Times(c, x)
    ensures NonNegative(w) ==> NonNegative(Scaled(w, c))
  {
    forall i, x | 0 <= i < |w| ensures w[i] <= x ==> Times(c, w[i]) <= Times(c, x) {
      if w[i] <= x {
        TimesOrder(c, w[i], x);
      }
    }
    forall i | 0 <= i < |w| ensures w[i] >= 0.0 ==> Times(c, w[i]) >= 0.0 {
      if w[i] >= 0.0 {
        TimesOrder(c, 0.0, w[i]);
      }
    }
  }

  /**
   What `size_positions` guarantees for every positive cap: non-negative targets totalling at most one minus the
   cash buffer; and for every cap of at least 1/11 no target above cap times that, in the order of the convictions.
   */
  lemma TargetsBounded(c: seq<real>, cap: real, buffer: real)
    requires NonNegative(c) && cap > 0.0 && 0.0 <= buffer <= 1.0
    ensures var t := TargetWeights(c, cap, buffer);
      && |t| == |c| && NonNegative(t) && Sum(t) <= 1.0 - buffer
      && (11.0 * cap >= 1.0 ==> CappedInOrder(t, c, Times(1.0 - buffer, cap)))
  {
    WeightsBounded(c, cap);
    ScaledSum(Weights(c, cap), 1.0 - buffer);
    TimesOrder(1.0 - buffer, Sum(Weights(c, cap)), 1.0);
    ScaledOrder(Weights(c, cap), 1.0 - buffer);
  }

  datatype CompositeScore = CompositeScore(
    symbol: string, compositeScore: real, compositeConfidence: real, conviction: real, targetWeight: real)

  function Convictions(xs: seq<CompositeScore>): seq<real> {
    seq(|xs|, i requires 0 <= i < |xs| => xs[i].conviction)
  }

  function Cut(x: real, cap: real): real { if x > cap then cap else x }

  /** One pass over the weights: cut at the cap, total what was cut and what was not. */
  method CutAtCap(w: seq<real>, cap: real) returns (capped: seq<real>, excess: real, uncappedTotal: real)
    ensures |capped| == |w| && forall i :: 0 <= i < |w| ==> capped[i] == Cut(w[i], cap)
    ensures excess == Excess(w, cap) && uncappedTotal == UncappedTotal(w, cap)
  {
    capped, excess, uncappedTotal := [], 0.0, 0.0;
    for i := 0 to |w|
      invariant |capped| == i && forall j :: 0 <= j < i ==> capped[j] == Cut(w[j], cap)
      invariant excess == Excess(w[..i], cap) && uncappedTotal == UncappedTotal(w[..i], cap)
    {
      assert Over(w[..i + 1], cap)[..i] == Over(w[..i], cap);
      assert Within(w[..i + 1], cap)[..i] == Within(w[..i], cap);
      if w[i] > cap {
        capped := capped + [cap];
        excess := excess + (w[i] - cap);
      } else {
        capped := capped + [w[i]];
        uncappedTotal := uncappedTotal + w[i];
      }
    }
    assert w[..|w|] == w;
  }

  /** Hands the excess to the names below the cap in proportion to their weights. */
  method HandOn(ghost w: seq<real>, cut: seq<real>, cap: real, excess: real, uncappedTotal: real)
    returns (capped: seq<real>)
    requires |cut| == |w| && forall i :: 0 <= i < |w| ==> cut[i] == Cut(w[i], cap)
    ensures capped == RaisedAll(w, cap, excess, uncappedTotal)
  {
    capped := cut;
    if uncappedTotal > 0.0 {
      for i := 0 to |cut|
        invariant |capped| == |w|
        invariant forall j :: i <= j < |w| ==> capped[j] == cut[j]
        invariant forall j :: 0 <= j < i ==> capped[j] == Raised(w[j], cap, excess, uncappedTotal)
      {
        if capped[i] < cap {
          capped := capped[i := capped[i] + Gain(excess, capped[i], uncappedTotal)];
        }
      }
    }
  }

  /** The redistribution loop: stops early when nothing is above the cap. */
  method Redistribute(w: seq<real>, cap: real) returns (weights: seq<real>)
    ensures weights == CapLoop(w, cap, ROUNDS)
  {
    weights := w;
    for k := 0 to ROUNDS
      invariant |weights| == |w|
      invariant CapLoop(weights, cap, ROUNDS - k) == CapLoop(w, cap, ROUNDS)
    {
      var cut, excess, uncappedTotal := CutAtCap(weights, cap);
      if excess == 0.0 {
        break;
      }
      var capped := HandOn(weights, cut, cap, excess, uncappedTotal);
      assert capped == CapRound(weights, cap);
      weights := capped;
    }
  }

  ghost predicate DistinctSymbols(xs: seq<CompositeScore>) {
    forall i, j :: 0 <= i < j < |xs| ==> xs[i].symbol != xs[j].symbol
  }

  /** The keys of the dictionary of weights, in insertion order. */
  function Names(selected: seq<CompositeScore>): seq<string> {
    if selected == [] then [] else
      var before, s := Names(selected[..|selected| - 1]), selected[|selected| - 1].symbol;
      if s in before then before else before + [s]
  }

  /** The conviction that ends up behind a key: the last one wins. */
  function ConvictionOf(selected: seq<CompositeScore>, s: string): real {
    if selected == [] then 0.0
    else if selected[|selected| - 1].symbol == s then selected[|selected| - 1].conviction
    else ConvictionOf(selected[..|selected| - 1], s)
  }

  function Entries(selected: seq<CompositeScore>, total: real): seq<real>
    requires total != 0.0
  {
    var names := Names(selected);
    seq(|names|, k requires 0 <= k < |names| => Quotient(ConvictionOf(selected, names[k]), total))
  }

  function Lookup(names: seq<string>, values: seq<real>, s: string): real
    requires |names| == |values|
  {
    if names == [] then 0.0
    else if names[|names| - 1] == s then values[|values| - 1]
    else Lookup(names[..|names| - 1], values[..|values| - 1], s)
  }

  /** The target that `size_positions` assigns to a symbol, even if the selection names it more than once. */
  function TargetOf(selected: seq<CompositeScore>, cap: real, buffer: real, s: string): real
    requires selected != []
  {
    var total := Sum(Convictions(selected));
    if total == 0.0 then Times(1.0 - buffer, EqualWeight(|selected|, cap))
    else Lookup(Names(selected), Scaled(CapLoop(Entries(selected, total), cap, ROUNDS), 1.0 - buffer), s)
  }

  lemma {:induction false} LookupAt(names: seq<string>, values: seq<real>, k: nat)
    requires |names| == |values| && k < |names| && forall i, j :: 0 <= i < j < |names| ==> names[i] != names[j]
    ensures Lookup(names, values, names[k]) == values[k]
  {
    if k < |names| - 1 {
      LookupAt(names[..|names| - 1], values[..|values| - 1], k);
    }
  }

  lemma {:induction false} NamesDistinct(selected: seq<CompositeScore>)
    ensures forall i, j :: 0 <= i < j < |Names(selected)| ==> Names(selected)[i] != Names(selected)[j]
    ensures forall s :: s in Names(selected) <==> exists i :: 0 <= i < |selected| && selected[i].symbol == s
  {
    if selected != [] {
      NamesDistinct(selected[..|selected| - 1]);
      assert selected == selected[..|selected| - 1] + [selected[|selected| - 1]];
    }
  }

  /** Of a repeated symbol the last conviction counts. */
  lemma {:induction false} LastConvictionCounts(selected: seq<CompositeScore>, i: nat)
    requires i < |selected|
    requires forall j :: i < j < |selected| ==> selected[j].symbol != selected[i].symbol
    ensures ConvictionOf(selected, selected[i].symbol) == selected[i].conviction
  {
    if i < |selected| - 1 {
      LastConvictionCounts(selected[..|selected| - 1], i);
    }
  }

  /** Without repeated symbols the dictionary is aligned with the selection. */
  lemma {:induction false} DistinctEntries(selected: seq<CompositeScore>)
    requires DistinctSymbols(selected)
    ensures |Names(selected)| == |selected|
    ensures forall i :: 0 <= i < |selected| ==> Names(selected)[i] == selected[i].symbol
    ensures forall i :: 0 <= i < |selected| ==> ConvictionOf(selected, selected[i].symbol) == selected[i].conviction
  {
    if selected != [] {
      DistinctEntries(selected[..|selected| - 1]);
      NamesDistinct(selected[..|selected| - 1]);
    }
  }

  /** Then every name gets the target weight of its conviction. */
  lemma DistinctTargets(selected: seq<CompositeScore>, cap: real, buffer: real, i: nat)
    requires DistinctSymbols(selected) && i < |selected|
    ensures TargetOf(selected, cap, buffer, selected[i].symbol) == TargetWeights(Convictions(selected), cap, buffer)[i]
  {
    var c := Convictions(selected);
    if Sum(c) != 0.0 {
      DistinctEntries(selected);
      assert Entries(selected, Sum(c)) == Normalized(c);
      NamesDistinct(selected);
      LookupAt(Names(selected), TargetWeights(c, cap, buffer), i);
    }
  }

  /** Filling the dictionary: a repeated symbol overwrites its entry in place. */
  method FillWeights(selected: seq<CompositeScore>, total: real) returns (names: seq<string>, weights: seq<real>)
    requires total != 0.0
    ensures names == Names(selected) && weights == Entries(selected, total)
  {
    names, weights := [], [];
    for i := 0 to |selected|
      invariant names == Names(selected[..i]) && weights == Entries(selected[..i], total)
    {
      var s, w := selected[i].symbol, selected[i].conviction / total;
      NamesDistinct(selected[..i]);
      assert selected[..i + 1][..i] == selected[..i];
      if s in names {
        var k :| 0 <= k < |names| && names[k] == s;
        weights := weights[k := w];
      } else {
        names, weights := names + [s], weights + [w];
      }
    }
    assert selected[..|selected|] == selected;
  }

  /** Conviction-weighted targets with the cap, at most ten redistribution rounds, and the cash buffer. */
  method SizePositions(selected: seq<CompositeScore>, cap: real, buffer: real) returns (sized: seq<CompositeScore>)
    ensures |sized| == |selected|
    ensures forall i :: 0 <= i < |selected| ==>
      sized[i] == selected[i].(targetWeight := TargetOf(selected, cap, buffer, selected[i].symbol))
    ensures DistinctSymbols(selected) ==> forall i :: 0 <= i < |selected| ==>
      sized[i].targetWeight == TargetWeights(Convictions(selected), cap, buffer)[i]
  {
    if selected == [] {
      return [];
    }
    var bufferScale := 1.0 - buffer;
    var total := Sum(Convictions(selected));
    if total == 0.0 {
      var equal := 1.0 / |selected| as real;
      var target := Times(bufferScale, if equal <= cap then equal else cap);
      sized := seq(|selected|, i requires 0 <= i < |selected| => selected[i].(targetWeight := target));
    } else {
      var names, weights := FillWeights(selected, total);
      weights := Redistribute(weights, cap);
      weights := Scaled(weights, bufferScale);
      sized := seq(|selected|, i requires 0 <= i < |selected| =>
        selected[i].(targetWeight := Lookup(names, weights, selected[i].symbol)));
    }
    if DistinctSymbols(selected) {
      forall i | 0 <= i < |selected|
        ensures sized[i].targetWeight == TargetWeights(Convictions(selected), cap, buffer)[i]
      {
        DistinctTargets(selected, cap, buffer, i);
      }
    }
  }
}
