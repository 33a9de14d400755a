/**
 The ten rounds of `size_positions` hold the cap for every selection exactly from a cap of 1/11 up: below it,
 eleven names can be chosen that go over the cap one per round, so that the eleventh is still above it.
 */
module CapRounds {
  import opened Sums
  import opened Sizing

  /** `a` names at the cap, one above it by `e`, and the others. */
  function Stage(a: nat, cap: real, e: real, rest: seq<real>): seq<real> {
    seq(a, _ => cap) + [cap + e] + rest
  }

  /** Names with a positive weight below the cap. */
  predicate Waiting(rest: seq<real>, cap: real) { forall i :: 0 <= i < |rest| ==> 0.0 < rest[i] < cap }

  function Caps(a: nat, cap: real): real { Times(a as real, cap) }

  lemma CapsStep(a: nat, cap: real)
    ensures Caps(a + 1, cap) == Caps(a, cap) + cap && Caps(0, cap) == 0.0
  {
  }

  lemma {:induction false} SumConcat(xs: seq<real>, ys: seq<real>)
    ensures Sum(xs + ys) == Sum(xs) + Sum(ys)
    decreases |ys|
  {
    if ys == [] {
      assert xs + ys == xs;
    } else {
      SumConcat(xs, ys[..|ys| - 1]);
      assert (xs + ys)[..|xs + ys| - 1] == xs + ys[..|ys| - 1];
    }
  }

  lemma SumConsts(n: nat, x: real)
    ensures Sum(seq(n, _ => x)) == Times(n as real, x)
  {
    SumConstant(seq(n, _ => x), x);
  }

  lemma SumOne(x: real)
    ensures Sum([x]) == x
  {
    assert [x][..0] == [];
  }

  /** Three parts of a stage: two constant stretches around one entry. */
  lemma StageParts(a: nat, x: real, y: real, rest: seq<real>)
    ensures Sum(seq(a, _ => x) + [y] + rest) == Times(a as real, x) + y + Sum(rest)
  {
    SumConcat(seq(a, _ => x) + [y], rest);
    SumConcat(seq(a, _ => x), [y]);
    SumOne(y);
    SumConsts(a, x);
  }

  lemma StageTotal(a: nat, cap: real, e: real, rest: seq<real>)
    ensures Sum(Stage(a, cap, e, rest)) == Caps(a, cap) + cap + e + Sum(rest)
  {
    StageParts(a, cap, cap + e, rest);
  }

  lemma StageOver(a: nat, cap: real, e: real, rest: seq<real>)
    requires e > 0.0 && Waiting(rest, cap)
    ensures Excess(Stage(a, cap, e, rest), cap) == e
  {
    var zeros := seq(|rest|, _ => 0.0);
    assert Over(Stage(a, cap, e, rest), cap) == seq(a, _ => 0.0) + [e] + zeros;
    StageParts(a, 0.0, e, zeros);
    SumConsts(|rest|, 0.0);
  }

  lemma StageWithin(a: nat, cap: real, e: real, rest: seq<real>)
    requires e > 0.0 && Waiting(rest, cap)
    ensures UncappedTotal(Stage(a, cap, e, rest), cap) == Caps(a, cap) + Sum(rest)
  {
    assert Within(Stage(a, cap, e, rest), cap) == seq(a, _ => cap) + [0.0] + rest;
    StageParts(a, cap, 0.0, rest);
  }

  lemma StageExcess(a: nat, cap: real, e: real, rest: seq<real>)
    requires e > 0.0 && Waiting(rest, cap)
    ensures Excess(Stage(a, cap, e, rest), cap) == e
    ensures UncappedTotal(Stage(a, cap, e, rest), cap) == Caps(a, cap) + Sum(rest)
  {
    StageOver(a, cap, e, rest);
    StageWithin(a, cap, e, rest);
  }

  lemma {:induction false} PositiveSum(rest: seq<real>, cap: real)
    requires Waiting(rest, cap)
    ensures 0.0 <= Sum(rest) <= Caps(|rest|, cap)
    ensures rest != [] ==> 0.0 < Sum(rest) < Caps(|rest|, cap)
  {
    CapsStep(0, cap);
    if rest != [] {
      PositiveSum(rest[..|rest| - 1], cap);
      CapsStep(|rest| - 1, cap);
    }
  }

  /** The stretch factor of a round gives back what was divided by it. */
  lemma Stretch(x: real, f: real, u: real, e: real)
    requires f > 0.0 && u > 0.0 && e == Times(f - 1.0, u)
    ensures Quotient(x, f) + Gain(e, Quotient(x, f), u) == x
  {
    var y := x / f;
    assert y * f == x;
    assert e * (y / u) == (f - 1.0) * y by {
      assert (f - 1.0) * u * (y / u) == (f - 1.0) * (u * (y / u));
      assert u * (y / u) == y;
    }
  }

  lemma ShareWaits(x: real, f: real, cap: real)
    requires f > 0.0 && 0.0 < x < Times(f, cap)
    ensures 0.0 < Quotient(x, f) < cap
  {
    var y := x / f;
    assert y * f == x;
    if y >= cap {
      TimesOrder(f, cap, y);
    }
  }

  lemma SharesWait(xs: seq<real>, f: real, cap: real)
    requires f > 0.0 && forall i :: 0 <= i < |xs| ==> 0.0 < xs[i] < Times(f, cap)
    ensures Waiting(Shares(xs, f), cap)
  {
    forall i | 0 <= i < |xs| ensures 0.0 < Quotient(xs[i], f) < cap {
      ShareWaits(xs[i], f, cap);
    }
  }

  lemma CapsNonNegative(a: nat, cap: real)
    requires cap > 0.0
    ensures Caps(a, cap) >= 0.0
  {
  }

  lemma RoundOfStage(a: nat, cap: real, e: real, rest: seq<real>, after: seq<real>, f: real)
    requires f > 1.0 && e > 0.0 && Waiting(rest, cap) && rest == Shares(after, f) && after != []
    requires Caps(a, cap) + Sum(rest) > 0.0 && e == Times(f - 1.0, Caps(a, cap) + Sum(rest))
    ensures CapRound(Stage(a, cap, e, rest), cap) == seq(a + 1, _ => cap) + after
    ensures seq(a + 1, _ => cap) + after == seq(a + 1, _ => cap) + [after[0]] + after[1..]
  {
    var w, r := Stage(a, cap, e, rest), seq(a + 1, _ => cap) + after;
    var u := Caps(a, cap) + Sum(rest);
    StageExcess(a, cap, e, rest);
    forall i | 0 <= i < |w| ensures Raised(w[i], cap, e, u) == r[i] {
      if i > a {
        assert w[i] == rest[i - a - 1] && r[i] == after[i - a - 1];
        Stretch(after[i - a - 1], f, u, e);
      }
    }
  }

  /** The stage that one round turns into a given stage with one more name at the cap. */
  lemma StageBefore(a: nat, cap: real, e': real, rest': seq<real>, f: real) returns (e: real, rest: seq<real>)
    requires cap > 0.0 && e' > 0.0 && Waiting(rest', cap) && f > 1.0 && cap + e' < Times(f, cap)
    ensures rest == Shares([cap + e'] + rest', f) && Waiting(rest, cap)
    ensures e == Times(f - 1.0, Caps(a, cap) + Sum(rest)) > 0.0
    ensures Sum(rest) == Quotient(cap + e' + Sum(rest'), f)
    ensures Excess(Stage(a, cap, e, rest), cap) != 0.0
    ensures CapRound(Stage(a, cap, e, rest), cap) == Stage(a + 1, cap, e', rest')
  {
    var after := [cap + e'] + rest';
    rest := Shares(after, f);
    SharesWait(after, f, cap);
    SharesSum(after, f);
    SumConcat([cap + e'], rest');
    SumOne(cap + e');
    PositiveSum(rest, cap);
    var u := Caps(a, cap) + Sum(rest);
    CapsNonNegative(a, cap);
    e := Times(f - 1.0, u);
    TimesSign(f - 1.0, u);
    StageExcess(a, cap, e, rest);
    RoundOfStage(a, cap, e, rest, after, f);
  }

  predicate Broken(w: seq<real>, cap: real, rounds: nat) { !AllWithin(CapLoop(w, cap, rounds), cap) }

  lemma BrokenBefore(w: seq<real>, next: seq<real>, cap: real, rounds: nat)
    requires Excess(w, cap) != 0.0 && next == CapRound(w, cap) && Broken(next, cap, rounds)
    ensures Broken(w, cap, rounds + 1)
  {
  }

  lemma SmallExcess(f: real, cap: real, e': real, u: real, names: nat, bound: real)
    requires cap > 0.0 && names > 0 && 0.0 < u <= Caps(names, cap)
    requires f == 1.0 + 2.0 * e' / cap && 0.0 < e' < bound / (2.0 * names as real)
    ensures Times(f - 1.0, u) < bound && cap + e' < Times(f, cap) && f > 1.0
  {
    var n, k := names as real, 2.0 * e' / cap;
    assert k * cap == 2.0 * e' && k > 0.0;
    assert f * cap == cap + k * cap;
    TimesOrder(k, u, n * cap);
    assert k * (n * cap) == n * (k * cap);
    assert bound / (2.0 * n) * (2.0 * n) == bound;
    assert (bound / (2.0 * n) - e') * (2.0 * n) > 0.0;
  }

  lemma CapsAdd(a: nat, k: nat, cap: real)
    ensures Caps(a, cap) + Caps(k, cap) == Caps(a + k, cap)
  {
    assert (a + k) as real == a as real + k as real;
  }

  lemma StretchedSum(f: real, r: real, s: real)
    requires f > 0.0 && s == Quotient(r, f)
    ensures Times(f - 1.0, s) + s == r
  {
    assert s * f == r;
    assert (f - 1.0) * s == f * s - s;
  }

  /** Nothing is lost in a round that starts without a name at the cap. */
  lemma FirstRoundKeeps(cap: real, e: real, rest: seq<real>, e': real, rest': seq<real>, f: real)
    requires f > 0.0 && e == Times(f - 1.0, Caps(0, cap) + Sum(rest)) && Sum(rest) == Quotient(cap + e' + Sum(rest'), f)
    ensures Sum(Stage(0, cap, e, rest)) == Sum(Stage(1, cap, e', rest'))
  {
    StageTotal(0, cap, e, rest);
    StageTotal(1, cap, e', rest');
    CapsStep(0, cap);
    StretchedSum(f, cap + e' + Sum(rest'), Sum(rest));
  }

  lemma ChainStep(a: nat, k: nat, cap: real, bound: real, e': real, rest': seq<real>)
    returns (e: real, rest: seq<real>)
    requires cap > 0.0 && bound > 0.0 && k > 0 && |rest'| == k - 1 && Waiting(rest', cap)
    requires 0.0 < e' < bound / (2.0 * (a + k) as real)
    requires Broken(Stage(a + 1, cap, e', rest'), cap, k - 1)
    ensures 0.0 < e < bound && |rest| == k && Waiting(rest, cap) && Broken(Stage(a, cap, e, rest), cap, k)
    ensures Sum(Stage(a, cap, e, rest)) == Sum(Stage(a + 1, cap, e', rest')) || a > 0
  {
    var f := 1.0 + 2.0 * e' / cap;
    SmallExcess(f, cap, e', cap, 1, 4.0 * e');
    e, rest := StageBefore(a, cap, e', rest', f);
    PositiveSum(rest, cap);
    CapsAdd(a, k, cap);
    CapsNonNegative(a, cap);
    SmallExcess(f, cap, e', Caps(a, cap) + Sum(rest), a + k, bound);
    BrokenBefore(Stage(a, cap, e, rest), Stage(a + 1, cap, e', rest'), cap, k - 1);
    if a == 0 {
      FirstRoundKeeps(cap, e, rest, e', rest', f);
    }
  }

  /** Stages with an excess as small as wanted that still break the cap after one round per waiting name. */
  lemma {:induction false} Chain(a: nat, k: nat, cap: real, bound: real) returns (e: real, rest: seq<real>)
    requires cap > 0.0 && bound > 0.0
    ensures 0.0 < e < bound && |rest| == k && Waiting(rest, cap) && Broken(Stage(a, cap, e, rest), cap, k)
    decreases k
  {
    if k == 0 {
      e, rest := bound / 2.0, [];
      assert CapLoop(Stage(a, cap, e, rest), cap, 0)[a] == cap + e;
    } else {
      var tighter := bound / (2.0 * (a + k) as real);
      assert tighter > 0.0;
      var e', rest' := Chain(a + 1, k - 1, cap, tighter);
      e, rest := ChainStep(a, k, cap, bound, e', rest');
    }
  }

  /** The stretch factor that makes the second stage total one. */
  lemma FactorForTotal(cap: real, e': real, others: real) returns (f: real)
    requires cap > 0.0 && e' > 0.0 && 3.0 * cap + 2.0 * e' + others < 1.0
    ensures Times(f, cap) == 1.0 - cap - (cap + e' + others)
    ensures cap + e' < Times(f, cap) && f > 1.0
  {
    f := (1.0 - cap - (cap + e' + others)) / cap;
    assert f * cap == 1.0 - cap - (cap + e' + others);
    if f <= 1.0 {
      TimesOrder(cap, f, 1.0);
    }
  }

  /** What the second stage totals. */
  lemma StretchedTotal(cap: real, f: real, r: real, s: real)
    requires f > 0.0 && s == Quotient(r, f)
    ensures cap + cap + Times(f - 1.0, cap + s) + s == cap + Times(f, cap) + r
  {
    assert s * f == r;
    assert (f - 1.0) * (cap + s) == f * cap - cap + s * f - s;
  }

  lemma SecondStage(cap: real) returns (e: real, rest: seq<real>)
    requires cap > 0.0 && 11.0 * cap < 1.0
    ensures e > 0.0 && |rest| == 9 && Waiting(rest, cap) && Broken(Stage(1, cap, e, rest), cap, 9)
    ensures Sum(Stage(1, cap, e, rest)) == 1.0
  {
    var e', rest' := Chain(2, 8, cap, (1.0 - 11.0 * cap) / 2.0);
    PositiveSum(rest', cap);
    assert Caps(8, cap) == 8.0 * cap && Caps(1, cap) == cap;
    var f := FactorForTotal(cap, e', Sum(rest'));
    e, rest := StageBefore(1, cap, e', rest', f);
    BrokenBefore(Stage(1, cap, e, rest), Stage(2, cap, e', rest'), cap, 8);
    StageTotal(1, cap, e, rest);
    StretchedTotal(cap, f, cap + e' + Sum(rest'), Sum(rest));
  }

  /** Eleven weights that total one and are still above the cap after ten rounds. */
  lemma TenRoundsFail(cap: real) returns (w: seq<real>)
    requires cap > 0.0 && 11.0 * cap < 1.0
    ensures |w| == 11 && NonNegative(w) && Sum(w) == 1.0 && Broken(w, cap, ROUNDS)
  {
    var e', rest' := SecondStage(cap);
    var bound := 20.0 * e' + 1.0;
    assert e' < bound / (2.0 * 10 as real);
    var e, rest := ChainStep(0, 10, cap, bound, e', rest');
    w := Stage(0, cap, e, rest);
  }

  lemma AlreadyNormalized(w: seq<real>)
    requires Sum(w) == 1.0
    ensures Normalized(w) == w
  {
  }

  /** Ten rounds hold the cap for all convictions if and only if the cap is at least 1/11. */
  lemma CapHeldExactly(cap: real)
    requires cap > 0.0
    ensures (forall c :: NonNegative(c) ==> AllWithin(Weights(c, cap), cap)) <==> 11.0 * cap >= 1.0
  {
    if 11.0 * cap >= 1.0 {
      forall c | NonNegative(c) ensures AllWithin(Weights(c, cap), cap) {
        WeightsBounded(c, cap);
      }
    } else {
      var w := TenRoundsFail(cap);
      AlreadyNormalized(w);
      assert Weights(w, cap) == CapLoop(w, cap, ROUNDS);
    }
  }
}
