/**
 Rank statistics: average ranks with ties, and Spearman's correlation. Its laws are proved on the covariance and
 the variances, without a root, and then for the coefficient; the square root is a parameter.
 */
module RankStats {
  import opened Prelude
  import opened Sorting
  import opened Sums

  // ----- counting -------------------------------------------------------------------

  function CountLess(xs: seq<real>, v: real): nat {
    if xs == [] then 0 else CountLess(xs[..|xs| - 1], v) + (if xs[|xs| - 1] < v then 1 else 0)
  }

  function CountEqual(xs: seq<real>, v: real): nat {
    if xs == [] then 0 else CountEqual(xs[..|xs| - 1], v) + (if xs[|xs| - 1] == v then 1 else 0)
  }

  lemma {:induction false} CountConcat(xs: seq<real>, ys: seq<real>, v: real)
    ensures CountLess(xs + ys, v) == CountLess(xs, v) + CountLess(ys, v)
    ensures CountEqual(xs + ys, v) == CountEqual(xs, v) + CountEqual(ys, v)
    decreases |ys|
  {
    if ys == [] {
      assert xs + ys == xs;
    } else {
      CountConcat(xs, ys[..|ys| - 1], v);
      assert (xs + ys)[..|xs + ys| - 1] == xs + ys[..|ys| - 1];
    }
  }

  lemma CountRemove(xs: seq<real>, k: nat, v: real)
    requires k < |xs|
    ensures var rest := xs[..k] + xs[k + 1..];
      && CountLess(xs, v) == CountLess(rest, v) + (if xs[k] < v then 1 else 0)
      && CountEqual(xs, v) == CountEqual(rest, v) + (if xs[k] == v then 1 else 0)
  {
    assert xs == xs[..k] + ([xs[k]] + xs[k + 1..]);
    CountConcat(xs[..k], [xs[k]] + xs[k + 1..], v);
    CountConcat([xs[k]], xs[k + 1..], v);
    CountConcat(xs[..k], xs[k + 1..], v);
    assert [xs[k]][..0] == [];
  }

  lemma RemoveOne<T>(b: seq<T>, k: nat)
    requires k < |b|
    ensures multiset(b) == multiset(b[..k] + b[k + 1..]) + multiset{b[k]}
  {
    assert b == b[..k] + [b[k]] + b[k + 1..];
  }

  lemma RemoveSame<T>(a: seq<T>, m: nat, b: seq<T>, k: nat)
    requires m < |a| && k < |b| && a[m] == b[k] && multiset(a) == multiset(b)
    ensures multiset(a[..m] + a[m + 1..]) == multiset(b[..k] + b[k + 1..])
  {
    RemoveOne(a, m);
    RemoveOne(b, k);
    assert multiset(a[..m] + a[m + 1..]) == multiset(a) - multiset{a[m]};
    assert multiset(b[..k] + b[k + 1..]) == multiset(b) - multiset{b[k]};
  }

  lemma SameElement<T>(a: seq<T>, m: nat, b: seq<T>) returns (k: nat)
    requires m < |a| && multiset(a) == multiset(b)
    ensures k < |b| && b[k] == a[m]
  {
    assert a[m] in multiset(b);
    var i :| 0 <= i < |b| && b[i] == a[m];
    k := i;
  }

  /** Counts do not depend on the order of the sequence. */
  lemma {:induction false} CountPermutation(xs: seq<real>, ys: seq<real>, v: real)
    requires multiset(xs) == multiset(ys)
    ensures CountLess(xs, v) == CountLess(ys, v) && CountEqual(xs, v) == CountEqual(ys, v)
    decreases |xs|
  {
    if xs == [] {
      assert |multiset(ys)| == 0;
    } else {
      var m := |xs| - 1;
      var k := SameElement(xs, m, ys);
      RemoveSame(xs, m, ys, k);
      assert xs[..m] + xs[m + 1..] == xs[..m];
      CountPermutation(xs[..m], ys[..k] + ys[k + 1..], v);
      CountRemove(ys, k, v);
    }
  }

  lemma {:induction false} CountAll(xs: seq<real>, v: real)
    ensures (forall i :: 0 <= i < |xs| ==> xs[i] < v) ==> CountLess(xs, v) == |xs| && CountEqual(xs, v) == 0
    ensures (forall i :: 0 <= i < |xs| ==> xs[i] == v) ==> CountLess(xs, v) == 0 && CountEqual(xs, v) == |xs|
    ensures (forall i :: 0 <= i < |xs| ==> xs[i] > v) ==> CountLess(xs, v) == 0 && CountEqual(xs, v) == 0
  {
    if xs != [] {
      CountAll(xs[..|xs| - 1], v);
    }
  }

  // ----- tie groups in a sorted order --------------------------------------------------

  function At(xs: seq<real>, i: int): real { if 0 <= i < |xs| then xs[i] else 0.0 }

  function Range(n: nat): seq<int> { seq(n, i => i) }

  function Image<T>(f: T -> real, xs: seq<T>): seq<real> {
    seq(|xs|, k requires 0 <= k < |xs| => f(xs[k]))
  }

  function ValuesAt(xs: seq<real>, order: seq<int>): seq<real> {
    Image((i: int) => At(xs, i), order)
  }

  lemma ImageRemove<T>(f: T -> real, b: seq<T>, k: nat)
    requires k < |b|
    ensures multiset(Image(f, b)) == multiset(Image(f, b[..k] + b[k + 1..])) + multiset{f(b[k])}
  {
    var vs := Image(f, b);
    RemoveOne(vs, k);
    assert vs[..k] + vs[k + 1..] == Image(f, b[..k] + b[k + 1..]);
  }

  lemma {:induction false} ImagePermutes<T>(f: T -> real, a: seq<T>, b: seq<T>)
    requires multiset(a) == multiset(b)
    ensures multiset(Image(f, a)) == multiset(Image(f, b))
    decreases |a|
  {
    if a == [] {
      assert |multiset(b)| == 0;
    } else {
      var m := |a| - 1;
      var k := SameElement(a, m, b);
      RemoveSame(a, m, b, k);
      assert a[..m] + a[m + 1..] == a[..m];
      ImagePermutes(f, a[..m], b[..k] + b[k + 1..]);
      ImageRemove(f, a, m);
      ImageRemove(f, b, k);
    }
  }

  /** `order` lists every index once, by non-decreasing value; ties may come in any order. */
  ghost predicate OrdersBy(order: seq<int>, xs: seq<real>) {
    && multiset(order) == multiset(Range(|xs|))
    && forall i, j :: 0 <= i < j < |order| ==> At(xs, order[i]) <= At(xs, order[j])
  }

  lemma OrderIsPermutation(order: seq<int>, xs: seq<real>)
    requires multiset(order) == multiset(Range(|xs|))
    ensures |order| == |xs|
    ensures forall k :: 0 <= k < |order| ==> 0 <= order[k] < |xs|
    ensures Distinct(order)
    ensures forall i :: 0 <= i < |xs| ==> i in order
  {
    assert |multiset(order)| == |multiset(Range(|xs|))|;
    forall k | 0 <= k < |order| ensures 0 <= order[k] < |xs| {
      assert order[k] in multiset(order);
      assert order[k] in Range(|xs|);
    }
    assert Distinct(Range(|xs|));
    MultisetDistinct(Range(|xs|), order);
    forall i | 0 <= i < |xs| ensures i in order {
      assert Range(|xs|)[i] == i;
      assert i in multiset(Range(|xs|));
    }
  }

  lemma ThreePartCounts(low: seq<real>, mid: seq<real>, high: seq<real>, v: real)
    requires forall k :: 0 <= k < |low| ==> low[k] < v
    requires forall k :: 0 <= k < |mid| ==> mid[k] == v
    requires forall k :: 0 <= k < |high| ==> high[k] > v
    ensures CountLess(low + (mid + high), v) == |low| && CountEqual(low + (mid + high), v) == |mid|
  {
    CountConcat(low, mid + high, v);
    CountConcat(mid, high, v);
    CountAll(low, v);
    CountAll(mid, v);
    CountAll(high, v);
  }

  /** A run i..j of equal values with only smaller values before it and only larger ones after it. */
  lemma RunCounts(ys: seq<real>, i: nat, j: nat, v: real)
    requires i <= j < |ys|
    requires forall k :: 0 <= k < i ==> ys[k] < v
    requires forall k :: i <= k <= j ==> ys[k] == v
    requires forall k :: j < k < |ys| ==> ys[k] > v
    ensures CountLess(ys, v) == i && CountEqual(ys, v) == j - i + 1
  {
    assert ys == ys[..i] + (ys[i..j + 1] + ys[j + 1..]);
    ThreePartCounts(ys[..i], ys[i..j + 1], ys[j + 1..], v);
  }

  /** A maximal run of equal values in a sorted order: i elements are smaller and j - i + 1 are equal. */
  lemma GroupCounts(order: seq<int>, xs: seq<real>, i: nat, j: nat)
    requires OrdersBy(order, xs) && i <= j < |order|
    requires forall k :: i <= k <= j ==> At(xs, order[k]) == At(xs, order[i])
    requires i > 0 ==> At(xs, order[i - 1]) < At(xs, order[i])
    requires j + 1 < |order| ==> At(xs, order[j + 1]) > At(xs, order[i])
    ensures CountLess(xs, At(xs, order[i])) == i && CountEqual(xs, At(xs, order[i])) == j - i + 1
  {
    ImagePermutes((i: int) => At(xs, i), order, Range(|xs|));
    assert ValuesAt(xs, Range(|xs|)) == xs;
    CountPermutation(xs, ValuesAt(xs, order), At(xs, order[i]));
    forall k | 0 <= k < i ensures At(xs, order[k]) < At(xs, order[i]) {
      assert k == i - 1 || At(xs, order[k]) <= At(xs, order[i - 1]);
    }
    forall k | j < k < |order| ensures At(xs, order[k]) > At(xs, order[i]) {
      assert k == j + 1 || At(xs, order[j + 1]) <= At(xs, order[k]);
    }
    RunCounts(ValuesAt(xs, order), i, j, At(xs, order[i]));
  }

  // ----- average ranks -------------------------------------------------------------------

  /** Number strictly smaller plus half of (number equal plus one). */
  function RankOf(xs: seq<real>, v: real): real {
    CountLess(xs, v) as real + (CountEqual(xs, v) + 1) as real / 2.0
  }

  function Ranks(xs: seq<real>): seq<real> {
    seq(|xs|, i requires 0 <= i < |xs| => RankOf(xs, xs[i]))
  }

  /** The last position of the run of equal values that starts at `i`. */
  method EndOfRun(xs: seq<real>, order: seq<int>, i: nat) returns (j: nat)
    requires OrdersBy(order, xs) && i < |order|
    requires forall k :: 0 <= k < |order| ==> 0 <= order[k] < |xs|
    ensures i <= j < |order|
    ensures forall k :: i <= k <= j ==> At(xs, order[k]) == At(xs, order[i])
    ensures j + 1 < |order| ==> At(xs, order[j + 1]) > At(xs, order[i])
  {
    j := i;
    while j + 1 < |order| && xs[order[j + 1]] == xs[order[i]]
      invariant i <= j < |order|
      invariant forall k :: i <= k <= j ==> At(xs, order[k]) == At(xs, order[i])
    {
      j := j + 1;
    }
  }

  /** The inner loop: every position of the run i..j gets the average. */
  method FillRun(ranks: array<real>, order: seq<int>, i: nat, j: nat, avg: real)
    requires i <= j < |order| == ranks.Length && Distinct(order)
    requires forall k :: 0 <= k < |order| ==> 0 <= order[k] < |order|
    modifies ranks
    ensures forall m :: i <= m <= j ==> ranks[order[m]] == avg
    ensures forall m :: 0 <= m < i ==> ranks[order[m]] == old(ranks[order[m]])
  {
    for k := i to j + 1
      invariant forall m :: 0 <= m < i ==> ranks[order[m]] == old(ranks[order[m]])
      invariant forall m :: i <= m < k ==> ranks[order[m]] == avg
    {
      ranks[order[k]] := avg;
    }
  }

  lemma RanksFromOrder(xs: seq<real>, order: seq<int>, r: seq<real>)
    requires |order| == |xs| == |r| && (forall i :: 0 <= i < |xs| ==> i in order)
    requires forall k :: 0 <= k < |order| ==> 0 <= order[k] < |r| && r[order[k]] == RankOf(xs, At(xs, order[k]))
    ensures r == Ranks(xs)
  {
    forall m | 0 <= m < |xs| ensures r[m] == RankOf(xs, xs[m]) {
      assert m in order;
      var k :| 0 <= k < |order| && order[k] == m;
      assert r[order[k]] == RankOf(xs, At(xs, order[k]));
    }
  }

  /** The tie-grouping loop, for whatever order the sort leaves ties in. */
  method RanksInOrder(xs: seq<real>, order: seq<int>) returns (r: seq<real>)
    requires OrdersBy(order, xs)
    ensures r == Ranks(xs)
  {
    OrderIsPermutation(order, xs);
    var n := |order|;
    var ranks := new real[n];
    var i := 0;
    while i < n
      invariant 0 <= i <= n && ranks.Length == n
      invariant forall k :: 0 <= k < i ==> ranks[order[k]] == RankOf(xs, At(xs, order[k]))
      invariant 0 < i < n ==> At(xs, order[i - 1]) < At(xs, order[i])
    {
      var j := EndOfRun(xs, order, i);
      var avg := (i + j) as real / 2.0 + 1.0;
      GroupCounts(order, xs, i, j);
      FillRun(ranks, order, i, j, avg);
      i := j + 1;
    }
    r := ranks[..];
    RanksFromOrder(xs, order, r);
  }

  method ComputeRanks(xs: seq<real>) returns (r: seq<real>)
    ensures r == Ranks(xs)
  {
    var byValue := (i: int, j: int) => At(xs, i) <= At(xs, j);
    var order := Sort(Range(|xs|), byValue);
    SortSorts(Range(|xs|), byValue);
    r := RanksInOrder(xs, order);
  }

  // ----- the rank total -------------------------------------------------------------------

  /** The ranks that the elements of `ys` would get in `xs`, added up. */
  function RankSum(xs: seq<real>, ys: seq<real>): real {
    if ys == [] then 0.0 else RankSum(xs, ys[..|ys| - 1]) + RankOf(xs, ys[|ys| - 1])
  }

  lemma {:induction false} RanksTotal(xs: seq<real>, n: nat)
    requires n <= |xs|
    ensures Sum(Ranks(xs)[..n]) == RankSum(xs, xs[..n])
  {
    if n > 0 {
      RanksTotal(xs, n - 1);
      assert Ranks(xs)[..n][..n - 1] == Ranks(xs)[..n - 1];
      assert xs[..n][..n - 1] == xs[..n - 1];
    }
  }

  /** A newcomer raises the rank of each larger element by one and of each equal element by one half. */
  lemma {:induction false} NewcomerRaises(xs: seq<real>, z: real, ys: seq<real>)
    ensures RankSum(xs + [z], ys)
         == RankSum(xs, ys) + (|ys| - CountLess(ys, z)) as real - CountEqual(ys, z) as real / 2.0
    decreases |ys|
  {
    if ys != [] {
      var y := ys[|ys| - 1];
      NewcomerRaises(xs, z, ys[..|ys| - 1]);
      assert (xs + [z])[..|xs|] == xs;
    }
  }

  /** However many ties there are, the ranks of n elements add up to n (n + 1) / 2. */
  lemma {:induction false} RankTotal(xs: seq<real>)
    ensures RankSum(xs, xs) == (|xs| * (|xs| + 1)) as real / 2.0
  {
    if xs != [] {
      var prefix, z := xs[..|xs| - 1], xs[|xs| - 1];
      RankTotal(prefix);
      NewcomerRaises(prefix, z, prefix);
      assert prefix + [z] == xs;
      assert |xs| * (|xs| + 1) == |prefix| * (|prefix| + 1) + 2 * (|prefix| + 1);
    }
  }

  lemma RanksAddUp(xs: seq<real>)
    ensures Sum(Ranks(xs)) == (|xs| * (|xs| + 1)) as real / 2.0
  {
    RanksTotal(xs, |xs|);
    RankTotal(xs);
    assert Ranks(xs)[..|xs|] == Ranks(xs) && xs[..|xs|] == xs;
  }

  // ----- Spearman --------------------------------------------------------------------------

  function Mean(xs: seq<real>): real
    requires xs != []
  {
    Sum(xs) / |xs| as real
  }

  function Centered(xs: seq<real>): seq<real>
    requires xs != []
  {
    seq(|xs|, i requires 0 <= i < |xs| => xs[i] - Mean(xs))
  }

  function Dot(u: seq<real>, v: seq<real>): real
    requires |u| == |v|
  {
    if u == [] then 0.0 else Dot(u[..|u| - 1], v[..|v| - 1]) + Times(u[|u| - 1], v[|v| - 1])
  }

  /** The correlation is covariance / (sqrt(xVariance) * sqrt(yVariance)). */
  datatype Correlation = Correlation(covariance: real, xVariance: real, yVariance: real)

  function Spearman(xs: seq<real>, ys: seq<real>): Option<Correlation> {
    if |xs| != |ys| || |xs| < 2 then None else
      var rx, ry := Centered(Ranks(xs)), Centered(Ranks(ys));
      var vx, vy := Dot(rx, rx), Dot(ry, ry);
      if vx == 0.0 || vy == 0.0 then None else Some(Correlation(Dot(rx, ry), vx, vy))
  }

  lemma SquareZero(x: real, y: real)
    requires x == y && x * y <= 0.0
    ensures x == 0.0
  {
    TimesSign(x, y);
  }

  lemma {:induction false} DotSelf(u: seq<real>)
    ensures Dot(u, u) >= 0.0
    ensures Dot(u, u) == 0.0 <==> forall i :: 0 <= i < |u| ==> u[i] == 0.0
  {
    if u != [] {
      DotSelf(u[..|u| - 1]);
      TimesSign(u[|u| - 1], u[|u| - 1]);
    }
  }

  lemma PositiveFactor(a: real, b: real)
    requires a > 0.0 && a * b >= 0.0
    ensures b >= 0.0
  {
  }

  lemma CrossTerm(a: real, b: real, c: real, x: real, y: real)
    requires a >= 0.0 && b >= 0.0 && c * c <= a * b
    ensures 2.0 * c * (x * y) <= a * (y * y) + b * (x * x)
  {
    if a == 0.0 {
      assert a * b == 0.0;
      SquareZero(c, c);
      assert b * (x * x) >= 0.0;
    } else {
      var d := a * y - c * x;
      assert d * d >= 0.0;
      assert d * d == a * a * (y * y) - 2.0 * a * c * (x * y) + c * c * (x * x);
      assert (a * b - c * c) * (x * x) >= 0.0;
      assert a * (a * (y * y) + b * (x * x) - 2.0 * c * (x * y)) >= 0.0;
      PositiveFactor(a, a * (y * y) + b * (x * x) - 2.0 * c * (x * y));
    }
  }

  /** One more coordinate keeps the Cauchy-Schwarz inequality. */
  lemma CauchyStep(a: real, b: real, c: real, x: real, y: real)
    requires a >= 0.0 && b >= 0.0 && Times(c, c) <= Times(a, b)
    ensures Times(c + Times(x, y), c + Times(x, y)) <= Times(a + Times(x, x), b + Times(y, y))
  {
    CrossTerm(a, b, c, x, y);
    assert (a + x * x) * (b + y * y) == a * b + a * (y * y) + b * (x * x) + (x * y) * (x * y);
    assert (c + x * y) * (c + x * y) == c * c + 2.0 * c * (x * y) + (x * y) * (x * y);
  }

  lemma {:induction false} Cauchy(u: seq<real>, v: seq<real>)
    requires |u| == |v|
    ensures Times(Dot(u, v), Dot(u, v)) <= Times(Dot(u, u), Dot(v, v))
  {
    if u != [] {
      var u', v' := u[..|u| - 1], v[..|v| - 1];
      Cauchy(u', v');
      DotSelf(u');
      DotSelf(v');
      CauchyStep(Dot(u', u'), Dot(v', v'), Dot(u', v'), u[|u| - 1], v[|v| - 1]);
    }
  }

  /** The correlation lies in [-1, 1]: its square never exceeds one. */
  lemma SpearmanBounded(xs: seq<real>, ys: seq<real>)
    requires Spearman(xs, ys).Some?
    ensures var r := Spearman(xs, ys).value;
      && r.xVariance > 0.0 && r.yVariance > 0.0
      && Times(r.covariance, r.covariance) <= Times(r.xVariance, r.yVariance)
  {
    Cauchy(Centered(Ranks(xs)), Centered(Ranks(ys)));
    DotSelf(Centered(Ranks(xs)));
    DotSelf(Centered(Ranks(ys)));
  }

  // ----- when there is no correlation ---------------------------------------------------------

  ghost predicate Constant(xs: seq<real>) {
    forall i, j :: 0 <= i < |xs| && 0 <= j < |xs| ==> xs[i] == xs[j]
  }

  lemma {:induction false} LargerRanksHigher(xs: seq<real>, v: real, w: real)
    requires v < w
    ensures CountLess(xs, v) + CountEqual(xs, v) <= CountLess(xs, w)
  {
    if xs != [] {
      LargerRanksHigher(xs[..|xs| - 1], v, w);
    }
  }

  lemma {:induction false} Counted(xs: seq<real>, i: nat)
    requires i < |xs|
    ensures CountEqual(xs, xs[i]) >= 1
  {
    if i < |xs| - 1 {
      Counted(xs[..|xs| - 1], i);
    }
  }

  /** Ranks are ordered exactly like the values. */
  lemma RanksFollowValues(xs: seq<real>, i: nat, j: nat)
    requires i < |xs| && j < |xs|
    ensures Ranks(xs)[i] < Ranks(xs)[j] <==> xs[i] < xs[j]
    ensures Ranks(xs)[i] == Ranks(xs)[j] <==> xs[i] == xs[j]
  {
    Counted(xs, i);
    Counted(xs, j);
    if xs[i] < xs[j] {
      LargerRanksHigher(xs, xs[i], xs[j]);
    } else if xs[j] < xs[i] {
      LargerRanksHigher(xs, xs[j], xs[i]);
    }
  }

  lemma MeanOfConstant(x: real, n: nat)
    requires n > 0
    ensures x * n as real / n as real == x
  {
  }

  lemma ConstantCentered(r: seq<real>, i: nat)
    requires i < |r| && forall k :: 0 <= k < |r| ==> r[k] == r[0]
    ensures Centered(r)[i] == 0.0
  {
    SumConstant(r, r[0]);
    MeanOfConstant(r[0], |r|);
    assert Mean(r) == r[0];
  }

  /** The rank variance vanishes exactly on constant inputs. */
  lemma VarianceZeroExactly(xs: seq<real>)
    requires xs != []
    ensures Dot(Centered(Ranks(xs)), Centered(Ranks(xs))) == 0.0 <==> Constant(xs)
  {
    var r := Ranks(xs);
    DotSelf(Centered(r));
    if Constant(xs) {
      forall i | 0 <= i < |xs| ensures r[i] == r[0] {
        RanksFollowValues(xs, i, 0);
      }
      forall i | 0 <= i < |xs| ensures Centered(r)[i] == 0.0 {
        ConstantCentered(r, i);
      }
    } else {
      var i, j :| 0 <= i < |xs| && 0 <= j < |xs| && xs[i] != xs[j];
      RanksFollowValues(xs, i, j);
      assert Centered(r)[i] != Centered(r)[j];
    }
  }

  /** No correlation exactly for unequal lengths, fewer than two pairs, or a constant input. */
  lemma SpearmanNoneExactly(xs: seq<real>, ys: seq<real>)
    ensures Spearman(xs, ys) == None <==> |xs| != |ys| || |xs| < 2 || Constant(xs) || Constant(ys)
  {
    if |xs| == |ys| && |xs| >= 2 {
      VarianceZeroExactly(xs);
      VarianceZeroExactly(ys);
    }
  }

  // ----- invariance ------------------------------------------------------------------------------

  ghost predicate Increasing(f: real -> real) { forall x, y :: x < y ==> f(x) < f(y) }

  ghost predicate Decreasing(f: real -> real) { forall x, y :: x < y ==> f(x) > f(y) }

  function Map(xs: seq<real>, f: real -> real): seq<real> {
    seq(|xs|, i requires 0 <= i < |xs| => f(xs[i]))
  }

  lemma {:induction false} IncreasingKeepsCounts(xs: seq<real>, f: real -> real, v: real)
    requires Increasing(f)
    ensures CountLess(Map(xs, f), f(v)) == CountLess(xs, v) && CountEqual(Map(xs, f), f(v)) == CountEqual(xs, v)
  {
    if xs != [] {
      IncreasingKeepsCounts(xs[..|xs| - 1], f, v);
      assert Map(xs, f)[..|xs| - 1] == Map(xs[..|xs| - 1], f);
      var x := xs[|xs| - 1];
      assert x < v ==> f(x) < f(v);
      assert v < x ==> f(v) < f(x);
    }
  }

  lemma IncreasingKeepsRanks(xs: seq<real>, f: real -> real)
    requires Increasing(f)
    ensures Ranks(Map(xs, f)) == Ranks(xs)
  {
    forall i | 0 <= i < |xs| ensures RankOf(Map(xs, f), f(xs[i])) == RankOf(xs, xs[i]) {
      IncreasingKeepsCounts(xs, f, xs[i]);
    }
  }

  /** Strictly increasing transformations of either input do not change the result. */
  lemma SpearmanInvariant(xs: seq<real>, ys: seq<real>, f: real -> real, g: real -> real)
    requires Increasing(f) && Increasing(g)
    ensures Spearman(Map(xs, f), Map(ys, g)) == Spearman(xs, ys)
  {
    IncreasingKeepsRanks(xs, f);
    IncreasingKeepsRanks(ys, g);
  }

  lemma {:induction false} DecreasingCounts(xs: seq<real>, f: real -> real, v: real)
    requires Decreasing(f)
    ensures CountLess(Map(xs, f), f(v)) == |xs| - CountLess(xs, v) - CountEqual(xs, v)
    ensures CountEqual(Map(xs, f), f(v)) == CountEqual(xs, v)
  {
    if xs != [] {
      DecreasingCounts(xs[..|xs| - 1], f, v);
      assert Map(xs, f)[..|xs| - 1] == Map(xs[..|xs| - 1], f);
      var x := xs[|xs| - 1];
      assert x < v ==> f(x) > f(v);
      assert v < x ==> f(v) > f(x);
    }
  }

  lemma MidRank(n: nat)
    requires n > 0
    ensures (n * (n + 1)) as real / 2.0 / n as real == (n + 1) as real / 2.0
  {
    assert (n * (n + 1)) as real == n as real * (n + 1) as real;
  }

  /** A strictly decreasing transformation mirrors every centred rank. */
  lemma DecreasingMirrors(xs: seq<real>, f: real -> real, i: nat)
    requires Decreasing(f) && i < |xs|
    ensures Centered(Ranks(Map(xs, f)))[i] == -Centered(Ranks(xs))[i]
  {
    DecreasingCounts(xs, f, xs[i]);
    RanksAddUp(xs);
    RanksAddUp(Map(xs, f));
    var n := |xs| as real;
    assert Mean(Ranks(xs)) == Mean(Ranks(Map(xs, f)));
    MidRank(|xs|);
  }

  lemma {:induction false} DotMirrored(u: seq<real>, u': seq<real>, v: seq<real>)
    requires |u| == |u'| == |v| && forall i :: 0 <= i < |u| ==> u'[i] == -u[i]
    ensures Dot(u', v) == -Dot(u, v) && Dot(u', u') == Dot(u, u)
  {
    if u != [] {
      DotMirrored(u[..|u| - 1], u'[..|u| - 1], v[..|u| - 1]);
    }
  }

  /** Reversing one input exactly negates the correlation. */
  lemma SpearmanReversed(xs: seq<real>, ys: seq<real>, f: real -> real)
    requires Decreasing(f)
    ensures Spearman(Map(xs, f), ys) == match Spearman(xs, ys)
      case None => None
      case Some(r) => Some(r.(covariance := -r.covariance))
  {
    if |xs| == |ys| && |xs| >= 2 {
      forall i | 0 <= i < |xs| ensures Centered(Ranks(Map(xs, f)))[i] == -Centered(Ranks(xs))[i] {
        DecreasingMirrors(xs, f, i);
      }
      DotMirrored(Centered(Ranks(xs)), Centered(Ranks(Map(xs, f))), Centered(Ranks(ys)));
    }
  }

  /** A non-constant input correlates perfectly with itself and with every increasing image of itself. */
  lemma SpearmanPerfect(xs: seq<real>, f: real -> real)
    requires |xs| >= 2 && !Constant(xs) && Increasing(f)
    ensures Spearman(xs, Map(xs, f)).Some?
    ensures var r := Spearman(xs, Map(xs, f)).value; r.covariance == r.xVariance == r.yVariance
  {
    IncreasingKeepsRanks(xs, f);
    VarianceZeroExactly(xs);
  }

  // ----- the coefficient -------------------------------------------------------------------------

  /** The square root is a parameter: non-negative, and its square is the argument. */
  ghost predicate RootLike(sqrt: real -> real) {
    forall x :: x >= 0.0 ==> sqrt(x) >= 0.0 && Times(sqrt(x), sqrt(x)) == x
  }

  lemma RootPositive(sqrt: real -> real, x: real)
    requires RootLike(sqrt) && x > 0.0
    ensures sqrt(x) > 0.0
  {
    TimesSign(sqrt(x), sqrt(x));
  }

  lemma RootsNonZero(sqrt: real -> real, x: real, y: real)
    requires RootLike(sqrt) && x > 0.0 && y > 0.0
    ensures Times(sqrt(x), sqrt(y)) > 0.0
  {
    RootPositive(sqrt, x);
    RootPositive(sqrt, y);
    TimesSign(sqrt(x), sqrt(y));
  }

  /** The result of `spearman`. */
  ghost function Rho(xs: seq<real>, ys: seq<real>, sqrt: real -> real): Option<real>
    requires RootLike(sqrt)
  {
    match Spearman(xs, ys)
    case None => None
    case Some(r) =>
      SpearmanBounded(xs, ys);
      RootsNonZero(sqrt, r.xVariance, r.yVariance);
      Some(Quotient(r.covariance, Times(sqrt(r.xVariance), sqrt(r.yVariance))))
  }

  /** The computation: rank both inputs, centre, form the three sums and divide. */
  method ComputeSpearman(xs: seq<real>, ys: seq<real>, sqrt: real -> real) returns (rho: Option<real>)
    requires RootLike(sqrt)
    ensures rho == Rho(xs, ys, sqrt)
  {
    if |xs| != |ys| || |xs| < 2 {
      return None;
    }
    var rx := ComputeRanks(xs);
    var ry := ComputeRanks(ys);
    var cx, cy := Centered(rx), Centered(ry);
    var vx, vy := Dot(cx, cx), Dot(cy, cy);
    if vx == 0.0 || vy == 0.0 {
      return None;
    }
    SpearmanBounded(xs, ys);
    RootsNonZero(sqrt, vx, vy);
    rho := Some(Quotient(Dot(cx, cy), Times(sqrt(vx), sqrt(vy))));
  }

  lemma StrictSquares(c: real, d: real)
    requires 0.0 < d < c
    ensures Times(c, c) > Times(d, d)
  {
    TimesStrict(d, d, c);
    TimesStrict(c, d, c);
  }

  lemma MirrorSquare(c: real)
    ensures Times(-c, -c) == Times(c, c)
  {
  }

  lemma SquareOrder(c: real, d: real)
    requires d > 0.0 && Times(c, c) <= Times(d, d)
    ensures -d <= c <= d
  {
    MirrorSquare(c);
    if c > d {
      StrictSquares(c, d);
    } else if c < -d {
      StrictSquares(-c, d);
    }
  }

  /** The square of the product of two roots is the product of the arguments. */
  lemma RootsSquared(a: real, b: real, x: real, y: real)
    requires Times(a, a) == x && Times(b, b) == y
    ensures Times(Times(a, b), Times(a, b)) == Times(x, y)
  {
    assert (a * b) * (a * b) == (a * a) * (b * b);
  }

  /** The coefficient lies between minus one and one. */
  lemma RhoBounded(xs: seq<real>, ys: seq<real>, sqrt: real -> real)
    requires RootLike(sqrt) && Rho(xs, ys, sqrt).Some?
    ensures -1.0 <= Rho(xs, ys, sqrt).value <= 1.0
  {
    var r := Spearman(xs, ys).value;
    SpearmanBounded(xs, ys);
    RootsNonZero(sqrt, r.xVariance, r.yVariance);
    RootsSquared(sqrt(r.xVariance), sqrt(r.yVariance), r.xVariance, r.yVariance);
    SquareOrder(r.covariance, Times(sqrt(r.xVariance), sqrt(r.yVariance)));
    QuotientBounds(r.covariance, Times(sqrt(r.xVariance), sqrt(r.yVariance)), -1.0, 1.0);
  }

  lemma NegatedRatio(c: real, d: real)
    requires d != 0.0
    ensures Quotient(-c, d) == -Quotient(c, d)
  {
  }

  /** It is one between a non-constant input and any of its increasing images. */
  lemma RhoPerfect(xs: seq<real>, f: real -> real, sqrt: real -> real)
    requires RootLike(sqrt) && Increasing(f) && |xs| >= 2 && !Constant(xs)
    ensures Rho(xs, Map(xs, f), sqrt) == Some(1.0)
  {
    SpearmanPerfect(xs, f);
    var r := Spearman(xs, Map(xs, f)).value;
    SpearmanBounded(xs, Map(xs, f));
    assert Times(sqrt(r.xVariance), sqrt(r.yVariance)) == r.covariance;
    QuotientAdds(0.0, 0.0, r.covariance);
  }

  /** Reversing an input negates it. */
  lemma RhoReversed(xs: seq<real>, ys: seq<real>, g: real -> real, sqrt: real -> real)
    requires RootLike(sqrt) && Decreasing(g)
    ensures Rho(Map(xs, g), ys, sqrt) == match Rho(xs, ys, sqrt) case None => None case Some(rho) => Some(-rho)
  {
    SpearmanReversed(xs, ys, g);
    if Spearman(xs, ys).Some? {
      var r := Spearman(xs, ys).value;
      SpearmanBounded(xs, ys);
      RootsNonZero(sqrt, r.xVariance, r.yVariance);
      NegatedRatio(r.covariance, Times(sqrt(r.xVariance), sqrt(r.yVariance)));
    }
  }

  lemma RatioSquared(c: real, d: real)
    requires d > 0.0
    ensures Times(Times(Quotient(c, d), Quotient(c, d)), Times(d, d)) == Times(c, c)
    ensures (Quotient(c, d) > 0.0 <==> c > 0.0) && (Quotient(c, d) == 0.0 <==> c == 0.0)
  {
    QuotientTimes(c, d);
    QuotientAdds(0.0, 0.0, d);
    QuotientOrder(0.0, c, d);
    QuotientOrder(c, 0.0, d);
    var q := Quotient(c, d);
    assert q * q * (d * d) == q * d * (q * d);
  }

  /**
   What the coefficient is, ties or not: its square times both variances is the square of the covariance, and it has
   the sign of the covariance.
   */
  lemma RhoSquared(xs: seq<real>, ys: seq<real>, sqrt: real -> real)
    requires RootLike(sqrt) && Rho(xs, ys, sqrt).Some?
    ensures Spearman(xs, ys).Some?
    ensures var rho, r := Rho(xs, ys, sqrt).value, Spearman(xs, ys).value;
      && Times(Times(rho, rho), Times(r.xVariance, r.yVariance)) == Times(r.covariance, r.covariance)
      && (rho > 0.0 <==> r.covariance > 0.0) && (rho == 0.0 <==> r.covariance == 0.0)
  {
    var r := Spearman(xs, ys).value;
    SpearmanBounded(xs, ys);
    RootsNonZero(sqrt, r.xVariance, r.yVariance);
    RootsSquared(sqrt(r.xVariance), sqrt(r.yVariance), r.xVariance, r.yVariance);
    RatioSquared(r.covariance, Times(sqrt(r.xVariance), sqrt(r.yVariance)));
  }

  // ----- the coefficient from rank differences ---------------------------------------------------

  /** The sum of the squared differences. */
  function SquaredDistance(u: seq<real>, v: seq<real>): real
    requires |u| == |v|
  {
    if u == [] then 0.0 else
      SquaredDistance(u[..|u| - 1], v[..|v| - 1]) + Times(u[|u| - 1] - v[|v| - 1], u[|u| - 1] - v[|v| - 1])
  }

  lemma SquareOfDifference(x: real, y: real)
    ensures Times(x - y, x - y) == Times(x, x) - 2.0 * Times(x, y) + Times(y, y)
  {
  }

  lemma {:induction false} DistanceFromDots(u: seq<real>, v: seq<real>)
    requires |u| == |v|
    ensures SquaredDistance(u, v) == Dot(u, u) - 2.0 * Dot(u, v) + Dot(v, v)
  {
    if u != [] {
      DistanceFromDots(u[..|u| - 1], v[..|v| - 1]);
      SquareOfDifference(u[|u| - 1], v[|v| - 1]);
    }
  }

  lemma {:induction false} ShiftedDistance(u: seq<real>, v: seq<real>, u': seq<real>, v': seq<real>, m: real)
    requires |u| == |v| == |u'| == |v'|
    requires forall i :: 0 <= i < |u| ==> u'[i] == u[i] - m && v'[i] == v[i] - m
    ensures SquaredDistance(u', v') == SquaredDistance(u, v)
  {
    if u != [] {
      ShiftedDistance(u[..|u| - 1], v[..|v| - 1], u'[..|u| - 1], v'[..|v| - 1], m);
    }
  }

  lemma CenteredAlike(u: seq<real>, v: seq<real>)
    requires |u| == |v| > 0 && Sum(u) == Sum(v)
    ensures SquaredDistance(Centered(u), Centered(v)) == SquaredDistance(u, v)
  {
    assert Mean(u) == Mean(v);
    ShiftedDistance(u, v, Centered(u), Centered(v), Mean(u));
  }

  /** The covariance comes from the squared differences of the ranks, whatever the ties. */
  lemma CovarianceFromRanks(xs: seq<real>, ys: seq<real>)
    requires Spearman(xs, ys).Some?
    ensures |Ranks(xs)| == |Ranks(ys)|
    ensures var r := Spearman(xs, ys).value;
      2.0 * r.covariance == r.xVariance + r.yVariance - SquaredDistance(Ranks(xs), Ranks(ys))
  {
    var rx, ry := Ranks(xs), Ranks(ys);
    RanksAddUp(xs);
    RanksAddUp(ys);
    DistanceFromDots(Centered(rx), Centered(ry));
    CenteredAlike(rx, ry);
  }
}
