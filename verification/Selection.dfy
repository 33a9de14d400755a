/** Position selection: the top N by conviction, with hysteresis for names already held. */
module Selection {
  import opened Sorting
  import opened Sizing

  datatype SelectionConfig = SelectionConfig(
    targetHoldings: nat, maxHoldings: nat, minCompositeScore: real, exitScoreThreshold: real)

  const ByConviction: (CompositeScore, CompositeScore) -> bool :=
    (a: CompositeScore, b: CompositeScore) => a.conviction >= b.conviction

  function Eligible(xs: seq<CompositeScore>, minimum: real): seq<CompositeScore> {
    if xs == [] then [] else
      (if xs[0].compositeScore >= minimum then [xs[0]] else []) + Eligible(xs[1..], minimum)
  }

  /** Held names from rank `i` on that stay, inside the rank window. */
  function Keeps(e: seq<CompositeScore>, i: nat, held: set<string>, cfg: SelectionConfig): seq<CompositeScore>
    decreases |e| - i
  {
    if i >= |e| then [] else
      (if e[i].symbol in held && e[i].compositeScore >= cfg.exitScoreThreshold && i < cfg.maxHoldings
       then [e[i]] else [])
      + Keeps(e, i + 1, held, cfg)
  }

  function TopN(cfg: SelectionConfig): nat {
    if cfg.targetHoldings <= cfg.maxHoldings then cfg.targetHoldings else cfg.maxHoldings
  }

  function Take<T>(xs: seq<T>, n: nat): seq<T> { if n <= |xs| then xs[..n] else xs }

  function SelectStocks(scores: seq<CompositeScore>, held: set<string>, cfg: SelectionConfig): seq<CompositeScore> {
    var e := Sort(Eligible(scores, cfg.minCompositeScore), ByConviction);
    Take(Take(e, TopN(cfg)) + Keeps(e, TopN(cfg), held, cfg), cfg.maxHoldings)
  }

  lemma {:induction false} KeepsEmpty(e: seq<CompositeScore>, i: nat, held: set<string>, cfg: SelectionConfig)
    requires i >= cfg.maxHoldings
    ensures Keeps(e, i, held, cfg) == []
    decreases |e| - i
  {
    if i < |e| {
      KeepsEmpty(e, i + 1, held, cfg);
    }
  }

  lemma {:induction false} KeepsFit(e: seq<CompositeScore>, i: nat, held: set<string>, cfg: SelectionConfig)
    requires i <= cfg.maxHoldings
    ensures |Keeps(e, i, held, cfg)| <= cfg.maxHoldings - i
    decreases |e| - i
  {
    if i < |e| {
      if i < cfg.maxHoldings {
        KeepsFit(e, i + 1, held, cfg);
      } else {
        KeepsEmpty(e, i + 1, held, cfg);
      }
    }
  }

  lemma {:induction false} KeepsExactly(e: seq<CompositeScore>, i: nat, held: set<string>, cfg: SelectionConfig,
                                     x: CompositeScore)
    ensures x in Keeps(e, i, held, cfg) <==>
      exists k :: i <= k < |e| && k < cfg.maxHoldings && e[k] == x
                  && x.symbol in held && x.compositeScore >= cfg.exitScoreThreshold
    decreases |e| - i
  {
    if i < |e| {
      KeepsExactly(e, i + 1, held, cfg, x);
    }
  }

  lemma TakeMembers<T>(e: seq<T>, n: nat, x: T)
    ensures x in Take(e, n) <==> exists k :: 0 <= k < |e| && k < n && e[k] == x
  {
    if k :| 0 <= k < |e| && k < n && e[k] == x {
      assert Take(e, n)[k] == x;
    }
    if x in Take(e, n) {
      var k :| 0 <= k < |Take(e, n)| && Take(e, n)[k] == x;
      assert e[k] == x;
    }
  }

  /** Which scores of a ranking are chosen. */
  ghost predicate Chosen(e: seq<CompositeScore>, held: set<string>, cfg: SelectionConfig, x: CompositeScore) {
    exists k :: 0 <= k < |e| && e[k] == x
      && (k < TopN(cfg) || (k < cfg.maxHoldings && x.symbol in held && x.compositeScore >= cfg.exitScoreThreshold))
  }

  lemma ChosenExactly(e: seq<CompositeScore>, held: set<string>, cfg: SelectionConfig, x: CompositeScore)
    ensures x in Take(e, TopN(cfg)) + Keeps(e, TopN(cfg), held, cfg) <==> Chosen(e, held, cfg, x)
  {
    TakeMembers(e, TopN(cfg), x);
    KeepsExactly(e, TopN(cfg), held, cfg, x);
  }

  /**
   Hysteresis: a score is selected exactly when it ranks in the top N, or ranks inside max_holdings, is held and
   clears the exit threshold. The final slice never removes anything.
   */
  lemma SelectedExactly(scores: seq<CompositeScore>, held: set<string>, cfg: SelectionConfig, x: CompositeScore)
    ensures var e := Sort(Eligible(scores, cfg.minCompositeScore), ByConviction);
      && SortedBy(e, ByConviction)
      && SelectStocks(scores, held, cfg) == Take(e, TopN(cfg)) + Keeps(e, TopN(cfg), held, cfg)
      && |SelectStocks(scores, held, cfg)| <= cfg.maxHoldings
      && (x in SelectStocks(scores, held, cfg) <==> Chosen(e, held, cfg, x))
  {
    var e := Sort(Eligible(scores, cfg.minCompositeScore), ByConviction);
    SortSorts(Eligible(scores, cfg.minCompositeScore), ByConviction);
    KeepsFit(e, TopN(cfg), held, cfg);
    ChosenExactly(e, held, cfg, x);
  }

  // ----- the selection by rank --------------------------------------------------------

  /** How many scores reach the minimum and have a conviction above `c`. */
  function Higher(scores: seq<CompositeScore>, minimum: real, c: real): nat {
    if scores == [] then 0 else
      Higher(scores[1..], minimum, c)
        + (if scores[0].compositeScore >= minimum && scores[0].conviction > c then 1 else 0)
  }

  /** How many reach the minimum and have exactly the conviction `c`. */
  function Equal(scores: seq<CompositeScore>, minimum: real, c: real): nat {
    if scores == [] then 0 else
      Equal(scores[1..], minimum, c)
        + (if scores[0].compositeScore >= minimum && scores[0].conviction == c then 1 else 0)
  }

  /** The rank of a score, from zero: the higher convictions come first, and of equal ones the one listed first. */
  function Rank(scores: seq<CompositeScore>, minimum: real, i: nat): nat
    requires i < |scores|
  {
    Higher(scores, minimum, scores[i].conviction) + Equal(scores[..i], minimum, scores[i].conviction)
  }

  lemma {:induction false} HigherIsSmaller(scores: seq<CompositeScore>, minimum: real, x: CompositeScore)
    ensures Smaller(Eligible(scores, minimum), x, ByConviction) == Higher(scores, minimum, x.conviction)
    ensures Tied(Eligible(scores, minimum), x, ByConviction) == Equal(scores, minimum, x.conviction)
  {
    if scores != [] {
      HigherIsSmaller(scores[1..], minimum, x);
      assert [scores[0]] + Eligible(scores[1..], minimum) != [];
      assert ([scores[0]] + Eligible(scores[1..], minimum))[1..] == Eligible(scores[1..], minimum);
      assert [] + Eligible(scores[1..], minimum) == Eligible(scores[1..], minimum);
    }
  }

  lemma EligibleCons(x: CompositeScore, rest: seq<CompositeScore>, minimum: real)
    ensures Eligible([x] + rest, minimum)
         == (if x.compositeScore >= minimum then [x] else []) + Eligible(rest, minimum)
  {
    assert ([x] + rest)[1..] == rest;
  }

  lemma EligibleShift(x: CompositeScore, rest: seq<CompositeScore>, minimum: real, m: nat, j: nat)
    requires m < |Eligible(rest, minimum)| && j < |rest| && Eligible(rest, minimum)[m] == rest[j]
    requires Eligible(rest, minimum)[..m] == Eligible(rest[..j], minimum)
    ensures var all, n := [x] + rest, if x.compositeScore >= minimum then m + 1 else m;
      && n < |Eligible(all, minimum)| && Eligible(all, minimum)[n] == all[j + 1]
      && Eligible(all, minimum)[..n] == Eligible(all[..j + 1], minimum)
  {
    EligibleCons(x, rest, minimum);
    EligibleCons(x, rest[..j], minimum);
    assert ([x] + rest)[..j + 1] == [x] + rest[..j];
  }

  /** The position of a score among the eligible ones. */
  lemma {:induction false} EligibleIndex(scores: seq<CompositeScore>, minimum: real, i: nat) returns (m: nat)
    requires i < |scores| && scores[i].compositeScore >= minimum
    ensures m < |Eligible(scores, minimum)| && Eligible(scores, minimum)[m] == scores[i]
    ensures Eligible(scores, minimum)[..m] == Eligible(scores[..i], minimum)
    decreases i
  {
    if i == 0 {
      m := 0;
    } else {
      var n := EligibleIndex(scores[1..], minimum, i - 1);
      EligibleShift(scores[0], scores[1..], minimum, n, i - 1);
      assert scores == [scores[0]] + scores[1..];
      m := if scores[0].compositeScore >= minimum then n + 1 else n;
    }
  }

  /** Every position among the eligible ones is that of some score. */
  lemma {:induction false} EligibleSource(scores: seq<CompositeScore>, minimum: real, m: nat) returns (i: nat)
    requires m < |Eligible(scores, minimum)|
    ensures i < |scores| && scores[i].compositeScore >= minimum && Eligible(scores, minimum)[m] == scores[i]
    ensures Eligible(scores, minimum)[..m] == Eligible(scores[..i], minimum)
  {
    var first := if scores[0].compositeScore >= minimum then 1 else 0;
    if m < first {
      i := 0;
    } else {
      var j := EligibleSource(scores[1..], minimum, m - first);
      EligibleShift(scores[0], scores[1..], minimum, m - first, j);
      assert scores == [scores[0]] + scores[1..];
      i := j + 1;
    }
  }

  lemma RankIsPlace(scores: seq<CompositeScore>, minimum: real, i: nat, m: nat)
    requires i < |scores| && m < |Eligible(scores, minimum)| && Eligible(scores, minimum)[m] == scores[i]
    requires Eligible(scores, minimum)[..m] == Eligible(scores[..i], minimum)
    ensures Place(Eligible(scores, minimum), m, ByConviction) == Rank(scores, minimum, i)
  {
    HigherIsSmaller(scores, minimum, scores[i]);
    HigherIsSmaller(scores[..i], minimum, scores[i]);
  }

  /** An eligible score stands in the ranking at its rank. */
  lemma RankedAt(scores: seq<CompositeScore>, minimum: real, i: nat)
    requires i < |scores| && scores[i].compositeScore >= minimum
    ensures var e := Sort(Eligible(scores, minimum), ByConviction);
      Rank(scores, minimum, i) < |e| && e[Rank(scores, minimum, i)] == scores[i]
  {
    var m := EligibleIndex(scores, minimum, i);
    RankIsPlace(scores, minimum, i, m);
    SortPlaces(Eligible(scores, minimum), m, ByConviction);
  }

  /** Behind every place of the ranking is an eligible score of that rank. */
  lemma RankTaken(scores: seq<CompositeScore>, minimum: real, k: nat) returns (i: nat)
    requires k < |Sort(Eligible(scores, minimum), ByConviction)|
    ensures i < |scores| && scores[i].compositeScore >= minimum && Rank(scores, minimum, i) == k
    ensures Sort(Eligible(scores, minimum), ByConviction)[k] == scores[i]
  {
    SortSorts(Eligible(scores, minimum), ByConviction);
    var m := PlaceTaken(Eligible(scores, minimum), k, ByConviction);
    i := EligibleSource(scores, minimum, m);
    RankIsPlace(scores, minimum, i, m);
  }

  /** A rank that is selected: within the target number of holdings, or held, good enough and within the maximum. */
  predicate RankSelected(rank: nat, x: CompositeScore, held: set<string>, cfg: SelectionConfig) {
    rank < cfg.maxHoldings
    && (rank < cfg.targetHoldings || (x.symbol in held && x.compositeScore >= cfg.exitScoreThreshold))
  }

  /**
   What is selected, on the scores themselves: exactly those that reach the minimum and whose rank by conviction is
   within the target, or within the maximum if held and at or above the exit threshold.
   */
  lemma SelectedByRank(scores: seq<CompositeScore>, held: set<string>, cfg: SelectionConfig, x: CompositeScore)
    ensures x in SelectStocks(scores, held, cfg) <==>
      exists i :: 0 <= i < |scores| && scores[i] == x && x.compositeScore >= cfg.minCompositeScore
                  && RankSelected(Rank(scores, cfg.minCompositeScore, i), x, held, cfg)
  {
    var minimum := cfg.minCompositeScore;
    var e := Sort(Eligible(scores, minimum), ByConviction);
    SelectedExactly(scores, held, cfg, x);
    if i :| 0 <= i < |scores| && scores[i] == x && x.compositeScore >= minimum
            && RankSelected(Rank(scores, minimum, i), x, held, cfg) {
      RankedAt(scores, minimum, i);
      assert e[Rank(scores, minimum, i)] == x;
    }
    if x in SelectStocks(scores, held, cfg) {
      var k :| 0 <= k < |e| && e[k] == x
        && (k < TopN(cfg) || (k < cfg.maxHoldings && x.symbol in held && x.compositeScore >= cfg.exitScoreThreshold));
      var i := RankTaken(scores, minimum, k);
      assert RankSelected(Rank(scores, minimum, i), x, held, cfg);
    }
  }

  /** Convictions never rise along the sequence. */
  ghost predicate Descending(xs: seq<CompositeScore>) {
    forall i, j :: 0 <= i < j < |xs| ==> xs[i].conviction >= xs[j].conviction
  }

  ghost predicate AllAtMost(xs: seq<CompositeScore>, c: real) {
    forall k :: 0 <= k < |xs| ==> c >= xs[k].conviction
  }

  lemma {:induction false} KeepsFollow(e: seq<CompositeScore>, i: nat, held: set<string>, cfg: SelectionConfig)
    requires Descending(e) && i < |e|
    ensures Descending(Keeps(e, i, held, cfg)) && AllAtMost(Keeps(e, i, held, cfg), e[i].conviction)
    decreases |e| - i
  {
    if i + 1 < |e| {
      KeepsFollow(e, i + 1, held, cfg);
    }
  }

  lemma DescendingConcat(xs: seq<CompositeScore>, ys: seq<CompositeScore>, c: real)
    requires Descending(xs) && Descending(ys) && AllAtMost(ys, c) && forall k :: 0 <= k < |xs| ==> xs[k].conviction >= c
    ensures Descending(xs + ys)
  {
  }

  /** The selection comes in the order of the convictions, highest first. */
  lemma SelectedInOrder(scores: seq<CompositeScore>, held: set<string>, cfg: SelectionConfig)
    ensures Descending(SelectStocks(scores, held, cfg))
  {
    var e, n := Sort(Eligible(scores, cfg.minCompositeScore), ByConviction), TopN(cfg);
    SelectedExactly(scores, held, cfg, CompositeScore("", 0.0, 0.0, 0.0, 0.0));
    assert Descending(e) by {
      forall i, j | 0 <= i < j < |e| ensures e[i].conviction >= e[j].conviction {
        assert ByConviction(e[i], e[j]);
      }
    }
    if n < |e| {
      KeepsFollow(e, n, held, cfg);
      DescendingConcat(Take(e, n), Keeps(e, n, held, cfg), e[n].conviction);
    } else {
      assert Keeps(e, n, held, cfg) == [] && e + [] == e;
    }
  }

  /**
   What that means for a caller: a score left out although it reaches the minimum is outranked by a full target of
   selected ones, and a selected newcomer has fewer than that many eligible scores above it.
   */
  lemma LeftOutIsOutranked(scores: seq<CompositeScore>, held: set<string>, cfg: SelectionConfig, x: CompositeScore)
    ensures var selected := SelectStocks(scores, held, cfg);
      var n := if cfg.targetHoldings <= cfg.maxHoldings then cfg.targetHoldings else cfg.maxHoldings;
      && (x in selected ==> x in scores && x.compositeScore >= cfg.minCompositeScore)
      && (x in scores && x.compositeScore >= cfg.minCompositeScore && x !in selected ==>
            |selected| >= n && forall k :: 0 <= k < n ==> selected[k].conviction >= x.conviction)
      && (x in selected && (x.symbol !in held || x.compositeScore < cfg.exitScoreThreshold) ==>
            Higher(scores, cfg.minCompositeScore, x.conviction) < n)
  {
    var selected, minimum := SelectStocks(scores, held, cfg), cfg.minCompositeScore;
    var e := Sort(Eligible(scores, minimum), ByConviction);
    SelectedByRank(scores, held, cfg, x);
    SelectedExactly(scores, held, cfg, x);
    if x in scores && x.compositeScore >= minimum && x !in selected {
      var i :| 0 <= i < |scores| && scores[i] == x;
      RankedAt(scores, minimum, i);
      forall k | 0 <= k < TopN(cfg) ensures k < |selected| && selected[k].conviction >= x.conviction {
        assert selected[k] == e[k] && ByConviction(e[k], e[Rank(scores, minimum, i)]);
      }
    }
  }
}
