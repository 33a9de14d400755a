/**
 The deterministic ranker: stage-1 scores are replaced by forced deciles, tied names sharing the rounded mean
 decile of the positions they occupy.
 */
module Ranker {
  import opened Prelude
  import opened Sums
  import opened Sorting
  import opened RankStats

  datatype Signal = Signal(symbol: string, analyst: string, bullishScore: int, confidence: int, summary: string)

  /** 1 to 10 by 0-based position, best first. */
  function Decile(i: int, n: int): int {
    if n <= 1 then 10 else 1 + ((n - 1 - i) * 9) / (n - 1)
  }

  lemma ProductOrder(x: int, y: int, c: int)
    requires c > 0 && x <= y
    ensures x * c <= y * c
  {
  }

  lemma DivideMonotone(a: int, b: int, c: int)
    requires c > 0 && a <= b
    ensures a / c <= b / c
  {
    var q, r := a / c, b / c;
    assert q * c <= a && b < r * c + c == (r + 1) * c;
    if q > r {
      ProductOrder(r + 1, q, c);
    }
  }

  lemma QuotientUnique(q: int, r: int, b: int, c: int)
    requires 0 <= r < b && q * b + r == c * b
    ensures q == c
  {
    assert (q + 1) * b == q * b + b && (c + 1) * b == c * b + b;
    if q < c {
      ProductOrder(q + 1, c, b);
    } else if c < q {
      ProductOrder(c + 1, q, b);
    }
  }

  lemma ExactQuotient(b: int, c: int)
    requires b > 0
    ensures c * b / b == c
  {
    var a := c * b;
    assert a / b * b + a % b == a;
    QuotientUnique(a / b, a % b, b, c);
  }

  lemma DecileRange(i: int, n: int)
    requires 0 <= i < n
    ensures 1 <= Decile(i, n) <= 10
    ensures i == 0 ==> Decile(i, n) == 10
    ensures n > 1 && i == n - 1 ==> Decile(i, n) == 1
  {
    if n > 1 {
      DivideMonotone(0, (n - 1 - i) * 9, n - 1);
      DivideMonotone((n - 1 - i) * 9, 9 * (n - 1), n - 1);
      ExactQuotient(n - 1, 9);
    }
  }

  lemma FloorBounds(a: int, c: int)
    requires c > 0
    ensures a - c < a / c * c <= a
  {
  }

  /** The decile of a position is the tenth it falls into: nine times its distance from the end, in whole n - 1ths. */
  lemma DecileExactly(i: int, n: int)
    requires n > 1
    ensures (n - 1 - i) * 9 - (n - 1) < (Decile(i, n) - 1) * (n - 1) <= (n - 1 - i) * 9
  {
    FloorBounds((n - 1 - i) * 9, n - 1);
  }

  lemma DecileDecreases(i: int, j: int, n: int)
    requires i <= j && n >= 1
    ensures Decile(i, n) >= Decile(j, n)
  {
    if n > 1 {
      DivideMonotone((n - 1 - j) * 9, (n - 1 - i) * 9, n - 1);
    }
  }

  /** The deciles of positions i .. j added up. */
  function DecileSum(i: int, j: int, n: int): int
    decreases j - i
  {
    if i > j then 0 else DecileSum(i, j - 1, n) + Decile(j, n)
  }

  /** `int(sum / len + 0.5)`, truncation of a positive number. */
  function GroupScore(i: int, j: int, n: int): int
    requires i <= j
  {
    (DecileSum(i, j, n) as real / (j - i + 1) as real + 0.5).Floor
  }

  function Clamp(x: int): int { if x < 1 then 1 else if x > 10 then 10 else x }

  lemma TimesNext(x: int, len: int)
    ensures x * (len + 1) == x * len + x
  {
  }

  lemma {:induction false} DecileSumBounds(i: int, j: int, n: int, lo: int, hi: int)
    requires i <= j && forall k :: i <= k <= j ==> lo <= Decile(k, n) <= hi
    ensures lo * (j - i + 1) <= DecileSum(i, j, n) <= hi * (j - i + 1)
    decreases j - i
  {
    assert lo <= Decile(j, n) <= hi;
    TimesNext(lo, j - i);
    TimesNext(hi, j - i);
    if i < j {
      DecileSumBounds(i, j - 1, n, lo, hi);
    }
  }

  lemma RealProduct(x: int, y: int)
    ensures (x * y) as real == Times(x as real, y as real)
  {
  }

  lemma RoundedMean(sum: int, len: int, lo: int, hi: int)
    requires len > 0 && lo * len <= sum <= hi * len
    ensures lo <= (sum as real / len as real + 0.5).Floor <= hi
  {
    RealProduct(lo, len);
    RealProduct(hi, len);
    QuotientBounds(sum as real, len as real, lo as real, hi as real);
  }

  /** A group's score lies between the deciles of its last and first positions; the clamp does nothing. */
  lemma GroupScoreBetween(i: int, j: int, n: int)
    requires 0 <= i <= j < n
    ensures Decile(j, n) <= GroupScore(i, j, n) <= Decile(i, n)
    ensures Clamp(GroupScore(i, j, n)) == GroupScore(i, j, n)
  {
    forall k | i <= k <= j ensures Decile(j, n) <= Decile(k, n) <= Decile(i, n) {
      DecileDecreases(i, k, n);
      DecileDecreases(k, j, n);
    }
    DecileSumBounds(i, j, n, Decile(j, n), Decile(i, n));
    RoundedMean(DecileSum(i, j, n), j - i + 1, Decile(j, n), Decile(i, n));
    DecileRange(i, n);
    DecileRange(j, n);
  }

  lemma HalfUp(sum: int, len: int)
    requires len > 0
    ensures var r := (sum as real / len as real + 0.5).Floor;
      2.0 * Times(r as real, len as real) - len as real <= 2.0 * sum as real
        < 2.0 * Times(r as real, len as real) + len as real
  {
    var r, mean := (sum as real / len as real + 0.5).Floor as real, sum as real / len as real;
    assert Times(mean, len as real) == sum as real;
    assert r - 0.5 <= mean < r + 0.5;
    TimesOrder(len as real, r - 0.5, mean);
    TimesStrict(len as real, mean, r + 0.5);
  }

  /** A group's score is the mean decile of its positions rounded to the nearest whole number, halves upwards. */
  lemma GroupScoreRounds(i: int, j: int, n: int)
    requires i <= j
    ensures var twice, len := 2.0 * Times(GroupScore(i, j, n) as real, (j - i + 1) as real), (j - i + 1) as real;
      twice - len <= 2.0 * DecileSum(i, j, n) as real < twice + len
  {
    HalfUp(DecileSum(i, j, n), j - i + 1);
  }

  // ----- what a score becomes -----------------------------------------------------------

  /** Sort keys: better scores first. */
  const Key: Signal -> real := (s: Signal) => -(s.bullishScore as real)

  function Keys(signals: seq<Signal>): seq<real> { Image(Key, signals) }

  /** The new score, from the number of better scores and the number of equal ones. */
  function NewScore(signals: seq<Signal>, score: int): int {
    var first, count := CountLess(Keys(signals), -(score as real)), CountEqual(Keys(signals), -(score as real));
    if count == 0 then 10 else GroupScore(first, first + count - 1, |signals|)
  }

  lemma {:induction false} CountsFit(xs: seq<real>, v: real)
    ensures CountLess(xs, v) + CountEqual(xs, v) <= |xs|
  {
    if xs != [] {
      CountsFit(xs[..|xs| - 1], v);
    }
  }

  /** A signal's new score lies between the deciles of the last and first positions of its tie group. */
  lemma NewScoreBetween(signals: seq<Signal>, i: nat)
    requires i < |signals|
    ensures var first := CountLess(Keys(signals), Key(signals[i]));
      var last := first + CountEqual(Keys(signals), Key(signals[i])) - 1;
      && first <= last < |signals|
      && Decile(last, |signals|) <= NewScore(signals, signals[i].bullishScore) <= Decile(first, |signals|)
  {
    Counted(Keys(signals), i);
    CountsFit(Keys(signals), Key(signals[i]));
    var first := CountLess(Keys(signals), Key(signals[i]));
    var last := first + CountEqual(Keys(signals), Key(signals[i])) - 1;
    assert Keys(signals)[i] == Key(signals[i]) == -(signals[i].bullishScore as real);
    assert NewScore(signals, signals[i].bullishScore) == GroupScore(first, last, |signals|);
    GroupScoreBetween(first, last, |signals|);
  }

  /** New scores stay in 1 .. 10 and a higher stage-1 score never ends below a lower one. */
  lemma NewScoreMonotone(signals: seq<Signal>, i: nat, j: nat)
    requires i < |signals| && j < |signals| && signals[i].bullishScore >= signals[j].bullishScore
    ensures 1 <= NewScore(signals, signals[j].bullishScore) <= NewScore(signals, signals[i].bullishScore) <= 10
  {
    var ks, n := Keys(signals), |signals|;
    var a, b := Key(signals[i]), Key(signals[j]);
    NewScoreBetween(signals, i);
    NewScoreBetween(signals, j);
    DecileRange(CountLess(ks, a), n);
    DecileRange(CountLess(ks, b) + CountEqual(ks, b) - 1, n);
    if a < b {
      LargerRanksHigher(ks, a, b);
      DecileDecreases(CountLess(ks, a) + CountEqual(ks, a) - 1, CountLess(ks, b), n);
    }
  }

  /** A lone best name gets 10 and a lone worst name gets 1. */
  lemma ExtremesSpread(signals: seq<Signal>, i: nat)
    requires i < |signals| && |signals| > 1 && CountEqual(Keys(signals), Keys(signals)[i]) == 1
    ensures CountLess(Keys(signals), Keys(signals)[i]) == 0 ==> NewScore(signals, signals[i].bullishScore) == 10
    ensures CountLess(Keys(signals), Keys(signals)[i]) == |signals| - 1 ==>
      NewScore(signals, signals[i].bullishScore) == 1
  {
    var first := CountLess(Keys(signals), Keys(signals)[i]);
    CountsFit(Keys(signals), Keys(signals)[i]);
    GroupScoreBetween(first, first, |signals|);
    DecileRange(first, |signals|);
  }

  // ----- the ranker -----------------------------------------------------------------------

  /** The sort key (-score, symbol). */
  const BestFirst: (Signal, Signal) -> bool :=
    (a: Signal, b: Signal) =>
      a.bullishScore > b.bullishScore || (a.bullishScore == b.bullishScore && LexLe(a.symbol, b.symbol))

  lemma BestFirstOrder()
    ensures TotalPreorder(BestFirst)
  {
    forall a, b ensures BestFirst(a, b) || BestFirst(b, a) {
      LexTotal(a.symbol, b.symbol);
    }
    forall a, b, c | BestFirst(a, b) && BestFirst(b, c) ensures BestFirst(a, c) {
      if a.bullishScore == b.bullishScore == c.bullishScore {
        LexTransitive(a.symbol, b.symbol, c.symbol);
      }
    }
  }

  ghost predicate OneSignalPerSymbol(signals: seq<Signal>) {
    forall i, j :: 0 <= i < j < |signals| ==> signals[i].symbol != signals[j].symbol
  }

  /** A sorted arrangement of the signals, ties in any order. */
  ghost predicate Arranges(ordered: seq<Signal>, signals: seq<Signal>) {
    && multiset(ordered) == multiset(signals) && |ordered| == |signals|
    && forall i, j :: 0 <= i < j < |ordered| ==> ordered[i].bullishScore >= ordered[j].bullishScore
  }

  /** Around a maximal tie group the keys are smaller before and larger after. */
  lemma KeysAround(ordered: seq<Signal>, i: nat, j: nat)
    requires forall i, j :: 0 <= i < j < |ordered| ==> ordered[i].bullishScore >= ordered[j].bullishScore
    requires i <= j < |ordered|
    requires forall k :: i <= k <= j ==> ordered[k].bullishScore == ordered[i].bullishScore
    requires i > 0 ==> ordered[i - 1].bullishScore > ordered[i].bullishScore
    requires j + 1 < |ordered| ==> ordered[j + 1].bullishScore < ordered[i].bullishScore
    ensures forall k :: 0 <= k < i ==> Keys(ordered)[k] < Key(ordered[i])
    ensures forall k :: i <= k <= j ==> Keys(ordered)[k] == Key(ordered[i])
    ensures forall k :: j < k < |ordered| ==> Keys(ordered)[k] > Key(ordered[i])
  {
    forall k | 0 <= k < i ensures Keys(ordered)[k] < Key(ordered[i]) {
      assert k == i - 1 || ordered[k].bullishScore >= ordered[i - 1].bullishScore;
    }
    forall k | j < k < |ordered| ensures Keys(ordered)[k] > Key(ordered[i]) {
      assert k == j + 1 || ordered[j + 1].bullishScore >= ordered[k].bullishScore;
    }
  }

  lemma GroupKeys(ordered: seq<Signal>, i: nat, j: nat)
    requires forall i, j :: 0 <= i < j < |ordered| ==> ordered[i].bullishScore >= ordered[j].bullishScore
    requires i <= j < |ordered|
    requires forall k :: i <= k <= j ==> ordered[k].bullishScore == ordered[i].bullishScore
    requires i > 0 ==> ordered[i - 1].bullishScore > ordered[i].bullishScore
    requires j + 1 < |ordered| ==> ordered[j + 1].bullishScore < ordered[i].bullishScore
    ensures CountLess(Keys(ordered), Key(ordered[i])) == i
    ensures CountEqual(Keys(ordered), Key(ordered[i])) == j - i + 1
  {
    KeysAround(ordered, i, j);
    RunCounts(Keys(ordered), i, j, Key(ordered[i]));
  }

  lemma KeysPermute(ordered: seq<Signal>, signals: seq<Signal>, v: real)
    requires multiset(ordered) == multiset(signals)
    ensures CountLess(Keys(ordered), v) == CountLess(Keys(signals), v)
    ensures CountEqual(Keys(ordered), v) == CountEqual(Keys(signals), v)
  {
    ImagePermutes(Key, ordered, signals);
    CountPermutation(Keys(signals), Keys(ordered), v);
  }

  /** A maximal tie group at positions i .. j gets the score that `NewScore` defines by counting. */
  lemma GroupIsNewScore(ordered: seq<Signal>, signals: seq<Signal>, i: nat, j: nat)
    requires Arranges(ordered, signals) && i <= j < |ordered|
    requires forall k :: i <= k <= j ==> ordered[k].bullishScore == ordered[i].bullishScore
    requires i > 0 ==> ordered[i - 1].bullishScore > ordered[i].bullishScore
    requires j + 1 < |ordered| ==> ordered[j + 1].bullishScore < ordered[i].bullishScore
    ensures NewScore(signals, ordered[i].bullishScore) == GroupScore(i, j, |signals|)
  {
    GroupKeys(ordered, i, j);
    KeysPermute(ordered, signals, Key(ordered[i]));
    assert Key(ordered[i]) == -(ordered[i].bullishScore as real);
  }

  /** The stage-1 score of the last signal of a symbol. */
  function LastScore(ordered: seq<Signal>, symbol: string): Option<int> {
    if ordered == [] then None
    else if ordered[|ordered| - 1].symbol == symbol then Some(ordered[|ordered| - 1].bullishScore)
    else LastScore(ordered[..|ordered| - 1], symbol)
  }

  /** The dictionary after the signals of a prefix: a repeated symbol has the score of its last group. */
  ghost predicate Scored(scoreBySymbol: map<string, int>, signals: seq<Signal>, ordered: seq<Signal>) {
    forall s :: (s in scoreBySymbol <==> LastScore(ordered, s).Some?)
             && (s in scoreBySymbol ==> scoreBySymbol[s] == NewScore(signals, LastScore(ordered, s).value))
  }

  lemma ScoredNext(scoreBySymbol: map<string, int>, signals: seq<Signal>, ordered: seq<Signal>, k: nat, score: int)
    requires k < |ordered| && Scored(scoreBySymbol, signals, ordered[..k])
    requires score == NewScore(signals, ordered[k].bullishScore)
    ensures Scored(scoreBySymbol[ordered[k].symbol := score], signals, ordered[..k + 1])
  {
    assert ordered[..k + 1][..k] == ordered[..k];
  }

  lemma NextGroup(ordered: seq<Signal>, i: nat, j: nat)
    requires i <= j < |ordered| && ordered[j].bullishScore == ordered[i].bullishScore
    requires forall i, j :: 0 <= i < j < |ordered| ==> ordered[i].bullishScore >= ordered[j].bullishScore
    ensures j + 1 < |ordered| && ordered[j + 1].bullishScore != ordered[i].bullishScore ==>
      ordered[j + 1].bullishScore < ordered[i].bullishScore
  {
  }

  /** The inner loop: every symbol of the group gets its score. */
  method ScoreGroup(ghost signals: seq<Signal>, ordered: seq<Signal>, i: nat, j: nat, score: int,
                    before: map<string, int>) returns (scoreBySymbol: map<string, int>)
    requires i <= j < |ordered| && Scored(before, signals, ordered[..i])
    requires forall k :: i <= k <= j ==> score == NewScore(signals, ordered[k].bullishScore)
    ensures Scored(scoreBySymbol, signals, ordered[..j + 1])
  {
    scoreBySymbol := before;
    for k := i to j + 1
      invariant Scored(scoreBySymbol, signals, ordered[..k])
    {
      ScoredNext(scoreBySymbol, signals, ordered, k, score);
      scoreBySymbol := scoreBySymbol[ordered[k].symbol := score];
    }
  }

  /** The loop over tie groups, for any arrangement of the ties. */
  method ScoreGroups(signals: seq<Signal>, ordered: seq<Signal>) returns (scoreBySymbol: map<string, int>)
    requires Arranges(ordered, signals)
    ensures Scored(scoreBySymbol, signals, ordered)
  {
    var n := |ordered|;
    scoreBySymbol := map[];
    var i := 0;
    while i < n
      invariant 0 <= i <= n
      invariant Scored(scoreBySymbol, signals, ordered[..i])
      invariant 0 < i < n ==> ordered[i - 1].bullishScore > ordered[i].bullishScore
    {
      var j := i;
      while j + 1 < n && ordered[j + 1].bullishScore == ordered[i].bullishScore
        invariant i <= j < n
        invariant forall k :: i <= k <= j ==> ordered[k].bullishScore == ordered[i].bullishScore
      {
        j := j + 1;
      }
      var groupScore := Clamp(GroupScore(i, j, n));
      GroupScoreBetween(i, j, n);
      NextGroup(ordered, i, j);
      GroupIsNewScore(ordered, signals, i, j);
      scoreBySymbol := ScoreGroup(signals, ordered, i, j, groupScore, scoreBySymbol);
      i := j + 1;
    }
    assert ordered[..n] == ordered;
  }

  predicate HasScore(signal: Signal, symbol: string, score: int) {
    signal.symbol == symbol && signal.bullishScore == score
  }

  /** The lowest stage-1 score among the signals of a symbol. */
  ghost predicate Lowest(signals: seq<Signal>, symbol: string, score: int) {
    && (exists i :: 0 <= i < |signals| && HasScore(signals[i], symbol, score))
    && forall i :: 0 <= i < |signals| && signals[i].symbol == symbol ==> score <= signals[i].bullishScore
  }

  lemma {:induction false} LastScoreExists(ordered: seq<Signal>, symbol: string)
    ensures LastScore(ordered, symbol).Some? <==> exists i :: 0 <= i < |ordered| && ordered[i].symbol == symbol
    ensures LastScore(ordered, symbol).Some? ==>
      exists i :: 0 <= i < |ordered| && HasScore(ordered[i], symbol, LastScore(ordered, symbol).value)
  {
    if ordered != [] {
      var before, last := ordered[..|ordered| - 1], ordered[|ordered| - 1];
      LastScoreExists(before, symbol);
      if last.symbol == symbol {
        assert HasScore(ordered[|ordered| - 1], symbol, last.bullishScore);
      } else if LastScore(before, symbol).Some? {
        var i :| 0 <= i < |before| && HasScore(before[i], symbol, LastScore(before, symbol).value);
        assert HasScore(ordered[i], symbol, LastScore(ordered, symbol).value);
      }
    }
  }

  lemma {:induction false} LastIsLowest(ordered: seq<Signal>, symbol: string)
    requires forall i, j :: 0 <= i < j < |ordered| ==> ordered[i].bullishScore >= ordered[j].bullishScore
    requires LastScore(ordered, symbol).Some?
    ensures forall i :: 0 <= i < |ordered| && ordered[i].symbol == symbol ==>
      LastScore(ordered, symbol).value <= ordered[i].bullishScore
  {
    if ordered[|ordered| - 1].symbol != symbol {
      LastIsLowest(ordered[..|ordered| - 1], symbol);
    }
  }

  /** Arranging signals does not change the lowest score of a symbol. */
  lemma LowestArranged(ordered: seq<Signal>, signals: seq<Signal>, symbol: string, score: int)
    requires multiset(ordered) == multiset(signals) && Lowest(ordered, symbol, score)
    ensures Lowest(signals, symbol, score)
  {
    var i :| 0 <= i < |ordered| && HasScore(ordered[i], symbol, score);
    assert ordered[i] in multiset(signals);
    var k :| 0 <= k < |signals| && signals[k] == ordered[i];
    assert HasScore(signals[k], symbol, score);
    forall j | 0 <= j < |signals| && signals[j].symbol == symbol ensures score <= signals[j].bullishScore {
      assert signals[j] in multiset(ordered);
      var m :| 0 <= m < |ordered| && ordered[m] == signals[j];
    }
  }

  lemma ScoreOfSignal(ordered: seq<Signal>, signals: seq<Signal>, i: nat) returns (score: int)
    requires Arranges(ordered, signals) && i < |signals|
    ensures LastScore(ordered, signals[i].symbol) == Some(score) && Lowest(signals, signals[i].symbol, score)
  {
    assert signals[i] in multiset(ordered);
    var k :| 0 <= k < |ordered| && ordered[k] == signals[i];
    LastScoreExists(ordered, signals[i].symbol);
    LastIsLowest(ordered, signals[i].symbol);
    score := LastScore(ordered, signals[i].symbol).value;
    LowestArranged(ordered, signals, signals[i].symbol, score);
  }

  lemma LowestUnique(signals: seq<Signal>, symbol: string, x: int, y: int)
    requires Lowest(signals, symbol, x) && Lowest(signals, symbol, y)
    ensures x == y
  {
  }

  /**
   Replaces every stage-1 score by the rounded mean decile of its tie group, that of the lowest score if a symbol
   occurs more than once; small universes pass through.
   */
  method Rank(signals: seq<Signal>, minRankUniverse: nat) returns (ranked: seq<Signal>)
    ensures |signals| < minRankUniverse ==> ranked == signals
    ensures |ranked| == |signals|
    ensures forall i :: 0 <= i < |signals| ==> ranked[i] == signals[i].(bullishScore := ranked[i].bullishScore)
    ensures |signals| >= minRankUniverse ==> forall i, x ::
      0 <= i < |signals| && Lowest(signals, signals[i].symbol, x) ==> ranked[i].bullishScore == NewScore(signals, x)
    ensures |signals| >= minRankUniverse && OneSignalPerSymbol(signals) ==>
      forall i :: 0 <= i < |signals| ==> ranked[i].bullishScore == NewScore(signals, signals[i].bullishScore)
  {
    if |signals| < minRankUniverse {
      return signals;
    }
    var ordered := Sort(signals, BestFirst);
    BestFirstOrder();
    SortSorts(signals, BestFirst);
    var scoreBySymbol := ScoreGroups(signals, ordered);
    ranked := seq(|signals|, i requires 0 <= i < |signals| =>
      signals[i].(bullishScore := GetOr(scoreBySymbol, signals[i].symbol, 0)));
    forall i, x | 0 <= i < |signals| && Lowest(signals, signals[i].symbol, x)
      ensures ranked[i].bullishScore == NewScore(signals, x)
    {
      var score := ScoreOfSignal(ordered, signals, i);
      LowestUnique(signals, signals[i].symbol, x, score);
    }
    if OneSignalPerSymbol(signals) {
      forall i | 0 <= i < |signals| ensures Lowest(signals, signals[i].symbol, signals[i].bullishScore) {
        assert HasScore(signals[i], signals[i].symbol, signals[i].bullishScore);
      }
    }
  }

  // ----- ranking by an ordered list of symbols --------------------------------------------

  /** The last position of every symbol of an ordered list. */
  function Positions(ordered: seq<string>): map<string, int> {
    if ordered == [] then map[] else Positions(ordered[..|ordered| - 1])[ordered[|ordered| - 1] := |ordered| - 1]
  }

  ghost predicate LastAt(ordered: seq<string>, s: string, k: int) {
    0 <= k < |ordered| && ordered[k] == s && forall m :: k < m < |ordered| ==> ordered[m] != s
  }

  lemma {:induction false} PositionIsLast(ordered: seq<string>, s: string)
    ensures s in Positions(ordered) <==> s in ordered
    ensures s in Positions(ordered) ==> LastAt(ordered, s, Positions(ordered)[s])
  {
    if ordered != [] {
      PositionIsLast(ordered[..|ordered| - 1], s);
      assert ordered == ordered[..|ordered| - 1] + [ordered[|ordered| - 1]];
    }
  }

  lemma LastAtUnique(ordered: seq<string>, s: string, j: int, k: int)
    requires LastAt(ordered, s, j) && LastAt(ordered, s, k)
    ensures j == k
  {
  }

  /**
   Applies an externally supplied order: ranked symbols get the decile of their position, the last one if a symbol
   is listed more than once; others keep their score.
   */
  method ApplyRanking(signals: seq<Signal>, ordered: seq<string>) returns (out: seq<Signal>)
    ensures |out| == |signals|
    ensures forall i :: 0 <= i < |signals| && signals[i].symbol !in ordered ==> out[i] == signals[i]
    ensures forall i, k :: 0 <= i < |signals| && LastAt(ordered, signals[i].symbol, k) ==>
      out[i] == signals[i].(bullishScore := Decile(k, |ordered|))
  {
    var position := Positions(ordered);
    out := [];
    for i := 0 to |signals|
      invariant |out| == i
      invariant forall m :: 0 <= m < i ==>
        out[m] == (if signals[m].symbol in position
                   then signals[m].(bullishScore := Decile(position[signals[m].symbol], |ordered|)) else signals[m])
    {
      if signals[i].symbol in position {
        out := out + [signals[i].(bullishScore := Decile(position[signals[i].symbol], |ordered|))];
      } else {
        out := out + [signals[i]];
      }
    }
    forall i | 0 <= i < |signals|
      ensures signals[i].symbol in position <==> signals[i].symbol in ordered
      ensures signals[i].symbol in position ==> LastAt(ordered, signals[i].symbol, position[signals[i].symbol])
    {
      PositionIsLast(ordered, signals[i].symbol);
    }
    forall i, k | 0 <= i < |signals| && LastAt(ordered, signals[i].symbol, k)
      ensures out[i] == signals[i].(bullishScore := Decile(k, |ordered|))
    {
      assert signals[i].symbol in ordered;
      LastAtUnique(ordered, signals[i].symbol, k, position[signals[i].symbol]);
    }
  }
}
