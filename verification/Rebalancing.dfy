/**
 Order generation: the diff between target and current weights, with entry and rebalance thresholds, full
 exits, share quantities rounded to four decimals, and the sells-first ordering.
 */
module Rebalancing {
  import opened Prelude
  import opened Sums
  import opened Sorting
  import opened Rounding
  import opened Sizing
  import L = Ledger

  const SHARE_GRID := 10000.0
  const HALF_SHARE := 0.00005

  datatype Config = Config(minEntryWeight: real, minRebalanceThreshold: real)

  datatype OrderReason = NewPosition | RemovedPosition | WeightAdjustment

  datatype RebalanceOrder = RebalanceOrder(symbol: string, side: L.Side, quantity: real, reason: OrderReason)

  datatype SkipReason = Unpriced | BelowEntryThreshold

  datatype Skip = Skip(symbol: string, reason: SkipReason, isExit: bool)

  /** What is known about the portfolio and the market when orders are generated; absent entries read as zero. */
  datatype Inputs = Inputs(
    target: map<string, real>, current: map<string, real>, nav: real,
    prices: map<string, real>, quantities: map<string, real>, cfg: Config)
  {
    function TargetWeight(s: string): real { GetOr(target, s, 0.0) }
    function CurrentWeight(s: string): real { GetOr(current, s, 0.0) }
    function Held(s: string): real { GetOr(quantities, s, 0.0) }
    predicate Priced(s: string) { s in prices && prices[s] > 0.0 }
    function PriceOf(s: string): real { if Priced(s) then prices[s] else 0.0 }
    function CarriedValue(s: string): real { if Priced(s) then 0.0 else Times(CurrentWeight(s), nav) }
    function Symbols(): set<string> { target.Keys + current.Keys }
    function Delta(s: string): real { TargetWeight(s) - CurrentWeight(s) }
    function Threshold(s: string): real {
      if CurrentWeight(s) == 0.0 then cfg.minEntryWeight else cfg.minRebalanceThreshold
    }
    predicate IsFullExit(s: string) { TargetWeight(s) == 0.0 && CurrentWeight(s) > 0.0 && Held(s) > 0.0 }
  }

  // ----- one symbol ---------------------------------------------------------------

  datatype Decision = Order(order: RebalanceOrder) | Skipped(skip: Skip) | Nothing

  function Quantity(delta: real, nav: real, price: real): real
    requires price > 0.0
  {
    RoundTo(Abs(Times(delta, nav)) / price, SHARE_GRID)
  }

  function Decide(in_: Inputs, s: string): Decision {
    var tw, cw, delta := in_.TargetWeight(s), in_.CurrentWeight(s), in_.Delta(s);
    if in_.IsFullExit(s) then
      if !in_.Priced(s) then Skipped(Skip(s, Unpriced, true))
      else Order(RebalanceOrder(s, L.Sell, in_.Held(s), RemovedPosition))
    else if Abs(delta) < in_.Threshold(s) then
      if cw == 0.0 && tw > 0.0 then Skipped(Skip(s, BelowEntryThreshold, false)) else Nothing
    else if !in_.Priced(s) then Skipped(Skip(s, Unpriced, tw == 0.0 && cw > 0.0))
    else
      var q := Quantity(delta, in_.nav, in_.prices[s]);
      if q == 0.0 then Nothing
      else if delta > 0.0 then
        Order(RebalanceOrder(s, L.Buy, q, if cw == 0.0 then NewPosition else WeightAdjustment))
      else
        Order(RebalanceOrder(s, L.Sell, q, if tw == 0.0 then RemovedPosition else WeightAdjustment))
  }

  function Orders(in_: Inputs, symbols: seq<string>): seq<RebalanceOrder> {
    if symbols == [] then [] else
      var d := Decide(in_, symbols[|symbols| - 1]);
      var before := Orders(in_, symbols[..|symbols| - 1]);
      if d.Order? then before + [d.order] else before
  }

  function Skips(in_: Inputs, symbols: seq<string>): seq<Skip> {
    if symbols == [] then [] else
      var d := Decide(in_, symbols[|symbols| - 1]);
      var before := Skips(in_, symbols[..|symbols| - 1]);
      if d.Skipped? then before + [d.skip] else before
  }

  // ----- sells first ----------------------------------------------------------------

  function SideRank(o: RebalanceOrder): int { if o.side == L.Sell then 0 else 1 }

  /** The sort key (0 for sells, else 1; symbol). */
  const SellsFirst: (RebalanceOrder, RebalanceOrder) -> bool :=
    (a: RebalanceOrder, b: RebalanceOrder) =>
      SideRank(a) < SideRank(b) || (SideRank(a) == SideRank(b) && LexLe(a.symbol, b.symbol))

  lemma SellsFirstOrder()
    ensures TotalPreorder(SellsFirst)
  {
    AlphabeticalOrder();
    forall a, b, c | SellsFirst(a, b) && SellsFirst(b, c) ensures SellsFirst(a, c) {
      if SideRank(a) == SideRank(b) == SideRank(c) {
        LexTransitive(a.symbol, b.symbol, c.symbol);
      }
    }
    forall a, b ensures SellsFirst(a, b) || SellsFirst(b, a) {
      LexTotal(a.symbol, b.symbol);
    }
  }

  /** The orders for the symbols enumerated in any order. */
  function Generated(in_: Inputs, enumeration: seq<string>): seq<RebalanceOrder> {
    Sort(Orders(in_, Sort(enumeration, Alphabetical)), SellsFirst)
  }

  /** The order list does not depend on the iteration order of the symbol set. */
  lemma EnumerationIrrelevant(in_: Inputs, xs: seq<string>, ys: seq<string>)
    requires Enumerates(xs, in_.Symbols()) && Enumerates(ys, in_.Symbols())
    ensures Generated(in_, xs) == Generated(in_, ys)
    ensures Skips(in_, Sort(xs, Alphabetical)) == Skips(in_, Sort(ys, Alphabetical))
  {
    SortedSetUnique(xs, ys, in_.Symbols());
  }

  // ----- the list of orders ---------------------------------------------------------

  lemma {:induction false} OrdersExactly(in_: Inputs, symbols: seq<string>, o: RebalanceOrder)
    ensures o in Orders(in_, symbols) <==> o.symbol in symbols && Decide(in_, o.symbol) == Order(o)
  {
    if symbols != [] {
      OrdersExactly(in_, symbols[..|symbols| - 1], o);
      assert symbols == symbols[..|symbols| - 1] + [symbols[|symbols| - 1]];
    }
  }

  lemma {:induction false} SkipsExactly(in_: Inputs, symbols: seq<string>, k: Skip)
    ensures k in Skips(in_, symbols) <==> k.symbol in symbols && Decide(in_, k.symbol) == Skipped(k)
  {
    if symbols != [] {
      SkipsExactly(in_, symbols[..|symbols| - 1], k);
      assert symbols == symbols[..|symbols| - 1] + [symbols[|symbols| - 1]];
    }
  }

  ghost predicate OnePerSymbol(os: seq<RebalanceOrder>) {
    forall i, j :: 0 <= i < j < |os| ==> os[i].symbol != os[j].symbol
  }

  lemma {:induction false} OrdersDistinct(in_: Inputs, symbols: seq<string>)
    requires Distinct(symbols)
    ensures OnePerSymbol(Orders(in_, symbols))
  {
    if symbols != [] {
      var prefix := symbols[..|symbols| - 1];
      OrdersDistinct(in_, prefix);
      forall o | o in Orders(in_, prefix) ensures o.symbol in prefix {
        OrdersExactly(in_, prefix, o);
      }
    }
  }

  lemma SortKeepsOnePerSymbol(os: seq<RebalanceOrder>)
    requires OnePerSymbol(os)
    ensures OnePerSymbol(Sort(os, SellsFirst))
  {
    SellsFirstOrder();
    SortSorts(os, SellsFirst);
    SortMembers(os, SellsFirst);
    var sorted := Sort(os, SellsFirst);
    assert Distinct(os);
    MultisetDistinct(os, sorted);
    forall i, j | 0 <= i < j < |sorted| ensures sorted[i].symbol != sorted[j].symbol {
      assert sorted[i] in os && sorted[j] in os;
    }
  }

  /**
   The generated list holds exactly the decided orders, at most one per symbol, every sell before every buy and
   alphabetical within each side.
   */
  lemma GeneratedExactly(in_: Inputs, xs: seq<string>, o: RebalanceOrder)
    requires Enumerates(xs, in_.Symbols())
    ensures var os := Generated(in_, xs);
      && (o in os <==> o.symbol in in_.Symbols() && Decide(in_, o.symbol) == Order(o))
      && OnePerSymbol(os) && SortedBy(os, SellsFirst)
  {
    AlphabeticalOrder();
    SortSorts(xs, Alphabetical);
    SortMembers(xs, Alphabetical);
    MultisetDistinct(xs, Sort(xs, Alphabetical));
    var unsorted := Orders(in_, Sort(xs, Alphabetical));
    OrdersDistinct(in_, Sort(xs, Alphabetical));
    OrdersExactly(in_, Sort(xs, Alphabetical), o);
    SortKeepsOnePerSymbol(unsorted);
    SellsFirstOrder();
    SortSorts(unsorted, SellsFirst);
    SortMembers(unsorted, SellsFirst);
  }

  /** A holding whose target is zero is either sold in full or reported as a stuck exit. */
  lemma NoSilentExit(in_: Inputs, xs: seq<string>, s: string)
    requires Enumerates(xs, in_.Symbols()) && s in in_.Symbols() && in_.IsFullExit(s)
    ensures RebalanceOrder(s, L.Sell, in_.Held(s), RemovedPosition) in Generated(in_, xs)
         || Skip(s, Unpriced, true) in Skips(in_, Sort(xs, Alphabetical))
  {
    GeneratedExactly(in_, xs, RebalanceOrder(s, L.Sell, in_.Held(s), RemovedPosition));
    AlphabeticalOrder();
    SortMembers(xs, Alphabetical);
    SkipsExactly(in_, Sort(xs, Alphabetical), Skip(s, Unpriced, true));
  }

  // ----- orders and skips in full ------------------------------------------------------

  /** No order for the symbol. */
  ghost predicate NoOrder(os: seq<RebalanceOrder>, s: string) { forall o :: o in os ==> o.symbol != s }

  ghost predicate NoSkip(ks: seq<Skip>, s: string) { forall k :: k in ks ==> k.symbol != s }

  /** The one order for the symbol. */
  ghost predicate OnlyOrder(os: seq<RebalanceOrder>, o: RebalanceOrder) {
    o in os && forall p :: p in os && p.symbol == o.symbol ==> p == o
  }

  ghost predicate OnlySkip(ks: seq<Skip>, k: Skip) { k in ks && forall j :: j in ks && j.symbol == k.symbol ==> j == k }

  lemma OrdersSayDecided(in_: Inputs, xs: seq<string>, s: string)
    requires Enumerates(xs, in_.Symbols()) && s in in_.Symbols()
    ensures var os, d := Generated(in_, xs), Decide(in_, s);
      if d.Order? then OnlyOrder(os, d.order) && d.order.symbol == s else NoOrder(os, s)
  {
    var d := Decide(in_, s);
    forall o | o in Generated(in_, xs) && o.symbol == s ensures d == Order(o) {
      GeneratedExactly(in_, xs, o);
    }
    if d.Order? {
      GeneratedExactly(in_, xs, d.order);
    }
  }

  lemma SkipsSayDecided(in_: Inputs, xs: seq<string>, s: string)
    requires Enumerates(xs, in_.Symbols()) && s in in_.Symbols()
    ensures var ks, d := Skips(in_, Sort(xs, Alphabetical)), Decide(in_, s);
      if d.Skipped? then OnlySkip(ks, d.skip) && d.skip.symbol == s else NoSkip(ks, s)
  {
    var symbols, d := Sort(xs, Alphabetical), Decide(in_, s);
    AlphabeticalOrder();
    SortMembers(xs, Alphabetical);
    forall k | k in Skips(in_, symbols) && k.symbol == s ensures d == Skipped(k) {
      SkipsExactly(in_, symbols, k);
    }
    if d.Skipped? {
      SkipsExactly(in_, symbols, d.skip);
    }
  }

  /** What the lists say about a symbol is what was decided for it. */
  lemma ListsSayDecided(in_: Inputs, xs: seq<string>, s: string)
    requires Enumerates(xs, in_.Symbols()) && s in in_.Symbols()
    ensures var os, ks, d := Generated(in_, xs), Skips(in_, Sort(xs, Alphabetical)), Decide(in_, s);
      && (if d.Order? then OnlyOrder(os, d.order) && d.order.symbol == s else NoOrder(os, s))
      && (if d.Skipped? then OnlySkip(ks, d.skip) && d.skip.symbol == s else NoSkip(ks, s))
  {
    OrdersSayDecided(in_, xs, s);
    SkipsSayDecided(in_, xs, s);
  }

  /** A held name whose target is zero: all of it is sold, or the stuck exit is reported. */
  lemma ExitsInFull(in_: Inputs, xs: seq<string>, s: string)
    requires Enumerates(xs, in_.Symbols()) && s in in_.Symbols()
    requires GetOr(in_.target, s, 0.0) == 0.0 && GetOr(in_.current, s, 0.0) > 0.0 && GetOr(in_.quantities, s, 0.0) > 0.0
    ensures var os, ks := Generated(in_, xs), Skips(in_, Sort(xs, Alphabetical));
      if s in in_.prices && in_.prices[s] > 0.0
      then OnlyOrder(os, RebalanceOrder(s, L.Sell, in_.quantities[s], RemovedPosition)) && NoSkip(ks, s)
      else NoOrder(os, s) && OnlySkip(ks, Skip(s, Unpriced, true))
  {
    ListsSayDecided(in_, xs, s);
  }

  /** The shares that are worth a change in weight, to four decimals. */
  ghost predicate WorthOf(q: real, change: real, nav: real, price: real)
    requires price > 0.0
  {
    q == RoundTo(Abs(Times(change, nav)) / price, 10000.0)
  }

  /**
   A name with no current weight: below the entry threshold it is left alone, and reported if its target is positive;
   from the threshold on it is bought as a new position, unless it has no price or the shares round to zero.
   */
  lemma EntriesInFull(in_: Inputs, xs: seq<string>, s: string, tw: real) returns (q: real)
    requires Enumerates(xs, in_.Symbols()) && s in in_.Symbols()
    requires GetOr(in_.current, s, 0.0) == 0.0 && tw == GetOr(in_.target, s, 0.0)
    ensures var os, ks := Generated(in_, xs), Skips(in_, Sort(xs, Alphabetical));
      if Abs(tw) < in_.cfg.minEntryWeight then
        NoOrder(os, s) && (if tw > 0.0 then OnlySkip(ks, Skip(s, BelowEntryThreshold, false)) else NoSkip(ks, s))
      else if s !in in_.prices || in_.prices[s] <= 0.0 then
        NoOrder(os, s) && OnlySkip(ks, Skip(s, Unpriced, false))
      else
        && NoSkip(ks, s) && WorthOf(q, tw, in_.nav, in_.prices[s])
        && if q == 0.0 then NoOrder(os, s)
           else OnlyOrder(os, RebalanceOrder(
             s, if tw > 0.0 then L.Buy else L.Sell, q,
             if tw > 0.0 then NewPosition else if tw == 0.0 then RemovedPosition else WeightAdjustment))
  {
    ListsSayDecided(in_, xs, s);
    q := if s in in_.prices && in_.prices[s] > 0.0 then Quantity(in_.Delta(s), in_.nav, in_.prices[s]) else 0.0;
  }

  /**
   A held name that is not sold in full: within the rebalance threshold it is left alone in silence; beyond it the
   weight is adjusted towards the target, unless it has no price (reported) or the shares round to zero.
   */
  lemma AdjustmentsInFull(in_: Inputs, xs: seq<string>, s: string, tw: real, cw: real) returns (q: real)
    requires Enumerates(xs, in_.Symbols()) && s in in_.Symbols()
    requires cw == GetOr(in_.current, s, 0.0) != 0.0 && tw == GetOr(in_.target, s, 0.0)
    requires !(tw == 0.0 && cw > 0.0 && GetOr(in_.quantities, s, 0.0) > 0.0)
    ensures var os, ks := Generated(in_, xs), Skips(in_, Sort(xs, Alphabetical));
      if Abs(tw - cw) < in_.cfg.minRebalanceThreshold then NoOrder(os, s) && NoSkip(ks, s)
      else if s !in in_.prices || in_.prices[s] <= 0.0 then
        NoOrder(os, s) && OnlySkip(ks, Skip(s, Unpriced, tw == 0.0 && cw > 0.0))
      else
        && NoSkip(ks, s) && WorthOf(q, tw - cw, in_.nav, in_.prices[s])
        && if q == 0.0 then NoOrder(os, s)
           else OnlyOrder(os, RebalanceOrder(s, if tw > cw then L.Buy else L.Sell, q,
                                             if tw <= cw && tw == 0.0 then RemovedPosition else WeightAdjustment))
  {
    ListsSayDecided(in_, xs, s);
    q := if s in in_.prices && in_.prices[s] > 0.0 then Quantity(in_.Delta(s), in_.nav, in_.prices[s]) else 0.0;
  }

  /** Sells come before buys, and each side is in alphabetical order. */
  lemma SellsComeFirst(in_: Inputs, xs: seq<string>, i: nat, j: nat)
    requires Enumerates(xs, in_.Symbols()) && i < j < |Generated(in_, xs)|
    ensures var a, b := Generated(in_, xs)[i], Generated(in_, xs)[j];
      && (b.side == L.Sell ==> a.side == L.Sell)
      && ((a.side == L.Sell <==> b.side == L.Sell) ==> LexLe(a.symbol, b.symbol))
  {
    GeneratedExactly(in_, xs, Generated(in_, xs)[i]);
    assert SellsFirst(Generated(in_, xs)[i], Generated(in_, xs)[j]);
  }

  ghost predicate AlphabeticalSkips(ks: seq<Skip>) {
    forall i, j :: 0 <= i < j < |ks| ==> LexLe(ks[i].symbol, ks[j].symbol)
  }

  lemma {:induction false} SkipsOrdered(in_: Inputs, symbols: seq<string>)
    requires SortedBy(symbols, Alphabetical)
    ensures AlphabeticalSkips(Skips(in_, symbols))
  {
    if symbols != [] {
      var before, last := symbols[..|symbols| - 1], symbols[|symbols| - 1];
      SkipsOrdered(in_, before);
      forall i | 0 <= i < |Skips(in_, before)| ensures LexLe(Skips(in_, before)[i].symbol, last) {
        var k := Skips(in_, before)[i];
        SkipsExactly(in_, before, k);
        var m :| 0 <= m < |before| && before[m] == k.symbol;
        assert Alphabetical(symbols[m], symbols[|symbols| - 1]);
      }
      if Decide(in_, last).Skipped? {
        assert Decide(in_, last).skip.symbol == last;
      }
    }
  }

  /** The skips are reported in alphabetical order. */
  lemma SkipsAlphabetical(in_: Inputs, xs: seq<string>)
    requires Enumerates(xs, in_.Symbols())
    ensures AlphabeticalSkips(Skips(in_, Sort(xs, Alphabetical)))
  {
    AlphabeticalOrder();
    SortSorts(xs, Alphabetical);
    SkipsOrdered(in_, Sort(xs, Alphabetical));
  }

  // ----- what executing the orders leads to -------------------------------------------

  function Signed(o: RebalanceOrder): real { if o.side == L.Buy then o.quantity else -o.quantity }

  /** The shares of `s` bought minus sold by executing the list. */
  function NetShares(os: seq<RebalanceOrder>, s: string): real {
    if os == [] then 0.0 else
      NetShares(os[..|os| - 1], s) + (if os[|os| - 1].symbol == s then Signed(os[|os| - 1]) else 0.0)
  }

  lemma {:induction false} NetOfOne(os: seq<RebalanceOrder>, s: string)
    requires OnePerSymbol(os)
    ensures forall o :: o in os && o.symbol == s ==> NetShares(os, s) == Signed(o)
    ensures (forall o :: o in os ==> o.symbol != s) ==> NetShares(os, s) == 0.0
  {
    if os != [] {
      var prefix, last := os[..|os| - 1], os[|os| - 1];
      NetOfOne(prefix, s);
      assert os == prefix + [last];
    }
  }

  function DecidedShares(in_: Inputs, s: string): real {
    var d := Decide(in_, s);
    if d.Order? then Signed(d.order) else 0.0
  }

  lemma NetIsDecided(in_: Inputs, xs: seq<string>, s: string)
    requires Enumerates(xs, in_.Symbols()) && s in in_.Symbols()
    ensures NetShares(Generated(in_, xs), s) == DecidedShares(in_, s)
  {
    var os := Generated(in_, xs);
    GeneratedExactly(in_, xs, RebalanceOrder(s, L.Buy, 0.0, NewPosition));
    NetOfOne(os, s);
    var d := Decide(in_, s);
    if d.Order? {
      GeneratedExactly(in_, xs, d.order);
    } else {
      forall o | o in os ensures o.symbol != s {
        GeneratedExactly(in_, xs, o);
      }
    }
  }

  /** Over a positive nav a priced symbol's weight is price times quantity; an unpriced one is carried at its weight. */
  ghost predicate Consistent(in_: Inputs) {
    && in_.nav > 0.0 && in_.cfg.minRebalanceThreshold >= 0.0
    && forall s :: s in in_.Symbols() ==>
         && in_.TargetWeight(s) >= 0.0 && in_.Held(s) >= 0.0
         && (in_.Priced(s) ==> Times(in_.CurrentWeight(s), in_.nav) == Times(in_.prices[s], in_.Held(s)))
  }

  lemma NearValue(p: real, q: real, x: real, h: real, exact: real)
    requires p > 0.0 && -h <= q - x <= h && p * x == exact
    ensures exact - h * p <= p * q <= exact + h * p
  {
    TimesOrder(p, x - h, q);
    TimesOrder(p, q, x + h);
    assert p * (x - h) == p * x - h * p && p * (x + h) == p * x + h * p;
  }

  lemma RoundedValue(exact: real, price: real, q: real)
    requires price > 0.0 && q == RoundTo(exact / price, SHARE_GRID)
    ensures exact - HALF_SHARE * price <= Times(price, q) <= exact + HALF_SHARE * price
  {
    var x := exact / price;
    RoundToNear(x, SHARE_GRID);
    assert price * x == exact;
    NearValue(price, q, x, HALF_SHARE, exact);
  }

  /** How far a holding's value is from its target value once `shares` have been bought (or sold, if negative). */
  function Off(price: real, held: real, shares: real, weight: real, nav: real): real {
    Times(price, held + shares) - Times(weight, nav)
  }

  function OffTarget(in_: Inputs, s: string, shares: real): real
    requires in_.Priced(s)
  {
    Off(in_.prices[s], in_.Held(s), shares, in_.TargetWeight(s), in_.nav)
  }

  /** A symbol left alone because it is too close to its target. */
  predicate LeftAlone(in_: Inputs, s: string) {
    !in_.IsFullExit(s) && Abs(in_.Delta(s)) < in_.Threshold(s)
  }

  lemma ExitOff(p: real, held: real, nav: real)
    requires p > 0.0
    ensures Off(p, held, -held, 0.0, nav) == 0.0 <= HALF_SHARE * p
  {
  }

  lemma ExitTracks(in_: Inputs, s: string)
    requires in_.Priced(s) && in_.IsFullExit(s)
    ensures DecidedShares(in_, s) == -in_.Held(s)
    ensures Abs(OffTarget(in_, s, -in_.Held(s))) <= HALF_SHARE * in_.prices[s]
  {
    ExitOff(in_.prices[s], in_.Held(s), in_.nav);
  }

  lemma AbsTimes(d: real, nav: real, bound: real)
    requires nav > 0.0 && Abs(d) < bound
    ensures Abs(Times(d, nav)) < Times(bound, nav)
  {
    assert (bound - d) * nav > 0.0 && (bound + d) * nav > 0.0;
  }

  lemma AloneOff(p: real, held: real, tw: real, cw: real, nav: real, bound: real)
    requires nav > 0.0 && Times(cw, nav) == Times(p, held) && Abs(tw - cw) < bound
    ensures Abs(Off(p, held, 0.0, tw, nav)) < Times(bound, nav)
  {
    assert Times(tw - cw, nav) == Times(tw, nav) - Times(cw, nav);
    AbsTimes(tw - cw, nav, bound);
  }

  lemma AloneTracks(in_: Inputs, s: string)
    requires Consistent(in_) && s in in_.Symbols() && in_.Priced(s) && LeftAlone(in_, s)
    ensures DecidedShares(in_, s) == 0.0
    ensures Abs(OffTarget(in_, s, 0.0)) < Times(in_.Threshold(s), in_.nav)
  {
    AloneOff(in_.prices[s], in_.Held(s), in_.TargetWeight(s), in_.CurrentWeight(s), in_.nav, in_.Threshold(s));
  }

  /** The rounded quantity is within half a grid unit of the exact one, in value. */
  predicate NearExact(change: real, price: real, q: real) {
    Abs(change) - HALF_SHARE * price <= Times(price, q) <= Abs(change) + HALF_SHARE * price
  }

  lemma TradedError(p: real, held: real, q: real, change: real, target: real, buy: bool)
    requires change == target - Times(p, held) && (if buy then change > 0.0 else change <= 0.0)
    requires NearExact(change, p, q)
    ensures Abs(Times(p, held + if buy then q else -q) - target) <= HALF_SHARE * p
  {
    assert Times(p, held + q) == Times(p, held) + Times(p, q) && Times(p, held - q) == Times(p, held) - Times(p, q);
  }

  lemma TradedOff(p: real, held: real, shares: real, nav: real, tw: real, cw: real, q: real)
    requires nav > 0.0 && Times(cw, nav) == Times(p, held)
    requires shares == if tw - cw > 0.0 then q else -q
    requires NearExact(Times(tw - cw, nav), p, q)
    ensures Abs(Off(p, held, shares, tw, nav)) <= HALF_SHARE * p
  {
    assert Times(tw - cw, nav) == Times(tw, nav) - Times(cw, nav);
    TimesSign(tw - cw, nav);
    TradedError(p, held, q, Times(tw - cw, nav), Times(tw, nav), tw - cw > 0.0);
  }

  lemma SharesTrack(in_: Inputs, s: string, shares: real, q: real)
    requires Consistent(in_) && s in in_.Symbols() && in_.Priced(s)
    requires shares == if in_.Delta(s) > 0.0 then q else -q
    requires NearExact(Times(in_.Delta(s), in_.nav), in_.prices[s], q)
    ensures Abs(OffTarget(in_, s, shares)) <= HALF_SHARE * in_.prices[s]
  {
    TradedOff(in_.prices[s], in_.Held(s), shares, in_.nav, in_.TargetWeight(s), in_.CurrentWeight(s), q);
  }

  lemma QuantityValue(delta: real, nav: real, price: real)
    requires price > 0.0
    ensures NearExact(Times(delta, nav), price, Quantity(delta, nav, price))
  {
    RoundedValue(Abs(Times(delta, nav)), price, Quantity(delta, nav, price));
  }

  lemma DecidedQuantity(in_: Inputs, s: string) returns (q: real)
    requires in_.Priced(s) && !in_.IsFullExit(s) && !LeftAlone(in_, s)
    ensures DecidedShares(in_, s) == if in_.Delta(s) > 0.0 then q else -q
    ensures NearExact(Times(in_.Delta(s), in_.nav), in_.prices[s], q)
  {
    q := Quantity(in_.Delta(s), in_.nav, in_.prices[s]);
    QuantityValue(in_.Delta(s), in_.nav, in_.prices[s]);
  }

  lemma TradedTracks(in_: Inputs, s: string)
    requires Consistent(in_) && s in in_.Symbols() && in_.Priced(s) && !in_.IsFullExit(s) && !LeftAlone(in_, s)
    ensures Abs(OffTarget(in_, s, DecidedShares(in_, s))) <= HALF_SHARE * in_.prices[s]
  {
    var q := DecidedQuantity(in_, s);
    SharesTrack(in_, s, DecidedShares(in_, s), q);
  }

  /**
   Tracking, symbol by symbol: what is traded (or rounds to nothing) ends within half a share-grid unit of its
   target value, and a name left alone is off by less than its threshold.
   */
  lemma TracksTarget(in_: Inputs, s: string)
    requires Consistent(in_) && s in in_.Symbols() && in_.Priced(s)
    ensures var off := OffTarget(in_, s, DecidedShares(in_, s));
      if LeftAlone(in_, s) then Abs(off) < Times(in_.Threshold(s), in_.nav)
      else Abs(off) <= HALF_SHARE * in_.prices[s]
  {
    if in_.IsFullExit(s) {
      ExitTracks(in_, s);
    } else if LeftAlone(in_, s) {
      AloneTracks(in_, s);
    } else {
      TradedTracks(in_, s);
    }
  }

  // ----- the whole portfolio ----------------------------------------------------------

  function Worth(price: real, held: real, shares: real): real { Times(price, held + shares) }

  /** What a symbol is worth after the trades; an unpriced one stays at the value it is carried at. */
  function ValueOf(in_: Inputs, s: string, shares: real): real {
    if in_.Priced(s) then Worth(in_.prices[s], in_.Held(s), shares) else in_.CarriedValue(s)
  }

  /** The value of the symbols once the listed orders have been executed at the decision prices. */
  function Invested(in_: Inputs, os: seq<RebalanceOrder>, symbols: seq<string>): real {
    if symbols == [] then 0.0 else
      var s := symbols[|symbols| - 1];
      Invested(in_, os, symbols[..|symbols| - 1]) + ValueOf(in_, s, NetShares(os, s))
  }

  function TargetSum(in_: Inputs, symbols: seq<string>): real {
    if symbols == [] then 0.0 else
      TargetSum(in_, symbols[..|symbols| - 1]) + in_.TargetWeight(symbols[|symbols| - 1])
  }

  function PriceTotal(in_: Inputs, symbols: seq<string>): real {
    if symbols == [] then 0.0 else
      PriceTotal(in_, symbols[..|symbols| - 1]) + in_.PriceOf(symbols[|symbols| - 1])
  }

  /** The value of the names that cannot be traded for want of a price. */
  function CarriedTotal(in_: Inputs, symbols: seq<string>): real {
    if symbols == [] then 0.0 else
      CarriedTotal(in_, symbols[..|symbols| - 1]) + in_.CarriedValue(symbols[|symbols| - 1])
  }

  predicate Untraded(in_: Inputs, s: string) { LeftAlone(in_, s) && in_.CurrentWeight(s) != 0.0 }

  /** Held names within the rebalance threshold of their target: the ones left untraded. */
  function UntradedHeld(in_: Inputs, symbols: seq<string>): nat {
    if symbols == [] then 0 else
      var s := symbols[|symbols| - 1];
      UntradedHeld(in_, symbols[..|symbols| - 1]) + (if Untraded(in_, s) then 1 else 0)
  }

  /** The bound on the invested value, with the allowance for untraded and unpriced names and for share rounding. */
  function InvestedBound(in_: Inputs, symbols: seq<string>): real {
    Times(in_.nav, TargetSum(in_, symbols))
      + Times(Times(in_.nav, in_.cfg.minRebalanceThreshold), UntradedHeld(in_, symbols) as real)
      + Times(HALF_SHARE, PriceTotal(in_, symbols)) + CarriedTotal(in_, symbols)
  }

  /** One symbol's share of the bound. */
  function SymbolBound(in_: Inputs, s: string): real {
    Times(in_.nav, in_.TargetWeight(s))
      + (if Untraded(in_, s) then Times(in_.nav, in_.cfg.minRebalanceThreshold) else 0.0)
      + Times(HALF_SHARE, in_.PriceOf(s)) + in_.CarriedValue(s)
  }

  lemma WorthFromOff(p: real, held: real, shares: real, tw: real, nav: real)
    ensures Worth(p, held, shares) == Times(nav, tw) + Off(p, held, shares, tw, nav)
    ensures p > 0.0 ==> Times(HALF_SHARE, p) == HALF_SHARE * p > 0.0
  {
  }

  lemma EntryWorthless(p: real, held: real, cw: real, nav: real, tw: real)
    requires p > 0.0 && cw == 0.0 && Times(cw, nav) == Times(p, held) && nav > 0.0 && tw >= 0.0
    ensures Worth(p, held, 0.0) == 0.0 <= Times(nav, tw)
  {
  }

  lemma AloneWithin(in_: Inputs, s: string)
    requires Consistent(in_) && s in in_.Symbols() && in_.Priced(s) && LeftAlone(in_, s)
    ensures Worth(in_.prices[s], in_.Held(s), 0.0) <= SymbolBound(in_, s)
  {
    WorthFromOff(in_.prices[s], in_.Held(s), 0.0, in_.TargetWeight(s), in_.nav);
    if Untraded(in_, s) {
      AloneTracks(in_, s);
      assert Times(in_.Threshold(s), in_.nav) == Times(in_.nav, in_.Threshold(s));
    } else {
      EntryWorthless(in_.prices[s], in_.Held(s), in_.CurrentWeight(s), in_.nav, in_.TargetWeight(s));
    }
  }

  /** A name without a price is not traded and stays at the value it is carried at. */
  lemma UnpricedWithin(in_: Inputs, s: string)
    requires Consistent(in_) && s in in_.Symbols() && !in_.Priced(s)
    ensures DecidedShares(in_, s) == 0.0 && in_.CarriedValue(s) <= SymbolBound(in_, s)
  {
    TimesSign(in_.TargetWeight(s), in_.nav);
    TimesSign(in_.cfg.minRebalanceThreshold, in_.nav);
    assert Times(in_.nav, in_.TargetWeight(s)) == Times(in_.TargetWeight(s), in_.nav);
    assert Times(in_.nav, in_.cfg.minRebalanceThreshold) == Times(in_.cfg.minRebalanceThreshold, in_.nav);
  }

  lemma TradedWithin(in_: Inputs, s: string, shares: real)
    requires in_.Priced(s) && !LeftAlone(in_, s) && Abs(OffTarget(in_, s, shares)) <= HALF_SHARE * in_.prices[s]
    ensures Worth(in_.prices[s], in_.Held(s), shares) <= SymbolBound(in_, s)
  {
    WorthFromOff(in_.prices[s], in_.Held(s), shares, in_.TargetWeight(s), in_.nav);
  }

  lemma SymbolWithin(in_: Inputs, s: string, shares: real)
    requires Consistent(in_) && s in in_.Symbols() && shares == DecidedShares(in_, s)
    ensures ValueOf(in_, s, shares) <= SymbolBound(in_, s)
  {
    if !in_.Priced(s) {
      UnpricedWithin(in_, s);
    } else if LeftAlone(in_, s) {
      AloneTracks(in_, s);
      AloneWithin(in_, s);
    } else {
      TracksTarget(in_, s);
      TradedWithin(in_, s, shares);
    }
  }

  lemma UnitStep(unit: real, n: nat)
    ensures Times(unit, (n + 1) as real) == Times(unit, n as real) + unit
  {
  }

  lemma BoundStep(in_: Inputs, symbols: seq<string>)
    requires symbols != []
    ensures InvestedBound(in_, symbols)
         == InvestedBound(in_, symbols[..|symbols| - 1]) + SymbolBound(in_, symbols[|symbols| - 1])
  {
    var prefix, s := symbols[..|symbols| - 1], symbols[|symbols| - 1];
    var unit := Times(in_.nav, in_.cfg.minRebalanceThreshold);
    TimesDistributes(in_.nav, TargetSum(in_, prefix), in_.TargetWeight(s));
    TimesDistributes(HALF_SHARE, PriceTotal(in_, prefix), in_.PriceOf(s));
    UnitStep(unit, UntradedHeld(in_, prefix));
  }

  lemma {:induction false} InvestedWithin(in_: Inputs, os: seq<RebalanceOrder>, symbols: seq<string>)
    requires Consistent(in_)
    requires forall s :: s in symbols ==> s in in_.Symbols() && NetShares(os, s) == DecidedShares(in_, s)
    ensures Invested(in_, os, symbols) <= InvestedBound(in_, symbols)
  {
    if symbols == [] {
      assert Times(in_.nav, 0.0) == 0.0;
      assert Times(Times(in_.nav, in_.cfg.minRebalanceThreshold), 0.0) == 0.0;
    } else {
      var s := symbols[|symbols| - 1];
      InvestedWithin(in_, os, symbols[..|symbols| - 1]);
      SymbolWithin(in_, s, NetShares(os, s));
      BoundStep(in_, symbols);
    }
  }

  /**
   Executing all generated orders at the decision prices invests at most nav times (the sum of the targets plus the
   rebalance threshold per untraded held name), plus half a share-grid unit per share price, plus what is carried in
   names without a price: those a stuck exit leaves behind.
   */
  lemma ExecutedWithinTargets(in_: Inputs, xs: seq<string>)
    requires Consistent(in_) && Enumerates(xs, in_.Symbols())
    ensures Invested(in_, Generated(in_, xs), xs) <= InvestedBound(in_, xs)
  {
    forall s | s in xs ensures NetShares(Generated(in_, xs), s) == DecidedShares(in_, s) {
      NetIsDecided(in_, xs, s);
    }
    InvestedWithin(in_, Generated(in_, xs), xs);
  }

  // ----- from sizing to orders ----------------------------------------------------------

  function TargetMap(sized: seq<CompositeScore>): map<string, real> {
    if sized == [] then map[] else
      TargetMap(sized[..|sized| - 1])[sized[|sized| - 1].symbol := sized[|sized| - 1].targetWeight]
  }

  function TargetsOf(sized: seq<CompositeScore>): seq<real> {
    seq(|sized|, i requires 0 <= i < |sized| => sized[i].targetWeight)
  }

  lemma {:induction false} TargetMapKeys(sized: seq<CompositeScore>, s: string)
    ensures s in TargetMap(sized) ==> exists i :: 0 <= i < |sized| && sized[i].symbol == s
  {
    if sized != [] && s != sized[|sized| - 1].symbol {
      TargetMapKeys(sized[..|sized| - 1], s);
    }
  }

  /** Of a symbol listed more than once the last target counts. */
  lemma {:induction false} LastTargetCounts(sized: seq<CompositeScore>, i: nat)
    requires i < |sized| && forall j :: i < j < |sized| ==> sized[j].symbol != sized[i].symbol
    ensures sized[i].symbol in TargetMap(sized) && TargetMap(sized)[sized[i].symbol] == sized[i].targetWeight
  {
    if i < |sized| - 1 {
      LastTargetCounts(sized[..|sized| - 1], i);
    }
  }

  lemma {:induction false} TargetMapTotal(sized: seq<CompositeScore>)
    requires DistinctSymbols(sized)
    ensures Total(TargetMap(sized)) == Sum(TargetsOf(sized))
  {
    if sized != [] {
      var prefix, last := sized[..|sized| - 1], sized[|sized| - 1];
      TargetMapTotal(prefix);
      TargetMapKeys(prefix, last.symbol);
      TotalUpdate(TargetMap(prefix), last.symbol, last.targetWeight);
      assert TargetsOf(sized)[..|sized| - 1] == TargetsOf(prefix);
    }
  }

  lemma WithoutLast(target: map<string, real>, symbols: seq<string>)
    requires symbols != [] && Distinct(symbols) && forall s :: s in target ==> s in symbols
    ensures var prefix, rest := symbols[..|symbols| - 1], target - {symbols[|symbols| - 1]};
      && (forall s :: s in rest ==> s in prefix)
      && (forall s :: s in prefix ==> s in symbols && GetOr(rest, s, 0.0) == GetOr(target, s, 0.0))
  {
    var prefix := symbols[..|symbols| - 1];
    assert symbols == prefix + [symbols[|symbols| - 1]];
  }

  lemma {:induction false} TargetTotalOver(in_: Inputs, target: map<string, real>, symbols: seq<string>)
    requires Distinct(symbols) && forall s :: s in target ==> s in symbols
    requires forall s :: s in symbols ==> in_.TargetWeight(s) == GetOr(target, s, 0.0)
    ensures TargetSum(in_, symbols) == Total(target)
    decreases |symbols|
  {
    if symbols == [] {
      assert target == map[];
    } else {
      var prefix, s := symbols[..|symbols| - 1], symbols[|symbols| - 1];
      WithoutLast(target, symbols);
      TotalUpdate(target, s, 0.0);
      TargetTotalOver(in_, target - {s}, prefix);
    }
  }

  lemma BufferLeft(nav: real, targets: real, buffer: real)
    requires nav >= 0.0 && targets <= 1.0 - buffer
    ensures Times(nav, targets) <= nav - Times(nav, buffer)
  {
    TimesOrder(nav, targets, 1.0 - buffer);
    TimesDistributes(nav, 1.0 - buffer, buffer);
  }

  /**
   Sizing and order generation together: for any selection with non-negative convictions and any positive cap,
   what is left in cash after executing every order at the decision prices is at least nav times the cash buffer,
   less the threshold per untraded held name, the rounding allowance and what is carried in unpriced names.
   */
  lemma CashBufferSurvives(in_: Inputs, xs: seq<string>, sized: seq<CompositeScore>, cap: real, buffer: real)
    requires Consistent(in_) && Enumerates(xs, in_.Symbols())
    requires DistinctSymbols(sized) && NonNegative(Convictions(sized)) && cap > 0.0 && 0.0 <= buffer <= 1.0
    requires TargetsOf(sized) == TargetWeights(Convictions(sized), cap, buffer)
    requires in_.target == TargetMap(sized)
    ensures in_.nav - Invested(in_, Generated(in_, xs), xs)
      >= Times(in_.nav, buffer)
         - Times(Times(in_.nav, in_.cfg.minRebalanceThreshold), UntradedHeld(in_, xs) as real)
         - Times(HALF_SHARE, PriceTotal(in_, xs)) - CarriedTotal(in_, xs)
  {
    ExecutedWithinTargets(in_, xs);
    TargetsBounded(Convictions(sized), cap, buffer);
    TargetMapTotal(sized);
    TargetTotalOver(in_, in_.target, xs);
    BufferLeft(in_.nav, TargetSum(in_, xs), buffer);
  }

  // ----- sells against holdings ---------------------------------------------------------

  lemma SellValue(p: real, held: real, tw: real, cw: real, nav: real) returns (exact: real)
    requires nav > 0.0 && tw >= 0.0 && Times(cw, nav) == Times(p, held) && tw - cw <= 0.0
    ensures exact == Abs(Times(tw - cw, nav)) && exact <= Times(p, held)
  {
    exact := Abs(Times(tw - cw, nav));
    assert Times(tw - cw, nav) == Times(tw, nav) - Times(p, held);
    TimesSign(tw - cw, nav);
    TimesSign(tw, nav);
  }

  lemma RoundedSell(x: real, held: real, grid: int)
    requires x <= held
    ensures RoundTo(x, SHARE_GRID) <= held + HALF_SHARE
    ensures held * SHARE_GRID == grid as real ==> RoundTo(x, SHARE_GRID) <= held
  {
    RoundToNear(x, SHARE_GRID);
    RoundBetween(x * SHARE_GRID, 0, grid);
  }

  lemma ExactSell(p: real, held: real, exact: real)
    requires p > 0.0 && exact <= Times(p, held)
    ensures exact / p <= held
  {
  }

  lemma SellQuantity(p: real, held: real, tw: real, cw: real, nav: real, grid: int)
    requires p > 0.0 && nav > 0.0 && tw >= 0.0 && held >= 0.0 && Times(cw, nav) == Times(p, held) && tw - cw <= 0.0
    ensures Quantity(tw - cw, nav, p) <= held + HALF_SHARE
    ensures held * SHARE_GRID == grid as real ==> Quantity(tw - cw, nav, p) <= held
  {
    var exact := SellValue(p, held, tw, cw, nav);
    ExactSell(p, held, exact);
    var x := exact / p;
    RoundedSell(x, held, grid);
    assert Quantity(tw - cw, nav, p) == RoundTo(x, SHARE_GRID);
  }

  /** No sell exceeds the holding by more than half a grid unit, and none exceeds a holding on the share grid. */
  lemma SellsWithinHolding(in_: Inputs, s: string, grid: int)
    requires Consistent(in_) && s in in_.Symbols()
    requires Decide(in_, s).Order? && Decide(in_, s).order.side == L.Sell
    ensures Decide(in_, s).order.quantity <= in_.Held(s) + HALF_SHARE
    ensures in_.Held(s) * SHARE_GRID == grid as real ==> Decide(in_, s).order.quantity <= in_.Held(s)
  {
    if !in_.IsFullExit(s) {
      SellQuantity(in_.prices[s], in_.Held(s), in_.TargetWeight(s), in_.CurrentWeight(s), in_.nav, grid);
    }
  }

  // ----- the generator ------------------------------------------------------------------

  /** The body of the loop over symbols: appends at most one order or one skip. */
  method VisitSymbol(ghost in_: Inputs, target: map<string, real>, current: map<string, real>, nav: real,
                     prices: map<string, real>, quantities: map<string, real>, cfg: Config, symbol: string,
                     orders0: seq<RebalanceOrder>, skips0: seq<Skip>)
    returns (orders: seq<RebalanceOrder>, skips: seq<Skip>)
    requires in_ == Inputs(target, current, nav, prices, quantities, cfg)
    ensures var d := Decide(in_, symbol);
      && orders == (if d.Order? then orders0 + [d.order] else orders0)
      && skips == (if d.Skipped? then skips0 + [d.skip] else skips0)
  {
    orders, skips := orders0, skips0;
    var targetWeight := GetOr(target, symbol, 0.0);
    var currentWeight := GetOr(current, symbol, 0.0);
    var held := GetOr(quantities, symbol, 0.0);
    var priced := symbol in prices && prices[symbol] > 0.0;
    if targetWeight == 0.0 && currentWeight > 0.0 && held > 0.0 {
      if !priced {
        skips := skips + [Skip(symbol, Unpriced, true)];
        return;
      }
      orders := orders + [RebalanceOrder(symbol, L.Sell, held, RemovedPosition)];
      return;
    }
    var delta := targetWeight - currentWeight;
    var isEntry := currentWeight == 0.0;
    var threshold := if isEntry then cfg.minEntryWeight else cfg.minRebalanceThreshold;
    if Abs(delta) < threshold {
      if isEntry && targetWeight > 0.0 {
        skips := skips + [Skip(symbol, BelowEntryThreshold, false)];
      }
      return;
    }
    if !priced {
      skips := skips + [Skip(symbol, Unpriced, targetWeight == 0.0 && currentWeight > 0.0)];
      return;
    }
    var quantity := Quantity(delta, nav, prices[symbol]);
    if quantity == 0.0 {
      return;
    }
    var side := L.Sell;
    var reason := if targetWeight == 0.0 then RemovedPosition else WeightAdjustment;
    if delta > 0.0 {
      side := L.Buy;
      reason := if currentWeight == 0.0 then NewPosition else WeightAdjustment;
    }
    orders := orders + [RebalanceOrder(symbol, side, quantity, reason)];
  }

  /** Generates the orders and the report of skipped symbols. */
  method GenerateOrdersWithSkips(target: seq<CompositeScore>, current: map<string, real>, nav: real,
                                 prices: map<string, real>, quantities: Option<map<string, real>>, cfg: Config)
    returns (orders: seq<RebalanceOrder>, skips: seq<Skip>)
    ensures var in_ := Inputs(TargetMap(target), current, nav, prices,
                              if quantities.Some? then quantities.value else map[], cfg);
      && (exists xs :: Enumerates(xs, in_.Symbols()))
      && forall xs :: Enumerates(xs, in_.Symbols()) ==>
           orders == Generated(in_, xs) && skips == Skips(in_, Sort(xs, Alphabetical))
  {
    var targetMap: map<string, real> := map[];
    for i := 0 to |target|
      invariant targetMap == TargetMap(target[..i])
    {
      assert target[..i + 1][..i] == target[..i];
      targetMap := targetMap[target[i].symbol := target[i].targetWeight];
    }
    assert target[..|target|] == target;
    var held := if quantities.Some? then quantities.value else map[];
    ghost var in_ := Inputs(targetMap, current, nav, prices, held, cfg);
    var enumeration := EnumerateSet(targetMap.Keys + current.Keys);
    var symbols := Sort(enumeration, Alphabetical);
    orders, skips := [], [];
    for i := 0 to |symbols|
      invariant orders == Orders(in_, symbols[..i]) && skips == Skips(in_, symbols[..i])
    {
      assert symbols[..i + 1][..i] == symbols[..i];
      orders, skips := VisitSymbol(in_, targetMap, current, nav, prices, held, cfg, symbols[i], orders, skips);
    }
    assert symbols[..|symbols|] == symbols;
    orders := Sort(orders, SellsFirst);
    forall xs | Enumerates(xs, in_.Symbols())
      ensures orders == Generated(in_, xs) && skips == Skips(in_, Sort(xs, Alphabetical))
    {
      EnumerationIrrelevant(in_, xs, enumeration);
    }
  }
}
