/**
 From order generation to the ledger: the generated orders, submitted one after the other, with whatever fill
 prices and commissions the broker answers. Sells come first so that their proceeds fund the buys.
 */
module RebalanceRun {
  import opened Prelude
  import opened Sums
  import opened Sorting
  import opened Rounding
  import opened Sizing
  import opened Rebalancing
  import L = Ledger
  import E = Execution

  /** What the broker answers to the order of each symbol; a list has at most one order per symbol. */
  type Answers = string -> E.Reply

  function SubmissionFor(answers: Answers, branch: string, o: RebalanceOrder): E.Submission {
    E.Submission(E.Request(branch, o.symbol, o.side, o.quantity), answers(o.symbol))
  }

  function Submissions(answers: Answers, branch: string, os: seq<RebalanceOrder>): seq<E.Submission> {
    seq(|os|, i requires 0 <= i < |os| => SubmissionFor(answers, branch, os[i]))
  }

  /** Every submission of a run is filled. */
  ghost predicate Fills(d: E.Desk, subs: seq<E.Submission>) {
    subs == [] ||
    (var prefix, last := subs[..|subs| - 1], subs[|subs| - 1];
     Fills(d, prefix) && E.Submit(E.Run(d, prefix), last.req, last.reply).1.FilledOrder?)
  }

  /** What an order takes out of cash when it fills as answered, negative for proceeds. */
  function Outlay(answers: Answers, o: RebalanceOrder): real {
    match answers(o.symbol)
    case Fill(price, commission, _) => Times(price, Signed(o)) + commission
    case Refusal => 0.0
  }

  function Spent(answers: Answers, os: seq<RebalanceOrder>): real {
    if os == [] then 0.0 else Spent(answers, os[..|os| - 1]) + Outlay(answers, os[|os| - 1])
  }

  predicate NoneRefused(answers: Answers, os: seq<RebalanceOrder>) {
    forall k :: 0 <= k < |os| ==> answers(os[k].symbol).Fill?
  }

  /** Fill prices and commissions are not negative; nothing else is assumed of them. */
  ghost predicate Sane(answers: Answers) {
    forall s :: answers(s).Fill? ==> answers(s).price >= 0.0 && answers(s).commission >= 0.0
  }

  predicate OnShareGrid(x: real) { (x * SHARE_GRID).Floor as real == x * SHARE_GRID }

  /** The inputs list the holdings of the branch's book, each a multiple of the share grid. */
  ghost predicate Lists(in_: Inputs, d: E.Desk, branch: string) {
    && branch in d.books
    && (forall s :: L.RowOf(d.books[branch].rows, s).longQuantity == in_.Held(s))
    && forall s :: s in in_.Symbols() ==> OnShareGrid(in_.Held(s))
  }

  // ----- one order --------------------------------------------------------------------

  /** A decided order can be carried out: positive, priced, and a sell covered by the holding. */
  predicate Executable(in_: Inputs, o: RebalanceOrder) {
    && in_.Priced(o.symbol) && o.quantity > 0.0
    && match o.side
       case Buy => true
       case Sell =>
         && o.quantity <= in_.Held(o.symbol)
         && (Abs(o.quantity - in_.Held(o.symbol)) <= E.FULL_EXIT_QTY_TOLERANCE ==> o.quantity == in_.Held(o.symbol))
       case _ => false
  }

  lemma RoundedOnGrid(x: real)
    requires x >= 0.0
    ensures OnShareGrid(RoundTo(x, SHARE_GRID)) && RoundTo(x, SHARE_GRID) >= 0.0
  {
    var n := RoundHalfEven(x * SHARE_GRID);
    RoundBetween(x * SHARE_GRID, 0, n);
    assert n as real / SHARE_GRID * SHARE_GRID == n as real;
  }

  lemma GridPoint(x: real, n: int)
    requires x * SHARE_GRID == n as real
    ensures OnShareGrid(x)
  {
  }

  lemma GridAdds(x: real, y: real)
    requires OnShareGrid(x) && OnShareGrid(y)
    ensures OnShareGrid(x + y) && OnShareGrid(-y)
  {
    var m, n := (x * SHARE_GRID).Floor, (y * SHARE_GRID).Floor;
    GridPoint(x + y, m + n);
    GridPoint(-y, -n);
  }

  /** Two share counts on the grid that are within the clamp's tolerance are equal. */
  lemma GridApart(x: real, y: real)
    requires OnShareGrid(x) && OnShareGrid(y) && Abs(x - y) <= E.FULL_EXIT_QTY_TOLERANCE
    ensures x == y
  {
    var m, n := (x * SHARE_GRID).Floor, (y * SHARE_GRID).Floor;
    assert -1.0 < m as real - n as real < 1.0;
    assert m == n;
  }

  lemma ExactNonNegative(delta: real, nav: real, price: real)
    requires price > 0.0
    ensures Abs(Times(delta, nav)) / price >= 0.0
  {
  }

  lemma DecidedExecutable(in_: Inputs, s: string)
    requires Consistent(in_) && s in in_.Symbols() && Decide(in_, s).Order? && OnShareGrid(in_.Held(s))
    ensures Executable(in_, Decide(in_, s).order) && Decide(in_, s).order.symbol == s
    ensures OnShareGrid(Decide(in_, s).order.quantity)
  {
    var o := Decide(in_, s).order;
    if !in_.IsFullExit(s) {
      var exact := Abs(Times(in_.Delta(s), in_.nav)) / in_.prices[s];
      ExactNonNegative(in_.Delta(s), in_.nav, in_.prices[s]);
      RoundedOnGrid(exact);
      assert o.quantity == RoundTo(exact, SHARE_GRID);
      if o.side == L.Sell {
        SellsWithinHolding(in_, s, (in_.Held(s) * SHARE_GRID).Floor);
        if Abs(o.quantity - in_.Held(s)) <= E.FULL_EXIT_QTY_TOLERANCE {
          GridApart(o.quantity, in_.Held(s));
        }
      }
    }
  }

  /** The desk after the orders so far: cash less what was spent, holdings plus what was traded. */
  ghost predicate Executed(in_: Inputs, answers: Answers, cash: real, dk: E.Desk, branch: string,
                           os: seq<RebalanceOrder>) {
    && branch in dk.books
    && dk.books[branch].summary.cash == cash - Spent(answers, os)
    && forall s :: L.RowOf(dk.books[branch].rows, s).longQuantity == in_.Held(s) + NetShares(os, s)
  }

  lemma SpentAppend(answers: Answers, os: seq<RebalanceOrder>, o: RebalanceOrder, s: string)
    ensures Spent(answers, os + [o]) == Spent(answers, os) + Outlay(answers, o)
    ensures NetShares(os + [o], s) == NetShares(os, s) + (if o.symbol == s then Signed(o) else 0.0)
  {
    assert (os + [o])[..|os|] == os;
  }

  lemma OutlayIsCost(answers: Answers, o: RebalanceOrder, t: L.Trade)
    requires answers(o.symbol).Fill? && (o.side == L.Buy || o.side == L.Sell)
    requires t.side == o.side && t.quantity == o.quantity
    requires t.price == answers(o.symbol).price && t.commission == answers(o.symbol).commission
    ensures L.CashFlow(t) == -Outlay(answers, o)
    ensures L.LongFlow(t, t.symbol) == Signed(o)
  {
  }

  /** The trade behind an executable order that the broker fills, and when it happens. */
  lemma OrderTrades(in_: Inputs, answers: Answers, cash: real, dk: E.Desk, branch: string,
                    os: seq<RebalanceOrder>, o: RebalanceOrder)
    returns (t: L.Trade)
    requires Executable(in_, o) && Executed(in_, answers, cash, dk, branch, os) && NetShares(os, o.symbol) == 0.0
    requires answers(o.symbol).Fill?
    ensures var fill := answers(o.symbol);
      t == L.Trade(|dk.orders|, branch, o.symbol, o.side, o.quantity, fill.price, fill.commission, fill.executedAt)
    ensures var sub := SubmissionFor(answers, branch, o);
      var (after, response) := E.Submit(dk, sub.req, sub.reply);
      && (response.FilledOrder? <==>
            o.side == L.Sell || Spent(answers, os) + Outlay(answers, o) <= cash + E.CASH_TOLERANCE)
      && (response.FilledOrder? ==> L.SettleIn(dk.books, t) == Success(after.books))
  {
    var sub, fill := SubmissionFor(answers, branch, o), answers(o.symbol);
    t := L.Trade(|dk.orders|, branch, o.symbol, o.side, o.quantity, fill.price, fill.commission, fill.executedAt);
    assert L.RowOf(dk.books[branch].rows, o.symbol).longQuantity == in_.Held(o.symbol);
    E.OutcomeExactly(dk, sub.req, sub.reply);
    assert E.Clamp(dk.books, sub.req) == sub.req;
    assert E.TradeFor(sub.req, sub.reply, |dk.orders|) == t;
    if o.side == L.Buy {
      assert E.Cost(sub.req, sub.reply) == Outlay(answers, o);
    }
  }

  /** The desk follows a filled order. */
  lemma OrderMoves(in_: Inputs, answers: Answers, cash: real, dk: E.Desk, branch: string,
                   os: seq<RebalanceOrder>, o: RebalanceOrder, t: L.Trade, after: E.Desk)
    requires Executed(in_, answers, cash, dk, branch, os) && Executable(in_, o) && answers(o.symbol).Fill?
    requires t.branch == branch && t.symbol == o.symbol && t.side == o.side && t.quantity == o.quantity
    requires t.price == answers(o.symbol).price && t.commission == answers(o.symbol).commission
    requires L.SettleIn(dk.books, t) == Success(after.books)
    ensures Executed(in_, answers, cash, after, branch, os + [o])
  {
    OutlayIsCost(answers, o, t);
    SpentAppend(answers, os, o, o.symbol);
    L.SettleFlows(dk.books[branch], t, o.symbol);
    forall s ensures L.RowOf(after.books[branch].rows, s).longQuantity == in_.Held(s) + NetShares(os + [o], s) {
      L.SettleFlows(dk.books[branch], t, s);
      SpentAppend(answers, os, o, s);
    }
  }

  /**
   One order: unless the broker refuses, a sell fills, and a buy exactly if what has been spent then is covered;
   the desk follows.
   */
  lemma OrderExecutes(in_: Inputs, answers: Answers, cash: real, dk: E.Desk, branch: string,
                      os: seq<RebalanceOrder>, o: RebalanceOrder)
    requires Executable(in_, o) && Executed(in_, answers, cash, dk, branch, os) && NetShares(os, o.symbol) == 0.0
    ensures var sub := SubmissionFor(answers, branch, o);
      var (after, response) := E.Submit(dk, sub.req, sub.reply);
      && (response.FilledOrder? <==>
            answers(o.symbol).Fill? && (o.side == L.Sell || Spent(answers, os + [o]) <= cash + E.CASH_TOLERANCE))
      && (response.FilledOrder? ==> Executed(in_, answers, cash, after, branch, os + [o]))
  {
    var sub := SubmissionFor(answers, branch, o);
    if answers(o.symbol).Fill? {
      var t := OrderTrades(in_, answers, cash, dk, branch, os, o);
      SpentAppend(answers, os, o, o.symbol);
      var r := E.Submit(dk, sub.req, sub.reply);
      if r.1.FilledOrder? {
        OrderMoves(in_, answers, cash, dk, branch, os, o, t, r.0);
      }
    } else {
      E.OutcomeExactly(dk, sub.req, sub.reply);
    }
  }

  // ----- the whole list -----------------------------------------------------------------

  /** At every buy, what has been spent by then is covered. */
  ghost predicate Covered(answers: Answers, cash: real, os: seq<RebalanceOrder>) {
    forall k :: 0 <= k < |os| && os[k].side == L.Buy ==> Spent(answers, os[..k + 1]) <= cash + E.CASH_TOLERANCE
  }

  ghost predicate AllExecutable(in_: Inputs, os: seq<RebalanceOrder>) {
    forall k :: 0 <= k < |os| ==> Executable(in_, os[k])
  }

  lemma CoveredAppend(answers: Answers, cash: real, os: seq<RebalanceOrder>, o: RebalanceOrder)
    ensures Covered(answers, cash, os + [o]) <==>
      Covered(answers, cash, os) && (o.side == L.Buy ==> Spent(answers, os + [o]) <= cash + E.CASH_TOLERANCE)
  {
    var all, limit := os + [o], cash + E.CASH_TOLERANCE;
    assert all[..|os| + 1] == all && all[|os|] == o;
    forall k | 0 <= k < |os| ensures all[..k + 1] == os[..k + 1] && all[k] == os[k] {
    }
    if Covered(answers, cash, os) && (o.side == L.Buy ==> Spent(answers, all) <= limit) {
      forall k | 0 <= k < |all| && all[k].side == L.Buy ensures Spent(answers, all[..k + 1]) <= limit {
        assert k < |os| ==> Spent(answers, os[..k + 1]) <= limit;
      }
    }
    if Covered(answers, cash, all) {
      forall k | 0 <= k < |os| && os[k].side == L.Buy ensures Spent(answers, os[..k + 1]) <= limit {
        assert Spent(answers, all[..k + 1]) <= limit;
      }
      assert o.side == L.Buy ==> Spent(answers, all[..|os| + 1]) <= limit;
    }
  }

  lemma RefusedAppend(answers: Answers, os: seq<RebalanceOrder>, o: RebalanceOrder)
    ensures NoneRefused(answers, os + [o]) <==> NoneRefused(answers, os) && answers(o.symbol).Fill?
  {
    var all := os + [o];
    if NoneRefused(answers, all) {
      assert all[|os|] == o;
      forall k | 0 <= k < |os| ensures answers(os[k].symbol).Fill? {
        assert all[k] == os[k];
      }
    }
  }

  /** One more submission of a run. */
  lemma FillsAppend(d: E.Desk, subs: seq<E.Submission>, sub: E.Submission)
    ensures var (after, response) := E.Submit(E.Run(d, subs), sub.req, sub.reply);
      E.Run(d, subs + [sub]) == after && (Fills(d, subs + [sub]) <==> Fills(d, subs) && response.FilledOrder?)
  {
    assert (subs + [sub])[..|subs|] == subs;
  }

  lemma SubmissionsAppend(answers: Answers, branch: string, os: seq<RebalanceOrder>, o: RebalanceOrder)
    ensures Submissions(answers, branch, os + [o])
         == Submissions(answers, branch, os) + [SubmissionFor(answers, branch, o)]
  {
  }

  /** All of the list fills exactly if no order is refused and every buy is covered; then the desk has followed it. */
  ghost predicate FillsAsCovered(in_: Inputs, answers: Answers, d: E.Desk, branch: string, os: seq<RebalanceOrder>)
    requires branch in d.books
  {
    var cash, subs := d.books[branch].summary.cash, Submissions(answers, branch, os);
    && (Fills(d, subs) <==> NoneRefused(answers, os) && Covered(answers, cash, os))
    && (Fills(d, subs) ==> Executed(in_, answers, cash, E.Run(d, subs), branch, os))
  }

  lemma OneMore(in_: Inputs, answers: Answers, d: E.Desk, branch: string, os: seq<RebalanceOrder>, o: RebalanceOrder)
    requires branch in d.books && Executable(in_, o) && NetShares(os, o.symbol) == 0.0
    requires FillsAsCovered(in_, answers, d, branch, os)
    ensures FillsAsCovered(in_, answers, d, branch, os + [o])
  {
    var cash, earlier := d.books[branch].summary.cash, Submissions(answers, branch, os);
    SubmissionsAppend(answers, branch, os, o);
    FillsAppend(d, earlier, SubmissionFor(answers, branch, o));
    CoveredAppend(answers, cash, os, o);
    RefusedAppend(answers, os, o);
    if Fills(d, earlier) {
      OrderExecutes(in_, answers, cash, E.Run(d, earlier), branch, os, o);
    }
  }

  lemma {:induction false} ListExecutes(in_: Inputs, answers: Answers, d: E.Desk, branch: string,
                                        os: seq<RebalanceOrder>)
    requires AllExecutable(in_, os) && OnePerSymbol(os)
    requires branch in d.books && Executed(in_, answers, d.books[branch].summary.cash, d, branch, [])
    ensures FillsAsCovered(in_, answers, d, branch, os)
  {
    if os != [] {
      var before, o := os[..|os| - 1], os[|os| - 1];
      ListExecutes(in_, answers, d, branch, before);
      NetOfOne(before, o.symbol);
      OneMore(in_, answers, d, branch, before, o);
      assert os == before + [o];
    }
  }

  lemma BuyCosts(in_: Inputs, answers: Answers, o: RebalanceOrder)
    requires Executable(in_, o) && o.side == L.Buy && Sane(answers)
    ensures Outlay(answers, o) >= 0.0
  {
    if answers(o.symbol).Fill? {
      TimesOrder(answers(o.symbol).price, 0.0, o.quantity);
    }
  }

  /** With the sells first, spending only grows from the first buy on. */
  lemma {:induction false} SpendingGrows(in_: Inputs, answers: Answers, os: seq<RebalanceOrder>, k: nat)
    requires Sane(answers) && AllExecutable(in_, os) && SortedBy(os, SellsFirst) && k < |os| && os[k].side == L.Buy
    ensures Spent(answers, os[..k + 1]) <= Spent(answers, os)
    decreases |os|
  {
    if k == |os| - 1 {
      assert os[..k + 1] == os;
    } else {
      var before, last := os[..|os| - 1], os[|os| - 1];
      assert before[..k + 1] == os[..k + 1];
      SpendingGrows(in_, answers, before, k);
      assert SellsFirst(os[k], last);
      BuyCosts(in_, answers, last);
    }
  }

  ghost predicate HasBuy(os: seq<RebalanceOrder>) { exists k :: 0 <= k < |os| && os[k].side == L.Buy }

  lemma CoveredAtTheEnd(in_: Inputs, answers: Answers, cash: real, os: seq<RebalanceOrder>)
    requires Sane(answers) && AllExecutable(in_, os) && SortedBy(os, SellsFirst)
    ensures Covered(answers, cash, os) <==> !HasBuy(os) || Spent(answers, os) <= cash + E.CASH_TOLERANCE
  {
    forall k | 0 <= k < |os| && os[k].side == L.Buy
      ensures Spent(answers, os[..k + 1]) <= Spent(answers, os) && os[|os| - 1].side == L.Buy
    {
      SpendingGrows(in_, answers, os, k);
      assert k == |os| - 1 || SellsFirst(os[k], os[|os| - 1]);
    }
    assert os[..|os|] == os;
  }

  // ----- the rebalance --------------------------------------------------------------------

  lemma GeneratedExecutable(in_: Inputs, xs: seq<string>)
    requires Consistent(in_) && Enumerates(xs, in_.Symbols())
    requires forall s :: s in in_.Symbols() ==> OnShareGrid(in_.Held(s))
    ensures var os := Generated(in_, xs);
      && AllExecutable(in_, os) && OnePerSymbol(os) && SortedBy(os, SellsFirst)
      && forall k :: 0 <= k < |os| ==> os[k].symbol in xs
  {
    var os := Generated(in_, xs);
    GeneratedExactly(in_, xs, RebalanceOrder("", L.Buy, 0.0, NewPosition));
    forall k | 0 <= k < |os| ensures Executable(in_, os[k]) && os[k].symbol in xs {
      GeneratedExactly(in_, xs, os[k]);
      DecidedExecutable(in_, os[k].symbol);
    }
  }

  /** Whatever is decided, the holding stays a non-negative multiple of the share grid. */
  lemma HoldingStaysOnGrid(in_: Inputs, s: string)
    requires Consistent(in_) && s in in_.Symbols() && OnShareGrid(in_.Held(s))
    ensures OnShareGrid(in_.Held(s) + DecidedShares(in_, s)) && in_.Held(s) + DecidedShares(in_, s) >= 0.0
  {
    if Decide(in_, s).Order? {
      var o := Decide(in_, s).order;
      DecidedExecutable(in_, s);
      GridAdds(o.quantity, o.quantity);
      GridAdds(in_.Held(s), Signed(o));
    }
  }

  /** The holding has its decided number of shares, a non-negative multiple of the share grid. */
  ghost predicate EndsAsDecided(in_: Inputs, dk: E.Desk, branch: string, s: string) {
    && branch in dk.books
    && L.RowOf(dk.books[branch].rows, s).longQuantity == in_.Held(s) + DecidedShares(in_, s)
    && OnShareGrid(in_.Held(s) + DecidedShares(in_, s)) && in_.Held(s) + DecidedShares(in_, s) >= 0.0
  }

  lemma HoldingEnds(in_: Inputs, xs: seq<string>, answers: Answers, cash: real, dk: E.Desk, branch: string, s: string)
    requires Consistent(in_) && Enumerates(xs, in_.Symbols()) && s in in_.Symbols() && OnShareGrid(in_.Held(s))
    requires Executed(in_, answers, cash, dk, branch, Generated(in_, xs))
    ensures EndsAsDecided(in_, dk, branch, s)
  {
    NetIsDecided(in_, xs, s);
    HoldingStaysOnGrid(in_, s);
  }

  /**
   Running the generated orders through the desk, for any fill prices and commissions and from holdings on the share
   grid: every order is filled if and only if the broker refuses none and either there is no buy or all that is
   spent, less all proceeds, is within cash (to the cash tolerance). Then cash goes down by exactly that and every
   holding ends at its decided number of shares, on the share grid again.
   */
  lemma RebalanceFillsExactly(in_: Inputs, xs: seq<string>, d: E.Desk, branch: string, answers: Answers)
    requires Consistent(in_) && Enumerates(xs, in_.Symbols()) && Lists(in_, d, branch) && Sane(answers)
    ensures var os, cash := Generated(in_, xs), d.books[branch].summary.cash;
      var subs := Submissions(answers, branch, os);
      var after := E.Run(d, subs);
      && (Fills(d, subs) <==>
            NoneRefused(answers, os) && (!HasBuy(os) || Spent(answers, os) <= cash + E.CASH_TOLERANCE))
      && (Fills(d, subs) ==>
            && branch in after.books && after.books[branch].summary.cash == cash - Spent(answers, os)
            && forall s :: s in in_.Symbols() ==> EndsAsDecided(in_, after, branch, s))
  {
    var os, cash := Generated(in_, xs), d.books[branch].summary.cash;
    var subs := Submissions(answers, branch, os);
    GeneratedExecutable(in_, xs);
    ListExecutes(in_, answers, d, branch, os);
    CoveredAtTheEnd(in_, answers, cash, os);
    if Fills(d, subs) {
      forall s | s in in_.Symbols() ensures EndsAsDecided(in_, E.Run(d, subs), branch, s) {
        HoldingEnds(in_, xs, answers, cash, E.Run(d, subs), branch, s);
      }
    }
  }

  // ----- fills at the decision prices ------------------------------------------------------

  /** Every order filled at the price the decision was made at, without commission. */
  function AtDecision(in_: Inputs, at: int): Answers { s => E.Fill(in_.PriceOf(s), 0.0, at) }

  lemma ValueGrows(in_: Inputs, s: string, shares: real, o: RebalanceOrder, at: int)
    requires in_.Priced(o.symbol)
    ensures ValueOf(in_, s, shares + (if o.symbol == s then Signed(o) else 0.0))
         == ValueOf(in_, s, shares) + (if o.symbol == s then Outlay(AtDecision(in_, at), o) else 0.0)
  {
    if o.symbol == s {
      TimesDistributes(in_.prices[s], in_.Held(s) + shares, Signed(o));
      assert in_.Held(s) + (shares + Signed(o)) == in_.Held(s) + shares + Signed(o);
    }
  }

  lemma {:induction false} InvestedAppend(in_: Inputs, os: seq<RebalanceOrder>, o: RebalanceOrder, xs: seq<string>,
                                          at: int)
    requires in_.Priced(o.symbol) && Distinct(xs)
    ensures Invested(in_, os + [o], xs)
         == Invested(in_, os, xs) + (if o.symbol in xs then Outlay(AtDecision(in_, at), o) else 0.0)
    decreases |xs|
  {
    if xs != [] {
      var s := xs[|xs| - 1];
      InvestedAppend(in_, os, o, xs[..|xs| - 1], at);
      SpentAppend(AtDecision(in_, at), os, o, s);
      ValueGrows(in_, s, NetShares(os, s), o, at);
      assert xs == xs[..|xs| - 1] + [s];
    }
  }

  /** At the decision prices, spending is the change of the invested value. */
  lemma {:induction false} SpentIsInvested(in_: Inputs, os: seq<RebalanceOrder>, xs: seq<string>, at: int)
    requires AllExecutable(in_, os) && Distinct(xs) && forall k :: 0 <= k < |os| ==> os[k].symbol in xs
    ensures Invested(in_, os, xs) == Invested(in_, [], xs) + Spent(AtDecision(in_, at), os)
    decreases |os|
  {
    if os != [] {
      var before, o := os[..|os| - 1], os[|os| - 1];
      SpentIsInvested(in_, before, xs, at);
      InvestedAppend(in_, before, o, xs, at);
      assert os == before + [o];
    }
  }

  /** Cash and the value of the holdings make up nav. */
  ghost predicate Describes(in_: Inputs, xs: seq<string>, d: E.Desk, branch: string) {
    Lists(in_, d, branch) && d.books[branch].summary.cash + Invested(in_, [], xs) == in_.nav
  }

  /** Filled at the decision prices, all orders fill if and only if there is no buy or the result is within nav. */
  lemma DecisionPricesFillExactly(in_: Inputs, xs: seq<string>, d: E.Desk, branch: string, at: int)
    requires Consistent(in_) && Enumerates(xs, in_.Symbols()) && Describes(in_, xs, d, branch)
    ensures var os := Generated(in_, xs);
      var subs := Submissions(AtDecision(in_, at), branch, os);
      var after := E.Run(d, subs);
      && (Fills(d, subs) <==> !HasBuy(os) || Invested(in_, os, xs) <= in_.nav + E.CASH_TOLERANCE)
      && (Fills(d, subs) ==>
            branch in after.books && after.books[branch].summary.cash == in_.nav - Invested(in_, os, xs))
  {
    RebalanceFillsExactly(in_, xs, d, branch, AtDecision(in_, at));
    GeneratedExecutable(in_, xs);
    SpentIsInvested(in_, Generated(in_, xs), xs, at);
  }

  // ----- slippage, commissions and the cash buffer -------------------------------------------

  /** The value traded, buys and sells alike, at the decision prices. */
  function Turnover(in_: Inputs, os: seq<RebalanceOrder>): real {
    if os == [] then 0.0 else
      Turnover(in_, os[..|os| - 1]) + Times(in_.PriceOf(os[|os| - 1].symbol), os[|os| - 1].quantity)
  }

  /** Every fill is within a fraction `slip` of its decision price and charges at most `fee`. */
  ghost predicate WithinSlippage(in_: Inputs, answers: Answers, slip: real, fee: real) {
    forall s :: answers(s).Fill? ==>
      Abs(answers(s).price - in_.PriceOf(s)) <= Times(slip, in_.PriceOf(s)) && answers(s).commission <= fee
  }

  /** One fill away from its decision price. */
  lemma SlippedCost(price: real, decision: real, q: real, slip: real)
    requires q >= 0.0 && Abs(price - decision) <= Times(slip, decision)
    ensures Times(price, q) - Times(decision, q) <= Times(slip, Times(decision, q))
    ensures Times(price, -q) - Times(decision, -q) <= Times(slip, Times(decision, q))
  {
    var off, bound := price - decision, Times(slip, decision);
    TimesOrder(q, off, bound);
    TimesOrder(q, -off, bound);
    assert q * (slip * decision) == slip * (decision * q);
  }

  lemma SlippedOutlay(in_: Inputs, answers: Answers, o: RebalanceOrder, slip: real, fee: real, at: int)
    requires Executable(in_, o) && answers(o.symbol).Fill? && WithinSlippage(in_, answers, slip, fee)
    ensures Outlay(answers, o)
      <= Outlay(AtDecision(in_, at), o) + Times(slip, Times(in_.PriceOf(o.symbol), o.quantity)) + fee
  {
    SlippedCost(answers(o.symbol).price, in_.PriceOf(o.symbol), o.quantity, slip);
  }

  /** Slippage and commissions cost at most the slippage on the turnover plus one fee per order. */
  lemma {:induction false} SlippedSpent(in_: Inputs, answers: Answers, os: seq<RebalanceOrder>, slip: real, fee: real,
                                        at: int)
    requires AllExecutable(in_, os) && NoneRefused(answers, os) && WithinSlippage(in_, answers, slip, fee)
    ensures Spent(answers, os)
      <= Spent(AtDecision(in_, at), os) + Times(slip, Turnover(in_, os)) + Times(fee, |os| as real)
  {
    if os != [] {
      var before, o := os[..|os| - 1], os[|os| - 1];
      SlippedSpent(in_, answers, before, slip, fee, at);
      SlippedOutlay(in_, answers, o, slip, fee, at);
      TimesDistributes(slip, Turnover(in_, before), Times(in_.PriceOf(o.symbol), o.quantity));
      TimesDistributes(fee, |before| as real, 1.0);
    }
  }

  /** What the buffer has to cover before any slippage: untraded names, rounding and unpriced names. */
  function Allowances(in_: Inputs, xs: seq<string>): real {
    Times(Times(in_.nav, in_.cfg.minRebalanceThreshold), UntradedHeld(in_, xs) as real)
      + Times(HALF_SHARE, PriceTotal(in_, xs)) + CarriedTotal(in_, xs)
  }

  /**
   The purpose of the cash buffer: with targets from the sizing, and fills within `slip` of the decision prices that
   charge at most `fee`, no order of the rebalance is rejected for lack of cash and cash is not overdrawn, if the
   buffer covers the allowances, the slippage on the turnover and one fee per order.
   */
  lemma BufferedRebalanceFills(in_: Inputs, xs: seq<string>, sized: seq<CompositeScore>, cap: real, buffer: real,
                               d: E.Desk, branch: string, answers: Answers, slip: real, fee: real)
    requires Consistent(in_) && Enumerates(xs, in_.Symbols()) && Describes(in_, xs, d, branch)
    requires DistinctSymbols(sized) && NonNegative(Convictions(sized)) && cap > 0.0 && 0.0 <= buffer <= 1.0
    requires TargetsOf(sized) == TargetWeights(Convictions(sized), cap, buffer) && in_.target == TargetMap(sized)
    requires Sane(answers) && NoneRefused(answers, Generated(in_, xs)) && WithinSlippage(in_, answers, slip, fee)
    requires Times(in_.nav, buffer)
      >= Allowances(in_, xs) + Times(slip, Turnover(in_, Generated(in_, xs)))
         + Times(fee, |Generated(in_, xs)| as real)
    ensures var subs := Submissions(answers, branch, Generated(in_, xs));
      Fills(d, subs) && branch in E.Run(d, subs).books && E.Run(d, subs).books[branch].summary.cash >= 0.0
  {
    var os := Generated(in_, xs);
    CashBufferSurvives(in_, xs, sized, cap, buffer);
    GeneratedExecutable(in_, xs);
    SpentIsInvested(in_, os, xs, 0);
    SlippedSpent(in_, answers, os, slip, fee, 0);
    RebalanceFillsExactly(in_, xs, d, branch, answers);
  }
}
