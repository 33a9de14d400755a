/**
 The order lifecycle: validation, the near-held SELL clamp, the broker's answer, the cash gate at the
 fill price, and the hand-over to the ledger. The broker is outside the model: its answer is a parameter.
 */
module Execution {
  import opened Prelude
  import opened Sums
  import opened Ledger

  const FULL_EXIT_QTY_TOLERANCE := 0.000001
  const CASH_TOLERANCE := 0.000001

  datatype Request = Request(branch: string, symbol: string, side: Side, quantity: real)

  /** The broker either refuses, or fills the whole requested quantity at one price. */
  datatype Reply = Fill(price: real, commission: real, executedAt: int) | Refusal

  datatype Status = Pending | Filled | Rejected

  datatype Order = Order(
    branch: string, symbol: string, side: Side, quantity: real, status: Status,
    filledQuantity: real, averageFillPrice: real, commission: real)

  datatype Reason =
    | UnknownPortfolio
    | InsufficientPosition(held: real)
    | InsufficientShortPosition(shorted: real)
    | InsufficientCash(cost: real, available: real)
    | BrokerRefused

  /** `Raised` is the exception that escapes when the ledger refuses a fill that was already logged. */
  datatype Response =
    | FilledOrder(orderId: nat)
    | RejectedOrder(orderId: nat, reason: Reason)
    | Raised(error: LedgerError)

  /** Order rows (an order's id is its position), the trade log, and the books. */
  datatype Desk = Desk(orders: seq<Order>, trades: seq<Trade>, books: Books)

  function Build(req: Request): Order {
    Order(req.branch, req.symbol, req.side, req.quantity, Pending, 0.0, 0.0, 0.0)
  }

  // ----- specification of one submission ------------------------------------------

  function Validate(books: Books, req: Request): Option<Reason> {
    if req.branch !in books then Some(UnknownPortfolio) else
      var rows := books[req.branch].rows;
      match req.side
      case Sell =>
        if req.symbol !in rows || req.quantity > rows[req.symbol].longQuantity + FULL_EXIT_QTY_TOLERANCE
        then Some(InsufficientPosition(RowOf(rows, req.symbol).longQuantity)) else None
      case Cover =>
        if req.symbol !in rows || rows[req.symbol].shortQuantity < req.quantity
        then Some(InsufficientShortPosition(RowOf(rows, req.symbol).shortQuantity)) else None
      case _ => None
  }

  function Clamp(books: Books, req: Request): Request
    requires req.branch in books
  {
    var held := RowOf(books[req.branch].rows, req.symbol).longQuantity;
    if req.side == Sell && held > 0.0 && Abs(req.quantity - held) <= FULL_EXIT_QTY_TOLERANCE
    then req.(quantity := held) else req
  }

  function TradeFor(req: Request, fill: Reply, orderId: nat): Trade
    requires fill.Fill?
  {
    Trade(orderId, req.branch, req.symbol, req.side, req.quantity, fill.price, fill.commission, fill.executedAt)
  }

  function RejectedRow(req: Request): Order { Build(req).(status := Rejected) }

  function FilledRow(req: Request, fill: Reply): Order
    requires fill.Fill?
  {
    Build(req).(status := Filled, filledQuantity := req.quantity,
                averageFillPrice := fill.price, commission := fill.commission)
  }

  function Cost(req: Request, fill: Reply): real
    requires fill.Fill?
  {
    Times(fill.price, req.quantity) + fill.commission
  }

  /** The cash gate at the exact fill price. */
  function CashGate(books: Books, req: Request, fill: Reply): Option<Reason>
    requires req.branch in books && fill.Fill?
  {
    var cost, available := Cost(req, fill), books[req.branch].summary.cash;
    if req.side == Buy && cost > available + CASH_TOLERANCE then Some(InsufficientCash(cost, available)) else None
  }

  ghost function Submit(d: Desk, req: Request, reply: Reply): (Desk, Response) {
    var id := |d.orders|;
    match Validate(d.books, req)
    case Some(why) => (d.(orders := d.orders + [RejectedRow(req)]), RejectedOrder(id, why))
    case None =>
      var req := Clamp(d.books, req);
      if reply.Refusal? then
        (d.(orders := d.orders + [RejectedRow(req)]), RejectedOrder(id, BrokerRefused))
      else if CashGate(d.books, req, reply).Some? then
        (d.(orders := d.orders + [RejectedRow(req)]),
         RejectedOrder(id, CashGate(d.books, req, reply).value))
      else
        var t := TradeFor(req, reply, id);
        var orders, trades := d.orders + [FilledRow(req, reply)], d.trades + [t];
        match SettleIn(d.books, t)
        case Success(books) => (Desk(orders, trades, books), FilledOrder(id))
        case Failure(e) => (Desk(orders, trades, d.books), Raised(e))
  }

  datatype Submission = Submission(req: Request, reply: Reply)

  ghost function Run(d: Desk, subs: seq<Submission>): Desk {
    if subs == [] then d else
      var last := subs[|subs| - 1];
      Submit(Run(d, subs[..|subs| - 1]), last.req, last.reply).0
  }

  // ----- orders and trades --------------------------------------------------------

  predicate Matches(o: Order, t: Trade) {
    && o.status == Filled && o.branch == t.branch && o.symbol == t.symbol && o.side == t.side
    && o.quantity == o.filledQuantity == t.quantity
    && o.averageFillPrice == t.price && o.commission == t.commission
  }

  ghost predicate HasTrade(trades: seq<Trade>, orderId: nat) {
    exists j :: 0 <= j < |trades| && trades[j].orderId == orderId
  }

  /** Every order is settled one way or the other, and filled orders and trades correspond one to one. */
  ghost predicate Reconciled(orders: seq<Order>, trades: seq<Trade>) {
    && (forall i :: 0 <= i < |orders| ==> orders[i].status == Filled || orders[i].status == Rejected)
    && (forall j :: 0 <= j < |trades| ==>
          trades[j].orderId < |orders| && Matches(orders[trades[j].orderId], trades[j]))
    && (forall j, k :: 0 <= j < k < |trades| ==> trades[j].orderId < trades[k].orderId)
    && (forall i :: 0 <= i < |orders| && orders[i].status == Filled ==> HasTrade(trades, i))
  }

  lemma RejectionReconciles(orders: seq<Order>, trades: seq<Trade>, o: Order)
    requires Reconciled(orders, trades) && o.status == Rejected
    ensures Reconciled(orders + [o], trades)
  {
    forall i | 0 <= i < |orders + [o]| && (orders + [o])[i].status == Filled ensures HasTrade(trades, i) {
      assert orders[i].status == Filled;
    }
  }

  lemma FillReconciles(orders: seq<Order>, trades: seq<Trade>, o: Order, t: Trade)
    requires Reconciled(orders, trades) && Matches(o, t) && t.orderId == |orders|
    ensures Reconciled(orders + [o], trades + [t])
  {
    forall i | 0 <= i < |orders + [o]| && (orders + [o])[i].status == Filled ensures HasTrade(trades + [t], i) {
      if i < |orders| {
        assert orders[i].status == Filled && HasTrade(trades, i);
        var j :| 0 <= j < |trades| && trades[j].orderId == i;
        assert (trades + [t])[j].orderId == i;
      } else {
        assert (trades + [t])[|trades|].orderId == i;
      }
    }
  }

  /** One submission appends a rejected row, or a filled row with its matching trade. */
  lemma SubmitShape(d: Desk, req: Request, reply: Reply)
    ensures var d' := Submit(d, req, reply).0;
      && |d'.orders| == |d.orders| + 1 && d'.orders == d.orders + [d'.orders[|d.orders|]]
      && var o := d'.orders[|d.orders|];
         if o.status == Rejected then d'.trades == d.trades else
           && |d'.trades| == |d.trades| + 1 && d'.trades == d.trades + [d'.trades[|d.trades|]]
           && Matches(o, d'.trades[|d.trades|]) && d'.trades[|d.trades|].orderId == |d.orders|
  {
  }

  lemma SubmitReconciles(d: Desk, req: Request, reply: Reply)
    requires Reconciled(d.orders, d.trades)
    ensures var d' := Submit(d, req, reply).0; Reconciled(d'.orders, d'.trades)
  {
    SubmitShape(d, req, reply);
    var d' := Submit(d, req, reply).0;
    if d'.orders[|d.orders|].status == Rejected {
      RejectionReconciles(d.orders, d.trades, d'.orders[|d.orders|]);
    } else {
      FillReconciles(d.orders, d.trades, d'.orders[|d.orders|], d'.trades[|d.trades|]);
    }
  }

  lemma {:induction false} RunReconciles(d: Desk, subs: seq<Submission>)
    requires Reconciled(d.orders, d.trades)
    ensures var d' := Run(d, subs); Reconciled(d'.orders, d'.trades)
  {
    if subs != [] {
      var prefix, last := subs[..|subs| - 1], subs[|subs| - 1];
      RunReconciles(d, prefix);
      SubmitReconciles(Run(d, prefix), last.req, last.reply);
    }
  }

  // ----- what a submission leaves behind -------------------------------------------------

  /** The quantity that is ordered: the held one for a SELL within 1e-6 of a positive holding, else as requested. */
  function Ordered(books: Books, req: Request): real
    requires req.branch in books
  {
    var held := RowOf(books[req.branch].rows, req.symbol).longQuantity;
    if req.side == Sell && held > 0.0 && -0.000001 <= req.quantity - held <= 0.000001 then held else req.quantity
  }

  /**
   Every submission leaves exactly one order row, which echoes the request. A filled one carries the broker's price
   and commission, and so does its trade, with the broker's time; a rejected one has nothing filled and no trade.
   */
  lemma SubmissionRecords(d: Desk, req: Request, reply: Reply)
    ensures var (d', response) := Submit(d, req, reply);
      && |d'.orders| == |d.orders| + 1 && d'.orders[..|d.orders|] == d.orders
      && var o := d'.orders[|d.orders|];
         && o.branch == req.branch && o.symbol == req.symbol && o.side == req.side
         && (response.RejectedOrder? ==>
               && response.orderId == |d.orders| && o.status == Rejected && d'.trades == d.trades
               && o.filledQuantity == o.averageFillPrice == o.commission == 0.0
               && (if response.reason.BrokerRefused? || response.reason.InsufficientCash?
                   then req.branch in d.books && o.quantity == Ordered(d.books, req)
                   else o.quantity == req.quantity))
         && (!response.RejectedOrder? ==>
               && reply.Fill? && req.branch in d.books && o.status == Filled
               && o.quantity == o.filledQuantity == Ordered(d.books, req)
               && o.averageFillPrice == reply.price && o.commission == reply.commission
               && d'.trades == d.trades + [Trade(|d.orders|, req.branch, req.symbol, req.side, o.quantity,
                                                 reply.price, reply.commission, reply.executedAt)])
         && (response.FilledOrder? ==> response.orderId == |d.orders|)
  {
  }

  /** Why a submission is rejected, reason by reason, and with which amounts. */
  lemma ReasonsExactly(d: Desk, req: Request, reply: Reply)
    ensures var response := Submit(d, req, reply).1;
      var known := req.branch in d.books;
      var p := if known then RowOf(d.books[req.branch].rows, req.symbol) else NO_POSITION;
      var listed := known && req.symbol in d.books[req.branch].rows;
      var oversold := known && req.side == Sell && (!listed || req.quantity > p.longQuantity + 0.000001);
      var overcovered := known && req.side == Cover && (!listed || req.quantity > p.shortQuantity);
      && (response == RejectedOrder(|d.orders|, UnknownPortfolio) <==> !known)
      && (response == RejectedOrder(|d.orders|, InsufficientPosition(p.longQuantity)) <==> oversold)
      && (response == RejectedOrder(|d.orders|, InsufficientShortPosition(p.shortQuantity)) <==> overcovered)
      && (response == RejectedOrder(|d.orders|, BrokerRefused) <==>
            known && !oversold && !overcovered && reply.Refusal?)
      && (response.RejectedOrder? && response.reason.InsufficientCash? <==>
            && known && req.side == Buy && reply.Fill?
            && Times(reply.price, req.quantity) + reply.commission > d.books[req.branch].summary.cash + 0.000001)
      && (response.RejectedOrder? && response.reason.InsufficientCash? ==>
            response.reason == InsufficientCash(Times(reply.price, req.quantity) + reply.commission,
                                                d.books[req.branch].summary.cash))
  {
  }

  // ----- validation against the oversell guard -------------------------------------

  /** A filled SELL that validation lets through although the long leg is empty (or negative). */
  predicate SlipsThrough(books: Books, req: Request, reply: Reply) {
    && reply.Fill? && req.side == Sell && req.branch in books && req.symbol in books[req.branch].rows
    && var held := books[req.branch].rows[req.symbol].longQuantity;
       held <= 0.0 && held < req.quantity <= held + FULL_EXIT_QTY_TOLERANCE
  }

  /** On every book and every request, the ledger's guards fire exactly in that case. */
  lemma RaisesExactly(d: Desk, req: Request, reply: Reply)
    ensures Submit(d, req, reply).1.Raised? <==> SlipsThrough(d.books, req, reply)
  {
  }

  /** Some submission of the run slips through on the desk it meets. */
  ghost predicate RunRaises(d: Desk, subs: seq<Submission>) {
    subs != [] &&
    var last := subs[|subs| - 1];
    RunRaises(d, subs[..|subs| - 1]) || SlipsThrough(Run(d, subs[..|subs| - 1]).books, last.req, last.reply)
  }

  // ----- the books are the fold of the trade log -----------------------------------

  ghost function FoldAll(books: Books, ts: seq<Trade>): Result<Books, LedgerError> {
    if ts == [] then Success(books) else
      match FoldAll(books, ts[..|ts| - 1])
      case Failure(e) => Failure(e)
      case Success(bs) => SettleIn(bs, ts[|ts| - 1])
  }

  lemma FoldAllAppend(books: Books, ts: seq<Trade>, t: Trade)
    ensures FoldAll(books, ts + [t])
         == (match FoldAll(books, ts) case Failure(e) => Failure(e) case Success(bs) => SettleIn(bs, t))
  {
    assert (ts + [t])[..|ts|] == ts;
  }

  /** One submission appends at most one trade, and settles it or raises. */
  lemma SubmitLogs(d: Desk, req: Request, reply: Reply)
    ensures var (d', response) := Submit(d, req, reply);
      if d'.trades == d.trades then d'.books == d.books && !response.Raised? else
        && d'.trades == d.trades + [d'.trades[|d.trades|]]
        && var settled := SettleIn(d.books, d'.trades[|d.trades|]);
           if response.Raised? then settled.Failure? else settled == Success(d'.books)
  {
  }

  /**
   After any run from an empty trade log, the trade log folds to exactly the stored books if no submission
   raised, and does not fold at all if one did: a refused fill stays in the log without touching the books.
   */
  lemma {:induction false} BooksAreTheFoldExactly(books: Books, orders: seq<Order>, subs: seq<Submission>)
    ensures var d := Run(Desk(orders, [], books), subs);
      if RunRaises(Desk(orders, [], books), subs)
      then FoldAll(books, d.trades).Failure?
      else FoldAll(books, d.trades) == Success(d.books)
  {
    if subs != [] {
      var prefix, last := subs[..|subs| - 1], subs[|subs| - 1];
      BooksAreTheFoldExactly(books, orders, prefix);
      var d := Run(Desk(orders, [], books), prefix);
      var d' := Submit(d, last.req, last.reply).0;
      SubmitLogs(d, last.req, last.reply);
      RaisesExactly(d, last.req, last.reply);
      if d'.trades != d.trades {
        FoldAllAppend(books, d.trades, d'.trades[|d.trades|]);
      }
    }
  }

  function OfBranch(ts: seq<Trade>, branch: string): seq<Trade> {
    if ts == [] then [] else
      OfBranch(ts[..|ts| - 1], branch) + (if ts[|ts| - 1].branch == branch then [ts[|ts| - 1]] else [])
  }

  lemma SettleInBranch(books: Books, t: Trade, branch: string)
    requires branch in books && SettleIn(books, t).Success?
    ensures SettleIn(books, t).value.Keys == books.Keys
    ensures if t.branch == branch then Settle(books[branch], t) == Success(SettleIn(books, t).value[branch])
            else SettleIn(books, t).value[branch] == books[branch]
  {
  }

  /** Branches do not interfere: each book is the fold of its own branch's trades. */
  lemma {:induction false} FoldAllByBranch(books: Books, ts: seq<Trade>, branch: string)
    requires branch in books && FoldAll(books, ts).Success?
    ensures FoldAll(books, ts).value.Keys == books.Keys
    ensures Fold(books[branch], OfBranch(ts, branch)) == Success(FoldAll(books, ts).value[branch])
  {
    if ts != [] {
      var prefix, t := ts[..|ts| - 1], ts[|ts| - 1];
      FoldAllByBranch(books, prefix, branch);
      FoldAppend(books[branch], OfBranch(prefix, branch), t);
      assert OfBranch(prefix, branch) + [] == OfBranch(prefix, branch);
      SettleInBranch(FoldAll(books, prefix).value, t, branch);
    }
  }

  /** A rejected submission leaves trades and books untouched. */
  lemma RejectionLeavesNoTrace(d: Desk, req: Request, reply: Reply)
    requires Submit(d, req, reply).1.RejectedOrder?
    ensures var d' := Submit(d, req, reply).0;
      && d'.trades == d.trades && d'.books == d.books
      && d'.orders[..|d.orders|] == d.orders && |d'.orders| == |d.orders| + 1
  {
  }

  // ----- reachable cases -------------------------------------------------------------

  lemma ShortFills(d: Desk, sub: Submission)
    requires d.trades == [] && d.books == map["b" := NewBook(0.0, 0.0)]
    requires sub == Submission(Request("b", "A", Short, 10.0), Fill(1.0, 0.0, 0))
    ensures var d' := Submit(d, sub.req, sub.reply).0;
      && |d'.trades| == 1 && "b" in d'.books && "A" in d'.books["b"].rows
      && d'.books["b"].rows["A"].longQuantity == 0.0
  {
    var t := Trade(|d.orders|, "b", "A", Short, 10.0, 1.0, 0.0, 0);
    assert TradeFor(sub.req, sub.reply, |d.orders|) == t;
    SettleFlows(d.books["b"], t, "A");
  }

  lemma RunTwo(d: Desk, first: Submission, second: Submission)
    ensures Run(d, [first]) == Submit(d, first.req, first.reply).0
    ensures Run(d, [first, second]) == Submit(Run(d, [first]), second.req, second.reply).0
    ensures SlipsThrough(Run(d, [first]).books, second.req, second.reply) ==> RunRaises(d, [first, second])
  {
    assert [first, second][..1] == [first] && [first][..0] == [];
  }

  /** The case is reachable: short ten shares, then sell a tenth of the tolerance. */
  lemma OversellReachesTheLedger()
    ensures var books := map["b" := NewBook(0.0, 0.0)];
      var subs := [Submission(Request("b", "A", Short, 10.0), Fill(1.0, 0.0, 0)),
                   Submission(Request("b", "A", Sell, 0.0000001), Fill(1.0, 0.0, 1))];
      && RunRaises(Desk([], [], books), subs)
      && |Run(Desk([], [], books), subs).trades| == 2
      && FoldAll(books, Run(Desk([], [], books), subs).trades).Failure?
  {
    var books := map["b" := NewBook(0.0, 0.0)];
    var short := Submission(Request("b", "A", Short, 10.0), Fill(1.0, 0.0, 0));
    var sell := Submission(Request("b", "A", Sell, 0.0000001), Fill(1.0, 0.0, 1));
    var d := Desk([], [], books);
    ShortFills(d, short);
    RunTwo(d, short, sell);
    var d1 := Run(d, [short]);
    RaisesExactly(d1, sell.req, sell.reply);
    SubmitLogs(d1, sell.req, sell.reply);
    BooksAreTheFoldExactly(books, [], [short, sell]);
  }

  const TEN_SHARES := Position(10.0, 100.0, 0.0, 0.0, 0.0, 0.0, 0.0)

  lemma HeldAfterBuy(b: Book)
    requires b.rows == map[]
    ensures var settled := Settle(b, Trade(0, "b", "A", Buy, 10.0, 10.0, 0.0, 0));
      settled.Success? && settled.value.rows == map["A" := TEN_SHARES]
      && settled.value.summary.cash == b.summary.cash - 100.0
  {
    var t := Trade(0, "b", "A", Buy, 10.0, 10.0, 0.0, 0);
    assert Settle(b, t).value.rows == Store(b.rows, "A", TEN_SHARES);
  }

  lemma HeldKeepsValue(b: Book)
    requires b.rows == map[]
    ensures var settled := Settle(b, Trade(0, "b", "A", Buy, 10.0, 10.0, 0.0, 0));
      settled.Success? && Sound(settled.value) && Conserved(settled.value) == Conserved(b)
  {
    SettleSoundExact(b, Trade(0, "b", "A", Buy, 10.0, 10.0, 0.0, 0));
  }

  lemma DroppedByEmptying(held: Book)
    requires held.rows == map["A" := TEN_SHARES]
    ensures var settled := Settle(held, Trade(1, "b", "A", Buy, -10.0, 1.0, 0.0, 1));
      settled.Success? && settled.value.rows == map[] && Conserved(settled.value) == Conserved(held) - 90.0
  {
    var t := Trade(1, "b", "A", Buy, -10.0, 1.0, 0.0, 1);
    SettleConserves(held, t);
    assert Settle(held, t).value.rows == held.rows - {"A"};
  }

  /** A buy of a negative quantity is filled, and one that empties its leg takes the basis left on the row with it. */
  lemma EmptyingBuyLosesValue(d: Desk, b: Book)
    requires d.books == map["b" := b] && b.rows == map[] && b.summary.cash >= 100.0 && d.orders == []
    ensures var held := Submit(d, Request("b", "A", Buy, 10.0), Fill(10.0, 0.0, 0)).0;
      var (after, response) := Submit(held, Request("b", "A", Buy, -10.0), Fill(1.0, 0.0, 1));
      && "b" in held.books && Sound(held.books["b"]) && Conserved(held.books["b"]) == Conserved(b)
      && response.FilledOrder?
      && "b" in after.books && after.books["b"].rows == map[] && Conserved(after.books["b"]) == Conserved(b) - 90.0
  {
    HeldAfterBuy(b);
    HeldKeepsValue(b);
    var held := Submit(d, Request("b", "A", Buy, 10.0), Fill(10.0, 0.0, 0)).0;
    assert |held.orders| == 1;
    DroppedByEmptying(held.books["b"]);
  }

  /** What it takes for an order to be filled, in terms of the stored book and the broker's answer. */
  predicate Fillable(books: Books, req: Request, reply: Reply) {
    && reply.Fill? && req.branch in books
    && var b := books[req.branch];
       var p := RowOf(b.rows, req.symbol);
       match req.side
       case Buy => Cost(req, reply) <= b.summary.cash + CASH_TOLERANCE
       case Sell =>
         && req.symbol in b.rows && req.quantity <= p.longQuantity + FULL_EXIT_QTY_TOLERANCE
         && (p.longQuantity <= 0.0 ==> req.quantity <= p.longQuantity)
       case Short => true
       case Cover => req.symbol in b.rows && req.quantity <= p.shortQuantity
  }

  /** Every submission ends in one of three ways, and which one is decided by the state before it. */
  lemma OutcomeExactly(d: Desk, req: Request, reply: Reply)
    ensures var response := Submit(d, req, reply).1;
      && (response.FilledOrder? <==> Fillable(d.books, req, reply))
      && (response.Raised? <==> SlipsThrough(d.books, req, reply))
      && (response.RejectedOrder? <==> !Fillable(d.books, req, reply) && !SlipsThrough(d.books, req, reply))
  {
    RaisesExactly(d, req, reply);
  }

  /** Books without short legs whose rows all hold a positive long quantity. */
  ghost predicate LongOnly(books: Books) {
    forall b, s :: b in books && s in books[b].rows ==>
      books[b].rows[s].longQuantity > 0.0 && books[b].rows[s].shortQuantity == 0.0
  }

  predicate LongSubmission(sub: Submission) {
    sub.req.side == Sell || (sub.req.side == Buy && sub.req.quantity >= 0.0)
  }

  lemma SubmitLongOnly(d: Desk, sub: Submission)
    requires LongOnly(d.books) && LongSubmission(sub)
    ensures LongOnly(Submit(d, sub.req, sub.reply).0.books)
    ensures !Submit(d, sub.req, sub.reply).1.Raised?
  {
    RaisesExactly(d, sub.req, sub.reply);
    var r := Submit(d, sub.req, sub.reply);
    if r.1.FilledOrder? {
      var branch, symbol := sub.req.branch, sub.req.symbol;
      var b, t := d.books[branch], r.0.trades[|d.trades|];
      var x := Post(RowOf(b.rows, symbol), t, b.summary.marginRequirement).value;
      assert r.0.books == d.books[branch := Enter(b, symbol, x)];
      assert Enter(b, symbol, x).rows == Store(b.rows, symbol, x.row);
    }
  }

  /** From long-only books, no run of buys and sells ever reaches the oversell error. */
  lemma {:induction false} LongRunsNeverRaise(d: Desk, subs: seq<Submission>)
    requires LongOnly(d.books)
    requires forall i :: 0 <= i < |subs| ==> LongSubmission(subs[i])
    ensures LongOnly(Run(d, subs).books) && !RunRaises(d, subs)
  {
    if subs != [] {
      LongRunsNeverRaise(d, subs[..|subs| - 1]);
      SubmitLongOnly(Run(d, subs[..|subs| - 1]), subs[|subs| - 1]);
    }
  }

  /** A filled SELL within the tolerance of a held quantity closes the leg; the row goes unless it is short too. */
  lemma NearHeldSellClosesThePosition(d: Desk, req: Request, fill: Reply)
    requires req.side == Sell && fill.Fill? && req.branch in d.books && req.symbol in d.books[req.branch].rows
    requires var held := d.books[req.branch].rows[req.symbol].longQuantity;
      held > 0.0 && Abs(req.quantity - held) <= FULL_EXIT_QTY_TOLERANCE
    ensures var (d', response) := Submit(d, req, fill);
      var before, rows := d.books[req.branch].rows[req.symbol], d'.books[req.branch].rows;
      && response == FilledOrder(|d.orders|)
      && d'.trades[|d.trades|].quantity == d'.orders[|d.orders|].quantity == before.longQuantity
      && RowOf(rows, req.symbol).longQuantity == 0.0
      && (req.symbol in rows <==> before.shortQuantity != 0.0)
  {
    RaisesExactly(d, req, fill);
  }

  // ----- the cash floor -----------------------------------------------------------

  ghost predicate CashFloor(books: Books) {
    forall b :: b in books ==> books[b].summary.cash >= -CASH_TOLERANCE
  }

  /** Anything but COVER; a SELL or SHORT fill must bring in at least its commission. */
  predicate Funded(sub: Submission, quantity: real) {
    && sub.req.side != Cover
    && (sub.req.side != Buy && sub.reply.Fill? ==> sub.reply.commission <= Times(sub.reply.price, quantity))
  }

  /** The quantity a submission would trade, after the clamp. */
  function TradedQuantity(books: Books, req: Request): real {
    if req.branch in books then Clamp(books, req).quantity else req.quantity
  }

  /** A fill that passed the gate, or brings in at least its commission. */
  predicate KeepsFloor(t: Trade, cash: real) {
    t.side != Cover && if t.side == Buy then TradeCost(t) <= cash + CASH_TOLERANCE else TradeProceeds(t) >= 0.0
  }

  lemma FillKeepsFloor(books: Books, t: Trade)
    requires CashFloor(books) && SettleIn(books, t).Success? && KeepsFloor(t, books[t.branch].summary.cash)
    ensures CashFloor(SettleIn(books, t).value)
  {
    SettleFlows(books[t.branch], t, t.symbol);
  }

  /** The trade behind a filled order. */
  lemma FilledTrade(d: Desk, req: Request, reply: Reply) returns (t: Trade)
    requires Submit(d, req, reply).1.FilledOrder?
    ensures reply.Fill? && req.branch in d.books && t == TradeFor(Clamp(d.books, req), reply, |d.orders|)
    ensures SettleIn(d.books, t) == Success(Submit(d, req, reply).0.books)
    ensures CashGate(d.books, Clamp(d.books, req), reply) == None
  {
    t := TradeFor(Clamp(d.books, req), reply, |d.orders|);
  }

  /** What the gate and the funding give for that trade. */
  lemma FundedTrade(books: Books, sub: Submission, id: nat)
    requires sub.reply.Fill? && sub.req.branch in books && Funded(sub, Clamp(books, sub.req).quantity)
    requires CashGate(books, Clamp(books, sub.req), sub.reply) == None
    ensures KeepsFloor(TradeFor(Clamp(books, sub.req), sub.reply, id), books[sub.req.branch].summary.cash)
  {
    var t := TradeFor(Clamp(books, sub.req), sub.reply, id);
    assert TradeCost(t) == Cost(Clamp(books, sub.req), sub.reply);
  }

  lemma SubmitKeepsCashFloor(d: Desk, sub: Submission)
    requires CashFloor(d.books) && Funded(sub, TradedQuantity(d.books, sub.req))
    ensures CashFloor(Submit(d, sub.req, sub.reply).0.books)
  {
    var r := Submit(d, sub.req, sub.reply);
    if r.1.FilledOrder? {
      var t := FilledTrade(d, sub.req, sub.reply);
      FundedTrade(d.books, sub, |d.orders|);
      FillKeepsFloor(d.books, t);
    } else {
      assert r.0.books == d.books;
    }
  }

  ghost predicate RunFunded(d: Desk, subs: seq<Submission>) {
    subs == [] ||
    (var prefix, last := subs[..|subs| - 1], subs[|subs| - 1];
     RunFunded(d, prefix) && Funded(last, TradedQuantity(Run(d, prefix).books, last.req)))
  }

  /** The gate at the fill price keeps every branch's cash at or above minus the tolerance, in every state. */
  lemma {:induction false} CashNeverOverdrawn(d: Desk, subs: seq<Submission>)
    requires CashFloor(d.books) && RunFunded(d, subs)
    ensures CashFloor(Run(d, subs).books)
  {
    if subs != [] {
      CashNeverOverdrawn(d, subs[..|subs| - 1]);
      SubmitKeepsCashFloor(Run(d, subs[..|subs| - 1]), subs[|subs| - 1]);
    }
  }

  /** A BUY is gated on exactly the cost the ledger debits. */
  lemma BuyFillsExactlyWhenAffordable(d: Desk, req: Request, fill: Reply)
    requires req.side == Buy && fill.Fill? && req.branch in d.books
    ensures var (d', response) := Submit(d, req, fill);
      var cost := Cost(req, fill);
      var cash := d.books[req.branch].summary.cash;
      && (response.FilledOrder? <==> cost <= cash + CASH_TOLERANCE)
      && d'.books[req.branch].summary.cash == if response.FilledOrder? then cash - cost else cash
  {
    if Submit(d, req, fill).1.FilledOrder? {
      SettleFlows(d.books[req.branch], TradeFor(req, fill, |d.orders|), req.symbol);
    }
  }

  // ----- the service --------------------------------------------------------------

  class TradeExecutionService {
    var orders: seq<Order>
    var trades: seq<Trade>
    const portfolio: PortfolioService

    constructor (portfolio: PortfolioService)
      ensures orders == [] && trades == [] && this.portfolio == portfolio
    {
      orders, trades := [], [];
      this.portfolio := portfolio;
    }

    ghost function State(): Desk
      reads this, portfolio
    {
      Desk(orders, trades, portfolio.books)
    }

    /** Writes the changed row of the order created last. */
    method UpdateOrder(id: nat, order: Order)
      requires |orders| == id + 1
      modifies this`orders
      ensures orders == old(orders)[..id] + [order]
    {
      orders := orders[id := order];
    }

    /** Persists the order as created and then rejected. */
    method Reject(req: Request, reason: Reason) returns (response: Response)
      modifies this`orders
      ensures orders == old(orders) + [RejectedRow(req)] && response == RejectedOrder(|old(orders)|, reason)
    {
      var id := |orders|;
      orders := orders + [Build(req)];
      UpdateOrder(id, orders[id].(status := Rejected));
      response := RejectedOrder(id, reason);
    }

    method ValidateOrder(req: Request) returns (error: Option<Reason>)
      ensures error == Validate(portfolio.books, req)
    {
      if req.branch !in portfolio.books {
        return Some(UnknownPortfolio);
      }
      var rows := portfolio.books[req.branch].rows;
      if req.side == Sell {
        var held := if req.symbol in rows then rows[req.symbol].longQuantity else 0.0;
        if req.symbol !in rows || req.quantity > held + FULL_EXIT_QTY_TOLERANCE {
          return Some(InsufficientPosition(held));
        }
      } else if req.side == Cover {
        if req.symbol !in rows || rows[req.symbol].shortQuantity < req.quantity {
          return Some(InsufficientShortPosition(if req.symbol in rows then rows[req.symbol].shortQuantity else 0.0));
        }
      }
      return None;
    }

    /** The cash check at the exact fill price. */
    method GateOnCash(req: Request, fill: Reply) returns (refusal: Option<Reason>)
      requires req.branch in portfolio.books && fill.Fill?
      ensures refusal == CashGate(portfolio.books, req, fill)
    {
      refusal := None;
      if req.side == Buy {
        var cost := Cost(req, fill);
        var available := portfolio.books[req.branch].summary.cash;
        if cost > available + CASH_TOLERANCE {
          refusal := Some(InsufficientCash(cost, available));
        }
      }
    }

    /** The whole lifecycle of one order; `reply` is what the broker answers to the clamped request. */
    method SubmitOrder(request: Request, reply: Reply) returns (response: Response)
      modifies this, portfolio
      ensures State() == Submit(old(State()), request, reply).0
      ensures response == Submit(old(State()), request, reply).1
    {
      var req := request;
      var invalid := ValidateOrder(req);
      if invalid.Some? {
        response := Reject(req, invalid.value);
        return;
      }
      var books := portfolio.books;
      if req.side == Sell && req.symbol in books[req.branch].rows {
        var held := books[req.branch].rows[req.symbol].longQuantity;
        if held > 0.0 && Abs(req.quantity - held) <= FULL_EXIT_QTY_TOLERANCE && req.quantity != held {
          req := req.(quantity := held);
        }
      }
      assert req == Clamp(books, request);
      var id := |orders|;
      orders := orders + [Build(req)];
      if reply.Refusal? {
        UpdateOrder(id, orders[id].(status := Rejected));
        return RejectedOrder(id, BrokerRefused);
      }
      var refusal := GateOnCash(req, reply);
      if refusal.Some? {
        UpdateOrder(id, orders[id].(status := Rejected));
        return RejectedOrder(id, refusal.value);
      }
      var trade := Trade(id, req.branch, req.symbol, req.side, req.quantity,
                         reply.price, reply.commission, reply.executedAt);
      UpdateOrder(id, orders[id].(status := Filled, filledQuantity := req.quantity,
                                  averageFillPrice := trade.price, commission := trade.commission));
      trades := trades + [trade];
      var error := portfolio.HandleTradeExecuted(trade);
      response := if error.Some? then Raised(error.value) else FilledOrder(id);
    }
  }
}
