/**
 The portfolio ledger: one book (cash, aggregates, position rows) per branch, and the
 bookkeeping done after every fill. `Settle` is the specification of one trade; the class
 `PortfolioService` carries it out step by step on its dictionary of books.
 */
module Ledger {
  import opened Prelude
  import opened Sorting
  import opened Sums

  datatype Side = Buy | Sell | Short | Cover

  datatype Trade = Trade(
    orderId: nat, branch: string, symbol: string, side: Side,
    quantity: real, price: real, commission: real, executedAt: int)

  datatype Position = Position(
    longQuantity: real, longCostBasis: real,
    shortQuantity: real, shortCostBasis: real, shortMarginUsed: real,
    realizedPnlLong: real, realizedPnlShort: real)

  const NO_POSITION := Position(0.0, 0.0, 0.0, 0.0, 0.0, 0.0, 0.0)

  datatype Summary = Summary(
    cash: real, marginRequirement: real, marginUsed: real, nav: real,
    totalLongExposure: real, totalShortExposure: real,
    unrealizedPnl: real, realizedPnl: real)

  datatype Book = Book(summary: Summary, rows: map<string, Position>)

  type Books = map<string, Book>

  datatype LedgerError = NoPortfolio | Oversell(held: real) | Overcover(shorted: real)

  // ----- specification of one trade ------------------------------------------------

  function TradeCost(t: Trade): real { t.price * t.quantity + t.commission }

  function TradeProceeds(t: Trade): real { t.price * t.quantity - t.commission }

  function RowOf(rows: map<string, Position>, symbol: string): Position {
    GetOr(rows, symbol, NO_POSITION)
  }

  predicate Flat(p: Position) {
    p.longQuantity == 0.0 && p.shortQuantity == 0.0
  }

  function Average(basis: real, quantity: real): real {
    if quantity > 0.0 then basis / quantity else 0.0
  }

  function AverageCost(p: Position): real { Average(p.longCostBasis, p.longQuantity) }

  function AverageShortPrice(p: Position): real { Average(p.shortCostBasis, p.shortQuantity) }

  /** What one trade does to its row, to cash and to lifetime realized P&L. */
  datatype Posting = Posting(row: Position, cashDelta: real, realizedDelta: real)

  /** Selling at an average cost. */
  function SoldAt(p: Position, t: Trade, average: real): Posting {
    var realized := Times(t.price - average, t.quantity) - t.commission;
    Posting(
      p.(longQuantity := p.longQuantity - t.quantity,
         longCostBasis := p.longCostBasis - Times(average, t.quantity),
         realizedPnlLong := p.realizedPnlLong + realized),
      TradeProceeds(t), realized)
  }

  /** Covering at an average short price. */
  function CoveredAt(p: Position, t: Trade, average: real): Posting {
    var realized := Times(average - t.price, t.quantity) - t.commission;
    var release := if p.shortQuantity > 0.0 then Times(p.shortMarginUsed, t.quantity / p.shortQuantity) else 0.0;
    Posting(
      p.(shortQuantity := p.shortQuantity - t.quantity,
         shortCostBasis := p.shortCostBasis - Times(average, t.quantity),
         shortMarginUsed := p.shortMarginUsed - release,
         realizedPnlShort := p.realizedPnlShort + realized),
      -TradeCost(t), realized)
  }

  function Post(p: Position, t: Trade, marginRequirement: real): Result<Posting, LedgerError> {
    match t.side
    case Buy =>
      Success(Posting(
        p.(longQuantity := p.longQuantity + t.quantity,
           longCostBasis := p.longCostBasis + TradeCost(t)),
        -TradeCost(t), 0.0))
    case Sell =>
      if p.longQuantity < t.quantity then Failure(Oversell(p.longQuantity)) else Success(SoldAt(p, t, AverageCost(p)))
    case Short =>
      Success(Posting(
        p.(shortQuantity := p.shortQuantity + t.quantity,
           shortCostBasis := p.shortCostBasis + TradeProceeds(t),
           shortMarginUsed := p.shortMarginUsed + t.price * t.quantity * marginRequirement),
        TradeProceeds(t), 0.0))
    case Cover =>
      if p.shortQuantity < t.quantity then Failure(Overcover(p.shortQuantity))
      else Success(CoveredAt(p, t, AverageShortPrice(p)))
  }

  /** Upsert the row, then delete it when both legs are zero. */
  function Store(rows: map<string, Position>, symbol: string, row: Position): map<string, Position> {
    if Flat(row) then rows - {symbol} else rows[symbol := row]
  }

  const LongCost: Position -> real := (p: Position) => p.longCostBasis
  const ShortCost: Position -> real := (p: Position) => p.shortCostBasis
  const Margin: Position -> real := (p: Position) => p.shortMarginUsed

  function Column(rows: map<string, Position>, f: Position -> real): map<string, real> {
    map s | s in rows :: f(rows[s])
  }

  ghost function ColumnTotal(rows: map<string, Position>, f: Position -> real): real {
    Total(Column(rows, f))
  }

  /** The book with new rows, cash and realized P&L; every aggregate is recomputed from the rows. */
  ghost function Rebook(b: Book, rows: map<string, Position>, cash: real, realized: real): Book {
    Book(
      b.summary.(
        cash := cash,
        nav := cash + ColumnTotal(rows, LongCost),
        totalLongExposure := ColumnTotal(rows, LongCost),
        totalShortExposure := ColumnTotal(rows, ShortCost),
        marginUsed := ColumnTotal(rows, Margin),
        unrealizedPnl := 0.0,
        realizedPnl := realized),
      rows)
  }

  ghost function Enter(b: Book, symbol: string, x: Posting): Book {
    Rebook(b, Store(b.rows, symbol, x.row),
           b.summary.cash + x.cashDelta, b.summary.realizedPnl + x.realizedDelta)
  }

  /** One trade on one book. */
  ghost function Settle(b: Book, t: Trade): Result<Book, LedgerError> {
    match Post(RowOf(b.rows, t.symbol), t, b.summary.marginRequirement)
    case Failure(e) => Failure(e)
    case Success(x) => Success(Enter(b, t.symbol, x))
  }

  ghost function SettleIn(books: Books, t: Trade): Result<Books, LedgerError> {
    if t.branch !in books then Failure(NoPortfolio) else
      match Settle(books[t.branch], t)
      case Failure(e) => Failure(e)
      case Success(b) => Success(books[t.branch := b])
  }

  /** A whole trade log on one book; the first refused trade stops it. */
  ghost function Fold(b: Book, ts: seq<Trade>): Result<Book, LedgerError> {
    if ts == [] then Success(b) else
      match Fold(b, ts[..|ts| - 1])
      case Failure(e) => Failure(e)
      case Success(b') => Settle(b', ts[|ts| - 1])
  }

  /** The book of a branch that has never traded. */
  function NewBook(cash: real, marginRequirement: real): Book {
    Book(Summary(cash, marginRequirement, 0.0, cash, 0.0, 0.0, 0.0, 0.0), map[])
  }

  // ----- conservation -------------------------------------------------------------

  /** Cash plus long cost bases minus short cost bases minus realized P&L. */
  ghost function Conserved(b: Book): real {
    b.summary.cash + ColumnTotal(b.rows, LongCost) - ColumnTotal(b.rows, ShortCost) - b.summary.realizedPnl
  }

  /** The net cost basis that disappears because `t` leaves its row flat. */
  function Dropped(b: Book, t: Trade): real {
    match Post(RowOf(b.rows, t.symbol), t, b.summary.marginRequirement)
    case Failure(_) => 0.0
    case Success(x) => if Flat(x.row) then x.row.longCostBasis - x.row.shortCostBasis else 0.0
  }

  lemma StoreTotal(rows: map<string, Position>, symbol: string, row: Position, f: Position -> real)
    requires f(NO_POSITION) == 0.0
    ensures ColumnTotal(Store(rows, symbol, row), f)
         == ColumnTotal(rows, f) - f(RowOf(rows, symbol)) + (if Flat(row) then 0.0 else f(row))
  {
    var column := Column(rows, f);
    TotalUpdate(column, symbol, f(row));
    if Flat(row) {
      assert Column(Store(rows, symbol, row), f) == column - {symbol};
    } else {
      assert Column(Store(rows, symbol, row), f) == column[symbol := f(row)];
    }
  }

  /** Cash less P&L moves against the bases of the row. */
  predicate Balanced(p: Position, x: Posting) {
    x.cashDelta - x.realizedDelta == p.longCostBasis - p.shortCostBasis - x.row.longCostBasis + x.row.shortCostBasis
  }

  lemma SoldBalances(p: Position, t: Trade, avg: real)
    ensures Balanced(p, SoldAt(p, t, avg))
  {
  }

  lemma CoveredBalances(p: Position, t: Trade, avg: real)
    ensures Balanced(p, CoveredAt(p, t, avg))
  {
  }

  lemma PostBalances(p: Position, t: Trade, m: real)
    requires Post(p, t, m).Success?
    ensures Balanced(p, Post(p, t, m).value)
  {
    match t.side {
      case Sell => SoldBalances(p, t, AverageCost(p));
      case Cover => CoveredBalances(p, t, AverageShortPrice(p));
      case _ =>
    }
  }

  /** Every accepted trade, on every book: the conserved quantity changes by exactly what a flat row drops. */
  lemma SettleConserves(b: Book, t: Trade)
    requires Settle(b, t).Success?
    ensures Conserved(Settle(b, t).value) == Conserved(b) - Dropped(b, t)
  {
    var p := RowOf(b.rows, t.symbol);
    var x := Post(p, t, b.summary.marginRequirement).value;
    PostBalances(p, t, b.summary.marginRequirement);
    StoreTotal(b.rows, t.symbol, x.row, LongCost);
    StoreTotal(b.rows, t.symbol, x.row, ShortCost);
  }

  /** Total basis dropped by flat rows over a whole log. */
  ghost function DroppedBy(b: Book, ts: seq<Trade>): real {
    if ts == [] then 0.0 else
      var prefix := ts[..|ts| - 1];
      DroppedBy(b, prefix)
        + (match Fold(b, prefix) case Failure(_) => 0.0 case Success(b') => Dropped(b', ts[|ts| - 1]))
  }

  /** Conservation over every accepted log, with no assumption on quantities, prices or the first book. */
  lemma {:induction false} FoldConserves(b: Book, ts: seq<Trade>)
    requires Fold(b, ts).Success?
    ensures Conserved(Fold(b, ts).value) == Conserved(b) - DroppedBy(b, ts)
  {
    if ts != [] {
      var prefix := ts[..|ts| - 1];
      FoldConserves(b, prefix);
      SettleConserves(Fold(b, prefix).value, ts[|ts| - 1]);
    }
  }

  // ----- realized P&L against the rows ---------------------------------------------

  const RowPnl: Position -> real := (p: Position) => p.realizedPnlLong + p.realizedPnlShort

  /** Lifetime P&L of the row that `t` closes, which is deleted with the row. */
  function ClosedPnl(b: Book, t: Trade): real {
    match Post(RowOf(b.rows, t.symbol), t, b.summary.marginRequirement)
    case Failure(_) => 0.0
    case Success(x) => if Flat(x.row) then RowPnl(x.row) else 0.0
  }

  ghost function ClosedPnlOver(b: Book, ts: seq<Trade>): real {
    if ts == [] then 0.0 else
      var prefix := ts[..|ts| - 1];
      ClosedPnlOver(b, prefix)
        + (match Fold(b, prefix) case Failure(_) => 0.0 case Success(b') => ClosedPnl(b', ts[|ts| - 1]))
  }

  lemma SettleRealizes(b: Book, t: Trade)
    requires Settle(b, t).Success?
    ensures var b' := Settle(b, t).value;
      b'.summary.realizedPnl - ColumnTotal(b'.rows, RowPnl)
        == b.summary.realizedPnl - ColumnTotal(b.rows, RowPnl) + ClosedPnl(b, t)
  {
    var p := RowOf(b.rows, t.symbol);
    var x := Post(p, t, b.summary.marginRequirement).value;
    assert x.realizedDelta == RowPnl(x.row) - RowPnl(p);
    StoreTotal(b.rows, t.symbol, x.row, RowPnl);
  }

  /**
   Deleting flat rows loses no P&L: over every accepted log the summary's realized P&L is that of the open rows
   plus that of every row closed and deleted on the way.
   */
  lemma {:induction false} RealizedSurvivesDeletion(b: Book, ts: seq<Trade>)
    requires Fold(b, ts).Success?
    ensures var b' := Fold(b, ts).value;
      b'.summary.realizedPnl - ColumnTotal(b'.rows, RowPnl)
        == b.summary.realizedPnl - ColumnTotal(b.rows, RowPnl) + ClosedPnlOver(b, ts)
  {
    if ts != [] {
      RealizedSurvivesDeletion(b, ts[..|ts| - 1]);
      SettleRealizes(Fold(b, ts[..|ts| - 1]).value, ts[|ts| - 1]);
    }
  }

  // ----- sound books --------------------------------------------------------------

  /** No negative leg, no flat row, and an empty leg carries neither basis nor margin. */
  predicate SoundRow(p: Position) {
    && p.longQuantity >= 0.0 && p.shortQuantity >= 0.0 && !Flat(p)
    && (p.longQuantity == 0.0 ==> p.longCostBasis == 0.0)
    && (p.shortQuantity == 0.0 ==> p.shortCostBasis == 0.0 && p.shortMarginUsed == 0.0)
  }

  ghost predicate Sound(b: Book) {
    forall s :: s in b.rows ==> SoundRow(b.rows[s])
  }

  /**
   What an opening trade may do to its leg: not drive it negative, and not end it empty with basis left, nor with
   margin left when the other leg keeps the row alive. Closing trades always qualify.
   */
  predicate OpensSoundly(p: Position, t: Trade, m: real) {
    match t.side
    case Buy =>
      && p.longQuantity + t.quantity >= 0.0
      && (p.longQuantity + t.quantity == 0.0 ==> p.longCostBasis + TradeCost(t) == 0.0)
    case Short =>
      && p.shortQuantity + t.quantity >= 0.0
      && (p.shortQuantity + t.quantity == 0.0 ==>
            && p.shortCostBasis + TradeProceeds(t) == 0.0
            && (p.longQuantity != 0.0 ==> p.shortMarginUsed + t.price * t.quantity * m == 0.0))
    case _ => true
  }

  predicate TradeSound(b: Book, t: Trade) {
    OpensSoundly(RowOf(b.rows, t.symbol), t, b.summary.marginRequirement)
  }

  /** An emptied leg has no basis and no margin left. */
  lemma EmptiedLeg(basis: real, held: real)
    requires held > 0.0
    ensures basis - basis / held * held == 0.0
    ensures held / held == 1.0
  {
  }

  /** The row a trade leaves behind: sound, or flat without basis. */
  predicate Clean(row: Position) {
    if Flat(row) then row.longCostBasis == row.shortCostBasis == 0.0 else SoundRow(row)
  }

  lemma SellClean(p: Position, t: Trade, m: real)
    requires SoundRow(p) || p == NO_POSITION
    requires t.side == Sell && Post(p, t, m).Success?
    ensures Clean(Post(p, t, m).value.row)
  {
    if p.longQuantity == t.quantity > 0.0 {
      EmptiedLeg(p.longCostBasis, p.longQuantity);
    }
  }

  lemma CoverClean(p: Position, t: Trade, m: real)
    requires SoundRow(p) || p == NO_POSITION
    requires t.side == Cover && Post(p, t, m).Success?
    ensures Clean(Post(p, t, m).value.row)
  {
    if p.shortQuantity == t.quantity > 0.0 {
      EmptiedLeg(p.shortCostBasis, p.shortQuantity);
      assert p.shortMarginUsed * (t.quantity / p.shortQuantity) == p.shortMarginUsed * 1.0;
    }
  }

  /** Which trades leave a clean row behind, on every sound row and for every quantity, price and commission. */
  lemma PostCleanExactly(p: Position, t: Trade, m: real)
    requires SoundRow(p) || p == NO_POSITION
    requires Post(p, t, m).Success?
    ensures Clean(Post(p, t, m).value.row) <==> OpensSoundly(p, t, m)
  {
    match t.side {
      case Sell => SellClean(p, t, m);
      case Cover => CoverClean(p, t, m);
      case _ =>
    }
  }

  /** A flat row that a trade leaves on a sound row drops nothing exactly if it is clean. */
  lemma DropsNothing(p: Position, t: Trade, m: real)
    requires SoundRow(p) || p == NO_POSITION
    requires Post(p, t, m).Success? && Flat(Post(p, t, m).value.row)
    ensures var row := Post(p, t, m).value.row; row.longCostBasis == row.shortCostBasis <==> Clean(row)
  {
    match t.side {
      case Sell => SellClean(p, t, m);
      case Cover => CoverClean(p, t, m);
      case _ =>
    }
  }

  /** Storing a clean row keeps a book sound and storing an unsound one breaks it. */
  lemma EnterSound(b: Book, symbol: string, x: Posting)
    requires Sound(b)
    ensures Sound(Enter(b, symbol, x)) <==> Flat(x.row) || SoundRow(x.row)
  {
    assert !Flat(x.row) ==> Enter(b, symbol, x).rows[symbol] == x.row;
  }

  /**
   On every sound book an accepted trade of any quantity keeps the book sound and conserves value if and only if,
   being an opening trade, it neither drives its leg negative nor empties it with something left on it.
   */
  lemma SettleSoundExact(b: Book, t: Trade)
    requires Sound(b) && Settle(b, t).Success?
    ensures (Sound(Settle(b, t).value) && Conserved(Settle(b, t).value) == Conserved(b)) <==> TradeSound(b, t)
  {
    var p, m := RowOf(b.rows, t.symbol), b.summary.marginRequirement;
    SettleConserves(b, t);
    EnterSound(b, t.symbol, Post(p, t, m).value);
    PostCleanExactly(p, t, m);
    if Flat(Post(p, t, m).value.row) {
      DropsNothing(p, t, m);
    }
  }

  /** Every trade of the log is sound on the book it meets. */
  ghost predicate SoundLog(b: Book, ts: seq<Trade>) {
    ts == [] ||
    (var prefix, t := ts[..|ts| - 1], ts[|ts| - 1];
     SoundLog(b, prefix) && (Fold(b, prefix).Success? ==> TradeSound(Fold(b, prefix).value, t)))
  }

  /** Value is conserved and the book is sound at the end of every accepted log of sound trades. */
  lemma {:induction false} FoldSound(b: Book, ts: seq<Trade>)
    requires Sound(b) && SoundLog(b, ts) && Fold(b, ts).Success?
    ensures Sound(Fold(b, ts).value)
    ensures Conserved(Fold(b, ts).value) == Conserved(b)
  {
    if ts != [] {
      var prefix := ts[..|ts| - 1];
      FoldSound(b, prefix);
      SettleSoundExact(Fold(b, prefix).value, ts[|ts| - 1]);
    }
  }

  ghost predicate SoundAfter(b: Book, ts: seq<Trade>) {
    Fold(b, ts).Success? && Sound(Fold(b, ts).value) && Conserved(Fold(b, ts).value) == Conserved(b)
  }

  /** The book is sound and value conserved after the log and after each of its prefixes. */
  ghost predicate AlwaysSound(b: Book, ts: seq<Trade>) {
    SoundAfter(b, ts) && (ts == [] || AlwaysSound(b, ts[..|ts| - 1]))
  }

  lemma {:induction false} AfterEveryPrefix(b: Book, ts: seq<Trade>, k: nat)
    requires AlwaysSound(b, ts) && k <= |ts|
    ensures SoundAfter(b, ts[..k])
    decreases |ts|
  {
    if k == |ts| {
      assert ts[..k] == ts;
    } else {
      assert ts[..|ts| - 1][..k] == ts[..k];
      AfterEveryPrefix(b, ts[..|ts| - 1], k);
    }
  }

  lemma {:induction false} FromEveryPrefix(b: Book, ts: seq<Trade>)
    requires forall k :: 0 <= k <= |ts| ==> SoundAfter(b, ts[..k])
    ensures AlwaysSound(b, ts)
  {
    assert ts[..|ts|] == ts;
    if ts != [] {
      var prefix := ts[..|ts| - 1];
      forall k | 0 <= k <= |prefix| ensures SoundAfter(b, prefix[..k]) {
        assert prefix[..k] == ts[..k];
      }
      FromEveryPrefix(b, prefix);
    }
  }

  lemma {:induction false} AlwaysSoundExactly(b: Book, ts: seq<Trade>)
    requires Sound(b) && Fold(b, ts).Success?
    ensures AlwaysSound(b, ts) <==> SoundLog(b, ts)
  {
    if ts != [] {
      var prefix := ts[..|ts| - 1];
      AlwaysSoundExactly(b, prefix);
      if SoundLog(b, ts) {
        FoldSound(b, ts);
      } else if SoundAfter(b, prefix) {
        SettleSoundExact(Fold(b, prefix).value, ts[|ts| - 1]);
      }
    }
  }

  /** After every prefix of an accepted log the book is sound and value conserved exactly if its trades are sound. */
  lemma FoldSoundExact(b: Book, ts: seq<Trade>)
    requires Sound(b) && Fold(b, ts).Success?
    ensures (forall k :: 0 <= k <= |ts| ==> SoundAfter(b, ts[..k])) <==> SoundLog(b, ts)
  {
    AlwaysSoundExactly(b, ts);
    if SoundLog(b, ts) {
      forall k | 0 <= k <= |ts| ensures SoundAfter(b, ts[..k]) {
        AfterEveryPrefix(b, ts, k);
      }
    } else if forall k :: 0 <= k <= |ts| ==> SoundAfter(b, ts[..k]) {
      FromEveryPrefix(b, ts);
    }
  }

  /** A trade that is sound on every sound book. */
  predicate Regular(t: Trade) {
    t.quantity > 0.0 || (t.quantity == 0.0 && t.commission == 0.0)
  }

  ghost predicate AllRegular(ts: seq<Trade>) {
    forall i :: 0 <= i < |ts| ==> Regular(ts[i])
  }

  lemma RegularOpens(p: Position, t: Trade, m: real)
    requires (SoundRow(p) || p == NO_POSITION) && Regular(t)
    ensures OpensSoundly(p, t, m)
  {
    if t.quantity == 0.0 {
      assert t.price * t.quantity == 0.0 && 0.0 * m == 0.0;
    }
  }

  lemma {:induction false} RegularIsSound(b: Book, ts: seq<Trade>)
    requires Sound(b) && AllRegular(ts)
    ensures SoundLog(b, ts)
  {
    if ts != [] {
      var prefix, t := ts[..|ts| - 1], ts[|ts| - 1];
      RegularIsSound(b, prefix);
      if Fold(b, prefix).Success? {
        FoldSound(b, prefix);
        var b' := Fold(b, prefix).value;
        RegularOpens(RowOf(b'.rows, t.symbol), t, b'.summary.marginRequirement);
      }
    }
  }

  /** The stored aggregates are the totals of the stored rows. */
  ghost predicate Aggregated(b: Book) {
    && b.summary.totalLongExposure == ColumnTotal(b.rows, LongCost)
    && b.summary.totalShortExposure == ColumnTotal(b.rows, ShortCost)
    && b.summary.marginUsed == ColumnTotal(b.rows, Margin)
    && b.summary.nav == b.summary.cash + b.summary.totalLongExposure
    && b.summary.unrealizedPnl == 0.0
  }

  lemma NewBookAggregates(cash: real, m: real)
    ensures Aggregated(NewBook(cash, m)) && Conserved(NewBook(cash, m)) == cash
  {
    var none: map<string, Position> := map[];
    assert Column(none, LongCost) == Column(none, ShortCost) == Column(none, Margin) == map[];
  }

  lemma {:induction false} FoldAggregates(b: Book, ts: seq<Trade>)
    requires Fold(b, ts).Success? && (ts == [] ==> Aggregated(b))
    ensures Aggregated(Fold(b, ts).value)
  {
  }

  lemma SoundDropsNothing(b: Book, ts: seq<Trade>)
    requires Sound(b) && Fold(b, ts).Success?
    ensures SoundLog(b, ts) ==> DroppedBy(b, ts) == 0.0
  {
    FoldConserves(b, ts);
    if SoundLog(b, ts) {
      FoldSound(b, ts);
    }
  }

  /** On every accepted log, a branch with all positions closed has realized its change in cash and what was dropped. */
  lemma ClosedBookRealizesItsCash(cash: real, m: real, ts: seq<Trade>)
    requires Fold(NewBook(cash, m), ts).Success? && Fold(NewBook(cash, m), ts).value.rows == map[]
    ensures var s := Fold(NewBook(cash, m), ts).value.summary;
      s.realizedPnl == s.cash - cash + DroppedBy(NewBook(cash, m), ts)
    ensures SoundLog(NewBook(cash, m), ts) ==> DroppedBy(NewBook(cash, m), ts) == 0.0
  {
    NewBookAggregates(cash, m);
    FoldConserves(NewBook(cash, m), ts);
    var b := Fold(NewBook(cash, m), ts).value;
    assert Column(b.rows, LongCost) == Column(b.rows, ShortCost) == map[];
    SoundDropsNothing(NewBook(cash, m), ts);
  }

  // ----- closed forms -------------------------------------------------------------

  function CashFlow(t: Trade): real {
    if t.side == Buy || t.side == Cover then -TradeCost(t) else TradeProceeds(t)
  }

  function LongFlow(t: Trade, symbol: string): real {
    if t.symbol != symbol then 0.0
    else if t.side == Buy then t.quantity
    else if t.side == Sell then -t.quantity
    else 0.0
  }

  function ShortFlow(t: Trade, symbol: string): real {
    if t.symbol != symbol then 0.0
    else if t.side == Short then t.quantity
    else if t.side == Cover then -t.quantity
    else 0.0
  }

  function NetCash(ts: seq<Trade>): real {
    if ts == [] then 0.0 else NetCash(ts[..|ts| - 1]) + CashFlow(ts[|ts| - 1])
  }

  function NetLong(ts: seq<Trade>, symbol: string): real {
    if ts == [] then 0.0 else NetLong(ts[..|ts| - 1], symbol) + LongFlow(ts[|ts| - 1], symbol)
  }

  function NetShort(ts: seq<Trade>, symbol: string): real {
    if ts == [] then 0.0 else NetShort(ts[..|ts| - 1], symbol) + ShortFlow(ts[|ts| - 1], symbol)
  }

  lemma PostFlows(p: Position, t: Trade, m: real)
    requires Post(p, t, m).Success?
    ensures var x := Post(p, t, m).value;
      && x.cashDelta == CashFlow(t)
      && x.row.longQuantity == p.longQuantity + LongFlow(t, t.symbol)
      && x.row.shortQuantity == p.shortQuantity + ShortFlow(t, t.symbol)
  {
  }

  lemma SettleFlows(b: Book, t: Trade, symbol: string)
    requires Settle(b, t).Success?
    ensures var b' := Settle(b, t).value;
      && b'.summary.cash == b.summary.cash + CashFlow(t)
      && RowOf(b'.rows, symbol).longQuantity == RowOf(b.rows, symbol).longQuantity + LongFlow(t, symbol)
      && RowOf(b'.rows, symbol).shortQuantity == RowOf(b.rows, symbol).shortQuantity + ShortFlow(t, symbol)
  {
    var p := RowOf(b.rows, t.symbol);
    var posted := Post(p, t, b.summary.marginRequirement);
    PostFlows(p, t, b.summary.marginRequirement);
    assert Settle(b, t).value == Enter(b, t.symbol, posted.value);
    assert Enter(b, t.symbol, posted.value).rows == Store(b.rows, t.symbol, posted.value.row);
  }

  /** Cash and both quantities of every symbol are the net flows of the log, across deletion and re-entry. */
  lemma {:induction false} FoldIsNetFlow(b: Book, ts: seq<Trade>, symbol: string)
    requires Fold(b, ts).Success?
    ensures var b' := Fold(b, ts).value;
      && b'.summary.cash == b.summary.cash + NetCash(ts)
      && RowOf(b'.rows, symbol).longQuantity == RowOf(b.rows, symbol).longQuantity + NetLong(ts, symbol)
      && RowOf(b'.rows, symbol).shortQuantity == RowOf(b.rows, symbol).shortQuantity + NetShort(ts, symbol)
  {
    if ts != [] {
      var prefix := ts[..|ts| - 1];
      FoldIsNetFlow(b, prefix, symbol);
      SettleFlows(Fold(b, prefix).value, ts[|ts| - 1], symbol);
    }
  }

  // ----- what one trade does, in prices and shares -------------------------------------

  /** The net shares a row holds, long less short. */
  function NetShares(p: Position): real { p.longQuantity - p.shortQuantity }

  lemma PaidAtPrice(price: real, q: real, before: real)
    ensures price * q + Times(price, before) == Times(price, before + q)
    ensures Times(price, before) - price * q == Times(price, before - q)
  {
    TimesDistributes(price, before, q);
    TimesDistributes(price, before - q, q);
  }

  lemma FlowAtItsPrice(t: Trade, cash: real, cash': real, before: real, after: real)
    requires cash' == cash + CashFlow(t) && after == before + LongFlow(t, t.symbol) - ShortFlow(t, t.symbol)
    ensures cash' + Times(t.price, after) == cash + Times(t.price, before) - t.commission
  {
    PaidAtPrice(t.price, t.quantity, before);
  }

  lemma OtherRowsStay(b: Book, t: Trade)
    requires Settle(b, t).Success?
    ensures Settle(b, t).value.rows - {t.symbol} == b.rows - {t.symbol}
  {
    var x := Post(RowOf(b.rows, t.symbol), t, b.summary.marginRequirement).value;
    assert Settle(b, t).value.rows == Store(b.rows, t.symbol, x.row);
  }

  /** A BUY and a SELL move the long shares by the quantity, a SHORT and a COVER the short ones, and nothing else. */
  lemma TradeMovesShares(b: Book, t: Trade)
    requires Settle(b, t).Success?
    ensures var b' := Settle(b, t).value;
      var p, p' := RowOf(b.rows, t.symbol), RowOf(b'.rows, t.symbol);
      && p'.longQuantity - p.longQuantity
           == (match t.side case Buy => t.quantity case Sell => -t.quantity case _ => 0.0)
      && p'.shortQuantity - p.shortQuantity
           == (match t.side case Short => t.quantity case Cover => -t.quantity case _ => 0.0)
      && b'.rows - {t.symbol} == b.rows - {t.symbol}
  {
    SettleFlows(b, t, t.symbol);
    OtherRowsStay(b, t);
  }

  /**
   Every accepted trade exchanges shares for cash at its own price: valued at that price, cash and shares together
   lose exactly the commission.
   */
  lemma TradeAtItsPrice(b: Book, t: Trade)
    requires Settle(b, t).Success?
    ensures var b' := Settle(b, t).value;
      b'.summary.cash + Times(t.price, NetShares(RowOf(b'.rows, t.symbol)))
        == b.summary.cash + Times(t.price, NetShares(RowOf(b.rows, t.symbol))) - t.commission
  {
    SettleFlows(b, t, t.symbol);
    FlowAtItsPrice(t, b.summary.cash, Settle(b, t).value.summary.cash, NetShares(RowOf(b.rows, t.symbol)),
                   NetShares(RowOf(Settle(b, t).value.rows, t.symbol)));
  }

  /** What a trade leaves in its row, before an empty row is deleted. */
  predicate LongLegSame(p: Position, q: Position) {
    q.longQuantity == p.longQuantity && q.longCostBasis == p.longCostBasis && q.realizedPnlLong == p.realizedPnlLong
  }

  predicate ShortLegSame(p: Position, q: Position) {
    q.shortQuantity == p.shortQuantity && q.shortCostBasis == p.shortCostBasis
    && q.shortMarginUsed == p.shortMarginUsed && q.realizedPnlShort == p.realizedPnlShort
  }

  /**
   The two legs are separate: BUY and SELL leave the short leg alone, SHORT and COVER the long one, and P&L is booked
   on the leg that is closed, as proceeds less the basis released, or the basis released less the cost. A SHORT takes
   margin on its price times quantity, whatever the commission.
   */
  lemma LegsAreSeparate(p: Position, t: Trade, m: real)
    requires Post(p, t, m).Success?
    ensures var x := Post(p, t, m).value;
      match t.side
      case Buy =>
        ShortLegSame(p, x.row) && x.row.realizedPnlLong == p.realizedPnlLong && x.realizedDelta == 0.0
      case Sell =>
        && ShortLegSame(p, x.row) && x.realizedDelta == x.row.realizedPnlLong - p.realizedPnlLong
        && x.realizedDelta == x.cashDelta - (p.longCostBasis - x.row.longCostBasis)
      case Short =>
        && LongLegSame(p, x.row) && x.row.realizedPnlShort == p.realizedPnlShort && x.realizedDelta == 0.0
        && x.row.shortMarginUsed - p.shortMarginUsed == t.price * t.quantity * m
      case Cover =>
        && LongLegSame(p, x.row) && x.realizedDelta == x.row.realizedPnlShort - p.realizedPnlShort
        && x.realizedDelta == (p.shortCostBasis - x.row.shortCostBasis) + x.cashDelta
  {
    PostBalances(p, t, m);
  }

  /** The ledger refuses exactly a SELL of more than is held long and a COVER of more than is held short. */
  lemma RefusedExactly(b: Book, t: Trade)
    ensures var p := RowOf(b.rows, t.symbol);
      Settle(b, t).Failure? <==>
        (t.side == Sell && t.quantity > p.longQuantity) || (t.side == Cover && t.quantity > p.shortQuantity)
    ensures Settle(b, t).Failure? ==>
      Settle(b, t).error == if t.side == Sell then Oversell(RowOf(b.rows, t.symbol).longQuantity)
                            else Overcover(RowOf(b.rows, t.symbol).shortQuantity)
  {
  }

  /** What is left after part of a lot is taken out at its average has the same average. */
  lemma AverageOfRest(basis: real, held: real, part: real)
    requires 0.0 < part < held
    ensures Average(basis - Times(Average(basis, held), part), held - part) == Average(basis, held)
  {
    var a := Average(basis, held);
    QuotientTimes(basis, held);
    TimesDistributes(a, part, held - part);
    assert part + (held - part) == held;
    assert basis - Times(a, part) == Times(a, held - part);
    QuotientTimes(a, held - part);
  }

  /** A partial SELL leaves the average cost of what remains unchanged. */
  lemma SellKeepsAverageCost(p: Position, t: Trade, m: real)
    requires t.side == Sell && 0.0 < t.quantity < p.longQuantity
    ensures Post(p, t, m).Success?
    ensures AverageCost(Post(p, t, m).value.row) == AverageCost(p)
  {
    AverageOfRest(p.longCostBasis, p.longQuantity, t.quantity);
  }

  lemma ProRata(margin: real, part: real, whole: real)
    requires whole > 0.0
    ensures (margin - Times(margin, part / whole)) * whole == margin * (whole - part)
  {
    assert part / whole * whole == part;
    assert margin * (part / whole) * whole == margin * (part / whole * whole);
  }

  /** A partial COVER leaves the average short price unchanged and releases margin pro rata. */
  lemma CoverKeepsAveragePrice(p: Position, t: Trade, m: real)
    requires t.side == Cover && 0.0 < t.quantity < p.shortQuantity
    ensures Post(p, t, m).Success?
    ensures var row := Post(p, t, m).value.row;
      && AverageShortPrice(row) == AverageShortPrice(p)
      && row.shortMarginUsed * p.shortQuantity == p.shortMarginUsed * row.shortQuantity
  {
    AverageOfRest(p.shortCostBasis, p.shortQuantity, t.quantity);
    ProRata(p.shortMarginUsed, t.quantity, p.shortQuantity);
  }

  lemma FoldAppend(b: Book, ts: seq<Trade>, t: Trade)
    ensures Fold(b, ts + [t])
         == (match Fold(b, ts) case Failure(e) => Failure(e) case Success(b') => Settle(b', t))
  {
    assert (ts + [t])[..|ts|] == ts;
  }

  lemma FoldOne(b: Book, t: Trade)
    ensures Fold(b, [t]) == Settle(b, t)
  {
    assert [t][..0] == [];
  }

  lemma FoldTwo(b: Book, t: Trade, u: Trade)
    ensures Fold(b, [t, u])
         == (match Settle(b, t) case Failure(e) => Failure(e) case Success(b') => Settle(b', u))
  {
    assert [t, u][..1] == [t];
    FoldOne(b, t);
  }

  /** Selling a whole fresh lot realizes proceeds minus its cost. */
  lemma SellWholeLot(p: Position, sell: Trade, m: real)
    requires sell.side == Sell && p.longQuantity == sell.quantity > 0.0
    ensures Post(p, sell, m).Success?
    ensures var x := Post(p, sell, m).value;
      && x.row.longQuantity == 0.0 && x.row.shortQuantity == p.shortQuantity
      && x.realizedDelta == TradeProceeds(sell) - p.longCostBasis
  {
    EmptiedLeg(p.longCostBasis, p.longQuantity);
    assert (sell.price - AverageCost(p)) * sell.quantity
        == sell.price * sell.quantity - AverageCost(p) * sell.quantity;
  }

  /** Buying an unheld symbol and selling the same quantity restores every row; cash and P&L move alike. */
  lemma BuyThenSellRestoresRows(b: Book, buy: Trade, sell: Trade)
    requires buy.side == Buy && sell.side == Sell && buy.symbol == sell.symbol && buy.symbol !in b.rows
    requires buy.quantity == sell.quantity > 0.0
    ensures Fold(b, [buy, sell]).Success?
    ensures var b' := Fold(b, [buy, sell]).value;
      var gain := TradeProceeds(sell) - TradeCost(buy);
      && b'.rows == b.rows
      && b'.summary.cash == b.summary.cash + gain
      && b'.summary.realizedPnl == b.summary.realizedPnl + gain
  {
    FoldTwo(b, buy, sell);
    var held := Settle(b, buy).value;
    var p := RowOf(held.rows, buy.symbol);
    SellWholeLot(p, sell, held.summary.marginRequirement);
    var x := Post(p, sell, held.summary.marginRequirement).value;
    assert Store(held.rows, sell.symbol, x.row) == b.rows;
  }

  lemma StoresCommute(rows: map<string, Position>, s: string, p: Position, u: string, q: Position)
    requires s != u
    ensures Store(Store(rows, s, p), u, q) == Store(Store(rows, u, q), s, p)
    ensures RowOf(Store(rows, s, p), u) == RowOf(rows, u)
  {
  }

  lemma EntersCommute(b: Book, s: string, x: Posting, u: string, y: Posting)
    requires s != u
    ensures Enter(Enter(b, s, x), u, y) == Enter(Enter(b, u, y), s, x)
    ensures RowOf(Enter(b, s, x).rows, u) == RowOf(b.rows, u)
    ensures Enter(b, s, x).summary.marginRequirement == b.summary.marginRequirement
  {
    StoresCommute(b.rows, s, x.row, u, y.row);
  }

  /** Trades of different symbols commute: one order is accepted exactly when the other is, with equal books. */
  lemma DifferentSymbolsCommute(b: Book, t: Trade, u: Trade)
    requires t.symbol != u.symbol
    ensures Fold(b, [t, u]).Success? <==> Fold(b, [u, t]).Success?
    ensures Fold(b, [t, u]).Success? ==> Fold(b, [t, u]) == Fold(b, [u, t])
  {
    FoldTwo(b, t, u);
    FoldTwo(b, u, t);
    var m := b.summary.marginRequirement;
    match (Post(RowOf(b.rows, t.symbol), t, m), Post(RowOf(b.rows, u.symbol), u, m)) {
      case (Success(x), Success(y)) =>
        EntersCommute(b, t.symbol, x, u.symbol, y);
        EntersCommute(b, u.symbol, y, t.symbol, x);
      case (Success(x), Failure(_)) => EntersCommute(b, t.symbol, x, u.symbol, Posting(NO_POSITION, 0.0, 0.0));
      case (Failure(_), Success(y)) => EntersCommute(b, u.symbol, y, t.symbol, Posting(NO_POSITION, 0.0, 0.0));
      case _ =>
    }
  }

  // ----- margin -------------------------------------------------------------------

  /** Margin held on a row beyond the required fraction of its short proceeds. */
  function MarginExcess(p: Position, m: real): real {
    p.shortMarginUsed - Times(m, p.shortCostBasis)
  }

  lemma ShortAddsExcess(p: Position, t: Trade, m: real)
    requires t.side == Short
    ensures MarginExcess(Post(p, t, m).value.row, m) == MarginExcess(p, m) + m * t.commission
  {
    var notional := t.price * t.quantity;
    assert m * (p.shortCostBasis + (notional - t.commission))
        == m * p.shortCostBasis + m * notional - m * t.commission;
  }

  lemma CoverScalesExcess(p: Position, t: Trade, m: real)
    requires t.side == Cover && Post(p, t, m).Success? && p.shortQuantity > 0.0
    ensures MarginExcess(Post(p, t, m).value.row, m)
         == MarginExcess(p, m) * (1.0 - t.quantity / p.shortQuantity)
  {
    var k := t.quantity / p.shortQuantity;
    var c := p.shortCostBasis;
    assert c / p.shortQuantity * t.quantity == c * k;
    assert Post(p, t, m).value.row.shortCostBasis == c - c * k;
    assert Post(p, t, m).value.row.shortMarginUsed == p.shortMarginUsed - p.shortMarginUsed * k;
    assert m * (c - c * k) == m * c - m * c * k;
    assert MarginExcess(p, m) * (1.0 - k) == MarginExcess(p, m) - MarginExcess(p, m) * k;
    assert MarginExcess(p, m) * k == p.shortMarginUsed * k - m * c * k;
  }

  /** Non-negative excess, and zero excess when no commission is charged. */
  predicate Margined(p: Position, m: real, free: bool) {
    MarginExcess(p, m) >= 0.0 && (free ==> MarginExcess(p, m) == 0.0)
  }

  lemma ExcessStaysSigned(e: real, part: real, whole: real)
    requires part <= whole && whole > 0.0 && e >= 0.0
    ensures e * (1.0 - part / whole) >= 0.0
  {
    assert part / whole <= 1.0;
  }

  lemma PostMargined(p: Position, t: Trade, m: real, free: bool)
    requires Margined(p, m, free) && m >= 0.0 && t.commission >= 0.0 && (free ==> t.commission == 0.0)
    requires Post(p, t, m).Success?
    ensures Margined(Post(p, t, m).value.row, m, free)
  {
    match t.side {
      case Short =>
        ShortAddsExcess(p, t, m);
        assert m * t.commission >= 0.0;
      case Cover =>
        if p.shortQuantity > 0.0 {
          CoverScalesExcess(p, t, m);
          ExcessStaysSigned(MarginExcess(p, m), t.quantity, p.shortQuantity);
        }
      case _ =>
    }
  }

  ghost predicate BookMargined(b: Book, free: bool) {
    forall s :: s in b.rows ==> Margined(b.rows[s], b.summary.marginRequirement, free)
  }

  lemma {:induction false} FoldMargined(b: Book, ts: seq<Trade>, free: bool)
    requires BookMargined(b, free) && Fold(b, ts).Success?
    requires b.summary.marginRequirement >= 0.0
    requires forall i :: 0 <= i < |ts| ==> ts[i].commission >= 0.0 && (free ==> ts[i].commission == 0.0)
    ensures BookMargined(Fold(b, ts).value, free)
    ensures Fold(b, ts).value.summary.marginRequirement == b.summary.marginRequirement
  {
    if ts != [] {
      var prefix, t := ts[..|ts| - 1], ts[|ts| - 1];
      FoldMargined(b, prefix, free);
      var b', m := Fold(b, prefix).value, b.summary.marginRequirement;
      assert Times(m, 0.0) == 0.0;
      PostMargined(RowOf(b'.rows, t.symbol), t, m, free);
      var x := Post(RowOf(b'.rows, t.symbol), t, m).value;
      assert Enter(b', t.symbol, x).rows == Store(b'.rows, t.symbol, x.row);
    }
  }

  lemma MarginTotals(b: Book, free: bool)
    requires BookMargined(b, free)
    ensures ColumnTotal(b.rows, Margin) >= Times(b.summary.marginRequirement, ColumnTotal(b.rows, ShortCost))
    ensures free ==> ColumnTotal(b.rows, Margin) == Times(b.summary.marginRequirement, ColumnTotal(b.rows, ShortCost))
  {
    var m := b.summary.marginRequirement;
    var shorts, margins := Column(b.rows, ShortCost), Column(b.rows, Margin);
    var required := map s | s in b.rows :: Times(m, shorts[s]);
    TotalScale(shorts, required, m);
    TotalAtMost(required, margins);
    if free {
      assert margins == required;
    }
  }

  /**
   Over every accepted log with non-negative commissions, whatever the quantities, the margin in use is at least
   the margin requirement times the short exposure, and equal to it when no commission is charged.
   */
  lemma MarginFollowsShortExposure(cash: real, m: real, ts: seq<Trade>, free: bool)
    requires m >= 0.0 && Fold(NewBook(cash, m), ts).Success?
    requires forall i :: 0 <= i < |ts| ==> ts[i].commission >= 0.0 && (free ==> ts[i].commission == 0.0)
    ensures var s := Fold(NewBook(cash, m), ts).value.summary;
      && s.marginUsed >= Times(m, s.totalShortExposure)
      && (free ==> s.marginUsed == Times(m, s.totalShortExposure))
  {
    var b := NewBook(cash, m);
    NewBookAggregates(cash, m);
    FoldAggregates(b, ts);
    FoldMargined(b, ts, free);
    MarginTotals(Fold(b, ts).value, free);
  }

  /**
   After any accepted log from a new book, nav is initial cash plus realized P&L plus the short exposure, less what
   was dropped: for sound logs cash + long exposure is the equity of the book exactly when nothing is short.
   */
  lemma NavAfterTrades(cash: real, m: real, ts: seq<Trade>)
    requires Fold(NewBook(cash, m), ts).Success?
    ensures var s := Fold(NewBook(cash, m), ts).value.summary;
      s.nav == cash + s.realizedPnl + s.totalShortExposure - DroppedBy(NewBook(cash, m), ts)
    ensures SoundLog(NewBook(cash, m), ts) ==> DroppedBy(NewBook(cash, m), ts) == 0.0
  {
    var b := NewBook(cash, m);
    NewBookAggregates(cash, m);
    FoldConserves(b, ts);
    FoldAggregates(b, ts);
    SoundDropsNothing(b, ts);
  }

  // ----- marking to market --------------------------------------------------------

  predicate Usable(prices: map<string, real>, symbol: string) {
    symbol in prices && prices[symbol] > 0.0
  }

  /** An open position without a usable price is carried at cost. */
  function MarketValue(p: Position, symbol: string, prices: map<string, real>): real {
    if Usable(prices, symbol) then Times(prices[symbol], p.longQuantity) else p.longCostBasis
  }

  predicate Open(p: Position) { p.longQuantity > 0.0 }

  function OpenValues(rows: map<string, Position>, prices: map<string, real>): map<string, real> {
    map s | s in rows && Open(rows[s]) :: MarketValue(rows[s], s, prices)
  }

  function OpenCosts(rows: map<string, Position>): map<string, real> {
    map s | s in rows && Open(rows[s]) :: rows[s].longCostBasis
  }

  ghost function Marked(b: Book, prices: map<string, real>): Book {
    var mv := Total(OpenValues(b.rows, prices));
    Book(
      b.summary.(nav := b.summary.cash + mv, totalLongExposure := mv,
                 unrealizedPnl := mv - Total(OpenCosts(b.rows))),
      b.rows)
  }

  /**
   Marking a sound book, whatever prices are missing or unusable: nav is the conserved capital plus realized
   plus unrealized P&L plus the cost basis of open shorts, which the mark leaves out.
   */
  lemma MarkedNav(b: Book, prices: map<string, real>)
    requires Sound(b)
    ensures var s := Marked(b, prices).summary;
      s.nav == Conserved(b) + s.realizedPnl + s.unrealizedPnl + ColumnTotal(b.rows, ShortCost)
    ensures Conserved(Marked(b, prices)) == Conserved(b)
  {
    var column, costs := Column(b.rows, LongCost), OpenCosts(b.rows);
    TotalDropZeros(column, costs.Keys);
    assert costs == map k | k in costs.Keys :: column[k];
  }

  /** Taking out one row takes out its entries. */
  lemma WithoutRow(rows: map<string, Position>, prices: map<string, real>, s: string)
    ensures OpenValues(rows - {s}, prices) == OpenValues(rows, prices) - {s}
    ensures OpenCosts(rows - {s}) == OpenCosts(rows) - {s}
  {
  }

  /** The mark without one of the open positions. */
  lemma MarkWithout(b: Book, prices: map<string, real>, s: string)
    requires s in OpenCosts(b.rows)
    ensures var marked, without := Marked(b, prices).summary, Marked(b.(rows := b.rows - {s}), prices).summary;
      var worth, cost := OpenValues(b.rows, prices)[s], OpenCosts(b.rows)[s];
      && marked.nav == without.nav + worth && marked.totalLongExposure == without.totalLongExposure + worth
      && marked.unrealizedPnl == without.unrealizedPnl + worth - cost
  {
    TotalPick(OpenValues(b.rows, prices), s);
    TotalPick(OpenCosts(b.rows), s);
    WithoutRow(b.rows, prices, s);
  }

  /** What one open position adds to a mark: shares times price, or its basis when there is no usable price. */
  lemma PositionContributes(b: Book, prices: map<string, real>, s: string)
    requires s in b.rows && b.rows[s].longQuantity > 0.0
    ensures var p, marked := b.rows[s], Marked(b, prices).summary;
      var without := Marked(b.(rows := b.rows - {s}), prices).summary;
      var worth := if s in prices && prices[s] > 0.0 then Times(prices[s], p.longQuantity) else p.longCostBasis;
      && marked.nav == without.nav + worth && marked.totalLongExposure == without.totalLongExposure + worth
      && marked.unrealizedPnl == without.unrealizedPnl + worth - p.longCostBasis
  {
    MarkWithout(b, prices, s);
  }

  /** Marked at its average cost, or without a usable price, an open position adds its basis and no P&L. */
  lemma MarkedAtCost(b: Book, prices: map<string, real>, s: string)
    requires s in b.rows && b.rows[s].longQuantity > 0.0
    requires s in prices && prices[s] > 0.0 ==> prices[s] == b.rows[s].longCostBasis / b.rows[s].longQuantity
    ensures var marked, without := Marked(b, prices).summary, Marked(b.(rows := b.rows - {s}), prices).summary;
      marked.nav == without.nav + b.rows[s].longCostBasis && marked.unrealizedPnl == without.unrealizedPnl
  {
    PositionContributes(b, prices, s);
    QuotientTimes(b.rows[s].longCostBasis, b.rows[s].longQuantity);
  }

  lemma ClosedRowAddsNothing(b: Book, prices: map<string, real>, s: string)
    requires s in b.rows && b.rows[s].longQuantity <= 0.0
    ensures Marked(b.(rows := b.rows - {s}), prices).summary == Marked(b, prices).summary
  {
    WithoutRow(b.rows, prices, s);
    assert OpenValues(b.rows, prices) - {s} == OpenValues(b.rows, prices);
    assert OpenCosts(b.rows) - {s} == OpenCosts(b.rows);
  }

  /** A position that is not open adds nothing, and the mark changes nothing but the three marked amounts. */
  lemma MarkTouches(b: Book, prices: map<string, real>)
    ensures forall s :: s in b.rows && b.rows[s].longQuantity <= 0.0 ==>
      Marked(b.(rows := b.rows - {s}), prices).summary == Marked(b, prices).summary
    ensures Marked(b, prices).rows == b.rows
    ensures Marked(b, prices).summary.(nav := b.summary.nav, totalLongExposure := b.summary.totalLongExposure,
                                       unrealizedPnl := b.summary.unrealizedPnl) == b.summary
  {
    forall s | s in b.rows && b.rows[s].longQuantity <= 0.0
      ensures Marked(b.(rows := b.rows - {s}), prices).summary == Marked(b, prices).summary
    {
      ClosedRowAddsNothing(b, prices, s);
    }
  }

  /** The mark does not depend on the price of a symbol that has been taken out. */
  lemma PriceOfAbsent(b: Book, prices: map<string, real>, s: string, price: real)
    requires s !in b.rows
    ensures Marked(b, prices[s := price]) == Marked(b, prices)
  {
    var some, all := OpenValues(b.rows, prices[s := price]), OpenValues(b.rows, prices);
    assert forall r :: r in all ==> some[r] == all[r];
    assert some == all;
  }

  /** Moving one usable price by `x` moves nav, exposure and unrealized P&L by `x` for every share held long. */
  lemma PriceMovesMark(b: Book, prices: map<string, real>, s: string, x: real)
    requires s in b.rows && b.rows[s].longQuantity > 0.0
    requires s in prices && prices[s] > 0.0 && prices[s] + x > 0.0
    ensures var before, after := Marked(b, prices).summary, Marked(b, prices[s := prices[s] + x]).summary;
      var gain := Times(x, b.rows[s].longQuantity);
      && after.nav == before.nav + gain && after.totalLongExposure == before.totalLongExposure + gain
      && after.unrealizedPnl == before.unrealizedPnl + gain
  {
    var moved, q := prices[s := prices[s] + x], b.rows[s].longQuantity;
    PositionContributes(b, prices, s);
    PositionContributes(b, moved, s);
    PriceOfAbsent(b.(rows := b.rows - {s}), prices, s, prices[s] + x);
    assert Times(prices[s] + x, q) == Times(prices[s], q) + Times(x, q);
  }

  function Unpriced(symbols: set<string>, prices: map<string, real>): set<string> {
    set s | s in symbols && !Usable(prices, s)
  }

  lemma UnpricedVisit(todo: set<string>, s: string, prices: map<string, real>)
    requires s in todo
    ensures |Unpriced(todo, prices)| == |Unpriced(todo - {s}, prices)| + (if Usable(prices, s) then 0 else 1)
  {
    assert Unpriced(todo, prices)
        == Unpriced(todo - {s}, prices) + if Usable(prices, s) then {} else {s};
  }

  // ----- the detail of a mark -------------------------------------------------------

  datatype Detail = Detail(
    symbol: string, quantity: real, price: Option<real>, marketValue: real, costBasis: real,
    unrealizedPnl: real, weight: real)

  function Weight(value: real, nav: real): real { if nav > 0.0 then value / nav else 0.0 }

  function DetailOf(p: Position, symbol: string, prices: map<string, real>, nav: real): Detail {
    var mv := MarketValue(p, symbol, prices);
    Detail(symbol, p.longQuantity, if Usable(prices, symbol) then Some(prices[symbol]) else None,
           mv, p.longCostBasis, mv - p.longCostBasis, Weight(mv, nav))
  }

  /** The sort key (-market value, symbol). */
  const ByValue: (Detail, Detail) -> bool :=
    (a: Detail, b: Detail) =>
      a.marketValue > b.marketValue || (a.marketValue == b.marketValue && LexLe(a.symbol, b.symbol))

  lemma ByValueOrder()
    ensures TotalPreorder(ByValue)
  {
    forall a, b ensures ByValue(a, b) || ByValue(b, a) {
      LexTotal(a.symbol, b.symbol);
    }
    forall a, b, c | ByValue(a, b) && ByValue(b, c) ensures ByValue(a, c) {
      if a.marketValue == b.marketValue == c.marketValue {
        LexTransitive(a.symbol, b.symbol, c.symbol);
      }
    }
  }

  /** A list with exactly one detail for each of the symbols. */
  ghost predicate Lists(detail: seq<Detail>, rows: map<string, Position>, symbols: set<string>,
                        prices: map<string, real>, nav: real)
  {
    && symbols <= rows.Keys
    && (forall d :: d in detail <==> d.symbol in symbols && d == DetailOf(rows[d.symbol], d.symbol, prices, nav))
    && (forall i, j :: 0 <= i < j < |detail| ==> detail[i].symbol != detail[j].symbol)
  }

  lemma ListsVisit(detail: seq<Detail>, rows: map<string, Position>, symbols: set<string>,
                   prices: map<string, real>, nav: real, s: string)
    requires Lists(detail, rows, symbols, prices, nav) && s in rows && s !in symbols
    ensures Lists(detail + [DetailOf(rows[s], s, prices, nav)], rows, symbols + {s}, prices, nav)
  {
    var d := DetailOf(rows[s], s, prices, nav);
    forall i | 0 <= i < |detail| ensures detail[i].symbol != s {
      assert detail[i] in detail;
    }
  }

  function Weighted(detail: seq<Detail>, nav: real): seq<Detail> {
    seq(|detail|, i requires 0 <= i < |detail| => detail[i].(weight := Weight(detail[i].marketValue, nav)))
  }

  lemma ListsWeighted(detail: seq<Detail>, rows: map<string, Position>, symbols: set<string>,
                      prices: map<string, real>, before: real, nav: real)
    requires Lists(detail, rows, symbols, prices, before)
    ensures Lists(Weighted(detail, nav), rows, symbols, prices, nav)
  {
    var w := Weighted(detail, nav);
    forall i | 0 <= i < |w|
      ensures w[i].symbol in symbols && w[i] == DetailOf(rows[w[i].symbol], w[i].symbol, prices, nav)
    {
      assert detail[i] in detail;
    }
    forall s | s in symbols ensures DetailOf(rows[s], s, prices, nav) in w {
      var d := DetailOf(rows[s], s, prices, before);
      assert d in detail;
      var i :| 0 <= i < |detail| && detail[i] == d;
      assert w[i] == DetailOf(rows[s], s, prices, nav);
    }
  }

  lemma ListsSorted(detail: seq<Detail>, rows: map<string, Position>, symbols: set<string>,
                    prices: map<string, real>, nav: real)
    requires Lists(detail, rows, symbols, prices, nav)
    ensures Lists(Sort(detail, ByValue), rows, symbols, prices, nav) && SortedBy(Sort(detail, ByValue), ByValue)
  {
    ByValueOrder();
    SortSorts(detail, ByValue);
    SortMembers(detail, ByValue);
    var sorted := Sort(detail, ByValue);
    assert Distinct(detail);
    MultisetDistinct(detail, sorted);
    forall i, j | 0 <= i < j < |sorted| ensures sorted[i].symbol != sorted[j].symbol {
      assert sorted[i] in detail && sorted[j] in detail;
    }
  }

  function TotalWeight(detail: seq<Detail>): real {
    if detail == [] then 0.0 else TotalWeight(detail[..|detail| - 1]) + detail[|detail| - 1].weight
  }

  function TotalValue(detail: seq<Detail>): real {
    if detail == [] then 0.0 else TotalValue(detail[..|detail| - 1]) + detail[|detail| - 1].marketValue
  }

  lemma {:induction false} WeightsAreShares(detail: seq<Detail>, nav: real)
    requires nav > 0.0 && forall i :: 0 <= i < |detail| ==> detail[i].weight == Weight(detail[i].marketValue, nav)
    ensures TotalWeight(detail) == Quotient(TotalValue(detail), nav)
  {
    QuotientAdds(0.0, 0.0, nav);
    if detail != [] {
      WeightsAreShares(detail[..|detail| - 1], nav);
      QuotientAdds(TotalValue(detail[..|detail| - 1]), detail[|detail| - 1].marketValue, nav);
    }
  }

  ghost predicate ValuesOf(values: map<string, real>, rows: map<string, Position>, symbols: set<string>,
                           prices: map<string, real>)
  {
    values.Keys == symbols <= rows.Keys && forall s :: s in symbols ==> values[s] == MarketValue(rows[s], s, prices)
  }

  lemma EmptyLacks(d: Detail)
    ensures d !in []
  {
  }

  lemma ListsNothing(rows: map<string, Position>, symbols: set<string>, prices: map<string, real>, nav: real)
    requires Lists([], rows, symbols, prices, nav)
    ensures symbols == {}
  {
    if symbols != {} {
      var s :| s in symbols;
      EmptyLacks(DetailOf(rows[s], s, prices, nav));
    }
  }

  lemma ListsDrop(before: seq<Detail>, last: Detail, rows: map<string, Position>, symbols: set<string>,
                  prices: map<string, real>, nav: real)
    requires Lists(before + [last], rows, symbols, prices, nav)
    ensures Lists(before, rows, symbols - {last.symbol}, prices, nav)
  {
    var all := before + [last];
    assert all[|before|] == last && forall i :: 0 <= i < |before| ==> before[i] == all[i];
    forall d ensures d in before <==> d in all && d.symbol != last.symbol {
      if d in before {
        var i :| 0 <= i < |before| && before[i] == d;
        assert all[i].symbol != all[|before|].symbol;
      }
    }
  }

  lemma {:induction false} ValuesOfDetail(detail: seq<Detail>, rows: map<string, Position>, symbols: set<string>,
                                          prices: map<string, real>, nav: real, values: map<string, real>)
    requires Lists(detail, rows, symbols, prices, nav) && ValuesOf(values, rows, symbols, prices)
    ensures TotalValue(detail) == Total(values)
    decreases |detail|
  {
    if detail == [] {
      ListsNothing(rows, symbols, prices, nav);
      assert values == map[];
    } else {
      var before, last := detail[..|detail| - 1], detail[|detail| - 1];
      assert detail == before + [last] && last in detail;
      ListsDrop(before, last, rows, symbols, prices, nav);
      ValuesOfDetail(before, rows, symbols - {last.symbol}, prices, nav, values - {last.symbol});
      TotalPick(values, last.symbol);
    }
  }

  /** The weights of a mark with positive nav and the cash weight add up to one. */
  lemma MarkWeights(b: Book, prices: map<string, real>, detail: seq<Detail>)
    requires var nav := Marked(b, prices).summary.nav;
      nav > 0.0 && Lists(detail, b.rows, OpenCosts(b.rows).Keys, prices, nav)
    ensures TotalWeight(detail) + Quotient(b.summary.cash, Marked(b, prices).summary.nav) == 1.0
  {
    var nav := Marked(b, prices).summary.nav;
    ValuesOfDetail(detail, b.rows, OpenCosts(b.rows).Keys, prices, nav, OpenValues(b.rows, prices));
    forall i | 0 <= i < |detail| ensures detail[i].weight == Weight(detail[i].marketValue, nav) {
      assert detail[i] in detail;
    }
    WeightsAreShares(detail, nav);
    QuotientAdds(Total(OpenValues(b.rows, prices)), b.summary.cash, nav);
  }

  /**
   Every entry of the detail says what its position adds to nav: without it nav would be lower by just that value.
   Quantity and basis are those of the row, the price is the one used, and the weight is the share in nav.
   */
  lemma DetailExplainsNav(b: Book, prices: map<string, real>, detail: seq<Detail>, d: Detail)
    requires Lists(detail, b.rows, OpenCosts(b.rows).Keys, prices, Marked(b, prices).summary.nav) && d in detail
    ensures d.symbol in b.rows && b.rows[d.symbol].longQuantity > 0.0
    ensures var p, nav := b.rows[d.symbol], Marked(b, prices).summary.nav;
      && d.marketValue == nav - Marked(b.(rows := b.rows - {d.symbol}), prices).summary.nav
      && d.quantity == p.longQuantity && d.costBasis == p.longCostBasis
      && d.unrealizedPnl == d.marketValue - d.costBasis
      && d.price == (if d.symbol in prices && prices[d.symbol] > 0.0 then Some(prices[d.symbol]) else None)
      && (nav > 0.0 ==> Times(d.weight, nav) == d.marketValue) && (nav <= 0.0 ==> d.weight == 0.0)
  {
    PositionContributes(b, prices, d.symbol);
    if Marked(b, prices).summary.nav > 0.0 {
      QuotientTimes(d.marketValue, Marked(b, prices).summary.nav);
    }
  }

  ghost predicate CostsOf(costs: map<string, real>, rows: map<string, Position>, symbols: set<string>) {
    costs.Keys == symbols <= rows.Keys && forall s :: s in symbols ==> costs[s] == rows[s].longCostBasis
  }

  /** What the valuation loop has added up once the positions outside `todo` have been visited. */
  ghost predicate Tallied(values: map<string, real>, costs: map<string, real>, rows: map<string, Position>,
                          open: set<string>, todo: set<string>, prices: map<string, real>,
                          mv: real, cost: real, unpriced: nat, detail: seq<Detail>)
  {
    && mv + Total(Restrict(values, todo)) == Total(values)
    && cost + Total(Restrict(costs, todo)) == Total(costs)
    && unpriced + |Unpriced(todo, prices)| == |Unpriced(open, prices)|
    && Lists(detail, rows, open - todo, prices, 0.0)
  }

  lemma TalliedBounds(values: map<string, real>, costs: map<string, real>, rows: map<string, Position>,
                      open: set<string>, prices: map<string, real>)
    requires values.Keys == costs.Keys == open <= rows.Keys
    ensures Tallied(values, costs, rows, open, open, prices, 0.0, 0.0, 0, [])
    ensures forall mv, cost, unpriced, detail ::
      Tallied(values, costs, rows, open, {}, prices, mv, cost, unpriced, detail) ==>
        && mv == Total(values) && cost == Total(costs) && unpriced == |Unpriced(open, prices)|
        && Lists(detail, rows, open, prices, 0.0)
  {
    assert Restrict(values, open) == values && Restrict(costs, open) == costs && open - open == {};
    assert Restrict(values, {}) == map[] && Restrict(costs, {}) == map[] && open - {} == open;
    assert Unpriced({}, prices) == {};
  }

  lemma TalliedVisit(values: map<string, real>, costs: map<string, real>, rows: map<string, Position>,
                     open: set<string>, todo: set<string>, prices: map<string, real>,
                     mv: real, cost: real, unpriced: nat, detail: seq<Detail>, s: string)
    requires ValuesOf(values, rows, open, prices) && CostsOf(costs, rows, open) && s in todo && todo <= open
    requires Tallied(values, costs, rows, open, todo, prices, mv, cost, unpriced, detail)
    ensures var d := DetailOf(rows[s], s, prices, 0.0);
      Tallied(values, costs, rows, open, todo - {s}, prices, mv + d.marketValue, cost + d.costBasis,
              if d.price == None then unpriced + 1 else unpriced, detail + [d])
  {
    RestrictVisit(values, todo, s);
    RestrictVisit(costs, todo, s);
    UnpricedVisit(todo, s, prices);
    ListsVisit(detail, rows, open - todo, prices, 0.0, s);
    assert open - (todo - {s}) == open - todo + {s};
  }

  /** The open positions for which there is no positive price. */
  function OpenUnpriced(rows: map<string, Position>, prices: map<string, real>): set<string> {
    set s | s in rows && rows[s].longQuantity > 0.0 && (s !in prices || prices[s] <= 0.0)
  }

  lemma UnpricedOpen(rows: map<string, Position>, prices: map<string, real>)
    ensures Unpriced(OpenCosts(rows).Keys, prices) == OpenUnpriced(rows, prices)
  {
  }

  /** Larger market values first, equal ones alphabetically. */
  ghost predicate LargestFirst(detail: seq<Detail>) {
    forall i, j :: 0 <= i < j < |detail| ==>
      detail[i].marketValue > detail[j].marketValue
      || (detail[i].marketValue == detail[j].marketValue && LexLe(detail[i].symbol, detail[j].symbol))
  }

  lemma SortedIsLargestFirst(detail: seq<Detail>)
    requires SortedBy(detail, ByValue)
    ensures LargestFirst(detail)
  {
    forall i, j | 0 <= i < j < |detail|
      ensures detail[i].marketValue > detail[j].marketValue
              || (detail[i].marketValue == detail[j].marketValue && LexLe(detail[i].symbol, detail[j].symbol))
    {
      assert ByValue(detail[i], detail[j]);
    }
  }

  datatype MarkResult = MarkResult(
    nav: real, cash: real, unrealized: real, realized: real, priced: nat, unpriced: nat, detail: seq<Detail>)

  lemma SubsetSize<T>(a: set<T>, b: set<T>)
    requires a <= b
    ensures |a| <= |b|
  {
    assert b == a + (b - a);
  }

  /** The portfolio service: one book per branch. */
  class PortfolioService {
    var books: Books

    constructor (books: Books)
      ensures this.books == books
    {
      this.books := books;
    }

    /** The SELL branch: average-cost realization on the long leg. */
    static method UpdateOnSell(p: Position, t: Trade, marginRequirement: real)
      returns (r: Result<Posting, LedgerError>)
      requires t.side == Sell
      ensures match Post(p, t, marginRequirement)
        case Success(x) => r.Success? && r.value == x
        case Failure(e) => r == Failure(e)
    {
      var position := p;
      if position.longQuantity < t.quantity {
        assert Post(p, t, marginRequirement).Failure?;
        return Failure(Oversell(position.longQuantity));
      }
      var avgCost := if position.longQuantity > 0.0 then position.longCostBasis / position.longQuantity else 0.0;
      assert avgCost == AverageCost(p);
      var realized := Times(t.price - avgCost, t.quantity) - t.commission;
      position := position.(realizedPnlLong := position.realizedPnlLong + realized);
      position := position.(longCostBasis := position.longCostBasis - Times(avgCost, t.quantity));
      position := position.(longQuantity := position.longQuantity - t.quantity);
      r := Success(Posting(position, t.price * t.quantity - t.commission, realized));
      assert r.value == SoldAt(p, t, avgCost);
    }

    /** The COVER branch: average-price realization and pro-rata margin release on the short leg. */
    static method UpdateOnCover(p: Position, t: Trade, marginRequirement: real)
      returns (r: Result<Posting, LedgerError>)
      requires t.side == Cover
      ensures match Post(p, t, marginRequirement)
        case Success(x) => r.Success? && r.value == x
        case Failure(e) => r == Failure(e)
    {
      var position := p;
      if position.shortQuantity < t.quantity {
        assert Post(p, t, marginRequirement).Failure?;
        return Failure(Overcover(position.shortQuantity));
      }
      var avgShortPrice :=
        if position.shortQuantity > 0.0 then position.shortCostBasis / position.shortQuantity else 0.0;
      assert avgShortPrice == AverageShortPrice(p);
      var realized := Times(avgShortPrice - t.price, t.quantity) - t.commission;
      position := position.(realizedPnlShort := position.realizedPnlShort + realized);
      position := position.(shortCostBasis := position.shortCostBasis - Times(avgShortPrice, t.quantity));
      var marginRelease :=
        if position.shortQuantity > 0.0
        then Times(position.shortMarginUsed, t.quantity / position.shortQuantity) else 0.0;
      position := position.(shortMarginUsed := position.shortMarginUsed - marginRelease);
      position := position.(shortQuantity := position.shortQuantity - t.quantity);
      r := Success(Posting(position, -(t.price * t.quantity + t.commission), realized));
      assert r.value == CoveredAt(p, t, avgShortPrice);
    }

    /** The four trade sides: updates the row field by field and returns the cash and P&L effects. */
    static method UpdatePosition(p: Position, t: Trade, marginRequirement: real)
      returns (r: Result<Posting, LedgerError>)
      ensures match Post(p, t, marginRequirement)
        case Success(x) => r.Success? && r.value == x
        case Failure(e) => r == Failure(e)
    {
      var position := p;
      match t.side {
        case Buy =>
          var tradeCost := t.price * t.quantity + t.commission;
          position := position.(longQuantity := position.longQuantity + t.quantity);
          position := position.(longCostBasis := position.longCostBasis + tradeCost);
          r := Success(Posting(position, -tradeCost, 0.0));
        case Sell =>
          r := UpdateOnSell(position, t, marginRequirement);
        case Short =>
          var tradeProceeds := t.price * t.quantity - t.commission;
          position := position.(shortQuantity := position.shortQuantity + t.quantity);
          position := position.(shortCostBasis := position.shortCostBasis + tradeProceeds);
          var marginRequired := t.price * t.quantity * marginRequirement;
          position := position.(shortMarginUsed := position.shortMarginUsed + marginRequired);
          r := Success(Posting(position, tradeProceeds, 0.0));
        case Cover =>
          r := UpdateOnCover(position, t, marginRequirement);
      }
    }

    /** Writes the row, then deletes it again when both legs are zero. */
    static method UpsertRow(before: map<string, Position>, symbol: string, row: Position)
      returns (rows: map<string, Position>)
      ensures rows == Store(before, symbol, row)
    {
      rows := before[symbol := row];
      if row.longQuantity == 0.0 && row.shortQuantity == 0.0 {
        rows := rows - {symbol};
        assert rows == before - {symbol};
      }
    }

    /** Upserts the row, deletes it when flat, recomputes the aggregates and writes the summary back. */
    method Persist(branch: string, symbol: string, x: Posting)
      requires branch in books
      modifies this
      ensures books == old(books)[branch := Enter(old(books)[branch], symbol, x)]
    {
      var summary := books[branch].summary;
      var rows := UpsertRow(books[branch].rows, symbol, x.row);
      var totalLong := TotalOf(Column(rows, LongCost));
      var totalShort := TotalOf(Column(rows, ShortCost));
      var totalMargin := TotalOf(Column(rows, Margin));
      var newCash := summary.cash + x.cashDelta;
      summary := summary.(cash := newCash, nav := newCash + totalLong,
                          totalLongExposure := totalLong, totalShortExposure := totalShort,
                          marginUsed := totalMargin, unrealizedPnl := 0.0,
                          realizedPnl := summary.realizedPnl + x.realizedDelta);
      books := books[branch := Book(summary, rows)];
    }

    /** Applies one fill: finds or creates the row, updates it, stores it, recomputes the aggregates. */
    method HandleTradeExecuted(t: Trade) returns (error: Option<LedgerError>)
      modifies this
      ensures match SettleIn(old(books), t)
        case Success(settled) => error == None && books == settled
        case Failure(e) => error == Some(e) && books == old(books)
    {
      if t.branch !in books {
        return Some(NoPortfolio);
      }
      var summary, rows := books[t.branch].summary, books[t.branch].rows;
      var position := if t.symbol in rows then rows[t.symbol] else NO_POSITION;
      var posted := UpdatePosition(position, t, summary.marginRequirement);
      if posted.Failure? {
        return Some(posted.error);
      }
      Persist(t.branch, t.symbol, posted.value);
      error := None;
    }

    /** Values one position, at cost if it has no usable price; its weight is filled in later. */
    static method ValuePosition(p: Position, symbol: string, prices: map<string, real>) returns (d: Detail)
      ensures d == DetailOf(p, symbol, prices, 0.0)
    {
      var price, mv := None, p.longCostBasis;
      if symbol in prices && prices[symbol] > 0.0 {
        price, mv := Some(prices[symbol]), Times(prices[symbol], p.longQuantity);
      }
      d := Detail(symbol, p.longQuantity, price, mv, p.longCostBasis, mv - p.longCostBasis, 0.0);
    }

    /** Values the open positions one by one, carrying unpriced ones at cost. */
    static method ValuePositions(rows: map<string, Position>, open: set<string>, prices: map<string, real>,
                                 ghost values: map<string, real>, ghost costs: map<string, real>)
      returns (totalMv: real, totalCost: real, unpriced: nat, detail: seq<Detail>)
      requires ValuesOf(values, rows, open, prices) && CostsOf(costs, rows, open)
      ensures totalMv == Total(values) && totalCost == Total(costs)
      ensures unpriced == |Unpriced(open, prices)|
      ensures Lists(detail, rows, open, prices, 0.0)
    {
      totalMv, totalCost, unpriced, detail := 0.0, 0.0, 0, [];
      var todo := open;
      TalliedBounds(values, costs, rows, open, prices);
      while todo != {}
        invariant todo <= open
        invariant Tallied(values, costs, rows, open, todo, prices, totalMv, totalCost, unpriced, detail)
        decreases |todo|
      {
        var s :| s in todo;
        TalliedVisit(values, costs, rows, open, todo, prices, totalMv, totalCost, unpriced, detail, s);
        var d := ValuePosition(rows[s], s, prices);
        if d.price == None {
          unpriced := unpriced + 1;
        }
        totalMv, totalCost := totalMv + d.marketValue, totalCost + d.costBasis;
        detail := detail + [d];
        todo := todo - {s};
      }
    }

    /** Fills in the weights and sorts by value. */
    static method FinishDetail(listed: seq<Detail>, nav: real, ghost rows: map<string, Position>,
                               ghost open: set<string>, ghost prices: map<string, real>) returns (detail: seq<Detail>)
      requires Lists(listed, rows, open, prices, 0.0)
      ensures Lists(detail, rows, open, prices, nav) && LargestFirst(detail)
    {
      ListsWeighted(listed, rows, open, prices, 0.0, nav);
      ListsSorted(Weighted(listed, nav), rows, open, prices, nav);
      detail := Sort(Weighted(listed, nav), ByValue);
      SortedIsLargestFirst(detail);
    }

    /** Reprices the open long positions of one branch and persists nav, long exposure and unrealized P&L. */
    method MarkToMarket(branch: string, prices: map<string, real>) returns (r: Result<MarkResult, LedgerError>)
      modifies this
      ensures branch !in old(books) ==> r == Failure(NoPortfolio) && books == old(books)
      ensures branch in old(books) ==>
        var b, marked := old(books)[branch], Marked(old(books)[branch], prices);
        && books == old(books)[branch := marked]
        && r.Success?
        && r.value.nav == marked.summary.nav && r.value.cash == b.summary.cash
        && r.value.unrealized == marked.summary.unrealizedPnl && r.value.realized == b.summary.realizedPnl
        && r.value.priced + r.value.unpriced == |OpenCosts(b.rows).Keys|
        && r.value.unpriced == |OpenUnpriced(b.rows, prices)|
        && Lists(r.value.detail, b.rows, OpenCosts(b.rows).Keys, prices, r.value.nav)
        && LargestFirst(r.value.detail)
    {
      if branch !in books {
        return Failure(NoPortfolio);
      }
      var summary, rows := books[branch].summary, books[branch].rows;
      var open := set s | s in rows && rows[s].longQuantity > 0.0;
      assert open == OpenCosts(rows).Keys;
      var totalMv, totalCost, unpriced, detail :=
        ValuePositions(rows, open, prices, OpenValues(rows, prices), OpenCosts(rows));
      SubsetSize(Unpriced(open, prices), open);
      UnpricedOpen(rows, prices);
      var nav, unrealized := summary.cash + totalMv, totalMv - totalCost;
      detail := FinishDetail(detail, nav, rows, open, prices);
      r := Success(MarkResult(nav, summary.cash, unrealized, summary.realizedPnl, |open| - unpriced, unpriced, detail));
      summary := summary.(nav := nav, totalLongExposure := totalMv, unrealizedPnl := unrealized);
      books := books[branch := Book(summary, rows)];
    }
  }
}
