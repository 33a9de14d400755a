/**
 The snapshot backfill: a second implementation of the long-only ledger, replayed day by day from the
 trade log and valued at carried-forward closes. The New York date of a timestamp is a parameter.
 */
module Replay {
  import opened Prelude
  import opened Sums
  import opened Sorting
  import opened Ledger
  import opened Execution

  const DUST := 0.000000001
  const GRID := 100000000.0

  datatype Holding = Holding(quantity: real, costBasis: real, close: Option<real>, marketValue: real)

  datatype DailyState = DailyState(
    day: int, cash: real, nav: real, unrealizedPnl: real, realizedPnl: real, positions: map<string, Holding>)

  datatype ReplayError = UnsupportedSide | LedgerInconsistency(symbol: string, quantity: real, held: real)

  type Closes = map<string, map<int, real>>

  /** The accumulators of the replay: cash, realized total, and one quantity and cost per symbol ever traded. */
  datatype Tape = Tape(cash: real, realized: real, qty: map<string, real>, cost: map<string, real>)

  // ----- specification ------------------------------------------------------------

  function QtyOf(l: Tape, s: string): real { GetOr(l.qty, s, 0.0) }

  function CostOf(l: Tape, s: string): real { GetOr(l.cost, s, 0.0) }

  function ReplayTrade(l: Tape, t: Trade): Result<Tape, ReplayError> {
    var held, cost := QtyOf(l, t.symbol), CostOf(l, t.symbol);
    if t.side == Buy then
      var tradeCost := t.price * t.quantity + t.commission;
      Success(Tape(l.cash - tradeCost, l.realized,
                   l.qty[t.symbol := held + t.quantity], l.cost[t.symbol := cost + tradeCost]))
    else if held < t.quantity - DUST then Failure(LedgerInconsistency(t.symbol, t.quantity, held))
    else
      var avg := Average(cost, held);
      Success(Tape(l.cash + (t.price * t.quantity - t.commission),
                   l.realized + (Times(t.price - avg, t.quantity) - t.commission),
                   l.qty[t.symbol := held - t.quantity], l.cost[t.symbol := cost - Times(avg, t.quantity)]))
  }

  function ReplayAll(l: Tape, ts: seq<Trade>): Result<Tape, ReplayError> {
    if ts == [] then Success(l) else
      match ReplayAll(l, ts[..|ts| - 1])
      case Failure(e) => Failure(e)
      case Success(l') => ReplayTrade(l', ts[|ts| - 1])
  }

  function TradesOn(ts: seq<Trade>, day: int, nyDate: int -> int): seq<Trade> {
    if ts == [] then [] else
      var last := ts[|ts| - 1];
      TradesOn(ts[..|ts| - 1], day, nyDate) + (if nyDate(last.executedAt) == day then [last] else [])
  }

  predicate Held(l: Tape, s: string) { s in l.qty && l.qty[s] > DUST }

  function Fresh(l: Tape, closes: Closes, day: int): map<string, real> {
    map s | s in l.qty && Held(l, s) && s in closes && day in closes[s] :: closes[s][day]
  }

  /** Closes seen so far; only symbols held on the day refresh theirs. */
  function Carry(l: Tape, lastClose: map<string, real>, closes: Closes, day: int): map<string, real> {
    lastClose + Fresh(l, closes, day)
  }

  function HoldingOf(l: Tape, carried: map<string, real>, s: string): Holding
    requires s in l.qty
  {
    var close := if s in carried then Some(carried[s]) else None;
    Holding(l.qty[s], CostOf(l, s), close,
            if s in carried then carried[s] * l.qty[s] else CostOf(l, s))
  }

  function Holdings(l: Tape, carried: map<string, real>): map<string, Holding> {
    map s | s in l.qty && Held(l, s) :: HoldingOf(l, carried, s)
  }

  function Values(hs: map<string, Holding>): map<string, real> { map s | s in hs :: hs[s].marketValue }

  function Costs(hs: map<string, Holding>): map<string, real> { map s | s in hs :: hs[s].costBasis }

  ghost function StateOn(day: int, l: Tape, carried: map<string, real>): DailyState {
    var hs := Holdings(l, carried);
    DailyState(day, l.cash, l.cash + Total(Values(hs)), Total(Values(hs)) - Total(Costs(hs)), l.realized, hs)
  }

  datatype Progress = Progress(tape: Tape, lastClose: map<string, real>, states: seq<DailyState>)

  ghost function DayStep(p: Progress, day: int, today: seq<Trade>, closes: Closes): Result<Progress, ReplayError> {
    match ReplayAll(p.tape, today)
    case Failure(e) => Failure(e)
    case Success(tape) =>
      var carried := Carry(tape, p.lastClose, closes, day);
      Success(Progress(tape, carried, p.states + [StateOn(day, tape, carried)]))
  }

  ghost function ReplayDays(start: Tape, ts: seq<Trade>, days: seq<int>, closes: Closes, nyDate: int -> int)
    : Result<Progress, ReplayError>
  {
    if days == [] then Success(Progress(start, map[], [])) else
      var day := days[|days| - 1];
      match ReplayDays(start, ts, days[..|days| - 1], closes, nyDate)
      case Failure(e) => Failure(e)
      case Success(p) => DayStep(p, day, TradesOn(ts, day, nyDate), closes)
  }

  predicate LongSide(t: Trade) { t.side == Buy || t.side == Sell }

  const ByTime: (Trade, Trade) -> bool := (t: Trade, u: Trade) => t.executedAt <= u.executedAt
  const Ascending: (int, int) -> bool := (i: int, j: int) => i <= j

  function StartTape(cash: real): Tape { Tape(cash, 0.0, map[], map[]) }

  ghost function Reconstructed(trades: seq<Trade>, initialCash: real, closes: Closes,
                               tradingDays: seq<int>, nyDate: int -> int): Result<seq<DailyState>, ReplayError>
  {
    if exists i :: 0 <= i < |trades| && !LongSide(trades[i]) then Failure(UnsupportedSide) else
      match ReplayDays(StartTape(initialCash), Sort(trades, ByTime), Sort(tradingDays, Ascending), closes, nyDate)
      case Failure(e) => Failure(e)
      case Success(p) => Success(p.states)
  }

  // ----- where a replay stops ---------------------------------------------------------

  /** The trade asks for more than is held, by more than the tolerance. */
  predicate Oversells(l: Tape, t: Trade) { t.side != Buy && t.quantity > GetOr(l.qty, t.symbol, 0.0) + 0.000000001 }

  /** A replay stops exactly at its first sell of more than is held, and says which, how much and what was held. */
  lemma {:induction false} StopsAtFirstOversell(l: Tape, ts: seq<Trade>) returns (k: nat)
    ensures ReplayAll(l, ts).Failure? ==>
      && k < |ts| && ReplayAll(l, ts[..k]).Success? && Oversells(ReplayAll(l, ts[..k]).value, ts[k])
      && ReplayAll(l, ts).error ==
           LedgerInconsistency(ts[k].symbol, ts[k].quantity, GetOr(ReplayAll(l, ts[..k]).value.qty, ts[k].symbol, 0.0))
    ensures ReplayAll(l, ts).Success? ==>
      ts == [] || (var before := ReplayAll(l, ts[..|ts| - 1]);
                   before.Success? && !Oversells(before.value, ts[|ts| - 1]))
  {
    k := 0;
    if ts != [] {
      var before := ts[..|ts| - 1];
      k := StopsAtFirstOversell(l, before);
      if ReplayAll(l, before).Success? {
        k := |ts| - 1;
      } else {
        assert before[..k] == ts[..k];
      }
    }
  }

  // ----- the replay mirrors the ledger ---------------------------------------------

  predicate GridPoint(q: real, k: int) { q * GRID == k as real }

  /** Quantities as the database stores them: multiples of 1e-8. */
  ghost predicate OnGrid(q: real) { exists k: int :: GridPoint(q, k) }

  lemma GridSum(a: real, b: real)
    requires OnGrid(a) && OnGrid(b)
    ensures OnGrid(a + b) && OnGrid(a - b)
  {
    var k: int :| GridPoint(a, k);
    var n: int :| GridPoint(b, n);
    assert GridPoint(a + b, k + n) && GridPoint(a - b, k - n);
  }

  /** On the grid the replay's tolerance never matters: a quantity above minus the dust is non-negative. */
  lemma GridGap(q: real)
    requires OnGrid(q)
    ensures q >= -DUST <==> q >= 0.0
    ensures q > DUST <==> q > 0.0
  {
    var k: int :| GridPoint(q, k);
  }

  /** A trade the stored log can contain: long-only, positive, on the grid. */
  ghost predicate Stored(t: Trade) {
    LongSide(t) && t.quantity > 0.0 && OnGrid(t.quantity)
  }

  ghost predicate AllStored(ts: seq<Trade>) {
    forall i :: 0 <= i < |ts| ==> Stored(ts[i])
  }

  /** The tape holds the same cash, realized P&L, quantities and costs as the book, closed symbols as zeros. */
  ghost predicate Mirrors(l: Tape, b: Book) {
    && l.cash == b.summary.cash && l.realized == b.summary.realizedPnl
    && l.qty.Keys == l.cost.Keys
    && (forall s :: QtyOf(l, s) == RowOf(b.rows, s).longQuantity)
    && (forall s :: CostOf(l, s) == RowOf(b.rows, s).longCostBasis)
    && (forall s :: s in b.rows ==>
          b.rows[s].shortQuantity == 0.0 && b.rows[s].longQuantity > 0.0 && OnGrid(b.rows[s].longQuantity))
  }

  lemma HeldOnGrid(l: Tape, b: Book, s: string)
    requires Mirrors(l, b)
    ensures OnGrid(QtyOf(l, s)) && QtyOf(l, s) >= 0.0
    ensures Held(l, s) <==> s in b.rows
  {
    if s in b.rows {
      GridGap(b.rows[s].longQuantity);
    } else {
      assert GridPoint(0.0, 0);
    }
  }

  /** What a posting does to the tape. */
  function Record(l: Tape, symbol: string, x: Posting): Tape {
    Tape(l.cash + x.cashDelta, l.realized + x.realizedDelta,
         l.qty[symbol := x.row.longQuantity], l.cost[symbol := x.row.longCostBasis])
  }

  lemma BuyRecords(l: Tape, p: Position, t: Trade, m: real)
    requires t.side == Buy
    requires QtyOf(l, t.symbol) == p.longQuantity && CostOf(l, t.symbol) == p.longCostBasis
    ensures Post(p, t, m).Success? && ReplayTrade(l, t).Success?
    ensures ReplayTrade(l, t).value == Record(l, t.symbol, Post(p, t, m).value)
  {
    var tape, x := ReplayTrade(l, t).value, Post(p, t, m).value;
    assert tape.cash == l.cash + x.cashDelta && tape.realized == l.realized + x.realizedDelta;
    assert tape.qty[t.symbol] == x.row.longQuantity && tape.cost[t.symbol] == x.row.longCostBasis;
  }

  lemma SellRecords(l: Tape, p: Position, t: Trade, m: real)
    requires t.side == Sell && Post(p, t, m).Success?
    requires QtyOf(l, t.symbol) == p.longQuantity && CostOf(l, t.symbol) == p.longCostBasis
    ensures ReplayTrade(l, t).Success?
    ensures ReplayTrade(l, t).value == Record(l, t.symbol, Post(p, t, m).value)
  {
    var tape, x := ReplayTrade(l, t).value, Post(p, t, m).value;
    assert tape.cash == l.cash + x.cashDelta;
    assert tape.realized == l.realized + x.realizedDelta;
    assert tape.qty[t.symbol] == x.row.longQuantity;
    assert tape.cost[t.symbol] == x.row.longCostBasis;
  }

  lemma ReplayRecords(l: Tape, b: Book, t: Trade)
    requires LongSide(t)
    requires QtyOf(l, t.symbol) == RowOf(b.rows, t.symbol).longQuantity
    requires CostOf(l, t.symbol) == RowOf(b.rows, t.symbol).longCostBasis
    ensures var posted := Post(RowOf(b.rows, t.symbol), t, b.summary.marginRequirement);
      posted.Success? ==>
        ReplayTrade(l, t).Success? && ReplayTrade(l, t).value == Record(l, t.symbol, posted.value)
    ensures ReplayTrade(l, t).Failure? <==> t.side == Sell && QtyOf(l, t.symbol) < t.quantity - DUST
  {
    var p, m := RowOf(b.rows, t.symbol), b.summary.marginRequirement;
    if t.side == Buy {
      BuyRecords(l, p, t, m);
    } else if Post(p, t, m).Success? {
      SellRecords(l, p, t, m);
    }
  }

  /** The quantities and costs of every symbol agree after a posting. */
  lemma RecordAmounts(l: Tape, rows: map<string, Position>, symbol: string, x: Posting, s: string)
    requires QtyOf(l, s) == RowOf(rows, s).longQuantity && CostOf(l, s) == RowOf(rows, s).longCostBasis
    requires Flat(x.row) ==> x.row.longCostBasis == 0.0
    ensures QtyOf(Record(l, symbol, x), s) == RowOf(Store(rows, symbol, x.row), s).longQuantity
    ensures CostOf(Record(l, symbol, x), s) == RowOf(Store(rows, symbol, x.row), s).longCostBasis
  {
  }

  lemma RecordMirrors(l: Tape, b: Book, symbol: string, x: Posting)
    requires Mirrors(l, b) && Clean(x.row)
    requires x.row.shortQuantity == 0.0 && OnGrid(x.row.longQuantity)
    ensures Mirrors(Record(l, symbol, x), Enter(b, symbol, x))
  {
    var b' := Enter(b, symbol, x);
    assert b'.rows == Store(b.rows, symbol, x.row);
    forall s
      ensures QtyOf(Record(l, symbol, x), s) == RowOf(b'.rows, s).longQuantity
      ensures CostOf(Record(l, symbol, x), s) == RowOf(b'.rows, s).longCostBasis
    {
      RecordAmounts(l, b.rows, symbol, x, s);
    }
  }

  /** The two guards refuse the same trades: on the grid the replay's tolerance makes no difference. */
  lemma RefusalsAgree(l: Tape, b: Book, t: Trade)
    requires Mirrors(l, b) && Stored(t)
    ensures ReplayTrade(l, t).Success? <==> Settle(b, t).Success?
  {
    var p := RowOf(b.rows, t.symbol);
    HeldOnGrid(l, b, t.symbol);
    GridSum(p.longQuantity, t.quantity);
    GridGap(p.longQuantity - t.quantity);
    ReplayRecords(l, b, t);
  }

  /** An accepted stored trade leaves a clean long row on the grid. */
  lemma PostOnGrid(l: Tape, b: Book, t: Trade)
    requires Mirrors(l, b) && Sound(b) && Stored(t)
    requires Post(RowOf(b.rows, t.symbol), t, b.summary.marginRequirement).Success?
    ensures var row := Post(RowOf(b.rows, t.symbol), t, b.summary.marginRequirement).value.row;
      Clean(row) && row.shortQuantity == 0.0 && OnGrid(row.longQuantity)
  {
    var p := RowOf(b.rows, t.symbol);
    HeldOnGrid(l, b, t.symbol);
    GridSum(p.longQuantity, t.quantity);
    RegularOpens(p, t, b.summary.marginRequirement);
    PostCleanExactly(p, t, b.summary.marginRequirement);
  }

  lemma TradeMirrors(l: Tape, b: Book, t: Trade)
    requires Mirrors(l, b) && Sound(b) && Stored(t)
    ensures ReplayTrade(l, t).Success? <==> Settle(b, t).Success?
    ensures Settle(b, t).Success? ==>
      Mirrors(ReplayTrade(l, t).value, Settle(b, t).value) && Sound(Settle(b, t).value)
  {
    RefusalsAgree(l, b, t);
    if Settle(b, t).Success? {
      var x := Post(RowOf(b.rows, t.symbol), t, b.summary.marginRequirement).value;
      RegularOpens(RowOf(b.rows, t.symbol), t, b.summary.marginRequirement);
      SettleSoundExact(b, t);
      ReplayRecords(l, b, t);
      PostOnGrid(l, b, t);
      RecordMirrors(l, b, t.symbol, x);
    }
  }

  lemma {:induction false} LogMirrors(l: Tape, b: Book, ts: seq<Trade>)
    requires Mirrors(l, b) && Sound(b) && AllStored(ts)
    ensures ReplayAll(l, ts).Success? <==> Fold(b, ts).Success?
    ensures Fold(b, ts).Success? ==> Mirrors(ReplayAll(l, ts).value, Fold(b, ts).value) && Sound(Fold(b, ts).value)
  {
    if ts != [] {
      var prefix, t := ts[..|ts| - 1], ts[|ts| - 1];
      LogMirrors(l, b, prefix);
      if Fold(b, prefix).Success? {
        TradeMirrors(ReplayAll(l, prefix).value, Fold(b, prefix).value, t);
      }
    }
  }

  // ----- day by day ---------------------------------------------------------------

  /** The trades the day loop reaches, in the order it reaches them. */
  function TradesThrough(ts: seq<Trade>, days: seq<int>, nyDate: int -> int): seq<Trade> {
    if days == [] then [] else
      TradesThrough(ts, days[..|days| - 1], nyDate) + TradesOn(ts, days[|days| - 1], nyDate)
  }

  lemma {:induction false} FoldConcat(b: Book, ts: seq<Trade>, us: seq<Trade>)
    ensures Fold(b, ts + us)
         == (match Fold(b, ts) case Failure(e) => Failure(e) case Success(b') => Fold(b', us))
    decreases |us|
  {
    if us == [] {
      assert ts + us == ts;
    } else {
      FoldConcat(b, ts, us[..|us| - 1]);
      assert (ts + us)[..|ts + us| - 1] == ts + us[..|us| - 1];
    }
  }

  lemma {:induction false} TradesOnStored(ts: seq<Trade>, day: int, nyDate: int -> int)
    requires AllStored(ts)
    ensures AllStored(TradesOn(ts, day, nyDate))
  {
    if ts != [] {
      TradesOnStored(ts[..|ts| - 1], day, nyDate);
    }
  }

  /** What a daily state must show of the live book on that day. */
  ghost predicate Shows(st: DailyState, b: Book) {
    && st.cash == b.summary.cash && st.realizedPnl == b.summary.realizedPnl
    && st.positions.Keys == b.rows.Keys
    && (forall s :: s in b.rows ==>
          st.positions[s].quantity == b.rows[s].longQuantity && st.positions[s].costBasis == b.rows[s].longCostBasis)
    && (forall s :: s in st.positions ==>
          var h := st.positions[s];
          h.marketValue == if h.close.Some? then h.close.value * h.quantity else h.costBasis)
    && st.nav == st.cash + Total(Values(st.positions))
  }

  lemma NoShorts(b: Book)
    requires Sound(b) && forall s :: s in b.rows ==> b.rows[s].shortQuantity == 0.0
    ensures ColumnTotal(b.rows, ShortCost) == 0.0
  {
    TotalZero(Column(b.rows, ShortCost));
  }

  /** The holdings of a state are the open rows of the book. */
  lemma HoldingsShow(l: Tape, carried: map<string, real>, b: Book)
    requires Mirrors(l, b)
    ensures var hs := Holdings(l, carried);
      && hs.Keys == b.rows.Keys
      && forall s :: s in b.rows ==>
           hs[s].quantity == b.rows[s].longQuantity && hs[s].costBasis == b.rows[s].longCostBasis
  {
    forall s ensures Held(l, s) <==> s in b.rows {
      HeldOnGrid(l, b, s);
    }
    forall s | s in b.rows
      ensures Holdings(l, carried)[s].quantity == b.rows[s].longQuantity
      ensures Holdings(l, carried)[s].costBasis == b.rows[s].longCostBasis
    {
      assert QtyOf(l, s) == RowOf(b.rows, s).longQuantity && CostOf(l, s) == RowOf(b.rows, s).longCostBasis;
    }
  }

  lemma StateShowsBook(day: int, l: Tape, carried: map<string, real>, b: Book)
    requires Mirrors(l, b)
    ensures Shows(StateOn(day, l, carried), b)
  {
    HoldingsShow(l, carried, b);
  }

  lemma CostsOfState(l: Tape, carried: map<string, real>, b: Book)
    requires Mirrors(l, b)
    ensures Costs(Holdings(l, carried)) == Column(b.rows, LongCost)
  {
    HoldingsShow(l, carried, b);
  }

  lemma StateShows(day: int, l: Tape, carried: map<string, real>, b: Book)
    requires Mirrors(l, b) && Sound(b)
    ensures Shows(StateOn(day, l, carried), b)
    ensures var st := StateOn(day, l, carried); st.nav == Conserved(b) + st.realizedPnl + st.unrealizedPnl
  {
    StateShowsBook(day, l, carried, b);
    CostsOfState(l, carried, b);
    NoShorts(b);
  }

  lemma {:induction false} ThroughStored(ts: seq<Trade>, days: seq<int>, nyDate: int -> int)
    requires AllStored(ts)
    ensures AllStored(TradesThrough(ts, days, nyDate))
  {
    if days != [] {
      ThroughStored(ts, days[..|days| - 1], nyDate);
      TradesOnStored(ts, days[|days| - 1], nyDate);
    }
  }

  /** The state a day loop over `days` ends with shows the live book after the trades of those days. */
  ghost predicate DayCorrect(st: DailyState, b: Book, ts: seq<Trade>, days: seq<int>, nyDate: int -> int) {
    && days != [] && st.day == days[|days| - 1]
    && var folded := Fold(b, TradesThrough(ts, days, nyDate));
       folded.Success? && Shows(st, folded.value) && st.nav == Conserved(b) + st.realizedPnl + st.unrealizedPnl
  }

  /** One more day of the loop. */
  lemma DayMirrors(p: Progress, b: Book, earlier: Book, ts: seq<Trade>, days: seq<int>, closes: Closes,
                   nyDate: int -> int)
    requires days != [] && Sound(b) && AllStored(ts)
    requires Fold(b, TradesThrough(ts, days[..|days| - 1], nyDate)) == Success(earlier)
    requires Mirrors(p.tape, earlier) && Sound(earlier)
    ensures var day := days[|days| - 1];
      var tape := ReplayAll(p.tape, TradesOn(ts, day, nyDate));
      var folded := Fold(b, TradesThrough(ts, days, nyDate));
      && (tape.Success? <==> folded.Success?)
      && (tape.Success? ==>
            && Mirrors(tape.value, folded.value) && Sound(folded.value)
            && DayCorrect(StateOn(day, tape.value, Carry(tape.value, p.lastClose, closes, day)), b, ts, days, nyDate))
  {
    var day := days[|days| - 1];
    var today, through := TradesOn(ts, day, nyDate), TradesThrough(ts, days, nyDate);
    FoldConcat(b, TradesThrough(ts, days[..|days| - 1], nyDate), today);
    TradesOnStored(ts, day, nyDate);
    LogMirrors(p.tape, earlier, today);
    var tape := ReplayAll(p.tape, today);
    if tape.Success? {
      StateShows(day, tape.value, Carry(tape.value, p.lastClose, closes, day), Fold(b, through).value);
      ThroughStored(ts, days, nyDate);
      RegularIsSound(b, through);
      FoldSound(b, through);
    }
  }

  /** The replay fails exactly when the ledger refuses one of the trades it reaches; otherwise they agree. */
  lemma {:induction false} DaysMirror(start: Tape, b: Book, ts: seq<Trade>, days: seq<int>, closes: Closes,
                                      nyDate: int -> int)
    requires Mirrors(start, b) && Sound(b) && AllStored(ts)
    ensures var r := ReplayDays(start, ts, days, closes, nyDate);
      var folded := Fold(b, TradesThrough(ts, days, nyDate));
      && (r.Success? <==> folded.Success?)
      && (r.Success? ==>
            && Mirrors(r.value.tape, folded.value) && Sound(folded.value)
            && |r.value.states| == |days|
            && (days != [] ==> DayCorrect(r.value.states[|days| - 1], b, ts, days, nyDate)))
  {
    if days != [] {
      var before := days[..|days| - 1];
      DaysMirror(start, b, ts, before, closes, nyDate);
      var p := ReplayDays(start, ts, before, closes, nyDate);
      if p.Success? {
        DayMirrors(p.value, b, Fold(b, TradesThrough(ts, before, nyDate)).value, ts, days, closes, nyDate);
      } else {
        FoldConcat(b, TradesThrough(ts, before, nyDate), TradesOn(ts, days[|days| - 1], nyDate));
      }
    }
  }

  lemma {:induction false} EarlierStates(start: Tape, ts: seq<Trade>, days: seq<int>, closes: Closes,
                                         nyDate: int -> int, k: nat)
    requires k <= |days| && ReplayDays(start, ts, days, closes, nyDate).Success?
    ensures var r := ReplayDays(start, ts, days[..k], closes, nyDate);
      && r.Success? && |r.value.states| == k
      && |ReplayDays(start, ts, days, closes, nyDate).value.states| == |days|
      && r.value.states == ReplayDays(start, ts, days, closes, nyDate).value.states[..k]
    decreases |days|
  {
    if days != [] {
      assert ReplayDays(start, ts, days[..|days| - 1], closes, nyDate).Success?;
    }
    if k == |days| {
      assert days[..k] == days;
      if days != [] {
        EarlierStates(start, ts, days[..|days| - 1], closes, nyDate, |days| - 1);
      }
    } else {
      EarlierStates(start, ts, days[..|days| - 1], closes, nyDate, k);
      assert days[..|days| - 1][..k] == days[..k];
    }
  }

  /** Every daily state, not only the last, shows the live book of that day. */
  lemma EveryDayCorrect(start: Tape, b: Book, ts: seq<Trade>, days: seq<int>, closes: Closes,
                        nyDate: int -> int, i: nat)
    requires Mirrors(start, b) && Sound(b) && AllStored(ts)
    requires i < |days| && ReplayDays(start, ts, days, closes, nyDate).Success?
    ensures var states := ReplayDays(start, ts, days, closes, nyDate).value.states;
      |states| == |days| && DayCorrect(states[i], b, ts, days[..i + 1], nyDate)
  {
    EarlierStates(start, ts, days, closes, nyDate, i + 1);
    DaysMirror(start, b, ts, days[..i + 1], closes, nyDate);
  }

  // ----- every trade is reached ---------------------------------------------------

  ghost predicate StrictlyAscending(days: seq<int>) {
    forall i, j :: 0 <= i < j < |days| ==> days[i] < days[j]
  }

  ghost predicate DayOrdered(ts: seq<Trade>, nyDate: int -> int) {
    forall i, j :: 0 <= i < j < |ts| ==> nyDate(ts[i].executedAt) <= nyDate(ts[j].executedAt)
  }

  lemma {:induction false} NoTradesOn(ts: seq<Trade>, day: int, nyDate: int -> int)
    requires forall i :: 0 <= i < |ts| ==> nyDate(ts[i].executedAt) != day
    ensures TradesOn(ts, day, nyDate) == []
  {
    if ts != [] {
      NoTradesOn(ts[..|ts| - 1], day, nyDate);
    }
  }

  /** A day list without the last trade's day does not see that trade. */
  lemma {:induction false} ThroughSkips(ts: seq<Trade>, days: seq<int>, nyDate: int -> int)
    requires ts != [] && nyDate(ts[|ts| - 1].executedAt) !in days
    ensures TradesThrough(ts, days, nyDate) == TradesThrough(ts[..|ts| - 1], days, nyDate)
  {
    if days != [] {
      ThroughSkips(ts, days[..|days| - 1], nyDate);
    }
  }

  /** No trade falls on a last day that comes after the last trade. */
  lemma NothingLater(ts: seq<Trade>, days: seq<int>, nyDate: int -> int)
    requires ts != [] && days != [] && DayOrdered(ts, nyDate) && StrictlyAscending(days)
    requires nyDate(ts[|ts| - 1].executedAt) in days[..|days| - 1]
    ensures TradesOn(ts, days[|days| - 1], nyDate) == [] && TradesOn(ts[..|ts| - 1], days[|days| - 1], nyDate) == []
  {
    var day := days[|days| - 1];
    forall i | 0 <= i < |ts| ensures nyDate(ts[i].executedAt) != day {
      assert nyDate(ts[i].executedAt) <= nyDate(ts[|ts| - 1].executedAt) < day;
    }
    NoTradesOn(ts, day, nyDate);
    NoTradesOn(ts[..|ts| - 1], day, nyDate);
  }

  /** The last trade of an ordered log comes last in the replay when its day is a trading day. */
  lemma {:induction false} ThroughTakesLast(ts: seq<Trade>, days: seq<int>, nyDate: int -> int)
    requires ts != [] && DayOrdered(ts, nyDate) && StrictlyAscending(days)
    requires nyDate(ts[|ts| - 1].executedAt) in days
    ensures TradesThrough(ts, days, nyDate)
         == TradesThrough(ts[..|ts| - 1], days, nyDate) + [ts[|ts| - 1]]
  {
    var before, day := days[..|days| - 1], days[|days| - 1];
    var prefix, last := ts[..|ts| - 1], ts[|ts| - 1];
    if nyDate(last.executedAt) == day {
      ThroughSkips(ts, before, nyDate);
      assert TradesOn(ts, day, nyDate) == TradesOn(prefix, day, nyDate) + [last];
    } else {
      assert nyDate(last.executedAt) in before;
      ThroughTakesLast(ts, before, nyDate);
      NothingLater(ts, days, nyDate);
      assert TradesThrough(ts, days, nyDate) == TradesThrough(ts, before, nyDate);
      assert TradesThrough(prefix, days, nyDate) == TradesThrough(prefix, before, nyDate);
    }
  }

  /** The trades dated on one of the given days. */
  function DatedOn(ts: seq<Trade>, dates: set<int>, nyDate: int -> int): seq<Trade> {
    if ts == [] then [] else
      var last := ts[|ts| - 1];
      DatedOn(ts[..|ts| - 1], dates, nyDate) + (if nyDate(last.executedAt) in dates then [last] else [])
  }

  function DatesOf(days: seq<int>): set<int> { set d | d in days }

  lemma {:induction false} ThroughNothing(days: seq<int>, nyDate: int -> int)
    ensures TradesThrough([], days, nyDate) == []
  {
    if days != [] {
      ThroughNothing(days[..|days| - 1], nyDate);
    }
  }

  /** The day loop reaches exactly the trades dated on a trading day, in the order of the log. */
  lemma {:induction false} ThroughIsDated(ts: seq<Trade>, days: seq<int>, nyDate: int -> int)
    requires DayOrdered(ts, nyDate) && StrictlyAscending(days)
    ensures TradesThrough(ts, days, nyDate) == DatedOn(ts, DatesOf(days), nyDate)
  {
    if ts == [] {
      ThroughNothing(days, nyDate);
    } else {
      ThroughIsDated(ts[..|ts| - 1], days, nyDate);
      if nyDate(ts[|ts| - 1].executedAt) in days {
        ThroughTakesLast(ts, days, nyDate);
      } else {
        ThroughSkips(ts, days, nyDate);
      }
    }
  }

  lemma {:induction false} DatedLength(ts: seq<Trade>, dates: set<int>, nyDate: int -> int)
    ensures |DatedOn(ts, dates, nyDate)| <= |ts|
    ensures |DatedOn(ts, dates, nyDate)| == |ts| ==> forall i :: 0 <= i < |ts| ==> nyDate(ts[i].executedAt) in dates
  {
    if ts != [] {
      DatedLength(ts[..|ts| - 1], dates, nyDate);
    }
  }

  lemma {:induction false} DatedKeepsAll(ts: seq<Trade>, dates: set<int>, nyDate: int -> int)
    requires forall i :: 0 <= i < |ts| ==> nyDate(ts[i].executedAt) in dates
    ensures DatedOn(ts, dates, nyDate) == ts
  {
    if ts != [] {
      DatedKeepsAll(ts[..|ts| - 1], dates, nyDate);
      assert ts == ts[..|ts| - 1] + [ts[|ts| - 1]];
    }
  }

  /** Nothing is left out exactly when every trade is dated on one of the days. */
  lemma AllDated(ts: seq<Trade>, dates: set<int>, nyDate: int -> int)
    ensures DatedOn(ts, dates, nyDate) == ts <==> forall i :: 0 <= i < |ts| ==> nyDate(ts[i].executedAt) in dates
  {
    DatedLength(ts, dates, nyDate);
    if forall i :: 0 <= i < |ts| ==> nyDate(ts[i].executedAt) in dates {
      DatedKeepsAll(ts, dates, nyDate);
    }
  }

  ghost predicate Monotone(nyDate: int -> int) {
    forall x, y :: x <= y ==> nyDate(x) <= nyDate(y)
  }

  lemma SortedLog(trades: seq<Trade>, nyDate: int -> int)
    requires Monotone(nyDate)
    ensures DayOrdered(Sort(trades, ByTime), nyDate)
    ensures forall t :: t in Sort(trades, ByTime) <==> t in trades
  {
    SortSorts(trades, ByTime);
    SortMembers(trades, ByTime);
  }

  lemma SortedStored(trades: seq<Trade>)
    requires AllStored(trades)
    ensures AllStored(Sort(trades, ByTime))
  {
    SortMembers(trades, ByTime);
    forall i | 0 <= i < |Sort(trades, ByTime)| ensures Stored(Sort(trades, ByTime)[i]) {
      assert Sort(trades, ByTime)[i] in trades;
    }
  }

  lemma NothingMirrored(cash: real, m: real)
    ensures Mirrors(StartTape(cash), NewBook(cash, m)) && Sound(NewBook(cash, m))
  {
  }

  lemma SortedDays(days: seq<int>)
    requires Distinct(days)
    ensures StrictlyAscending(Sort(days, Ascending))
    ensures forall d :: d in Sort(days, Ascending) <==> d in days
    ensures |Sort(days, Ascending)| == |days| && DatesOf(Sort(days, Ascending)) == DatesOf(days)
  {
    SortSorts(days, Ascending);
    SortMembers(days, Ascending);
    forall d ensures d in DatesOf(Sort(days, Ascending)) <==> d in DatesOf(days) {
      assert d in Sort(days, Ascending) <==> d in days;
    }
    MultisetDistinct(days, Sort(days, Ascending));
  }

  lemma OrderedReplayRefines(ts: seq<Trade>, cash: real, m: real, closes: Closes, days: seq<int>, nyDate: int -> int)
    requires AllStored(ts) && DayOrdered(ts, nyDate) && StrictlyAscending(days) && days != []
    ensures var r := ReplayDays(StartTape(cash), ts, days, closes, nyDate);
      var live := Fold(NewBook(cash, m), DatedOn(ts, DatesOf(days), nyDate));
      && (r.Success? <==> live.Success?)
      && (r.Success? ==> |r.value.states| == |days| && Shows(r.value.states[|days| - 1], live.value))
  {
    NothingMirrored(cash, m);
    DaysMirror(StartTape(cash), NewBook(cash, m), ts, days, closes, nyDate);
    ThroughIsDated(ts, days, nyDate);
  }

  /**
   The two ledgers agree, for every stored log and any trading days: the replay succeeds exactly when the live
   ledger accepts, in time order, the trades dated on a trading day, and then its last state shows exactly that
   live book: same cash, realized P&L and open symbols, same quantity and cost basis for each.
   */
  lemma ReplayRefinesDatedTrades(trades: seq<Trade>, cash: real, m: real, closes: Closes, days: seq<int>,
                                 nyDate: int -> int)
    requires AllStored(trades) && Monotone(nyDate) && Distinct(days) && days != []
    ensures var r := Reconstructed(trades, cash, closes, days, nyDate);
      var live := Fold(NewBook(cash, m), DatedOn(Sort(trades, ByTime), DatesOf(days), nyDate));
      && (r.Success? <==> live.Success?)
      && (r.Success? ==> |r.value| == |days| && Shows(r.value[|days| - 1], live.value))
  {
    var ts, ds := Sort(trades, ByTime), Sort(days, Ascending);
    SortedLog(trades, nyDate);
    SortedStored(trades);
    SortedDays(days);
    OrderedReplayRefines(ts, cash, m, closes, ds, nyDate);
  }

  /** When every trade is dated on a trading day, that is the whole log, through closing, deletion and re-entry. */
  lemma ReplayRefinesLedger(trades: seq<Trade>, cash: real, m: real, closes: Closes, days: seq<int>, nyDate: int -> int)
    requires AllStored(trades) && Monotone(nyDate) && Distinct(days) && days != []
    requires forall t :: t in trades ==> nyDate(t.executedAt) in days
    ensures var r := Reconstructed(trades, cash, closes, days, nyDate);
      var live := Fold(NewBook(cash, m), Sort(trades, ByTime));
      && (r.Success? <==> live.Success?)
      && (r.Success? ==> |r.value| == |days| && Shows(r.value[|days| - 1], live.value))
  {
    var ts := Sort(trades, ByTime);
    SortMembers(trades, ByTime);
    forall i | 0 <= i < |ts| ensures nyDate(ts[i].executedAt) in DatesOf(days) {
      assert ts[i] in trades;
    }
    AllDated(ts, DatesOf(days), nyDate);
    ReplayRefinesDatedTrades(trades, cash, m, closes, days, nyDate);
  }

  // ----- nav of the replayed states -------------------------------------------------

  /** Cash plus all recorded costs less realized P&L. */
  ghost function Balance(l: Tape): real { l.cash + Total(l.cost) - l.realized }

  /** No replayed trade changes it, whatever its quantity and price. */
  lemma TradeBalances(l: Tape, t: Trade)
    requires ReplayTrade(l, t).Success? && l.qty.Keys == l.cost.Keys
    ensures var l' := ReplayTrade(l, t).value; Balance(l') == Balance(l) && l'.qty.Keys == l'.cost.Keys
  {
    TotalUpdate(l.cost, t.symbol, ReplayTrade(l, t).value.cost[t.symbol]);
  }

  lemma {:induction false} ReplayBalances(l: Tape, ts: seq<Trade>)
    requires ReplayAll(l, ts).Success? && l.qty.Keys == l.cost.Keys
    ensures var l' := ReplayAll(l, ts).value; Balance(l') == Balance(l) && l'.qty.Keys == l'.cost.Keys
  {
    if ts != [] {
      ReplayBalances(l, ts[..|ts| - 1]);
      TradeBalances(ReplayAll(l, ts[..|ts| - 1]).value, ts[|ts| - 1]);
    }
  }

  function Open(l: Tape): set<string> { set s | s in l.qty && Held(l, s) }

  /** The cost still recorded for symbols whose quantity counts as none. */
  ghost function DustCost(l: Tape): real { Total(l.cost - Open(l)) }

  lemma StateNav(day: int, l: Tape, carried: map<string, real>)
    requires l.qty.Keys == l.cost.Keys
    ensures var st := StateOn(day, l, carried);
      st.nav == Balance(l) + st.realizedPnl + st.unrealizedPnl - DustCost(l)
  {
    assert Costs(Holdings(l, carried)) == Restrict(l.cost, Open(l));
    TotalSplit(l.cost, Open(l));
  }

  lemma {:induction false} ReplayConcat(l: Tape, ts: seq<Trade>, us: seq<Trade>)
    ensures ReplayAll(l, ts + us)
         == (match ReplayAll(l, ts) case Failure(e) => Failure(e) case Success(l') => ReplayAll(l', us))
    decreases |us|
  {
    if us == [] {
      assert ts + us == ts;
    } else {
      ReplayConcat(l, ts, us[..|us| - 1]);
      assert (ts + us)[..|ts + us| - 1] == ts + us[..|us| - 1];
    }
  }

  /** The accumulators of the day loop are those of the trades it has reached. */
  lemma {:induction false} DaysReplay(start: Tape, ts: seq<Trade>, days: seq<int>, closes: Closes, nyDate: int -> int)
    requires ReplayDays(start, ts, days, closes, nyDate).Success?
    ensures ReplayAll(start, TradesThrough(ts, days, nyDate))
         == Success(ReplayDays(start, ts, days, closes, nyDate).value.tape)
  {
    if days != [] {
      DaysReplay(start, ts, days[..|days| - 1], closes, nyDate);
      ReplayConcat(start, TradesThrough(ts, days[..|days| - 1], nyDate), TradesOn(ts, days[|days| - 1], nyDate));
    }
  }

  lemma LastState(start: Tape, ts: seq<Trade>, days: seq<int>, closes: Closes, nyDate: int -> int)
    requires days != [] && ReplayDays(start, ts, days, closes, nyDate).Success?
    ensures var p := ReplayDays(start, ts, days, closes, nyDate).value;
      |p.states| == |days| && p.states[|days| - 1] == StateOn(days[|days| - 1], p.tape, p.lastClose)
  {
    var before := days[..|days| - 1];
    EarlierStates(start, ts, before, closes, nyDate, |before|);
    assert before[..|before|] == before;
  }

  /** The `i`-th state of the day loop over `days`, and the accumulators behind it. */
  lemma StateBehind(start: Tape, ts: seq<Trade>, days: seq<int>, closes: Closes, nyDate: int -> int, i: nat)
    returns (tape: Tape, carried: map<string, real>)
    requires i < |days| && ReplayDays(start, ts, days, closes, nyDate).Success?
    ensures var states := ReplayDays(start, ts, days, closes, nyDate).value.states;
      |states| == |days| && states[i] == StateOn(days[i], tape, carried)
    ensures ReplayAll(start, TradesThrough(ts, days[..i + 1], nyDate)) == Success(tape)
  {
    EarlierStates(start, ts, days, closes, nyDate, i + 1);
    LastState(start, ts, days[..i + 1], closes, nyDate);
    DaysReplay(start, ts, days[..i + 1], closes, nyDate);
    var p := ReplayDays(start, ts, days[..i + 1], closes, nyDate).value;
    tape, carried := p.tape, p.lastClose;
  }

  /** The accumulators on the `i`-th day of a replay. */
  ghost function TapeOn(trades: seq<Trade>, cash: real, days: seq<int>, nyDate: int -> int, i: nat)
    : Result<Tape, ReplayError>
    requires i < |Sort(days, Ascending)|
  {
    ReplayAll(StartTape(cash), TradesThrough(Sort(trades, ByTime), Sort(days, Ascending)[..i + 1], nyDate))
  }

  /**
   In every replayed state of every log nav is initial cash plus realized plus unrealized P&L, less the cost still
   recorded for symbols whose quantity is at or below the dust. Quantities, prices and trading days are arbitrary.
   */
  lemma ReplayedNav(trades: seq<Trade>, cash: real, closes: Closes, days: seq<int>, nyDate: int -> int, i: nat)
    requires i < |days| && Reconstructed(trades, cash, closes, days, nyDate).Success?
    ensures |Sort(days, Ascending)| == |days| && TapeOn(trades, cash, days, nyDate, i).Success?
    ensures var states := Reconstructed(trades, cash, closes, days, nyDate).value;
      && |states| == |days|
      && states[i].nav == cash + states[i].realizedPnl + states[i].unrealizedPnl
                          - DustCost(TapeOn(trades, cash, days, nyDate, i).value)
  {
    var ts, ds, start := Sort(trades, ByTime), Sort(days, Ascending), StartTape(cash);
    SortSorts(days, Ascending);
    var tape, carried := StateBehind(start, ts, ds, closes, nyDate, i);
    ReplayBalances(start, TradesThrough(ts, ds[..i + 1], nyDate));
    StateNav(ds[i], tape, carried);
  }

  lemma NoDust(l: Tape, b: Book)
    requires Mirrors(l, b)
    ensures DustCost(l) == 0.0
  {
    var rest := l.cost - Open(l);
    forall s | s in rest ensures rest[s] == 0.0 {
      HeldOnGrid(l, b, s);
      assert CostOf(l, s) == RowOf(b.rows, s).longCostBasis;
    }
    TotalZero(rest);
  }

  /** On stored logs nothing is lost to the dust. */
  lemma StoredReplayedNav(trades: seq<Trade>, cash: real, closes: Closes, days: seq<int>, nyDate: int -> int, i: nat)
    requires AllStored(trades) && i < |days| && Reconstructed(trades, cash, closes, days, nyDate).Success?
    ensures var states := Reconstructed(trades, cash, closes, days, nyDate).value;
      |states| == |days| && states[i].nav == cash + states[i].realizedPnl + states[i].unrealizedPnl
  {
    ReplayedNav(trades, cash, closes, days, nyDate, i);
    var through := TradesThrough(Sort(trades, ByTime), Sort(days, Ascending)[..i + 1], nyDate);
    SortedStored(trades);
    ThroughStored(Sort(trades, ByTime), Sort(days, Ascending)[..i + 1], nyDate);
    NothingMirrored(cash, 0.0);
    LogMirrors(StartTape(cash), NewBook(cash, 0.0), through);
    NoDust(TapeOn(trades, cash, days, nyDate, i).value, Fold(NewBook(cash, 0.0), through).value);
  }

  lemma TradeFlows(l: Tape, t: Trade, s: string)
    requires LongSide(t) && ReplayTrade(l, t).Success?
    ensures var l' := ReplayTrade(l, t).value;
      l'.cash == l.cash + CashFlow(t) && QtyOf(l', s) == QtyOf(l, s) + LongFlow(t, s)
  {
  }

  /** Over every replayed log cash and quantities are the net flows, as in the live ledger. */
  lemma {:induction false} ReplayIsNetFlow(l: Tape, ts: seq<Trade>, s: string)
    requires ReplayAll(l, ts).Success? && forall i :: 0 <= i < |ts| ==> LongSide(ts[i])
    ensures var l' := ReplayAll(l, ts).value;
      l'.cash == l.cash + NetCash(ts) && QtyOf(l', s) == QtyOf(l, s) + NetLong(ts, s)
  {
    if ts != [] {
      ReplayIsNetFlow(l, ts[..|ts| - 1], s);
      TradeFlows(ReplayAll(l, ts[..|ts| - 1]).value, ts[|ts| - 1], s);
    }
  }

  /**
   What every daily state of every log shows: the trading days in order, cash and realized P&L so far, and exactly
   the symbols with a quantity above 1e-9, each with its quantity and recorded cost.
   */
  lemma StateShowsTape(trades: seq<Trade>, cash: real, closes: Closes, days: seq<int>, nyDate: int -> int, i: nat,
                       s: string)
    requires i < |days| && Reconstructed(trades, cash, closes, days, nyDate).Success?
    ensures |Sort(days, Ascending)| == |days| && TapeOn(trades, cash, days, nyDate, i).Success?
    ensures |Reconstructed(trades, cash, closes, days, nyDate).value| == |days|
    ensures var st, l := Reconstructed(trades, cash, closes, days, nyDate).value[i],
                         TapeOn(trades, cash, days, nyDate, i).value;
      && st.day == Sort(days, Ascending)[i] && st.cash == l.cash && st.realizedPnl == l.realized
      && (s in st.positions <==> s in l.qty && l.qty[s] > 0.000000001)
      && (s in st.positions ==>
            st.positions[s].quantity == l.qty[s] && st.positions[s].costBasis == GetOr(l.cost, s, 0.0))
  {
    SortSorts(days, Ascending);
    var tape, carried :=
      StateBehind(StartTape(cash), Sort(trades, ByTime), Sort(days, Ascending), closes, nyDate, i);
  }

  // ----- carried-forward closes ---------------------------------------------------

  predicate Quoted(closes: Closes, s: string, day: int) { s in closes && day in closes[s] }

  function Known(carried: map<string, real>, s: string): Option<real> {
    if s in carried then Some(carried[s]) else None
  }

  ghost predicate QuotedLast(states: seq<DailyState>, closes: Closes, s: string, x: real, j: int) {
    && 0 <= j < |states| && s in states[j].positions
    && Quoted(closes, s, states[j].day) && closes[s][states[j].day] == x
    && forall k :: j < k < |states| && s in states[k].positions ==> !Quoted(closes, s, states[k].day)
  }

  /** `close` is the quote of the last state that held `s` on a day with a quote for it, or there is none. */
  ghost predicate LastQuote(states: seq<DailyState>, closes: Closes, s: string, close: Option<real>) {
    match close
    case None => forall k :: 0 <= k < |states| && s in states[k].positions ==> !Quoted(closes, s, states[k].day)
    case Some(x) => exists j :: QuotedLast(states, closes, s, x, j)
  }

  lemma QuoteStep(states: seq<DailyState>, st: DailyState, closes: Closes, s: string, before: Option<real>)
    requires LastQuote(states, closes, s, before)
    ensures LastQuote(states + [st], closes, s,
              if s in st.positions && Quoted(closes, s, st.day) then Some(closes[s][st.day]) else before)
  {
    if s in st.positions && Quoted(closes, s, st.day) {
      assert QuotedLast(states + [st], closes, s, closes[s][st.day], |states|);
    } else if before.Some? {
      var j :| QuotedLast(states, closes, s, before.value, j);
      assert QuotedLast(states + [st], closes, s, before.value, j);
    }
  }

  lemma CarryQuotes(p: Progress, day: int, tape: Tape, closes: Closes, s: string)
    requires LastQuote(p.states, closes, s, Known(p.lastClose, s))
    ensures var carried := Carry(tape, p.lastClose, closes, day);
      LastQuote(p.states + [StateOn(day, tape, carried)], closes, s, Known(carried, s))
  {
    QuoteStep(p.states, StateOn(day, tape, Carry(tape, p.lastClose, closes, day)), closes, s, Known(p.lastClose, s));
  }

  /** At every point of the day loop the close table holds the last quotes, and the last state shows them. */
  lemma {:induction false} DaysQuote(start: Tape, ts: seq<Trade>, days: seq<int>, closes: Closes, nyDate: int -> int,
                                     s: string)
    requires ReplayDays(start, ts, days, closes, nyDate).Success?
    ensures var p := ReplayDays(start, ts, days, closes, nyDate).value;
      && |p.states| == |days| && LastQuote(p.states, closes, s, Known(p.lastClose, s))
      && (days != [] && s in p.states[|days| - 1].positions ==>
            p.states[|days| - 1].positions[s].close == Known(p.lastClose, s))
  {
    if days != [] {
      var before, day := days[..|days| - 1], days[|days| - 1];
      var p := ReplayDays(start, ts, before, closes, nyDate).value;
      DaysQuote(start, ts, before, closes, nyDate, s);
      CarryQuotes(p, day, ReplayAll(p.tape, TradesOn(ts, day, nyDate)).value, closes, s);
    }
  }

  /** The `i`-th state shows `s` at its last quote so far, or at cost. */
  ghost predicate ShownAtLastQuote(states: seq<DailyState>, closes: Closes, i: nat, s: string) {
    && i < |states|
    && (s in states[i].positions ==>
          var h := states[i].positions[s];
          && LastQuote(states[..i + 1], closes, s, h.close)
          && h.marketValue == if h.close.Some? then h.close.value * h.quantity else h.costBasis)
  }

  lemma ValuedAtClose(start: Tape, ts: seq<Trade>, days: seq<int>, closes: Closes, nyDate: int -> int, s: string)
    requires days != [] && ReplayDays(start, ts, days, closes, nyDate).Success?
    ensures var states := ReplayDays(start, ts, days, closes, nyDate).value.states;
      |states| == |days| && ShownAtLastQuote(states, closes, |days| - 1, s)
  {
    DaysQuote(start, ts, days, closes, nyDate, s);
    var states := ReplayDays(start, ts, days, closes, nyDate).value.states;
    assert states[..|days|] == states;
  }

  lemma PrefixQuotes(some: seq<DailyState>, all: seq<DailyState>, closes: Closes, i: nat, s: string)
    requires i < |all| && some == all[..i + 1] && ShownAtLastQuote(some, closes, i, s)
    ensures ShownAtLastQuote(all, closes, i, s)
  {
    assert some[..i + 1] == all[..i + 1];
  }

  lemma StatesQuote(start: Tape, ts: seq<Trade>, days: seq<int>, closes: Closes, nyDate: int -> int, i: nat, s: string)
    requires ReplayDays(start, ts, days, closes, nyDate).Success? && i < |days|
    ensures ShownAtLastQuote(ReplayDays(start, ts, days, closes, nyDate).value.states, closes, i, s)
  {
    EarlierStates(start, ts, days, closes, nyDate, i + 1);
    ValuedAtClose(start, ts, days[..i + 1], closes, nyDate, s);
    PrefixQuotes(ReplayDays(start, ts, days[..i + 1], closes, nyDate).value.states,
                 ReplayDays(start, ts, days, closes, nyDate).value.states, closes, i, s);
  }

  /**
   Every holding of every state is valued at the last quote seen while the symbol was held, on that day or an
   earlier one, and at cost when there has been none. No assumption on the log, the days or the quotes.
   */
  lemma ClosesCarryForward(trades: seq<Trade>, cash: real, closes: Closes, days: seq<int>, nyDate: int -> int,
                           i: nat, s: string)
    requires Reconstructed(trades, cash, closes, days, nyDate).Success? && i < |days|
    ensures ShownAtLastQuote(Reconstructed(trades, cash, closes, days, nyDate).value, closes, i, s)
  {
    SortSorts(days, Ascending);
    StatesQuote(StartTape(cash), Sort(trades, ByTime), Sort(days, Ascending), closes, nyDate, i, s);
  }

  /**
   End to end: after any run of submissions that never raised, replaying a branch's own trade log reproduces
   that branch's stored book, provided the log is stored-format, in time order and on trading days.
   */
  lemma ReplayReproducesDesk(cash: real, m: real, books: Books, subs: seq<Submission>, branch: string,
                             closes: Closes, days: seq<int>, nyDate: int -> int)
    requires branch in books && books[branch] == NewBook(cash, m)
    requires !RunRaises(Desk([], [], books), subs)
    requires Monotone(nyDate) && Distinct(days) && days != []
    requires var log := OfBranch(Run(Desk([], [], books), subs).trades, branch);
      AllStored(log) && SortedBy(log, ByTime) && forall t :: t in log ==> nyDate(t.executedAt) in days
    ensures var d := Run(Desk([], [], books), subs);
      var r := Reconstructed(OfBranch(d.trades, branch), cash, closes, days, nyDate);
      r.Success? && |r.value| == |days| && branch in d.books && Shows(r.value[|days| - 1], d.books[branch])
  {
    var d := Run(Desk([], [], books), subs);
    var log := OfBranch(d.trades, branch);
    BooksAreTheFoldExactly(books, [], subs);
    FoldAllByBranch(books, d.trades, branch);
    SortedIsFixed(log, ByTime);
    ReplayRefinesLedger(log, cash, m, closes, days, nyDate);
  }

  // ----- the validation gate ------------------------------------------------------

  /** What the gate reports, with the two amounts it prints. */
  datatype Problem =
    | CashMismatch(reconstructed: real, live: real)
    | QuantityMismatch(symbol: string, reconstructed: real, live: real)

  function Recorded(st: DailyState, s: string): real {
    if s in st.positions then st.positions[s].quantity else 0.0
  }

  predicate QuantityOff(st: DailyState, live: map<string, real>, s: string) {
    Abs(Recorded(st, s) - GetOr(live, s, 0.0)) > 0.000001
  }

  function QuantityProblem(st: DailyState, live: map<string, real>, s: string): Problem {
    QuantityMismatch(s, Recorded(st, s), GetOr(live, s, 0.0))
  }

  function Mismatches(st: DailyState, live: map<string, real>, symbols: seq<string>): seq<Problem> {
    if symbols == [] then [] else
      var s := symbols[|symbols| - 1];
      Mismatches(st, live, symbols[..|symbols| - 1])
        + (if QuantityOff(st, live, s) then [QuantityProblem(st, live, s)] else [])
  }

  /** The report: cash first, then the symbols in alphabetical order, whatever order the set is iterated in. */
  function Problems(final: DailyState, liveCash: real, live: map<string, real>, xs: seq<string>): seq<Problem> {
    (if Abs(final.cash - liveCash) > 0.5 then [CashMismatch(final.cash, liveCash)] else [])
      + Mismatches(final, live, Sort(xs, Alphabetical))
  }

  function GateSymbols(final: DailyState, live: map<string, real>): set<string> {
    final.positions.Keys + live.Keys
  }

  lemma {:induction false} MismatchesExactly(st: DailyState, live: map<string, real>, symbols: seq<string>, p: Problem)
    ensures p in Mismatches(st, live, symbols) <==>
      && p.QuantityMismatch? && p.symbol in symbols && QuantityOff(st, live, p.symbol)
      && p == QuantityProblem(st, live, p.symbol)
  {
    if symbols != [] {
      MismatchesExactly(st, live, symbols[..|symbols| - 1], p);
      assert symbols == symbols[..|symbols| - 1] + [symbols[|symbols| - 1]];
    }
  }

  /** Reported are exactly a cash gap of more than 0.50 and every symbol, held or live, off by more than 1e-6. */
  lemma ProblemsExactly(final: DailyState, liveCash: real, live: map<string, real>, xs: seq<string>, p: Problem)
    requires Enumerates(xs, GateSymbols(final, live))
    ensures p in Problems(final, liveCash, live, xs) <==>
      match p
      case CashMismatch(r, l) => r == final.cash && l == liveCash && Abs(final.cash - liveCash) > 0.5
      case QuantityMismatch(s, _, _) => QuantityOff(final, live, s) && p == QuantityProblem(final, live, s)
  {
    AlphabeticalOrder();
    SortMembers(xs, Alphabetical);
    MismatchesExactly(final, live, Sort(xs, Alphabetical), p);
  }

  /** The cash gap comes first, then the symbols in alphabetical order. */
  ghost predicate InOrder(ps: seq<Problem>) {
    forall i, j :: 0 <= i < j < |ps| ==>
      ps[j].QuantityMismatch? && (ps[i].QuantityMismatch? ==> LexLe(ps[i].symbol, ps[j].symbol))
  }

  lemma {:induction false} MismatchesOrdered(st: DailyState, live: map<string, real>, symbols: seq<string>)
    requires SortedBy(symbols, Alphabetical)
    ensures InOrder(Mismatches(st, live, symbols))
    ensures forall i :: 0 <= i < |Mismatches(st, live, symbols)| ==> Mismatches(st, live, symbols)[i].QuantityMismatch?
  {
    if symbols != [] {
      var before, last := symbols[..|symbols| - 1], symbols[|symbols| - 1];
      MismatchesOrdered(st, live, before);
      forall i | 0 <= i < |Mismatches(st, live, before)|
        ensures LexLe(Mismatches(st, live, before)[i].symbol, last)
      {
        var p := Mismatches(st, live, before)[i];
        MismatchesExactly(st, live, before, p);
        var m :| 0 <= m < |before| && before[m] == p.symbol;
        assert Alphabetical(symbols[m], symbols[|symbols| - 1]);
      }
    }
  }

  lemma CashFirst(gap: seq<Problem>, rest: seq<Problem>)
    requires |gap| <= 1 && (gap != [] ==> gap[0].CashMismatch?)
    requires InOrder(rest) && forall i :: 0 <= i < |rest| ==> rest[i].QuantityMismatch?
    ensures InOrder(gap + rest)
  {
  }

  lemma ProblemsInOrder(final: DailyState, liveCash: real, live: map<string, real>, xs: seq<string>)
    requires Enumerates(xs, GateSymbols(final, live))
    ensures InOrder(Problems(final, liveCash, live, xs))
  {
    AlphabeticalOrder();
    SortSorts(xs, Alphabetical);
    MismatchesOrdered(final, live, Sort(xs, Alphabetical));
    CashFirst(if Abs(final.cash - liveCash) > 0.5 then [CashMismatch(final.cash, liveCash)] else [],
              Mismatches(final, live, Sort(xs, Alphabetical)));
  }

  lemma NoProblems(final: DailyState, liveCash: real, live: map<string, real>, xs: seq<string>)
    requires Enumerates(xs, GateSymbols(final, live))
    ensures Problems(final, liveCash, live, xs) == [] <==>
      Abs(final.cash - liveCash) <= 0.5 && forall s :: !QuantityOff(final, live, s)
  {
    var problems := Problems(final, liveCash, live, xs);
    forall s | QuantityOff(final, live, s) ensures problems != [] {
      ProblemsExactly(final, liveCash, live, xs, QuantityProblem(final, live, s));
    }
    if problems != [] {
      ProblemsExactly(final, liveCash, live, xs, problems[0]);
    }
  }

  /** The loop over the sorted symbols. */
  method CompareQuantities(final: DailyState, live: map<string, real>, symbols: seq<string>)
    returns (problems: seq<Problem>)
    ensures problems == Mismatches(final, live, symbols)
  {
    problems := [];
    for i := 0 to |symbols|
      invariant problems == Mismatches(final, live, symbols[..i])
    {
      assert symbols[..i + 1][..i] == symbols[..i];
      if QuantityOff(final, live, symbols[i]) {
        problems := problems + [QuantityProblem(final, live, symbols[i])];
      }
    }
    assert symbols[..|symbols|] == symbols;
  }

  /** Compares the last replayed state with the stored cash and quantities. */
  method ValidateFinalState(final: DailyState, liveCash: real, live: map<string, real>) returns (problems: seq<Problem>)
    ensures forall xs :: Enumerates(xs, GateSymbols(final, live)) ==> problems == Problems(final, liveCash, live, xs)
    ensures problems == [] <==>
      Abs(final.cash - liveCash) <= 0.5 && forall s :: !QuantityOff(final, live, s)
  {
    problems := [];
    if Abs(final.cash - liveCash) > 0.5 {
      problems := problems + [CashMismatch(final.cash, liveCash)];
    }
    var enumeration := EnumerateSet(final.positions.Keys + live.Keys);
    var mismatches := CompareQuantities(final, live, Sort(enumeration, Alphabetical));
    problems := problems + mismatches;
    forall xs | Enumerates(xs, GateSymbols(final, live))
      ensures problems == Problems(final, liveCash, live, xs)
    {
      SortedSetUnique(xs, enumeration, GateSymbols(final, live));
    }
    NoProblems(final, liveCash, live, enumeration);
  }

  function LiveQuantities(b: Book): map<string, real> {
    map s | s in b.rows && b.rows[s].longQuantity > 0.0 :: b.rows[s].longQuantity
  }

  /** A state that shows one book, compared with another: the gaps are those between the two books. */
  lemma GateCompares(final: DailyState, shown: Book, live: Book, xs: seq<string>)
    requires Shows(final, shown) && Enumerates(xs, GateSymbols(final, LiveQuantities(live)))
    requires forall s :: s in live.rows ==> live.rows[s].longQuantity >= 0.0
    ensures Problems(final, live.summary.cash, LiveQuantities(live), xs) == [] <==>
      && Abs(shown.summary.cash - live.summary.cash) <= 0.5
      && forall s :: Abs(RowOf(shown.rows, s).longQuantity - RowOf(live.rows, s).longQuantity) <= 0.000001
  {
    NoProblems(final, live.summary.cash, LiveQuantities(live), xs);
    forall s
      ensures QuantityOff(final, LiveQuantities(live), s) <==>
        Abs(RowOf(shown.rows, s).longQuantity - RowOf(live.rows, s).longQuantity) > 0.000001
    {
      assert Recorded(final, s) == RowOf(shown.rows, s).longQuantity;
      assert GetOr(LiveQuantities(live), s, 0.0) == RowOf(live.rows, s).longQuantity;
    }
  }

  /** The trades of the log that the replay never reaches. */
  function SkippedBy(ts: seq<Trade>, dates: set<int>, nyDate: int -> int): seq<Trade> {
    if ts == [] then [] else
      var last := ts[|ts| - 1];
      if nyDate(last.executedAt) in dates then SkippedBy(ts[..|ts| - 1], dates, nyDate)
      else SkippedBy(ts[..|ts| - 1], dates, nyDate) + [last]
  }

  lemma NetAppend(ts: seq<Trade>, t: Trade, s: string)
    ensures NetCash(ts + [t]) == NetCash(ts) + CashFlow(t) && NetLong(ts + [t], s) == NetLong(ts, s) + LongFlow(t, s)
  {
    assert (ts + [t])[..|ts|] == ts;
  }

  lemma DatedLast(ts: seq<Trade>, dates: set<int>, nyDate: int -> int)
    requires ts != []
    ensures var before, t := DatedOn(ts[..|ts| - 1], dates, nyDate), ts[|ts| - 1];
      DatedOn(ts, dates, nyDate) == if nyDate(t.executedAt) in dates then before + [t] else before
  {
  }

  /** The flows of the log are those of the dated and of the skipped trades. */
  lemma {:induction false} FlowsSplit(ts: seq<Trade>, dates: set<int>, nyDate: int -> int, s: string)
    ensures NetCash(ts) == NetCash(DatedOn(ts, dates, nyDate)) + NetCash(SkippedBy(ts, dates, nyDate))
    ensures NetLong(ts, s) == NetLong(DatedOn(ts, dates, nyDate), s) + NetLong(SkippedBy(ts, dates, nyDate), s)
  {
    if ts != [] {
      var prefix, t := ts[..|ts| - 1], ts[|ts| - 1];
      FlowsSplit(prefix, dates, nyDate, s);
      DatedLast(ts, dates, nyDate);
      NetAppend(if nyDate(t.executedAt) in dates then DatedOn(prefix, dates, nyDate)
                else SkippedBy(prefix, dates, nyDate), t, s);
    }
  }

  /** Two books folded from the same start, one without the skipped trades, differ by the flows of those. */
  lemma SkippedGap(b: Book, ts: seq<Trade>, dates: set<int>, nyDate: int -> int, s: string)
    requires Fold(b, ts).Success? && Fold(b, DatedOn(ts, dates, nyDate)).Success?
    ensures var live, seen, skipped :=
        Fold(b, ts).value, Fold(b, DatedOn(ts, dates, nyDate)).value, SkippedBy(ts, dates, nyDate);
      && seen.summary.cash - live.summary.cash == -NetCash(skipped)
      && RowOf(seen.rows, s).longQuantity - RowOf(live.rows, s).longQuantity == -NetLong(skipped, s)
  {
    FoldIsNetFlow(b, ts, s);
    FoldIsNetFlow(b, DatedOn(ts, dates, nyDate), s);
    FlowsSplit(ts, dates, nyDate, s);
  }

  /** The skipped trades move neither cash by more than 0.50 nor any quantity by more than 1e-6. */
  ghost predicate Negligible(skipped: seq<Trade>) {
    Abs(NetCash(skipped)) <= 0.5 && forall s :: Abs(NetLong(skipped, s)) <= 0.000001
  }

  /** The two books are apart by the flows of the skipped trades. */
  ghost predicate Apart(shown: Book, live: Book, skipped: seq<Trade>) {
    && shown.summary.cash - live.summary.cash == -NetCash(skipped)
    && forall s :: RowOf(shown.rows, s).longQuantity - RowOf(live.rows, s).longQuantity == -NetLong(skipped, s)
  }

  lemma SkippedApart(b: Book, ts: seq<Trade>, dates: set<int>, nyDate: int -> int)
    requires Fold(b, ts).Success? && Fold(b, DatedOn(ts, dates, nyDate)).Success?
    ensures Apart(Fold(b, DatedOn(ts, dates, nyDate)).value, Fold(b, ts).value, SkippedBy(ts, dates, nyDate))
  {
    SkippedGap(b, ts, dates, nyDate, "");
    forall s
      ensures RowOf(Fold(b, DatedOn(ts, dates, nyDate)).value.rows, s).longQuantity
                - RowOf(Fold(b, ts).value.rows, s).longQuantity == -NetLong(SkippedBy(ts, dates, nyDate), s)
    {
      SkippedGap(b, ts, dates, nyDate, s);
    }
  }

  lemma GateSees(final: DailyState, shown: Book, live: Book, skipped: seq<Trade>, xs: seq<string>)
    requires Shows(final, shown) && Apart(shown, live, skipped)
    requires forall s :: s in live.rows ==> live.rows[s].longQuantity >= 0.0
    requires Enumerates(xs, GateSymbols(final, LiveQuantities(live)))
    ensures Problems(final, live.summary.cash, LiveQuantities(live), xs) == [] <==> Negligible(skipped)
  {
    GateCompares(final, shown, live, xs);
  }

  /**
   What the gate detects, for every stored log that both ledgers accept and any trading days: it lets the replay
   pass if and only if the trades not dated on a trading day are negligible on balance.
   */
  lemma GatePassesExactly(trades: seq<Trade>, cash: real, m: real, closes: Closes, days: seq<int>, nyDate: int -> int)
    requires AllStored(trades) && Monotone(nyDate) && Distinct(days) && days != []
    requires Reconstructed(trades, cash, closes, days, nyDate).Success?
    requires Fold(NewBook(cash, m), Sort(trades, ByTime)).Success?
    ensures var ts, states := Sort(trades, ByTime), Reconstructed(trades, cash, closes, days, nyDate).value;
      && |states| == |days|
      && var final, live := states[|days| - 1], Fold(NewBook(cash, m), ts).value;
         forall xs :: Enumerates(xs, GateSymbols(final, LiveQuantities(live))) ==>
           (Problems(final, live.summary.cash, LiveQuantities(live), xs) == [] <==>
            Negligible(SkippedBy(ts, DatesOf(days), nyDate)))
  {
    var b, ts := NewBook(cash, m), Sort(trades, ByTime);
    ReplayRefinesDatedTrades(trades, cash, m, closes, days, nyDate);
    SortedStored(trades);
    NothingMirrored(cash, m);
    LogMirrors(StartTape(cash), b, ts);
    SkippedApart(b, ts, DatesOf(days), nyDate);
    var final := Reconstructed(trades, cash, closes, days, nyDate).value[|days| - 1];
    forall xs | Enumerates(xs, GateSymbols(final, LiveQuantities(Fold(b, ts).value)))
      ensures Problems(final, Fold(b, ts).value.summary.cash, LiveQuantities(Fold(b, ts).value), xs) == [] <==>
        Negligible(SkippedBy(ts, DatesOf(days), nyDate))
    {
      GateSees(final, Fold(b, DatedOn(ts, DatesOf(days), nyDate)).value, Fold(b, ts).value,
               SkippedBy(ts, DatesOf(days), nyDate), xs);
    }
  }

  ghost predicate AllOff(ts: seq<Trade>, dates: set<int>, nyDate: int -> int) {
    forall i :: 0 <= i < |ts| ==> nyDate(ts[i].executedAt) !in dates
  }

  lemma {:induction false} NothingDated(ts: seq<Trade>, dates: set<int>, nyDate: int -> int)
    requires AllOff(ts, dates, nyDate)
    ensures DatedOn(ts, dates, nyDate) == [] && SkippedBy(ts, dates, nyDate) == ts
  {
    if ts != [] {
      var prefix, t := ts[..|ts| - 1], ts[|ts| - 1];
      assert AllOff(prefix, dates, nyDate);
      NothingDated(prefix, dates, nyDate);
      DatedLast(ts, dates, nyDate);
      assert SkippedBy(ts, dates, nyDate) == prefix + [t];
    }
  }

  /** A log in time order of which the replay reaches nothing: it ends with the starting cash and no positions. */
  lemma NothingReplayed(ts: seq<Trade>, cash: real, m: real, closes: Closes, days: seq<int>, nyDate: int -> int)
    returns (final: DailyState)
    requires AllStored(ts) && SortedBy(ts, ByTime) && Monotone(nyDate) && Distinct(days) && days != []
    requires Fold(NewBook(cash, m), ts).Success?
    requires forall i :: 0 <= i < |ts| ==> nyDate(ts[i].executedAt) !in days
    ensures var r := Reconstructed(ts, cash, closes, days, nyDate);
      r.Success? && |r.value| == |days| && final == r.value[|days| - 1]
    ensures final.realizedPnl == 0.0 && Shows(final, NewBook(cash, m))
    ensures var live := Fold(NewBook(cash, m), ts).value;
      forall xs :: Enumerates(xs, GateSymbols(final, LiveQuantities(live))) ==>
        (Problems(final, live.summary.cash, LiveQuantities(live), xs) == [] <==> Negligible(ts))
  {
    SortedIsFixed(ts, ByTime);
    NothingDated(ts, DatesOf(days), nyDate);
    ReplayRefinesDatedTrades(ts, cash, m, closes, days, nyDate);
    final := Reconstructed(ts, cash, closes, days, nyDate).value[|days| - 1];
    GatePassesExactly(ts, cash, m, closes, days, nyDate);
  }

  /** A stored buy that is not dated on a trading day: the replay ends without it, and the gate reports that. */
  lemma SkippedBuyIsReported(t: Trade, cash: real, m: real, closes: Closes, days: seq<int>, nyDate: int -> int)
    returns (final: DailyState)
    requires Stored(t) && t.side == Buy && t.quantity > 0.000001 && nyDate(t.executedAt) !in days
    requires Monotone(nyDate) && Distinct(days) && days != []
    ensures var r := Reconstructed([t], cash, closes, days, nyDate);
      r.Success? && |r.value| == |days| && final == r.value[|days| - 1]
    ensures Fold(NewBook(cash, m), [t]).Success?
    ensures var live := Fold(NewBook(cash, m), [t]).value;
      && !Shows(final, live)
      && forall xs :: Enumerates(xs, GateSymbols(final, LiveQuantities(live))) ==>
           Problems(final, live.summary.cash, LiveQuantities(live), xs) != []
  {
    FoldOne(NewBook(cash, m), t);
    final := NothingReplayed([t], cash, m, closes, days, nyDate);
    FoldIsNetFlow(NewBook(cash, m), [t], t.symbol);
    NetAppend([], t, t.symbol);
    assert [] + [t] == [t];
  }

  /** A round trip on the empty book: what it gains, and that it is negligible if the gain is. */
  lemma RoundTrip(buy: Trade, sell: Trade, cash: real, m: real)
    requires buy.side == Buy && sell.side == Sell && buy.symbol == sell.symbol && buy.quantity == sell.quantity > 0.0
    ensures Fold(NewBook(cash, m), [buy, sell]).Success?
    ensures Fold(NewBook(cash, m), [buy, sell]).value.summary.realizedPnl == TradeProceeds(sell) - TradeCost(buy)
    ensures NetCash([buy, sell]) == TradeProceeds(sell) - TradeCost(buy)
    ensures forall s :: NetLong([buy, sell], s) == 0.0
  {
    var b := NewBook(cash, m);
    BuyThenSellRestoresRows(b, buy, sell);
    FoldIsNetFlow(b, [buy, sell], "");
    forall s ensures NetLong([buy, sell], s) == 0.0 {
      FoldIsNetFlow(b, [buy, sell], s);
    }
  }

  /** A skipped round trip whose gain is within the gate's tolerance passes, though its realized P&L is missing. */
  lemma SkippedRoundTripPasses(log: seq<Trade>, buy: Trade, sell: Trade, cash: real, m: real, closes: Closes,
                               days: seq<int>, nyDate: int -> int)
    returns (final: DailyState)
    requires log == [buy, sell] && AllStored(log) && SortedBy(log, ByTime)
    requires buy.side == Buy && sell.side == Sell && buy.symbol == sell.symbol && buy.quantity == sell.quantity
    requires Abs(TradeProceeds(sell) - TradeCost(buy)) <= 0.5
    requires forall i :: 0 <= i < |log| ==> nyDate(log[i].executedAt) !in days
    requires Monotone(nyDate) && Distinct(days) && days != []
    ensures var r := Reconstructed(log, cash, closes, days, nyDate);
      r.Success? && |r.value| == |days| && final == r.value[|days| - 1]
    ensures Fold(NewBook(cash, m), log).Success?
    ensures var live := Fold(NewBook(cash, m), log).value;
      && live.summary.realizedPnl == final.realizedPnl + (TradeProceeds(sell) - TradeCost(buy))
      && forall xs :: Enumerates(xs, GateSymbols(final, LiveQuantities(live))) ==>
           Problems(final, live.summary.cash, LiveQuantities(live), xs) == []
  {
    assert Stored(log[0]);
    RoundTrip(buy, sell, cash, m);
    final := NothingReplayed(log, cash, m, closes, days, nyDate);
  }

  // ----- the replay loop ----------------------------------------------------------

  /** The close table after the symbols outside `todo` have been visited. */
  function PartlyCarried(l: Tape, lastClose: map<string, real>, closes: Closes, day: int, todo: set<string>)
    : map<string, real>
  {
    lastClose + (Fresh(l, closes, day) - todo)
  }

  function Refresh(carried: map<string, real>, closes: Closes, day: int, s: string): map<string, real> {
    if s in closes && day in closes[s] then carried[s := closes[s][day]] else carried
  }

  lemma CarryVisit(l: Tape, lastClose: map<string, real>, closes: Closes, day: int, todo: set<string>, s: string)
    requires s in todo && Held(l, s)
    ensures var carried := Refresh(PartlyCarried(l, lastClose, closes, day, todo), closes, day, s);
      && carried == PartlyCarried(l, lastClose, closes, day, todo - {s})
      && HoldingOf(l, carried, s) == HoldingOf(l, Carry(l, lastClose, closes, day), s)
  {
    MapVisit(Fresh(l, closes, day), todo, s);
  }

  lemma CarryBounds(l: Tape, lastClose: map<string, real>, closes: Closes, day: int, all: set<string>)
    requires Fresh(l, closes, day).Keys <= all
    ensures PartlyCarried(l, lastClose, closes, day, all) == lastClose
    ensures PartlyCarried(l, lastClose, closes, day, {}) == Carry(l, lastClose, closes, day)
  {
    assert Fresh(l, closes, day) - all == map[];
    assert Fresh(l, closes, day) - {} == Fresh(l, closes, day);
  }

  function Only(hs: map<string, Holding>, symbols: set<string>): map<string, Holding> {
    map s | s in hs && s in symbols :: hs[s]
  }

  /** What the valuation loop has computed once the symbols outside `todo` have been visited. */
  ghost predicate Valued(hs: map<string, Holding>, todo: set<string>, positions: map<string, Holding>,
                         totalMv: real, totalCost: real)
  {
    && positions == hs - todo
    && totalMv + Total(Values(Only(hs, todo))) == Total(Values(hs))
    && totalCost + Total(Costs(Only(hs, todo))) == Total(Costs(hs))
  }

  lemma ValuedBounds(hs: map<string, Holding>)
    ensures Valued(hs, hs.Keys, map[], 0.0, 0.0)
    ensures forall positions, mv, cost :: Valued(hs, {}, positions, mv, cost) ==>
      positions == hs && mv == Total(Values(hs)) && cost == Total(Costs(hs))
  {
    assert Only(hs, hs.Keys) == hs && hs - hs.Keys == map[];
    assert hs - {} == hs && Values(Only(hs, {})) == map[] && Costs(Only(hs, {})) == map[];
  }

  lemma HoldingsVisit(hs: map<string, Holding>, todo: set<string>, s: string)
    requires s in hs && s in todo
    ensures Total(Values(Only(hs, todo))) == hs[s].marketValue + Total(Values(Only(hs, todo - {s})))
    ensures Total(Costs(Only(hs, todo))) == hs[s].costBasis + Total(Costs(Only(hs, todo - {s})))
  {
    TotalPick(Values(Only(hs, todo)), s);
    TotalPick(Costs(Only(hs, todo)), s);
    assert Values(Only(hs, todo)) - {s} == Values(Only(hs, todo - {s}));
    assert Costs(Only(hs, todo)) - {s} == Costs(Only(hs, todo - {s}));
  }

  lemma ValuedVisit(hs: map<string, Holding>, todo: set<string>, s: string, positions: map<string, Holding>,
                    mv: real, cost: real)
    requires s in hs && s in todo && Valued(hs, todo, positions, mv, cost)
    ensures Valued(hs, todo - {s}, positions[s := hs[s]], mv + hs[s].marketValue, cost + hs[s].costBasis)
  {
    MapVisit(hs, todo, s);
    HoldingsVisit(hs, todo, s);
  }

  /** The valuation loop over the held symbols `open`: refreshes closes, values each, accumulates the totals. */
  method ValueHeld(day: int, l: Tape, lastClose: map<string, real>, closes: Closes, open: set<string>,
                   ghost hs: map<string, Holding>)
    returns (carried: map<string, real>, positions: map<string, Holding>, totalMv: real, totalCost: real)
    requires Fresh(l, closes, day).Keys <= open == hs.Keys <= l.qty.Keys
    requires forall s :: s in open ==> Held(l, s)
    requires forall s :: s in open ==> hs[s] == HoldingOf(l, Carry(l, lastClose, closes, day), s)
    ensures carried == Carry(l, lastClose, closes, day) && positions == hs
    ensures totalMv == Total(Values(hs)) && totalCost == Total(Costs(hs))
  {
    carried, positions, totalMv, totalCost := lastClose, map[], 0.0, 0.0;
    var todo := open;
    CarryBounds(l, lastClose, closes, day, open);
    ValuedBounds(hs);
    while todo != {}
      invariant todo <= open
      invariant carried == PartlyCarried(l, lastClose, closes, day, todo)
      invariant Valued(hs, todo, positions, totalMv, totalCost)
      decreases |todo|
    {
      var s :| s in todo;
      CarryVisit(l, lastClose, closes, day, todo, s);
      ValuedVisit(hs, todo, s, positions, totalMv, totalCost);
      carried := Refresh(carried, closes, day, s);
      var h := HoldingOf(l, carried, s);
      totalMv, totalCost := totalMv + h.marketValue, totalCost + h.costBasis;
      positions := positions[s := h];
      todo := todo - {s};
    }
  }

  /** One trade of the day loop, updating the accumulators. */
  method ReplayOne(l: Tape, t: Trade) returns (r: Result<Tape, ReplayError>)
    requires LongSide(t)
    ensures match ReplayTrade(l, t)
      case Success(l') => r.Success? && r.value == l'
      case Failure(e) => r == Failure(e)
  {
    var cash, realized, qty, cost := l.cash, l.realized, l.qty, l.cost;
    if t.side == Buy {
      var tradeCost := t.price * t.quantity + t.commission;
      qty := qty[t.symbol := GetOr(qty, t.symbol, 0.0) + t.quantity];
      cost := cost[t.symbol := GetOr(cost, t.symbol, 0.0) + tradeCost];
      cash := cash - tradeCost;
    } else {
      var held := GetOr(qty, t.symbol, 0.0);
      if held < t.quantity - DUST {
        return Failure(LedgerInconsistency(t.symbol, t.quantity, held));
      }
      var avg := if held > 0.0 then GetOr(cost, t.symbol, 0.0) / held else 0.0;
      realized := realized + (Times(t.price - avg, t.quantity) - t.commission);
      cost := cost[t.symbol := GetOr(cost, t.symbol, 0.0) - Times(avg, t.quantity)];
      qty := qty[t.symbol := held - t.quantity];
      cash := cash + (t.price * t.quantity - t.commission);
    }
    r := Success(Tape(cash, realized, qty, cost));
    ghost var next := ReplayTrade(l, t);
    assert next.Success? && next.value.cash == cash && next.value.realized == realized;
    assert next.value.qty == qty;
  }

  lemma ReplayNext(start: Tape, ts: seq<Trade>, i: nat)
    requires i < |ts|
    ensures ReplayAll(start, ts[..i + 1])
         == (match ReplayAll(start, ts[..i]) case Failure(e) => Failure(e) case Success(l) => ReplayTrade(l, ts[i]))
  {
    assert ts[..i + 1][..i] == ts[..i];
  }

  /** An error stops the replay: later trades do not change it. */
  lemma {:induction false} ReplayStops(start: Tape, ts: seq<Trade>, i: nat)
    requires i <= |ts| && ReplayAll(start, ts[..i]).Failure?
    ensures ReplayAll(start, ts) == ReplayAll(start, ts[..i])
    decreases |ts|
  {
    if i == |ts| {
      assert ts[..i] == ts;
    } else {
      assert ts[..|ts| - 1][..i] == ts[..i];
      ReplayStops(start, ts[..|ts| - 1], i);
    }
  }

  /** The trades of one day, applied one by one to the accumulators. */
  method ReplayOneDay(start: Tape, ts: seq<Trade>) returns (r: Result<Tape, ReplayError>)
    requires forall i :: 0 <= i < |ts| ==> LongSide(ts[i])
    ensures r == ReplayAll(start, ts)
  {
    var l := start;
    for i := 0 to |ts|
      invariant ReplayAll(start, ts[..i]) == Success(l)
    {
      ReplayNext(start, ts, i);
      var next := ReplayOne(l, ts[i]);
      if next.Failure? {
        ReplayStops(start, ts, i + 1);
        return Failure(next.error);
      }
      l := next.value;
    }
    assert ts[..|ts|] == ts;
    r := Success(l);
  }

  /** Groups the sorted trades by their New York date (`by_day.setdefault(...).append(t)`). */
  method GroupByDay(ts: seq<Trade>, nyDate: int -> int) returns (byDay: map<int, seq<Trade>>)
    ensures forall d :: GetOr(byDay, d, []) == TradesOn(ts, d, nyDate)
  {
    byDay := map[];
    var i := 0;
    while i < |ts|
      invariant 0 <= i <= |ts|
      invariant forall d :: GetOr(byDay, d, []) == TradesOn(ts[..i], d, nyDate)
    {
      var day := nyDate(ts[i].executedAt);
      assert ts[..i + 1][..i] == ts[..i];
      byDay := byDay[day := GetOr(byDay, day, []) + [ts[i]]];
      i := i + 1;
    }
    assert ts[..i] == ts;
  }

  /** One pass of the day loop: the day's trades, then its valuation. */
  method RunDay(p: Progress, day: int, today: seq<Trade>, closes: Closes) returns (r: Result<Progress, ReplayError>)
    requires forall i :: 0 <= i < |today| ==> LongSide(today[i])
    ensures r == DayStep(p, day, today, closes)
  {
    var replayed := ReplayOneDay(p.tape, today);
    if replayed.Failure? {
      return Failure(replayed.error);
    }
    var tape := replayed.value;
    var open := set s | s in tape.qty && tape.qty[s] > DUST;
    var carried, positions, totalMv, totalCost :=
      ValueHeld(day, tape, p.lastClose, closes, open, Holdings(tape, Carry(tape, p.lastClose, closes, day)));
    var state := DailyState(day, tape.cash, tape.cash + totalMv, totalMv - totalCost, tape.realized, positions);
    assert state == StateOn(day, tape, carried);
    r := Success(Progress(tape, carried, p.states + [state]));
  }

  lemma {:induction false} TradesOnLong(ts: seq<Trade>, day: int, nyDate: int -> int)
    requires forall i :: 0 <= i < |ts| ==> LongSide(ts[i])
    ensures forall i :: 0 <= i < |TradesOn(ts, day, nyDate)| ==> LongSide(TradesOn(ts, day, nyDate)[i])
  {
    if ts != [] {
      TradesOnLong(ts[..|ts| - 1], day, nyDate);
    }
  }

  lemma {:induction false} DaysStop(start: Tape, ts: seq<Trade>, days: seq<int>, closes: Closes,
                                    nyDate: int -> int, k: nat)
    requires k <= |days| && ReplayDays(start, ts, days[..k], closes, nyDate).Failure?
    ensures ReplayDays(start, ts, days, closes, nyDate) == ReplayDays(start, ts, days[..k], closes, nyDate)
    decreases |days|
  {
    if k == |days| {
      assert days[..k] == days;
    } else {
      assert days[..|days| - 1][..k] == days[..k];
      DaysStop(start, ts, days[..|days| - 1], closes, nyDate, k);
    }
  }

  /** The day loop. */
  method RunDays(start: Tape, ts: seq<Trade>, days: seq<int>, closes: Closes, nyDate: int -> int)
    returns (r: Result<Progress, ReplayError>)
    requires forall i :: 0 <= i < |ts| ==> LongSide(ts[i])
    ensures r == ReplayDays(start, ts, days, closes, nyDate)
  {
    var byDay := GroupByDay(ts, nyDate);
    var p := Progress(start, map[], []);
    for k := 0 to |days|
      invariant ReplayDays(start, ts, days[..k], closes, nyDate) == Success(p)
    {
      assert days[..k + 1][..k] == days[..k];
      TradesOnLong(ts, days[k], nyDate);
      var next := RunDay(p, days[k], GetOr(byDay, days[k], []), closes);
      if next.Failure? {
        DaysStop(start, ts, days, closes, nyDate, k + 1);
        return Failure(next.error);
      }
      p := next.value;
    }
    assert days[..|days|] == days;
    r := Success(p);
  }

  /** Replays the log over the trading days and values each day at carried-forward closes. */
  method ReconstructDailyStates(trades: seq<Trade>, initialCash: real, closes: Closes,
                                tradingDays: seq<int>, nyDate: int -> int)
    returns (r: Result<seq<DailyState>, ReplayError>)
    ensures r == Reconstructed(trades, initialCash, closes, tradingDays, nyDate)
  {
    for i := 0 to |trades|
      invariant forall j :: 0 <= j < i ==> LongSide(trades[j])
    {
      if trades[i].side != Buy && trades[i].side != Sell {
        return Failure(UnsupportedSide);
      }
    }
    var ts := Sort(trades, ByTime);
    SortMembers(trades, ByTime);
    assert forall j :: 0 <= j < |ts| ==> ts[j] in trades;
    var p := RunDays(StartTape(initialCash), ts, Sort(tradingDays, Ascending), closes, nyDate);
    r := if p.Failure? then Failure(p.error) else Success(p.value.states);
  }
}
