/** Positions and the six append-only ledgers of one simulated portfolio
    (src/ashare_quant/backtest/engine.py). The Top-N size is the same in every row of a run
    and is therefore not repeated in the rows. */
module Ledgers {
  import opened Basics
  import opened Costs

  /** f"{top_n}:{date}:{code}" for one fixed Top-N. */
  datatype PositionId = PositionId(date: Date, code: Code)

  datatype Valuation = Current | StaleSuspended | StaleMissingData

  /** None stands for a missing or non-finite number. */
  datatype PositionState = PositionState(
    id: PositionId,
    code: Code,
    original: Code,
    shares: real,
    entryDate: Date,
    entryIndex: int,
    target: Date,
    lastClose: Option<real>,
    lastPriceDate: Date,
    valuation: Valuation,
    staleDays: nat,
    delayed: nat,
    breached: bool)

  datatype TradeStatus = Filled | Rejected | TerminalWriteoff

  datatype Reason = NoReason | NotSellable | NotBuyable | VerifiedTerminal

  datatype Trade = Trade(
    date: Date,
    id: Option<PositionId>,
    code: Code,
    side: Side,
    status: TradeStatus,
    shares: real,
    price: Option<real>,
    gross: real,
    costs: TradeCosts,
    cost: real,
    holdingSessions: Option<int>,
    delayed: nat,
    breached: bool,
    reason: Reason)

  datatype Holding = Holding(
    date: Date,
    id: PositionId,
    code: Code,
    original: Code,
    shares: real,
    marketValue: Option<real>,
    entryDate: Date,
    target: Date,
    delayed: nat,
    lastClose: Option<real>,
    lastPriceDate: Date,
    valuation: Valuation,
    staleDays: nat)

  datatype Action = Action(
    effective: Date,
    id: PositionId,
    predecessor: Code,
    successor: Code,
    oldShares: real,
    newShares: real,
    ratio: real,
    oldClose: real,
    adjustedClose: real,
    before: real,
    after: real,
    delta: real,
    cashDelta: real,
    evidence: nat)

  datatype Outcome =
    | OutcomeFilled
    | OutcomeNotBuyable
    | OutcomeAlreadyHeld
    | OutcomeNoAvailableCash
    | OutcomeInsufficientGross
    | OutcomeTerminal

  datatype Intent = Intent(
    signalDate: Date,
    date: Date,
    code: Code,
    rank: nat,
    outcome: Outcome,
    cashBefore: real,
    id: Option<PositionId>)

  datatype Terminal = Terminal(
    date: Date,
    id: PositionId,
    code: Code,
    entryDate: Date,
    target: Date,
    holdingSessions: int,
    lastClose: Option<real>,
    lastPriceDate: Date,
    markBefore: Option<real>,
    recovery: real)

  datatype Daily = Daily(
    date: Date,
    cash: real,
    holdingsValue: real,
    equity: real,
    turnover: real,
    grossReturn: real,
    netReturn: real,
    cost: real,
    benchmark: real)

  datatype Counters = Counters(
    staleDays: nat,
    maxStale: nat,
    writeoffs: nat,
    delayedSells: nat,
    breaches: nat,
    maxDelay: nat,
    resolvedAfterBreach: nat)

  /** The published tables of one run and the counters of its accounting summary. */
  datatype Report = Report(
    daily: seq<Daily>,
    trades: seq<Trade>,
    holdings: seq<Holding>,
    actions: seq<Action>,
    intents: seq<Intent>,
    terminals: seq<Terminal>,
    counters: Counters)

  function TradeDate(t: Trade): Date { t.date }
  function HoldingDate(h: Holding): Date { h.date }
  function TradeCost(t: Trade): real { t.cost }

  predicate IsOpening(t: Trade) { t.status == Filled && t.side == Buy }
  predicate IsClosing(t: Trade) { (t.status == Filled || t.status == TerminalWriteoff) && t.side == Sell }

  /** The signed cash flow of one trade row: nothing moves unless the row is a fill. */
  function CashFlow(t: Trade): real {
    if t.status != Filled then 0.0
    else (if t.side == Buy then -t.gross else t.gross) - t.cost
  }

  function FilledGross(t: Trade): real {
    if t.status == Filled then t.gross else 0.0
  }

  /** The value of shares at a possibly missing price. */
  function ValueAt(shares: real, close: Option<real>): Option<real> {
    match close
    case None => None
    case Some(c) => Some(Times(shares, c))
  }

  function OrZero(x: Option<real>): real {
    match x
    case None => 0.0
    case Some(v) => v
  }

  function MarketValue(h: Holding): real { OrZero(h.marketValue) }

  // ----- the rows of one position -----

  /** The rows of a ledger that belong to one position, in ledger order. */
  function Own<T>(rows: seq<T>, id: T -> Option<PositionId>, q: PositionId): seq<T> {
    if rows == [] then []
    else
      var last := rows[|rows| - 1];
      if id(last) == Some(q) then Own(rows[..|rows| - 1], id, q) + [last] else Own(rows[..|rows| - 1], id, q)
  }

  lemma OwnSnoc<T>(rows: seq<T>, row: T, id: T -> Option<PositionId>, q: PositionId)
    ensures Own(rows + [row], id, q) == if id(row) == Some(q) then Own(rows, id, q) + [row] else Own(rows, id, q)
  {
    assert (rows + [row])[..|rows|] == rows;
  }

  lemma {:induction false} OwnConcat<T>(a: seq<T>, b: seq<T>, id: T -> Option<PositionId>, q: PositionId)
    ensures Own(a + b, id, q) == Own(a, id, q) + Own(b, id, q)
  {
    if b == [] {
      assert a + b == a;
    } else {
      var front, last := b[..|b| - 1], b[|b| - 1];
      assert a + b == (a + front) + [last];
      OwnSnoc(a + front, last, id, q);
      OwnConcat(a, front, id, q);
    }
  }

  lemma {:induction false} OwnNone<T>(rows: seq<T>, id: T -> Option<PositionId>, q: PositionId)
    requires forall r :: r in rows ==> id(r) != Some(q)
    ensures Own(rows, id, q) == []
  {
    if rows != [] {
      OwnNone(rows[..|rows| - 1], id, q);
    }
  }

  lemma {:induction false} OwnAll<T>(rows: seq<T>, id: T -> Option<PositionId>, q: PositionId)
    requires forall r :: r in rows ==> id(r) == Some(q)
    ensures Own(rows, id, q) == rows
  {
    if rows != [] {
      OwnAll(rows[..|rows| - 1], id, q);
    }
  }

  lemma {:induction false} OwnMember<T>(rows: seq<T>, id: T -> Option<PositionId>, q: PositionId, row: T)
    ensures row in Own(rows, id, q) <==> row in rows && id(row) == Some(q)
  {
    if rows != [] {
      var front, last := rows[..|rows| - 1], rows[|rows| - 1];
      assert rows == front + [last];
      OwnMember(front, id, q, row);
    }
  }

  function HoldingId(h: Holding): Option<PositionId> { Some(h.id) }
  function ActionId(a: Action): Option<PositionId> { Some(a.id) }
}
