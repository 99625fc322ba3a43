/** The independent re-derivation of a published run from its tables alone
    (src/ashare_quant/backtest/continuous_evidence.py, continuous_validation.py and
    _validate_trade_lifecycles in engine.py). Nothing here sees positions or cash. */
module Auditor {
  import opened Basics
  import opened Costs
  import opened Ledgers
  import opened CorporateActions
  import opened Simulation

  const CLOSE_RTOL := 0.0000000001
  const CLOSE_ATOL := 0.000001

  /** require_close on finite numbers. */
  predicate Agrees(actual: real, expected: real) {
    IsClose(actual, expected, CLOSE_RTOL, CLOSE_ATOL)
  }

  predicate AgreesAt(actual: Option<real>, expected: Option<real>) {
    actual.Some? && expected.Some? && Agrees(actual.value, expected.value)
  }

  // ----- lifecycle replay -----

  datatype Event = Event(date: Date, priority: int, id: Option<PositionId>, shares: real, cost: real)

  function TradeEvents(trades: seq<Trade>): seq<Event> {
    if trades == [] then []
    else
      var t := trades[|trades| - 1];
      TradeEvents(trades[..|trades| - 1])
      + if t.status == Filled || t.status == TerminalWriteoff
        then [Event(t.date, if t.side == Buy then 0 else 2, t.id, t.shares, t.cost)] else []
  }

  function ActionEvents(actions: seq<Action>): seq<Event> {
    if actions == [] then []
    else
      var a := actions[|actions| - 1];
      ActionEvents(actions[..|actions| - 1]) + [Event(a.effective, 1, Some(a.id), a.newShares, 0.0)]
  }

  predicate IdBefore(a: Option<PositionId>, b: Option<PositionId>) {
    match (a, b)
    case (None, None) => true
    case (None, Some(_)) => true
    case (Some(_), None) => false
    case (Some(x), Some(y)) => x.date < y.date || (x.date == y.date && x.code <= y.code)
  }

  /** Tuple order: date, priority, position id, shares, cost. */
  predicate EventBefore(a: Event, b: Event) {
    if a.date != b.date then a.date < b.date
    else if a.priority != b.priority then a.priority < b.priority
    else if a.id != b.id then IdBefore(a.id, b.id)
    else if a.shares != b.shares then a.shares < b.shares
    else a.cost <= b.cost
  }

  function Insert(events: seq<Event>, e: Event): seq<Event> {
    if events == [] then [e]
    else if EventBefore(events[|events| - 1], e) then events + [e]
    else Insert(events[..|events| - 1], e) + [events[|events| - 1]]
  }

  function SortEvents(events: seq<Event>): seq<Event> {
    if events == [] then []
    else Insert(SortEvents(events[..|events| - 1]), events[|events| - 1])
  }

  type Held = map<Option<PositionId>, real>

  const SHARE_TOLERANCE := 0.000000001

  /** One event of the replay: open once, convert while open, close what is held. */
  function ReplayEvent(live: Held, e: Event): Option<Held> {
    if e.shares < 0.0 || e.cost < 0.0 then None
    else if e.priority == 0 then
      if e.id in live then None else Some(live[e.id := e.shares])
    else if e.priority == 1 then
      if e.id in live then Some(live[e.id := e.shares]) else None
    else if e.id !in live || e.shares > live[e.id] + SHARE_TOLERANCE then None
    else Some(live - {e.id})
  }

  function ReplayEvents(events: seq<Event>): Option<Held> {
    if events == [] then Some(map[])
    else
      match ReplayEvents(events[..|events| - 1])
      case None => None
      case Some(live) => ReplayEvent(live, events[|events| - 1])
  }

  /** The replay of trades and actions in event order leaves exactly the expected ids open. */
  predicate LifecyclesReconcile(trades: seq<Trade>, open: set<Option<PositionId>>, actions: seq<Action>) {
    trades == []
    || var replay := ReplayEvents(SortEvents(TradeEvents(trades) + ActionEvents(actions)));
       replay.Some? && replay.value.Keys == open
  }

  predicate ActionLedgerReconciles(actions: seq<Action>) {
    forall k :: 0 <= k < |actions| ==>
      IsClose(actions[k].before, actions[k].after, MARK_TOLERANCE, MARK_TOLERANCE) && actions[k].cashDelta == 0.0
  }

  // ----- accounting evidence -----

  function DailyDates(daily: seq<Daily>): seq<Date> {
    seq(|daily|, i requires 0 <= i < |daily| => daily[i].date)
  }

  function PreviousEquity(env: Env, daily: seq<Daily>, i: nat): real
    requires i < |daily|
  {
    if i == 0 then env.initialCash else daily[i - 1].equity
  }

  /** cashflow.cumsum(): the signed fills of the first n dates. */
  function CumulativeFlow(trades: seq<Trade>, daily: seq<Daily>, n: nat): real
    requires n <= |daily|
  {
    if n == 0 then 0.0
    else CumulativeFlow(trades, daily, n - 1) + SumOn(trades, TradeDate, CashFlow, daily[n - 1].date)
  }

  predicate DailyReconciles(env: Env, r: Report, i: nat)
    requires i < |r.daily|
  {
    var d, previous := r.daily[i], PreviousEquity(env, r.daily, i);
    && Agrees(d.cash + d.holdingsValue, d.equity)
    && d.cash >= -CASH_TOLERANCE && d.holdingsValue >= -CASH_TOLERANCE && d.equity >= -CASH_TOLERANCE
    && Agrees(d.netReturn, if previous > 0.0 then d.equity / previous - 1.0 else 0.0)
    && Agrees(d.holdingsValue, SumOn(r.holdings, HoldingDate, MarketValue, d.date))
    && Agrees(d.cash, env.initialCash + CumulativeFlow(r.trades, r.daily, i + 1))
    && Agrees(d.cost, SumOn(r.trades, TradeDate, TradeCost, d.date))
    && Agrees(d.turnover, if previous > 0.0 then SumOn(r.trades, TradeDate, FilledGross, d.date) / previous else 0.0)
  }

  predicate HoldingReconciles(h: Holding) {
    AgreesAt(h.marketValue, ValueAt(h.shares, h.lastClose)) && h.lastPriceDate <= h.date
  }

  predicate SameHolding(a: Holding, b: Holding) {
    a.date == b.date && a.id == b.id
  }

  function WriteoffIds(trades: seq<Trade>): set<Option<PositionId>> {
    set t | t in trades && t.status == TerminalWriteoff :: t.id
  }

  function TerminalIds(terminals: seq<Terminal>): set<Option<PositionId>> {
    set t | t in terminals :: Some(t.id)
  }

  /** accounting_evidence accepts the report. */
  predicate AccountingEvidence(env: Env, r: Report) {
    var dates := DailyDates(r.daily);
    && r.daily != [] && StrictlyIncreasing(dates)
    && (forall i :: 0 <= i < |r.daily| ==> DailyReconciles(env, r, i))
    && ActionLedgerReconciles(r.actions)
    && LifecyclesReconcile(r.trades, {}, r.actions)
    && (forall j, k :: 0 <= j < k < |r.holdings| ==> !SameHolding(r.holdings[j], r.holdings[k]))
    && (forall k :: 0 <= k < |r.holdings| ==>
          r.holdings[k].date in dates && HoldingReconciles(r.holdings[k])
          && r.holdings[k].date != dates[|dates| - 1])
    && (forall k :: 0 <= k < |r.trades| ==> r.trades[k].date in dates)
    && (r.trades != [] ==> WriteoffIds(r.trades) == TerminalIds(r.terminals))
    && (forall j, k :: 0 <= j < k < |r.terminals| ==> r.terminals[j].id != r.terminals[k].id)
    && (forall k :: 0 <= k < |r.terminals| ==> Agrees(r.terminals[k].recovery, 0.0))
  }

  // ----- counters and intents -----

  predicate IsStale(h: Holding) { h.valuation != Current }
  function StaleDays(h: Holding): nat { h.staleDays }
  predicate IsWriteoff(t: Trade) { t.status == TerminalWriteoff }
  predicate IsDelayedSell(t: Trade) { t.status == Rejected && t.side == Sell }
  function DelayedDays(t: Trade): nat { t.delayed }
  predicate IsResolvedBreach(t: Trade) { t.breached && IsClosing(t) }

  function BreachedIds(trades: seq<Trade>): set<Option<PositionId>> {
    set t | t in trades && t.breached :: t.id
  }

  /** The counters recomputed from the tables. */
  function Recount(trades: seq<Trade>, holdings: seq<Holding>): Counters {
    Counters(
      Count(holdings, IsStale),
      MaxOver(holdings, StaleDays),
      Count(trades, IsWriteoff),
      Count(trades, IsDelayedSell),
      |BreachedIds(trades)|,
      MaxOver(trades, DelayedDays),
      Count(trades, IsResolvedBreach))
  }

  datatype Slot = Slot(signalDate: Date, date: Date, code: Code, rank: nat)

  function SlotOf(x: Intent): Slot { Slot(x.signalDate, x.date, x.code, x.rank) }

  function SlotsOf(intents: seq<Intent>): seq<Slot> {
    seq(|intents|, k requires 0 <= k < |intents| => SlotOf(intents[k]))
  }

  function DaySlots(env: Env, i: nat): seq<Slot>
    requires i < |env.calendar|
  {
    var codes := env.Selected(env.calendar[i]);
    seq(|codes|, k requires 0 <= k < |codes| => Slot(SignalDate(env, i), env.calendar[i], codes[k], k + 1))
  }

  /** What every selected signal up to calendar index n is expected to leave behind. */
  function ExpectedSlots(env: Env, n: nat): seq<Slot>
    requires n <= |env.calendar|
  {
    if n == 0 then [] else ExpectedSlots(env, n - 1) + DaySlots(env, n - 1)
  }

  predicate IsFilledIntent(x: Intent) { x.outcome == OutcomeFilled }

  function IntentIds(intents: seq<Intent>): seq<Option<PositionId>> {
    if intents == [] then []
    else
      var last := intents[|intents| - 1];
      IntentIds(intents[..|intents| - 1]) + if IsFilledIntent(last) then [last.id] else []
  }

  function OpeningIds(trades: seq<Trade>): seq<Option<PositionId>> {
    if trades == [] then []
    else
      var last := trades[|trades| - 1];
      OpeningIds(trades[..|trades| - 1]) + if IsOpening(last) then [last.id] else []
  }

  function ClosingIds(trades: seq<Trade>): seq<Option<PositionId>> {
    if trades == [] then []
    else
      var last := trades[|trades| - 1];
      ClosingIds(trades[..|trades| - 1]) + if IsClosing(last) then [last.id] else []
  }

  // ----- position history -----

  /** Where the replay of one position stands. */
  datatype Cursor = Cursor(shares: real, code: Code, next: nat)

  /** Consume the pending actions effective by a date. */
  function Consume(acts: seq<Action>, cur: Cursor, bound: Date): Option<Cursor>
    decreases |acts| - cur.next
  {
    if cur.next >= |acts| || acts[cur.next].effective > bound then Some(cur)
    else
      var a := acts[cur.next];
      if a.predecessor != cur.code || !Agrees(a.oldShares, cur.shares) then None
      else Consume(acts, Cursor(a.newShares, a.successor, cur.next + 1), bound)
  }

  /** The cursor after the first n holding rows. */
  function AfterRows(acts: seq<Action>, start: Cursor, rows: seq<Holding>, n: nat): Option<Cursor>
    requires n <= |rows|
  {
    if n == 0 then Some(start)
    else
      match AfterRows(acts, start, rows, n - 1)
      case None => None
      case Some(cur) =>
        match Consume(acts, cur, rows[n - 1].date)
        case None => None
        case Some(next) =>
          if Agrees(rows[n - 1].shares, next.shares) && rows[n - 1].code == next.code then Some(next) else None
  }

  /** The replay of all rows, and then of the actions effective by a date. */
  function Replayed(buy: Trade, acts: seq<Action>, rows: seq<Holding>, bound: Date): Option<Cursor> {
    match AfterRows(acts, Cursor(buy.shares, buy.code, 0), rows, |rows|)
    case None => None
    case Some(cur) => Consume(acts, cur, bound)
  }

  function IndexOf(calendar: seq<Date>, date: Date): Option<nat> {
    if calendar == [] then None
    else if calendar[0] == date then Some(0)
    else
      match IndexOf(calendar[1..], date)
      case None => None
      case Some(k) => Some(k + 1)
  }

  /** [d for d in calendar if from <= d < to] */
  function Between(calendar: seq<Date>, from: Date, to: Date): seq<Date> {
    if calendar == [] then []
    else
      var last := calendar[|calendar| - 1];
      Between(calendar[..|calendar| - 1], from, to) + if from <= last < to then [last] else []
  }

  function HoldingDates(rows: seq<Holding>): seq<Date> {
    seq(|rows|, k requires 0 <= k < |rows| => rows[k].date)
  }

  predicate CostsReconcile(env: Env, t: Trade) {
    match Calculate(env.costs, t.date, t.side, t.gross)
    case Err(_) => false
    case Ok(c) =>
      && Agrees(t.costs.commission, c.commission) && Agrees(t.costs.stampDuty, c.stampDuty)
      && Agrees(t.costs.transferFee, c.transferFee) && Agrees(t.costs.slippage, c.slippage)
      && Agrees(t.cost, c.Total())
      && t.price.Some? && Agrees(t.gross, t.shares * t.price.value)
  }

  /** The holdings of one closed position are on exactly the sessions from entry to closure,
      never reset, and replaying its actions explains every share count and code. */
  predicate HistoryAccepted(env: Env, buy: Trade, close: Trade, rows: seq<Holding>, acts: seq<Action>) {
    var entry := IndexOf(env.calendar, buy.date);
    && rows != [] && HoldingDates(rows) == Between(env.calendar, buy.date, close.date)
    && entry.Some? && entry.value + env.holdingPeriod < |env.calendar|
    && (forall k :: 0 <= k < |rows| ==>
          rows[k].entryDate == buy.date && rows[k].original == buy.code
          && rows[k].target == env.calendar[entry.value + env.holdingPeriod])
    && var final := Replayed(buy, acts, rows, close.date);
       final.Some? && final.value.next == |acts| && close.code == final.value.code
       && Agrees(close.shares, final.value.shares)
  }

  type TradeMap = map<PositionId, Trade>

  function Openings(trades: seq<Trade>): TradeMap {
    if trades == [] then map[]
    else
      var t := trades[|trades| - 1];
      var m := Openings(trades[..|trades| - 1]);
      if IsOpening(t) && t.id.Some? then m[t.id.value := t] else m
  }

  function Closings(trades: seq<Trade>): TradeMap {
    if trades == [] then map[]
    else
      var t := trades[|trades| - 1];
      var m := Closings(trades[..|trades| - 1]);
      if IsClosing(t) && t.id.Some? then m[t.id.value := t] else m
  }

  predicate TerminalReconciles(r: Report, e: Terminal) {
    var rows := Own(r.holdings, HoldingId, e.id);
    && e.id in Closings(r.trades)
    && var close := Closings(r.trades)[e.id];
       close.status == TerminalWriteoff && close.date == e.date && close.code == e.code
       && rows != []
       && var last := rows[|rows| - 1];
          AgreesAt(e.markBefore, last.marketValue) && e.entryDate == last.entryDate && e.target == last.target
  }

  /** _validate_position_history accepts the report. */
  predicate PositionHistory(env: Env, r: Report) {
    if r.trades == [] then r.holdings == [] && r.actions == [] && r.terminals == []
    else
      && NoDuplicates(OpeningIds(r.trades)) && NoDuplicates(ClosingIds(r.trades))
      && (set x | x in OpeningIds(r.trades)) == (set x | x in ClosingIds(r.trades))
      && (forall k :: 0 <= k < |r.trades| && r.trades[k].status == Filled ==> CostsReconcile(env, r.trades[k]))
      && (forall k :: 0 <= k < |r.trades| && IsOpening(r.trades[k]) ==>
            && r.trades[k].id.Some? && r.trades[k].id.value in Closings(r.trades)
            && var q := r.trades[k].id.value;
               HistoryAccepted(env, r.trades[k], Closings(r.trades)[q], Own(r.holdings, HoldingId, q), Own(r.actions, ActionId, q)))
      && (forall k :: 0 <= k < |r.terminals| ==> TerminalReconciles(r, r.terminals[k]))
  }

  /** Every action row is backed by a supported transition and its own arithmetic. */
  predicate ActionReconciles(ts: Transitions, a: Action) {
    && Evidenced(ts, a)
    && Agrees(a.newShares, a.oldShares * a.ratio)
    && Agrees(a.before, a.oldShares * a.oldClose)
    && Agrees(a.after, a.newShares * a.adjustedClose)
    && Agrees(a.cashDelta, 0.0)
  }

  /** [d for d in calendar if d <= end] */
  function UpTo(calendar: seq<Date>, end: Date): seq<Date> {
    if calendar == [] then []
    else
      var last := calendar[|calendar| - 1];
      UpTo(calendar[..|calendar| - 1], end) + if last <= end then [last] else []
  }

  predicate CoversCalendar(env: Env, r: Report) {
    r.daily != [] && DailyDates(r.daily) == UpTo(env.calendar, r.daily[|r.daily| - 1].date)
  }

  /** The dates a replay is governed by: nothing may be executed after the cutoff or from the lockbox
      on, and all signals have to be worked through. */
  datatype Governance = Governance(cutoff: Date, lockbox: Date, signalEnd: Date)

  predicate WithinGovernance(g: Governance, r: Report) {
    r.daily != [] && var end := r.daily[|r.daily| - 1].date; end <= g.cutoff && end < g.lockbox && g.signalEnd <= end
  }

  /** _validate_portfolio accepts the report. */
  predicate GovernedEvidence(env: Env, g: Governance, r: Report) {
    WithinGovernance(g, r) && PortfolioEvidence(env, r)
  }

  /** Its part that does not depend on the governing dates. */
  predicate PortfolioEvidence(env: Env, r: Report) {
    && CoversCalendar(env, r)
    && r.counters == Recount(r.trades, r.holdings)
    && SlotsOf(r.intents) == ExpectedSlots(env, |env.calendar|)
    && multiset(IntentIds(r.intents)) == multiset(OpeningIds(r.trades))
    && PositionHistory(env, r)
    && (forall k :: 0 <= k < |r.actions| ==> ActionReconciles(env.Transitions(), r.actions[k]))
  }
}
