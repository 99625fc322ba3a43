/** The day-stepped portfolio simulator as a function of its inputs
    (simulate_portfolio in src/ashare_quant/backtest/engine.py). */
module Simulation {
  import opened Basics
  import opened Costs
  import opened Ledgers
  import opened CorporateActions

  /** One security on one date; a missing or non-finite price is None. */
  datatype Price = Price(
    open: Option<real>,
    close: Option<real>,
    canBuy: bool,
    canSell: bool,
    suspended: bool,
    listed: bool,
    delistDate: Option<Date>)

  /** Inputs and settings. entries holds the ranked codes to enter on each session. */
  datatype Env = Env(
    calendar: seq<Date>,
    signalStart: Date,
    entries: map<Date, seq<Code>>,
    prices: map<(Date, Code), Price>,
    transitions: seq<Transition>,
    benchmark: map<Date, real>,
    costs: seq<Schedule>,
    initialCash: real,
    holdingPeriod: nat,
    maxDelay: nat,
    strict: bool,
    carryToCalendarEnd: bool)
  {
    function PriceAt(date: Date, code: Code): Option<Price> {
      if (date, code) in prices then Some(prices[(date, code)]) else None
    }

    function Selected(date: Date): seq<Code> {
      if date in entries then entries[date] else []
    }

    function Transitions(): map<Code, Transition> {
      ByPredecessor(transitions)
    }
  }

  function ByPredecessor(ts: seq<Transition>): map<Code, Transition> {
    if ts == [] then map[]
    else ByPredecessor(ts[..|ts| - 1])[ts[|ts| - 1].predecessor := ts[|ts| - 1]]
  }

  lemma {:induction false} ByPredecessorIsIndexed(ts: seq<Transition>)
    ensures Indexed(ByPredecessor(ts))
  {
    if ts != [] {
      ByPredecessorIsIndexed(ts[..|ts| - 1]);
    }
  }

  datatype Failure =
    | EmptyCalendar
    | UnsupportedTopology
    | BenchmarkIncomplete
    | NoSessions
    | ActionFault(fault: Fault)
    | CostFault(error: CostError)
    | MissingKey
    | SellDelayExceeded(id: PositionId)
    | CalendarInsufficient
    | MarketDataIncomplete(id: PositionId)
    | AccountingInvariant
    | OpenAtCutoff
    | LedgerInvalid
    | LifecycleInvalid

  datatype State = State(
    cash: real,
    previousEquity: real,
    dayCost: real,
    dayValue: Option<real>,
    book: Book,
    slips: Dict<Code, Intent>,
    trades: seq<Trade>,
    holdings: seq<Holding>,
    actions: seq<Action>,
    intents: seq<Intent>,
    terminals: seq<Terminal>,
    daily: seq<Daily>,
    counters: Counters,
    stopped: bool)

  function Initial(env: Env): State {
    State(env.initialCash, env.initialCash, 0.0, Some(0.0), Dict([], map[]), Dict([], map[]),
          [], [], [], [], [], [], Counters(0, 0, 0, 0, 0, 0, 0), false)
  }

  // ----- predicates on prices -----

  predicate CanBuy(price: Price) {
    price.canBuy && price.listed && price.open.Some? && price.open.value > 0.0
  }

  predicate CanSell(price: Price) {
    price.canSell && price.open.Some? && price.open.value > 0.0
  }

  predicate IsTerminal(price: Option<Price>, date: Date) {
    price.Some? && !price.value.listed && price.value.delistDate.Some? && price.value.delistDate.value <= date
  }

  predicate Buyable(price: Option<Price>) {
    price.Some? && CanBuy(price.value)
  }

  predicate Sellable(price: Option<Price>) {
    price.Some? && CanSell(price.value)
  }

  // ----- ledger rows -----

  function FilledTrade(date: Date, p: PositionState, side: Side, price: real, gross: real, costs: TradeCosts,
      sessions: Option<int>): Trade
  {
    Trade(date, Some(p.id), p.code, side, Filled, p.shares, Some(price), gross, costs, costs.Total(),
          sessions, p.delayed, p.breached, NoReason)
  }

  function RejectedTrade(date: Date, code: Code, side: Side, reason: Reason, id: Option<PositionId>,
      delayed: nat, breached: bool): Trade
  {
    Trade(date, id, code, side, Rejected, 0.0, None, 0.0, NoCosts, 0.0, None, delayed, breached, reason)
  }

  function TerminalTrade(date: Date, p: PositionState, sessions: int): Trade {
    RejectedTrade(date, p.code, Sell, VerifiedTerminal, Some(p.id), p.delayed, p.breached).(
      status := TerminalWriteoff, shares := p.shares, holdingSessions := Some(sessions))
  }

  function HoldingRow(date: Date, p: PositionState): Holding {
    Holding(date, p.id, p.code, p.original, p.shares, Mark(p), p.entryDate, p.target, p.delayed,
            p.lastClose, p.lastPriceDate, p.valuation, p.staleDays)
  }

  // ----- corporate actions -----

  function ActOn(env: Env, st: State, date: Date): Result<State, Failure> {
    match ApplyEffective(env.Transitions(), st.book, date)
    case Err(f) => Err(ActionFault(f))
    case Ok(m) => Ok(st.(book := m.book, actions := st.actions + m.rows))
  }

  // ----- scheduled exits -----

  function Resolved(c: Counters, p: PositionState): Counters {
    c.(resolvedAfterBreach := c.resolvedAfterBreach + if p.breached then 1 else 0)
  }

  function WriteOff(env: Env, st: State, i: nat, code: Code): State
    requires i < |env.calendar| && code in st.book.at
  {
    var date, p := env.calendar[i], st.book.at[code];
    st.(book := st.book.Delete(code),
        trades := st.trades + [TerminalTrade(date, p, i - p.entryIndex)],
        terminals := st.terminals + [Terminal(date, p.id, code, p.entryDate, p.target, i - p.entryIndex,
                                              p.lastClose, p.lastPriceDate, Mark(p), 0.0)],
        counters := Resolved(st.counters.(writeoffs := st.counters.writeoffs + 1), p))
  }

  function DelayedOnce(env: Env, p: PositionState): PositionState {
    p.(delayed := p.delayed + 1, breached := p.breached || p.delayed + 1 > env.maxDelay)
  }

  function Delay(env: Env, st: State, i: nat, code: Code): State
    requires i < |env.calendar| && code in st.book.at
  {
    var p, q := st.book.at[code], DelayedOnce(env, st.book.at[code]);
    var c := st.counters;
    st.(book := st.book.Put(code, q),
        trades := st.trades + [RejectedTrade(env.calendar[i], code, Sell, NotSellable, Some(q.id), q.delayed, q.breached)],
        counters := c.(delayedSells := c.delayedSells + 1,
                       maxDelay := Max(c.maxDelay, q.delayed),
                       breaches := c.breaches + if q.breached && !p.breached then 1 else 0))
  }

  function SellAt(env: Env, st: State, i: nat, code: Code, open: real, costs: TradeCosts): State
    requires i < |env.calendar| && code in st.book.at
  {
    var p := st.book.at[code];
    var gross := Times(p.shares, open);
    st.(book := st.book.Delete(code),
        cash := st.cash + (gross - costs.Total()),
        dayCost := st.dayCost + costs.Total(),
        trades := st.trades + [FilledTrade(env.calendar[i], p, Sell, open, gross, costs, Some(i - p.entryIndex))],
        counters := Resolved(st.counters, p))
  }

  /** One open position at one session: wait, write off, delay or sell. */
  function SellStep(env: Env, st: State, i: nat, code: Code): Result<State, Failure>
    requires i < |env.calendar|
  {
    if code !in st.book.at then Err(MissingKey)
    else
      var date, p := env.calendar[i], st.book.at[code];
      var price := env.PriceAt(date, code);
      if date < p.target then Ok(st)
      else if IsTerminal(price, date) then Ok(WriteOff(env, st, i, code))
      else if !Sellable(price) then
        if DelayedOnce(env, p).breached && env.strict && !env.carryToCalendarEnd then Err(SellDelayExceeded(p.id))
        else Ok(Delay(env, st, i, code))
      else
        match Calculate(env.costs, date, Sell, Times(p.shares, price.value.open.value))
        case Err(e) => Err(CostFault(e))
        case Ok(costs) => Ok(SellAt(env, st, i, code, price.value.open.value, costs))
  }

  function SellUpTo(env: Env, st: State, i: nat, codes: seq<Code>, k: nat): Result<State, Failure>
    requires i < |env.calendar| && k <= |codes|
  {
    if k == 0 then Ok(st)
    else
      var before :- SellUpTo(env, st, i, codes, k - 1);
      SellStep(env, before, i, codes[k - 1])
  }

  // ----- new entries -----

  function Candidates(codes: seq<Code>, held: map<Code, PositionState>): seq<Code> {
    if codes == [] then []
    else
      var last := codes[|codes| - 1];
      Candidates(codes[..|codes| - 1], held) + if last in held then [] else [last]
  }

  function Executable(env: Env, date: Date, codes: seq<Code>): seq<Code> {
    if codes == [] then []
    else
      var last := codes[|codes| - 1];
      Executable(env, date, codes[..|codes| - 1]) + if Buyable(env.PriceAt(date, last)) then [last] else []
  }

  function SignalDate(env: Env, i: nat): Date
    requires i < |env.calendar|
  {
    if i > 0 then env.calendar[i - 1] else env.calendar[|env.calendar| - 1]
  }

  function Slip(env: Env, st: State, i: nat, code: Code, rank: nat): Intent
    requires i < |env.calendar|
  {
    var date := env.calendar[i];
    var price := env.PriceAt(date, code);
    Intent(SignalDate(env, i), date, code, rank,
           if code in st.book.at then OutcomeAlreadyHeld
           else if IsTerminal(price, date) then OutcomeTerminal
           else if !Buyable(price) then OutcomeNotBuyable
           else OutcomeNoAvailableCash,
           st.cash,
           if code in st.book.at then Some(st.book.at[code].id) else None)
  }

  /** The intents of the first n selected codes, ranked from one. */
  function SlipsUpTo(env: Env, st: State, i: nat, codes: seq<Code>, n: nat): Dict<Code, Intent>
    requires i < |env.calendar| && n <= |codes|
  {
    if n == 0 then Dict([], map[])
    else SlipsUpTo(env, st, i, codes, n - 1).Put(codes[n - 1], Slip(env, st, i, codes[n - 1], n))
  }

  function RejectUpTo(env: Env, st: State, date: Date, codes: seq<Code>, k: nat): State
    requires k <= |codes|
  {
    if k == 0 then st
    else
      var before := RejectUpTo(env, st, date, codes, k - 1);
      if Buyable(env.PriceAt(date, codes[k - 1])) then before
      else before.(trades := before.trades + [RejectedTrade(date, codes[k - 1], Buy, NotBuyable, None, 0, false)])
  }

  const OVERSPEND_GUARD := 1.000000001

  function Settled(slips: Dict<Code, Intent>, code: Code, outcome: Outcome, id: Option<PositionId>): Dict<Code, Intent> {
    if code in slips.at then slips.Put(code, slips.at[code].(outcome := outcome, id := id)) else slips
  }

  function NewPosition(env: Env, i: nat, code: Code, price: Price, shares: real): PositionState
    requires i + env.holdingPeriod < |env.calendar|
  {
    var date := env.calendar[i];
    PositionState(PositionId(date, code), code, code, shares, date, i, env.calendar[i + env.holdingPeriod],
                  price.close, date, Current, 0, 0, false)
  }

  function BuyAt(env: Env, st: State, i: nat, code: Code, price: Price, gross: real, costs: TradeCosts): State
    requires i + env.holdingPeriod < |env.calendar| && price.open.Some? && price.open.value > 0.0
  {
    var p := NewPosition(env, i, code, price, gross / price.open.value);
    st.(book := st.book.Put(code, p),
        slips := Settled(st.slips, code, OutcomeFilled, Some(p.id)),
        cash := st.cash - (gross + costs.Total()),
        dayCost := st.dayCost + costs.Total(),
        trades := st.trades + [FilledTrade(env.calendar[i], p, Buy, price.open.value, gross, costs, None)])
  }

  /** One executable code: buy the largest affordable notional of its allocation. */
  function BuyStep(env: Env, st: State, i: nat, rates: Rates, allocation: real, code: Code): Result<State, Failure>
    requires i < |env.calendar|
  {
    var price := env.PriceAt(env.calendar[i], code);
    if !Buyable(price) then Err(MissingKey)
    else
      var gross := MaximumAffordable(rates, allocation);
      var shares := gross / price.value.open.value;
      var costs := Charge(rates, gross);
      if shares <= 0.0 || gross + costs.Total() > st.cash * OVERSPEND_GUARD then
        Ok(st.(slips := Settled(st.slips, code, OutcomeInsufficientGross,
                                if code in st.slips.at then st.slips.at[code].id else None)))
      else if i + env.holdingPeriod >= |env.calendar| then Err(CalendarInsufficient)
      else Ok(BuyAt(env, st, i, code, price.value, gross, costs))
  }

  function BuyUpTo(env: Env, st: State, i: nat, rates: Rates, allocation: real, codes: seq<Code>, k: nat): Result<State, Failure>
    requires i < |env.calendar| && k <= |codes|
  {
    if k == 0 then Ok(st)
    else
      var before :- BuyUpTo(env, st, i, rates, allocation, codes, k - 1);
      BuyStep(env, before, i, rates, allocation, codes[k - 1])
  }

  function BuyAll(env: Env, st: State, i: nat, codes: seq<Code>): Result<State, Failure>
    requires i < |env.calendar|
  {
    if codes == [] || st.cash <= 0.0 then Ok(st)
    else
      match Resolve(env.costs, env.calendar[i], Buy)
      case Err(e) => Err(CostFault(e))
      case Ok(rates) => BuyUpTo(env, st, i, rates, st.cash / (|codes| as real), codes, |codes|)
  }

  function Noted(env: Env, st: State, i: nat): State
    requires i < |env.calendar|
  {
    var selected := env.Selected(env.calendar[i]);
    st.(slips := SlipsUpTo(env, st, i, selected, |selected|))
  }

  function Enter(env: Env, st: State, i: nat): Result<State, Failure>
    requires i < |env.calendar|
  {
    var date := env.calendar[i];
    var candidates := Candidates(env.Selected(date), st.book.at);
    var noted := Noted(env, st, i);
    var rejected := RejectUpTo(env, noted, date, candidates, |candidates|);
    BuyAll(env, rejected, i, Executable(env, date, candidates))
  }

  /** The values of a dictionary in insertion order. */
  function Slips(d: Dict<Code, Intent>, n: nat): seq<Intent>
    requires n <= |d.order|
  {
    if n == 0 then []
    else Slips(d, n - 1) + if d.order[n - 1] in d.at then [d.at[d.order[n - 1]]] else []
  }

  function Recorded(st: State): State {
    st.(intents := st.intents + Slips(st.slips, |st.slips.order|))
  }

  // ----- valuation -----

  predicate HasClose(price: Option<Price>) {
    price.Some? && price.value.close.Some? && price.value.close.value > 0.0
  }

  /** The position after its end-of-day valuation. */
  function Revalued(env: Env, p: PositionState, price: Option<Price>, date: Date): Result<PositionState, Failure> {
    if HasClose(price) then
      Ok(p.(lastClose := price.value.close, lastPriceDate := date, valuation := Current, staleDays := 0))
    else if price.Some? && price.value.suspended then
      Ok(p.(valuation := StaleSuspended, staleDays := p.staleDays + 1))
    else if env.strict then Err(MarketDataIncomplete(p.id))
    else Ok(p.(valuation := StaleMissingData, staleDays := p.staleDays + 1))
  }

  function Plus(a: Option<real>, b: Option<real>): Option<real> {
    match (a, b)
    case (Some(x), Some(y)) => Some(x + y)
    case _ => None
  }

  function Aged(c: Counters, q: PositionState): Counters {
    if q.valuation == Current then c
    else c.(staleDays := c.staleDays + 1, maxStale := Max(c.maxStale, q.staleDays))
  }

  function MarkOne(st: State, date: Date, code: Code, q: PositionState): State {
    st.(book := st.book.Put(code, q),
        dayValue := Plus(st.dayValue, Mark(q)),
        holdings := st.holdings + [HoldingRow(date, q)],
        counters := Aged(st.counters, q))
  }

  function MarkStep(env: Env, st: State, date: Date, code: Code): Result<State, Failure> {
    if code !in st.book.at then Err(MissingKey)
    else
      var p := st.book.at[code];
      var q :- Revalued(env, p, env.PriceAt(date, p.code), date);
      Ok(MarkOne(st, date, code, q))
  }

  function MarkUpTo(env: Env, st: State, date: Date, codes: seq<Code>, k: nat): Result<State, Failure>
    requires k <= |codes|
  {
    if k == 0 then Ok(st)
    else
      var before :- MarkUpTo(env, st, date, codes, k - 1);
      MarkStep(env, before, date, codes[k - 1])
  }

  // ----- end of day -----

  const CASH_TOLERANCE := 0.000001

  predicate AccountingHolds(st: State) {
    && st.dayValue.Some?
    && st.cash >= -CASH_TOLERANCE
    && st.dayValue.value >= -CASH_TOLERANCE
    && st.cash + st.dayValue.value >= -CASH_TOLERANCE
    && (forall c | c in st.book.at :: st.book.at[c].shares > 0.0)
  }

  function Turnover(st: State, date: Date): real {
    if st.previousEquity <= 0.0 then 0.0 else SumOn(st.trades, TradeDate, FilledGross, date) / st.previousEquity
  }

  function Return(equity: real, previous: real): real {
    if previous > 0.0 then equity / previous - 1.0 else 0.0
  }

  function DailyRow(env: Env, st: State, date: Date): Daily {
    var value := OrZero(st.dayValue);
    var equity := st.cash + value;
    Daily(date, st.cash, value, equity, Turnover(st, date), Return(equity + st.dayCost, st.previousEquity),
          Return(equity, st.previousEquity), st.dayCost, if date in env.benchmark then env.benchmark[date] else 0.0)
  }

  function CloseDay(env: Env, st: State, date: Date): Result<State, Failure> {
    if !AccountingHolds(st) then Err(AccountingInvariant)
    else
      var row := DailyRow(env, st, date);
      Ok(st.(daily := st.daily + [row],
             previousEquity := row.equity,
             stopped := env.carryToCalendarEnd && st.book.at == map[] && forall d | d in env.entries :: d <= date))
  }

  // ----- sessions and runs -----

  function Opened(st: State): State {
    st.(dayCost := 0.0, dayValue := Some(0.0), slips := Dict([], map[]))
  }

  /** One session, in the fixed order: corporate actions, exits, entries, marks, accounts. */
  function Session(env: Env, st: State, i: nat): Result<State, Failure>
    requires i < |env.calendar|
  {
    var date := env.calendar[i];
    var acted :- ActOn(env, Opened(st), date);
    var sold :- SellUpTo(env, acted, i, acted.book.order, |acted.book.order|);
    var entered :- Enter(env, sold, i);
    var recorded := Recorded(entered);
    var marked :- MarkUpTo(env, recorded, date, recorded.book.order, |recorded.book.order|);
    CloseDay(env, marked, date)
  }

  /** How many sessions of the calendar come before the first signal. */
  function SessionsBefore(calendar: seq<Date>, start: Date): (n: nat)
    ensures n <= |calendar|
  {
    if calendar == [] || calendar[0] >= start then 0 else 1 + SessionsBefore(calendar[1..], start)
  }

  function First(env: Env): (n: nat)
    ensures n <= |env.calendar|
  {
    SessionsBefore(env.calendar, env.signalStart)
  }

  /** The state after the sessions before calendar index n, unless the loop stopped earlier. */
  function RunUpTo(env: Env, n: nat): Result<State, Failure>
    requires First(env) <= n <= |env.calendar|
    decreases n
  {
    if n == First(env) then Ok(Initial(env))
    else
      var st :- RunUpTo(env, n - 1);
      if st.stopped then Ok(st) else Session(env, st, n - 1)
  }

  function Sessions(env: Env): Result<State, Failure> {
    RunUpTo(env, |env.calendar|)
  }
}
