/** Cash, costs and marks against the ledgers, day by day: every daily row equals what the
    trades and holdings of its date add up to, and today's cash equals yesterday's plus today's
    signed fills. */
module MoneyInvariant {
  import opened Basics
  import opened Ledgers
  import opened Simulation
  import opened Auditor

  function CashBefore(env: Env, daily: seq<Daily>): real {
    if daily == [] then env.initialCash else daily[|daily| - 1].cash
  }

  function EquityBefore(env: Env, daily: seq<Daily>): real {
    if daily == [] then env.initialCash else daily[|daily| - 1].equity
  }

  /** Daily row j, exactly. */
  ghost predicate DayExact(env: Env, trades: seq<Trade>, holdings: seq<Holding>, daily: seq<Daily>, j: nat)
    requires j < |daily|
  {
    var d, past := daily[j], daily[..j];
    && d.equity == d.cash + d.holdingsValue
    && d.cash >= -CASH_TOLERANCE && d.holdingsValue >= -CASH_TOLERANCE && d.equity >= -CASH_TOLERANCE
    && d.cash == CashBefore(env, past) + SumOn(trades, TradeDate, CashFlow, d.date)
    && d.cost == SumOn(trades, TradeDate, TradeCost, d.date)
    && d.holdingsValue == SumOn(holdings, HoldingDate, MarketValue, d.date)
    && d.turnover == (if EquityBefore(env, past) <= 0.0 then 0.0
                      else SumOn(trades, TradeDate, FilledGross, d.date) / EquityBefore(env, past))
    && d.netReturn == Return(d.equity, EquityBefore(env, past))
  }

  ghost predicate OnDay(daily: seq<Daily>, date: Date) {
    exists j :: 0 <= j < |daily| && daily[j].date == date
  }

  ghost predicate HoldingExact(h: Holding) {
    h.marketValue == ValueAt(h.shares, h.lastClose) && h.lastPriceDate <= h.date
  }

  /** The books of a session that is under way on a date. */
  ghost predicate Flow(env: Env, st: State, date: Date) {
    && st.cash == CashBefore(env, st.daily) + SumOn(st.trades, TradeDate, CashFlow, date)
    && st.cash == env.initialCash + Sum(st.trades, CashFlow)
    && st.dayCost == SumOn(st.trades, TradeDate, TradeCost, date)
    && (st.dayValue.Some? ==>
          && st.dayValue.value == SumOn(st.holdings, HoldingDate, MarketValue, date)
          && forall h :: h in st.holdings ==> h.marketValue.Some?)
    && st.previousEquity == EquityBefore(env, st.daily)
    && (forall t :: t in st.trades ==> t.date == date || OnDay(st.daily, t.date))
    && (forall h :: h in st.holdings ==> HoldingExact(h) && (h.date == date || OnDay(st.daily, h.date)))
    && PastExact(env, st.trades, st.holdings, st.daily, date)
  }

  ghost predicate PastExact(env: Env, trades: seq<Trade>, holdings: seq<Holding>, daily: seq<Daily>, date: Date) {
    && (forall j :: 0 <= j < |daily| ==> daily[j].date < date)
    && (forall j :: 0 <= j < |daily| ==> DayExact(env, trades, holdings, daily, j))
  }

  /** The books between sessions. */
  ghost predicate BooksSettled(env: Env, st: State) {
    && st.cash == CashBefore(env, st.daily)
    && st.cash == env.initialCash + Sum(st.trades, CashFlow)
    && st.previousEquity == EquityBefore(env, st.daily)
    && (forall t :: t in st.trades ==> OnDay(st.daily, t.date))
    && (forall h :: h in st.holdings ==> HoldingExact(h) && OnDay(st.daily, h.date) && h.marketValue.Some?)
    && (forall j :: 0 <= j < |st.daily| ==> DayExact(env, st.trades, st.holdings, st.daily, j))
  }

  lemma OpeningFlow(env: Env, st: State, date: Date)
    requires BooksSettled(env, st) && forall j :: 0 <= j < |st.daily| ==> st.daily[j].date < date
    ensures Flow(env, Opened(st), date)
  {
    hide DayExact, HoldingExact;
    SumOnAbsent(st.trades, TradeDate, CashFlow, date);
    SumOnAbsent(st.trades, TradeDate, TradeCost, date);
    SumOnAbsent(st.holdings, HoldingDate, MarketValue, date);
  }

  /** A trade row of today leaves every earlier day alone. */
  lemma TradeKeepsPast(env: Env, trades: seq<Trade>, holdings: seq<Holding>, daily: seq<Daily>, date: Date, t: Trade)
    requires PastExact(env, trades, holdings, daily, date) && t.date == date
    ensures PastExact(env, trades + [t], holdings, daily, date)
  {
    forall j | 0 <= j < |daily|
      ensures DayExact(env, trades + [t], holdings, daily, j)
    {
      assert DayExact(env, trades, holdings, daily, j);
      SumOnSnoc(trades, t, TradeDate, CashFlow, daily[j].date);
      SumOnSnoc(trades, t, TradeDate, TradeCost, daily[j].date);
      SumOnSnoc(trades, t, TradeDate, FilledGross, daily[j].date);
    }
  }

  lemma HoldingKeepsPast(env: Env, trades: seq<Trade>, holdings: seq<Holding>, daily: seq<Daily>, date: Date, h: Holding)
    requires PastExact(env, trades, holdings, daily, date) && h.date == date
    ensures PastExact(env, trades, holdings + [h], daily, date)
  {
    forall j | 0 <= j < |daily|
      ensures DayExact(env, trades, holdings + [h], daily, j)
    {
      assert DayExact(env, trades, holdings, daily, j);
      SumOnSnoc(holdings, h, HoldingDate, MarketValue, daily[j].date);
    }
  }

  /** Appending a row of today together with its cash flow and cost. */
  lemma FlowSnoc(env: Env, st: State, after: State, date: Date, t: Trade)
    requires Flow(env, st, date) && t.date == date
    requires after.trades == st.trades + [t]
    requires after.cash == st.cash + CashFlow(t) && after.dayCost == st.dayCost + t.cost
    requires after.dayValue == st.dayValue && after.holdings == st.holdings && after.daily == st.daily
    requires after.previousEquity == st.previousEquity
    ensures Flow(env, after, date)
  {
    hide PastExact, HoldingExact, CashFlow;
    SumOnSnoc(st.trades, t, TradeDate, CashFlow, date);
    SumSnoc(st.trades, t, CashFlow);
    SumOnSnoc(st.trades, t, TradeDate, TradeCost, date);
    TradeKeepsPast(env, st.trades, st.holdings, st.daily, date, t);
  }

  /** Appending the mark of one position. */
  lemma FlowMarked(env: Env, st: State, after: State, date: Date, h: Holding)
    requires Flow(env, st, date) && h.date == date && HoldingExact(h)
    requires after.holdings == st.holdings + [h] && after.dayValue == Plus(st.dayValue, h.marketValue)
    requires after.cash == st.cash && after.dayCost == st.dayCost && after.trades == st.trades
    requires after.daily == st.daily && after.previousEquity == st.previousEquity
    ensures Flow(env, after, date)
  {
    hide PastExact, HoldingExact;
    SumOnSnoc(st.holdings, h, HoldingDate, MarketValue, date);
    HoldingKeepsPast(env, st.trades, st.holdings, st.daily, date, h);
  }

  lemma EarlierDayExact(env: Env, trades: seq<Trade>, holdings: seq<Holding>, daily: seq<Daily>, row: Daily, j: nat)
    requires j < |daily| && DayExact(env, trades, holdings, daily, j)
    ensures DayExact(env, trades, holdings, daily + [row], j)
  {
    assert (daily + [row])[..j] == daily[..j];
  }

  /** Closing the day records exactly what the ledgers of the day add up to. */
  lemma CloseDaySettles(env: Env, st: State, date: Date)
    requires Flow(env, st, date) && CloseDay(env, st, date).Ok?
    ensures BooksSettled(env, CloseDay(env, st, date).value)
  {
    hide HoldingExact;
    var after := CloseDay(env, st, date).value;
    var n := |st.daily|;
    assert after.daily[..n] == st.daily;
    forall j | 0 <= j < |after.daily|
      ensures DayExact(env, after.trades, after.holdings, after.daily, j)
    {
      if j < n {
        EarlierDayExact(env, st.trades, st.holdings, st.daily, after.daily[n], j);
      }
    }
    OnDayGrows(st.daily, after.daily[n]);
    assert OnDay(after.daily, date) by { assert after.daily[n].date == date; }
  }

  lemma OnDayGrows(daily: seq<Daily>, row: Daily)
    ensures forall d :: OnDay(daily, d) ==> OnDay(daily + [row], d)
  {
    forall d | OnDay(daily, d)
      ensures OnDay(daily + [row], d)
    {
      var j :| 0 <= j < |daily| && daily[j].date == d;
      assert (daily + [row])[j].date == d;
    }
  }

  /** Summed up, every recorded cash balance is the initial cash plus all signed fills so far. */
  lemma {:induction false} CashIsCumulative(env: Env, st: State, n: nat)
    requires BooksSettled(env, st) && n <= |st.daily|
    ensures CashBefore(env, st.daily[..n]) == env.initialCash + CumulativeFlow(st.trades, st.daily, n)
  {
    if n > 0 {
      CashIsCumulative(env, st, n - 1);
      assert DayExact(env, st.trades, st.holdings, st.daily, n - 1);
      assert st.daily[..n][n - 1] == st.daily[n - 1];
    }
  }

  /** Settled books satisfy every daily check of the auditor. */
  lemma SettledReconciles(env: Env, st: State, r: Report, i: nat)
    requires BooksSettled(env, st) && r.daily == st.daily && r.trades == st.trades && r.holdings == st.holdings
    requires i < |r.daily|
    ensures DailyReconciles(env, r, i)
  {
    var d := r.daily[i];
    assert DayExact(env, st.trades, st.holdings, st.daily, i);
    assert EquityBefore(env, st.daily[..i]) == PreviousEquity(env, r.daily, i);
    CashIsCumulative(env, st, i + 1);
    assert st.daily[..i + 1][i] == d;
    EqualIsClose(d.equity, CLOSE_RTOL, CLOSE_ATOL);
    EqualIsClose(d.netReturn, CLOSE_RTOL, CLOSE_ATOL);
    EqualIsClose(d.holdingsValue, CLOSE_RTOL, CLOSE_ATOL);
    EqualIsClose(d.cash, CLOSE_RTOL, CLOSE_ATOL);
    EqualIsClose(d.cost, CLOSE_RTOL, CLOSE_ATOL);
    EqualIsClose(d.turnover, CLOSE_RTOL, CLOSE_ATOL);
  }
}
