/** Realised profit and loss, exits and final equity of a run (_closed_trade_pnl and
    calculate_metrics in src/ashare_quant/backtest/engine.py). */
module ProfitAndLoss {
  import opened Basics
  import opened Costs
  import opened Ledgers
  import opened Simulation
  import opened Auditor
  import opened BookInvariant
  import opened LifeInvariant
  import opened TradeInvariant
  import opened MoneyInvariant
  import opened CounterInvariant
  import opened IntentInvariant
  import opened SessionInvariant
  import opened Lifecycle
  import opened Runs
  import opened AuditTheorem

  // ----- realised profit and loss -----

  datatype Pnl = Pnl(basis: map<PositionId, real>, closed: seq<real>)

  predicate IsSettlement(t: Trade) { t.status == Filled || t.status == TerminalWriteoff }

  /** One row: a buy sets the cost basis of its position, a sell realises against it. */
  function Realise(p: Pnl, t: Trade): Pnl {
    if !IsSettlement(t) || t.id.None? then p
    else if t.side == Buy then p.(basis := p.basis[t.id.value := t.gross + t.cost])
    else if t.id.value in p.basis then
      Pnl(p.basis - {t.id.value}, p.closed + [t.gross - t.cost - p.basis[t.id.value]])
    else p
  }

  function ClosedTrades(trades: seq<Trade>): Pnl {
    if trades == [] then Pnl(map[], [])
    else Realise(ClosedTrades(trades[..|trades| - 1]), trades[|trades| - 1])
  }

  /** _closed_trade_pnl walks the rows once, keeping a dictionary of cost bases. */
  method ClosedTradePnl(trades: seq<Trade>) returns (closed: seq<real>)
    ensures closed == ClosedTrades(trades).closed
  {
    var basis: map<PositionId, real> := map[];
    closed := [];
    for k := 0 to |trades|
      invariant Pnl(basis, closed) == ClosedTrades(trades[..k])
    {
      var t := trades[k];
      assert trades[..k + 1][..k] == trades[..k];
      if IsSettlement(t) && t.id.Some? {
        if t.side == Buy {
          basis := basis[t.id.value := t.gross + t.cost];
        } else if t.id.value in basis {
          closed := closed + [t.gross - t.cost - basis[t.id.value]];
          basis := basis - {t.id.value};
        }
      }
    }
    assert trades[..|trades|] == trades;
  }

  function Same(x: real): real { x }

  /** The money tied up in a set of cost bases. */
  ghost function TiedUp(basis: map<PositionId, real>): real
    decreases |basis|
  {
    if basis == map[] then 0.0
    else
      var q :| q in basis;
      basis[q] + TiedUp(basis - {q})
  }

  lemma {:induction false} TiedUpWithout(basis: map<PositionId, real>, q: PositionId)
    requires q in basis
    ensures TiedUp(basis) == basis[q] + TiedUp(basis - {q})
    decreases |basis|
  {
    var r :| r in basis && TiedUp(basis) == basis[r] + TiedUp(basis - {r});
    if r != q {
      TiedUpWithout(basis - {r}, q);
      TiedUpWithout(basis - {q}, r);
      assert basis - {r} - {q} == basis - {q} - {r};
    }
  }

  lemma {:induction false} PairsWereOpened(trades: seq<Trade>)
    requires OpensFirst(trades)
    ensures Closings(trades).Keys <= Openings(trades).Keys
  {
    if trades != [] {
      PairsWereOpened(trades[..|trades| - 1]);
    }
  }

  /** Cost bases are kept for exactly the positions that are open. */
  lemma {:induction false} BasesAreOpen(trades: seq<Trade>)
    requires OnceEach(trades) && OpensFirst(trades)
    ensures ClosedTrades(trades).basis.Keys == Openings(trades).Keys - Closings(trades).Keys
  {
    hide OnceEach, Openings, Closings, Realise;
    if trades == [] {
      NothingListed();
    } else {
      var front, t := trades[..|trades| - 1], trades[|trades| - 1];
      assert trades == front + [t];
      OnceEachPrefix(front, t);
      BasesAreOpen(front);
      PairsWereOpened(front);
      LogSnoc(front, t);
      OnceEachKinds(trades, t);
      SettleKeys(ClosedTrades(front), t);
    }
  }

  /** Realised profit plus what is tied up accounts for every cash flow of the log. */
  lemma {:induction false} PnlAccountsForCash(env: Env, trades: seq<Trade>)
    requires OnceEach(trades) && OpensFirst(trades) && forall t :: t in trades ==> TradeSound(env, t)
    ensures Sum(ClosedTrades(trades).closed, Same) - TiedUp(ClosedTrades(trades).basis) == Sum(trades, CashFlow)
  {
    hide OnceEach, TradeSound, Openings, Closings, TiedUp, Realise, CashFlow;
    if trades == [] {
      NothingTiedUp();
    } else {
      var front, t := trades[..|trades| - 1], trades[|trades| - 1];
      assert trades == front + [t];
      OnceEachPrefix(front, t);
      PnlAccountsForCash(env, front);
      BasesAreOpen(front);
      PairsWereOpened(front);
      OnceEachKinds(trades, t);
      SettleStep(env, ClosedTrades(front), t);
    }
  }

  lemma SettleKeys(p: Pnl, t: Trade)
    requires (IsOpening(t) || IsClosing(t)) ==> t.id.Some?
    requires t.status == TerminalWriteoff ==> t.side == Sell
    requires IsClosing(t) ==> t.id.value in p.basis
    ensures Realise(p, t).basis.Keys == if IsOpening(t) then p.basis.Keys + {t.id.value}
                                        else if IsClosing(t) then p.basis.Keys - {t.id.value} else p.basis.Keys
  {}

  lemma NothingTiedUp()
    ensures TiedUp(map[]) == 0.0
  {}

  lemma NothingListed()
    ensures Openings([]) == map[] && Closings([]) == map[]
  {}

  lemma OnceEachKinds(trades: seq<Trade>, t: Trade)
    requires OnceEach(trades) && t in trades
    ensures (IsOpening(t) || IsClosing(t)) ==> t.id.Some?
    ensures t.status == TerminalWriteoff ==> t.side == Sell
  {}

  lemma SettleStep(env: Env, p: Pnl, t: Trade)
    requires TradeSound(env, t) && ((IsOpening(t) || IsClosing(t)) ==> t.id.Some?)
    requires IsOpening(t) ==> t.id.value !in p.basis
    requires IsClosing(t) ==> t.id.value in p.basis
    ensures var r := Realise(p, t);
            Sum(r.closed, Same) - TiedUp(r.basis) == Sum(p.closed, Same) - TiedUp(p.basis) + CashFlow(t)
  {
    hide TiedUp, CostsReconcile, ExitSound;
    if IsOpening(t) {
      var after := p.basis[t.id.value := t.gross + t.cost];
      TiedUpWithout(after, t.id.value);
      assert after - {t.id.value} == p.basis;
    } else if IsClosing(t) {
      TiedUpWithout(p.basis, t.id.value);
      SumSnoc(p.closed, t.gross - t.cost - p.basis[t.id.value], Same);
    }
  }

  // ----- completed runs -----

  function FinalEquity(env: Env, st: State): real { EquityBefore(env, st.daily) }

  function TotalReturn(env: Env, st: State): real
    requires env.initialCash != 0.0
  {
    FinalEquity(env, st) / env.initialCash - 1.0
  }

  lemma {:induction false} NoMarksOn(holdings: seq<Holding>, date: Date)
    requires forall h :: h in holdings ==> h.date != date
    ensures SumOn(holdings, HoldingDate, MarketValue, date) == 0.0
  {
    SumOnAbsent(holdings, HoldingDate, MarketValue, date);
  }

  /** At the end of a run in which everything was closed the equity is the cash. */
  lemma FinalEquityIsCash(env: Env, st: State, i: nat)
    requires StrictlyIncreasing(env.calendar) && AllClosed(env, st, i) && First(env) < i
    ensures FinalEquity(env, st) == st.cash
  {
    hide BookOk, Undue, Lives, CountersOk, ActionsOk, TerminalsOk, IntentsOk, TradesOk, Openings, Closings, HoldingReconciles, DaysRun, OnDay, HoldingExact;
    DatesOf(env, st, i);
    var n := |st.daily| - 1;
    var last := st.daily[n];
    assert DayExact(env, st.trades, st.holdings, st.daily, n);
    forall h | h in st.holdings
      ensures h.date != last.date
    {
      var k :| 0 <= k < |st.holdings| && st.holdings[k] == h;
      HoldingsReconcile(env, st, i, k);
    }
    NoMarksOn(st.holdings, last.date);
  }

  lemma EverythingRealised(env: Env, st: State, i: nat)
    requires AllClosed(env, st, i)
    ensures ClosedTrades(st.trades).basis == map[]
    ensures Sum(ClosedTrades(st.trades).closed, Same) == Sum(st.trades, CashFlow)
  {
    hide BookOk, Undue, BooksSettled, CountersOk, ActionsOk, TerminalsOk, IntentsOk, DaysRun, Openings, Closings, IdsOk, TradeSound, OpensFirst,
         OnceEach, LiveIn, ClosedRows, TiedUp;
    OnceEachOf(env, st.trades);
    BasesAreOpen(st.trades);
    PnlAccountsForCash(env, st.trades);
    assert forall q :: q in Openings(st.trades) ==> q in Closings(st.trades);
    NothingTiedUp();
  }

  /** Conservation: when a strict run completes, the realised profits and losses of its trades,
      write-offs included, add up to final equity minus initial cash, that is, to the total
      return on the initial cash. */
  lemma RealisedPnlIsTotalReturn(env: Env)
    requires Governed(env) && EntriesFollowSignals(env)
    requires env.strict && Simulate(env).Ok?
    ensures var st := Simulate(env).value;
            && Sum(ClosedTrades(st.trades).closed, Same) == FinalEquity(env, st) - env.initialCash
            && Sum(ClosedTrades(st.trades).closed, Same) == TotalReturn(env, st) * env.initialCash
  {
    hide Ready, RunUpTo, EntriesFollowSignals, LifecyclesReconcile, First;
    var st := Simulate(env).value;
    var m := RunIsReady(env, |env.calendar|);
    assert AllClosed(env, st, m);
    FinalEquityIsCash(env, st, m);
    EverythingRealised(env, st, m);
    assert BooksSettled(env, st) by { ReadyIsSettled(env, st, m); }
  }

  // ----- exits -----

  /** Every closure of every run took exactly the holding period plus its delays and never came
      before its target; it is flagged exactly when the delays exceed the maximum, and a strict
      fail-at-alert run bounds every holding time by the period plus the maximum delay. */
  lemma ExitsTakePeriodPlusDelay(env: Env, n: nat, t: Trade)
    requires Governed(env) && EntriesFollowSignals(env)
    requires First(env) <= n <= |env.calendar| && RunUpTo(env, n).Ok?
    requires t in RunUpTo(env, n).value.trades && IsClosing(t)
    ensures t.holdingSessions == Some(env.holdingPeriod + t.delayed)
    ensures t.breached <==> t.delayed > env.maxDelay
    ensures env.strict && !env.carryToCalendarEnd ==> t.holdingSessions.value <= env.holdingPeriod + env.maxDelay
  {
    hide Ready, RunUpTo, EntriesFollowSignals;
    var m := RunIsReady(env, n);
    TradeOfReady(env, RunUpTo(env, n).value, m, t);
  }

  lemma TradeOfReady(env: Env, st: State, i: nat, t: Trade)
    requires Ready(env, st, i) && t in st.trades
    ensures TradeSound(env, t)
  {
    hide BookOk, Undue, Lives, BooksSettled, CountersOk, ActionsOk, TerminalsOk, IntentsOk, DaysRun, Openings, Closings, IdsOk, OpensFirst;
  }

  // ----- compounding -----

  /** The product of one plus the net return over the first n sessions. */
  function Compounded(daily: seq<Daily>, n: nat): real
    requires n <= |daily|
  {
    if n == 0 then 1.0 else Times(Compounded(daily, n - 1), 1.0 + daily[n - 1].netReturn)
  }

  /** A session that starts without positive equity leaves the equity unchanged. */
  ghost predicate ExhaustedStays(env: Env, daily: seq<Daily>) {
    forall j :: 0 <= j < |daily| && EquityBefore(env, daily[..j]) <= 0.0 ==> daily[j].equity == EquityBefore(env, daily[..j])
  }

  ghost predicate TelescopesAt(env: Env, daily: seq<Daily>, n: nat)
    requires n <= |daily|
  {
    Times(env.initialCash, Compounded(daily, n)) == EquityBefore(env, daily[..n])
  }

  /** Returns telescope on every prefix of a run exactly if a session that starts without positive
      equity leaves the equity unchanged: only then is the recorded zero return the true one. */
  lemma CompoundingTelescopesIff(env: Env, st: State)
    requires BooksSettled(env, st)
    ensures (forall n :: 0 <= n <= |st.daily| ==> TelescopesAt(env, st.daily, n)) <==> ExhaustedStays(env, st.daily)
  {
    hide TelescopesAt, BooksSettled, EquityBefore;
    if ExhaustedStays(env, st.daily) {
      forall n | 0 <= n <= |st.daily|
        ensures TelescopesAt(env, st.daily, n)
      {
        Telescopes(env, st, n);
      }
    }
    if forall n :: 0 <= n <= |st.daily| ==> TelescopesAt(env, st.daily, n) {
      forall j | 0 <= j < |st.daily| && EquityBefore(env, st.daily[..j]) <= 0.0
        ensures st.daily[j].equity == EquityBefore(env, st.daily[..j])
      {
        assert TelescopesAt(env, st.daily, j) && TelescopesAt(env, st.daily, j + 1);
        ExhaustedDay(env, st, j);
      }
    }
  }

  lemma ReturnOfDay(env: Env, st: State, j: nat)
    requires BooksSettled(env, st) && j < |st.daily|
    ensures st.daily[j].netReturn == Return(st.daily[j].equity, EquityBefore(env, st.daily[..j]))
    ensures EquityBefore(env, st.daily[..j + 1]) == st.daily[j].equity
  {
    assert DayExact(env, st.trades, st.holdings, st.daily, j);
    assert st.daily[..j + 1][j] == st.daily[j];
  }

  lemma ExhaustedDay(env: Env, st: State, j: nat)
    requires BooksSettled(env, st) && j < |st.daily|
    requires TelescopesAt(env, st.daily, j) && TelescopesAt(env, st.daily, j + 1)
    requires EquityBefore(env, st.daily[..j]) <= 0.0
    ensures st.daily[j].equity == EquityBefore(env, st.daily[..j])
  {
    hide BooksSettled, EquityBefore;
    ReturnOfDay(env, st, j);
    assert st.daily[j].netReturn == 0.0;
    assert Compounded(st.daily, j + 1) == Times(Compounded(st.daily, j), 1.0) == Compounded(st.daily, j);
  }

  lemma GrowthStep(initial: real, factor: real, previous: real, equity: real)
    requires Times(initial, factor) == previous && (previous <= 0.0 ==> equity == previous)
    ensures Times(initial, Times(factor, 1.0 + Return(equity, previous))) == equity
  {
    var growth := 1.0 + Return(equity, previous);
    assert initial * (factor * growth) == (initial * factor) * growth;
    if previous > 0.0 {
      assert growth == equity / previous;
      assert previous * growth == equity;
    }
  }

  lemma {:induction false} Telescopes(env: Env, st: State, n: nat)
    requires BooksSettled(env, st) && n <= |st.daily| && ExhaustedStays(env, st.daily)
    ensures TelescopesAt(env, st.daily, n)
  {
    if n > 0 {
      hide BooksSettled, Return, Times;
      Telescopes(env, st, n - 1);
      ReturnOfDay(env, st, n - 1);
      GrowthStep(env.initialCash, Compounded(st.daily, n - 1), EquityBefore(env, st.daily[..n - 1]), st.daily[n - 1].equity);
    }
  }
}
