/** Monthly and yearly returns compounded from the session returns
    (period_metrics in src/ashare_quant/backtest/continuous_evidence.py). */
module Periods {
  import opened Basics
  import opened Ledgers
  import opened Simulation
  import opened Auditor
  import opened BookInvariant
  import opened LifeInvariant
  import opened MoneyInvariant
  import opened CounterInvariant
  import opened IntentInvariant
  import opened SessionInvariant
  import opened Runs
  import opened ProfitAndLoss
  import opened Solvency
  import Signals

  /** The month or the year of a date. */
  type Calendar = Date -> int

  datatype PeriodRow = PeriodRow(period: int, portfolioReturn: real, turnover: real, cost: real, endingEquity: real)

  function InPeriod(key: Calendar, p: int): Daily -> bool {
    (d: Daily) => key(d.date) == p
  }

  function Cost(d: Daily): real { d.cost }
  function TurnoverOf(d: Daily): real { d.turnover }

  function Growth(daily: seq<Daily>): real {
    if daily == [] then 1.0 else Times(Growth(daily[..|daily| - 1]), 1.0 + daily[|daily| - 1].netReturn)
  }

  function RowOf(daily: seq<Daily>, key: Calendar, p: int): PeriodRow {
    var group := Select(daily, InPeriod(key, p));
    PeriodRow(p, Growth(group) - 1.0, Sum(group, TurnoverOf), Sum(group, Cost),
              if group == [] then 0.0 else group[|group| - 1].equity)
  }

  /** The distinct periods in ascending order. */
  function PeriodsOf(daily: seq<Daily>, key: Calendar): seq<int> {
    if daily == [] then []
    else Signals.InsertDate(PeriodsOf(daily[..|daily| - 1], key), key(daily[|daily| - 1].date))
  }

  function PeriodMetrics(daily: seq<Daily>, key: Calendar): seq<PeriodRow> {
    var periods := PeriodsOf(daily, key);
    seq(|periods|, i requires 0 <= i < |periods| => RowOf(daily, key, periods[i]))
  }

  /** The period returns compounded again. */
  function Recompounded(rows: seq<PeriodRow>): real {
    if rows == [] then 1.0 else Times(Recompounded(rows[..|rows| - 1]), 1.0 + rows[|rows| - 1].portfolioReturn)
  }

  function RowCost(r: PeriodRow): real { r.cost }

  /** Periods do not go back in time. */
  ghost predicate Chronological(daily: seq<Daily>, key: Calendar) {
    forall i, j :: 0 <= i < j < |daily| ==> key(daily[i].date) <= key(daily[j].date)
  }

  lemma SelectSnoc(daily: seq<Daily>, d: Daily, which: Daily -> bool)
    ensures Select(daily + [d], which) == Select(daily, which) + if which(d) then [d] else []
  {
    assert (daily + [d])[..|daily|] == daily;
  }

  lemma GrowthSnoc(daily: seq<Daily>, d: Daily)
    ensures Growth(daily + [d]) == Times(Growth(daily), 1.0 + d.netReturn)
  {
    assert (daily + [d])[..|daily|] == daily;
  }

  /** A later day leaves the rows of all other periods as they are. */
  lemma RowUnchanged(daily: seq<Daily>, d: Daily, key: Calendar, p: int)
    requires key(d.date) != p
    ensures RowOf(daily + [d], key, p) == RowOf(daily, key, p)
  {
    SelectSnoc(daily, d, InPeriod(key, p));
    assert Select(daily, InPeriod(key, p)) + [] == Select(daily, InPeriod(key, p));
  }

  lemma RowExtended(daily: seq<Daily>, d: Daily, key: Calendar)
    ensures var before, after := RowOf(daily, key, key(d.date)), RowOf(daily + [d], key, key(d.date));
            && 1.0 + after.portfolioReturn == Times(1.0 + before.portfolioReturn, 1.0 + d.netReturn)
            && after.cost == before.cost + d.cost && after.endingEquity == d.equity
  {
    hide Times, Growth, Sum, Select;
    var p := key(d.date);
    var group := Select(daily, InPeriod(key, p));
    SelectSnoc(daily, d, InPeriod(key, p));
    assert Select(daily + [d], InPeriod(key, p)) == group + [d];
    GrowthSnoc(group, d);
    SumSnoc(group, d, Cost);
  }

  lemma {:induction false} FreshPeriodIsEmpty(daily: seq<Daily>, key: Calendar, p: int)
    requires forall i :: 0 <= i < |daily| ==> key(daily[i].date) != p
    ensures Select(daily, InPeriod(key, p)) == []
  {
    if daily != [] {
      FreshPeriodIsEmpty(daily[..|daily| - 1], key, p);
    }
  }

  lemma {:induction false} LastPeriod(daily: seq<Daily>, key: Calendar)
    requires Chronological(daily, key) && daily != []
    ensures var periods := PeriodsOf(daily, key);
            && periods != [] && periods[|periods| - 1] == key(daily[|daily| - 1].date)
            && StrictlyIncreasing(periods)
  {
    var front := daily[..|daily| - 1];
    if front != [] {
      LastPeriod(front, key);
      assert key(front[|front| - 1].date) <= key(daily[|daily| - 1].date);
      AscendingSnoc(PeriodsOf(front, key), key(daily[|daily| - 1].date));
      AscendsBelowLast(PeriodsOf(front, key));
    }
  }

  lemma AscendsBelowLast(s: seq<int>)
    requires StrictlyIncreasing(s) && s != []
    ensures forall y :: y in s ==> y <= s[|s| - 1]
  {}

  /** What the periods report together. */
  ghost predicate Totals(daily: seq<Daily>, key: Calendar) {
    var rows := PeriodMetrics(daily, key);
    && Recompounded(rows) == Growth(daily)
    && Sum(rows, RowCost) == Sum(daily, Cost)
    && (daily != [] ==> rows != [] && rows[|rows| - 1].endingEquity == daily[|daily| - 1].equity)
  }

  lemma RecompoundedSnoc(rows: seq<PeriodRow>, r: PeriodRow)
    ensures Recompounded(rows + [r]) == Times(Recompounded(rows), 1.0 + r.portfolioReturn)
  {
    assert (rows + [r])[..|rows|] == rows;
  }

  lemma TimesAssociates(x: real, y: real, z: real)
    ensures Times(Times(x, y), z) == Times(x, Times(y, z))
    ensures Times(x, 1.0) == x && Times(1.0, x) == x
  {}

  function RowsAt(daily: seq<Daily>, key: Calendar, periods: seq<int>): seq<PeriodRow> {
    seq(|periods|, i requires 0 <= i < |periods| => RowOf(daily, key, periods[i]))
  }

  /** The rows of the earlier periods, which a later day does not touch. */
  lemma EarlierRows(daily: seq<Daily>, d: Daily, key: Calendar, periods: seq<int>)
    requires key(d.date) !in periods
    ensures RowsAt(daily + [d], key, periods) == RowsAt(daily, key, periods)
  {
    hide RowOf;
    forall i | 0 <= i < |periods|
      ensures RowOf(daily + [d], key, periods[i]) == RowOf(daily, key, periods[i])
    {
      assert periods[i] in periods;
      RowUnchanged(daily, d, key, periods[i]);
    }
  }

  /** The period returns multiply back to the compounded session returns, the period costs add up
      to the total cost, and the last period ends with the last equity. */
  lemma {:induction false} PeriodsAddUp(daily: seq<Daily>, key: Calendar)
    requires Chronological(daily, key)
    ensures Totals(daily, key)
  {
    if daily != [] {
      var front, d := daily[..|daily| - 1], daily[|daily| - 1];
      assert daily == front + [d];
      PeriodsAddUp(front, key);
      GrowthSnoc(front, d);
      SumSnoc(front, d, Cost);
      LastPeriod(daily, key);
      PeriodStep(front, d, key);
    }
  }

  lemma RowsAtSnoc(daily: seq<Daily>, key: Calendar, periods: seq<int>, p: int)
    ensures RowsAt(daily, key, periods + [p]) == RowsAt(daily, key, periods) + [RowOf(daily, key, p)]
  {}

  /** Before a day is added: the periods before its own, and the row its own period has so far. */
  lemma SplitPeriods(front: seq<Daily>, d: Daily, key: Calendar) returns (earlier: seq<int>)
    requires Chronological(front + [d], key) && Totals(front, key)
    ensures PeriodsOf(front + [d], key) == earlier + [key(d.date)] && key(d.date) !in earlier
    ensures SharesOut(front, key, earlier, key(d.date))
  {
    hide SharesOut, Totals, Chronological;
    var daily, p := front + [d], key(d.date);
    assert daily[..|front|] == front;
    var before := PeriodsOf(front, key);
    if front == [] || before[|before| - 1] != p {
      earlier := before;
      NewPeriod(front, d, key);
      SharesWithNew(front, key, p);
    } else {
      ChronologicalFront(front, d, key);
      LastPeriod(front, key);
      earlier := before[..|before| - 1];
      assert before == earlier + [p];
      AscendingSnoc(earlier, p);
      SharesWithLast(front, key, earlier, p);
    }
  }

  /** The totals of the days, shared out between the earlier periods and one more. */
  ghost predicate SharesOut(front: seq<Daily>, key: Calendar, earlier: seq<int>, p: int) {
    var rows, row := RowsAt(front, key, earlier), RowOf(front, key, p);
    Times(Recompounded(rows), 1.0 + row.portfolioReturn) == Growth(front) && Sum(rows, RowCost) + row.cost == Sum(front, Cost)
  }

  lemma SharesWithNew(front: seq<Daily>, key: Calendar, p: int)
    requires Totals(front, key)
    requires 1.0 + RowOf(front, key, p).portfolioReturn == 1.0 && RowOf(front, key, p).cost == 0.0
    ensures SharesOut(front, key, PeriodsOf(front, key), p)
  {
    hide Times, RowOf, Growth, Recompounded, Sum, PeriodsOf;
    assert PeriodMetrics(front, key) == RowsAt(front, key, PeriodsOf(front, key));
    TimesAssociates(Recompounded(RowsAt(front, key, PeriodsOf(front, key))), 1.0, 1.0);
  }

  lemma SharesWithLast(front: seq<Daily>, key: Calendar, earlier: seq<int>, p: int)
    requires Totals(front, key) && PeriodsOf(front, key) == earlier + [p]
    ensures SharesOut(front, key, earlier, p)
  {
    hide Times, RowOf, Growth, Recompounded, Sum, PeriodsOf;
    assert PeriodMetrics(front, key) == RowsAt(front, key, earlier + [p]);
    RowsAtSnoc(front, key, earlier, p);
    RecompoundedSnoc(RowsAt(front, key, earlier), RowOf(front, key, p));
    SumSnoc(RowsAt(front, key, earlier), RowOf(front, key, p), RowCost);
  }

  lemma ChronologicalFront(front: seq<Daily>, d: Daily, key: Calendar)
    requires Chronological(front + [d], key)
    ensures Chronological(front, key)
    ensures forall i :: 0 <= i < |front| ==> key(front[i].date) <= key(d.date)
  {
    var daily := front + [d];
    assert daily[|front|] == d && forall i :: 0 <= i < |front| ==> daily[i] == front[i];
  }

  /** The first day of a period adds it at the end, with nothing in it before. */
  lemma NewPeriod(front: seq<Daily>, d: Daily, key: Calendar)
    requires Chronological(front + [d], key)
    requires front != [] ==> PeriodsOf(front, key) != [] && PeriodsOf(front, key)[|PeriodsOf(front, key)| - 1] != key(d.date)
    ensures PeriodsOf(front + [d], key) == PeriodsOf(front, key) + [key(d.date)] && key(d.date) !in PeriodsOf(front, key)
    ensures 1.0 + RowOf(front, key, key(d.date)).portfolioReturn == 1.0 && RowOf(front, key, key(d.date)).cost == 0.0
  {
    var daily, p := front + [d], key(d.date);
    assert daily[..|front|] == front;
    ChronologicalFront(front, d, key);
    if front != [] {
      LastPeriod(front, key);
      AscendsBelowLast(PeriodsOf(front, key));
      EarlierKeys(front, key);
    }
    FreshPeriodIsEmpty(front, key, p);
  }

  lemma EarlierKeys(daily: seq<Daily>, key: Calendar)
    requires Chronological(daily, key) && daily != []
    ensures forall i :: 0 <= i < |daily| ==> key(daily[i].date) <= key(daily[|daily| - 1].date)
  {}

  lemma PeriodStep(front: seq<Daily>, d: Daily, key: Calendar)
    requires Chronological(front + [d], key) && Totals(front, key)
    ensures Totals(front + [d], key)
  {
    hide Times, RowOf, Growth, PeriodsOf, Chronological, Recompounded, Sum;
    var daily, p := front + [d], key(d.date);
    var earlier := SplitPeriods(front, d, key);
    var rows, sofar, now := RowsAt(front, key, earlier), RowOf(front, key, p), RowOf(daily, key, p);
    EarlierRows(front, d, key, earlier);
    RowsAtSnoc(daily, key, earlier, p);
    assert PeriodMetrics(daily, key) == rows + [now];
    RecompoundedSnoc(rows, now);
    SumSnoc(rows, now, RowCost);
    RowExtended(front, d, key);
    TimesAssociates(Recompounded(rows), 1.0 + sofar.portfolioReturn, 1.0 + d.netReturn);
    GrowthSnoc(front, d);
    SumSnoc(front, d, Cost);
  }

  lemma {:induction false} GrowthIsCompounded(daily: seq<Daily>, n: nat)
    requires n <= |daily|
    ensures Growth(daily[..n]) == Compounded(daily, n)
  {
    hide Times;
    if n > 0 {
      GrowthIsCompounded(daily, n - 1);
      assert daily[..n] == daily[..n - 1] + [daily[n - 1]];
      GrowthSnoc(daily[..n - 1], daily[n - 1]);
    }
  }

  ghost predicate Monotone(key: Calendar) {
    forall a, b :: a <= b ==> key(a) <= key(b)
  }

  lemma RunIsChronological(env: Env, st: State, i: nat, key: Calendar)
    requires Ready(env, st, i) && StrictlyIncreasing(env.calendar) && Monotone(key)
    ensures Chronological(st.daily, key)
  {
    hide BookOk, Undue, Lives, TradesOk, BooksSettled, CountersOk, ActionsOk, TerminalsOk, IntentsOk, Openings, Closings;
    forall j, k | 0 <= j < k < |st.daily|
      ensures key(st.daily[j].date) <= key(st.daily[k].date)
    {
      assert st.daily[j].date == env.calendar[First(env) + j] && st.daily[k].date == env.calendar[First(env) + k];
    }
  }

  /** For a run whose sales cover their costs the initial cash, compounded over its months or years, is the final equity. */
  lemma PeriodReturnsReachFinalEquity(env: Env, key: Calendar)
    requires Governed(env) && EntriesFollowSignals(env) && ClosesArePositive(env)
    requires Sessions(env).Ok? && SalesCovered(Sessions(env).value.trades) && Monotone(key)
    ensures var st := Sessions(env).value;
            Times(env.initialCash, Recompounded(PeriodMetrics(st.daily, key))) == FinalEquity(env, st)
  {
    hide Times, EntriesFollowSignals, ClosesArePositive, SalesCovered, Recompounded, PeriodMetrics, Chronological, RunUpTo, Compounded, Growth, Ready, Monotone;
    var daily := Sessions(env).value.daily;
    var m := RunIsReady(env, |env.calendar|);
    RunIsChronological(env, Sessions(env).value, m, key);
    PeriodsAddUp(daily, key);
    GrowthIsCompounded(daily, |daily|);
    assert daily[..|daily|] == daily;
    ReturnsCompound(env, |env.calendar|, |daily|);
  }
}
