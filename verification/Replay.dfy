/** What the replay of one closed position accepts, on any tables: the rows it has to find, and the chain
    of corporate actions that has to explain every one of them (_validate_position_history in
    src/ashare_quant/backtest/continuous_validation.py). */
module Replay {
  import opened Basics
  import opened Ledgers
  import opened Simulation
  import opened Auditor
  import opened History
  import opened Marks

  /** The actions passed by a date, given those passed before: up to the first later one. */
  ghost function Passed(acts: seq<Action>, from: nat, bound: Date): (n: nat)
    requires from <= |acts|
    ensures from <= n <= |acts|
    ensures forall j :: from <= j < n ==> acts[j].effective <= bound
    ensures n < |acts| ==> bound < acts[n].effective
    decreases |acts| - from
  {
    if from == |acts| || acts[from].effective > bound then from else Passed(acts, from + 1, bound)
  }

  /** The actions passed by the first n rows. */
  ghost function PassedAt(acts: seq<Action>, rows: seq<Holding>, n: nat): (k: nat)
    requires n <= |rows|
    ensures k <= |acts|
  {
    if n == 0 then 0 else Passed(acts, PassedAt(acts, rows, n - 1), rows[n - 1].date)
  }

  /** The action starts from the code and the shares that the ones before it left. */
  ghost predicate Links(buy: Trade, acts: seq<Action>, j: nat)
    requires j < |acts|
  {
    acts[j].predecessor == CodeAfter(buy, acts, j) && Agrees(acts[j].oldShares, SharesAfter(buy, acts, j))
  }

  /** The actions passed so far explain the row. */
  ghost predicate RowExplained(buy: Trade, acts: seq<Action>, rows: seq<Holding>, k: nat)
    requires k < |rows|
  {
    var n := PassedAt(acts, rows, k + 1);
    rows[k].code == CodeAfter(buy, acts, n) && Agrees(rows[k].shares, SharesAfter(buy, acts, n))
  }

  ghost function CursorAt(buy: Trade, acts: seq<Action>, n: nat): Cursor
    requires n <= |acts|
  {
    Cursor(SharesAfter(buy, acts, n), CodeAfter(buy, acts, n), n)
  }

  lemma {:induction false} ConsumeIff(buy: Trade, acts: seq<Action>, from: nat, bound: Date)
    requires from <= |acts|
    ensures var n, end := Passed(acts, from, bound), Consume(acts, CursorAt(buy, acts, from), bound);
            && (end.Some? <==> forall j :: from <= j < n ==> Links(buy, acts, j))
            && (end.Some? ==> end.value == CursorAt(buy, acts, n))
    decreases |acts| - from
  {
    hide Agrees;
    if from < |acts| && acts[from].effective <= bound {
      ConsumeIff(buy, acts, from + 1, bound);
      assert CursorAt(buy, acts, from + 1) == Cursor(acts[from].newShares, acts[from].successor, from + 1);
      assert Links(buy, acts, from) <==> acts[from].predecessor == CodeAfter(buy, acts, from) && Agrees(acts[from].oldShares, SharesAfter(buy, acts, from));
    }
  }

  lemma {:induction false} RowsIff(buy: Trade, acts: seq<Action>, rows: seq<Holding>, n: nat)
    requires n <= |rows|
    ensures var end := AfterRows(acts, CursorAt(buy, acts, 0), rows, n);
            && (end.Some? <==> (forall j :: 0 <= j < PassedAt(acts, rows, n) ==> Links(buy, acts, j))
                               && forall k :: 0 <= k < n ==> RowExplained(buy, acts, rows, k))
            && (end.Some? ==> end.value == CursorAt(buy, acts, PassedAt(acts, rows, n)))
  {
    hide Agrees, Links, Passed, Consume;
    if n > 0 {
      RowsIff(buy, acts, rows, n - 1);
      var m := PassedAt(acts, rows, n - 1);
      ConsumeIff(buy, acts, m, rows[n - 1].date);
      LinkedOn(buy, acts, m, PassedAt(acts, rows, n));
      var before := AfterRows(acts, CursorAt(buy, acts, 0), rows, n - 1);
      if before.Some? && Consume(acts, before.value, rows[n - 1].date).Some? {
        assert AfterRows(acts, CursorAt(buy, acts, 0), rows, n).Some? <==> RowExplained(buy, acts, rows, n - 1);
      }
    }
  }

  lemma LinkedOn(buy: Trade, acts: seq<Action>, m: nat, n: nat)
    requires m <= n <= |acts|
    ensures (forall j :: 0 <= j < n ==> Links(buy, acts, j)) <==>
            (forall j :: 0 <= j < m ==> Links(buy, acts, j)) && forall j :: m <= j < n ==> Links(buy, acts, j)
  {}

  ghost predicate HasRowOn(rows: seq<Holding>, d: Date) {
    exists k :: 0 <= k < |rows| && rows[k].date == d
  }

  /** The rows are on exactly the sessions from one date up to another, in order. */
  ghost predicate OnSessions(calendar: seq<Date>, rows: seq<Holding>, from: Date, to: Date) {
    && (forall j, k :: 0 <= j < k < |rows| ==> rows[j].date < rows[k].date)
    && forall d :: HasRowOn(rows, d) <==> d in calendar && from <= d < to
  }

  /** Every row repeats the purchase, and the target. */
  ghost predicate RowsRepeat(buy: Trade, rows: seq<Holding>, target: Date) {
    forall k :: 0 <= k < |rows| ==> rows[k].entryDate == buy.date && rows[k].original == buy.code && rows[k].target == target
  }

  /** The target is one holding period after the session of the purchase. */
  ghost predicate EntryRepeated(env: Env, buy: Trade, rows: seq<Holding>) {
    exists i :: 0 <= i < |env.calendar| - env.holdingPeriod && env.calendar[i] == buy.date && RowsRepeat(buy, rows, env.calendar[i + env.holdingPeriod])
  }

  /** A closed position is explained: its rows are its sessions, its actions form one chain from the
      purchase to the closure, and every row and the closure hold what the chain says. */
  ghost predicate Explained(env: Env, buy: Trade, close: Trade, rows: seq<Holding>, acts: seq<Action>) {
    && rows != [] && OnSessions(env.calendar, rows, buy.date, close.date) && EntryRepeated(env, buy, rows)
    && (forall j :: 0 <= j < |acts| ==> Links(buy, acts, j))
    && (forall j :: PassedAt(acts, rows, |rows|) <= j < |acts| ==> acts[j].effective <= close.date)
    && (forall k :: 0 <= k < |rows| ==> RowExplained(buy, acts, rows, k))
    && close.code == CodeAfter(buy, acts, |acts|) && Agrees(close.shares, SharesAfter(buy, acts, |acts|))
  }

  /** The greatest element stands last. */
  lemma LastIsGreatest(s: seq<int>, front: seq<int>, last: int)
    requires StrictlyIncreasing(s) && s == front + [last]
    ensures StrictlyIncreasing(front) && forall d :: d in s <==> d in front || d == last
    ensures forall d :: d in front ==> d < last
  {
    AscendingSnoc(front, last);
  }

  lemma NoElements(s: seq<int>)
    requires forall d :: d !in s
    ensures s == []
  {
    var x := if |s| > 0 then s[0] else 0;
    assert |s| > 0 ==> x in s;
  }

  lemma {:induction false} AscendingAgree(a: seq<int>, b: seq<int>)
    requires StrictlyIncreasing(a) && StrictlyIncreasing(b) && forall d :: d in a <==> d in b
    ensures a == b
  {
    hide StrictlyIncreasing;
    if a == [] {
      NoElements(b);
    } else if b == [] {
      NoElements(a);
    } else {
      var front, rest, x, y := a[..|a| - 1], b[..|b| - 1], a[|a| - 1], b[|b| - 1];
      assert a == front + [x] && b == rest + [y];
      LastIsGreatest(a, front, x);
      LastIsGreatest(b, rest, y);
      assert x in a && y in b;
      assert x == y;
      AscendingAgree(front, rest);
    }
  }

  lemma DatesAre(rows: seq<Holding>)
    ensures StrictlyIncreasing(HoldingDates(rows)) <==> forall j, k :: 0 <= j < k < |rows| ==> rows[j].date < rows[k].date
    ensures forall d :: d in HoldingDates(rows) <==> HasRowOn(rows, d)
  {
    var dates := HoldingDates(rows);
    assert |dates| == |rows| && forall k :: 0 <= k < |rows| ==> dates[k] == rows[k].date;
    if StrictlyIncreasing(dates) {
      forall j, k | 0 <= j < k < |rows|
        ensures rows[j].date < rows[k].date
      {
        assert dates[j] < dates[k];
      }
    }
    forall d
      ensures d in dates <==> HasRowOn(rows, d)
    {
      if d in dates {
        var k :| 0 <= k < |dates| && dates[k] == d;
        assert rows[k].date == d;
      }
      if HasRowOn(rows, d) {
        var k :| 0 <= k < |rows| && rows[k].date == d;
        assert dates[k] == d;
      }
    }
  }

  lemma SessionsIff(calendar: seq<Date>, rows: seq<Holding>, from: Date, to: Date)
    requires StrictlyIncreasing(calendar)
    ensures HoldingDates(rows) == Between(calendar, from, to) <==> OnSessions(calendar, rows, from, to)
  {
    hide HasRowOn, StrictlyIncreasing, HoldingDates, Between;
    var dates, all := HoldingDates(rows), Between(calendar, from, to);
    BetweenIs(calendar, from, to);
    forall d
      ensures d in all <==> d in calendar && from <= d < to
    {
      BetweenIff(calendar, from, to, d);
    }
    DatesAre(rows);
    if OnSessions(calendar, rows, from, to) {
      forall d
        ensures d in dates <==> d in all
      {
        assert HasRowOn(rows, d) <==> d in dates;
      }
      AscendingAgree(dates, all);
    }
    if dates == all {
      forall d
        ensures HasRowOn(rows, d) <==> d in calendar && from <= d < to
      {
        assert HasRowOn(rows, d) <==> d in dates;
      }
    }
  }

  lemma {:induction false} IndexIs(calendar: seq<Date>, date: Date)
    ensures IndexOf(calendar, date).Some? <==> date in calendar
    ensures IndexOf(calendar, date).Some? ==> IndexOf(calendar, date).value < |calendar| && calendar[IndexOf(calendar, date).value] == date
  {
    if calendar != [] && calendar[0] != date {
      IndexIs(calendar[1..], date);
    }
  }

  lemma EntryIff(env: Env, buy: Trade, rows: seq<Holding>)
    requires StrictlyIncreasing(env.calendar)
    ensures var entry := IndexOf(env.calendar, buy.date);
            EntryRepeated(env, buy, rows) <==>
            && entry.Some? && entry.value + env.holdingPeriod < |env.calendar|
            && RowsRepeat(buy, rows, env.calendar[entry.value + env.holdingPeriod])
  {
    hide RowsRepeat;
    IndexIs(env.calendar, buy.date);
    if i :| 0 <= i < |env.calendar| - env.holdingPeriod && env.calendar[i] == buy.date && RowsRepeat(buy, rows, env.calendar[i + env.holdingPeriod]) {
      assert i == IndexOf(env.calendar, buy.date).value;
    }
  }

  lemma ReplayedIff(buy: Trade, acts: seq<Action>, rows: seq<Holding>, bound: Date)
    ensures var end := Replayed(buy, acts, rows, bound);
            end.Some? && end.value.next == |acts| <==>
            && (forall j :: 0 <= j < |acts| ==> Links(buy, acts, j))
            && (forall j :: PassedAt(acts, rows, |rows|) <= j < |acts| ==> acts[j].effective <= bound)
            && (forall k :: 0 <= k < |rows| ==> RowExplained(buy, acts, rows, k))
    ensures var end := Replayed(buy, acts, rows, bound);
            end.Some? && end.value.next == |acts| ==> end.value == CursorAt(buy, acts, |acts|)
  {
    hide Links, RowExplained, Consume, AfterRows;
    RowsIff(buy, acts, rows, |rows|);
    ConsumeIff(buy, acts, PassedAt(acts, rows, |rows|), bound);
  }

  /** The replay accepts exactly the explained positions. */
  lemma HistoryIff(env: Env, buy: Trade, close: Trade, rows: seq<Holding>, acts: seq<Action>)
    requires StrictlyIncreasing(env.calendar)
    ensures HistoryAccepted(env, buy, close, rows, acts) <==> Explained(env, buy, close, rows, acts)
  {
    hide Links, RowExplained, OnSessions, EntryRepeated, Replayed, Agrees, Between, IndexOf, HoldingDates;
    SessionsIff(env.calendar, rows, buy.date, close.date);
    EntryIff(env, buy, rows);
    ReplayedIff(buy, acts, rows, close.date);
  }
}
