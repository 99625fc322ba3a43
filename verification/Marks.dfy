/** What the holding rows of one position say of its closes, read off the prices and the ledgers: the
    close of the day where there is one, and otherwise the one before, adjusted by the corporate actions
    since (src/ashare_quant/backtest/engine.py, lines 354-382 and 886-903). */
module Marks {
  import opened Basics
  import opened Ledgers
  import opened CorporateActions
  import opened Simulation

  /** The positive close of a code on a date, if it has one. */
  function QuotedClose(env: Env, date: Date, code: Code): Option<real> {
    if (date, code) in env.prices && env.prices[(date, code)].close.Some? && env.prices[(date, code)].close.value > 0.0
    then env.prices[(date, code)].close else None
  }

  predicate Suspended(env: Env, date: Date, code: Code) {
    (date, code) in env.prices && env.prices[(date, code)].suspended
  }

  /** The leading actions that took effect by a date. */
  function ActedBy(acts: seq<Action>, d: Date): (n: nat)
    ensures n <= |acts|
  {
    if acts == [] then 0
    else if acts[|acts| - 1].effective <= d then |acts|
    else ActedBy(acts[..|acts| - 1], d)
  }

  /** The actions carried out before a row was written: those that took effect by its date, except that
      none is carried out on the day of the purchase. */
  function ActedAt(acts: seq<Action>, rows: seq<Holding>, k: nat): (n: nat)
    requires k < |rows|
    ensures n <= |acts|
  {
    if k == 0 then 0 else ActedBy(acts, rows[k].date)
  }

  function SharesAfter(buy: Trade, acts: seq<Action>, n: nat): real
    requires n <= |acts|
  {
    if n == 0 then buy.shares else acts[n - 1].newShares
  }

  function CodeAfter(buy: Trade, acts: seq<Action>, n: nat): Code
    requires n <= |acts|
  {
    if n == 0 then buy.code else acts[n - 1].successor
  }

  /** Before its first row a position carries the close of its entry day, whatever it is. */
  ghost predicate EntryClose(env: Env, buy: Trade, close: Option<real>) {
    (buy.date, buy.code) in env.prices && close == env.prices[(buy.date, buy.code)].close
  }

  /** What is carried into row k: the close before, adjusted by the actions of the day, with its price
      date and the number of days it has been stale. */
  ghost predicate CarriedInto(env: Env, buy: Trade, rows: seq<Holding>, acts: seq<Action>, k: nat, close: Option<real>, priced: Date, stale: nat)
    requires k < |rows|
  {
    if k == 0 then EntryClose(env, buy, close) && priced == buy.date && stale == 0
    else
      var before := rows[k - 1];
      && close == Adjusted(before.lastClose, acts, ActedAt(acts, rows, k - 1), ActedAt(acts, rows, k))
      && priced == before.lastPriceDate && stale == before.staleDays
  }

  /** Marked at the close of the day. */
  ghost predicate MarkedAt(h: Holding, close: real) {
    && h.lastClose == Some(close) && h.lastPriceDate == h.date && h.valuation == Current && h.staleDays == 0
    && h.marketValue == Some(Times(h.shares, close))
  }

  /** Marked at a close carried over. */
  ghost predicate MarkedStale(env: Env, h: Holding, close: Option<real>, priced: Date, stale: nat) {
    && h.lastClose == close && h.lastPriceDate == priced && h.staleDays == stale + 1
    && h.valuation == (if Suspended(env, h.date, h.code) then StaleSuspended else StaleMissingData)
    && (env.strict ==> Suspended(env, h.date, h.code))
    && h.marketValue == match close case None => None case Some(c) => Some(Times(h.shares, c))
  }

  /** Row k of a position: its shares and code are those of the actions so far, and it is marked at the
      close of the day if there is one, else at the one carried over. */
  ghost predicate RowMarked(env: Env, buy: Trade, rows: seq<Holding>, acts: seq<Action>, k: nat)
    requires k < |rows|
  {
    var h := rows[k];
    && h.shares == SharesAfter(buy, acts, ActedAt(acts, rows, k)) && h.code == CodeAfter(buy, acts, ActedAt(acts, rows, k))
    && match QuotedClose(env, h.date, h.code)
       case Some(c) => MarkedAt(h, c)
       case None => exists close, priced, stale :: CarriedInto(env, buy, rows, acts, k, close, priced, stale) && MarkedStale(env, h, close, priced, stale)
  }

  /** What a position carries after its rows and actions. */
  ghost predicate Carries(env: Env, p: PositionState, buy: Trade, rows: seq<Holding>, acts: seq<Action>) {
    && p.shares == SharesAfter(buy, acts, |acts|) && p.code == CodeAfter(buy, acts, |acts|)
    && if rows == [] then acts == [] && EntryClose(env, buy, p.lastClose) && p.lastPriceDate == buy.date && p.staleDays == 0
       else
         var last := rows[|rows| - 1];
         && p.lastClose == Adjusted(last.lastClose, acts, ActedAt(acts, rows, |rows| - 1), |acts|)
         && p.lastPriceDate == last.lastPriceDate && p.staleDays == last.staleDays
  }

  /** The rows of a position so far, and what it carries on. */
  ghost predicate Marked(env: Env, p: PositionState, buy: Trade, rows: seq<Holding>, acts: seq<Action>) {
    (forall k :: 0 <= k < |rows| ==> RowMarked(env, buy, rows, acts, k)) && Carries(env, p, buy, rows, acts)
  }

  // ----- the end of a day -----

  /** What the end of a day does to a position. */
  ghost predicate MarksTo(env: Env, p: PositionState, q: PositionState, date: Date) {
    && q == p.(lastClose := q.lastClose, lastPriceDate := q.lastPriceDate, valuation := q.valuation, staleDays := q.staleDays)
    && match QuotedClose(env, date, p.code)
       case Some(c) => q.lastClose == Some(c) && q.lastPriceDate == date && q.valuation == Current && q.staleDays == 0
       case None =>
         && q.lastClose == p.lastClose && q.lastPriceDate == p.lastPriceDate && q.staleDays == p.staleDays + 1
         && q.valuation == (if Suspended(env, date, p.code) then StaleSuspended else StaleMissingData)
         && (env.strict ==> Suspended(env, date, p.code))
  }

  lemma RevaluedMarks(env: Env, p: PositionState, date: Date)
    requires Revalued(env, p, env.PriceAt(date, p.code), date).Ok?
    ensures MarksTo(env, p, Revalued(env, p, env.PriceAt(date, p.code), date).value, date)
  {}

  // ----- actions -----

  lemma {:induction false} ActedByLater(acts: seq<Action>, more: seq<Action>, d: Date)
    requires forall a :: a in more ==> d < a.effective
    ensures ActedBy(acts + more, d) == ActedBy(acts, d)
  {
    if more == [] {
      assert acts + more == acts;
    } else {
      var front, last := more[..|more| - 1], more[|more| - 1];
      assert acts + more == (acts + front) + [last] && last in more;
      ActedByLater(acts, front, d);
    }
  }

  lemma {:induction false} RowStillMarked(env: Env, buy: Trade, rows: seq<Holding>, acts: seq<Action>, more: seq<Action>, k: nat)
    requires k < |rows| && RowMarked(env, buy, rows, acts, k)
    requires forall j :: 0 < j < |rows| ==> ActedBy(acts + more, rows[j].date) == ActedBy(acts, rows[j].date)
    ensures RowMarked(env, buy, rows, acts + more, k)
  {
    hide ActedBy, Adjusted, MarkedStale, MarkedAt, EntryClose, QuotedClose;
    var all := acts + more;
    assert ActedAt(all, rows, k) == ActedAt(acts, rows, k);
    if QuotedClose(env, rows[k].date, rows[k].code).None? {
      var close, priced, stale :| CarriedInto(env, buy, rows, acts, k, close, priced, stale) && MarkedStale(env, rows[k], close, priced, stale);
      if k > 0 {
        assert ActedAt(all, rows, k - 1) == ActedAt(acts, rows, k - 1);
        AdjustedPrefix(rows[k - 1].lastClose, acts, more, ActedAt(acts, rows, k - 1), ActedAt(acts, rows, k));
      }
      assert CarriedInto(env, buy, rows, all, k, close, priced, stale);
    }
  }

  /** A move adds its rows to the actions, after the dates of all rows but the first. */
  lemma {:induction false} MoveIsMarked(env: Env, p: PositionState, chain: seq<Transition>, m: Moved, buy: Trade, rows: seq<Holding>, acts: seq<Action>)
    requires Marked(env, p, buy, rows, acts) && rows != []
    requires FaithfulMove(p, chain, |chain|, m) && m.position.code == EndOf(p.code, chain)
    requires forall j, a :: 0 < j < |rows| && a in m.rows ==> rows[j].date < a.effective
    ensures Marked(env, m.position, buy, rows, acts + m.rows)
  {
    hide ActedBy, Adjusted, RowMarked, EntryClose;
    var all, last := acts + m.rows, rows[|rows| - 1];
    forall j | 0 < j < |rows|
      ensures ActedBy(all, rows[j].date) == ActedBy(acts, rows[j].date)
    {
      ActedByLater(acts, m.rows, rows[j].date);
    }
    forall k | 0 <= k < |rows|
      ensures RowMarked(env, buy, rows, all, k)
    {
      RowStillMarked(env, buy, rows, acts, m.rows, k);
    }
    MoveCarries(p, chain, m, buy, acts);
    AdjustedOn(last.lastClose, acts, m.rows, ActedAt(acts, rows, |rows| - 1), |m.rows|);
    MoveAdjusts(p, chain, m);
  }

  lemma MoveAdjusts(p: PositionState, chain: seq<Transition>, m: Moved)
    requires FaithfulMove(p, chain, |chain|, m)
    ensures |m.rows| == |chain| && m.position.lastClose == Adjusted(p.lastClose, m.rows, 0, |m.rows|)
    ensures m.position.lastPriceDate == p.lastPriceDate && m.position.staleDays == p.staleDays
  {
    hide FaithfulRow, Adjusted;
  }

  lemma {:induction false} MoveCarries(p: PositionState, chain: seq<Transition>, m: Moved, buy: Trade, acts: seq<Action>)
    requires FaithfulMove(p, chain, |chain|, m) && m.position.code == EndOf(p.code, chain)
    requires p.shares == SharesAfter(buy, acts, |acts|) && p.code == CodeAfter(buy, acts, |acts|)
    ensures var all := acts + m.rows;
            m.position.shares == SharesAfter(buy, all, |all|) && m.position.code == CodeAfter(buy, all, |all|)
  {
    hide Adjusted;
    var n := |chain|;
    if n > 0 {
      assert FaithfulRow(p, chain, m.rows, n - 1);
      assert (acts + m.rows)[|acts| + n - 1] == m.rows[n - 1];
    } else {
      assert acts + m.rows == acts;
    }
  }

  /** The row of a day, after all actions so far. */
  lemma {:induction false} DayIsMarked(env: Env, p: PositionState, q: PositionState, buy: Trade, rows: seq<Holding>, acts: seq<Action>, date: Date)
    requires Marked(env, p, buy, rows, acts) && MarksTo(env, p, q, date)
    requires forall k :: 0 <= k < |acts| ==> acts[k].effective <= date
    ensures Marked(env, q, buy, rows + [HoldingRow(date, q)], acts)
  {
    hide ActedBy, Adjusted, EntryClose, QuotedClose, Suspended;
    var row, all := HoldingRow(date, q), rows + [HoldingRow(date, q)];
    forall k | 0 <= k < |rows|
      ensures RowMarked(env, buy, all, acts, k)
    {
      EarlierRowMarked(env, buy, rows, row, acts, k);
    }
    AllActed(acts, date);
    var n := |rows|;
    assert all[n] == row;
    assert ActedAt(acts, all, n) == |acts| by { assert n == 0 ==> acts == []; }
    if n > 0 {
      assert ActedAt(acts, all, n - 1) == ActedAt(acts, rows, n - 1);
    }
    assert CarriedInto(env, buy, all, acts, n, p.lastClose, p.lastPriceDate, p.staleDays);
    NewRowMarked(env, p, q, buy, all, acts, date);
    NothingAdjusted(row.lastClose, acts);
  }

  lemma NothingAdjusted(close: Option<real>, acts: seq<Action>)
    ensures Adjusted(close, acts, |acts|, |acts|) == close
  {}

  lemma {:induction false} NewRowMarked(env: Env, p: PositionState, q: PositionState, buy: Trade, all: seq<Holding>, acts: seq<Action>, date: Date)
    requires all != [] && all[|all| - 1] == HoldingRow(date, q) && MarksTo(env, p, q, date)
    requires ActedAt(acts, all, |all| - 1) == |acts|
    requires p.shares == SharesAfter(buy, acts, |acts|) && p.code == CodeAfter(buy, acts, |acts|)
    requires CarriedInto(env, buy, all, acts, |all| - 1, p.lastClose, p.lastPriceDate, p.staleDays)
    ensures RowMarked(env, buy, all, acts, |all| - 1)
  {
    hide ActedBy, ActedAt, Adjusted, EntryClose, CarriedInto, QuotedClose, Suspended;
    if QuotedClose(env, date, q.code).None? {
      assert MarkedStale(env, all[|all| - 1], p.lastClose, p.lastPriceDate, p.staleDays);
    }
  }

  lemma AllActed(acts: seq<Action>, date: Date)
    requires forall k :: 0 <= k < |acts| ==> acts[k].effective <= date
    ensures ActedBy(acts, date) == |acts|
  {}

  lemma {:induction false} EarlierRowMarked(env: Env, buy: Trade, rows: seq<Holding>, row: Holding, acts: seq<Action>, k: nat)
    requires k < |rows| && RowMarked(env, buy, rows, acts, k)
    ensures RowMarked(env, buy, rows + [row], acts, k)
  {
    hide ActedBy, Adjusted, EntryClose, QuotedClose, MarkedStale, MarkedAt;
    var all := rows + [row];
    assert all[k] == rows[k] && ActedAt(acts, all, k) == ActedAt(acts, rows, k);
    if QuotedClose(env, rows[k].date, rows[k].code).None? {
      var close, priced, stale :| CarriedInto(env, buy, rows, acts, k, close, priced, stale) && MarkedStale(env, rows[k], close, priced, stale);
      if k > 0 {
        assert all[k - 1] == rows[k - 1] && ActedAt(acts, all, k - 1) == ActedAt(acts, rows, k - 1);
      }
      assert CarriedInto(env, buy, all, acts, k, close, priced, stale);
    }
  }
}
