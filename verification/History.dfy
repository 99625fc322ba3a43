/** The life of one position in the ledgers: why the auditor's replay of its rows follows the
    simulator's own position from the buy to the closure. */
module History {
  import opened Basics
  import opened Ledgers
  import opened CorporateActions
  import opened Simulation
  import opened Auditor
  import opened Marks

  // ----- calendars -----

  lemma {:induction false} IndexOfSession(calendar: seq<Date>, i: nat)
    requires StrictlyIncreasing(calendar) && i < |calendar|
    ensures IndexOf(calendar, calendar[i]) == Some(i)
  {
    if i > 0 {
      assert calendar[1..][i - 1] == calendar[i];
      IndexOfSession(calendar[1..], i - 1);
    }
  }

  lemma {:induction false} BetweenIsSlice(calendar: seq<Date>, a: nat, b: nat, to: Date)
    requires StrictlyIncreasing(calendar) && a <= b <= |calendar| && a < |calendar|
    requires forall k :: 0 <= k < |calendar| ==> (calendar[k] < to <==> k < b)
    ensures Between(calendar, calendar[a], to) == calendar[a..b]
  {
    var n := |calendar| - 1;
    var front := calendar[..n];
    if a == n {
      BetweenNone(front, calendar[a], to);
      assert calendar[a..b] == if b == n + 1 then [calendar[n]] else [];
    } else {
      BetweenIsSlice(front, a, (if b <= n then b else n), to);
      assert calendar[n] >= calendar[a];
      SliceOfFront(calendar, a, b);
    }
  }

  lemma SliceOfFront(calendar: seq<Date>, a: nat, b: nat)
    requires a <= b <= |calendar| && a < |calendar|
    ensures var n := |calendar| - 1;
            a < n ==> calendar[a..b] == calendar[..n][a..if b <= n then b else n] + if b == n + 1 then [calendar[n]] else []
  {}

  lemma {:induction false} BetweenIff(calendar: seq<Date>, from: Date, to: Date, d: Date)
    ensures d in Between(calendar, from, to) <==> d in calendar && from <= d < to
  {
    if calendar != [] {
      var front, last := calendar[..|calendar| - 1], calendar[|calendar| - 1];
      assert calendar == front + [last];
      BetweenIff(front, from, to, d);
    }
  }

  lemma {:induction false} BetweenIs(calendar: seq<Date>, from: Date, to: Date)
    requires StrictlyIncreasing(calendar)
    ensures StrictlyIncreasing(Between(calendar, from, to))
    ensures forall d :: d in Between(calendar, from, to) ==> d in calendar && from <= d < to
  {
    if calendar != [] {
      var front, last := calendar[..|calendar| - 1], calendar[|calendar| - 1];
      assert calendar == front + [last];
      BetweenIs(front, from, to);
      AscendingSnoc(Between(front, from, to), last);
      assert forall y :: y in front ==> y < last;
    }
  }

  lemma {:induction false} BetweenNone(calendar: seq<Date>, from: Date, to: Date)
    requires forall k :: 0 <= k < |calendar| ==> calendar[k] < from
    ensures Between(calendar, from, to) == []
  {
    if calendar != [] {
      BetweenNone(calendar[..|calendar| - 1], from, to);
    }
  }

  // ----- the action cursor -----

  /** Consuming up to one date and then up to a later one is consuming up to the later one. */
  lemma {:induction false} ConsumeInTwo(acts: seq<Action>, cur: Cursor, early: Date, late: Date)
    requires early <= late
    requires Consume(acts, cur, early).Some?
    ensures Consume(acts, cur, late) == Consume(acts, Consume(acts, cur, early).value, late)
    decreases |acts| - cur.next
  {
    if cur.next < |acts| && acts[cur.next].effective <= early {
      var a := acts[cur.next];
      ConsumeInTwo(acts, Cursor(a.newShares, a.successor, cur.next + 1), early, late);
    }
  }

  /** Actions that take effect later do not change what has been consumed. */
  lemma {:induction false} ConsumeIgnoresLater(acts: seq<Action>, more: seq<Action>, cur: Cursor, bound: Date)
    requires cur.next <= |acts|
    requires forall a :: a in more ==> a.effective > bound
    ensures Consume(acts + more, cur, bound) == Consume(acts, cur, bound)
    ensures Consume(acts, cur, bound).Some? ==> Consume(acts, cur, bound).value.next <= |acts|
    decreases |acts| - cur.next
  {
    if cur.next < |acts| {
      assert (acts + more)[cur.next] == acts[cur.next];
      if acts[cur.next].effective <= bound {
        var a := acts[cur.next];
        ConsumeIgnoresLater(acts, more, Cursor(a.newShares, a.successor, cur.next + 1), bound);
      }
    } else if more != [] {
      assert (acts + more)[cur.next] == more[0];
    }
  }

  lemma {:induction false} AfterRowsIgnoresLater(acts: seq<Action>, more: seq<Action>, start: Cursor, rows: seq<Holding>, n: nat)
    requires start.next <= |acts| && n <= |rows|
    requires forall k, a :: 0 <= k < n && a in more ==> a.effective > rows[k].date
    ensures AfterRows(acts + more, start, rows, n) == AfterRows(acts, start, rows, n)
    ensures AfterRows(acts, start, rows, n).Some? ==> AfterRows(acts, start, rows, n).value.next <= |acts|
  {
    if n > 0 {
      AfterRowsIgnoresLater(acts, more, start, rows, n - 1);
      if AfterRows(acts, start, rows, n - 1).Some? {
        ConsumeIgnoresLater(acts, more, AfterRows(acts, start, rows, n - 1).value, rows[n - 1].date);
      }
    }
  }

  lemma {:induction false} AfterRowsOfPrefix(acts: seq<Action>, start: Cursor, rows: seq<Holding>, row: Holding, n: nat)
    requires n <= |rows|
    ensures AfterRows(acts, start, rows + [row], n) == AfterRows(acts, start, rows, n)
  {
    if n > 0 {
      AfterRowsOfPrefix(acts, start, rows, row, n - 1);
    }
  }

  /** The rows of a faithful move are consumed one by one, from the old position to the new. */
  lemma {:induction false} ConsumeMove(ts: Transitions, p: PositionState, chain: seq<Transition>, m: Moved,
      acts: seq<Action>, date: Date, i: nat)
    requires Indexed(ts) && MaximalPath(ts, p.code, date, chain, None) && FaithfulMove(p, chain, |chain|, m)
    requires m.position.code == EndOf(p.code, chain)
    requires i <= |chain|
    ensures Consume(acts + m.rows,
                    Cursor(if i == 0 then p.shares else m.rows[i - 1].newShares,
                           if i == 0 then p.code else chain[i - 1].successor, |acts| + i), date)
         == Some(Cursor(m.position.shares, m.position.code, |acts| + |m.rows|))
    decreases |chain| - i
  {
    if i < |chain| {
      var a := m.rows[i];
      assert (acts + m.rows)[|acts| + i] == a;
      assert FaithfulRow(p, chain, m.rows, i);
      PathIsLinked(ts, p.code, date, chain, None, i);
      EqualIsClose(a.oldShares, CLOSE_RTOL, CLOSE_ATOL);
      ConsumeMove(ts, p, chain, m, acts, date, i + 1);
    }
  }

  /** A chain that starts after a date stays after it. */
  lemma {:induction false} PathIsLater(ts: Transitions, code: Code, date: Date, chain: seq<Transition>, previous: Option<Date>, bound: Date)
    requires MaximalPath(ts, code, date, chain, previous)
    requires chain != [] ==> chain[0].effective > bound
    ensures forall t :: t in chain ==> t.effective > bound
    decreases |chain|
  {
    if chain != [] {
      PathIsLater(ts, chain[0].successor, date, chain[1..], Some(chain[0].effective), bound);
      assert chain == [chain[0]] + chain[1..];
    }
  }

  // ----- one life -----

  ghost predicate RowFits(env: Env, p: PositionState, row: Holding, j: int) {
    && 0 <= j < |env.calendar| && row.date == env.calendar[j]
    && row.entryDate == p.entryDate && row.target == p.target && row.original == p.original
  }

  ghost predicate OpenedBy(env: Env, p: PositionState, buy: Trade) {
    && 0 <= p.entryIndex < |env.calendar|
    && buy.date == p.entryDate == env.calendar[p.entryIndex]
    && buy.code == p.original
  }

  /** The shares the last action left, or the ones bought. */
  function HeldShares(buy: Trade, acts: seq<Action>): real {
    if acts == [] then buy.shares else acts[|acts| - 1].newShares
  }

  /** Actions strictly one after the other and not after a bound. */
  ghost predicate Ordered(acts: seq<Action>, bound: Date) {
    && (forall j, k :: 0 <= j < k < |acts| ==> acts[j].effective < acts[k].effective)
    && (forall k :: 0 <= k < |acts| ==> acts[k].effective <= bound && acts[k].newShares > 0.0)
  }

  /** Ordered actions, none of them before the buy. */
  ghost predicate InOrder(buy: Trade, acts: seq<Action>, bound: Date) {
    && buy.date <= bound && Ordered(acts, bound)
    && (forall k :: 0 <= k < |acts| ==> buy.date <= acts[k].effective)
  }

  /** The first action took effect before the buy. */
  predicate ActedEarly(buy: Trade, acts: seq<Action>) {
    acts != [] && acts[0].effective < buy.date
  }

  lemma OrderedIsInOrder(buy: Trade, acts: seq<Action>, bound: Date)
    requires Ordered(acts, bound) && buy.date <= bound && !ActedEarly(buy, acts)
    ensures InOrder(buy, acts, bound)
  {}

  /** The selected code had already been renamed on the day it was bought. */
  predicate RenamedAtEntry(ts: Transitions, buy: Trade) {
    Due(ts, buy.code, buy.date)
  }

  /** The selected code had been renamed on an earlier day than it was bought. */
  predicate RenamedBeforeEntry(ts: Transitions, buy: Trade) {
    buy.code in ts && ts[buy.code].effective < buy.date
  }

  /** The holding rows of a position: one per session from entry, none of them reset. */
  ghost predicate Rows(env: Env, p: PositionState, buy: Trade, rows: seq<Holding>, marked: int, bound: Date) {
    && OpenedBy(env, p, buy)
    && buy.date <= bound
    && |rows| == marked - p.entryIndex + 1
    && (forall k :: 0 <= k < |rows| ==> RowFits(env, p, rows[k], p.entryIndex + k) && rows[k].date <= bound)
    && (rows != [] ==> rows[|rows| - 1].marketValue == Mark(p))
  }

  /** The replay of the ledgers arrives at the position's own shares and code. */
  ghost predicate Followed(p: PositionState, buy: Trade, rows: seq<Holding>, acts: seq<Action>, bound: Date) {
    && InOrder(buy, acts, bound) && p.shares == HeldShares(buy, acts)
    && Replayed(buy, acts, rows, bound) == Some(Cursor(p.shares, p.code, |acts|))
  }

  /** An action that takes effect by the entry date, after which the bought code is gone. */
  ghost predicate EarlyAction(buy: Trade, acts: seq<Action>) {
    && acts != [] && acts[0].effective <= buy.date
    && (forall k :: 0 <= k < |acts| && acts[k].effective <= buy.date ==> acts[k].successor != buy.code)
  }

  /** The first row still shows the bought code, although an earlier action replaces it. */
  ghost predicate Overtaken(ts: Transitions, p: PositionState, buy: Trade, rows: seq<Holding>, acts: seq<Action>, bound: Date) {
    && (rows != [] ==> rows[0].code == buy.code)
    // Either nothing has happened yet on the entry date, or the early action came afterwards.
    && ((acts == [] && p.code == buy.code && bound == buy.date)
        || (EarlyAction(buy, acts) && buy.date < bound && buy.code in ts && acts[0].effective == ts[buy.code].effective))
  }

  /** The ledgers of a live position, marked up to a session and acted on up to a date. */
  ghost predicate LiveRows(env: Env, p: PositionState, buy: Trade, rows: seq<Holding>, acts: seq<Action>, marked: int, bound: Date) {
    && Rows(env, p, buy, rows, marked, bound)
    && Ordered(acts, bound) && p.shares == HeldShares(buy, acts)
    && Marked(env, p, buy, rows, acts)
    && if RenamedAtEntry(env.Transitions(), buy) then Overtaken(env.Transitions(), p, buy, rows, acts, bound)
       else Followed(p, buy, rows, acts, bound)
  }

  /** What a live position says of the order of its own events: an action precedes the buy exactly
      if the code had been renamed before it and a later session has acted on it. */
  lemma LiveIsOrdered(env: Env, p: PositionState, buy: Trade, rows: seq<Holding>, acts: seq<Action>, marked: int, bound: Date)
    requires LiveRows(env, p, buy, rows, acts, marked, bound)
    ensures buy.date <= bound && Ordered(acts, bound) && p.shares == HeldShares(buy, acts)
    ensures ActedEarly(buy, acts) <==> RenamedBeforeEntry(env.Transitions(), buy) && buy.date < bound
  {
    hide Replayed, Env.Transitions, Marked;
  }

  lemma NewPositionIsLive(env: Env, p: PositionState, buy: Trade)
    requires OpenedBy(env, p, buy) && buy.shares == p.shares && p.code == p.original
    requires EntryClose(env, buy, p.lastClose) && p.lastPriceDate == buy.date && p.staleDays == 0
    ensures LiveRows(env, p, buy, [], [], p.entryIndex - 1, buy.date)
  {}

  /** Only shares, code, mark and the entry data matter to the ledgers of a position. */
  lemma LiveRowsIgnoreDelay(env: Env, p: PositionState, q: PositionState, buy: Trade, rows: seq<Holding>, acts: seq<Action>,
      marked: int, bound: Date)
    requires LiveRows(env, p, buy, rows, acts, marked, bound)
    requires q == p.(delayed := q.delayed, breached := q.breached)
    ensures LiveRows(env, q, buy, rows, acts, marked, bound)
  {}

  /** At a date, only a position bought on that very date may be due for a renaming. */
  ghost predicate DueOnlyAtEntry(ts: Transitions, p: PositionState, bound: Date) {
    Due(ts, p.code, bound) ==> p.entryDate == bound && p.code == p.original
  }

  /** The migration of a session continues the ledgers of a position. */
  lemma MoveContinues(env: Env, p: PositionState, chain: seq<Transition>, m: Moved,
      buy: Trade, rows: seq<Holding>, acts: seq<Action>, marked: int, bound: Date, date: Date)
    requires LiveRows(env, p, buy, rows, acts, marked, bound) && bound < date
    requires StrictlyIncreasing(env.calendar) && 0 <= marked + 1 < |env.calendar| && env.calendar[marked + 1] == date
    requires Indexed(env.Transitions()) && DueOnlyAtEntry(env.Transitions(), p, bound)
    requires MaximalPath(env.Transitions(), p.code, date, chain, None) && FaithfulMove(p, chain, |chain|, m)
    requires m.position.code == EndOf(p.code, chain) && p.code !in Successors(chain)
    ensures LiveRows(env, m.position, buy, rows, acts + m.rows, marked, date)
  {
    hide Followed, Overtaken, MaximalPath, FaithfulMove, Ordered, HeldShares, Replayed, RowFits, Marked;
    MoveKeepsRows(env, p, chain, m, buy, rows, marked, bound, date);
    MayMove(env, p, buy, rows, acts, marked, bound);
    MoveIsAfterRows(env, p, chain, m, buy, rows, acts, marked, bound, date);
    MoveIsMarked(env, p, chain, m, buy, rows, acts);
    MoveIsOrdered(env.Transitions(), p, chain, m, buy, acts, bound, date);
    if RenamedAtEntry(env.Transitions(), buy) {
      MoveOvertakes(env.Transitions(), p, chain, m, buy, rows, acts, bound, date);
    } else {
      MoveIsFollowed(env.Transitions(), p, chain, m, buy, rows, acts, bound, date);
    }
  }

  /** A position that can be moved has rows, and all but the first of them are before the move. */
  lemma MoveIsAfterRows(env: Env, p: PositionState, chain: seq<Transition>, m: Moved,
      buy: Trade, rows: seq<Holding>, acts: seq<Action>, marked: int, bound: Date, date: Date)
    requires Rows(env, p, buy, rows, marked, bound) && bound < date && Indexed(env.Transitions())
    requires StrictlyIncreasing(env.calendar) && 0 <= marked + 1 < |env.calendar| && env.calendar[marked + 1] == date
    requires DueOnlyAtEntry(env.Transitions(), p, bound)
    requires MaximalPath(env.Transitions(), p.code, date, chain, None) && FaithfulMove(p, chain, |chain|, m)
    ensures rows != [] && forall j, a :: 0 < j < |rows| && a in m.rows ==> rows[j].date < a.effective
  {
    hide MaximalPath, FaithfulMove, Due;
    assert |rows| > 1 ==> RowFits(env, p, rows[1], p.entryIndex + 1);
    if !Due(env.Transitions(), p.code, bound) {
      MoveRowsAreLater(env.Transitions(), p, chain, m, bound, date);
    }
  }

  /** Before its first action, or once past its entry date, a position is not overdue. */
  lemma MayMove(env: Env, p: PositionState, buy: Trade, rows: seq<Holding>, acts: seq<Action>, marked: int, bound: Date)
    requires LiveRows(env, p, buy, rows, acts, marked, bound) && DueOnlyAtEntry(env.Transitions(), p, bound)
    ensures acts == [] || !Due(env.Transitions(), p.code, bound)
    ensures !RenamedAtEntry(env.Transitions(), buy) ==> !Due(env.Transitions(), p.code, bound)
  {
    hide Replayed, Ordered, HeldShares, Env.Transitions, Marked;
  }

  /** The rows of a move continue the order of the actions, and leave the shares of the last one. */
  lemma MoveIsOrdered(ts: Transitions, p: PositionState, chain: seq<Transition>, m: Moved, buy: Trade, acts: seq<Action>,
      bound: Date, date: Date)
    requires bound < date && Indexed(ts) && (acts == [] || !Due(ts, p.code, bound))
    requires MaximalPath(ts, p.code, date, chain, None) && FaithfulMove(p, chain, |chain|, m)
    requires Ordered(acts, bound) && p.shares == HeldShares(buy, acts)
    ensures Ordered(acts + m.rows, date) && m.position.shares == HeldShares(buy, acts + m.rows)
  {
    hide FaithfulMove, MaximalPath, Due;
    MoveRowsAscend(ts, p, chain, m, date);
    if acts != [] {
      MoveRowsAreLater(ts, p, chain, m, bound, date);
    }
    MoveShape(p, chain, m);
    if m.rows == [] {
      assert acts + m.rows == acts;
    } else {
      assert (acts + m.rows)[|acts + m.rows| - 1] == m.rows[|m.rows| - 1];
    }
  }

  lemma MoveKeepsRows(env: Env, p: PositionState, chain: seq<Transition>, m: Moved,
      buy: Trade, rows: seq<Holding>, marked: int, bound: Date, date: Date)
    requires Rows(env, p, buy, rows, marked, bound) && bound < date && FaithfulMove(p, chain, |chain|, m)
    ensures Rows(env, m.position, buy, rows, marked, date)
    ensures forall k :: 0 <= k < |rows| ==> rows[k].date <= bound
  {
    SameEntry(env, p, m.position, rows);
  }

  /** Its rows take effect after every row so far and lead from the old shares and code to the
      new ones. */
  lemma MoveIsFollowed(ts: Transitions, p: PositionState, chain: seq<Transition>, m: Moved,
      buy: Trade, rows: seq<Holding>, acts: seq<Action>, bound: Date, date: Date)
    requires Followed(p, buy, rows, acts, bound) && bound < date && forall k :: 0 <= k < |rows| ==> rows[k].date <= bound
    requires Indexed(ts) && !Due(ts, p.code, bound)
    requires MaximalPath(ts, p.code, date, chain, None) && FaithfulMove(p, chain, |chain|, m)
    requires m.position.code == EndOf(p.code, chain)
    ensures Followed(m.position, buy, rows, acts + m.rows, date)
  {
    hide Consume, AfterRows, InOrder, HeldShares, MaximalPath, FaithfulRow, Due;
    MoveIsInOrder(ts, p, chain, m, buy, acts, bound, date);
    assert forall a :: a in m.rows ==> a.effective > bound;
    var start := Cursor(buy.shares, buy.code, 0);
    AfterRowsIgnoresLater(acts, m.rows, start, rows, |rows|);
    var cur := AfterRows(acts, start, rows, |rows|).value;
    ConsumeIgnoresLater(acts, m.rows, cur, bound);
    ConsumeInTwo(acts + m.rows, cur, bound, date);
    ConsumeMove(ts, p, chain, m, acts, date, 0);
  }

  /** A renaming that was due at entry is carried out one session late, and stays first. */
  lemma MoveOvertakes(ts: Transitions, p: PositionState, chain: seq<Transition>, m: Moved,
      buy: Trade, rows: seq<Holding>, acts: seq<Action>, bound: Date, date: Date)
    requires Overtaken(ts, p, buy, rows, acts, bound) && bound < date && RenamedAtEntry(ts, buy) && buy.date <= bound
    requires Indexed(ts) && (Due(ts, p.code, bound) ==> bound == buy.date)
    requires MaximalPath(ts, p.code, date, chain, None) && FaithfulMove(p, chain, |chain|, m)
    requires p.code !in Successors(chain)
    ensures Overtaken(ts, m.position, buy, rows, acts + m.rows, date)
  {
    if EarlyAction(buy, acts) {
      hide MaximalPath, FaithfulMove;
      MoveRowsAreLater(ts, p, chain, m, bound, date);
    } else {
      assert chain != [] && chain[0] == ts[p.code];
      forall k | 0 <= k < |m.rows|
        ensures m.rows[k].successor != buy.code && m.rows[k].effective == chain[k].effective
      {
        assert FaithfulRow(p, chain, m.rows, k);
        assert chain[k] in chain;
      }
    }
  }

  lemma MoveIsInOrder(ts: Transitions, p: PositionState, chain: seq<Transition>, m: Moved, buy: Trade, acts: seq<Action>,
      bound: Date, date: Date)
    requires bound < date && Indexed(ts) && !Due(ts, p.code, bound)
    requires MaximalPath(ts, p.code, date, chain, None) && FaithfulMove(p, chain, |chain|, m)
    requires InOrder(buy, acts, bound) && p.shares == HeldShares(buy, acts)
    ensures InOrder(buy, acts + m.rows, date) && m.position.shares == HeldShares(buy, acts + m.rows)
    ensures forall k :: 0 <= k < |m.rows| ==> m.rows[k].effective > bound
  {
    hide FaithfulMove, MaximalPath, Due, Ordered, HeldShares;
    MoveIsOrdered(ts, p, chain, m, buy, acts, bound, date);
    MoveRowsAreLater(ts, p, chain, m, bound, date);
  }

  lemma MoveShape(p: PositionState, chain: seq<Transition>, m: Moved)
    requires FaithfulMove(p, chain, |chain|, m)
    ensures |m.rows| == |chain| && m.position.shares == (if chain == [] then p.shares else m.rows[|chain| - 1].newShares)
  {}

  lemma MoveRowsAscend(ts: Transitions, p: PositionState, chain: seq<Transition>, m: Moved, date: Date)
    requires Indexed(ts)
    requires MaximalPath(ts, p.code, date, chain, None) && FaithfulMove(p, chain, |chain|, m)
    ensures |m.rows| == |chain|
    ensures forall k :: 0 <= k < |m.rows| ==> m.rows[k].effective == chain[k].effective <= date && m.rows[k].newShares > 0.0
    ensures forall j, k :: 0 <= j < k < |m.rows| ==> m.rows[j].effective < m.rows[k].effective
  {
    forall k | 0 <= k < |m.rows|
      ensures m.rows[k].effective == chain[k].effective <= date && m.rows[k].newShares > 0.0
    {
      assert FaithfulRow(p, chain, m.rows, k);
      PathIsLinked(ts, p.code, date, chain, None, k);
    }
    forall j, k | 0 <= j < k < |m.rows|
      ensures m.rows[j].effective < m.rows[k].effective
    {
      PathIncreases(ts, p.code, date, chain, j, k);
    }
  }

  lemma MoveRowsAreLater(ts: Transitions, p: PositionState, chain: seq<Transition>, m: Moved, bound: Date, date: Date)
    requires Indexed(ts) && !Due(ts, p.code, bound)
    requires MaximalPath(ts, p.code, date, chain, None) && FaithfulMove(p, chain, |chain|, m)
    ensures forall k :: 0 <= k < |m.rows| ==> bound < m.rows[k].effective
  {
    hide FaithfulMove;
    MoveRowsAscend(ts, p, chain, m, date);
    PathIsLater(ts, p.code, date, chain, None, bound);
    forall k | 0 <= k < |m.rows|
      ensures bound < m.rows[k].effective
    {
      assert chain[k] in chain;
    }
  }

  lemma {:induction false} PathIncreases(ts: Transitions, code: Code, date: Date, chain: seq<Transition>, j: nat, k: nat)
    requires Indexed(ts) && MaximalPath(ts, code, date, chain, None) && j < k < |chain|
    ensures chain[j].effective < chain[k].effective
    decreases k
  {
    PathIsLinked(ts, code, date, chain, None, k);
    if j < k - 1 {
      PathIncreases(ts, code, date, chain, j, k - 1);
    }
  }

  lemma SameEntry(env: Env, p: PositionState, q: PositionState, rows: seq<Holding>)
    requires q.entryIndex == p.entryIndex && q.entryDate == p.entryDate && q.target == p.target && q.original == p.original
    requires forall k :: 0 <= k < |rows| ==> RowFits(env, p, rows[k], p.entryIndex + k)
    ensures forall k :: 0 <= k < |rows| ==> RowFits(env, q, rows[k], q.entryIndex + k)
  {}

  /** The end-of-day mark appends the row the replay expects. */
  lemma MarkContinues(env: Env, p: PositionState, q: PositionState, buy: Trade, rows: seq<Holding>, acts: seq<Action>, i: nat)
    requires i < |env.calendar| && LiveRows(env, p, buy, rows, acts, i - 1, env.calendar[i])
    requires MarksTo(env, p, q, env.calendar[i])
    ensures LiveRows(env, q, buy, rows + [HoldingRow(env.calendar[i], q)], acts, i, env.calendar[i])
  {
    hide Followed, Marked, QuotedClose, Suspended;
    DayIsMarked(env, p, q, buy, rows, acts, env.calendar[i]);
    var row := HoldingRow(env.calendar[i], q);
    MarkKeepsRows(env, p, q, buy, rows, i);
    if RenamedAtEntry(env.Transitions(), buy) {
      // The first row is written on the entry date, before any migration.
      assert rows == [] ==> p.entryIndex == i;
      assert rows != [] ==> (rows + [row])[0] == rows[0];
    } else {
      MarkIsFollowed(p, q, buy, rows, acts, row, env.calendar[i]);
    }
  }

  lemma MarkKeepsRows(env: Env, p: PositionState, q: PositionState, buy: Trade, rows: seq<Holding>, i: nat)
    requires i < |env.calendar| && Rows(env, p, buy, rows, i - 1, env.calendar[i])
    requires q == p.(lastClose := q.lastClose, lastPriceDate := q.lastPriceDate, valuation := q.valuation, staleDays := q.staleDays)
    ensures Rows(env, q, buy, rows + [HoldingRow(env.calendar[i], q)], i, env.calendar[i])
  {
    SameEntry(env, p, q, rows);
    var all := rows + [HoldingRow(env.calendar[i], q)];
    assert forall k :: 0 <= k < |rows| ==> all[k] == rows[k];
  }

  lemma MarkIsFollowed(p: PositionState, q: PositionState, buy: Trade, rows: seq<Holding>, acts: seq<Action>, row: Holding, date: Date)
    requires Followed(p, buy, rows, acts, date)
    requires q.shares == p.shares && q.code == p.code && row == HoldingRow(date, q)
    ensures Followed(q, buy, rows + [row], acts, date)
  {
    var start := Cursor(buy.shares, buy.code, 0);
    var all := rows + [row];
    AfterRowsOfPrefix(acts, start, rows, row, |rows|);
    EqualIsClose(q.shares, CLOSE_RTOL, CLOSE_ATOL);
    assert AfterRows(acts, start, all, |all|) == Some(Cursor(p.shares, p.code, |acts|));
    assert Consume(acts, Cursor(p.shares, p.code, |acts|), date) == Some(Cursor(p.shares, p.code, |acts|));
  }

  // ----- closures -----

  lemma {:induction false} ConsumeAvoids(acts: seq<Action>, cur: Cursor, bound: Date, x: Code)
    requires forall k :: 0 <= k < |acts| && acts[k].effective <= bound ==> acts[k].successor != x
    requires cur.code != x || (cur.next < |acts| && acts[cur.next].effective <= bound)
    ensures Consume(acts, cur, bound).Some? ==> Consume(acts, cur, bound).value.code != x
    decreases |acts| - cur.next
  {
    if cur.next < |acts| && acts[cur.next].effective <= bound {
      var a := acts[cur.next];
      ConsumeAvoids(acts, Cursor(a.newShares, a.successor, cur.next + 1), bound, x);
    }
  }

  /** The replay of an overtaken position fails at its first holding row. */
  lemma {:induction false} OvertakenFails(buy: Trade, acts: seq<Action>, rows: seq<Holding>, n: nat)
    requires EarlyAction(buy, acts) && 0 < n <= |rows|
    requires rows[0].date == buy.date && rows[0].code == buy.code
    ensures AfterRows(acts, Cursor(buy.shares, buy.code, 0), rows, n) == None
  {
    if n > 1 {
      OvertakenFails(buy, acts, rows, n - 1);
    } else {
      var start := Cursor(buy.shares, buy.code, 0);
      ConsumeAvoids(acts, start, rows[0].date, buy.code);
      assert AfterRows(acts, start, rows, 0) == Some(start);
    }
  }

  lemma RowsSpanLife(env: Env, p: PositionState, buy: Trade, close: Trade, rows: seq<Holding>, i: nat)
    requires StrictlyIncreasing(env.calendar) && i < |env.calendar|
    requires Rows(env, p, buy, rows, i - 1, env.calendar[i]) && p.entryIndex < i
    requires close.date == env.calendar[i]
    ensures rows != [] && HoldingDates(rows) == Between(env.calendar, buy.date, close.date)
    ensures forall k :: 0 <= k < |rows| ==> rows[k].entryDate == buy.date && rows[k].original == buy.code && rows[k].target == p.target
    ensures rows[0].date == buy.date
  {
    hide Between;
    BetweenIsSlice(env.calendar, p.entryIndex, i, close.date);
    var slice := env.calendar[p.entryIndex..i];
    assert |slice| == |rows|;
    forall k | 0 <= k < |rows|
      ensures rows[k].date == slice[k] && rows[k].entryDate == buy.date && rows[k].original == buy.code && rows[k].target == p.target
    {
      assert RowFits(env, p, rows[k], p.entryIndex + k);
    }
    assert HoldingDates(rows) == slice;
  }

  /** A closure after which every session was marked is accepted by the auditor exactly when the
      bought code had not already been renamed at entry. */
  lemma ClosureIsAcceptedIff(env: Env, p: PositionState, buy: Trade, close: Trade, rows: seq<Holding>, acts: seq<Action>, i: nat)
    requires StrictlyIncreasing(env.calendar) && i < |env.calendar|
    requires LiveRows(env, p, buy, rows, acts, i - 1, env.calendar[i])
    requires p.entryIndex < i && p.entryIndex + env.holdingPeriod < |env.calendar|
    requires p.target == env.calendar[p.entryIndex + env.holdingPeriod]
    requires close.date == env.calendar[i] && close.code == p.code && close.shares == p.shares
    ensures rows != [] && HoldingDates(rows) == Between(env.calendar, buy.date, close.date)
    ensures HistoryAccepted(env, buy, close, rows, acts) <==> !RenamedAtEntry(env.Transitions(), buy)
    ensures buy.date <= close.date && Ordered(acts, close.date) && close.shares == HeldShares(buy, acts)
    ensures ActedEarly(buy, acts) <==> RenamedBeforeEntry(env.Transitions(), buy)
  {
    hide Between, IndexOf, AfterRows, Consume, HoldingDates, InOrder, HeldShares, Ordered, ActedEarly, RenamedBeforeEntry, Marked;
    LiveIsOrdered(env, p, buy, rows, acts, i - 1, env.calendar[i]);
    assert buy.date < env.calendar[i] by { assert OpenedBy(env, p, buy); }
    IndexOfSession(env.calendar, p.entryIndex);
    RowsSpanLife(env, p, buy, close, rows, i);
    EqualIsClose(close.shares, CLOSE_RTOL, CLOSE_ATOL);
    if RenamedAtEntry(env.Transitions(), buy) {
      OvertakenFails(buy, acts, rows, |rows|);
    }
  }
}
