/** One session keeps every invariant: corporate actions, exits, entries, marks and the close of
    the day are each followed through the book, the trade log, the money, the counters, the
    write-off records and the intents. */
module SessionInvariant {
  import opened Basics
  import opened Costs
  import opened Ledgers
  import opened CorporateActions
  import opened Simulation
  import opened Auditor
  import opened History
  import opened BookInvariant
  import opened LifeInvariant
  import opened TradeInvariant
  import opened MoneyInvariant
  import opened CounterInvariant

  // ----- write-off records -----

  ghost predicate TerminalOk(e: Terminal, closes: TradeMap, holdings: seq<Holding>) {
    var rows := Own(holdings, HoldingId, e.id);
    && e.id in closes
    && closes[e.id].status == TerminalWriteoff && closes[e.id].date == e.date && closes[e.id].code == e.code
    && rows != [] && e.markBefore == rows[|rows| - 1].marketValue
    && e.entryDate == rows[|rows| - 1].entryDate && e.target == rows[|rows| - 1].target
    && e.recovery == 0.0
  }

  ghost predicate TerminalsOk(terminals: seq<Terminal>, trades: seq<Trade>, closes: TradeMap, holdings: seq<Holding>) {
    && (forall e :: e in terminals ==> TerminalOk(e, closes, holdings))
    && WriteoffIds(trades) == TerminalIds(terminals)
    && (forall j, k :: 0 <= j < k < |terminals| ==> terminals[j].id != terminals[k].id)
  }

  lemma WriteoffIdsSnoc(trades: seq<Trade>, t: Trade)
    ensures WriteoffIds(trades + [t]) == WriteoffIds(trades) + if t.status == TerminalWriteoff then {t.id} else {}
  {
    assert forall x :: x in trades + [t] <==> x in trades || x == t;
  }

  lemma TerminalIdsSnoc(terminals: seq<Terminal>, e: Terminal)
    ensures TerminalIds(terminals + [e]) == TerminalIds(terminals) + {Some(e.id)}
  {
    assert forall x :: x in terminals + [e] <==> x in terminals || x == e;
  }

  /** A row that is not a write-off, closing nothing recorded so far. */
  lemma TerminalsKept(terminals: seq<Terminal>, trades: seq<Trade>, closes: TradeMap, holdings: seq<Holding>, t: Trade)
    requires TerminalsOk(terminals, trades, closes, holdings) && t.status != TerminalWriteoff
    requires IsClosing(t) ==> t.id.Some? && t.id.value !in closes
    ensures TerminalsOk(terminals, trades + [t], if IsClosing(t) && t.id.Some? then closes[t.id.value := t] else closes, holdings)
  {
    WriteoffIdsSnoc(trades, t);
  }

  lemma TerminalsGrow(terminals: seq<Terminal>, trades: seq<Trade>, closes: TradeMap, holdings: seq<Holding>, t: Trade, e: Terminal)
    requires TerminalsOk(terminals, trades, closes, holdings)
    requires t.status == TerminalWriteoff && t.id == Some(e.id) && e.id !in closes
    requires TerminalOk(e, closes[e.id := t], holdings)
    ensures TerminalsOk(terminals + [e], trades + [t], closes[e.id := t], holdings)
  {
    WriteoffIdsSnoc(trades, t);
    TerminalIdsSnoc(terminals, e);
    forall x | x in terminals + [e]
      ensures TerminalOk(x, closes[e.id := t], holdings)
    {
      assert x == e || TerminalOk(x, closes, holdings);
    }
    forall j | 0 <= j < |terminals|
      ensures terminals[j].id != e.id
    {
      assert TerminalOk(terminals[j], closes, holdings);
    }
  }

  lemma TerminalsIgnoreHolding(terminals: seq<Terminal>, trades: seq<Trade>, closes: TradeMap, holdings: seq<Holding>, h: Holding)
    requires TerminalsOk(terminals, trades, closes, holdings) && h.id !in closes
    ensures TerminalsOk(terminals, trades, closes, holdings + [h])
  {
    forall e | e in terminals
      ensures TerminalOk(e, closes, holdings + [h])
    {
      assert TerminalOk(e, closes, holdings);
      OwnSnoc(holdings, h, HoldingId, e.id);
    }
  }

  // ----- the state in the middle of a session -----

  ghost predicate ActionsOk(env: Env, actions: seq<Action>) {
    forall a :: a in actions ==> SoundAction(a) && Evidenced(env.Transitions(), a)
  }

  ghost predicate TradesOk(env: Env, trades: seq<Trade>) {
    IdsOk(trades) && OpensFirst(trades) && forall t :: t in trades ==> TradeSound(env, t)
  }

  /** Everything that holds at every step of session i, with the exits of the codes in due and
      the marks of the codes in unmarked still to come. */
  ghost predicate Mid(env: Env, st: State, i: nat, due: set<Code>, unmarked: set<Code>) {
    && i < |env.calendar|
    && BookOk(env, st.book, i, due)
    && Undue(env, st.book, env.calendar[i])
    && Lives(env, st.book.at, Openings(st.trades), Closings(st.trades), st.holdings, st.actions, i, unmarked, env.calendar[i])
    && TradesOk(env, st.trades)
    && Flow(env, st, env.calendar[i])
    && CountersOk(st.counters, st.book.at, st.trades, st.holdings, Openings(st.trades))
    && ActionsOk(env, st.actions)
    && TerminalsOk(st.terminals, st.trades, Closings(st.trades), st.holdings)
  }

  lemma TradesSnoc(env: Env, trades: seq<Trade>, t: Trade)
    requires TradesOk(env, trades) && TradeSound(env, t)
    requires IsOpening(t) ==> t.id.Some? && t.id.value !in Openings(trades)
    requires IsClosing(t) ==> t.id.Some? && t.id.value !in Closings(trades) && t.id.value in Openings(trades)
    ensures TradesOk(env, trades + [t])
  {
    hide TradeSound, IdsOk, OpensFirst;
    IdsSnoc(trades, t);
    OpensFirstSnoc(trades, t);
  }

  lemma BookIds(env: Env, book: Book, i: int, due: set<Code>)
    requires BookOk(env, book, i, due)
    ensures DistinctPositions(book.at) && DistinctIds(book)
    ensures forall c :: c in book.at ==> book.at[c].code == c && book.at[c].shares > 0.0
  {}

  lemma PositionOk(env: Env, book: Book, i: int, due: set<Code>, code: Code)
    requires BookOk(env, book, i, due) && code in book.at
    ensures Sound(env, book.at[code], code, i) && Timely(env, book.at[code], if code in due then i - 1 else i)
  {}

  lemma LivePosition(env: Env, at: Positions, opens: TradeMap, closes: TradeMap, holdings: seq<Holding>, actions: seq<Action>,
      i: int, unmarked: set<Code>, bound: Date, code: Code)
    requires Lives(env, at, opens, closes, holdings, actions, i, unmarked, bound) && code in at
    ensures at[code].id in opens && at[code].id !in closes
    ensures LiveIn(env, at[code], opens, closes, holdings, actions, MarkedThrough(code, unmarked, i), bound)
  {}

  // ----- exits -----

  lemma DelayKeepsMid(env: Env, st: State, i: nat, due: set<Code>, unmarked: set<Code>, code: Code)
    requires StrictlyIncreasing(env.calendar)
    requires Mid(env, st, i, due, unmarked) && code in due
    requires code in st.book.at && IsDelayed(env, st, i, code, Delay(env, st, i, code))
    ensures Mid(env, Delay(env, st, i, code), i, due - {code}, unmarked)
  {
    hide BookOk, Lives, TradesOk, Flow, CountersOk, TerminalsOk, Sound, Timely, Openings, Closings, Dict.Valid;
    var p, q, after := st.book.at[code], DelayedOnce(env, st.book.at[code]), Delay(env, st, i, code);
    var t := RejectedTrade(env.calendar[i], code, Sell, NotSellable, Some(q.id), q.delayed, q.breached);
    PositionOk(env, st.book, i, due, code);
    BookIds(env, st.book, i, due);
    LivePosition(env, st.book.at, Openings(st.trades), Closings(st.trades), st.holdings, st.actions, i, unmarked, env.calendar[i], code);
    DelayedIsTimely(env, p, code, i);
    PutKeepsBook(env, st.book, i, due, code, q);
    LogSnoc(st.trades, t);
    DelayKeepsLives(env, st.book.at, Openings(st.trades), Closings(st.trades), st.holdings, st.actions, i, unmarked, env.calendar[i], code, q);
    TradesSnoc(env, st.trades, t);
    FlowSnoc(env, st, after, env.calendar[i], t);
    DelayFlag(env, p, i);
    DelayKeepsCounters(env, st, i, code, Openings(st.trades));
    TerminalsKept(st.terminals, st.trades, Closings(st.trades), st.holdings, t);
  }

  lemma DelayFlag(env: Env, p: PositionState, i: int)
    requires Timely(env, p, i - 1)
    ensures p.breached <==> p.delayed > env.maxDelay
  {}

  /** Both kinds of closure: the row carries the position's own code, shares and flags. */
  lemma ClosureKeepsMid(env: Env, st: State, after: State, i: nat, due: set<Code>, unmarked: set<Code>, code: Code, t: Trade)
    requires StrictlyIncreasing(env.calendar) && env.holdingPeriod >= 1
    requires Mid(env, st, i, due, unmarked) && code in due && code in unmarked
    requires code in st.book.at && st.book.at[code].target <= env.calendar[i]
    requires IsClosing(t) && t.id == Some(st.book.at[code].id) && t.date == env.calendar[i] && t.code == code
    requires t.shares == st.book.at[code].shares && t.delayed == st.book.at[code].delayed && t.breached == st.book.at[code].breached
    requires TradeSound(env, t)
    requires after.book == st.book.Delete(code) && after.trades == st.trades + [t]
    requires after.cash == st.cash + CashFlow(t) && after.dayCost == st.dayCost + t.cost
    requires after.dayValue == st.dayValue && after.holdings == st.holdings && after.daily == st.daily
    requires after.previousEquity == st.previousEquity && after.actions == st.actions
    requires after.counters == Resolved(st.counters, st.book.at[code]).(writeoffs := st.counters.writeoffs + if IsWriteoff(t) then 1 else 0)
    requires TerminalsOk(after.terminals, after.trades, Closings(after.trades), after.holdings)
    ensures Mid(env, after, i, due - {code}, unmarked)
  {
    hide BookOk, Lives, TradesOk, Flow, CountersOk, TerminalsOk, Sound, Timely, Openings, Closings, Dict.Valid, TradeSound, CashFlow;
    var p := st.book.at[code];
    PositionOk(env, st.book, i, due, code);
    BookIds(env, st.book, i, due);
    LivePosition(env, st.book.at, Openings(st.trades), Closings(st.trades), st.holdings, st.actions, i, unmarked, env.calendar[i], code);
    DeleteKeepsBook(env, st.book, i, due, code);
    LogSnoc(st.trades, t);
    CloseKeepsLives(env, st.book.at, Openings(st.trades), Closings(st.trades), st.holdings, st.actions, i, unmarked, code, t);
    TradesSnoc(env, st.trades, t);
    FlowSnoc(env, st, after, env.calendar[i], t);
    CloseKeepsCounters(st, code, t, Openings(st.trades));
  }

  lemma SaleKeepsMid(env: Env, st: State, i: nat, due: set<Code>, unmarked: set<Code>, code: Code, open: real, costs: TradeCosts)
    requires StrictlyIncreasing(env.calendar) && env.holdingPeriod >= 1 && ValidPolicy(env.costs)
    requires Mid(env, st, i, due, unmarked) && code in due && code in unmarked
    requires code in st.book.at && IsSold(env, st, i, code, open, costs, SellAt(env, st, i, code, open, costs))
    ensures Mid(env, SellAt(env, st, i, code, open, costs), i, due - {code}, unmarked)
  {
    hide BookOk, Lives, TradesOk, Flow, CountersOk, TerminalsOk, Sound, Timely, Openings, Closings, Dict.Valid, TradeSound, Calculate, Undue, ActionsOk;
    var p, after := st.book.at[code], SellAt(env, st, i, code, open, costs);
    var t := FilledTrade(env.calendar[i], p, Sell, open, Times(p.shares, open), costs, Some(i - p.entryIndex));
    PositionOk(env, st.book, i, due, code);
    BookIds(env, st.book, i, due);
    LivePosition(env, st.book.at, Openings(st.trades), Closings(st.trades), st.holdings, st.actions, i, unmarked, env.calendar[i], code);
    SaleIsSound(env, p, code, i, open, costs);
    LogSnoc(st.trades, t);
    TerminalsKept(st.terminals, st.trades, Closings(st.trades), st.holdings, t);
    ClosureKeepsMid(env, st, after, i, due, unmarked, code, t);
  }

  /** The pre-write-off mark is the last published mark of the position. */
  lemma WriteoffRecord(env: Env, p: PositionState, opens: TradeMap, closes: TradeMap, holdings: seq<Holding>, actions: seq<Action>,
      c: Code, i: nat, t: Trade, e: Terminal)
    requires StrictlyIncreasing(env.calendar) && i < |env.calendar| && env.holdingPeriod >= 1
    requires LiveIn(env, p, opens, closes, holdings, actions, i - 1, env.calendar[i])
    requires Sound(env, p, c, i) && p.target <= env.calendar[i]
    requires t == TerminalTrade(env.calendar[i], p, i - p.entryIndex)
    requires e == Terminal(env.calendar[i], p.id, c, p.entryDate, p.target, i - p.entryIndex, p.lastClose, p.lastPriceDate, Mark(p), 0.0)
    ensures TerminalOk(e, closes[e.id := t], holdings)
  {
    hide Replayed;
    TargetReached(env, p, c, i);
    var rows := Own(holdings, HoldingId, p.id);
    assert RowFits(env, p, rows[|rows| - 1], p.entryIndex + |rows| - 1);
  }

  lemma WriteoffKeepsMid(env: Env, st: State, i: nat, due: set<Code>, unmarked: set<Code>, code: Code)
    requires StrictlyIncreasing(env.calendar) && env.holdingPeriod >= 1
    requires Mid(env, st, i, due, unmarked) && code in due && code in unmarked
    requires code in st.book.at && IsWrittenOff(env, st, i, code, WriteOff(env, st, i, code))
    ensures Mid(env, WriteOff(env, st, i, code), i, due - {code}, unmarked)
  {
    hide BookOk, Lives, TradesOk, Flow, CountersOk, TerminalsOk, Sound, Timely, Openings, Closings, Dict.Valid, TradeSound, LiveIn, TerminalOk, Undue, ActionsOk;
    var p, after := st.book.at[code], WriteOff(env, st, i, code);
    var t := TerminalTrade(env.calendar[i], p, i - p.entryIndex);
    var e := after.terminals[|st.terminals|];
    PositionOk(env, st.book, i, due, code);
    BookIds(env, st.book, i, due);
    LivePosition(env, st.book.at, Openings(st.trades), Closings(st.trades), st.holdings, st.actions, i, unmarked, env.calendar[i], code);
    WriteoffIsSound(env, p, code, i);
    LogSnoc(st.trades, t);
    WriteoffRecord(env, p, Openings(st.trades), Closings(st.trades), st.holdings, st.actions, code, i, t, e);
    TerminalsGrow(st.terminals, st.trades, Closings(st.trades), st.holdings, t, e);
    ClosureKeepsMid(env, st, after, i, due, unmarked, code, t);
  }

  /** What the exits of a session leave alone. */
  ghost predicate SameEntrySide(before: State, after: State) {
    && after.intents == before.intents && after.daily == before.daily && after.dayValue == before.dayValue
    && Openings(after.trades) == Openings(before.trades)
    && OpeningIds(after.trades) == OpeningIds(before.trades)
  }

  lemma SellStepKeepsMid(env: Env, st: State, i: nat, due: set<Code>, unmarked: set<Code>, code: Code)
    requires Governed(env)
    requires Mid(env, st, i, due, unmarked) && code in due && due <= unmarked
    requires SellStep(env, st, i, code).Ok?
    ensures Mid(env, SellStep(env, st, i, code).value, i, due - {code}, unmarked)
    ensures SameEntrySide(st, SellStep(env, st, i, code).value)
  {
    hide SellStep, BookOk, Lives, TradesOk, Flow, CountersOk, TerminalsOk, Openings, Closings, OpeningIds, Calculate, Undue, ActionsOk;
    var open, costs := SellStepCases(env, st, i, code);
    var after := SellStep(env, st, i, code).value;
    if Waits(env, st, i, code, after) {
      SellStepKeepsBook(env, st, i, due, code);
    } else if IsDelayed(env, st, i, code, after) {
      DelayKeepsMid(env, st, i, due, unmarked, code);
    } else if IsWrittenOff(env, st, i, code, after) {
      WriteoffKeepsMid(env, st, i, due, unmarked, code);
    } else {
      SaleKeepsMid(env, st, i, due, unmarked, code, open, costs);
    }
    if after.trades != st.trades {
      LogSnoc(st.trades, after.trades[|st.trades|]);
      assert OpeningIds(st.trades) + [] == OpeningIds(st.trades);
    }
  }

  lemma {:induction false} ExitsKeepMid(env: Env, st: State, i: nat, codes: seq<Code>, k: nat)
    requires Governed(env) && i < |env.calendar| && k <= |codes| && NoDuplicates(codes)
    requires Mid(env, st, i, Elements(codes), Elements(codes))
    requires SellUpTo(env, st, i, codes, k).Ok?
    ensures Mid(env, SellUpTo(env, st, i, codes, k).value, i, Elements(codes[k..]), Elements(codes))
    ensures SameEntrySide(st, SellUpTo(env, st, i, codes, k).value)
  {
    hide Mid, SellStep, Governed;
    if k > 0 {
      ExitsKeepMid(env, st, i, codes, k - 1);
      assert codes[k - 1..] == [codes[k - 1]] + codes[k..];
      assert codes[k - 1] !in codes[k..];
      SellStepKeepsMid(env, SellUpTo(env, st, i, codes, k - 1).value, i, Elements(codes[k - 1..]), Elements(codes), codes[k - 1]);
      assert Elements(codes[k - 1..]) - {codes[k - 1]} == Elements(codes[k..]);
    } else {
      assert codes[0..] == codes;
    }
  }
}
