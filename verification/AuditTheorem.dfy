/** The central result: every strict run that completes is accepted by the independent auditor,
    and the simulator's own closing checks reject a run exactly for a fill that came after the
    renaming of its code. */
module AuditTheorem {
  import opened Basics
  import opened Costs
  import opened Ledgers
  import opened CorporateActions
  import opened Simulation
  import opened Auditor
  import opened History
  import opened BookInvariant
  import opened LifeInvariant
  import opened Marks
  import opened TradeInvariant
  import opened MoneyInvariant
  import opened CounterInvariant
  import opened IntentInvariant
  import opened SessionInvariant
  import opened Lifecycle
  import opened Runs

  /** No fill bought a code on or after the day it was renamed. */
  ghost predicate FillsPrecedeTransitions(env: Env, trades: seq<Trade>) {
    forall t :: t in trades && IsOpening(t) ==> !RenamedAtEntry(env.Transitions(), t)
  }

  /** A fill bought a code that had been renamed on an earlier day. */
  ghost predicate LateFill(env: Env, trades: seq<Trade>) {
    exists t :: t in trades && IsOpening(t) && RenamedBeforeEntry(env.Transitions(), t)
  }

  // ----- the lifecycle replay -----

  lemma OnceEachOf(env: Env, trades: seq<Trade>)
    requires TradesOk(env, trades)
    ensures OnceEach(trades)
  {
    hide NoDuplicates, CostsReconcile, ExitSound;
  }

  lemma OpeningIsSound(env: Env, trades: seq<Trade>, q: PositionId)
    requires TradesOk(env, trades) && q in Openings(trades)
    ensures var t := Openings(trades)[q];
            t in trades && IsOpening(t) && t.id == Some(q) && t.shares >= 0.0 && t.cost >= 0.0
  {
    hide Openings, CostsReconcile, ExitSound, IdsOk;
    OpeningIsRow(trades, q);
    assert TradeSound(env, Openings(trades)[q]);
  }

  lemma ClosingIsSound(env: Env, trades: seq<Trade>, q: PositionId)
    requires TradesOk(env, trades) && q in Closings(trades)
    ensures var t := Closings(trades)[q];
            t in trades && IsClosing(t) && t.id == Some(q) && t.shares >= 0.0 && t.cost >= 0.0
  {
    hide Closings, CostsReconcile, ExitSound, IdsOk;
    ClosingIsRow(trades, q);
    assert TradeSound(env, Closings(trades)[q]);
  }

  /** What the ledgers say of the order of one life. */
  ghost predicate LifeOrdered(env: Env, trades: seq<Trade>, acts: seq<Action>, q: PositionId, bound: Date) {
    && q in Openings(trades)
    && var buy := Openings(trades)[q];
       if q in Closings(trades) then
         var close := Closings(trades)[q];
         && buy.date <= close.date && Ordered(acts, close.date) && close.shares == HeldShares(buy, acts)
         && (ActedEarly(buy, acts) <==> RenamedBeforeEntry(env.Transitions(), buy))
       else
         && buy.date <= bound && Ordered(acts, bound)
         && (ActedEarly(buy, acts) <==> RenamedBeforeEntry(env.Transitions(), buy) && buy.date < bound)
  }

  lemma LifeIsOrdered(env: Env, st: State, i: nat, q: PositionId)
    requires Ready(env, st, i) && q in Openings(st.trades)
    ensures LifeOrdered(env, st.trades, Own(st.actions, ActionId, q), q, Before(env, i))
    ensures q in Closings(st.trades) || IsHeld(st.book.at, q)
  {
    hide BookOk, Undue, BooksSettled, CountersOk, ActionsOk, TerminalsOk, IntentsOk, DaysRun, TradesOk, Openings, Closings, LiveRows,
         HistoryAccepted, HoldingDates, Between, Ordered, RenamedBeforeEntry, RenamedAtEntry, ActedEarly, HeldShares;
    var opens, closes := Openings(st.trades), Closings(st.trades);
    if q in closes {
      assert ClosedIn(env, q, opens, closes, st.holdings, st.actions);
    } else {
      var c :| c in st.book.at && st.book.at[c].id == q;
      assert LiveIn(env, st.book.at[c], opens, closes, st.holdings, st.actions, i - 1, Before(env, i));
      LiveIsOrdered(env, st.book.at[c], opens[q], Own(st.holdings, HoldingId, q), Own(st.actions, ActionId, q), i - 1, Before(env, i));
    }
  }

  lemma ClosedWereOpened(env: Env, st: State, i: nat, q: PositionId)
    requires Ready(env, st, i) && q in Closings(st.trades)
    ensures q in Openings(st.trades)
  {
    hide BookOk, Undue, BooksSettled, CountersOk, ActionsOk, TerminalsOk, IntentsOk, DaysRun, TradesOk, Openings, Closings, ClosedRows, LiveIn;
    assert ClosedIn(env, q, Openings(st.trades), Closings(st.trades), st.holdings, st.actions);
  }

  lemma ActionsAreOfOpened(env: Env, st: State, i: nat)
    requires Ready(env, st, i)
    ensures i <= |env.calendar| && env.calendar != []
    ensures TradesOk(env, st.trades) && forall a :: a in st.actions ==> a.id in Openings(st.trades)
  {
    hide BookOk, Undue, BooksSettled, CountersOk, ActionsOk, TerminalsOk, IntentsOk, DaysRun, TradesOk, Openings, Closings, ClosedIn, LiveIn;
  }

  /** The invariant between sessions makes the log orderly. */
  lemma ReadyIsOrderly(env: Env, st: State, i: nat)
    requires Ready(env, st, i)
    ensures Orderly(st.trades, st.actions, Before(env, i))
  {
    hide Ready, TradesOk, Openings, Closings, Ordered, HeldShares, ActedEarly, RenamedBeforeEntry, OnceEach, IsHeld;
    ActionsAreOfOpened(env, st, i);
    var bound := Before(env, i);
    OnceEachOf(env, st.trades);
    forall q | q in Openings(st.trades)
      ensures OrderlyLife(st.trades, st.actions, q, bound)
    {
      OpeningIsSound(env, st.trades, q);
      LifeIsOrdered(env, st, i, q);
      if q in Closings(st.trades) {
        ClosingIsSound(env, st.trades, q);
      }
    }
    forall q | q in Closings(st.trades)
      ensures q in Openings(st.trades)
    {
      ClosedWereOpened(env, st, i, q);
    }
  }

  lemma HeldAreLive(env: Env, st: State, i: nat)
    requires Ready(env, st, i)
    ensures forall q :: IsHeld(st.book.at, q) ==> q in Openings(st.trades) && q !in Closings(st.trades)
  {
    hide BookOk, Undue, BooksSettled, CountersOk, ActionsOk, TerminalsOk, IntentsOk, DaysRun, Openings, Closings, TradesOk, LiveRows, ClosedIn;
    forall q | IsHeld(st.book.at, q)
      ensures q in Openings(st.trades) && q !in Closings(st.trades)
    {
      var c :| c in st.book.at && st.book.at[c].id == q;
      assert LiveIn(env, st.book.at[c], Openings(st.trades), Closings(st.trades), st.holdings, st.actions, i - 1, Before(env, i));
    }
  }

  /** A position is closed after the day it was bought. */
  lemma ClosedLater(env: Env, st: State, i: nat, q: PositionId)
    requires Governed(env) && Ready(env, st, i) && q in Closings(st.trades)
    ensures q in Openings(st.trades) && Openings(st.trades)[q].date < Closings(st.trades)[q].date <= Before(env, i)
  {
    hide Ready, Openings, Closings, TradesOk, HoldingDates, Between, OnDay;
    ClosedSpan(env, st, i, q);
    var buy, close := Openings(st.trades)[q], Closings(st.trades)[q];
    BetweenIs(env.calendar, buy.date, close.date);
    var rows := Own(st.holdings, HoldingId, q);
    assert HoldingDates(rows)[0] in Between(env.calendar, buy.date, close.date);
    TradesByNow(env, st, i, close);
  }

  lemma ClosedSpan(env: Env, st: State, i: nat, q: PositionId)
    requires Ready(env, st, i) && q in Closings(st.trades)
    ensures q in Openings(st.trades) && Closings(st.trades)[q] in st.trades
    ensures var rows := Own(st.holdings, HoldingId, q);
            rows != [] && |HoldingDates(rows)| == |rows|
            && HoldingDates(rows) == Between(env.calendar, Openings(st.trades)[q].date, Closings(st.trades)[q].date)
  {
    hide BookOk, Undue, BooksSettled, CountersOk, ActionsOk, TerminalsOk, IntentsOk, DaysRun, Openings, Closings, TradesOk, LiveIn,
         HistoryAccepted, Between, Ordered, ActedEarly, HeldShares, RenamedAtEntry, RenamedBeforeEntry;
    assert ClosedIn(env, q, Openings(st.trades), Closings(st.trades), st.holdings, st.actions);
    ClosingIsRow(st.trades, q);
  }

  lemma TradesByNow(env: Env, st: State, i: nat, t: Trade)
    requires StrictlyIncreasing(env.calendar) && Ready(env, st, i) && t in st.trades
    ensures t.date <= Before(env, i)
  {
    hide BookOk, Undue, Lives, CountersOk, ActionsOk, TerminalsOk, IntentsOk, TradesOk, Openings, Closings, DayExact, HoldingExact;
    assert OnDay(st.daily, t.date);
  }

  /** An action precedes the buy of its position exactly if the code had been renamed before that
      day, unless the buy is so recent that no session has acted on it. */
  lemma PrematureIff(env: Env, st: State, i: nat, q: PositionId)
    requires Governed(env) && Ready(env, st, i)
    ensures Premature(st.trades, st.actions, q) <==>
            q in Openings(st.trades) && Openings(st.trades)[q].date < Before(env, i)
            && RenamedBeforeEntry(env.Transitions(), Openings(st.trades)[q])
  {
    hide Ready, Governed, Openings, Closings, Ordered, HeldShares, ActedEarly, RenamedBeforeEntry, IsHeld;
    if q in Openings(st.trades) {
      LifeIsOrdered(env, st, i, q);
      if q in Closings(st.trades) {
        ClosedLater(env, st, i, q);
      }
    }
  }

  /** The sorted replay accepts the log, although the session works in another order, and leaves
      open exactly the positions still held, if and only if no fill before the last session
      bought a code that had been renamed on an earlier day. */
  lemma LifecyclesHold(env: Env, st: State, i: nat)
    requires Governed(env) && Ready(env, st, i)
    ensures LifecyclesReconcile(st.trades, HeldIds(st.book), st.actions) <==>
            !exists t :: t in st.trades && IsOpening(t) && t.date < Before(env, i) && RenamedBeforeEntry(env.Transitions(), t)
  {
    hide Ready, Orderly, Openings, Closings, LifecyclesReconcile, Governed, Premature, RenamedBeforeEntry, TradesOk;
    ReadyIsOrderly(env, st, i);
    HeldIdsAreOpen(env, st, i);
    ActionsAreOfOpened(env, st, i);
    OrderlyReconciles(st.trades, st.actions, Before(env, i), HeldIds(st.book));
    forall q
      ensures Premature(st.trades, st.actions, q) <==>
              q in Openings(st.trades) && Openings(st.trades)[q].date < Before(env, i)
              && RenamedBeforeEntry(env.Transitions(), Openings(st.trades)[q])
    {
      PrematureIff(env, st, i, q);
    }
    forall q | q in Openings(st.trades)
      ensures Openings(st.trades)[q] in st.trades && IsOpening(Openings(st.trades)[q])
    {
      OpeningIsRow(st.trades, q);
    }
    forall t | t in st.trades && IsOpening(t)
      ensures exists q :: q in Openings(st.trades) && Openings(st.trades)[q] == t
    {
      OpeningIsListed(env, st.trades, t);
    }
  }

  lemma OpeningIsListed(env: Env, trades: seq<Trade>, t: Trade)
    requires TradesOk(env, trades) && t in trades && IsOpening(t)
    ensures exists q :: q in Openings(trades) && Openings(trades)[q] == t
  {
    hide Openings, Closings, TradeSound;
    assert t.id.Some? && Openings(trades)[t.id.value] == t;
  }

  lemma HeldIdsAreOpen(env: Env, st: State, i: nat)
    requires Ready(env, st, i)
    ensures forall x :: x in HeldIds(st.book) <==> x.Some? && x.value in Openings(st.trades) && x.value !in Closings(st.trades)
  {
    hide Ready, Openings, Closings;
    HeldAreLive(env, st, i);
    forall x
      ensures x in HeldIds(st.book) <==> x.Some? && x.value in Openings(st.trades) && x.value !in Closings(st.trades)
    {
      if x in HeldIds(st.book) {
        assert IsHeld(st.book.at, x.value);
      } else if x.Some? && x.value in Openings(st.trades) {
        LifeIsOrdered(env, st, i, x.value);
      }
    }
  }

  /** Nothing is bought so late that no session could act on it any more. */
  lemma FillsHaveSuccessors(env: Env, st: State, i: nat, t: Trade)
    requires Governed(env) && Ready(env, st, i) && (i == |env.calendar| || st.book.at == map[])
    requires t in st.trades && IsOpening(t)
    ensures t.date < Before(env, i)
  {
    hide Ready, Openings, Closings, TradesOk;
    ActionsAreOfOpened(env, st, i);
    OpeningIsListed(env, st.trades, t);
    var q :| q in Openings(st.trades) && Openings(st.trades)[q] == t;
    LifeIsOrdered(env, st, i, q);
    if q in Closings(st.trades) {
      ClosedLater(env, st, i, q);
    } else {
      var c :| c in st.book.at && st.book.at[c].id == q;
      OpenedAtEntry(env, st, i, c);
      HeldWasBoughtEarlier(env, st, i, c);
    }
  }

  lemma OpenedAtEntry(env: Env, st: State, i: nat, c: Code)
    requires Ready(env, st, i) && c in st.book.at
    ensures var p := st.book.at[c]; p.id in Openings(st.trades) && Openings(st.trades)[p.id].date == p.entryDate
  {
    hide BookOk, Undue, BooksSettled, CountersOk, ActionsOk, TerminalsOk, IntentsOk, DaysRun, TradesOk, Openings, Closings, ClosedIn,
         Overtaken, Followed, Ordered, HeldShares, RenamedAtEntry;
    assert LiveIn(env, st.book.at[c], Openings(st.trades), Closings(st.trades), st.holdings, st.actions, i - 1, Before(env, i));
  }

  lemma HeldWasBoughtEarlier(env: Env, st: State, i: nat, c: Code)
    requires Governed(env) && Ready(env, st, i) && i == |env.calendar| && c in st.book.at
    ensures st.book.at[c].entryDate < Before(env, i)
  {
    hide Lives, Undue, BooksSettled, CountersOk, ActionsOk, TerminalsOk, IntentsOk, DaysRun, TradesOk, Openings, Closings, Timely;
    assert Sound(env, st.book.at[c], c, i - 1);
  }

  lemma ActionLedgerHolds(env: Env, st: State, i: nat)
    requires Ready(env, st, i)
    ensures ActionLedgerReconciles(st.actions)
  {
    hide Openings, Closings, BookOk, Undue, BooksSettled, CountersOk, TerminalsOk, IntentsOk, DaysRun, TradesOk, Lives, Evidenced;
    forall k | 0 <= k < |st.actions|
      ensures IsClose(st.actions[k].before, st.actions[k].after, MARK_TOLERANCE, MARK_TOLERANCE) && st.actions[k].cashDelta == 0.0
    {
      assert SoundAction(st.actions[k]);
      EqualIsClose(st.actions[k].before, MARK_TOLERANCE, MARK_TOLERANCE);
    }
  }

  /** After the last session the replay accepts the log exactly if there is no late fill. */
  lemma RunLifecycles(env: Env)
    requires Governed(env) && EntriesFollowSignals(env) && Sessions(env).Ok?
    ensures var st := Sessions(env).value;
            ActionLedgerReconciles(st.actions)
            && (LifecyclesReconcile(st.trades, HeldIds(st.book), st.actions) <==> !LateFill(env, st.trades))
  {
    hide Ready, Governed, EntriesFollowSignals, LifecyclesReconcile, ActionLedgerReconciles, RunUpTo, First, RenamedBeforeEntry;
    var m := RunIsReady(env, |env.calendar|);
    var st := Sessions(env).value;
    ActionLedgerHolds(env, st, m);
    LifecyclesHold(env, st, m);
    CalendarIsThere(env);
    forall t | t in st.trades && IsOpening(t)
      ensures t.date < Before(env, m)
    {
      FillsHaveSuccessors(env, st, m, t);
    }
  }

  /** A run that got through its sessions and did not end, strictly, with open positions. */
  ghost predicate Finished(env: Env) {
    && Refusal(env).None? && Sessions(env).Ok?
    && (env.strict ==> Sessions(env).value.book.at == map[])
  }

  /** The closing checks decide a finished run by one thing: it is published exactly if no fill
      bought a code that had been renamed on an earlier day, and is otherwise refused for its
      lifecycles. The check of the action ledger never fires. */
  lemma ClosingChecksDecide(env: Env)
    requires Governed(env) && EntriesFollowSignals(env)
    ensures Simulate(env) != Err(LedgerInvalid)
    ensures Simulate(env) == Err(LifecycleInvalid) <==> Finished(env) && LateFill(env, Sessions(env).value.trades)
    ensures Simulate(env).Ok? <==> Finished(env) && !LateFill(env, Sessions(env).value.trades)
  {
    hide Governed, EntriesFollowSignals, LifecyclesReconcile, ActionLedgerReconciles, RunUpTo, First, LateFill;
    if Sessions(env).Ok? {
      RunLifecycles(env);
    } else {
      SessionsNeverCheck(env, |env.calendar|);
    }
  }

  /** The same as a guard on the inputs: when entries precede their renamings the closing checks
      never fire. */
  lemma ClosingChecksPass(env: Env)
    requires Governed(env) && EntriesFollowSignals(env)
    requires forall d, c :: d in env.entries && c in env.entries[d] && c in env.Transitions() ==> d <= env.Transitions()[c].effective
    ensures Simulate(env) != Err(LedgerInvalid) && Simulate(env) != Err(LifecycleInvalid)
  {
    hide RunUpTo, First, Governed, EntriesFollowSignals, Simulate;
    ClosingChecksDecide(env);
    if Finished(env) {
      RunFillsSelected(env, |env.calendar|);
    }
  }

  // ----- fills are selected codes -----

  ghost predicate FillsSelected(env: Env, trades: seq<Trade>) {
    forall t :: t in trades && IsOpening(t) ==> t.date in env.entries && t.code in env.entries[t.date]
  }

  lemma SaleIsNoFill(env: Env, st: State, i: nat, code: Code)
    requires i < |env.calendar| && SellStep(env, st, i, code).Ok? && FillsSelected(env, st.trades)
    ensures FillsSelected(env, SellStep(env, st, i, code).value.trades)
  {
    hide Calculate, Dict.Put, Dict.Delete;
  }

  lemma {:induction false} SellsAreNotFills(env: Env, st: State, i: nat, codes: seq<Code>, k: nat)
    requires i < |env.calendar| && k <= |codes| && SellUpTo(env, st, i, codes, k).Ok? && FillsSelected(env, st.trades)
    ensures FillsSelected(env, SellUpTo(env, st, i, codes, k).value.trades)
  {
    hide SellStep;
    if k > 0 {
      SellsAreNotFills(env, st, i, codes, k - 1);
      SaleIsNoFill(env, SellUpTo(env, st, i, codes, k - 1).value, i, codes[k - 1]);
    }
  }

  lemma {:induction false} RejectionsAreNotFills(env: Env, st: State, date: Date, codes: seq<Code>, k: nat)
    requires k <= |codes| && FillsSelected(env, st.trades)
    ensures FillsSelected(env, RejectUpTo(env, st, date, codes, k).trades)
  {
    if k > 0 {
      RejectionsAreNotFills(env, st, date, codes, k - 1);
    }
  }

  /** One purchase adds at most the fill of its own code on its own date. */
  lemma BuyStepTrades(env: Env, st: State, i: nat, rates: Rates, allocation: real, code: Code)
    requires i < |env.calendar| && BuyStep(env, st, i, rates, allocation, code).Ok?
    ensures var trades := BuyStep(env, st, i, rates, allocation, code).value.trades;
            trades == st.trades
            || (|trades| == |st.trades| + 1 && trades[..|st.trades|] == st.trades
                && trades[|st.trades|].date == env.calendar[i] && trades[|st.trades|].code == code)
  {
    hide MaximumAffordable, Charge, Settled, TradeCosts.Total, Dict.Put;
  }

  lemma FillsSelectedSnoc(env: Env, trades: seq<Trade>, t: Trade)
    requires FillsSelected(env, trades) && t.code in env.Selected(t.date)
    ensures FillsSelected(env, trades + [t])
  {}

  lemma {:induction false} BuysAreSelected(env: Env, st: State, i: nat, rates: Rates, allocation: real, codes: seq<Code>, k: nat)
    requires i < |env.calendar| && k <= |codes| && BuyUpTo(env, st, i, rates, allocation, codes, k).Ok?
    requires FillsSelected(env, st.trades) && forall c :: c in codes ==> c in env.Selected(env.calendar[i])
    ensures FillsSelected(env, BuyUpTo(env, st, i, rates, allocation, codes, k).value.trades)
  {
    hide BuyStep, FillsSelected;
    if k > 0 {
      BuysAreSelected(env, st, i, rates, allocation, codes, k - 1);
      assert codes[k - 1] in codes;
      var before := BuyUpTo(env, st, i, rates, allocation, codes, k - 1).value;
      var after := BuyUpTo(env, st, i, rates, allocation, codes, k).value;
      BuyStepTrades(env, before, i, rates, allocation, codes[k - 1]);
      if after.trades != before.trades {
        var t := after.trades[|before.trades|];
        assert after.trades == before.trades + [t];
        FillsSelectedSnoc(env, before.trades, t);
      }
    }
  }

  lemma {:induction false} ExecutableIsSelected(env: Env, date: Date, codes: seq<Code>, held: map<Code, PositionState>)
    ensures forall c :: c in Candidates(codes, held) ==> c in codes
    ensures forall c :: c in Executable(env, date, codes) ==> c in codes
  {
    if codes != [] {
      assert codes == codes[..|codes| - 1] + [codes[|codes| - 1]];
      ExecutableIsSelected(env, date, codes[..|codes| - 1], held);
    }
  }

  lemma EntryIsSelected(env: Env, st: State, i: nat)
    requires i < |env.calendar| && FillsSelected(env, st.trades) && Enter(env, st, i).Ok?
    ensures FillsSelected(env, Enter(env, st, i).value.trades)
  {
    hide RejectUpTo, BuyUpTo, Resolve, SlipsUpTo, Candidates, Executable, FillsSelected;
    var date := env.calendar[i];
    var candidates := Candidates(env.Selected(date), st.book.at);
    var noted := Noted(env, st, i);
    var ready := RejectUpTo(env, noted, date, candidates, |candidates|);
    var codes := Executable(env, date, candidates);
    ExecutableIsSelected(env, date, env.Selected(date), st.book.at);
    ExecutableIsSelected(env, date, candidates, st.book.at);
    RejectionsAreNotFills(env, noted, date, candidates, |candidates|);
    if codes != [] && ready.cash > 0.0 {
      BuysAreSelected(env, ready, i, Resolve(env.costs, date, Buy).value, ready.cash / (|codes| as real), codes, |codes|);
    }
  }

  lemma {:induction false} MarksAddNoTrades(env: Env, st: State, date: Date, codes: seq<Code>, k: nat)
    requires k <= |codes| && MarkUpTo(env, st, date, codes, k).Ok?
    ensures MarkUpTo(env, st, date, codes, k).value.trades == st.trades
  {
    if k > 0 {
      MarksAddNoTrades(env, st, date, codes, k - 1);
    }
  }

  lemma SessionIsSelected(env: Env, st: State, i: nat)
    requires i < |env.calendar| && FillsSelected(env, st.trades) && Session(env, st, i).Ok?
    ensures FillsSelected(env, Session(env, st, i).value.trades)
  {
    hide ApplyEffective, SellUpTo, Enter, MarkUpTo, FillsSelected;
    var date := env.calendar[i];
    var acted := ActOn(env, Opened(st), date).value;
    SellsAreNotFills(env, acted, i, acted.book.order, |acted.book.order|);
    var sold := SellUpTo(env, acted, i, acted.book.order, |acted.book.order|).value;
    EntryIsSelected(env, sold, i);
    var recorded := Recorded(Enter(env, sold, i).value);
    MarksAddNoTrades(env, recorded, date, recorded.book.order, |recorded.book.order|);
  }

  lemma {:induction false} RunFillsSelected(env: Env, n: nat)
    requires First(env) <= n <= |env.calendar| && RunUpTo(env, n).Ok?
    ensures FillsSelected(env, RunUpTo(env, n).value.trades)
    decreases n
  {
    hide Session;
    if n > First(env) {
      RunFillsSelected(env, n - 1);
      if !RunUpTo(env, n - 1).value.stopped {
        SessionIsSelected(env, RunUpTo(env, n - 1).value, n - 1);
      }
    }
  }

  /** A guard on the selected signals, checkable before the run, that keeps every fill ahead of
      its renaming. */
  lemma FillsPrecede(env: Env, n: nat)
    requires EntriesPrecedeTransitions(env)
    requires First(env) <= n <= |env.calendar| && RunUpTo(env, n).Ok?
    ensures FillsPrecedeTransitions(env, RunUpTo(env, n).value.trades)
  {
    hide RunUpTo;
    RunFillsSelected(env, n);
  }

  // ----- runs cannot fail in a closing check -----

  predicate IsClosingFault(f: Failure) { f == LedgerInvalid || f == LifecycleInvalid }

  lemma {:induction false} SellsNeverCheck(env: Env, st: State, i: nat, codes: seq<Code>, k: nat)
    requires i < |env.calendar| && k <= |codes| && SellUpTo(env, st, i, codes, k).Err?
    ensures !IsClosingFault(SellUpTo(env, st, i, codes, k).error)
  {
    if k > 0 && SellUpTo(env, st, i, codes, k - 1).Err? {
      SellsNeverCheck(env, st, i, codes, k - 1);
    }
  }

  lemma {:induction false} BuysNeverCheck(env: Env, st: State, i: nat, rates: Rates, allocation: real, codes: seq<Code>, k: nat)
    requires i < |env.calendar| && k <= |codes| && BuyUpTo(env, st, i, rates, allocation, codes, k).Err?
    ensures !IsClosingFault(BuyUpTo(env, st, i, rates, allocation, codes, k).error)
  {
    hide MaximumAffordable, Charge;
    if k > 0 && BuyUpTo(env, st, i, rates, allocation, codes, k - 1).Err? {
      BuysNeverCheck(env, st, i, rates, allocation, codes, k - 1);
    }
  }

  lemma {:induction false} MarksNeverCheck(env: Env, st: State, date: Date, codes: seq<Code>, k: nat)
    requires k <= |codes| && MarkUpTo(env, st, date, codes, k).Err?
    ensures !IsClosingFault(MarkUpTo(env, st, date, codes, k).error)
  {
    if k > 0 && MarkUpTo(env, st, date, codes, k - 1).Err? {
      MarksNeverCheck(env, st, date, codes, k - 1);
    }
  }

  lemma SessionNeverChecks(env: Env, st: State, i: nat)
    requires i < |env.calendar| && Session(env, st, i).Err?
    ensures !IsClosingFault(Session(env, st, i).error)
  {
    hide SellUpTo, BuyUpTo, MarkUpTo, ApplyEffective, RejectUpTo, Resolve;
    var date := env.calendar[i];
    if ActOn(env, Opened(st), date).Ok? {
      var acted := ActOn(env, Opened(st), date).value;
      if SellUpTo(env, acted, i, acted.book.order, |acted.book.order|).Err? {
        SellsNeverCheck(env, acted, i, acted.book.order, |acted.book.order|);
      } else {
        var sold := SellUpTo(env, acted, i, acted.book.order, |acted.book.order|).value;
        if Enter(env, sold, i).Err? {
          EntryNeverChecks(env, sold, i);
        } else {
          var recorded := Recorded(Enter(env, sold, i).value);
          if MarkUpTo(env, recorded, date, recorded.book.order, |recorded.book.order|).Err? {
            MarksNeverCheck(env, recorded, date, recorded.book.order, |recorded.book.order|);
          }
        }
      }
    }
  }

  lemma EntryNeverChecks(env: Env, st: State, i: nat)
    requires i < |env.calendar| && Enter(env, st, i).Err?
    ensures !IsClosingFault(Enter(env, st, i).error)
  {
    hide BuyUpTo, RejectUpTo, Resolve;
    var date := env.calendar[i];
    var candidates := Candidates(env.Selected(date), st.book.at);
    var ready := RejectUpTo(env, Noted(env, st, i), date, candidates, |candidates|);
    var codes := Executable(env, date, candidates);
    if codes != [] && ready.cash > 0.0 && Resolve(env.costs, date, Buy).Ok? {
      BuysNeverCheck(env, ready, i, Resolve(env.costs, date, Buy).value, ready.cash / (|codes| as real), codes, |codes|);
    }
  }

  lemma {:induction false} SessionsNeverCheck(env: Env, n: nat)
    requires First(env) <= n <= |env.calendar| && RunUpTo(env, n).Err?
    ensures !IsClosingFault(RunUpTo(env, n).error)
    decreases n
  {
    hide Session;
    if RunUpTo(env, n - 1).Err? {
      SessionsNeverCheck(env, n - 1);
    } else {
      SessionNeverChecks(env, RunUpTo(env, n - 1).value, n - 1);
    }
  }

  // ----- holdings -----

  /** Two rows of a position appear among its own rows in the same order. */
  lemma {:induction false} OwnOrder(holdings: seq<Holding>, j: nat, k: nat, q: PositionId) returns (a: nat, b: nat)
    requires j < k < |holdings| && holdings[j].id == q && holdings[k].id == q
    ensures var own := Own(holdings, HoldingId, q);
            a < b < |own| && own[a] == holdings[j] && own[b] == holdings[k]
    decreases |holdings|
  {
    var front, last := holdings[..|holdings| - 1], holdings[|holdings| - 1];
    var own := Own(front, HoldingId, q);
    if k < |front| {
      a, b := OwnOrder(front, j, k, q);
    } else {
      OwnMember(front, HoldingId, q, front[j]);
      a :| 0 <= a < |own| && own[a] == front[j];
      b := |own|;
    }
  }

  /** Everything closed: each holding row lies strictly before the closure of its position. */
  ghost predicate AllClosed(env: Env, st: State, i: nat) {
    Ready(env, st, i) && st.book.at == map[]
  }

  lemma RowOfClosed(env: Env, st: State, i: nat, h: Holding)
    requires AllClosed(env, st, i) && h in st.holdings
    ensures h.id in Closings(st.trades) && h.id in Openings(st.trades)
    ensures HoldingDates(Own(st.holdings, HoldingId, h.id))
         == Between(env.calendar, Openings(st.trades)[h.id].date, Closings(st.trades)[h.id].date)
  {
    hide BookOk, Undue, BooksSettled, CountersOk, ActionsOk, TerminalsOk, IntentsOk, DaysRun, Openings, Closings, TradesOk, LiveIn,
         HistoryAccepted, HoldingDates, Between;
    assert ClosedIn(env, h.id, Openings(st.trades), Closings(st.trades), st.holdings, st.actions);
  }

  lemma HoldingsDistinct(env: Env, st: State, i: nat, j: nat, k: nat)
    requires StrictlyIncreasing(env.calendar) && AllClosed(env, st, i) && j < k < |st.holdings|
    ensures !SameHolding(st.holdings[j], st.holdings[k])
  {
    hide AllClosed, Openings, Closings, Between;
    if st.holdings[j].id == st.holdings[k].id {
      var q := st.holdings[j].id;
      RowOfClosed(env, st, i, st.holdings[j]);
      var rows := Own(st.holdings, HoldingId, q);
      var a, b := OwnOrder(st.holdings, j, k, q);
      BetweenIs(env.calendar, Openings(st.trades)[q].date, Closings(st.trades)[q].date);
      assert HoldingDates(rows)[a] < HoldingDates(rows)[b];
    }
  }

  lemma HoldingBeforeClosure(env: Env, st: State, i: nat, h: Holding)
    requires StrictlyIncreasing(env.calendar) && AllClosed(env, st, i) && h in st.holdings
    ensures h.id in Closings(st.trades) && h.date < Closings(st.trades)[h.id].date
  {
    hide AllClosed, Openings, Closings, Between;
    RowOfClosed(env, st, i, h);
    var rows := Own(st.holdings, HoldingId, h.id);
    OwnMember(st.holdings, HoldingId, h.id, h);
    var a :| 0 <= a < |rows| && rows[a] == h;
    BetweenIs(env.calendar, Openings(st.trades)[h.id].date, Closings(st.trades)[h.id].date);
    assert HoldingDates(rows)[a] in HoldingDates(rows);
  }

  // ----- marks -----

  lemma RowsAreMarked(env: Env, st: State, i: nat, q: PositionId)
    requires Ready(env, st, i) && Own(st.holdings, HoldingId, q) != []
    ensures q in Openings(st.trades)
    ensures var rows := Own(st.holdings, HoldingId, q);
            forall k :: 0 <= k < |rows| ==> RowMarked(env, Openings(st.trades)[q], rows, Own(st.actions, ActionId, q), k)
  {
    hide BookOk, Undue, BooksSettled, CountersOk, ActionsOk, TerminalsOk, IntentsOk, DaysRun, TradesOk, Openings, Closings, LiveRows, RowMarked,
         HistoryAccepted, HoldingDates, Between, Ordered, RenamedBeforeEntry, RenamedAtEntry, ActedEarly, HeldShares;
    var opens, closes, rows := Openings(st.trades), Closings(st.trades), Own(st.holdings, HoldingId, q);
    OwnMember(st.holdings, HoldingId, q, rows[0]);
    if q in closes {
      assert ClosedIn(env, q, opens, closes, st.holdings, st.actions);
    } else {
      var c :| c in st.book.at && st.book.at[c].id == q;
      assert LiveIn(env, st.book.at[c], opens, closes, st.holdings, st.actions, i - 1, Before(env, i));
      LiveRowsAreMarked(env, st.book.at[c], opens[q], rows, Own(st.actions, ActionId, q), i - 1, Before(env, i));
    }
  }

  /** Every holding row of every prefix of a run, in the order of its position: marked at the close of
      its day if the code has one, and otherwise at the close of the row before, adjusted by the ratios
      of the actions of the day, with its price date and one more stale day. */
  lemma HoldingsAreMarked(env: Env, n: nat, q: PositionId, k: nat)
    requires Governed(env) && EntriesFollowSignals(env)
    requires First(env) <= n <= |env.calendar| && RunUpTo(env, n).Ok? && k < |Own(RunUpTo(env, n).value.holdings, HoldingId, q)|
    ensures var st := RunUpTo(env, n).value;
            && q in Openings(st.trades)
            && RowMarked(env, Openings(st.trades)[q], Own(st.holdings, HoldingId, q), Own(st.actions, ActionId, q), k)
  {
    hide RunUpTo, Ready, RowMarked, Openings, EntriesFollowSignals, First, Governed;
    var m := RunIsReady(env, n);
    RowsAreMarked(env, RunUpTo(env, n).value, m, q);
  }

  /** In particular every row of a code with a positive close on its day is marked at that close. */
  lemma QuotedRowsAreCurrent(env: Env, n: nat, h: Holding)
    requires Governed(env) && EntriesFollowSignals(env)
    requires First(env) <= n <= |env.calendar| && RunUpTo(env, n).Ok? && h in RunUpTo(env, n).value.holdings
    ensures QuotedClose(env, h.date, h.code).Some? ==> MarkedAt(h, QuotedClose(env, h.date, h.code).value)
  {
    hide RunUpTo, Openings, EntriesFollowSignals, First, Governed, QuotedClose, MarkedAt, Own;
    var holdings := RunUpTo(env, n).value.holdings;
    OwnMember(holdings, HoldingId, h.id, h);
    var rows := Own(holdings, HoldingId, h.id);
    var k :| 0 <= k < |rows| && rows[k] == h;
    HoldingsAreMarked(env, n, h.id, k);
  }

  // ----- accounting evidence -----

  lemma DatesOf(env: Env, st: State, i: nat)
    requires StrictlyIncreasing(env.calendar) && Ready(env, st, i)
    ensures DailyDates(st.daily) == env.calendar[First(env)..i] && StrictlyIncreasing(DailyDates(st.daily))
    ensures forall d :: OnDay(st.daily, d) <==> d in DailyDates(st.daily)
    ensures |st.daily| == i - First(env)
  {
    hide BookOk, Undue, Lives, BooksSettled, CountersOk, ActionsOk, TerminalsOk, IntentsOk, TradesOk;
    forall d | OnDay(st.daily, d)
      ensures d in DailyDates(st.daily)
    {
      var j :| 0 <= j < |st.daily| && st.daily[j].date == d;
      assert DailyDates(st.daily)[j] == d;
    }
  }

  lemma LastIsLatest(dates: seq<Date>, d: Date)
    requires StrictlyIncreasing(dates) && d in dates
    ensures d <= dates[|dates| - 1]
  {}

  lemma HoldingsReconcile(env: Env, st: State, i: nat, k: nat)
    requires StrictlyIncreasing(env.calendar) && AllClosed(env, st, i) && k < |st.holdings|
    ensures var h, dates := st.holdings[k], DailyDates(st.daily);
            h.date in dates && HoldingReconciles(h) && h.date != dates[|dates| - 1]
  {
    hide BookOk, Undue, Lives, CountersOk, ActionsOk, TerminalsOk, IntentsOk, IdsOk, TradeSound, Openings, Closings, DayExact, DaysRun, OnDay;
    var h := st.holdings[k];
    DatesOf(env, st, i);
    HoldingBeforeClosure(env, st, i, h);
    ClosingIsRow(st.trades, h.id);
    var close := Closings(st.trades)[h.id];
    assert close in st.trades && OnDay(st.daily, close.date);
    LastIsLatest(DailyDates(st.daily), close.date);
    assert HoldingExact(h);
    EqualIsClose(h.marketValue.value, CLOSE_RTOL, CLOSE_ATOL);
  }

  lemma TerminalsReconcile(env: Env, st: State, i: nat)
    requires Ready(env, st, i)
    ensures WriteoffIds(st.trades) == TerminalIds(st.terminals)
    ensures forall j, k :: 0 <= j < k < |st.terminals| ==> st.terminals[j].id != st.terminals[k].id
    ensures forall k :: 0 <= k < |st.terminals| ==> Agrees(st.terminals[k].recovery, 0.0)
  {
    hide BookOk, Undue, Lives, BooksSettled, CountersOk, ActionsOk, IntentsOk, DaysRun, TradesOk, Closings, Openings;
    forall k | 0 <= k < |st.terminals|
      ensures Agrees(st.terminals[k].recovery, 0.0)
    {
      assert TerminalOk(st.terminals[k], Closings(st.trades), st.holdings);
      EqualIsClose(0.0, CLOSE_RTOL, CLOSE_ATOL);
    }
  }

  lemma TradesOnDays(env: Env, st: State, i: nat, k: nat)
    requires StrictlyIncreasing(env.calendar) && Ready(env, st, i) && k < |st.trades|
    ensures st.trades[k].date in DailyDates(st.daily)
  {
    hide BookOk, Undue, Lives, CountersOk, ActionsOk, TerminalsOk, IntentsOk, TradesOk, DayExact, DaysRun, OnDay, Openings, Closings, HoldingExact;
    DatesOf(env, st, i);
    assert st.trades[k] in st.trades;
    assert OnDay(st.daily, st.trades[k].date);
  }

  lemma NothingHeld(st: State)
    requires st.book.at == map[]
    ensures HeldIds(st.book) == {}
  {}

  lemma DaysReconcile(env: Env, st: State, i: nat)
    requires Ready(env, st, i)
    ensures forall j :: 0 <= j < |st.daily| ==> DailyReconciles(env, ReportOf(st), j)
  {
    hide Ready, BooksSettled, DailyReconciles;
    ReadyIsSettled(env, st, i);
    forall j | 0 <= j < |st.daily|
      ensures DailyReconciles(env, ReportOf(st), j)
    {
      SettledReconciles(env, st, ReportOf(st), j);
    }
  }

  lemma ClosedRunReconciles(env: Env, st: State, i: nat)
    requires StrictlyIncreasing(env.calendar) && AllClosed(env, st, i) && First(env) < i
    requires LifecyclesReconcile(st.trades, HeldIds(st.book), st.actions)
    ensures AccountingEvidence(env, ReportOf(st))
  {
    hide Ready, Openings, Closings, LifecyclesReconcile, ActionLedgerReconciles, DailyReconciles, HoldingReconciles, SameHolding;
    DatesOf(env, st, i);
    ActionLedgerHolds(env, st, i);
    NothingHeld(st);
    TerminalsReconcile(env, st, i);
    var r := ReportOf(st);
    DaysReconcile(env, st, i);
    forall j, k | 0 <= j < k < |r.holdings|
      ensures !SameHolding(r.holdings[j], r.holdings[k])
    {
      HoldingsDistinct(env, st, i, j, k);
    }
    forall k | 0 <= k < |r.holdings|
      ensures var dates := DailyDates(r.daily);
              r.holdings[k].date in dates && HoldingReconciles(r.holdings[k]) && r.holdings[k].date != dates[|dates| - 1]
    {
      HoldingsReconcile(env, st, i, k);
    }
    forall k | 0 <= k < |r.trades|
      ensures r.trades[k].date in DailyDates(r.daily)
    {
      TradesOnDays(env, st, i, k);
    }
  }

  lemma ReadyIsSettled(env: Env, st: State, i: nat)
    requires Ready(env, st, i)
    ensures BooksSettled(env, st)
  {}

  // ----- portfolio evidence -----

  lemma {:induction false} UpToIsPrefix(calendar: seq<Date>, n: nat, end: Date)
    requires StrictlyIncreasing(calendar) && n <= |calendar|
    requires forall k :: 0 <= k < |calendar| ==> (calendar[k] <= end <==> k < n)
    ensures UpTo(calendar, end) == calendar[..n]
  {
    if calendar != [] {
      var front := calendar[..|calendar| - 1];
      UpToIsPrefix(front, if n <= |front| then n else |front|, end);
      assert calendar[..n] == front[..(if n <= |front| then n else |front|)] + if n == |calendar| then [calendar[n - 1]] else [];
    }
  }

  /** The daily rows cover the calendar without a gap exactly if it starts at the first signal. (The
      dates on which they may end are those of RunStaysGoverned.) */
  lemma CoverageIff(env: Env, st: State, i: nat)
    requires StrictlyIncreasing(env.calendar) && Ready(env, st, i) && First(env) < i
    ensures CoversCalendar(env, ReportOf(st)) <==> First(env) == 0
  {
    hide BookOk, Undue, Lives, BooksSettled, CountersOk, ActionsOk, TerminalsOk, IntentsOk, TradesOk, First;
    UpToIsPrefix(env.calendar, i, st.daily[|st.daily| - 1].date);
    assert |DailyDates(st.daily)| == i - First(env);
    if First(env) == 0 {
      DatesOf(env, st, i);
    }
  }

  lemma HistoryOfOpening(env: Env, st: State, i: nat, k: nat)
    requires AllClosed(env, st, i) && k < |st.trades| && IsOpening(st.trades[k])
    ensures st.trades[k].id.Some? && st.trades[k].id.value in Closings(st.trades)
    ensures var q := st.trades[k].id.value;
            HistoryAccepted(env, st.trades[k], Closings(st.trades)[q], Own(st.holdings, HoldingId, q), Own(st.actions, ActionId, q))
            <==> !RenamedAtEntry(env.Transitions(), st.trades[k])
  {
    hide BookOk, Undue, BooksSettled, CountersOk, ActionsOk, TerminalsOk, IntentsOk, DaysRun, Openings, Closings, LiveIn, HistoryAccepted,
         TradeSound, Listed, RenamedAtEntry, HoldingDates, Between, InOrder;
    var t := st.trades[k];
    assert t in st.trades;
    assert Openings(st.trades)[t.id.value] == t;
    assert ClosedIn(env, t.id.value, Openings(st.trades), Closings(st.trades), st.holdings, st.actions);
  }

  lemma TerminalAgrees(env: Env, st: State, i: nat, k: nat)
    requires Ready(env, st, i) && k < |st.terminals|
    ensures TerminalReconciles(ReportOf(st), st.terminals[k])
  {
    hide BookOk, Undue, Lives, CountersOk, ActionsOk, IntentsOk, DaysRun, Openings, Closings, TradesOk, DayExact;
    var e := st.terminals[k];
    assert TerminalOk(e, Closings(st.trades), st.holdings);
    var rows := Own(st.holdings, HoldingId, e.id);
    OwnMember(st.holdings, HoldingId, e.id, rows[|rows| - 1]);
    assert rows[|rows| - 1].marketValue.Some?;
    EqualIsClose(e.markBefore.value, CLOSE_RTOL, CLOSE_ATOL);
  }

  lemma SameIds(env: Env, st: State, i: nat)
    requires AllClosed(env, st, i)
    ensures (set x | x in OpeningIds(st.trades)) == (set x | x in ClosingIds(st.trades))
    ensures NoDuplicates(OpeningIds(st.trades)) && NoDuplicates(ClosingIds(st.trades))
  {
    hide BookOk, Undue, BooksSettled, CountersOk, ActionsOk, TerminalsOk, IntentsOk, DaysRun, Openings, Closings, LiveIn, HistoryAccepted, InOrder,
         TradeSound, NoDuplicates, OpeningIds, ClosingIds;
    var opens, closes := Openings(st.trades), Closings(st.trades);
    assert Listed(OpeningIds(st.trades), opens) && Listed(ClosingIds(st.trades), closes);
    assert forall q :: q in opens ==> q in closes;
    assert forall q :: q in closes ==> ClosedIn(env, q, opens, closes, st.holdings, st.actions);
  }

  lemma NoTradesNothing(env: Env, st: State, i: nat)
    requires Ready(env, st, i) && st.trades == []
    ensures st.holdings == [] && st.actions == [] && st.terminals == []
  {
    hide BookOk, Undue, BooksSettled, CountersOk, ActionsOk, IntentsOk, DaysRun, TradesOk, LiveIn, ClosedIn;
    assert Openings(st.trades) == map[];
    FirstIsMember(st.holdings);
    FirstIsMember(st.actions);
    FirstIsMember(st.terminals);
    assert forall e :: e in st.terminals ==> Some(e.id) in TerminalIds(st.terminals);
  }

  /** The history check passes exactly when every fill preceded the renaming of its code. */
  lemma ClosedRunHistoryIff(env: Env, st: State, i: nat)
    requires AllClosed(env, st, i)
    ensures PositionHistory(env, ReportOf(st)) <==> FillsPrecedeTransitions(env, st.trades)
  {
    hide Ready, Openings, Closings, HistoryAccepted, TerminalReconciles, CostsReconcile, NoDuplicates, OpeningIds, ClosingIds, RenamedAtEntry;
    if st.trades == [] {
      NoTradesNothing(env, st, i);
    } else {
      SameIds(env, st, i);
      forall k | 0 <= k < |st.trades| && st.trades[k].status == Filled
        ensures CostsReconcile(env, st.trades[k])
      {
        FillReconciles(env, st, i, k);
      }
      forall k | 0 <= k < |st.trades| && IsOpening(st.trades[k])
        ensures st.trades[k].id.Some? && st.trades[k].id.value in Closings(st.trades)
        ensures var q := st.trades[k].id.value;
                HistoryAccepted(env, st.trades[k], Closings(st.trades)[q], Own(st.holdings, HoldingId, q), Own(st.actions, ActionId, q))
                <==> !RenamedAtEntry(env.Transitions(), st.trades[k])
      {
        HistoryOfOpening(env, st, i, k);
      }
      forall k | 0 <= k < |st.terminals|
        ensures TerminalReconciles(ReportOf(st), st.terminals[k])
      {
        TerminalAgrees(env, st, i, k);
      }
    }
  }

  lemma FillReconciles(env: Env, st: State, i: nat, k: nat)
    requires Ready(env, st, i) && k < |st.trades| && st.trades[k].status == Filled
    ensures CostsReconcile(env, st.trades[k])
  {
    hide BookOk, Undue, Lives, BooksSettled, CountersOk, ActionsOk, TerminalsOk, IntentsOk, DaysRun, Openings, Closings, IdsOk;
    assert TradeSound(env, st.trades[k]);
  }

  lemma ActionsReconcile(env: Env, st: State, i: nat, k: nat)
    requires Ready(env, st, i) && k < |st.actions|
    ensures ActionReconciles(env.Transitions(), st.actions[k])
  {
    hide BookOk, Undue, Lives, BooksSettled, CountersOk, TerminalsOk, IntentsOk, DaysRun, Openings, Closings, TradesOk, Evidenced;
    var a := st.actions[k];
    assert SoundAction(a);
    EqualIsClose(a.newShares, CLOSE_RTOL, CLOSE_ATOL);
    EqualIsClose(a.before, CLOSE_RTOL, CLOSE_ATOL);
    EqualIsClose(a.after, CLOSE_RTOL, CLOSE_ATOL);
    EqualIsClose(0.0, CLOSE_RTOL, CLOSE_ATOL);
  }

  lemma ReadyCountersAndIntents(env: Env, st: State, i: nat)
    requires Ready(env, st, i)
    ensures st.counters == Recount(st.trades, st.holdings)
    ensures IntentsOk(env, st.intents, st.trades, i)
  {
    hide BookOk, Undue, Lives, BooksSettled, ActionsOk, TerminalsOk, DaysRun, Openings, Closings, TradesOk;
  }

  /** On every prefix of every run the online counters are what the tables recount to. */
  lemma CountersAgree(env: Env, n: nat)
    requires Governed(env) && EntriesFollowSignals(env)
    requires First(env) <= n <= |env.calendar| && RunUpTo(env, n).Ok?
    ensures var st := RunUpTo(env, n).value; st.counters == Recount(st.trades, st.holdings)
  {
    hide RunUpTo, Ready, Recount, EntriesFollowSignals, First;
    var m := RunIsReady(env, n);
    ReadyCountersAndIntents(env, RunUpTo(env, n).value, m);
  }

  lemma ClosedRunPortfolioIff(env: Env, st: State, i: nat)
    requires StrictlyIncreasing(env.calendar) && AllClosed(env, st, i) && First(env) < i
    requires ExpectedSlots(env, |env.calendar|) == ExpectedSlots(env, i)
    ensures PortfolioEvidence(env, ReportOf(st)) <==> First(env) == 0 && FillsPrecedeTransitions(env, st.trades)
  {
    hide Ready, CoversCalendar, Recount, SlotsOf, ExpectedSlots, PositionHistory, ActionReconciles, IntentIds, OpeningIds, FillsPrecedeTransitions, First;
    CoverageIff(env, st, i);
    ReadyCountersAndIntents(env, st, i);
    ClosedRunHistoryIff(env, st, i);
    forall k | 0 <= k < |st.actions|
      ensures ActionReconciles(env.Transitions(), st.actions[k])
    {
      ActionsReconcile(env, st, i, k);
    }
  }

  // ----- the theorem -----

  /** After an early stop no later session has signals to enter. */
  lemma NothingAfterStop(env: Env, i: nat)
    requires StrictlyIncreasing(env.calendar) && 0 < i <= |env.calendar|
    requires forall d :: d in env.entries ==> d <= env.calendar[i - 1]
    ensures ExpectedSlots(env, |env.calendar|) == ExpectedSlots(env, i)
  {
    forall k | i <= k < |env.calendar|
      ensures env.calendar[k] !in env.entries
    {
      assert env.calendar[i - 1] < env.calendar[k];
    }
    NoSlotsExpected(env, i, |env.calendar|);
  }

  /** Every strict run that completes is accepted by the auditor's reconciliation of daily values,
      holdings, cash, costs, turnover and lifecycles. The recomputation of coverage, counters,
      intents, position histories and corporate actions accepts it too, exactly if the calendar
      starts with the first signal and no fill bought a code on or after its renaming. */
  lemma AuditOfStrictRun(env: Env)
    requires Governed(env) && EntriesFollowSignals(env)
    requires env.strict && Simulate(env).Ok?
    ensures AccountingEvidence(env, ReportOf(Simulate(env).value))
    ensures PortfolioEvidence(env, ReportOf(Simulate(env).value)) <==>
            First(env) == 0 && FillsPrecedeTransitions(env, Simulate(env).value.trades)
  {
    hide Ready, AccountingEvidence, PortfolioEvidence, RunUpTo, EntriesFollowSignals, LifecyclesReconcile, First, FillsPrecedeTransitions;
    var st := Simulate(env).value;
    assert Sessions(env) == Ok(st);
    var m := RunIsReady(env, |env.calendar|);
    assert AllClosed(env, st, m);
    ClosedRunReconciles(env, st, m);
    if st.stopped {
      NothingAfterStop(env, m);
    }
    ClosedRunPortfolioIff(env, st, m);
  }

  /** Where the daily rows of a run end: with the calendar, or, stopped early, with no entry left. */
  lemma EndOfRun(env: Env)
    requires Governed(env) && EntriesFollowSignals(env) && Sessions(env).Ok? && First(env) < |env.calendar|
    ensures var st := Sessions(env).value;
            && st.daily != []
            && var end := st.daily[|st.daily| - 1].date;
               end in env.calendar
               && if st.stopped then forall d :: d in env.entries ==> d <= end else end == env.calendar[|env.calendar| - 1]
  {
    hide Ready, Governed, EntriesFollowSignals, RunUpTo, First, Env.Transitions;
    var m := RunIsReady(env, |env.calendar|);
    LastDay(env, Sessions(env).value, m);
  }

  lemma LastDay(env: Env, st: State, i: nat)
    requires Ready(env, st, i) && First(env) < i
    ensures st.daily != [] && st.daily[|st.daily| - 1].date == env.calendar[i - 1]
  {
    hide BookOk, Undue, Lives, BooksSettled, CountersOk, ActionsOk, TerminalsOk, IntentsOk, TradesOk, First;
  }

  /** A calendar that stays within the governing dates, with an entry not before the last signals,
      keeps the run within them, wherever it stops. */
  lemma RunStaysGoverned(env: Env, g: Governance, entry: Date)
    requires Governed(env) && EntriesFollowSignals(env) && Sessions(env).Ok? && First(env) < |env.calendar|
    requires var last := env.calendar[|env.calendar| - 1]; last <= g.cutoff && last < g.lockbox
    requires entry in env.entries && g.signalEnd <= entry
    ensures WithinGovernance(g, ReportOf(Sessions(env).value))
  {
    hide Sessions, First, Governed;
    EndOfRun(env);
    GovernedCalendar(env);
    var i :| First(env) < i < |env.calendar| && env.calendar[i] == entry;
  }

  lemma GovernedCalendar(env: Env)
    requires Governed(env)
    ensures forall i, j :: 0 <= i <= j < |env.calendar| ==> env.calendar[i] <= env.calendar[j]
  {}

  /** The whole check of a strict run, with its governing dates. */
  lemma GovernedAuditOfStrictRun(env: Env, g: Governance)
    requires Governed(env) && EntriesFollowSignals(env)
    requires env.strict && Simulate(env).Ok?
    ensures var st := Simulate(env).value;
            GovernedEvidence(env, g, ReportOf(st)) <==>
            First(env) == 0 && FillsPrecedeTransitions(env, st.trades) && WithinGovernance(g, ReportOf(st))
  {
    hide Simulate, AccountingEvidence, PortfolioEvidence, WithinGovernance, Governed, EntriesFollowSignals, First, FillsPrecedeTransitions;
    AuditOfStrictRun(env);
  }

  /** The condition as a guard on the inputs: entries ahead of every renaming are always accepted. */
  lemma AuditAcceptsGuardedRun(env: Env)
    requires Governed(env) && EntriesFollowSignals(env) && EntriesPrecedeTransitions(env)
    requires env.strict && First(env) == 0
    requires Simulate(env).Ok?
    ensures AccountingEvidence(env, ReportOf(Simulate(env).value))
    ensures PortfolioEvidence(env, ReportOf(Simulate(env).value))
  {
    hide AccountingEvidence, PortfolioEvidence, RunUpTo, EntriesFollowSignals, EntriesPrecedeTransitions, LifecyclesReconcile, FillsPrecedeTransitions;
    AuditOfStrictRun(env);
    FillsPrecede(env, |env.calendar|);
  }
}
