/** Concrete runs that buy a code on or after the day it is renamed. On that very day the simulator
    publishes the run and its auditor rejects it (src/ashare_quant/backtest/continuous_validation.py,
    lines 362-371); after that day the simulator's own replay refuses the run
    (src/ashare_quant/backtest/engine.py, lines 1048-1106). */
module RenamedOnEntry {
  import opened Basics
  import opened Costs
  import opened Ledgers
  import opened CorporateActions
  import opened Simulation
  import opened Auditor
  import opened History
  import opened BookInvariant
  import opened Runs
  import opened AuditTheorem

  const OLD: Code := 7
  const NEW: Code := 8

  /** Code 7 is signalled on day 1, bought on day 2, renamed to code 8 with effect from the given
      day, and code 8 is due to be sold on day 3. Trading is free. */
  function Market(renamed: Date): Env {
    Env(
      [1, 2, 3],
      1,
      map[2 := [OLD]],
      map[(2, OLD) := Price(Some(1.0), Some(1.0), true, true, false, true, None),
          (3, NEW) := Price(Some(1.0), Some(1.0), true, true, false, true, None)],
      [Transition(OLD, NEW, renamed, CodeChangeContinuity, SameListedEntity, Some(1.0), 0)],
      map[1 := 0.0, 2 := 0.0, 3 := 0.0],
      [Schedule(1, 0.0, 0.0, 0.0, 0.0, 0.0)],
      1.0,
      1,
      0,
      true,
      false)
  }

  const FREE := Rates(0.0, 0.0, 0.0, 0.0, 0.0)

  /** What the bisection finds affordable with one unit of cash. */
  function Bought(): real { MaximumAffordable(FREE, 1.0) }

  lemma FreeCharge(gross: real)
    ensures Charge(FREE, gross) == NoCosts && NoCosts.Total() == 0.0
  {}

  lemma BoughtIsPositive()
    ensures 0.0 < Bought() < 1.0
  {
    hide MaximumAffordable, Fits, Halved;
    var least := Halved(1.0, BISECTION_STEPS);
    HalvedIsSmaller(1.0, BISECTION_STEPS);
    FreeFits(least);
    MaximumAffordableIsTight(FREE, 1.0, 0.0);
    MaximumAffordableIsZeroIff(FREE, 1.0);
  }

  lemma FreeFits(notional: real)
    requires notional <= 1.0
    ensures Fits(FREE, 1.0, notional)
  {
    FreeCharge(notional);
  }

  function Held(): PositionState {
    PositionState(PositionId(2, OLD), OLD, OLD, Bought(), 2, 1, 3, Some(1.0), 2, Current, 0, 0, false)
  }

  function Renamed(): PositionState {
    Held().(code := NEW)
  }

  function BuyRow(): Trade {
    FilledTrade(2, Held(), Buy, 1.0, Bought(), NoCosts, None)
  }

  function SellRow(): Trade {
    FilledTrade(3, Renamed(), Sell, 1.0, Bought(), NoCosts, Some(1))
  }

  function ActionRow(renamed: Date): Action {
    Action(renamed, PositionId(2, OLD), OLD, NEW, Bought(), Bought(), 1.0, 1.0, 1.0, Bought(), Bought(), 0.0, 0.0, 0)
  }

  // ----- the three sessions -----

  predicate AfterDayOne(st: State) {
    st.cash == 1.0 && st.book == Dict([], map[]) && st.trades == [] && st.actions == [] && !st.stopped
  }

  predicate AfterDayTwo(st: State) {
    && st.cash == 1.0 - Bought() && st.book == Dict([OLD], map[OLD := Held()])
    && st.trades == [BuyRow()] && st.actions == [] && !st.stopped
  }

  predicate AfterDayThree(renamed: Date, st: State) {
    && st.book == Dict([], map[])
    && st.trades == [BuyRow(), SellRow()] && st.actions == [ActionRow(renamed)]
  }

  lemma DayOne(renamed: Date)
    ensures Session(Market(renamed), Initial(Market(renamed)), 0).Ok?
    ensures AfterDayOne(Session(Market(renamed), Initial(Market(renamed)), 0).value)
  {}

  lemma BuyingOld(renamed: Date, st: State)
    requires st.cash == 1.0 && st.book == Dict([], map[]) && st.trades == [] && st.actions == []
    requires st.slips.at.Keys == {OLD}
    ensures BuyStep(Market(renamed), st, 1, FREE, 1.0, OLD).Ok?
    ensures var after := BuyStep(Market(renamed), st, 1, FREE, 1.0, OLD).value;
            && after.cash == 1.0 - Bought() && after.book == Dict([OLD], map[OLD := Held()])
            && after.trades == [BuyRow()] && after.actions == []
            && after.dayValue == st.dayValue && after.stopped == st.stopped
  {
    hide MaximumAffordable, Charge;
    BoughtIsPositive();
    FreeCharge(Bought());
  }

  lemma EnteringOld(renamed: Date, st: State)
    requires st.cash == 1.0 && st.book == Dict([], map[]) && st.trades == [] && st.actions == []
    ensures Enter(Market(renamed), st, 1).Ok?
    ensures var after := Enter(Market(renamed), st, 1).value;
            && after.cash == 1.0 - Bought() && after.book == Dict([OLD], map[OLD := Held()])
            && after.trades == [BuyRow()] && after.actions == []
            && after.dayValue == st.dayValue && after.stopped == st.stopped
  {
    hide BuyStep, MaximumAffordable, Noted, Executable, Candidates, RejectUpTo, Resolve;
    var env, noted := Market(renamed), Noted(Market(renamed), st, 1);
    OldIsNoted(renamed, st);
    OldIsExecutable(renamed, noted);
    BuyingOld(renamed, noted);
    assert BuyUpTo(env, noted, 1, FREE, 1.0, [OLD], 0) == Ok(noted);
    assert BuyUpTo(env, noted, 1, FREE, 1.0, [OLD], 1) == BuyStep(env, noted, 1, FREE, 1.0, OLD);
  }

  lemma OldIsNoted(renamed: Date, st: State)
    ensures var noted := Noted(Market(renamed), st, 1);
            noted == st.(slips := noted.slips) && noted.slips.at.Keys == {OLD}
  {
    hide Slip;
    assert SlipsUpTo(Market(renamed), st, 1, [OLD], 0) == Dict([], map[]);
  }

  lemma OldIsExecutable(renamed: Date, st: State)
    ensures var env := Market(renamed);
            && Candidates([OLD], map[]) == [OLD] && Executable(env, 2, [OLD]) == [OLD]
            && RejectUpTo(env, st, 2, [OLD], 1) == st && Resolve(env.costs, 2, Buy) == Ok(FREE)
  {
    var env := Market(renamed);
    assert Candidates([OLD], map[]) == [OLD] by { assert Candidates([], map[]) == []; }
    assert Executable(env, 2, [OLD]) == [OLD] by { assert Executable(env, 2, []) == []; }
    assert RejectUpTo(env, st, 2, [OLD], 1) == st by { assert RejectUpTo(env, st, 2, [OLD], 0) == st; }
  }

  lemma DayTwo(renamed: Date, st: State)
    requires AfterDayOne(st)
    ensures Session(Market(renamed), st, 1).Ok?
    ensures AfterDayTwo(Session(Market(renamed), st, 1).value)
  {
    hide Enter, Bought, Turnover;
    var env, start := Market(renamed), Opened(st);
    assert PlansFor(env.Transitions(), start.book, 2, 0) == Ok([]);
    assert start.actions + [] == start.actions;
    assert ActOn(env, start, 2) == Ok(start);
    assert SellUpTo(env, start, 1, [], 0) == Ok(start);
    EnteringOld(renamed, start);
    var recorded := Recorded(Enter(env, start, 1).value);
    assert MarkUpTo(env, recorded, 2, [OLD], 0) == Ok(recorded);
    BoughtIsPositive();
    assert Revalued(env, Held(), env.PriceAt(2, OLD), 2) == Ok(Held());
    assert MarkUpTo(env, recorded, 2, [OLD], 1) == MarkStep(env, recorded, 2, OLD);
  }

  lemma ChainOfOld(ts: Transitions, t: Transition)
    requires ts == map[OLD := t] && t.successor == NEW && t.effective <= 2 && Classify(t) == Supported
    ensures ChainOf(ts, OLD, 3) == Ok([t])
  {
    assert !Due(ts, NEW, 3) && Due(ts, OLD, 3);
    assert Walk(ts, NEW, 3, {} + {OLD}, Some(t.effective)) == Ok([]);
    assert Walk(ts, OLD, 3, {}, None) == Ok([t] + []) && [t] + [] == [t];
  }

  lemma Renaming(renamed: Date, book: Book)
    requires renamed <= 2 && book == Dict([OLD], map[OLD := Held()])
    ensures ApplyEffective(Market(renamed).Transitions(), book, 3) == Ok(Migration(Dict([NEW], map[NEW := Renamed()]), [ActionRow(renamed)]))
  {
    hide Bought;
    var ts, t := Market(renamed).Transitions(), Market(renamed).transitions[0];
    BoughtIsPositive();
    assert ts == map[OLD := t] by { assert ByPredecessor([]) == map[]; }
    assert [ActionRow(renamed)] == [] + [ActionRow(renamed)];
    ChainOfOld(ts, t);
    assert PlansFor(ts, book, 3, 0) == Ok([]);
    var plan := Plan(OLD, Held(), [t]);
    assert Successors([t]) == {NEW};
    assert [] + [plan] == [plan];
    assert PlansFor(ts, book, 3, 1) == Ok([plan]);
    assert Convert(Held(), t) == Ok(Converted(Renamed(), ActionRow(renamed)));
    assert ConvertAll(Held(), [t], 0) == Ok(Moved(Held(), []));
    assert ConvertAll(Held(), [t], 1) == Ok(Moved(Renamed(), [ActionRow(renamed)]));
    assert Without([OLD], OLD) == [];
    assert CarryOut(book, [plan], 0) == Ok(Migration(book, []));
    assert (book.at - {OLD})[NEW := Renamed()] == map[NEW := Renamed()];
    assert Relocate(book, OLD, Renamed()) == Dict([NEW], map[NEW := Renamed()]) by { assert [] + [NEW] == [NEW]; }
    assert CarryOut(book, [plan], 1) == Ok(Migration(Dict([NEW], map[NEW := Renamed()]), [ActionRow(renamed)]));
  }

  lemma SellingNew(renamed: Date, st: State)
    requires st.book == Dict([NEW], map[NEW := Renamed()]) && st.trades == [BuyRow()]
    ensures SellStep(Market(renamed), st, 2, NEW).Ok?
    ensures var sold := SellStep(Market(renamed), st, 2, NEW).value;
            && sold.book == Dict([], map[]) && sold.trades == [BuyRow(), SellRow()]
            && sold.actions == st.actions && sold.dayValue == st.dayValue && sold.cash == st.cash + Bought()
  {
    hide Bought, Calculate;
    BoughtIsPositive();
    assert Without([NEW], NEW) == [];
    NewSellsFree(renamed);
  }

  lemma NewSellsFree(renamed: Date)
    ensures Calculate(Market(renamed).costs, 3, Sell, Bought()) == Ok(NoCosts)
  {
    hide Bought, Charge;
    BoughtIsPositive();
    FreeCharge(Bought());
  }

  lemma SellingAll(renamed: Date, st: State)
    ensures SellUpTo(Market(renamed), st, 2, [NEW], 1) == SellStep(Market(renamed), st, 2, NEW)
  {
    hide SellStep;
    assert SellUpTo(Market(renamed), st, 2, [NEW], 0) == Ok(st);
  }

  lemma DayThree(renamed: Date, st: State)
    requires renamed <= 2 && AfterDayTwo(st)
    ensures Session(Market(renamed), st, 2).Ok?
    ensures AfterDayThree(renamed, Session(Market(renamed), st, 2).value)
  {
    hide ApplyEffective, SellUpTo, SellStep, Bought, Turnover, SellRow;
    var env, start := Market(renamed), Opened(st);
    Renaming(renamed, start.book);
    BoughtIsPositive();
    var acted := ActOn(env, start, 3).value;
    SellingNew(renamed, acted);
    SellingAll(renamed, acted);
    var sold := SellUpTo(env, acted, 2, [NEW], 1).value;
    assert Enter(env, sold, 2) == Ok(Noted(env, sold, 2)) by { assert Executable(env, 3, []) == []; }
    var recorded := Recorded(Noted(env, sold, 2));
    assert MarkUpTo(env, recorded, 3, [], 0) == Ok(recorded);
  }

  lemma AllDays(renamed: Date)
    requires renamed <= 2
    ensures Sessions(Market(renamed)).Ok? && AfterDayThree(renamed, Sessions(Market(renamed)).value)
  {
    hide Session;
    var env := Market(renamed);
    assert First(env) == 0;
    assert RunUpTo(env, 0) == Ok(Initial(env));
    DayOne(renamed);
    var one := Session(env, Initial(env), 0).value;
    assert RunUpTo(env, 1) == Ok(one);
    DayTwo(renamed, one);
    var two := Session(env, one, 1).value;
    assert RunUpTo(env, 2) == Ok(two);
    DayThree(renamed, two);
  }

  // ----- the closing checks and the auditor -----

  lemma MarketIsGoverned(renamed: Date)
    ensures Governed(Market(renamed)) && EntriesFollowSignals(Market(renamed)) && First(Market(renamed)) == 0
  {
    assert Market(renamed).calendar[1] == 2;
  }

  lemma MarketIsAdmitted(renamed: Date)
    ensures Refusal(Market(renamed)).None?
    ensures Market(renamed).Transitions() == map[OLD := Market(renamed).transitions[0]]
  {
    hide First;
    var env := Market(renamed);
    MarketIsGoverned(renamed);
    assert ByPredecessor([]) == map[] && env.transitions[..0] == [];
    forall d | d in env.calendar
      ensures d in env.benchmark
    {}
  }

  lemma BuyWasRenamed(renamed: Date, trades: seq<Trade>)
    requires renamed <= 2 && trades == [BuyRow(), SellRow()]
    ensures !FillsPrecedeTransitions(Market(renamed), trades)
    ensures LateFill(Market(renamed), trades) <==> renamed < 2
  {
    hide Bought;
    MarketIsAdmitted(renamed);
    assert trades[0] in trades;
    assert RenamedAtEntry(Market(renamed).Transitions(), BuyRow());
  }

  /** Bought on the very day of its renaming: the strict run completes and its accounting is
      accepted, but the replay of its holdings is not. */
  lemma RenamedOnEntryIsRejected()
    ensures var env := Market(2);
            && Governed(env) && EntriesFollowSignals(env) && env.strict && First(env) == 0
            && Simulate(env).Ok?
            && AccountingEvidence(env, ReportOf(Simulate(env).value))
            && !PortfolioEvidence(env, ReportOf(Simulate(env).value))
  {
    hide Simulate, AccountingEvidence, PortfolioEvidence, Governed, EntriesFollowSignals, First, FillsPrecedeTransitions, LateFill;
    MarketIsGoverned(2);
    MarketIsAdmitted(2);
    AllDays(2);
    BuyWasRenamed(2, Sessions(Market(2)).value.trades);
    ClosingChecksDecide(Market(2));
    assert Simulate(Market(2)) == Sessions(Market(2)) by { PublishedIsSessions(Market(2)); }
    AuditOfStrictRun(Market(2));
  }

  /** Bought on a later day: every session succeeds and everything is sold again, yet the
      simulator's own check of its lifecycles refuses the run. */
  lemma RenamedBeforeEntryIsRefused(renamed: Date)
    requires renamed < 2
    ensures var env := Market(renamed);
            && Governed(env) && EntriesFollowSignals(env) && Finished(env)
            && Simulate(env) == Err(LifecycleInvalid)
  {
    hide Simulate, Governed, EntriesFollowSignals, First, LateFill;
    MarketIsGoverned(renamed);
    MarketIsAdmitted(renamed);
    AllDays(renamed);
    BuyWasRenamed(renamed, Sessions(Market(renamed)).value.trades);
    ClosingChecksDecide(Market(renamed));
  }

  lemma PublishedIsSessions(env: Env)
    requires Simulate(env).Ok?
    ensures Simulate(env) == Sessions(env)
  {
    hide Sessions, LifecyclesReconcile, ActionLedgerReconciles;
  }
}
