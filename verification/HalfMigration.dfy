/** A concrete run whose migration fails halfway: of two renamed positions the second was bought at a
    close of zero, and the first has been moved when that is found out
    (src/ashare_quant/backtest/engine.py, lines 683-741). */
module HalfMigration {
  import opened Basics
  import opened Costs
  import opened Ledgers
  import opened CorporateActions
  import opened Simulation
  import opened BookInvariant
  import opened Runs
  import opened Engine

  function Renaming(c: Code): Transition {
    Transition(c, c + 10, 3, CodeChangeContinuity, SameListedEntity, Some(1.0), 0)
  }

  function Quote(close: real): Price {
    Price(Some(1.0), Some(close), true, true, false, true, None)
  }

  /** Codes 1 and 2 are signalled on day 1, bought on day 2, where code 2 closes at zero, and renamed on
      day 3. Trading is free, and missing data are tolerated. */
  function Market(): Env {
    Env([1, 2, 3], 1, map[2 := [1, 2]], map[(2, 1) := Quote(1.0), (2, 2) := Quote(0.0)],
        [Renaming(1), Renaming(2)], map[1 := 0.0, 2 := 0.0, 3 := 0.0], [Schedule(1, 0.0, 0.0, 0.0, 0.0, 0.0)],
        1.0, 1, 0, false, false)
  }

  const FREE := Rates(0.0, 0.0, 0.0, 0.0, 0.0)

  /** What half a unit of cash buys. */
  function Bought(): real { MaximumAffordable(FREE, 0.5) }

  function Entered(c: Code, close: real): PositionState {
    PositionState(PositionId(2, c), c, c, Bought(), 2, 1, 3, Some(close), 2, Current, 0, 0, false)
  }

  /** The second position after its first day: its close is no valid mark. */
  function Unmarked(): PositionState {
    Entered(2, 0.0).(valuation := StaleMissingData, staleDays := 1)
  }

  function TwoRenamings(): Transitions { map[1 := Renaming(1), 2 := Renaming(2)] }

  function FirstOnlyMarked(): Book {
    Dict([1, 2], map[1 := Entered(1, 1.0), 2 := Unmarked()])
  }

  function Plans(): seq<Plan> {
    [Plan(1, Entered(1, 1.0), [Renaming(1)]), Plan(2, Unmarked(), [Renaming(2)])]
  }

  lemma FreeCharge(gross: real)
    ensures Charge(FREE, gross) == NoCosts && NoCosts.Total() == 0.0
  {}

  lemma BoughtIsPositive()
    ensures 0.0 < Bought() < 0.5
  {
    hide MaximumAffordable, Fits, Halved;
    HalvedIsSmaller(0.5, BISECTION_STEPS);
    FreeFits(Halved(0.5, BISECTION_STEPS));
    MaximumAffordableIsTight(FREE, 0.5, 0.0);
    MaximumAffordableIsZeroIff(FREE, 0.5);
  }

  lemma FreeFits(notional: real)
    requires notional <= 0.5
    ensures Fits(FREE, 0.5, notional)
  {
    FreeCharge(notional);
  }

  lemma MarketIsGoverned()
    ensures Governed(Market()) && EntriesFollowSignals(Market()) && First(Market()) == 0
  {
    assert Market().calendar[1] == 2;
  }

  lemma MarketIsAdmitted()
    ensures Refusal(Market()).None? && Market().Transitions() == TwoRenamings()
  {
    var env := Market();
    assert env.transitions[..1] == [Renaming(1)] && [Renaming(1)][..0] == [];
    assert ByPredecessor([]) == map[];
    assert ByPredecessor([Renaming(1)]) == map[1 := Renaming(1)];
    assert ByPredecessor(env.transitions) == TwoRenamings();
    assert TwoRenamings().Keys == {1, 2};
  }

  // ----- the first two sessions -----

  predicate AfterDayOne(st: State) {
    st.cash == 1.0 && st.book == Dict([], map[]) && !st.stopped
  }

  predicate AfterDayTwo(st: State) {
    st.book == FirstOnlyMarked() && !st.stopped
  }

  lemma DayOne()
    ensures Session(Market(), Initial(Market()), 0).Ok?
    ensures AfterDayOne(Session(Market(), Initial(Market()), 0).value)
  {}

  lemma {:induction false} Buying(st: State, c: Code, close: real)
    requires c in {1, 2} && Market().PriceAt(2, c) == Some(Quote(close)) && st.cash >= 0.5
    ensures BuyStep(Market(), st, 1, FREE, 0.5, c).Ok?
    ensures var after := BuyStep(Market(), st, 1, FREE, 0.5, c).value;
            after.cash == st.cash - Bought() && after.book == st.book.Put(c, Entered(c, close))
            && after.dayValue == st.dayValue && after.stopped == st.stopped
  {
    hide MaximumAffordable, Charge, Settled, Dict.Put;
    BoughtIsPositive();
    FreeCharge(Bought());
    assert st.cash <= st.cash * OVERSPEND_GUARD;
  }

  lemma BothAreBuyable()
    ensures Buyable(Market().PriceAt(2, 1)) && Buyable(Market().PriceAt(2, 2))
  {}

  lemma BothAreCandidates()
    ensures Candidates([1, 2], map[]) == [1, 2]
  {
    assert [1, 2][..1] == [1] && [1][..0] == [];
    assert Candidates([], map[]) == [] && Candidates([1], map[]) == [1];
  }

  lemma {:induction false} NeitherIsRejected(st: State)
    ensures RejectUpTo(Market(), st, 2, [1, 2], 2) == st
  {
    BothAreBuyable();
    hide Market;
    assert RejectUpTo(Market(), st, 2, [1, 2], 0) == st;
    assert RejectUpTo(Market(), st, 2, [1, 2], 1) == st;
  }

  lemma {:induction false} BothAreExecutable(st: State)
    ensures var env := Market();
            && Candidates([1, 2], map[]) == [1, 2] && Executable(env, 2, [1, 2]) == [1, 2]
            && RejectUpTo(env, st, 2, [1, 2], 2) == st && Resolve(env.costs, 2, Buy) == Ok(FREE)
  {
    hide RejectUpTo, Candidates;
    var env := Market();
    BothAreBuyable();
    BothAreCandidates();
    NeitherIsRejected(st);
    assert [1, 2][..1] == [1] && [1][..0] == [];
    assert Executable(env, 2, []) == [] && Executable(env, 2, [1]) == [1];
  }

  lemma {:induction false} BuyingBoth(st: State)
    requires st.cash == 1.0 && st.book == Dict([], map[])
    ensures BuyUpTo(Market(), st, 1, FREE, 0.5, [1, 2], 2).Ok?
    ensures var after := BuyUpTo(Market(), st, 1, FREE, 0.5, [1, 2], 2).value;
            && after.cash == 1.0 - Bought() - Bought() && after.dayValue == st.dayValue && after.stopped == st.stopped
            && after.book == Dict([1, 2], map[1 := Entered(1, 1.0), 2 := Entered(2, 0.0)])
  {
    hide BuyStep, Entered, Bought;
    var env := Market();
    BoughtIsPositive();
    Buying(st, 1, 1.0);
    var one := BuyStep(env, st, 1, FREE, 0.5, 1).value;
    Buying(one, 2, 0.0);
    assert BuyUpTo(env, st, 1, FREE, 0.5, [1, 2], 0) == Ok(st);
    assert BuyUpTo(env, st, 1, FREE, 0.5, [1, 2], 1) == Ok(one);
    assert BuyUpTo(env, st, 1, FREE, 0.5, [1, 2], 2) == BuyStep(env, one, 1, FREE, 0.5, 2);
    assert [] + [1] == [1] && [1] + [2] == [1, 2];
  }

  lemma {:induction false} Entering(st: State)
    requires st.cash == 1.0 && st.book == Dict([], map[])
    ensures Enter(Market(), st, 1).Ok?
    ensures var after := Enter(Market(), st, 1).value;
            && after.cash == 1.0 - Bought() - Bought() && after.dayValue == st.dayValue && after.stopped == st.stopped
            && after.book == Dict([1, 2], map[1 := Entered(1, 1.0), 2 := Entered(2, 0.0)])
  {
    hide BuyUpTo, SlipsUpTo, Executable, Candidates, RejectUpTo, Resolve, Entered, Bought;
    var noted := Noted(Market(), st, 1);
    BothAreExecutable(noted);
    BuyingBoth(noted);
  }

  lemma {:induction false} MarkOne(st: State, c: Code, close: real, q: PositionState)
    requires c in {1, 2} && c in st.book.at && st.book.at[c] == Entered(c, close) && st.dayValue.Some?
    requires q == if c == 1 then Entered(1, 1.0) else Unmarked()
    requires close == if c == 1 then 1.0 else 0.0
    ensures MarkStep(Market(), st, 2, c).Ok?
    ensures var after := MarkStep(Market(), st, 2, c).value;
            after.book == st.book.Put(c, q) && after.cash == st.cash && after.stopped == st.stopped
            && after.dayValue == Some(st.dayValue.value + Times(Bought(), close))
  {
    hide Bought, Dict.Put;
    assert Market().PriceAt(2, c) == Some(Quote(close));
    assert Revalued(Market(), Entered(c, close), Some(Quote(close)), 2) == Ok(q);
  }

  lemma {:induction false} Marking(st: State)
    requires st.book == Dict([1, 2], map[1 := Entered(1, 1.0), 2 := Entered(2, 0.0)]) && st.dayValue == Some(0.0)
    ensures MarkUpTo(Market(), st, 2, [1, 2], 2).Ok?
    ensures var after := MarkUpTo(Market(), st, 2, [1, 2], 2).value;
            after.book == FirstOnlyMarked() && after.cash == st.cash && after.dayValue == Some(Bought()) && after.stopped == st.stopped
  {
    hide Bought, MarkStep, Entered, Unmarked;
    MarkOne(st, 1, 1.0, Entered(1, 1.0));
    var one := MarkStep(Market(), st, 2, 1).value;
    assert one.book == st.book;
    MarkOne(one, 2, 0.0, Unmarked());
    assert MarkUpTo(Market(), st, 2, [1, 2], 0) == Ok(st);
    assert MarkUpTo(Market(), st, 2, [1, 2], 1) == Ok(one);
    assert MarkUpTo(Market(), st, 2, [1, 2], 2) == MarkStep(Market(), one, 2, 2);
  }

  lemma {:induction false} DayTwo(st: State) returns (two: State)
    requires AfterDayOne(st)
    ensures Session(Market(), st, 1) == Ok(two) && AfterDayTwo(two)
  {
    hide Enter, Bought, Turnover, DailyRow, MarkUpTo, Entered;
    var env, start := Market(), Opened(st);
    assert PlansFor(env.Transitions(), start.book, 2, 0) == Ok([]);
    assert start.actions + [] == start.actions;
    assert ActOn(env, start, 2) == Ok(start);
    assert SellUpTo(env, start, 1, [], 0) == Ok(start);
    Entering(start);
    var recorded := Recorded(Enter(env, start, 1).value);
    Marking(recorded);
    BoughtIsPositive();
    BothHaveShares();
    two := Session(env, st, 1).value;
  }

  lemma BothHaveShares()
    ensures forall c :: c in FirstOnlyMarked().at ==> FirstOnlyMarked().at[c].shares > 0.0
  {
    hide Bought;
    BoughtIsPositive();
  }

  // ----- the migration -----

  lemma OneStep(c: Code)
    requires c in {1, 2}
    ensures ChainOf(TwoRenamings(), c, 3) == Ok([Renaming(c)])
  {
    var ts := TwoRenamings();
    assert Walk(ts, c + 10, 3, {} + {c}, Some(3)) == Ok([]);
    assert Walk(ts, c, 3, {}, None) == Ok([Renaming(c)] + []) && [Renaming(c)] + [] == [Renaming(c)];
  }

  lemma BothArePlanned()
    ensures PlansFor(TwoRenamings(), FirstOnlyMarked(), 3, 2) == Ok(Plans())
  {
    hide ChainOf, Bought;
    OneStep(1);
    OneStep(2);
    var one := [Plans()[0]];
    assert PlansFor(TwoRenamings(), FirstOnlyMarked(), 3, 0) == Ok([]);
    assert Successors([Renaming(1)]) == {11} && Successors([Renaming(2)]) == {12};
    assert [] + one == one;
    assert PlansFor(TwoRenamings(), FirstOnlyMarked(), 3, 1) == Ok(one);
    assert Plans()[0] in one && Target(Plans()[0]) == 11;
    assert Targets(one) == {11};
    assert one + [Plans()[1]] == Plans();
  }

  lemma FirstMoves()
    ensures CarryOut(FirstOnlyMarked(), Plans(), 1).Ok?
    ensures CarryOut(FirstOnlyMarked(), Plans(), 1).value.book.at.Keys == {2, 11}
  {
    hide ConvertAll, Bought;
    FirstConverts();
    assert CarryOut(FirstOnlyMarked(), Plans(), 0) == Ok(Migration(FirstOnlyMarked(), []));
  }

  lemma FirstConverts()
    ensures ConvertAll(Entered(1, 1.0), [Renaming(1)], 1).Ok?
    ensures ConvertAll(Entered(1, 1.0), [Renaming(1)], 1).value.position.code == 11
  {
    hide ConvertAll, Bought;
    BoughtIsPositive();
    ConvertAllSucceeds(Entered(1, 1.0), [Renaming(1)], 1);
    ConvertAllIsFaithful(Entered(1, 1.0), [Renaming(1)], 1);
  }

  lemma SecondFails()
    ensures ConvertAll(Unmarked(), [Renaming(2)], 1) == Err(ActionValueInvalid)
  {
    hide Bought;
    assert ConvertAll(Unmarked(), [Renaming(2)], 0) == Ok(Moved(Unmarked(), []));
  }

  /** Everything is planned, the first position is moved, and the second cannot be. */
  lemma MigrationFails()
    ensures PlansFor(TwoRenamings(), FirstOnlyMarked(), 3, 2).Ok?
    ensures ApplyEffective(TwoRenamings(), FirstOnlyMarked(), 3) == Err(ActionValueInvalid)
    ensures CarryOut(FirstOnlyMarked(), Plans(), 1).Ok?
    ensures CarryOut(FirstOnlyMarked(), Plans(), 1).value.book.at.Keys == {2, 11}
  {
    hide PlansFor, ConvertAll, Bought;
    BothArePlanned();
    FirstMoves();
    SecondFails();
    assert CarryOut(FirstOnlyMarked(), Plans(), 2) == Err(ActionValueInvalid) by { hide Relocate; }
  }

  /** The run: two sessions succeed, every chain of the third is planned, its first position is moved,
      and the run fails on the second. */
  lemma FailsHalfway() returns (two: State)
    ensures var env := Market();
            && Governed(env) && EntriesFollowSignals(env) && First(env) == 0
            && RunUpTo(env, 2) == Ok(two) && two.book == FirstOnlyMarked()
            && PlansFor(env.Transitions(), two.book, 3, |two.book.order|) == Ok(Plans())
            && CarryOut(two.book, Plans(), 1).Ok? && CarryOut(two.book, Plans(), 1).value.book.at.Keys == {2, 11}
            && Simulate(env) == Err(ActionFault(ActionValueInvalid))
  {
    hide Session, First, Governed, EntriesFollowSignals, PlansFor, CarryOut, Bought, Env.Transitions;
    var env := Market();
    MarketIsGoverned();
    MarketIsAdmitted();
    assert RunUpTo(env, 0) == Ok(Initial(env));
    DayOne();
    var one := Session(env, Initial(env), 0).value;
    assert RunUpTo(env, 1) == Ok(one);
    two := DayTwo(one);
    assert RunUpTo(env, 2) == Ok(two);
    BothArePlanned();
    MigrationFails();
    DayThreeFails(two);
    assert Sessions(env) == Session(env, two, 2);
  }

  lemma DayThreeFails(two: State)
    requires two.book == FirstOnlyMarked()
    ensures Session(Market(), two, 2) == Err(ActionFault(ActionValueInvalid))
  {
    hide ApplyEffective, Bought;
    MarketIsAdmitted();
    MigrationFails();
  }

  /** The simulator itself then reports the failure, but its state is no longer what it was. */
  method MigrateTwo(simulator: Simulator)
    requires simulator.Valid() && simulator.env == Market() && simulator.Book() == FirstOnlyMarked()
    modifies simulator`order, simulator`positions, simulator`actions, simulator.positions.Values
    ensures simulator.View() != old(simulator.View())
  {
    hide PlansFor, ApplyEffective, Bought, Env.Transitions;
    MarketIsAdmitted();
    MigrationFails();
    assert |simulator.order| == 2;
    var failure := simulator.ApplyActions(3);
    assert failure == Some(ActionFault(ActionValueInvalid));
  }
}
