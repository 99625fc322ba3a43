/** The smallest run with a sale: one code is bought on the second of three sessions with all cash and sold
    on the third, at any price and under any costs (src/ashare_quant/backtest/engine.py, lines 251-351).
    It decides which cost policies can overdraw an account. */
module OneTrade {
  import opened Basics
  import opened Costs
  import opened Ledgers
  import opened CorporateActions
  import opened Simulation
  import opened Auditor
  import opened BookInvariant
  import opened Runs
  import opened AuditTheorem
  import opened Solvency

  const CODE: Code := 7

  datatype Deal = Deal(costs: seq<Schedule>, day: Date, cash: real, price: real)

  function Quote(price: real): Price {
    Price(Some(price), Some(price), true, true, false, true, None)
  }

  /** The code is signalled on the first session, bought at 1 on the second and due on the third. */
  function Market(d: Deal): Env {
    Env(
      [d.day, d.day + 1, d.day + 2],
      d.day,
      map[d.day + 1 := [CODE]],
      map[(d.day + 1, CODE) := Quote(1.0), (d.day + 2, CODE) := Quote(d.price)],
      [],
      map[d.day := 0.0, d.day + 1 := 0.0, d.day + 2 := 0.0],
      d.costs,
      d.cash,
      1,
      0,
      true,
      false)
  }

  /** Both trades have a regime, and something can be bought. */
  ghost predicate Tradable(d: Deal) {
    && ValidPolicy(d.costs) && d.cash > 0.0 && d.price > 0.0
    && Resolve(d.costs, d.day + 1, Buy).Ok? && Resolve(d.costs, d.day + 2, Sell).Ok?
    && SlotFits(BuyRates(d), d.cash)
  }

  function BuyRates(d: Deal): Rates
    requires Resolve(d.costs, d.day + 1, Buy).Ok?
  {
    Resolve(d.costs, d.day + 1, Buy).value
  }

  function SellRates(d: Deal): Rates
    requires Resolve(d.costs, d.day + 2, Sell).Ok?
  {
    Resolve(d.costs, d.day + 2, Sell).value
  }

  function Bought(d: Deal): real
    requires Resolve(d.costs, d.day + 1, Buy).Ok?
  {
    MaximumAffordable(BuyRates(d), d.cash)
  }

  /** The cash that the purchase leaves. */
  function Rest(d: Deal): real
    requires Resolve(d.costs, d.day + 1, Buy).Ok?
  {
    d.cash - SlotOutlay(BuyRates(d), d.cash)
  }

  /** The cash after the sale. */
  function Final(d: Deal): real
    requires Resolve(d.costs, d.day + 1, Buy).Ok? && Resolve(d.costs, d.day + 2, Sell).Ok?
  {
    var gross := Times(Bought(d), d.price);
    Rest(d) + (gross - Charge(SellRates(d), gross).Total())
  }

  function Held(d: Deal): PositionState
    requires Resolve(d.costs, d.day + 1, Buy).Ok?
  {
    PositionState(PositionId(d.day + 1, CODE), CODE, CODE, Bought(d), d.day + 1, 1, d.day + 2, Some(1.0), d.day + 1, Current, 0, 0, false)
  }

  lemma BuyingIsPossible(d: Deal)
    requires Tradable(d)
    ensures BuyRates(d).Valid() && SellRates(d).Valid()
    ensures 0.0 < Bought(d) < d.cash && 0.0 <= Rest(d) <= SlotSlack(BuyRates(d), d.cash) && Rest(d) <= d.cash
    ensures Bought(d) + Charge(BuyRates(d), Bought(d)).Total() == d.cash - Rest(d) <= d.cash
  {
    hide Resolve, SlotFits, SlotSlack, MaximumAffordable, Charge, ValidPolicy;
    ResolvedRatesAreValid(d.costs, d.day + 1, Buy);
    ResolvedRatesAreValid(d.costs, d.day + 2, Sell);
    SlotOutlayBounds(BuyRates(d), d.cash);
    MaximumAffordableIsTight(BuyRates(d), d.cash, 0.0);
  }

  lemma MarketIsGoverned(d: Deal)
    requires Tradable(d)
    ensures Governed(Market(d)) && EntriesFollowSignals(Market(d)) && First(Market(d)) == 0
    ensures ClosesArePositive(Market(d)) && Refusal(Market(d)).None? && Market(d).Transitions() == map[]
  {
    hide Resolve, SlotFits, ValidPolicy, SessionsBefore;
    var env := Market(d);
    StartsAtOnce(d);
    assert env.calendar[1] == d.day + 1;
    forall x | x in env.calendar
      ensures x in env.benchmark
    {}
  }

  lemma StartsAtOnce(d: Deal)
    ensures First(Market(d)) == 0
  {}

  // ----- the sessions -----

  predicate Empty(st: State) {
    st.book == Dict([], map[]) && !st.stopped
  }

  predicate AfterDayOne(d: Deal, st: State) {
    Empty(st) && st.cash == d.cash && st.trades == []
  }

  ghost predicate AfterDayTwo(d: Deal, st: State)
    requires Tradable(d)
  {
    st.cash == Rest(d) && st.book == Dict([CODE], map[CODE := Held(d)]) && !st.stopped
    && |st.trades| == 1 && st.trades[0].code == CODE && st.trades[0].date == d.day + 1
  }

  lemma DayOne(d: Deal)
    requires d.cash > 0.0
    ensures Session(Market(d), Initial(Market(d)), 0).Ok?
    ensures AfterDayOne(d, Session(Market(d), Initial(Market(d)), 0).value)
  {
    hide Turnover, DailyRow;
    var env, start := Market(d), Opened(Initial(Market(d)));
    NothingActs(d, start, d.day);
    assert SellUpTo(env, start, 0, [], 0) == Ok(start);
    NothingEntered(d, start, 0);
    var recorded := Noted(env, start, 0);
    assert MarkUpTo(env, recorded, d.day, [], 0) == Ok(recorded);
  }

  lemma NothingActs(d: Deal, st: State, date: Date)
    requires st.book == Dict([], map[])
    ensures ActOn(Market(d), st, date) == Ok(st)
  {
    assert PlansFor(Market(d).Transitions(), st.book, date, 0) == Ok([]);
    assert st.actions + [] == st.actions;
  }

  lemma NothingEntered(d: Deal, st: State, i: nat)
    requires i in {0, 2} && st.book == Dict([], map[])
    ensures Enter(Market(d), st, i) == Ok(Noted(Market(d), st, i))
    ensures Recorded(Noted(Market(d), st, i)) == Noted(Market(d), st, i) == st.(slips := Dict([], map[]))
  {
    assert st.intents + [] == st.intents;
    assert Executable(Market(d), Market(d).calendar[i], []) == [];
  }

  lemma Buying(d: Deal, st: State)
    requires Tradable(d) && st.cash == d.cash && st.book == Dict([], map[]) && st.trades == [] && st.slips.at.Keys == {CODE}
    ensures BuyStep(Market(d), st, 1, BuyRates(d), d.cash, CODE).Ok?
    ensures var after := BuyStep(Market(d), st, 1, BuyRates(d), d.cash, CODE).value;
            && after.cash == Rest(d) && after.book == Dict([CODE], map[CODE := Held(d)])
            && |after.trades| == 1 && after.trades[0].code == CODE && after.trades[0].date == d.day + 1
            && after.dayValue == st.dayValue && after.stopped == st.stopped
  {
    hide MaximumAffordable, Charge, Resolve, SlotFits, SlotSlack, ValidPolicy, Settled;
    BuyingIsPossible(d);
    assert d.cash <= d.cash * OVERSPEND_GUARD;
  }

  lemma IsNoted(d: Deal, st: State)
    ensures var noted := Noted(Market(d), st, 1);
            noted == st.(slips := noted.slips) && noted.slips.at.Keys == {CODE}
  {
    hide Slip;
    assert SlipsUpTo(Market(d), st, 1, [CODE], 0) == Dict([], map[]);
  }

  lemma IsExecutable(d: Deal, st: State)
    ensures var env := Market(d);
            && Candidates([CODE], map[]) == [CODE] && Executable(env, d.day + 1, [CODE]) == [CODE]
            && RejectUpTo(env, st, d.day + 1, [CODE], 1) == st
  {
    var env := Market(d);
    assert Candidates([CODE], map[]) == [CODE] by { assert Candidates([], map[]) == []; }
    assert Executable(env, d.day + 1, [CODE]) == [CODE] by { assert Executable(env, d.day + 1, []) == []; }
    assert RejectUpTo(env, st, d.day + 1, [CODE], 1) == st by { assert RejectUpTo(env, st, d.day + 1, [CODE], 0) == st; }
  }

  lemma Entering(d: Deal, st: State)
    requires Tradable(d) && st.cash == d.cash && st.book == Dict([], map[]) && st.trades == []
    ensures Enter(Market(d), st, 1).Ok?
    ensures var after := Enter(Market(d), st, 1).value;
            && after.cash == Rest(d) && after.book == Dict([CODE], map[CODE := Held(d)])
            && |after.trades| == 1 && after.trades[0].code == CODE && after.trades[0].date == d.day + 1
            && after.dayValue == st.dayValue && after.stopped == st.stopped
  {
    hide BuyStep, MaximumAffordable, Noted, Executable, Candidates, RejectUpTo, Resolve, SlotFits, ValidPolicy, Held, Rest;
    var env, noted := Market(d), Noted(Market(d), st, 1);
    IsNoted(d, st);
    IsExecutable(d, noted);
    Buying(d, noted);
    assert BuyUpTo(env, noted, 1, BuyRates(d), d.cash, [CODE], 0) == Ok(noted);
    assert BuyUpTo(env, noted, 1, BuyRates(d), d.cash, [CODE], 1) == BuyStep(env, noted, 1, BuyRates(d), d.cash, CODE);
  }

  lemma Marking(d: Deal, st: State)
    requires Tradable(d) && st.book == Dict([CODE], map[CODE := Held(d)]) && st.dayValue == Some(0.0)
    ensures MarkUpTo(Market(d), st, d.day + 1, [CODE], 1).Ok?
    ensures var after := MarkUpTo(Market(d), st, d.day + 1, [CODE], 1).value;
            && after.cash == st.cash && after.book == st.book && after.trades == st.trades && after.stopped == st.stopped
            && after.dayValue == Some(Bought(d))
  {
    hide Bought, Resolve, SlotFits, ValidPolicy;
    assert MarkUpTo(Market(d), st, d.day + 1, [CODE], 0) == Ok(st);
    assert Revalued(Market(d), Held(d), Market(d).PriceAt(d.day + 1, CODE), d.day + 1) == Ok(Held(d));
    assert MarkUpTo(Market(d), st, d.day + 1, [CODE], 1) == MarkStep(Market(d), st, d.day + 1, CODE);
  }

  lemma DayTwo(d: Deal, st: State) returns (two: State)
    requires Tradable(d) && AfterDayOne(d, st)
    ensures Session(Market(d), st, 1) == Ok(two) && AfterDayTwo(d, two)
  {
    hide Enter, Bought, Rest, Turnover, DailyRow, MarkUpTo, Resolve, SlotFits, ValidPolicy, ActOn;
    var env, start := Market(d), Opened(st);
    NothingActs(d, start, d.day + 1);
    assert SellUpTo(env, start, 1, [], 0) == Ok(start);
    Entering(d, start);
    var recorded := Recorded(Enter(env, start, 1).value);
    Marking(d, recorded);
    BuyingIsPossible(d);
    two := Session(env, st, 1).value;
  }

  /** The exits of the third session. */
  lemma {:induction false} Selling(d: Deal, st: State)
    requires Tradable(d) && st.book == Dict([CODE], map[CODE := Held(d)]) && st.cash == Rest(d)
    ensures ActOn(Market(d), st, d.day + 2) == Ok(st)
    ensures SellUpTo(Market(d), st, 2, [CODE], 1).Ok?
    ensures var sold := SellUpTo(Market(d), st, 2, [CODE], 1).value;
            && sold.cash == Final(d) && sold.book == Dict([], map[]) && sold.dayValue == st.dayValue && sold.stopped == st.stopped
            && |sold.trades| == |st.trades| + 1 && sold.trades[..|st.trades|] == st.trades && !IsOpening(sold.trades[|st.trades|])
  {
    hide Bought, Rest, Resolve, SlotFits, ValidPolicy, SellStep;
    assert Market(d).Transitions() == map[];
    assert PlansFor(map[], st.book, d.day + 2, 0) == Ok([]);
    assert PlansFor(map[], st.book, d.day + 2, 1) == Ok([]);
    assert st.actions + [] == st.actions;
    SellingOne(d, st);
    assert SellUpTo(Market(d), st, 2, [CODE], 0) == Ok(st);
    assert SellUpTo(Market(d), st, 2, [CODE], 1) == SellStep(Market(d), st, 2, CODE);
  }

  lemma {:induction false} SellingOne(d: Deal, st: State)
    requires Tradable(d) && st.book == Dict([CODE], map[CODE := Held(d)]) && st.cash == Rest(d)
    ensures SellStep(Market(d), st, 2, CODE).Ok?
    ensures var sold := SellStep(Market(d), st, 2, CODE).value;
            && sold.cash == Final(d) && sold.book == Dict([], map[]) && sold.dayValue == st.dayValue && sold.stopped == st.stopped
            && |sold.trades| == |st.trades| + 1 && sold.trades[..|st.trades|] == st.trades && !IsOpening(sold.trades[|st.trades|])
  {
    hide Bought, Rest, Resolve, SlotFits, ValidPolicy, Charge;
    BuyingIsPossible(d);
    assert Without([CODE], CODE) == [];
    assert Times(Bought(d), d.price) >= 0.0;
  }

  lemma DayThree(d: Deal, st: State)
    requires Tradable(d) && AfterDayTwo(d, st)
    ensures var after := Session(Market(d), st, 2);
            if Final(d) >= -CASH_TOLERANCE then after.Ok? && Ends(d, st, after.value) else after == Err(AccountingInvariant)
  {
    hide SellUpTo, Enter, Bought, Rest, Final, Turnover, Resolve, SlotFits, ValidPolicy, ActOn, Held, Noted, Recorded;
    var env, start := Market(d), Opened(st);
    Selling(d, start);
    var sold := SellUpTo(env, start, 2, [CODE], 1).value;
    NothingEntered(d, sold, 2);
    var recorded := Noted(env, sold, 2);
    assert MarkUpTo(env, recorded, d.day + 2, [], 0) == Ok(recorded);
  }

  /** Everything is sold, and the last published row shows the final cash. */
  ghost predicate Ends(d: Deal, before: State, st: State)
    requires Tradable(d)
  {
    && st.cash == Final(d) && st.book == Dict([], map[])
    && |st.trades| == |before.trades| + 1 && st.trades[..|before.trades|] == before.trades && !IsOpening(st.trades[|before.trades|])
    && st.daily != [] && st.daily[|st.daily| - 1].cash == Final(d)
  }

  /** Before the third session nothing has been stopped or refused. */
  ghost predicate Reaches(d: Deal, two: State) {
    First(Market(d)) == 0 && RunUpTo(Market(d), 2) == Ok(two)
    && Tradable(d) && AfterDayTwo(d, two)
  }

  /** The third session succeeds exactly if the final cash is within the tolerance of its checks. */
  ghost predicate Concludes(d: Deal, two: State, r: Result<State, Failure>)
    requires Tradable(d)
  {
    match r
    case Ok(st) => Final(d) >= -CASH_TOLERANCE && Ends(d, two, st)
    case Err(f) => Final(d) < -CASH_TOLERANCE && f == AccountingInvariant
  }

  /** The whole run. */
  lemma AllDays(d: Deal) returns (two: State)
    requires Tradable(d)
    ensures Reaches(d, two) && Concludes(d, two, Sessions(Market(d)))
  {
    hide Session, Resolve, SlotFits, ValidPolicy, Ends, Final, Rest, Held, First;
    var env := Market(d);
    StartsAtOnce(d);
    assert RunUpTo(env, 0) == Ok(Initial(env));
    DayOne(d);
    var one := Session(env, Initial(env), 0).value;
    assert RunUpTo(env, 1) == Ok(one);
    two := DayTwo(d, one);
    assert RunUpTo(env, 2) == Ok(two);
    DayThree(d, two);
  }

  lemma NoLateFill(d: Deal, st: State)
    ensures !LateFill(Market(d), st.trades)
  {
    assert Market(d).Transitions() == map[];
  }

  /** With no renamings the closing checks have nothing to refuse. */
  lemma RunIsPublished(d: Deal)
    requires Tradable(d) && Final(d) >= -CASH_TOLERANCE
    ensures Simulate(Market(d)) == Sessions(Market(d)) && Sessions(Market(d)).Ok?
    ensures var st := Sessions(Market(d)).value; st.daily != [] && st.daily[|st.daily| - 1].cash == Final(d)
  {
    hide Resolve, SlotFits, ValidPolicy, Final, Governed, EntriesFollowSignals, First, RunUpTo, Simulate, AfterDayTwo, Rest, Held;
    MarketIsGoverned(d);
    var two := AllDays(d);
    NoLateFill(d, Sessions(Market(d)).value);
    ClosingChecksDecide(Market(d));
    PublishedIsSessions(Market(d));
  }

  lemma PublishedIsSessions(env: Env)
    requires Simulate(env).Ok?
    ensures Simulate(env) == Sessions(env)
  {
    hide Sessions, LifecyclesReconcile, ActionLedgerReconciles;
  }

  // ----- a sale of dust -----

  const DUST := 0.0000001

  /** One unit of cash, a minimum commission of five grains of dust, and a price that falls to one. */
  const DUST_DEAL := Deal([Schedule(1, 0.0, 5.0 * DUST, 0.0, 0.0, 0.0)], 1, 1.0, DUST)

  const DUST_RATES := Rates(0.0, 5.0 * DUST, 0.0, 0.0, 0.0)

  lemma HalvingsAreSmall()
    ensures 0.0 < Halved(1.0, BISECTION_STEPS) <= DUST
  {
    HalvedIsSmaller(1.0, BISECTION_STEPS);
    HalvedIsDivision(1.0, BISECTION_STEPS);
    SixtyFourTwos();
    SmallQuotient(Halved(1.0, BISECTION_STEPS), TwoToThe(BISECTION_STEPS), 16777216.0);
  }

  lemma SmallQuotient(x: real, y: real, bound: real)
    requires x > 0.0 && x * y == 1.0 && y >= bound > 0.0
    ensures x <= 1.0 / bound
  {
    assert x * bound <= x * y;
  }

  lemma {:induction false} TwosGrow(n: nat)
    ensures TwoToThe(n) >= 1.0
  {
    if n > 0 {
      TwosGrow(n - 1);
    }
  }

  lemma SixtyFourTwos()
    ensures TwoToThe(BISECTION_STEPS) >= 16777216.0
  {
    assert TwoToThe(0) == 1.0;
    TwosAdd(0, 8);
    TwosAdd(8, 8);
    TwosAdd(16, 8);
    TwosAdd(24, 40);
    TwosGrow(40);
    assert TwoToThe(8) == 256.0;
  }

  lemma {:induction false} TwosAdd(m: nat, n: nat)
    ensures TwoToThe(m + n) == Times(TwoToThe(m), TwoToThe(n))
  {
    if n > 0 {
      TwosAdd(m, n - 1);
      assert m + n - 1 == m + (n - 1);
      assert 2.0 * (TwoToThe(m) * TwoToThe(n - 1)) == TwoToThe(m) * (2.0 * TwoToThe(n - 1));
    }
  }

  lemma DustIsTradable()
    ensures Tradable(DUST_DEAL) && BuyRates(DUST_DEAL) == SellRates(DUST_DEAL) == DUST_RATES
  {
    hide Halved;
    HalvingsAreSmall();
    assert LastApplicable(DUST_DEAL.costs, 2) == Some(DUST_DEAL.costs[0]) == LastApplicable(DUST_DEAL.costs, 3);
  }

  lemma DustFinal()
    ensures Tradable(DUST_DEAL) && -CASH_TOLERANCE <= Final(DUST_DEAL) < 0.0
  {
    hide Halved, MaximumAffordable, Tradable, SlotFits;
    HalvingsAreSmall();
    DustIsTradable();
    BuyingIsPossible(DUST_DEAL);
    var gross := Times(Bought(DUST_DEAL), DUST);
    DustTimes(Bought(DUST_DEAL));
    DustCharge(gross);
  }

  lemma DustTimes(x: real)
    requires 0.0 < x < 1.0
    ensures 0.0 < Times(x, DUST) < DUST
  {}

  lemma DustCharge(gross: real)
    requires gross > 0.0
    ensures Charge(DUST_RATES, gross).Total() == 5.0 * DUST
  {}

  /** A strict governed run that is published with an overdrawn account: the sale brings one grain of
      dust and costs five, within the tolerance of the accounting checks. */
  lemma DustSaleOverdraws()
    ensures var env := Market(DUST_DEAL);
            && Governed(env) && EntriesFollowSignals(env) && ClosesArePositive(env) && env.strict
            && Simulate(env).Ok?
            && var st := Simulate(env).value; st.daily != [] && st.daily[|st.daily| - 1].cash < 0.0
  {
    hide Simulate, Governed, EntriesFollowSignals, ClosesArePositive, Tradable, Final, First, Sessions;
    DustFinal();
    MarketIsGoverned(DUST_DEAL);
    RunIsPublished(DUST_DEAL);
  }

  // ----- which policies are safe -----

  /** The exits of a session of the run leave the account overdrawn. */
  ghost predicate OverdrawsAt(env: Env, i: nat)
    requires First(env) <= i < |env.calendar|
  {
    && RunUpTo(env, i).Ok? && !RunUpTo(env, i).value.stopped
    && var acted := ActOn(env, Opened(RunUpTo(env, i).value), env.calendar[i]);
       acted.Ok?
       && var order := acted.value.book.order;
          var sold := SellUpTo(env, acted.value, i, order, |order|); sold.Ok? && sold.value.cash < 0.0
  }

  ghost predicate Overdraws(env: Env) {
    exists i :: First(env) <= i < |env.calendar| && OverdrawsAt(env, i)
  }

  ghost predicate Fair(env: Env) {
    Governed(env) && EntriesFollowSignals(env) && ClosesArePositive(env)
  }

  lemma SaleOverdraws(d: Deal)
    requires Tradable(d) && Final(d) < 0.0
    ensures Fair(Market(d)) && Overdraws(Market(d))
  {
    hide Tradable, Final, Governed, EntriesFollowSignals, ClosesArePositive, SellUpTo, ActOn, Concludes, RunUpTo, Held, Rest;
    MarketIsGoverned(d);
    var two := AllDays(d);
    StandsAtTwo(d, two);
    Selling(d, Opened(two));
    assert OverdrawsAt(Market(d), 2);
  }

  lemma StandsAtTwo(d: Deal, two: State)
    requires Tradable(d) && AfterDayTwo(d, two)
    ensures var st := Opened(two);
            st.book == Dict([CODE], map[CODE := Held(d)]) && st.cash == Rest(d) && !two.stopped && st.book.order == [CODE]
  {}

  function BuyOf(s: Schedule): Rates {
    Rates(s.commissionRate, s.minimumCommission, 0.0, s.transferFeeRate, s.slippageRate)
  }

  function SellOf(s: Schedule): Rates {
    Rates(s.commissionRate, s.minimumCommission, s.stampDutySell, s.transferFeeRate, s.slippageRate)
  }

  /** The regime is in force on two days in a row, and can buy something with some cash. */
  ghost predicate UsableAt(costs: seq<Schedule>, s: Schedule, day: Date, cash: real) {
    LastApplicable(costs, day + 1) == Some(s) == LastApplicable(costs, day + 2) && cash > 0.0 && SlotFits(BuyOf(s), cash)
  }

  lemma RatesInForce(d: Deal, s: Schedule)
    requires LastApplicable(d.costs, d.day + 1) == Some(s) == LastApplicable(d.costs, d.day + 2)
    ensures Resolve(d.costs, d.day + 1, Buy) == Ok(BuyOf(s)) && Resolve(d.costs, d.day + 2, Sell) == Ok(SellOf(s))
  {
    hide LastApplicable;
  }

  /** Rates above one: a price high enough makes the costs of the sale outgrow all cash. */
  lemma HighRatesOverdraw(costs: seq<Schedule>, s: Schedule, day: Date, cash: real) returns (d: Deal)
    requires ValidPolicy(costs) && UsableAt(costs, s, day, cash) && SellOf(s).Proportional() > 1.0
    ensures d.costs == costs && Tradable(d) && Final(d) < 0.0
  {
    hide MaximumAffordable, SlotFits, LastApplicable, ValidPolicy, Charge, SlotSlack, SlotOutlay;
    var excess, bought := SellOf(s).Proportional() - 1.0, MaximumAffordable(BuyOf(s), cash);
    d := Deal(costs, day, cash, 1.0);
    RatesInForce(d, s);
    BuyingIsPossible(d);
    var gross := cash / excess + 1.0;
    PositiveQuotient(cash, excess);
    d := d.(price := gross / bought);
    PriceFor(bought, gross);
    RatesInForce(d, s);
    BuyingIsPossible(d);
    ChargeIsAtLeast(SellOf(s), gross);
    ExcessOutgrows(cash, excess, gross);
  }

  lemma PositiveQuotient(x: real, y: real)
    requires x > 0.0 && y > 0.0
    ensures x / y > 0.0
  {}

  lemma PriceFor(bought: real, gross: real)
    requires bought > 0.0 && gross > 0.0
    ensures gross / bought > 0.0 && Times(bought, gross / bought) == gross
  {}

  lemma ChargeIsAtLeast(rates: Rates, gross: real)
    requires rates.Valid() && gross > 0.0
    ensures Charge(rates, gross).Total() >= Times(gross, rates.Proportional())
    ensures Charge(rates, gross).Total() >= rates.minimumCommission
  {
    assert gross * rates.Proportional()
        == gross * rates.commission + gross * rates.stampDuty + gross * rates.transferFee + gross * rates.slippage;
  }

  lemma ExcessOutgrows(cash: real, excess: real, gross: real)
    requires cash > 0.0 && excess > 0.0 && gross == cash / excess + 1.0
    ensures Times(gross, excess + 1.0) > gross + cash
  {
    assert gross * excess == cash + excess;
  }

  /** A minimum commission: a price low enough makes it outweigh the sale and the cash left over. */
  lemma MinimumOverdraws(costs: seq<Schedule>, s: Schedule, day: Date) returns (d: Deal)
    requires ValidPolicy(costs) && LastApplicable(costs, day + 1) == Some(s) == LastApplicable(costs, day + 2)
    requires s.minimumCommission > 0.0 && SellOf(s).Proportional() <= 1.0
    ensures d.costs == costs && Tradable(d) && Final(d) < 0.0
  {
    hide MaximumAffordable, LastApplicable, ValidPolicy, Charge, SlotOutlay, Halved, SlotFits, SlotSlack;
    var least := s.minimumCommission;
    var cash := 4.0 * least;
    d := Deal(costs, day, cash, 1.0);
    RatesInForce(d, s);
    assert BuyOf(s).Valid() && SellOf(s).Valid() by { RegimeIsValid(d, s); }
    FourFoldFits(BuyOf(s), least);
    BuyingIsPossible(d);
    var bought := MaximumAffordable(BuyOf(s), cash);
    d := d.(price := (least / 4.0) / bought);
    PriceFor(bought, least / 4.0);
    RatesInForce(d, s);
    BuyingIsPossible(d);
    ChargeIsAtLeast(SellOf(s), least / 4.0);
  }

  lemma RegimeIsValid(d: Deal, s: Schedule)
    requires ValidPolicy(d.costs) && LastApplicable(d.costs, d.day + 1) == Some(s)
    ensures BuyOf(s).Valid() && SellOf(s).Valid()
  {
    LastApplicableIsInForce(d.costs, d.day + 1);
  }

  lemma FourFoldFits(rates: Rates, least: real)
    requires rates.Valid() && rates.minimumCommission == least > 0.0 && rates.Proportional() <= 1.0
    ensures SlotFits(rates, 4.0 * least) && SlotSlack(rates, 4.0 * least) <= least / 4.0
  {
    hide Halved, Charge, Times;
    HalvingsAreSmall();
    HalvedScales(4.0 * least, BISECTION_STEPS);
    Scaled(4.0 * least, Halved(1.0, BISECTION_STEPS));
    SmallNotionalFits(rates, least, Halved(4.0 * least, BISECTION_STEPS));
  }

  lemma SmallNotionalFits(rates: Rates, least: real, h: real)
    requires rates.Valid() && rates.minimumCommission == least > 0.0 && rates.Proportional() <= 1.0
    requires 0.0 < h <= least / 250.0
    ensures Fits(rates, 4.0 * least, h) && (1.0 + rates.Proportional()) * h <= least / 4.0
  {
    hide Charge;
    ShareAtMost(h, rates.Proportional());
    SmallChargeAtMost(rates, h);
  }

  lemma Scaled(x: real, h: real)
    requires x > 0.0 && 0.0 < h <= DUST
    ensures 0.0 < Times(x, h) <= x / 1000.0
  {
    assert x * h <= x * DUST;
  }

  lemma ShareAtMost(h: real, rate: real)
    requires h > 0.0 && 0.0 <= rate <= 1.0
    ensures (1.0 + rate) * h <= 2.0 * h
  {}

  lemma SmallChargeAtMost(rates: Rates, gross: real)
    requires rates.Valid() && gross > 0.0 && rates.Proportional() <= 1.0
    ensures Charge(rates, gross).Total() <= rates.minimumCommission + gross
  {
    var share := rates.stampDuty + rates.transferFee + rates.slippage;
    assert Charge(rates, gross).Total() == Charge(rates, gross).commission + Times(gross, share) by {
      assert gross * share == gross * rates.stampDuty + gross * rates.transferFee + gross * rates.slippage;
    }
    ShareOfGross(gross, rates.commission, share);
    assert Times(gross, rates.commission) >= 0.0;
  }

  lemma {:induction false} HalvedScales(x: real, n: nat)
    ensures Halved(x, n) == Times(x, Halved(1.0, n))
  {
    if n > 0 {
      HalvedScales(x, n - 1);
      assert x * (Halved(1.0, n - 1) / 2.0) == (x * Halved(1.0, n - 1)) / 2.0;
    }
  }

  /** Proportional costs never overdraw: not even within a session. */
  lemma ProportionalNeverOverdraws(env: Env)
    requires Fair(env) && ProportionalCosts(env.costs)
    ensures !Overdraws(env)
  {
    hide OverdrawsAt, Fair, First, ProportionalCosts;
    forall i | First(env) <= i < |env.calendar|
      ensures !OverdrawsAt(env, i)
    {
      SessionNeverOverdraws(env, i);
    }
  }

  lemma SessionNeverOverdraws(env: Env, i: nat)
    requires Fair(env) && ProportionalCosts(env.costs) && First(env) <= i < |env.calendar|
    ensures !OverdrawsAt(env, i)
  {
    hide RunUpTo, ActOn, SellUpTo, Governed, EntriesFollowSignals, ClosesArePositive, ProportionalCosts, Solvent, SalesCovered, Grown, First,
         Ready, Keyed, Dict.Valid, Funded;
    if OverdrawsAt(env, i) {
      var st := RunUpTo(env, i).value;
      GovernedPolicy(env);
      ProportionalRunsCover(env, i);
      RunIsSolvent(env, i);
      var m := RunIsReady(env, i);
      ReadyAccount(env, st, m);
      OpenedIsFunded(st);
      ActingIsFunded(env, Opened(st), env.calendar[i]);
      var acted := ActOn(env, Opened(st), env.calendar[i]).value;
      RunGrows(env, i);
      ActedTrades(env, st, env.calendar[i]);
      SellsGrow(env, acted, i, acted.book.order, |acted.book.order|);
      var sold := SellUpTo(env, acted, i, acted.book.order, |acted.book.order|).value;
      GrownTwice(env, [], st.trades, sold.trades);
      ExactIsCovered(env, sold.trades);
      SellingIsFunded(env, acted, i, acted.book.order, |acted.book.order|);
      FundedCash(sold);
      assert false;
    }
  }

  lemma OpenedIsFunded(st: State)
    requires Solvent(st) && Keyed(st.book)
    ensures Funded(Opened(st)) && Keyed(Opened(st).book)
  {}

  lemma ActedTrades(env: Env, st: State, date: Date)
    requires ActOn(env, Opened(st), date).Ok?
    ensures ActOn(env, Opened(st), date).value.trades == st.trades
  {
    hide ApplyEffective;
  }

  lemma FundedCash(st: State)
    requires Funded(st)
    ensures st.cash >= 0.0
  {}

  /** Which policies can overdraw an account at all: as long as each regime lasts two days and can buy
      something, exactly those with a minimum commission or with rates above one somewhere. */
  lemma PolicyIsSafeIff(costs: seq<Schedule>)
    requires ValidPolicy(costs) && forall s :: s in costs ==> exists day, cash :: UsableAt(costs, s, day, cash)
    ensures ProportionalCosts(costs) <==> forall env: Env :: env.costs == costs && Fair(env) ==> !Overdraws(env)
  {
    hide Fair, Overdraws, UsableAt, ValidPolicy, Tradable, Final;
    if ProportionalCosts(costs) {
      forall env: Env | env.costs == costs && Fair(env)
        ensures !Overdraws(env)
      {
        ProportionalNeverOverdraws(env);
      }
    } else {
      var s :| s in costs && !(s.minimumCommission == 0.0 && s.commissionRate + s.stampDutySell + s.transferFeeRate + s.slippageRate <= 1.0);
      var d := RegimeOverdraws(costs, s);
      SaleOverdraws(d);
      assert Market(d).costs == costs;
    }
  }

  lemma RegimeOverdraws(costs: seq<Schedule>, s: Schedule) returns (d: Deal)
    requires ValidPolicy(costs) && s in costs && exists day, cash :: UsableAt(costs, s, day, cash)
    requires !(s.minimumCommission == 0.0 && SellOf(s).Proportional() <= 1.0)
    ensures d.costs == costs && Tradable(d) && Final(d) < 0.0
  {
    hide Tradable, Final;
    var day, cash :| UsableAt(costs, s, day, cash);
    if SellOf(s).Proportional() > 1.0 {
      d := HighRatesOverdraw(costs, s, day, cash);
    } else {
      NoNegativeMinimum(costs, s);
      d := MinimumOverdraws(costs, s, day);
    }
  }

  lemma NoNegativeMinimum(costs: seq<Schedule>, s: Schedule)
    requires ValidPolicy(costs) && s in costs
    ensures s.minimumCommission >= 0.0
  {}
}
