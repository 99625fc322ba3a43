/** All-cash entries never overspend, and as long as every sale covers its costs the account never
    goes below zero, zero equity is final, and session returns compound to the result
    (src/ashare_quant/backtest/engine.py). */
module Solvency {
  import opened Basics
  import opened Costs
  import opened Ledgers
  import opened CorporateActions
  import opened Simulation
  import opened Auditor
  import opened History
  import opened BookInvariant
  import opened LifeInvariant
  import opened MoneyInvariant
  import opened CounterInvariant
  import opened IntentInvariant
  import opened SessionInvariant
  import opened Runs
  import opened AuditTheorem
  import opened ProfitAndLoss

  // ----- all-cash entry -----

  /** What one slot of an equal division of cash spends. */
  function SlotOutlay(rates: Rates, allocation: real): real {
    var g := MaximumAffordable(rates, allocation);
    g + Charge(rates, g).Total()
  }

  predicate SlotFits(rates: Rates, allocation: real) {
    Fits(rates, allocation, Halved(allocation, BISECTION_STEPS))
  }

  /** The most that one filled slot leaves unspent. */
  function SlotSlack(rates: Rates, allocation: real): real {
    (1.0 + rates.Proportional()) * Halved(allocation, BISECTION_STEPS)
  }

  lemma SlotOutlayBounds(rates: Rates, allocation: real)
    requires rates.Valid() && allocation > 0.0
    ensures MaximumAffordable(rates, allocation) >= 0.0
    ensures 0.0 <= SlotOutlay(rates, allocation) <= allocation
    ensures SlotFits(rates, allocation) <==> MaximumAffordable(rates, allocation) > 0.0
    ensures SlotFits(rates, allocation) ==>
              allocation - SlotOutlay(rates, allocation) <= SlotSlack(rates, allocation)
  {
    hide Charge, MaximumAffordable, Halved, Rates.Proportional;
    MaximumAffordableIsTight(rates, allocation, 0.0);
    MaximumAffordableIsZeroIff(rates, allocation);
    ChargeIsNonNegative(rates, MaximumAffordable(rates, allocation));
    if SlotFits(rates, allocation) {
      UnspentIsSmall(rates, allocation);
    }
  }

  lemma BuyStepSpends(env: Env, st: State, i: nat, rates: Rates, allocation: real, code: Code)
    requires i < |env.calendar| && rates.Valid() && 0.0 < allocation <= st.cash
    requires BuyStep(env, st, i, rates, allocation, code).Ok?
    ensures var after := BuyStep(env, st, i, rates, allocation, code).value;
            if SlotFits(rates, allocation) then
              && after.cash == st.cash - SlotOutlay(rates, allocation)
              && code in after.book.at && after.book.at[code].id == PositionId(env.calendar[i], code)
              && (forall c :: c in st.book.at ==> c in after.book.at)
            else after.cash == st.cash && after.book == st.book
  {
    hide MaximumAffordable, Charge, Fits;
    SlotOutlayBounds(rates, allocation);
    var price := env.PriceAt(env.calendar[i], code).value;
    var gross := MaximumAffordable(rates, allocation);
    QuotientSign(gross, price.open.value);
    assert st.cash <= st.cash * OVERSPEND_GUARD;
  }

  lemma QuotientSign(x: real, y: real)
    requires y > 0.0 && x >= 0.0
    ensures x / y > 0.0 <==> x > 0.0
  {}

  lemma SlotsLeft(cash: real, allocation: real, outlay: real, n: nat, k: nat)
    requires k < n && 0.0 <= outlay <= allocation && Times(n as real, allocation) == cash
    ensures cash - Times(k as real, outlay) >= allocation
    ensures Times((k + 1) as real, outlay) == Times(k as real, outlay) + outlay
  {
    assert (k as real) + 1.0 <= n as real;
    SharesLeft(n as real, k as real, allocation, outlay);
  }

  lemma SharesLeft(n: real, k: real, allocation: real, outlay: real)
    requires 0.0 <= k && k + 1.0 <= n && 0.0 <= outlay <= allocation
    ensures Times(n, allocation) - Times(k, outlay) >= allocation
    ensures Times(k + 1.0, outlay) == Times(k, outlay) + outlay
  {
    var room := n - k - 1.0;
    assert k * (allocation - outlay) >= 0.0 && room * allocation >= 0.0;
    assert n * allocation - k * outlay == allocation + room * allocation + k * (allocation - outlay);
  }

  /** Dividing the cash over n executable codes: while slots are being filled the cash always
      covers the remaining ones, so the overspending guard never rejects; a slot is refused only
      if nothing at all is affordable in it. */
  lemma {:induction false} EntriesNeverOverspend(env: Env, st: State, i: nat, rates: Rates, codes: seq<Code>, allocation: real, k: nat)
    requires i < |env.calendar| && rates.Valid() && st.cash > 0.0 && k <= |codes| && codes != []
    requires allocation > 0.0 && Times(|codes| as real, allocation) == st.cash
    requires BuyUpTo(env, st, i, rates, allocation, codes, k).Ok?
    ensures var after := BuyUpTo(env, st, i, rates, allocation, codes, k).value;
            if SlotFits(rates, allocation) then
              && after.cash == st.cash - Times(k as real, SlotOutlay(rates, allocation))
              && (forall j :: 0 <= j < k ==> codes[j] in after.book.at)
            else after.cash == st.cash && after.book == st.book
  {
    hide MaximumAffordable, Charge, SlotFits, SlotOutlay, BuyStep, Times;
    if k > 0 {
      EntriesNeverOverspend(env, st, i, rates, codes, allocation, k - 1);
      SlotOutlayBounds(rates, allocation);
      SlotsLeft(st.cash, allocation, SlotOutlay(rates, allocation), |codes|, k - 1);
      SlotsLeft(st.cash, allocation, 0.0, |codes|, 0);
      ZeroTimes(0.0);
      BuyStepSpends(env, BuyUpTo(env, st, i, rates, allocation, codes, k - 1).value, i, rates, allocation, codes[k - 1]);
    } else {
      ZeroTimes(SlotOutlay(rates, allocation));
    }
  }

  lemma ZeroTimes(x: real)
    ensures Times(0 as real, x) == 0.0
  {}

  lemma EqualShares(cash: real, n: nat)
    requires n > 0 && cash > 0.0
    ensures cash / (n as real) > 0.0 && Times(n as real, cash / (n as real)) == cash
  {}

  /** The whole entry of a day: either no slot can afford anything and nothing changes, or every
      executable code is bought and the cash left lies between zero and (1 + rates) / 2^64 of the
      cash before. */
  lemma AllCashEntry(env: Env, st: State, i: nat, codes: seq<Code>, rates: Rates)
    requires i < |env.calendar| && ValidPolicy(env.costs) && codes != [] && st.cash > 0.0
    requires Resolve(env.costs, env.calendar[i], Buy) == Ok(rates) && BuyAll(env, st, i, codes).Ok?
    ensures var after := BuyAll(env, st, i, codes).value;
            var allocation := st.cash / (|codes| as real);
            if SlotFits(rates, allocation) then
              && (forall c :: c in codes ==> c in after.book.at)
              && 0.0 <= after.cash <= Times(|codes| as real, SlotSlack(rates, allocation))
            else after.cash == st.cash && after.book == st.book
  {
    hide MaximumAffordable, Charge, SlotFits, SlotOutlay, BuyUpTo, Resolve, Times, SlotSlack;
    var n, allocation := |codes|, st.cash / (|codes| as real);
    assert rates.Valid() by { RatesOf(env, i, rates); }
    EqualShares(st.cash, n);
    EntriesNeverOverspend(env, st, i, rates, codes, allocation, n);
    SlotOutlayBounds(rates, allocation);
    LeftOver(st.cash, allocation, SlotOutlay(rates, allocation), SlotSlack(rates, allocation), n);
  }

  lemma RatesOf(env: Env, i: nat, rates: Rates)
    requires i < |env.calendar| && ValidPolicy(env.costs) && Resolve(env.costs, env.calendar[i], Buy) == Ok(rates)
    ensures rates.Valid()
  {
    ResolvedRatesAreValid(env.costs, env.calendar[i], Buy);
  }

  lemma LeftOver(cash: real, allocation: real, outlay: real, slack: real, n: nat)
    requires Times(n as real, allocation) == cash
    ensures 0.0 <= outlay <= allocation ==> cash - Times(n as real, outlay) >= 0.0
    ensures allocation - outlay <= slack ==> cash - Times(n as real, outlay) <= Times(n as real, slack)
  {
    assert cash - (n as real) * outlay == (n as real) * (allocation - outlay);
  }

  // ----- sales and their costs -----

  /** A sale can pay for itself: the rates take at most the whole of it, and the minimum commission
      fits beside the other rates. */
  predicate Covered(rates: Rates, gross: real) {
    gross == 0.0
    || (rates.Proportional() <= 1.0
        && rates.minimumCommission <= Times(gross, 1.0 - (rates.stampDuty + rates.transferFee + rates.slippage)))
  }

  lemma ChargeIsCoveredIff(rates: Rates, gross: real)
    requires rates.Valid() && gross >= 0.0
    ensures Charge(rates, gross).Total() <= gross <==> Covered(rates, gross)
  {
    var others := rates.stampDuty + rates.transferFee + rates.slippage;
    var rest := Charge(rates, gross).commission;
    assert Charge(rates, gross).Total() == rest + Times(gross, others) by {
      assert gross * others == gross * rates.stampDuty + gross * rates.transferFee + gross * rates.slippage;
    }
    if gross > 0.0 {
      assert rest == if Times(gross, rates.commission) < rates.minimumCommission then rates.minimumCommission else Times(gross, rates.commission);
      ShareOfGross(gross, rates.commission, others);
    }
  }

  lemma ShareOfGross(gross: real, x: real, y: real)
    requires gross > 0.0
    ensures Times(gross, x) + Times(gross, y) <= gross <==> x + y <= 1.0
    ensures Times(gross, 1.0 - y) == gross - Times(gross, y)
  {
    assert gross * (1.0 - (x + y)) == gross - (gross * x + gross * y);
  }

  /** A sale costs at most what it brings exactly if the gross meets the bound of the rates in force. */
  lemma SalesCoverCosts(env: Env, date: Date, gross: real)
    requires ValidPolicy(env.costs) && Calculate(env.costs, date, Sell, gross).Ok?
    ensures Calculate(env.costs, date, Sell, gross).value.Total() <= gross
            <==> Covered(Resolve(env.costs, date, Sell).value, gross)
  {
    hide Charge, LastApplicable, ValidPolicy, TradeCosts.Total, Covered;
    ResolvedRatesAreValid(env.costs, date, Sell);
    ChargeIsCoveredIff(Resolve(env.costs, date, Sell).value, gross);
  }

  predicate IsSale(t: Trade) { t.side == Sell && t.status == Filled }

  /** Every sale brings at least its costs. */
  ghost predicate SalesCovered(trades: seq<Trade>) {
    forall t :: t in trades && IsSale(t) ==> t.cost <= t.gross
  }

  /** The costs of a sale are the calculated ones. */
  ghost predicate SaleExact(env: Env, t: Trade) {
    IsSale(t) ==> Calculate(env.costs, t.date, Sell, t.gross) == Ok(t.costs) && t.cost == t.costs.Total()
  }

  /** A log that only grows, by sales with the calculated costs. */
  ghost predicate Grown(env: Env, before: seq<Trade>, after: seq<Trade>) {
    && (forall t :: t in before ==> t in after)
    && (forall t :: t in after && t !in before ==> SaleExact(env, t))
  }

  lemma GrownBy(env: Env, before: seq<Trade>, t: Trade)
    requires SaleExact(env, t)
    ensures Grown(env, before, before + [t])
  {
    hide SaleExact;
  }

  lemma GrownTwice(env: Env, a: seq<Trade>, b: seq<Trade>, c: seq<Trade>)
    requires Grown(env, a, b) && Grown(env, b, c)
    ensures Grown(env, a, c)
  {
    hide SaleExact;
  }

  lemma SellStepGrows(env: Env, st: State, i: nat, code: Code)
    requires i < |env.calendar| && SellStep(env, st, i, code).Ok?
    ensures Grown(env, st.trades, SellStep(env, st, i, code).value.trades)
  {
    hide SellStep, Calculate, Grown;
    var open, costs := SellStepCases(env, st, i, code);
    var after := SellStep(env, st, i, code).value;
    if after.trades == st.trades {
      GrownNot(env, st.trades);
    } else {
      assert after.trades == st.trades + [after.trades[|st.trades|]];
      GrownBy(env, st.trades, after.trades[|st.trades|]);
    }
  }

  lemma GrownNot(env: Env, trades: seq<Trade>)
    ensures Grown(env, trades, trades)
  {}

  lemma {:induction false} SellsGrow(env: Env, st: State, i: nat, codes: seq<Code>, k: nat)
    requires i < |env.calendar| && k <= |codes| && SellUpTo(env, st, i, codes, k).Ok?
    ensures Grown(env, st.trades, SellUpTo(env, st, i, codes, k).value.trades)
  {
    hide SellStep, Grown;
    if k > 0 {
      SellsGrow(env, st, i, codes, k - 1);
      var before := SellUpTo(env, st, i, codes, k - 1).value;
      SellStepGrows(env, before, i, codes[k - 1]);
      GrownTwice(env, st.trades, before.trades, SellStep(env, before, i, codes[k - 1]).value.trades);
    } else {
      GrownNot(env, st.trades);
    }
  }

  lemma {:induction false} RejectionsGrow(env: Env, st: State, date: Date, codes: seq<Code>, k: nat)
    requires k <= |codes|
    ensures Grown(env, st.trades, RejectUpTo(env, st, date, codes, k).trades)
  {
    hide Calculate;
    if k > 0 {
      RejectionsGrow(env, st, date, codes, k - 1);
    }
  }

  lemma BuyStepGrows(env: Env, st: State, i: nat, rates: Rates, allocation: real, code: Code)
    requires i < |env.calendar| && BuyStep(env, st, i, rates, allocation, code).Ok?
    ensures Grown(env, st.trades, BuyStep(env, st, i, rates, allocation, code).value.trades)
  {
    hide MaximumAffordable, Charge, Settled, TradeCosts.Total, Dict.Put, Calculate, Grown;
    var after := BuyStep(env, st, i, rates, allocation, code).value;
    if after.trades == st.trades {
      GrownNot(env, st.trades);
    } else {
      assert after.trades == st.trades + [after.trades[|st.trades|]];
      GrownBy(env, st.trades, after.trades[|st.trades|]);
    }
  }

  lemma {:induction false} BuysGrow(env: Env, st: State, i: nat, rates: Rates, allocation: real, codes: seq<Code>, k: nat)
    requires i < |env.calendar| && k <= |codes| && BuyUpTo(env, st, i, rates, allocation, codes, k).Ok?
    ensures Grown(env, st.trades, BuyUpTo(env, st, i, rates, allocation, codes, k).value.trades)
  {
    hide BuyStep, Grown;
    if k > 0 {
      BuysGrow(env, st, i, rates, allocation, codes, k - 1);
      var before := BuyUpTo(env, st, i, rates, allocation, codes, k - 1).value;
      BuyStepGrows(env, before, i, rates, allocation, codes[k - 1]);
      GrownTwice(env, st.trades, before.trades, BuyStep(env, before, i, rates, allocation, codes[k - 1]).value.trades);
    } else {
      GrownNot(env, st.trades);
    }
  }

  lemma EntryGrows(env: Env, st: State, i: nat)
    requires i < |env.calendar| && Enter(env, st, i).Ok?
    ensures Grown(env, st.trades, Enter(env, st, i).value.trades)
  {
    hide RejectUpTo, BuyUpTo, Resolve, SlipsUpTo, Candidates, Executable, Grown;
    var date := env.calendar[i];
    var candidates := Candidates(env.Selected(date), st.book.at);
    var noted := Noted(env, st, i);
    var ready := RejectUpTo(env, noted, date, candidates, |candidates|);
    var codes := Executable(env, date, candidates);
    RejectionsGrow(env, noted, date, candidates, |candidates|);
    if codes != [] && ready.cash > 0.0 {
      var rates, allocation := Resolve(env.costs, date, Buy).value, ready.cash / (|codes| as real);
      BuysGrow(env, ready, i, rates, allocation, codes, |codes|);
      GrownTwice(env, st.trades, ready.trades, BuyUpTo(env, ready, i, rates, allocation, codes, |codes|).value.trades);
    }
  }

  /** A session adds to the log of its exits. */
  lemma SessionGrows(env: Env, st: State, i: nat)
    requires i < |env.calendar| && Session(env, st, i).Ok?
    ensures ActOn(env, Opened(st), env.calendar[i]).Ok?
    ensures var acted := ActOn(env, Opened(st), env.calendar[i]).value;
            && SellUpTo(env, acted, i, acted.book.order, |acted.book.order|).Ok?
            && var sold := SellUpTo(env, acted, i, acted.book.order, |acted.book.order|).value;
               Grown(env, st.trades, sold.trades) && Grown(env, sold.trades, Session(env, st, i).value.trades)
    ensures Grown(env, st.trades, Session(env, st, i).value.trades)
  {
    hide ApplyEffective, SellUpTo, Enter, MarkUpTo, Grown, AccountingHolds;
    var date := env.calendar[i];
    var acted := ActOn(env, Opened(st), date).value;
    SellsGrow(env, acted, i, acted.book.order, |acted.book.order|);
    var sold := SellUpTo(env, acted, i, acted.book.order, |acted.book.order|).value;
    EntryGrows(env, sold, i);
    var recorded := Recorded(Enter(env, sold, i).value);
    MarksAddNoTrades(env, recorded, date, recorded.book.order, |recorded.book.order|);
    GrownTwice(env, st.trades, sold.trades, Session(env, st, i).value.trades);
  }

  lemma {:induction false} RunGrows(env: Env, n: nat)
    requires First(env) <= n <= |env.calendar| && RunUpTo(env, n).Ok?
    ensures Grown(env, [], RunUpTo(env, n).value.trades)
    decreases n
  {
    hide Session, Grown;
    if n == First(env) {
      GrownNot(env, []);
    } else {
      RunGrows(env, n - 1);
      var st := RunUpTo(env, n - 1).value;
      if !st.stopped {
        SessionGrows(env, st, n - 1);
        GrownTwice(env, [], st.trades, Session(env, st, n - 1).value.trades);
      }
    }
  }

  lemma CoveredBefore(env: Env, before: seq<Trade>, after: seq<Trade>)
    requires Grown(env, before, after) && SalesCovered(after)
    ensures SalesCovered(before)
  {}

  /** Whether the sales of a run cover their costs can be read off their gross values and the rates
      in force. */
  lemma RunSalesCoveredIff(env: Env, n: nat)
    requires ValidPolicy(env.costs) && First(env) <= n <= |env.calendar| && RunUpTo(env, n).Ok?
    ensures var trades := RunUpTo(env, n).value.trades;
            && (forall t :: t in trades && IsSale(t) ==> Resolve(env.costs, t.date, Sell).Ok?)
            && (SalesCovered(trades) <==>
                forall t :: t in trades && IsSale(t) ==> Covered(Resolve(env.costs, t.date, Sell).value, t.gross))
  {
    hide RunUpTo, Charge, Resolve, Covered, ValidPolicy;
    RunGrows(env, n);
    forall t | t in RunUpTo(env, n).value.trades && IsSale(t)
      ensures Resolve(env.costs, t.date, Sell).Ok?
      ensures t.cost <= t.gross <==> Covered(Resolve(env.costs, t.date, Sell).value, t.gross)
    {
      assert SaleExact(env, t);
      SalesCoverCosts(env, t.date, t.gross);
    }
  }

  /** No minimum commission, and sale costs of at most the whole proceeds. */
  ghost predicate ProportionalCosts(schedules: seq<Schedule>) {
    forall s :: s in schedules ==>
      s.minimumCommission == 0.0 && s.commissionRate + s.stampDutySell + s.transferFeeRate + s.slippageRate <= 1.0
  }

  lemma ApplicableIsListed(schedules: seq<Schedule>, date: Date)
    ensures LastApplicable(schedules, date).Some? ==> LastApplicable(schedules, date).value in schedules
  {
    if schedules != [] && schedules[|schedules| - 1].effectiveFrom > date {
      ApplicableIsListed(schedules[..|schedules| - 1], date);
    }
  }

  lemma ProportionalIsCovered(rates: Rates, gross: real)
    requires rates.Valid() && rates.minimumCommission == 0.0 && rates.Proportional() <= 1.0 && gross >= 0.0
    ensures Covered(rates, gross)
  {
    assert gross * (1.0 - (rates.stampDuty + rates.transferFee + rates.slippage)) >= 0.0;
  }

  lemma ExactIsCovered(env: Env, trades: seq<Trade>)
    requires ValidPolicy(env.costs) && ProportionalCosts(env.costs) && Grown(env, [], trades)
    ensures SalesCovered(trades)
  {
    hide Charge, Covered, ValidPolicy, LastApplicable;
    forall t | t in trades && IsSale(t)
      ensures t.cost <= t.gross
    {
      assert SaleExact(env, t);
      ApplicableIsListed(env.costs, t.date);
      ResolvedRatesAreValid(env.costs, t.date, Sell);
      ProportionalIsCovered(Resolve(env.costs, t.date, Sell).value, t.gross);
      SalesCoverCosts(env, t.date, t.gross);
    }
  }

  /** Under a policy without minimum commissions they always do. */
  lemma ProportionalRunsCover(env: Env, n: nat)
    requires ValidPolicy(env.costs) && ProportionalCosts(env.costs)
    requires First(env) <= n <= |env.calendar| && RunUpTo(env, n).Ok?
    ensures SalesCovered(RunUpTo(env, n).value.trades)
  {
    hide RunUpTo, ValidPolicy, SalesCovered, Grown, ProportionalCosts;
    RunGrows(env, n);
    ExactIsCovered(env, RunUpTo(env, n).value.trades);
  }

  // ----- solvency -----

  /** Whatever can be bought has a positive close, if it has one. */
  ghost predicate ClosesArePositive(env: Env) {
    forall key :: key in env.prices && CanBuy(env.prices[key]) && env.prices[key].close.Some? ==> env.prices[key].close.value > 0.0
  }

  ghost predicate MarkedPositive(h: Holding) {
    h.marketValue.Some? && h.marketValue.value > 0.0
  }

  /** No overdraft, and everything held or published has a positive value. */
  ghost predicate Solvent(st: State) {
    && st.cash >= 0.0
    && (forall c :: c in st.book.at ==> HasPositiveMark(st.book.at[c]))
    && (forall h :: h in st.holdings ==> MarkedPositive(h))
  }

  predicate NoBadMark(p: PositionState) {
    p.shares > 0.0 && (p.lastClose.Some? ==> p.lastClose.value > 0.0)
  }

  /** The same within a session, which may still fail for a missing mark. */
  ghost predicate Funded(st: State) {
    && st.cash >= 0.0
    && (forall c :: c in st.book.at ==> NoBadMark(st.book.at[c]))
    && (forall h :: h in st.holdings && h.marketValue.Some? ==> h.marketValue.value > 0.0)
  }

  lemma {:induction false} ConvertAllKeepsPositive(p: PositionState, chain: seq<Transition>, n: nat)
    requires n <= |chain| && ConvertAll(p, chain, n).Ok? && NoBadMark(p)
    ensures NoBadMark(ConvertAll(p, chain, n).value.position)
  {
    if n > 0 {
      ConvertAllKeepsPositive(p, chain, n - 1);
      var q := ConvertAll(p, chain, n - 1).value.position;
      PositiveProducts(q.shares, q.lastClose.value, chain[n - 1].ratio.value);
    }
  }

  lemma ActingIsFunded(env: Env, st: State, date: Date)
    requires Keyed(st.book) && Funded(st) && ActOn(env, st, date).Ok?
    ensures Funded(ActOn(env, st, date).value)
  {
    hide ApplyEffective, ConvertAll, NoBadMark, Dict.Valid, ChainOf;
    var ts := env.Transitions();
    MigrationRelocates(ts, st.book, date);
    var after := ApplyEffective(ts, st.book, date).value.book.at;
    forall d | d in after
      ensures NoBadMark(after[d])
    {
      var c :| c in st.book.at && Fate(ts, st.book, date, c).value.position == after[d];
      var chain := ChainOf(ts, st.book.at[c].code, date).value;
      ConvertAllKeepsPositive(st.book.at[c], chain, |chain|);
    }
  }

  lemma SellStepIsFunded(env: Env, st: State, i: nat, code: Code)
    requires i < |env.calendar| && Funded(st) && SellStep(env, st, i, code).Ok?
    requires SalesCovered(SellStep(env, st, i, code).value.trades)
    ensures Funded(SellStep(env, st, i, code).value)
  {
    hide SellStep, Calculate;
    var open, costs := SellStepCases(env, st, i, code);
    var after := SellStep(env, st, i, code).value;
    if IsSold(env, st, i, code, open, costs, after) {
      assert after.trades[|st.trades|] in after.trades && IsSale(after.trades[|st.trades|]);
    }
  }

  lemma {:induction false} SellingIsFunded(env: Env, st: State, i: nat, codes: seq<Code>, k: nat)
    requires i < |env.calendar| && Funded(st) && k <= |codes| && SellUpTo(env, st, i, codes, k).Ok?
    requires SalesCovered(SellUpTo(env, st, i, codes, k).value.trades)
    ensures Funded(SellUpTo(env, st, i, codes, k).value)
  {
    hide SellStep, Funded, SalesCovered, Grown;
    if k > 0 {
      var before := SellUpTo(env, st, i, codes, k - 1).value;
      SellStepGrows(env, before, i, codes[k - 1]);
      CoveredBefore(env, before.trades, SellUpTo(env, st, i, codes, k).value.trades);
      SellingIsFunded(env, st, i, codes, k - 1);
      SellStepIsFunded(env, before, i, codes[k - 1]);
    }
  }

  lemma {:induction false} RejectingKeepsAccount(env: Env, st: State, date: Date, codes: seq<Code>, k: nat)
    requires k <= |codes|
    ensures var after := RejectUpTo(env, st, date, codes, k);
            after.cash == st.cash && after.book == st.book && after.holdings == st.holdings && after.dayValue == st.dayValue
            && after.previousEquity == st.previousEquity
  {
    if k > 0 {
      RejectingKeepsAccount(env, st, date, codes, k - 1);
    }
  }

  lemma BuyStepIsPriced(env: Env, st: State, i: nat, rates: Rates, allocation: real, code: Code)
    requires i < |env.calendar| && ClosesArePositive(env)
    requires forall c :: c in st.book.at ==> NoBadMark(st.book.at[c])
    requires BuyStep(env, st, i, rates, allocation, code).Ok?
    ensures var after := BuyStep(env, st, i, rates, allocation, code).value;
            && (forall c :: c in after.book.at ==> NoBadMark(after.book.at[c]))
            && after.holdings == st.holdings
  {
    hide MaximumAffordable, Charge, Settled, Dict.Valid, Without;
    var price := env.PriceAt(env.calendar[i], code).value;
    assert CanBuy(env.prices[(env.calendar[i], code)]);
    var gross := MaximumAffordable(rates, allocation);
  }

  lemma {:induction false} BuyingIsPriced(env: Env, st: State, i: nat, rates: Rates, allocation: real, codes: seq<Code>, k: nat)
    requires i < |env.calendar| && ClosesArePositive(env) && k <= |codes|
    requires forall c :: c in st.book.at ==> NoBadMark(st.book.at[c])
    requires BuyUpTo(env, st, i, rates, allocation, codes, k).Ok?
    ensures var after := BuyUpTo(env, st, i, rates, allocation, codes, k).value;
            && (forall c :: c in after.book.at ==> NoBadMark(after.book.at[c]))
            && after.holdings == st.holdings
  {
    hide BuyStep, ClosesArePositive, NoBadMark;
    if k > 0 {
      BuyingIsPriced(env, st, i, rates, allocation, codes, k - 1);
      BuyStepIsPriced(env, BuyUpTo(env, st, i, rates, allocation, codes, k - 1).value, i, rates, allocation, codes[k - 1]);
    }
  }

  lemma EnteringIsFunded(env: Env, st: State, i: nat)
    requires i < |env.calendar| && ClosesArePositive(env) && ValidPolicy(env.costs)
    requires Funded(st) && Enter(env, st, i).Ok?
    ensures Funded(Enter(env, st, i).value)
  {
    hide RejectUpTo, BuyUpTo, Resolve, SlipsUpTo, NoBadMark, Candidates, Executable, SlotFits, ClosesArePositive, Halved, Times;
    var date := env.calendar[i];
    var candidates := Candidates(env.Selected(date), st.book.at);
    var noted := Noted(env, st, i);
    RejectingKeepsAccount(env, noted, date, candidates, |candidates|);
    var ready := RejectUpTo(env, noted, date, candidates, |candidates|);
    var codes := Executable(env, date, candidates);
    if codes != [] && ready.cash > 0.0 {
      var rates := Resolve(env.costs, date, Buy).value;
      BuyingIsPriced(env, ready, i, rates, ready.cash / (|codes| as real), codes, |codes|);
      AllCashEntry(env, ready, i, codes, rates);
    }
  }

  lemma MarkingIsFunded(env: Env, st: State, date: Date, code: Code)
    requires Funded(st) && MarkStep(env, st, date, code).Ok?
    ensures Funded(MarkStep(env, st, date, code).value)
  {
    var p := st.book.at[code];
    var q := Revalued(env, p, env.PriceAt(date, p.code), date).value;
    assert NoBadMark(q);
    if q.lastClose.Some? {
      assert Times(q.shares, q.lastClose.value) > 0.0;
    }
  }

  lemma {:induction false} MarksAreFunded(env: Env, st: State, date: Date, codes: seq<Code>, k: nat)
    requires Funded(st) && k <= |codes| && MarkUpTo(env, st, date, codes, k).Ok?
    ensures Funded(MarkUpTo(env, st, date, codes, k).value)
  {
    hide MarkStep, Funded;
    if k > 0 {
      MarksAreFunded(env, st, date, codes, k - 1);
      MarkingIsFunded(env, MarkUpTo(env, st, date, codes, k - 1).value, date, codes[k - 1]);
    }
  }

  lemma SessionIsFunded(env: Env, st: State, i: nat)
    requires ValidPolicy(env.costs) && ClosesArePositive(env)
    requires i < |env.calendar| && Keyed(st.book) && Funded(st) && Session(env, st, i).Ok?
    requires SalesCovered(Session(env, st, i).value.trades)
    ensures Funded(Session(env, st, i).value)
  {
    hide ActOn, SellUpTo, Enter, MarkUpTo, NoBadMark, ClosesArePositive, ValidPolicy, Keyed, Dict.Valid, SalesCovered, Grown;
    SessionGrows(env, st, i);
    var date := env.calendar[i];
    assert Keyed(Opened(st).book);
    ActingIsFunded(env, Opened(st), date);
    var acted := ActOn(env, Opened(st), date).value;
    var sold := SellUpTo(env, acted, i, acted.book.order, |acted.book.order|).value;
    CoveredBefore(env, sold.trades, Session(env, st, i).value.trades);
    SellingIsFunded(env, acted, i, acted.book.order, |acted.book.order|);
    EnteringIsFunded(env, sold, i);
    var recorded := Recorded(Enter(env, sold, i).value);
    MarksAreFunded(env, recorded, date, recorded.book.order, |recorded.book.order|);
  }

  // ----- zero equity is final -----

  lemma {:induction false} SomeMarkIsPositive(holdings: seq<Holding>, h: Holding)
    requires h in holdings && forall x :: x in holdings ==> MarkedPositive(x)
    ensures SumOn(holdings, HoldingDate, MarketValue, h.date) > 0.0
  {
    var front, last := holdings[..|holdings| - 1], holdings[|holdings| - 1];
    assert holdings == front + [last];
    assert MarkedPositive(last);
    if h in front {
      SomeMarkIsPositive(front, h);
    } else {
      MarksAreNotNegative(front, h.date);
    }
  }

  lemma {:induction false} MarksAreNotNegative(holdings: seq<Holding>, date: Date)
    requires forall x :: x in holdings ==> MarkedPositive(x)
    ensures SumOn(holdings, HoldingDate, MarketValue, date) >= 0.0
  {
    if holdings != [] {
      assert MarkedPositive(holdings[|holdings| - 1]);
      MarksAreNotNegative(holdings[..|holdings| - 1], date);
    }
  }

  lemma LastRow(env: Env, p: PositionState, buy: Trade, rows: seq<Holding>, acts: seq<Action>, marked: int, bound: Date)
    requires LiveRows(env, p, buy, rows, acts, marked, bound) && p.entryIndex <= marked
    ensures rows != [] && marked < |env.calendar|
    ensures var h := rows[|rows| - 1]; h.date == env.calendar[marked] && h.marketValue == Mark(p)
  {
    hide Followed, Overtaken, RenamedAtEntry, Ordered, HeldShares, OpenedBy;
    assert |rows| == marked - p.entryIndex + 1;
    assert RowFits(env, p, rows[|rows| - 1], p.entryIndex + (|rows| - 1));
  }

  /** The last row of a held position is of the session before, and shows its mark. */
  lemma LastRowOfLive(env: Env, st: State, i: nat, c: Code) returns (h: Holding)
    requires Ready(env, st, i) && c in st.book.at
    ensures First(env) < i && h in st.holdings && h.date == env.calendar[i - 1] && h.marketValue == Mark(st.book.at[c])
  {
    hide Ready, LiveRows, Openings, Closings, HasPositiveMark, MarkedPositive;
    var p := st.book.at[c];
    SoundOf(env, st, i, c);
    LivesOf(env, st, i, c);
    var rows := Own(st.holdings, HoldingId, p.id);
    LastRow(env, p, Openings(st.trades)[p.id], rows, Own(st.actions, ActionId, p.id), i - 1, Before(env, i));
    h := rows[|rows| - 1];
    OwnMember(st.holdings, HoldingId, p.id, h);
  }

  lemma LivesOf(env: Env, st: State, i: nat, c: Code)
    requires Ready(env, st, i) && c in st.book.at
    ensures i <= |env.calendar| && env.calendar != []
    ensures LiveIn(env, st.book.at[c], Openings(st.trades), Closings(st.trades), st.holdings, st.actions, i - 1, Before(env, i))
  {
    hide BookOk, Undue, BooksSettled, CountersOk, ActionsOk, TerminalsOk, IntentsOk, TradesOk, Openings, Closings, LiveIn, ClosedIn, DaysRun;
  }

  lemma SoundOf(env: Env, st: State, i: nat, c: Code)
    requires Ready(env, st, i) && c in st.book.at
    ensures Sound(env, st.book.at[c], c, i - 1)
  {}

  /** Between sessions nothing is unmarked any more. */
  lemma FundedIsSolvent(env: Env, st: State, i: nat)
    requires Ready(env, st, i) && Funded(st)
    ensures Solvent(st)
  {
    hide Ready;
    forall h | h in st.holdings
      ensures MarkedPositive(h)
    {
      RowIsMarked(env, st, i, h);
    }
    forall c | c in st.book.at
      ensures HasPositiveMark(st.book.at[c])
    {
      HeldIsMarked(env, st, i, c);
    }
  }

  lemma RowIsMarked(env: Env, st: State, i: nat, h: Holding)
    requires Ready(env, st, i) && h in st.holdings
    ensures h.marketValue.Some?
  {
    hide BookOk, Undue, Lives, CountersOk, ActionsOk, TerminalsOk, IntentsOk, TradesOk, Openings, Closings, DayExact, OnDay, DaysRun;
    assert HoldingExact(h);
  }

  lemma HeldIsMarked(env: Env, st: State, i: nat, c: Code)
    requires Ready(env, st, i) && c in st.book.at
    ensures st.book.at[c].lastClose.Some?
  {
    hide Ready;
    var h := LastRowOfLive(env, st, i, c);
    RowIsMarked(env, st, i, h);
  }

  /** An account without equity holds nothing: no position and no cash. */
  lemma ExhaustedIsEmpty(env: Env, st: State, i: nat)
    requires Ready(env, st, i) && Solvent(st) && env.initialCash > 0.0 && st.previousEquity <= 0.0
    ensures st.cash == 0.0 && st.book.at == map[] && st.previousEquity == 0.0
  {
    hide BookOk, Undue, Lives, CountersOk, ActionsOk, TerminalsOk, IntentsOk, TradesOk, Openings, Closings, OnDay, HoldingExact, MarkedPositive, HasPositiveMark;
    var n := |st.daily| - 1;
    assert st.daily != [];
    assert DayExact(env, st.trades, st.holdings, st.daily, n);
    MarksAreNotNegative(st.holdings, st.daily[n].date);
    assert forall c :: c !in st.book.at by {
      forall c
        ensures c !in st.book.at
      {
        if c in st.book.at {
          var h := LastRowOfLive(env, st, i, c);
          SomeMarkIsPositive(st.holdings, h);
        }
      }
    }
  }

  lemma EmptyBookActs(env: Env, st: State, date: Date)
    requires st.book.Valid() && st.book.at == map[]
    ensures ActOn(env, st, date) == Ok(st)
  {
    FirstIsMember(st.book.order);
    assert PlansFor(env.Transitions(), st.book, date, 0) == Ok([]);
    assert st.actions + [] == st.actions;
  }

  /** A session that starts without cash and positions ends without them. */
  lemma EmptySession(env: Env, st: State, i: nat)
    requires i < |env.calendar| && st.book.Valid() && st.book.at == map[] && st.cash == 0.0
    requires Session(env, st, i).Ok?
    ensures var after := Session(env, st, i).value;
            |after.daily| == |st.daily| + 1 && after.daily[..|st.daily|] == st.daily && after.daily[|st.daily|].equity == 0.0
  {
    hide RejectUpTo, SlipsUpTo, Candidates, Executable, Slips;
    var date, start := env.calendar[i], Opened(st);
    EmptyBookActs(env, start, date);
    FirstIsMember(start.book.order);
    var candidates := Candidates(env.Selected(date), start.book.at);
    var noted := Noted(env, start, i);
    RejectingKeepsAccount(env, noted, date, candidates, |candidates|);
    RejectedDaily(env, noted, date, candidates, |candidates|);
  }

  lemma SessionAppends(env: Env, st: State, i: nat)
    requires i < |env.calendar| && Session(env, st, i).Ok?
    ensures var after := Session(env, st, i).value;
            |after.daily| == |st.daily| + 1 && after.daily[..|st.daily|] == st.daily
  {
    hide ApplyEffective, SellUpTo, Enter, MarkUpTo;
    var date := env.calendar[i];
    var acted := ActOn(env, Opened(st), date).value;
    SellsKeepDaily(env, acted, i, acted.book.order, |acted.book.order|);
    var sold := SellUpTo(env, acted, i, acted.book.order, |acted.book.order|).value;
    EnterKeepsDaily(env, sold, i);
    var recorded := Recorded(Enter(env, sold, i).value);
    MarksKeepDaily(env, recorded, date, recorded.book.order, |recorded.book.order|);
  }

  lemma {:induction false} SellsKeepDaily(env: Env, st: State, i: nat, codes: seq<Code>, k: nat)
    requires i < |env.calendar| && k <= |codes| && SellUpTo(env, st, i, codes, k).Ok?
    ensures SellUpTo(env, st, i, codes, k).value.daily == st.daily
  {
    hide Calculate;
    if k > 0 {
      SellsKeepDaily(env, st, i, codes, k - 1);
    }
  }

  lemma {:induction false} MarksKeepDaily(env: Env, st: State, date: Date, codes: seq<Code>, k: nat)
    requires k <= |codes| && MarkUpTo(env, st, date, codes, k).Ok?
    ensures MarkUpTo(env, st, date, codes, k).value.daily == st.daily
  {
    if k > 0 {
      MarksKeepDaily(env, st, date, codes, k - 1);
    }
  }

  lemma SessionStays(env: Env, st: State, i: nat)
    requires Governed(env) && i < |env.calendar| && Ready(env, st, i) && Solvent(st)
    requires ExhaustedStays(env, st.daily) && Session(env, st, i).Ok?
    ensures ExhaustedStays(env, Session(env, st, i).value.daily)
  {
    hide Session, Ready, Solvent, EquityBefore, Governed;
    var after, n := Session(env, st, i).value.daily, |st.daily|;
    SessionAppends(env, st, i);
    assert env.initialCash > 0.0 by { GovernedCash(env); }
    assert st.previousEquity == EquityBefore(env, st.daily) && st.book.Valid() by { ReadyAccount(env, st, i); }
    if st.previousEquity <= 0.0 {
      ExhaustedIsEmpty(env, st, i);
      EmptySession(env, st, i);
    }
    forall j | 0 <= j < |after| && EquityBefore(env, after[..j]) <= 0.0
      ensures after[j].equity == EquityBefore(env, after[..j])
    {
      assert j <= n && after[..j] == st.daily[..j];
      if j < n {
        assert after[j] == after[..n][j] == st.daily[j];
      } else {
        assert st.daily[..n] == st.daily;
      }
    }
  }

  lemma GovernedCash(env: Env)
    requires Governed(env)
    ensures env.initialCash > 0.0
  {}

  lemma ReadyAccount(env: Env, st: State, i: nat)
    requires Ready(env, st, i)
    ensures st.previousEquity == EquityBefore(env, st.daily) && st.book.Valid() && Keyed(st.book)
  {
    hide BookOk, Keyed, Undue, Lives, TradesOk, CountersOk, ActionsOk, TerminalsOk, IntentsOk, DaysRun, Dict.Valid, DayExact;
    assert Keyed(st.book) by { BookIsKeyed(env, st.book, i - 1, {}); }
    KeyedIsValid(st.book);
  }

  lemma KeyedIsValid(book: Book)
    requires Keyed(book)
    ensures book.Valid()
  {}

  /** As long as every sale of a run covers its costs, the account is solvent after every session,
      and zero equity is final. */
  lemma {:induction false} RunIsSolvent(env: Env, n: nat)
    requires Governed(env) && EntriesFollowSignals(env) && ClosesArePositive(env)
    requires First(env) <= n <= |env.calendar| && RunUpTo(env, n).Ok?
    requires SalesCovered(RunUpTo(env, n).value.trades)
    ensures Solvent(RunUpTo(env, n).value) && ExhaustedStays(env, RunUpTo(env, n).value.daily)
    decreases n
  {
    hide Session, Solvent, Funded, ExhaustedStays, Ready, EntriesFollowSignals, ClosesArePositive, Governed, SalesCovered, Grown;
    assert ValidPolicy(env.costs) && env.initialCash > 0.0 by { GovernedPolicy(env); }
    if n == First(env) {
      InitialIsSolvent(env);
    } else {
      var st := RunUpTo(env, n - 1).value;
      if st.stopped {
        RunIsSolvent(env, n - 1);
      } else {
        SessionGrows(env, st, n - 1);
        CoveredBefore(env, st.trades, RunUpTo(env, n).value.trades);
        RunIsSolvent(env, n - 1);
        SessionIsSolvent(env, n - 1);
      }
    }
  }

  /** One more session of a run that is still going. */
  lemma SessionIsSolvent(env: Env, i: nat)
    requires Governed(env) && EntriesFollowSignals(env) && ClosesArePositive(env)
    requires First(env) <= i < |env.calendar| && RunUpTo(env, i).Ok? && !RunUpTo(env, i).value.stopped
    requires var st := RunUpTo(env, i).value;
             Solvent(st) && ExhaustedStays(env, st.daily)
             && Session(env, st, i).Ok? && SalesCovered(Session(env, st, i).value.trades)
    ensures var after := Session(env, RunUpTo(env, i).value, i).value; Solvent(after) && ExhaustedStays(env, after.daily)
  {
    hide RunUpTo, Session, ExhaustedStays, Ready, EntriesFollowSignals, ClosesArePositive, Governed, SalesCovered, First;
    var st := RunUpTo(env, i).value;
    var m := RunIsReady(env, i);
    ReadyAccount(env, st, i);
    GovernedPolicy(env);
    SessionIsFunded(env, st, i);
    SessionKeepsReady(env, st, i);
    FundedIsSolvent(env, Session(env, st, i).value, i + 1);
    SessionStays(env, st, i);
  }

  lemma GovernedPolicy(env: Env)
    requires Governed(env)
    ensures ValidPolicy(env.costs) && env.initialCash > 0.0
  {}

  lemma InitialIsSolvent(env: Env)
    requires env.initialCash > 0.0
    ensures Solvent(Initial(env)) && ExhaustedStays(env, Initial(env).daily)
  {}

  /** As long as every sale covers its costs, the initial cash compounded over the session returns
      is the equity on every prefix of the run. */
  lemma ReturnsCompound(env: Env, n: nat, k: nat)
    requires Governed(env) && EntriesFollowSignals(env) && ClosesArePositive(env)
    requires First(env) <= n <= |env.calendar| && RunUpTo(env, n).Ok?
    requires SalesCovered(RunUpTo(env, n).value.trades) && k <= |RunUpTo(env, n).value.daily|
    ensures TelescopesAt(env, RunUpTo(env, n).value.daily, k)
  {
    hide RunUpTo, Ready, TelescopesAt, ExhaustedStays, BooksSettled, EntriesFollowSignals, ClosesArePositive, SalesCovered;
    var st := RunUpTo(env, n).value;
    RunIsSolvent(env, n);
    var m := RunIsReady(env, n);
    ReadyIsSettled(env, st, m);
    CompoundingTelescopesIff(env, st);
  }

  /** Without minimum commissions both hold of every run. */
  lemma ProportionalRunsCompound(env: Env, n: nat, k: nat)
    requires Governed(env) && EntriesFollowSignals(env) && ClosesArePositive(env) && ProportionalCosts(env.costs)
    requires First(env) <= n <= |env.calendar| && RunUpTo(env, n).Ok? && k <= |RunUpTo(env, n).value.daily|
    ensures Solvent(RunUpTo(env, n).value) && TelescopesAt(env, RunUpTo(env, n).value.daily, k)
  {
    hide RunUpTo, Solvent, TelescopesAt, EntriesFollowSignals, ClosesArePositive, SalesCovered, Governed, ProportionalCosts;
    GovernedPolicy(env);
    ProportionalRunsCover(env, n);
    RunIsSolvent(env, n);
    ReturnsCompound(env, n, k);
  }
}
