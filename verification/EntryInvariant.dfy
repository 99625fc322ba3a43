/** Entries and end-of-day marks keep the session invariant; the selected signals of the day
    leave their intents and the filled ones open exactly one position each. */
module EntryInvariant {
  import opened Basics
  import opened Costs
  import opened Ledgers
  import opened Simulation
  import opened Auditor
  import opened History
  import opened BookInvariant
  import opened LifeInvariant
  import opened Marks
  import opened TradeInvariant
  import opened MoneyInvariant
  import opened CounterInvariant
  import opened IntentInvariant
  import opened SessionInvariant

  // ----- parts of the state the invariant does not look at -----

  lemma MidIgnoresSlips(env: Env, st: State, after: State, i: nat, due: set<Code>, unmarked: set<Code>)
    requires Mid(env, st, i, due, unmarked)
    requires after == st.(slips := after.slips, intents := after.intents)
    ensures Mid(env, after, i, due, unmarked)
  {
    hide BookOk, Lives, TradesOk, CountersOk, ActionsOk, TerminalsOk, Undue;
    hide DayExact, HoldingExact;
  }

  lemma AllUnmarked(env: Env, st: State, i: nat, due: set<Code>, unmarked: set<Code>)
    requires Mid(env, st, i, due, unmarked) && st.book.at.Keys <= unmarked
    ensures Mid(env, st, i, due, st.book.at.Keys)
  {
    hide BookOk, LiveIn, ClosedIn, TradesOk, Flow, CountersOk, ActionsOk, TerminalsOk, Undue;
  }

  // ----- candidates -----

  lemma {:induction false} CandidatesAreFree(codes: seq<Code>, held: map<Code, PositionState>)
    requires NoDuplicates(codes)
    ensures NoDuplicates(Candidates(codes, held))
    ensures forall c :: c in Candidates(codes, held) <==> c in codes && c !in held
  {
    if codes != [] {
      var front, last := codes[..|codes| - 1], codes[|codes| - 1];
      assert codes == front + [last];
      CandidatesAreFree(front, held);
      assert last !in front;
    }
  }

  lemma {:induction false} ExecutableAreBuyable(env: Env, date: Date, codes: seq<Code>)
    requires NoDuplicates(codes)
    ensures NoDuplicates(Executable(env, date, codes))
    ensures forall c :: c in Executable(env, date, codes) <==> c in codes && Buyable(env.PriceAt(date, c))
  {
    if codes != [] {
      var front, last := codes[..|codes| - 1], codes[|codes| - 1];
      assert codes == front + [last];
      ExecutableAreBuyable(env, date, front);
      assert last !in front;
    }
  }

  // ----- rejections -----

  lemma RejectKeepsMid(env: Env, st: State, i: nat, unmarked: set<Code>, code: Code)
    requires Mid(env, st, i, {}, unmarked)
    ensures var after := st.(trades := st.trades + [RejectedTrade(env.calendar[i], code, Buy, NotBuyable, None, 0, false)]);
            Mid(env, after, i, {}, unmarked) && SameEntrySide(st, after)
  {
    hide BookOk, Lives, TradesOk, Flow, CountersOk, ActionsOk, TerminalsOk, Undue, Openings, Closings, OpeningIds;
    var t := RejectedTrade(env.calendar[i], code, Buy, NotBuyable, None, 0, false);
    var after := st.(trades := st.trades + [t]);
    LogSnoc(st.trades, t);
    assert OpeningIds(st.trades) + [] == OpeningIds(st.trades);
    TradesSnoc(env, st.trades, t);
    FlowSnoc(env, st, after, env.calendar[i], t);
    RejectKeepsCounters(st.counters, st.book.at, st.trades, st.holdings, Openings(st.trades), t);
    TerminalsKept(st.terminals, st.trades, Closings(st.trades), st.holdings, t);
  }

  lemma {:induction false} RejectionsKeepMid(env: Env, st: State, i: nat, unmarked: set<Code>, codes: seq<Code>, k: nat)
    requires i < |env.calendar| && k <= |codes| && Mid(env, st, i, {}, unmarked)
    ensures var after := RejectUpTo(env, st, env.calendar[i], codes, k);
            && Mid(env, after, i, {}, unmarked) && SameEntrySide(st, after)
            && after.book == st.book && after.slips == st.slips && after.cash == st.cash
  {
    hide Mid;
    if k > 0 {
      RejectionsKeepMid(env, st, i, unmarked, codes, k - 1);
      RejectKeepsMid(env, RejectUpTo(env, st, env.calendar[i], codes, k - 1), i, unmarked, codes[k - 1]);
    }
  }

  // ----- buys -----

  lemma BuyKeepsMid(env: Env, st: State, i: nat, code: Code, price: Price, gross: real, costs: TradeCosts)
    requires Governed(env) && First(env) <= i && i + env.holdingPeriod < |env.calendar|
    requires Mid(env, st, i, {}, st.book.at.Keys)
    requires env.PriceAt(env.calendar[i], code) == Some(price)
    requires price.open.Some? && price.open.value > 0.0 && gross / price.open.value > 0.0
    requires Calculate(env.costs, env.calendar[i], Buy, gross) == Ok(costs)
    requires code !in st.book.at && PositionId(env.calendar[i], code) !in Openings(st.trades)
    ensures var after := BuyAt(env, st, i, code, price, gross, costs);
            && Mid(env, after, i, {}, after.book.at.Keys)
            && Openings(after.trades).Keys == Openings(st.trades).Keys + {PositionId(env.calendar[i], code)}
            && OpeningIds(after.trades) == OpeningIds(st.trades) + [Some(PositionId(env.calendar[i], code))]
  {
    hide BookOk, Lives, TradesOk, Flow, CountersOk, ActionsOk, TerminalsOk, Openings, Closings, OpeningIds, Calculate,
         Sound, Timely, TradeSound, Settled, Dict.Valid;
    var p := NewPosition(env, i, code, price, gross / price.open.value);
    var t := FilledTrade(env.calendar[i], p, Buy, price.open.value, gross, costs, None);
    var after := BuyAt(env, st, i, code, price, gross, costs);
    assert after.trades == st.trades + [t] && after.book == st.book.Put(code, p);
    HeldAreOpen(env, st, i);
    NewPositionIsSound(env, i, code, price, p.shares);
    BuyKeepsBook(env, st.book, i, code, price, p.shares);
    LogSnoc(st.trades, t);
    BuyKeepsLives(env, st.book.at, Openings(st.trades), Closings(st.trades), st.holdings, st.actions, i, st.book.at.Keys, code, p, t);
    assert after.book.at.Keys == st.book.at.Keys + {code};
    BuyIsSound(env, i, code, price, gross, costs);
    TradesSnoc(env, st.trades, t);
    FlowSnoc(env, st, after, env.calendar[i], t);
    BuyKeepsCounters(st.counters, st.book.at, st.trades, st.holdings, Openings(st.trades), code, p, t);
    TerminalsKept(st.terminals, st.trades, Closings(st.trades), st.holdings, t);
  }

  lemma HeldAreOpen(env: Env, st: State, i: nat)
    requires Mid(env, st, i, {}, st.book.at.Keys)
    ensures forall c :: c in st.book.at ==> st.book.at[c].id in Openings(st.trades)
  {
    hide BookOk, TradesOk, Flow, CountersOk, ActionsOk, TerminalsOk, Undue, LiveRows, ClosedIn, Openings, Closings;
  }

  /** While the executable codes are bought one after the other. */
  ghost predicate Entering(env: Env, st: State, i: nat, codes: seq<Code>, k: nat)
    requires k <= |codes|
  {
    && Mid(env, st, i, {}, st.book.at.Keys)
    && SlipsList(env, i, st.slips)
    && SlotsOf(st.intents) == ExpectedSlots(env, i)
    && FillsMatch(st.intents, st.slips, st.trades)
    && (forall q :: q in Openings(st.trades) ==> q.date < env.calendar[i] || (q.date == env.calendar[i] && q.code in codes[..k]))
    && (forall c :: c in codes[k..] ==> c !in st.book.at && c in st.slips.at && st.slips.at[c].outcome != OutcomeFilled)
  }

  lemma SettleKeepsMatch(env: Env, i: nat, intents: seq<Intent>, d: Dict<Code, Intent>, code: Code, outcome: Outcome, id: Option<PositionId>,
      trades: seq<Trade>, after: seq<Trade>)
    requires i < |env.calendar| && SlipsList(env, i, d) && FillsMatch(intents, d, trades)
    requires code in d.at && d.at[code].outcome != OutcomeFilled
    requires OpeningIds(after) == OpeningIds(trades) + if outcome == OutcomeFilled then [id] else []
    ensures SlipsList(env, i, Settled(d, code, outcome, id)) && FillsMatch(intents, Settled(d, code, outcome, id), after)
  {
    hide FilledIds, OpeningIds, IntentIds, DaySlots, SlotOf;
    SettledListsSlips(env, i, d, code, outcome, id);
    assert code in d.order && d.order[..|d.order|] == d.order;
    assert d.Valid();
    SettleFills(d, code, outcome, id, |d.order|);
    if outcome != OutcomeFilled {
      assert OpeningIds(trades) + [] == OpeningIds(trades);
    }
  }

  lemma BuyStepKeepsEntering(env: Env, st: State, i: nat, rates: Rates, allocation: real, codes: seq<Code>, k: nat)
    requires Governed(env) && First(env) <= i < |env.calendar| && k < |codes|
    requires Entering(env, st, i, codes, k) && NoDuplicates(codes)
    requires Resolve(env.costs, env.calendar[i], Buy) == Ok(rates)
    requires BuyStep(env, st, i, rates, allocation, codes[k]).Ok?
    ensures Entering(env, BuyStep(env, st, i, rates, allocation, codes[k]).value, i, codes, k + 1)
  {
    hide Mid, SlipsList, FillsMatch, Openings, OpeningIds, MaximumAffordable, Charge, Resolve, Calculate, SlotsOf, ExpectedSlots,
         Governed, BuyStep, FilledTrade, Settled, Dict.Put;
    var code, after := codes[k], BuyStep(env, st, i, rates, allocation, codes[k]).value;
    assert codes[k..] == [code] + codes[k + 1..];
    assert codes[..k + 1] == codes[..k] + [code];
    var gross := MaximumAffordable(rates, allocation);
    var costs := Charge(rates, gross);
    assert code !in codes[..k] && code !in codes[k + 1..];
    SettledElsewhere(st.slips, code, OutcomeInsufficientGross, st.slips.at[code].id);
    SettledElsewhere(st.slips, code, OutcomeFilled, Some(PositionId(env.calendar[i], code)));
    if after.trades == st.trades {
      BuyStepSkips(env, st, i, rates, allocation, code);
      MidIgnoresSlips(env, st, after, i, {}, st.book.at.Keys);
      assert OpeningIds(st.trades) + [] == OpeningIds(st.trades);
      SettleKeepsMatch(env, i, st.intents, st.slips, code, OutcomeInsufficientGross, st.slips.at[code].id, st.trades, st.trades);
    } else {
      BuyStepBuys(env, st, i, rates, allocation, code);
      var price := env.PriceAt(env.calendar[i], code).value;
      BuyKeepsMid(env, st, i, code, price, gross, costs);
      BuyAtParts(env, st, i, code, price, gross, costs);
      SettleKeepsMatch(env, i, st.intents, st.slips, code, OutcomeFilled, Some(PositionId(env.calendar[i], code)), st.trades, after.trades);
    }
  }

  lemma BuyAtParts(env: Env, st: State, i: nat, code: Code, price: Price, gross: real, costs: TradeCosts)
    requires i + env.holdingPeriod < |env.calendar| && price.open.Some? && price.open.value > 0.0
    ensures var after := BuyAt(env, st, i, code, price, gross, costs);
            && after.slips == Settled(st.slips, code, OutcomeFilled, Some(PositionId(env.calendar[i], code)))
            && after.intents == st.intents && after.book.at.Keys == st.book.at.Keys + {code}
  {}

  lemma SettledElsewhere(d: Dict<Code, Intent>, code: Code, outcome: Outcome, id: Option<PositionId>)
    ensures forall c :: c != code && c in d.at ==> c in Settled(d, code, outcome, id).at && Settled(d, code, outcome, id).at[c] == d.at[c]
  {}

  lemma BuyStepSkips(env: Env, st: State, i: nat, rates: Rates, allocation: real, code: Code)
    requires i < |env.calendar| && code in st.slips.at
    requires BuyStep(env, st, i, rates, allocation, code).Ok?
    requires BuyStep(env, st, i, rates, allocation, code).value.trades == st.trades
    ensures BuyStep(env, st, i, rates, allocation, code).value
         == st.(slips := Settled(st.slips, code, OutcomeInsufficientGross, st.slips.at[code].id))
  {
    hide MaximumAffordable, Charge;
  }

  lemma BuyStepBuys(env: Env, st: State, i: nat, rates: Rates, allocation: real, code: Code)
    requires i < |env.calendar| && Resolve(env.costs, env.calendar[i], Buy) == Ok(rates)
    requires BuyStep(env, st, i, rates, allocation, code).Ok?
    requires BuyStep(env, st, i, rates, allocation, code).value.trades != st.trades
    ensures Buyable(env.PriceAt(env.calendar[i], code)) && i + env.holdingPeriod < |env.calendar|
    ensures var gross, price := MaximumAffordable(rates, allocation), env.PriceAt(env.calendar[i], code).value;
            && gross / price.open.value > 0.0
            && Calculate(env.costs, env.calendar[i], Buy, gross) == Ok(Charge(rates, gross))
            && BuyStep(env, st, i, rates, allocation, code).value == BuyAt(env, st, i, code, price, gross, Charge(rates, gross))
  {
    hide MaximumAffordable, Charge, Resolve;
    var gross, price := MaximumAffordable(rates, allocation), env.PriceAt(env.calendar[i], code).value;
    PositiveQuotient(gross, price.open.value);
  }

  lemma PositiveQuotient(x: real, y: real)
    requires y > 0.0 && x / y > 0.0
    ensures x > 0.0
  {}

  lemma {:induction false} BuysKeepEntering(env: Env, st: State, i: nat, rates: Rates, allocation: real, codes: seq<Code>, k: nat)
    requires Governed(env) && First(env) <= i < |env.calendar| && k <= |codes|
    requires Entering(env, st, i, codes, 0) && NoDuplicates(codes)
    requires Resolve(env.costs, env.calendar[i], Buy) == Ok(rates)
    requires BuyUpTo(env, st, i, rates, allocation, codes, k).Ok?
    ensures Entering(env, BuyUpTo(env, st, i, rates, allocation, codes, k).value, i, codes, k)
  {
    hide Entering, Governed, NoDuplicates, BuyStep, Resolve;
    if k > 0 {
      BuysKeepEntering(env, st, i, rates, allocation, codes, k - 1);
      BuyStepKeepsEntering(env, BuyUpTo(env, st, i, rates, allocation, codes, k - 1).value, i, rates, allocation, codes, k - 1);
    }
  }

  // ----- the whole entry phase -----

  /** After the exits: nothing of today opened yet, all earlier intents recorded. */
  ghost predicate Exited(env: Env, st: State, i: nat) {
    && Mid(env, st, i, {}, st.book.at.Keys)
    && IntentsOk(env, st.intents, st.trades, i)
    && forall q :: q in Openings(st.trades) ==> q.date < env.calendar[i]
  }

  ghost predicate Entered(env: Env, st: State, i: nat) {
    && Mid(env, st, i, {}, st.book.at.Keys)
    && SlipsList(env, i, st.slips)
    && SlotsOf(st.intents) == ExpectedSlots(env, i)
    && FillsMatch(st.intents, st.slips, st.trades)
  }

  lemma NotingMatches(env: Env, st: State, i: nat)
    requires i < |env.calendar| && NoDuplicates(env.Selected(env.calendar[i]))
    requires IntentsOk(env, st.intents, st.trades, i)
    ensures FillsMatch(st.intents, Noted(env, st, i).slips, st.trades)
  {
    hide SlotsOf, ExpectedSlots, DaySlots, OpeningIds, IntentIds, SlipsUpTo;
    NotedListsSlips(env, st, i);
    var d := Noted(env, st, i).slips;
    NothingFilled(d, |d.order|);
  }

  lemma StartEntering(env: Env, st: State, i: nat)
    requires i < |env.calendar| && Governed(env) && Exited(env, st, i)
    ensures var date := env.calendar[i];
            var candidates := Candidates(env.Selected(date), st.book.at);
            var ready := RejectUpTo(env, Noted(env, st, i), date, candidates, |candidates|);
            Entering(env, ready, i, Executable(env, date, candidates), 0)
  {
    hide Mid, SlipsList, FillsMatch, Openings, OpeningIds, SlotsOf, ExpectedSlots, RejectUpTo, SlipsUpTo,
         Candidates, Executable, NoDuplicates, Governed, Noted, Buyable;
    var date := env.calendar[i];
    var candidates := Candidates(env.Selected(date), st.book.at);
    var noted := Noted(env, st, i);
    SelectedOnce(env, date);
    NotedState(env, st, i);
    CandidatesAreFree(env.Selected(date), st.book.at);
    ExecutableAreBuyable(env, date, candidates);
    NotedListsSlips(env, st, i);
    SlipsCover(env, i, noted.slips);
    NotingMatches(env, st, i);
    MidIgnoresSlips(env, st, noted, i, {}, st.book.at.Keys);
    RejectionsKeepMid(env, noted, i, st.book.at.Keys, candidates, |candidates|);
    SameFills(st.intents, noted.slips, st.trades, RejectUpTo(env, noted, date, candidates, |candidates|).trades);
    var codes := Executable(env, date, candidates);
    assert codes[0..] == codes;
  }

  lemma NotedState(env: Env, st: State, i: nat)
    requires i < |env.calendar|
    ensures Noted(env, st, i) == st.(slips := Noted(env, st, i).slips)
  {}

  lemma SlipsCover(env: Env, i: nat, d: Dict<Code, Intent>)
    requires i < |env.calendar| && SlipsList(env, i, d)
    ensures forall c :: c in env.Selected(env.calendar[i]) ==> c in d.at
  {}

  lemma SameFills(intents: seq<Intent>, d: Dict<Code, Intent>, trades: seq<Trade>, after: seq<Trade>)
    requires FillsMatch(intents, d, trades) && OpeningIds(after) == OpeningIds(trades)
    ensures FillsMatch(intents, d, after)
  {}

  lemma ExecutableOnce(env: Env, st: State, i: nat)
    requires i < |env.calendar| && Governed(env)
    ensures NoDuplicates(Executable(env, env.calendar[i], Candidates(env.Selected(env.calendar[i]), st.book.at)))
  {
    hide Candidates, Executable, NoDuplicates, Buyable, Governed;
    var date := env.calendar[i];
    SelectedOnce(env, date);
    CandidatesAreFree(env.Selected(date), st.book.at);
    ExecutableAreBuyable(env, date, Candidates(env.Selected(date), st.book.at));
  }

  lemma EntryKeepsMid(env: Env, st: State, i: nat)
    requires Governed(env)
    requires First(env) <= i < |env.calendar| && Exited(env, st, i)
    requires Enter(env, st, i).Ok?
    ensures Entered(env, Enter(env, st, i).value, i)
  {
    hide Mid, SlipsList, FillsMatch, Openings, SlotsOf, ExpectedSlots, RejectUpTo, Noted, Resolve, BuyUpTo, Governed,
         Exited, Candidates, Executable, NoDuplicates;
    var date := env.calendar[i];
    var candidates := Candidates(env.Selected(date), st.book.at);
    var ready := RejectUpTo(env, Noted(env, st, i), date, candidates, |candidates|);
    var codes := Executable(env, date, candidates);
    ExecutableOnce(env, st, i);
    StartEntering(env, st, i);
    if codes != [] && ready.cash > 0.0 {
      var rates := Resolve(env.costs, date, Buy).value;
      BuysKeepEntering(env, ready, i, rates, ready.cash / (|codes| as real), codes, |codes|);
    }
  }

  lemma SelectedOnce(env: Env, date: Date)
    requires Governed(env)
    ensures NoDuplicates(env.Selected(date))
  {}

  // ----- marks -----

  lemma MarkStepKeepsMid(env: Env, st: State, i: nat, unmarked: set<Code>, code: Code)
    requires Mid(env, st, i, {}, unmarked) && code in unmarked
    requires MarkStep(env, st, env.calendar[i], code).Ok?
    ensures var after := MarkStep(env, st, env.calendar[i], code).value;
            && Mid(env, after, i, {}, unmarked - {code})
            && after.book.order == st.book.order && after.trades == st.trades && after.intents == st.intents && after.daily == st.daily
  {
    hide BookOk, Lives, TradesOk, Flow, CountersOk, ActionsOk, TerminalsOk, Openings, Closings, Sound, Timely, Revalued, Dict.Valid, LiveIn;
    var date, p := env.calendar[i], st.book.at[code];
    var after := MarkStep(env, st, date, code).value;
    PositionOk(env, st.book, i, {}, code);
    BookIds(env, st.book, i, {});
    LivePosition(env, st.book.at, Openings(st.trades), Closings(st.trades), st.holdings, st.actions, i, unmarked, date, code);
    var price := env.PriceAt(date, p.code);
    var q := Revalued(env, p, price, date).value;
    var row := HoldingRow(date, q);
    RevaluedMarks(env, p, date);
    RevaluedIsSound(env, p, code, i, price);
    MarkKeepsBook(env, st.book, i, code, price);
    MarkKeepsLives(env, st.book.at, Openings(st.trades), Closings(st.trades), st.holdings, st.actions, i, unmarked, code, q);
    SoundMark(env, q, code, i);
    FlowMarked(env, st, after, date, row);
    MarkKeepsCounters(st.counters, st.book.at, st.trades, st.holdings, Openings(st.trades), code, q, row);
    TerminalsIgnoreHolding(st.terminals, st.trades, Closings(st.trades), st.holdings, row);
    assert after.book.at == st.book.at[code := q];
  }

  lemma SoundMark(env: Env, q: PositionState, code: Code, i: nat)
    requires i < |env.calendar| && Sound(env, q, code, i)
    ensures HoldingExact(HoldingRow(env.calendar[i], q))
    ensures q.staleDays == 0 <==> q.valuation == Current
  {}

  lemma {:induction false} MarksKeepMid(env: Env, st: State, i: nat, codes: seq<Code>, k: nat)
    requires i < |env.calendar| && k <= |codes| && NoDuplicates(codes) && Mid(env, st, i, {}, Elements(codes))
    requires MarkUpTo(env, st, env.calendar[i], codes, k).Ok?
    ensures var after := MarkUpTo(env, st, env.calendar[i], codes, k).value;
            && Mid(env, after, i, {}, Elements(codes[k..]))
            && after.book.order == st.book.order && after.trades == st.trades && after.intents == st.intents && after.daily == st.daily
  {
    hide Mid, MarkStep;
    if k > 0 {
      MarksKeepMid(env, st, i, codes, k - 1);
      assert codes[k - 1..] == [codes[k - 1]] + codes[k..];
      assert codes[k - 1] !in codes[k..];
      MarkStepKeepsMid(env, MarkUpTo(env, st, env.calendar[i], codes, k - 1).value, i, Elements(codes[k - 1..]), codes[k - 1]);
      assert Elements(codes[k - 1..]) - {codes[k - 1]} == Elements(codes[k..]);
    } else {
      assert codes[0..] == codes;
    }
  }
}
