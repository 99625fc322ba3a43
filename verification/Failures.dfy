/** Why a session fails: every fault a run reports is one that the market, the calendar or the cost policy
    commands (the checks of simulate_portfolio in src/ashare_quant/backtest/engine.py, lines 158-411). */
module Failures {
  import opened Basics
  import opened Costs
  import opened Ledgers
  import opened CorporateActions
  import opened Planning
  import opened Simulation
  import opened Auditor
  import opened BookInvariant
  import opened LifeInvariant
  import opened TradeInvariant
  import opened MoneyInvariant
  import opened CounterInvariant
  import opened IntentInvariant
  import opened SessionInvariant
  import opened EntryInvariant
  import opened Runs
  import opened Marks
  import opened Execution

  ghost predicate NoRegime(env: Env, date: Date) {
    forall s :: s in env.costs ==> date < s.effectiveFrom
  }

  /** The migration of the date cannot be carried out: some position cannot be planned, or one that is to be
      renamed has no positive mark. */
  ghost predicate MigrationFaulty(env: Env, book: Book, date: Date, fault: Fault) {
    || (exists k :: FirstFaulty(env.Transitions(), book, date, |book.order|, k, fault))
    || (PlansFor(env.Transitions(), book, date, |book.order|).Ok?
        && exists c :: c in book.at && Due(env.Transitions(), c, date) && !HasPositiveMark(book.at[c]))
  }

  /** A position whose target has come cannot leave: nobody buys it and the delays it may take are used up,
      or no cost regime is in force on the day it is sold. */
  ghost predicate ExitFaulty(env: Env, at: Positions, date: Date, f: Failure) {
    exists c ::
      && c in at && at[c].target <= date && !Delisted(env, date, c)
      && match f
         case SellDelayExceeded(id) =>
           id == at[c].id && NoBuyer(env, date, c) && env.strict && !env.carryToCalendarEnd && at[c].delayed >= env.maxDelay
         case CostFault(e) => e == NoCostRegime && NoRegime(env, date) && !NoBuyer(env, date, c)
         case _ => false
  }

  /** A selected code that is free and for sale cannot be bought with the cash there is: no cost regime is in
      force, or the calendar ends before its target. */
  ghost predicate EntryFaulty(env: Env, sold: State, i: nat, f: Failure)
    requires i < |env.calendar|
  {
    && sold.cash > 0.0
    && (exists c :: c in env.Selected(env.calendar[i]) && c !in sold.book.at && !NotForSale(env, env.calendar[i], c))
    && match f
       case CostFault(e) => e == NoCostRegime && NoRegime(env, env.calendar[i])
       case CalendarInsufficient => i + env.holdingPeriod >= |env.calendar|
       case _ => false
  }

  /** A strict run meets a position that has no close and is not suspended. */
  ghost predicate MarkFaulty(env: Env, at: Positions, date: Date, f: Failure) {
    && env.strict
    && exists c :: c in at && f == MarketDataIncomplete(at[c].id) && QuotedClose(env, date, c).None? && !Suspended(env, date, c)
  }

  /** The accounts of the day are below zero by more than the tolerance, or a position has no value. */
  ghost predicate AccountsFaulty(st: State) {
    match st.dayValue
    case None => true
    case Some(v) => st.cash < -0.000001 || v < -0.000001 || st.cash + v < -0.000001
  }

  /** What a fault of session i says, if it comes after the exits. */
  ghost predicate LateJustified(env: Env, sold: State, i: nat, f: Failure)
    requires i < |env.calendar|
  {
    var date, entered := env.calendar[i], Enter(env, sold, i);
    if entered.Err? then f == entered.error && EntryFaulty(env, sold, i, f)
    else
      var recorded := Recorded(entered.value);
      var marked := MarkUpTo(env, recorded, date, recorded.book.order, |recorded.book.order|);
      if marked.Err? then f == marked.error && MarkFaulty(env, recorded.book.at, date, f)
      else f == AccountingInvariant && AccountsFaulty(marked.value)
  }

  /** What a fault of session i says. */
  ghost predicate Justified(env: Env, st: State, i: nat, f: Failure)
    requires i < |env.calendar|
  {
    var date, acted := env.calendar[i], ActOn(env, Opened(st), env.calendar[i]);
    if acted.Err? then f == acted.error && f.ActionFault? && MigrationFaulty(env, st.book, date, f.fault)
    else
      var sold := SellUpTo(env, acted.value, i, acted.value.book.order, |acted.value.book.order|);
      if sold.Err? then f == sold.error && ExitFaulty(env, acted.value.book.at, date, f) else LateJustified(env, sold.value, i, f)
  }

  // ----- migration -----

  lemma MigrationFails(env: Env, st: State, i: nat)
    requires Governed(env) && i < |env.calendar| && Ready(env, st, i) && ActOn(env, Opened(st), env.calendar[i]).Err?
    ensures var e := ActOn(env, Opened(st), env.calendar[i]).error;
            e.ActionFault? && MigrationFaulty(env, st.book, env.calendar[i], e.fault)
  {
    hide Ready, PlansFor, CarryOut, PlanFaulty, Dict.Valid, HasPositiveMark, Governed, BookOk;
    var ts, date := env.Transitions(), env.calendar[i];
    ReadyBook(env, st, i);
    PlansIff(ts, st.book, date, |st.book.order|);
    if PlansFor(ts, st.book, date, |st.book.order|).Ok? {
      MutationSucceedsIff(ts, st.book, date);
    }
  }

  lemma ReadyBook(env: Env, st: State, i: nat)
    requires Ready(env, st, i)
    ensures st.book.Valid() && Keyed(st.book)
  {
    hide Lives, TradesOk, BooksSettled, CountersOk, ActionsOk, TerminalsOk, IntentsOk, DaysRun, Undue, Openings, Closings;
    BookOkIsValid(env, st.book, i - 1, {});
    BookIsKeyed(env, st.book, i - 1, {});
  }

  // ----- exits -----

  lemma SellFails(env: Env, st: State, i: nat, code: Code)
    requires ValidPolicy(env.costs) && i < |env.calendar| && code in st.book.at && st.book.at[code].shares > 0.0
    requires st.book.at[code].breached ==> st.book.at[code].delayed > env.maxDelay
    requires SellStep(env, st, i, code).Err?
    ensures ExitFaulty(env, map[code := st.book.at[code]], env.calendar[i], SellStep(env, st, i, code).error)
  {
    hide Calculate, NoBuyer, Delisted, Sellable, IsTerminal, ValidPolicy, NoRegime;
    var date, p := env.calendar[i], st.book.at[code];
    SellableIff(env, date, code);
    TerminalIff(env, date, code);
    if Sellable(env.PriceAt(date, code)) {
      SellableAtOpen(env, date, code);
      var gross := Times(p.shares, env.PriceAt(date, code).value.open.value);
      assert gross > 0.0;
      CostsFail(env, date, Sell, gross);
    }
    var at := map[code := p];
    assert code in at;
  }

  lemma SellableAtOpen(env: Env, date: Date, code: Code)
    requires Sellable(env.PriceAt(date, code))
    ensures env.PriceAt(date, code).Some? && env.PriceAt(date, code).value.open.Some? && env.PriceAt(date, code).value.open.value > 0.0
  {}

  lemma CostsFail(env: Env, date: Date, side: Side, gross: real)
    requires ValidPolicy(env.costs) && gross >= 0.0
    ensures Calculate(env.costs, date, side, gross).Err? ==>
              Calculate(env.costs, date, side, gross).error == NoCostRegime && NoRegime(env, date)
  {
    hide Calculate, ValidPolicy, InForce, CostsUnder;
    CalculateIff(env.costs, date, side, gross, Calculate(env.costs, date, side, gross));
  }

  /** The codes still to be decided are as they were. */
  ghost predicate Untouched(acted: State, st: State, codes: seq<Code>) {
    forall c :: c in codes ==> c in acted.book.at && c in st.book.at && st.book.at[c] == acted.book.at[c]
  }

  lemma {:induction false} SellsFail(env: Env, acted: State, i: nat, codes: seq<Code>, k: nat)
    requires ValidPolicy(env.costs) && i < |env.calendar| && k <= |codes| && NoDuplicates(codes)
    requires forall c :: c in codes ==> c in acted.book.at
    requires forall c :: c in acted.book.at ==> acted.book.at[c].shares > 0.0 && (acted.book.at[c].breached ==> acted.book.at[c].delayed > env.maxDelay)
    ensures match SellUpTo(env, acted, i, codes, k)
            case Ok(st) => Untouched(acted, st, codes[k..])
            case Err(f) => ExitFaulty(env, acted.book.at, env.calendar[i], f)
  {
    hide SellStep, ExitFaulty, ValidPolicy;
    if k > 0 {
      SellsFail(env, acted, i, codes, k - 1);
      var before := SellUpTo(env, acted, i, codes, k - 1);
      if before.Ok? {
        var code := codes[k - 1];
        assert codes[k - 1..] == [code] + codes[k..];
        assert code in codes[k - 1..];
        if SellStep(env, before.value, i, code).Ok? {
          SellStepTouchesOne(env, before.value, i, code);
          assert forall c :: c in codes[k..] ==> c in codes[k - 1..] && c != code;
        } else {
          SellFails(env, before.value, i, code);
          FaultyInBook(env, acted.book.at, code, env.calendar[i], SellStep(env, before.value, i, code).error);
        }
      }
    } else {
      assert codes[0..] == codes;
    }
  }

  lemma FaultyInBook(env: Env, at: Positions, code: Code, date: Date, f: Failure)
    requires code in at && ExitFaulty(env, map[code := at[code]], date, f)
    ensures ExitFaulty(env, at, date, f)
  {
    hide NoBuyer, Delisted, NoRegime;
    var one: Positions := map[code := at[code]];
    assert forall c :: c in one ==> c == code;
  }

  // ----- entries -----

  lemma BuyFails(env: Env, st: State, i: nat, rates: Rates, allocation: real, code: Code)
    requires i < |env.calendar| && BuyStep(env, st, i, rates, allocation, code).Err? && !NotForSale(env, env.calendar[i], code)
    ensures BuyStep(env, st, i, rates, allocation, code) == Err(CalendarInsufficient) && i + env.holdingPeriod >= |env.calendar|
  {
    hide MaximumAffordable, Charge, TradeCosts.Total, NotForSale, Buyable;
    BuyableIff(env, env.calendar[i], code);
  }

  lemma {:induction false} BuysFail(env: Env, st: State, i: nat, rates: Rates, allocation: real, codes: seq<Code>, k: nat)
    requires i < |env.calendar| && k <= |codes| && BuyUpTo(env, st, i, rates, allocation, codes, k).Err?
    requires forall c :: c in codes ==> !NotForSale(env, env.calendar[i], c)
    ensures BuyUpTo(env, st, i, rates, allocation, codes, k) == Err(CalendarInsufficient) && i + env.holdingPeriod >= |env.calendar|
  {
    hide BuyStep, NotForSale;
    if k > 0 {
      if BuyUpTo(env, st, i, rates, allocation, codes, k - 1).Err? {
        BuysFail(env, st, i, rates, allocation, codes, k - 1);
      } else {
        BuyFails(env, BuyUpTo(env, st, i, rates, allocation, codes, k - 1).value, i, rates, allocation, codes[k - 1]);
      }
    }
  }

  lemma EntryFails(env: Env, sold: State, i: nat)
    requires Governed(env) && i < |env.calendar| && Enter(env, sold, i).Err?
    ensures EntryFaulty(env, sold, i, Enter(env, sold, i).error)
  {
    hide Governed, RejectUpTo, BuyUpTo, Resolve, NoDuplicates, Candidates, Executable, NotForSale, Buyable, Noted, Turning, NoRegime;
    var date := env.calendar[i];
    SelectedOnce(env, date);
    GovernedPolicy(env);
    NotedSlips(env, sold, i);
    CandidatesAreFree(env.Selected(date), sold.book.at);
    var candidates, noted := Candidates(env.Selected(date), sold.book.at), Noted(env, sold, i);
    RejectionsFollow(env, noted, date, candidates, |candidates|);
    ExecutableAreBuyable(env, date, candidates);
    var ready, codes := RejectUpTo(env, noted, date, candidates, |candidates|), Executable(env, date, candidates);
    TurnedState(env, date, noted, ready, candidates, |candidates|);
    forall c
      ensures Buyable(env.PriceAt(date, c)) <==> !NotForSale(env, date, c)
    {
      BuyableIff(env, date, c);
    }
    FirstIsMember(codes);
    ResolveFails(env, date);
    if Resolve(env.costs, date, Buy).Ok? {
      BuysFail(env, ready, i, Resolve(env.costs, date, Buy).value, ready.cash / (|codes| as real), codes, |codes|);
    }
  }

  lemma ResolveFails(env: Env, date: Date)
    requires ValidPolicy(env.costs)
    ensures Resolve(env.costs, date, Buy).Err? ==> Resolve(env.costs, date, Buy).error == NoCostRegime && NoRegime(env, date)
  {
    hide ValidPolicy;
    InForceIff(env.costs, date);
  }

  // ----- marks and accounts -----

  lemma MarkFails(env: Env, st: State, date: Date, code: Code)
    requires code in st.book.at && st.book.at[code].code == code && MarkStep(env, st, date, code).Err?
    ensures MarkFaulty(env, map[code := st.book.at[code]], date, MarkStep(env, st, date, code).error)
  {
    var at := map[code := st.book.at[code]];
    assert code in at;
  }

  lemma {:induction false} MarksFail(env: Env, st: State, date: Date, codes: seq<Code>, k: nat)
    requires k <= |codes| && (forall c :: c in codes ==> c in st.book.at)
    requires forall c :: c in st.book.at ==> st.book.at[c].code == c
    requires MarkUpTo(env, st, date, codes, k).Err?
    ensures MarkFaulty(env, st.book.at, date, MarkUpTo(env, st, date, codes, k).error)
  {
    hide MarkStep, MarkFaulty;
    if k > 0 {
      var before := MarkUpTo(env, st, date, codes, k - 1);
      if before.Err? {
        MarksFail(env, st, date, codes, k - 1);
      } else {
        var code := codes[k - 1];
        MarksFollow(env, st, date, codes, k - 1);
        assert code in codes;
        MarkFails(env, before.value, date, code);
        FaultyMark(env, st.book.at, before.value.book.at, date, code, MarkStep(env, before.value, date, code).error);
      }
    }
  }

  lemma FaultyMark(env: Env, at: Positions, before: Positions, date: Date, code: Code, f: Failure)
    requires code in at && code in before && before[code].id == at[code].id && MarkFaulty(env, map[code := before[code]], date, f)
    ensures MarkFaulty(env, at, date, f)
  {
    hide QuotedClose, Suspended;
    var one: Positions := map[code := before[code]];
    assert forall c :: c in one ==> c == code;
  }

  lemma AccountsFail(env: Env, st: State, i: nat)
    requires i < |env.calendar| && Mid(env, st, i, {}, {}) && CloseDay(env, st, env.calendar[i]).Err?
    ensures CloseDay(env, st, env.calendar[i]) == Err(AccountingInvariant) && AccountsFaulty(st)
  {
    hide Lives, TradesOk, Flow, CountersOk, ActionsOk, TerminalsOk, Undue, Openings, Closings, DailyRow;
    BookIds(env, st.book, i, {});
  }

  // ----- one session -----

  /** A session that fails reports the fault of its first phase that cannot be carried out, and the market
      bears the fault out. */
  lemma FailureIsJustified(env: Env, st: State, i: nat)
    requires Governed(env) && i < |env.calendar| && Ready(env, st, i) && Session(env, st, i).Err?
    ensures Justified(env, st, i, Session(env, st, i).error)
  {
    hide Ready, Mid, ActOn, SellUpTo, Enter, MarkUpTo, Entered, Exited, IntentsOk, DaysRun, Openings, Dict.Valid, Governed, CloseDay,
         MigrationFaulty, ExitFaulty, EntryFaulty, MarkFaulty, AccountsFaulty, DistinctIds;
    var date := env.calendar[i];
    if ActOn(env, Opened(st), date).Err? {
      MigrationFails(env, st, i);
    } else {
      var acted := ActOn(env, Opened(st), date).value;
      assert IntentsOk(env, st.intents, st.trades, i) && First(env) <= i by { ReadyParts(env, st, i); }
      OpenedEarlier(env, st, i);
      ActionsStartMid(env, st, i);
      GovernedPolicy(env);
      DueBook(env, acted, i);
      SellsFail(env, acted, i, acted.book.order, |acted.book.order|);
      if SellUpTo(env, acted, i, acted.book.order, |acted.book.order|).Ok? {
        ActedLedgers(env, st, acted, date);
        ExitsReachExited(env, st, acted, i);
        AfterExits(env, SellUpTo(env, acted, i, acted.book.order, |acted.book.order|).value, i);
      }
    }
  }

  lemma DueBook(env: Env, st: State, i: nat)
    requires i < |env.calendar| && Mid(env, st, i, st.book.at.Keys, st.book.at.Keys)
    ensures NoDuplicates(st.book.order) && forall c :: c in st.book.order ==> c in st.book.at
    ensures forall c :: c in st.book.at ==> st.book.at[c].shares > 0.0 && (st.book.at[c].breached ==> st.book.at[c].delayed > env.maxDelay)
  {
    hide Lives, TradesOk, Flow, CountersOk, ActionsOk, TerminalsOk, Undue, Openings, Closings;
    BookIds(env, st.book, i, st.book.at.Keys);
    forall c | c in st.book.at
      ensures st.book.at[c].breached ==> st.book.at[c].delayed > env.maxDelay
    {
      PositionOk(env, st.book, i, st.book.at.Keys, c);
    }
    OrderElements(st.book);
    assert forall c :: c in st.book.order ==> c in Elements(st.book.order);
  }

  /** The later phases of a session that got through its exits. */
  lemma AfterExits(env: Env, sold: State, i: nat)
    requires Governed(env) && First(env) <= i < |env.calendar| && Exited(env, sold, i)
    ensures Enter(env, sold, i).Err? ==> EntryFaulty(env, sold, i, Enter(env, sold, i).error)
    ensures Enter(env, sold, i).Ok? ==>
              var date, recorded := env.calendar[i], Recorded(Enter(env, sold, i).value);
              var marked := MarkUpTo(env, recorded, date, recorded.book.order, |recorded.book.order|);
              if marked.Err? then MarkFaulty(env, recorded.book.at, date, marked.error)
              else CloseDay(env, marked.value, date).Err? ==>
                     CloseDay(env, marked.value, date).error == AccountingInvariant && AccountsFaulty(marked.value)
  {
    hide Mid, Enter, MarkUpTo, Entered, Exited, Governed, CloseDay, EntryFaulty, MarkFaulty, AccountsFaulty, Openings, IntentsOk;
    var date := env.calendar[i];
    if Enter(env, sold, i).Err? {
      EntryFails(env, sold, i);
    } else {
      var entered := Enter(env, sold, i).value;
      EntryKeepsMid(env, sold, i);
      EnteredBook(env, entered, i);
      var recorded := Recorded(entered);
      assert forall c :: c in recorded.book.order ==> c in Elements(recorded.book.order);
      if MarkUpTo(env, recorded, date, recorded.book.order, |recorded.book.order|).Err? {
        MarksFail(env, recorded, date, recorded.book.order, |recorded.book.order|);
      } else {
        MarksReachEnd(env, entered, i);
        var marked := MarkUpTo(env, recorded, date, recorded.book.order, |recorded.book.order|).value;
        if CloseDay(env, marked, date).Err? {
          AccountsFail(env, marked, i);
        }
      }
    }
  }

  // ----- the opening checks -----

  ghost predicate TwoFrom(ts: seq<Transition>) {
    exists j, k :: 0 <= j < k < |ts| && ts[j].predecessor == ts[k].predecessor
  }

  /** A session from the first signal on. */
  ghost predicate IsSession(env: Env, d: Date) {
    d in env.calendar && env.signalStart <= d
  }

  /** Which opening check refuses the run. */
  ghost predicate IsRefusal(env: Env, f: Failure) {
    if env.calendar == [] then f == EmptyCalendar
    else if TwoFrom(env.transitions) then f == UnsupportedTopology
    else if env.strict && exists d :: IsSession(env, d) && d !in env.benchmark then f == BenchmarkIncomplete
    else f == NoSessions && forall d :: !IsSession(env, d)
  }

  ghost predicate Leaves(ts: seq<Transition>, c: Code) {
    exists k :: 0 <= k < |ts| && ts[k].predecessor == c
  }

  lemma LeavesSnoc(front: seq<Transition>, last: Transition)
    ensures TwoFrom(front + [last]) <==> TwoFrom(front) || Leaves(front, last.predecessor)
    ensures forall c :: Leaves(front + [last], c) <==> Leaves(front, c) || c == last.predecessor
  {
    var ts := front + [last];
    assert ts[|front|] == last && forall k :: 0 <= k < |front| ==> ts[k] == front[k];
  }

  lemma {:induction false} TopologyIff(ts: seq<Transition>)
    ensures |ByPredecessor(ts)| <= |ts|
    ensures |ByPredecessor(ts)| == |ts| <==> !TwoFrom(ts)
    ensures forall c :: c in ByPredecessor(ts) <==> Leaves(ts, c)
  {
    hide TwoFrom, Leaves;
    if ts != [] {
      var front, last := ts[..|ts| - 1], ts[|ts| - 1];
      assert ts == front + [last];
      TopologyIff(front);
      LeavesSnoc(front, last);
      var m := ByPredecessor(front);
      assert m[last.predecessor := last].Keys == m.Keys + {last.predecessor};
    } else {
      NoneLeave();
    }
  }

  lemma NoneLeave()
    ensures !TwoFrom([]) && forall c :: !Leaves([], c)
  {}

  lemma {:induction false} SessionsFrom(calendar: seq<Date>, start: Date, d: Date)
    requires StrictlyIncreasing(calendar)
    ensures d in calendar[SessionsBefore(calendar, start)..] <==> d in calendar && start <= d
  {
    if calendar != [] {
      if calendar[0] < start {
        assert calendar == [calendar[0]] + calendar[1..];
        SessionsFrom(calendar[1..], start, d);
        assert calendar[1..][SessionsBefore(calendar[1..], start)..] == calendar[SessionsBefore(calendar, start)..];
      } else {
        assert calendar[0..] == calendar;
        if d in calendar {
          var k :| 0 <= k < |calendar| && calendar[k] == d;
        }
      }
    }
  }

  /** The run is refused exactly for these reasons, and no earlier one. */
  lemma RefusalIff(env: Env, f: Failure)
    requires StrictlyIncreasing(env.calendar)
    ensures Refusal(env) == Some(f) <==> IsRefusal(env, f)
  {
    hide StrictlyIncreasing, ByPredecessor, SessionsBefore, TwoFrom;
    TopologyIff(env.transitions);
    var from := env.calendar[First(env)..];
    forall d
      ensures d in from <==> IsSession(env, d)
    {
      SessionsFrom(env.calendar, env.signalStart, d);
    }
    if First(env) < |env.calendar| {
      assert from[0] in from && IsSession(env, from[0]);
    } else {
      assert from == [];
      assert forall d :: d !in from;
    }
    assert (exists d | d in from :: d !in env.benchmark) <==> exists d :: IsSession(env, d) && d !in env.benchmark;
  }
}
