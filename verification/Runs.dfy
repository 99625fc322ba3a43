/** Whole runs: what holds between sessions, and the end of simulate_portfolio with its own
    final checks (src/ashare_quant/backtest/engine.py). */
module Runs {
  import opened Basics
  import opened Costs
  import opened Ledgers
  import opened CorporateActions
  import opened Simulation
  import opened Auditor
  import opened BookInvariant
  import opened LifeInvariant
  import opened TradeInvariant
  import opened MoneyInvariant
  import opened CounterInvariant
  import opened IntentInvariant
  import opened SessionInvariant
  import opened EntryInvariant

  // ----- the run -----

  function HeldIds(book: Book): set<Option<PositionId>> {
    set c | c in book.at :: Some(book.at[c].id)
  }

  /** The opening checks, in their order. */
  function Refusal(env: Env): Option<Failure> {
    if env.calendar == [] then Some(EmptyCalendar)
    else if |env.Transitions()| != |env.transitions| then Some(UnsupportedTopology)
    else if env.strict && exists d | d in env.calendar[First(env)..] :: d !in env.benchmark then Some(BenchmarkIncomplete)
    else if First(env) == |env.calendar| then Some(NoSessions)
    else None
  }

  /** The simulator from its opening checks to its closing ones. */
  function Simulate(env: Env): Result<State, Failure> {
    if Refusal(env).Some? then Err(Refusal(env).value)
    else
      var st :- Sessions(env);
      if env.strict && st.book.at != map[] then Err(OpenAtCutoff)
      else if !ActionLedgerReconciles(st.actions) then Err(LedgerInvalid)
      else if !LifecyclesReconcile(st.trades, HeldIds(st.book), st.actions) then Err(LifecycleInvalid)
      else Ok(st)
  }

  function ReportOf(st: State): Report {
    Report(st.daily, st.trades, st.holdings, st.actions, st.intents, st.terminals, st.counters)
  }

  // ----- between sessions -----

  /** The daily rows are the sessions before calendar index i. */
  ghost predicate DaysRun(env: Env, daily: seq<Daily>, i: nat)
    requires i <= |env.calendar|
  {
    && First(env) <= i && |daily| == i - First(env)
    && forall j :: 0 <= j < |daily| ==> daily[j].date == env.calendar[First(env) + j]
  }

  /** Everything that holds before session i. */
  ghost predicate Ready(env: Env, st: State, i: nat) {
    && i <= |env.calendar| && env.calendar != []
    && BookOk(env, st.book, i - 1, {})
    && Undue(env, st.book, Before(env, i))
    && Lives(env, st.book.at, Openings(st.trades), Closings(st.trades), st.holdings, st.actions, i - 1, {}, Before(env, i))
    && TradesOk(env, st.trades)
    && BooksSettled(env, st)
    && CountersOk(st.counters, st.book.at, st.trades, st.holdings, Openings(st.trades))
    && ActionsOk(env, st.actions)
    && TerminalsOk(st.terminals, st.trades, Closings(st.trades), st.holdings)
    && IntentsOk(env, st.intents, st.trades, i)
    && DaysRun(env, st.daily, i)
  }

  lemma BeforeIsEarlier(env: Env, i: nat)
    requires StrictlyIncreasing(env.calendar) && i < |env.calendar|
    ensures Before(env, i) < env.calendar[i]
  {}

  lemma DaysAreEarlier(env: Env, daily: seq<Daily>, i: nat)
    requires StrictlyIncreasing(env.calendar) && i < |env.calendar| && DaysRun(env, daily, i)
    ensures forall j :: 0 <= j < |daily| ==> daily[j].date < env.calendar[i]
  {}

  /** An opening in the map is a row of the log. */
  lemma {:induction false} OpeningIsRow(trades: seq<Trade>, q: PositionId)
    requires q in Openings(trades)
    ensures var t := Openings(trades)[q]; t in trades && IsOpening(t) && t.id == Some(q)
  {
    var front, t := trades[..|trades| - 1], trades[|trades| - 1];
    assert trades == front + [t];
    if !(IsOpening(t) && t.id == Some(q)) {
      OpeningIsRow(front, q);
    }
  }

  lemma {:induction false} ClosingIsRow(trades: seq<Trade>, q: PositionId)
    requires q in Closings(trades)
    ensures var t := Closings(trades)[q]; t in trades && IsClosing(t) && t.id == Some(q)
  {
    var front, t := trades[..|trades| - 1], trades[|trades| - 1];
    assert trades == front + [t];
    if !(IsClosing(t) && t.id == Some(q)) {
      ClosingIsRow(front, q);
    }
  }

  lemma OpenedEarlier(env: Env, st: State, i: nat)
    requires Governed(env) && i < |env.calendar| && Ready(env, st, i)
    ensures forall q :: q in Openings(st.trades) ==> q.date < env.calendar[i]
  {
    hide BookOk, Undue, Lives, CountersOk, ActionsOk, TerminalsOk, IntentsOk, Openings, Closings, DayExact, HoldingExact, IdsOk;
    DaysAreEarlier(env, st.daily, i);
    forall q | q in Openings(st.trades)
      ensures q.date < env.calendar[i]
    {
      OpeningIsRow(st.trades, q);
      var t := Openings(st.trades)[q];
      assert TradeSound(env, t) && OnDay(st.daily, t.date);
    }
  }

  // ----- one session -----

  /** Corporate actions of session i. */
  lemma ActionsStartMid(env: Env, st: State, i: nat)
    requires Governed(env) && i < |env.calendar| && Ready(env, st, i)
    requires ActOn(env, Opened(st), env.calendar[i]).Ok?
    ensures var acted := ActOn(env, Opened(st), env.calendar[i]).value;
            && Mid(env, acted, i, acted.book.at.Keys, acted.book.at.Keys)
            && acted.book.Valid()
            && acted.trades == st.trades && acted.intents == st.intents && acted.daily == st.daily
  {
    hide BookOk, Undue, Lives, TradesOk, BooksSettled, CountersOk, TerminalsOk, IntentsOk, Openings, Closings, Flow, ApplyEffective, Dict.Valid;
    var date, start := env.calendar[i], Opened(st);
    var acted := ActOn(env, start, date).value;
    BeforeIsEarlier(env, i);
    DaysAreEarlier(env, st.daily, i);
    OpeningFlow(env, st, date);
    MigrationKeepsBook(env, start, i);
    assert acted.book.Valid() by { BookOkIsValid(env, acted.book, i, acted.book.at.Keys); }
    BookIds(env, st.book, i - 1, {});
    assert Keyed(start.book) by { BookIsKeyed(env, st.book, i - 1, {}); }
    MigrationKeepsLives(env, start, Openings(st.trades), Closings(st.trades), i, Before(env, i));
    ActedRows(env, start, i);
    ActedFlags(env, start, i, Openings(st.trades));
    FlowIgnoresBook(env, start, acted, date);
  }

  lemma BookOkIsValid(env: Env, book: Book, i: int, due: set<Code>)
    requires BookOk(env, book, i, due)
    ensures book.Valid()
  {}

  lemma FlowIgnoresBook(env: Env, st: State, after: State, date: Date)
    requires Flow(env, st, date) && after == st.(book := after.book, actions := after.actions)
    ensures Flow(env, after, date)
  {
    hide DayExact, HoldingExact;
  }

  lemma ActedRows(env: Env, st: State, i: nat)
    requires i < |env.calendar| && BookOk(env, st.book, i - 1, {}) && ActionsOk(env, st.actions)
    requires ActOn(env, st, env.calendar[i]).Ok?
    ensures ActionsOk(env, ActOn(env, st, env.calendar[i]).value.actions)
  {
    hide ApplyEffective, SoundAction, Evidenced, Dict.Valid;
    BookIsKeyed(env, st.book, i - 1, {});
    ByPredecessorIsIndexed(env.transitions);
    MigrationRows(env.Transitions(), st.book, env.calendar[i]);
  }

  lemma ActedFlags(env: Env, st: State, i: nat, opens: TradeMap)
    requires i < |env.calendar| && BookOk(env, st.book, i - 1, {})
    requires CountersOk(st.counters, st.book.at, st.trades, st.holdings, opens)
    requires ActOn(env, st, env.calendar[i]).Ok?
    ensures var acted := ActOn(env, st, env.calendar[i]).value;
            CountersOk(acted.counters, acted.book.at, acted.trades, acted.holdings, opens)
  {
    hide ApplyEffective, CountersOk, Fate, Dict.Valid, FaithfulRow, MaximalPath, ChainOf, Mark, BookOk, Due;
    var ts, date := env.Transitions(), env.calendar[i];
    assert Keyed(st.book) by { BookIsKeyed(env, st.book, i - 1, {}); }
    MigrationRelocates(ts, st.book, date);
    var after := ApplyEffective(ts, st.book, date).value.book.at;
    forall d | d in after
      ensures exists k :: k in st.book.at && SameFlags(st.book.at[k], after[d])
    {
      var c :| c in st.book.at && Fate(ts, st.book, date, c).value.position == after[d];
      FateIsFaithful(ts, st.book, date, c);
      assert SameFlags(st.book.at[c], after[d]);
    }
    MigrationKeepsCounters(st.counters, st.book.at, after, st.trades, st.holdings, opens);
  }

  lemma OrderElements(book: Book)
    requires book.Valid()
    ensures Elements(book.order) == book.at.Keys && NoDuplicates(book.order)
  {}

  lemma MidIsValid(env: Env, st: State, i: nat, due: set<Code>, unmarked: set<Code>)
    requires Mid(env, st, i, due, unmarked)
    ensures st.book.Valid()
  {}

  /** The exits end with nothing left to decide and nothing of today opened. */
  lemma ExitsReachExited(env: Env, st: State, acted: State, i: nat)
    requires Governed(env) && i < |env.calendar|
    requires Mid(env, acted, i, acted.book.at.Keys, acted.book.at.Keys) && acted.book.Valid()
    requires IntentsOk(env, acted.intents, acted.trades, i)
    requires forall q :: q in Openings(acted.trades) ==> q.date < env.calendar[i]
    requires SellUpTo(env, acted, i, acted.book.order, |acted.book.order|).Ok?
    ensures var sold := SellUpTo(env, acted, i, acted.book.order, |acted.book.order|).value;
            Exited(env, sold, i) && sold.daily == acted.daily
  {
    hide Mid, SellUpTo, Openings, OpeningIds, IntentIds, SlotsOf, ExpectedSlots, Governed, Dict.Valid;
    var codes := acted.book.order;
    OrderElements(acted.book);
    ExitsKeepMid(env, acted, i, codes, |codes|);
    var sold := SellUpTo(env, acted, i, codes, |codes|).value;
    assert codes[|codes|..] == [];
    assert Elements(codes[|codes|..]) == {};
    SoldKeys(env, acted, i, codes, |codes|);
    AllUnmarked(env, sold, i, {}, Elements(codes));
  }

  lemma {:induction false} SoldKeys(env: Env, st: State, i: nat, codes: seq<Code>, k: nat)
    requires i < |env.calendar| && k <= |codes| && SellUpTo(env, st, i, codes, k).Ok?
    ensures SellUpTo(env, st, i, codes, k).value.book.at.Keys <= st.book.at.Keys
  {
    hide SellStep;
    if k > 0 {
      SoldKeys(env, st, i, codes, k - 1);
      SellStepTouchesOne(env, SellUpTo(env, st, i, codes, k - 1).value, i, codes[k - 1]);
    }
  }

  lemma OneBoughtDaily(env: Env, st: State, i: nat, rates: Rates, allocation: real, code: Code)
    requires i < |env.calendar| && BuyStep(env, st, i, rates, allocation, code).Ok?
    ensures BuyStep(env, st, i, rates, allocation, code).value.daily == st.daily
  {
    hide MaximumAffordable, Charge, Settled, TradeCosts.Total, Dict.Put, NewPosition;
  }

  lemma {:induction false} BoughtDaily(env: Env, st: State, i: nat, rates: Rates, allocation: real, codes: seq<Code>, k: nat)
    requires i < |env.calendar| && k <= |codes| && BuyUpTo(env, st, i, rates, allocation, codes, k).Ok?
    ensures BuyUpTo(env, st, i, rates, allocation, codes, k).value.daily == st.daily
  {
    hide BuyStep;
    if k > 0 {
      BoughtDaily(env, st, i, rates, allocation, codes, k - 1);
      OneBoughtDaily(env, BuyUpTo(env, st, i, rates, allocation, codes, k - 1).value, i, rates, allocation, codes[k - 1]);
    }
  }

  lemma {:induction false} RejectedDaily(env: Env, st: State, date: Date, codes: seq<Code>, k: nat)
    requires k <= |codes|
    ensures RejectUpTo(env, st, date, codes, k).daily == st.daily
  {
    if k > 0 {
      RejectedDaily(env, st, date, codes, k - 1);
    }
  }

  lemma EnterKeepsDaily(env: Env, st: State, i: nat)
    requires i < |env.calendar| && Enter(env, st, i).Ok?
    ensures Enter(env, st, i).value.daily == st.daily
  {
    hide RejectUpTo, BuyUpTo, Resolve, SlipsUpTo;
    var date := env.calendar[i];
    var candidates := Candidates(env.Selected(date), st.book.at);
    var noted := Noted(env, st, i);
    RejectedDaily(env, noted, date, candidates, |candidates|);
    var ready := RejectUpTo(env, noted, date, candidates, |candidates|);
    var codes := Executable(env, date, candidates);
    if codes != [] && ready.cash > 0.0 {
      BoughtDaily(env, ready, i, Resolve(env.costs, date, Buy).value, ready.cash / (|codes| as real), codes, |codes|);
    }
  }

  /** Marks follow the entries, with the intents of the day recorded. */
  lemma MarksReachEnd(env: Env, entered: State, i: nat)
    requires i < |env.calendar| && Entered(env, entered, i)
    requires var r := Recorded(entered); MarkUpTo(env, r, env.calendar[i], r.book.order, |r.book.order|).Ok?
    ensures var r := Recorded(entered);
            var marked := MarkUpTo(env, r, env.calendar[i], r.book.order, |r.book.order|).value;
            && Mid(env, marked, i, {}, {})
            && IntentsOk(env, marked.intents, marked.trades, i + 1)
            && marked.daily == entered.daily
  {
    hide Mid, SlipsList, FillsMatch, SlotsOf, ExpectedSlots, MarkUpTo, Dict.Valid, OpeningIds, IntentIds;
    var r := Recorded(entered);
    RecordingKeepsIntents(env, entered, i);
    MidIgnoresSlips(env, entered, r, i, {}, entered.book.at.Keys);
    MidIsValid(env, r, i, {}, r.book.at.Keys);
    OrderElements(r.book);
    var codes := r.book.order;
    MarksKeepMid(env, r, i, codes, |codes|);
    assert codes[|codes|..] == [];
    assert Elements(codes[|codes|..]) == {};
  }

  lemma DaysGrow(env: Env, daily: seq<Daily>, row: Daily, i: nat)
    requires i < |env.calendar| && DaysRun(env, daily, i) && row.date == env.calendar[i]
    ensures DaysRun(env, daily + [row], i + 1)
  {}

  /** Closing the day turns the finished session into the start of the next. */
  lemma ClosingReachesReady(env: Env, marked: State, i: nat)
    requires i < |env.calendar| && Mid(env, marked, i, {}, {})
    requires IntentsOk(env, marked.intents, marked.trades, i + 1)
    requires DaysRun(env, marked.daily, i)
    requires CloseDay(env, marked, env.calendar[i]).Ok?
    ensures Ready(env, CloseDay(env, marked, env.calendar[i]).value, i + 1)
  {
    hide BookOk, Undue, Lives, TradesOk, BooksSettled, CountersOk, ActionsOk, TerminalsOk, IntentsOk, Flow, DaysRun, Openings, Closings;
    var date := env.calendar[i];
    CloseDaySettles(env, marked, date);
    DaysGrow(env, marked.daily, DailyRow(env, marked, date), i);
  }

  /** One session takes a ready state to a ready state. */
  lemma SessionKeepsReady(env: Env, st: State, i: nat)
    requires Governed(env)
    requires i < |env.calendar| && Ready(env, st, i) && Session(env, st, i).Ok?
    ensures Ready(env, Session(env, st, i).value, i + 1)
    ensures Session(env, st, i).value.stopped ==>
              Session(env, st, i).value.book.at == map[] && forall d :: d in env.entries ==> d <= env.calendar[i]
  {
    hide Ready, Mid, ActOn, SellUpTo, Enter, MarkUpTo, Entered, Exited, IntentsOk, DaysRun, Openings, Dict.Valid, Governed;
    var date := env.calendar[i];
    var acted := ActOn(env, Opened(st), date).value;
    var sold := SellUpTo(env, acted, i, acted.book.order, |acted.book.order|).value;
    var entered := Enter(env, sold, i).value;
    assert IntentsOk(env, st.intents, st.trades, i) && DaysRun(env, st.daily, i) && First(env) <= i by { ReadyParts(env, st, i); }
    OpenedEarlier(env, st, i);
    ActionsStartMid(env, st, i);
    ExitsReachExited(env, st, acted, i);
    EntryKeepsMid(env, sold, i);
    EnterKeepsDaily(env, sold, i);
    MarksReachEnd(env, entered, i);
    var recorded := Recorded(entered);
    ClosingReachesReady(env, MarkUpTo(env, recorded, date, recorded.book.order, |recorded.book.order|).value, i);
  }

  lemma ReadyParts(env: Env, st: State, i: nat)
    requires Ready(env, st, i)
    ensures IntentsOk(env, st.intents, st.trades, i) && DaysRun(env, st.daily, i) && First(env) <= i
  {}

  // ----- runs -----

  lemma NoEntryBeforeFirst(env: Env, k: nat)
    requires Governed(env) && EntriesFollowSignals(env) && k < First(env)
    ensures env.calendar[k] !in env.entries
  {
    assert forall i :: First(env) < i < |env.calendar| ==> env.calendar[k] < env.calendar[i];
  }

  lemma InitialIsReady(env: Env)
    requires Governed(env) && EntriesFollowSignals(env)
    ensures Ready(env, Initial(env), First(env))
  {
    hide EntriesFollowSignals, Governed, IntentsOk, First;
    assert env.calendar != [] by { CalendarIsThere(env); }
    NothingIntended(env);
  }

  lemma NothingIntended(env: Env)
    requires Governed(env) && EntriesFollowSignals(env)
    ensures IntentsOk(env, [], [], First(env))
  {
    hide EntriesFollowSignals, Governed, ExpectedSlots, DaySlots;
    forall k | 0 <= k < First(env)
      ensures env.calendar[k] !in env.entries
    {
      NoEntryBeforeFirst(env, k);
    }
    NoSlotsExpected(env, 0, First(env));
    assert SlotsOf([]) == [] == ExpectedSlots(env, First(env)) by { NoSessionsNoSlots(env); }
  }

  lemma CalendarIsThere(env: Env)
    requires Governed(env)
    ensures env.calendar != []
  {}

  lemma NoSessionsNoSlots(env: Env)
    ensures ExpectedSlots(env, 0) == []
  {}

  /** The state after a run is ready for the session after the last one it worked through. */
  lemma {:induction false} RunIsReady(env: Env, n: nat) returns (m: nat)
    requires Governed(env) && EntriesFollowSignals(env)
    requires First(env) <= n <= |env.calendar| && RunUpTo(env, n).Ok?
    ensures First(env) <= m <= n && Ready(env, RunUpTo(env, n).value, m)
    ensures !RunUpTo(env, n).value.stopped ==> m == n
    ensures RunUpTo(env, n).value.stopped ==>
              First(env) < m && RunUpTo(env, n).value.book.at == map[] && forall d :: d in env.entries ==> d <= env.calendar[m - 1]
    decreases n
  {
    hide Ready, Session, Governed, EntriesFollowSignals;
    if n == First(env) {
      InitialIsReady(env);
      m := n;
    } else {
      m := RunIsReady(env, n - 1);
      var st := RunUpTo(env, n - 1).value;
      if !st.stopped {
        SessionKeepsReady(env, st, n - 1);
        m := n;
      }
    }
  }
}
