/** The whole run as one call, and the loops of its validators: the lifecycle replay of engine.py
    and the position replay of continuous_validation.py. */
module Validation {
  import opened Basics
  import opened Costs
  import opened Ledgers
  import opened Simulation
  import opened Auditor
  import opened BookInvariant
  import opened Runs
  import opened AuditTheorem
  import opened Engine
  import opened Signals

  // ----- lifecycle replay -----

  lemma {:induction false} ReplayFailed(events: seq<Event>, k: nat, n: nat)
    requires k <= n <= |events| && ReplayEvents(events[..k]).None?
    ensures ReplayEvents(events[..n]).None?
  {
    if k < n {
      ReplayFailed(events, k, n - 1);
      assert events[..n][..n - 1] == events[..n - 1];
    }
  }

  method CollectEvents(trades: seq<Trade>, actions: seq<Action>) returns (events: seq<Event>)
    ensures events == TradeEvents(trades) + ActionEvents(actions)
  {
    events := [];
    for k := 0 to |trades|
      invariant events == TradeEvents(trades[..k])
    {
      var t := trades[k];
      assert trades[..k + 1][..k] == trades[..k];
      if t.status == Filled || t.status == TerminalWriteoff {
        events := events + [Event(t.date, if t.side == Buy then 0 else 2, t.id, t.shares, t.cost)];
      }
    }
    assert trades[..|trades|] == trades;
    for k := 0 to |actions|
      invariant events == TradeEvents(trades) + ActionEvents(actions[..k])
    {
      var a := actions[k];
      assert actions[..k + 1][..k] == actions[..k];
      events := events + [Event(a.effective, 1, Some(a.id), a.newShares, 0.0)];
    }
    assert actions[..|actions|] == actions;
  }

  /** _validate_trade_lifecycles: replay all events in order and compare what is left open. */
  method ValidateTradeLifecycles(trades: seq<Trade>, open: set<Option<PositionId>>, actions: seq<Action>) returns (ok: bool)
    ensures ok <==> LifecyclesReconcile(trades, open, actions)
  {
    hide SortEvents, TradeEvents, ActionEvents;
    if trades == [] {
      return true;
    }
    var events := CollectEvents(trades, actions);
    var sorted := SortEvents(events);
    var live: Held := map[];
    assert sorted[..0] == [] && sorted[..|sorted|] == sorted;
    for k := 0 to |sorted|
      invariant ReplayEvents(sorted[..k]) == Some(live)
    {
      var e := sorted[k];
      assert sorted[..k + 1][..k] == sorted[..k];
      var fault := e.shares < 0.0 || e.cost < 0.0;
      if !fault {
        if e.priority == 0 {
          fault := e.id in live;
          live := live[e.id := e.shares];
        } else if e.priority == 1 {
          fault := e.id !in live;
          live := live[e.id := e.shares];
        } else {
          fault := e.id !in live || e.shares > live[e.id] + SHARE_TOLERANCE;
          live := live - {e.id};
        }
      }
      if fault {
        ReplayFailed(sorted, k + 1, |sorted|);
        return false;
      }
    }
    return live.Keys == open;
  }

  // ----- position replay -----

  lemma {:induction false} RowsFailed(acts: seq<Action>, start: Cursor, rows: seq<Holding>, k: nat, n: nat)
    requires k <= n <= |rows| && AfterRows(acts, start, rows, k).None?
    ensures AfterRows(acts, start, rows, n).None?
  {
    if k < n {
      RowsFailed(acts, start, rows, k, n - 1);
    }
  }

  /** The inner loop of the replay: every pending action effective by a date is applied. */
  method ConsumePending(acts: seq<Action>, from: Cursor, bound: Date) returns (ok: bool, cur: Cursor)
    ensures Consume(acts, from, bound) == if ok then Some(cur) else None
  {
    cur := from;
    while cur.next < |acts| && acts[cur.next].effective <= bound
      invariant Consume(acts, cur, bound) == Consume(acts, from, bound)
      decreases |acts| - cur.next
    {
      var event := acts[cur.next];
      if cur.code != event.predecessor || !Agrees(event.oldShares, cur.shares) {
        return false, cur;
      }
      cur := Cursor(event.newShares, event.successor, cur.next + 1);
    }
    return true, cur;
  }

  /** The replay of one closed position against its holding rows and its actions. */
  method ReplayPosition(env: Env, buy: Trade, close: Trade, rows: seq<Holding>, acts: seq<Action>) returns (ok: bool)
    ensures ok <==> HistoryAccepted(env, buy, close, rows, acts)
  {
    hide Consume, Agrees, Between;
    var entry := IndexOf(env.calendar, buy.date);
    if rows == [] || HoldingDates(rows) != Between(env.calendar, buy.date, close.date) {
      return false;
    }
    if entry.None? || entry.value + env.holdingPeriod >= |env.calendar| {
      return false;
    }
    var target := env.calendar[entry.value + env.holdingPeriod];
    if exists k | 0 <= k < |rows| :: rows[k].entryDate != buy.date || rows[k].target != target || rows[k].original != buy.code {
      return false;
    }
    var start := Cursor(buy.shares, buy.code, 0);
    var cur, fine := start, true;
    for k := 0 to |rows|
      invariant AfterRows(acts, start, rows, k) == Some(cur)
    {
      fine, cur := ConsumePending(acts, cur, rows[k].date);
      if !fine || !Agrees(rows[k].shares, cur.shares) || rows[k].code != cur.code {
        RowsFailed(acts, start, rows, k + 1, |rows|);
        return false;
      }
    }
    fine, cur := ConsumePending(acts, cur, close.date);
    return fine && cur.next == |acts| && close.code == cur.code && Agrees(close.shares, cur.shares);
  }

  // ----- the whole run -----

  /** The accounting auditor accepts; the portfolio auditor does exactly if the calendar starts at
      the first signal and no fill bought a renamed code. */
  ghost predicate Audited(env: Env, r: Report) {
    && AccountingEvidence(env, r)
    && (PortfolioEvidence(env, r) <==> First(env) == 0 && FillsPrecedeTransitions(env, r.trades))
  }

  lemma AuditedIfGoverned(env: Env)
    ensures Simulate(env).Ok? && Governed(env) && EntriesFollowSignals(env) && env.strict ==>
              Audited(env, ReportOf(Simulate(env).value))
  {
    hide Simulate, AccountingEvidence, PortfolioEvidence, FillsPrecedeTransitions, Governed, EntriesFollowSignals, First;
    if Simulate(env).Ok? && Governed(env) && EntriesFollowSignals(env) && env.strict {
      AuditOfStrictRun(env);
    }
  }

  lemma CompletedRunHasSessions(env: Env)
    requires Simulate(env).Ok?
    ensures env.calendar != []
  {
    hide Sessions, LifecyclesReconcile, First;
  }

  /** The audited run from its raw inputs. */
  lemma SignalRunIsAudited(signals: seq<Signal>, n: nat, env: Env)
    requires UniqueKeys(signals) && StartsWith(signals, env.signalStart) && ByEntryDate(signals, env.calendar, n) == Ok(env.entries)
    requires StrictlyIncreasing(env.calendar)
    requires ValidPolicy(env.costs) && env.initialCash > 0.0 && env.holdingPeriod >= 1
    requires env.strict && Simulate(env).Ok?
    ensures Audited(env, ReportOf(Simulate(env).value))
  {
    hide Simulate, Audited, First, ByEntryDate, UniqueKeys, NoDuplicates;
    CompletedRunHasSessions(env);
    EntriesAreGoverned(signals, n, env);
    AuditedIfGoverned(env);
  }

  /** The opening checks of simulate_portfolio. */
  method CheckInputs(env: Env) returns (refusal: Option<Failure>)
    ensures refusal == Refusal(env)
  {
    hide First;
    if env.calendar == [] {
      return Some(EmptyCalendar);
    }
    if |env.Transitions()| != |env.transitions| {
      return Some(UnsupportedTopology);
    }
    if env.strict && exists d | d in env.calendar[First(env)..] :: d !in env.benchmark {
      return Some(BenchmarkIncomplete);
    }
    if First(env) == |env.calendar| {
      return Some(NoSessions);
    }
    return None;
  }

  /** simulate_portfolio: the run of the simulator object and its closing checks. What it returns
      is audited as the central theorem says. */
  method SimulatePortfolio(env: Env) returns (r: Result<Report, Failure>)
    ensures match Simulate(env)
            case Err(f) => r == Err(f)
            case Ok(st) => r == Ok(ReportOf(st))
    ensures r.Ok? && Governed(env) && EntriesFollowSignals(env) && env.strict ==> Audited(env, r.value)
  {
    hide Sessions, LifecyclesReconcile, ActionLedgerReconciles, Audited,
         Governed, EntriesFollowSignals, First, Refusal;
    var refusal := CheckInputs(env);
    if refusal.Some? {
      return Err(refusal.value);
    }
    var simulator := new Simulator(env);
    var failure := simulator.Run();
    if failure.Some? {
      return Err(failure.value);
    }
    var st := simulator.View();
    assert simulator.positions.Keys == st.book.at.Keys;
    EmptyIff(simulator.positions);
    EmptyIff(st.book.at);
    if env.strict && simulator.positions != map[] {
      return Err(OpenAtCutoff);
    }
    if !ActionLedgerReconciles(st.actions) {
      return Err(LedgerInvalid);
    }
    var reconciled := ValidateTradeLifecycles(st.trades, HeldIds(st.book), st.actions);
    if !reconciled {
      return Err(LifecycleInvalid);
    }
    AuditedIfGoverned(env);
    return Ok(ReportOf(st));
  }
}
