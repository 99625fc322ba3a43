/** The simulator as it runs: one account object whose positions are updated in place, session by
    session (simulate_portfolio in src/ashare_quant/backtest/engine.py). Every method is proved to
    compute the corresponding function of Simulation, for which the theorems are stated. */
module Engine {
  import opened Basics
  import opened Costs
  import opened Ledgers
  import opened CorporateActions
  import opened Simulation

  /** One open position. Several sessions update the same object. */
  class Position {
    const id: PositionId
    var code: Code
    const original: Code
    var shares: real
    const entryDate: Date
    const entryIndex: int
    const target: Date
    var lastClose: Option<real>
    var lastPriceDate: Date
    var valuation: Valuation
    var staleDays: nat
    var delayed: nat
    var breached: bool

    constructor (id: PositionId, code: Code, shares: real, date: Date, index: int, target: Date, close: Option<real>)
      ensures Value() == PositionState(id, code, code, shares, date, index, target, close, date, Current, 0, 0, false)
    {
      this.id, this.code, original, this.shares := id, code, code, shares;
      entryDate, entryIndex, this.target := date, index, target;
      lastClose, lastPriceDate, valuation, staleDays := close, date, Current, 0;
      delayed, breached := 0, false;
    }

    function Value(): PositionState
      reads this
    {
      PositionState(id, code, original, shares, entryDate, entryIndex, target, lastClose, lastPriceDate,
                    valuation, staleDays, delayed, breached)
    }

    /** One share conversion in place, and its ledger row. */
    method Transform(t: Transition) returns (r: Result<Action, Fault>)
      modifies this`code, this`shares, this`lastClose
      ensures match Convert(old(Value()), t)
              case Err(f) => r == Err(f)
              case Ok(c) => r == Ok(c.row) && Value() == c.position
    {
      hide Times, Over, IsClose;
      if t.ratio.None? {
        return Err(ActionRatioMissing);
      }
      if lastClose.None? {
        return Err(ActionValueInvalid);
      }
      var p := Value();
      var oldShares, oldClose, ratio := p.shares, p.lastClose.value, t.ratio.value;
      if oldShares <= 0.0 || oldClose <= 0.0 || ratio <= 0.0 {
        return Err(ActionValueInvalid);
      }
      var newShares, adjusted := Times(oldShares, ratio), Over(oldClose, ratio);
      var before, after := Times(oldShares, oldClose), Times(newShares, adjusted);
      if newShares <= 0.0 || adjusted <= 0.0 || before <= 0.0 || after <= 0.0 {
        return Err(ActionValueInvalid);
      }
      if !IsClose(before, after, MARK_TOLERANCE, MARK_TOLERANCE) {
        return Err(ActionMarkChanged);
      }
      code, shares, lastClose := t.successor, newShares, Some(adjusted);
      return Ok(Action(t.effective, id, t.predecessor, t.successor, oldShares, newShares, ratio,
                       oldClose, adjusted, before, after, after - before, 0.0, t.evidence));
    }

    /** One more session on which the exit could not be executed. */
    method Miss(env: Env) returns (late: bool)
      modifies this`delayed, this`breached
      ensures Value() == DelayedOnce(env, old(Value()))
      ensures late == (breached && !old(breached))
    {
      delayed := delayed + 1;
      late := delayed > env.maxDelay && !breached;
      if late {
        breached := true;
      }
    }

    /** _market_value: revalue the position at the end of a day. */
    method Revalue(env: Env, price: Option<Price>, date: Date) returns (failure: Option<Failure>)
      modifies this`lastClose, this`lastPriceDate, this`valuation, this`staleDays
      ensures Revalued(env, old(Value()), price, date) == if failure.Some? then Err(failure.value) else Ok(Value())
      ensures failure.Some? ==> Value() == old(Value())
    {
      if price.Some? && price.value.close.Some? && price.value.close.value > 0.0 {
        lastClose, lastPriceDate := price.value.close, date;
        valuation, staleDays := Current, 0;
        return None;
      }
      if price.Some? && price.value.suspended {
        valuation := StaleSuspended;
      } else if env.strict {
        return Some(MarketDataIncomplete(id));
      } else {
        valuation := StaleMissingData;
      }
      staleDays := staleDays + 1;
      return None;
    }
  }

  lemma {:induction false} SellFailed(env: Env, st: State, i: nat, codes: seq<Code>, k: nat, n: nat, f: Failure)
    requires i < |env.calendar| && k <= n <= |codes| && SellUpTo(env, st, i, codes, k) == Err(f)
    ensures SellUpTo(env, st, i, codes, n) == Err(f)
  {
    if k < n {
      SellFailed(env, st, i, codes, k, n - 1, f);
    }
  }

  lemma KeyedOrder(book: Book)
    requires Keyed(book)
    ensures NoDuplicates(book.order) && forall c :: c in book.order <==> c in book.at
  {}

  lemma FiledUnderOwnCode(book: Book, code: Code)
    requires Keyed(book) && code in book.at
    ensures book.at[code].code == code && book.at[code].shares > 0.0
  {}

  lemma DeletedIsKeyed(book: Book, code: Code)
    requires Keyed(book)
    ensures Keyed(book.Delete(code))
  {}

  lemma {:induction false} BuyFailed(env: Env, st: State, i: nat, rates: Rates, allocation: real, codes: seq<Code>, k: nat, n: nat, f: Failure)
    requires i < |env.calendar| && k <= n <= |codes| && BuyUpTo(env, st, i, rates, allocation, codes, k) == Err(f)
    ensures BuyUpTo(env, st, i, rates, allocation, codes, n) == Err(f)
  {
    hide BuyStep;
    if k < n {
      BuyFailed(env, st, i, rates, allocation, codes, k, n - 1, f);
    }
  }

  lemma {:induction false} MarkFailed(env: Env, st: State, date: Date, codes: seq<Code>, k: nat, n: nat, f: Failure)
    requires k <= n <= |codes| && MarkUpTo(env, st, date, codes, k) == Err(f)
    ensures MarkUpTo(env, st, date, codes, n) == Err(f)
  {
    hide MarkStep;
    if k < n {
      MarkFailed(env, st, date, codes, k, n - 1, f);
    }
  }

  lemma NoSlips(env: Env, st: State, i: nat, codes: seq<Code>)
    requires i < |env.calendar|
    ensures SlipsUpTo(env, st, i, codes, 0) == Dict([], map[])
  {}

  lemma SlipsGrow(env: Env, st: State, slips: Dict<Code, Intent>, i: nat, codes: seq<Code>, k: nat)
    requires i < |env.calendar| && k < |codes| && slips == SlipsUpTo(env, st, i, codes, k)
    ensures SlipsUpTo(env, st, i, codes, k + 1) == slips.Put(codes[k], Slip(env, st.(slips := slips), i, codes[k], k + 1))
  {}

  /** Executable codes have a buyable price. */
  lemma {:induction false} ExecutableIsBuyable(env: Env, date: Date, codes: seq<Code>)
    ensures forall c :: c in Executable(env, date, codes) ==> Buyable(env.PriceAt(date, c))
  {
    hide Buyable;
    if codes != [] {
      ExecutableIsBuyable(env, date, codes[..|codes| - 1]);
    }
  }

  lemma PutIsKeyed(book: Book, p: PositionState)
    requires Keyed(book) && p.shares > 0.0
    ensures Keyed(book.Put(p.code, p))
  {}

  lemma EmptyIff<K, V>(m: map<K, V>)
    ensures m == map[] <==> m.Keys == {}
  {}

  lemma MarkStepIs(env: Env, st: State, date: Date, code: Code)
    requires code in st.book.at && st.book.at[code].code == code
    ensures var q := Revalued(env, st.book.at[code], env.PriceAt(date, code), date);
            MarkStep(env, st, date, code) == if q.Err? then Err(q.error) else Ok(MarkOne(st, date, code, q.value))
  {
    hide Revalued, MarkOne;
  }

  lemma {:induction false} RunFailed(env: Env, i: nat, n: nat, f: Failure)
    requires First(env) <= i <= n <= |env.calendar| && RunUpTo(env, i) == Err(f)
    ensures RunUpTo(env, n) == Err(f)
  {
    hide Session, First;
    if i < n {
      RunFailed(env, i, n - 1, f);
    }
  }

  lemma {:induction false} StoppedStays(env: Env, i: nat, n: nat)
    requires First(env) <= i <= n <= |env.calendar| && RunUpTo(env, i).Ok? && RunUpTo(env, i).value.stopped
    ensures RunUpTo(env, n) == RunUpTo(env, i)
  {
    hide Session, First;
    if i < n {
      StoppedStays(env, i, n - 1);
    }
  }

  /** A planned migration of one position object. */
  datatype Move = Move(source: Code, position: Position, chain: seq<Transition>)

  /** No plan leaves from, or arrives at, the source of a later one. */
  ghost predicate Spaced(plans: seq<Plan>) {
    && (forall i :: 0 <= i < |plans| ==> plans[i].chain != [])
    && (forall i, j :: 0 <= i < j < |plans| ==> plans[i].source != plans[j].source)
    && (forall i, j :: 0 <= i < j < |plans| ==> Target(plans[i]) != plans[j].source)
  }

  lemma Excluded(successors: set<Code>, held: set<Code>, source: Code, other: Code)
    requires successors * held <= {source} && other in held && other != source
    ensures other !in successors
  {
    assert other in successors ==> other in successors * held;
  }

  lemma PlansAreSpaced(ts: Transitions, book: Book, date: Date, plans: seq<Plan>)
    requires Keyed(book) && PlansFor(ts, book, date, |book.order|) == Ok(plans)
    ensures Spaced(plans)
  {
    hide PlansFor, PlansCover, Keyed, ChainOf, Target;
    PlansAreGood(ts, book, date, |book.order|);
    forall i, j | 0 <= i < j < |plans|
      ensures Target(plans[i]) != plans[j].source
    {
      assert IsPlanFor(ts, book, date, plans[i]) && IsPlanFor(ts, book, date, plans[j]);
      TargetIsSuccessor(plans[i]);
      Excluded(Successors(plans[i].chain), book.at.Keys, plans[i].source, plans[j].source);
    }
  }

  lemma CarryNext(book: Book, plans: seq<Plan>, k: nat, m: Migration)
    requires k < |plans| && CarryOut(book, plans, k) == Ok(m)
    ensures CarryOut(book, plans, k + 1) ==
              match ConvertAll(plans[k].position, plans[k].chain, |plans[k].chain|)
              case Err(f) => Err(f)
              case Ok(moved) => Ok(Migration(Relocate(m.book, plans[k].source, moved.position), m.rows + moved.rows))
  {
    hide ConvertAll, Relocate;
  }

  /** Every position with a due transition has a positive mark. */
  ghost predicate AllMarked(ts: Transitions, book: Book, date: Date) {
    forall c :: c in book.at && Due(ts, c, date) ==> HasPositiveMark(book.at[c])
  }

  lemma Unplanned(ts: Transitions, book: Book, date: Date, f: Fault)
    requires PlansFor(ts, book, date, |book.order|) == Err(f)
    ensures ApplyEffective(ts, book, date) == Err(f)
  {}

  lemma Applied(ts: Transitions, book: Book, date: Date, plans: seq<Plan>)
    requires PlansFor(ts, book, date, |book.order|) == Ok(plans)
    ensures ApplyEffective(ts, book, date) == CarryOut(book, plans, |plans|)
  {}

  /** Once the chains are planned, only a due position without a positive mark can fail. */
  lemma PlannedSucceedsIff(ts: Transitions, book: Book, date: Date, plans: seq<Plan>)
    requires Keyed(book) && PlansFor(ts, book, date, |book.order|) == Ok(plans)
    ensures CarryOut(book, plans, |plans|).Ok? <==> AllMarked(ts, book, date)
  {
    hide CarryOut, PlansFor, HasPositiveMark, Keyed, Due;
    MutationSucceedsIff(ts, book, date);
  }

  lemma NothingCarried(book: Book, plans: seq<Plan>)
    ensures CarryOut(book, plans, 0) == Ok(Migration(book, []))
  {}

  lemma ArrivesAtTarget(plan: Plan)
    requires ConvertAll(plan.position, plan.chain, |plan.chain|).Ok?
    ensures ConvertAll(plan.position, plan.chain, |plan.chain|).value.position.code == Target(plan)
  {
    ConvertAllIsFaithful(plan.position, plan.chain, |plan.chain|);
    assert plan.chain[..|plan.chain|] == plan.chain;
  }

  /** Planning one more position. */
  ghost function PlanStep(ts: Transitions, book: Book, date: Date, plans: seq<Plan>, source: Code): Result<seq<Plan>, Fault>
    requires source in book.at
  {
    var position := book.at[source];
    var chain := ChainOf(ts, position.code, date);
    if chain.Err? then Err(chain.error)
    else if chain.value == [] then Ok(plans)
    else if (Successors(chain.value) * book.at.Keys) - {source} != {} then Err(SuccessorAlreadyHeld)
    else if EndOf(position.code, chain.value) in Targets(plans) then
      Err(SeveralPositionsTarget(EndOf(position.code, chain.value)))
    else Ok(plans + [Plan(source, position, chain.value)])
  }

  lemma PlansForNext(ts: Transitions, book: Book, date: Date, k: nat, plans: seq<Plan>)
    requires k < |book.order| && book.order[k] in book.at && PlansFor(ts, book, date, k) == Ok(plans)
    ensures PlansFor(ts, book, date, k + 1) == PlanStep(ts, book, date, plans, book.order[k])
  {
    hide ChainOf, Successors, Targets;
  }

  lemma NoTargets()
    ensures Targets([]) == {}
  {}

  lemma TargetsGrow(plans: seq<Plan>, plan: Plan)
    ensures Targets(plans + [plan]) == Targets(plans) + {EndOf(plan.position.code, plan.chain)}
  {
    assert Targets(plans + [plan]) == Targets(plans) + {Target(plan)};
  }

  lemma {:induction false} PlanFailed(ts: Transitions, book: Book, date: Date, k: nat, n: nat, f: Fault)
    requires Keyed(book) && k <= n <= |book.order| && PlansFor(ts, book, date, k) == Err(f)
    ensures PlansFor(ts, book, date, n) == Err(f)
  {
    hide ChainOf;
    if k < n {
      PlanFailed(ts, book, date, k, n - 1, f);
      assert book.order[n - 1] in book.order;
    }
  }

  lemma {:induction false} CarryFailed(book: Book, plans: seq<Plan>, k: nat, n: nat, f: Fault)
    requires k <= n <= |plans| && CarryOut(book, plans, k) == Err(f)
    ensures CarryOut(book, plans, n) == Err(f)
  {
    hide ConvertAll, Relocate;
    if k < n {
      CarryFailed(book, plans, k, n - 1, f);
    }
  }

  lemma {:induction false} ConvertFailed(p: PositionState, chain: seq<Transition>, k: nat, n: nat, f: Fault)
    requires k <= n <= |chain| && ConvertAll(p, chain, k) == Err(f)
    ensures ConvertAll(p, chain, n) == Err(f)
  {
    hide Convert;
    if k < n {
      ConvertFailed(p, chain, k, n - 1, f);
    }
  }

  class Simulator {
    const env: Env
    var cash: real
    var previousEquity: real
    var dayCost: real
    var dayValue: Option<real>
    var order: seq<Code>
    var positions: map<Code, Position>
    var slips: Dict<Code, Intent>
    var trades: seq<Trade>
    var holdings: seq<Holding>
    var actions: seq<Action>
    var intents: seq<Intent>
    var terminals: seq<Terminal>
    var daily: seq<Daily>
    var counters: Counters
    var stopped: bool

    /** The open positions as values. */
    function Book(): Book
      reads this`order, this`positions, positions.Values
    {
      Dict(order, map c | c in positions :: positions[c].Value())
    }

    function View(): State
      reads this, positions.Values
    {
      State(cash, previousEquity, dayCost, dayValue, Book(), slips, trades, holdings, actions, intents, terminals,
            daily, counters, stopped)
    }

    /** No two codes share a position object. */
    ghost predicate Separate()
      reads this`positions
    {
      forall c, d :: c in positions && d in positions && c != d ==> positions[c] != positions[d]
    }

    /** Positions are filed under their own codes, once each, and have shares. */
    ghost predicate Valid()
      reads this`order, this`positions, positions.Values
    {
      Separate() && Keyed(Book())
    }

    /** If one position object changed in place, the state changed at its code only. */
    twostate lemma OneChanged(code: Code)
      requires old(Valid()) && code in positions && unchanged(this)
      requires forall c :: c in positions && c != code ==> positions[c].Value() == old(positions[c].Value())
      ensures View() == old(View()).(book := old(Book()).Put(code, positions[code].Value()))
      ensures positions[code].code == code && positions[code].shares > 0.0 ==> Valid()
    {
      assert Book().at == old(Book()).at[code := positions[code].Value()];
    }

    // ----- bookkeeping -----

    method Record(trade: Trade, after: Counters)
      modifies this`trades, this`counters
      ensures View() == old(View()).(trades := old(trades) + [trade], counters := after)
    {
      trades := trades + [trade];
      counters := after;
    }

    method Pay(amount: real, cost: real)
      modifies this`cash, this`dayCost
      ensures View() == old(View()).(cash := old(cash) + amount, dayCost := old(dayCost) + cost)
    {
      cash := cash + amount;
      dayCost := dayCost + cost;
    }

    method Publish(row: Holding, mark: Option<real>, after: Counters)
      modifies this`dayValue, this`holdings, this`counters
      ensures View() == old(View()).(dayValue := Plus(old(dayValue), mark), holdings := old(holdings) + [row], counters := after)
    {
      dayValue := Plus(dayValue, mark);
      holdings := holdings + [row];
      counters := after;
    }

    method AppendDay(row: Daily, stop: bool)
      modifies this`daily, this`previousEquity, this`stopped
      ensures View() == old(View()).(daily := old(daily) + [row], previousEquity := row.equity, stopped := stop)
    {
      daily := daily + [row];
      previousEquity := row.equity;
      stopped := stop;
    }

    // ----- scheduled exits -----

    /** del positions[code] */
    method Drop(code: Code)
      requires Valid() && code in positions
      modifies this`order, this`positions
      ensures Valid() && positions == old(positions) - {code}
      ensures View() == old(View()).(book := old(Book()).Delete(code))
    {
      hide Keyed, Without;
      ghost var before := Book();
      DeletedIsKeyed(before, code);
      order := Without(order, code);
      positions := positions - {code};
      assert Book().at == before.at - {code};
    }

    method Bury(row: Terminal)
      modifies this`terminals
      ensures View() == old(View()).(terminals := old(terminals) + [row])
    {
      terminals := terminals + [row];
    }

    /** A verified terminal event writes the position off without any proceeds. */
    method Terminate(i: nat, code: Code)
      requires i < |env.calendar| && Valid() && code in positions
      modifies this
      ensures View() == WriteOff(env, old(View()), i, code)
      ensures Valid() && positions == old(positions) - {code}
    {
      hide Keyed, Without, Dict.Delete, Separate, Dict.Valid, Resolved, TerminalTrade, Mark;
      var date, position := env.calendar[i], positions[code].Value();
      assert position == Book().at[code];
      hide Position.Value, Book;
      var sessions := i - position.entryIndex;
      Bury(Terminal(date, position.id, code, position.entryDate, position.target, sessions,
                    position.lastClose, position.lastPriceDate, Mark(position), 0.0));
      Record(TerminalTrade(date, position, sessions),
             Resolved(counters.(writeoffs := counters.writeoffs + 1), position));
      Drop(code);
    }

    /** One more missed exit of one position. */
    method MissExit(code: Code) returns (missed: PositionState, late: bool)
      requires Valid() && code in positions
      modifies positions[code]
      ensures View() == old(View()).(book := old(Book()).Put(code, missed)) && Valid()
      ensures missed == DelayedOnce(env, old(Book()).at[code]) == Book().at[code]
      ensures late == (missed.breached && !old(Book()).at[code].breached)
    {
      hide Keyed, Without, Dict.Valid, Dict.Put;
      FiledUnderOwnCode(Book(), code);
      late := positions[code].Miss(env);
      OneChanged(code);
      missed := positions[code].Value();
    }

    /** An exit that cannot be executed is counted, and flagged once it is late for too long. */
    method Postpone(i: nat, code: Code) returns (missed: PositionState)
      requires i < |env.calendar| && Valid() && code in positions
      modifies this`counters, this`trades, positions[code]
      ensures View() == Delay(env, old(View()), i, code)
      ensures Valid() && missed == DelayedOnce(env, old(Book()).at[code])
    {
      hide Keyed, Without, Dict.Valid, Dict.Put, Position.Value, Separate, Book;
      var late;
      missed, late := MissExit(code);
      Record(RejectedTrade(env.calendar[i], code, Sell, NotSellable, Some(missed.id), missed.delayed, missed.breached),
             counters.(delayedSells := counters.delayedSells + 1,
                       maxDelay := Max(counters.maxDelay, missed.delayed),
                       breaches := counters.breaches + if late then 1 else 0));
    }

    /** A filled exit. */
    method Fill(i: nat, code: Code, open: real, costs: TradeCosts)
      requires i < |env.calendar| && Valid() && code in positions
      modifies this
      ensures View() == SellAt(env, old(View()), i, code, open, costs)
      ensures Valid() && positions == old(positions) - {code}
    {
      hide Keyed, Without, Dict.Delete, Separate, Dict.Valid, Times, Resolved, FilledTrade, TradeCosts.Total;
      var position := positions[code].Value();
      assert position == Book().at[code];
      hide Position.Value, Book;
      var gross := Times(position.shares, open);
      Pay(gross - costs.Total(), costs.Total());
      Record(FilledTrade(env.calendar[i], position, Sell, open, gross, costs, Some(i - position.entryIndex)),
             Resolved(counters, position));
      Drop(code);
    }

    /** One open position at one session: wait, write off, delay or sell. */
    method SellOne(i: nat, code: Code) returns (failure: Option<Failure>)
      requires i < |env.calendar| && Valid() && code in positions
      modifies this, positions.Values
      ensures SellStep(env, old(View()), i, code) == if failure.Some? then Err(failure.value) else Ok(View())
      ensures failure.None? ==> Valid() && positions.Values <= old(positions.Values)
      ensures failure.None? ==> positions.Keys + {code} == old(positions.Keys)
    {
      hide Calculate, Keyed, Separate, WriteOff, Delay, SellAt;
      var date, position := env.calendar[i], positions[code];
      if date < position.target {
        return None;
      }
      var price := env.PriceAt(date, code);
      if IsTerminal(price, date) {
        Terminate(i, code);
        return None;
      }
      if !Sellable(price) {
        var missed := Postpone(i, code);
        if missed.breached && env.strict && !env.carryToCalendarEnd {
          return Some(SellDelayExceeded(missed.id));
        }
        return None;
      }
      var costs := Calculate(env.costs, date, Sell, Times(position.shares, price.value.open.value));
      if costs.Err? {
        return Some(CostFault(costs.error));
      }
      Fill(i, code, price.value.open.value, costs.value);
      return None;
    }

    /** The exits of one session, over a snapshot of the held codes. */
    method SellDue(i: nat) returns (failure: Option<Failure>)
      requires i < |env.calendar| && Valid()
      modifies this, positions.Values
      ensures SellUpTo(env, old(View()), i, old(order), |old(order)|) ==
                if failure.Some? then Err(failure.value) else Ok(View())
      ensures failure.None? ==> Valid() && positions.Values <= old(positions.Values)
    {
      hide SellStep, Keyed, View, Separate, Dict.Valid;
      var codes := order;
      assert NoDuplicates(codes) && forall c :: c in codes ==> c in positions by { KeyedOrder(Book()); }
      for k := 0 to |codes|
        invariant Valid() && positions.Values <= old(positions.Values)
        invariant SellUpTo(env, old(View()), i, codes, k) == Ok(View())
        invariant forall j :: k <= j < |codes| ==> codes[j] in positions.Keys
      {
        failure := SellOne(i, codes[k]);
        if failure.Some? {
          SellFailed(env, old(View()), i, codes, k + 1, |codes|, failure.value);
          return;
        }
      }
      return None;
    }

    // ----- new entries -----

    /** What became of one selected code before any entry is made. */
    method NoteIntent(i: nat, code: Code, rank: nat) returns (slip: Intent)
      requires i < |env.calendar|
      ensures slip == Slip(env, View(), i, code, rank)
    {
      hide IsTerminal, Buyable;
      var date := env.calendar[i];
      var price := env.PriceAt(date, code);
      var outcome := OutcomeNoAvailableCash;
      if code in positions {
        outcome := OutcomeAlreadyHeld;
      } else if IsTerminal(price, date) {
        outcome := OutcomeTerminal;
      } else if !Buyable(price) {
        outcome := OutcomeNotBuyable;
      }
      return Intent(SignalDate(env, i), date, code, rank, outcome, cash,
                    if code in positions then Some(positions[code].id) else None);
    }

    /** The intents of a session, one for each selected code. */
    method NoteIntents(i: nat)
      requires i < |env.calendar|
      modifies this`slips
      ensures View() == Noted(env, old(View()), i)
    {
      hide SlipsUpTo, Slip;
      var selected := env.Selected(env.calendar[i]);
      slips := Dict([], map[]);
      NoSlips(env, old(View()), i, selected);
      for k := 0 to |selected|
        invariant slips == SlipsUpTo(env, old(View()), i, selected, k)
        invariant View() == old(View()).(slips := slips)
      {
        var slip := NoteIntent(i, selected[k], k + 1);
        SlipsGrow(env, old(View()), slips, i, selected, k);
        slips := slips.Put(selected[k], slip);
      }
    }

    method RejectUnbuyable(date: Date, codes: seq<Code>)
      modifies this`trades
      ensures View() == RejectUpTo(env, old(View()), date, codes, |codes|)
    {
      for k := 0 to |codes|
        invariant View() == RejectUpTo(env, old(View()), date, codes, k)
      {
        if !Buyable(env.PriceAt(date, codes[k])) {
          trades := trades + [RejectedTrade(date, codes[k], Buy, NotBuyable, None, 0, false)];
        }
      }
    }

    method Settle(code: Code, outcome: Outcome, id: Option<PositionId>)
      modifies this`slips
      ensures View() == old(View()).(slips := Settled(old(slips), code, outcome, id))
    {
      if code in slips.at {
        slips := slips.Put(code, slips.at[code].(outcome := outcome, id := id));
      }
    }

    method Enroll(position: Position)
      modifies this`order, this`positions
      ensures View() == old(View()).(book := old(Book()).Put(position.code, position.Value()))
      ensures positions == old(positions)[position.code := position]
    {
      ghost var before, value := Book(), position.Value();
      order := if position.code in positions then order else order + [position.code];
      positions := positions[position.code := position];
      assert Book().at == before.at[value.code := value];
    }

    /** positions[position.ts_code] = position */
    method File(position: Position)
      requires Valid() && position !in positions.Values && position.shares > 0.0
      modifies this`order, this`positions
      ensures View() == old(View()).(book := old(Book()).Put(position.code, position.Value())) && Valid()
      ensures positions == old(positions)[position.code := position]
    {
      hide Keyed, Dict.Valid, Dict.Put, Book;
      PutIsKeyed(Book(), position.Value());
      Enroll(position);
    }

    /** A new position, entered at one session and due a fixed number of sessions later. */
    method Open(i: nat, code: Code, price: Price, shares: real) returns (entered: PositionState)
      requires i + env.holdingPeriod < |env.calendar| && Valid() && shares > 0.0
      modifies this`order, this`positions
      ensures entered == NewPosition(env, i, code, price, shares)
      ensures View() == old(View()).(book := old(Book()).Put(code, entered)) && Valid()
      ensures fresh(positions.Values - old(positions.Values))
    {
      hide Keyed, Dict.Valid, Dict.Put, Separate;
      var date := env.calendar[i];
      var position := new Position(PositionId(date, code), code, shares, date, i, env.calendar[i + env.holdingPeriod], price.close);
      entered := position.Value();
      File(position);
    }

    /** A filled entry. */
    method Purchase(i: nat, code: Code, price: Price, gross: real, costs: TradeCosts)
      requires i + env.holdingPeriod < |env.calendar| && Valid()
      requires price.open.Some? && price.open.value > 0.0 && gross / price.open.value > 0.0
      modifies this
      ensures View() == BuyAt(env, old(View()), i, code, price, gross, costs) && Valid()
      ensures fresh(positions.Values - old(positions.Values))
    {
      hide Keyed, Dict.Valid, Dict.Put, Separate, Book, NewPosition, FilledTrade, Settled, TradeCosts.Total;
      var total := gross + costs.Total();
      var entered := Open(i, code, price, gross / price.open.value);
      Settle(code, OutcomeFilled, Some(entered.id));
      Pay(-total, costs.Total());
      Record(FilledTrade(env.calendar[i], entered, Buy, price.open.value, gross, costs, None), counters);
    }

    /** One executable code: buy the largest affordable notional of its allocation. */
    method BuyOne(i: nat, allocation: real, code: Code) returns (failure: Option<Failure>)
      requires i < |env.calendar| && Valid() && allocation > 0.0
      requires Buyable(env.PriceAt(env.calendar[i], code))
      modifies this
      ensures match Resolve(env.costs, env.calendar[i], Buy)
              case Err(e) => failure == Some(CostFault(e))
              case Ok(rates) =>
                BuyStep(env, old(View()), i, rates, allocation, code) == if failure.Some? then Err(failure.value) else Ok(View())
      ensures failure.None? ==> Valid() && fresh(positions.Values - old(positions.Values))
    {
      hide Keyed, Dict.Valid, Dict.Put, Separate, Book, MaximumAffordable, Charge, BuyAt, Settled, Resolve,
           TradeCosts.Total, LastApplicable;
      var date := env.calendar[i];
      var price := env.PriceAt(date, code).value;
      var affordable := MaximumAffordableGross(env.costs, date, Buy, allocation);
      if affordable.Err? {
        return Some(CostFault(affordable.error));
      }
      var gross := affordable.value;
      var shares := gross / price.open.value;
      var costs := Calculate(env.costs, date, Buy, gross).value;
      var total := gross + costs.Total();
      if shares <= 0.0 || total > cash * OVERSPEND_GUARD {
        Settle(code, OutcomeInsufficientGross, if code in slips.at then slips.at[code].id else None);
        return None;
      }
      if i + env.holdingPeriod >= |env.calendar| {
        return Some(CalendarInsufficient);
      }
      Purchase(i, code, price, gross, costs);
      return None;
    }

    /** Dividing all cash equally over the executable codes. */
    method BuyEqually(i: nat, codes: seq<Code>) returns (failure: Option<Failure>)
      requires i < |env.calendar| && Valid()
      requires forall c :: c in codes ==> Buyable(env.PriceAt(env.calendar[i], c))
      modifies this
      ensures BuyAll(env, old(View()), i, codes) == if failure.Some? then Err(failure.value) else Ok(View())
      ensures failure.None? ==> Valid() && fresh(positions.Values - old(positions.Values))
    {
      hide Keyed, Separate, Book, BuyStep, Resolve, Buyable, Dict.Valid;
      if codes == [] || cash <= 0.0 {
        return None;
      }
      var allocation := cash / (|codes| as real);
      ghost var rates := Resolve(env.costs, env.calendar[i], Buy);
      for k := 0 to |codes|
        invariant Valid() && fresh(positions.Values - old(positions.Values))
        invariant k > 0 ==> rates.Ok?
        invariant rates.Ok? ==> BuyUpTo(env, old(View()), i, rates.value, allocation, codes, k) == Ok(View())
      {
        assert codes[k] in codes;
        failure := BuyOne(i, allocation, codes[k]);
        if failure.Some? {
          if rates.Ok? {
            BuyFailed(env, old(View()), i, rates.value, allocation, codes, k + 1, |codes|, failure.value);
          }
          return;
        }
      }
      return None;
    }

    /** The entries of one session. */
    method EnterSelected(i: nat) returns (failure: Option<Failure>)
      requires i < |env.calendar| && Valid()
      modifies this
      ensures Enter(env, old(View()), i) == if failure.Some? then Err(failure.value) else Ok(View())
      ensures failure.None? ==> Valid() && fresh(positions.Values - old(positions.Values))
    {
      hide Keyed, Separate, RejectUpTo, BuyAll, Noted, Dict.Valid, Buyable, Executable;
      var date := env.calendar[i];
      var candidates := Candidates(env.Selected(date), Book().at);
      var executable := Executable(env, date, candidates);
      ExecutableIsBuyable(env, date, candidates);
      NoteIntents(i);
      RejectUnbuyable(date, candidates);
      failure := BuyEqually(i, executable);
    }

    // ----- valuation and end of day -----

    /** Revalue one position in place. */
    method Reassess(date: Date, code: Code) returns (r: Result<PositionState, Failure>)
      requires Valid() && code in positions
      modifies positions[code]
      ensures r == Revalued(env, old(Book()).at[code], env.PriceAt(date, code), date)
      ensures r.Ok? ==> View() == old(View()).(book := old(Book()).Put(code, r.value)) && Valid()
    {
      hide Keyed, Dict.Valid, Dict.Put;
      var position := positions[code];
      FiledUnderOwnCode(Book(), code);
      var failure := position.Revalue(env, env.PriceAt(date, position.code), date);
      if failure.Some? {
        return Err(failure.value);
      }
      OneChanged(code);
      return Ok(position.Value());
    }

    /** Revalue one position and publish its holding row. */
    method MarkPosition(date: Date, code: Code) returns (failure: Option<Failure>)
      requires Valid() && code in positions
      modifies this`dayValue, this`holdings, this`counters, positions[code]
      ensures MarkStep(env, old(View()), date, code) == if failure.Some? then Err(failure.value) else Ok(View())
      ensures failure.None? ==> Valid()
    {
      assert Book().at[code].code == code by { FiledUnderOwnCode(Book(), code); }
      hide Keyed, Dict.Valid, Dict.Put, Revalued, HoldingRow, Separate, Book, Position.Value, Mark, Plus, Aged, MarkStep;
      ghost var before := View();
      assert before.book == Book();
      MarkStepIs(env, before, date, code);
      var value := Reassess(date, code);
      if value.Err? {
        return Some(value.error);
      }
      var q := value.value;
      hide View;
      Publish(HoldingRow(date, q), Mark(q), Aged(counters, q));
      return None;
    }

    lemma OrderIsHeld()
      requires Valid()
      ensures forall c :: c in order ==> c in positions.Keys
    {
      KeyedOrder(Book());
    }

    /** Mark every open position to market. */
    method MarkToMarket(date: Date) returns (failure: Option<Failure>)
      requires Valid()
      modifies this`dayValue, this`holdings, this`counters, positions.Values
      ensures MarkUpTo(env, old(View()), date, order, |order|) == if failure.Some? then Err(failure.value) else Ok(View())
      ensures failure.None? ==> Valid()
    {
      hide MarkStep, Keyed, View, Book, Separate, Dict.Valid, Position.Value;
      assert forall c :: c in order ==> c in positions.Keys by { OrderIsHeld(); }
      for k := 0 to |order|
        invariant Valid() && forall c :: c in order ==> c in positions.Keys
        invariant MarkUpTo(env, old(View()), date, order, k) == Ok(View())
      {
        failure := MarkPosition(date, order[k]);
        if failure.Some? {
          MarkFailed(env, old(View()), date, order, k + 1, |order|, failure.value);
          return;
        }
      }
      return None;
    }

    /** The accounting check, the daily row and the early stop. */
    method Close(date: Date) returns (failure: Option<Failure>)
      modifies this`daily, this`previousEquity, this`stopped
      ensures CloseDay(env, old(View()), date) == if failure.Some? then Err(failure.value) else Ok(View())
      ensures Book() == old(Book())
    {
      hide DailyRow, AccountingHolds;
      if !AccountingHolds(View()) {
        return Some(AccountingInvariant);
      }
      EmptyIff(positions);
      EmptyIff(Book().at);
      assert positions.Keys == Book().at.Keys;
      AppendDay(DailyRow(env, View(), date),
                env.carryToCalendarEnd && positions == map[] && forall d | d in env.entries :: d <= date);
      return None;
    }

    // ----- corporate actions -----

    /** The chain of due transitions from a code. */
    method PlanChain(code: Code, date: Date) returns (r: Result<seq<Transition>, Fault>)
      ensures r == ChainOf(env.Transitions(), code, date)
    {
      var ts := env.Transitions();
      var chain, current, seen, previous := [], code, {}, None;
      assert ChainOf(ts, code, date).Ok? ==> [] + ChainOf(ts, code, date).value == ChainOf(ts, code, date).value;
      while current in ts && ts[current].effective <= date
        invariant match Walk(ts, current, date, seen, previous)
                  case Ok(rest) => ChainOf(ts, code, date) == Ok(chain + rest)
                  case Err(f) => ChainOf(ts, code, date) == Err(f)
        decreases ts.Keys - seen
      {
        var t := ts[current];
        if current in seen || t.successor in seen {
          return Err(ChainCycle);
        }
        if previous.Some? && t.effective <= previous.value {
          return Err(ChainDatesNotIncreasing);
        }
        if Classify(t) != Supported {
          return Err(UnsupportedAction(Classify(t)));
        }
        ghost var rest := Walk(ts, t.successor, date, seen + {current}, Some(t.effective));
        assert rest.Ok? ==> chain + ([t] + rest.value) == (chain + [t]) + rest.value;
        seen := seen + {current};
        chain := chain + [t];
        previous, current := Some(t.effective), t.successor;
      }
      assert chain + [] == chain;
      return Ok(chain);
    }

    /** A move stands for a plan as long as its position object is untouched. */
    ghost predicate StandsFor(m: Move, plan: Plan)
      reads this`positions, m.position
    {
      && m.source == plan.source && m.chain == plan.chain && m.position.Value() == plan.position
      && m.source in positions && positions[m.source] == m.position
    }

    ghost predicate AllStand(moves: seq<Move>, plans: seq<Plan>, k: nat)
      reads this`positions, set m | m in moves :: m.position
    {
      |moves| == |plans| && forall j :: k <= j < |plans| ==> StandsFor(moves[j], plans[j])
    }

    lemma OneMoreStands(moves: seq<Move>, plans: seq<Plan>, m: Move, plan: Plan)
      requires AllStand(moves, plans, 0) && StandsFor(m, plan)
      ensures AllStand(moves + [m], plans + [plan], 0)
    {}

    /** Plan one position: nothing if no transition is due, or a move checked for collisions. */
    method PlanMove(source: Code, date: Date, targets: set<Code>, ghost plans: seq<Plan>, ghost book: Book) returns (r: Result<Option<Move>, Fault>)
      requires Valid() && book == Book() && source in positions && targets == Targets(plans)
      ensures var planned := PlanStep(env.Transitions(), book, date, plans, source);
              match r
              case Err(f) => planned == Err(f)
              case Ok(None) => planned == Ok(plans)
              case Ok(Some(m)) =>
                var plan := Plan(source, book.at[source], m.chain);
                planned == Ok(plans + [plan]) && StandsFor(m, plan) && plan.position.code == m.position.code
    {
      hide ChainOf, Keyed, Dict.Valid, Successors, Targets;
      var position := positions[source];
      var chain := PlanChain(position.code, date);
      if chain.Err? {
        return Err(chain.error);
      }
      if chain.value == [] {
        return Ok(None);
      }
      assert positions.Keys == Book().at.Keys;
      if (Successors(chain.value) * positions.Keys) - {source} != {} {
        return Err(SuccessorAlreadyHeld);
      }
      if EndOf(position.code, chain.value) in targets {
        return Err(SeveralPositionsTarget(EndOf(position.code, chain.value)));
      }
      return Ok(Some(Move(source, position, chain.value)));
    }

    /** The moves so far and the codes they end at describe the plans so far. */
    ghost predicate Describes(moves: seq<Move>, targets: set<Code>, plans: seq<Plan>)
      reads this`positions, set m | m in moves :: m.position
    {
      targets == Targets(plans) && AllStand(moves, plans, 0)
    }

    /** Plan the next position of the book. */
    method PlanNext(date: Date, k: nat, moves: seq<Move>, targets: set<Code>, ghost plans: seq<Plan>, ghost book: Book)
      returns (failure: Option<Fault>, moves': seq<Move>, targets': set<Code>, ghost plans': seq<Plan>)
      requires Valid() && book == Book() && k < |order| && Describes(moves, targets, plans)
      requires PlansFor(env.Transitions(), book, date, k) == Ok(plans)
      ensures PlansFor(env.Transitions(), book, date, k + 1) == if failure.None? then Ok(plans') else Err(failure.value)
      ensures failure.None? ==> Describes(moves', targets', plans')
    {
      hide ChainOf, Keyed, Targets, Target, EndOf, PlanStep, PlansFor, Separate;
      assert order[k] in book.at by { KeyedOrder(book); assert order[k] in book.order; }
      PlansForNext(env.Transitions(), book, date, k, plans);
      moves', targets', plans' := moves, targets, plans;
      var planned := PlanMove(order[k], date, targets, plans, book);
      if planned.Err? {
        failure := Some(planned.error);
        return;
      }
      failure := None;
      if planned.value.Some? {
        var move := planned.value.value;
        ghost var plan := Plan(order[k], book.at[order[k]], move.chain);
        TargetsGrow(plans, plan);
        OneMoreStands(moves, plans, move, plan);
        targets' := targets + {EndOf(move.position.code, move.chain)};
        moves', plans' := moves + [move], plans + [plan];
      }
    }

    /** First phase: every due chain is planned and checked for collisions; nothing is changed. */
    method PlanMoves(date: Date) returns (failure: Option<Fault>, moves: seq<Move>, ghost plans: seq<Plan>)
      requires Valid()
      ensures PlansFor(env.Transitions(), Book(), date, |order|) == if failure.None? then Ok(plans) else Err(failure.value)
      ensures failure.None? ==> AllStand(moves, plans, 0)
    {
      hide Keyed, Targets, Env.Transitions, StandsFor;
      ghost var ts, book := env.Transitions(), Book();
      var targets: set<Code> := {};
      moves, plans := [], [];
      NoTargets();
      assert PlansFor(ts, book, date, 0) == Ok(plans);
      hide PlansFor;
      for k := 0 to |order|
        invariant PlansFor(ts, book, date, k) == Ok(plans)
        invariant Describes(moves, targets, plans)
      {
        failure, moves, targets, plans := PlanNext(date, k, moves, targets, plans, book);
        if failure.Some? {
          PlanFailed(ts, book, date, k + 1, |order|, failure.value);
          return;
        }
      }
      failure := None;
    }

    method Note(row: Action)
      modifies this`actions
      ensures View() == old(View()).(actions := old(actions) + [row])
    {
      actions := actions + [row];
    }

    /** One conversion of a position that has left its key, and its ledger row. */
    method TransformOne(position: Position, t: Transition) returns (failure: Option<Fault>)
      requires position !in positions.Values
      modifies this`actions, position
      ensures match Convert(old(position.Value()), t)
              case Err(f) => failure == Some(f)
              case Ok(c) =>
                failure.None? && position.Value() == c.position && View() == old(View()).(actions := old(actions) + [c.row])
    {
      hide Convert;
      var row := position.Transform(t);
      if row.Err? {
        return Some(row.error);
      }
      assert View() == old(View());
      Note(row.value);
      return None;
    }

    /** The conversions of one chain, in place, with their ledger rows. */
    method TransformAll(position: Position, chain: seq<Transition>) returns (failure: Option<Fault>)
      requires position !in positions.Values && chain != []
      modifies this`actions, position
      ensures match ConvertAll(old(position.Value()), chain, |chain|)
              case Err(f) => failure == Some(f)
              case Ok(moved) =>
                && failure.None? && position.Value() == moved.position && position.shares > 0.0
                && View() == old(View()).(actions := old(actions) + moved.rows)
    {
      hide Convert;
      ghost var p := position.Value();
      failure := None;
      for k := 0 to |chain|
        invariant failure.None? && ConvertAll(p, chain, k).Ok?
        invariant position.Value() == ConvertAll(p, chain, k).value.position
        invariant k > 0 ==> position.shares > 0.0
        invariant View() == old(View()).(actions := old(actions) + ConvertAll(p, chain, k).value.rows)
      {
        ghost var q := position.Value();
        failure := TransformOne(position, chain[k]);
        if failure.Some? {
          ConvertFailed(p, chain, k + 1, |chain|, failure.value);
          return;
        }
        ConvertKeepsMark(q, chain[k]);
      }
    }

    /** Second phase, one move: the position leaves its key, is converted in place along its
        chain, and is filed under its final code. */
    method Migrate(move: Move) returns (failure: Option<Fault>)
      requires Valid() && move.source in positions && positions[move.source] == move.position && move.chain != []
      modifies this`order, this`positions, this`actions, move.position
      ensures match ConvertAll(old(move.position.Value()), move.chain, |move.chain|)
              case Err(f) => failure == Some(f)
              case Ok(moved) =>
                && failure.None? && Valid()
                && View() == old(View()).(book := Relocate(old(Book()), move.source, moved.position), actions := old(actions) + moved.rows)
                && positions == (old(positions) - {move.source})[moved.position.code := move.position]
      ensures failure.Some? ==> move.source !in positions
    {
      hide Keyed, ConvertAll, Dict.Put, Dict.Delete, Dict.Valid, Book;
      Drop(move.source);
      assert move.position !in positions.Values;
      failure := TransformAll(move.position, move.chain);
      if failure.None? {
        File(move.position);
      }
    }

    /** One move of the second phase; the later ones still stand afterwards. */
    method MigrateNext(moves: seq<Move>, ghost plans: seq<Plan>, k: nat) returns (failure: Option<Fault>)
      requires Valid() && Spaced(plans) && k < |plans| && AllStand(moves, plans, k)
      modifies this`order, this`positions, this`actions, moves[k].position
      ensures match ConvertAll(plans[k].position, plans[k].chain, |plans[k].chain|)
              case Err(f) => failure == Some(f)
              case Ok(moved) =>
                && failure.None? && Valid() && positions.Values <= old(positions.Values)
                && View() == old(View()).(book := Relocate(old(Book()), plans[k].source, moved.position), actions := old(actions) + moved.rows)
      ensures failure.None? ==> AllStand(moves, plans, k + 1)
      ensures failure.Some? ==> plans[k].source !in positions
    {
      hide ConvertAll, Relocate, Keyed, Target, Dict.Valid;
      failure := Migrate(moves[k]);
      if failure.None? {
        ArrivesAtTarget(plans[k]);
        forall j | k < j < |plans|
          ensures StandsFor(moves[j], plans[j])
        {
          assert old(StandsFor(moves[k], plans[k]) && StandsFor(moves[j], plans[j]));
        }
      }
    }

    /** Second phase: the planned moves, one after the other. */
    method CarryMoves(moves: seq<Move>, ghost plans: seq<Plan>) returns (failure: Option<Fault>)
      requires Valid() && Spaced(plans) && AllStand(moves, plans, 0)
      modifies this`order, this`positions, this`actions, positions.Values
      ensures match CarryOut(old(Book()), plans, |plans|)
              case Err(f) => failure == Some(f)
              case Ok(m) =>
                && failure.None? && Valid() && positions.Values <= old(positions.Values)
                && View() == old(View()).(book := m.book, actions := old(actions) + m.rows)
      ensures failure.Some? ==> positions.Keys != old(positions).Keys
    {
      hide ConvertAll, CarryOut, Relocate, Keyed, Dict.Valid, Spaced;
      ghost var book := Book();
      NothingCarried(book, plans);
      ghost var m := Migration(book, []);
      assert old(actions) + [] == old(actions);
      for k := 0 to |moves|
        invariant Valid() && positions.Values <= old(positions.Values)
        invariant CarryOut(book, plans, k) == Ok(m)
        invariant View() == old(View()).(book := m.book, actions := old(actions) + m.rows)
        invariant AllStand(moves, plans, k)
      {
        CarryNext(book, plans, k, m);
        failure := MigrateNext(moves, plans, k);
        if failure.Some? {
          CarryFailed(book, plans, k + 1, |plans|, failure.value);
          assert plans[k].source in old(positions) by { assert old(StandsFor(moves[k], plans[k])); }
          return;
        }
        m := CarryOut(book, plans, k + 1).value;
      }
      return None;
    }

    /** Both phases. Whatever is wrong with a chain is found before anything is changed, so a failed
        plan leaves the positions and the ledger untouched. Once everything is planned, only a
        due position without a positive mark can fail, and then it is too late: the state has
        changed. */
    method ApplyActions(date: Date) returns (failure: Option<Failure>)
      requires Valid()
      modifies this`order, this`positions, this`actions, positions.Values
      ensures ActOn(env, old(View()), date) == if failure.Some? then Err(failure.value) else Ok(View())
      ensures failure.None? ==> Valid() && positions.Values <= old(positions.Values)
      ensures failure.Some? ==>
                (View() == old(View()) <==> PlansFor(env.Transitions(), old(Book()), date, |old(order)|).Err?)
      ensures PlansFor(env.Transitions(), old(Book()), date, |old(order)|).Ok? ==>
                (failure.None? <==> AllMarked(env.Transitions(), old(Book()), date))
    {
      hide CarryOut, Keyed, PlansFor, Dict.Valid, ApplyEffective, AllMarked, Spaced, Separate;
      ghost var ts, book := env.Transitions(), Book();
      var fault, moves, plans := PlanMoves(date);
      if fault.Some? {
        Unplanned(ts, book, date, fault.value);
        return Some(ActionFault(fault.value));
      }
      Applied(ts, book, date, plans);
      PlansAreSpaced(ts, book, date, plans);
      PlannedSucceedsIff(ts, book, date, plans);
      fault := CarryMoves(moves, plans);
      if fault.Some? {
        assert View().book.at.Keys == positions.Keys && book.at.Keys == old(positions).Keys;
        return Some(ActionFault(fault.value));
      }
      return None;
    }

    // ----- sessions and the run -----

    /** The locals that every session starts afresh. */
    method BeginDay()
      modifies this`dayCost, this`dayValue, this`slips
      ensures View() == Opened(old(View()))
    {
      ghost var before := View();
      dayCost, dayValue, slips := 0.0, Some(0.0), Dict([], map[]);
      hide Book;
      assert View() == before.(dayCost := 0.0, dayValue := Some(0.0), slips := Dict([], map[]));
    }

    method RecordIntents()
      modifies this`intents
      ensures View() == Recorded(old(View()))
    {
      intents := intents + Slips(slips, |slips.order|);
    }

    /** The morning of a session: corporate actions, then exits. */
    method ActAndSell(i: nat) returns (failure: Option<Failure>)
      requires i < |env.calendar| && Valid()
      modifies this, positions.Values
      ensures match ActOn(env, Opened(old(View())), env.calendar[i])
              case Err(f) => failure == Some(f)
              case Ok(acted) =>
                SellUpTo(env, acted, i, acted.book.order, |acted.book.order|) == if failure.Some? then Err(failure.value) else Ok(View())
      ensures failure.None? ==> Valid() && positions.Values <= old(positions.Values)
    {
      hide Keyed, Separate, Dict.Valid, ActOn, SellUpTo, Opened, Position.Value, PlansFor, AllMarked;
      BeginDay();
      failure := ApplyActions(env.calendar[i]);
      if failure.Some? {
        return;
      }
      failure := SellDue(i);
    }

    /** Its end: the intents are recorded, then marks and accounts. */
    method MarkAndClose(date: Date) returns (failure: Option<Failure>)
      requires Valid()
      modifies this`intents, this`dayValue, this`holdings, this`counters, this`daily, this`previousEquity, this`stopped, positions.Values
      ensures var recorded := Recorded(old(View()));
              match MarkUpTo(env, recorded, date, recorded.book.order, |recorded.book.order|)
              case Err(f) => failure == Some(f)
              case Ok(marked) => CloseDay(env, marked, date) == if failure.Some? then Err(failure.value) else Ok(View())
      ensures failure.None? ==> Valid()
    {
      hide Keyed, Separate, Dict.Valid, MarkUpTo, CloseDay, Position.Value, Slips;
      RecordIntents();
      failure := MarkToMarket(date);
      if failure.Some? {
        return;
      }
      failure := Close(date);
    }

    /** One session: corporate actions, exits, entries, marks, accounts. */
    method RunSession(i: nat) returns (failure: Option<Failure>)
      requires i < |env.calendar| && Valid()
      modifies this, positions.Values
      ensures Session(env, old(View()), i) == if failure.Some? then Err(failure.value) else Ok(View())
      ensures failure.None? ==> Valid() && fresh(positions.Values - old(positions.Values))
    {
      hide Keyed, Separate, Dict.Valid, ActOn, SellUpTo, Enter, MarkUpTo, CloseDay, Recorded, Opened, Position.Value, View;
      failure := ActAndSell(i);
      if failure.Some? {
        return;
      }
      failure := EnterSelected(i);
      if failure.Some? {
        return;
      }
      failure := MarkAndClose(env.calendar[i]);
    }

    constructor (env: Env)
      ensures this.env == env && View() == Initial(env) && Valid() && positions == map[]
    {
      this.env := env;
      cash, previousEquity, dayCost, dayValue := env.initialCash, env.initialCash, 0.0, Some(0.0);
      order, positions, slips := [], map[], Dict([], map[]);
      trades, holdings, actions, intents, terminals, daily := [], [], [], [], [], [];
      counters, stopped := Counters(0, 0, 0, 0, 0, 0, 0), false;
    }

    /** The sessions from the first signal on, until the calendar ends or the loop stops. */
    method Run() returns (failure: Option<Failure>)
      requires Valid() && View() == Initial(env)
      modifies this, positions.Values
      ensures Sessions(env) == if failure.Some? then Err(failure.value) else Ok(View())
      ensures failure.None? ==> Valid()
    {
      hide Keyed, Separate, Session, Initial, Book, Dict.Valid, First;
      var i := First(env);
      while i < |env.calendar|
        invariant First(env) <= i <= |env.calendar| && Valid()
        invariant fresh(positions.Values - old(positions.Values))
        invariant RunUpTo(env, i) == Ok(View())
      {
        if stopped {
          StoppedStays(env, i, |env.calendar|);
          return None;
        }
        failure := RunSession(i);
        if failure.Some? {
          RunFailed(env, i + 1, |env.calendar|, failure.value);
          return;
        }
        i := i + 1;
      }
      return None;
    }
  }
}
