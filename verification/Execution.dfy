/** Executions read off the prices: which fills, delays, write-offs and rejections a session records,
    what becomes of every selected signal, and which positions are tried for an exit
    (src/ashare_quant/backtest/engine.py, lines 158-351 and 865-884). */
module Execution {
  import opened Basics
  import opened Costs
  import opened Ledgers
  import opened CorporateActions
  import opened Simulation
  import opened Auditor
  import opened BookInvariant
  import opened LifeInvariant
  import opened TradeInvariant
  import opened MoneyInvariant
  import opened CounterInvariant
  import opened IntentInvariant
  import opened SessionInvariant
  import opened EntryInvariant
  import opened Runs

  // ----- what the prices of a day allow -----

  /** The code can be bought at this open. */
  ghost predicate BuyableAt(env: Env, date: Date, code: Code, open: real) {
    && (date, code) in env.prices
    && var p := env.prices[(date, code)]; p.canBuy && p.listed && p.open == Some(open) && open > 0.0
  }

  /** The code can be sold at this open. */
  ghost predicate SellableAt(env: Env, date: Date, code: Code, open: real) {
    && (date, code) in env.prices
    && var p := env.prices[(date, code)]; p.canSell && p.open == Some(open) && open > 0.0
  }

  ghost predicate Delisted(env: Env, date: Date, code: Code) {
    && (date, code) in env.prices
    && var p := env.prices[(date, code)]; !p.listed && p.delistDate.Some? && p.delistDate.value <= date
  }

  ghost predicate NotForSale(env: Env, date: Date, code: Code) {
    forall open :: !BuyableAt(env, date, code, open)
  }

  ghost predicate NoBuyer(env: Env, date: Date, code: Code) {
    forall open :: !SellableAt(env, date, code, open)
  }

  lemma BuyableIff(env: Env, date: Date, code: Code)
    ensures Buyable(env.PriceAt(date, code)) <==> !NotForSale(env, date, code)
    ensures Buyable(env.PriceAt(date, code)) ==> BuyableAt(env, date, code, env.PriceAt(date, code).value.open.value)
  {
    if Buyable(env.PriceAt(date, code)) {
      assert BuyableAt(env, date, code, env.PriceAt(date, code).value.open.value);
    }
  }

  lemma SellableIff(env: Env, date: Date, code: Code)
    ensures Sellable(env.PriceAt(date, code)) <==> !NoBuyer(env, date, code)
    ensures Sellable(env.PriceAt(date, code)) ==> SellableAt(env, date, code, env.PriceAt(date, code).value.open.value)
  {
    if Sellable(env.PriceAt(date, code)) {
      assert SellableAt(env, date, code, env.PriceAt(date, code).value.open.value);
    }
  }

  lemma DelistedIsNotForSale(env: Env, date: Date, code: Code)
    requires Delisted(env, date, code)
    ensures NotForSale(env, date, code)
  {}

  lemma TerminalIff(env: Env, date: Date, code: Code)
    ensures IsTerminal(env.PriceAt(date, code), date) <==> Delisted(env, date, code)
  {}

  // ----- trade rows -----

  /** Nothing is paid or received. */
  ghost predicate Free(t: Trade) {
    t.price.None? && t.gross == 0.0 && t.cost == 0.0 && t.costs == NoCosts
  }

  /** The trade is charged what the regime in force on its date commands. */
  ghost predicate Charged(env: Env, t: Trade) {
    && (exists s :: InForce(env.costs, t.date, s) && CostsUnder(s, t.side, t.gross, t.costs))
    && t.cost == t.costs.commission + t.costs.stampDuty + t.costs.transferFee + t.costs.slippage
  }

  lemma FillIsCharged(env: Env, t: Trade)
    requires ValidPolicy(env.costs) && Calculate(env.costs, t.date, t.side, t.gross) == Ok(t.costs) && t.cost == t.costs.Total()
    ensures Charged(env, t)
  {
    hide Calculate, InForce, CostsUnder;
    CalculateIff(env.costs, t.date, t.side, t.gross, Ok(t.costs));
  }

  /** A trade row records what the prices of its day command: a fill is at the open of a code that can be
      traded, a write-off is of a delisted code, and a rejection is of a code that cannot be traded. */
  ghost predicate TradeFollows(env: Env, t: Trade) {
    match t.status
    case Filled =>
      && t.reason == NoReason && t.price.Some? && t.gross == Times(t.shares, t.price.value) && Charged(env, t)
      && if t.side == Buy then BuyableAt(env, t.date, t.code, t.price.value)
         else SellableAt(env, t.date, t.code, t.price.value) && !Delisted(env, t.date, t.code)
    case TerminalWriteoff =>
      t.side == Sell && Delisted(env, t.date, t.code) && Free(t) && t.reason == VerifiedTerminal
    case Rejected =>
      Free(t) && t.shares == 0.0
      && if t.side == Buy then NotForSale(env, t.date, t.code) && t.reason == NotBuyable && t.id.None?
         else NoBuyer(env, t.date, t.code) && !Delisted(env, t.date, t.code) && t.reason == NotSellable && t.id.Some?
  }

  /** More rows of one day, all as the prices command. */
  ghost predicate Extends(env: Env, date: Date, before: seq<Trade>, after: seq<Trade>) {
    && |before| <= |after| && after[..|before|] == before
    && forall k :: |before| <= k < |after| ==> after[k].date == date && TradeFollows(env, after[k])
  }

  lemma ExtendsSnoc(env: Env, date: Date, before: seq<Trade>, after: seq<Trade>, t: Trade)
    requires Extends(env, date, before, after) && t.date == date && TradeFollows(env, t)
    ensures Extends(env, date, before, after + [t])
  {
    hide TradeFollows;
  }

  lemma ExtendsTwice(env: Env, date: Date, a: seq<Trade>, b: seq<Trade>, c: seq<Trade>)
    requires Extends(env, date, a, b) && Extends(env, date, b, c)
    ensures Extends(env, date, a, c)
  {
    hide TradeFollows;
    assert a == b[..|a|] == c[..|b|][..|a|] == c[..|a|];
    forall k | |a| <= k < |c|
      ensures c[k].date == date && TradeFollows(env, c[k])
    {
      if k < |b| {
        assert c[k] == c[..|b|][k] == b[k];
      }
    }
  }

  /** What a day spends on purchases. */
  function Spent(t: Trade): real {
    if IsOpening(t) then t.gross + t.cost else 0.0
  }

  function SpentOn(trades: seq<Trade>, date: Date): real {
    SumOn(trades, TradeDate, Spent, date)
  }

  lemma SpentSnoc(trades: seq<Trade>, t: Trade, date: Date)
    ensures SpentOn(trades + [t], date) == SpentOn(trades, date) + (if t.date == date && IsOpening(t) then t.gross + t.cost else 0.0)
  {
    SumOnSnoc(trades, t, TradeDate, Spent, date);
  }

  // ----- exits -----

  /** A position is tried on a day: there is a sell row of it. */
  ghost predicate Tried(trades: seq<Trade>, date: Date, id: PositionId) {
    exists t :: t in trades && t.date == date && t.side == Sell && t.id == Some(id)
  }

  /** The rows of the exits: those of the positions due among the first k codes. */
  ghost predicate ExitRows(env: Env, date: Date, at: Positions, earlier: seq<Trade>, trades: seq<Trade>, codes: seq<Code>, k: nat)
    requires k <= |codes|
  {
    && |earlier| <= |trades|
    && (forall c :: c in codes[..k] ==> c in at)
    && (forall c :: c in codes[..k] && at[c].target <= date ==> Tried(trades, date, at[c].id))
    && (forall j :: |earlier| <= j < |trades| ==>
          trades[j].side == Sell && DueAmong(at, codes[..k], date, trades[j]))
  }

  /** The row is of a position due among the codes. */
  ghost predicate DueAmong(at: Positions, codes: seq<Code>, date: Date, t: Trade) {
    exists c :: c in codes && c in at && t.id == Some(at[c].id) && at[c].target <= date
  }

  /** The exits of one session, as far as the first k codes. */
  ghost predicate Exiting(env: Env, acted: State, st: State, i: nat, codes: seq<Code>, k: nat)
    requires i < |env.calendar| && k <= |codes|
  {
    && Extends(env, env.calendar[i], acted.trades, st.trades)
    && st == acted.(book := st.book, trades := st.trades, cash := st.cash, dayCost := st.dayCost, terminals := st.terminals, counters := st.counters)
    && SpentOn(st.trades, env.calendar[i]) == SpentOn(acted.trades, env.calendar[i])
    && (forall c :: c in codes[k..] && c in acted.book.at ==> c in st.book.at && st.book.at[c] == acted.book.at[c])
    && ExitRows(env, env.calendar[i], acted.book.at, acted.trades, st.trades, codes, k)
  }

  lemma SaleIsCharged(env: Env, date: Date, p: PositionState, sessions: int)
    requires ValidPolicy(env.costs)
    ensures forall open, costs :: Calculate(env.costs, date, Sell, Times(p.shares, open)) == Ok(costs) ==>
              Charged(env, FilledTrade(date, p, Sell, open, Times(p.shares, open), costs, Some(sessions)))
  {
    hide Calculate, Charged, ValidPolicy, TradeCosts.Total;
    forall open, costs | Calculate(env.costs, date, Sell, Times(p.shares, open)) == Ok(costs)
      ensures Charged(env, FilledTrade(date, p, Sell, open, Times(p.shares, open), costs, Some(sessions)))
    {
      FillIsCharged(env, FilledTrade(date, p, Sell, open, Times(p.shares, open), costs, Some(sessions)));
    }
  }

  /** The row of one exit decision, if there is one. */
  lemma SellFollows(env: Env, st: State, i: nat, code: Code)
    requires ValidPolicy(env.costs) && i < |env.calendar| && SellStep(env, st, i, code).Ok? && code in st.book.at && st.book.at[code].code == code
    ensures var after, date := SellStep(env, st, i, code).value, env.calendar[i];
            && after == st.(book := after.book, trades := after.trades, cash := after.cash, dayCost := after.dayCost,
                            terminals := after.terminals, counters := after.counters)
            && (forall c :: c in st.book.at && c != code ==> c in after.book.at && after.book.at[c] == st.book.at[c])
            && if date < st.book.at[code].target then after.trades == st.trades
               else |after.trades| == |st.trades| + 1 && after.trades == st.trades + [after.trades[|st.trades|]]
                    && var t := after.trades[|st.trades|];
                       t.date == date && t.side == Sell && t.id == Some(st.book.at[code].id) && TradeFollows(env, t)
  {
    hide Calculate, TradeCosts.Total, NoBuyer, SellableAt, Delisted, Sellable, IsTerminal, Mark, Resolved, Dict.Valid, Charged, ValidPolicy;
    var date := env.calendar[i];
    SaleIsCharged(env, date, st.book.at[code], i - st.book.at[code].entryIndex);
    SellableIff(env, date, code);
    TerminalIff(env, date, code);
    SellStepTouchesOne(env, st, i, code);
  }

  lemma ExitRowsGrow(env: Env, date: Date, at: Positions, earlier: seq<Trade>, trades: seq<Trade>, codes: seq<Code>, k: nat, n: nat, t: Trade)
    requires k < |codes| && n == k + 1 && ExitRows(env, date, at, earlier, trades, codes, k) && codes[k] in at
    requires t.date == date && t.side == Sell && t.id == Some(at[codes[k]].id) && at[codes[k]].target <= date
    ensures ExitRows(env, date, at, earlier, trades + [t], codes, n)
  {
    hide Tried;
    assert codes[..n] == codes[..k] + [codes[k]];
    TriedLater(trades, trades + [t], date);
    assert t in trades + [t];
    assert Tried(trades + [t], date, at[codes[k]].id) by { NowTried(trades + [t], date, t); }
    forall j | |earlier| <= j < |trades|
      ensures DueAmong(at, codes[..n], date, trades[j])
    {
      assert DueAmong(at, codes[..k], date, trades[j]);
    }
    assert codes[k] in codes[..n];
  }

  lemma NowTried(trades: seq<Trade>, date: Date, t: Trade)
    requires t in trades && t.date == date && t.side == Sell && t.id.Some?
    ensures Tried(trades, date, t.id.value)
  {}

  lemma ExitRowsWait(env: Env, date: Date, at: Positions, earlier: seq<Trade>, trades: seq<Trade>, codes: seq<Code>, k: nat, n: nat)
    requires k < |codes| && n == k + 1 && ExitRows(env, date, at, earlier, trades, codes, k) && codes[k] in at
    requires date < at[codes[k]].target
    ensures ExitRows(env, date, at, earlier, trades, codes, n)
  {
    hide Tried;
    assert codes[..n] == codes[..k] + [codes[k]];
    forall j | |earlier| <= j < |trades|
      ensures DueAmong(at, codes[..n], date, trades[j])
    {
      assert DueAmong(at, codes[..k], date, trades[j]);
    }
  }

  lemma ExitFollows(env: Env, acted: State, st: State, i: nat, codes: seq<Code>, k: nat, n: nat)
    requires ValidPolicy(env.costs) && i < |env.calendar| && k < |codes| && n == k + 1 && NoDuplicates(codes)
    requires forall c :: c in acted.book.at ==> acted.book.at[c].code == c
    requires codes[k] in acted.book.at
    requires Exiting(env, acted, st, i, codes, k) && SellStep(env, st, i, codes[k]).Ok?
    ensures Exiting(env, acted, SellStep(env, st, i, codes[k]).value, i, codes, n)
  {
    hide SellStep, TradeFollows, SpentOn, ExitRows, Extends, ValidPolicy;
    var code, after, date := codes[k], SellStep(env, st, i, codes[k]).value, env.calendar[i];
    assert codes[k..] == [code] + codes[n..];
    assert code in codes[k..];
    forall c | c in codes[n..]
      ensures c in codes[k..] && c != code
    {}
    SellFollows(env, st, i, code);
    if date < st.book.at[code].target {
      ExitRowsWait(env, date, acted.book.at, acted.trades, st.trades, codes, k, n);
    } else {
      var t := after.trades[|st.trades|];
      ExtendsSnoc(env, date, acted.trades, st.trades, t);
      SpentSnoc(st.trades, t, date);
      ExitRowsGrow(env, date, acted.book.at, acted.trades, st.trades, codes, k, n, t);
    }
  }

  lemma TriedLater(trades: seq<Trade>, after: seq<Trade>, date: Date)
    requires |trades| <= |after| && after[..|trades|] == trades
    ensures forall id :: Tried(trades, date, id) ==> Tried(after, date, id)
  {
    forall t | t in trades
      ensures t in after
    {
      var k :| 0 <= k < |trades| && trades[k] == t;
      assert after[k] == after[..|trades|][k];
    }
  }

  lemma {:induction false} ExitsFollow(env: Env, acted: State, i: nat, codes: seq<Code>, k: nat)
    requires ValidPolicy(env.costs) && i < |env.calendar| && k <= |codes| && NoDuplicates(codes)
    requires forall c :: c in acted.book.at ==> acted.book.at[c].code == c
    requires forall c :: c in codes ==> c in acted.book.at
    requires SellUpTo(env, acted, i, codes, k).Ok?
    ensures Exiting(env, acted, SellUpTo(env, acted, i, codes, k).value, i, codes, k)
  {
    hide Exiting, SellStep, ValidPolicy;
    if k > 0 {
      ExitsFollow(env, acted, i, codes, k - 1);
      assert codes[k - 1] in codes;
      ExitFollows(env, acted, SellUpTo(env, acted, i, codes, k - 1).value, i, codes, k - 1, k);
    } else {
      NothingExited(env, acted, i, codes);
    }
  }

  lemma NothingExited(env: Env, acted: State, i: nat, codes: seq<Code>)
    requires i < |env.calendar|
    ensures Exiting(env, acted, acted, i, codes, 0)
  {
    hide TradeFollows;
  }

  // ----- entries -----

  /** What a signal is told on the day it is to be entered, given the state after the exits and the one
      after the entries. */
  ghost predicate Told(env: Env, i: nat, sold: State, after: Positions, c: Code, x: Intent)
    requires i < |env.calendar|
  {
    var date, held := env.calendar[i], sold.book.at;
    && x.date == date && x.code == c && x.cashBefore == sold.cash && x.signalDate == SignalDate(env, i)
    && (x.outcome == OutcomeAlreadyHeld <==> c in held)
    && if c in held then x.id == Some(held[c].id) && c in after && after[c] == held[c]
       else if x.outcome == OutcomeFilled then
         && !NotForSale(env, date, c) && sold.cash > 0.0 && c in after
         && var p := after[c]; x.id == Some(p.id) && p.code == c && p.entryDate == date
       else
         && x.id == None && c !in after
         && (x.outcome == OutcomeTerminal <==> Delisted(env, date, c))
         && (x.outcome == OutcomeNotBuyable <==> NotForSale(env, date, c) && !Delisted(env, date, c))
         && (x.outcome == OutcomeNoAvailableCash ==> sold.cash <= 0.0)
         && (x.outcome == OutcomeInsufficientGross ==> sold.cash > 0.0)
  }

  lemma SlipIs(env: Env, st: State, i: nat, code: Code, rank: nat)
    requires i < |env.calendar|
    ensures var x, date := Slip(env, st, i, code, rank), env.calendar[i];
            && x.date == date && x.code == code && x.cashBefore == st.cash && x.signalDate == SignalDate(env, i)
            && x.id == (if code in st.book.at then Some(st.book.at[code].id) else None)
            && x.outcome == if code in st.book.at then OutcomeAlreadyHeld
                            else if Delisted(env, date, code) then OutcomeTerminal
                            else if NotForSale(env, date, code) then OutcomeNotBuyable
                            else OutcomeNoAvailableCash
  {
    hide Buyable, NotForSale, Delisted, IsTerminal;
    BuyableIff(env, env.calendar[i], code);
    TerminalIff(env, env.calendar[i], code);
  }

  /** What the slips say before anything is bought. */
  ghost predicate Slipped(env: Env, i: nat, sold: State, c: Code, x: Intent)
    requires i < |env.calendar|
  {
    var date := env.calendar[i];
    && x.date == date && x.code == c && x.cashBefore == sold.cash && x.signalDate == SignalDate(env, i)
    && x.id == (if c in sold.book.at then Some(sold.book.at[c].id) else None)
    && x.outcome == if c in sold.book.at then OutcomeAlreadyHeld
                    else if Delisted(env, date, c) then OutcomeTerminal
                    else if NotForSale(env, date, c) then OutcomeNotBuyable
                    else OutcomeNoAvailableCash
  }

  lemma NotedSlips(env: Env, st: State, i: nat)
    requires i < |env.calendar| && NoDuplicates(env.Selected(env.calendar[i]))
    ensures var noted := Noted(env, st, i);
            && noted == st.(slips := noted.slips)
            && noted.slips.order == env.Selected(env.calendar[i])
            && (forall c :: c in noted.slips.at <==> c in env.Selected(env.calendar[i]))
            && forall c :: c in noted.slips.at ==> Slipped(env, i, st, c, noted.slips.at[c])
  {
    hide Slip, SlipsUpTo, NoDuplicates, NotForSale, Delisted;
    var codes := env.Selected(env.calendar[i]);
    SlipsUpToList(env, st, i, codes, |codes|);
    assert codes[..|codes|] == codes;
    var d := Noted(env, st, i).slips;
    forall c | c in d.at
      ensures Slipped(env, i, st, c, d.at[c])
    {
      var k :| 0 <= k < |codes| && codes[k] == c;
      SlipIs(env, st, i, codes[k], k + 1);
    }
  }

  ghost predicate Turned(trades: seq<Trade>, date: Date, c: Code) {
    exists t :: t in trades && t.date == date && t.code == c && t.side == Buy && t.status == Rejected
  }

  /** The slips and the book while the codes are bought one after the other. */
  ghost predicate Telling(env: Env, i: nat, sold: State, first: Dict<Code, Intent>, at: Positions, slips: Dict<Code, Intent>, codes: seq<Code>, k: nat)
    requires i < |env.calendar| && k <= |codes|
  {
    && slips.order == first.order && slips.at.Keys == first.at.Keys
    && (forall c :: c in sold.book.at ==> c in at && at[c] == sold.book.at[c])
    && (forall c :: c in at ==> c in sold.book.at || c in codes[..k])
    && (forall c :: c in slips.at && c !in codes[..k] ==> slips.at[c] == first.at[c])
    && (forall c :: c in codes[..k] && c in slips.at ==> Told(env, i, sold, at, c, slips.at[c]))
  }

  ghost predicate Buying(env: Env, i: nat, sold: State, ready: State, st: State, codes: seq<Code>, k: nat)
    requires i < |env.calendar| && k <= |codes|
  {
    && st == ready.(book := st.book, slips := st.slips, cash := st.cash, dayCost := st.dayCost, trades := st.trades)
    && Extends(env, env.calendar[i], ready.trades, st.trades)
    && Telling(env, i, sold, ready.slips, st.book.at, st.slips, codes, k)
    && st.cash + SpentOn(st.trades, env.calendar[i]) == ready.cash + SpentOn(ready.trades, env.calendar[i])
    && (forall j :: |ready.trades| <= j < |st.trades| ==> IsOpening(st.trades[j]))
  }

  lemma BuyFollows(env: Env, st: State, i: nat, rates: Rates, allocation: real, code: Code) returns (p: PositionState)
    requires i < |env.calendar| && ValidPolicy(env.costs) && Resolve(env.costs, env.calendar[i], Buy) == Ok(rates)
    requires BuyStep(env, st, i, rates, allocation, code).Ok?
    requires code in st.slips.at && code !in st.book.at
    ensures var after, date := BuyStep(env, st, i, rates, allocation, code).value, env.calendar[i];
            && !NotForSale(env, date, code)
            && after == st.(book := after.book, slips := after.slips, cash := after.cash, dayCost := after.dayCost, trades := after.trades)
            && if after.trades == st.trades then
                 && after == st.(slips := st.slips.Put(code, st.slips.at[code].(outcome := OutcomeInsufficientGross)))
               else
                 && after.trades == st.trades + [after.trades[|st.trades|]]
                 && (var t := after.trades[|st.trades|];
                     t.date == date && TradeFollows(env, t) && IsOpening(t) && after.cash == st.cash - (t.gross + t.cost))
                 && p.id == PositionId(date, code) && p.code == code && p.entryDate == date
                 && after.book == st.book.Put(code, p)
                 && after.slips == st.slips.Put(code, st.slips.at[code].(outcome := OutcomeFilled, id := Some(p.id)))
  {
    hide MaximumAffordable, Charge, TradeCosts.Total, NotForSale, Buyable, Dict.Put, Dict.Valid, Charged, ValidPolicy, Resolve;
    var date, after := env.calendar[i], BuyStep(env, st, i, rates, allocation, code).value;
    p := *;
    BuyableIff(env, date, code);
    var price := env.PriceAt(date, code).value;
    var gross, open := MaximumAffordable(rates, allocation), price.open.value;
    assert open > 0.0 by { BuyableOpens(env, date, code); }
    assert Times(gross / open, open) == gross;
    assert after.trades == st.trades || after == BuyAt(env, st, i, code, price, gross, Charge(rates, gross));
    if after.trades != st.trades {
      p := NewPosition(env, i, code, price, gross / open);
      PositiveQuotient(gross, open);
      assert Calculate(env.costs, date, Buy, gross) == Ok(Charge(rates, gross));
      FillIsCharged(env, FilledTrade(date, p, Buy, open, gross, Charge(rates, gross), None));
    }
  }

  lemma BuyableOpens(env: Env, date: Date, code: Code)
    requires Buyable(env.PriceAt(date, code))
    ensures env.PriceAt(date, code).value.open.Some? && env.PriceAt(date, code).value.open.value > 0.0
  {}

  lemma TurnedLater(trades: seq<Trade>, after: seq<Trade>, date: Date)
    requires |trades| <= |after| && after[..|trades|] == trades
    requires forall j :: |trades| <= j < |after| ==> IsOpening(after[j])
    ensures forall c :: Turned(after, date, c) <==> Turned(trades, date, c)
  {
    forall t | t in trades
      ensures t in after
    {
      var k :| 0 <= k < |trades| && trades[k] == t;
      assert after[k] == after[..|trades|][k];
    }
    forall t | t in after && !IsOpening(t)
      ensures t in trades
    {
      var k :| 0 <= k < |after| && after[k] == t;
      assert trades[k] == after[..|trades|][k];
    }
  }

  /** One more code is told. */
  lemma TellingGrows(env: Env, i: nat, sold: State, first: Dict<Code, Intent>, at: Positions, slips: Dict<Code, Intent>, codes: seq<Code>, k: nat, n: nat,
      next: Positions, x: Intent)
    requires i < |env.calendar| && k < |codes| && n == k + 1 && NoDuplicates(codes)
    requires Telling(env, i, sold, first, at, slips, codes, k)
    requires codes[k] in slips.at && codes[k] !in sold.book.at
    requires next == at || (codes[k] in next && next == at[codes[k] := next[codes[k]]])
    requires Told(env, i, sold, next, codes[k], x)
    ensures Telling(env, i, sold, first, next, slips.Put(codes[k], x), codes, n)
  {
    hide NotForSale, Delisted, Dict.Valid, Told;
    var code := codes[k];
    assert codes[..n] == codes[..k] + [code];
    assert code !in codes[..k];
    forall c | c in codes[..k] && c in slips.at
      ensures Told(env, i, sold, next, c, slips.at[c])
    {
      ToldElsewhere(env, i, sold, at, next, c, slips.at[c]);
    }
  }

  lemma ToldElsewhere(env: Env, i: nat, sold: State, at: Positions, next: Positions, c: Code, x: Intent)
    requires i < |env.calendar| && Told(env, i, sold, at, c, x)
    requires c in at <==> c in next
    requires c in at ==> at[c] == next[c]
    ensures Told(env, i, sold, next, c, x)
  {
    hide NotForSale, Delisted;
  }

  lemma NowTold(env: Env, i: nat, sold: State, next: Positions, code: Code, x: Intent, p: PositionState, filled: bool)
    requires i < |env.calendar| && Slipped(env, i, sold, code, x) && code !in sold.book.at && sold.cash > 0.0
    requires !NotForSale(env, env.calendar[i], code)
    requires filled ==> code in next && next[code] == p && p.code == code && p.entryDate == env.calendar[i]
    requires !filled ==> code !in next
    ensures Told(env, i, sold, next, code,
                 if filled then x.(outcome := OutcomeFilled, id := Some(p.id)) else x.(outcome := OutcomeInsufficientGross))
  {
    hide NotForSale, Delisted;
    if Delisted(env, env.calendar[i], code) {
      DelistedIsNotForSale(env, env.calendar[i], code);
    }
  }

  lemma BuyKeepsBuying(env: Env, i: nat, sold: State, ready: State, st: State, rates: Rates, allocation: real, codes: seq<Code>, k: nat, n: nat)
    requires i < |env.calendar| && k < |codes| && n == k + 1 && NoDuplicates(codes)
    requires ValidPolicy(env.costs) && Resolve(env.costs, env.calendar[i], Buy) == Ok(rates)
    requires Buying(env, i, sold, ready, st, codes, k) && BuyStep(env, st, i, rates, allocation, codes[k]).Ok?
    requires codes[k] in ready.slips.at && codes[k] !in sold.book.at && sold.cash > 0.0
    requires Slipped(env, i, sold, codes[k], ready.slips.at[codes[k]])
    ensures Buying(env, i, sold, ready, BuyStep(env, st, i, rates, allocation, codes[k]).value, codes, n)
  {
    hide BuyStep, TradeFollows, SumOn, NotForSale, Delisted, Dict.Valid, Told, Slipped, Telling, Dict.Put, ValidPolicy, Resolve;
    var code, after, date := codes[k], BuyStep(env, st, i, rates, allocation, codes[k]).value, env.calendar[i];
    NotToldYet(env, i, sold, ready.slips, st.book.at, st.slips, codes, k);
    var p := BuyFollows(env, st, i, rates, allocation, code);
    var filled := after.trades != st.trades;
    PutAt(st.book, code, p);
    NowTold(env, i, sold, after.book.at, code, st.slips.at[code], p, filled);
    TellingGrows(env, i, sold, ready.slips, st.book.at, st.slips, codes, k, n, after.book.at,
                 if filled then st.slips.at[code].(outcome := OutcomeFilled, id := Some(p.id))
                 else st.slips.at[code].(outcome := OutcomeInsufficientGross));
    if filled {
      var t := after.trades[|st.trades|];
      ExtendsSnoc(env, date, ready.trades, st.trades, t);
      SpentSnoc(st.trades, t, date);
    }
  }

  lemma PutAt(book: Book, code: Code, p: PositionState)
    ensures book.Put(code, p).at == book.at[code := p]
  {}

  lemma NotToldYet(env: Env, i: nat, sold: State, first: Dict<Code, Intent>, at: Positions, slips: Dict<Code, Intent>, codes: seq<Code>, k: nat)
    requires i < |env.calendar| && k < |codes| && NoDuplicates(codes)
    requires Telling(env, i, sold, first, at, slips, codes, k) && codes[k] in first.at && codes[k] !in sold.book.at
    ensures codes[k] in slips.at && slips.at[codes[k]] == first.at[codes[k]] && codes[k] !in at
  {
    hide Told;
    assert codes[k] !in codes[..k];
  }

  lemma {:induction false} BuysKeepBuying(env: Env, i: nat, sold: State, ready: State, rates: Rates, allocation: real, codes: seq<Code>, k: nat)
    requires i < |env.calendar| && k <= |codes| && NoDuplicates(codes)
    requires ValidPolicy(env.costs) && Resolve(env.costs, env.calendar[i], Buy) == Ok(rates)
    requires Buying(env, i, sold, ready, ready, codes, 0) && BuyUpTo(env, ready, i, rates, allocation, codes, k).Ok?
    requires sold.cash > 0.0
    requires forall c :: c in codes ==> c in ready.slips.at && c !in sold.book.at && Slipped(env, i, sold, c, ready.slips.at[c])
    ensures Buying(env, i, sold, ready, BuyUpTo(env, ready, i, rates, allocation, codes, k).value, codes, k)
  {
    hide Buying, BuyStep, Slipped, ValidPolicy, Resolve;
    if k > 0 {
      BuysKeepBuying(env, i, sold, ready, rates, allocation, codes, k - 1);
      var st := BuyUpTo(env, ready, i, rates, allocation, codes, k - 1).value;
      BuyKeepsBuying(env, i, sold, ready, st, rates, allocation, codes, k - 1, k);
    }
  }

  // ----- rejections -----

  /** The rows of the codes that cannot be bought. */
  ghost predicate Turning(env: Env, date: Date, st: State, after: State, codes: seq<Code>, k: nat)
    requires k <= |codes|
  {
    && after == st.(trades := after.trades)
    && Extends(env, date, st.trades, after.trades)
    && SpentOn(after.trades, date) == SpentOn(st.trades, date)
    && (forall j :: |st.trades| <= j < |after.trades| ==>
          var t := after.trades[j]; t.side == Buy && t.status == Rejected && t.code in codes[..k] && NotForSale(env, date, t.code))
    && (forall c :: c in codes[..k] && NotForSale(env, date, c) ==> Turned(after.trades, date, c))
  }

  lemma {:induction false} RejectionsFollow(env: Env, st: State, date: Date, codes: seq<Code>, k: nat)
    requires k <= |codes|
    ensures Turning(env, date, st, RejectUpTo(env, st, date, codes, k), codes, k)
  {
    hide NotForSale, Buyable, SpentOn, Extends, Turned;
    NoRejections(env, st, date, codes);
    if k > 0 {
      RejectionsFollow(env, st, date, codes, k - 1);
      var before, after, code := RejectUpTo(env, st, date, codes, k - 1), RejectUpTo(env, st, date, codes, k), codes[k - 1];
      assert codes[..k] == codes[..k - 1] + [code];
      BuyableIff(env, date, code);
      if after != before {
        TurnedOneMore(env, date, st, before, codes, k - 1, k, RejectedTrade(date, code, Buy, NotBuyable, None, 0, false));
      }
    }
  }

  lemma NoRejections(env: Env, st: State, date: Date, codes: seq<Code>)
    ensures Turning(env, date, st, st, codes, 0)
  {
    hide NotForSale, TradeFollows;
  }

  lemma TurnedOneMore(env: Env, date: Date, st: State, before: State, codes: seq<Code>, k: nat, n: nat, t: Trade)
    requires k < |codes| && n == k + 1 && Turning(env, date, st, before, codes, k)
    requires NotForSale(env, date, codes[k]) && t == RejectedTrade(date, codes[k], Buy, NotBuyable, None, 0, false)
    ensures Turning(env, date, st, before.(trades := before.trades + [t]), codes, n)
  {
    hide NotForSale, SpentOn;
    assert codes[..n] == codes[..k] + [codes[k]];
    var after := before.trades + [t];
    ExtendsSnoc(env, date, st.trades, before.trades, t);
    SpentSnoc(before.trades, t, date);
    assert t in after;
    assert forall x :: x in before.trades ==> x in after;
  }

  // ----- the whole entry phase -----

  /** After the entries every selected code has been told what becomes of it. */
  ghost predicate AllTold(env: Env, i: nat, sold: State, after: State)
    requires i < |env.calendar|
  {
    && after == sold.(book := after.book, slips := after.slips, cash := after.cash, dayCost := after.dayCost, trades := after.trades)
    && Extends(env, env.calendar[i], sold.trades, after.trades)
    && (forall c :: c in after.slips.order ==> c in after.slips.at)
    && (forall c :: c in after.slips.at ==> c in env.Selected(env.calendar[i]) && Told(env, i, sold, after.book.at, c, after.slips.at[c]))
    && (forall c :: c in after.book.at ==> c in sold.book.at || c in after.slips.at)
    && (forall c :: c in sold.book.at ==> c in after.book.at && after.book.at[c] == sold.book.at[c])
    && after.cash + SpentOn(after.trades, env.calendar[i]) == sold.cash + SpentOn(sold.trades, env.calendar[i])
    && (forall j :: |sold.trades| <= j < |after.trades| ==> after.trades[j].side == Buy)
    && (forall c :: c in env.Selected(env.calendar[i]) && c !in sold.book.at && NotForSale(env, env.calendar[i], c) ==>
          Turned(after.trades, env.calendar[i], c))
    && (forall j :: |sold.trades| <= j < |after.trades| && after.trades[j].status == Rejected ==>
          && after.trades[j].code in env.Selected(env.calendar[i]) && after.trades[j].code !in sold.book.at
          && NotForSale(env, env.calendar[i], after.trades[j].code))
  }

  lemma SlippedIsTold(env: Env, i: nat, sold: State, after: Positions, c: Code, x: Intent)
    requires i < |env.calendar| && Slipped(env, i, sold, c, x)
    requires c in sold.book.at ==> c in after && after[c] == sold.book.at[c]
    requires c !in sold.book.at ==> c !in after && (x.outcome == OutcomeNoAvailableCash ==> sold.cash <= 0.0)
    ensures Told(env, i, sold, after, c, x)
  {
    hide NotForSale, Delisted;
  }

  lemma TurnedState(env: Env, date: Date, st: State, after: State, codes: seq<Code>, k: nat)
    requires k <= |codes| && Turning(env, date, st, after, codes, k)
    ensures after == st.(trades := after.trades)
  {}

  /** The selected codes: those bought are told by the purchases, the others by their slips. */
  lemma TellsAll(env: Env, i: nat, sold: State, noted: State, ready: State, after: State, candidates: seq<Code>, codes: seq<Code>, k: nat)
    requires i < |env.calendar| && noted == sold.(slips := noted.slips) && noted.slips.order == env.Selected(env.calendar[i])
    requires forall c :: c in noted.slips.at <==> c in env.Selected(env.calendar[i])
    requires forall c :: c in noted.slips.at ==> Slipped(env, i, sold, c, noted.slips.at[c])
    requires Turning(env, env.calendar[i], noted, ready, candidates, |candidates|)
    requires forall c :: c in candidates <==> c in env.Selected(env.calendar[i]) && c !in sold.book.at
    requires forall c :: c in codes <==> c in candidates && !NotForSale(env, env.calendar[i], c)
    requires k == 0 || k == |codes|
    requires codes != [] && k == 0 ==> sold.cash <= 0.0
    requires Buying(env, i, sold, ready, after, codes, k)
    ensures AllTold(env, i, sold, after)
  {
    hide NotForSale, Delisted, Told, Slipped, TradeFollows, SumOn, Turned;
    var date, selected := env.calendar[i], env.Selected(env.calendar[i]);
    assert candidates[..|candidates|] == candidates && codes[..|codes|] == codes;
    ExtendsTwice(env, date, sold.trades, ready.trades, after.trades);
    TurnedLater(ready.trades, after.trades, date);
    forall c | c in after.slips.at
      ensures Told(env, i, sold, after.book.at, c, after.slips.at[c])
    {
      if c !in codes[..k] {
        assert after.slips.at[c] == noted.slips.at[c];
        if c !in sold.book.at {
          SlippedOutcome(env, i, sold, c, noted.slips.at[c]);
        }
        SlippedIsTold(env, i, sold, after.book.at, c, after.slips.at[c]);
      }
    }
    assert ready.trades == after.trades[..|ready.trades|];
    forall j | |sold.trades| <= j < |after.trades|
      ensures after.trades[j].side == Buy
      ensures after.trades[j].status == Rejected ==>
                after.trades[j].code in selected && after.trades[j].code !in sold.book.at && NotForSale(env, date, after.trades[j].code)
    {
      if j < |ready.trades| {
        assert after.trades[j] == ready.trades[j];
      }
    }
  }

  lemma SlippedOutcome(env: Env, i: nat, sold: State, c: Code, x: Intent)
    requires i < |env.calendar| && Slipped(env, i, sold, c, x) && c !in sold.book.at
    ensures x.outcome == OutcomeNoAvailableCash ==> !NotForSale(env, env.calendar[i], c)
  {
    hide NotForSale, Delisted;
  }

  lemma GovernedPolicy(env: Env)
    requires Governed(env)
    ensures ValidPolicy(env.costs)
  {}

  /** The entries tell every selected code. */
  lemma EntryTells(env: Env, sold: State, i: nat)
    requires Governed(env) && i < |env.calendar| && Enter(env, sold, i).Ok?
    ensures AllTold(env, i, sold, Enter(env, sold, i).value)
  {
    hide Governed, RejectUpTo, BuyUpTo, Resolve, NoDuplicates, Candidates, Executable, NotForSale, Buyable, Turning, Buying, Noted,
         Slipped, Told, AllTold, SpentOn;
    var date := env.calendar[i];
    SelectedOnce(env, date);
    GovernedPolicy(env);
    NotedSlips(env, sold, i);
    CandidatesAreFree(env.Selected(date), sold.book.at);
    var candidates, noted := Candidates(env.Selected(date), sold.book.at), Noted(env, sold, i);
    RejectionsFollow(env, noted, date, candidates, |candidates|);
    ExecutableAreBuyable(env, date, candidates);
    var ready, codes := RejectUpTo(env, noted, date, candidates, |candidates|), Executable(env, date, candidates);
    assert candidates[..|candidates|] == candidates;
    forall c
      ensures Buyable(env.PriceAt(date, c)) <==> !NotForSale(env, date, c)
    {
      BuyableIff(env, date, c);
    }
    assert ready == noted.(trades := ready.trades) by { TurnedState(env, date, noted, ready, candidates, |candidates|); }
    NothingBought(env, i, sold, ready, codes);
    var after, k := Enter(env, sold, i).value, 0;
    if codes != [] && ready.cash > 0.0 {
      var rates := Resolve(env.costs, date, Buy).value;
      BuysKeepBuying(env, i, sold, ready, rates, ready.cash / (|codes| as real), codes, |codes|);
      k := |codes|;
    }
    TellsAll(env, i, sold, noted, ready, after, candidates, codes, k);
  }

  lemma NothingBought(env: Env, i: nat, sold: State, ready: State, codes: seq<Code>)
    requires i < |env.calendar| && ready.book == sold.book
    ensures Buying(env, i, sold, ready, ready, codes, 0)
  {
    hide Told, TradeFollows;
  }

  // ----- marks -----

  /** A holding row is of the position. */
  ghost predicate RowOf(h: Holding, date: Date, p: PositionState) {
    h.date == date && h.code == p.code && h.id == p.id && h.entryDate == p.entryDate && h.target == p.target
  }

  ghost predicate SameTerms(p: PositionState, q: PositionState) {
    q.code == p.code && q.id == p.id && q.entryDate == p.entryDate && q.target == p.target
  }

  /** The rows of the first k codes have been written. */
  ghost predicate Marking(env: Env, st: State, after: State, date: Date, codes: seq<Code>, k: nat)
    requires k <= |codes|
  {
    && after == st.(book := after.book, dayValue := after.dayValue, holdings := after.holdings, counters := after.counters)
    && after.book.at.Keys == st.book.at.Keys
    && (forall c :: c in st.book.at ==> SameTerms(st.book.at[c], after.book.at[c]))
    && |after.holdings| == |st.holdings| + k && after.holdings[..|st.holdings|] == st.holdings
    && (forall j :: 0 <= j < k ==> codes[j] in st.book.at && RowOf(after.holdings[|st.holdings| + j], date, st.book.at[codes[j]]))
  }

  lemma MarkFollows(env: Env, st: State, date: Date, code: Code)
    requires MarkStep(env, st, date, code).Ok?
    ensures var after := MarkStep(env, st, date, code).value;
            && code in st.book.at && code in after.book.at && SameTerms(st.book.at[code], after.book.at[code])
            && after.book.at == st.book.at[code := after.book.at[code]]
            && after == st.(book := after.book, dayValue := after.dayValue, holdings := after.holdings, counters := after.counters)
            && |after.holdings| == |st.holdings| + 1 && after.holdings == st.holdings + [after.holdings[|st.holdings|]]
            && RowOf(after.holdings[|st.holdings|], date, st.book.at[code])
  {
    hide Mark, Aged, Plus, Dict.Valid;
  }

  lemma {:induction false} MarksFollow(env: Env, st: State, date: Date, codes: seq<Code>, k: nat)
    requires k <= |codes| && MarkUpTo(env, st, date, codes, k).Ok?
    ensures Marking(env, st, MarkUpTo(env, st, date, codes, k).value, date, codes, k)
  {
    hide MarkStep;
    if k > 0 {
      MarksFollow(env, st, date, codes, k - 1);
      var before := MarkUpTo(env, st, date, codes, k - 1).value;
      MarkFollows(env, before, date, codes[k - 1]);
      assert before.holdings[..|st.holdings|] == st.holdings;
    }
  }

  // ----- intents -----

  /** The rows of a code on a date. */
  ghost predicate IsRowOn(h: Holding, date: Date, code: Code) {
    h.date == date && h.code == code
  }

  ghost predicate OnBook(holdings: seq<Holding>, x: Intent, today: bool) {
    exists h :: h in holdings && IsRowOn(h, x.date, x.code) && Some(h.id) == x.id && (if today then h.entryDate == x.date else h.entryDate < x.date)
  }

  ghost predicate OffBook(holdings: seq<Holding>, x: Intent) {
    x.id == None && forall h :: h in holdings ==> !IsRowOn(h, x.date, x.code)
  }

  /** The date is the session after the signal. */
  ghost predicate NextSession(calendar: seq<Date>, signal: Date, date: Date) {
    exists j :: 0 < j < |calendar| && calendar[j] == date && calendar[j - 1] == signal
  }

  /** What became of a selected signal, read off the prices and the published rows of its day. */
  ghost predicate IntentFollows(env: Env, trades: seq<Trade>, holdings: seq<Holding>, x: Intent) {
    && (match x.outcome
        case OutcomeAlreadyHeld => OnBook(holdings, x, false)
        case OutcomeFilled => OnBook(holdings, x, true) && !NotForSale(env, x.date, x.code) && x.cashBefore > 0.0
        case OutcomeTerminal => OffBook(holdings, x) && Delisted(env, x.date, x.code)
        case OutcomeNotBuyable => OffBook(holdings, x) && NotForSale(env, x.date, x.code) && !Delisted(env, x.date, x.code)
        case OutcomeNoAvailableCash => OffBook(holdings, x) && !NotForSale(env, x.date, x.code) && x.cashBefore <= 0.0
        case OutcomeInsufficientGross => OffBook(holdings, x) && !NotForSale(env, x.date, x.code) && x.cashBefore > 0.0)
    && (Turned(trades, x.date, x.code) <==> x.outcome == OutcomeTerminal || x.outcome == OutcomeNotBuyable)
    && NextSession(env.calendar, x.signalDate, x.date)
  }

  /** Everything the prices decide, on the ledgers of the sessions before calendar index i. */
  ghost predicate Followed(env: Env, st: State, i: nat)
    requires i <= |env.calendar| && env.calendar != []
  {
    && (forall t :: t in st.trades ==> t.date <= Before(env, i) && TradeFollows(env, t))
    && (forall h :: h in st.holdings ==> h.date <= Before(env, i))
    && (forall d :: d in st.daily ==> d.date <= Before(env, i))
    && (forall x :: x in st.intents ==> x.date <= Before(env, i) && IntentFollows(env, st.trades, st.holdings, x))
    && (forall x, d :: x in st.intents && d in st.daily && d.date == x.date ==> x.cashBefore == d.cash + SpentOn(st.trades, x.date))
  }

  /** The rows of the last session are those of the book. */
  ghost predicate LastRows(env: Env, st: State, i: nat)
    requires i <= |env.calendar| && env.calendar != []
  {
    forall h :: h in st.holdings && h.date == Before(env, i) ==> InBook(st.book.at, h.id, h.target)
  }

  ghost predicate InBook(at: Positions, id: PositionId, target: Date) {
    exists c :: c in at && at[c].id == id && at[c].target == target
  }

  /** A position held overnight is tried for an exit exactly if its target has come. */
  ghost predicate ExitsTried(env: Env, trades: seq<Trade>, holdings: seq<Holding>, i: nat)
    requires i <= |env.calendar|
  {
    forall h, j :: h in holdings && 0 < j < i && h.date == env.calendar[j - 1] ==>
      (Tried(trades, env.calendar[j], h.id) <==> h.target <= env.calendar[j])
  }

  /** The slips in order are the intents of the day. */
  lemma {:induction false} SlipsAre(d: Dict<Code, Intent>, n: nat, x: Intent)
    requires n <= |d.order| && forall c :: c in d.order ==> c in d.at
    requires x in Slips(d, n)
    ensures exists c :: c in d.at && x == d.at[c]
  {
    if n > 0 && x != d.at[d.order[n - 1]] {
      SlipsAre(d, n - 1, x);
    }
  }

  lemma {:induction false} SpentLater(trades: seq<Trade>, after: seq<Trade>, date: Date)
    requires |trades| <= |after| && after[..|trades|] == trades
    requires forall j :: |trades| <= j < |after| ==> after[j].date != date
    ensures SpentOn(after, date) == SpentOn(trades, date)
  {
    if |after| == |trades| {
      assert after == trades;
    } else {
      var front, last := after[..|after| - 1], after[|after| - 1];
      assert after == front + [last];
      assert front[..|trades|] == trades;
      SpentLater(trades, front, date);
      SpentSnoc(front, last, date);
    }
  }

  // ----- one more day -----

  /** The trades and holdings of one more day. */
  ghost predicate DayAdded(date: Date, trades: seq<Trade>, later: seq<Trade>, holdings: seq<Holding>, marked: seq<Holding>) {
    && |trades| <= |later| && later[..|trades|] == trades && (forall j :: |trades| <= j < |later| ==> later[j].date == date)
    && |holdings| <= |marked| && marked[..|holdings|] == holdings && (forall j :: |holdings| <= j < |marked| ==> marked[j].date == date)
  }

  lemma MembersAdded(date: Date, trades: seq<Trade>, later: seq<Trade>, holdings: seq<Holding>, marked: seq<Holding>)
    requires DayAdded(date, trades, later, holdings, marked)
    ensures forall t :: t in later && t.date != date ==> t in trades
    ensures forall t :: t in trades ==> t in later
    ensures forall h :: h in marked && h.date != date ==> h in holdings
    ensures forall h :: h in holdings ==> h in marked
  {
    forall t | t in later && t.date != date
      ensures t in trades
    {
      var k :| 0 <= k < |later| && later[k] == t;
      assert later[..|trades|][k] == t;
    }
    forall t | t in trades
      ensures t in later
    {
      var k :| 0 <= k < |trades| && trades[k] == t;
      assert later[..|trades|][k] == later[k];
    }
    forall h | h in marked && h.date != date
      ensures h in holdings
    {
      var k :| 0 <= k < |marked| && marked[k] == h;
      assert marked[..|holdings|][k] == h;
    }
    forall h | h in holdings
      ensures h in marked
    {
      var k :| 0 <= k < |holdings| && holdings[k] == h;
      assert marked[..|holdings|][k] == marked[k];
    }
  }

  /** The intents of earlier days still follow. */
  lemma EarlierIntentFollows(env: Env, date: Date, trades: seq<Trade>, later: seq<Trade>, holdings: seq<Holding>, marked: seq<Holding>, x: Intent)
    requires DayAdded(date, trades, later, holdings, marked) && x.date < date
    requires IntentFollows(env, trades, holdings, x)
    ensures IntentFollows(env, later, marked, x) && SpentOn(later, x.date) == SpentOn(trades, x.date)
  {
    hide NotForSale, Delisted, SpentOn;
    MembersAdded(date, trades, later, holdings, marked);
    SpentLater(trades, later, x.date);
    assert OnBook(holdings, x, true) ==> OnBook(marked, x, true);
    assert OnBook(holdings, x, false) ==> OnBook(marked, x, false);
  }

  /** The holding rows of a day are those of its book. */
  ghost predicate DayRows(holdings: seq<Holding>, date: Date, at: Positions) {
    && (forall h :: h in holdings && h.date == date ==> exists c :: c in at && RowOf(h, date, at[c]))
    && (forall c :: c in at ==> exists h :: h in holdings && RowOf(h, date, at[c]))
  }

  /** The intents of the day follow. */
  lemma TodaysIntentFollows(env: Env, i: nat, sold: State, after: State, trades: seq<Trade>, holdings: seq<Holding>, c: Code, x: Intent)
    requires 0 < i < |env.calendar| && Told(env, i, sold, after.book.at, c, x)
    requires forall d :: d in sold.book.at ==> sold.book.at[d].entryDate < env.calendar[i]
    requires forall d :: d in after.book.at ==> after.book.at[d].code == d
    requires DayRows(holdings, env.calendar[i], after.book.at)
    requires c !in sold.book.at && NotForSale(env, env.calendar[i], c) <==> Turned(trades, env.calendar[i], c)
    ensures IntentFollows(env, trades, holdings, x) && x.cashBefore == sold.cash && x.date == env.calendar[i]
  {
    hide NotForSale, Delisted, Turned;
    var date, at := env.calendar[i], after.book.at;
    if Delisted(env, date, c) {
      DelistedIsNotForSale(env, date, c);
    }
    if c in at {
      var h :| h in holdings && RowOf(h, date, at[c]);
      assert IsRowOn(h, x.date, x.code);
    } else {
      forall h | h in holdings
        ensures !IsRowOn(h, date, c)
      {
        if h.date == date {
          var d :| d in at && RowOf(h, date, at[d]);
        }
      }
    }
  }

  lemma MarkedRow(env: Env, st: State, after: State, date: Date, h: Holding) returns (c: Code)
    requires Marking(env, st, after, date, st.book.order, |st.book.order|)
    requires h in after.holdings && h !in st.holdings
    ensures c in st.book.at && RowOf(h, date, st.book.at[c])
  {
    hide RowOf, SameTerms;
    var n := |st.holdings|;
    var k :| 0 <= k < |after.holdings| && after.holdings[k] == h;
    assert forall j :: 0 <= j < n ==> after.holdings[..n][j] == after.holdings[j];
    c := st.book.order[k - n];
    assert after.holdings[n + (k - n)] == h;
  }

  lemma RowMarked(env: Env, st: State, after: State, date: Date, c: Code) returns (h: Holding)
    requires Marking(env, st, after, date, st.book.order, |st.book.order|) && c in st.book.order
    ensures h in after.holdings && c in st.book.at && RowOf(h, date, st.book.at[c])
  {
    hide RowOf, SameTerms;
    var j :| 0 <= j < |st.book.order| && st.book.order[j] == c;
    h := after.holdings[|st.holdings| + j];
  }

  lemma MarkedDayRows(env: Env, st: State, after: State, date: Date)
    requires Marking(env, st, after, date, st.book.order, |st.book.order|)
    requires Elements(st.book.order) == st.book.at.Keys && forall h :: h in st.holdings ==> h.date < date
    ensures DayRows(after.holdings, date, st.book.at)
  {
    hide RowOf, Marking;
    forall h | h in after.holdings && h.date == date
      ensures exists c :: c in st.book.at && RowOf(h, date, st.book.at[c])
    {
      var c := MarkedRow(env, st, after, date, h);
    }
    forall c | c in st.book.at
      ensures exists h :: h in after.holdings && RowOf(h, date, st.book.at[c])
    {
      assert c in Elements(st.book.order);
      var h := RowMarked(env, st, after, date, c);
    }
  }

  /** Which codes were turned down today. */
  lemma TurnedToday(env: Env, i: nat, sold: State, after: State, c: Code)
    requires i < |env.calendar| && AllTold(env, i, sold, after) && c in after.slips.at
    requires forall t :: t in sold.trades ==> t.date < env.calendar[i] || t.side == Sell
    ensures c !in sold.book.at && NotForSale(env, env.calendar[i], c) <==> Turned(after.trades, env.calendar[i], c)
  {
    hide NotForSale, Told, SpentOn, TradeFollows;
    var date := env.calendar[i];
    forall k | 0 <= k < |sold.trades|
      ensures after.trades[k] in sold.trades
    {
      assert after.trades[..|sold.trades|][k] == after.trades[k];
    }
    if Turned(after.trades, date, c) {
      var t :| t in after.trades && t.date == date && t.code == c && t.side == Buy && t.status == Rejected;
      var k :| 0 <= k < |after.trades| && after.trades[k] == t;
    }
  }

  // ----- one session -----

  /** The states a session passes through. */
  ghost predicate Phases(env: Env, st: State, i: nat, sold: State, entered: State, marked: State, next: State)
    requires i < |env.calendar|
  {
    var date, recorded := env.calendar[i], Recorded(entered);
    && sold.holdings == st.holdings && sold.intents == st.intents && sold.daily == st.daily
    && Extends(env, date, st.trades, sold.trades)
    && SpentOn(sold.trades, date) == SpentOn(st.trades, date)
    && (forall j :: |st.trades| <= j < |sold.trades| ==> sold.trades[j].side == Sell)
    && AllTold(env, i, sold, entered)
    && Marking(env, recorded, marked, date, recorded.book.order, |recorded.book.order|)
    && next.trades == marked.trades && next.holdings == marked.holdings && next.intents == marked.intents && next.book == marked.book
    && next.daily == marked.daily + [DailyRow(env, marked, date)]
    && marked.previousEquity == st.previousEquity && next.previousEquity == DailyRow(env, marked, date).equity
    && (next.stopped <==> env.carryToCalendarEnd && next.book.at == map[] && forall d :: d in env.entries ==> d <= date)
    && (forall c :: c in sold.book.at ==> sold.book.at[c].entryDate < date)
    && (forall c :: c in entered.book.at ==> entered.book.at[c].code == c)
    && Elements(entered.book.order) == entered.book.at.Keys
  }

  /** What a day adds to the ledgers. */
  lemma PhasesAdd(env: Env, st: State, i: nat, sold: State, entered: State, marked: State, next: State)
    requires i < |env.calendar| && Phases(env, st, i, sold, entered, marked, next)
    ensures Extends(env, env.calendar[i], st.trades, next.trades)
    ensures DayAdded(env.calendar[i], st.trades, next.trades, st.holdings, next.holdings)
    ensures next.intents == st.intents + Slips(entered.slips, |entered.slips.order|)
    ensures next.trades == entered.trades && Recorded(entered).holdings == st.holdings
    ensures marked.cash == entered.cash && next.daily == st.daily + [DailyRow(env, marked, env.calendar[i])]
  {
    hide TradeFollows, Told, DailyRow, Slips, NotForSale, SpentOn;
    var date, n := env.calendar[i], |st.holdings|;
    ExtendsTwice(env, date, st.trades, sold.trades, entered.trades);
    var recorded := Recorded(entered);
    forall j | n <= j < |marked.holdings|
      ensures marked.holdings[j].date == date
    {
      assert RowOf(marked.holdings[n + (j - n)], date, recorded.book.at[recorded.book.order[j - n]]);
    }
  }

  lemma PhasesIntent(env: Env, st: State, i: nat, sold: State, entered: State, marked: State, next: State, x: Intent)
    requires i < |env.calendar| && Phases(env, st, i, sold, entered, marked, next)
    requires i == 0 ==> env.Selected(env.calendar[i]) == []
    requires forall t :: t in st.trades ==> t.date < env.calendar[i]
    requires forall h :: h in st.holdings ==> h.date < env.calendar[i]
    requires x in Slips(entered.slips, |entered.slips.order|)
    ensures IntentFollows(env, next.trades, next.holdings, x) && x.date == env.calendar[i]
    ensures x.cashBefore == marked.cash + SpentOn(next.trades, x.date)
  {
    hide NotForSale, Told, TradeFollows, IntentFollows, SumOn, Marking, DayRows;
    var date := env.calendar[i];
    SlipsAre(entered.slips, |entered.slips.order|, x);
    var c :| c in entered.slips.at && x == entered.slips.at[c];
    forall t | t in sold.trades
      ensures t.date < date || t.side == Sell
    {
      var k :| 0 <= k < |sold.trades| && sold.trades[k] == t;
      if k < |st.trades| {
        assert sold.trades[..|st.trades|][k] == t;
      }
    }
    TurnedToday(env, i, sold, entered, c);
    MarkedDayRows(env, Recorded(entered), marked, date);
    PhasesAdd(env, st, i, sold, entered, marked, next);
    TodaysIntentFollows(env, i, sold, entered, next.trades, next.holdings, c, x);
    SumOnAbsent(st.trades, TradeDate, Spent, date);
  }

  lemma PhasesFollow(env: Env, st: State, i: nat, sold: State, entered: State, marked: State, next: State)
    requires StrictlyIncreasing(env.calendar) && i < |env.calendar| && Phases(env, st, i, sold, entered, marked, next) && Followed(env, st, i)
    requires i == 0 ==> env.Selected(env.calendar[i]) == []
    ensures Followed(env, next, i + 1)
  {
    hide TradeFollows, IntentFollows, SpentOn, Phases, Slips, Extends;
    var date := env.calendar[i];
    BeforeIsEarlier(env, i);
    PhasesAdd(env, st, i, sold, entered, marked, next);
    MembersAdded(date, st.trades, next.trades, st.holdings, next.holdings);
    forall t | t in next.trades
      ensures t.date <= date && TradeFollows(env, t)
    {
      ExtendedFollows(env, date, st.trades, next.trades, t);
    }
    forall x | x in next.intents
      ensures x.date <= date && IntentFollows(env, next.trades, next.holdings, x)
      ensures forall d :: d in next.daily && d.date == x.date ==> x.cashBefore == d.cash + SpentOn(next.trades, x.date)
    {
      if x in st.intents {
        EarlierIntentFollows(env, date, st.trades, next.trades, st.holdings, next.holdings, x);
      } else {
        PhasesIntent(env, st, i, sold, entered, marked, next, x);
      }
    }
  }

  lemma ExtendedFollows(env: Env, date: Date, before: seq<Trade>, after: seq<Trade>, t: Trade)
    requires Extends(env, date, before, after) && t in after
    ensures t in before || (t.date == date && TradeFollows(env, t))
  {
    hide TradeFollows;
    var k :| 0 <= k < |after| && after[k] == t;
    if k < |before| {
      assert after[..|before|][k] == t;
    }
  }

  /** The migration and the exits. */
  lemma ExitPhases(env: Env, st: State, i: nat, acted: State)
    requires Governed(env) && i < |env.calendar| && Ready(env, st, i) && ActOn(env, Opened(st), env.calendar[i]) == Ok(acted)
    requires SellUpTo(env, acted, i, acted.book.order, |acted.book.order|).Ok?
    ensures First(env) <= i && acted.trades == st.trades && acted.holdings == st.holdings && acted.intents == st.intents && acted.daily == st.daily
    ensures acted.previousEquity == st.previousEquity
    ensures acted.book.Valid() && DistinctIds(acted.book) && forall c :: c in acted.book.at ==> acted.book.at[c].code == c
    ensures var sold := SellUpTo(env, acted, i, acted.book.order, |acted.book.order|).value;
            Exiting(env, acted, sold, i, acted.book.order, |acted.book.order|) && Exited(env, sold, i)
  {
    hide Ready, Mid, ActOn, SellUpTo, IntentsOk, DaysRun, Openings, Dict.Valid, Governed, Exiting, Exited;
    var date := env.calendar[i];
    assert IntentsOk(env, st.intents, st.trades, i) && First(env) <= i by { ReadyParts(env, st, i); }
    OpenedEarlier(env, st, i);
    ActionsStartMid(env, st, i);
    ActedLedgers(env, st, acted, date);
    MidCodes(env, acted, i, acted.book.at.Keys, acted.book.at.Keys);
    OrderElements(acted.book);
    assert forall c :: c in acted.book.order ==> c in Elements(acted.book.order);
    GovernedPolicy(env);
    ExitsFollow(env, acted, i, acted.book.order, |acted.book.order|);
    ExitsReachExited(env, st, acted, i);
  }

  lemma SessionPhases(env: Env, st: State, i: nat) returns (acted: State, sold: State, entered: State, marked: State)
    requires Governed(env) && i < |env.calendar| && Ready(env, st, i) && Session(env, st, i).Ok?
    ensures ActOn(env, Opened(st), env.calendar[i]) == Ok(acted)
    ensures acted.trades == st.trades && acted.book.Valid() && DistinctIds(acted.book)
    ensures Exiting(env, acted, sold, i, acted.book.order, |acted.book.order|)
    ensures Phases(env, st, i, sold, entered, marked, Session(env, st, i).value)
  {
    hide Ready, Mid, ActOn, SellUpTo, Enter, MarkUpTo, Exited, Openings, Dict.Valid, Governed, Exiting, AllTold, Marking, SpentOn, DailyRow, DistinctIds;
    var date := env.calendar[i];
    acted := ActOn(env, Opened(st), date).value;
    sold := SellUpTo(env, acted, i, acted.book.order, |acted.book.order|).value;
    entered := Enter(env, sold, i).value;
    var recorded := Recorded(entered);
    marked := MarkUpTo(env, recorded, date, recorded.book.order, |recorded.book.order|).value;
    ExitPhases(env, st, i, acted);
    ExitingParts(env, acted, sold, i, acted.book.order, |acted.book.order|);
    LaterPhases(env, sold, i);
  }

  /** The phases after the exits. */
  lemma LaterPhases(env: Env, sold: State, i: nat)
    requires Governed(env) && First(env) <= i < |env.calendar| && Exited(env, sold, i) && Enter(env, sold, i).Ok?
    requires var r := Recorded(Enter(env, sold, i).value); MarkUpTo(env, r, env.calendar[i], r.book.order, |r.book.order|).Ok?
    ensures var date, entered := env.calendar[i], Enter(env, sold, i).value;
            var recorded := Recorded(entered);
            var marked := MarkUpTo(env, recorded, date, recorded.book.order, |recorded.book.order|).value;
            && AllTold(env, i, sold, entered)
            && Marking(env, recorded, marked, date, recorded.book.order, |recorded.book.order|)
            && (forall c :: c in sold.book.at ==> sold.book.at[c].entryDate < date)
            && (forall c :: c in entered.book.at ==> entered.book.at[c].code == c)
            && Elements(entered.book.order) == entered.book.at.Keys
            && marked.previousEquity == sold.previousEquity
  {
    hide Mid, Enter, MarkUpTo, Entered, Exited, Openings, Dict.Valid, Governed, AllTold, Marking, SpentOn, IntentsOk, Slips;
    var date, entered := env.calendar[i], Enter(env, sold, i).value;
    var recorded := Recorded(entered);
    var marked := MarkUpTo(env, recorded, date, recorded.book.order, |recorded.book.order|).value;
    HeldEarlier(env, sold, i);
    EntryTells(env, sold, i);
    ToldParts(env, i, sold, entered);
    EntryKeepsMid(env, sold, i);
    EnteredBook(env, entered, i);
    MarksFollow(env, recorded, date, recorded.book.order, |recorded.book.order|);
    MarkingParts(env, recorded, marked, date, recorded.book.order, |recorded.book.order|);
  }

  lemma ToldParts(env: Env, i: nat, sold: State, after: State)
    requires i < |env.calendar| && AllTold(env, i, sold, after)
    ensures after == sold.(book := after.book, slips := after.slips, cash := after.cash, dayCost := after.dayCost, trades := after.trades)
  {
    hide Extends, Told, NotForSale, SpentOn, Turned;
  }

  lemma MarkingParts(env: Env, st: State, after: State, date: Date, codes: seq<Code>, k: nat)
    requires k <= |codes| && Marking(env, st, after, date, codes, k)
    ensures after == st.(book := after.book, dayValue := after.dayValue, holdings := after.holdings, counters := after.counters)
  {}

  lemma ExitingParts(env: Env, acted: State, st: State, i: nat, codes: seq<Code>, k: nat)
    requires i < |env.calendar| && k <= |codes| && Exiting(env, acted, st, i, codes, k)
    ensures Extends(env, env.calendar[i], acted.trades, st.trades)
    ensures SpentOn(st.trades, env.calendar[i]) == SpentOn(acted.trades, env.calendar[i])
    ensures forall j :: |acted.trades| <= j < |st.trades| ==> st.trades[j].side == Sell
    ensures st == acted.(book := st.book, trades := st.trades, cash := st.cash, dayCost := st.dayCost, terminals := st.terminals, counters := st.counters)
  {
    hide Extends, SpentOn;
  }

  lemma ActedLedgers(env: Env, st: State, acted: State, date: Date)
    requires ActOn(env, Opened(st), date) == Ok(acted)
    ensures acted.trades == st.trades && acted.holdings == st.holdings && acted.intents == st.intents && acted.daily == st.daily
    ensures acted.previousEquity == st.previousEquity
  {
    hide ApplyEffective;
  }

  lemma MidCodes(env: Env, st: State, i: nat, due: set<Code>, unmarked: set<Code>)
    requires Mid(env, st, i, due, unmarked)
    ensures st.book.Valid() && DistinctIds(st.book) && forall c :: c in st.book.at ==> st.book.at[c].code == c
  {
    BookIds(env, st.book, i, due);
  }

  lemma HeldEarlier(env: Env, st: State, i: nat)
    requires i < |env.calendar| && Exited(env, st, i)
    ensures forall c :: c in st.book.at ==> st.book.at[c].entryDate < env.calendar[i]
  {
    hide Openings, Lives, TradesOk, Flow, CountersOk, ActionsOk, TerminalsOk, Undue, IntentsOk;
    HeldAreOpen(env, st, i);
    forall c | c in st.book.at
      ensures st.book.at[c].id.date == st.book.at[c].entryDate
    {
      PositionOk(env, st.book, i, {}, c);
    }
  }

  lemma EnteredBook(env: Env, st: State, i: nat)
    requires i < |env.calendar| && Entered(env, st, i)
    ensures Elements(st.book.order) == st.book.at.Keys && forall c :: c in st.book.at ==> st.book.at[c].code == c
  {
    hide Mid, SlipsList, FillsMatch, SlotsOf, ExpectedSlots, Dict.Valid;
    MidCodes(env, st, i, {}, st.book.at.Keys);
    OrderElements(st.book);
  }

  /** Renamed or not, a position keeps its id and its target. */
  lemma MigrationKeepsTargets(env: Env, st: State, acted: State, i: nat, id: PositionId, target: Date)
    requires Governed(env) && i < |env.calendar| && Ready(env, st, i)
    requires ActOn(env, Opened(st), env.calendar[i]) == Ok(acted) && InBook(st.book.at, id, target)
    ensures InBook(acted.book.at, id, target)
  {
    hide ApplyEffective, Fate, MaximalPath, FaithfulRow, ChainOf, Mark, Undue, Lives, TradesOk, BooksSettled, CountersOk, ActionsOk, TerminalsOk, IntentsOk,
         DaysRun, Openings, Closings, Dict.Valid;
    var ts, date := env.Transitions(), env.calendar[i];
    BookIsKeyed(env, st.book, i - 1, {});
    MigrationRelocates(ts, st.book, date);
    var c :| c in st.book.at && st.book.at[c].id == id && st.book.at[c].target == target;
    FateIsFaithful(ts, st.book, date, c);
    var p := Fate(ts, st.book, date, c).value.position;
    assert p.code in acted.book.at && acted.book.at[p.code] == p;
  }

  /** The positions tried today are those whose target has come. */
  lemma TriedToday(env: Env, acted: State, sold: State, i: nat, trades: seq<Trade>, id: PositionId, target: Date)
    requires i < |env.calendar| && Exiting(env, acted, sold, i, acted.book.order, |acted.book.order|)
    requires acted.book.Valid() && DistinctIds(acted.book) && InBook(acted.book.at, id, target)
    requires forall t :: t in acted.trades ==> t.date < env.calendar[i]
    requires Extends(env, env.calendar[i], sold.trades, trades) && forall j :: |sold.trades| <= j < |trades| ==> trades[j].side == Buy
    ensures Tried(trades, env.calendar[i], id) <==> target <= env.calendar[i]
  {
    hide TradeFollows, SpentOn;
    var date, codes := env.calendar[i], acted.book.order;
    assert codes[..|codes|] == codes;
    var c :| c in acted.book.at && acted.book.at[c].id == id && acted.book.at[c].target == target;
    assert c in codes;
    if target <= date {
      assert Tried(sold.trades, date, id);
      TriedLater(sold.trades, trades, date);
    }
    if Tried(trades, date, id) {
      var t :| t in trades && t.date == date && t.side == Sell && t.id == Some(id);
      var k := SoldToday(acted.trades, sold.trades, trades, date, t);
      assert DueAmong(acted.book.at, codes[..|codes|], date, sold.trades[k]);
    }
  }

  lemma SoldToday(earlier: seq<Trade>, sold: seq<Trade>, trades: seq<Trade>, date: Date, t: Trade) returns (k: nat)
    requires |earlier| <= |sold| <= |trades| && sold[..|earlier|] == earlier && trades[..|sold|] == sold
    requires forall x :: x in earlier ==> x.date < date
    requires forall j :: |sold| <= j < |trades| ==> trades[j].side == Buy
    requires t in trades && t.date == date && t.side == Sell
    ensures |earlier| <= k < |sold| && sold[k] == t
  {
    k :| 0 <= k < |trades| && trades[k] == t;
    assert k < |sold|;
    assert sold[k] == trades[..|sold|][k];
    forall j | 0 <= j < |earlier|
      ensures sold[j].date < date
    {
      assert sold[..|earlier|][j] == sold[j];
    }
  }

  lemma TriedStill(env: Env, date: Date, trades: seq<Trade>, later: seq<Trade>, holdings: seq<Holding>, marked: seq<Holding>, d: Date, id: PositionId)
    requires DayAdded(date, trades, later, holdings, marked) && d != date
    ensures Tried(later, d, id) <==> Tried(trades, d, id)
  {
    MembersAdded(date, trades, later, holdings, marked);
  }

  lemma PhasesTry(env: Env, st: State, i: nat, acted: State, sold: State, entered: State, marked: State, next: State)
    requires Governed(env) && i < |env.calendar| && Ready(env, st, i) && ActOn(env, Opened(st), env.calendar[i]) == Ok(acted)
    requires acted.trades == st.trades && acted.book.Valid() && DistinctIds(acted.book)
    requires Exiting(env, acted, sold, i, acted.book.order, |acted.book.order|)
    requires Phases(env, st, i, sold, entered, marked, next) && Followed(env, st, i) && LastRows(env, st, i)
    requires ExitsTried(env, st.trades, st.holdings, i)
    ensures ExitsTried(env, next.trades, next.holdings, i + 1)
  {
    hide Governed, Ready, ActOn, Exiting, Phases, TradeFollows, IntentFollows, SpentOn, Dict.Valid, Tried, InBook, DistinctIds;
    var date := env.calendar[i];
    assert StrictlyIncreasing(env.calendar) by { GovernedAscends(env); }
    BeforeIsEarlier(env, i);
    PhasesAdd(env, st, i, sold, entered, marked, next);
    MembersAdded(date, st.trades, next.trades, st.holdings, next.holdings);
    assert Extends(env, date, sold.trades, next.trades) && forall j :: |sold.trades| <= j < |next.trades| ==> next.trades[j].side == Buy by {
      PhasesBuy(env, st, i, sold, entered, marked, next);
    }
    forall h, j | h in next.holdings && 0 < j < i + 1 && h.date == env.calendar[j - 1]
      ensures Tried(next.trades, env.calendar[j], h.id) <==> h.target <= env.calendar[j]
    {
      assert h.date != date;
      if j < i {
        TriedStill(env, date, st.trades, next.trades, st.holdings, next.holdings, env.calendar[j], h.id);
      } else {
        MigrationKeepsTargets(env, st, acted, i, h.id, h.target);
        TriedToday(env, acted, sold, i, next.trades, h.id, h.target);
      }
    }
  }

  lemma GovernedAscends(env: Env)
    requires Governed(env)
    ensures StrictlyIncreasing(env.calendar)
  {}

  lemma PhasesBuy(env: Env, st: State, i: nat, sold: State, entered: State, marked: State, next: State)
    requires i < |env.calendar| && Phases(env, st, i, sold, entered, marked, next)
    ensures Extends(env, env.calendar[i], sold.trades, next.trades)
    ensures forall j :: |sold.trades| <= j < |next.trades| ==> next.trades[j].side == Buy
  {
    hide Extends, Told, NotForSale, SpentOn, Turned;
  }

  lemma PhasesLast(env: Env, st: State, i: nat, sold: State, entered: State, marked: State, next: State)
    requires StrictlyIncreasing(env.calendar) && i < |env.calendar| && Phases(env, st, i, sold, entered, marked, next) && Followed(env, st, i)
    ensures LastRows(env, next, i + 1)
  {
    hide Extends, AllTold, NotForSale, SpentOn, TradeFollows, IntentFollows, RowOf, DailyRow, Slips;
    var date, recorded := env.calendar[i], Recorded(entered);
    BeforeIsEarlier(env, i);
    PhasesAdd(env, st, i, sold, entered, marked, next);
    forall h | h in next.holdings && h.date == date
      ensures InBook(next.book.at, h.id, h.target)
    {
      var c := MarkedRow(env, recorded, marked, date, h);
      RowInBook(h, date, recorded.book.at[c], marked.book.at, c);
    }
  }

  lemma RowInBook(h: Holding, date: Date, p: PositionState, at: Positions, c: Code)
    requires RowOf(h, date, p) && c in at && SameTerms(p, at[c])
    ensures InBook(at, h.id, h.target)
  {}

  // ----- daily rows and the end of a run -----

  /** The benchmark return of a daily row, and its return before costs. */
  ghost predicate DayFollows(env: Env, daily: seq<Daily>, k: nat)
    requires k < |daily|
  {
    var d, previous := daily[k], if k == 0 then env.initialCash else daily[k - 1].equity;
    && d.benchmark == (if d.date in env.benchmark then env.benchmark[d.date] else 0.0)
    && d.grossReturn == (if previous > 0.0 then (d.equity + d.cost) / previous - 1.0 else 0.0)
  }

  ghost predicate DaysFollow(env: Env, st: State) {
    && (forall k :: 0 <= k < |st.daily| ==> DayFollows(env, st.daily, k))
    && st.previousEquity == if st.daily == [] then env.initialCash else st.daily[|st.daily| - 1].equity
  }

  lemma PhasesDays(env: Env, st: State, i: nat, sold: State, entered: State, marked: State, next: State)
    requires i < |env.calendar| && Phases(env, st, i, sold, entered, marked, next) && DaysFollow(env, st)
    ensures DaysFollow(env, next)
  {
    hide Extends, AllTold, NotForSale, SpentOn, TradeFollows, Marking;
    PhasesAdd(env, st, i, sold, entered, marked, next);
    var n := |st.daily|;
    assert forall k :: 0 <= k < n ==> next.daily[k] == st.daily[k];
    forall k | 0 <= k < n
      ensures DayFollows(env, next.daily, k)
    {
      assert DayFollows(env, st.daily, k);
    }
  }

  /** A carried run has nothing left to do after a session: nothing is held, and no entry is to come. */
  ghost predicate Done(env: Env, holdings: seq<Holding>, i: nat)
    requires i < |env.calendar|
  {
    && env.carryToCalendarEnd && (forall h :: h in holdings ==> h.date != env.calendar[i])
    && forall d :: d in env.entries ==> d <= env.calendar[i]
  }

  /** The run stops at the first session after which there is nothing left to do. */
  ghost predicate StopsFollow(env: Env, st: State, m: nat)
    requires First(env) <= m <= |env.calendar|
  {
    && (forall i :: First(env) <= i < m - 1 ==> !Done(env, st.holdings, i))
    && (st.stopped <==> First(env) < m && Done(env, st.holdings, m - 1))
  }

  /** Nothing is held after a session exactly if the session leaves no holding row. */
  lemma PhasesEmpty(env: Env, st: State, i: nat, sold: State, entered: State, marked: State, next: State)
    requires i < |env.calendar| && Phases(env, st, i, sold, entered, marked, next)
    requires forall h :: h in st.holdings ==> h.date < env.calendar[i]
    ensures next.stopped <==> Done(env, next.holdings, i)
  {
    hide Extends, AllTold, NotForSale, SpentOn, TradeFollows, DailyRow, Slips, RowOf, SameTerms;
    var date, recorded := env.calendar[i], Recorded(entered);
    PhasesAdd(env, st, i, sold, entered, marked, next);
    MarkedDayRows(env, recorded, marked, date);
    EmptyIff(next.holdings, date, recorded.book.at);
    assert next.book.at == map[] <==> next.book.at.Keys == {};
  }

  lemma PhasesStop(env: Env, st: State, i: nat, sold: State, entered: State, marked: State, next: State)
    requires StrictlyIncreasing(env.calendar) && First(env) <= i < |env.calendar|
    requires Phases(env, st, i, sold, entered, marked, next) && Followed(env, st, i) && StopsFollow(env, st, i) && !st.stopped
    ensures StopsFollow(env, next, i + 1)
  {
    hide Phases, TradeFollows, IntentFollows, SpentOn, DailyRow, Slips, First, Extends;
    var date := env.calendar[i];
    BeforeIsEarlier(env, i);
    PhasesAdd(env, st, i, sold, entered, marked, next);
    MembersAdded(date, st.trades, next.trades, st.holdings, next.holdings);
    PhasesEmpty(env, st, i, sold, entered, marked, next);
    forall j | First(env) <= j < i
      ensures Done(env, next.holdings, j) <==> Done(env, st.holdings, j)
    {
      assert env.calendar[j] != date;
    }
  }

  lemma EmptyIff(holdings: seq<Holding>, date: Date, at: Positions)
    requires DayRows(holdings, date, at)
    ensures at.Keys == {} <==> forall h :: h in holdings ==> h.date != date
  {
    if at.Keys != {} {
      var c :| c in at;
      var h :| h in holdings && RowOf(h, date, at[c]);
    }
  }

  // ----- runs -----

  ghost predicate AllFollows(env: Env, st: State, i: nat)
    requires First(env) <= i <= |env.calendar| && env.calendar != []
  {
    && Followed(env, st, i) && LastRows(env, st, i) && ExitsTried(env, st.trades, st.holdings, i)
    && DaysFollow(env, st) && StopsFollow(env, st, i)
  }

  lemma {:induction false} RunFollows(env: Env, n: nat) returns (m: nat)
    requires Governed(env) && EntriesFollowSignals(env)
    requires First(env) <= n <= |env.calendar| && RunUpTo(env, n).Ok?
    ensures First(env) <= m <= n && env.calendar != [] && Ready(env, RunUpTo(env, n).value, m) && AllFollows(env, RunUpTo(env, n).value, m)
    ensures !RunUpTo(env, n).value.stopped ==> m == n
    decreases n
  {
    hide Ready, Session, Governed, EntriesFollowSignals, Followed, LastRows, ExitsTried, Phases, Exiting, Dict.Valid, DistinctIds,
         DaysFollow, StopsFollow;
    CalendarIsThere(env);
    if n == First(env) {
      InitialIsReady(env);
      NothingFollows(env);
      m := n;
    } else {
      m := RunFollows(env, n - 1);
      var st := RunUpTo(env, n - 1).value;
      if !st.stopped {
        var i := n - 1;
        var acted, sold, entered, marked := SessionPhases(env, st, i);
        var next := Session(env, st, i).value;
        SessionKeepsReady(env, st, i);
        GovernedAscends(env);
        NothingSelectedFirst(env);
        PhasesFollow(env, st, i, sold, entered, marked, next);
        PhasesTry(env, st, i, acted, sold, entered, marked, next);
        PhasesLast(env, st, i, sold, entered, marked, next);
        PhasesDays(env, st, i, sold, entered, marked, next);
        PhasesStop(env, st, i, sold, entered, marked, next);
        m := n;
      }
    }
  }

  lemma NothingSelectedFirst(env: Env)
    requires Governed(env) && EntriesFollowSignals(env) && env.calendar != []
    ensures env.Selected(env.calendar[0]) == []
  {}

  lemma NothingFollows(env: Env)
    requires env.calendar != []
    ensures AllFollows(env, Initial(env), First(env))
  {}

  /** Every execution of a run is decided by the prices of its day: the rows of the trade log, what becomes
      of each selected signal, and the cash it found, all read off the published tables. */
  lemma ExecutionsFollowPrices(env: Env, n: nat)
    requires Governed(env) && EntriesFollowSignals(env)
    requires First(env) <= n <= |env.calendar| && RunUpTo(env, n).Ok?
    ensures var st := RunUpTo(env, n).value;
            && (forall t :: t in st.trades ==> TradeFollows(env, t))
            && (forall x :: x in st.intents ==> IntentFollows(env, st.trades, st.holdings, x))
            && (forall k :: 0 <= k < |st.daily| ==> DayFollows(env, st.daily, k))
            && (forall x, d :: x in st.intents && d in st.daily && d.date == x.date ==> x.cashBefore == d.cash + SpentOn(st.trades, x.date))
  {
    hide RunUpTo, TradeFollows, IntentFollows, SpentOn, Governed, EntriesFollowSignals, First, Ready, StopsFollow, DayFollows;
    var m := RunFollows(env, n);
  }

  /** Of the positions held overnight, exactly those whose target has come are tried for an exit in the
      next session of the run. */
  lemma DuePositionsAreTried(env: Env, n: nat, h: Holding, j: nat)
    requires Governed(env) && EntriesFollowSignals(env)
    requires First(env) <= n <= |env.calendar| && RunUpTo(env, n).Ok? && !RunUpTo(env, n).value.stopped
    requires h in RunUpTo(env, n).value.holdings && 0 < j < n && h.date == env.calendar[j - 1]
    ensures Tried(RunUpTo(env, n).value.trades, env.calendar[j], h.id) <==> h.target <= env.calendar[j]
  {
    hide RunUpTo, Tried, Governed, EntriesFollowSignals, First, Ready, Followed, LastRows, DaysFollow, StopsFollow;
    var m := RunFollows(env, n);
  }

  /** Which sessions a run works through: those before which there was always something left to do. */
  lemma SessionsAreRun(env: Env, n: nat, j: nat)
    requires Governed(env) && EntriesFollowSignals(env)
    requires First(env) <= j < n <= |env.calendar| && RunUpTo(env, n).Ok?
    ensures var st := RunUpTo(env, n).value;
            (exists d :: d in st.daily && d.date == env.calendar[j]) <==> forall i :: First(env) <= i < j ==> !Done(env, st.holdings, i)
  {
    hide RunUpTo, Governed, EntriesFollowSignals, First, Followed, LastRows, DaysFollow, ExitsTried, Done, Ready;
    var m := RunFollows(env, n);
    var st := RunUpTo(env, n).value;
    ReadyParts(env, st, m);
    GovernedAscends(env);
    DatesRun(env, st.daily, m, j);
  }

  lemma DatesRun(env: Env, daily: seq<Daily>, m: nat, j: nat)
    requires StrictlyIncreasing(env.calendar) && First(env) <= m <= |env.calendar| && First(env) <= j < |env.calendar| && DaysRun(env, daily, m)
    ensures (exists d :: d in daily && d.date == env.calendar[j]) <==> j < m
  {
    hide First;
    if j < m {
      assert daily[j - First(env)] in daily;
    }
    forall d | d in daily
      ensures exists k :: First(env) <= k < m && d.date == env.calendar[k]
    {
      var k :| 0 <= k < |daily| && daily[k] == d;
      assert d.date == env.calendar[First(env) + k];
    }
  }
}
