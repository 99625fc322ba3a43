/** The trade log at every step: each position id is opened once and closed at most once, fills
    carry the costs their notional commands, and closures the holding time they took. */
module TradeInvariant {
  import opened Basics
  import opened Costs
  import opened Ledgers
  import opened Simulation
  import opened Auditor
  import opened BookInvariant

  // ----- ids -----

  ghost predicate Listed(ids: seq<Option<PositionId>>, m: TradeMap) {
    && NoDuplicates(ids)
    && (forall x :: x in ids ==> x.Some? && x.value in m)
    && (forall q :: q in m ==> Some(q) in ids)
  }

  ghost predicate IdsOk(trades: seq<Trade>) {
    && Listed(OpeningIds(trades), Openings(trades))
    && Listed(ClosingIds(trades), Closings(trades))
    && (forall t :: t in trades && IsOpening(t) ==>
          t.id.Some? && t.id.value in Openings(trades) && Openings(trades)[t.id.value] == t)
    && (forall t :: t in trades && IsClosing(t) ==>
          t.id.Some? && t.id.value in Closings(trades) && Closings(trades)[t.id.value] == t)
  }

  /** At every point of the log only opened positions have been closed. */
  ghost predicate OpensFirst(trades: seq<Trade>) {
    trades == []
    || (var front, t := trades[..|trades| - 1], trades[|trades| - 1];
        OpensFirst(front) && (IsClosing(t) ==> t.id.Some? && t.id.value in Openings(front)))
  }

  lemma OpensFirstSnoc(trades: seq<Trade>, t: Trade)
    requires OpensFirst(trades) && (IsClosing(t) ==> t.id.Some? && t.id.value in Openings(trades))
    ensures OpensFirst(trades + [t])
  {
    assert (trades + [t])[..|trades|] == trades;
  }

  lemma LogSnoc(trades: seq<Trade>, t: Trade)
    ensures OpeningIds(trades + [t]) == OpeningIds(trades) + if IsOpening(t) then [t.id] else []
    ensures ClosingIds(trades + [t]) == ClosingIds(trades) + if IsClosing(t) then [t.id] else []
    ensures Openings(trades + [t]) == if IsOpening(t) && t.id.Some? then Openings(trades)[t.id.value := t] else Openings(trades)
    ensures Closings(trades + [t]) == if IsClosing(t) && t.id.Some? then Closings(trades)[t.id.value := t] else Closings(trades)
  {
    assert (trades + [t])[..|trades|] == trades;
  }

  lemma ListedIds(trades: seq<Trade>)
    requires IdsOk(trades)
    ensures forall q :: q in Openings(trades) ==> Some(q) in OpeningIds(trades)
    ensures forall q :: q in Closings(trades) ==> Some(q) in ClosingIds(trades)
  {}

  lemma ListedSnoc(ids: seq<Option<PositionId>>, m: TradeMap, q: PositionId, t: Trade)
    requires Listed(ids, m) && q !in m
    ensures Listed(ids + [Some(q)], m[q := t])
  {}

  /** A fresh opening, a first closing, or a row that is neither keeps the ids in order. */
  lemma IdsSnoc(trades: seq<Trade>, t: Trade)
    requires IdsOk(trades)
    requires IsOpening(t) ==> t.id.Some? && t.id.value !in Openings(trades)
    requires IsClosing(t) ==> t.id.Some? && t.id.value !in Closings(trades)
    ensures IdsOk(trades + [t])
  {
    hide NoDuplicates, Listed, OpeningIds, ClosingIds, Openings, Closings;
    LogSnoc(trades, t);
    ListedIds(trades);
    if IsOpening(t) {
      ListedSnoc(OpeningIds(trades), Openings(trades), t.id.value, t);
    } else {
      assert OpeningIds(trades) + [] == OpeningIds(trades);
    }
    if IsClosing(t) {
      ListedSnoc(ClosingIds(trades), Closings(trades), t.id.value, t);
    } else {
      assert ClosingIds(trades) + [] == ClosingIds(trades);
    }
  }

  // ----- rows -----

  /** A closure took the holding period plus its delays, and is flagged exactly when they exceed
      the maximum, which a fail-at-alert run never lets happen. */
  ghost predicate ExitSound(env: Env, t: Trade) {
    && t.holdingSessions == Some(env.holdingPeriod + t.delayed)
    && (t.breached <==> t.delayed > env.maxDelay)
    && (env.strict && !env.carryToCalendarEnd ==> t.delayed <= env.maxDelay)
  }

  ghost predicate TradeSound(env: Env, t: Trade) {
    && t.shares >= 0.0 && t.cost >= 0.0
    && (t.status == Filled ==> CostsReconcile(env, t))
    && (t.status != Filled ==> t.cost == 0.0 && t.gross == 0.0)
    && (IsOpening(t) ==> t.id == Some(PositionId(t.date, t.code)) && t.shares > 0.0 && !t.breached)
    && (IsClosing(t) ==> ExitSound(env, t))
    && (t.status == TerminalWriteoff ==> t.side == Sell)
  }

  lemma CalculatedCostsReconcile(env: Env, date: Date, p: PositionState, side: Side, price: real, gross: real,
      costs: TradeCosts, sessions: Option<int>)
    requires Calculate(env.costs, date, side, gross) == Ok(costs) && ValidPolicy(env.costs)
    requires gross == p.shares * price
    ensures CostsReconcile(env, FilledTrade(date, p, side, price, gross, costs, sessions))
    ensures costs.Total() >= 0.0
  {
    hide Charge, Resolve;
    EqualIsClose(costs.commission, CLOSE_RTOL, CLOSE_ATOL);
    EqualIsClose(costs.stampDuty, CLOSE_RTOL, CLOSE_ATOL);
    EqualIsClose(costs.transferFee, CLOSE_RTOL, CLOSE_ATOL);
    EqualIsClose(costs.slippage, CLOSE_RTOL, CLOSE_ATOL);
    EqualIsClose(costs.Total(), CLOSE_RTOL, CLOSE_ATOL);
    EqualIsClose(gross, CLOSE_RTOL, CLOSE_ATOL);
    ResolvedRatesAreValid(env.costs, date, side);
    ChargeIsNonNegative(Resolve(env.costs, date, side).value, gross);
  }

  lemma SaleIsSound(env: Env, p: PositionState, c: Code, i: nat, open: real, costs: TradeCosts)
    requires StrictlyIncreasing(env.calendar) && i < |env.calendar| && ValidPolicy(env.costs)
    requires Sound(env, p, c, i) && Timely(env, p, i - 1) && p.target <= env.calendar[i]
    requires Calculate(env.costs, env.calendar[i], Sell, Times(p.shares, open)) == Ok(costs)
    ensures TradeSound(env, FilledTrade(env.calendar[i], p, Sell, open, Times(p.shares, open), costs, Some(i - p.entryIndex)))
  {
    hide Calculate, CostsReconcile;
    TargetReached(env, p, c, i);
    CalculatedCostsReconcile(env, env.calendar[i], p, Sell, open, Times(p.shares, open), costs, Some(i - p.entryIndex));
  }

  lemma WriteoffIsSound(env: Env, p: PositionState, c: Code, i: nat)
    requires StrictlyIncreasing(env.calendar) && i < |env.calendar|
    requires Sound(env, p, c, i) && Timely(env, p, i - 1) && p.target <= env.calendar[i]
    ensures TradeSound(env, TerminalTrade(env.calendar[i], p, i - p.entryIndex))
  {
    TargetReached(env, p, c, i);
  }

  lemma BuyIsSound(env: Env, i: nat, code: Code, price: Price, gross: real, costs: TradeCosts)
    requires i + env.holdingPeriod < |env.calendar| && ValidPolicy(env.costs)
    requires price.open.Some? && price.open.value > 0.0 && gross / price.open.value > 0.0
    requires Calculate(env.costs, env.calendar[i], Buy, gross) == Ok(costs)
    ensures var p := NewPosition(env, i, code, price, gross / price.open.value);
            TradeSound(env, FilledTrade(env.calendar[i], p, Buy, price.open.value, gross, costs, None))
  {
    hide Calculate, CostsReconcile;
    var p := NewPosition(env, i, code, price, gross / price.open.value);
    assert gross == p.shares * price.open.value;
    CalculatedCostsReconcile(env, env.calendar[i], p, Buy, price.open.value, gross, costs, None);
  }
}
