/** The counters kept while the session loop runs equal what the auditor recounts from the
    tables, at every step. */
module CounterInvariant {
  import opened Basics
  import opened Costs
  import opened Ledgers
  import opened CorporateActions
  import opened Simulation
  import opened Auditor

  /** A position is flagged exactly when one of its rows is, and no delay exceeds the maximum kept. */
  ghost predicate FlagsOk(at: map<Code, PositionState>, trades: seq<Trade>, maxDelay: nat) {
    forall c :: c in at ==>
      (at[c].breached <==> Some(at[c].id) in BreachedIds(trades)) && at[c].delayed <= maxDelay
  }

  ghost predicate CountersOk(c: Counters, at: map<Code, PositionState>, trades: seq<Trade>, holdings: seq<Holding>, opens: TradeMap) {
    && c == Recount(trades, holdings)
    && FlagsOk(at, trades, c.maxDelay)
    && (forall x :: x in BreachedIds(trades) ==> x.Some? && x.value in opens)
  }

  lemma BreachedSnoc(trades: seq<Trade>, t: Trade)
    ensures BreachedIds(trades + [t]) == BreachedIds(trades) + if t.breached then {t.id} else {}
  {
    assert forall x :: x in trades + [t] <==> x in trades || x == t;
  }

  lemma RecountSnoc(trades: seq<Trade>, holdings: seq<Holding>, t: Trade)
    ensures var c, d := Recount(trades, holdings), Recount(trades + [t], holdings);
            && d.staleDays == c.staleDays && d.maxStale == c.maxStale
            && d.writeoffs == c.writeoffs + (if IsWriteoff(t) then 1 else 0)
            && d.delayedSells == c.delayedSells + (if IsDelayedSell(t) then 1 else 0)
            && d.breaches == c.breaches + (if t.breached && t.id !in BreachedIds(trades) then 1 else 0)
            && d.maxDelay == Max(c.maxDelay, t.delayed)
            && d.resolvedAfterBreach == c.resolvedAfterBreach + (if IsResolvedBreach(t) then 1 else 0)
  {
    CountSnoc(trades, t, IsWriteoff);
    CountSnoc(trades, t, IsDelayedSell);
    MaxOverSnoc(trades, t, DelayedDays);
    CountSnoc(trades, t, IsResolvedBreach);
    BreachedSnoc(trades, t);
    if t.breached && t.id in BreachedIds(trades) {
      assert BreachedIds(trades) + {t.id} == BreachedIds(trades);
    }
  }

  lemma RecountMarked(trades: seq<Trade>, holdings: seq<Holding>, h: Holding)
    ensures var c, d := Recount(trades, holdings), Recount(trades, holdings + [h]);
            d == c.(staleDays := c.staleDays + (if IsStale(h) then 1 else 0), maxStale := Max(c.maxStale, h.staleDays))
  {
    CountSnoc(holdings, h, IsStale);
    MaxOverSnoc(holdings, h, StaleDays);
  }

  /** One more missed exit: counted once, and its breach counted only the first time. */
  lemma DelayKeepsCounters(env: Env, st: State, i: nat, code: Code, opens: TradeMap)
    requires i < |env.calendar| && code in st.book.at && DistinctIds(st.book)
    requires CountersOk(st.counters, st.book.at, st.trades, st.holdings, opens)
    requires st.book.at[code].breached <==> st.book.at[code].delayed > env.maxDelay
    requires st.book.at[code].id in opens
    ensures var after := Delay(env, st, i, code);
            CountersOk(after.counters, after.book.at, after.trades, after.holdings, opens)
  {
    hide Recount, BreachedIds;
    var q := DelayedOnce(env, st.book.at[code]);
    var t := RejectedTrade(env.calendar[i], code, Sell, NotSellable, Some(q.id), q.delayed, q.breached);
    RecountSnoc(st.trades, st.holdings, t);
    BreachedSnoc(st.trades, t);
  }

  /** A closing row carries the flags of the position it closes. */
  lemma CloseKeepsCounters(st: State, code: Code, t: Trade, opens: TradeMap)
    requires code in st.book.at && DistinctIds(st.book)
    requires CountersOk(st.counters, st.book.at, st.trades, st.holdings, opens)
    requires IsClosing(t) && t.id == Some(st.book.at[code].id)
    requires t.delayed == st.book.at[code].delayed && t.breached == st.book.at[code].breached
    ensures CountersOk(Resolved(st.counters, st.book.at[code]).(writeoffs := st.counters.writeoffs + if IsWriteoff(t) then 1 else 0),
                       st.book.at - {code}, st.trades + [t], st.holdings, opens)
  {
    hide Recount, BreachedIds;
    RecountSnoc(st.trades, st.holdings, t);
    BreachedSnoc(st.trades, t);
  }

  lemma RejectKeepsCounters(c: Counters, at: map<Code, PositionState>, trades: seq<Trade>, holdings: seq<Holding>, opens: TradeMap, t: Trade)
    requires CountersOk(c, at, trades, holdings, opens)
    requires t.status == Rejected && t.side == Buy && !t.breached && t.delayed == 0
    ensures CountersOk(c, at, trades + [t], holdings, opens)
  {
    hide Recount, BreachedIds;
    RecountSnoc(trades, holdings, t);
    BreachedSnoc(trades, t);
  }

  lemma BuyKeepsCounters(c: Counters, at: map<Code, PositionState>, trades: seq<Trade>, holdings: seq<Holding>, opens: TradeMap,
      code: Code, p: PositionState, t: Trade)
    requires CountersOk(c, at, trades, holdings, opens)
    requires p.id !in opens && !p.breached && p.delayed == 0
    requires IsOpening(t) && !t.breached && t.delayed == 0
    ensures CountersOk(c, at[code := p], trades + [t], holdings, opens[p.id := t])
  {
    hide Recount, BreachedIds;
    RecountSnoc(trades, holdings, t);
    BreachedSnoc(trades, t);
  }

  lemma MarkKeepsCounters(c: Counters, at: map<Code, PositionState>, trades: seq<Trade>, holdings: seq<Holding>, opens: TradeMap,
      code: Code, q: PositionState, h: Holding)
    requires CountersOk(c, at, trades, holdings, opens)
    requires code in at && q.id == at[code].id && q.breached == at[code].breached && q.delayed == at[code].delayed
    requires h.valuation == q.valuation && h.staleDays == q.staleDays
    requires q.staleDays == 0 <==> q.valuation == Current
    ensures CountersOk(if q.valuation == Current then c
                       else c.(staleDays := c.staleDays + 1, maxStale := Max(c.maxStale, q.staleDays)),
                       at[code := q], trades, holdings + [h], opens)
  {
    hide Recount, BreachedIds;
    RecountMarked(trades, holdings, h);
  }

  predicate SameFlags(p: PositionState, q: PositionState) {
    p.id == q.id && p.breached == q.breached && p.delayed == q.delayed
  }

  /** Renaming positions keeps their flags. */
  lemma MigrationKeepsCounters(c: Counters, at: map<Code, PositionState>, after: map<Code, PositionState>,
      trades: seq<Trade>, holdings: seq<Holding>, opens: TradeMap)
    requires CountersOk(c, at, trades, holdings, opens)
    requires forall d :: d in after ==> exists k :: k in at && SameFlags(at[k], after[d])
    ensures CountersOk(c, after, trades, holdings, opens)
  {}
}
