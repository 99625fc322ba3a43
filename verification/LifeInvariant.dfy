/** The ledgers explain every position at every step: live positions have gap-free rows and a
    replay that ends at their own shares and code; closed ones are accepted by the auditor. */
module LifeInvariant {
  import opened Basics
  import opened Ledgers
  import opened CorporateActions
  import opened Simulation
  import opened Auditor
  import opened History
  import opened BookInvariant
  import opened Marks

  type Positions = map<Code, PositionState>

  function MarkedThrough(c: Code, unmarked: set<Code>, i: int): int {
    if c in unmarked then i - 1 else i
  }

  ghost predicate LiveIn(env: Env, p: PositionState, opens: TradeMap, closes: TradeMap,
      holdings: seq<Holding>, actions: seq<Action>, marked: int, bound: Date)
  {
    && p.id in opens && p.id !in closes
    && opens[p.id].shares > 0.0
    && LiveRows(env, p, opens[p.id], Own(holdings, HoldingId, p.id), Own(actions, ActionId, p.id), marked, bound)
  }

  /** The ledgers of a closed position: a row for every session held, and accepted by the auditor
      exactly when the bought code had not already been renamed. */
  ghost predicate ClosedRows(env: Env, buy: Trade, close: Trade, rows: seq<Holding>, acts: seq<Action>) {
    && rows != [] && HoldingDates(rows) == Between(env.calendar, buy.date, close.date)
    && (HistoryAccepted(env, buy, close, rows, acts) <==> !RenamedAtEntry(env.Transitions(), buy))
    && buy.date <= close.date && Ordered(acts, close.date) && close.shares == HeldShares(buy, acts)
    && (ActedEarly(buy, acts) <==> RenamedBeforeEntry(env.Transitions(), buy))
    && (forall k :: 0 <= k < |rows| ==> RowMarked(env, buy, rows, acts, k))
  }

  ghost predicate ClosedIn(env: Env, q: PositionId, opens: TradeMap, closes: TradeMap,
      holdings: seq<Holding>, actions: seq<Action>)
  {
    && q in closes && q in opens
    && opens[q].shares > 0.0
    && ClosedRows(env, opens[q], closes[q], Own(holdings, HoldingId, q), Own(actions, ActionId, q))
  }

  ghost predicate IsHeld(at: Positions, q: PositionId) {
    exists c :: c in at && at[c].id == q
  }

  /** At session i every open position is live, every closed one accepted, and no row belongs to
      anything else; the codes in unmarked have not been valued at session i yet. */
  ghost predicate Lives(env: Env, at: Positions, opens: TradeMap, closes: TradeMap,
      holdings: seq<Holding>, actions: seq<Action>, i: int, unmarked: set<Code>, bound: Date)
  {
    && (forall c :: c in at ==> LiveIn(env, at[c], opens, closes, holdings, actions, MarkedThrough(c, unmarked, i), bound))
    && (forall q :: q in closes ==> ClosedIn(env, q, opens, closes, holdings, actions))
    && (forall q :: q in opens ==> q in closes || IsHeld(at, q))
    && (forall h :: h in holdings ==> h.id in opens)
    && (forall a :: a in actions ==> a.id in opens)
  }

  ghost predicate DistinctPositions(at: Positions) {
    forall c, d :: c in at && d in at && at[c].id == at[d].id ==> c == d
  }

  // ----- corporate actions -----

  lemma MoveKeepsLive(env: Env, book: Book, c: Code, date: Date, opens: TradeMap, closes: TradeMap,
      holdings: seq<Holding>, actions: seq<Action>, marked: int, bound: Date)
    requires Keyed(book) && DistinctIds(book) && c in book.at && bound < date
    requires ApplyEffective(env.Transitions(), book, date).Ok?
    requires StrictlyIncreasing(env.calendar) && 0 <= marked + 1 < |env.calendar| && env.calendar[marked + 1] == date
    requires DueOnlyAtEntry(env.Transitions(), book.at[c], bound)
    requires LiveIn(env, book.at[c], opens, closes, holdings, actions, marked, bound)
    ensures Fate(env.Transitions(), book, date, c).Ok?
    ensures var p := Fate(env.Transitions(), book, date, c).value.position;
            LiveIn(env, p, opens, closes, holdings,
                   actions + ApplyEffective(env.Transitions(), book, date).value.rows, marked, date)
            && p.id == book.at[c].id
  {
    hide Fate, ApplyEffective, LiveRows;
    var ts := env.Transitions();
    ByPredecessorIsIndexed(env.transitions);
    MigrationRows(ts, book, date);
    FateIsFaithful(ts, book, date, c);
    var p, m, chain := book.at[c], Fate(ts, book, date, c).value, ChainOf(ts, c, date).value;
    OwnConcat(actions, ApplyEffective(ts, book, date).value.rows, ActionId, p.id);
    MoveContinues(env, p, chain, m, opens[p.id], Own(holdings, HoldingId, p.id), Own(actions, ActionId, p.id), marked, bound, date);
  }

  lemma MoveKeepsClosed(env: Env, book: Book, q: PositionId, date: Date, opens: TradeMap, closes: TradeMap,
      holdings: seq<Holding>, actions: seq<Action>)
    requires Keyed(book) && DistinctIds(book)
    requires ApplyEffective(env.Transitions(), book, date).Ok?
    requires forall c :: c in book.at ==> book.at[c].id != q
    requires ClosedIn(env, q, opens, closes, holdings, actions)
    ensures ClosedIn(env, q, opens, closes, holdings, actions + ApplyEffective(env.Transitions(), book, date).value.rows)
  {
    hide ApplyEffective, ClosedRows;
    RowsOfStranger(env.Transitions(), book, date, q);
    OwnConcat(actions, ApplyEffective(env.Transitions(), book, date).value.rows, ActionId, q);
    assert Own(actions, ActionId, q) + [] == Own(actions, ActionId, q);
  }

  /** Before the actions of a session: everything live up to the session before. */
  ghost predicate BeforeActions(env: Env, st: State, opens: TradeMap, closes: TradeMap, i: nat, bound: Date) {
    && StrictlyIncreasing(env.calendar) && i < |env.calendar| && bound < env.calendar[i]
    && Keyed(st.book) && DistinctIds(st.book) && Undue(env, st.book, bound)
    && Lives(env, st.book.at, opens, closes, st.holdings, st.actions, i - 1, {}, bound)
    && ApplyEffective(env.Transitions(), st.book, env.calendar[i]).Ok?
  }

  function RowsOf(env: Env, st: State, i: nat): seq<Action>
    requires i < |env.calendar|
    requires ApplyEffective(env.Transitions(), st.book, env.calendar[i]).Ok?
  {
    ApplyEffective(env.Transitions(), st.book, env.calendar[i]).value.rows
  }

  function BookAfter(env: Env, st: State, i: nat): Positions
    requires i < |env.calendar|
    requires ApplyEffective(env.Transitions(), st.book, env.calendar[i]).Ok?
  {
    ApplyEffective(env.Transitions(), st.book, env.calendar[i]).value.book.at
  }

  lemma MovedAreLive(env: Env, st: State, opens: TradeMap, closes: TradeMap, i: nat, bound: Date)
    requires BeforeActions(env, st, opens, closes, i, bound)
    ensures forall d :: d in BookAfter(env, st, i) ==>
              LiveIn(env, BookAfter(env, st, i)[d], opens, closes, st.holdings, st.actions + RowsOf(env, st, i), i - 1, env.calendar[i])
  {
    hide LiveIn, ClosedIn, Fate, ApplyEffective, Dict.Valid, DistinctIds, Keyed;
    var ts, date := env.Transitions(), env.calendar[i];
    MigrationRelocates(ts, st.book, date);
    forall d | d in BookAfter(env, st, i)
      ensures LiveIn(env, BookAfter(env, st, i)[d], opens, closes, st.holdings, st.actions + RowsOf(env, st, i), i - 1, date)
    {
      var c :| c in st.book.at && Fate(ts, st.book, date, c).value.position == BookAfter(env, st, i)[d];
      MoveKeepsLive(env, st.book, c, date, opens, closes, st.holdings, st.actions, i - 1, bound);
    }
  }

  lemma ClosedStayClosed(env: Env, st: State, opens: TradeMap, closes: TradeMap, i: nat, bound: Date)
    requires BeforeActions(env, st, opens, closes, i, bound)
    ensures forall q :: q in closes ==> ClosedIn(env, q, opens, closes, st.holdings, st.actions + RowsOf(env, st, i))
  {
    hide LiveIn, ClosedIn, ApplyEffective, Dict.Valid, DistinctIds, Keyed;
    forall q | q in closes
      ensures ClosedIn(env, q, opens, closes, st.holdings, st.actions + RowsOf(env, st, i))
    {
      forall c | c in st.book.at
        ensures st.book.at[c].id != q
      {
        LiveIsOpen(env, st.book.at[c], opens, closes, st.holdings, st.actions, i - 1, bound);
      }
      MoveKeepsClosed(env, st.book, q, env.calendar[i], opens, closes, st.holdings, st.actions);
    }
  }

  lemma OpensStayOpen(env: Env, st: State, opens: TradeMap, closes: TradeMap, i: nat, bound: Date)
    requires BeforeActions(env, st, opens, closes, i, bound)
    ensures forall q :: q in opens ==> q in closes || IsHeld(BookAfter(env, st, i), q)
  {
    hide LiveIn, ClosedIn, Fate, ApplyEffective, Dict.Valid, DistinctIds, Keyed;
    var ts, date := env.Transitions(), env.calendar[i];
    MigrationRelocates(ts, st.book, date);
    forall q | q in opens && q !in closes
      ensures IsHeld(BookAfter(env, st, i), q)
    {
      var c :| c in st.book.at && st.book.at[c].id == q;
      MoveKeepsLive(env, st.book, c, date, opens, closes, st.holdings, st.actions, i - 1, bound);
      var p := Fate(ts, st.book, date, c).value.position;
      assert p.code in BookAfter(env, st, i) && BookAfter(env, st, i)[p.code].id == q;
    }
  }

  lemma ActionsAreOpen(env: Env, st: State, opens: TradeMap, closes: TradeMap, i: nat, bound: Date)
    requires BeforeActions(env, st, opens, closes, i, bound)
    ensures forall a :: a in st.actions + RowsOf(env, st, i) ==> a.id in opens
  {
    hide LiveIn, ClosedIn, ApplyEffective, Dict.Valid, DistinctIds, Keyed;
    forall a | a in RowsOf(env, st, i)
      ensures a.id in opens
    {
      RowBelongsToHeld(env, st.book, env.calendar[i], a);
      var c :| c in st.book.at && st.book.at[c].id == a.id;
      LiveIsOpen(env, st.book.at[c], opens, closes, st.holdings, st.actions, i - 1, bound);
    }
  }

  /** The migration of a session, seen from the ledgers. */
  lemma MigrationKeepsLives(env: Env, st: State, opens: TradeMap, closes: TradeMap, i: nat, bound: Date)
    requires StrictlyIncreasing(env.calendar) && i < |env.calendar| && bound < env.calendar[i]
    requires Keyed(st.book) && DistinctIds(st.book) && Undue(env, st.book, bound)
    requires Lives(env, st.book.at, opens, closes, st.holdings, st.actions, i - 1, {}, bound)
    requires ActOn(env, st, env.calendar[i]).Ok?
    ensures ApplyEffective(env.Transitions(), st.book, env.calendar[i]).Ok?
    ensures var after := ActOn(env, st, env.calendar[i]).value;
            Lives(env, after.book.at, opens, closes, after.holdings, after.actions, i, after.book.at.Keys, env.calendar[i])
  {
    hide LiveIn, ClosedIn, ApplyEffective, Dict.Valid, DistinctIds, IsHeld, Undue, Keyed;
    MovedAreLive(env, st, opens, closes, i, bound);
    ClosedStayClosed(env, st, opens, closes, i, bound);
    OpensStayOpen(env, st, opens, closes, i, bound);
    ActionsAreOpen(env, st, opens, closes, i, bound);
    var after := ActOn(env, st, env.calendar[i]).value;
    assert after.book.at == BookAfter(env, st, i) && after.actions == st.actions + RowsOf(env, st, i);
    forall c | c in after.book.at
      ensures LiveIn(env, after.book.at[c], opens, closes, after.holdings, after.actions, MarkedThrough(c, after.book.at.Keys, i), env.calendar[i])
    {}
  }

  lemma LiveIsOpen(env: Env, p: PositionState, opens: TradeMap, closes: TradeMap,
      holdings: seq<Holding>, actions: seq<Action>, marked: int, bound: Date)
    requires LiveIn(env, p, opens, closes, holdings, actions, marked, bound)
    ensures p.id in opens && p.id !in closes
  {}

  lemma RowBelongsToHeld(env: Env, book: Book, date: Date, a: Action)
    requires Keyed(book) && DistinctIds(book)
    requires ApplyEffective(env.Transitions(), book, date).Ok?
    requires a in ApplyEffective(env.Transitions(), book, date).value.rows
    ensures exists c :: c in book.at && book.at[c].id == a.id
  {
    hide ApplyEffective;
    if forall c :: c in book.at ==> book.at[c].id != a.id {
      RowsOfStranger(env.Transitions(), book, date, a.id);
      OwnMember(ApplyEffective(env.Transitions(), book, date).value.rows, ActionId, a.id, a);
    }
  }

  // ----- exits -----

  /** A delayed position keeps its rows. */
  lemma DelayKeepsLives(env: Env, at: Positions, opens: TradeMap, closes: TradeMap, holdings: seq<Holding>,
      actions: seq<Action>, i: int, unmarked: set<Code>, bound: Date, code: Code, q: PositionState)
    requires Lives(env, at, opens, closes, holdings, actions, i, unmarked, bound)
    requires code in at && q == at[code].(delayed := q.delayed, breached := q.breached)
    ensures Lives(env, at[code := q], opens, closes, holdings, actions, i, unmarked, bound)
  {
    hide LiveRows, ClosedIn;
    var after := at[code := q];
    assert LiveIn(env, q, opens, closes, holdings, actions, MarkedThrough(code, unmarked, i), bound) by {
      assert LiveIn(env, at[code], opens, closes, holdings, actions, MarkedThrough(code, unmarked, i), bound);
      LiveRowsIgnoreDelay(env, at[code], q, opens[q.id], Own(holdings, HoldingId, q.id), Own(actions, ActionId, q.id),
                          MarkedThrough(code, unmarked, i), bound);
    }
    HeldAfterUpdate(at, code, q);
  }

  lemma HeldAfterUpdate(at: Positions, code: Code, q: PositionState)
    requires code in at && q.id == at[code].id
    ensures forall x :: IsHeld(at, x) ==> IsHeld(at[code := q], x)
  {
    forall x | IsHeld(at, x)
      ensures IsHeld(at[code := q], x)
    {
      var c :| c in at && at[c].id == x;
      assert c in at[code := q] && at[code := q][c].id == x;
    }
  }

  lemma LiveRowsAreMarked(env: Env, p: PositionState, buy: Trade, rows: seq<Holding>, acts: seq<Action>, marked: int, bound: Date)
    requires LiveRows(env, p, buy, rows, acts, marked, bound)
    ensures forall k :: 0 <= k < |rows| ==> RowMarked(env, buy, rows, acts, k)
  {
    hide RowMarked, Followed, Overtaken, Rows, Ordered, HeldShares, Carries;
  }

  lemma CloseIsRecorded(env: Env, p: PositionState, buy: Trade, close: Trade, rows: seq<Holding>, acts: seq<Action>, i: nat)
    requires StrictlyIncreasing(env.calendar) && i < |env.calendar|
    requires LiveRows(env, p, buy, rows, acts, i - 1, env.calendar[i])
    requires p.entryIndex < i && p.entryIndex + env.holdingPeriod < |env.calendar|
    requires p.target == env.calendar[p.entryIndex + env.holdingPeriod]
    requires close.date == env.calendar[i] && close.code == p.code && close.shares == p.shares
    ensures ClosedRows(env, buy, close, rows, acts)
  {
    hide LiveRows, HistoryAccepted, Between, RowMarked;
    LiveRowsAreMarked(env, p, buy, rows, acts, i - 1, env.calendar[i]);
    ClosureIsAcceptedIff(env, p, buy, close, rows, acts, i);
  }

  /** A closure with the position's own shares and code turns a live position into an accepted one. */
  lemma CloseKeepsLives(env: Env, at: Positions, opens: TradeMap, closes: TradeMap, holdings: seq<Holding>,
      actions: seq<Action>, i: nat, unmarked: set<Code>, code: Code, close: Trade)
    requires StrictlyIncreasing(env.calendar) && i < |env.calendar|
    requires Lives(env, at, opens, closes, holdings, actions, i, unmarked, env.calendar[i])
    requires DistinctPositions(at) && code in at && code in unmarked
    requires Sound(env, at[code], code, i) && at[code].target <= env.calendar[i] && env.holdingPeriod >= 1
    requires close.date == env.calendar[i] && close.code == at[code].code && close.shares == at[code].shares
    ensures Lives(env, at - {code}, opens, closes[at[code].id := close], holdings, actions, i, unmarked, env.calendar[i])
  {
    hide ClosedRows, LiveRows;
    var p, bound := at[code], env.calendar[i];
    var after, closed := at - {code}, closes[p.id := close];
    assert LiveIn(env, p, opens, closes, holdings, actions, i - 1, bound);
    TargetReached(env, p, code, i);
    assert ClosedRows(env, opens[p.id], close, Own(holdings, HoldingId, p.id), Own(actions, ActionId, p.id)) by {
      CloseIsRecorded(env, p, opens[p.id], close, Own(holdings, HoldingId, p.id), Own(actions, ActionId, p.id), i);
    }
    forall c | c in after
      ensures LiveIn(env, after[c], opens, closed, holdings, actions, MarkedThrough(c, unmarked, i), bound)
    {
      assert LiveIn(env, at[c], opens, closes, holdings, actions, MarkedThrough(c, unmarked, i), bound);
    }
    forall q | q in closed
      ensures ClosedIn(env, q, opens, closed, holdings, actions)
    {
      if q != p.id {
        assert ClosedIn(env, q, opens, closes, holdings, actions);
      }
    }
    forall q | q in opens && q !in closed
      ensures IsHeld(after, q)
    {
      var c :| c in at && at[c].id == q;
      assert c in after;
    }
  }

  // ----- entries -----

  lemma BuyKeepsClosed(env: Env, opens: TradeMap, closes: TradeMap, holdings: seq<Holding>, actions: seq<Action>, id: PositionId, buy: Trade)
    requires id !in opens && forall q :: q in closes ==> ClosedIn(env, q, opens, closes, holdings, actions)
    ensures id !in closes && forall q :: q in closes ==> ClosedIn(env, q, opens[id := buy], closes, holdings, actions)
  {
    hide ClosedRows;
    assert id in closes ==> ClosedIn(env, id, opens, closes, holdings, actions);
    forall q | q in closes
      ensures ClosedIn(env, q, opens[id := buy], closes, holdings, actions)
    {
      assert ClosedIn(env, q, opens, closes, holdings, actions);
    }
  }

  /** A buy with a fresh id starts a life without rows. */
  lemma BuyKeepsLives(env: Env, at: Positions, opens: TradeMap, closes: TradeMap, holdings: seq<Holding>,
      actions: seq<Action>, i: nat, unmarked: set<Code>, code: Code, p: PositionState, buy: Trade)
    requires i < |env.calendar|
    requires Lives(env, at, opens, closes, holdings, actions, i, unmarked, env.calendar[i])
    requires code !in at && p.id !in opens && Sound(env, p, code, i) && p.entryIndex == i && p.original == p.code
    requires buy.date == env.calendar[i] && buy.code == code && buy.shares == p.shares
    requires EntryClose(env, buy, p.lastClose) && p.lastPriceDate == buy.date && p.staleDays == 0
    ensures Lives(env, at[code := p], opens[p.id := buy], closes, holdings, actions, i, unmarked + {code}, env.calendar[i])
  {
    hide LiveRows, ClosedRows, ClosedIn, EntryClose, IsHeld;
    var after, opened', marks, bound := at[code := p], opens[p.id := buy], unmarked + {code}, env.calendar[i];
    OwnNone(holdings, HoldingId, p.id);
    OwnNone(actions, ActionId, p.id);
    NewPositionIsLive(env, p, buy);
    assert p.id !in closes && forall q :: q in closes ==> ClosedIn(env, q, opened', closes, holdings, actions) by {
      BuyKeepsClosed(env, opens, closes, holdings, actions, p.id, buy);
    }
    forall c | c in after
      ensures LiveIn(env, after[c], opened', closes, holdings, actions, MarkedThrough(c, marks, i), bound)
    {
      if c != code {
        assert LiveIn(env, at[c], opens, closes, holdings, actions, MarkedThrough(c, unmarked, i), bound);
      }
    }
    HeldAfterBuy(at, opens, closes, code, p, buy);
  }

  lemma HeldAfterBuy(at: Positions, opens: TradeMap, closes: TradeMap, code: Code, p: PositionState, buy: Trade)
    requires code !in at && forall q :: q in opens ==> q in closes || IsHeld(at, q)
    ensures forall q :: q in opens[p.id := buy] ==> q in closes || IsHeld(at[code := p], q)
  {
    var after := at[code := p];
    forall q | q in opens[p.id := buy] && q !in closes
      ensures IsHeld(after, q)
    {
      if q == p.id {
        assert code in after && after[code].id == q;
      } else {
        var c :| c in at && at[c].id == q;
        assert c in after && after[c].id == q;
      }
    }
  }

  // ----- marks -----

  lemma LiveIgnoresRow(env: Env, p: PositionState, opens: TradeMap, closes: TradeMap, holdings: seq<Holding>,
      row: Holding, actions: seq<Action>, marked: int, bound: Date)
    requires LiveIn(env, p, opens, closes, holdings, actions, marked, bound) && row.id != p.id
    ensures LiveIn(env, p, opens, closes, holdings + [row], actions, marked, bound)
  {
    hide LiveRows;
    OwnSnoc(holdings, row, HoldingId, p.id);
  }

  lemma ClosedIgnoresRow(env: Env, q: PositionId, opens: TradeMap, closes: TradeMap, holdings: seq<Holding>,
      row: Holding, actions: seq<Action>)
    requires ClosedIn(env, q, opens, closes, holdings, actions) && row.id != q
    ensures ClosedIn(env, q, opens, closes, holdings + [row], actions)
  {
    hide ClosedRows;
    OwnSnoc(holdings, row, HoldingId, q);
  }

  lemma MarkedIsLive(env: Env, p: PositionState, q: PositionState, opens: TradeMap, closes: TradeMap,
      holdings: seq<Holding>, actions: seq<Action>, i: nat)
    requires i < |env.calendar|
    requires LiveIn(env, p, opens, closes, holdings, actions, i - 1, env.calendar[i])
    requires MarksTo(env, p, q, env.calendar[i])
    ensures LiveIn(env, q, opens, closes, holdings + [HoldingRow(env.calendar[i], q)], actions, i, env.calendar[i])
  {
    hide LiveRows;
    MarkContinues(env, p, q, opens[q.id], Own(holdings, HoldingId, q.id), Own(actions, ActionId, q.id), i);
    OwnSnoc(holdings, HoldingRow(env.calendar[i], q), HoldingId, q.id);
  }

  /** The mark of a session appends one row to the life of its position and to no other. */
  lemma MarkKeepsLives(env: Env, at: Positions, opens: TradeMap, closes: TradeMap, holdings: seq<Holding>,
      actions: seq<Action>, i: nat, unmarked: set<Code>, code: Code, q: PositionState)
    requires i < |env.calendar|
    requires Lives(env, at, opens, closes, holdings, actions, i, unmarked, env.calendar[i])
    requires DistinctPositions(at) && code in at && code in unmarked
    requires MarksTo(env, at[code], q, env.calendar[i])
    ensures Lives(env, at[code := q], opens, closes, holdings + [HoldingRow(env.calendar[i], q)], actions, i, unmarked - {code}, env.calendar[i])
  {
    hide LiveIn, ClosedIn, IsHeld;
    var after, bound, row := at[code := q], env.calendar[i], HoldingRow(env.calendar[i], q);
    LiveIsOpen(env, at[code], opens, closes, holdings, actions, i - 1, bound);
    MarkedIsLive(env, at[code], q, opens, closes, holdings, actions, i);
    forall c | c in after && c != code
      ensures LiveIn(env, after[c], opens, closes, holdings + [row], actions, MarkedThrough(c, unmarked - {code}, i), bound)
    {
      LiveIgnoresRow(env, at[c], opens, closes, holdings, row, actions, MarkedThrough(c, unmarked, i), bound);
    }
    forall x | x in closes
      ensures ClosedIn(env, x, opens, closes, holdings + [row], actions)
    {
      ClosedIgnoresRow(env, x, opens, closes, holdings, row, actions);
    }
    HeldAfterUpdate(at, code, q);
  }
}
