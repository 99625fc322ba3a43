/** What holds of every open position at every step of every session: identity, entry data,
    shares, staleness, and the count of delayed exit days. */
module BookInvariant {
  import opened Basics
  import opened Costs
  import opened Ledgers
  import opened CorporateActions
  import opened Simulation
  import opened History

  /** What the inputs of a governed run guarantee. */
  ghost predicate Governed(env: Env) {
    && env.calendar != []
    && StrictlyIncreasing(env.calendar)
    && ValidPolicy(env.costs)
    && env.initialCash > 0.0
    && env.holdingPeriod >= 1
    && (forall d :: d in env.entries ==> NoDuplicates(env.entries[d]))
  }

  /** Every entry date is the session after one of the signal sessions. */
  ghost predicate EntriesFollowSignals(env: Env) {
    forall d :: d in env.entries ==> exists i :: First(env) < i < |env.calendar| && env.calendar[i] == d
  }

  /** No selected code has already been renamed by its entry date. */
  ghost predicate EntriesPrecedeTransitions(env: Env) {
    forall d, c :: d in env.entries && c in env.entries[d] ==> !Due(env.Transitions(), c, d)
  }

  /** The number of exits missed by a position that survived the exits of a session. */
  function Lateness(env: Env, p: PositionState, session: int): int {
    if session >= p.entryIndex + env.holdingPeriod then session - (p.entryIndex + env.holdingPeriod) + 1 else 0
  }

  ghost predicate Sound(env: Env, p: PositionState, c: Code, i: int) {
    && p.code == c
    && p.id == PositionId(p.entryDate, p.original)
    && First(env) <= p.entryIndex <= i < |env.calendar|
    && env.calendar[p.entryIndex] == p.entryDate
    && p.entryIndex + env.holdingPeriod < |env.calendar|
    && p.target == env.calendar[p.entryIndex + env.holdingPeriod]
    && p.shares > 0.0
    && p.lastPriceDate <= env.calendar[i]
    && (p.staleDays == 0 <==> p.valuation == Current)
  }

  /** Delay bookkeeping, given the last session whose exits the position went through. */
  ghost predicate Timely(env: Env, p: PositionState, session: int) {
    && p.delayed == Lateness(env, p, session)
    && (p.breached <==> p.delayed > env.maxDelay)
    && (env.strict && !env.carryToCalendarEnd ==> !p.breached)
  }

  /** The book at session i, where the exits of the codes in due are still to be decided. */
  ghost predicate BookOk(env: Env, book: Book, i: int, due: set<Code>) {
    && book.Valid()
    && DistinctIds(book)
    && (forall c :: c in book.at ==> Sound(env, book.at[c], c, i) && Timely(env, book.at[c], if c in due then i - 1 else i))
  }

  /** No position is due for a renaming, unless it was bought on the very date. */
  ghost predicate Undue(env: Env, book: Book, date: Date) {
    forall c :: c in book.at ==> DueOnlyAtEntry(env.Transitions(), book.at[c], date)
  }

  /** A date before session i and not before any earlier session. */
  function Before(env: Env, i: nat): Date
    requires i <= |env.calendar| && env.calendar != []
  {
    if i > 0 then env.calendar[i - 1] else env.calendar[0] - 1
  }

  lemma BookIsKeyed(env: Env, book: Book, i: int, due: set<Code>)
    requires BookOk(env, book, i, due)
    ensures Keyed(book)
  {}

  // ----- corporate actions -----

  lemma MovedIsSound(env: Env, p: PositionState, chain: seq<Transition>, m: Moved, c: Code, i: nat)
    requires StrictlyIncreasing(env.calendar) && i < |env.calendar|
    requires Sound(env, p, c, i - 1) && Timely(env, p, i - 1)
    requires FaithfulMove(p, chain, |chain|, m)
    ensures Sound(env, m.position, m.position.code, i) && Timely(env, m.position, i - 1)
    ensures m.position.id == p.id
  {}

  /** The migration of session i leaves a sound book in which nothing is due any more. */
  lemma MigrationKeepsBook(env: Env, st: State, i: nat)
    requires StrictlyIncreasing(env.calendar) && i < |env.calendar|
    requires BookOk(env, st.book, i - 1, {})
    requires ActOn(env, st, env.calendar[i]).Ok?
    ensures var after := ActOn(env, st, env.calendar[i]).value.book;
            BookOk(env, after, i, after.at.Keys) && Undue(env, after, env.calendar[i])
  {
    hide Sound, Timely, Fate, ApplyEffective, Dict.Valid;
    var ts, date := env.Transitions(), env.calendar[i];
    var after := ActOn(env, st, date).value.book;
    assert after == ApplyEffective(ts, st.book, date).value.book;
    assert Keyed(st.book) by { BookIsKeyed(env, st.book, i - 1, {}); }
    MigrationRelocates(ts, st.book, date);
    forall d | d in after.at
      ensures Sound(env, after.at[d], d, i) && Timely(env, after.at[d], i - 1) && !Due(ts, d, date)
    {
      var c :| c in st.book.at && Fate(ts, st.book, date, c).value.position == after.at[d] && after.at[d].code == d;
      FateIsFaithful(ts, st.book, date, c);
      MovedIsSound(env, st.book.at[c], ChainOf(ts, c, date).value, Fate(ts, st.book, date, c).value, c, i);
    }
    forall d, e | d in after.at && e in after.at && after.at[d].id == after.at[e].id
      ensures d == e
    {
      var c :| c in st.book.at && Fate(ts, st.book, date, c).value.position == after.at[d] && after.at[d].code == d;
      var b :| b in st.book.at && Fate(ts, st.book, date, b).value.position == after.at[e] && after.at[e].code == e;
      FateIsFaithful(ts, st.book, date, c);
      FateIsFaithful(ts, st.book, date, b);
    }
  }

  // ----- exits -----

  lemma TargetReached(env: Env, p: PositionState, c: Code, i: nat)
    requires StrictlyIncreasing(env.calendar) && i < |env.calendar| && Sound(env, p, c, i)
    ensures env.calendar[i] < p.target <==> i < p.entryIndex + env.holdingPeriod
  {}

  /** Exits that change nothing, that delay once more, or that close. */
  ghost predicate Waits(env: Env, st: State, i: nat, code: Code, after: State)
    requires i < |env.calendar|
  {
    code in st.book.at && env.calendar[i] < st.book.at[code].target && after == st
  }

  ghost predicate IsDelayed(env: Env, st: State, i: nat, code: Code, after: State)
    requires i < |env.calendar|
  {
    && code in st.book.at && env.calendar[i] >= st.book.at[code].target
    && after == Delay(env, st, i, code)
    && (env.strict && !env.carryToCalendarEnd ==> !DelayedOnce(env, st.book.at[code]).breached)
  }

  ghost predicate IsWrittenOff(env: Env, st: State, i: nat, code: Code, after: State)
    requires i < |env.calendar|
  {
    && code in st.book.at && env.calendar[i] >= st.book.at[code].target
    && after == WriteOff(env, st, i, code)
  }

  ghost predicate IsSold(env: Env, st: State, i: nat, code: Code, open: real, costs: TradeCosts, after: State)
    requires i < |env.calendar|
  {
    && code in st.book.at && env.calendar[i] >= st.book.at[code].target
    && open > 0.0
    && Calculate(env.costs, env.calendar[i], Sell, Times(st.book.at[code].shares, open)) == Ok(costs)
    && after == SellAt(env, st, i, code, open, costs)
  }

  lemma SellStepCases(env: Env, st: State, i: nat, code: Code) returns (open: real, costs: TradeCosts)
    requires i < |env.calendar| && SellStep(env, st, i, code).Ok?
    ensures var after := SellStep(env, st, i, code).value;
            || Waits(env, st, i, code, after)
            || IsDelayed(env, st, i, code, after)
            || IsWrittenOff(env, st, i, code, after)
            || IsSold(env, st, i, code, open, costs, after)
  {
    hide Calculate, Delay, WriteOff, SellAt;
    open, costs := 0.0, NoCosts;
    var price := env.PriceAt(env.calendar[i], code);
    if Sellable(price) {
      open := price.value.open.value;
      var c := Calculate(env.costs, env.calendar[i], Sell, Times(st.book.at[code].shares, open));
      if c.Ok? {
        costs := c.value;
      }
    }
  }

  lemma PutKeepsBook(env: Env, book: Book, i: int, due: set<Code>, code: Code, q: PositionState)
    requires BookOk(env, book, i, due) && code in book.at
    requires Sound(env, q, code, i) && Timely(env, q, i) && q.id == book.at[code].id
    ensures BookOk(env, book.Put(code, q), i, due - {code})
  {
    hide Sound, Timely;
  }

  lemma DeleteKeepsBook(env: Env, book: Book, i: int, due: set<Code>, code: Code)
    requires BookOk(env, book, i, due) && code in book.at
    ensures BookOk(env, book.Delete(code), i, due - {code})
  {
    hide Sound, Timely;
  }

  lemma DelayedIsTimely(env: Env, p: PositionState, c: Code, i: nat)
    requires StrictlyIncreasing(env.calendar) && i < |env.calendar|
    requires Sound(env, p, c, i) && Timely(env, p, i - 1) && env.calendar[i] >= p.target
    requires env.strict && !env.carryToCalendarEnd ==> !DelayedOnce(env, p).breached
    ensures Sound(env, DelayedOnce(env, p), c, i) && Timely(env, DelayedOnce(env, p), i)
  {
    TargetReached(env, p, c, i);
  }

  /** Deciding one exit: the position waits, is delayed by one more day, or leaves the book. */
  lemma SellStepKeepsBook(env: Env, st: State, i: nat, due: set<Code>, code: Code)
    requires StrictlyIncreasing(env.calendar) && i < |env.calendar|
    requires BookOk(env, st.book, i, due) && code in due
    requires SellStep(env, st, i, code).Ok?
    ensures BookOk(env, SellStep(env, st, i, code).value.book, i, due - {code})
  {
    hide SellStep, Dict.Valid, Dict.Put, Dict.Delete, DistinctIds, Sound, Timely;
    var open, costs := SellStepCases(env, st, i, code);
    var p, after := st.book.at[code], SellStep(env, st, i, code).value;
    if Waits(env, st, i, code, after) {
      WaitingIsTimely(env, p, code, i);
    } else if IsDelayed(env, st, i, code, after) {
      DelayedIsTimely(env, p, code, i);
      PutKeepsBook(env, st.book, i, due, code, DelayedOnce(env, p));
    } else {
      DeleteKeepsBook(env, st.book, i, due, code);
    }
  }

  lemma WaitingIsTimely(env: Env, p: PositionState, c: Code, i: nat)
    requires StrictlyIncreasing(env.calendar) && i < |env.calendar|
    requires Sound(env, p, c, i) && Timely(env, p, i - 1) && env.calendar[i] < p.target
    ensures Timely(env, p, i)
  {
    TargetReached(env, p, c, i);
  }

  lemma SellStepTouchesOne(env: Env, st: State, i: nat, code: Code)
    requires i < |env.calendar| && SellStep(env, st, i, code).Ok?
    ensures var after := SellStep(env, st, i, code).value.book.at;
            && code in st.book.at
            && after.Keys <= st.book.at.Keys
            && forall c :: c in st.book.at && c != code ==> c in after && after[c] == st.book.at[c]
  {
    hide SellStep;
    var open, costs := SellStepCases(env, st, i, code);
  }

  // ----- entries -----

  lemma NewPositionIsSound(env: Env, i: nat, code: Code, price: Price, shares: real)
    requires i + env.holdingPeriod < |env.calendar| && First(env) <= i && shares > 0.0 && env.holdingPeriod >= 1
    ensures var p := NewPosition(env, i, code, price, shares);
            Sound(env, p, code, i) && Timely(env, p, i) && p.id == PositionId(env.calendar[i], code)
  {}

  lemma BuyKeepsBook(env: Env, book: Book, i: nat, code: Code, price: Price, shares: real)
    requires i + env.holdingPeriod < |env.calendar| && First(env) <= i && shares > 0.0 && env.holdingPeriod >= 1
    requires BookOk(env, book, i, {}) && code !in book.at
    requires forall c :: c in book.at ==> book.at[c].id != PositionId(env.calendar[i], code)
    ensures BookOk(env, book.Put(code, NewPosition(env, i, code, price, shares)), i, {})
  {
    hide Sound, Timely;
    NewPositionIsSound(env, i, code, price, shares);
  }

  // ----- marks -----

  lemma RevaluedIsSound(env: Env, p: PositionState, c: Code, i: nat, price: Option<Price>)
    requires i < |env.calendar| && Sound(env, p, c, i) && Timely(env, p, i)
    requires Revalued(env, p, price, env.calendar[i]).Ok?
    ensures var q := Revalued(env, p, price, env.calendar[i]).value;
            && Sound(env, q, c, i) && Timely(env, q, i)
            && q == p.(lastClose := q.lastClose, lastPriceDate := q.lastPriceDate, valuation := q.valuation, staleDays := q.staleDays)
  {}

  lemma MarkKeepsBook(env: Env, book: Book, i: nat, code: Code, price: Option<Price>)
    requires i < |env.calendar| && BookOk(env, book, i, {}) && code in book.at
    requires Revalued(env, book.at[code], price, env.calendar[i]).Ok?
    ensures BookOk(env, book.Put(code, Revalued(env, book.at[code], price, env.calendar[i]).value), i, {})
  {
    hide Sound, Timely;
    RevaluedIsSound(env, book.at[code], code, i, price);
  }
}
