/** When the sorted replay of trades and actions accepts the simulator's log, although the
    simulator works in a different order within a day: per position the sorted order is
    necessarily buy, actions, closure, unless an action took effect before the buy. */
module Lifecycle {
  import opened Basics
  import opened Costs
  import opened Ledgers
  import opened Auditor
  import opened History
  import opened TradeInvariant

  type Id = Option<PositionId>

  // ----- the events of one id -----

  function Mine(events: seq<Event>, x: Id): seq<Event> {
    if events == [] then []
    else
      var last := events[|events| - 1];
      if last.id == x then Mine(events[..|events| - 1], x) + [last] else Mine(events[..|events| - 1], x)
  }

  /** The replay of the events of one id: held shares, or nothing held. */
  function ReplayOne(events: seq<Event>): Option<Option<real>> {
    if events == [] then Some(None)
    else
      var e := events[|events| - 1];
      match ReplayOne(events[..|events| - 1])
      case None => None
      case Some(held) =>
        if e.shares < 0.0 || e.cost < 0.0 then None
        else if e.priority == 0 then (if held.Some? then None else Some(Some(e.shares)))
        else if e.priority == 1 then (if held.Some? then Some(Some(e.shares)) else None)
        else if held.None? || e.shares > held.value + SHARE_TOLERANCE then None
        else Some(None)
  }

  function Lookup(live: Held, x: Id): Option<real> {
    if x in live then Some(live[x]) else None
  }

  /** The replay of the whole log succeeds when it succeeds for every id, and then agrees with it. */
  lemma {:induction false} ReplayById(events: seq<Event>)
    requires forall x :: ReplayOne(Mine(events, x)).Some?
    ensures ReplayEvents(events).Some?
    ensures forall x :: ReplayOne(Mine(events, x)) == Some(Lookup(ReplayEvents(events).value, x))
  {
    if events != [] {
      var front, e := events[..|events| - 1], events[|events| - 1];
      forall x
        ensures ReplayOne(Mine(front, x)).Some?
      {
        PrefixReplays(events, x);
      }
      ReplayById(front);
      assert Mine(events, e.id) == Mine(front, e.id) + [e];
      assert (Mine(front, e.id) + [e])[..|Mine(front, e.id)|] == Mine(front, e.id);
      forall x | x != e.id
        ensures Mine(events, x) == Mine(front, x)
      {}
    }
  }

  /** A replay that succeeds does so for every id. */
  lemma {:induction false} ReplayedEach(events: seq<Event>, x: Id)
    requires ReplayEvents(events).Some?
    ensures ReplayOne(Mine(events, x)) == Some(Lookup(ReplayEvents(events).value, x))
  {
    if events != [] {
      var front, e := events[..|events| - 1], events[|events| - 1];
      ReplayedEach(front, x);
      if e.id == x {
        assert (Mine(front, x) + [e])[..|Mine(front, x)|] == Mine(front, x);
      }
    }
  }

  /** Nothing replays for an id unless it is opened first. */
  lemma {:induction false} FirstOpens(events: seq<Event>)
    requires events != [] && ReplayOne(events).Some?
    ensures events[0].priority == 0
  {
    if |events| > 1 {
      FirstOpens(events[..|events| - 1]);
    } else {
      assert events[..0] == [];
    }
  }

  lemma PrefixReplays(events: seq<Event>, x: Id)
    requires events != [] && ReplayOne(Mine(events, x)).Some?
    ensures ReplayOne(Mine(events[..|events| - 1], x)).Some?
  {
    var front, e := events[..|events| - 1], events[|events| - 1];
    if e.id == x {
      assert (Mine(front, x) + [e])[..|Mine(front, x)|] == Mine(front, x);
    }
  }

  lemma {:induction false} MineConcat(a: seq<Event>, b: seq<Event>, x: Id)
    ensures Mine(a + b, x) == Mine(a, x) + Mine(b, x)
  {
    if b == [] {
      assert a + b == a;
    } else {
      assert a + b == (a + b[..|b| - 1]) + [b[|b| - 1]];
      MineConcat(a, b[..|b| - 1], x);
    }
  }

  lemma {:induction false} MineCounts(events: seq<Event>, x: Id, e: Event)
    ensures multiset(Mine(events, x))[e] == if e.id == x then multiset(events)[e] else 0
  {
    if events != [] {
      assert events == events[..|events| - 1] + [events[|events| - 1]];
      MineCounts(events[..|events| - 1], x, e);
    }
  }

  // ----- order -----

  predicate KeyLess(a: Event, b: Event) {
    a.date < b.date || (a.date == b.date && a.priority < b.priority)
  }

  ghost predicate NoneAfter(s: seq<Event>, e: Event) {
    forall x :: x in s ==> !KeyLess(e, x)
  }

  ghost predicate AllBefore(s: seq<Event>, e: Event) {
    forall x :: x in s ==> KeyLess(x, e)
  }

  ghost predicate KeySorted(s: seq<Event>) {
    s == [] || (KeySorted(s[..|s| - 1]) && NoneAfter(s[..|s| - 1], s[|s| - 1]))
  }

  ghost predicate KeyIncreasing(s: seq<Event>) {
    s == [] || (KeyIncreasing(s[..|s| - 1]) && AllBefore(s[..|s| - 1], s[|s| - 1]))
  }

  lemma SortedSnoc(s: seq<Event>, e: Event)
    ensures KeySorted(s + [e]) <==> KeySorted(s) && NoneAfter(s, e)
    ensures KeyIncreasing(s + [e]) <==> KeyIncreasing(s) && AllBefore(s, e)
  {
    assert (s + [e])[..|s|] == s;
  }

  lemma NoneAfterGreater(front: seq<Event>, last: Event, e: Event)
    requires NoneAfter(front, last) && EventBefore(last, e)
    ensures NoneAfter(front + [last], e)
  {}

  lemma NoneAfterInserted(front: seq<Event>, last: Event, e: Event, t: seq<Event>)
    requires NoneAfter(front, last) && !EventBefore(last, e)
    requires multiset(t) == multiset(front) + multiset{e}
    ensures NoneAfter(t, last)
  {
    forall x | x in t
      ensures !KeyLess(last, x)
    {
      assert x in multiset(t);
      assert x in front || x == e;
    }
  }

  lemma {:induction false} InsertKeeps(s: seq<Event>, e: Event)
    ensures multiset(Insert(s, e)) == multiset(s) + multiset{e}
  {
    hide EventBefore;
    if s != [] {
      assert s == s[..|s| - 1] + [s[|s| - 1]];
      InsertKeeps(s[..|s| - 1], e);
    }
  }

  lemma {:induction false} InsertSorts(s: seq<Event>, e: Event)
    requires KeySorted(s)
    ensures KeySorted(Insert(s, e))
  {
    hide EventBefore, NoneAfter;
    if s == [] {
      assert [e][..0] == [];
      EmptyIsBefore(e);
    } else {
      var front, last := s[..|s| - 1], s[|s| - 1];
      assert s == front + [last];
      if EventBefore(last, e) {
        NoneAfterGreater(front, last, e);
        SortedSnoc(s, e);
      } else {
        InsertSorts(front, e);
        InsertKeeps(front, e);
        NoneAfterInserted(front, last, e, Insert(front, e));
        SortedSnoc(Insert(front, e), last);
      }
    }
  }

  lemma EmptyIsBefore(e: Event)
    ensures NoneAfter([], e)
  {}

  lemma {:induction false} SortSorts(s: seq<Event>)
    ensures KeySorted(SortEvents(s)) && multiset(SortEvents(s)) == multiset(s)
  {
    if s != [] {
      assert s == s[..|s| - 1] + [s[|s| - 1]];
      SortSorts(s[..|s| - 1]);
      InsertSorts(SortEvents(s[..|s| - 1]), s[|s| - 1]);
      InsertKeeps(SortEvents(s[..|s| - 1]), s[|s| - 1]);
    }
  }

  lemma {:induction false} MineIsSorted(s: seq<Event>, x: Id)
    requires KeySorted(s)
    ensures KeySorted(Mine(s, x)) && forall e :: e in Mine(s, x) ==> e in s
  {
    if s != [] {
      var front, last := s[..|s| - 1], s[|s| - 1];
      assert s == front + [last];
      MineIsSorted(front, x);
      SortedSnoc(Mine(front, x), last);
    }
  }

  /** No event of a sorted sequence comes before its first. */
  lemma {:induction false} FirstIsLeast(s: seq<Event>)
    requires s != [] && KeySorted(s)
    ensures forall e :: e in s ==> !KeyLess(e, s[0])
  {
    var front, last := s[..|s| - 1], s[|s| - 1];
    assert s == front + [last];
    if front != [] {
      FirstIsLeast(front);
      assert s[0] in front;
    }
  }

  lemma LastIsAmong(front: seq<Event>, x: Event, rest: seq<Event>, y: Event)
    requires multiset(front + [x]) == multiset(rest + [y])
    ensures x in rest || x == y
  {
    assert x in multiset(rest + [y]);
  }

  lemma LastsAgree(front: seq<Event>, x: Event, rest: seq<Event>, y: Event)
    requires AllBefore(front, x) && NoneAfter(rest, y)
    requires multiset(front + [x]) == multiset(rest + [y])
    ensures x == y && multiset(front) == multiset(rest)
  {
    LastIsAmong(front, x, rest, y);
    LastIsAmong(rest, y, front, x);
    hide NoneAfter, AllBefore;
    assert multiset(front) == multiset(front + [x]) - multiset{x};
    assert multiset(rest) == multiset(rest + [y]) - multiset{y};
  }

  lemma SnocsAgree(front: seq<Event>, x: Event, rest: seq<Event>, y: Event)
    requires KeyIncreasing(front + [x]) && KeySorted(rest + [y]) && multiset(front + [x]) == multiset(rest + [y])
    ensures x == y && multiset(front) == multiset(rest) && KeyIncreasing(front) && KeySorted(rest)
  {
    hide KeyIncreasing, KeySorted, AllBefore, NoneAfter;
    SortedSnoc(front, x);
    SortedSnoc(rest, y);
    LastsAgree(front, x, rest, y);
  }

  /** A strictly increasing sequence is the only sorted arrangement of its events. */
  lemma {:induction false} OnlyArrangement(a: seq<Event>, b: seq<Event>)
    requires KeyIncreasing(a) && KeySorted(b) && multiset(a) == multiset(b)
    ensures a == b
    decreases |a|
  {
    hide KeyIncreasing, KeySorted;
    SameLength(a, b);
    if a != [] {
      var front, x, rest, y := a[..|a| - 1], a[|a| - 1], b[..|b| - 1], b[|b| - 1];
      assert a == front + [x] && b == rest + [y];
      SnocsAgree(front, x, rest, y);
      OnlyArrangement(front, rest);
    }
  }

  lemma SameLength(a: seq<Event>, b: seq<Event>)
    requires multiset(a) == multiset(b)
    ensures |a| == |b|
  {
    assert |multiset(a)| == |a| && |multiset(b)| == |b|;
  }

  // ----- the lifeline of one position -----

  function OpeningEvent(t: Trade): Event { Event(t.date, 0, t.id, t.shares, t.cost) }
  function ClosingEvent(t: Trade): Event { Event(t.date, 2, t.id, t.shares, t.cost) }

  function Lifeline(buy: Option<Trade>, acts: seq<Action>, close: Option<Trade>): seq<Event> {
    (if buy.Some? then [OpeningEvent(buy.value)] else [])
    + ActionEvents(acts)
    + (if close.Some? then [ClosingEvent(close.value)] else [])
  }

  lemma {:induction false} ActionEventAt(acts: seq<Action>)
    ensures |ActionEvents(acts)| == |acts|
    ensures forall k :: 0 <= k < |acts| ==>
              ActionEvents(acts)[k] == Event(acts[k].effective, 1, Some(acts[k].id), acts[k].newShares, 0.0)
  {
    if acts != [] {
      ActionEventAt(acts[..|acts| - 1]);
    }
  }

  lemma ActionsFollow(buy: Trade, acts: seq<Action>, bound: Date)
    requires InOrder(buy, acts, bound)
    ensures forall e :: e in ActionEvents(acts) ==> e.priority == 1 && buy.date <= e.date <= bound
  {
    hide ActionEvents;
    ActionEventAt(acts);
  }

  lemma {:induction false} ActionsIncrease(buy: Trade, acts: seq<Action>, bound: Date)
    requires InOrder(buy, acts, bound)
    ensures KeyIncreasing([OpeningEvent(buy)] + ActionEvents(acts))
  {
    hide KeyIncreasing;
    var s := [OpeningEvent(buy)];
    if acts == [] {
      KeyIncreasingOne(OpeningEvent(buy));
      assert s + ActionEvents(acts) == s;
    } else {
      var front, a := acts[..|acts| - 1], acts[|acts| - 1];
      ActionsIncrease(buy, front, bound);
      var e := Event(a.effective, 1, Some(a.id), a.newShares, 0.0);
      assert s + ActionEvents(acts) == (s + ActionEvents(front)) + [e];
      LaterAction(buy, front, a, bound);
      SortedSnoc(s + ActionEvents(front), e);
    }
  }

  lemma KeyIncreasingOne(e: Event)
    ensures KeyIncreasing([e])
  {
    SortedSnoc([], e);
    assert [] + [e] == [e];
  }

  lemma LaterAction(buy: Trade, front: seq<Action>, a: Action, bound: Date)
    requires InOrder(buy, front, bound) && buy.date <= a.effective && forall k :: 0 <= k < |front| ==> front[k].effective < a.effective
    ensures AllBefore([OpeningEvent(buy)] + ActionEvents(front), Event(a.effective, 1, Some(a.id), a.newShares, 0.0))
  {
    hide ActionEvents;
    ActionEventAt(front);
  }

  /** A lifeline in order is strictly increasing. */
  lemma LifelineIncreases(buy: Trade, acts: seq<Action>, close: Option<Trade>, bound: Date)
    requires InOrder(buy, acts, bound) && (close.Some? ==> close.value.date == bound)
    ensures KeyIncreasing(Lifeline(Some(buy), acts, close))
  {
    ActionsIncrease(buy, acts, bound);
    ActionsFollow(buy, acts, bound);
    var s := [OpeningEvent(buy)] + ActionEvents(acts);
    if close.Some? {
      SortedSnoc(s, ClosingEvent(close.value));
      assert Lifeline(Some(buy), acts, close) == s + [ClosingEvent(close.value)];
    } else {
      assert Lifeline(Some(buy), acts, close) == s;
    }
  }

  lemma {:induction false} ReplayActions(buy: Trade, acts: seq<Action>, bound: Date)
    requires buy.shares >= 0.0 && buy.cost >= 0.0 && InOrder(buy, acts, bound)
    ensures ReplayOne([OpeningEvent(buy)] + ActionEvents(acts)) == Some(Some(HeldShares(buy, acts)))
  {
    var s := [OpeningEvent(buy)] + ActionEvents(acts);
    if acts == [] {
      assert s == [OpeningEvent(buy)] && s[..0] == [];
    } else {
      var front := acts[..|acts| - 1];
      ReplayActions(buy, front, bound);
      assert s[..|s| - 1] == [OpeningEvent(buy)] + ActionEvents(front);
    }
  }

  /** The replay of a lifeline in order succeeds and ends with what is still held. */
  lemma LifelineReplays(buy: Trade, acts: seq<Action>, close: Option<Trade>, bound: Date)
    requires buy.shares >= 0.0 && buy.cost >= 0.0 && InOrder(buy, acts, bound)
    requires close.Some? ==> close.value.shares == HeldShares(buy, acts) && close.value.cost >= 0.0 && close.value.shares >= 0.0
    ensures ReplayOne(Lifeline(Some(buy), acts, close))
         == Some(if close.Some? then None else Some(HeldShares(buy, acts)))
  {
    ReplayActions(buy, acts, bound);
    var s := [OpeningEvent(buy)] + ActionEvents(acts);
    if close.Some? {
      var full := Lifeline(Some(buy), acts, close);
      assert full == s + [ClosingEvent(close.value)];
      assert full[..|s|] == s;
    } else {
      assert Lifeline(Some(buy), acts, close) == s;
    }
  }

  // ----- from the ledgers to lifelines -----

  lemma TradeEventsSnoc(trades: seq<Trade>, t: Trade)
    ensures TradeEvents(trades + [t])
         == TradeEvents(trades) + if t.status == Filled || t.status == TerminalWriteoff
                                  then [Event(t.date, if t.side == Buy then 0 else 2, t.id, t.shares, t.cost)] else []
  {
    assert (trades + [t])[..|trades|] == trades;
  }

  /** Openings and closures carry ids, and no id twice. */
  ghost predicate OnceEach(trades: seq<Trade>) {
    && (forall t :: t in trades && (IsOpening(t) || IsClosing(t)) ==> t.id.Some?)
    && (forall t :: t in trades && t.status == TerminalWriteoff ==> t.side == Sell)
    && NoDuplicates(OpeningIds(trades)) && NoDuplicates(ClosingIds(trades))
  }

  lemma OnceEachPrefix(front: seq<Trade>, t: Trade)
    requires OnceEach(front + [t])
    ensures OnceEach(front)
    ensures IsOpening(t) ==> t.id.Some? && t.id.value !in Openings(front)
    ensures IsClosing(t) ==> t.id.Some? && t.id.value !in Closings(front)
  {
    var trades := front + [t];
    LogSnoc(front, t);
    assert t in trades && forall x :: x in front ==> x in trades;
    ListsAgree(front);
    PrefixOnce(OpeningIds(front), if IsOpening(t) then [t.id] else []);
    PrefixOnce(ClosingIds(front), if IsClosing(t) then [t.id] else []);
  }

  lemma PrefixOnce(ids: seq<Id>, more: seq<Id>)
    requires NoDuplicates(ids + more)
    ensures NoDuplicates(ids) && forall x :: x in more ==> x !in ids
  {
    var all := ids + more;
    assert forall k :: 0 <= k < |ids| ==> all[k] == ids[k];
    assert forall k :: 0 <= k < |more| ==> all[|ids| + k] == more[k];
  }

  /** Without repetitions the map of a log lists exactly the ids of the log. */
  lemma {:induction false} ListsAgree(trades: seq<Trade>)
    requires forall t :: t in trades && (IsOpening(t) || IsClosing(t)) ==> t.id.Some?
    ensures forall x :: x in OpeningIds(trades) <==> x.Some? && x.value in Openings(trades)
    ensures forall x :: x in ClosingIds(trades) <==> x.Some? && x.value in Closings(trades)
  {
    if trades != [] {
      var front, t := trades[..|trades| - 1], trades[|trades| - 1];
      assert trades == front + [t];
      LogSnoc(front, t);
      ListsAgree(front);
    }
  }

  ghost function Only(e: Option<Event>): multiset<Event> {
    if e.Some? then multiset{e.value} else multiset{}
  }

  ghost function OpeningOf(trades: seq<Trade>, x: Id): Option<Event> {
    if x.Some? && x.value in Openings(trades) then Some(OpeningEvent(Openings(trades)[x.value])) else None
  }

  ghost function ClosingOf(trades: seq<Trade>, x: Id): Option<Event> {
    if x.Some? && x.value in Closings(trades) then Some(ClosingEvent(Closings(trades)[x.value])) else None
  }

  lemma MineSnoc(events: seq<Event>, e: Event, x: Id)
    ensures Mine(events + [e], x) == if e.id == x then Mine(events, x) + [e] else Mine(events, x)
  {
    assert (events + [e])[..|events|] == events;
  }

  /** What one more row adds to the opening and the closure of an id. */
  lemma OpeningAndClosingStep(front: seq<Trade>, t: Trade, x: Id)
    requires OnceEach(front + [t])
    ensures OpeningOf(front + [t], x) == if IsOpening(t) && t.id == x then Some(OpeningEvent(t)) else OpeningOf(front, x)
    ensures ClosingOf(front + [t], x) == if IsClosing(t) && t.id == x then Some(ClosingEvent(t)) else ClosingOf(front, x)
    ensures IsOpening(t) ==> OpeningOf(front, t.id) == None
    ensures IsClosing(t) ==> ClosingOf(front, t.id) == None
  {
    hide OnceEach, Openings, Closings;
    OnceEachPrefix(front, t);
    LogSnoc(front, t);
  }

  /** What one more row adds to the events of an id. */
  lemma MineStep(front: seq<Trade>, t: Trade, x: Id)
    requires t.status == TerminalWriteoff ==> t.side == Sell
    ensures multiset(Mine(TradeEvents(front + [t]), x))
         == multiset(Mine(TradeEvents(front), x))
          + Only(if IsOpening(t) && t.id == x then Some(OpeningEvent(t)) else None)
          + Only(if IsClosing(t) && t.id == x then Some(ClosingEvent(t)) else None)
  {
    hide TradeEvents, Mine;
    TradeEventsSnoc(front, t);
    if IsOpening(t) {
      MineSnoc(TradeEvents(front), OpeningEvent(t), x);
    } else if IsClosing(t) {
      MineSnoc(TradeEvents(front), ClosingEvent(t), x);
    } else {
      assert TradeEvents(front) + [] == TradeEvents(front);
    }
  }

  lemma TradeEventsStep(front: seq<Trade>, t: Trade, x: Id)
    requires OnceEach(front + [t])
    requires multiset(Mine(TradeEvents(front), x)) == Only(OpeningOf(front, x)) + Only(ClosingOf(front, x))
    ensures multiset(Mine(TradeEvents(front + [t]), x)) == Only(OpeningOf(front + [t], x)) + Only(ClosingOf(front + [t], x))
  {
    hide OnceEach, OpeningOf, ClosingOf, OpeningEvent, ClosingEvent, Mine, TradeEvents, Only, IsOpening, IsClosing;
    WriteoffsSell(front + [t], t);
    OpeningAndClosingStep(front, t, x);
    MineStep(front, t, x);
    OnlyOneMore(multiset(Mine(TradeEvents(front), x)), OpeningOf(front, x), ClosingOf(front, x),
                if IsOpening(t) && t.id == x then Some(OpeningEvent(t)) else None,
                if IsClosing(t) && t.id == x then Some(ClosingEvent(t)) else None);
  }

  lemma OnlyOneMore(m: multiset<Event>, o: Option<Event>, c: Option<Event>, opens: Option<Event>, closes: Option<Event>)
    requires m == Only(o) + Only(c) && (opens.Some? ==> o == None) && (closes.Some? ==> c == None)
    ensures m + Only(opens) + Only(closes) == Only(if opens.Some? then opens else o) + Only(if closes.Some? then closes else c)
  {}

  /** The trade events of one id are its opening and its closure, each counted once. */
  lemma {:induction false} TradeEventsOf(trades: seq<Trade>, x: Id)
    requires OnceEach(trades)
    ensures multiset(Mine(TradeEvents(trades), x)) == Only(OpeningOf(trades, x)) + Only(ClosingOf(trades, x))
  {
    hide OnceEach, OpeningOf, ClosingOf;
    if trades != [] {
      hide Mine, TradeEvents, Only;
      var front, t := trades[..|trades| - 1], trades[|trades| - 1];
      assert trades == front + [t];
      OnceEachPrefix(front, t);
      TradeEventsOf(front, x);
      TradeEventsStep(front, t, x);
    } else {
      NoTrades(x);
    }
  }

  lemma NoTrades(x: Id)
    ensures OpeningOf([], x) == None && ClosingOf([], x) == None
  {}

  lemma WriteoffsSell(trades: seq<Trade>, t: Trade)
    requires OnceEach(trades) && t in trades
    ensures t.status == TerminalWriteoff ==> t.side == Sell
  {}

  lemma {:induction false} ActionEventsOf(acts: seq<Action>, x: Id)
    ensures Mine(ActionEvents(acts), x) == if x.Some? then ActionEvents(Own(acts, ActionId, x.value)) else []
  {
    if acts != [] {
      var front, a := acts[..|acts| - 1], acts[|acts| - 1];
      assert acts == front + [a];
      ActionEventsOf(front, x);
      MineSnoc(ActionEvents(front), Event(a.effective, 1, Some(a.id), a.newShares, 0.0), x);
      if x == Some(a.id) {
        assert Own(acts, ActionId, a.id) == Own(front, ActionId, a.id) + [a];
        assert (Own(front, ActionId, a.id) + [a])[..|Own(front, ActionId, a.id)|] == Own(front, ActionId, a.id);
      }
    }
  }

  // ----- the whole log -----

  /** What the ledgers say of every position: actions in order up to its end, and closed with the
      shares it held. */
  ghost predicate OrderlyLife(trades: seq<Trade>, actions: seq<Action>, q: PositionId, bound: Date) {
    var acts := Own(actions, ActionId, q);
    && q in Openings(trades)
    && var buy := Openings(trades)[q];
       && buy.id == Some(q) && buy.shares >= 0.0 && buy.cost >= 0.0
       && if q in Closings(trades) then
            var close := Closings(trades)[q];
            buy.date <= close.date && Ordered(acts, close.date)
            && close.shares == HeldShares(buy, acts) && close.shares >= 0.0 && close.cost >= 0.0
            && close.id == Some(q)
          else buy.date <= bound && Ordered(acts, bound)
  }

  /** The first action of the position took effect before it was bought. */
  ghost predicate Premature(trades: seq<Trade>, actions: seq<Action>, q: PositionId) {
    q in Openings(trades) && ActedEarly(Openings(trades)[q], Own(actions, ActionId, q))
  }

  ghost predicate Orderly(trades: seq<Trade>, actions: seq<Action>, bound: Date) {
    && OnceEach(trades)
    && (forall q :: q in Openings(trades) ==> OrderlyLife(trades, actions, q, bound))
    && (forall q :: q in Closings(trades) ==> q in Openings(trades))
    && (forall a :: a in actions ==> a.id in Openings(trades))
  }

  ghost function ClosureOf(trades: seq<Trade>, q: PositionId): Option<Trade> {
    if q in Closings(trades) then Some(Closings(trades)[q]) else None
  }

  /** In any sorted arrangement of the log the events of a position are its lifeline. */
  lemma MineIsLifeline(trades: seq<Trade>, actions: seq<Action>, s: seq<Event>, q: PositionId, bound: Date)
    requires Orderly(trades, actions, bound) && q in Openings(trades) && !Premature(trades, actions, q)
    requires KeySorted(s) && multiset(s) == multiset(TradeEvents(trades) + ActionEvents(actions))
    ensures Mine(s, Some(q)) == Lifeline(Some(Openings(trades)[q]), Own(actions, ActionId, q), ClosureOf(trades, q))
  {
    hide KeySorted, KeyIncreasing, InOrder, Ordered, ActedEarly, OnceEach, Openings, Closings, Lifeline, Mine, TradeEvents, ActionEvents,
         OpeningOf, ClosingOf, Only;
    var x := Some(q);
    var acts := Own(actions, ActionId, q);
    var line := Lifeline(Some(Openings(trades)[q]), acts, ClosureOf(trades, q));
    assert OrderlyLife(trades, actions, q, bound);
    var last := if q in Closings(trades) then Closings(trades)[q].date else bound;
    OrderedIsInOrder(Openings(trades)[q], acts, last);
    LifelineIncreases(Openings(trades)[q], acts, ClosureOf(trades, q), last);
    MineIsSorted(s, x);
    EventsOfOpened(trades, actions, s, q);
    LifelineCounts(trades, q, acts);
    OnlyArrangement(line, Mine(s, x));
  }

  /** The events of an opened position: its opening, its actions and its closure. */
  lemma EventsOfOpened(trades: seq<Trade>, actions: seq<Action>, s: seq<Event>, q: PositionId)
    requires OnceEach(trades) && q in Openings(trades)
    requires multiset(s) == multiset(TradeEvents(trades) + ActionEvents(actions))
    ensures multiset(Mine(s, Some(q)))
         == Only(OpeningOf(trades, Some(q))) + multiset(ActionEvents(Own(actions, ActionId, q))) + Only(ClosingOf(trades, Some(q)))
  {
    hide OnceEach, Openings, Closings, Mine, TradeEvents, ActionEvents, OpeningOf, ClosingOf, Only;
    var x := Some(q);
    SameMine(s, TradeEvents(trades) + ActionEvents(actions), x);
    MineConcat(TradeEvents(trades), ActionEvents(actions), x);
    TradeEventsOf(trades, x);
    ActionEventsOf(actions, x);
  }

  /** Of those events only the opening opens, and the first action is among them. */
  lemma OpeningIsAlone(buy: Trade, acts: seq<Action>, close: Option<Event>, mine: seq<Event>, e: Event)
    requires multiset(mine) == multiset{OpeningEvent(buy)} + multiset(ActionEvents(acts)) + Only(close)
    requires close.Some? ==> close.value.priority == 2
    ensures e in mine && e.priority == 0 ==> e.date == buy.date
    ensures OpeningEvent(buy) in mine
    ensures acts != [] ==> exists x :: x in mine && x.date == acts[0].effective && x.priority == 1
  {
    hide ActionEvents;
    ActionEventAt(acts);
    assert OpeningEvent(buy) in multiset(mine);
    if e in mine {
      assert e in multiset(mine);
    }
    if acts != [] {
      assert ActionEvents(acts)[0] in multiset(mine);
    }
  }

  /** An action before the buy comes first in every sorted arrangement, where nothing is open yet. */
  lemma PrematureFails(trades: seq<Trade>, actions: seq<Action>, s: seq<Event>, q: PositionId)
    requires OnceEach(trades) && Premature(trades, actions, q)
    requires KeySorted(s) && multiset(s) == multiset(TradeEvents(trades) + ActionEvents(actions))
    ensures ReplayEvents(s).None?
  {
    hide OnceEach, Openings, Closings, Mine, TradeEvents, ActionEvents, KeySorted, ReplayOne, ReplayEvents, Own, OpeningEvent;
    var mine, acts, buy := Mine(s, Some(q)), Own(actions, ActionId, q), Openings(trades)[q];
    if ReplayEvents(s).Some? {
      EventsOfOpened(trades, actions, s, q);
      OpeningIsAlone(buy, acts, ClosingOf(trades, Some(q)), mine, OpeningEvent(buy));
      ReplayedEach(s, Some(q));
      FirstOpens(mine);
      MineIsSorted(s, Some(q));
      FirstIsLeast(mine);
      OpeningIsAlone(buy, acts, ClosingOf(trades, Some(q)), mine, mine[0]);
    }
  }

  lemma LifelineCounts(trades: seq<Trade>, q: PositionId, acts: seq<Action>)
    requires q in Openings(trades)
    ensures multiset(Lifeline(Some(Openings(trades)[q]), acts, ClosureOf(trades, q)))
         == Only(OpeningOf(trades, Some(q))) + multiset(ActionEvents(acts)) + Only(ClosingOf(trades, Some(q)))
  {
    hide Openings, Closings, ActionEvents;
  }

  lemma SameMine(s: seq<Event>, events: seq<Event>, x: Id)
    requires multiset(s) == multiset(events)
    ensures multiset(Mine(s, x)) == multiset(Mine(events, x))
  {
    forall e
      ensures multiset(Mine(s, x))[e] == multiset(Mine(events, x))[e]
    {
      MineCounts(s, x, e);
      MineCounts(events, x, e);
    }
  }

  /** Events of an id that was never opened do not exist. */
  lemma MineIsEmpty(trades: seq<Trade>, actions: seq<Action>, s: seq<Event>, x: Id, bound: Date)
    requires Orderly(trades, actions, bound) && (x.Some? ==> x.value !in Openings(trades))
    requires multiset(s) == multiset(TradeEvents(trades) + ActionEvents(actions))
    ensures Mine(s, x) == []
  {
    hide InOrder, OnceEach, Openings, Closings, OrderlyLife;
    SameMine(s, TradeEvents(trades) + ActionEvents(actions), x);
    MineConcat(TradeEvents(trades), ActionEvents(actions), x);
    TradeEventsOf(trades, x);
    ActionEventsOf(actions, x);
    if x.Some? {
      OwnNone(actions, ActionId, x.value);
    }
    assert |multiset(Mine(s, x))| == 0;
  }

  /** The replay of any sorted arrangement accepts an orderly log and leaves open exactly the
      positions that were opened and not closed. */
  lemma OrderlyReplays(trades: seq<Trade>, actions: seq<Action>, s: seq<Event>, bound: Date)
    requires Orderly(trades, actions, bound) && forall q :: !Premature(trades, actions, q)
    requires KeySorted(s) && multiset(s) == multiset(TradeEvents(trades) + ActionEvents(actions))
    ensures ReplayEvents(s).Some?
    ensures forall x :: x in ReplayEvents(s).value <==> x.Some? && x.value in Openings(trades) && x.value !in Closings(trades)
  {
    hide KeySorted, OnceEach, Openings, Closings, InOrder, Ordered, ActedEarly, Lifeline;
    forall x
      ensures ReplayOne(Mine(s, x)).Some?
      ensures ReplayOne(Mine(s, x)).value.Some? <==> x.Some? && x.value in Openings(trades) && x.value !in Closings(trades)
    {
      if x.Some? && x.value in Openings(trades) {
        var q := x.value;
        assert OrderlyLife(trades, actions, q, bound);
        assert !Premature(trades, actions, q);
        var last := if q in Closings(trades) then Closings(trades)[q].date else bound;
        MineIsLifeline(trades, actions, s, q, bound);
        OrderedIsInOrder(Openings(trades)[q], Own(actions, ActionId, q), last);
        LifelineReplays(Openings(trades)[q], Own(actions, ActionId, q), ClosureOf(trades, q), last);
      } else {
        MineIsEmpty(trades, actions, s, x, bound);
      }
    }
    ReplayById(s);
  }

  /** The check itself: with the open ids it passes on an orderly log exactly if no action took
      effect before its position was bought. */
  lemma OrderlyReconciles(trades: seq<Trade>, actions: seq<Action>, bound: Date, open: set<Id>)
    requires Orderly(trades, actions, bound)
    requires forall x :: x in open <==> x.Some? && x.value in Openings(trades) && x.value !in Closings(trades)
    ensures LifecyclesReconcile(trades, open, actions) <==> forall q :: !Premature(trades, actions, q)
  {
    hide OrderlyLife, OnceEach, KeySorted, Openings, Closings, Premature;
    var events := TradeEvents(trades) + ActionEvents(actions);
    SortSorts(events);
    if q :| Premature(trades, actions, q) {
      PrematureIsTraded(trades, actions, q);
      PrematureFails(trades, actions, SortEvents(events), q);
    } else {
      OrderlyReplays(trades, actions, SortEvents(events), bound);
    }
  }

  lemma PrematureIsTraded(trades: seq<Trade>, actions: seq<Action>, q: PositionId)
    requires Premature(trades, actions, q)
    ensures trades != []
  {}

  // ----- any log -----

  /** Event k of one id is legal after the ones before it: a purchase while nothing is held, an action or a
      closure while something is, and no closure of more than is held. */
  ghost predicate Legal(mine: seq<Event>, k: nat)
    requires k < |mine|
  {
    var e := mine[k];
    && e.shares >= 0.0 && e.cost >= 0.0
    && if e.priority == 0 then k == 0 || IsClosure(mine[k - 1])
       else
         && k > 0 && !IsClosure(mine[k - 1])
         && (IsClosure(e) ==> e.shares <= mine[k - 1].shares + 0.000000001)
  }

  ghost predicate IsClosure(e: Event) {
    e.priority != 0 && e.priority != 1
  }

  ghost predicate LegalLife(mine: seq<Event>) {
    forall k :: 0 <= k < |mine| ==> Legal(mine, k)
  }

  ghost predicate StaysOpen(mine: seq<Event>) {
    mine != [] && !IsClosure(mine[|mine| - 1])
  }

  lemma {:induction false} LegalIff(mine: seq<Event>)
    ensures ReplayOne(mine).Some? <==> LegalLife(mine)
    ensures ReplayOne(mine).Some? ==> ReplayOne(mine).value == if StaysOpen(mine) then Some(mine[|mine| - 1].shares) else None
  {
    if mine != [] {
      var front, n := mine[..|mine| - 1], |mine| - 1;
      LegalIff(front);
      assert forall k :: 0 <= k < n ==> (Legal(front, k) <==> Legal(mine, k));
      assert LegalLife(mine) <==> LegalLife(front) && Legal(mine, n);
    }
  }

  /** Every position lives legally, and exactly the open ones are left. */
  ghost predicate LivesAre(s: seq<Event>, open: set<Id>) {
    forall x :: LegalLife(Mine(s, x)) && (x in open <==> StaysOpen(Mine(s, x)))
  }

  lemma ReplayedIsLegal(s: seq<Event>, x: Id)
    requires ReplayEvents(s).Some?
    ensures LegalLife(Mine(s, x)) && (x in ReplayEvents(s).value.Keys <==> StaysOpen(Mine(s, x)))
  {
    hide LegalLife, StaysOpen, Mine, ReplayEvents, ReplayOne;
    ReplayedEach(s, x);
    LegalIff(Mine(s, x));
  }

  lemma LegalReplays(s: seq<Event>, open: set<Id>)
    requires LivesAre(s, open)
    ensures ReplayEvents(s).Some? && ReplayEvents(s).value.Keys == open
  {
    hide LegalLife, StaysOpen, Mine, ReplayEvents, ReplayOne;
    forall x
      ensures ReplayOne(Mine(s, x)).Some?
    {
      assert LegalLife(Mine(s, x));
      LegalIff(Mine(s, x));
    }
    ReplayById(s);
    forall x
      ensures x in ReplayEvents(s).value.Keys <==> x in open
    {
      ReplayedIsLegal(s, x);
    }
  }

  /** The check on any log: with the purchases, actions and closures sorted by date and kind, every
      position lives legally, and exactly the open ones are left. */
  lemma LifecyclesIff(trades: seq<Trade>, actions: seq<Action>, open: set<Id>)
    ensures var s := SortEvents(TradeEvents(trades) + ActionEvents(actions));
            && KeySorted(s) && multiset(s) == multiset(TradeEvents(trades) + ActionEvents(actions))
            && (LifecyclesReconcile(trades, open, actions) <==>
                trades == [] || LivesAre(s, open))
  {
    hide KeySorted, LegalLife, StaysOpen, Mine, ReplayEvents, SortEvents, TradeEvents, ActionEvents;
    var events := TradeEvents(trades) + ActionEvents(actions);
    SortSorts(events);
    var s := SortEvents(events);
    if ReplayEvents(s).Some? && ReplayEvents(s).value.Keys == open {
      forall x
        ensures LegalLife(Mine(s, x)) && (x in open <==> StaysOpen(Mine(s, x)))
      {
        ReplayedIsLegal(s, x);
      }
    }
    if LivesAre(s, open) {
      LegalReplays(s, open);
    }
  }

  /** Which events there are: the fills and closures of the trade log, and the actions. */
  lemma {:induction false} TradeEventsAre(trades: seq<Trade>, e: Event)
    ensures e in TradeEvents(trades) <==>
            exists t :: t in trades && (IsOpening(t) || IsClosing(t) || (t.status == TerminalWriteoff && t.side == Buy))
                        && e == Event(t.date, if t.side == Buy then 0 else 2, t.id, t.shares, t.cost)
  {
    if trades != [] {
      var front, last := trades[..|trades| - 1], trades[|trades| - 1];
      assert trades == front + [last];
      TradeEventsAre(front, e);
    }
  }

  lemma {:induction false} ActionEventsAre(actions: seq<Action>, e: Event)
    ensures e in ActionEvents(actions) <==> exists a :: a in actions && e == Event(a.effective, 1, Some(a.id), a.newShares, 0.0)
  {
    if actions != [] {
      var front, last := actions[..|actions| - 1], actions[|actions| - 1];
      assert actions == front + [last];
      ActionEventsAre(front, e);
    }
  }
}
