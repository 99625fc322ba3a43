/** From daily scores to the codes entered on each session
    (_signals_by_entry_date and _calendar_offset in src/ashare_quant/backtest/engine.py). */
module Signals {
  import opened Basics
  import opened Simulation
  import opened Auditor
  import opened BookInvariant

  datatype Signal = Signal(date: Date, code: Code, score: real)

  type Entries = map<Date, seq<Code>>

  /** The calendar session a number of sessions after a date. */
  function CalendarOffset(calendar: seq<Date>, date: Date, offset: nat): Result<Date, Failure> {
    match IndexOf(calendar, date)
    case None => Err(CalendarInsufficient)
    case Some(i) => if i + offset < |calendar| then Ok(calendar[i + offset]) else Err(CalendarInsufficient)
  }

  /** Higher scores first, equal scores in the order of their codes. */
  predicate RanksBefore(a: Signal, b: Signal) {
    a.score > b.score || (a.score == b.score && a.code <= b.code)
  }

  function InsertRanked(ranked: seq<Signal>, s: Signal): seq<Signal> {
    if ranked == [] then [s]
    else if RanksBefore(ranked[|ranked| - 1], s) then ranked + [s]
    else InsertRanked(ranked[..|ranked| - 1], s) + [ranked[|ranked| - 1]]
  }

  /** The signals of one date in rank order. */
  function Ranked(signals: seq<Signal>, date: Date): seq<Signal> {
    if signals == [] then []
    else
      var last := signals[|signals| - 1];
      var before := Ranked(signals[..|signals| - 1], date);
      if last.date == date then InsertRanked(before, last) else before
  }

  function CodesOf(signals: seq<Signal>): seq<Code> {
    seq(|signals|, i requires 0 <= i < |signals| => signals[i].code)
  }

  function Head<T>(s: seq<T>, n: nat): seq<T> {
    if n <= |s| then s[..n] else s
  }

  /** The codes of the n best signals of one date. */
  function Top(signals: seq<Signal>, date: Date, n: nat): seq<Code> {
    CodesOf(Head(Ranked(signals, date), n))
  }

  function InsertDate(dates: seq<Date>, d: Date): seq<Date> {
    if dates == [] then [d]
    else
      var last := dates[|dates| - 1];
      if last < d then dates + [d]
      else if last == d then dates
      else InsertDate(dates[..|dates| - 1], d) + [last]
  }

  /** The distinct signal dates in ascending order: the keys of the groupby. */
  function SignalDates(signals: seq<Signal>): seq<Date> {
    if signals == [] then [] else InsertDate(SignalDates(signals[..|signals| - 1]), signals[|signals| - 1].date)
  }

  function Extended(entries: Entries, date: Date, codes: seq<Code>): Entries {
    entries[date := (if date in entries then entries[date] else []) + codes]
  }

  /** The entries of the first k signal dates. */
  function EntriesUpTo(signals: seq<Signal>, calendar: seq<Date>, n: nat, dates: seq<Date>, k: nat): Result<Entries, Failure>
    requires k <= |dates|
  {
    if k == 0 then Ok(map[])
    else
      var entries :- EntriesUpTo(signals, calendar, n, dates, k - 1);
      var date :- CalendarOffset(calendar, dates[k - 1], 1);
      Ok(Extended(entries, date, Top(signals, dates[k - 1], n)))
  }

  function ByEntryDate(signals: seq<Signal>, calendar: seq<Date>, n: nat): Result<Entries, Failure> {
    EntriesUpTo(signals, calendar, n, SignalDates(signals), |SignalDates(signals)|)
  }

  lemma {:induction false} EntriesFailed(signals: seq<Signal>, calendar: seq<Date>, n: nat, dates: seq<Date>, k: nat, m: nat, f: Failure)
    requires k <= m <= |dates| && EntriesUpTo(signals, calendar, n, dates, k) == Err(f)
    ensures EntriesUpTo(signals, calendar, n, dates, m) == Err(f)
  {
    hide CalendarOffset, Top;
    if k < m {
      EntriesFailed(signals, calendar, n, dates, k, m - 1, f);
    }
  }

  /** The loop over the signal dates. */
  method SignalsByEntryDate(signals: seq<Signal>, calendar: seq<Date>, n: nat) returns (r: Result<Entries, Failure>)
    ensures r == ByEntryDate(signals, calendar, n)
  {
    hide CalendarOffset, Top, SignalDates;
    var dates, entries := SignalDates(signals), map[];
    for k := 0 to |dates|
      invariant EntriesUpTo(signals, calendar, n, dates, k) == Ok(entries)
    {
      var date := CalendarOffset(calendar, dates[k], 1);
      if date.Err? {
        EntriesFailed(signals, calendar, n, dates, k + 1, |dates|, date.error);
        return Err(date.error);
      }
      entries := Extended(entries, date.value, Top(signals, dates[k], n));
    }
    return Ok(entries);
  }

  // ----- ranking -----

  ghost predicate InRankOrder(s: seq<Signal>) {
    forall i, j :: 0 <= i < j < |s| ==> RanksBefore(s[i], s[j])
  }

  lemma RanksTotally(a: Signal, b: Signal)
    ensures RanksBefore(a, b) || RanksBefore(b, a)
  {}

  lemma RanksTransitively(a: Signal, b: Signal, c: Signal)
    requires RanksBefore(a, b) && RanksBefore(b, c)
    ensures RanksBefore(a, c)
  {}

  lemma RankSnoc(s: seq<Signal>, x: Signal)
    requires InRankOrder(s) && forall y :: y in s ==> RanksBefore(y, x)
    ensures InRankOrder(s + [x])
  {
    hide RanksBefore;
  }

  lemma {:induction false} InsertRanks(ranked: seq<Signal>, s: Signal)
    requires InRankOrder(ranked)
    ensures InRankOrder(InsertRanked(ranked, s))
    ensures multiset(InsertRanked(ranked, s)) == multiset(ranked) + multiset{s}
  {
    hide RanksBefore;
    if ranked != [] {
      var front, last := ranked[..|ranked| - 1], ranked[|ranked| - 1];
      assert ranked == front + [last];
      forall y | y in front
        ensures RanksBefore(y, last)
      {
        var i :| 0 <= i < |front| && front[i] == y;
        assert RanksBefore(ranked[i], ranked[|ranked| - 1]);
      }
      if RanksBefore(last, s) {
        forall y | y in ranked
          ensures RanksBefore(y, s)
        {
          if y != last {
            RanksTransitively(y, last, s);
          }
        }
        RankSnoc(ranked, s);
      } else {
        RanksTotally(last, s);
        InsertRanks(front, s);
        var rest := InsertRanked(front, s);
        forall y | y in rest
          ensures RanksBefore(y, last)
        {
          assert y in multiset(rest) && y in multiset(front) + multiset{s};
        }
        RankSnoc(rest, last);
      }
    }
  }

  function IsOn(date: Date): Signal -> bool { (s: Signal) => s.date == date }

  /** Ranking one date permutes its signals into rank order. */
  lemma {:induction false} RankedIsSorted(signals: seq<Signal>, date: Date)
    ensures InRankOrder(Ranked(signals, date))
    ensures multiset(Ranked(signals, date)) == multiset(Select(signals, IsOn(date)))
  {
    if signals != [] {
      var front, last := signals[..|signals| - 1], signals[|signals| - 1];
      RankedIsSorted(front, date);
      if last.date == date {
        InsertRanks(Ranked(front, date), last);
      }
    }
  }

  lemma {:induction false} SelectMember<T>(s: seq<T>, which: T -> bool, x: T)
    ensures x in Select(s, which) <==> x in s && which(x)
  {
    if s != [] {
      var front, last := s[..|s| - 1], s[|s| - 1];
      assert s == front + [last];
      SelectMember(front, which, x);
    }
  }

  lemma RankedMember(signals: seq<Signal>, date: Date, s: Signal)
    ensures s in Ranked(signals, date) <==> s in signals && s.date == date
  {
    RankedIsSorted(signals, date);
    SelectMember(signals, IsOn(date), s);
    assert s in Ranked(signals, date) <==> s in multiset(Ranked(signals, date));
    assert s in Select(signals, IsOn(date)) <==> s in multiset(Select(signals, IsOn(date)));
  }

  lemma BeyondHead<T>(s: seq<T>, n: nat, j: nat)
    requires j < |s| && s[j] !in Head(s, n)
    ensures n <= j
  {
    assert forall i :: 0 <= i < |Head(s, n)| ==> s[i] in Head(s, n);
  }

  /** What is selected on a date is its n best signals: no signal left out has a greater score than
      one that was taken, or the same score and a smaller code, and fewer than n are taken only if
      there are no more. */
  lemma TopIsBest(signals: seq<Signal>, date: Date, n: nat, chosen: Signal, other: Signal)
    requires chosen in Head(Ranked(signals, date), n)
    requires other in signals && other.date == date && other !in Head(Ranked(signals, date), n)
    ensures chosen in signals && chosen.date == date
    ensures other.score < chosen.score || (other.score == chosen.score && chosen.code <= other.code)
    ensures |Top(signals, date, n)| == n
  {
    var ranked := Ranked(signals, date);
    RankedIsSorted(signals, date);
    RankedMember(signals, date, chosen);
    RankedMember(signals, date, other);
    var i :| 0 <= i < |Head(ranked, n)| && Head(ranked, n)[i] == chosen;
    var j :| 0 <= j < |ranked| && ranked[j] == other;
    BeyondHead(ranked, n, j);
  }

  // ----- what the simulator relies on -----

  /** One signal for each date and code. */
  ghost predicate UniqueKeys(signals: seq<Signal>) {
    forall i, j :: 0 <= i < j < |signals| ==> signals[i].date != signals[j].date || signals[i].code != signals[j].code
  }

  lemma CodesSnoc(s: seq<Signal>, x: Signal)
    ensures CodesOf(s + [x]) == CodesOf(s) + [x.code]
  {}

  lemma DistinctSnoc<T>(s: seq<T>, x: T)
    ensures NoDuplicates(s + [x]) <==> NoDuplicates(s) && x !in s
  {
    var t := s + [x];
    if NoDuplicates(t) {
      forall i, j | 0 <= i < j < |s|
        ensures s[i] != s[j]
      {
        assert t[i] == s[i] && t[j] == s[j];
      }
      forall i | 0 <= i < |s|
        ensures s[i] != x
      {
        assert t[i] == s[i] && t[|s|] == x;
      }
    }
  }

  lemma {:induction false} InsertCodes(ranked: seq<Signal>, s: Signal)
    requires NoDuplicates(CodesOf(ranked)) && s.code !in CodesOf(ranked)
    ensures NoDuplicates(CodesOf(InsertRanked(ranked, s)))
    ensures forall c :: c in CodesOf(InsertRanked(ranked, s)) <==> c in CodesOf(ranked) || c == s.code
  {
    if ranked == [] {
      assert CodesOf([s]) == [s.code];
    } else {
      var front, last := ranked[..|ranked| - 1], ranked[|ranked| - 1];
      hide CodesOf, NoDuplicates;
      assert ranked == front + [last];
      CodesSnoc(front, last);
      CodesSnoc(ranked, s);
      DistinctSnoc(CodesOf(front), last.code);
      DistinctSnoc(CodesOf(ranked), s.code);
      InsertCodes(front, s);
      CodesSnoc(InsertRanked(front, s), last);
      DistinctSnoc(CodesOf(InsertRanked(front, s)), last.code);
    }
  }

  lemma {:induction false} RankedCodes(signals: seq<Signal>, date: Date)
    requires UniqueKeys(signals)
    ensures NoDuplicates(CodesOf(Ranked(signals, date)))
    ensures forall c :: c in CodesOf(Ranked(signals, date)) ==> exists i :: 0 <= i < |signals| && signals[i].date == date && signals[i].code == c
  {
    if signals != [] {
      var front, last := signals[..|signals| - 1], signals[|signals| - 1];
      RankedCodes(front, date);
      forall c | c in CodesOf(Ranked(front, date))
        ensures exists i :: 0 <= i < |signals| && signals[i].date == date && signals[i].code == c
      {
        var i :| 0 <= i < |front| && front[i].date == date && front[i].code == c;
        assert signals[i] == front[i];
      }
      if last.date == date {
        InsertCodes(Ranked(front, date), last);
      }
    }
  }

  lemma TopHasNoDuplicates(signals: seq<Signal>, date: Date, n: nat)
    requires UniqueKeys(signals)
    ensures NoDuplicates(Top(signals, date, n))
  {
    hide Ranked;
    RankedCodes(signals, date);
    var ranked := Ranked(signals, date);
    assert Top(signals, date, n) == Head(CodesOf(ranked), n);
  }

  lemma {:induction false} DatesInsert(dates: seq<Date>, d: Date)
    requires StrictlyIncreasing(dates)
    ensures StrictlyIncreasing(InsertDate(dates, d))
    ensures forall x :: x in InsertDate(dates, d) <==> x in dates || x == d
  {
    if dates != [] {
      hide StrictlyIncreasing;
      var front, last := dates[..|dates| - 1], dates[|dates| - 1];
      assert dates == front + [last];
      AscendingSnoc(front, last);
      AscendingSnoc(dates, d);
      DatesInsert(front, d);
      AscendingSnoc(InsertDate(front, d), last);
    }
  }

  lemma {:induction false} DatesAreSorted(signals: seq<Signal>)
    ensures StrictlyIncreasing(SignalDates(signals))
    ensures forall d :: d in SignalDates(signals) <==> exists i :: 0 <= i < |signals| && signals[i].date == d
  {
    if signals != [] {
      var front, last := signals[..|signals| - 1], signals[|signals| - 1];
      DatesAreSorted(front);
      DatesInsert(SignalDates(front), last.date);
      forall i | 0 <= i < |signals|
        ensures signals[i].date in SignalDates(signals)
      {
        assert i < |front| ==> front[i] == signals[i];
      }
      forall d | d in SignalDates(front)
        ensures exists i :: 0 <= i < |signals| && signals[i].date == d
      {
        var i :| 0 <= i < |front| && front[i].date == d;
        assert signals[i] == front[i];
      }
    }
  }

  lemma {:induction false} IndexOfIsFirst(calendar: seq<Date>, date: Date)
    ensures match IndexOf(calendar, date)
            case None => date !in calendar
            case Some(i) => i < |calendar| && calendar[i] == date
  {
    if calendar != [] && calendar[0] != date {
      IndexOfIsFirst(calendar[1..], date);
    }
  }

  /** Every entry date is the session after a signal date. */
  ghost predicate FollowsSignal(calendar: seq<Date>, dates: seq<Date>, k: nat, d: Date)
    requires k <= |dates|
  {
    exists j, i :: 0 <= j < k && 0 < i < |calendar| && calendar[i] == d && calendar[i - 1] == dates[j]
  }

  lemma LaterStillFollows(calendar: seq<Date>, dates: seq<Date>, k: nat, d: Date)
    requires k < |dates| && FollowsSignal(calendar, dates, k, d)
    ensures FollowsSignal(calendar, dates, k + 1, d)
  {}

  lemma NotYetEntered(calendar: seq<Date>, dates: seq<Date>, k: nat, i: nat)
    requires StrictlyIncreasing(calendar) && StrictlyIncreasing(dates) && k < |dates|
    requires 0 < i < |calendar| && calendar[i - 1] == dates[k]
    ensures !FollowsSignal(calendar, dates, k, calendar[i])
  {}

  /** Every entry date follows one of the first k signal dates and holds its top codes. */
  lemma {:induction false} EntriesFollow(signals: seq<Signal>, calendar: seq<Date>, n: nat, dates: seq<Date>, k: nat)
    requires StrictlyIncreasing(calendar) && StrictlyIncreasing(dates) && k <= |dates|
    requires EntriesUpTo(signals, calendar, n, dates, k).Ok?
    ensures var entries := EntriesUpTo(signals, calendar, n, dates, k).value;
            && (forall d :: d in entries ==> FollowsSignal(calendar, dates, k, d))
            && (forall d :: d in entries ==> exists j :: 0 <= j < k && entries[d] == Top(signals, dates[j], n))
  {
    hide Top, FollowsSignal, StrictlyIncreasing, IndexOf;
    if k > 0 {
      EntriesFollow(signals, calendar, n, dates, k - 1);
      var before := EntriesUpTo(signals, calendar, n, dates, k - 1).value;
      var entries := EntriesUpTo(signals, calendar, n, dates, k).value;
      IndexOfIsFirst(calendar, dates[k - 1]);
      var at := IndexOf(calendar, dates[k - 1]).value;
      NotYetEntered(calendar, dates, k - 1, at + 1);
      assert entries == before[calendar[at + 1] := Top(signals, dates[k - 1], n)] by {
        assert [] + Top(signals, dates[k - 1], n) == Top(signals, dates[k - 1], n);
      }
      JustFollowed(calendar, dates, k, at + 1);
      forall d | d in before
        ensures FollowsSignal(calendar, dates, k, d)
      {
        LaterStillFollows(calendar, dates, k - 1, d);
      }
    }
  }

  lemma JustFollowed(calendar: seq<Date>, dates: seq<Date>, k: nat, i: nat)
    requires 0 < k <= |dates| && 0 < i < |calendar| && calendar[i - 1] == dates[k - 1]
    ensures FollowsSignal(calendar, dates, k, calendar[i])
  {}

  ghost predicate StartsWith(signals: seq<Signal>, start: Date) {
    forall i :: 0 <= i < |signals| ==> start <= signals[i].date
  }

  /** Entries built from unique signals satisfy what the theorems ask of the inputs: they fall on
      the session after a signal session of the simulated calendar, without duplicates. */
  lemma EntriesAreGoverned(signals: seq<Signal>, n: nat, env: Env)
    requires StrictlyIncreasing(env.calendar) && UniqueKeys(signals) && StartsWith(signals, env.signalStart)
    requires ByEntryDate(signals, env.calendar, n) == Ok(env.entries)
    ensures EntriesFollowSignals(env)
    ensures forall d :: d in env.entries ==> NoDuplicates(env.entries[d])
  {
    hide Top, SignalDates, EntriesUpTo, UniqueKeys, NoDuplicates, StrictlyIncreasing;
    var dates := SignalDates(signals);
    DatesAreSorted(signals);
    EntriesFollow(signals, env.calendar, n, dates, |dates|);
    FirstIsBounded(env.calendar, env.signalStart);
    forall d | d in env.entries
      ensures exists i :: First(env) < i < |env.calendar| && env.calendar[i] == d
      ensures NoDuplicates(env.entries[d])
    {
      assert FollowsSignal(env.calendar, dates, |dates|, d);
      var j, i :| 0 <= j < |dates| && 0 < i < |env.calendar| && env.calendar[i] == d && env.calendar[i - 1] == dates[j];
      assert dates[j] in dates;
      var m :| 0 <= m < |dates| && env.entries[d] == Top(signals, dates[m], n);
      TopHasNoDuplicates(signals, dates[m], n);
    }
  }

  lemma {:induction false} FirstIsBounded(calendar: seq<Date>, start: Date)
    requires StrictlyIncreasing(calendar)
    ensures forall i :: 0 <= i < |calendar| ==> (calendar[i] >= start <==> SessionsBefore(calendar, start) <= i)
  {
    if calendar != [] && calendar[0] < start {
      FirstIsBounded(calendar[1..], start);
      forall i | 0 <= i < |calendar|
        ensures calendar[i] >= start <==> SessionsBefore(calendar, start) <= i
      {
        assert i > 0 ==> calendar[i] == calendar[1..][i - 1];
      }
    }
  }

  // ----- the entries, read off the signals -----

  /** The signals of the same date with a greater score, or the same score and a smaller code. */
  function Outranking(s: Signal): Signal -> bool {
    (t: Signal) => t.date == s.date && (t.score > s.score || (t.score == s.score && t.code < s.code))
  }

  lemma {:induction false} CountInserted(ranked: seq<Signal>, s: Signal, which: Signal -> bool)
    ensures Count(InsertRanked(ranked, s), which) == Count(ranked, which) + if which(s) then 1 else 0
  {
    hide RanksBefore;
    if ranked != [] {
      var front, last := ranked[..|ranked| - 1], ranked[|ranked| - 1];
      assert ranked == front + [last];
      CountInserted(front, s, which);
      CountSnoc(ranked, s, which);
      CountSnoc(InsertRanked(front, s), last, which);
    }
  }

  lemma {:induction false} CountRanked(signals: seq<Signal>, date: Date, which: Signal -> bool)
    requires forall t :: which(t) ==> t.date == date
    ensures Count(Ranked(signals, date), which) == Count(signals, which)
  {
    hide InsertRanked;
    if signals != [] {
      CountRanked(signals[..|signals| - 1], date, which);
      CountInserted(Ranked(signals[..|signals| - 1], date), signals[|signals| - 1], which);
    }
  }

  /** In rank order, as many signals outrank one as stand before it. */
  lemma {:induction false} OutrankingStandBefore(ranked: seq<Signal>, date: Date, j: nat, m: nat)
    requires InRankOrder(ranked) && NoDuplicates(CodesOf(ranked)) && (forall s :: s in ranked ==> s.date == date)
    requires j < |ranked| && m <= |ranked|
    ensures Count(ranked[..m], Outranking(ranked[j])) == if m <= j then m else j
  {
    if m > 0 {
      OutrankingStandBefore(ranked, date, j, m - 1);
      assert ranked[..m] == ranked[..m - 1] + [ranked[m - 1]];
      CountSnoc(ranked[..m - 1], ranked[m - 1], Outranking(ranked[j]));
      assert ranked[m - 1] in ranked && ranked[j] in ranked;
      var codes := CodesOf(ranked);
      assert m - 1 < j ==> codes[m - 1] != codes[j];
    }
  }

  /** A signal is taken exactly if fewer than n others of its date outrank it. */
  lemma TakenIff(signals: seq<Signal>, n: nat, s: Signal)
    requires UniqueKeys(signals) && s in signals
    ensures s.code in Top(signals, s.date, n) <==> Count(signals, Outranking(s)) < n
  {
    hide UniqueKeys, Ranked, InRankOrder, NoDuplicates;
    var ranked := Ranked(signals, s.date);
    RankedIsSorted(signals, s.date);
    RankedCodes(signals, s.date);
    RankedMember(signals, s.date, s);
    forall t | t in ranked
      ensures t.date == s.date
    {
      RankedMember(signals, s.date, t);
    }
    var j :| 0 <= j < |ranked| && ranked[j] == s;
    OutrankingStandBefore(ranked, s.date, j, |ranked|);
    assert ranked[..|ranked|] == ranked;
    CountRanked(signals, s.date, Outranking(s));
    HeadHas(ranked, n, j);
  }

  lemma HeadHas(ranked: seq<Signal>, n: nat, j: nat)
    requires NoDuplicates(CodesOf(ranked)) && j < |ranked|
    ensures ranked[j].code in CodesOf(Head(ranked, n)) <==> j < n
  {
    var codes, some := CodesOf(ranked), CodesOf(Head(ranked, n));
    assert forall i :: 0 <= i < |some| ==> some[i] == codes[i];
    assert codes[j] == ranked[j].code;
    if j < n {
      assert some[j] == codes[j];
    } else {
      assert forall i :: 0 <= i < |some| ==> codes[i] != codes[j];
    }
  }

  /** Nothing but signals of the date is taken, and a better one stands before a worse one. */
  lemma TopIsRanked(signals: seq<Signal>, date: Date, n: nat, j: nat, k: nat) returns (s: Signal, t: Signal)
    requires UniqueKeys(signals) && j <= k < |Top(signals, date, n)|
    ensures s in signals && s.date == date && s.code == Top(signals, date, n)[j]
    ensures t in signals && t.date == date && t.code == Top(signals, date, n)[k]
    ensures j < k ==> t.score < s.score || (t.score == s.score && s.code < t.code)
  {
    var ranked := Ranked(signals, date);
    RankedIsSorted(signals, date);
    RankedCodes(signals, date);
    s, t := ranked[j], ranked[k];
    RankedMember(signals, date, s);
    RankedMember(signals, date, t);
    assert j < k ==> CodesOf(ranked)[j] != CodesOf(ranked)[k];
  }

  /** A session with another one after it. */
  ghost predicate HasNext(calendar: seq<Date>, d: Date) {
    exists i :: 0 <= i < |calendar| && calendar[i] == d && i + 1 < |calendar|
  }

  /** Some signal of the date. */
  ghost predicate Signalled(signals: seq<Signal>, date: Date) {
    exists s :: s in signals && s.date == date
  }

  /** After k signal dates, the entries of each session are the top of the session before. */
  ghost predicate Dated(signals: seq<Signal>, calendar: seq<Date>, n: nat, dates: seq<Date>, k: nat, entries: Entries)
    requires k <= |dates|
  {
    && (forall i :: 0 < i < |calendar| ==> (calendar[i] in entries <==> calendar[i - 1] in dates[..k]))
    && (forall i :: 0 < i < |calendar| && calendar[i] in entries ==> entries[calendar[i]] == Top(signals, calendar[i - 1], n))
    && (forall d :: d in entries ==> exists i :: 0 < i < |calendar| && calendar[i] == d)
  }

  lemma {:induction false} EntriesAreDated(signals: seq<Signal>, calendar: seq<Date>, n: nat, dates: seq<Date>, k: nat)
    requires StrictlyIncreasing(calendar) && StrictlyIncreasing(dates) && k <= |dates|
    ensures EntriesUpTo(signals, calendar, n, dates, k).Ok? <==>
            forall j :: 0 <= j < k ==> HasNext(calendar, dates[j])
    ensures EntriesUpTo(signals, calendar, n, dates, k).Ok? ==>
              Dated(signals, calendar, n, dates, k, EntriesUpTo(signals, calendar, n, dates, k).value)
  {
    hide Top, IndexOf, Dated;
    if k == 0 {
      NothingDated(signals, calendar, n, dates);
    } else {
      EntriesAreDated(signals, calendar, n, dates, k - 1);
      IndexOfIsFirst(calendar, dates[k - 1]);
      var before := EntriesUpTo(signals, calendar, n, dates, k - 1);
      if before.Ok? && IndexOf(calendar, dates[k - 1]).Some? {
        var at := IndexOf(calendar, dates[k - 1]).value;
        OnlyIndex(calendar, at);
        if at + 1 < |calendar| {
          OneMoreDated(signals, calendar, n, dates, k, before.value, at + 1);
        }
      }
    }
  }

  lemma OnlyIndex(calendar: seq<Date>, at: nat)
    requires StrictlyIncreasing(calendar) && at < |calendar|
    ensures forall i :: 0 <= i < |calendar| && calendar[i] == calendar[at] ==> i == at
  {}

  lemma NothingDated(signals: seq<Signal>, calendar: seq<Date>, n: nat, dates: seq<Date>)
    ensures Dated(signals, calendar, n, dates, 0, map[])
  {}

  lemma OneMoreDated(signals: seq<Signal>, calendar: seq<Date>, n: nat, dates: seq<Date>, k: nat, before: Entries, at: nat)
    requires StrictlyIncreasing(calendar) && StrictlyIncreasing(dates) && 0 < k <= |dates|
    requires Dated(signals, calendar, n, dates, k - 1, before) && 0 < at < |calendar| && calendar[at - 1] == dates[k - 1]
    ensures Dated(signals, calendar, n, dates, k, Extended(before, calendar[at], Top(signals, dates[k - 1], n)))
  {
    hide Top;
    assert dates[..k] == dates[..k - 1] + [dates[k - 1]];
    assert forall j :: 0 <= j < k - 1 ==> dates[j] < dates[k - 1];
    OnlyIndex(calendar, at);
    OnlyIndex(calendar, at - 1);
    assert calendar[at] !in before;
    assert [] + Top(signals, dates[k - 1], n) == Top(signals, dates[k - 1], n);
  }

  /** The entries from the raw signals: they exist exactly if every signal has a next session, and
      then a code is entered on a session exactly if it was signalled on the session before and
      fewer than n signals of that date outrank it. */
  lemma EntriesAreDecided(signals: seq<Signal>, calendar: seq<Date>, n: nat)
    requires StrictlyIncreasing(calendar) && UniqueKeys(signals)
    ensures ByEntryDate(signals, calendar, n).Ok? <==>
            forall s :: s in signals ==> HasNext(calendar, s.date)
    ensures ByEntryDate(signals, calendar, n).Ok? ==>
              var entries := ByEntryDate(signals, calendar, n).value;
              && (forall d :: d in entries ==> exists i :: 0 < i < |calendar| && calendar[i] == d)
              && (forall i :: 0 < i < |calendar| ==> (calendar[i] in entries <==> Signalled(signals, calendar[i - 1])))
              && (forall i, s :: 0 < i < |calendar| && s in signals && s.date == calendar[i - 1] ==>
                    (s.code in entries[calendar[i]] <==> Count(signals, Outranking(s)) < n))
              && (forall i :: 0 < i < |calendar| && calendar[i] in entries ==> entries[calendar[i]] == Top(signals, calendar[i - 1], n))
  {
    hide Top, EntriesUpTo, UniqueKeys, StrictlyIncreasing, SignalDates, Outranking;
    var dates := SignalDates(signals);
    DatesAreSorted(signals);
    EntriesAreDated(signals, calendar, n, dates, |dates|);
    DatesAreSignalled(signals);
    assert dates[..|dates|] == dates;
    if ByEntryDate(signals, calendar, n).Ok? {
      forall s | s in signals
        ensures s.code in Top(signals, s.date, n) <==> Count(signals, Outranking(s)) < n
      {
        TakenIff(signals, n, s);
      }
      assert forall s :: s in signals ==> Signalled(signals, s.date);
      assert forall s :: s in signals ==> s.date in dates;
      forall s | s in signals
        ensures HasNext(calendar, s.date)
      {
        var j :| 0 <= j < |dates| && dates[j] == s.date;
      }
    } else {
      var j :| 0 <= j < |dates| && !HasNext(calendar, dates[j]);
      assert dates[j] in dates;
      var s :| s in signals && s.date == dates[j];
    }
  }

  lemma DatesAreSignalled(signals: seq<Signal>)
    ensures forall d :: d in SignalDates(signals) <==> Signalled(signals, d)
  {
    hide SignalDates;
    DatesAreSorted(signals);
    forall d | Signalled(signals, d)
      ensures d in SignalDates(signals)
    {
      var s :| s in signals && s.date == d;
      var i :| 0 <= i < |signals| && signals[i] == s;
    }
  }
}
