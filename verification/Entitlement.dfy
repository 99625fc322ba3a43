/** Record-date ownership of dividend events, read off the published holdings
    (position_coverage in src/ashare_quant/data/economic_event_evidence.py). */
module Entitlement {
  import opened Basics
  import opened Ledgers
  import opened Simulation
  import opened Auditor
  import opened History
  import opened BookInvariant
  import opened Runs
  import opened SessionInvariant
  import opened AuditTheorem

  datatype Eligibility =
    | Undetermined
    | InsufficientHistory
    | NotInCalendar
    | HeldThrough
    | NotHeld

  /** One closed position of the exposure source. */
  datatype Owner = Owner(id: PositionId, code: Code, entry: Date, resolution: Date)

  /** One normalized event that may carry an entitlement. */
  datatype Entitling = Entitling(event: nat, code: Code, ex: Date, record: Option<Date>, withinSupport: bool, relevant: bool)

  datatype Coverage = Coverage(event: nat, owner: Owner, eligibility: Eligibility)

  type HoldingKeys = set<(PositionId, Date)>

  function KeysOf(holdings: seq<Holding>): HoldingKeys {
    set h | h in holdings :: (h.id, h.date)
  }

  predicate HeldOn(keys: HoldingKeys, id: PositionId, record: Option<Date>) {
    record.Some? && (id, record.value) in keys
  }

  function EligibilityOf(calendar: seq<Date>, keys: HoldingKeys, p: Owner, record: Option<Date>): Eligibility {
    if record.None? then Undetermined
    else if calendar == [] || record.value < calendar[0] || record.value > calendar[|calendar| - 1] then InsufficientHistory
    else if record.value !in calendar then NotInCalendar
    else if HeldOn(keys, p.id, record) then HeldThrough
    else if p.entry <= record.value < p.resolution then InsufficientHistory
    else NotHeld
  }

  predicate Affected(keys: HoldingKeys, p: Owner, e: Entitling) {
    p.code == e.code && (p.entry <= e.ex <= p.resolution || HeldOn(keys, p.id, e.record))
  }

  function CoveredBy(calendar: seq<Date>, keys: HoldingKeys, e: Entitling, owners: seq<Owner>): seq<Coverage> {
    if owners == [] then []
    else
      var p := owners[|owners| - 1];
      CoveredBy(calendar, keys, e, owners[..|owners| - 1])
      + if Affected(keys, p, e) then [Coverage(e.event, p, EligibilityOf(calendar, keys, p, e.record))] else []
  }

  function CoverageOf(calendar: seq<Date>, keys: HoldingKeys, events: seq<Entitling>, owners: seq<Owner>): seq<Coverage> {
    if events == [] then []
    else
      var e := events[|events| - 1];
      CoverageOf(calendar, keys, events[..|events| - 1], owners)
      + if e.withinSupport && e.relevant then CoveredBy(calendar, keys, e, owners) else []
  }

  /** position_coverage: every supported event against every position of its code. */
  method PositionCoverage(calendar: seq<Date>, holdings: seq<Holding>, events: seq<Entitling>, owners: seq<Owner>) returns (rows: seq<Coverage>)
    ensures rows == CoverageOf(calendar, KeysOf(holdings), events, owners)
  {
    hide EligibilityOf, Affected;
    var keys := KeysOf(holdings);
    rows := [];
    for i := 0 to |events|
      invariant rows == CoverageOf(calendar, keys, events[..i], owners)
    {
      var e := events[i];
      assert events[..i + 1][..i] == events[..i];
      if !e.withinSupport || !e.relevant {
        continue;
      }
      ghost var before := rows;
      for j := 0 to |owners|
        invariant rows == before + CoveredBy(calendar, keys, e, owners[..j])
      {
        var p := owners[j];
        assert owners[..j + 1][..j] == owners[..j];
        if Affected(keys, p, e) {
          rows := rows + [Coverage(e.event, p, EligibilityOf(calendar, keys, p, e.record))];
        }
      }
      assert owners[..|owners|] == owners;
    }
    assert events[..|events|] == events;
  }

  // ----- the index agrees with the interval -----

  /** The positions of a report: opened by one fill, closed by one closing trade. */
  ghost predicate IsOwner(r: Report, p: Owner) {
    exists k :: 0 <= k < |r.trades| && IsOpening(r.trades[k]) && r.trades[k].id == Some(p.id) && p.id in Closings(r.trades)
                && p.entry == r.trades[k].date && p.resolution == Closings(r.trades)[p.id].date
  }

  /** The rows of every owner are the sessions from its entry up to its resolution. */
  ghost predicate RowsSpan(calendar: seq<Date>, r: Report) {
    forall p :: IsOwner(r, p) ==> HoldingDates(Own(r.holdings, HoldingId, p.id)) == Between(calendar, p.entry, p.resolution)
  }

  /** The rows of an accepted report do. */
  lemma AcceptedRowsSpan(env: Env, r: Report)
    requires PositionHistory(env, r)
    ensures RowsSpan(env.calendar, r)
  {
    hide Closings, Openings, Between, CostsReconcile, TerminalReconciles, OpeningIds, ClosingIds, Replayed, Own, HoldingDates;
    forall p | IsOwner(r, p)
      ensures HoldingDates(Own(r.holdings, HoldingId, p.id)) == Between(env.calendar, p.entry, p.resolution)
    {
      var k :| 0 <= k < |r.trades| && IsOpening(r.trades[k]) && r.trades[k].id == Some(p.id)
               && p.entry == r.trades[k].date && p.resolution == Closings(r.trades)[p.id].date;
    }
  }

  /** So do the rows of every run that ends with nothing held, whether or not the replay of its
      actions is accepted. */
  lemma ClosedRowsSpan(env: Env, st: State, i: nat)
    requires Governed(env) && AllClosed(env, st, i)
    ensures RowsSpan(env.calendar, ReportOf(st))
  {
    hide Closings, Openings, Between, Own, HoldingDates, Ready, Governed, TradesOk;
    forall p | IsOwner(ReportOf(st), p)
      ensures HoldingDates(Own(st.holdings, HoldingId, p.id)) == Between(env.calendar, p.entry, p.resolution)
    {
      var k :| 0 <= k < |st.trades| && IsOpening(st.trades[k]) && st.trades[k].id == Some(p.id)
               && p.entry == st.trades[k].date && p.resolution == Closings(st.trades)[p.id].date;
      ClosedSpan(env, st, i, p.id);
      ActionsAreOfOpened(env, st, i);
      OpeningIsListed(env, st.trades, st.trades[k]);
      var q :| q in Openings(st.trades) && Openings(st.trades)[q] == st.trades[k];
      OpeningIsRow(st.trades, q);
    }
  }

  /** A holding row on a date is then a session inside the interval. */
  lemma HeldIffInside(calendar: seq<Date>, r: Report, p: Owner, d: Date)
    requires RowsSpan(calendar, r) && IsOwner(r, p)
    ensures (p.id, d) in KeysOf(r.holdings) <==> d in calendar && p.entry <= d < p.resolution
  {
    hide Between, Own, IsOwner;
    var rows := Own(r.holdings, HoldingId, p.id);
    BetweenIff(calendar, p.entry, p.resolution, d);
    forall h
      ensures h in rows <==> h in r.holdings && h.id == p.id
    {
      OwnMember(r.holdings, HoldingId, p.id, h);
    }
    if d in HoldingDates(rows) {
      var i :| 0 <= i < |rows| && HoldingDates(rows)[i] == d;
      assert rows[i] in rows;
    }
    if (p.id, d) in KeysOf(r.holdings) {
      var h :| h in r.holdings && (h.id, h.date) == (p.id, d);
      var i :| 0 <= i < |rows| && rows[i] == h;
      assert HoldingDates(rows)[i] == d;
    }
  }

  /** The days from the first to the last session. */
  ghost predicate Covers(calendar: seq<Date>, d: Date) {
    calendar != [] && calendar[0] <= d && d <= calendar[|calendar| - 1]
  }

  /** What each answer means, whatever rows the holdings lack: a holding row decides, and a day inside the
      interval without one is missing history. */
  ghost predicate Means(calendar: seq<Date>, keys: HoldingKeys, p: Owner, record: Option<Date>, x: Eligibility) {
    match record
    case None => x == Undetermined
    case Some(d) =>
      var inside := p.entry <= d && d < p.resolution;
      match x
      case Undetermined => false
      case NotInCalendar => Covers(calendar, d) && d !in calendar
      case HeldThrough => Covers(calendar, d) && d in calendar && (p.id, d) in keys
      case NotHeld => Covers(calendar, d) && d in calendar && (p.id, d) !in keys && !inside
      case InsufficientHistory => !Covers(calendar, d) || (d in calendar && (p.id, d) !in keys && inside)
  }

  lemma EligibilityIff(calendar: seq<Date>, keys: HoldingKeys, p: Owner, record: Option<Date>, x: Eligibility)
    ensures EligibilityOf(calendar, keys, p, record) == x <==> Means(calendar, keys, p, record, x)
  {}

  /** What ownership means, read off the dates alone. */
  function EntitledBy(calendar: seq<Date>, p: Owner, record: Option<Date>): Eligibility {
    if record.None? then Undetermined
    else if calendar == [] || record.value < calendar[0] || record.value > calendar[|calendar| - 1] then InsufficientHistory
    else if record.value !in calendar then NotInCalendar
    else if p.entry <= record.value < p.resolution then HeldThrough
    else NotHeld
  }

  /** The entitlement is decided by dates alone: history is never missing on a session. */
  lemma EntitlementIsDecided(calendar: seq<Date>, r: Report, p: Owner, record: Option<Date>)
    requires RowsSpan(calendar, r) && IsOwner(r, p)
    ensures EligibilityOf(calendar, KeysOf(r.holdings), p, record) == EntitledBy(calendar, p, record)
  {
    hide RowsSpan, IsOwner, KeysOf;
    if record.Some? {
      HeldIffInside(calendar, r, p, record.value);
    }
  }

  /** A report that the replay of positions accepts, wherever it came from, decides the entitlements of
      its own positions. */
  lemma AcceptedReportDecides(env: Env, r: Report, p: Owner, record: Option<Date>)
    requires PositionHistory(env, r) && IsOwner(r, p)
    ensures EligibilityOf(env.calendar, KeysOf(r.holdings), p, record) == EntitledBy(env.calendar, p, record)
  {
    hide PositionHistory, IsOwner, RowsSpan, KeysOf, EligibilityOf, EntitledBy;
    AcceptedRowsSpan(env, r);
    EntitlementIsDecided(env.calendar, r, p, record);
  }

  /** Every completed strict run decides the entitlements of its own positions. */
  lemma RunDecidesEntitlements(env: Env, p: Owner, record: Option<Date>)
    requires Governed(env) && EntriesFollowSignals(env) && env.strict
    requires Simulate(env).Ok? && IsOwner(ReportOf(Simulate(env).value), p)
    ensures EligibilityOf(env.calendar, KeysOf(Simulate(env).value.holdings), p, record) == EntitledBy(env.calendar, p, record)
  {
    hide IsOwner, Simulate, Governed, EntriesFollowSignals, KeysOf, RowsSpan, EligibilityOf, EntitledBy, Ready;
    RunRowsSpan(env);
    EntitlementIsDecided(env.calendar, ReportOf(Simulate(env).value), p, record);
  }

  lemma RunRowsSpan(env: Env)
    requires Governed(env) && EntriesFollowSignals(env) && env.strict && Simulate(env).Ok?
    ensures RowsSpan(env.calendar, ReportOf(Simulate(env).value))
  {
    hide RunUpTo, Governed, EntriesFollowSignals, RowsSpan, Ready, First, LifecyclesReconcile, ActionLedgerReconciles;
    var st := Simulate(env).value;
    assert Sessions(env) == Ok(st);
    var m := RunIsReady(env, |env.calendar|);
    ClosedRowsSpan(env, st, m);
  }

  // ----- the coverage table -----

  /** The positions an event concerns, by dates alone. */
  predicate Concerns(calendar: seq<Date>, e: Entitling, p: Owner) {
    && e.withinSupport && e.relevant && p.code == e.code
    && (p.entry <= e.ex <= p.resolution
        || (e.record.Some? && e.record.value in calendar && p.entry <= e.record.value < p.resolution))
  }

  lemma {:induction false} CoveredByHas(calendar: seq<Date>, r: Report, e: Entitling, owners: seq<Owner>, c: Coverage)
    requires RowsSpan(calendar, r) && (forall p :: p in owners ==> IsOwner(r, p)) && e.withinSupport && e.relevant
    ensures c in CoveredBy(calendar, KeysOf(r.holdings), e, owners) <==>
            c.owner in owners && Concerns(calendar, e, c.owner)
            && c == Coverage(e.event, c.owner, EntitledBy(calendar, c.owner, e.record))
  {
    hide RowsSpan, IsOwner, KeysOf, EligibilityOf, EntitledBy;
    if owners != [] {
      var front, p := owners[..|owners| - 1], owners[|owners| - 1];
      assert owners == front + [p];
      CoveredByHas(calendar, r, e, front, c);
      EntitlementIsDecided(calendar, r, p, e.record);
      if e.record.Some? {
        HeldIffInside(calendar, r, p, e.record.value);
      }
    }
  }

  /** The coverage table holds exactly the supported events against the positions they concern,
      each with the entitlement its dates decide. */
  lemma {:induction false} CoverageIsDecided(calendar: seq<Date>, r: Report, events: seq<Entitling>, owners: seq<Owner>, c: Coverage)
    requires RowsSpan(calendar, r) && forall p :: p in owners ==> IsOwner(r, p)
    ensures c in CoverageOf(calendar, KeysOf(r.holdings), events, owners) <==>
            c.owner in owners
            && exists e :: e in events && Concerns(calendar, e, c.owner)
                           && c == Coverage(e.event, c.owner, EntitledBy(calendar, c.owner, e.record))
  {
    hide RowsSpan, IsOwner, KeysOf, EntitledBy, CoveredBy;
    if events != [] {
      var front, e := events[..|events| - 1], events[|events| - 1];
      assert events == front + [e];
      CoverageIsDecided(calendar, r, front, owners, c);
      if e.withinSupport && e.relevant {
        CoveredByHas(calendar, r, e, owners, c);
      }
    }
  }
}
