/** Conflict-gated review of provider dividend rows: grouping, triage and decisions
    (src/ashare_quant/data/economic_event_review.py). */
module Review {
  import opened Basics
  import opened Dividends

  /** The terms two implemented rows must share not to conflict. */
  datatype Terms = Terms(
    record: Option<Date>,
    ex: Option<Date>,
    pay: Option<Date>,
    listing: Option<Date>,
    cash: Option<real>,
    cashBeforeTax: Option<real>,
    total: Option<real>,
    bonus: Option<real>,
    reserve: Option<real>)

  datatype Finding = Invalid(name: FieldName) | InvalidEnd | MissingComponents | MissingRecordOrEx | DateOrder | CashFields

  /** The identity a candidate group is named after. A row with an unparsable field keeps its own
      hash in it, so it never joins another row. */
  datatype GroupId = GroupId(code: Code, end: Option<Date>, terms: Terms, findings: set<Finding>, invalid: Option<nat>)

  function TermsOf(r: RawRow): Terms {
    Terms(Read(r.record), Read(r.ex), Read(r.pay), Read(r.listing),
          ReadAmount(r.cash), ReadAmount(r.cashBeforeTax), ReadAmount(r.total), ReadAmount(r.bonus), ReadAmount(r.reserve))
  }

  predicate Complete(t: Terms) {
    t.cash.Some? && t.cashBeforeTax.Some? && t.total.Some? && t.bonus.Some? && t.reserve.Some?
  }

  function InvalidFindings(r: RawRow): set<Finding> {
    (set i | i in InvalidFields(r) && i.InvalidField? :: Invalid(i.name)) + (if r.end.Malformed? then {InvalidEnd} else {})
  }

  function TermFindings(t: Terms): set<Finding> {
    (if Complete(t) then {} else {MissingComponents})
    + (if t.record.None? || t.ex.None? then {MissingRecordOrEx} else {})
    + (if (t.record.Some? && t.ex.Some? && t.record.value >= t.ex.value) || Before(t.pay, t.ex) || Before(t.listing, t.ex)
       then {DateOrder} else {})
    + (if t.cashBeforeTax.Some? && t.cash.Some? && t.cash.value > t.cashBeforeTax.value + 0.0000000001 then {CashFields} else {})
  }

  function IdOf(r: RawRow): GroupId {
    var t := TermsOf(r);
    var invalid := InvalidFindings(r);
    GroupId(r.code, Read(r.end), t, invalid + TermFindings(t), if invalid != {} then Some(r.hash) else None)
  }

  datatype Category = IncompleteEconomics | CashAndShares | CashOnly | SharesOnly | ZeroEconomics

  function CategoryOf(t: Terms): Category {
    var cash := Positive(t.cash) || Positive(t.cashBeforeTax);
    var shares := Positive(t.total) || Positive(t.bonus) || Positive(t.reserve);
    if !Complete(t) then IncompleteEconomics
    else if cash && shares then CashAndShares
    else if cash then CashOnly
    else if shares then SharesOnly
    else ZeroEconomics
  }

  // ----- grouping -----

  datatype Group = Group(hashes: set<nat>, sources: set<Code>, announced: set<Date>, implementation: set<Date>, rows: nat)

  type Groups = map<GroupId, Group>

  predicate Belongs(id: GroupId, r: RawRow) {
    r.implemented && IdOf(r) == id
  }

  function Summary(members: seq<RawRow>): Group {
    Group(set r | r in members :: r.hash,
          set r | r in members :: r.sourceCode,
          set r | r in members && r.announced.Given? :: r.announced.value,
          set r | r in members && r.implementation.Given? :: r.implementation.value,
          |members|)
  }

  function Members(raw: seq<RawRow>, id: GroupId): seq<RawRow> {
    Select(raw, (r: RawRow) => Belongs(id, r))
  }

  function GroupIds(raw: seq<RawRow>): set<GroupId> {
    set r | r in raw && r.implemented :: IdOf(r)
  }

  /** revision_groups: one group for each identity among the implemented rows. */
  function GroupsOf(raw: seq<RawRow>): Groups {
    map id | id in GroupIds(raw) :: Summary(Members(raw, id))
  }

  lemma MembersSnoc(raw: seq<RawRow>, r: RawRow, id: GroupId)
    ensures Members(raw + [r], id) == Members(raw, id) + (if Belongs(id, r) then [r] else [])
  {
    assert (raw + [r])[..|raw|] == raw;
  }

  lemma {:induction false} MemberIff(raw: seq<RawRow>, id: GroupId, r: RawRow)
    ensures r in Members(raw, id) <==> r in raw && Belongs(id, r)
  {
    hide IdOf;
    if raw != [] {
      var front, last := raw[..|raw| - 1], raw[|raw| - 1];
      assert raw == front + [last];
      MembersSnoc(front, last, id);
      MemberIff(front, id, r);
    }
  }

  lemma GroupIdsSnoc(raw: seq<RawRow>, r: RawRow)
    ensures GroupIds(raw + [r]) == GroupIds(raw) + (if r.implemented then {IdOf(r)} else {})
  {
    hide IdOf;
  }

  lemma NothingGrouped()
    ensures GroupIds([]) == {} && forall id :: Members([], id) == []
  {}

  /** The loop that collects the rows of each identity. */
  method RevisionGroups(raw: seq<RawRow>) returns (groups: Groups)
    ensures groups == GroupsOf(raw)
  {
    hide IdOf, Members, GroupIds, Summary;
    var grouped: map<GroupId, seq<RawRow>> := map[];
    NothingGrouped();
    for n := 0 to |raw|
      invariant grouped.Keys == GroupIds(raw[..n])
      invariant forall id :: id in grouped ==> grouped[id] == Members(raw[..n], id)
      invariant forall id :: id !in grouped ==> Members(raw[..n], id) == []
    {
      var r := raw[n];
      assert raw[..n + 1] == raw[..n] + [r];
      GroupIdsSnoc(raw[..n], r);
      forall id
        ensures Members(raw[..n + 1], id) == Members(raw[..n], id) + (if Belongs(id, r) then [r] else [])
      {
        MembersSnoc(raw[..n], r, id);
      }
      if r.implemented {
        var id := IdOf(r);
        grouped := grouped[id := (if id in grouped then grouped[id] else []) + [r]];
      }
    }
    assert raw[..|raw|] == raw;
    groups := map id | id in grouped :: Summary(grouped[id]);
  }

  // ----- independence of the row order -----

  lemma {:induction false} CountInsert<T>(a: seq<T>, b: seq<T>, x: T, which: T -> bool)
    ensures Count(a + [x] + b, which) == Count(a + b, which) + if which(x) then 1 else 0
  {
    if b == [] {
      assert a + [x] + b == a + [x] && a + b == a;
      CountSnoc(a, x, which);
    } else {
      var front, last := b[..|b| - 1], b[|b| - 1];
      assert a + [x] + b == (a + [x] + front) + [last] && a + b == (a + front) + [last];
      CountSnoc(a + [x] + front, last, which);
      CountSnoc(a + front, last, which);
      CountInsert(a, front, x, which);
    }
  }

  lemma SplitAt<T>(b: seq<T>, x: T) returns (left: seq<T>, right: seq<T>)
    requires x in b
    ensures b == left + [x] + right && multiset(b) == multiset(left + right) + multiset{x}
  {
    var j :| 0 <= j < |b| && b[j] == x;
    left, right := b[..j], b[j + 1..];
    assert b == left + [x] + right;
    assert multiset(left + [x] + right) == multiset(left) + multiset{x} + multiset(right);
  }

  /** Permuted rows are counted alike. */
  lemma {:induction false} CountPermuted<T>(a: seq<T>, b: seq<T>, which: T -> bool)
    requires multiset(a) == multiset(b)
    ensures Count(a, which) == Count(b, which)
    decreases |a|
  {
    hide Count;
    if a == [] {
      assert |b| == |multiset(b)| == 0;
      assert a == b;
    } else {
      var front, last := a[..|a| - 1], a[|a| - 1];
      assert a == front + [last];
      assert last in multiset(a);
      var left, right := SplitAt(b, last);
      FrontOf(front, last, a, left + right);
      CountPermuted(front, left + right, which);
      CountInsert(left, right, last, which);
      CountSnoc(front, last, which);
    }
  }

  lemma FrontOf<T>(front: seq<T>, last: T, a: seq<T>, rest: seq<T>)
    requires a == front + [last] && multiset(a) == multiset(rest) + multiset{last}
    ensures multiset(front) == multiset(rest)
  {
    assert multiset(a) == multiset(front) + multiset{last};
    assert multiset(front) == multiset(a) - multiset{last} == multiset(rest);
  }

  lemma {:induction false} SelectCounts<T>(rows: seq<T>, which: T -> bool)
    ensures |Select(rows, which)| == Count(rows, which)
  {
    if rows != [] {
      SelectCounts(rows[..|rows| - 1], which);
    }
  }

  /** The groups do not depend on the order in which the provider returned the rows. */
  lemma GroupsArePermutationInvariant(raw: seq<RawRow>, other: seq<RawRow>)
    requires multiset(raw) == multiset(other)
    ensures GroupsOf(raw) == GroupsOf(other)
  {
    hide IdOf;
    assert forall r :: r in raw <==> r in multiset(raw);
    assert forall r :: r in other <==> r in multiset(other);
    forall id | id in GroupIds(raw)
      ensures Summary(Members(raw, id)) == Summary(Members(other, id))
    {
      forall r
        ensures r in Members(raw, id) <==> r in Members(other, id)
      {
        MemberIff(raw, id, r);
        MemberIff(other, id, r);
      }
      var which := (r: RawRow) => Belongs(id, r);
      SelectCounts(raw, which);
      SelectCounts(other, which);
      CountPermuted(raw, other, which);
      SameSummary(Members(raw, id), Members(other, id));
    }
    assert GroupIds(raw) == GroupIds(other);
  }

  lemma SameSummary(a: seq<RawRow>, b: seq<RawRow>)
    requires (forall r :: r in a <==> r in b) && |a| == |b|
    ensures Summary(a) == Summary(b)
  {}

  /** Every implemented row is a member of exactly one group, and keeps its hash there. */
  lemma GroupsPartitionRows(raw: seq<RawRow>, r: RawRow, id: GroupId)
    requires r in raw && r.implemented
    ensures IdOf(r) in GroupsOf(raw) && r.hash in GroupsOf(raw)[IdOf(r)].hashes
    ensures r in Members(raw, id) <==> id == IdOf(r)
  {
    hide IdOf;
    MemberIff(raw, IdOf(r), r);
    MemberIff(raw, id, r);
  }

  // ----- conflicts -----

  predicate SharesDate(a: Option<Date>, b: Option<Date>) {
    a.Some? && a == b
  }

  /** Disagreeing terms for the same code and ex-date or report period. */
  predicate Conflict(a: GroupId, b: GroupId) {
    a != b && a.code == b.code && (SharesDate(a.terms.ex, b.terms.ex) || SharesDate(a.end, b.end)) && a.terms != b.terms
  }

  function ConflictsOf(groups: set<GroupId>, id: GroupId): set<GroupId> {
    set other | other in groups && Conflict(id, other)
  }

  lemma ConflictIsSymmetric(groups: set<GroupId>, a: GroupId, b: GroupId)
    requires a in groups && b in groups
    ensures b in ConflictsOf(groups, a) <==> a in ConflictsOf(groups, b)
  {}

  /** Two groups for one code and ex-date conflict unless their terms are the same. */
  lemma SameDateConflicts(a: GroupId, b: GroupId)
    requires a != b && a.code == b.code && a.terms.ex.Some? && a.terms.ex == b.terms.ex
    ensures Conflict(a, b) <==> a.terms != b.terms
  {}

  // ----- triage -----

  datatype EventId = AuditEvent(boundary: nat) | ReverseEvent(code: Code, date: Date) | UndatedEvent(code: Code)

  datatype Triage =
    | MultipleConflicting
    | OnlyNearby
    | NoExact
    | IncompleteEvent
    | UnsupportedType
    | IdenticalRevisions
    | UniqueExact

  datatype QueueRow = QueueRow(code: Code, date: Option<Date>, candidates: set<GroupId>, exact: set<GroupId>, status: Triage)

  type Queue = map<EventId, QueueRow>

  predicate Clashes(groups: Groups, exact: set<GroupId>) {
    |exact| > 1 || exists g :: g in exact && ConflictsOf(groups.Keys, g) != {}
  }

  /** The status of an exact match by its single group. */
  function StatusOfSingle(groups: Groups, exact: set<GroupId>): Triage {
    if exists g | g in exact :: g.findings != {} then IncompleteEvent
    else if exists g | g in exact :: CategoryOf(g.terms) == ZeroEconomics then UnsupportedType
    else if exists g | g in exact :: g in groups && |groups[g].hashes| > 1 then IdenticalRevisions
    else UniqueExact
  }

  function TriageOf(groups: Groups, candidates: set<GroupId>, exact: set<GroupId>): Triage {
    if Clashes(groups, exact) then MultipleConflicting
    else if exact == {} then (if candidates != {} then OnlyNearby else NoExact)
    else StatusOfSingle(groups, exact)
  }

  function RowFor(groups: Groups, code: Code, date: Option<Date>, candidates: set<GroupId>, exact: set<GroupId>): QueueRow {
    QueueRow(code, date, candidates, exact, TriageOf(groups, candidates, exact))
  }

  // ----- the queue -----

  /** One observed factor change, with the holding intervals exposed to it. */
  datatype Adjustment = Adjustment(boundary: nat, code: Code, date: Date, intervals: set<(Date, Date)>)

  datatype Holder = Holder(position: nat, code: Code, entry: Date, resolution: Date)

  datatype Exposure = Exposure(adjustments: seq<Adjustment>, holders: set<Holder>, holdings: set<(nat, Date)>, cutoff: Date)

  predicate Within(d: Option<Date>, intervals: set<(Date, Date)>) {
    d.Some? && exists i :: i in intervals && i.0 <= d.value <= i.1
  }

  /** _related: dated inside an interval, or not dated at all. */
  predicate Related(t: Terms, intervals: set<(Date, Date)>) {
    || (t.ex.None? && t.record.None? && t.pay.None? && t.listing.None?)
    || Within(t.ex, intervals) || Within(t.record, intervals) || Within(t.pay, intervals) || Within(t.listing, intervals)
  }

  function ExactOn(groups: Groups, code: Code, date: Date): set<GroupId> {
    set g | g in groups && g.code == code && g.terms.ex == Some(date)
  }

  function WithSiblings(groups: Groups, candidates: set<GroupId>): set<GroupId> {
    candidates + set g, other | g in candidates && other in ConflictsOf(groups.Keys, g) :: other
  }

  function AuditRow(groups: Groups, a: Adjustment): QueueRow {
    var exact := ExactOn(groups, a.code, a.date);
    var context := set g | g in groups && g.code == a.code && Related(g.terms, a.intervals);
    RowFor(groups, a.code, Some(a.date), WithSiblings(groups, exact + context), exact)
  }

  function AuditRows(groups: Groups, adjustments: seq<Adjustment>): Queue {
    if adjustments == [] then map[]
    else
      var last := adjustments[|adjustments| - 1];
      AuditRows(groups, adjustments[..|adjustments| - 1])[AuditEvent(last.boundary) := AuditRow(groups, last)]
  }

  predicate Observed(e: Exposure, code: Code, date: Date) {
    exists a :: a in e.adjustments && a.code == code && a.date == date
  }

  /** Someone held the code over the ex-date, or on the record date. */
  predicate Entitled(e: Exposure, code: Code, t: Terms) {
    t.ex.Some? && exists p :: p in e.holders && p.code == code
                    && (p.entry <= t.ex.value <= p.resolution || (t.record.Some? && (p.position, t.record.value) in e.holdings))
  }

  /** Reverse coverage: an entitlement without an observed factor change. */
  predicate Uncovered(e: Exposure, g: GroupId) {
    && g.terms.ex.Some? && g.terms.ex.value <= e.cutoff && !Observed(e, g.code, g.terms.ex.value)
    && Entitled(e, g.code, g.terms) && CategoryOf(g.terms) != ZeroEconomics
  }

  function MatchesOn(groups: Groups, e: Exposure, code: Code, date: Date): set<GroupId> {
    set g | g in ExactOn(groups, code, date) && Uncovered(e, g)
  }

  function ReverseRow(groups: Groups, e: Exposure, code: Code, date: Date): QueueRow {
    var matches := MatchesOn(groups, e, code, date);
    RowFor(groups, code, Some(date), matches, matches)
  }

  predicate UndatedEntitlement(e: Exposure, g: GroupId) {
    g.terms.ex.None?
    && (exists p :: p in e.holders && p.code == g.code)
    && Related(g.terms, set p | p in e.holders && p.code == g.code :: (p.entry, p.resolution))
  }

  function UndatedMatches(groups: Groups, e: Exposure, code: Code): set<GroupId> {
    set g | g in groups && g.code == code && UndatedEntitlement(e, g)
  }

  function UndatedRow(groups: Groups, e: Exposure, code: Code): QueueRow {
    RowFor(groups, code, None, UndatedMatches(groups, e, code), {})
  }

  function ReverseRows(groups: Groups, e: Exposure): Queue {
    map g | g in groups && Uncovered(e, g) && g.terms.ex.Some? ::
      ReverseEvent(g.code, g.terms.ex.value) := ReverseRow(groups, e, g.code, g.terms.ex.value)
  }

  function UndatedRows(groups: Groups, e: Exposure): Queue {
    map g | g in groups && UndatedEntitlement(e, g) :: UndatedEvent(g.code) := UndatedRow(groups, e, g.code)
  }

  /** The queue: audit boundaries, reverse coverage, and undated entitlements. */
  function QueueOf(groups: Groups, e: Exposure): Queue {
    AuditRows(groups, e.adjustments) + ReverseRows(groups, e) + UndatedRows(groups, e)
  }

  lemma AuditRowsSnoc(groups: Groups, adjustments: seq<Adjustment>, a: Adjustment)
    ensures AuditRows(groups, adjustments + [a]) == AuditRows(groups, adjustments)[AuditEvent(a.boundary) := AuditRow(groups, a)]
  {
    assert (adjustments + [a])[..|adjustments|] == adjustments;
  }

  type BoundaryKey = (Code, Date)

  /** The entitled groups without an observed factor change, by code and ex-date. */
  method CollectSupplemental(groups: Groups, e: Exposure) returns (supplemental: map<BoundaryKey, set<GroupId>>)
    ensures forall code, date :: (code, date) in supplemental <==> exists g :: g in groups && Uncovered(e, g) && g.code == code && g.terms.ex == Some(date)
    ensures forall code, date :: (code, date) in supplemental ==> supplemental[(code, date)] == MatchesOn(groups, e, code, date)
  {
    hide Uncovered;
    supplemental := map[];
    var pending := groups.Keys;
    while pending != {}
      invariant pending <= groups.Keys
      invariant forall code, date :: (code, date) in supplemental <==>
                  exists g :: g in groups && g !in pending && Uncovered(e, g) && g.code == code && g.terms.ex == Some(date)
      invariant forall code, date :: (code, date) in supplemental ==>
                  supplemental[(code, date)] == set g | g in MatchesOn(groups, e, code, date) && g !in pending
      decreases |pending|
    {
      var g :| g in pending;
      pending := pending - {g};
      if g.terms.ex.Some? && Uncovered(e, g) {
        var key := (g.code, g.terms.ex.value);
        supplemental := supplemental[key := (if key in supplemental then supplemental[key] else {}) + {g}];
      }
    }
  }

  method CollectUndated(groups: Groups, e: Exposure) returns (undated: map<Code, set<GroupId>>)
    ensures forall code :: code in undated <==> exists g :: g in groups && UndatedEntitlement(e, g) && g.code == code
    ensures forall code :: code in undated ==> undated[code] == UndatedMatches(groups, e, code)
  {
    hide UndatedEntitlement;
    undated := map[];
    var pending := groups.Keys;
    while pending != {}
      invariant pending <= groups.Keys
      invariant forall code :: code in undated <==> exists g :: g in groups && g !in pending && UndatedEntitlement(e, g) && g.code == code
      invariant forall code :: code in undated ==> undated[code] == set g | g in UndatedMatches(groups, e, code) && g !in pending
      decreases |pending|
    {
      var g :| g in pending;
      pending := pending - {g};
      if UndatedEntitlement(e, g) {
        undated := undated[g.code := (if g.code in undated then undated[g.code] else {}) + {g}];
      }
    }
  }

  function SupplementalRows(groups: Groups, supplemental: map<BoundaryKey, set<GroupId>>): Queue {
    map key | key in supplemental :: ReverseEvent(key.0, key.1) := RowFor(groups, key.0, Some(key.1), supplemental[key], supplemental[key])
  }

  function UndatedQueue(groups: Groups, undated: map<Code, set<GroupId>>): Queue {
    map code | code in undated :: UndatedEvent(code) := RowFor(groups, code, None, undated[code], {})
  }

  lemma SupplementalIsReverse(groups: Groups, e: Exposure, supplemental: map<BoundaryKey, set<GroupId>>)
    requires forall code, date :: (code, date) in supplemental <==> exists g :: g in groups && Uncovered(e, g) && g.code == code && g.terms.ex == Some(date)
    requires forall code, date :: (code, date) in supplemental ==> supplemental[(code, date)] == MatchesOn(groups, e, code, date)
    ensures SupplementalRows(groups, supplemental) == ReverseRows(groups, e)
  {
    hide Uncovered, RowFor, MatchesOn;
    var a, b := SupplementalRows(groups, supplemental), ReverseRows(groups, e);
    forall event | event in a
      ensures event in b
    {
      var key :| key in supplemental && ReverseEvent(key.0, key.1) == event;
      assert (key.0, key.1) in supplemental;
      var g :| g in groups && Uncovered(e, g) && g.code == key.0 && g.terms.ex == Some(key.1);
    }
    forall event | event in b
      ensures event in a && a[event] == b[event]
    {
      var g :| g in groups && Uncovered(e, g) && g.terms.ex.Some? && ReverseEvent(g.code, g.terms.ex.value) == event;
      assert (g.code, g.terms.ex.value) in supplemental;
    }
  }

  lemma UndatedIsUndated(groups: Groups, e: Exposure, undated: map<Code, set<GroupId>>)
    requires forall code :: code in undated <==> exists g :: g in groups && UndatedEntitlement(e, g) && g.code == code
    requires forall code :: code in undated ==> undated[code] == UndatedMatches(groups, e, code)
    ensures UndatedQueue(groups, undated) == UndatedRows(groups, e)
  {
    hide UndatedEntitlement, RowFor, UndatedMatches;
    var a, b := UndatedQueue(groups, undated), UndatedRows(groups, e);
    forall event | event in b
      ensures event in a && a[event] == b[event]
    {
      var g :| g in groups && UndatedEntitlement(e, g) && UndatedEvent(g.code) == event;
      assert g.code in undated;
    }
  }

  /** build_triage: the audited boundaries, then reverse coverage, then undated entitlements. */
  method BuildTriage(groups: Groups, e: Exposure) returns (queue: Queue)
    ensures queue == QueueOf(groups, e)
  {
    hide AuditRow, Uncovered, UndatedMatches, UndatedEntitlement, MatchesOn, AuditRows, SupplementalRows, UndatedQueue, ReverseRows, UndatedRows;
    var audits: Queue := map[];
    NoAudits(groups);
    for n := 0 to |e.adjustments|
      invariant audits == AuditRows(groups, e.adjustments[..n])
    {
      assert e.adjustments[..n + 1] == e.adjustments[..n] + [e.adjustments[n]];
      AuditRowsSnoc(groups, e.adjustments[..n], e.adjustments[n]);
      audits := audits[AuditEvent(e.adjustments[n].boundary) := AuditRow(groups, e.adjustments[n])];
    }
    assert e.adjustments[..|e.adjustments|] == e.adjustments;
    var supplemental := CollectSupplemental(groups, e);
    var undated := CollectUndated(groups, e);
    SupplementalIsReverse(groups, e, supplemental);
    UndatedIsUndated(groups, e, undated);
    queue := audits + SupplementalRows(groups, supplemental) + UndatedQueue(groups, undated);
  }

  lemma NoAudits(groups: Groups)
    ensures AuditRows(groups, []) == map[]
  {}

  // ----- what an eligible row guarantees -----

  predicate Approvable(status: Triage) {
    status == UniqueExact || status == IdenticalRevisions
  }

  /** A row built by the triage, for some event. */
  ghost predicate Triaged(groups: Groups, e: Exposure, q: QueueRow) {
    || (exists a: Adjustment :: q == AuditRow(groups, a))
    || (exists code: Code, date: Date :: q == ReverseRow(groups, e, code, date))
    || (exists code: Code :: q == UndatedRow(groups, e, code))
  }

  lemma {:induction false} AuditRowsAreTriaged(groups: Groups, e: Exposure, adjustments: seq<Adjustment>, event: EventId)
    requires event in AuditRows(groups, adjustments)
    ensures Triaged(groups, e, AuditRows(groups, adjustments)[event])
  {
    hide AuditRow, ReverseRow, UndatedRow;
    var last := adjustments[|adjustments| - 1];
    if event != AuditEvent(last.boundary) {
      AuditRowsAreTriaged(groups, e, adjustments[..|adjustments| - 1], event);
    } else {
      assert AuditRows(groups, adjustments)[event] == AuditRow(groups, last);
    }
  }

  lemma QueueIsTriaged(groups: Groups, e: Exposure, event: EventId)
    requires event in QueueOf(groups, e)
    ensures Triaged(groups, e, QueueOf(groups, e)[event])
  {
    hide AuditRow, ReverseRow, UndatedRow, AuditRows, Uncovered, UndatedEntitlement;
    if event in AuditRows(groups, e.adjustments) && !(event.ReverseEvent? || event.UndatedEvent?) {
      AuditRowsAreTriaged(groups, e, e.adjustments, event);
    } else {
      assert event.AuditEvent? ==> event in AuditRows(groups, e.adjustments);
      if event in AuditRows(groups, e.adjustments) {
        AuditRowsAreTriaged(groups, e, e.adjustments, event);
      }
    }
  }

  lemma OnlyOne(s: set<GroupId>, a: GroupId, b: GroupId)
    requires |s| <= 1 && a in s && b in s
    ensures a == b
  {
    if a != b {
      assert {a, b} <= s;
      SubsetCardinality({a, b}, s);
    }
  }

  /** An approvable match is the only group of the provider for its code and ex-date, conflicts with
      no group at all, and is free of findings with some economics. This holds although reverse
      coverage looks only at entitled groups with economics. */
  lemma ApprovableIsAlone(groups: Groups, e: Exposure, q: QueueRow, g: GroupId, other: GroupId)
    requires Triaged(groups, e, q) && Approvable(q.status) && g in q.exact && other in groups
    ensures g in groups && g.terms.ex.Some? && g.findings == {} && CategoryOf(g.terms) != ZeroEconomics
    ensures !Conflict(g, other) && !Conflict(other, g)
    ensures other.code == g.code && other.terms.ex == g.terms.ex ==> other == g
  {
    hide CategoryOf, Entitled, Related, WithSiblings;
    assert !Clashes(groups, q.exact) && StatusOfSingle(groups, q.exact) == q.status by { ApprovableStatus(groups, e, q); }
    ExactIsDated(groups, e, q, g);
    assert ConflictsOf(groups.Keys, g) == {};
    assert !Conflict(g, other) by { assert Conflict(g, other) ==> other in ConflictsOf(groups.Keys, g); }
    if other != g && other.code == g.code && other.terms.ex == g.terms.ex {
      SameDateConflicts(g, other);
      ExactHasTwins(groups, e, q, g, other);
      OnlyOne(q.exact, g, other);
      assert false;
    }
  }

  lemma ApprovableStatus(groups: Groups, e: Exposure, q: QueueRow)
    requires Triaged(groups, e, q) && Approvable(q.status)
    ensures !Clashes(groups, q.exact) && StatusOfSingle(groups, q.exact) == q.status
  {
    hide ConflictsOf, StatusOfSingle, Clashes, WithSiblings, ExactOn, MatchesOn, Related, UndatedEntitlement;
    assert q.status == TriageOf(groups, q.candidates, q.exact);
  }

  lemma ExactIsDated(groups: Groups, e: Exposure, q: QueueRow, g: GroupId)
    requires Triaged(groups, e, q) && g in q.exact
    ensures g in groups && g.terms.ex.Some? && Some(g.terms.ex.value) == q.date && g.code == q.code
  {
    hide TriageOf, WithSiblings, Related, Uncovered;
  }

  /** A group with the code, ex-date and terms of an exact match is an exact match too. */
  lemma ExactHasTwins(groups: Groups, e: Exposure, q: QueueRow, g: GroupId, other: GroupId)
    requires Triaged(groups, e, q) && g in q.exact && other in groups
    requires other.code == g.code && other.terms == g.terms
    ensures other in q.exact
  {
    hide TriageOf, WithSiblings, Related, Entitled, CategoryOf, Observed;
  }

  // ----- decisions -----

  datatype Verdict = ApproveAsEvidence | RejectNotSameEvent | BlockConflict | RequireOfficialDocument

  datatype ReviewDecision = ReviewDecision(event: EventId, group: Option<GroupId>, verdict: Verdict, hashes: set<nat>)

  datatype DecisionFault =
    | UnknownEvent
    | CandidateRequired
    | WrongCandidate
    | RowHashMismatch
    | NotEligible
    | Contradictory

  /** What one decision approves, if anything. */
  function Judge(groups: Groups, queue: Queue, cutoff: Date, d: ReviewDecision): Result<Option<GroupId>, DecisionFault> {
    if d.event !in queue then Err(UnknownEvent)
    else
      var q := queue[d.event];
      match d.group
      case None =>
        if d.hashes != {} || (d.verdict != RequireOfficialDocument && d.verdict != BlockConflict) then Err(CandidateRequired)
        else Ok(None)
      case Some(g) =>
        if g !in q.candidates || g !in groups then Err(WrongCandidate)
        else if d.hashes != groups[g].hashes then Err(RowHashMismatch)
        else if d.verdict != ApproveAsEvidence then Ok(None)
        else if !(Approvable(q.status) && g in q.exact && g.terms.ex.Some? && g.terms.ex.value <= cutoff) then Err(NotEligible)
        else Ok(Some(g))
  }

  predicate Withholds(v: Verdict) { v == BlockConflict || v == RequireOfficialDocument }

  predicate ContradictedAt(decisions: seq<ReviewDecision>, events: set<EventId>) {
    exists d :: d in decisions && d.event in events && Withholds(d.verdict)
  }

  /** The decision names a candidate of its event, with exactly the rows of that group. */
  ghost predicate NamesCandidate(groups: Groups, queue: Queue, d: ReviewDecision, g: GroupId) {
    && d.group == Some(g) && d.event in queue && g in queue[d.event].candidates && g in groups
    && d.hashes == groups[g].hashes
  }

  /** The group may be approved as evidence of the event. */
  ghost predicate Eligible(queue: Queue, cutoff: Date, event: EventId, g: GroupId) {
    && event in queue && queue[event].status in {UniqueExact, IdenticalRevisions} && g in queue[event].exact
    && g.terms.ex.Some? && g.terms.ex.value <= cutoff
  }

  /** What it takes to approve a group. */
  ghost predicate Endorses(groups: Groups, queue: Queue, cutoff: Date, d: ReviewDecision, g: GroupId) {
    d.verdict == ApproveAsEvidence && NamesCandidate(groups, queue, d, g) && Eligible(queue, cutoff, d.event, g)
  }

  /** What is wrong with a decision, from its own fields. */
  ghost predicate HasFault(groups: Groups, queue: Queue, cutoff: Date, d: ReviewDecision, f: DecisionFault) {
    match f
    case UnknownEvent => d.event !in queue
    case CandidateRequired =>
      d.event in queue && d.group.None? && (d.hashes != {} || d.verdict in {ApproveAsEvidence, RejectNotSameEvent})
    case WrongCandidate =>
      d.event in queue && d.group.Some? && (d.group.value !in queue[d.event].candidates || d.group.value !in groups)
    case RowHashMismatch =>
      && d.event in queue && d.group.Some? && d.group.value in queue[d.event].candidates && d.group.value in groups
      && d.hashes != groups[d.group.value].hashes
    case NotEligible =>
      && d.verdict == ApproveAsEvidence && d.group.Some? && NamesCandidate(groups, queue, d, d.group.value)
      && !Eligible(queue, cutoff, d.event, d.group.value)
    case Contradictory => false
  }

  ghost predicate Faultless(groups: Groups, queue: Queue, cutoff: Date, decisions: seq<ReviewDecision>) {
    forall k, f :: 0 <= k < |decisions| ==> !HasFault(groups, queue, cutoff, decisions[k], f)
  }

  lemma JudgeDecides(groups: Groups, queue: Queue, cutoff: Date, d: ReviewDecision)
    ensures forall f :: Judge(groups, queue, cutoff, d) == Err(f) <==> HasFault(groups, queue, cutoff, d, f)
    ensures forall g :: Judge(groups, queue, cutoff, d) == Ok(Some(g)) <==> Endorses(groups, queue, cutoff, d, g)
  {}

  /** Of two decisions about one event, one approves a group and the other withholds the event. */
  ghost predicate Contradict(groups: Groups, queue: Queue, cutoff: Date, approving: ReviewDecision, withholding: ReviewDecision) {
    && approving.event == withholding.event && withholding.verdict in {BlockConflict, RequireOfficialDocument}
    && approving.group.Some? && Endorses(groups, queue, cutoff, approving, approving.group.value)
  }

  /** apply_decisions: what the decisions approve together. The first faulty decision is reported;
      decisions without fault contradict each other exactly if one approves a group for an event that
      another withholds; otherwise exactly the groups of the approving ones are approved. */
  method ApplyDecisions(groups: Groups, queue: Queue, cutoff: Date, decisions: seq<ReviewDecision>)
    returns (r: Result<set<GroupId>, DecisionFault>)
    ensures r.Err? && r.error != Contradictory <==> !Faultless(groups, queue, cutoff, decisions)
    ensures r.Err? && r.error != Contradictory ==>
              exists k :: 0 <= k < |decisions| && HasFault(groups, queue, cutoff, decisions[k], r.error)
                          && Faultless(groups, queue, cutoff, decisions[..k])
    ensures r == Err(Contradictory) <==>
            Faultless(groups, queue, cutoff, decisions)
            && exists j, k :: 0 <= j < |decisions| && 0 <= k < |decisions| && Contradict(groups, queue, cutoff, decisions[j], decisions[k])
    ensures r.Ok? ==> forall g :: g in r.value <==> exists k :: 0 <= k < |decisions| && Endorses(groups, queue, cutoff, decisions[k], g)
  {
    hide Judge, HasFault, Endorses;
    var approved: set<GroupId>, events: set<EventId> := {}, {};
    for n := 0 to |decisions|
      invariant Faultless(groups, queue, cutoff, decisions[..n])
      invariant forall g :: g in approved <==> exists k :: 0 <= k < n && Endorses(groups, queue, cutoff, decisions[k], g)
      invariant forall x :: x in events <==>
                  exists k, g :: 0 <= k < n && Endorses(groups, queue, cutoff, decisions[k], g) && decisions[k].event == x
    {
      var judged := Judge(groups, queue, cutoff, decisions[n]);
      JudgeDecides(groups, queue, cutoff, decisions[n]);
      if judged.Err? {
        NeverContradictory(groups, queue, cutoff, decisions[n]);
        return Err(judged.error);
      }
      if judged.value.Some? {
        approved := approved + {judged.value.value};
        events := events + {decisions[n].event};
      }
    }
    assert decisions[..|decisions|] == decisions;
    if ContradictedAt(decisions, events) {
      ghost var d :| d in decisions && d.event in events && Withholds(d.verdict);
      ghost var k :| 0 <= k < |decisions| && decisions[k] == d;
      ghost var j, g :| 0 <= j < |decisions| && Endorses(groups, queue, cutoff, decisions[j], g) && decisions[j].event == d.event;
      EndorsesItsGroup(groups, queue, cutoff, decisions[j], g);
      assert Contradict(groups, queue, cutoff, decisions[j], decisions[k]);
      return Err(Contradictory);
    }
    return Ok(approved);
  }

  lemma NeverContradictory(groups: Groups, queue: Queue, cutoff: Date, d: ReviewDecision)
    ensures !HasFault(groups, queue, cutoff, d, Contradictory)
  {}

  lemma EndorsesItsGroup(groups: Groups, queue: Queue, cutoff: Date, d: ReviewDecision, g: GroupId)
    requires Endorses(groups, queue, cutoff, d, g)
    ensures d.group == Some(g)
  {}

  /** Decisions over the queue of all provider groups never approve conflicting economics: every
      approved group is the only one for its code and ex-date, and conflicts with none at all. */
  lemma ApprovalIsSafe(groups: Groups, e: Exposure, queue: Queue, d: ReviewDecision, g: GroupId, other: GroupId)
    requires queue == QueueOf(groups, e) && Endorses(groups, queue, e.cutoff, d, g) && other in groups
    ensures g in groups && d.hashes == groups[g].hashes && g.findings == {} && g.terms.ex.Some? && g.terms.ex.value <= e.cutoff
    ensures !Conflict(g, other) && (other.code == g.code && other.terms.ex == g.terms.ex ==> other == g)
  {
    hide QueueOf, ConflictsOf, CategoryOf;
    QueueIsTriaged(groups, e, d.event);
    ApprovableIsAlone(groups, e, queue[d.event], g, other);
  }
}
