/** Provider dividend rows and their normalization into economic events, with the gate that keeps
    conflicting economics out of the catalog (normalize_dividends in
    src/ashare_quant/data/economic_events.py and the catalog filter of economic_event_evidence.py). */
module Dividends {
  import opened Basics

  /** A raw provider field: absent, unparsable, or a value. */
  datatype Field<+T> = Absent | Malformed | Given(value: T)

  datatype RawRow = RawRow(
    hash: nat,
    code: Code,
    sourceCode: Code,
    request: nat,
    implemented: bool,
    end: Field<Date>,
    announced: Field<Date>,
    implementation: Field<Date>,
    record: Field<Date>,
    ex: Field<Date>,
    pay: Field<Date>,
    listing: Field<Date>,
    cash: Field<real>,
    cashBeforeTax: Field<real>,
    bonus: Field<real>,
    reserve: Field<real>,
    total: Field<real>)

  function Read<T>(f: Field<T>): Option<T> {
    if f.Given? then Some(f.value) else None
  }

  /** amount: a negative number is not an amount. */
  function ReadAmount(f: Field<real>): Option<real> {
    if f.Given? && f.value >= 0.0 then Some(f.value) else None
  }

  predicate BadAmount(f: Field<real>) {
    f.Malformed? || (f.Given? && f.value < 0.0)
  }

  /** The dates and amounts that two rows must share to be the same economics. */
  datatype Values = Values(
    announced: Option<Date>,
    implementation: Option<Date>,
    record: Option<Date>,
    ex: Option<Date>,
    pay: Option<Date>,
    listing: Option<Date>,
    cash: Option<real>,
    cashBeforeTax: Option<real>,
    bonus: Option<real>,
    reserve: Option<real>,
    total: Option<real>)

  function ValuesOf(r: RawRow): Values {
    Values(Read(r.announced), Read(r.implementation), Read(r.record), Read(r.ex), Read(r.pay), Read(r.listing),
           ReadAmount(r.cash), ReadAmount(r.cashBeforeTax), ReadAmount(r.bonus), ReadAmount(r.reserve), ReadAmount(r.total))
  }

  datatype FieldName =
    | AnnouncedField | ImplementationField | RecordField | ExField | PayField | ListingField
    | CashField | CashBeforeTaxField | BonusField | ReserveField | TotalField

  datatype Issue =
    | InvalidField(name: FieldName)
    | MissingEconomicComponents
    | ConflictingShareComponents
    | ConflictingTaxComponents
    | ShareComponentsUnknown
    | MissingRecordDate
    | MissingExDate
    | MissingPayDate
    | MissingListingDate
    | DateOrderConflict

  predicate FieldFails(r: RawRow, name: FieldName) {
    match name
    case AnnouncedField => r.announced.Malformed?
    case ImplementationField => r.implementation.Malformed?
    case RecordField => r.record.Malformed?
    case ExField => r.ex.Malformed?
    case PayField => r.pay.Malformed?
    case ListingField => r.listing.Malformed?
    case CashField => BadAmount(r.cash)
    case CashBeforeTaxField => BadAmount(r.cashBeforeTax)
    case BonusField => BadAmount(r.bonus)
    case ReserveField => BadAmount(r.reserve)
    case TotalField => BadAmount(r.total)
  }

  /** The fields that are given but do not parse. */
  function InvalidFields(r: RawRow): set<Issue> {
    set name: FieldName | FieldFails(r, name) :: InvalidField(name)
  }

  function Larger(a: real, b: real): real { if a < b then b else a }

  /** math.isclose(a, b, abs_tol=1e-10, rel_tol=1e-8) */
  predicate AlmostEqual(a: real, b: real) {
    Abs(a - b) <= Larger(0.00000001 * Larger(Abs(a), Abs(b)), 0.0000000001)
  }

  predicate Positive(x: Option<real>) { x.Some? && x.value > 0.0 }

  predicate Before(a: Option<Date>, b: Option<Date>) {
    a.Some? && b.Some? && a.value < b.value
  }

  predicate HasCash(v: Values) { Positive(v.cash) || Positive(v.cashBeforeTax) }

  function AmountIssues(v: Values): set<Issue> {
    (if v.cash.None? || v.cashBeforeTax.None? || v.bonus.None? || v.reserve.None? || v.total.None?
     then {MissingEconomicComponents} else {})
    + (if v.bonus.Some? && v.reserve.Some? && v.total.Some? && !AlmostEqual(v.bonus.value + v.reserve.value, v.total.value)
       then {ConflictingShareComponents} else {})
    + (if v.cashBeforeTax.Some? && v.cash.Some? && v.cash.value > v.cashBeforeTax.value + 0.0000000001
       then {ConflictingTaxComponents} else {})
    + (if Positive(v.total) && (v.bonus.None? || v.reserve.None?) then {ShareComponentsUnknown} else {})
  }

  function DateIssues(v: Values): set<Issue> {
    (if v.record.None? then {MissingRecordDate} else {})
    + (if v.ex.None? then {MissingExDate} else {})
    + (if HasCash(v) && v.pay.None? then {MissingPayDate} else {})
    + (if Positive(v.total) && v.listing.None? then {MissingListingDate} else {})
    + (if (v.record.Some? && v.ex.Some? && v.record.value >= v.ex.value) || Before(v.pay, v.ex) || Before(v.listing, v.ex)
       then {DateOrderConflict} else {})
  }

  /** The issues that follow from the values alone. */
  function ValueIssues(v: Values): set<Issue> {
    AmountIssues(v) + DateIssues(v)
  }

  datatype Component = CashDividend | StockBonus | ReserveConversion | Composite | UnsupportedOther

  function ComponentOf(v: Values): Component {
    match (HasCash(v), Positive(v.bonus), Positive(v.reserve))
    case (false, false, false) => UnsupportedOther
    case (true, false, false) => CashDividend
    case (false, true, false) => StockBonus
    case (false, false, true) => ReserveConversion
    case _ => Composite
  }

  datatype Decision = Approved | Rejected | Pending

  datatype Review = Review(hash: nat, decision: Decision)

  datatype EvidenceStatus = Reviewed | Unreviewed | RejectedEvent | Ambiguous | Conflicting

  function StatusOf(issues: set<Issue>, review: Option<Decision>): EvidenceStatus {
    if issues != {} then Ambiguous
    else if review == Some(Rejected) then RejectedEvent
    else if review == Some(Approved) then Reviewed
    else Unreviewed
  }

  /** Everything of a normalized row except which raw row it came from. */
  datatype Semantic = Semantic(
    code: Code,
    values: Values,
    component: Component,
    status: EvidenceStatus,
    issues: set<Issue>,
    postEvent: bool,
    withinSupport: bool)

  datatype Candidate = Candidate(hash: nat, semantic: Semantic)

  type Reviews = map<nat, Decision>

  function CandidateOf(r: RawRow, reviews: Reviews, cutoff: Date): Candidate {
    var v := ValuesOf(r);
    var issues := InvalidFields(r) + ValueIssues(v);
    Candidate(r.hash, Semantic(
      r.code, v, ComponentOf(v),
      StatusOf(issues, if r.hash in reviews then Some(reviews[r.hash]) else None),
      issues,
      Before(v.ex, v.announced) || Before(v.ex, v.implementation),
      v.ex.Some? && v.ex.value <= cutoff))
  }

  // ----- what normalization means, whatever the order of the rows -----

  function Candidates(rows: set<RawRow>, reviews: Reviews, cutoff: Date): set<Candidate> {
    set r | r in rows && r.implemented :: CandidateOf(r, reviews, cutoff)
  }

  predicate SameEvent(a: Semantic, b: Semantic) {
    a.code == b.code && a.values.ex.Some? && a.values.ex == b.values.ex
  }

  /** Some row for the same code and ex-date has other economics. */
  predicate Contested(cands: set<Candidate>, s: Semantic) {
    exists d :: d in cands && SameEvent(s, d.semantic) && d.semantic.values != s.values
  }

  function Gated(cands: set<Candidate>, s: Semantic): Semantic {
    if Contested(cands, s) then s.(status := Conflicting) else s
  }

  datatype Event = Event(semantic: Semantic, hashes: set<nat>)

  function EventOf(cands: set<Candidate>, s: Semantic): Event {
    Event(s, set d | d in cands && Gated(cands, d.semantic) == s :: d.hash)
  }

  /** One event for each distinct gated semantic, with the hashes of all rows behind it. */
  function Normalized(rows: set<RawRow>, reviews: Reviews, cutoff: Date): set<Event> {
    var cands := Candidates(rows, reviews, cutoff);
    set c | c in cands :: EventOf(cands, Gated(cands, c.semantic))
  }

  function Catalog(events: set<Event>): set<Event> {
    set e | e in events && e.semantic.status == Reviewed && e.semantic.withinSupport && e.semantic.component != UnsupportedOther
  }

  // ----- the catalog -----

  lemma ReviewedIsClean(r: RawRow, reviews: Reviews, cutoff: Date)
    requires CandidateOf(r, reviews, cutoff).semantic.status == Reviewed
    ensures CandidateOf(r, reviews, cutoff).semantic.issues == {}
  {
    hide InvalidFields, ValueIssues, ComponentOf, ValuesOf;
  }

  /** A gated semantic that is still reviewed is that of a clean, uncontested row. */
  lemma ReviewedSource(rows: set<RawRow>, reviews: Reviews, cutoff: Date, e: Event) returns (r: RawRow)
    requires e in Normalized(rows, reviews, cutoff) && e.semantic.status == Reviewed
    ensures r in rows && r.implemented && e.semantic == CandidateOf(r, reviews, cutoff).semantic
    ensures !Contested(Candidates(rows, reviews, cutoff), e.semantic) && e.semantic.issues == {}
  {
    hide CandidateOf, Contested;
    var cands := Candidates(rows, reviews, cutoff);
    var c :| c in cands && EventOf(cands, Gated(cands, c.semantic)) == e;
    r :| r in rows && r.implemented && CandidateOf(r, reviews, cutoff) == c;
    ReviewedIsClean(r, reviews, cutoff);
  }

  /** No implemented row, whatever its review state, disagrees with a catalogued event for its
      code and ex-date. */
  lemma CatalogIsUncontested(rows: set<RawRow>, reviews: Reviews, cutoff: Date, e: Event, r: RawRow)
    requires e in Catalog(Normalized(rows, reviews, cutoff)) && r in rows && r.implemented
    requires r.code == e.semantic.code && ValuesOf(r).ex == e.semantic.values.ex
    ensures ValuesOf(r) == e.semantic.values
  {
    hide ValuesOf, InvalidFields, ValueIssues, ComponentOf, Normalized;
    var cands := Candidates(rows, reviews, cutoff);
    var source := ReviewedSource(rows, reviews, cutoff, e);
    var d := CandidateOf(r, reviews, cutoff);
    assert d in cands && SameEvent(e.semantic, d.semantic);
  }

  /** The catalog holds at most one event for each code and ex-date. */
  lemma CatalogIsUnique(rows: set<RawRow>, reviews: Reviews, cutoff: Date, e1: Event, e2: Event)
    requires e1 in Catalog(Normalized(rows, reviews, cutoff)) && e2 in Catalog(Normalized(rows, reviews, cutoff))
    requires e1.semantic.code == e2.semantic.code && e1.semantic.values.ex == e2.semantic.values.ex
    ensures e1 == e2
  {
    hide ValuesOf, InvalidFields, ValueIssues, ComponentOf, Contested, Candidates;
    var r1 := ReviewedSource(rows, reviews, cutoff, e1);
    var r2 := ReviewedSource(rows, reviews, cutoff, e2);
    CatalogIsUncontested(rows, reviews, cutoff, e2, r1);
    assert e1.semantic == e2.semantic;
    var cands := Candidates(rows, reviews, cutoff);
    assert e1 == EventOf(cands, e1.semantic) && e2 == EventOf(cands, e2.semantic);
  }

  /** No other row has the hash of this one. */
  ghost predicate OwnHash(rows: set<RawRow>, r: RawRow) {
    forall q :: q in rows && q.hash == r.hash ==> q == r
  }

  /** Every implemented row stands behind an event that repeats its values, and as long as no other
      row has its hash, behind no other event. */
  lemma HashesAreRetained(rows: set<RawRow>, reviews: Reviews, cutoff: Date, r: RawRow) returns (e: Event)
    requires r in rows && r.implemented
    ensures e in Normalized(rows, reviews, cutoff) && r.hash in e.hashes
    ensures e.semantic.code == r.code && EconomicsOf(e.semantic.values, r)
    ensures DescribedAs(rows, reviews, cutoff, r, e.semantic)
    ensures OwnHash(rows, r) ==> forall x :: x in Normalized(rows, reviews, cutoff) && r.hash in x.hashes ==> x == e
  {
    hide ValuesOf, InvalidFields, ValueIssues, ComponentOf, Contested;
    var cands := Candidates(rows, reviews, cutoff);
    var c := CandidateOf(r, reviews, cutoff);
    assert c in cands;
    e := EventOf(cands, Gated(cands, c.semantic));
    ValuesAreEconomics(r);
    GatedIsDescribed(rows, reviews, cutoff, r);
    forall x | OwnHash(rows, r) && x in Normalized(rows, reviews, cutoff) && r.hash in x.hashes
      ensures x == e
    {
      SameHashSameEvent(rows, reviews, cutoff, r, x);
    }
  }

  lemma SameHashSameEvent(rows: set<RawRow>, reviews: Reviews, cutoff: Date, r: RawRow, x: Event)
    requires r in rows && OwnHash(rows, r) && x in Normalized(rows, reviews, cutoff) && r.hash in x.hashes
    ensures var cands := Candidates(rows, reviews, cutoff);
            x == EventOf(cands, Gated(cands, CandidateOf(r, reviews, cutoff).semantic))
  {
    hide ValuesOf, InvalidFields, ValueIssues, ComponentOf, Contested;
    var cands := Candidates(rows, reviews, cutoff);
    var c :| c in cands && EventOf(cands, Gated(cands, c.semantic)) == x;
    var d :| d in cands && Gated(cands, d.semantic) == x.semantic && d.hash == r.hash;
    var q :| q in rows && q.implemented && CandidateOf(q, reviews, cutoff) == d;
    assert q == r;
  }

  /** No event refers to anything but implemented rows of its own code and values. */
  lemma HashesAreOwn(rows: set<RawRow>, reviews: Reviews, cutoff: Date, e: Event, h: nat) returns (r: RawRow)
    requires e in Normalized(rows, reviews, cutoff) && h in e.hashes
    ensures r in rows && r.implemented && r.hash == h && r.code == e.semantic.code && ValuesOf(r) == e.semantic.values
  {
    hide ValuesOf, InvalidFields, ValueIssues, ComponentOf, Contested;
    var cands := Candidates(rows, reviews, cutoff);
    var d :| d in cands && Gated(cands, d.semantic) == e.semantic && d.hash == h;
    r :| r in rows && r.implemented && CandidateOf(r, reviews, cutoff) == d;
  }

  // ----- the catalog, read off the raw rows -----

  /** An option holds what a field gives, and nothing otherwise. */
  ghost predicate Holds<T>(o: Option<T>, f: Field<T>) {
    match f
    case Given(x) => o == Some(x)
    case _ => o == None
  }

  ghost predicate HoldsAmount(o: Option<real>, f: Field<real>) {
    match f
    case Given(x) => o == if x < 0.0 then None else Some(x)
    case _ => o == None
  }

  /** The economics are those of the row. */
  ghost predicate EconomicsOf(v: Values, r: RawRow) {
    && Holds(v.announced, r.announced) && Holds(v.implementation, r.implementation) && Holds(v.record, r.record)
    && Holds(v.ex, r.ex) && Holds(v.pay, r.pay) && Holds(v.listing, r.listing)
    && HoldsAmount(v.cash, r.cash) && HoldsAmount(v.cashBeforeTax, r.cashBeforeTax) && HoldsAmount(v.bonus, r.bonus)
    && HoldsAmount(v.reserve, r.reserve) && HoldsAmount(v.total, r.total)
  }

  ghost predicate IsAmount(f: Field<real>) {
    f.Given? && f.value >= 0.0
  }

  ghost predicate IsPositive(f: Field<real>) {
    f.Given? && f.value > 0.0
  }

  ghost predicate Unreadable(r: RawRow, name: FieldName) {
    match name
    case AnnouncedField => r.announced.Malformed?
    case ImplementationField => r.implementation.Malformed?
    case RecordField => r.record.Malformed?
    case ExField => r.ex.Malformed?
    case PayField => r.pay.Malformed?
    case ListingField => r.listing.Malformed?
    case CashField => r.cash != Absent && !IsAmount(r.cash)
    case CashBeforeTaxField => r.cashBeforeTax != Absent && !IsAmount(r.cashBeforeTax)
    case BonusField => r.bonus != Absent && !IsAmount(r.bonus)
    case ReserveField => r.reserve != Absent && !IsAmount(r.reserve)
    case TotalField => r.total != Absent && !IsAmount(r.total)
  }

  ghost predicate AllAmounts(r: RawRow) {
    IsAmount(r.cash) && IsAmount(r.cashBeforeTax) && IsAmount(r.bonus) && IsAmount(r.reserve) && IsAmount(r.total)
  }

  /** No field is malformed, and all five amounts are given. */
  ghost predicate WellFormed(r: RawRow) {
    && !r.announced.Malformed? && !r.implementation.Malformed? && !r.record.Malformed?
    && !r.ex.Malformed? && !r.pay.Malformed? && !r.listing.Malformed?
    && IsAmount(r.cash) && IsAmount(r.cashBeforeTax) && IsAmount(r.bonus) && IsAmount(r.reserve) && IsAmount(r.total)
  }

  ghost predicate AddUp(parts: real, total: real) {
    var gap := if parts < total then total - parts else parts - total;
    gap <= 0.0000000001 || gap <= 0.00000001 * parts || gap <= 0.00000001 * total
  }

  /** What an issue says of the row. */
  ghost predicate Raises(r: RawRow, x: Issue) {
    match x
    case InvalidField(name) => Unreadable(r, name)
    case MissingEconomicComponents => !AllAmounts(r)
    case ConflictingShareComponents =>
      IsAmount(r.bonus) && IsAmount(r.reserve) && IsAmount(r.total) && !AddUp(r.bonus.value + r.reserve.value, r.total.value)
    case ConflictingTaxComponents =>
      IsAmount(r.cash) && IsAmount(r.cashBeforeTax) && r.cashBeforeTax.value + 0.0000000001 < r.cash.value
    case ShareComponentsUnknown => IsPositive(r.total) && !(IsAmount(r.bonus) && IsAmount(r.reserve))
    case MissingRecordDate => !r.record.Given?
    case MissingExDate => !r.ex.Given?
    case MissingPayDate => (IsPositive(r.cash) || IsPositive(r.cashBeforeTax)) && !r.pay.Given?
    case MissingListingDate => IsPositive(r.total) && !r.listing.Given?
    case DateOrderConflict =>
      && r.ex.Given?
      && ((r.record.Given? && r.ex.value <= r.record.value) || (r.pay.Given? && r.pay.value < r.ex.value)
          || (r.listing.Given? && r.listing.value < r.ex.value))
  }

  /** The share components add up to the total, and the cash is no more than the cash before tax, both
      up to the tolerances. */
  ghost predicate AmountsAgree(r: RawRow)
    requires WellFormed(r)
  {
    AddUp(r.bonus.value + r.reserve.value, r.total.value) && r.cash.value <= r.cashBeforeTax.value + 0.0000000001
  }

  /** Recorded before the ex-date, and paid and listed, where that is due, not before it. */
  ghost predicate DatesInOrder(r: RawRow) {
    && r.record.Given? && r.ex.Given? && r.record.value < r.ex.value
    && (IsPositive(r.cash) || IsPositive(r.cashBeforeTax) ==> r.pay.Given?)
    && (IsPositive(r.total) ==> r.listing.Given?)
    && (r.pay.Given? ==> r.ex.value <= r.pay.value)
    && (r.listing.Given? ==> r.ex.value <= r.listing.value)
  }

  ghost predicate Clean(r: RawRow) {
    WellFormed(r) && AmountsAgree(r) && DatesInOrder(r)
  }

  ghost predicate PaysSomething(r: RawRow) {
    IsPositive(r.cash) || IsPositive(r.cashBeforeTax) || IsPositive(r.bonus) || IsPositive(r.reserve)
  }

  ghost predicate SameField<T(!new)>(f: Field<T>, g: Field<T>) {
    if f.Given? && g.Given? then f.value == g.value else !f.Given? && !g.Given?
  }

  /** A negative amount is as good as none. */
  ghost predicate SameAmount(f: Field<real>, g: Field<real>) {
    if IsAmount(f) && IsAmount(g) then f.value == g.value else !IsAmount(f) && !IsAmount(g)
  }

  ghost predicate SameEconomics(a: RawRow, b: RawRow) {
    && SameField(a.announced, b.announced) && SameField(a.implementation, b.implementation) && SameField(a.record, b.record)
    && SameField(a.ex, b.ex) && SameField(a.pay, b.pay) && SameField(a.listing, b.listing)
    && SameAmount(a.cash, b.cash) && SameAmount(a.cashBeforeTax, b.cashBeforeTax) && SameAmount(a.bonus, b.bonus)
    && SameAmount(a.reserve, b.reserve) && SameAmount(a.total, b.total)
  }

  /** An implemented row for the same code and ex-date has other economics. */
  ghost predicate Disputed(rows: set<RawRow>, r: RawRow) {
    exists q :: q in rows && q.implemented && q.code == r.code && r.ex.Given? && q.ex == r.ex && !SameEconomics(q, r)
  }

  /** What it takes for a row to stand in the catalog. */
  ghost predicate Qualifies(rows: set<RawRow>, reviews: Reviews, cutoff: Date, r: RawRow) {
    && r in rows && r.implemented && r.hash in reviews && reviews[r.hash] == Approved
    && Clean(r) && PaysSomething(r) && r.ex.value <= cutoff && !Disputed(rows, r)
  }

  lemma ValuesAreEconomics(r: RawRow)
    ensures EconomicsOf(ValuesOf(r), r) && forall v :: EconomicsOf(v, r) ==> v == ValuesOf(r)
  {}

  lemma SameEconomicsIff(a: RawRow, b: RawRow)
    ensures SameEconomics(a, b) <==> ValuesOf(a) == ValuesOf(b)
  {}

  lemma UnreadableIff(r: RawRow, name: FieldName)
    ensures InvalidField(name) in InvalidFields(r) <==> Unreadable(r, name)
  {}

  lemma AmountIssueIff(r: RawRow, x: Issue)
    ensures x in AmountIssues(ValuesOf(r)) <==>
            (x.MissingEconomicComponents? || x.ConflictingShareComponents? || x.ConflictingTaxComponents? || x.ShareComponentsUnknown?)
            && Raises(r, x)
  {
    hide Unreadable, AddUp, AlmostEqual;
    if IsAmount(r.bonus) && IsAmount(r.reserve) && IsAmount(r.total) {
      AddUpIff(r.bonus.value + r.reserve.value, r.total.value);
    }
  }

  lemma DateIssueIff(r: RawRow, x: Issue)
    ensures x in DateIssues(ValuesOf(r)) <==>
            (x.MissingRecordDate? || x.MissingExDate? || x.MissingPayDate? || x.MissingListingDate? || x.DateOrderConflict?)
            && Raises(r, x)
  {
    hide Unreadable, AddUp;
  }

  lemma RaisesIff(r: RawRow, x: Issue)
    ensures x in InvalidFields(r) + ValueIssues(ValuesOf(r)) <==> Raises(r, x)
  {
    hide Raises, InvalidFields, AmountIssues, DateIssues, ValuesOf;
    if x.InvalidField? {
      UnreadableIff(r, x.name);
      RaisesField(r, x.name);
    }
    AmountIssueIff(r, x);
    DateIssueIff(r, x);
    OnlyFields(r);
  }

  lemma AddUpIff(parts: real, total: real)
    requires parts >= 0.0 && total >= 0.0
    ensures AlmostEqual(parts, total) <==> AddUp(parts, total)
  {}

  lemma RaisesField(r: RawRow, name: FieldName)
    ensures Raises(r, InvalidField(name)) <==> Unreadable(r, name)
  {}

  lemma OnlyFields(r: RawRow)
    ensures forall x :: x in InvalidFields(r) ==> x.InvalidField?
  {}

  /** A row is clean exactly if it raises no issue. */
  lemma CleanIff(r: RawRow)
    ensures Clean(r) <==> InvalidFields(r) + ValueIssues(ValuesOf(r)) == {}
  {
    hide InvalidFields, ValueIssues, Raises, Clean;
    forall x
      ensures x in InvalidFields(r) + ValueIssues(ValuesOf(r)) <==> Raises(r, x)
    {
      RaisesIff(r, x);
    }
    if Clean(r) {
      forall x
        ensures !Raises(r, x)
      {
        CleanRaisesNothing(r, x);
      }
    } else {
      var x := UncleanRaises(r);
    }
  }

  lemma CleanRaisesNothing(r: RawRow, x: Issue)
    requires Clean(r)
    ensures !Raises(r, x)
  {
    hide AddUp;
    if x.InvalidField? {
      RaisesField(r, x.name);
    }
  }

  lemma UncleanRaises(r: RawRow) returns (x: Issue)
    requires !Clean(r)
    ensures Raises(r, x)
  {
    hide AddUp;
    if name :| Unreadable(r, name) {
      RaisesField(r, name);
      return InvalidField(name);
    }
    assert forall name :: !Unreadable(r, name);
    x := if !AllAmounts(r) then MissingEconomicComponents
         else if !AddUp(r.bonus.value + r.reserve.value, r.total.value) then ConflictingShareComponents
         else if r.cashBeforeTax.value + 0.0000000001 < r.cash.value then ConflictingTaxComponents
         else if !r.record.Given? then MissingRecordDate
         else if !r.ex.Given? then MissingExDate
         else if IsPositive(r.total) && !r.listing.Given? then MissingListingDate
         else if (IsPositive(r.cash) || IsPositive(r.cashBeforeTax)) && !r.pay.Given? then MissingPayDate
         else DateOrderConflict;
    ReadableDates(r);
  }

  lemma ReadableDates(r: RawRow)
    requires forall name :: !Unreadable(r, name)
    ensures !r.announced.Malformed? && !r.implementation.Malformed? && !r.record.Malformed?
            && !r.ex.Malformed? && !r.pay.Malformed? && !r.listing.Malformed?
  {
    assert !Unreadable(r, AnnouncedField) && !Unreadable(r, ImplementationField) && !Unreadable(r, RecordField)
           && !Unreadable(r, ExField) && !Unreadable(r, PayField) && !Unreadable(r, ListingField);
  }

  ghost predicate IsComponent(c: Component, r: RawRow) {
    var cash, bonus, reserve := IsPositive(r.cash) || IsPositive(r.cashBeforeTax), IsPositive(r.bonus), IsPositive(r.reserve);
    match c
    case UnsupportedOther => !cash && !bonus && !reserve
    case CashDividend => cash && !bonus && !reserve
    case StockBonus => !cash && bonus && !reserve
    case ReserveConversion => !cash && !bonus && reserve
    case Composite => (cash && bonus) || (cash && reserve) || (bonus && reserve)
  }

  /** A dispute comes before everything, what is wrong with the row before its review. */
  ghost predicate IsStatus(status: EvidenceStatus, rows: set<RawRow>, reviews: Reviews, r: RawRow) {
    match status
    case Conflicting => Disputed(rows, r)
    case Ambiguous => !Disputed(rows, r) && !Clean(r)
    case RejectedEvent => !Disputed(rows, r) && Clean(r) && r.hash in reviews && reviews[r.hash] == Rejected
    case Reviewed => !Disputed(rows, r) && Clean(r) && r.hash in reviews && reviews[r.hash] == Approved
    case Unreviewed => !Disputed(rows, r) && Clean(r) && (r.hash in reviews ==> reviews[r.hash] == Pending)
  }

  /** What the event of a row says of it. */
  ghost predicate DescribedAs(rows: set<RawRow>, reviews: Reviews, cutoff: Date, r: RawRow, s: Semantic) {
    && s.code == r.code && EconomicsOf(s.values, r) && IsComponent(s.component, r) && IsStatus(s.status, rows, reviews, r)
    && (forall x :: x in s.issues <==> Raises(r, x))
    && (s.postEvent <==> r.ex.Given? && ((r.announced.Given? && r.ex.value < r.announced.value)
                                         || (r.implementation.Given? && r.ex.value < r.implementation.value)))
    && (s.withinSupport <==> r.ex.Given? && r.ex.value <= cutoff)
  }

  lemma ComponentIsOf(r: RawRow)
    ensures IsComponent(ComponentOf(ValuesOf(r)), r)
    ensures forall c :: IsComponent(c, r) ==> c == ComponentOf(ValuesOf(r))
  {}

  lemma ContestedIsDisputed(rows: set<RawRow>, reviews: Reviews, cutoff: Date, r: RawRow)
    ensures Contested(Candidates(rows, reviews, cutoff), CandidateOf(r, reviews, cutoff).semantic) <==> Disputed(rows, r)
  {
    hide InvalidFields, ValueIssues, ComponentOf, SameEconomics;
    var cands, s := Candidates(rows, reviews, cutoff), CandidateOf(r, reviews, cutoff).semantic;
    forall q
      ensures SameEconomics(q, r) <==> ValuesOf(q) == ValuesOf(r)
    {
      SameEconomicsIff(q, r);
    }
    if q :| q in rows && q.implemented && q.code == r.code && r.ex.Given? && q.ex == r.ex && !SameEconomics(q, r) {
      assert CandidateOf(q, reviews, cutoff) in cands;
    }
    if d :| d in cands && SameEvent(s, d.semantic) && d.semantic.values != s.values {
      var q :| q in rows && q.implemented && CandidateOf(q, reviews, cutoff) == d;
      assert q.ex.Given? && r.ex.Given? && q.ex == r.ex;
    }
  }

  lemma GatedIsDescribed(rows: set<RawRow>, reviews: Reviews, cutoff: Date, r: RawRow)
    ensures DescribedAs(rows, reviews, cutoff, r, Gated(Candidates(rows, reviews, cutoff), CandidateOf(r, reviews, cutoff).semantic))
  {
    hide InvalidFields, ValueIssues, ComponentOf, Contested, Disputed, Clean, Candidates, IsComponent;
    CleanIff(r);
    forall x
      ensures x in InvalidFields(r) + ValueIssues(ValuesOf(r)) <==> Raises(r, x)
    {
      RaisesIff(r, x);
    }
    ComponentIsOf(r);
    ValuesAreEconomics(r);
    ContestedIsDisputed(rows, reviews, cutoff, r);
  }

  /** A description fits one semantic only. */
  lemma DescriptionIsUnique(rows: set<RawRow>, reviews: Reviews, cutoff: Date, r: RawRow, a: Semantic, b: Semantic)
    requires DescribedAs(rows, reviews, cutoff, r, a) && DescribedAs(rows, reviews, cutoff, r, b)
    ensures a == b
  {
    hide Clean, Disputed;
    ValuesAreEconomics(r);
    ComponentIsOf(r);
  }

  /** The approved clean rows with the code and economics of a row. */
  ghost function Backing(rows: set<RawRow>, reviews: Reviews, r: RawRow): set<nat> {
    set q | q in rows && q.implemented && q.code == r.code && SameEconomics(q, r) && Clean(q)
            && q.hash in reviews && reviews[q.hash] == Approved :: q.hash
  }

  lemma BackingIsOf(rows: set<RawRow>, reviews: Reviews, cutoff: Date, r: RawRow)
    requires Qualifies(rows, reviews, cutoff, r)
    ensures var cands := Candidates(rows, reviews, cutoff);
            EventOf(cands, Gated(cands, CandidateOf(r, reviews, cutoff).semantic)).hashes == Backing(rows, reviews, r)
  {
    hide InvalidFields, ValueIssues, ComponentOf, Contested, Disputed, Clean, SameEconomics, Gated, DescribedAs;
    var cands := Candidates(rows, reviews, cutoff);
    var s := Gated(cands, CandidateOf(r, reviews, cutoff).semantic);
    forall q | q in rows && q.implemented
      ensures Gated(cands, CandidateOf(q, reviews, cutoff).semantic) == s <==>
              q.code == r.code && SameEconomics(q, r) && Clean(q) && q.hash in reviews && reviews[q.hash] == Approved
    {
      BacksIff(rows, reviews, cutoff, r, q);
    }
    forall q | q in rows && q.implemented
      ensures CandidateOf(q, reviews, cutoff) in cands
    {}
  }

  /** Which rows share the event of a qualifying one. */
  lemma BacksIff(rows: set<RawRow>, reviews: Reviews, cutoff: Date, r: RawRow, q: RawRow)
    requires Qualifies(rows, reviews, cutoff, r) && q in rows && q.implemented
    ensures var cands := Candidates(rows, reviews, cutoff);
            Gated(cands, CandidateOf(q, reviews, cutoff).semantic) == Gated(cands, CandidateOf(r, reviews, cutoff).semantic)
            <==> q.code == r.code && SameEconomics(q, r) && Clean(q) && q.hash in reviews && reviews[q.hash] == Approved
  {
    hide InvalidFields, ValueIssues, ComponentOf, Contested, Clean, SameEconomics, Gated, Candidates;
    GatedIsDescribed(rows, reviews, cutoff, r);
    GatedIsDescribed(rows, reviews, cutoff, q);
    SameEconomicsIff(q, r);
    ValuesAreEconomics(r);
    ValuesAreEconomics(q);
    if q.code == r.code && SameEconomics(q, r) && Clean(q) && q.hash in reviews && reviews[q.hash] == Approved {
      CleanIsDated(r);
      UndisputedTogether(rows, r, q);
      SameDescription(rows, reviews, cutoff, r, q, Gated(Candidates(rows, reviews, cutoff), CandidateOf(r, reviews, cutoff).semantic));
      DescriptionIsUnique(rows, reviews, cutoff, q, Gated(Candidates(rows, reviews, cutoff), CandidateOf(q, reviews, cutoff).semantic),
                          Gated(Candidates(rows, reviews, cutoff), CandidateOf(r, reviews, cutoff).semantic));
    }
  }

  lemma CleanIsDated(r: RawRow)
    requires Clean(r)
    ensures r.record.Given? && r.ex.Given?
  {}

  lemma UndisputedTogether(rows: set<RawRow>, r: RawRow, q: RawRow)
    requires q.code == r.code && SameEconomics(q, r) && r.ex.Given? && !Disputed(rows, r)
    ensures q.ex == r.ex && !Disputed(rows, q)
  {
    hide SameEconomics;
    SameEconomicsIff(q, r);
    assert q.ex == r.ex by { ValuesAreEconomics(q); ValuesAreEconomics(r); }
    forall x | x in rows && x.implemented && x.code == q.code && x.ex == q.ex
      ensures SameEconomics(x, q)
    {
      assert SameEconomics(x, r);
      SameEconomicsIff(x, r);
      SameEconomicsIff(x, q);
    }
  }

  lemma SameDescription(rows: set<RawRow>, reviews: Reviews, cutoff: Date, r: RawRow, q: RawRow, s: Semantic)
    requires DescribedAs(rows, reviews, cutoff, r, s) && q.code == r.code && SameEconomics(q, r) && Clean(q) && Clean(r)
    requires !Disputed(rows, q) && !Disputed(rows, r)
    requires q.hash in reviews && reviews[q.hash] == Approved && r.hash in reviews && reviews[r.hash] == Approved
    ensures DescribedAs(rows, reviews, cutoff, q, s)
  {
    hide Disputed;
    SameEconomicsIff(q, r);
    ValuesAreEconomics(r);
    ValuesAreEconomics(q);
    ComponentIsOf(r);
    ComponentIsOf(q);
  }

  /** The catalog from the raw rows and their reviews: its events are those of the rows that qualify,
      each with what its row says and the hashes of all approved clean rows that say the same. */
  lemma CatalogIff(rows: set<RawRow>, reviews: Reviews, cutoff: Date, e: Event)
    ensures e in Catalog(Normalized(rows, reviews, cutoff)) <==>
            exists r :: Qualifies(rows, reviews, cutoff, r) && DescribedAs(rows, reviews, cutoff, r, e.semantic)
                        && e.hashes == Backing(rows, reviews, r)
  {
    hide CandidateOf, Contested, Qualifies, DescribedAs, Backing, Gated;
    var cands := Candidates(rows, reviews, cutoff);
    if e in Catalog(Normalized(rows, reviews, cutoff)) {
      var c :| c in cands && EventOf(cands, Gated(cands, c.semantic)) == e;
      var r :| r in rows && r.implemented && CandidateOf(r, reviews, cutoff) == c;
      GatedIsDescribed(rows, reviews, cutoff, r);
      CataloguedQualifies(rows, reviews, cutoff, r, e.semantic);
      BackingIsOf(rows, reviews, cutoff, r);
    }
    if r :| Qualifies(rows, reviews, cutoff, r) && DescribedAs(rows, reviews, cutoff, r, e.semantic) && e.hashes == Backing(rows, reviews, r) {
      GatedIsDescribed(rows, reviews, cutoff, r);
      QualifiesParts(rows, reviews, cutoff, r, e.semantic);
      DescriptionIsUnique(rows, reviews, cutoff, r, e.semantic, Gated(cands, CandidateOf(r, reviews, cutoff).semantic));
      BackingIsOf(rows, reviews, cutoff, r);
      assert CandidateOf(r, reviews, cutoff) in cands;
    }
  }

  lemma CataloguedQualifies(rows: set<RawRow>, reviews: Reviews, cutoff: Date, r: RawRow, s: Semantic)
    requires r in rows && r.implemented && DescribedAs(rows, reviews, cutoff, r, s)
    requires s.status == Reviewed && s.withinSupport && s.component != UnsupportedOther
    ensures Qualifies(rows, reviews, cutoff, r)
  {
    hide Clean, Disputed;
  }

  lemma QualifiesParts(rows: set<RawRow>, reviews: Reviews, cutoff: Date, r: RawRow, s: Semantic)
    requires Qualifies(rows, reviews, cutoff, r) && DescribedAs(rows, reviews, cutoff, r, s)
    ensures r in rows && r.implemented && Clean(r) && s.status == Reviewed && s.withinSupport && s.component != UnsupportedOther
  {
    hide Clean, Disputed;
    CleanIsDated(r);
  }

  // ----- normalization as it runs -----

  datatype ReviewFault = DuplicateReview | ReviewRowMissing

  function HashesOf(raw: seq<RawRow>): set<nat> {
    set r | r in raw :: r.hash
  }

  function ReviewsOf(reviews: seq<Review>): Reviews {
    if reviews == [] then map[] else ReviewsOf(reviews[..|reviews| - 1])[reviews[|reviews| - 1].hash := reviews[|reviews| - 1].decision]
  }

  ghost predicate ReviewedTwice(reviews: seq<Review>) {
    exists j, k :: 0 <= j < k < |reviews| && reviews[j].hash == reviews[k].hash
  }

  ghost predicate ReviewedMissing(raw: seq<RawRow>, reviews: seq<Review>) {
    exists v :: v in reviews && forall r :: r in raw ==> r.hash != v.hash
  }

  /** Without a second review of a row, every review decides for its own row and nothing else does. */
  lemma {:induction false} ReviewsAreListed(reviews: seq<Review>, h: nat)
    requires !ReviewedTwice(reviews)
    ensures h in ReviewsOf(reviews) <==> exists v :: v in reviews && v.hash == h
    ensures forall v :: v in reviews && v.hash == h ==> ReviewsOf(reviews)[h] == v.decision
  {
    if reviews != [] {
      var front, last := reviews[..|reviews| - 1], reviews[|reviews| - 1];
      assert reviews == front + [last];
      ReviewsAreListed(front, h);
      forall v | v in front
        ensures v.hash != last.hash
      {
        var k :| 0 <= k < |front| && front[k] == v;
        assert reviews[k] == v;
      }
    }
  }

  lemma MissingIff(raw: seq<RawRow>, reviews: seq<Review>, reviewed: set<nat>)
    requires forall h :: h in reviewed <==> exists k :: 0 <= k < |reviews| && reviews[k].hash == h
    ensures ReviewedMissing(raw, reviews) <==> !(reviewed <= HashesOf(raw))
  {
    if v :| v in reviews && forall r :: r in raw ==> r.hash != v.hash {
      var k :| 0 <= k < |reviews| && reviews[k] == v;
      assert v.hash in reviewed;
    }
    if h :| h in reviewed && h !in HashesOf(raw) {
      var k :| 0 <= k < |reviews| && reviews[k].hash == h;
      assert reviews[k] in reviews;
    }
  }

  /** The reviews by row: each row at most once, and only rows that exist. */
  method IndexReviews(raw: seq<RawRow>, reviews: seq<Review>) returns (r: Result<Reviews, ReviewFault>)
    ensures r == if ReviewedTwice(reviews) then Err(DuplicateReview)
                 else if ReviewedMissing(raw, reviews) then Err(ReviewRowMissing)
                 else Ok(ReviewsOf(reviews))
  {
    hide HashesOf;
    var byHash: Reviews := map[];
    for n := 0 to |reviews|
      invariant byHash == ReviewsOf(reviews[..n])
      invariant forall h :: h in byHash <==> exists k :: 0 <= k < n && reviews[k].hash == h
      invariant forall j, k :: 0 <= j < k < n ==> reviews[j].hash != reviews[k].hash
    {
      if reviews[n].hash in byHash {
        return Err(DuplicateReview);
      }
      assert reviews[..n + 1][..n] == reviews[..n];
      byHash := byHash[reviews[n].hash := reviews[n].decision];
    }
    assert reviews[..|reviews|] == reviews;
    MissingIff(raw, reviews, byHash.Keys);
    if !(byHash.Keys <= HashesOf(raw)) {
      return Err(ReviewRowMissing);
    }
    return Ok(byHash);
  }

  /** The candidates of the implemented rows, each once. */
  method CollectCandidates(raw: seq<RawRow>, reviews: Reviews, cutoff: Date) returns (cands: seq<Candidate>)
    ensures Elements(cands) == Candidates(Elements(raw), reviews, cutoff)
  {
    hide CandidateOf;
    cands := [];
    for n := 0 to |raw|
      invariant Elements(cands) == Candidates(Elements(raw[..n]), reviews, cutoff)
    {
      assert raw[..n + 1] == raw[..n] + [raw[n]];
      CandidatesGrow(Elements(raw[..n]), raw[n], reviews, cutoff);
      assert Elements(raw[..n + 1]) == Elements(raw[..n]) + {raw[n]};
      if raw[n].implemented {
        var c := CandidateOf(raw[n], reviews, cutoff);
        if c !in cands {
          assert Elements(cands + [c]) == Elements(cands) + {c};
          cands := cands + [c];
        }
      }
    }
    assert raw[..|raw|] == raw;
  }

  lemma CandidatesGrow(rows: set<RawRow>, r: RawRow, reviews: Reviews, cutoff: Date)
    ensures Candidates(rows + {r}, reviews, cutoff)
         == Candidates(rows, reviews, cutoff) + (if r.implemented then {CandidateOf(r, reviews, cutoff)} else {})
  {
    hide CandidateOf;
  }

  type Key = (Code, Date)

  /** One of the first n candidates has these economics under this key. */
  ghost predicate SeenUnder(cands: seq<Candidate>, n: nat, key: Key, v: Values)
    requires n <= |cands|
  {
    exists i :: 0 <= i < n && cands[i].semantic.values == v && cands[i].semantic.code == key.0 && v.ex == Some(key.1)
  }

  /** The distinct economics seen for each code and ex-date. */
  ghost predicate Grouped(cands: seq<Candidate>, n: nat, byKey: map<Key, set<Values>>)
    requires n <= |cands|
  {
    && (forall i :: 0 <= i < n && cands[i].semantic.values.ex.Some? ==>
          var s := cands[i].semantic; (s.code, s.values.ex.value) in byKey && s.values in byKey[(s.code, s.values.ex.value)])
    && (forall key, v :: key in byKey && v in byKey[key] ==> SeenUnder(cands, n, key, v))
  }

  lemma SeenLater(cands: seq<Candidate>, n: nat, key: Key, v: Values)
    requires n < |cands| && SeenUnder(cands, n, key, v)
    ensures SeenUnder(cands, n + 1, key, v)
  {}

  lemma SeenNow(cands: seq<Candidate>, n: nat, date: Date)
    requires n < |cands| && cands[n].semantic.values.ex == Some(date)
    ensures SeenUnder(cands, n + 1, (cands[n].semantic.code, date), cands[n].semantic.values)
  {}

  method GroupByKey(cands: seq<Candidate>) returns (byKey: map<Key, set<Values>>)
    ensures Grouped(cands, |cands|, byKey)
  {
    hide SeenUnder;
    byKey := map[];
    for n := 0 to |cands|
      invariant Grouped(cands, n, byKey)
    {
      var s := cands[n].semantic;
      forall key, v | key in byKey && v in byKey[key]
        ensures SeenUnder(cands, n + 1, key, v)
      {
        SeenLater(cands, n, key, v);
      }
      if s.values.ex.Some? {
        SeenNow(cands, n, s.values.ex.value);
        var key := (s.code, s.values.ex.value);
        byKey := byKey[key := (if key in byKey then byKey[key] else {}) + {s.values}];
      }
    }
  }

  /** More than one distinct economics for its key is what contests a candidate. */
  lemma ContestedIff(cands: seq<Candidate>, byKey: map<Key, set<Values>>, i: nat)
    requires Grouped(cands, |cands|, byKey) && i < |cands| && cands[i].semantic.values.ex.Some?
    ensures var s := cands[i].semantic;
            Contested(Elements(cands), s) <==> byKey[(s.code, s.values.ex.value)] != {s.values}
  {
    var s := cands[i].semantic;
    var seen := byKey[(s.code, s.values.ex.value)];
    if Contested(Elements(cands), s) {
      var d :| d in Elements(cands) && SameEvent(s, d.semantic) && d.semantic.values != s.values;
      var j :| 0 <= j < |cands| && cands[j] == d;
      assert d.semantic.values in seen;
    } else {
      forall v | v in seen
        ensures v == s.values
      {
        assert SeenUnder(cands, |cands|, (s.code, s.values.ex.value), v);
        var j :| 0 <= j < |cands| && cands[j].semantic.values == v && cands[j].semantic.code == s.code && v.ex == s.values.ex;
        assert cands[j] in Elements(cands);
      }
      assert seen == {s.values};
    }
  }

  /** Neither a later revision nor a better fit chooses among conflicting economics. */
  method GateAll(cands: seq<Candidate>) returns (gated: seq<Candidate>)
    ensures |gated| == |cands|
    ensures forall i :: 0 <= i < |cands| ==> gated[i] == Candidate(cands[i].hash, Gated(Elements(cands), cands[i].semantic))
  {
    hide Grouped, Contested;
    var byKey := GroupByKey(cands);
    gated := [];
    for n := 0 to |cands|
      invariant |gated| == n
      invariant forall i :: 0 <= i < n ==> gated[i] == Candidate(cands[i].hash, Gated(Elements(cands), cands[i].semantic))
    {
      var s := cands[n].semantic;
      var conflicting := false;
      if s.values.ex.Some? {
        KeyIsGrouped(cands, byKey, n);
        ContestedIff(cands, byKey, n);
        conflicting := byKey[(s.code, s.values.ex.value)] != {s.values};
      } else {
        UndatedIsUncontested(Elements(cands), s);
      }
      gated := gated + [Candidate(cands[n].hash, if conflicting then s.(status := Conflicting) else s)];
    }
  }

  lemma KeyIsGrouped(cands: seq<Candidate>, byKey: map<Key, set<Values>>, i: nat)
    requires Grouped(cands, |cands|, byKey) && i < |cands| && cands[i].semantic.values.ex.Some?
    ensures (cands[i].semantic.code, cands[i].semantic.values.ex.value) in byKey
  {}

  lemma UndatedIsUncontested(cands: set<Candidate>, s: Semantic)
    requires s.values.ex.None?
    ensures !Contested(cands, s)
  {}

  function HashesFor(gated: seq<Candidate>, s: Semantic): set<nat> {
    set i | 0 <= i < |gated| && gated[i].semantic == s :: gated[i].hash
  }

  lemma HashesSnoc(gated: seq<Candidate>, c: Candidate, s: Semantic)
    ensures HashesFor(gated + [c], s) == HashesFor(gated, s) + (if c.semantic == s then {c.hash} else {})
  {
    var longer := gated + [c];
    forall h | h in HashesFor(gated, s)
      ensures h in HashesFor(longer, s)
    {
      var i :| 0 <= i < |gated| && gated[i].semantic == s && gated[i].hash == h;
      assert longer[i] == gated[i];
    }
    assert longer[|gated|] == c;
  }

  /** Equal semantics become one event that retains every row hash. */
  method Merge(gated: seq<Candidate>) returns (order: seq<Semantic>, grouped: map<Semantic, set<nat>>)
    ensures NoDuplicates(order) && forall s :: s in order <==> s in grouped
    ensures forall s :: s in grouped <==> exists i :: 0 <= i < |gated| && gated[i].semantic == s
    ensures forall s :: s in grouped ==> grouped[s] == HashesFor(gated, s)
  {
    hide HashesFor;
    order, grouped := [], map[];
    NoHashes();
    for n := 0 to |gated|
      invariant NoDuplicates(order) && forall s :: s in order <==> s in grouped
      invariant forall s :: s in grouped <==> exists i :: 0 <= i < n && gated[i].semantic == s
      invariant forall s :: s in grouped ==> grouped[s] == HashesFor(gated[..n], s)
      invariant forall s :: s !in grouped ==> HashesFor(gated[..n], s) == {}
    {
      var c := gated[n];
      assert gated[..n + 1] == gated[..n] + [c];
      forall s
        ensures HashesFor(gated[..n + 1], s) == HashesFor(gated[..n], s) + (if c.semantic == s then {c.hash} else {})
      {
        HashesSnoc(gated[..n], c, s);
      }
      if c.semantic !in grouped {
        order := order + [c.semantic];
        grouped := grouped[c.semantic := {c.hash}];
      } else {
        grouped := grouped[c.semantic := grouped[c.semantic] + {c.hash}];
      }
    }
    assert gated[..|gated|] == gated;
  }

  lemma NoHashes()
    ensures forall s :: HashesFor([], s) == {}
  {}

  /** normalize_dividends: the loops compute exactly the order-free meaning, each event once. */
  method NormalizeDividends(raw: seq<RawRow>, reviews: seq<Review>, cutoff: Date) returns (r: Result<seq<Event>, ReviewFault>)
    ensures r.Err? <==> ReviewedTwice(reviews) || ReviewedMissing(raw, reviews)
    ensures r.Ok? ==> Elements(r.value) == Normalized(Elements(raw), ReviewsOf(reviews), cutoff) && NoDuplicates(r.value)
  {
    hide CandidateOf, Gated, HashesFor, HashesOf, ReviewsOf, ReviewedTwice, ReviewedMissing;
    var byHash := IndexReviews(raw, reviews);
    if byHash.Err? {
      return Err(byHash.error);
    }
    var cands := CollectCandidates(raw, byHash.value, cutoff);
    var gated := GateAll(cands);
    var order, grouped := Merge(gated);
    var events := seq(|order|, i requires 0 <= i < |order| => Event(order[i], if order[i] in grouped then grouped[order[i]] else {}));
    MergedIsNormalized(Elements(raw), byHash.value, cutoff, cands, gated, order, grouped, events);
    return Ok(events);
  }

  lemma MergedIsNormalized(rows: set<RawRow>, reviews: Reviews, cutoff: Date, cands: seq<Candidate>, gated: seq<Candidate>,
      order: seq<Semantic>, grouped: map<Semantic, set<nat>>, events: seq<Event>)
    requires Elements(cands) == Candidates(rows, reviews, cutoff) && |gated| == |cands|
    requires forall i :: 0 <= i < |cands| ==> gated[i] == Candidate(cands[i].hash, Gated(Elements(cands), cands[i].semantic))
    requires NoDuplicates(order) && forall s :: s in order <==> s in grouped
    requires forall s :: s in grouped <==> exists i :: 0 <= i < |gated| && gated[i].semantic == s
    requires forall s :: s in grouped ==> grouped[s] == HashesFor(gated, s)
    requires |events| == |order| && forall i :: 0 <= i < |order| ==> order[i] in grouped && events[i] == Event(order[i], grouped[order[i]])
    ensures Elements(events) == Normalized(rows, reviews, cutoff) && NoDuplicates(events)
  {
    hide Candidates, Gated;
    var set0 := Elements(cands);
    forall s | s in grouped
      ensures EventOf(set0, s) == Event(s, grouped[s])
    {
      GatheredHashes(cands, gated, s);
    }
    forall e | e in Normalized(rows, reviews, cutoff)
      ensures e in Elements(events)
    {
      var c :| c in set0 && EventOf(set0, Gated(set0, c.semantic)) == e;
      var i :| 0 <= i < |cands| && cands[i] == c;
      assert gated[i].semantic in grouped;
      var j :| 0 <= j < |order| && order[j] == gated[i].semantic;
      assert events[j] in events;
    }
    forall e | e in Elements(events)
      ensures e in Normalized(rows, reviews, cutoff)
    {
      var j :| 0 <= j < |events| && events[j] == e;
      var i :| 0 <= i < |gated| && gated[i].semantic == order[j];
      assert cands[i] in set0;
    }
  }

  lemma GatheredHashes(cands: seq<Candidate>, gated: seq<Candidate>, s: Semantic)
    requires |gated| == |cands|
    requires forall i :: 0 <= i < |cands| ==> gated[i] == Candidate(cands[i].hash, Gated(Elements(cands), cands[i].semantic))
    ensures EventOf(Elements(cands), s).hashes == HashesFor(gated, s)
  {
    hide Gated;
    var set0 := Elements(cands);
    forall h | h in EventOf(set0, s).hashes
      ensures h in HashesFor(gated, s)
    {
      var d :| d in set0 && Gated(set0, d.semantic) == s && d.hash == h;
      var i :| 0 <= i < |cands| && cands[i] == d;
      assert gated[i].hash == h;
    }
    forall h | h in HashesFor(gated, s)
      ensures h in EventOf(set0, s).hashes
    {
      var i :| 0 <= i < |gated| && gated[i].semantic == s && gated[i].hash == h;
      assert cands[i] in set0;
    }
  }
}
