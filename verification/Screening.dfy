/** The review queue read off the raw provider rows: which rows are grouped, what is found wrong with
    them, which events the queue asks about, with which rows and which status, and what an approval
    takes (revision_groups, build_triage and _queue_row in
    src/ashare_quant/data/economic_event_review.py). */
module Screening {
  import opened Basics
  import opened Dividends
  import opened Review

  // ----- one row -----

  ghost predicate Readable(r: RawRow) {
    !r.end.Malformed? && forall name :: !Unreadable(r, name)
  }

  ghost predicate PaysCash(r: RawRow) {
    IsPositive(r.cash) || IsPositive(r.cashBeforeTax)
  }

  ghost predicate PaysShares(r: RawRow) {
    IsPositive(r.total) || IsPositive(r.bonus) || IsPositive(r.reserve)
  }

  /** What a finding says of the row. */
  ghost predicate Shows(r: RawRow, f: Finding) {
    match f
    case Invalid(name) => Unreadable(r, name)
    case InvalidEnd => r.end.Malformed?
    case MissingComponents => !AllAmounts(r)
    case MissingRecordOrEx => !r.record.Given? || !r.ex.Given?
    case DateOrder =>
      && r.ex.Given?
      && ((r.record.Given? && r.ex.value <= r.record.value) || (r.pay.Given? && r.pay.value < r.ex.value)
          || (r.listing.Given? && r.listing.value < r.ex.value))
    case CashFields => IsAmount(r.cash) && IsAmount(r.cashBeforeTax) && r.cashBeforeTax.value + 0.0000000001 < r.cash.value
  }

  /** Nothing is wrong with the row. */
  ghost predicate Sound(r: RawRow) {
    && Readable(r) && AllAmounts(r) && r.cash.value <= r.cashBeforeTax.value + 0.0000000001
    && r.record.Given? && r.ex.Given? && r.record.value < r.ex.value
    && (r.pay.Given? ==> r.ex.value <= r.pay.value) && (r.listing.Given? ==> r.ex.value <= r.listing.value)
  }

  ghost predicate IsCategory(r: RawRow, c: Category) {
    match c
    case IncompleteEconomics => !AllAmounts(r)
    case CashAndShares => AllAmounts(r) && PaysCash(r) && PaysShares(r)
    case CashOnly => AllAmounts(r) && PaysCash(r) && !PaysShares(r)
    case SharesOnly => AllAmounts(r) && !PaysCash(r) && PaysShares(r)
    case ZeroEconomics => AllAmounts(r) && !PaysCash(r) && !PaysShares(r)
  }

  lemma InvalidIff(r: RawRow, f: Finding)
    ensures f in InvalidFindings(r) <==> (f.Invalid? || f.InvalidEnd?) && Shows(r, f)
  {
    hide InvalidFields, Unreadable;
    if f.Invalid? {
      UnreadableIff(r, f.name);
      assert InvalidField(f.name).name == f.name;
    }
  }

  /** A finding of the group of a row is one that the row shows. */
  lemma FindingIff(r: RawRow, f: Finding)
    ensures f in IdOf(r).findings <==> Shows(r, f)
  {
    hide InvalidFindings, Unreadable;
    InvalidIff(r, f);
  }

  lemma ReadableIff(r: RawRow)
    ensures Readable(r) <==> InvalidFindings(r) == {}
    ensures Readable(r) <==> IdOf(r).invalid.None?
    ensures IdOf(r).invalid.Some? ==> IdOf(r).invalid == Some(r.hash)
  {
    hide InvalidFindings, TermFindings, Unreadable;
    if Readable(r) {
      forall f
        ensures f !in InvalidFindings(r)
      {
        InvalidIff(r, f);
      }
    } else if r.end.Malformed? {
      InvalidIff(r, InvalidEnd);
    } else {
      var name :| Unreadable(r, name);
      InvalidIff(r, Invalid(name));
    }
  }

  /** A group has no finding exactly if its rows are sound. */
  lemma SoundIff(r: RawRow)
    ensures IdOf(r).findings == {} <==> Sound(r)
  {
    hide IdOf, Unreadable;
    forall f
      ensures f in IdOf(r).findings <==> Shows(r, f)
    {
      FindingIff(r, f);
    }
    if Sound(r) {
      assert forall f :: !Shows(r, f);
    } else if !Readable(r) {
      if r.end.Malformed? {
        assert Shows(r, InvalidEnd);
      } else {
        var name :| Unreadable(r, name);
        assert Shows(r, Invalid(name));
      }
    } else {
      assert Shows(r, MissingComponents) || Shows(r, MissingRecordOrEx) || Shows(r, DateOrder) || Shows(r, CashFields);
    }
  }

  /** The materiality of a row. */
  lemma CategoryIff(r: RawRow, c: Category)
    ensures CategoryOf(TermsOf(r)) == c <==> IsCategory(r, c)
  {}

  // ----- two rows -----

  ghost predicate SameTerms(a: RawRow, b: RawRow) {
    && SameField(a.record, b.record) && SameField(a.ex, b.ex) && SameField(a.pay, b.pay) && SameField(a.listing, b.listing)
    && SameAmount(a.cash, b.cash) && SameAmount(a.cashBeforeTax, b.cashBeforeTax) && SameAmount(a.bonus, b.bonus)
    && SameAmount(a.reserve, b.reserve) && SameAmount(a.total, b.total)
  }

  ghost predicate SameFaults(a: RawRow, b: RawRow) {
    (a.end.Malformed? <==> b.end.Malformed?) && forall name :: Unreadable(a, name) <==> Unreadable(b, name)
  }

  /** Revisions of one event: the same terms for the same period. A row with an unreadable field is a
      revision of nothing but itself. */
  ghost predicate Together(a: RawRow, b: RawRow) {
    && a.code == b.code && SameField(a.end, b.end) && SameTerms(a, b)
    && if Readable(a) then Readable(b) else a.hash == b.hash && SameFaults(a, b)
  }

  /** Two rows that cannot both be right. */
  ghost predicate Disagree(a: RawRow, b: RawRow) {
    && a.code == b.code && ((a.ex.Given? && a.ex == b.ex) || (a.end.Given? && a.end == b.end))
    && !SameTerms(a, b)
  }

  lemma SameTermsIff(a: RawRow, b: RawRow)
    ensures SameTerms(a, b) <==> TermsOf(a) == TermsOf(b)
  {}

  lemma SameFaultsIff(a: RawRow, b: RawRow)
    ensures SameFaults(a, b) <==> InvalidFindings(a) == InvalidFindings(b)
  {
    hide InvalidFindings, Unreadable;
    if SameFaults(a, b) {
      forall f
        ensures f in InvalidFindings(a) <==> f in InvalidFindings(b)
      {
        InvalidIff(a, f);
        InvalidIff(b, f);
      }
    }
    if InvalidFindings(a) == InvalidFindings(b) {
      InvalidIff(a, InvalidEnd);
      InvalidIff(b, InvalidEnd);
      forall name
        ensures Unreadable(a, name) <==> Unreadable(b, name)
      {
        InvalidIff(a, Invalid(name));
        InvalidIff(b, Invalid(name));
      }
    }
  }

  lemma InvalidPart(r: RawRow)
    ensures InvalidFindings(r) == set f | f in IdOf(r).findings && (f.Invalid? || f.InvalidEnd?)
  {
    hide InvalidFindings, Unreadable;
    forall f
      ensures f in InvalidFindings(r) ==> f.Invalid? || f.InvalidEnd?
    {
      InvalidIff(r, f);
    }
  }

  /** Two rows are in one group exactly if they are revisions of one event. */
  lemma TogetherIff(a: RawRow, b: RawRow)
    ensures IdOf(a) == IdOf(b) <==> Together(a, b)
  {
    hide InvalidFindings, TermFindings, SameTerms, TermsOf, SameFaults, Readable;
    SameTermsIff(a, b);
    SameFaultsIff(a, b);
    ReadableIff(a);
    ReadableIff(b);
    InvalidPart(a);
    InvalidPart(b);
  }

  lemma DisagreeIff(a: RawRow, b: RawRow)
    ensures Conflict(IdOf(a), IdOf(b)) <==> Disagree(a, b)
  {
    hide InvalidFindings, TermFindings, SameTerms;
    SameTermsIff(a, b);
  }

  // ----- groups -----

  ghost function IdsOf(rows: set<RawRow>): set<GroupId> {
    set r | r in rows :: IdOf(r)
  }

  ghost function Implemented(raw: seq<RawRow>): set<RawRow> {
    set r | r in raw && r.implemented
  }

  /** What a group says of its rows. */
  lemma GroupIsOf(raw: seq<RawRow>, r: RawRow)
    requires r in Implemented(raw)
    ensures IdOf(r) in GroupsOf(raw)
    ensures forall h :: h in GroupsOf(raw)[IdOf(r)].hashes <==> exists q :: q in Implemented(raw) && Together(q, r) && q.hash == h
    ensures forall c :: c in GroupsOf(raw)[IdOf(r)].sources <==> exists q :: q in Implemented(raw) && Together(q, r) && q.sourceCode == c
    ensures forall d :: d in GroupsOf(raw)[IdOf(r)].announced <==> exists q :: q in Implemented(raw) && Together(q, r) && q.announced == Given(d)
    ensures forall d :: d in GroupsOf(raw)[IdOf(r)].implementation <==>
                        exists q :: q in Implemented(raw) && Together(q, r) && q.implementation == Given(d)
  {
    hide IdOf, Together;
    var members := Members(raw, IdOf(r));
    forall q
      ensures q in members <==> q in Implemented(raw) && Together(q, r)
    {
      MemberIff(raw, IdOf(r), q);
      TogetherIff(q, r);
    }
    assert IdOf(r) in GroupIds(raw);
    assert GroupsOf(raw)[IdOf(r)] == Summary(members);
    SummaryIs(members);
  }

  lemma SummaryIs(members: seq<RawRow>)
    ensures forall h :: h in Summary(members).hashes <==> exists q :: q in members && q.hash == h
    ensures forall c :: c in Summary(members).sources <==> exists q :: q in members && q.sourceCode == c
    ensures forall d :: d in Summary(members).announced <==> exists q :: q in members && q.announced == Given(d)
    ensures forall d :: d in Summary(members).implementation <==> exists q :: q in members && q.implementation == Given(d)
  {}

  /** One more row adds one to the rows of its own group only. */
  lemma RowsAreCounted(raw: seq<RawRow>, r: RawRow, id: GroupId)
    requires id in GroupsOf(raw + [r])
    ensures GroupsOf(raw + [r])[id].rows
         == (if id in GroupsOf(raw) then GroupsOf(raw)[id].rows else 0) + (if r.implemented && IdOf(r) == id then 1 else 0)
  {
    hide IdOf, Members, Belongs;
    MembersSnoc(raw, r, id);
    GroupIdsSnoc(raw, r);
    assert Belongs(id, r) <==> r.implemented && IdOf(r) == id by { BelongsIff(id, r); }
    if id !in GroupsOf(raw) {
      NoMembers(raw, id);
    }
  }

  lemma BelongsIff(id: GroupId, r: RawRow)
    ensures Belongs(id, r) <==> r.implemented && IdOf(r) == id
  {
    hide IdOf;
  }

  lemma NoMembers(raw: seq<RawRow>, id: GroupId)
    requires id !in GroupIds(raw)
    ensures Members(raw, id) == []
  {
    hide IdOf;
    FirstIsMember(Members(raw, id));
    if Members(raw, id) != [] {
      MemberIff(raw, id, Members(raw, id)[0]);
      assert false;
    }
  }

  // ----- the status of a queue row -----

  /** Matching rows that are no revisions of one event, or that some row of the provider disputes. */
  ghost predicate Clash(raw: seq<RawRow>, exact: set<RawRow>) {
    || (exists r, s :: r in exact && s in exact && !Together(r, s))
    || (exists r, s :: r in exact && s in Implemented(raw) && Disagree(r, s))
  }

  ghost predicate Revised(exact: set<RawRow>) {
    exists r, s :: r in exact && s in exact && r.hash != s.hash
  }

  ghost predicate Economic(r: RawRow) {
    PaysCash(r) || PaysShares(r)
  }

  ghost predicate IsTriage(raw: seq<RawRow>, exact: set<RawRow>, suggested: set<RawRow>, status: Triage) {
    match status
    case MultipleConflicting => Clash(raw, exact)
    case OnlyNearby => exact == {} && suggested != {}
    case NoExact => exact == {} && suggested == {}
    case IncompleteEvent => !Clash(raw, exact) && exists r :: r in exact && !Sound(r)
    case UnsupportedType => !Clash(raw, exact) && exists r :: r in exact && Sound(r) && !Economic(r)
    case IdenticalRevisions => !Clash(raw, exact) && Revised(exact) && exists r :: r in exact && Sound(r) && Economic(r)
    case UniqueExact => !Clash(raw, exact) && !Revised(exact) && exists r :: r in exact && Sound(r) && Economic(r)
  }

  /** Rows of the provider with all their revisions. */
  ghost predicate Closed(raw: seq<RawRow>, rows: set<RawRow>) {
    && rows <= Implemented(raw)
    && forall r, s :: r in rows && s in Implemented(raw) && Together(r, s) ==> s in rows
  }

  lemma SeveralGroups(rows: set<RawRow>)
    ensures |IdsOf(rows)| > 1 <==> exists r, s :: r in rows && s in rows && !Together(r, s)
  {
    hide IdOf, Together;
    var ids := IdsOf(rows);
    SeveralIff(ids);
    forall r, s
      ensures IdOf(r) == IdOf(s) <==> Together(r, s)
    {
      TogetherIff(r, s);
    }
    if x, y :| x in ids && y in ids && x != y {
      var r :| r in rows && IdOf(r) == x;
      var s :| s in rows && IdOf(s) == y;
      assert !Together(r, s);
    }
    if r, s :| r in rows && s in rows && !Together(r, s) {
      assert IdOf(r) in ids && IdOf(s) in ids;
    }
  }

  lemma ConflictedIff(raw: seq<RawRow>, r: RawRow)
    ensures ConflictsOf(GroupsOf(raw).Keys, IdOf(r)) != {} <==> exists s :: s in Implemented(raw) && Disagree(r, s)
  {
    hide IdOf, Disagree, Conflict;
    var found := ConflictsOf(GroupsOf(raw).Keys, IdOf(r));
    if found != {} {
      var other :| other in found;
      var s :| s in raw && s.implemented && IdOf(s) == other;
      DisagreeIff(r, s);
      assert s in Implemented(raw);
    }
    if s :| s in Implemented(raw) && Disagree(r, s) {
      DisagreeIff(r, s);
      assert IdOf(s) in found;
    }
  }

  lemma ClashIff(raw: seq<RawRow>, exact: set<RawRow>)
    requires exact <= Implemented(raw)
    ensures Clashes(GroupsOf(raw), IdsOf(exact)) <==> Clash(raw, exact)
  {
    hide IdOf, Disagree, Together, ConflictsOf;
    SeveralGroups(exact);
    forall r
      ensures ConflictsOf(GroupsOf(raw).Keys, IdOf(r)) != {} <==> exists s :: s in Implemented(raw) && Disagree(r, s)
    {
      ConflictedIff(raw, r);
    }
    if g :| g in IdsOf(exact) && ConflictsOf(GroupsOf(raw).Keys, g) != {} {
      var r :| r in exact && IdOf(r) == g;
      assert exists s :: s in Implemented(raw) && Disagree(r, s);
    }
    if r, s :| r in exact && s in Implemented(raw) && Disagree(r, s) {
      assert IdOf(r) in IdsOf(exact);
      assert ConflictsOf(GroupsOf(raw).Keys, IdOf(r)) != {};
    }
  }

  /** The revisions of one event leave several hashes in its group exactly if their hashes differ. */
  lemma RevisedIff(raw: seq<RawRow>, exact: set<RawRow>, r: RawRow)
    requires Closed(raw, exact) && !Clash(raw, exact) && r in exact
    ensures IdOf(r) in GroupsOf(raw) && (|GroupsOf(raw)[IdOf(r)].hashes| > 1 <==> Revised(exact))
  {
    hide IdOf, Disagree, Together, GroupsOf;
    GroupIsOf(raw, r);
    var hashes := GroupsOf(raw)[IdOf(r)].hashes;
    SeveralIff(hashes);
    TogetherIsSymmetric();
    if x, y :| x in hashes && y in hashes && x != y {
      var p :| p in Implemented(raw) && Together(p, r) && p.hash == x;
      var q :| q in Implemented(raw) && Together(q, r) && q.hash == y;
      assert p in exact && q in exact;
    }
    if p, q :| p in exact && q in exact && p.hash != q.hash {
      assert Together(p, r) && Together(q, r);
      assert p.hash in hashes && q.hash in hashes;
    }
  }

  lemma TogetherIsSymmetric()
    ensures forall a, b :: Together(a, b) ==> Together(b, a)
  {
    hide Together, IdOf;
    forall a, b | Together(a, b)
      ensures Together(b, a)
    {
      TogetherIff(a, b);
      TogetherIff(b, a);
    }
  }

  lemma SameGroupSameRow(exact: set<RawRow>, r: RawRow, s: RawRow)
    requires r in exact && s in exact && IdOf(r) == IdOf(s)
    ensures Sound(r) <==> Sound(s)
    ensures Economic(r) <==> Economic(s)
  {
    hide Unreadable, InvalidFindings, TermFindings;
    SoundIff(r);
    SoundIff(s);
  }

  /** Without a clash one row stands for all. */
  lemma SingleIff(raw: seq<RawRow>, exact: set<RawRow>, r: RawRow, status: Triage)
    requires Closed(raw, exact) && !Clash(raw, exact) && r in exact
    ensures StatusOfSingle(GroupsOf(raw), IdsOf(exact)) == status <==> IsTriage(raw, exact, exact, status)
  {
    hide IdOf, Together, Disagree, Clash, GroupsOf, Sound, Economic, CategoryOf, Revised;
    forall s | s in exact
      ensures IdOf(s) == IdOf(r) && (Sound(s) <==> Sound(r)) && (Economic(s) <==> Economic(r))
    {
      assert Together(s, r) by { UnclashedTogether(raw, exact, s, r); }
      TogetherIff(s, r);
      SameGroupSameRow(exact, s, r);
    }
    assert IdOf(r) in IdsOf(exact);
    assert IdsOf(exact) == {IdOf(r)};
    SoundIff(r);
    if Sound(r) {
      ZeroIff(r);
    }
    RevisedIff(raw, exact, r);
    SingleStatus(GroupsOf(raw), IdOf(r));
  }

  lemma SingleStatus(groups: Groups, g: GroupId)
    requires g in groups
    ensures StatusOfSingle(groups, {g})
         == if g.findings != {} then IncompleteEvent
            else if CategoryOf(g.terms) == ZeroEconomics then UnsupportedType
            else if |groups[g].hashes| > 1 then IdenticalRevisions
            else UniqueExact
  {
    hide CategoryOf;
    assert g in {g};
  }

  lemma ZeroIff(r: RawRow)
    requires Sound(r)
    ensures CategoryOf(IdOf(r).terms) == ZeroEconomics <==> !Economic(r)
  {
    hide Unreadable, InvalidFindings, TermFindings;
    CategoryIff(r, ZeroEconomics);
  }

  lemma UnclashedTogether(raw: seq<RawRow>, exact: set<RawRow>, s: RawRow, r: RawRow)
    requires !Clash(raw, exact) && s in exact && r in exact
    ensures Together(s, r)
  {
    hide Together, Disagree;
  }

  lemma EmptyNeverClashes(raw: seq<RawRow>)
    ensures !Clash(raw, {})
  {}

  /** The status of a queue row, from its matching rows. */
  lemma TriageIff(raw: seq<RawRow>, exact: set<RawRow>, suggested: set<RawRow>, candidates: set<GroupId>, status: Triage)
    requires Closed(raw, exact) && (candidates == {} <==> suggested == {})
    ensures TriageOf(GroupsOf(raw), candidates, IdsOf(exact)) == status <==> IsTriage(raw, exact, suggested, status)
  {
    hide IdOf, Together, Disagree, Clash, GroupsOf, Sound, Economic, StatusOfSingle, Revised, Clashes;
    ClashIff(raw, exact);
    EmptyNeverClashes(raw);
    if exact == {} {
      assert IdsOf(exact) == {};
    } else {
      var r :| r in exact;
      assert IdOf(r) in IdsOf(exact);
      if !Clash(raw, exact) {
        SingleIff(raw, exact, r, status);
      } else {
        assert status.OnlyNearby? || status.NoExact? ==> !IsTriage(raw, exact, suggested, status);
      }
    }
  }

  // ----- which rows an event of the queue concerns -----

  ghost predicate Falls(f: Field<Date>, intervals: set<(Date, Date)>) {
    f.Given? && exists i :: i in intervals && i.0 <= f.value && f.value <= i.1
  }

  /** Some date falls into an interval, or there is no date to judge by. */
  ghost predicate Near(r: RawRow, intervals: set<(Date, Date)>) {
    if r.ex.Given? || r.record.Given? || r.pay.Given? || r.listing.Given?
    then Falls(r.ex, intervals) || Falls(r.record, intervals) || Falls(r.pay, intervals) || Falls(r.listing, intervals)
    else true
  }

  ghost predicate Mentions(r: RawRow, a: Adjustment) {
    r.code == a.code && (r.ex == Given(a.date) || Near(r, a.intervals))
  }

  /** Some position of the code spanned the ex-date, or was held on the record date. */
  ghost predicate Owned(e: Exposure, r: RawRow)
    requires r.ex.Given?
  {
    exists p :: p in e.holders && p.code == r.code
                && ((p.entry <= r.ex.value && r.ex.value <= p.resolution)
                    || (r.record.Given? && (p.position, r.record.value) in e.holdings))
  }

  /** An entitlement that no observed factor change accounts for. */
  ghost predicate Overlooked(e: Exposure, r: RawRow) {
    && r.ex.Given? && r.ex.value <= e.cutoff && Owned(e, r)
    && (forall a :: a in e.adjustments && a.code == r.code ==> a.date != r.ex.value)
    && (AllAmounts(r) ==> Economic(r))
  }

  ghost function Spans(e: Exposure, code: Code): set<(Date, Date)> {
    set p | p in e.holders && p.code == code :: (p.entry, p.resolution)
  }

  /** Without an ex-date, for a code that was held. */
  ghost predicate Unplaced(e: Exposure, r: RawRow) {
    !r.ex.Given? && (exists p :: p in e.holders && p.code == r.code) && Near(r, Spans(e, r.code))
  }

  /** The row matches the event of the queue exactly. */
  ghost predicate Fits(e: Exposure, event: EventId, r: RawRow) {
    match event
    case AuditEvent(b) => exists a :: a in e.adjustments && a.boundary == b && r.code == a.code && r.ex == Given(a.date)
    case ReverseEvent(code, date) => r.code == code && r.ex == Given(date) && Overlooked(e, r)
    case UndatedEvent(code) => false
  }

  /** The row is put to the review of the event. */
  ghost predicate Suggested(raw: seq<RawRow>, e: Exposure, event: EventId, r: RawRow) {
    match event
    case AuditEvent(b) =>
      exists a :: a in e.adjustments && a.boundary == b
                  && (Mentions(r, a) || exists s :: s in Implemented(raw) && Mentions(s, a) && Disagree(s, r))
    case ReverseEvent(code, date) => Fits(e, event, r)
    case UndatedEvent(code) => r.code == code && Unplaced(e, r)
  }

  ghost function FitRows(raw: seq<RawRow>, e: Exposure, event: EventId): set<RawRow> {
    set r | r in Implemented(raw) && Fits(e, event, r)
  }

  ghost function SuggestedRows(raw: seq<RawRow>, e: Exposure, event: EventId): set<RawRow> {
    set r | r in Implemented(raw) && Suggested(raw, e, event, r)
  }

  /** Each audit boundary is one code on one date. */
  ghost predicate BoundariesDiffer(adjustments: seq<Adjustment>) {
    forall j, k :: 0 <= j < k < |adjustments| ==> adjustments[j].boundary != adjustments[k].boundary
  }

  ghost predicate Asked(raw: seq<RawRow>, e: Exposure, event: EventId) {
    if event.AuditEvent? then exists a :: a in e.adjustments && a.boundary == event.boundary
    else SuggestedRows(raw, e, event) != {}
  }

  lemma NearIff(r: RawRow, intervals: set<(Date, Date)>)
    ensures Related(TermsOf(r), intervals) <==> Near(r, intervals)
  {}

  lemma OverlookedIff(e: Exposure, r: RawRow)
    ensures Uncovered(e, IdOf(r)) <==> Overlooked(e, r)
  {
    hide InvalidFindings, TermFindings, CategoryOf;
    CategoryIff(r, ZeroEconomics);
  }

  lemma UnplacedIff(e: Exposure, r: RawRow)
    ensures UndatedEntitlement(e, IdOf(r)) <==> Unplaced(e, r)
  {
    hide InvalidFindings, TermFindings, Related, Near;
    NearIff(r, Spans(e, r.code));
    assert Spans(e, r.code) == set p | p in e.holders && p.code == IdOf(r).code :: (p.entry, p.resolution);
  }

  /** Revisions of one event fit alike. */
  lemma FitsTogether(e: Exposure, event: EventId, r: RawRow, s: RawRow)
    requires Fits(e, event, r) && Together(r, s)
    ensures Fits(e, event, s)
  {
    hide InvalidFindings, TermFindings, Overlooked;
    TogetherIff(r, s);
    OverlookedIff(e, r);
    OverlookedIff(e, s);
    assert TermsOf(r) == TermsOf(s);
  }

  lemma FitRowsClosed(raw: seq<RawRow>, e: Exposure, event: EventId)
    ensures Closed(raw, FitRows(raw, e, event))
  {
    hide Fits, Together;
    forall r, s | r in FitRows(raw, e, event) && s in Implemented(raw) && Together(r, s)
      ensures s in FitRows(raw, e, event)
    {
      FitsTogether(e, event, r, s);
    }
  }

  // ----- the rows of the queue -----

  lemma ExactOnIs(raw: seq<RawRow>, code: Code, date: Date)
    ensures ExactOn(GroupsOf(raw), code, date) == IdsOf(set r | r in Implemented(raw) && r.code == code && r.ex == Given(date))
  {
    hide InvalidFindings, TermFindings;
    var rows := set r | r in Implemented(raw) && r.code == code && r.ex == Given(date);
    forall g | g in ExactOn(GroupsOf(raw), code, date)
      ensures g in IdsOf(rows)
    {
      var r :| r in raw && r.implemented && IdOf(r) == g;
      assert r in rows;
    }
    forall g | g in IdsOf(rows)
      ensures g in ExactOn(GroupsOf(raw), code, date)
    {
      var r :| r in rows && IdOf(r) == g;
      assert g in GroupsOf(raw);
    }
  }

  ghost function MentionRows(raw: seq<RawRow>, a: Adjustment): set<RawRow> {
    set r | r in Implemented(raw) && Mentions(r, a)
  }

  lemma MentionedIs(raw: seq<RawRow>, a: Adjustment)
    ensures ExactOn(GroupsOf(raw), a.code, a.date)
            + (set g | g in GroupsOf(raw) && g.code == a.code && Related(g.terms, a.intervals))
         == IdsOf(MentionRows(raw, a))
  {
    hide InvalidFindings, TermFindings, Related, Near;
    var groups := GroupsOf(raw);
    var named := ExactOn(groups, a.code, a.date) + (set g | g in groups && g.code == a.code && Related(g.terms, a.intervals));
    forall r
      ensures Related(IdOf(r).terms, a.intervals) <==> Near(r, a.intervals)
    {
      NearIff(r, a.intervals);
    }
    forall g | g in named
      ensures g in IdsOf(MentionRows(raw, a))
    {
      var r :| r in raw && r.implemented && IdOf(r) == g;
      assert r in MentionRows(raw, a);
    }
    forall g | g in IdsOf(MentionRows(raw, a))
      ensures g in named
    {
      var r :| r in MentionRows(raw, a) && IdOf(r) == g;
      assert g in groups;
    }
  }

  ghost function WithDisagreeing(raw: seq<RawRow>, rows: set<RawRow>): set<RawRow> {
    set r | r in Implemented(raw) && (r in rows || exists s :: s in rows && Disagree(s, r))
  }

  lemma SiblingsAre(raw: seq<RawRow>, rows: set<RawRow>)
    requires rows <= Implemented(raw)
    ensures WithSiblings(GroupsOf(raw), IdsOf(rows)) == IdsOf(WithDisagreeing(raw, rows))
  {
    hide IdOf, Disagree, Conflict;
    var groups, all := GroupsOf(raw), WithDisagreeing(raw, rows);
    forall g | g in WithSiblings(groups, IdsOf(rows))
      ensures g in IdsOf(all)
    {
      if g in IdsOf(rows) {
        var r :| r in rows && IdOf(r) == g;
        assert r in all;
      } else {
        var s :| s in rows && g in ConflictsOf(groups.Keys, IdOf(s));
        var r :| r in raw && r.implemented && IdOf(r) == g;
        DisagreeIff(s, r);
        assert r in all;
      }
    }
    forall g | g in IdsOf(all)
      ensures g in WithSiblings(groups, IdsOf(rows))
    {
      var r :| r in all && IdOf(r) == g;
      if r !in rows {
        var s :| s in rows && Disagree(s, r);
        DisagreeIff(s, r);
        assert IdOf(s) in IdsOf(rows) && g in ConflictsOf(groups.Keys, IdOf(s));
      }
    }
  }

  /** A row of the queue says what the provider rows say. */
  ghost predicate IsRow(raw: seq<RawRow>, e: Exposure, event: EventId, q: QueueRow) {
    && q.exact == IdsOf(FitRows(raw, e, event))
    && q.candidates == IdsOf(SuggestedRows(raw, e, event))
    && (forall status :: q.status == status <==> IsTriage(raw, FitRows(raw, e, event), SuggestedRows(raw, e, event), status))
    && match event
       case AuditEvent(b) => exists a :: a in e.adjustments && a.boundary == b && q.code == a.code && q.date == Some(a.date)
       case ReverseEvent(code, date) => q.code == code && q.date == Some(date)
       case UndatedEvent(code) => q.code == code && q.date == None
  }

  lemma NoIds(rows: set<RawRow>)
    ensures IdsOf(rows) == {} <==> rows == {}
  {
    hide IdOf;
    if r :| r in rows {
      assert IdOf(r) in IdsOf(rows);
    }
  }

  lemma RowForIs(raw: seq<RawRow>, e: Exposure, event: EventId, code: Code, date: Option<Date>)
    ensures var q := RowFor(GroupsOf(raw), code, date, IdsOf(SuggestedRows(raw, e, event)), IdsOf(FitRows(raw, e, event)));
            forall status :: q.status == status <==> IsTriage(raw, FitRows(raw, e, event), SuggestedRows(raw, e, event), status)
  {
    hide Fits, Suggested, TriageOf, IsTriage, IdOf, GroupsOf;
    FitRowsClosed(raw, e, event);
    NoIds(SuggestedRows(raw, e, event));
    forall status
      ensures TriageOf(GroupsOf(raw), IdsOf(SuggestedRows(raw, e, event)), IdsOf(FitRows(raw, e, event))) == status <==>
              IsTriage(raw, FitRows(raw, e, event), SuggestedRows(raw, e, event), status)
    {
      TriageIff(raw, FitRows(raw, e, event), SuggestedRows(raw, e, event), IdsOf(SuggestedRows(raw, e, event)), status);
    }
  }

  lemma SameBoundary(adjustments: seq<Adjustment>, a: Adjustment, b: Adjustment)
    requires BoundariesDiffer(adjustments) && a in adjustments && b in adjustments && a.boundary == b.boundary
    ensures a == b
  {
    var j :| 0 <= j < |adjustments| && adjustments[j] == a;
    var k :| 0 <= k < |adjustments| && adjustments[k] == b;
  }

  lemma AuditRowIs(raw: seq<RawRow>, e: Exposure, a: Adjustment)
    requires BoundariesDiffer(e.adjustments) && a in e.adjustments
    ensures IsRow(raw, e, AuditEvent(a.boundary), AuditRow(GroupsOf(raw), a))
  {
    hide Mentions, Disagree, Related, ExactOn, IsTriage, TriageOf, IdOf, WithSiblings, GroupsOf;
    var event := AuditEvent(a.boundary);
    forall b | b in e.adjustments && b.boundary == a.boundary
      ensures b == a
    {
      SameBoundary(e.adjustments, a, b);
    }
    ExactOnIs(raw, a.code, a.date);
    assert FitRows(raw, e, event) == set r | r in Implemented(raw) && r.code == a.code && r.ex == Given(a.date);
    MentionedIs(raw, a);
    SiblingsAre(raw, MentionRows(raw, a));
    AuditSuggests(raw, e, a);
    RowForIs(raw, e, event, a.code, Some(a.date));
  }

  lemma AuditSuggests(raw: seq<RawRow>, e: Exposure, a: Adjustment)
    requires BoundariesDiffer(e.adjustments) && a in e.adjustments
    ensures SuggestedRows(raw, e, AuditEvent(a.boundary)) == WithDisagreeing(raw, MentionRows(raw, a))
  {
    hide Mentions, Disagree;
    forall b | b in e.adjustments && b.boundary == a.boundary
      ensures b == a
    {
      SameBoundary(e.adjustments, a, b);
    }
    forall r | r in Implemented(raw)
      ensures Suggested(raw, e, AuditEvent(a.boundary), r) <==>
              r in MentionRows(raw, a) || exists s :: s in MentionRows(raw, a) && Disagree(s, r)
    {
      if s :| s in Implemented(raw) && Mentions(s, a) && Disagree(s, r) {
        assert s in MentionRows(raw, a);
      }
    }
  }

  lemma ReverseRowIs(raw: seq<RawRow>, e: Exposure, code: Code, date: Date)
    ensures IsRow(raw, e, ReverseEvent(code, date), ReverseRow(GroupsOf(raw), e, code, date))
  {
    hide Overlooked, Uncovered, ExactOn, IsTriage, TriageOf, IdOf, GroupsOf;
    var event := ReverseEvent(code, date);
    assert SuggestedRows(raw, e, event) == FitRows(raw, e, event);
    MatchesAre(raw, e, code, date);
    RowForIs(raw, e, event, code, Some(date));
  }

  lemma MatchesAre(raw: seq<RawRow>, e: Exposure, code: Code, date: Date)
    ensures MatchesOn(GroupsOf(raw), e, code, date) == IdsOf(FitRows(raw, e, ReverseEvent(code, date)))
  {
    hide Overlooked, Uncovered, ExactOn, IdOf, GroupsOf;
    ExactOnIs(raw, code, date);
    var dated := set r | r in Implemented(raw) && r.code == code && r.ex == Given(date);
    var fits := FitRows(raw, e, ReverseEvent(code, date));
    forall r
      ensures Uncovered(e, IdOf(r)) <==> Overlooked(e, r)
    {
      OverlookedIff(e, r);
    }
    forall g | g in MatchesOn(GroupsOf(raw), e, code, date)
      ensures g in IdsOf(fits)
    {
      var r :| r in dated && IdOf(r) == g;
      assert r in fits;
    }
    forall g | g in IdsOf(fits)
      ensures g in MatchesOn(GroupsOf(raw), e, code, date)
    {
      var r :| r in fits && IdOf(r) == g;
      assert r in dated;
    }
  }

  lemma UndatedRowIs(raw: seq<RawRow>, e: Exposure, code: Code)
    ensures IsRow(raw, e, UndatedEvent(code), UndatedRow(GroupsOf(raw), e, code))
  {
    hide Unplaced, UndatedEntitlement, IsTriage, TriageOf, IdOf, GroupsOf;
    var event := UndatedEvent(code);
    assert FitRows(raw, e, event) == {} && IdsOf({}) == {};
    UndatedAre(raw, e, code);
    RowForIs(raw, e, event, code, None);
  }

  lemma UndatedAre(raw: seq<RawRow>, e: Exposure, code: Code)
    ensures UndatedMatches(GroupsOf(raw), e, code) == IdsOf(SuggestedRows(raw, e, UndatedEvent(code)))
  {
    hide Unplaced, UndatedEntitlement;
    hide InvalidFindings, TermFindings, TermsOf;
    var rows := SuggestedRows(raw, e, UndatedEvent(code));
    forall r
      ensures UndatedEntitlement(e, IdOf(r)) <==> Unplaced(e, r)
    {
      UnplacedIff(e, r);
    }
    forall g | g in UndatedMatches(GroupsOf(raw), e, code)
      ensures g in IdsOf(rows)
    {
      var r :| r in raw && r.implemented && IdOf(r) == g;
      assert r in rows;
    }
    forall g | g in IdsOf(rows)
      ensures g in UndatedMatches(GroupsOf(raw), e, code)
    {
      var r :| r in rows && IdOf(r) == g;
      assert g in GroupsOf(raw);
    }
  }

  lemma {:induction false} AuditRowsAre(raw: seq<RawRow>, e: Exposure, adjustments: seq<Adjustment>, event: EventId)
    requires BoundariesDiffer(e.adjustments) && forall a :: a in adjustments ==> a in e.adjustments
    ensures event in AuditRows(GroupsOf(raw), adjustments) <==>
            event.AuditEvent? && exists a :: a in adjustments && a.boundary == event.boundary
    ensures event in AuditRows(GroupsOf(raw), adjustments) ==> IsRow(raw, e, event, AuditRows(GroupsOf(raw), adjustments)[event])
  {
    hide IsRow, AuditRow, GroupsOf;
    if adjustments != [] {
      var front, last := adjustments[..|adjustments| - 1], adjustments[|adjustments| - 1];
      assert adjustments == front + [last];
      AuditRowsAre(raw, e, front, event);
      AuditRowIs(raw, e, last);
    }
  }

  lemma ReverseRowsAre(raw: seq<RawRow>, e: Exposure, event: EventId)
    ensures event in ReverseRows(GroupsOf(raw), e) <==> event.ReverseEvent? && SuggestedRows(raw, e, event) != {}
    ensures event in ReverseRows(GroupsOf(raw), e) ==> IsRow(raw, e, event, ReverseRows(GroupsOf(raw), e)[event])
  {
    hide IsRow, Uncovered, ReverseRow, IdOf, ExactOn, Overlooked;
    if event.ReverseEvent? {
      var code, date := event.code, event.date;
      ReverseRowIs(raw, e, code, date);
      MatchesAre(raw, e, code, date);
      NoIds(FitRows(raw, e, event));
      assert SuggestedRows(raw, e, event) == FitRows(raw, e, event);
      OnDateIff(GroupsOf(raw), e, code, date);
    }
  }

  lemma OnDateIff(groups: Groups, e: Exposure, code: Code, date: Date)
    ensures ReverseEvent(code, date) in ReverseRows(groups, e) <==> MatchesOn(groups, e, code, date) != {}
    ensures ReverseEvent(code, date) in ReverseRows(groups, e) ==>
              ReverseRows(groups, e)[ReverseEvent(code, date)] == ReverseRow(groups, e, code, date)
  {
    hide Uncovered, ReverseRow;
    if MatchesOn(groups, e, code, date) != {} {
      var g :| g in MatchesOn(groups, e, code, date);
      assert g in groups && Uncovered(e, g) && g.terms.ex.Some?;
    }
    if ReverseEvent(code, date) in ReverseRows(groups, e) {
      var g :| g in groups && Uncovered(e, g) && g.terms.ex.Some? && g.code == code && g.terms.ex.value == date;
      assert g in MatchesOn(groups, e, code, date);
    }
  }

  lemma ForCodeIff(groups: Groups, e: Exposure, code: Code)
    ensures UndatedEvent(code) in UndatedRows(groups, e) <==> UndatedMatches(groups, e, code) != {}
    ensures UndatedEvent(code) in UndatedRows(groups, e) ==> UndatedRows(groups, e)[UndatedEvent(code)] == UndatedRow(groups, e, code)
  {
    hide UndatedEntitlement, UndatedRow;
    if UndatedMatches(groups, e, code) != {} {
      var g :| g in UndatedMatches(groups, e, code);
      assert g in groups && UndatedEntitlement(e, g);
    }
    if UndatedEvent(code) in UndatedRows(groups, e) {
      var g :| g in groups && UndatedEntitlement(e, g) && g.code == code;
      assert g in UndatedMatches(groups, e, code);
    }
  }

  lemma UndatedRowsAre(raw: seq<RawRow>, e: Exposure, event: EventId)
    ensures event in UndatedRows(GroupsOf(raw), e) <==> event.UndatedEvent? && SuggestedRows(raw, e, event) != {}
    ensures event in UndatedRows(GroupsOf(raw), e) ==> IsRow(raw, e, event, UndatedRows(GroupsOf(raw), e)[event])
  {
    hide IsRow, UndatedEntitlement, UndatedRow, IdOf, Unplaced, GroupsOf;
    if event.UndatedEvent? {
      UndatedRowIs(raw, e, event.code);
      UndatedAre(raw, e, event.code);
      NoIds(SuggestedRows(raw, e, event));
      ForCodeIff(GroupsOf(raw), e, event.code);
    }
  }

  /** The queue asks about exactly the audited boundaries, the overlooked entitlements and the undated
      rows of codes that were held; each of its rows says what the provider rows say. */
  lemma QueueIsDecided(raw: seq<RawRow>, e: Exposure, event: EventId)
    requires BoundariesDiffer(e.adjustments)
    ensures event in QueueOf(GroupsOf(raw), e) <==> Asked(raw, e, event)
    ensures event in QueueOf(GroupsOf(raw), e) ==> IsRow(raw, e, event, QueueOf(GroupsOf(raw), e)[event])
  {
    hide IsRow, GroupsOf, AuditRows, ReverseRows, UndatedRows, SuggestedRows;
    AuditRowsAre(raw, e, e.adjustments, event);
    ReverseRowsAre(raw, e, event);
    UndatedRowsAre(raw, e, event);
  }

  // ----- what an approval takes -----

  /** The only economics that the provider reports for its code and ex-date, and for its period. */
  ghost predicate Unrivalled(raw: seq<RawRow>, r: RawRow) {
    forall s :: s in Implemented(raw) && s.code == r.code ==>
      && (s.ex == r.ex ==> Together(s, r))
      && (s.end == r.end && r.end.Given? ==> SameTerms(s, r))
  }

  ghost predicate Supports(raw: seq<RawRow>, e: Exposure, d: ReviewDecision, r: RawRow) {
    && r in Implemented(raw) && Sound(r) && Economic(r) && r.ex.value <= e.cutoff
    && Unrivalled(raw, r) && Fits(e, d.event, r)
    && forall h :: h in d.hashes <==> exists s :: s in Implemented(raw) && Together(s, r) && s.hash == h
  }

  /** Matching rows in harmony are those whose provider reports nothing else. */
  lemma UnrivalledIff(raw: seq<RawRow>, e: Exposure, event: EventId, r: RawRow)
    requires BoundariesDiffer(e.adjustments) && r in FitRows(raw, e, event) && Sound(r)
    ensures Unrivalled(raw, r) <==> !Clash(raw, FitRows(raw, e, event))
  {
    hide Together, Sound, IdOf, SameTerms, Overlooked;
    var fits := FitRows(raw, e, event);
    SoundIsDated(r);
    TogetherIsSymmetric();
    if Unrivalled(raw, r) {
      forall s | s in fits
        ensures Together(s, r)
      {
        FitsShareDate(e, event, s, r);
      }
      forall s, t | s in fits && t in fits
        ensures Together(s, t)
      {
        TogetherIff(s, r);
        TogetherIff(t, r);
        TogetherIff(s, t);
      }
      forall s, t | s in fits && t in Implemented(raw)
        ensures !Disagree(s, t)
      {
        NoRival(raw, r, s, t);
      }
    }
    if !Clash(raw, fits) {
      forall s | s in Implemented(raw) && s.code == r.code
        ensures s.ex == r.ex ==> Together(s, r)
        ensures s.end == r.end && r.end.Given? ==> SameTerms(s, r)
      {
        assert !Disagree(r, s);
        SameTermsIff(r, s);
        SameTermsIff(s, r);
        if s.ex == r.ex {
          TwinFits(e, event, r, s);
          assert s in fits;
        }
      }
    }
  }

  lemma DatesAgree(s: RawRow, r: RawRow)
    requires Together(s, r)
    ensures SameTerms(s, r) && s.code == r.code && (r.ex.Given? ==> s.ex == r.ex) && (s.end.Given? || r.end.Given? ==> s.end == r.end)
  {}

  lemma NoRival(raw: seq<RawRow>, r: RawRow, s: RawRow, t: RawRow)
    requires Unrivalled(raw, r) && Together(s, r) && t in Implemented(raw) && r.ex.Given?
    ensures !Disagree(s, t)
  {
    hide Readable, SameFaults, IdOf, SameTerms;
    SameTermsIff(s, r);
    SameTermsIff(t, r);
    SameTermsIff(s, t);
    DatesAgree(s, r);
  }

  /** A row with the code, the ex-date and the terms of a matching row matches too. */
  lemma TwinFits(e: Exposure, event: EventId, r: RawRow, s: RawRow)
    requires Fits(e, event, r) && s.code == r.code && s.ex == r.ex && SameTerms(r, s)
    ensures Fits(e, event, s)
  {
    hide InvalidFindings, TermFindings, Overlooked, SameTerms;
    SameTermsIff(r, s);
    OverlookedIff(e, r);
    OverlookedIff(e, s);
  }

  lemma SoundIsDated(r: RawRow)
    requires Sound(r)
    ensures r.ex.Given? && r.record.Given? && Readable(r)
  {}

  lemma FitsShareDate(e: Exposure, event: EventId, s: RawRow, r: RawRow)
    requires BoundariesDiffer(e.adjustments) && Fits(e, event, s) && Fits(e, event, r)
    ensures s.code == r.code && s.ex == r.ex
  {
    hide Overlooked;
    if event.AuditEvent? {
      var a :| a in e.adjustments && a.boundary == event.boundary && s.code == a.code && s.ex == Given(a.date);
      var b :| b in e.adjustments && b.boundary == event.boundary && r.code == b.code && r.ex == Given(b.date);
      SameBoundary(e.adjustments, a, b);
    }
  }

  /** An approvable row and its exact group, from the provider rows. */
  lemma ApprovableIff(raw: seq<RawRow>, e: Exposure, event: EventId, q: QueueRow, g: GroupId)
    requires BoundariesDiffer(e.adjustments) && IsRow(raw, e, event, q)
    ensures Approvable(q.status) && g in q.exact <==>
            exists r :: r in FitRows(raw, e, event) && IdOf(r) == g && Sound(r) && Economic(r) && Unrivalled(raw, r)
  {
    hide IdOf, Sound, Economic, Unrivalled, Clash, Revised;
    var fits, suggested := FitRows(raw, e, event), SuggestedRows(raw, e, event);
    assert Approvable(q.status) <==> IsTriage(raw, fits, suggested, UniqueExact) || IsTriage(raw, fits, suggested, IdenticalRevisions);
    if Approvable(q.status) && g in q.exact {
      var s :| s in fits && Sound(s) && Economic(s);
      var r :| r in fits && IdOf(r) == g;
      UnclashedTogether(raw, fits, s, r);
      TogetherIff(s, r);
      SameGroupSameRow(fits, s, r);
      UnrivalledIff(raw, e, event, r);
    }
    if r :| r in fits && IdOf(r) == g && Sound(r) && Economic(r) && Unrivalled(raw, r) {
      UnrivalledIff(raw, e, event, r);
      assert g in q.exact;
    }
  }

  /** Every matching row is put to the review. */
  lemma FitsAreSuggested(raw: seq<RawRow>, e: Exposure, event: EventId, r: RawRow)
    requires r in FitRows(raw, e, event)
    ensures r in SuggestedRows(raw, e, event) && Asked(raw, e, event)
  {
    hide Overlooked, Near;
    assert Suggested(raw, e, event, r);
  }

  lemma HashesAre(raw: seq<RawRow>, r: RawRow, hashes: set<nat>)
    requires r in Implemented(raw)
    ensures IdOf(r) in GroupsOf(raw)
    ensures hashes == GroupsOf(raw)[IdOf(r)].hashes <==>
            forall h :: h in hashes <==> exists s :: s in Implemented(raw) && Together(s, r) && s.hash == h
  {
    hide IdOf, Together, GroupsOf;
    GroupIsOf(raw, r);
  }

  /** A decision approves a group exactly if it names the group and all row hashes of a sound row with
      economics, due by the cutoff and unrivalled, that matches the event. */
  lemma ApprovalIff(raw: seq<RawRow>, e: Exposure, d: ReviewDecision, g: GroupId)
    requires BoundariesDiffer(e.adjustments)
    ensures Endorses(GroupsOf(raw), QueueOf(GroupsOf(raw), e), e.cutoff, d, g) <==>
            d.verdict == ApproveAsEvidence && d.group == Some(g) && exists r :: Supports(raw, e, d, r) && IdOf(r) == g
  {
    hide IdOf, QueueOf, GroupsOf, Fits, Sound, Economic, Unrivalled, IsRow, Together, Asked;
    var groups, queue := GroupsOf(raw), QueueOf(GroupsOf(raw), e);
    QueueIsDecided(raw, e, d.event);
    if Endorses(groups, queue, e.cutoff, d, g) {
      ApprovableIff(raw, e, d.event, queue[d.event], g);
      var r :| r in FitRows(raw, e, d.event) && IdOf(r) == g && Sound(r) && Economic(r) && Unrivalled(raw, r);
      HashesAre(raw, r, d.hashes);
      ExIs(r);
      assert Supports(raw, e, d, r);
    }
    if d.verdict == ApproveAsEvidence && d.group == Some(g) {
      if r :| Supports(raw, e, d, r) && IdOf(r) == g {
        FitsAreSuggested(raw, e, d.event, r);
        ApprovableIff(raw, e, d.event, queue[d.event], g);
        CandidatesAre(raw, e, d.event, queue[d.event], r);
        HashesAre(raw, r, d.hashes);
        ExIs(r);
        SoundIsDated(r);
      }
    }
  }

  lemma CandidatesAre(raw: seq<RawRow>, e: Exposure, event: EventId, q: QueueRow, r: RawRow)
    requires IsRow(raw, e, event, q) && r in SuggestedRows(raw, e, event)
    ensures IdOf(r) in q.candidates
  {
    hide IdOf, IsTriage;
  }

  lemma ExIs(r: RawRow)
    ensures IdOf(r).terms.ex == Read(r.ex)
  {
    hide InvalidFindings, TermFindings;
  }
}
