/** Announcement discovery: one pagination state machine that decides the next request online and
    replays frozen captures offline (analyze_search and search in
    src/ashare_quant/data/cninfo_announcement_provider.py). */
module Discovery {
  import opened Basics
  import opened Capture
  import opened Journal
  import opened Fetch

  type Org = string
  type Row = nat

  /** Announcement ids, numbered in the order of their strings. */
  type AnnouncementId = nat

  /** One discovered announcement; the catalog columns other than its id are left to the row. */
  datatype Found = Found(id: AnnouncementId, row: Row)

  datatype Identity = Identity(org: Org, verified: bool)

  /** A decoded page: its counters and its rows, None standing for a missing list. */
  datatype Listing = Listing(count: int, pages: int, more: bool, items: Option<seq<Row>>)

  datatype Issue =
    | Refused(status: Status)
    | Unreadable(code: nat)
    | PageCounterSchema
    | PageTotalInconsistent
    | PaginationTotalChanged
    | PaginationPagesChanged
    | PageRowsSchema
    | PageCoverageInconsistent
    | DuplicateAnnouncementId
    | OrgExchangeUnverified
    | AnnouncementTotalMismatch
    | MaxPagesReached
    | PaginationInterrupted

  /** The requests of one query, and how its answers are decoded, all uninterpreted. */
  datatype Site = Site(
    initial: Spec,
    page: (Org, nat) -> Spec,
    readOrg: Body -> Result<Identity, nat>,
    readPage: Body -> Result<Listing, nat>,
    readRow: (Identity, Record, Row) -> Result<Found, nat>,
    document: Found -> Spec)

  datatype Query = Query(pageSize: nat, maxPages: nat) {
    predicate Valid() {
      1 <= pageSize <= 30 && 1 <= maxPages <= 100
    }
  }

  datatype Discovered = NotAttempted | Failure | Forbidden | Partial | Complete

  datatype Progress = Progress(records: seq<Found>, status: Discovered, issues: seq<Issue>, next: Option<Spec>)

  datatype Structural = ContractUnsupported | OrgRequestMismatch | PageRequestMismatch | ExtraSearchCapture

  // ----- one page -----

  /** Between two pages: the records so far, their ids, and the counters every page must repeat. */
  datatype Scan = Scan(records: seq<Found>, seen: set<AnnouncementId>, total: Option<nat>, declared: Option<nat>)

  const START := Scan([], {}, None, None)

  datatype Rows = Rows(found: seq<Found>, seen: set<AnnouncementId>)

  /** The first n rows of a page. */
  function RowsUpTo(site: Site, id: Identity, capture: Record, items: seq<Row>, seen: set<AnnouncementId>, n: nat): Result<Rows, Issue>
    requires n <= |items|
  {
    if n == 0 then Ok(Rows([], seen))
    else
      var before :- RowsUpTo(site, id, capture, items, seen, n - 1);
      match site.readRow(id, capture, items[n - 1])
      case Err(code) => Err(Unreadable(code))
      case Ok(record) =>
        if record.id in before.seen then Err(DuplicateAnnouncementId)
        else Ok(Rows(before.found + [record], before.seen + {record.id}))
  }

  function RequiredPages(query: Query, count: nat): nat
    requires query.Valid()
  {
    (count + query.pageSize - 1) / query.pageSize
  }

  /** The rows on a number of full pages. */
  function Full(query: Query, pages: nat): nat {
    pages * query.pageSize
  }

  function ExpectedRows(query: Query, count: nat, page: nat): nat
    requires page >= 1
  {
    var left := count - Full(query, page - 1);
    if left <= 0 then 0 else if left < query.pageSize then left else query.pageSize
  }

  datatype Step = Going(scan: Scan) | Done(scan: Scan) | Halted(records: seq<Found>, issue: Issue)

  function BodyOf(capture: Record): Body {
    if capture.attempts != [] && capture.attempts[|capture.attempts| - 1].body.Some?
    then capture.attempts[|capture.attempts| - 1].body.value.body else []
  }

  predicate CountersAllowed(query: Query, version: nat, listing: Listing)
    requires query.Valid() && listing.count >= 0
  {
    listing.pages == RequiredPages(query, listing.count)
    || (version != 1 && listing.pages == listing.count / query.pageSize)
  }

  /** The counters, the coverage and the rows of one captured page. */
  function ReadPage(site: Site, query: Query, version: nat, id: Identity, scan: Scan, page: nat, capture: Record): Step
    requires query.Valid() && page >= 1
  {
    match site.readPage(BodyOf(capture))
    case Err(code) => Halted(scan.records, Unreadable(code))
    case Ok(listing) =>
      if listing.count < 0 || listing.pages < 0 then Halted(scan.records, PageCounterSchema)
      else if !CountersAllowed(query, version, listing) then Halted(scan.records, PageTotalInconsistent)
      else if scan.total.Some? && scan.total.value != listing.count then Halted(scan.records, PaginationTotalChanged)
      else if version >= 2 && scan.declared.Some? && scan.declared.value != listing.pages then
        Halted(scan.records, PaginationPagesChanged)
      else
        var items := if listing.count == 0 && listing.items.None? then Some([]) else listing.items;
        if items.None? || |items.value| > query.pageSize then Halted(scan.records, PageRowsSchema)
        else if !(|items.value| == ExpectedRows(query, listing.count, page)
                  && (listing.more <==> page < (if version == 1 then listing.pages else RequiredPages(query, listing.count)))) then
          Halted(scan.records, PageCoverageInconsistent)
        else
          match RowsUpTo(site, id, capture, items.value, scan.seen, |items.value|)
          case Err(issue) => Halted(scan.records, issue)
          case Ok(rows) =>
            var records := scan.records + rows.found;
            var next := Scan(records, rows.seen, Some(listing.count), if version >= 2 then Some(listing.pages) else None);
            if listing.more then Going(next)
            else if version >= 2 && !id.verified && records == [] then Halted(records, OrgExchangeUnverified)
            else if |records| != listing.count then Halted(records, AnnouncementTotalMismatch)
            else Done(next)
  }

  function PageStep(site: Site, query: Query, version: nat, id: Identity, scan: Scan, page: nat, capture: Record): Step
    requires query.Valid() && page >= 1
  {
    if capture.status != Captured then Halted(scan.records, Refused(capture.status))
    else ReadPage(site, query, version, id, scan, page, capture)
  }

  // ----- all captures -----

  datatype Replay = Open(scan: Scan) | Closed(progress: Progress)

  /** The replay of the first k pages. A page that ends the search must be the last capture. */
  function PagesUpTo(site: Site, query: Query, version: nat, id: Identity, captures: seq<Record>, k: nat): Result<Replay, Structural>
    requires query.Valid() && k < |captures|
  {
    if k == 0 then Ok(Open(START))
    else
      var before :- PagesUpTo(site, query, version, id, captures, k - 1);
      match before
      case Closed(_) => Ok(before)
      case Open(scan) =>
        if !(k <= query.maxPages && captures[k].request == site.page(id.org, k)) then Err(PageRequestMismatch)
        else
          var step := PageStep(site, query, version, id, scan, k, captures[k]);
          if step.Going? then Ok(Open(step.scan))
          else if |captures| != k + 1 then Err(ExtraSearchCapture)
          else Ok(Closed(Ending(step, captures[k])))
  }

  function Ending(step: Step, capture: Record): Progress
    requires !step.Going?
  {
    match step
    case Done(scan) => Progress(scan.records, Complete, [], None)
    case Halted(records, issue) =>
      Progress(records, if capture.status == PermissionRequired then Forbidden else Partial, [issue], None)
  }

  function Interrupted(site: Site, query: Query, id: Identity, scan: Scan, page: nat): Progress {
    if page > query.maxPages then Progress(scan.records, Partial, [MaxPagesReached], None)
    else Progress(scan.records, Partial, [PaginationInterrupted], Some(site.page(id.org, page)))
  }

  function AnalyzePages(site: Site, query: Query, version: nat, id: Identity, captures: seq<Record>): Result<Progress, Structural>
    requires query.Valid() && captures != []
  {
    var replay :- PagesUpTo(site, query, version, id, captures, |captures| - 1);
    match replay
    case Closed(progress) => Ok(progress)
    case Open(scan) => Ok(Interrupted(site, query, id, scan, |captures|))
  }

  /** analyze_search */
  function Analyze(site: Site, query: Query, version: nat, captures: seq<Record>): Result<Progress, Structural>
    requires query.Valid()
  {
    if version !in {1, 2, 3} then Err(ContractUnsupported)
    else if captures == [] then Ok(Progress([], NotAttempted, [], Some(site.initial)))
    else if captures[0].request != site.initial then Err(OrgRequestMismatch)
    else if captures[0].status != Captured then
      if |captures| != 1 then Err(ExtraSearchCapture)
      else Ok(Progress([], if captures[0].status == PermissionRequired then Forbidden else Failure,
                       [Refused(captures[0].status)], None))
    else
      match site.readOrg(BodyOf(captures[0]))
      case Err(code) =>
        if |captures| != 1 then Err(ExtraSearchCapture) else Ok(Progress([], Failure, [Unreadable(code)], None))
      case Ok(id) => AnalyzePages(site, query, version, id, captures)
  }

  // ----- what a scan keeps -----

  function Ids(records: seq<Found>): seq<AnnouncementId> {
    seq(|records|, i requires 0 <= i < |records| => records[i].id)
  }

  ghost predicate Distinct(records: seq<Found>, seen: set<AnnouncementId>) {
    NoDuplicates(Ids(records)) && forall s :: s in seen <==> s in Ids(records)
  }

  /** After k pages that all had more to come, exactly k full pages have been gathered. */
  ghost predicate ScanOk(query: Query, scan: Scan, k: nat)
    requires query.Valid()
  {
    && Distinct(scan.records, scan.seen)
    && |scan.records| == Full(query, k)
    && (k > 0 ==> scan.total.Some? && k < RequiredPages(query, scan.total.value))
    && (k == 0 ==> scan.total.None?)
  }

  lemma IdsSnoc(records: seq<Found>, r: Found)
    ensures Ids(records + [r]) == Ids(records) + [r.id]
  {}

  lemma {:induction false} RowsAreNew(site: Site, id: Identity, capture: Record, items: seq<Row>, scan: Scan, n: nat)
    requires n <= |items| && Distinct(scan.records, scan.seen) && RowsUpTo(site, id, capture, items, scan.seen, n).Ok?
    ensures var rows := RowsUpTo(site, id, capture, items, scan.seen, n).value;
            |rows.found| == n && Distinct(scan.records + rows.found, rows.seen)
  {
    if n == 0 {
      assert scan.records + [] == scan.records;
    } else {
      RowsAreNew(site, id, capture, items, scan, n - 1);
      var before := RowsUpTo(site, id, capture, items, scan.seen, n - 1).value;
      var record := site.readRow(id, capture, items[n - 1]).value;
      assert scan.records + (before.found + [record]) == (scan.records + before.found) + [record];
      IdsSnoc(scan.records + before.found, record);
    }
  }

  lemma CeilingBounds(query: Query, count: nat)
    requires query.Valid()
    ensures var required := RequiredPages(query, count);
            count <= Full(query, required) && (required > 0 ==> Full(query, required - 1) < count) && (required == 0 <==> count == 0)
  {
    var n, size := count + query.pageSize - 1, query.pageSize;
    var required := n / size;
    assert n == size * required + n % size;
    assert (required - 1) * size == size * required - size;
  }

  lemma FullGrows(query: Query, a: nat, b: nat)
    requires query.Valid() && a <= b
    ensures Full(query, a) <= Full(query, b)
    ensures Full(query, a + 1) == Full(query, a) + query.pageSize
  {
    assert (b - a) * query.pageSize >= 0;
  }

  lemma {:induction false} RowIssues(site: Site, id: Identity, capture: Record, items: seq<Row>, seen: set<AnnouncementId>, n: nat)
    requires n <= |items| && RowsUpTo(site, id, capture, items, seen, n).Err?
    ensures RowsUpTo(site, id, capture, items, seen, n).error !in {AnnouncementTotalMismatch, MaxPagesReached, PaginationInterrupted}
  {
    if n > 0 && RowsUpTo(site, id, capture, items, seen, n - 1).Err? {
      RowIssues(site, id, capture, items, seen, n - 1);
    }
  }

  /** Full pages before the last one, and what the last one must bring. */
  lemma PagesAddUp(query: Query, count: nat, page: nat)
    requires query.Valid() && page >= 1 && (page == 1 || page - 1 < RequiredPages(query, count))
    ensures var sum := Full(query, page - 1) + ExpectedRows(query, count, page);
            if page < RequiredPages(query, count) then sum == Full(query, page)
            else sum == count && page == Max(1, RequiredPages(query, count))
  {
    CeilingBounds(query, count);
    var required := RequiredPages(query, count);
    FullGrows(query, page - 1, page);
    if page < required {
      FullGrows(query, page, required - 1);
    }
    if page == 1 {
      assert Full(query, 0) == 0;
    }
    hide Full, RequiredPages;
  }

  lemma ScanGrows(scan: Scan, rows: Rows, total: nat)
    requires Distinct(scan.records + rows.found, rows.seen)
    ensures NoDuplicates(Ids(scan.records + rows.found))
  {}

  /** One page keeps the scan sound, and one that ends the search has gathered exactly the
      declared number of distinct records: the total can never mismatch. */
  lemma PageKeepsScan(site: Site, query: Query, version: nat, id: Identity, scan: Scan, page: nat, capture: Record)
    requires query.Valid() && page >= 1 && version in {1, 2, 3} && ScanOk(query, scan, page - 1)
    ensures match PageStep(site, query, version, id, scan, page, capture)
            case Going(next) => ScanOk(query, next, page)
            case Done(next) =>
              && next.total.Some? && |next.records| == next.total.value && NoDuplicates(Ids(next.records))
              && page == Max(1, RequiredPages(query, next.total.value))
            case Halted(records, issue) => issue != AnnouncementTotalMismatch && records == scan.records
  {
    hide Distinct, RowsUpTo, ExpectedRows, Full, RequiredPages, BodyOf, Ids, NoDuplicates;
    if capture.status == Captured && site.readPage(BodyOf(capture)).Ok? {
      var listing := site.readPage(BodyOf(capture)).value;
      if listing.count >= 0 && (scan.total == None || scan.total == Some(listing.count)) {
        PagesAddUp(query, listing.count, page);
        var items := if listing.count == 0 && listing.items.None? then Some([]) else listing.items;
        if items.Some? && RowsUpTo(site, id, capture, items.value, scan.seen, |items.value|).Err? {
          RowIssues(site, id, capture, items.value, scan.seen, |items.value|);
        } else if items.Some? {
          RowsAreNew(site, id, capture, items.value, scan, |items.value|);
          ScanGrows(scan, RowsUpTo(site, id, capture, items.value, scan.seen, |items.value|).value, listing.count);
        }
      }
    }
  }

  // ----- what the pages say, read one by one -----

  /** The first n rows of a page as records, whatever was seen before. */
  function DecodedRows(site: Site, id: Identity, capture: Record, items: seq<Row>, n: nat): Option<seq<Found>>
    requires n <= |items|
  {
    if n == 0 then Some([])
    else
      match (DecodedRows(site, id, capture, items, n - 1), site.readRow(id, capture, items[n - 1]))
      case (Some(found), Ok(record)) => Some(found + [record])
      case _ => None
  }

  /** All records of one page. */
  function PageRecords(site: Site, id: Identity, capture: Record): Option<seq<Found>> {
    match site.readPage(BodyOf(capture))
    case Err(_) => None
    case Ok(listing) => if listing.items.None? then Some([]) else DecodedRows(site, id, capture, listing.items.value, |listing.items.value|)
  }

  /** The records of pages 1 to k, one after the other. */
  function Gathered(site: Site, id: Identity, captures: seq<Record>, k: nat): Option<seq<Found>>
    requires k == 0 || k < |captures|
  {
    if k == 0 then Some([])
    else
      match (Gathered(site, id, captures, k - 1), PageRecords(site, id, captures[k]))
      case (Some(before), Some(page)) => Some(before + page)
      case _ => None
  }

  /** A captured page that declares a total. */
  predicate Declares(site: Site, capture: Record, count: int) {
    capture.status == Captured && site.readPage(BodyOf(capture)).Ok? && site.readPage(BodyOf(capture)).value.count == count
  }

  ghost predicate AllDeclare(site: Site, captures: seq<Record>, k: nat, count: int)
    requires k == 0 || k < |captures|
  {
    forall i :: 1 <= i <= k ==> Declares(site, captures[i], count)
  }

  lemma {:induction false} RowsAreDecoded(site: Site, id: Identity, capture: Record, items: seq<Row>, seen: set<AnnouncementId>, n: nat)
    requires n <= |items| && RowsUpTo(site, id, capture, items, seen, n).Ok?
    ensures DecodedRows(site, id, capture, items, n) == Some(RowsUpTo(site, id, capture, items, seen, n).value.found)
  {
    if n > 0 {
      RowsAreDecoded(site, id, capture, items, seen, n - 1);
    }
  }

  /** A page that passes its checks adds its own records and repeats the declared total. */
  lemma PagePasses(site: Site, query: Query, version: nat, id: Identity, scan: Scan, page: nat, capture: Record)
    requires query.Valid() && page >= 1
    requires var step := PageStep(site, query, version, id, scan, page, capture); step.Going? || step.Done?
    ensures var next := PageStep(site, query, version, id, scan, page, capture).scan;
            && next.total.Some? && Declares(site, capture, next.total.value)
            && (scan.total.Some? ==> scan.total == next.total)
            && PageRecords(site, id, capture).Some?
            && next.records == scan.records + PageRecords(site, id, capture).value
  {
    hide RowsUpTo, ExpectedRows, RequiredPages, BodyOf, CountersAllowed;
    var listing := site.readPage(BodyOf(capture)).value;
    var items := if listing.count == 0 && listing.items.None? then Some([]) else listing.items;
    RowsAreDecoded(site, id, capture, items.value, scan.seen, |items.value|);
  }

  // ----- complete and partial results -----

  /** After k pages that all passed: their records, and one total. */
  ghost predicate ScanHolds(site: Site, query: Query, id: Identity, captures: seq<Record>, scan: Scan, k: nat)
    requires query.Valid() && (k == 0 || k < |captures|)
  {
    && ScanOk(query, scan, k)
    && Gathered(site, id, captures, k) == Some(scan.records)
    && (k > 0 ==> scan.total.Some? && AllDeclare(site, captures, k, scan.total.value))
  }

  lemma StartIsSound(site: Site, query: Query, id: Identity, captures: seq<Record>)
    requires query.Valid()
    ensures ScanHolds(site, query, id, captures, START, 0)
  {
    assert Full(query, 0) == 0;
  }

  lemma {:induction false} OpenScanIsSound(site: Site, query: Query, version: nat, id: Identity, captures: seq<Record>, k: nat)
    requires query.Valid() && k < |captures| && version in {1, 2, 3}
    requires PagesUpTo(site, query, version, id, captures, k).Ok? && PagesUpTo(site, query, version, id, captures, k).value.Open?
    ensures ScanHolds(site, query, id, captures, PagesUpTo(site, query, version, id, captures, k).value.scan, k)
  {
    hide PageStep, ScanOk, Declares, PageRecords;
    if k == 0 {
      StartIsSound(site, query, id, captures);
    } else {
      OpenScanIsSound(site, query, version, id, captures, k - 1);
      var before := PagesUpTo(site, query, version, id, captures, k - 1).value;
      PageKeepsScan(site, query, version, id, before.scan, k, captures[k]);
      PagePasses(site, query, version, id, before.scan, k, captures[k]);
    }
  }

  /** COMPLETE: every page was captured and declares exactly as many announcements as were found,
      which are the rows of all pages in order, each id once, over exactly the required pages. */
  ghost predicate CompleteResult(site: Site, query: Query, id: Identity, captures: seq<Record>, p: Progress)
    requires query.Valid() && captures != []
  {
    && NoDuplicates(Ids(p.records)) && |captures| == 1 + Max(1, RequiredPages(query, |p.records|))
    && Gathered(site, id, captures, |captures| - 1) == Some(p.records)
    && AllDeclare(site, captures, |captures| - 1, |p.records|)
  }

  /** The pages that passed all checks, when the search is not complete: all captured ones if more
      could be asked for, else all but the last. */
  function PassedPages(captures: nat, p: Progress): int {
    if p.issues == [MaxPagesReached] || p.issues == [PaginationInterrupted] then captures - 1 else captures - 2
  }

  /** Anything else: the records are those of the pages that passed and nothing else, and the page
      after them, if there is one, did not pass. */
  ghost predicate PartialResult(site: Site, query: Query, version: nat, id: Identity, captures: seq<Record>, p: Progress)
    requires query.Valid() && captures != []
  {
    var k := PassedPages(|captures|, p);
    && 0 <= k < |captures| && |p.records| == Full(query, k)
    && Gathered(site, id, captures, k) == Some(p.records)
    && match PagesUpTo(site, query, version, id, captures, k)
       case Ok(Open(scan)) =>
         k + 1 < |captures| ==> k + 2 == |captures| && PageStep(site, query, version, id, scan, k + 1, captures[k + 1]).Halted?
       case _ => false
  }

  ghost predicate Outcome(site: Site, query: Query, version: nat, id: Identity, captures: seq<Record>, p: Progress)
    requires query.Valid() && captures != []
  {
    && AnnouncementTotalMismatch !in p.issues
    && if p.status == Complete then CompleteResult(site, query, id, captures, p)
       else PartialResult(site, query, version, id, captures, p)
  }

  /** The page that ends a search is the last one. */
  lemma {:induction false} ClosedReplay(site: Site, query: Query, version: nat, id: Identity, captures: seq<Record>, k: nat)
    requires query.Valid() && k < |captures| && version in {1, 2, 3}
    requires PagesUpTo(site, query, version, id, captures, k).Ok? && PagesUpTo(site, query, version, id, captures, k).value.Closed?
    ensures PagesUpTo(site, query, version, id, captures, k).value.progress.next.None?
    ensures Outcome(site, query, version, id, captures, PagesUpTo(site, query, version, id, captures, k).value.progress)
    decreases k
  {
    hide PageStep, ScanHolds, Outcome;
    var before := PagesUpTo(site, query, version, id, captures, k - 1).value;
    if before.Closed? {
      ClosedReplay(site, query, version, id, captures, k - 1);
    } else {
      OpenScanIsSound(site, query, version, id, captures, k - 1);
      if PageStep(site, query, version, id, before.scan, k, captures[k]).Done? {
        DoneIsComplete(site, query, version, id, captures, before.scan, k);
      } else {
        HaltedIsPartial(site, query, version, id, captures, before.scan, k);
      }
    }
  }

  lemma DoneIsComplete(site: Site, query: Query, version: nat, id: Identity, captures: seq<Record>, scan: Scan, k: nat)
    requires query.Valid() && version in {1, 2, 3} && 1 <= k && |captures| == k + 1
    requires ScanHolds(site, query, id, captures, scan, k - 1)
    requires PageStep(site, query, version, id, scan, k, captures[k]).Done?
    ensures Outcome(site, query, version, id, captures, Ending(PageStep(site, query, version, id, scan, k, captures[k]), captures[k]))
  {
    hide PageStep, ScanOk, Declares, PageRecords, NoDuplicates, Ids, RequiredPages;
    PageKeepsScan(site, query, version, id, scan, k, captures[k]);
    PagePasses(site, query, version, id, scan, k, captures[k]);
  }

  lemma HaltedIsPartial(site: Site, query: Query, version: nat, id: Identity, captures: seq<Record>, scan: Scan, k: nat)
    requires query.Valid() && version in {1, 2, 3} && 1 <= k && |captures| == k + 1
    requires ScanHolds(site, query, id, captures, scan, k - 1)
    requires PagesUpTo(site, query, version, id, captures, k - 1) == Ok(Open(scan))
    requires PageStep(site, query, version, id, scan, k, captures[k]).Halted?
    ensures Outcome(site, query, version, id, captures, Ending(PageStep(site, query, version, id, scan, k, captures[k]), captures[k]))
  {
    hide PageStep, ScanOk, Declares, PageRecords, Full, RequiredPages, AllDeclare, Gathered, PagesUpTo;
    PageKeepsScan(site, query, version, id, scan, k, captures[k]);
    GatheredSoFar(query, scan, k - 1);
    HaltIssues(site, query, version, id, scan, k, captures[k]);
  }

  lemma HaltIssues(site: Site, query: Query, version: nat, id: Identity, scan: Scan, page: nat, capture: Record)
    requires query.Valid() && page >= 1 && PageStep(site, query, version, id, scan, page, capture).Halted?
    ensures PageStep(site, query, version, id, scan, page, capture).issue !in {MaxPagesReached, PaginationInterrupted}
  {
    hide RowsUpTo, ExpectedRows, RequiredPages, BodyOf;
    if site.readPage(BodyOf(capture)).Ok? {
      var listing := site.readPage(BodyOf(capture)).value;
      var items := if listing.count == 0 && listing.items.None? then Some([]) else listing.items;
      if items.Some? && RowsUpTo(site, id, capture, items.value, scan.seen, |items.value|).Err? {
        RowIssues(site, id, capture, items.value, scan.seen, |items.value|);
      }
    }
  }

  lemma GatheredSoFar(query: Query, scan: Scan, k: nat)
    requires query.Valid() && ScanOk(query, scan, k)
    ensures |scan.records| == Full(query, k)
  {}

  lemma InterruptedIsPartial(site: Site, query: Query, version: nat, id: Identity, captures: seq<Record>, scan: Scan)
    requires query.Valid() && version in {1, 2, 3} && captures != []
    requires PagesUpTo(site, query, version, id, captures, |captures| - 1) == Ok(Open(scan))
    ensures Outcome(site, query, version, id, captures, Interrupted(site, query, id, scan, |captures|))
  {
    hide PageStep, ScanOk, Full, RequiredPages, Gathered, AllDeclare, PagesUpTo;
    OpenScanIsSound(site, query, version, id, captures, |captures| - 1);
    GatheredSoFar(query, scan, |captures| - 1);
  }

  /** Who the search is about, once its first answer can be read. */
  function Identified(site: Site, captures: seq<Record>): Option<Identity> {
    if captures == [] || captures[0].status != Captured || site.readOrg(BodyOf(captures[0])).Err? then None
    else Some(site.readOrg(BodyOf(captures[0])).value)
  }

  /** COMPLETE means what it says: all declared announcements, each once, over exactly the required
      pages. Any other result holds the records of the pages that passed their checks and nothing
      else. A total can never mismatch once every page was checked. */
  lemma AnalysisIsHonest(site: Site, query: Query, version: nat, captures: seq<Record>)
    requires query.Valid() && Analyze(site, query, version, captures).Ok?
    ensures var p := Analyze(site, query, version, captures).value;
            match Identified(site, captures)
            case None => p.records == [] && p.status != Complete && AnnouncementTotalMismatch !in p.issues
            case Some(id) => Outcome(site, query, version, id, captures, p)
    ensures var p := Analyze(site, query, version, captures).value;
            (p.next.Some? ==> |captures| <= query.maxPages && p.status != Complete)
  {
    hide PagesUpTo, RequiredPages, Outcome;
    if captures != [] && captures[0].request == site.initial && Identified(site, captures).Some? {
      var id := Identified(site, captures).value;
      var last := |captures| - 1;
      var replay := PagesUpTo(site, query, version, id, captures, last).value;
      if replay.Closed? {
        ClosedReplay(site, query, version, id, captures, last);
      } else {
        InterruptedIsPartial(site, query, version, id, captures, replay.scan);
      }
    }
  }

  // ----- which answers are complete -----

  /** The number of pages a count needs or, from the second contract on, the number of full ones. */
  ghost predicate PagesAllowed(query: Query, version: nat, count: int, pages: int) {
    || (Room(pages, query.pageSize) >= count && Room(pages - 1, query.pageSize) < count && pages >= 1)
    || (count == 0 && pages == 0)
    || (version != 1 && Room(pages, query.pageSize) <= count < Room(pages + 1, query.pageSize))
  }

  /** What one page of an answer with a count has to look like: it repeats the count and the number of
      pages, has as many rows as are left for it, and announces more exactly if there is more. */
  ghost predicate FitsPage(site: Site, query: Query, version: nat, capture: Record, page: nat, count: int, pages: int)
    requires page >= 1
  {
    capture.status == Captured
    && match site.readPage(BodyOf(capture))
       case Err(_) => false
       case Ok(l) =>
         && l.count == count >= 0 && l.pages == pages >= 0 && PagesAllowed(query, version, count, pages)
         && HasRows(query, l, page) && (l.more <==> Room(page, query.pageSize) < count)
  }

  /** Full pages, then the rest, then nothing. */
  ghost predicate HasRows(query: Query, l: Listing, page: nat)
    requires page >= 1
  {
    match l.items
    case None => l.count == 0
    case Some(items) =>
      if Room(page, query.pageSize) <= l.count then |items| == query.pageSize
      else if Room(page - 1, query.pageSize) <= l.count then |items| == l.count - Room(page - 1, query.pageSize)
      else items == []
  }

  /** The pages 1 to k answer their own requests and fit one count and one number of pages. */
  ghost predicate PagesFit(site: Site, query: Query, version: nat, id: Identity, captures: seq<Record>, k: nat, count: int, pages: int)
    requires k == 0 || k < |captures|
  {
    forall i :: 1 <= i <= k ==>
      i <= query.maxPages && captures[i].request == site.page(id.org, i) && FitsPage(site, query, version, captures[i], i, count, pages)
  }

  /** A whole answer: who it is about, and all its pages with pairwise different records. */
  ghost predicate Delivers(site: Site, query: Query, version: nat, captures: seq<Record>, id: Identity, count: int, pages: int, records: seq<Found>)
  {
    && captures != [] && captures[0].request == site.initial && Identified(site, captures) == Some(id)
    && var k := |captures| - 1;
       && k >= 1 && PagesFit(site, query, version, id, captures, k, count, pages)
       && Room(k, query.pageSize) >= count && (k == 1 || Room(k - 1, query.pageSize) < count)
       && Gathered(site, id, captures, k) == Some(records) && NoDuplicates(Ids(records))
       && (version == 1 || id.verified || records != [])
  }

  /** The rows that fit on a number of pages. */
  function Room(pages: int, size: int): int { pages * size }

  lemma CeilingIff(query: Query, count: nat, pages: int)
    requires query.Valid()
    ensures pages == RequiredPages(query, count) <==>
            (Room(pages, query.pageSize) >= count && Room(pages - 1, query.pageSize) < count && pages >= 1) || (count == 0 && pages == 0)
  {
    CeilingBounds(query, count);
    var required := RequiredPages(query, count);
    if pages < required && required > 0 {
      Steps(pages, required - 1, query.pageSize);
    } else if pages > required {
      Steps(required, pages - 1, query.pageSize);
    }
  }

  lemma Steps(a: int, b: int, size: nat)
    ensures a <= b ==> Room(a, size) <= Room(b, size)
    ensures Room(a + 1, size) == Room(a, size) + size && Room(a - 1, size) == Room(a, size) - size
  {
    assert b * size - a * size == (b - a) * size;
    if a <= b {
      assert (b - a) * size >= 0;
    }
  }

  lemma FloorIff(query: Query, count: nat, pages: int)
    requires query.Valid()
    ensures pages == count / query.pageSize <==> Room(pages, query.pageSize) <= count < Room(pages + 1, query.pageSize)
  {
    var size, quotient := query.pageSize, count / query.pageSize;
    assert count == size * quotient + count % size;
    assert Room(quotient, size) == size * quotient;
    Steps(quotient, quotient, size);
    if pages < quotient {
      Steps(pages + 1, quotient, size);
    } else if pages > quotient {
      Steps(quotient + 1, pages, size);
    }
  }

  lemma PagesAllowedIff(query: Query, version: nat, listing: Listing)
    requires query.Valid() && listing.count >= 0 && listing.pages >= 0
    ensures CountersAllowed(query, version, listing) <==> PagesAllowed(query, version, listing.count, listing.pages)
  {
    hide RequiredPages, Room;
    CeilingIff(query, listing.count, listing.pages);
    FloorIff(query, listing.count, listing.pages);
  }

  lemma MoreIff(query: Query, count: nat, page: nat)
    requires query.Valid()
    ensures page < RequiredPages(query, count) <==> Room(page, query.pageSize) < count
  {
    CeilingBounds(query, count);
    var required := RequiredPages(query, count);
    if page < required {
      Steps(page, required - 1, query.pageSize);
    } else {
      Steps(required, page, query.pageSize);
    }
  }

  lemma ExpectedIff(query: Query, l: Listing, page: nat)
    requires query.Valid() && page >= 1 && l.count >= 0
    ensures HasRows(query, l, page) <==>
            var items := if l.count == 0 && l.items.None? then Some([]) else l.items;
            items.Some? && |items.value| == ExpectedRows(query, l.count, page)
    ensures ExpectedRows(query, l.count, page) <= query.pageSize
  {
    Steps(page - 1, page, query.pageSize);
    assert Full(query, page - 1) == Room(page - 1, query.pageSize);
    assert page == 1 ==> Room(0, query.pageSize) == 0;
    assert page > 1 ==> Room(page - 1, query.pageSize) >= 1 by {
      if page > 1 {
        Steps(1, page - 1, query.pageSize);
      }
    }
  }

  /** Whether a page gets as far as its rows. */
  ghost predicate Framed(site: Site, query: Query, version: nat, scan: Scan, page: nat, capture: Record)
    requires page >= 1
  {
    capture.status == Captured
    && match site.readPage(BodyOf(capture))
       case Err(_) => false
       case Ok(l) =>
         && FitsPage(site, query, version, capture, page, l.count, l.pages)
         && (scan.total.Some? ==> scan.total.value == l.count)
         && (version >= 2 && scan.declared.Some? ==> scan.declared.value == l.pages)
  }

  /** The rows of a page that has rows. */
  function ItemsOf(l: Listing): seq<Row> {
    if l.items.None? then [] else l.items.value
  }

  function ListingOf(site: Site, capture: Record): Listing
    requires site.readPage(BodyOf(capture)).Ok?
  {
    site.readPage(BodyOf(capture)).value
  }

  /** The step of a framed page depends on its rows alone. */
  function RowsStep(site: Site, query: Query, version: nat, id: Identity, scan: Scan, page: nat, capture: Record, l: Listing): Step
    requires page >= 1 && l.count >= 0 && l.pages >= 0
  {
    match RowsUpTo(site, id, capture, ItemsOf(l), scan.seen, |ItemsOf(l)|)
    case Err(issue) => Halted(scan.records, issue)
    case Ok(rows) =>
      var records := scan.records + rows.found;
      var next := Scan(records, rows.seen, Some(l.count), if version >= 2 then Some(l.pages) else None);
      if Room(page, query.pageSize) < l.count then Going(next)
      else if version >= 2 && !id.verified && records == [] then Halted(records, OrgExchangeUnverified)
      else Done(next)
  }

  lemma FramedStep(site: Site, query: Query, version: nat, id: Identity, scan: Scan, page: nat, capture: Record)
    requires query.Valid() && page >= 1 && version in {1, 2, 3} && ScanOk(query, scan, page - 1)
    requires Framed(site, query, version, scan, page, capture)
    ensures PageStep(site, query, version, id, scan, page, capture)
         == RowsStep(site, query, version, id, scan, page, capture, ListingOf(site, capture))
  {
    hide Distinct, RowsUpTo, ExpectedRows, Full, RequiredPages, BodyOf, Ids, NoDuplicates, PagesAllowed, CountersAllowed, HasRows, Room;
    var l := ListingOf(site, capture);
    PagesAllowedIff(query, version, l);
    ExpectedIff(query, l, page);
    MoreIff(query, l.count, page);
    VersionOneMore(query, version, l, page);
    PageKeepsScan(site, query, version, id, scan, page, capture);
  }

  /** Under the first contract the declared pages are the required ones. */
  lemma VersionOneMore(query: Query, version: nat, l: Listing, page: nat)
    requires query.Valid() && l.count >= 0
    ensures version == 1 && CountersAllowed(query, version, l) ==> l.pages == RequiredPages(query, l.count)
  {}

  /** And a page that is not framed never passes. */
  lemma PassedIsFramed(site: Site, query: Query, version: nat, id: Identity, scan: Scan, page: nat, capture: Record)
    requires query.Valid() && page >= 1 && version in {1, 2, 3}
    requires !PageStep(site, query, version, id, scan, page, capture).Halted?
    ensures Framed(site, query, version, scan, page, capture)
  {
    hide RowsUpTo, ExpectedRows, Full, RequiredPages, BodyOf, PagesAllowed, CountersAllowed, HasRows, Room;
    var l := ListingOf(site, capture);
    PagesAllowedIff(query, version, l);
    ExpectedIff(query, l, page);
    MoreIff(query, l.count, page);
    VersionOneMore(query, version, l, page);
  }

  /** The first row of a page that cannot be read, or repeats an id. */
  ghost predicate RowFault(site: Site, id: Identity, capture: Record, items: seq<Row>, before: seq<Found>, j: nat, issue: Issue)
    requires j < |items|
  {
    match DecodedRows(site, id, capture, items, j)
    case None => false
    case Some(found) =>
      && NoDuplicates(Ids(before + found))
      && match site.readRow(id, capture, items[j])
         case Err(code) => issue == Unreadable(code)
         case Ok(record) => record.id in Ids(before + found) && issue == DuplicateAnnouncementId
  }

  ghost predicate SomeRowFault(site: Site, id: Identity, capture: Record, items: seq<Row>, before: seq<Found>, n: nat, issue: Issue)
    requires n <= |items|
  {
    exists j :: 0 <= j < n && RowFault(site, id, capture, items, before, j, issue)
  }

  /** The rows are gathered exactly if all of them can be read and no id is repeated. */
  lemma {:induction false} RowsAreDecided(site: Site, id: Identity, capture: Record, items: seq<Row>, scan: Scan, n: nat)
    requires n <= |items| && Distinct(scan.records, scan.seen)
    ensures match RowsUpTo(site, id, capture, items, scan.seen, n)
            case Ok(rows) =>
              && DecodedRows(site, id, capture, items, n) == Some(rows.found) && Distinct(scan.records + rows.found, rows.seen)
              && forall issue :: !SomeRowFault(site, id, capture, items, scan.records, n, issue)
            case Err(e) =>
              && (DecodedRows(site, id, capture, items, n).Some? ==>
                    !NoDuplicates(Ids(scan.records + DecodedRows(site, id, capture, items, n).value)))
              && forall issue :: SomeRowFault(site, id, capture, items, scan.records, n, issue) <==> issue == e
  {
    hide Distinct, RowFault, SomeRowFault, DecodedRows;
    if n == 0 {
      assert scan.records + [] == scan.records;
      NoRowsYet(site, id, capture, items, scan);
    } else {
      var j: nat := n - 1;
      RowsAreDecided(site, id, capture, items, scan, j);
      NextRowFault(site, id, capture, items, scan, j, n);
      RowAdded(site, id, capture, items, scan, j, n);
    }
  }

  lemma NoRowsYet(site: Site, id: Identity, capture: Record, items: seq<Row>, scan: Scan)
    ensures RowsUpTo(site, id, capture, items, scan.seen, 0) == Ok(Rows([], scan.seen)) && DecodedRows(site, id, capture, items, 0) == Some([])
    ensures forall issue :: !SomeRowFault(site, id, capture, items, scan.records, 0, issue)
  {}

  lemma NextRowFault(site: Site, id: Identity, capture: Record, items: seq<Row>, scan: Scan, j: nat, n: nat)
    requires j < |items| && n == j + 1
    ensures forall issue :: SomeRowFault(site, id, capture, items, scan.records, n, issue) <==>
              SomeRowFault(site, id, capture, items, scan.records, j, issue) || RowFault(site, id, capture, items, scan.records, j, issue)
  {
    hide RowFault;
  }

  /** What the next row does to rows that were all gathered, or were not. */
  lemma RowAdded(site: Site, id: Identity, capture: Record, items: seq<Row>, scan: Scan, j: nat, n: nat)
    requires j < |items| && n == j + 1
    ensures match RowsUpTo(site, id, capture, items, scan.seen, j)
            case Ok(rows) =>
              DecodedRows(site, id, capture, items, j) == Some(rows.found) && Distinct(scan.records + rows.found, rows.seen) ==>
              (match RowsUpTo(site, id, capture, items, scan.seen, n)
               case Ok(more) =>
                 && DecodedRows(site, id, capture, items, n) == Some(more.found) && Distinct(scan.records + more.found, more.seen)
                 && forall issue :: !RowFault(site, id, capture, items, scan.records, j, issue)
               case Err(e) =>
                 && (forall issue :: RowFault(site, id, capture, items, scan.records, j, issue) <==> issue == e)
                 && (DecodedRows(site, id, capture, items, n).Some? ==>
                       !NoDuplicates(Ids(scan.records + DecodedRows(site, id, capture, items, n).value))))
            case Err(_) =>
              (DecodedRows(site, id, capture, items, j).Some? ==>
                 !NoDuplicates(Ids(scan.records + DecodedRows(site, id, capture, items, j).value))) ==>
              && (DecodedRows(site, id, capture, items, n).Some? ==>
                    !NoDuplicates(Ids(scan.records + DecodedRows(site, id, capture, items, n).value)))
              && forall issue :: !RowFault(site, id, capture, items, scan.records, j, issue)
  {
    var front := DecodedRows(site, id, capture, items, j);
    if front.Some? && site.readRow(id, capture, items[j]).Ok? {
      var record := site.readRow(id, capture, items[j]).value;
      assert scan.records + (front.value + [record]) == (scan.records + front.value) + [record];
      IdsSnoc(scan.records + front.value, record);
      DuplicateSnoc(Ids(scan.records + front.value), record.id);
    }
  }

  lemma DuplicateSnoc<T>(s: seq<T>, x: T)
    ensures NoDuplicates(s + [x]) <==> NoDuplicates(s) && x !in s
  {
    var t := s + [x];
    if NoDuplicates(t) {
      assert forall i :: 0 <= i < |s| ==> t[i] == s[i];
      assert t[|s|] == x;
    }
  }

  /** After k good pages with more to come: what they fit, and their records. */
  ghost predicate Begun(site: Site, query: Query, version: nat, id: Identity, captures: seq<Record>, k: nat, count: int, pages: int, before: seq<Found>)
    requires k == 0 || k < |captures|
  {
    && PagesFit(site, query, version, id, captures, k, count, pages) && (k > 0 ==> Room(k, query.pageSize) < count)
    && Gathered(site, id, captures, k) == Some(before) && NoDuplicates(Ids(before))
  }

  /** The scan that stands for them. */
  ghost predicate Stands(query: Query, version: nat, scan: Scan, k: nat, count: int, pages: int, before: seq<Found>)
    requires query.Valid()
  {
    && scan.records == before && ScanOk(query, scan, k)
    && (k > 0 ==> count >= 0 && pages >= 0 && PagesAllowed(query, version, count, pages) && scan.total == Some(count)
                  && scan.declared == if version >= 2 then Some(pages) else None)
    && (k == 0 ==> scan.total == None && scan.declared == None)
  }

  /** All rows of the page can be read, and no id repeats. */
  ghost predicate Whole(site: Site, id: Identity, before: seq<Found>, capture: Record) {
    var found := PageRecords(site, id, capture);
    found.Some? && NoDuplicates(Ids(before + found.value))
  }

  /** What a step makes of a framed page. */
  ghost predicate Decided(site: Site, query: Query, version: nat, id: Identity, before: seq<Found>, page: nat, capture: Record, l: Listing, step: Step)
    requires page >= 1
  {
    var last := Room(page, query.pageSize) >= l.count;
    match step
    case Going(next) =>
      && Whole(site, id, before, capture) && !last && next.records == before + PageRecords(site, id, capture).value
      && next.total == Some(l.count) && next.declared == if version >= 2 then Some(l.pages) else None
    case Done(next) =>
      && Whole(site, id, before, capture) && last && next.records == before + PageRecords(site, id, capture).value
      && (version == 1 || id.verified || next.records != [])
    case Halted(records, issue) =>
      if Whole(site, id, before, capture) then
        && issue == OrgExchangeUnverified && last && version >= 2 && !id.verified
        && before + PageRecords(site, id, capture).value == [] == records
      else
        records == before && forall x :: SomeRowFault(site, id, capture, ItemsOf(l), before, |ItemsOf(l)|, x) <==> x == issue
  }

  lemma RowsStepDecided(site: Site, query: Query, version: nat, id: Identity, scan: Scan, page: nat, capture: Record)
    requires page >= 1 && version in {1, 2, 3} && Distinct(scan.records, scan.seen) && site.readPage(BodyOf(capture)).Ok?
    requires ListingOf(site, capture).count >= 0 && ListingOf(site, capture).pages >= 0
    ensures var l := ListingOf(site, capture);
            Decided(site, query, version, id, scan.records, page, capture, l, RowsStep(site, query, version, id, scan, page, capture, l))
  {
    hide RowsUpTo, BodyOf, Room, SomeRowFault, DecodedRows, ListingOf, PageRecords;
    var l := ListingOf(site, capture);
    RowsAreDecided(site, id, capture, ItemsOf(l), scan, |ItemsOf(l)|);
    PageRecordsOf(site, id, capture);
  }

  /** A framed page with all its rows. */
  lemma PageIsDecided(site: Site, query: Query, version: nat, id: Identity, scan: Scan, page: nat, capture: Record)
    requires query.Valid() && page >= 1 && version in {1, 2, 3} && ScanOk(query, scan, page - 1)
    requires Framed(site, query, version, scan, page, capture)
    ensures Decided(site, query, version, id, scan.records, page, capture, ListingOf(site, capture),
                    PageStep(site, query, version, id, scan, page, capture))
  {
    hide RowsStep, Decided, PageStep, FitsPage, BodyOf, Distinct;
    FramedStep(site, query, version, id, scan, page, capture);
    FramedCounts(site, query, version, scan, page, capture);
    RowsStepDecided(site, query, version, id, scan, page, capture);
  }

  lemma FramedCounts(site: Site, query: Query, version: nat, scan: Scan, page: nat, capture: Record)
    requires page >= 1 && Framed(site, query, version, scan, page, capture)
    ensures site.readPage(BodyOf(capture)).Ok?
    ensures var l := ListingOf(site, capture); l.count >= 0 && l.pages >= 0 && FitsPage(site, query, version, capture, page, l.count, l.pages)
  {
    hide HasRows, PagesAllowed, Room, BodyOf;
  }

  lemma PageRecordsOf(site: Site, id: Identity, capture: Record)
    requires site.readPage(BodyOf(capture)).Ok?
    ensures var items := ItemsOf(ListingOf(site, capture)); PageRecords(site, id, capture) == DecodedRows(site, id, capture, items, |items|)
  {
    hide BodyOf;
  }

  /** Under the first contract a count allows one number of pages only. */
  lemma OnePageCount(query: Query, count: nat, p: int, q: int)
    requires query.Valid() && PagesAllowed(query, 1, count, p) && PagesAllowed(query, 1, count, q)
    ensures p == q
  {
    hide Room, RequiredPages;
    CeilingIff(query, count, p);
    CeilingIff(query, count, q);
  }

  /** The next page is framed by the ones before it exactly if it fits the same count and pages. */
  lemma FrameIffFits(site: Site, query: Query, version: nat, scan: Scan, capture: Record, k: nat, count: int, pages: int, before: seq<Found>)
    requires query.Valid() && version in {1, 2, 3} && Stands(query, version, scan, k, count, pages, before)
    ensures k > 0 ==> (Framed(site, query, version, scan, k + 1, capture) <==> FitsPage(site, query, version, capture, k + 1, count, pages))
    ensures k == 0 && FitsPage(site, query, version, capture, 1, count, pages) ==> Framed(site, query, version, scan, 1, capture)
  {
    hide PagesAllowed, HasRows, ScanOk, Room, BodyOf;
    if k > 0 && Framed(site, query, version, scan, k + 1, capture) && version == 1 {
      OnePageCount(query, count, pages, ListingOf(site, capture).pages);
    }
  }

  lemma BegunEarlier(site: Site, query: Query, version: nat, id: Identity, captures: seq<Record>, k: nat, count: int, pages: int, before: seq<Found>)
    requires query.Valid() && 0 < k < |captures| && Begun(site, query, version, id, captures, k, count, pages, before)
    ensures Gathered(site, id, captures, k - 1).Some? && PageRecords(site, id, captures[k]).Some?
    ensures before == Gathered(site, id, captures, k - 1).value + PageRecords(site, id, captures[k]).value
    ensures Begun(site, query, version, id, captures, k - 1, count, pages, Gathered(site, id, captures, k - 1).value)
  {
    hide FitsPage, PageRecords, Room;
    Steps(k - 1, k, query.pageSize);
    var front, page := Gathered(site, id, captures, k - 1).value, PageRecords(site, id, captures[k]).value;
    assert forall i :: 0 <= i < |front| ==> Ids(front)[i] == Ids(before)[i];
  }

  /** Good pages with more to come are read to the end. */
  lemma {:induction false} BegunStands(site: Site, query: Query, version: nat, id: Identity, captures: seq<Record>, k: nat, count: int, pages: int, before: seq<Found>)
    returns (scan: Scan)
    requires query.Valid() && version in {1, 2, 3} && k < |captures| && Begun(site, query, version, id, captures, k, count, pages, before)
    ensures PagesUpTo(site, query, version, id, captures, k) == Ok(Open(scan)) && Stands(query, version, scan, k, count, pages, before)
    decreases k
  {
    hide PageStep, FitsPage, Stands, Begun, Framed, PageRecords;
    if k == 0 {
      scan := START;
      NoneBegun(site, query, version, id, captures, count, pages, before);
    } else {
      BegunEarlier(site, query, version, id, captures, k, count, pages, before);
      var front := Gathered(site, id, captures, k - 1).value;
      var earlier := BegunStands(site, query, version, id, captures, k - 1, count, pages, front);
      BegunFits(site, query, version, id, captures, k, count, pages, before);
      FrameIffFits(site, query, version, earlier, captures[k], k - 1, count, pages, front);
      scan := NextStands(site, query, version, id, earlier, captures[k], k, count, pages, front, before);
    }
  }

  lemma NoneBegun(site: Site, query: Query, version: nat, id: Identity, captures: seq<Record>, count: int, pages: int, before: seq<Found>)
    requires query.Valid() && captures != [] && Begun(site, query, version, id, captures, 0, count, pages, before)
    ensures Stands(query, version, START, 0, count, pages, before)
  {
    assert Full(query, 0) == 0;
  }

  lemma BegunFits(site: Site, query: Query, version: nat, id: Identity, captures: seq<Record>, k: nat, count: int, pages: int, before: seq<Found>)
    requires 0 < k < |captures| && Begun(site, query, version, id, captures, k, count, pages, before)
    ensures k <= query.maxPages && captures[k].request == site.page(id.org, k) && FitsPage(site, query, version, captures[k], k, count, pages)
    ensures Room(k, query.pageSize) < count && NoDuplicates(Ids(before))
  {
    hide FitsPage, Room;
  }

  lemma NextStands(site: Site, query: Query, version: nat, id: Identity, earlier: Scan, capture: Record, k: nat, count: int, pages: int,
      front: seq<Found>, before: seq<Found>) returns (scan: Scan)
    requires query.Valid() && version in {1, 2, 3} && k > 0 && Stands(query, version, earlier, k - 1, count, pages, front)
    requires FitsPage(site, query, version, capture, k, count, pages) && Framed(site, query, version, earlier, k, capture)
    requires PageRecords(site, id, capture).Some? && before == front + PageRecords(site, id, capture).value
    requires NoDuplicates(Ids(before)) && Room(k, query.pageSize) < count
    ensures PageStep(site, query, version, id, earlier, k, capture) == Going(scan) && Stands(query, version, scan, k, count, pages, before)
  {
    hide PageStep, ScanOk, HasRows, PagesAllowed, BodyOf, Room, PageRecords, Framed;
    PageIsDecided(site, query, version, id, earlier, k, capture);
    PageKeepsScan(site, query, version, id, earlier, k, capture);
    scan := PageStep(site, query, version, id, earlier, k, capture).scan;
  }

  /** And what was read to the end were good pages with more to come. */
  lemma {:induction false} OpenHasBegun(site: Site, query: Query, version: nat, id: Identity, captures: seq<Record>, k: nat)
    returns (count: int, pages: int)
    requires query.Valid() && version in {1, 2, 3} && k < |captures|
    requires PagesUpTo(site, query, version, id, captures, k).Ok? && PagesUpTo(site, query, version, id, captures, k).value.Open?
    ensures var scan := PagesUpTo(site, query, version, id, captures, k).value.scan;
            Begun(site, query, version, id, captures, k, count, pages, scan.records) && Stands(query, version, scan, k, count, pages, scan.records)
    decreases k
  {
    hide PageStep, FitsPage, Stands, Begun, PageRecords;
    if k == 0 {
      count, pages := 0, 0;
      NothingBegun(site, query, version, id, captures);
    } else {
      count, pages := OpenHasBegun(site, query, version, id, captures, k - 1);
      var earlier := PagesUpTo(site, query, version, id, captures, k - 1).value.scan;
      PassedIsFramed(site, query, version, id, earlier, k, captures[k]);
      count, pages := NextHasBegun(site, query, version, id, captures, earlier, k, count, pages);
    }
  }

  lemma NothingBegun(site: Site, query: Query, version: nat, id: Identity, captures: seq<Record>)
    requires query.Valid() && captures != []
    ensures Begun(site, query, version, id, captures, 0, 0, 0, []) && Stands(query, version, START, 0, 0, 0, [])
  {
    assert Full(query, 0) == 0;
  }

  /** A page that passed fits what the pages before it fit, and adds its records. */
  lemma PassedFits(site: Site, query: Query, version: nat, id: Identity, captures: seq<Record>, earlier: Scan, k: nat, count: int, pages: int)
    returns (n: int, p: int)
    requires query.Valid() && version in {1, 2, 3} && 0 < k < |captures|
    requires Begun(site, query, version, id, captures, k - 1, count, pages, earlier.records)
    requires Stands(query, version, earlier, k - 1, count, pages, earlier.records)
    requires k <= query.maxPages && captures[k].request == site.page(id.org, k)
    requires Framed(site, query, version, earlier, k, captures[k])
    ensures ListingOf(site, captures[k]).count == n >= 0 && PagesAllowed(query, version, n, p) && p >= 0
    ensures version >= 2 ==> p == ListingOf(site, captures[k]).pages
    ensures PagesFit(site, query, version, id, captures, k, n, p)
  {
    hide FitsPage, HasRows, ScanOk, Room, BodyOf, Stands, Gathered, PagesAllowed;
    FramedCounts(site, query, version, earlier, k, captures[k]);
    FrameIffFits(site, query, version, earlier, captures[k], k - 1, count, pages, earlier.records);
    n, p := count, pages;
    if k == 1 {
      n, p := ListingOf(site, captures[k]).count, ListingOf(site, captures[k]).pages;
    }
    FitsCounts(site, query, version, captures[k], k, n, p);
  }

  lemma FitsCounts(site: Site, query: Query, version: nat, capture: Record, page: nat, count: int, pages: int)
    requires page >= 1 && FitsPage(site, query, version, capture, page, count, pages)
    ensures site.readPage(BodyOf(capture)).Ok? && ListingOf(site, capture).count == count >= 0 && ListingOf(site, capture).pages == pages >= 0
    ensures PagesAllowed(query, version, count, pages)
  {
    hide HasRows, PagesAllowed, Room, BodyOf;
  }

  lemma NextHasBegun(site: Site, query: Query, version: nat, id: Identity, captures: seq<Record>, earlier: Scan, k: nat, count: int, pages: int)
    returns (n: int, p: int)
    requires query.Valid() && version in {1, 2, 3} && 0 < k < |captures|
    requires Begun(site, query, version, id, captures, k - 1, count, pages, earlier.records)
    requires Stands(query, version, earlier, k - 1, count, pages, earlier.records)
    requires k <= query.maxPages && captures[k].request == site.page(id.org, k)
    requires Framed(site, query, version, earlier, k, captures[k])
    requires PageStep(site, query, version, id, earlier, k, captures[k]).Going?
    ensures var scan := PageStep(site, query, version, id, earlier, k, captures[k]).scan;
            Begun(site, query, version, id, captures, k, n, p, scan.records) && Stands(query, version, scan, k, n, p, scan.records)
  {
    hide PageStep, ScanOk, PagesFit, PagesAllowed, BodyOf, Room, PageRecords, Framed;
    n, p := PassedFits(site, query, version, id, captures, earlier, k, count, pages);
    PageIsDecided(site, query, version, id, earlier, k, captures[k]);
    PageKeepsScan(site, query, version, id, earlier, k, captures[k]);
  }

  /** COMPLETE, read off the answers: exactly the captures that deliver a whole answer, with exactly
      its records. */
  lemma CompleteIff(site: Site, query: Query, version: nat, captures: seq<Record>, records: seq<Found>)
    requires query.Valid()
    ensures Analyze(site, query, version, captures) == Ok(Progress(records, Complete, [], None)) <==>
            version in {1, 2, 3} && exists id, count, pages :: Delivers(site, query, version, captures, id, count, pages, records)
  {
    hide PagesUpTo, Delivers;
    if version in {1, 2, 3} {
      if id, count, pages :| Delivers(site, query, version, captures, id, count, pages, records) {
        DeliveredIsComplete(site, query, version, captures, id, count, pages, records);
      }
      if Analyze(site, query, version, captures) == Ok(Progress(records, Complete, [], None)) {
        var id, count, pages := CompleteIsDelivered(site, query, version, captures, records);
      }
    }
  }

  lemma LastBegun(site: Site, query: Query, version: nat, id: Identity, captures: seq<Record>, k: nat, count: int, pages: int, records: seq<Found>)
    returns (front: seq<Found>)
    requires query.Valid() && 0 < k < |captures| && PagesFit(site, query, version, id, captures, k, count, pages)
    requires (k == 1 || Room(k - 1, query.pageSize) < count) && Gathered(site, id, captures, k) == Some(records) && NoDuplicates(Ids(records))
    ensures Begun(site, query, version, id, captures, k - 1, count, pages, front) && PageRecords(site, id, captures[k]).Some?
    ensures records == front + PageRecords(site, id, captures[k]).value
  {
    hide FitsPage, PageRecords, Room;
    front := Gathered(site, id, captures, k - 1).value;
    assert forall i :: 0 <= i < |front| ==> Ids(front)[i] == Ids(records)[i];
  }

  lemma DeliveredIsComplete(site: Site, query: Query, version: nat, captures: seq<Record>, id: Identity, count: int, pages: int, records: seq<Found>)
    requires query.Valid() && version in {1, 2, 3} && Delivers(site, query, version, captures, id, count, pages, records)
    ensures Analyze(site, query, version, captures) == Ok(Progress(records, Complete, [], None))
  {
    hide PageStep, FitsPage, Begun, Framed, PageRecords, Gathered, Room, Stands, NoDuplicates;
    var k := |captures| - 1;
    var front := LastBegun(site, query, version, id, captures, k, count, pages, records);
    var scan := BegunStands(site, query, version, id, captures, k - 1, count, pages, front);
    FrameIffFits(site, query, version, scan, captures[k], k - 1, count, pages, front);
    StandsParts(query, version, scan, k - 1, count, pages, front);
    PageIsDecided(site, query, version, id, scan, k, captures[k]);
    FitsCounts(site, query, version, captures[k], k, count, pages);
    assert Whole(site, id, front, captures[k]);
  }

  lemma StandsParts(query: Query, version: nat, scan: Scan, k: nat, count: int, pages: int, before: seq<Found>)
    requires query.Valid() && Stands(query, version, scan, k, count, pages, before)
    ensures scan.records == before && ScanOk(query, scan, k)
  {}

  lemma CompleteIsDelivered(site: Site, query: Query, version: nat, captures: seq<Record>, records: seq<Found>)
    returns (id: Identity, count: int, pages: int)
    requires query.Valid() && version in {1, 2, 3}
    requires Analyze(site, query, version, captures) == Ok(Progress(records, Complete, [], None))
    ensures Delivers(site, query, version, captures, id, count, pages, records)
  {
    hide PageStep, FitsPage, Begun, Framed, PageRecords, Room, Stands, NoDuplicates, PagesFit, PagesAllowed, Outcome;
    id := Identified(site, captures).value;
    var k := CompleteClosesLast(site, query, version, id, captures, |captures| - 1);
    var earlier := PagesUpTo(site, query, version, id, captures, k - 1).value.scan;
    count, pages := OpenHasBegun(site, query, version, id, captures, k - 1);
    StandsParts(query, version, earlier, k - 1, count, pages, earlier.records);
    PassedIsFramed(site, query, version, id, earlier, k, captures[k]);
    PageIsDecided(site, query, version, id, earlier, k, captures[k]);
    BegunMore(site, query, version, id, captures, k - 1, count, pages, earlier.records);
    var n, p := PassedFits(site, query, version, id, captures, earlier, k, count, pages);
    SameCount(site, query, version, earlier, captures[k], k, count, pages);
    count, pages := n, p;
  }

  lemma SameCount(site: Site, query: Query, version: nat, earlier: Scan, capture: Record, k: nat, count: int, pages: int)
    requires query.Valid() && k > 1 ==> Stands(query, version, earlier, k - 1, count, pages, earlier.records)
    requires k >= 1 && Framed(site, query, version, earlier, k, capture)
    ensures k > 1 && query.Valid() ==> ListingOf(site, capture).count == count
  {
    hide FitsPage, ScanOk, PagesAllowed, BodyOf;
  }

  lemma BegunMore(site: Site, query: Query, version: nat, id: Identity, captures: seq<Record>, k: nat, count: int, pages: int, before: seq<Found>)
    requires k < |captures| && Begun(site, query, version, id, captures, k, count, pages, before)
    ensures k > 0 ==> Room(k, query.pageSize) < count
    ensures Gathered(site, id, captures, k) == Some(before)
  {
    hide PagesFit;
  }

  /** A complete search was completed by its last page. */
  lemma {:induction false} CompleteClosesLast(site: Site, query: Query, version: nat, id: Identity, captures: seq<Record>, n: nat) returns (k: nat)
    requires query.Valid() && n < |captures| && PagesUpTo(site, query, version, id, captures, n).Ok?
    requires PagesUpTo(site, query, version, id, captures, n).value.Closed?
    requires PagesUpTo(site, query, version, id, captures, n).value.progress.status == Complete
    ensures 1 <= k == |captures| - 1 && k <= query.maxPages && captures[k].request == site.page(id.org, k)
    ensures PagesUpTo(site, query, version, id, captures, k - 1).Ok? && PagesUpTo(site, query, version, id, captures, k - 1).value.Open?
    ensures var step := PageStep(site, query, version, id, PagesUpTo(site, query, version, id, captures, k - 1).value.scan, k, captures[k]);
            step.Done? && step.scan.records == PagesUpTo(site, query, version, id, captures, n).value.progress.records
  {
    hide PageStep;
    if PagesUpTo(site, query, version, id, captures, n - 1).value.Closed? {
      k := CompleteClosesLast(site, query, version, id, captures, n - 1);
    } else {
      k := n;
    }
  }

  // ----- what any other answer gives -----

  /** What keeps a page after k good ones from its rows, the first thing that is wrong. */
  ghost predicate FrameFault(site: Site, query: Query, version: nat, k: nat, count: int, pages: int, capture: Record, issue: Issue) {
    if capture.status != Captured then issue == Refused(capture.status)
    else
      match site.readPage(BodyOf(capture))
      case Err(code) => issue == Unreadable(code)
      case Ok(l) =>
        if l.count < 0 || l.pages < 0 then issue == PageCounterSchema
        else if !PagesAllowed(query, version, l.count, l.pages) then issue == PageTotalInconsistent
        else if k > 0 && l.count != count then issue == PaginationTotalChanged
        else if k > 0 && version >= 2 && l.pages != pages then issue == PaginationPagesChanged
        else if (if l.items.None? then l.count != 0 else |l.items.value| > query.pageSize) then issue == PageRowsSchema
        else if !HasRows(query, l, k + 1) || l.more != (Room(k + 1, query.pageSize) < l.count) then issue == PageCoverageInconsistent
        else false
  }

  /** What is wrong with the page after k good ones: something about the page, its first bad row, or
      nobody sure to be meant by an empty answer. */
  ghost predicate Deviates(site: Site, query: Query, version: nat, id: Identity, k: nat, count: int, pages: int, before: seq<Found>,
      capture: Record, issue: Issue)
  {
    || FrameFault(site, query, version, k, count, pages, capture, issue)
    || ((forall x :: !FrameFault(site, query, version, k, count, pages, capture, x))
        && site.readPage(BodyOf(capture)).Ok?
        && var l := ListingOf(site, capture);
           if Whole(site, id, before, capture) then
             && issue == OrgExchangeUnverified && version >= 2 && !id.verified
             && before + PageRecords(site, id, capture).value == [] && Room(k + 1, query.pageSize) >= l.count
           else SomeRowFault(site, id, capture, ItemsOf(l), before, |ItemsOf(l)|, issue))
  }

  lemma FramedHasNoFault(site: Site, query: Query, version: nat, scan: Scan, k: nat, count: int, pages: int, before: seq<Found>, capture: Record)
    requires query.Valid() && version in {1, 2, 3} && Stands(query, version, scan, k, count, pages, before)
    ensures Framed(site, query, version, scan, k + 1, capture) ==> forall x :: !FrameFault(site, query, version, k, count, pages, capture, x)
  {
    hide PagesAllowed, ScanOk, Room, BodyOf;
    if Framed(site, query, version, scan, k + 1, capture) {
      var l := ListingOf(site, capture);
      ExpectedIff(query, l, k + 1);
    }
  }

  lemma UnframedHasFault(site: Site, query: Query, version: nat, id: Identity, scan: Scan, k: nat, count: int, pages: int, before: seq<Found>, capture: Record)
    requires query.Valid() && version in {1, 2, 3} && Stands(query, version, scan, k, count, pages, before)
    requires !Framed(site, query, version, scan, k + 1, capture)
    ensures PageStep(site, query, version, id, scan, k + 1, capture).Halted?
    ensures var step := PageStep(site, query, version, id, scan, k + 1, capture);
            step.records == before && forall x :: FrameFault(site, query, version, k, count, pages, capture, x) <==> x == step.issue
  {
    hide PagesAllowed, ScanOk, Room, BodyOf, RowsUpTo, ExpectedRows, RequiredPages, CountersAllowed, HasRows;
    if capture.status == Captured && site.readPage(BodyOf(capture)).Ok? {
      var l := ListingOf(site, capture);
      if l.count >= 0 && l.pages >= 0 {
        PagesAllowedIff(query, version, l);
        ExpectedIff(query, l, k + 1);
        MoreIff(query, l.count, k + 1);
        VersionOneMore(query, version, l, k + 1);
      }
    }
  }

  /** After good pages the next one halts the search exactly for what is wrong with it. */
  lemma StepDeviates(site: Site, query: Query, version: nat, id: Identity, scan: Scan, k: nat, count: int, pages: int, before: seq<Found>,
      capture: Record)
    requires query.Valid() && version in {1, 2, 3} && Stands(query, version, scan, k, count, pages, before)
    ensures forall x :: Deviates(site, query, version, id, k, count, pages, before, capture, x) <==>
              PageStep(site, query, version, id, scan, k + 1, capture) == Halted(before, x)
  {
    hide PageStep, ScanOk, Room, BodyOf, Stands, Framed, SomeRowFault, FrameFault, Whole, ListingOf;
    StandsParts(query, version, scan, k, count, pages, before);
    FramedHasNoFault(site, query, version, scan, k, count, pages, before, capture);
    if Framed(site, query, version, scan, k + 1, capture) {
      FramedCounts(site, query, version, scan, k + 1, capture);
      PageIsDecided(site, query, version, id, scan, k + 1, capture);
      if Whole(site, id, before, capture) {
        WholeIsEmpty(site, id, before, capture);
      }
    } else {
      UnframedHasFault(site, query, version, id, scan, k, count, pages, before, capture);
      assert FrameFault(site, query, version, k, count, pages, capture, PageStep(site, query, version, id, scan, k + 1, capture).issue);
    }
  }

  lemma WholeIsEmpty(site: Site, id: Identity, before: seq<Found>, capture: Record)
    requires Whole(site, id, before, capture)
    ensures PageRecords(site, id, capture).Some?
    ensures before + PageRecords(site, id, capture).value == [] ==> before == []
  {}

  /** The last page of captures after k good ones: the search ends with the records of the good pages
      and one issue, exactly the one the page deviates by. */
  lemma DeviationDecides(site: Site, query: Query, version: nat, captures: seq<Record>, id: Identity, count: int, pages: int, before: seq<Found>, issue: Issue)
    requires query.Valid() && version in {1, 2, 3} && |captures| >= 2 && captures[0].request == site.initial
    requires Identified(site, captures) == Some(id)
    requires var k := |captures| - 2;
             && Begun(site, query, version, id, captures, k, count, pages, before)
             && k + 1 <= query.maxPages && captures[k + 1].request == site.page(id.org, k + 1)
    requires issue !in {MaxPagesReached, PaginationInterrupted}
    ensures var last := captures[|captures| - 1];
            Deviates(site, query, version, id, |captures| - 2, count, pages, before, last, issue) <==>
            Analyze(site, query, version, captures)
              == Ok(Progress(before, if last.status == PermissionRequired then Forbidden else Partial, [issue], None))
  {
    hide PageStep, Begun, Stands, Deviates, BodyOf;
    var k := |captures| - 2;
    var scan := BegunStands(site, query, version, id, captures, k, count, pages, before);
    StepDeviates(site, query, version, id, scan, k, count, pages, before, captures[k + 1]);
  }

  /** Good pages with more to come: the search asks for the next page, up to the limit. */
  lemma InterruptionDecides(site: Site, query: Query, version: nat, captures: seq<Record>, id: Identity, count: int, pages: int, before: seq<Found>)
    requires query.Valid() && version in {1, 2, 3} && captures != [] && captures[0].request == site.initial
    requires Identified(site, captures) == Some(id)
    requires Begun(site, query, version, id, captures, |captures| - 1, count, pages, before)
    ensures Analyze(site, query, version, captures)
         == Ok(if |captures| <= query.maxPages
               then Progress(before, Partial, [PaginationInterrupted], Some(site.page(id.org, |captures|)))
               else Progress(before, Partial, [MaxPagesReached], None))
  {
    hide PageStep, Begun, PagesUpTo, BodyOf;
    var scan := BegunStands(site, query, version, id, captures, |captures| - 1, count, pages, before);
    StandsParts(query, version, scan, |captures| - 1, count, pages, before);
  }

  /** The first answer alone: nothing yet, a refusal, an unreadable one, or the first page to ask for. */
  lemma FirstAnswerDecides(site: Site, query: Query, version: nat, captures: seq<Record>)
    requires query.Valid() && version in {1, 2, 3} && |captures| <= 1 && forall c :: c in captures ==> c.request == site.initial
    ensures Analyze(site, query, version, captures)
         == Ok(if captures == [] then Progress([], NotAttempted, [], Some(site.initial))
               else if captures[0].status == PermissionRequired then Progress([], Forbidden, [Refused(PermissionRequired)], None)
               else if captures[0].status != Captured then Progress([], Failure, [Refused(captures[0].status)], None)
               else match site.readOrg(BodyOf(captures[0]))
                    case Err(code) => Progress([], Failure, [Unreadable(code)], None)
                    case Ok(id) => Progress([], Partial, [PaginationInterrupted], Some(site.page(id.org, 1))))
  {
    if captures != [] {
      assert captures[0] in captures;
    }
  }

  // ----- replaying one capture at a time -----

  lemma {:induction false} OpenPrefix(site: Site, query: Query, version: nat, id: Identity, captures: seq<Record>, c: Record, k: nat)
    requires query.Valid() && k < |captures|
    requires PagesUpTo(site, query, version, id, captures, k).Ok? && PagesUpTo(site, query, version, id, captures, k).value.Open?
    ensures PagesUpTo(site, query, version, id, captures + [c], k) == PagesUpTo(site, query, version, id, captures, k)
  {
    hide PageStep;
    if k > 0 {
      assert PagesUpTo(site, query, version, id, captures, k - 1).value.Open?;
      OpenPrefix(site, query, version, id, captures, c, k - 1);
      assert (captures + [c])[k] == captures[k];
    }
  }

  /** A capture of the request asked for is always accepted as the next one: no structural check
      of the replay can fail on captures gathered this way. */
  lemma NextCaptureFits(site: Site, query: Query, version: nat, captures: seq<Record>, c: Record)
    requires query.Valid() && Analyze(site, query, version, captures).Ok?
    requires Analyze(site, query, version, captures).value.next == Some(c.request)
    ensures Analyze(site, query, version, captures + [c]).Ok?
  {
    hide PageStep;
    var longer := captures + [c];
    if captures == [] {
      assert longer == [c];
    } else {
      assert longer[0] == captures[0];
      var id := site.readOrg(BodyOf(captures[0])).value;
      var k := |captures| - 1;
      var replay := PagesUpTo(site, query, version, id, captures, k).value;
      ClosedHasNoNext(site, query, version, id, captures, k);
      OpenPrefix(site, query, version, id, captures, c, k);
      assert longer[k + 1] == c;
    }
  }

  lemma {:induction false} PrefixFailed(site: Site, query: Query, version: nat, id: Identity, captures: seq<Record>, c: Record, k: nat)
    requires query.Valid() && k < |captures| && !PagesUpTo(site, query, version, id, captures, k).Ok?
    ensures !PagesUpTo(site, query, version, id, captures + [c], k).Ok?
  {
    hide PageStep;
    if k > 0 {
      assert (captures + [c])[k] == captures[k];
      var before := PagesUpTo(site, query, version, id, captures, k - 1);
      if before.Err? {
        PrefixFailed(site, query, version, id, captures, c, k - 1);
      } else if before.value.Open? {
        OpenPrefix(site, query, version, id, captures, c, k - 1);
      }
    }
  }

  lemma {:induction false} ClosedFails(site: Site, query: Query, version: nat, id: Identity, captures: seq<Record>, c: Record, k: nat)
    requires query.Valid() && k < |captures|
    requires PagesUpTo(site, query, version, id, captures, k).Ok? && PagesUpTo(site, query, version, id, captures, k).value.Closed?
    ensures PagesUpTo(site, query, version, id, captures + [c], k) == Err(ExtraSearchCapture)
  {
    hide PageStep;
    assert (captures + [c])[k] == captures[k];
    var before := PagesUpTo(site, query, version, id, captures, k - 1).value;
    if before.Closed? {
      ClosedFails(site, query, version, id, captures, c, k - 1);
    } else {
      OpenPrefix(site, query, version, id, captures, c, k - 1);
    }
  }

  /** One more capture: it is accepted exactly if it answers the request asked for. Otherwise, and
      after a finished search, it is a structural error, and errors are never mended by more captures. */
  lemma NextCaptureIff(site: Site, query: Query, version: nat, captures: seq<Record>, c: Record)
    requires query.Valid()
    ensures Analyze(site, query, version, captures + [c]).Ok? <==>
            Analyze(site, query, version, captures).Ok? && Analyze(site, query, version, captures).value.next == Some(c.request)
  {
    hide PageStep;
    var longer := captures + [c];
    if captures == [] {
      assert longer == [c];
    } else {
      assert longer[0] == captures[0];
      if Analyze(site, query, version, captures).Ok? && Analyze(site, query, version, captures).value.next == Some(c.request) {
        NextCaptureFits(site, query, version, captures, c);
      } else if version in {1, 2, 3} && captures[0].request == site.initial && Identified(site, captures).Some? {
        var id, k := Identified(site, captures).value, |captures| - 1;
        var replay := PagesUpTo(site, query, version, id, captures, k);
        assert longer[k + 1] == c;
        if replay.Err? {
          PrefixFailed(site, query, version, id, captures, c, k);
        } else if replay.value.Closed? {
          ClosedFails(site, query, version, id, captures, c, k);
        } else {
          OpenPrefix(site, query, version, id, captures, c, k);
        }
      }
    }
  }

  lemma {:induction false} ClosedHasNoNext(site: Site, query: Query, version: nat, id: Identity, captures: seq<Record>, k: nat)
    requires query.Valid() && k < |captures| && PagesUpTo(site, query, version, id, captures, k).Ok?
    ensures PagesUpTo(site, query, version, id, captures, k).value.Closed? ==>
              PagesUpTo(site, query, version, id, captures, k).value.progress.next.None?
  {
    hide PageStep;
    if k > 0 {
      ClosedHasNoNext(site, query, version, id, captures, k - 1);
    }
  }

  // ----- the state machine as it runs -----

  lemma {:induction false} PagesFailed(site: Site, query: Query, version: nat, id: Identity, captures: seq<Record>, k: nat, n: nat, e: Structural)
    requires query.Valid() && k <= n < |captures| && PagesUpTo(site, query, version, id, captures, k) == Err(e)
    ensures PagesUpTo(site, query, version, id, captures, n) == Err(e)
  {
    hide PageStep;
    if k < n {
      PagesFailed(site, query, version, id, captures, k, n - 1, e);
    }
  }

  lemma {:induction false} RowsFailed(site: Site, id: Identity, capture: Record, items: seq<Row>, seen: set<AnnouncementId>, k: nat, n: nat, issue: Issue)
    requires k <= n <= |items| && RowsUpTo(site, id, capture, items, seen, k) == Err(issue)
    ensures RowsUpTo(site, id, capture, items, seen, n) == Err(issue)
  {
    if k < n {
      RowsFailed(site, id, capture, items, seen, k, n - 1, issue);
    }
  }

  /** The rows of one page, each checked against all ids seen so far. */
  method GatherRows(site: Site, id: Identity, capture: Record, items: seq<Row>, seen: set<AnnouncementId>) returns (r: Result<Rows, Issue>)
    ensures r == RowsUpTo(site, id, capture, items, seen, |items|)
  {
    var found: seq<Found>, known := [], seen;
    for k := 0 to |items|
      invariant RowsUpTo(site, id, capture, items, seen, k) == Ok(Rows(found, known))
    {
      var record := site.readRow(id, capture, items[k]);
      if record.Err? {
        RowsFailed(site, id, capture, items, seen, k + 1, |items|, Unreadable(record.error));
        return Err(Unreadable(record.error));
      }
      if record.value.id in known {
        RowsFailed(site, id, capture, items, seen, k + 1, |items|, DuplicateAnnouncementId);
        return Err(DuplicateAnnouncementId);
      }
      found, known := found + [record.value], known + {record.value.id};
    }
    return Ok(Rows(found, known));
  }

  /** The pages of a search, in order, until one ends it. */
  method AnalyzeSearch(site: Site, query: Query, version: nat, captures: seq<Record>) returns (r: Result<Progress, Structural>)
    requires query.Valid()
    ensures r == Analyze(site, query, version, captures)
  {
    hide PageStep, PagesUpTo;
    if version !in {1, 2, 3} {
      return Err(ContractUnsupported);
    }
    if captures == [] {
      return Ok(Progress([], NotAttempted, [], Some(site.initial)));
    }
    if captures[0].request != site.initial {
      return Err(OrgRequestMismatch);
    }
    var failure := captures[0].status;
    if failure != Captured {
      if |captures| != 1 {
        return Err(ExtraSearchCapture);
      }
      return Ok(Progress([], if failure == PermissionRequired then Forbidden else Failure, [Refused(failure)], None));
    }
    var org := site.readOrg(BodyOf(captures[0]));
    if org.Err? {
      if |captures| != 1 {
        return Err(ExtraSearchCapture);
      }
      return Ok(Progress([], Failure, [Unreadable(org.error)], None));
    }
    r := AnalyzeFrom(site, query, version, org.value, captures);
  }

  method AnalyzeFrom(site: Site, query: Query, version: nat, id: Identity, captures: seq<Record>) returns (r: Result<Progress, Structural>)
    requires query.Valid() && captures != []
    ensures r == AnalyzePages(site, query, version, id, captures)
  {
    hide PageStep, Interrupted;
    var scan := START;
    for page := 1 to |captures|
      invariant PagesUpTo(site, query, version, id, captures, page - 1) == Ok(Open(scan))
    {
      if !(page <= query.maxPages && captures[page].request == site.page(id.org, page)) {
        PagesFailed(site, query, version, id, captures, page, |captures| - 1, PageRequestMismatch);
        return Err(PageRequestMismatch);
      }
      var step := StepPage(site, query, version, id, scan, page, captures[page]);
      if step.Going? {
        scan := step.scan;
      } else {
        if |captures| != page + 1 {
          PagesFailed(site, query, version, id, captures, page, |captures| - 1, ExtraSearchCapture);
          return Err(ExtraSearchCapture);
        }
        return Ok(Ending(step, captures[page]));
      }
    }
    return Ok(Interrupted(site, query, id, scan, |captures|));
  }

  /** One page: its counters, its coverage, its rows. */
  method StepPage(site: Site, query: Query, version: nat, id: Identity, scan: Scan, page: nat, capture: Record) returns (step: Step)
    requires query.Valid() && page >= 1
    ensures step == PageStep(site, query, version, id, scan, page, capture)
  {
    hide RowsUpTo, RequiredPages, ExpectedRows;
    if capture.status != Captured {
      return Halted(scan.records, Refused(capture.status));
    }
    var body := site.readPage(BodyOf(capture));
    if body.Err? {
      return Halted(scan.records, Unreadable(body.error));
    }
    var listing := body.value;
    if listing.count < 0 || listing.pages < 0 {
      return Halted(scan.records, PageCounterSchema);
    }
    var required := RequiredPages(query, listing.count);
    if listing.pages != required && (version == 1 || listing.pages != listing.count / query.pageSize) {
      return Halted(scan.records, PageTotalInconsistent);
    }
    if scan.total.Some? && scan.total.value != listing.count {
      return Halted(scan.records, PaginationTotalChanged);
    }
    if version >= 2 && scan.declared.Some? && scan.declared.value != listing.pages {
      return Halted(scan.records, PaginationPagesChanged);
    }
    var items := if listing.count == 0 && listing.items.None? then Some([]) else listing.items;
    if items.None? || |items.value| > query.pageSize {
      return Halted(scan.records, PageRowsSchema);
    }
    if |items.value| != ExpectedRows(query, listing.count, page)
       || listing.more != (page < (if version == 1 then listing.pages else required)) {
      return Halted(scan.records, PageCoverageInconsistent);
    }
    var rows := GatherRows(site, id, capture, items.value, scan.seen);
    if rows.Err? {
      return Halted(scan.records, rows.error);
    }
    var records := scan.records + rows.value.found;
    var next := Scan(records, rows.value.seen, Some(listing.count), if version >= 2 then Some(listing.pages) else None);
    if listing.more {
      return Going(next);
    }
    if version >= 2 && !id.verified && records == [] {
      return Halted(records, OrgExchangeUnverified);
    }
    if |records| != listing.count {
      return Halted(records, AnnouncementTotalMismatch);
    }
    return Done(next);
  }

  // ----- the online search -----

  const SEARCH_VERSION: nat := 3

  datatype SearchError = FetchFailed(error: FetchError) | Broken(structural: Structural)

  datatype SearchResult = SearchResult(captures: seq<Record>, blobs: Blobs, progress: Progress)

  /** Discovery requests carry a form. */
  ghost predicate Posts(site: Site) {
    site.initial.verb == POST && forall org: Org, n: nat :: site.page(org, n).verb == POST
  }

  /** Captures accepted under given limits, with exactly the bodies that they name. */
  ghost predicate AllAccepted(net: Net, policy: Limits, captures: seq<Record>, blobs: Blobs) {
    && (forall i :: 0 <= i < |captures| ==> Accepts(net, policy, captures[i], blobs))
    && (forall h :: h in blobs ==> Digest(blobs[h]) == h)
    && blobs.Keys == Referenced(captures)
  }

  function Referenced(captures: seq<Record>): set<Digest> {
    set i, h | 0 <= i < |captures| && h in DigestsOf(captures[i]) :: h
  }

  lemma ReferencedSnoc(captures: seq<Record>, c: Record)
    ensures Referenced(captures + [c]) == Referenced(captures) + DigestsOf(c)
  {
    hide DigestsOf;
    var longer := captures + [c];
    assert longer[|captures|] == c;
    forall h | h in Referenced(captures)
      ensures h in Referenced(longer)
    {
      var i :| 0 <= i < |captures| && h in DigestsOf(captures[i]);
      assert longer[i] == captures[i];
    }
  }

  /** One more accepted capture with exactly its bodies. */
  lemma OneMoreAccepted(net: Net, policy: Limits, captures: seq<Record>, blobs: Blobs, s: Stored)
    requires AllAccepted(net, policy, captures, blobs) && Accepts(net, policy, s.capture, s.blobs) && Exact(s)
    ensures AllAccepted(net, policy, captures + [s.capture], blobs + s.blobs)
  {
    hide Accepts, DigestsOf, Referenced;
    var all := blobs + s.blobs;
    ReferencedSnoc(captures, s.capture);
    assert SubBodies(blobs, all) && SubBodies(s.blobs, all) by {
      assert forall h :: h in blobs ==> blobs[h] == h.body;
      assert forall h :: h in s.blobs ==> s.blobs[h] == h.body;
    }
    forall i | 0 <= i < |captures| + 1
      ensures Accepts(net, policy, (captures + [s.capture])[i], all)
    {
      if i < |captures| {
        AcceptanceIsStable(net, policy, captures[i], blobs, all);
      } else {
        AcceptanceIsStable(net, policy, s.capture, s.blobs, all);
      }
    }
  }

  /** Every capture answers the request that the replay of the captures before it asks for. */
  ghost predicate EachAskedFor(site: Site, query: Query, captures: seq<Record>)
    requires query.Valid()
  {
    forall n :: 0 <= n < |captures| ==> AskedFor(site, query, captures[..n], captures[n].request)
  }

  ghost predicate AskedFor(site: Site, query: Query, captures: seq<Record>, request: Spec)
    requires query.Valid()
  {
    match Analyze(site, query, SEARCH_VERSION, captures)
    case Ok(progress) => progress.next == Some(request)
    case Err(_) => false
  }

  lemma AskedForNext(site: Site, query: Query, captures: seq<Record>, c: Record)
    requires query.Valid() && EachAskedFor(site, query, captures) && AskedFor(site, query, captures, c.request)
    ensures EachAskedFor(site, query, captures + [c])
  {
    hide AskedFor;
    var longer := captures + [c];
    forall n | 0 <= n < |longer|
      ensures AskedFor(site, query, longer[..n], longer[n].request)
    {
      assert longer[..n] == captures[..n];
      assert n == |captures| ==> captures[..n] == captures;
    }
  }

  /** search: fetch whatever the replay of the captures so far asks for next. The replay never
      finds anything structurally wrong, and at most one request per page and one more are made. */
  method Search(client: SafeHTTPClient, site: Site, query: Query) returns (r: Result<SearchResult, SearchError>)
    requires query.Valid() && Posts(site) && client.Configured()
    modifies client`requests, client.cache
    ensures r.Err? ==> r.error.FetchFailed?
    ensures r.Ok? ==>
              && Analyze(site, query, SEARCH_VERSION, r.value.captures) == Ok(r.value.progress)
              && r.value.progress.next.None? && 1 <= |r.value.captures| <= query.maxPages + 1
              && EachAskedFor(site, query, r.value.captures)
              && AllAccepted(client.net, client.policy, r.value.captures, r.value.blobs)
    ensures old(client.requests) <= client.policy.maxRequests ==> client.requests <= client.policy.maxRequests
  {
    hide PagesUpTo, Analyze, Accepts, AllAccepted, EachAskedFor, Outcome;
    var captures: seq<Record>, blobs: Blobs := [], map[];
    EmptyAnalysis(site, query, client.net, client.policy);
    while true
      invariant Analyze(site, query, SEARCH_VERSION, captures).Ok?
      invariant EachAskedFor(site, query, captures)
      invariant |captures| <= query.maxPages + 1 && AllAccepted(client.net, client.policy, captures, blobs)
      invariant old(client.requests) <= client.policy.maxRequests ==> client.requests <= client.policy.maxRequests
      decreases query.maxPages + 1 - |captures|
    {
      var analyzed := AnalyzeSearch(site, query, SEARCH_VERSION, captures);
      AnalysisIsHonest(site, query, SEARCH_VERSION, captures);
      var progress := analyzed.value;
      if progress.next.None? {
        return Ok(SearchResult(captures, blobs, progress));
      }
      NextIsPosted(site, query, captures);
      var fetched := client.Fetch(progress.next.value);
      if fetched.Err? {
        return Err(FetchFailed(fetched.error));
      }
      var capture := fetched.value.capture;
      NextCaptureFits(site, query, SEARCH_VERSION, captures, capture);
      OneMoreAccepted(client.net, client.policy, captures, blobs, fetched.value);
      AskedForNext(site, query, captures, capture);
      captures := captures + [capture];
      blobs := blobs + fetched.value.blobs;
    }
  }

  lemma EmptyAnalysis(site: Site, query: Query, net: Net, policy: Limits)
    requires query.Valid()
    ensures AllAccepted(net, policy, [], map[]) && EachAskedFor(site, query, [])
    ensures Analyze(site, query, SEARCH_VERSION, []) == Ok(Progress([], NotAttempted, [], Some(site.initial)))
  {}

  lemma NextIsPosted(site: Site, query: Query, captures: seq<Record>)
    requires query.Valid() && Posts(site)
    requires Analyze(site, query, SEARCH_VERSION, captures).Ok? && Analyze(site, query, SEARCH_VERSION, captures).value.next.Some?
    ensures Analyze(site, query, SEARCH_VERSION, captures).value.next.value.verb == POST
  {
    hide PagesUpTo;
    if captures != [] {
      ClosedHasNoNext(site, query, SEARCH_VERSION, site.readOrg(BodyOf(captures[0])).value, captures, |captures| - 1);
    }
  }
}
