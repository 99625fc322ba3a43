/** From a complete discovery to its documents: the capture list that acquire builds and the shape
    that derive accepts on every later reading (src/ashare_quant/data/announcement_sources.py). */
module Acquisition {
  import opened Basics
  import opened Capture
  import opened Journal
  import opened Fetch
  import opened Discovery

  const SELECTION_LIMIT: nat := 30

  /** The published acquisition of one query: discovery captures first, then documents. */
  datatype Source = Source(captures: seq<Record>, searchCount: nat, downloads: seq<AnnouncementId>)

  datatype SourceFault =
    | SearchCaptureCount
    | ResponseBlobSet
    | CaptureInvalid(reason: Reason)
    | Undiscovered(structural: Structural)
    | DocumentSelection
    | DiscoveryIncomplete
    | DocumentRequestSet
    | UnattemptedDocumentReason
    | DocumentRequestIdentity

  // ----- what derive accepts -----

  predicate Stops(status: Status) {
    status in {PermissionRequired, RateLimited, ServerRejected}
  }

  function InvalidUpTo(net: Net, policy: Limits, captures: seq<Record>, blobs: Blobs, n: nat): Option<Reason>
    requires n <= |captures|
  {
    if n == 0 then None
    else
      var before := InvalidUpTo(net, policy, captures, blobs, n - 1);
      if before.Some? then before else Verdict(net, policy, captures[n - 1], blobs)
  }

  function ById(records: seq<Found>): map<AnnouncementId, Found> {
    if records == [] then map[] else ById(records[..|records| - 1])[records[|records| - 1].id := records[|records| - 1]]
  }

  predicate Requested(site: Site, byId: map<AnnouncementId, Found>, s: Source, k: nat)
    requires k < |s.downloads|
  {
    s.searchCount + k >= |s.captures|
    || (s.downloads[k] in byId && s.captures[s.searchCount + k].request == site.document(byId[s.downloads[k]]))
  }

  function DocumentFault(site: Site, s: Source, p: Progress): Option<SourceFault>
    requires s.searchCount <= |s.captures|
  {
    var byId := ById(p.records);
    if !StrictlyIncreasing(s.downloads) || |s.downloads| > SELECTION_LIMIT then Some(DocumentSelection)
    else if s.downloads != [] && p.status != Complete then Some(DiscoveryIncomplete)
    else if (exists k | 0 <= k < |s.downloads| :: s.downloads[k] !in byId) || |s.captures| > s.searchCount + |s.downloads| then
      Some(DocumentRequestSet)
    else if |s.captures| < s.searchCount + |s.downloads|
            && (|s.captures| == s.searchCount || !Stops(s.captures[|s.captures| - 1].status)) then
      Some(UnattemptedDocumentReason)
    else if exists k | 0 <= k < |s.downloads| :: !Requested(site, byId, s, k) then Some(DocumentRequestIdentity)
    else None
  }

  /** derive: None accepts the source. */
  function Derive(net: Net, policy: Limits, site: Site, query: Query, version: nat, s: Source, blobs: Blobs): Option<SourceFault>
    requires query.Valid()
  {
    if !(1 <= s.searchCount <= |s.captures|) then Some(SearchCaptureCount)
    else if blobs.Keys != Referenced(s.captures) then Some(ResponseBlobSet)
    else
      match InvalidUpTo(net, policy, s.captures, blobs, |s.captures|)
      case Some(reason) => Some(CaptureInvalid(reason))
      case None =>
        match Analyze(site, query, version, s.captures[..s.searchCount])
        case Err(structural) => Some(Undiscovered(structural))
        case Ok(progress) => DocumentFault(site, s, progress)
  }

  lemma {:induction false} AllAcceptedIsValid(net: Net, policy: Limits, captures: seq<Record>, blobs: Blobs, n: nat)
    requires n <= |captures| && AllAccepted(net, policy, captures, blobs)
    ensures InvalidUpTo(net, policy, captures, blobs, n).None?
  {
    hide Verdict, Referenced;
    if n > 0 {
      AllAcceptedIsValid(net, policy, captures, blobs, n - 1);
      assert Accepts(net, policy, captures[n - 1], blobs);
    }
  }

  /** Whatever a search returns can be published: it is accepted again on every later reading. */
  lemma DiscoveryIsDerivable(net: Net, policy: Limits, site: Site, query: Query, r: SearchResult)
    requires query.Valid() && r.captures != [] && AllAccepted(net, policy, r.captures, r.blobs)
    requires Analyze(site, query, SEARCH_VERSION, r.captures) == Ok(r.progress)
    ensures Derive(net, policy, site, query, SEARCH_VERSION, Source(r.captures, |r.captures|, []), r.blobs).None?
  {
    hide Analyze, AllAccepted, Referenced;
    AllAcceptedIsValid(net, policy, r.captures, r.blobs, |r.captures|);
    BlobsAreReferenced(net, policy, r.captures, r.blobs);
    assert r.captures[..|r.captures|] == r.captures;
  }

  lemma BlobsAreReferenced(net: Net, policy: Limits, captures: seq<Record>, blobs: Blobs)
    requires AllAccepted(net, policy, captures, blobs)
    ensures blobs.Keys == Referenced(captures)
  {}

  // ----- which acquisitions are accepted -----

  /** Some attempt of the captures carries the body. */
  ghost predicate Mentioned(captures: seq<Record>, digest: Digest) {
    exists c, a :: c in captures && a in c.attempts && a.body == Some(digest)
  }

  /** The kth selected id is one of the records found, and its document was asked for if it is among the
      first m. */
  ghost predicate Selected(site: Site, s: Source, p: Progress, m: int, k: nat)
    requires k < |s.downloads| && m <= |s.captures| - s.searchCount
  {
    exists r :: r in p.records && r.id == s.downloads[k] && (k < m ==> s.captures[s.searchCount + k].request == site.document(r))
  }

  ghost predicate AllSelected(site: Site, s: Source, p: Progress, m: int)
    requires m <= |s.captures| - s.searchCount
  {
    forall k :: 0 <= k < |s.downloads| ==> Selected(site, s, p, m, k)
  }

  /** The documents: some of the records of a complete discovery in ascending order, all of them asked for
      or cut short by a refusal. */
  ghost predicate DocumentsFit(site: Site, s: Source, p: Progress)
    requires s.searchCount <= |s.captures|
  {
    var m := |s.captures| - s.searchCount;
    && StrictlyIncreasing(s.downloads) && |s.downloads| <= 30 && (s.downloads != [] ==> p.status == Complete)
    && m <= |s.downloads| && AllSelected(site, s, p, m)
    && (m < |s.downloads| ==> m > 0 && s.captures[|s.captures| - 1].status in {PermissionRequired, RateLimited, ServerRejected})
  }

  /** What a published acquisition has to be. */
  ghost predicate Publishable(net: Net, policy: Limits, site: Site, query: Query, version: nat, s: Source, blobs: Blobs)
    requires query.Valid()
  {
    && 1 <= s.searchCount <= |s.captures|
    && (forall digest :: digest in blobs <==> Mentioned(s.captures, digest))
    && (forall c :: c in s.captures ==> Accepts(net, policy, c, blobs))
    && var progress := Analyze(site, query, version, s.captures[..s.searchCount]);
       progress.Ok? && DocumentsFit(site, s, progress.value)
  }

  lemma {:induction false} InvalidIff(net: Net, policy: Limits, captures: seq<Record>, blobs: Blobs, n: nat)
    requires n <= |captures|
    ensures InvalidUpTo(net, policy, captures, blobs, n).None? <==> forall k :: 0 <= k < n ==> Accepts(net, policy, captures[k], blobs)
  {
    hide Verdict;
    if n > 0 {
      InvalidIff(net, policy, captures, blobs, n - 1);
    }
  }

  lemma {:induction false} ByIdIs(records: seq<Found>, x: AnnouncementId)
    ensures x in ById(records) <==> exists r :: r in records && r.id == x
    ensures x in ById(records) ==> ById(records)[x] in records && ById(records)[x].id == x
  {
    if records != [] {
      ByIdIs(records[..|records| - 1], x);
    }
  }

  lemma OnlyRecord(records: seq<Found>, a: Found, b: Found)
    requires NoDuplicates(Ids(records)) && a in records && b in records && a.id == b.id
    ensures a == b
  {
    var j :| 0 <= j < |records| && records[j] == a;
    var k :| 0 <= k < |records| && records[k] == b;
    assert Ids(records)[j] == Ids(records)[k];
  }

  lemma CompleteIsDistinct(site: Site, query: Query, version: nat, captures: seq<Record>)
    requires query.Valid() && Analyze(site, query, version, captures).Ok?
    requires Analyze(site, query, version, captures).value.status == Complete
    ensures NoDuplicates(Ids(Analyze(site, query, version, captures).value.records))
  {
    hide Analyze, NoDuplicates, Ids;
    AnalysisIsHonest(site, query, version, captures);
  }

  lemma RequestedIff(site: Site, s: Source, p: Progress, k: nat)
    requires k < |s.downloads| && s.searchCount <= |s.captures| && NoDuplicates(Ids(p.records))
    ensures s.downloads[k] in ById(p.records) && Requested(site, ById(p.records), s, k) <==>
            Selected(site, s, p, |s.captures| - s.searchCount, k)
  {
    hide NoDuplicates, Ids;
    var x := s.downloads[k];
    ByIdIs(p.records, x);
    forall r | r in p.records && r.id == x
      ensures r == ById(p.records)[x]
    {
      OnlyRecord(p.records, r, ById(p.records)[x]);
    }
  }

  lemma DocumentsIff(site: Site, s: Source, p: Progress)
    requires s.searchCount <= |s.captures| && (p.status == Complete ==> NoDuplicates(Ids(p.records)))
    ensures DocumentFault(site, s, p).None? <==> DocumentsFit(site, s, p)
  {
    hide NoDuplicates, Ids, StrictlyIncreasing, Requested, Selected, ById;
    var m := |s.captures| - s.searchCount;
    if DocumentFault(site, s, p).None? {
      forall k | 0 <= k < |s.downloads|
        ensures Selected(site, s, p, m, k)
      {
        RequestedIff(site, s, p, k);
      }
      assert AllSelected(site, s, p, m);
    }
    if DocumentsFit(site, s, p) {
      assert AllSelected(site, s, p, m);
      forall k | 0 <= k < |s.downloads|
        ensures s.downloads[k] in ById(p.records) && Requested(site, ById(p.records), s, k)
      {
        assert Selected(site, s, p, m, k);
        RequestedIff(site, s, p, k);
      }
    }
  }

  lemma ReferencedIff(captures: seq<Record>, digest: Digest)
    ensures digest in Referenced(captures) <==> Mentioned(captures, digest)
  {
    if c, a :| c in captures && a in c.attempts && a.body == Some(digest) {
      var i :| 0 <= i < |captures| && captures[i] == c;
      var j :| 0 <= j < |c.attempts| && c.attempts[j] == a;
      assert digest in DigestsOf(captures[i]);
    }
  }

  /** derive accepts exactly what is publishable. */
  lemma DeriveIff(net: Net, policy: Limits, site: Site, query: Query, version: nat, s: Source, blobs: Blobs)
    requires query.Valid()
    ensures Derive(net, policy, site, query, version, s, blobs).None? <==> Publishable(net, policy, site, query, version, s, blobs)
  {
    hide Analyze, Accepts, Verdict, Referenced, Mentioned, DocumentFault, DocumentsFit;
    forall digest
      ensures digest in Referenced(s.captures) <==> Mentioned(s.captures, digest)
    {
      ReferencedIff(s.captures, digest);
    }
    InvalidIff(net, policy, s.captures, blobs, |s.captures|);
    if 1 <= s.searchCount <= |s.captures| {
      var progress := Analyze(site, query, version, s.captures[..s.searchCount]);
      if progress.Ok? {
        if progress.value.status == Complete {
          CompleteIsDistinct(site, query, version, s.captures[..s.searchCount]);
        }
        DocumentsIff(site, s, progress.value);
      }
    }
  }

  // ----- sorting the selection -----

  function InsertId(ids: seq<AnnouncementId>, x: AnnouncementId): seq<AnnouncementId> {
    if ids == [] then [x]
    else if ids[|ids| - 1] <= x then ids + [x]
    else InsertId(ids[..|ids| - 1], x) + [ids[|ids| - 1]]
  }

  /** sorted(ids) */
  function SortIds(ids: seq<AnnouncementId>): seq<AnnouncementId> {
    if ids == [] then [] else InsertId(SortIds(ids[..|ids| - 1]), ids[|ids| - 1])
  }

  lemma {:induction false} InsertAscends(ids: seq<AnnouncementId>, x: AnnouncementId)
    requires StrictlyIncreasing(ids) && x !in ids
    ensures StrictlyIncreasing(InsertId(ids, x)) && |InsertId(ids, x)| == |ids| + 1
    ensures forall y :: y in InsertId(ids, x) <==> y in ids || y == x
  {
    hide StrictlyIncreasing;
    AscendingSnoc([], x);
    if ids != [] {
      var front, last := ids[..|ids| - 1], ids[|ids| - 1];
      assert ids == front + [last];
      AscendingSnoc(front, last);
      AscendingSnoc(ids, x);
      InsertAscends(front, x);
      AscendingSnoc(InsertId(front, x), last);
    } else {
      assert [] + [x] == [x];
      OneAscends(x);
    }
  }

  lemma OneAscends(x: int)
    ensures StrictlyIncreasing([x])
  {}

  /** Sorting distinct ids makes them strictly ascending and keeps them all. */
  lemma {:induction false} SortAscends(ids: seq<AnnouncementId>)
    requires NoDuplicates(ids)
    ensures StrictlyIncreasing(SortIds(ids)) && |SortIds(ids)| == |ids|
    ensures forall y :: y in SortIds(ids) <==> y in ids
  {
    if ids != [] {
      var front, last := ids[..|ids| - 1], ids[|ids| - 1];
      assert ids == front + [last];
      assert last !in front;
      SortAscends(front);
      InsertAscends(SortIds(front), last);
    }
  }

  // ----- acquire -----

  datatype AcquireError = Incomplete | SelectionInvalid | SelectionUnknown | DocumentFailed(error: FetchError)

  datatype Acquired = Acquired(source: Source, blobs: Blobs)

  /** The documents fetched so far, in the order of the selection. */
  ghost predicate Downloaded(site: Site, byId: map<AnnouncementId, Found>, start: seq<Record>, captures: seq<Record>, ids: seq<AnnouncementId>, k: nat) {
    && k <= |ids| && |captures| == |start| + k && captures[..|start|] == start
    && forall j :: 0 <= j < k ==> ids[j] in byId && captures[|start| + j].request == site.document(byId[ids[j]])
  }

  lemma DownloadOneMore(site: Site, byId: map<AnnouncementId, Found>, start: seq<Record>, captures: seq<Record>, ids: seq<AnnouncementId>, k: nat, c: Record)
    requires Downloaded(site, byId, start, captures, ids, k) && k < |ids| && ids[k] in byId
    requires c.request == site.document(byId[ids[k]])
    ensures Downloaded(site, byId, start, captures + [c], ids, k + 1)
  {
    assert (captures + [c])[..|start|] == captures[..|start|];
  }

  /** The list of captures that acquire stops with satisfies derive. */
  lemma AcquiredIsDerivable(net: Net, policy: Limits, site: Site, query: Query, p: Progress, start: seq<Record>,
      captures: seq<Record>, blobs: Blobs, ids: seq<AnnouncementId>, k: nat)
    requires query.Valid() && start != [] && Analyze(site, query, SEARCH_VERSION, start) == Ok(p) && p.status == Complete
    requires AllAccepted(net, policy, captures, blobs) && Downloaded(site, ById(p.records), start, captures, ids, k)
    requires StrictlyIncreasing(ids) && |ids| <= SELECTION_LIMIT && (forall i :: 0 <= i < |ids| ==> ids[i] in ById(p.records))
    requires k == |ids| || (k > 0 && Stops(captures[|captures| - 1].status))
    ensures Derive(net, policy, site, query, SEARCH_VERSION, Source(captures, |start|, ids), blobs).None?
  {
    hide Analyze, AllAccepted, Referenced, StrictlyIncreasing, ById;
    AllAcceptedIsValid(net, policy, captures, blobs, |captures|);
    BlobsAreReferenced(net, policy, captures, blobs);
    AllRequested(site, ById(p.records), start, captures, ids, k);
  }

  lemma AllRequested(site: Site, byId: map<AnnouncementId, Found>, start: seq<Record>, captures: seq<Record>, ids: seq<AnnouncementId>, k: nat)
    requires Downloaded(site, byId, start, captures, ids, k) && forall i :: 0 <= i < |ids| ==> ids[i] in byId
    ensures var s := Source(captures, |start|, ids); forall j :: 0 <= j < |ids| ==> Requested(site, byId, s, j)
  {
    forall j | 0 <= j < |ids|
      ensures Requested(site, byId, Source(captures, |start|, ids), j)
    {
      assert j < k ==> captures[|start| + j].request == site.document(byId[ids[j]]);
    }
  }

  /** One document. */
  method Download(client: SafeHTTPClient, document: Spec) returns (r: Result<Stored, FetchError>)
    requires client.Configured() && document.verb == GET && document.form == map[]
    modifies client`requests, client.cache
    ensures r.Ok? ==>
              Accepts(client.net, client.policy, r.value.capture, r.value.blobs) && r.value.capture.request == document && Exact(r.value)
  {
    r := client.Fetch(document);
  }

  /** None of the captures in the range was refused. */
  ghost predicate Unrefused(captures: seq<Record>, from: nat, to: int)
    requires to <= |captures|
  {
    forall k :: from <= k < to ==> captures[k].status !in {PermissionRequired, RateLimited, ServerRejected}
  }

  ghost predicate Selectable(ids: seq<AnnouncementId>) {
    1 <= |ids| && |ids| <= 30 && NoDuplicates(ids)
  }

  /** The search found an announcement with the id. */
  ghost predicate WasFound(p: Progress, x: AnnouncementId) {
    exists r :: r in p.records && r.id == x
  }

  /** acquire: the selected documents in ascending order, stopping at the first refusal. What it
      publishes is accepted by derive, and extends the discovery it started from. */
  method Acquire(client: SafeHTTPClient, site: Site, query: Query, discovery: SearchResult, ids: seq<AnnouncementId>)
    returns (r: Result<Acquired, AcquireError>)
    requires query.Valid() && client.Configured()
    requires forall f: Found :: site.document(f).verb == GET && site.document(f).form == map[]
    requires discovery.captures != [] && AllAccepted(client.net, client.policy, discovery.captures, discovery.blobs)
    requires Analyze(site, query, SEARCH_VERSION, discovery.captures) == Ok(discovery.progress)
    modifies client`requests, client.cache
    ensures r.Ok? ==>
              && Derive(client.net, client.policy, site, query, SEARCH_VERSION, r.value.source, r.value.blobs).None?
              && discovery.captures <= r.value.source.captures && r.value.source.searchCount == |discovery.captures|
              && r.value.source.downloads == SortIds(ids)
              && |discovery.captures| < |r.value.source.captures| <= |discovery.captures| + |ids|
              && Unrefused(r.value.source.captures, |discovery.captures|, |r.value.source.captures| - 1)
    ensures r == Err(Incomplete) <==> discovery.progress.status != Complete
    ensures r == Err(SelectionInvalid) <==> discovery.progress.status == Complete && !Selectable(ids)
    ensures r == Err(SelectionUnknown) <==>
              discovery.progress.status == Complete && Selectable(ids) && exists x :: x in ids && !WasFound(discovery.progress, x)
  {
    hide Analyze, AllAccepted, Accepts, Derive, ById, SortIds, Downloaded, Exact;
    var progress := discovery.progress;
    if progress.status != Complete {
      return Err(Incomplete);
    }
    if ids == [] || |ids| > SELECTION_LIMIT || !NoDuplicates(ids) {
      return Err(SelectionInvalid);
    }
    var byId := ById(progress.records);
    forall x
      ensures x in byId <==> WasFound(progress, x)
    {
      ByIdIs(progress.records, x);
    }
    if exists i | 0 <= i < |ids| :: ids[i] !in byId {
      return Err(SelectionUnknown);
    }
    SortAscends(ids);
    var selected := SortIds(ids);
    assert forall i :: 0 <= i < |selected| ==> selected[i] in ids;
    assert forall i :: 0 <= i < |selected| ==> selected[i] in byId;
    var captures, blobs, k := discovery.captures, discovery.blobs, 0;
    NothingDownloaded(site, byId, captures, selected);
    while k < |selected|
      invariant k <= |selected| && Downloaded(site, byId, discovery.captures, captures, selected, k)
      invariant AllAccepted(client.net, client.policy, captures, blobs)
      invariant Unrefused(captures, |discovery.captures|, |captures|)
    {
      var fetched := Download(client, site.document(byId[selected[k]]));
      if fetched.Err? {
        return Err(DocumentFailed(fetched.error));
      }
      var capture := fetched.value.capture;
      OneMoreAccepted(client.net, client.policy, captures, blobs, fetched.value);
      DownloadOneMore(site, byId, discovery.captures, captures, selected, k, capture);
      captures, blobs, k := captures + [capture], blobs + fetched.value.blobs, k + 1;
      if Stops(capture.status) {
        break;
      }
    }
    DownloadedExtends(site, byId, discovery.captures, captures, selected, k);
    AcquiredIsDerivable(client.net, client.policy, site, query, progress, discovery.captures, captures, blobs, selected, k);
    return Ok(Acquired(Source(captures, |discovery.captures|, selected), blobs));
  }

  lemma NothingDownloaded(site: Site, byId: map<AnnouncementId, Found>, start: seq<Record>, ids: seq<AnnouncementId>)
    ensures Downloaded(site, byId, start, start, ids, 0)
  {}

  lemma DownloadedExtends(site: Site, byId: map<AnnouncementId, Found>, start: seq<Record>, captures: seq<Record>, ids: seq<AnnouncementId>, k: nat)
    requires Downloaded(site, byId, start, captures, ids, k)
    ensures start <= captures && |captures| == |start| + k
  {}
}
