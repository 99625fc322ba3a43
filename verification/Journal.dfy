/** The request journal: captures and bodies under their hashes, and for each request an
    append-only history (CaptureCache in src/ashare_quant/data/announcement_http.py). */
module Journal {
  import opened Basics
  import opened Capture

  datatype CaptureId = CaptureId(capture: Record)

  /** What the files of a cache directory hold. */
  datatype Disk = Disk(
    blobs: map<Digest, Body>,
    captures: map<CaptureId, Record>,
    histories: map<RequestId, seq<CaptureId>>)

  /** The body dictionary of a capture, in insertion order. */
  type Bodies = Dict<Digest, Body>

  datatype CacheError = CacheBodyHash | CacheCorrupt | Rejected(reason: Reason)

  // ----- single writes -----

  function BlobWritten(d: Disk, h: Digest, data: Body): Result<Disk, CacheError> {
    if Digest(data) != h then Err(CacheBodyHash)
    else if h !in d.blobs then Ok(d.(blobs := d.blobs[h := data]))
    else if Digest(d.blobs[h]) != h then Err(CacheCorrupt)
    else Ok(d)
  }

  function CaptureWritten(d: Disk, c: Record): Disk {
    if CaptureId(c) in d.captures then d else d.(captures := d.captures[CaptureId(c) := c])
  }

  function HistoryOf(d: Disk, id: RequestId): seq<CaptureId> {
    if id in d.histories then d.histories[id] else []
  }

  function PointerWritten(d: Disk, c: Record): Disk {
    var history := HistoryOf(d, c.id);
    if CaptureId(c) in history then d else d.(histories := d.histories[c.id := history + [CaptureId(c)]])
  }

  // ----- what a journal keeps -----

  ghost predicate Covers(d: Disk, c: Record) {
    forall i :: 0 <= i < |c.attempts| && c.attempts[i].body.Some? ==> c.attempts[i].body.value in d.blobs
  }

  /** A stored capture can be read back and is accepted. */
  ghost predicate Readable(net: Net, policy: Limits, d: Disk, id: RequestId, h: CaptureId) {
    && h in d.captures && d.captures[h].request == id.spec
    && Covers(d, d.captures[h]) && Accepts(net, policy, d.captures[h], d.blobs)
  }

  ghost predicate CapturedIsLast(history: seq<CaptureId>) {
    forall i :: 0 <= i < |history| && history[i].capture.status == Captured ==> i == |history| - 1
  }

  ghost predicate HashesMatch(d: Disk) {
    && (forall h :: h in d.blobs ==> Digest(d.blobs[h]) == h)
    && (forall h :: h in d.captures ==> CaptureId(d.captures[h]) == h)
  }

  ghost predicate HistoryOk(net: Net, policy: Limits, d: Disk, id: RequestId) {
    var history := HistoryOf(d, id);
    && NoDuplicates(history) && CapturedIsLast(history)
    && (forall i :: 0 <= i < |history| ==> Readable(net, policy, d, id, history[i]))
  }

  /** Every history names stored, accepted captures once each, and ends with the first success. */
  ghost predicate JournalOk(net: Net, policy: Limits, d: Disk) {
    && HashesMatch(d)
    && (forall id :: id in d.histories ==> d.histories[id] != [] && HistoryOk(net, policy, d, id))
  }

  /** A disk grows: nothing stored is lost or changed, and histories are only appended to. */
  ghost predicate Grows(before: Disk, after: Disk) {
    && (forall h :: h in before.blobs ==> h in after.blobs && after.blobs[h] == before.blobs[h])
    && (forall h :: h in before.captures ==> h in after.captures && after.captures[h] == before.captures[h])
    && (forall id :: id in before.histories ==> id in after.histories && before.histories[id] <= after.histories[id])
  }

  lemma GrowsTransitively(a: Disk, b: Disk, c: Disk)
    requires Grows(a, b) && Grows(b, c)
    ensures Grows(a, c)
  {}

  // ----- acceptance depends only on the bodies of the attempts -----

  ghost predicate AgreeOn(attempts: seq<Attempt>, small: Blobs, large: Blobs) {
    forall i :: 0 <= i < |attempts| && attempts[i].body.Some? && attempts[i].body.value in small ==>
      attempts[i].body.value in large && large[attempts[i].body.value] == small[attempts[i].body.value]
  }

  lemma {:induction false} TrackStable(net: Net, policy: Limits, spec: Spec, small: Blobs, large: Blobs, attempts: seq<Attempt>, n: nat)
    requires n <= |attempts| && AgreeOn(attempts, small, large) && Track(net, policy, spec, small, attempts, n).Ok?
    ensures Track(net, policy, spec, large, attempts, n) == Track(net, policy, spec, small, attempts, n)
  {
    hide Follow;
    if n > 0 {
      TrackStable(net, policy, spec, small, large, attempts, n - 1);
    }
  }

  lemma AcceptanceIsStable(net: Net, policy: Limits, c: Record, small: Blobs, large: Blobs)
    requires AgreeOn(c.attempts, small, large) && Accepts(net, policy, c, small)
    ensures Accepts(net, policy, c, large)
  {
    hide Follow, Track;
    TrackStable(net, policy, c.request, small, large, c.attempts, |c.attempts| - 1);
  }

  // ----- every write keeps the journal -----

  lemma ReadableStable(net: Net, policy: Limits, before: Disk, after: Disk, id: RequestId, h: CaptureId)
    requires Grows(before, after) && Readable(net, policy, before, id, h)
    ensures Readable(net, policy, after, id, h)
  {
    hide Accepts;
    AcceptanceIsStable(net, policy, before.captures[h], before.blobs, after.blobs);
  }

  lemma SameHistoriesOk(net: Net, policy: Limits, before: Disk, after: Disk)
    requires JournalOk(net, policy, before) && Grows(before, after) && HashesMatch(after)
    requires after.histories == before.histories
    ensures JournalOk(net, policy, after)
  {
    hide Readable, Grows, HashesMatch, NoDuplicates, CapturedIsLast;
    forall id | id in after.histories
      ensures HistoryOk(net, policy, after, id)
    {
      assert HistoryOk(net, policy, before, id);
      var history := HistoryOf(before, id);
      forall i | 0 <= i < |history|
        ensures Readable(net, policy, after, id, history[i])
      {
        ReadableStable(net, policy, before, after, id, history[i]);
      }
    }
  }

  /** Writing one body. */
  lemma BlobKeepsJournal(net: Net, policy: Limits, d: Disk, h: Digest, data: Body)
    requires JournalOk(net, policy, d) && Digest(data) == h
    ensures BlobWritten(d, h, data).Ok?
    ensures var after := BlobWritten(d, h, data).value;
            JournalOk(net, policy, after) && Grows(d, after) && h in after.blobs && after.captures == d.captures && after.histories == d.histories
  {
    hide HistoryOk;
    var after := BlobWritten(d, h, data).value;
    SameHistoriesOk(net, policy, d, after);
  }

  /** Writing one capture. */
  lemma CaptureKeepsJournal(net: Net, policy: Limits, d: Disk, c: Record)
    requires JournalOk(net, policy, d)
    ensures var after := CaptureWritten(d, c);
            JournalOk(net, policy, after) && Grows(d, after) && CaptureId(c) in after.captures
            && after.captures[CaptureId(c)] == c && after.blobs == d.blobs && after.histories == d.histories
  {
    hide HistoryOk;
    SameHistoriesOk(net, policy, d, CaptureWritten(d, c));
  }

  ghost predicate NoneCaptured(history: seq<CaptureId>) {
    forall i :: 0 <= i < |history| ==> history[i].capture.status != Captured
  }

  /** Appending to a history: its capture is stored and accepted, and nothing was captured yet. */
  lemma PointerKeepsJournal(net: Net, policy: Limits, d: Disk, c: Record)
    requires JournalOk(net, policy, d) && NoneCaptured(HistoryOf(d, c.id)) && c.id == RequestId(c.request)
    requires Readable(net, policy, d, c.id, CaptureId(c))
    ensures var after := PointerWritten(d, c);
            && JournalOk(net, policy, after) && Grows(d, after) && after.blobs == d.blobs && after.captures == d.captures
            && CaptureId(c) in HistoryOf(after, c.id)
            && (c.status != Captured ==> NoneCaptured(HistoryOf(after, c.id)))
            && (c.status == Captured ==> HistoryOf(after, c.id) == HistoryOf(d, c.id) + [CaptureId(c)])
  {
    hide Readable, HashesMatch;
    var history, after := HistoryOf(d, c.id), PointerWritten(d, c);
    assert c.id in d.histories ==> HistoryOk(net, policy, d, c.id);
    if CaptureId(c) !in history {
      assert Grows(d, after);
      assert HashesMatch(after) by { SameHashes(d, after); }
      forall id | id in after.histories
        ensures after.histories[id] != [] && HistoryOk(net, policy, after, id)
      {
        forall i | 0 <= i < |after.histories[id]|
          ensures Readable(net, policy, after, id, after.histories[id][i])
        {
          if id != c.id { assert HistoryOk(net, policy, d, id); }
          var h := after.histories[id][i];
          assert id == c.id && i == |history| ==> h == CaptureId(c);
          ReadableStable(net, policy, d, after, id, h);
        }
        if id != c.id { assert HistoryOk(net, policy, d, id); }
      }
    }
  }

  lemma SameHashes(d: Disk, after: Disk)
    requires HashesMatch(d) && after.blobs == d.blobs && after.captures == d.captures
    ensures HashesMatch(after)
  {}

  // ----- saving -----

  /** The first n bodies written. */
  function BodiesWritten(d: Disk, bodies: Bodies, n: nat): Result<Disk, CacheError>
    requires n <= |bodies.order|
  {
    if n == 0 then Ok(d)
    else
      var before :- BodiesWritten(d, bodies, n - 1);
      var h := bodies.order[n - 1];
      if h !in bodies.at then Err(CacheBodyHash) else BlobWritten(before, h, bodies.at[h])
  }

  /** CaptureCache.save */
  function Saved(d: Disk, c: Record, bodies: Bodies): Result<Disk, CacheError> {
    var written :- BodiesWritten(d, bodies, |bodies.order|);
    Ok(PointerWritten(CaptureWritten(written, c), c))
  }

  lemma {:induction false} BodiesFailed(d: Disk, bodies: Bodies, k: nat, n: nat, e: CacheError)
    requires k <= n <= |bodies.order| && BodiesWritten(d, bodies, k) == Err(e)
    ensures BodiesWritten(d, bodies, n) == Err(e)
  {
    if k < n {
      BodiesFailed(d, bodies, k, n - 1, e);
    }
  }

  /** Bodies under their own digests. */
  ghost predicate BodiesSound(bodies: Bodies) {
    bodies.Valid() && forall h :: h in bodies.at ==> Digest(bodies.at[h]) == h
  }

  /** The bodies of a capture in progress: exactly those of its attempts. */
  ghost predicate Collected(c: Record, bodies: Bodies) {
    BodiesSound(bodies) && bodies.at.Keys == DigestsOf(c)
  }

  /** What a fetch guarantees of every capture it saves. */
  ghost predicate Savable(net: Net, policy: Limits, d: Disk, c: Record, bodies: Bodies) {
    && Collected(c, bodies) && Accepts(net, policy, c, bodies.at)
    && c.id == RequestId(c.request) && NoneCaptured(HistoryOf(d, c.id))
  }

  /** After all bodies of a savable capture are on disk, its capture and pointer can follow. */
  lemma StoredIsReadable(net: Net, policy: Limits, d: Disk, c: Record, bodies: Bodies)
    requires JournalOk(net, policy, d) && Collected(c, bodies) && Accepts(net, policy, c, bodies.at) && c.id == RequestId(c.request)
    requires forall h :: h in bodies.at ==> h in d.blobs
    requires CaptureId(c) in d.captures && d.captures[CaptureId(c)] == c
    ensures Readable(net, policy, d, c.id, CaptureId(c))
  {
    hide Accepts, HistoryOk;
    assert forall h :: h in bodies.at ==> bodies.at[h] == h.body;
    assert forall h :: h in d.blobs ==> d.blobs[h] == h.body;
    AcceptanceIsStable(net, policy, c, bodies.at, d.blobs);
  }

  type Histories = map<RequestId, seq<CaptureId>>

  /** Histories are only appended to. */
  ghost predicate Kept(before: Histories, after: Histories) {
    forall id :: id in before ==> id in after && before[id] <= after[id]
  }

  lemma KeptTransitively(a: Histories, b: Histories, c: Histories)
    requires Kept(a, b) && Kept(b, c)
    ensures Kept(a, c)
  {}

  lemma {:induction false} BodiesKeepHistories(d: Disk, bodies: Bodies, n: nat)
    requires n <= |bodies.order|
    ensures BodiesWritten(d, bodies, n).Ok? ==>
              BodiesWritten(d, bodies, n).value.histories == d.histories && (HashesMatch(d) ==> HashesMatch(BodiesWritten(d, bodies, n).value))
    ensures HashesMatch(d) && BodiesSound(bodies) ==> BodiesWritten(d, bodies, n).Ok?
  {
    if n > 0 {
      BodiesKeepHistories(d, bodies, n - 1);
      assert bodies.order[n - 1] in bodies.order;
    }
  }

  /** A save appends to one history, whether or not its capture is acceptable, and can only fail for
      bodies that do not match their hashes. */
  lemma SavedKeeps(d: Disk, c: Record, bodies: Bodies)
    ensures Saved(d, c, bodies).Ok? ==>
              var after := Saved(d, c, bodies).value;
              && Kept(d.histories, after.histories) && CaptureId(c) in HistoryOf(after, c.id)
              && (HashesMatch(d) ==> HashesMatch(after))
    ensures HashesMatch(d) && BodiesSound(bodies) ==> Saved(d, c, bodies).Ok?
  {
    hide BodiesSound, BodiesWritten;
    BodiesKeepHistories(d, bodies, |bodies.order|);
  }

  // ----- loading -----

  datatype Stored = Stored(capture: Record, blobs: Blobs)

  function DigestsOf(c: Record): set<Digest> {
    set i | 0 <= i < |c.attempts| && c.attempts[i].body.Some? :: c.attempts[i].body.value
  }

  function LoadOne(net: Net, policy: Limits, d: Disk, spec: Spec, h: CaptureId): Result<Stored, CacheError> {
    if h !in d.captures then Err(CacheCorrupt)
    else
      var c := d.captures[h];
      if CaptureId(c) != h || c.request != spec || !(DigestsOf(c) <= d.blobs.Keys) then Err(CacheCorrupt)
      else
        var blobs := map x | x in DigestsOf(c) :: d.blobs[x];
        match Verdict(net, policy, c, blobs)
        case Some(reason) => Err(Rejected(reason))
        case None => Ok(Stored(c, blobs))
  }

  /** The last of the first n captures of a history, all of them re-validated. */
  function LoadUpTo(net: Net, policy: Limits, d: Disk, spec: Spec, n: nat): Result<Option<Stored>, CacheError>
    requires n <= |HistoryOf(d, RequestId(spec))|
  {
    if n == 0 then Ok(None)
    else
      var before :- LoadUpTo(net, policy, d, spec, n - 1);
      var latest :- LoadOne(net, policy, d, spec, HistoryOf(d, RequestId(spec))[n - 1]);
      Ok(Some(latest))
  }

  /** CaptureCache.load */
  function Loaded(net: Net, policy: Limits, d: Disk, spec: Spec): Result<Option<Stored>, CacheError> {
    if RequestId(spec) in d.histories && d.histories[RequestId(spec)] == [] then Err(CacheCorrupt)
    else LoadUpTo(net, policy, d, spec, |HistoryOf(d, RequestId(spec))|)
  }

  lemma {:induction false} LoadFailed(net: Net, policy: Limits, d: Disk, spec: Spec, k: nat, n: nat, e: CacheError)
    requires k <= n <= |HistoryOf(d, RequestId(spec))| && LoadUpTo(net, policy, d, spec, k) == Err(e)
    ensures LoadUpTo(net, policy, d, spec, n) == Err(e)
  {
    hide LoadOne;
    if k < n {
      LoadFailed(net, policy, d, spec, k, n - 1, e);
    }
  }

  lemma ReadableLoads(net: Net, policy: Limits, d: Disk, spec: Spec, h: CaptureId)
    requires HashesMatch(d) && Readable(net, policy, d, RequestId(spec), h)
    ensures LoadOne(net, policy, d, spec, h).Ok? && LoadOne(net, policy, d, spec, h).value.capture == h.capture
  {
    hide Verdict;
    var c := d.captures[h];
    assert CaptureId(c) == h;
    AcceptanceIsStable(net, policy, c, d.blobs, map x | x in DigestsOf(c) :: d.blobs[x]);
  }

  lemma {:induction false} HistoryLoads(net: Net, policy: Limits, d: Disk, spec: Spec, n: nat)
    requires HashesMatch(d) && HistoryOk(net, policy, d, RequestId(spec)) && n <= |HistoryOf(d, RequestId(spec))|
    ensures LoadUpTo(net, policy, d, spec, n).Ok?
    ensures n > 0 ==> LoadUpTo(net, policy, d, spec, n).value.Some?
                      && LoadUpTo(net, policy, d, spec, n).value.value.capture == HistoryOf(d, RequestId(spec))[n - 1].capture
  {
    hide LoadOne, Readable, HashesMatch;
    if n > 0 {
      HistoryLoads(net, policy, d, spec, n - 1);
      ReadableLoads(net, policy, d, spec, HistoryOf(d, RequestId(spec))[n - 1]);
    }
  }

  /** Loading never fails on a journal, and finds the capture whose first save came last. */
  lemma LoadFindsLast(net: Net, policy: Limits, d: Disk, spec: Spec)
    requires JournalOk(net, policy, d)
    ensures var history := HistoryOf(d, RequestId(spec));
            && Loaded(net, policy, d, spec).Ok?
            && (Loaded(net, policy, d, spec).value.None? <==> history == [])
            && (history != [] ==> Loaded(net, policy, d, spec).value.value.capture == history[|history| - 1].capture)
  {
    hide HistoryOk, HashesMatch, LoadOne;
    var history := HistoryOf(d, RequestId(spec));
    if RequestId(spec) in d.histories {
      HistoryLoads(net, policy, d, spec, |history|);
    }
  }

  lemma CollectedBodies(c: Record, bodies: Bodies, k: nat)
    requires k < |bodies.order|
    ensures Collected(c, bodies) ==> bodies.order[k] in bodies.at && Digest(bodies.at[bodies.order[k]]) == bodies.order[k]
  {
    assert bodies.order[k] in bodies.order;
  }

  lemma BlobGrows(d: Disk, h: Digest, data: Body)
    requires BlobWritten(d, h, data).Ok?
    ensures var after := BlobWritten(d, h, data).value;
            after.histories == d.histories && forall x :: x in d.blobs ==> x in after.blobs
  {}

  lemma BodiesOnDisk(c: Record, bodies: Bodies, d: Disk)
    requires Collected(c, bodies) && forall j :: 0 <= j < |bodies.order| ==> bodies.order[j] in d.blobs
    ensures forall h :: h in bodies.at ==> h in d.blobs
  {
    assert forall h :: h in bodies.at ==> h in bodies.order;
  }

  // ----- the cache -----

  /** The cache of one directory. The trail holds every state its files have been in, one file
      write apart; an interruption leaves the files in one of them. */
  class CaptureCache {
    const net: Net
    const policy: Limits
    var disk: Disk
    ghost var trail: seq<Disk>

    /** The files could be read back after an interruption at any time, and have only grown. */
    ghost predicate Valid()
      reads this
    {
      && trail != [] && trail[|trail| - 1] == disk
      && (forall i :: 0 <= i < |trail| ==> JournalOk(net, policy, trail[i]))
      && (forall i, j :: 0 <= i < j < |trail| ==> Grows(trail[i], trail[j]))
    }

    constructor (net: Net, policy: Limits, disk: Disk)
      ensures this.net == net && this.policy == policy && this.disk == disk && trail == [disk]
      ensures JournalOk(net, policy, disk) ==> Valid()
    {
      this.net, this.policy, this.disk, trail := net, policy, disk, [disk];
    }

    /** One file write. */
    method Write(after: Disk)
      modifies this
      ensures disk == after && trail == old(trail) + [after]
      ensures old(Valid()) && JournalOk(net, policy, after) && Grows(old(disk), after) ==> Valid()
    {
      hide JournalOk, Grows;
      forall i | 0 <= i < |trail| && Valid() && Grows(disk, after)
        ensures Grows(trail[i], after)
      {
        if i < |trail| - 1 {
          GrowsTransitively(trail[i], disk, after);
        }
      }
      disk := after;
      trail := trail + [after];
    }

    /** The bodies of a capture, each under its hash. */
    method WriteBodies(c: Record, bodies: Bodies) returns (error: Option<CacheError>)
      modifies this
      ensures BodiesWritten(old(disk), bodies, |bodies.order|) == if error.None? then Ok(disk) else Err(error.value)
      ensures disk.histories == old(disk.histories)
      ensures old(Valid()) && Collected(c, bodies) ==>
                error.None? && Valid() && old(trail) <= trail && forall h :: h in bodies.at ==> h in disk.blobs
    {
      hide JournalOk, Grows, Collected;
      ghost var good, before := Valid() && Collected(c, bodies), trail;
      ghost var histories := disk.histories;
      for k := 0 to |bodies.order|
        invariant BodiesWritten(old(disk), bodies, k) == Ok(disk) && disk.histories == histories
        invariant good ==> Valid() && before <= trail
        invariant good ==> forall j :: 0 <= j < k ==> bodies.order[j] in disk.blobs
      {
        var h := bodies.order[k];
        CollectedBodies(c, bodies, k);
        if good {
          BlobKeepsJournal(net, policy, disk, h, bodies.at[h]);
          BlobGrows(disk, h, bodies.at[h]);
        }
        var after := if h in bodies.at then BlobWritten(disk, h, bodies.at[h]) else Err(CacheBodyHash);
        if after.Err? {
          BodiesFailed(old(disk), bodies, k + 1, |bodies.order|, after.error);
          return Some(after.error);
        }
        Write(after.value);
      }
      if good {
        BodiesOnDisk(c, bodies, disk);
      }
      return None;
    }

    /** save: the bodies, then the capture, then the pointer to it. */
    method Save(c: Record, bodies: Bodies) returns (error: Option<CacheError>)
      modifies this
      ensures Saved(old(disk), c, bodies) == if error.None? then Ok(disk) else Err(error.value)
      ensures error.Some? ==> disk.histories == old(disk.histories)
      ensures old(Valid()) && old(Savable(net, policy, disk, c, bodies)) ==>
                && error.None? && Valid() && old(trail) <= trail
                && CaptureId(c) in HistoryOf(disk, c.id)
                && (c.status != Captured ==> NoneCaptured(HistoryOf(disk, c.id)))
                && (c.status == Captured ==> HistoryOf(disk, c.id) == old(HistoryOf(disk, c.id)) + [CaptureId(c)])
    {
      hide JournalOk, Grows, Collected, Accepts, Readable, BodiesWritten, NoneCaptured;
      ghost var good := Valid() && Savable(net, policy, disk, c, bodies);
      error := WriteBodies(c, bodies);
      if error.Some? {
        return;
      }
      if good {
        CaptureKeepsJournal(net, policy, disk, c);
      }
      Write(CaptureWritten(disk, c));
      if good {
        StoredIsReadable(net, policy, disk, c, bodies);
        PointerKeepsJournal(net, policy, disk, c);
      }
      Write(PointerWritten(disk, c));
    }

    /** load: every capture of the history is read back and re-validated. */
    method Load(spec: Spec) returns (r: Result<Option<Stored>, CacheError>)
      ensures r == Loaded(net, policy, disk, spec)
    {
      hide LoadOne;
      var history := HistoryOf(disk, RequestId(spec));
      if RequestId(spec) in disk.histories && history == [] {
        return Err(CacheCorrupt);
      }
      var latest: Option<Stored> := None;
      for k := 0 to |history|
        invariant LoadUpTo(net, policy, disk, spec, k) == Ok(latest)
      {
        var stored := LoadOne(net, policy, disk, spec, history[k]);
        if stored.Err? {
          LoadFailed(net, policy, disk, spec, k + 1, |history|, stored.error);
          return Err(stored.error);
        }
        latest := Some(stored.value);
      }
      return Ok(latest);
    }
  }

  /** An interruption at any moment leaves a journal that loads, and what was captured by then is
      what every later state still loads for the request. */
  lemma InterruptionIsSafe(cache: CaptureCache, i: nat, spec: Spec)
    requires cache.Valid() && i < |cache.trail|
    ensures Loaded(cache.net, cache.policy, cache.trail[i], spec).Ok?
    ensures Grows(cache.trail[i], cache.disk)
    ensures var past, now := HistoryOf(cache.trail[i], RequestId(spec)), HistoryOf(cache.disk, RequestId(spec));
            past != [] && past[|past| - 1].capture.status == Captured ==> now == past
  {
    hide Loaded, Readable;
    var d := cache.trail[i];
    LoadFindsLast(cache.net, cache.policy, d, spec);
    assert Grows(d, cache.disk) by { hide JournalOk; GrowsToItself(d); }
    assert JournalOk(cache.net, cache.policy, cache.disk);
    if RequestId(spec) in d.histories {
      assert HistoryOk(cache.net, cache.policy, cache.disk, RequestId(spec));
      var past, now := HistoryOf(d, RequestId(spec)), HistoryOf(cache.disk, RequestId(spec));
      assert past <= now && past[|past| - 1] == now[|past| - 1];
    }
  }

  lemma GrowsToItself(d: Disk)
    ensures Grows(d, d)
  {}
}
