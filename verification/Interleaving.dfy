/** Saves of several clients in one cache directory, their file operations interleaved in any order
    (CaptureCache.save in src/ashare_quant/data/announcement_http.py). */
module Interleaving {
  import opened Basics
  import opened Capture
  import opened Journal

  /** A body that does not match its hash, or one that another save created in the meantime. */
  datatype StopReason = Refused(error: CacheError) | BodyExists

  /** Where a save stands: a body to look for, found missing and to be created, capture to be stored,
      history to be read, history read and pointer to be written. */
  datatype Stage =
    | Writing(n: nat)
    | Creating(n: nat)
    | Storing
    | Looking
    | Appending(seen: seq<CaptureId>)
    | Finished
    | Stopped(reason: StopReason)

  /** One save under way. */
  datatype Saver = Saver(c: Record, bodies: Bodies, stage: Stage)

  datatype World = World(disk: Disk, savers: seq<Saver>)

  /** What writing the next body of a save comes to. */
  function NextBody(d: Disk, s: Saver, n: nat): Result<Disk, CacheError>
    requires n < |s.bodies.order|
  {
    var h := s.bodies.order[n];
    if h !in s.bodies.at then Err(CacheBodyHash) else BlobWritten(d, h, s.bodies.at[h])
  }

  function DiskAfter(d: Disk, s: Saver): Disk {
    match s.stage
    case Creating(n) => if n < |s.bodies.order| && NextBody(d, s, n).Ok? then NextBody(d, s, n).value else d
    case Storing => CaptureWritten(d, s.c)
    case Appending(seen) => if CaptureId(s.c) in seen then d else d.(histories := d.histories[s.c.id := seen + [CaptureId(s.c)]])
    case _ => d
  }

  function StageAfter(d: Disk, s: Saver): Stage {
    match s.stage
    case Writing(n) =>
      if n >= |s.bodies.order| then Storing
      else if NextBody(d, s, n).Err? then Stopped(Refused(NextBody(d, s, n).error))
      else if s.bodies.order[n] in d.blobs then Writing(n + 1)
      else Creating(n)
    case Creating(n) => if n < |s.bodies.order| && s.bodies.order[n] !in d.blobs then Writing(n + 1) else Stopped(BodyExists)
    case Storing => Looking
    case Looking => Appending(HistoryOf(d, s.c.id))
    case Appending(_) => Finished
    case _ => s.stage
  }

  /** One file operation of one save. */
  function Step(w: World, i: nat): World
    requires i < |w.savers|
  {
    var s := w.savers[i];
    World(DiskAfter(w.disk, s), w.savers[i := s.(stage := StageAfter(w.disk, s))])
  }

  predicate Within(w: World, schedule: seq<nat>) {
    forall k :: 0 <= k < |schedule| ==> schedule[k] < |w.savers|
  }

  /** The operations of a schedule, in its order. */
  function Run(w: World, schedule: seq<nat>): (after: World)
    requires Within(w, schedule)
    ensures |after.savers| == |w.savers|
    ensures forall i :: 0 <= i < |w.savers| ==> after.savers[i].c == w.savers[i].c && after.savers[i].bodies == w.savers[i].bodies
  {
    if schedule == [] then w else Step(Run(w, schedule[..|schedule| - 1]), schedule[|schedule| - 1])
  }

  // ----- what no interleaving can break -----

  /** Files are never changed once written. */
  ghost predicate FilesGrow(before: Disk, after: Disk) {
    && (forall h :: h in before.blobs ==> h in after.blobs && after.blobs[h] == before.blobs[h])
    && (forall h :: h in before.captures ==> h in after.captures && after.captures[h] == before.captures[h])
  }

  ghost predicate AllReadable(net: Net, policy: Limits, d: Disk, id: RequestId, history: seq<CaptureId>) {
    forall i :: 0 <= i < |history| ==> Readable(net, policy, d, id, history[i])
  }

  /** Every history names stored, accepted captures, once each. */
  ghost predicate Loadable(net: Net, policy: Limits, d: Disk) {
    && HashesMatch(d)
    && (forall id :: id in d.histories ==>
          d.histories[id] != [] && NoDuplicates(d.histories[id]) && AllReadable(net, policy, d, id, d.histories[id]))
  }

  /** What a fetch hands to a save. */
  ghost predicate Sound(net: Net, policy: Limits, c: Record, bodies: Bodies) {
    Collected(c, bodies) && Accepts(net, policy, c, bodies.at) && c.id == RequestId(c.request)
  }

  ghost predicate OnDisk(d: Disk, bodies: Bodies, n: nat) {
    n <= |bodies.order| && forall j :: 0 <= j < n ==> bodies.order[j] in d.blobs
  }

  /** What a save has achieved so far. */
  ghost predicate Underway(net: Net, policy: Limits, d: Disk, s: Saver) {
    && Sound(net, policy, s.c, s.bodies)
    && match s.stage
       case Writing(n) => OnDisk(d, s.bodies, n)
       case Creating(n) => OnDisk(d, s.bodies, n) && n < |s.bodies.order|
       case Storing => OnDisk(d, s.bodies, |s.bodies.order|)
       case Looking => Readable(net, policy, d, s.c.id, CaptureId(s.c))
       case Appending(seen) =>
         Readable(net, policy, d, s.c.id, CaptureId(s.c)) && NoDuplicates(seen) && AllReadable(net, policy, d, s.c.id, seen)
       case Finished => true
       case Stopped(reason) => reason == BodyExists
  }

  ghost predicate WorldOk(net: Net, policy: Limits, w: World) {
    Loadable(net, policy, w.disk) && forall i :: 0 <= i < |w.savers| ==> Underway(net, policy, w.disk, w.savers[i])
  }

  lemma ReadableStays(net: Net, policy: Limits, before: Disk, after: Disk, id: RequestId, h: CaptureId)
    requires FilesGrow(before, after) && Readable(net, policy, before, id, h)
    ensures Readable(net, policy, after, id, h)
  {
    hide Accepts;
    ReadableStable(net, policy, before, after.(histories := before.histories), id, h);
  }

  lemma AllStay(net: Net, policy: Limits, before: Disk, after: Disk, id: RequestId, history: seq<CaptureId>)
    requires FilesGrow(before, after) && AllReadable(net, policy, before, id, history)
    ensures AllReadable(net, policy, after, id, history)
  {
    hide Readable, FilesGrow;
    forall i | 0 <= i < |history|
      ensures Readable(net, policy, after, id, history[i])
    {
      ReadableStays(net, policy, before, after, id, history[i]);
    }
  }

  /** A save is not disturbed by the files of another one. */
  lemma UnderwayStays(net: Net, policy: Limits, before: Disk, after: Disk, s: Saver)
    requires FilesGrow(before, after) && Underway(net, policy, before, s)
    ensures Underway(net, policy, after, s)
  {
    hide Sound, Readable, AllReadable, NoDuplicates;
    match s.stage
    case Looking =>
      ReadableStays(net, policy, before, after, s.c.id, CaptureId(s.c));
    case Appending(seen) =>
      ReadableStays(net, policy, before, after, s.c.id, CaptureId(s.c));
      AllStay(net, policy, before, after, s.c.id, seen);
    case _ =>
  }

  lemma HistoriesStay(net: Net, policy: Limits, before: Disk, after: Disk)
    requires Loadable(net, policy, before) && FilesGrow(before, after) && HashesMatch(after) && after.histories == before.histories
    ensures Loadable(net, policy, after)
  {
    hide AllReadable, NoDuplicates, HashesMatch, FilesGrow;
    forall id | id in after.histories
      ensures AllReadable(net, policy, after, id, after.histories[id])
    {
      AllStay(net, policy, before, after, id, before.histories[id]);
    }
  }

  lemma BodyStep(net: Net, policy: Limits, d: Disk, s: Saver)
    requires HashesMatch(d) && (s.stage.Writing? || s.stage.Creating?) && Underway(net, policy, d, s)
    ensures var after := DiskAfter(d, s);
            FilesGrow(d, after) && HashesMatch(after) && after.histories == d.histories
            && Underway(net, policy, after, s.(stage := StageAfter(d, s)))
  {
    hide Accepts, Readable;
    var n := s.stage.n;
    if n < |s.bodies.order| {
      CollectedBodies(s.c, s.bodies, n);
    }
  }

  lemma StoringStep(net: Net, policy: Limits, d: Disk, s: Saver)
    requires HashesMatch(d) && s.stage.Storing? && Underway(net, policy, d, s)
    ensures var after := DiskAfter(d, s);
            FilesGrow(d, after) && HashesMatch(after) && after.histories == d.histories
            && Readable(net, policy, after, s.c.id, CaptureId(s.c))
  {
    hide Accepts, Collected, Readable;
    var after := DiskAfter(d, s);
    BodiesOnDisk(s.c, s.bodies, after);
    StoredReadable(net, policy, after, s.c, s.bodies);
  }

  lemma StoredReadable(net: Net, policy: Limits, d: Disk, c: Record, bodies: Bodies)
    requires HashesMatch(d) && Collected(c, bodies) && Accepts(net, policy, c, bodies.at) && c.id == RequestId(c.request)
    requires forall h :: h in bodies.at ==> h in d.blobs
    requires CaptureId(c) in d.captures && d.captures[CaptureId(c)] == c
    ensures Readable(net, policy, d, c.id, CaptureId(c))
  {
    hide Accepts, Collected, Readable;
    var bare := d.(histories := map[]);
    assert JournalOk(net, policy, bare);
    StoredIsReadable(net, policy, bare, c, bodies);
    SameReadable(net, policy, bare, d, c.id, CaptureId(c));
  }

  lemma SameReadable(net: Net, policy: Limits, d: Disk, other: Disk, id: RequestId, h: CaptureId)
    requires d.blobs == other.blobs && d.captures == other.captures && Readable(net, policy, d, id, h)
    ensures Readable(net, policy, other, id, h)
  {
    hide Accepts;
  }

  lemma LookingStep(net: Net, policy: Limits, d: Disk, s: Saver)
    requires Loadable(net, policy, d) && s.stage.Looking? && Underway(net, policy, d, s)
    ensures DiskAfter(d, s) == d && Underway(net, policy, d, s.(stage := StageAfter(d, s)))
  {
    hide Sound, Readable, HashesMatch;
  }

  lemma AppendingStep(net: Net, policy: Limits, d: Disk, s: Saver)
    requires Loadable(net, policy, d) && s.stage.Appending? && Underway(net, policy, d, s)
    ensures var after := DiskAfter(d, s); FilesGrow(d, after) && Loadable(net, policy, after)
  {
    hide Sound, Readable, HashesMatch, AllReadable;
    var after, seen := DiskAfter(d, s), s.stage.seen;
    FilesGrowNot(d, after);
    if CaptureId(s.c) !in seen {
      assert HashesMatch(after) by { SameHashes(d, after); }
      assert AllReadable(net, policy, d, s.c.id, seen + [CaptureId(s.c)]) by { OneMoreReadable(net, policy, d, s.c.id, seen, CaptureId(s.c)); }
      forall id | id in after.histories
        ensures AllReadable(net, policy, after, id, after.histories[id])
      {
        AllStay(net, policy, d, after, id, after.histories[id]);
      }
    }
  }

  lemma FilesGrowNot(d: Disk, after: Disk)
    requires after.blobs == d.blobs && after.captures == d.captures
    ensures FilesGrow(d, after)
  {}

  lemma OneMoreReadable(net: Net, policy: Limits, d: Disk, id: RequestId, seen: seq<CaptureId>, h: CaptureId)
    requires AllReadable(net, policy, d, id, seen) && Readable(net, policy, d, id, h)
    ensures AllReadable(net, policy, d, id, seen + [h])
  {
    hide Readable;
  }

  /** One operation of one save keeps the journal loadable and disturbs no save. */
  lemma StepKeepsWorld(net: Net, policy: Limits, w: World, i: nat)
    requires WorldOk(net, policy, w) && i < |w.savers|
    ensures WorldOk(net, policy, Step(w, i)) && FilesGrow(w.disk, Step(w, i).disk)
  {
    hide Underway, Loadable, FilesGrow, DiskAfter, StageAfter;
    var s, d, after := w.savers[i], w.disk, DiskAfter(w.disk, w.savers[i]);
    OwnStep(net, policy, d, s);
    forall j | 0 <= j < |w.savers|
      ensures Underway(net, policy, after, Step(w, i).savers[j])
    {
      if j != i {
        UnderwayStays(net, policy, d, after, w.savers[j]);
      }
    }
  }

  lemma OwnStep(net: Net, policy: Limits, d: Disk, s: Saver)
    requires Loadable(net, policy, d) && Underway(net, policy, d, s)
    ensures var after := DiskAfter(d, s);
            Loadable(net, policy, after) && FilesGrow(d, after) && Underway(net, policy, after, s.(stage := StageAfter(d, s)))
  {
    hide Sound, Readable, AllReadable, NoDuplicates, HashesMatch, FilesGrow, NextBody;
    var after := DiskAfter(d, s);
    FilesGrowNot(d, d);
    match s.stage
    case Writing(_) =>
      BodyStep(net, policy, d, s);
      HistoriesStay(net, policy, d, after);
    case Creating(_) =>
      BodyStep(net, policy, d, s);
      HistoriesStay(net, policy, d, after);
    case Storing =>
      StoringStep(net, policy, d, s);
      HistoriesStay(net, policy, d, after);
    case Looking => LookingStep(net, policy, d, s);
    case Appending(_) => AppendingStep(net, policy, d, s);
    case _ =>
  }

  lemma FilesGrowTransitively(a: Disk, b: Disk, c: Disk)
    requires FilesGrow(a, b) && FilesGrow(b, c)
    ensures FilesGrow(a, c)
  {}

  /** The one way to stop a save: another one creates the body that it is about to create. */
  lemma StopsIff(net: Net, policy: Limits, d: Disk, s: Saver)
    requires HashesMatch(d) && Underway(net, policy, d, s) && !s.stage.Stopped?
    ensures StageAfter(d, s).Stopped? <==> s.stage.Creating? && s.bodies.order[s.stage.n] in d.blobs
  {
    hide Accepts, Readable;
    if s.stage.Writing? && s.stage.n < |s.bodies.order| {
      CollectedBodies(s.c, s.bodies, s.stage.n);
    }
  }

  /** Saves of any captures, their file operations interleaved in any order: no file is lost or
      changed, a save stops for nothing but a body that another one has just created, and every
      history can be read back at every moment. */
  lemma {:induction false} InterleavedSavesLoad(net: Net, policy: Limits, w: World, schedule: seq<nat>)
    requires WorldOk(net, policy, w) && Within(w, schedule)
    ensures WorldOk(net, policy, Run(w, schedule)) && FilesGrow(w.disk, Run(w, schedule).disk)
    ensures forall spec :: Loaded(net, policy, Run(w, schedule).disk, spec).Ok?
  {
    hide Underway, Loadable, FilesGrow, Step, Loaded, WorldOk;
    if schedule == [] {
      FilesGrowNot(w.disk, w.disk);
    } else {
      var front := schedule[..|schedule| - 1];
      InterleavedSavesLoad(net, policy, w, front);
      StepKeepsWorld(net, policy, Run(w, front), schedule[|schedule| - 1]);
      FilesGrowTransitively(w.disk, Run(w, front).disk, Run(w, schedule).disk);
    }
    forall spec
      ensures Loaded(net, policy, Run(w, schedule).disk, spec).Ok?
    {
      assert Loadable(net, policy, Run(w, schedule).disk) by { WorldLoads(net, policy, Run(w, schedule)); }
      LoadableLoads(net, policy, Run(w, schedule).disk, spec, |HistoryOf(Run(w, schedule).disk, RequestId(spec))|);
      NonEmptyLoads(net, policy, Run(w, schedule).disk, spec);
    }
  }

  lemma WorldLoads(net: Net, policy: Limits, w: World)
    requires WorldOk(net, policy, w)
    ensures Loadable(net, policy, w.disk)
  {}

  lemma NonEmptyLoads(net: Net, policy: Limits, d: Disk, spec: Spec)
    requires Loadable(net, policy, d)
    ensures Loaded(net, policy, d, spec) == LoadUpTo(net, policy, d, spec, |HistoryOf(d, RequestId(spec))|)
  {
    hide LoadUpTo;
  }

  lemma {:induction false} LoadableLoads(net: Net, policy: Limits, d: Disk, spec: Spec, n: nat)
    requires Loadable(net, policy, d) && n <= |HistoryOf(d, RequestId(spec))|
    ensures LoadUpTo(net, policy, d, spec, n).Ok?
    ensures n > 0 ==> LoadUpTo(net, policy, d, spec, n).value.Some?
                      && LoadUpTo(net, policy, d, spec, n).value.value.capture == HistoryOf(d, RequestId(spec))[n - 1].capture
  {
    hide LoadOne, Readable, HashesMatch;
    if n > 0 {
      LoadableLoads(net, policy, d, spec, n - 1);
      assert AllReadable(net, policy, d, RequestId(spec), HistoryOf(d, RequestId(spec)));
      ReadableLoads(net, policy, d, spec, HistoryOf(d, RequestId(spec))[n - 1]);
    }
  }

  // ----- saves of different requests -----

  ghost predicate Separate(w: World) {
    forall i, j :: 0 <= i < j < |w.savers| ==> w.savers[i].c.id != w.savers[j].c.id
  }

  /** The history a save works on is still the one it knows, without a success so far. */
  ghost predicate Undisturbed(d: Disk, s: Saver) {
    var history := HistoryOf(d, s.c.id);
    match s.stage
    case Appending(seen) => seen == history && NoneCaptured(history)
    case Finished => CaptureId(s.c) in history
    case Stopped(_) => true
    case _ => NoneCaptured(history)
  }

  ghost predicate SeparateOk(net: Net, policy: Limits, w: World) {
    && JournalOk(net, policy, w.disk) && Separate(w)
    && forall i :: 0 <= i < |w.savers| ==> Underway(net, policy, w.disk, w.savers[i]) && Undisturbed(w.disk, w.savers[i])
  }

  lemma JournalIsLoadable(net: Net, policy: Limits, d: Disk)
    requires JournalOk(net, policy, d)
    ensures Loadable(net, policy, d)
  {
    hide Readable, HashesMatch, NoDuplicates, CapturedIsLast;
    assert forall id :: id in d.histories ==> HistoryOk(net, policy, d, id);
  }

  /** A write to files only. */
  lemma FileStep(net: Net, policy: Limits, d: Disk, after: Disk)
    requires JournalOk(net, policy, d) && FilesGrow(d, after) && HashesMatch(after) && after.histories == d.histories
    ensures JournalOk(net, policy, after) && Grows(d, after)
  {
    hide HistoryOk, HashesMatch;
    SameHistoriesOk(net, policy, d, after);
  }

  lemma PointerStep(net: Net, policy: Limits, d: Disk, s: Saver)
    requires JournalOk(net, policy, d) && s.stage.Appending? && Underway(net, policy, d, s) && Undisturbed(d, s)
    ensures var after := DiskAfter(d, s);
            JournalOk(net, policy, after) && Grows(d, after) && CaptureId(s.c) in HistoryOf(after, s.c.id)
            && forall id :: id != s.c.id ==> HistoryOf(after, id) == HistoryOf(d, id)
  {
    hide JournalOk, Readable, Grows, AllReadable, NoneCaptured;
    assert DiskAfter(d, s) == PointerWritten(d, s.c);
    PointerKeepsJournal(net, policy, d, s.c);
  }

  lemma SeparateStep(net: Net, policy: Limits, d: Disk, s: Saver)
    requires JournalOk(net, policy, d) && Underway(net, policy, d, s) && Undisturbed(d, s)
    ensures var after := DiskAfter(d, s);
            JournalOk(net, policy, after) && Grows(d, after) && Undisturbed(after, s.(stage := StageAfter(d, s)))
            && forall id :: id != s.c.id ==> HistoryOf(after, id) == HistoryOf(d, id)
  {
    hide Sound, Readable, AllReadable, NoDuplicates, HashesMatch, FilesGrow, NextBody, JournalOk, Grows, NoneCaptured;
    var after := DiskAfter(d, s);
    assert HashesMatch(d) by { JournalIsLoadable(net, policy, d); MatchesOf(net, policy, d); }
    FilesGrowNot(d, d);
    match s.stage
    case Writing(_) =>
      BodyStep(net, policy, d, s);
      FileStep(net, policy, d, after);
    case Creating(_) =>
      BodyStep(net, policy, d, s);
      FileStep(net, policy, d, after);
    case Storing =>
      StoringStep(net, policy, d, s);
      FileStep(net, policy, d, after);
    case Looking => FileStep(net, policy, d, after);
    case Appending(_) => PointerStep(net, policy, d, s);
    case _ => FileStep(net, policy, d, after);
  }

  lemma MatchesOf(net: Net, policy: Limits, d: Disk)
    requires Loadable(net, policy, d)
    ensures HashesMatch(d)
  {}

  lemma StepKeepsSeparate(net: Net, policy: Limits, w: World, i: nat)
    requires SeparateOk(net, policy, w) && i < |w.savers|
    ensures SeparateOk(net, policy, Step(w, i)) && Grows(w.disk, Step(w, i).disk)
  {
    hide Underway, JournalOk, Grows, DiskAfter, StageAfter, Loadable, NoneCaptured, FilesGrow;
    var s, d, after := w.savers[i], w.disk, DiskAfter(w.disk, w.savers[i]);
    JournalIsLoadable(net, policy, d);
    OwnStep(net, policy, d, s);
    SeparateStep(net, policy, d, s);
    forall j | 0 <= j < |w.savers|
      ensures Underway(net, policy, after, Step(w, i).savers[j]) && Undisturbed(after, Step(w, i).savers[j])
    {
      if j != i {
        UnderwayStays(net, policy, d, after, w.savers[j]);
      }
    }
  }

  /** Interleaved saves of different requests are as safe as one save at a time: histories are only
      appended to, a success stays last, and every finished save is in its history. */
  lemma {:induction false} SeparateSavesKeepJournal(net: Net, policy: Limits, w: World, schedule: seq<nat>)
    requires SeparateOk(net, policy, w) && Within(w, schedule)
    ensures SeparateOk(net, policy, Run(w, schedule)) && Grows(w.disk, Run(w, schedule).disk)
    ensures forall i :: 0 <= i < |w.savers| && Run(w, schedule).savers[i].stage.Finished? ==>
              CaptureId(w.savers[i].c) in HistoryOf(Run(w, schedule).disk, w.savers[i].c.id)
  {
    hide Underway, JournalOk, Grows, Step;
    if schedule == [] {
      GrowsToItself(w.disk);
    } else {
      var front := schedule[..|schedule| - 1];
      SeparateSavesKeepJournal(net, policy, w, front);
      StepKeepsSeparate(net, policy, Run(w, front), schedule[|schedule| - 1]);
      GrowsTransitively(w.disk, Run(w, front).disk, Run(w, schedule).disk);
    }
  }

  // ----- saves of shared requests -----

  lemma {:induction false} RunSnoc(w: World, front: seq<nat>, i: nat)
    requires Within(w, front) && i < |w.savers|
    ensures Within(w, front + [i]) && Run(w, front + [i]) == Step(Run(w, front), i)
  {
    assert (front + [i])[..|front|] == front;
  }

  /** No two saves are of the same capture. */
  ghost predicate Distinct(w: World) {
    forall i, j :: 0 <= i < j < |w.savers| ==> w.savers[i].c != w.savers[j].c
  }

  /** No save has read a history yet. */
  predicate NoneLooked(w: World) {
    forall i :: 0 <= i < |w.savers| ==> !w.savers[i].stage.Appending? && !w.savers[i].stage.Finished?
  }

  /** The next operation of the save writes a pointer. */
  predicate Points(s: Saver) {
    s.stage.Appending? && CaptureId(s.c) !in s.stage.seen
  }

  /** A pointer is about to be written over a history that has changed since it was read. */
  predicate Overwrites(w: World, i: nat, id: RequestId)
    requires i < |w.savers|
  {
    var s := w.savers[i];
    s.c.id == id && Points(s) && s.stage.seen != HistoryOf(w.disk, id)
  }

  /** A pointer is about to be appended to a history that held a success when it was read. */
  predicate Buries(w: World, i: nat, id: RequestId)
    requires i < |w.savers|
  {
    var s := w.savers[i];
    s.c.id == id && Points(s) && exists h :: h in s.stage.seen && h.capture.status == Captured
  }

  ghost predicate SomeOverwrite(w: World, schedule: seq<nat>, id: RequestId)
    requires Within(w, schedule)
  {
    exists k :: 0 <= k < |schedule| && Overwrites(Run(w, schedule[..k]), schedule[k], id)
  }

  ghost predicate SomeBurial(w: World, schedule: seq<nat>, id: RequestId)
    requires Within(w, schedule)
  {
    exists k :: 0 <= k < |schedule| && Buries(Run(w, schedule[..k]), schedule[k], id)
  }

  ghost predicate Listed(w: World, c: Record) {
    CaptureId(c) in HistoryOf(w.disk, c.id)
  }

  /** Every finished save of a request is in its history. */
  ghost predicate AllListed(w: World, id: RequestId) {
    forall i :: 0 <= i < |w.savers| && w.savers[i].c.id == id && w.savers[i].stage.Finished? ==> Listed(w, w.savers[i].c)
  }

  lemma PrefixOfSnoc(w: World, schedule: seq<nat>, k: nat)
    requires Within(w, schedule) && schedule != [] && k < |schedule|
    ensures var front := schedule[..|schedule| - 1]; Within(w, front) && schedule[..k] == front[..k]
  {}

  /** What one more step adds to the faults of a schedule. */
  lemma FaultsSnoc(w: World, schedule: seq<nat>, id: RequestId)
    requires Within(w, schedule) && schedule != []
    ensures var front, i := schedule[..|schedule| - 1], schedule[|schedule| - 1];
            && Within(w, front)
            && (SomeOverwrite(w, schedule, id) <==> SomeOverwrite(w, front, id) || Overwrites(Run(w, front), i, id))
            && (SomeBurial(w, schedule, id) <==> SomeBurial(w, front, id) || Buries(Run(w, front), i, id))
  {
    hide Overwrites, Buries, Run;
    var front := schedule[..|schedule| - 1];
    forall k | 0 <= k < |schedule|
      ensures schedule[..k] == front[..k]
    {
      PrefixOfSnoc(w, schedule, k);
    }
    assert front[..|front|] == front;
    if k :| 0 <= k < |front| && Overwrites(Run(w, front[..k]), front[k], id) {
      assert Overwrites(Run(w, schedule[..k]), schedule[k], id);
    }
    if k :| 0 <= k < |front| && Buries(Run(w, front[..k]), front[k], id) {
      assert Buries(Run(w, schedule[..k]), schedule[k], id);
    }
  }

  // What one step does to the history of a request.

  /** A finished save in the history that a reader has not seen. */
  ghost predicate Missed(w: World, id: RequestId, seen: seq<CaptureId>) {
    exists f :: 0 <= f < |w.savers| && w.savers[f].c.id == id && w.savers[f].stage.Finished?
                && Listed(w, w.savers[f].c) && CaptureId(w.savers[f].c) !in seen
  }

  /** Nothing of the base is lost, no capture is named before its save writes the pointer, and whoever
      read an outdated history missed a save that has finished since. */
  ghost predicate Traced(w: World, id: RequestId, base: set<CaptureId>) {
    var history := HistoryOf(w.disk, id);
    && base <= Elements(history)
    && forall i :: 0 <= i < |w.savers| && w.savers[i].c.id == id ==> TracedOne(w, id, base, i)
  }

  ghost predicate TracedOne(w: World, id: RequestId, base: set<CaptureId>, i: nat)
    requires i < |w.savers|
  {
    var s, history := w.savers[i], HistoryOf(w.disk, id);
    && (!s.stage.Finished? && CaptureId(s.c) !in base ==> CaptureId(s.c) !in history && Unseen(w, id, CaptureId(s.c)))
    && (s.stage.Appending? ==> base <= Elements(s.stage.seen) && (s.stage.seen == history || Missed(w, id, s.stage.seen)))
  }

  ghost predicate Unseen(w: World, id: RequestId, h: CaptureId) {
    forall j :: 0 <= j < |w.savers| && w.savers[j].c.id == id && w.savers[j].stage.Appending? ==> h !in w.savers[j].stage.seen
  }

  lemma StepEffect(w: World, i: nat, id: RequestId)
    requires i < |w.savers|
    ensures var s, after, history := w.savers[i], Step(w, i), HistoryOf(w.disk, id);
            && |after.savers| == |w.savers| && after.savers[i].c == s.c
            && (forall j :: 0 <= j < |w.savers| && j != i ==> after.savers[j] == w.savers[j])
            && (after.savers[i].stage.Finished? <==> s.stage.Appending? || s.stage.Finished?)
            && (after.savers[i].stage.Appending? <==> s.stage.Looking?)
            && (s.stage.Looking? && s.c.id == id ==> after.savers[i].stage.seen == history)
            && HistoryOf(after.disk, id) == if s.c.id == id && Points(s) then s.stage.seen + [CaptureId(s.c)] else history
  {}

  lemma WriteIsMissed(w: World, i: nat, id: RequestId, base: set<CaptureId>, seen: seq<CaptureId>)
    requires i < |w.savers| && w.savers[i].c.id == id && Points(w.savers[i]) && Traced(w, id, base)
    requires CaptureId(w.savers[i].c) !in seen
    ensures Missed(Step(w, i), id, seen)
  {
    hide Step, Traced;
    StepEffect(w, i, id);
    var after := Step(w, i);
    assert after.savers[i].stage.Finished? && Listed(after, after.savers[i].c);
  }

  lemma MissedStays(w: World, i: nat, id: RequestId, seen: seq<CaptureId>)
    requires i < |w.savers| && Missed(w, id, seen) && HistoryOf(Step(w, i).disk, id) == HistoryOf(w.disk, id)
    ensures Missed(Step(w, i), id, seen)
  {
    hide Step;
    StepEffect(w, i, id);
    var f :| 0 <= f < |w.savers| && w.savers[f].c.id == id && w.savers[f].stage.Finished?
             && Listed(w, w.savers[f].c) && CaptureId(w.savers[f].c) !in seen;
    assert Step(w, i).savers[f].stage.Finished? && Step(w, i).savers[f].c == w.savers[f].c;
  }

  lemma PointerIsNew(w: World, i: nat, id: RequestId, base: set<CaptureId>)
    requires i < |w.savers| && w.savers[i].c.id == id && w.savers[i].stage.Appending? && Traced(w, id, base)
    ensures Points(w.savers[i]) <==> CaptureId(w.savers[i].c) !in base
    ensures Points(w.savers[i]) ==> CaptureId(w.savers[i].c) !in HistoryOf(w.disk, id) && Unseen(w, id, CaptureId(w.savers[i].c))
  {
    hide Missed;
    assert TracedOne(w, id, base, i);
  }

  lemma StepKeepsTracedOne(w: World, i: nat, id: RequestId, base: set<CaptureId>, j: nat)
    requires i < |w.savers| && j < |w.savers| && w.savers[j].c.id == id && Traced(w, id, base) && Distinct(w)
    ensures TracedOne(Step(w, i), id, base, j)
  {
    hide Step, Missed, Points, Distinct;
    StepEffect(w, i, id);
    var s, after := w.savers[i], Step(w, i);
    assert TracedOne(w, id, base, j);
    PointsAppends(s);
    if s.c.id == id && s.stage.Appending? {
      PointerIsNew(w, i, id, base);
    }
    if after.savers[j].stage.Appending? {
      var seen := after.savers[j].stage.seen;
      if s.c.id == id && Points(s) {
        assert i != j && seen == w.savers[j].stage.seen;
        WriteIsMissed(w, i, id, base, seen);
      } else if seen != HistoryOf(w.disk, id) {
        MissedStays(w, i, id, seen);
      }
    }
    OthersUnseen(w, i, id, base, j);
  }

  lemma PointsAppends(s: Saver)
    ensures Points(s) ==> s.stage.Appending?
  {}

  lemma OthersUnseen(w: World, i: nat, id: RequestId, base: set<CaptureId>, j: nat)
    requires i < |w.savers| && j < |w.savers| && w.savers[j].c.id == id && Traced(w, id, base) && Distinct(w)
    ensures var after, h := Step(w, i), CaptureId(w.savers[j].c);
            !after.savers[j].stage.Finished? && h !in base ==> h !in HistoryOf(after.disk, id) && Unseen(after, id, h)
  {
    hide Step, Missed;
    StepEffect(w, i, id);
    assert TracedOne(w, id, base, j);
  }

  /** A step of any save keeps the trace of a request. */
  lemma StepKeepsTraced(w: World, i: nat, id: RequestId, base: set<CaptureId>)
    requires i < |w.savers| && Traced(w, id, base) && Distinct(w)
    ensures Traced(Step(w, i), id, base) && Distinct(Step(w, i))
  {
    hide Step, TracedOne;
    StepEffect(w, i, id);
    if w.savers[i].c.id == id && Points(w.savers[i]) {
      BaseWasSeen(w, i, id, base);
    }
    forall j | 0 <= j < |w.savers| && w.savers[j].c.id == id
      ensures TracedOne(Step(w, i), id, base, j)
    {
      StepKeepsTracedOne(w, i, id, base, j);
    }
  }

  lemma BaseWasSeen(w: World, i: nat, id: RequestId, base: set<CaptureId>)
    requires i < |w.savers| && w.savers[i].c.id == id && w.savers[i].stage.Appending? && Traced(w, id, base)
    ensures base <= Elements(w.savers[i].stage.seen) && (w.savers[i].stage.seen == HistoryOf(w.disk, id) || Missed(w, id, w.savers[i].stage.seen))
  {
    hide Missed;
    assert TracedOne(w, id, base, i);
  }

  lemma NoneLookedIsTraced(w: World, id: RequestId)
    requires NoneLooked(w)
    ensures Traced(w, id, Elements(HistoryOf(w.disk, id)))
  {}

  /** Whether all finished saves stay listed is decided by whether the step overwrites. */
  lemma StepListsIff(w: World, i: nat, id: RequestId, base: set<CaptureId>)
    requires i < |w.savers| && Traced(w, id, base) && Distinct(w)
    ensures AllListed(Step(w, i), id) <==> AllListed(w, id) && !Overwrites(w, i, id)
  {
    hide Step, Traced, Missed;
    StepEffect(w, i, id);
    var s, after := w.savers[i], Step(w, i);
    if s.c.id == id && s.stage.Appending? {
      PointerIsNew(w, i, id, base);
      BaseWasSeen(w, i, id, base);
      if Overwrites(w, i, id) {
        OverwriteDrops(w, i, id);
      } else if !Points(s) {
        BaseIsListed(w, id, base);
      }
    }
    if !AllListed(w, id) && !Overwrites(w, i, id) {
      var f :| 0 <= f < |w.savers| && w.savers[f].c.id == id && w.savers[f].stage.Finished? && !Listed(w, w.savers[f].c);
      assert f != i ==> w.savers[f].c != s.c;
      assert after.savers[f].c == w.savers[f].c && !Listed(after, after.savers[f].c);
    }
  }

  lemma BaseIsListed(w: World, id: RequestId, base: set<CaptureId>)
    requires Traced(w, id, base)
    ensures base <= Elements(HistoryOf(w.disk, id))
  {}

  lemma OverwriteDrops(w: World, i: nat, id: RequestId)
    requires i < |w.savers| && Overwrites(w, i, id) && Distinct(w) && Missed(w, id, w.savers[i].stage.seen)
    ensures !AllListed(Step(w, i), id)
    ensures !(HistoryOf(w.disk, id) <= HistoryOf(Step(w, i).disk, id))
  {
    hide Step;
    StepEffect(w, i, id);
    var s, after := w.savers[i], Step(w, i);
    var f :| 0 <= f < |w.savers| && w.savers[f].c.id == id && w.savers[f].stage.Finished?
             && Listed(w, w.savers[f].c) && CaptureId(w.savers[f].c) !in s.stage.seen;
    assert f != i && w.savers[f].c != s.c;
    assert CaptureId(w.savers[f].c) !in HistoryOf(after.disk, id);
    assert after.savers[f] == w.savers[f];
  }

  lemma {:induction false} RunIsTraced(w: World, schedule: seq<nat>, id: RequestId)
    requires Distinct(w) && NoneLooked(w) && Within(w, schedule)
    ensures Traced(Run(w, schedule), id, Elements(HistoryOf(w.disk, id))) && Distinct(Run(w, schedule))
  {
    hide Step, Traced, Distinct;
    if schedule == [] {
      NoneLookedIsTraced(w, id);
    } else {
      var front := schedule[..|schedule| - 1];
      RunIsTraced(w, front, id);
      StepKeepsTraced(Run(w, front), schedule[|schedule| - 1], id, Elements(HistoryOf(w.disk, id)));
    }
  }

  /** Any number of saves, of any requests, interleaved in any order: all finished saves of a request
      are in its history exactly if no pointer was written over a history that had changed since it
      was read. */
  lemma {:induction false} SharedRequestIff(w: World, schedule: seq<nat>, id: RequestId)
    requires Distinct(w) && NoneLooked(w) && Within(w, schedule)
    ensures AllListed(Run(w, schedule), id) <==> !SomeOverwrite(w, schedule, id)
  {
    hide Step, Traced, Distinct, Overwrites, SomeOverwrite, SomeBurial, AllListed;
    if schedule == [] {
      NothingYet(w, id);
    } else {
      var front := schedule[..|schedule| - 1];
      FaultsSnoc(w, schedule, id);
      SharedRequestIff(w, front, id);
      RunIsTraced(w, front, id);
      StepListsIff(Run(w, front), schedule[|schedule| - 1], id, Elements(HistoryOf(w.disk, id)));
    }
  }

  lemma NothingYet(w: World, id: RequestId)
    requires NoneLooked(w)
    ensures AllListed(w, id) && !SomeOverwrite(w, [], id) && !SomeBurial(w, [], id) && Run(w, []) == w
  {}

  ghost predicate GrewAt(w: World, schedule: seq<nat>, id: RequestId, k: nat)
    requires Within(w, schedule) && k < |schedule|
  {
    HistoryOf(Run(w, schedule[..k]).disk, id) <= HistoryOf(Run(w, schedule[..k + 1]).disk, id)
  }

  lemma StepGrowsIff(w: World, i: nat, id: RequestId, base: set<CaptureId>)
    requires i < |w.savers| && Traced(w, id, base) && Distinct(w)
    ensures HistoryOf(w.disk, id) <= HistoryOf(Step(w, i).disk, id) <==> !Overwrites(w, i, id)
  {
    hide Step, Traced, Missed;
    StepEffect(w, i, id);
    if w.savers[i].c.id == id && Points(w.savers[i]) {
      BaseWasSeen(w, i, id, base);
      if Overwrites(w, i, id) {
        OverwriteDrops(w, i, id);
      }
    }
  }

  /** A history is only appended to exactly under the same condition. */
  lemma HistoryGrowsIff(w: World, schedule: seq<nat>, id: RequestId)
    requires Distinct(w) && NoneLooked(w) && Within(w, schedule)
    ensures (forall k :: 0 <= k < |schedule| ==> GrewAt(w, schedule, id, k)) <==> !SomeOverwrite(w, schedule, id)
  {
    hide Step, Run, Traced, Distinct, Overwrites;
    forall k | 0 <= k < |schedule|
      ensures GrewAt(w, schedule, id, k) <==> !Overwrites(Run(w, schedule[..k]), schedule[k], id)
    {
      assert schedule[..k + 1] == schedule[..k] + [schedule[k]];
      RunSnoc(w, schedule[..k], schedule[k]);
      RunIsTraced(w, schedule[..k], id);
      StepGrowsIff(Run(w, schedule[..k]), schedule[k], id, Elements(HistoryOf(w.disk, id)));
    }
  }

  // Where successes stand.

  ghost predicate SuccessLastAt(w: World, schedule: seq<nat>, id: RequestId, k: nat)
    requires Within(w, schedule) && k <= |schedule|
  {
    CapturedIsLast(HistoryOf(Run(w, schedule[..k]).disk, id))
  }

  lemma AppendedIsLastIff(seen: seq<CaptureId>, h: CaptureId)
    ensures CapturedIsLast(seen + [h]) <==> !exists x :: x in seen && x.capture.status == Captured
  {
    var longer := seen + [h];
    if x :| x in seen && x.capture.status == Captured {
      var k :| 0 <= k < |seen| && seen[k] == x;
      assert longer[k] == x;
    } else {
      assert forall k :: 0 <= k < |seen| ==> longer[k] in seen;
    }
  }

  lemma StepSuccessLastIff(w: World, i: nat, id: RequestId)
    requires i < |w.savers| && CapturedIsLast(HistoryOf(w.disk, id))
    ensures CapturedIsLast(HistoryOf(Step(w, i).disk, id)) <==> !Buries(w, i, id)
  {
    hide Step, CapturedIsLast;
    StepEffect(w, i, id);
    if w.savers[i].c.id == id && Points(w.savers[i]) {
      AppendedIsLastIff(w.savers[i].stage.seen, CaptureId(w.savers[i].c));
    }
  }

  /** A success stays the last entry of its history at every moment exactly if no pointer is appended to
      a history that already held one when it was read. */
  lemma {:induction false} SuccessStaysLastIff(w: World, schedule: seq<nat>, id: RequestId)
    requires Within(w, schedule) && CapturedIsLast(HistoryOf(w.disk, id))
    ensures (forall k :: 0 <= k <= |schedule| ==> SuccessLastAt(w, schedule, id, k)) <==> !SomeBurial(w, schedule, id)
  {
    hide Step, Run, Buries, SomeBurial, SomeOverwrite, CapturedIsLast, Overwrites;
    if schedule == [] {
      RunNothing(w);
      NoFaultsYet(w, id);
      assert schedule[..0] == [];
    } else {
      var n, front, i := |schedule|, schedule[..|schedule| - 1], schedule[|schedule| - 1];
      FaultsSnoc(w, schedule, id);
      SuccessStaysLastIff(w, front, id);
      forall k | 0 <= k < n
        ensures SuccessLastAt(w, schedule, id, k) <==> SuccessLastAt(w, front, id, k)
      {
        PrefixOfSnoc(w, schedule, k);
      }
      assert schedule[..n] == front + [i] && front[..n - 1] == front;
      RunSnoc(w, front, i);
      assert schedule == schedule[..n];
      assert SuccessLastAt(w, schedule, id, n - 1) <==> CapturedIsLast(HistoryOf(Run(w, front).disk, id));
      assert SuccessLastAt(w, schedule, id, n) <==> CapturedIsLast(HistoryOf(Run(w, schedule).disk, id));
      if CapturedIsLast(HistoryOf(Run(w, front).disk, id)) {
        StepSuccessLastIff(Run(w, front), i, id);
      }
    }
  }

  lemma NoFaultsYet(w: World, id: RequestId)
    ensures !SomeOverwrite(w, [], id) && !SomeBurial(w, [], id)
  {}

  // ----- what the journal promises, together -----

  /** The journal invariant holds and nothing was lost by the last operation. */
  ghost predicate KeptAt(net: Net, policy: Limits, w: World, schedule: seq<nat>, k: nat)
    requires Within(w, schedule) && k <= |schedule|
  {
    && JournalOk(net, policy, Run(w, schedule[..k]).disk)
    && (k > 0 ==> Grows(Run(w, schedule[..k - 1]).disk, Run(w, schedule[..k]).disk))
  }

  lemma JournalIffLast(net: Net, policy: Limits, d: Disk)
    requires Loadable(net, policy, d)
    ensures JournalOk(net, policy, d) <==> forall id :: CapturedIsLast(HistoryOf(d, id))
  {
    hide Readable, HashesMatch, NoDuplicates, CapturedIsLast;
    NothingIsLast();
    if JournalOk(net, policy, d) {
      forall id
        ensures CapturedIsLast(HistoryOf(d, id))
      {
        if id in d.histories {
          assert HistoryOk(net, policy, d, id);
        }
      }
    }
    if forall id :: CapturedIsLast(HistoryOf(d, id)) {
      forall id | id in d.histories
        ensures HistoryOk(net, policy, d, id)
      {
        assert AllReadable(net, policy, d, id, HistoryOf(d, id));
      }
    }
  }

  lemma NothingIsLast()
    ensures CapturedIsLast([])
  {}

  lemma GrowsIff(net: Net, policy: Limits, before: Disk, after: Disk)
    requires Loadable(net, policy, before) && FilesGrow(before, after)
    ensures Grows(before, after) <==> forall id :: HistoryOf(before, id) <= HistoryOf(after, id)
  {
    hide HashesMatch, AllReadable, NoDuplicates, FilesGrow;
    if forall id :: HistoryOf(before, id) <= HistoryOf(after, id) {
      forall id | id in before.histories
        ensures id in after.histories && before.histories[id] <= after.histories[id]
      {
        assert HistoryOf(before, id) <= HistoryOf(after, id);
      }
      assert Grows(before, after) by { FilesGrowOnly(before, after); }
    }
  }

  lemma FilesGrowOnly(before: Disk, after: Disk)
    requires FilesGrow(before, after)
    requires forall id :: id in before.histories ==> id in after.histories && before.histories[id] <= after.histories[id]
    ensures Grows(before, after)
  {}

  ghost predicate HistoryKeptAt(w: World, schedule: seq<nat>, id: RequestId, k: nat)
    requires Within(w, schedule) && k <= |schedule|
  {
    SuccessLastAt(w, schedule, id, k) && (k > 0 ==> GrewAt(w, schedule, id, k - 1))
  }

  lemma KeptAtIff(net: Net, policy: Limits, w: World, schedule: seq<nat>, k: nat)
    requires WorldOk(net, policy, w) && Within(w, schedule) && k <= |schedule|
    ensures KeptAt(net, policy, w, schedule, k) <==> forall id :: HistoryKeptAt(w, schedule, id, k)
  {
    hide JournalOk, Grows, Run, WorldOk, CapturedIsLast, Loadable;
    var now := Run(w, schedule[..k]);
    InterleavedSavesLoad(net, policy, w, schedule[..k]);
    WorldLoads(net, policy, now);
    JournalIffLast(net, policy, now.disk);
    if k > 0 {
      GrowsAtIff(net, policy, w, schedule, k - 1);
    }
    if forall id :: HistoryKeptAt(w, schedule, id, k) {
      forall id
        ensures SuccessLastAt(w, schedule, id, k) && (k > 0 ==> GrewAt(w, schedule, id, k - 1))
      {
        assert HistoryKeptAt(w, schedule, id, k);
      }
      assert forall id :: CapturedIsLast(HistoryOf(now.disk, id)) <==> SuccessLastAt(w, schedule, id, k);
    }
  }

  lemma GrowsAtIff(net: Net, policy: Limits, w: World, schedule: seq<nat>, k: nat)
    requires WorldOk(net, policy, w) && Within(w, schedule) && k < |schedule|
    ensures Grows(Run(w, schedule[..k]).disk, Run(w, schedule[..k + 1]).disk) <==> forall id :: GrewAt(w, schedule, id, k)
  {
    hide Grows, Run, WorldOk, Loadable, FilesGrow;
    var front := schedule[..k];
    InterleavedSavesLoad(net, policy, w, front);
    WorldLoads(net, policy, Run(w, front));
    assert schedule[..k + 1] == front + [schedule[k]];
    RunSnoc(w, front, schedule[k]);
    StepKeepsWorld(net, policy, Run(w, front), schedule[k]);
    var before, after := Run(w, front).disk, Run(w, schedule[..k + 1]).disk;
    GrowsIff(net, policy, before, after);
    assert forall id :: GrewAt(w, schedule, id, k) <==> HistoryOf(before, id) <= HistoryOf(after, id);
  }

  lemma HistoryKeptIff(w: World, schedule: seq<nat>, id: RequestId)
    requires Distinct(w) && NoneLooked(w) && Within(w, schedule) && CapturedIsLast(HistoryOf(w.disk, id))
    ensures (forall k :: 0 <= k <= |schedule| ==> HistoryKeptAt(w, schedule, id, k)) <==>
            !SomeOverwrite(w, schedule, id) && !SomeBurial(w, schedule, id)
  {
    hide SuccessLastAt, GrewAt, SomeOverwrite, SomeBurial, CapturedIsLast, Within, Distinct;
    HistoryGrowsIff(w, schedule, id);
    SuccessStaysLastIff(w, schedule, id);
    if forall k :: 0 <= k <= |schedule| ==> HistoryKeptAt(w, schedule, id, k) {
      forall k | 0 <= k < |schedule|
        ensures GrewAt(w, schedule, id, k)
      {
        assert HistoryKeptAt(w, schedule, id, k + 1);
      }
      forall k | 0 <= k <= |schedule|
        ensures SuccessLastAt(w, schedule, id, k)
      {
        assert HistoryKeptAt(w, schedule, id, k);
      }
    }
  }

  /** What the journal promises of single saves holds of any interleaved ones, at every moment, exactly
      if no pointer overwrites a changed history or is appended to a success. */
  lemma JournalIsKeptIff(net: Net, policy: Limits, w: World, schedule: seq<nat>)
    requires WorldOk(net, policy, w) && JournalOk(net, policy, w.disk) && Distinct(w) && NoneLooked(w) && Within(w, schedule)
    ensures (forall k :: 0 <= k <= |schedule| ==> KeptAt(net, policy, w, schedule, k)) <==>
            forall id :: !SomeOverwrite(w, schedule, id) && !SomeBurial(w, schedule, id)
  {
    hide JournalOk, WorldOk, Distinct, HistoryKeptAt, KeptAt, SomeOverwrite, SomeBurial, CapturedIsLast, Within, NoneLooked;
    forall k | 0 <= k <= |schedule|
      ensures KeptAt(net, policy, w, schedule, k) <==> forall id :: HistoryKeptAt(w, schedule, id, k)
    {
      KeptAtIff(net, policy, w, schedule, k);
    }
    WorldLoads(net, policy, w);
    JournalIffLast(net, policy, w.disk);
    forall id
      ensures (forall k :: 0 <= k <= |schedule| ==> HistoryKeptAt(w, schedule, id, k)) <==>
              !SomeOverwrite(w, schedule, id) && !SomeBurial(w, schedule, id)
    {
      assert CapturedIsLast(HistoryOf(w.disk, id));
      HistoryKeptIff(w, schedule, id);
    }
    if forall k :: 0 <= k <= |schedule| ==> KeptAt(net, policy, w, schedule, k) {
      forall id, k | 0 <= k <= |schedule|
        ensures HistoryKeptAt(w, schedule, id, k)
      {
        assert KeptAt(net, policy, w, schedule, k);
      }
    }
    if forall id :: !SomeOverwrite(w, schedule, id) && !SomeBurial(w, schedule, id) {
      forall k | 0 <= k <= |schedule|
        ensures KeptAt(net, policy, w, schedule, k)
      {
        forall id
          ensures HistoryKeptAt(w, schedule, id, k)
        {
          assert !SomeOverwrite(w, schedule, id);
        }
      }
    }
  }

  // ----- two saves of one request -----

  /** Two saves of one request, both about to read its history. */
  ghost predicate Racing(w: World) {
    && |w.savers| == 2 && w.savers[0].stage.Looking? && w.savers[1].stage.Looking?
    && w.savers[0].c.id == w.savers[1].c.id && w.savers[0].c != w.savers[1].c
    && forall i :: 0 <= i < 2 ==> CaptureId(w.savers[i].c) !in HistoryOf(w.disk, w.savers[i].c.id)
  }

  /** The case of two saves: both are journaled exactly if one had written its pointer before the other
      read the history; otherwise the pointer written last drops the capture of the other one. */
  lemma TwoSavesIff(w: World, a: nat, b: nat, c: nat, e: nat)
    requires |w.savers| == 2 && Racing(w) && a < 2 && b < 2 && c < 2 && e < 2 && a + b + c + e == 2
    ensures var after := Run(w, [a, b, c, e]);
            && after.savers[0].stage.Finished? && after.savers[1].stage.Finished?
            && Listed(after, w.savers[e].c)
            && (Listed(after, w.savers[1 - e].c) <==> a == b)
  {
    hide Step, Run, Racing, Listed;
    FourSteps(w, a, b, c, e);
    if a == b {
      InTurn(w, a);
    } else {
      AtOnce(w, a, c);
    }
  }

  lemma FourSteps(w: World, a: nat, b: nat, c: nat, e: nat)
    requires |w.savers| == 2 && a < 2 && b < 2 && c < 2 && e < 2
    ensures Run(w, [a, b, c, e]) == Step(Step(Step(Step(w, a), b), c), e)
  {
    hide Step, Run;
    assert Run(w, []) == w by { RunNothing(w); }
    RunSnoc(w, [], a);
    RunSnoc(w, [a], b);
    RunSnoc(w, [a, b], c);
    RunSnoc(w, [a, b, c], e);
    assert [] + [a] == [a] && [a] + [b] == [a, b] && [a, b] + [c] == [a, b, c] && [a, b, c] + [e] == [a, b, c, e];
  }

  lemma RunNothing(w: World)
    ensures Run(w, []) == w
  {}

  lemma InTurn(w: World, a: nat)
    requires Racing(w) && a < 2
    ensures var after := Step(Step(Step(Step(w, a), a), 1 - a), 1 - a);
            && after.savers[0].stage.Finished? && after.savers[1].stage.Finished?
            && Listed(after, w.savers[0].c) && Listed(after, w.savers[1].c)
  {}

  /** The second pointer is written over the first. */
  lemma AtOnce(w: World, a: nat, c: nat)
    requires Racing(w) && a < 2 && c < 2
    ensures var after := Step(Step(Step(Step(w, a), 1 - a), c), 1 - c);
            && after.savers[0].stage.Finished? && after.savers[1].stage.Finished?
            && Listed(after, w.savers[1 - c].c) && !Listed(after, w.savers[c].c)
  {
    BothLooked(w, a);
    var looked := Step(Step(w, a), 1 - a);
    LastPointerWins(looked, HistoryOf(w.disk, w.savers[0].c.id), c);
  }

  lemma BothLooked(w: World, a: nat)
    requires Racing(w) && a < 2
    ensures var looked, seen := Step(Step(w, a), 1 - a), HistoryOf(w.disk, w.savers[0].c.id);
            looked == World(w.disk, [w.savers[0].(stage := Appending(seen)), w.savers[1].(stage := Appending(seen))])
  {}

  lemma LastPointerWins(w: World, seen: seq<CaptureId>, c: nat)
    requires |w.savers| == 2 && c < 2 && w.savers[0].c.id == w.savers[1].c.id && w.savers[0].c != w.savers[1].c
    requires forall i :: 0 <= i < 2 ==> w.savers[i].stage == Appending(seen) && CaptureId(w.savers[i].c) !in seen
    ensures var after := Step(Step(w, c), 1 - c);
            && after.savers[0].stage.Finished? && after.savers[1].stage.Finished?
            && Listed(after, w.savers[1 - c].c) && !Listed(after, w.savers[c].c)
  {}

  // ----- a save in one go -----

  function Repeated(i: nat, n: nat): seq<nat> {
    seq(n, k => i)
  }

  lemma {:induction false} RunConcat(w: World, a: seq<nat>, b: seq<nat>)
    requires Within(w, a) && Within(w, b)
    ensures Within(w, a + b) && Within(Run(w, a), b) && Run(w, a + b) == Run(Run(w, a), b)
  {
    hide Step;
    if b == [] {
      assert a + b == a;
    } else {
      var front := b[..|b| - 1];
      RunConcat(w, a, front);
      assert a + b == (a + front) + [b[|b| - 1]];
      RunSnoc(w, a + front, b[|b| - 1]);
    }
  }

  /** The operations on the first n bodies: a look at each, and a write for each that is missing. */
  function LoneSteps(d: Disk, bodies: Bodies, n: nat): nat
    requires n <= |bodies.order| && BodiesWritten(d, bodies, n).Ok?
  {
    if n == 0 then 0
    else LoneSteps(d, bodies, n - 1) + if bodies.order[n - 1] in BodiesWritten(d, bodies, n - 1).value.blobs then 1 else 2
  }

  lemma LoneStep(w: World, i: nat, n: nat)
    requires i < |w.savers|
    ensures Run(w, Repeated(i, n + 1)) == Step(Run(w, Repeated(i, n)), i)
  {
    assert Repeated(i, n + 1) == Repeated(i, n) + [i];
    RunSnoc(w, Repeated(i, n), i);
  }

  ghost predicate Standing(w: World, i: nat, after: World, d: Disk, stage: Stage) {
    i < |w.savers| && after == World(d, w.savers[i := w.savers[i].(stage := stage)])
  }

  lemma {:induction false} StandingStep(w: World, i: nat, n: nat, d: Disk, stage: Stage)
    requires i < |w.savers| && Standing(w, i, Run(w, Repeated(i, n)), d, stage)
    ensures var s := w.savers[i].(stage := stage);
            Standing(w, i, Run(w, Repeated(i, n + 1)), DiskAfter(d, s), StageAfter(d, s))
  {
    hide Run, DiskAfter, StageAfter, Standing, Step;
    LoneStep(w, i, n);
    StepsFromStanding(w, i, Run(w, Repeated(i, n)), d, stage);
  }

  lemma {:induction false} StepsFromStanding(w: World, i: nat, before: World, d: Disk, stage: Stage)
    requires i < |w.savers| && Standing(w, i, before, d, stage)
    ensures i < |before.savers|
    ensures var s := w.savers[i].(stage := stage); Standing(w, i, Step(before, i), DiskAfter(d, s), StageAfter(d, s))
  {
    hide DiskAfter, StageAfter;
    var s := w.savers[i].(stage := stage);
    assert before.savers[i] == s;
    assert before.savers[i := s.(stage := StageAfter(d, s))] == w.savers[i := s.(stage := StageAfter(d, s))];
  }

  lemma {:induction false} LoneBodies(w: World, i: nat, n: nat)
    requires i < |w.savers| && w.savers[i].stage == Writing(0)
    requires n <= |w.savers[i].bodies.order| && BodiesWritten(w.disk, w.savers[i].bodies, n).Ok?
    ensures var bodies := w.savers[i].bodies;
            Standing(w, i, Run(w, Repeated(i, LoneSteps(w.disk, bodies, n))), BodiesWritten(w.disk, bodies, n).value, Writing(n))
  {
    hide Run, Standing;
    var d, bodies := w.disk, w.savers[i].bodies;
    if n > 0 {
      LoneBodies(w, i, n - 1);
      var before, steps := BodiesWritten(d, bodies, n - 1).value, LoneSteps(d, bodies, n - 1);
      StandingStep(w, i, steps, before, Writing(n - 1));
      if bodies.order[n - 1] !in before.blobs {
        StandingStep(w, i, steps + 1, before, Creating(n - 1));
      }
    } else {
      NothingRun(w, i);
    }
  }

  lemma NothingRun(w: World, i: nat)
    requires i < |w.savers|
    ensures Standing(w, i, Run(w, Repeated(i, 0)), w.disk, w.savers[i].stage)
  {
    assert Repeated(i, 0) == [];
  }

  /** The operations of a whole save. */
  function Turns(w: World, i: nat): nat
    requires i < |w.savers| && BodiesWritten(w.disk, w.savers[i].bodies, |w.savers[i].bodies.order|).Ok?
  {
    LoneSteps(w.disk, w.savers[i].bodies, |w.savers[i].bodies.order|) + 4
  }

  /** The files of a save, and its reading of the history. */
  function Filed(d: Disk, c: Record, bodies: Bodies): Disk
    requires BodiesWritten(d, bodies, |bodies.order|).Ok?
  {
    CaptureWritten(BodiesWritten(d, bodies, |bodies.order|).value, c)
  }

  lemma FiledKeeps(d: Disk, c: Record, bodies: Bodies)
    requires HashesMatch(d) && BodiesSound(bodies)
    ensures BodiesWritten(d, bodies, |bodies.order|).Ok? && Filed(d, c, bodies).histories == d.histories && HashesMatch(Filed(d, c, bodies))
    ensures Saved(d, c, bodies) == Ok(PointerWritten(Filed(d, c, bodies), c))
  {
    hide BodiesWritten;
    BodiesKeepHistories(d, bodies, |bodies.order|);
  }

  /** All but the last operation of a save in one go: its files, and then its look at the history. */
  lemma LoneLook(w: World, i: nat)
    requires i < |w.savers| && w.savers[i].stage == Writing(0)
    requires BodiesWritten(w.disk, w.savers[i].bodies, |w.savers[i].bodies.order|).Ok?
    ensures var d := Filed(w.disk, w.savers[i].c, w.savers[i].bodies);
            Standing(w, i, Run(w, Repeated(i, Turns(w, i) - 1)), d, Appending(HistoryOf(d, w.savers[i].c.id)))
  {
    hide Run, BodiesWritten, CaptureWritten, Standing;
    var s := w.savers[i];
    var n, size := LoneSteps(w.disk, s.bodies, |s.bodies.order|), |s.bodies.order|;
    LoneBodies(w, i, size);
    var d := BodiesWritten(w.disk, s.bodies, size).value;
    StandingStep(w, i, n, d, Writing(size));
    StandingStep(w, i, n + 1, d, Storing);
    StandingStep(w, i, n + 2, CaptureWritten(d, s.c), Looking);
  }

  /** Whatever else is under way, a save whose operations are not interrupted by others leaves what the
      save computes. */
  lemma LoneSave(w: World, i: nat)
    requires i < |w.savers| && w.savers[i].stage == Writing(0)
    requires Saved(w.disk, w.savers[i].c, w.savers[i].bodies).Ok?
    ensures var s := w.savers[i];
            Run(w, Repeated(i, Turns(w, i))) == World(Saved(w.disk, s.c, s.bodies).value, w.savers[i := s.(stage := Finished)])
  {
    hide Run, BodiesWritten, CaptureWritten, Standing;
    var s := w.savers[i];
    var d := Filed(w.disk, s.c, s.bodies);
    LoneLook(w, i);
    StandingStep(w, i, Turns(w, i) - 1, d, Appending(HistoryOf(d, s.c.id)));
    assert DiskAfter(d, s.(stage := Appending(HistoryOf(d, s.c.id)))) == PointerWritten(d, s.c);
    StandingIs(w, i, Run(w, Repeated(i, Turns(w, i))), Saved(w.disk, s.c, s.bodies).value, Finished);
  }

  lemma StandingIs(w: World, i: nat, after: World, d: Disk, stage: Stage)
    requires Standing(w, i, after, d, stage)
    ensures after == World(d, w.savers[i := w.savers[i].(stage := stage)])
  {}
}
