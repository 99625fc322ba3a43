/** Two fetches of one request at the same time, each journaling its attempt and then its result: one is
    answered, the other times out (src/ashare_quant/data/announcement_http.py, lines 271-289). Written
    one after the other, the failure is filed behind the success and is what a load returns; written at
    once, the success is lost. */
module RacingFetches {
  import opened Basics
  import opened Capture
  import opened Journal
  import opened Interleaving

  function Everywhere(): Net { Net((u: Url) => true, (u: Url, s: string) => u) }

  const POLICY := Limits(0, 0, 9, 9, 9)
  const REQUEST := Spec(0, GET, map[])
  const ID := RequestId(REQUEST)
  const ANSWER := Attempt(0, Some(200), Some(Digest([])), 0, None, None)
  const TIMEOUT := Attempt(0, None, None, 0, None, Some(Timeout))

  function AnsweredSave(status: Status): Saver {
    Saver(Record(REQUEST, ID, [ANSWER], status), Dict([Digest([])], map[Digest([]) := []]), Writing(0))
  }

  function TimedOutSave(status: Status): Saver {
    Saver(Record(REQUEST, ID, [TIMEOUT], status), Dict([], map[]), Writing(0))
  }

  /** An empty cache, and the two saves of each fetch: first what is in progress, then the result. */
  function Fetches(): World {
    World(Disk(map[], map[], map[]),
          [AnsweredSave(InProgress), TimedOutSave(InProgress), AnsweredSave(Captured), TimedOutSave(Faulted(Timeout))])
  }

  function Entry(i: nat): CaptureId
    requires i < 4
  {
    CaptureId(Fetches().savers[i].c)
  }

  lemma AnswerIsSound(status: Status)
    requires status in {InProgress, Captured}
    ensures Sound(Everywhere(), POLICY, AnsweredSave(status).c, AnsweredSave(status).bodies)
  {
    var c := AnsweredSave(status).c;
    assert Track(Everywhere(), POLICY, REQUEST, AnsweredSave(status).bodies.at, [ANSWER], 0).Ok?;
    assert DigestsOf(c) == {Digest([])} by { assert c.attempts[0].body == Some(Digest([])); }
  }

  lemma TimeoutIsSound(status: Status)
    requires status in {InProgress, Faulted(Timeout)}
    ensures Sound(Everywhere(), POLICY, TimedOutSave(status).c, TimedOutSave(status).bodies)
  {
    var c := TimedOutSave(status).c;
    assert Track(Everywhere(), POLICY, REQUEST, map[], [TIMEOUT], 0).Ok?;
    assert DigestsOf(c) == {};
  }

  /** All four saves are ones a fetch hands over, and nothing has been written yet. */
  lemma FetchesStart()
    ensures WorldOk(Everywhere(), POLICY, Fetches()) && JournalOk(Everywhere(), POLICY, Fetches().disk)
    ensures Distinct(Fetches()) && NoneLooked(Fetches())
  {
    hide Sound;
    AnswerIsSound(InProgress);
    AnswerIsSound(Captured);
    TimeoutIsSound(InProgress);
    TimeoutIsSound(Faulted(Timeout));
  }

  /** A schedule after which the saves from n on have not begun, and the history is as given. */
  ghost predicate Reached(schedule: seq<nat>, history: seq<CaptureId>, n: nat)
  {
    && Within(Fetches(), schedule)
    && var w := Run(Fetches(), schedule);
       HashesMatch(w.disk) && HistoryOf(w.disk, ID) == history && forall i :: n <= i < 4 ==> w.savers[i] == Fetches().savers[i]
  }

  lemma SaverIsSound(i: nat)
    requires i < 4
    ensures var s := Fetches().savers[i]; BodiesSound(s.bodies) && s.c.id == ID && s.stage == Writing(0)
  {}

  lemma RunsOn(schedule: seq<nat>, more: seq<nat>)
    requires Within(Fetches(), schedule) && Within(Fetches(), more)
    ensures Within(Fetches(), schedule + more) && Within(Run(Fetches(), schedule), more)
    ensures Run(Fetches(), schedule + more) == Run(Run(Fetches(), schedule), more)
  {
    RunConcat(Fetches(), schedule, more);
  }

  lemma RepeatedIsWithin(i: nat, n: nat)
    requires i < 4
    ensures Within(Fetches(), Repeated(i, n))
  {}

  /** The next save in one go. */
  lemma SaveOne(schedule: seq<nat>, history: seq<CaptureId>, n: nat) returns (longer: seq<nat>)
    requires n < 4 && Reached(schedule, history, n) && Entry(n) !in history
    ensures Reached(longer, history + [Entry(n)], n + 1)
  {
    hide Run, Turns, HashesMatch, BodiesSound, Saved, Repeated, Fetches, Filed;
    FourFetches();
    SaverIsSound(n);
    var w := Run(Fetches(), schedule);
    var s := w.savers[n];
    FiledKeeps(w.disk, s.c, s.bodies);
    SavedKeeps(w.disk, s.c, s.bodies);
    LoneSave(w, n);
    RepeatedIsWithin(n, Turns(w, n));
    RunsOn(schedule, Repeated(n, Turns(w, n)));
    longer := schedule + Repeated(n, Turns(w, n));
  }

  lemma EmptyIsReached()
    ensures Reached([], [], 0)
  {}

  lemma EntriesDiffer()
    ensures Entry(0) != Entry(1) && Entry(0) != Entry(2) && Entry(0) != Entry(3)
    ensures Entry(1) != Entry(2) && Entry(1) != Entry(3) && Entry(2) != Entry(3)
    ensures Entry(2).capture.status == Captured && Entry(3).capture.status == Faulted(Timeout)
  {}

  /** What is in progress is journaled by both fetches, one after the other. */
  lemma BothInProgress() returns (schedule: seq<nat>)
    ensures Reached(schedule, [Entry(0), Entry(1)], 2)
  {
    hide Run, Reached, Entry;
    EmptyIsReached();
    EntriesDiffer();
    schedule := SaveOne([], [], 0);
    assert [] + [Entry(0)] == [Entry(0)];
    schedule := SaveOne(schedule, [Entry(0)], 1);
    assert [Entry(0)] + [Entry(1)] == [Entry(0), Entry(1)];
  }

  ghost predicate LoadsTimeout(d: Disk) {
    var loaded := Loaded(Everywhere(), POLICY, d, REQUEST);
    loaded.Ok? && loaded.value.Some? && loaded.value.value.capture.status == Faulted(Timeout)
  }

  lemma LastIsLoaded(schedule: seq<nat>, history: seq<CaptureId>)
    requires Within(Fetches(), schedule) && HistoryOf(Run(Fetches(), schedule).disk, ID) == history
    requires history != [] && history[|history| - 1] == Entry(3)
    ensures LoadsTimeout(Run(Fetches(), schedule).disk)
  {
    hide Run, WorldOk, LoadUpTo, Loadable, Fetches, Entry;
    FetchesStart();
    EntriesDiffer();
    InterleavedSavesLoad(Everywhere(), POLICY, Fetches(), schedule);
    var d := Run(Fetches(), schedule).disk;
    WorldLoads(Everywhere(), POLICY, Run(Fetches(), schedule));
    LoadableLoads(Everywhere(), POLICY, d, REQUEST, |history|);
    NonEmptyLoads(Everywhere(), POLICY, d, REQUEST);
  }

  // ----- one after the other -----

  lemma SuccessNotLast(history: seq<CaptureId>)
    requires |history| == 4 && history[2] == Entry(2)
    ensures !CapturedIsLast(history)
  {
    EntriesDiffer();
  }

  lemma NothingOverwritten(schedule: seq<nat>)
    requires Within(Fetches(), schedule)
    requires forall i :: 0 <= i < 4 ==> Entry(i) in HistoryOf(Run(Fetches(), schedule).disk, ID)
    ensures !SomeOverwrite(Fetches(), schedule, ID)
  {
    hide Run, SomeOverwrite;
    FetchesStart();
    forall i | 0 <= i < 4
      ensures Listed(Run(Fetches(), schedule), Run(Fetches(), schedule).savers[i].c)
    {
      SaverIsSound(i);
      assert Run(Fetches(), schedule).savers[i].c == Fetches().savers[i].c;
      assert Entry(i) in HistoryOf(Run(Fetches(), schedule).disk, ID);
    }
    SharedRequestIff(Fetches(), schedule, ID);
  }

  lemma BurialFollows(schedule: seq<nat>)
    requires Within(Fetches(), schedule) && !CapturedIsLast(HistoryOf(Run(Fetches(), schedule).disk, ID))
    ensures SomeBurial(Fetches(), schedule, ID)
  {
    hide Run, SomeBurial;
    assert CapturedIsLast(HistoryOf(Fetches().disk, ID));
    SuccessStaysLastIff(Fetches(), schedule, ID);
    assert schedule[..|schedule|] == schedule;
    assert !SuccessLastAt(Fetches(), schedule, ID, |schedule|);
  }

  /** With the two results saved one after the other, the success is followed by the failure, and the
      request loads the failure, although no file operation came between those of another save. */
  lemma SuccessIsBuried() returns (schedule: seq<nat>)
    ensures Within(Fetches(), schedule)
    ensures var d := Run(Fetches(), schedule).disk;
            HistoryOf(d, ID) == [Entry(0), Entry(1), Entry(2), Entry(3)] && Entry(2).capture.status == Captured && LoadsTimeout(d)
    ensures !SomeOverwrite(Fetches(), schedule, ID) && SomeBurial(Fetches(), schedule, ID)
  {
    hide Run, Entry, SomeOverwrite, SomeBurial, CapturedIsLast, LoadsTimeout, Fetches;
    EntriesDiffer();
    schedule := BothInProgress();
    schedule := SaveOne(schedule, [Entry(0), Entry(1)], 2);
    schedule := SaveOne(schedule, [Entry(0), Entry(1)] + [Entry(2)], 3);
    var history := [Entry(0), Entry(1), Entry(2), Entry(3)];
    assert [Entry(0), Entry(1)] + [Entry(2)] + [Entry(3)] == history;
    assert history[0] == Entry(0) && history[1] == Entry(1) && history[2] == Entry(2) && history[3] == Entry(3);
    SuccessNotLast(history);
    NothingOverwritten(schedule);
    BurialFollows(schedule);
    LastIsLoaded(schedule, history);
  }

  // ----- at once -----

  /** A save that has read the history and is about to write its pointer. */
  ghost predicate Poised(s: Saver, i: nat, seen: seq<CaptureId>)
    requires i < 4
  {
    s == Fetches().savers[i].(stage := Appending(seen))
  }

  lemma LookOne(schedule: seq<nat>, history: seq<CaptureId>, n: nat) returns (longer: seq<nat>)
    requires n < 4 && Reached(schedule, history, n)
    ensures Reached(longer, history, n + 1)
    ensures Poised(Run(Fetches(), longer).savers[n], n, history)
    ensures forall i :: 0 <= i < n ==> Run(Fetches(), longer).savers[i] == Run(Fetches(), schedule).savers[i]
  {
    hide Run, LoneSteps, HashesMatch, BodiesSound, Saved, Repeated, Fetches, Filed, BodiesWritten;
    FourFetches();
    SaverIsSound(n);
    var w := Run(Fetches(), schedule);
    var s := w.savers[n];
    FiledKeeps(w.disk, s.c, s.bodies);
    LoneLook(w, n);
    RepeatedIsWithin(n, Turns(w, n) - 1);
    RunsOn(schedule, Repeated(n, Turns(w, n) - 1));
    longer := schedule + Repeated(n, Turns(w, n) - 1);
  }

  lemma WriteBoth(w: World, history: seq<CaptureId>)
    requires |w.savers| == 4 && Poised(w.savers[2], 2, history) && Poised(w.savers[3], 3, history)
    requires Entry(2) !in history && Entry(3) !in history
    ensures HistoryOf(Step(Step(w, 2), 3).disk, ID) == history + [Entry(3)]
  {}

  /** With both histories read before either pointer is written, the success is lost altogether. */
  lemma SuccessIsLost() returns (schedule: seq<nat>)
    ensures Within(Fetches(), schedule)
    ensures var d := Run(Fetches(), schedule).disk;
            HistoryOf(d, ID) == [Entry(0), Entry(1), Entry(3)] && LoadsTimeout(d)
    ensures Run(Fetches(), schedule).savers[2].stage.Finished? && Entry(2).capture.status == Captured
  {
    hide Run, Entry, LoadsTimeout, Fetches, Poised, Step;
    EntriesDiffer();
    schedule := BothInProgress();
    var history := [Entry(0), Entry(1)];
    schedule := LookOne(schedule, history, 2);
    schedule := LookOne(schedule, history, 3);
    var w := Run(Fetches(), schedule);
    FourFetches();
    RunSnoc(Fetches(), schedule, 2);
    RunSnoc(Fetches(), schedule + [2], 3);
    WriteBoth(w, history);
    FinishedAfter(w, history);
    schedule := schedule + [2] + [3];
    assert history + [Entry(3)] == [Entry(0), Entry(1), Entry(3)];
    LastIsLoaded(schedule, [Entry(0), Entry(1), Entry(3)]);
  }

  lemma FourFetches()
    ensures |Fetches().savers| == 4
  {}

  lemma FinishedAfter(w: World, history: seq<CaptureId>)
    requires |w.savers| == 4 && Poised(w.savers[2], 2, history)
    ensures Step(Step(w, 2), 3).savers[2].stage.Finished?
  {}
}
