/** The bounded fetch with retries, redirects and journaling (SafeHTTPClient.fetch in
    src/ashare_quant/data/announcement_http.py), proved against the acceptor of its traces. */
module Fetch {
  import opened Basics
  import opened Capture
  import opened Journal

  /** What the transport does with one exchange. */
  datatype Exchange =
    | Replied(status: int, location: Option<string>, body: Body)
    | Failed(fault: Fault)

  /** The exchanges of a client's lifetime: an arbitrary transport. */
  type Wire = nat -> Exchange

  /** An answer with a proper status, or too large to be looked at, or a listed failure. */
  predicate RegularExchange(policy: Limits, spec: Spec, e: Exchange) {
    match e
    case Replied(status, _, body) => |body| > Cap(policy, spec) || 100 <= status <= 599
    case Failed(fault) => fault != Unlisted
  }

  ghost predicate RegularWindow(policy: Limits, spec: Spec, wire: Wire, from: nat, to: nat) {
    forall n :: from <= n < to ==> RegularExchange(policy, spec, wire(n))
  }

  predicate RegularAttempt(a: Attempt) {
    (a.status.Some? ==> 100 <= a.status.value <= 599) && a.error != Some(Unlisted)
  }

  /** Statuses an HTTP reply may have and failures the acceptor lists. */
  predicate Regular(attempts: seq<Attempt>) {
    forall i :: 0 <= i < |attempts| ==> RegularAttempt(attempts[i])
  }

  datatype FetchError = UnsafeRequest | CacheFailed(cache: CacheError) | NotAuthorized | Invalid(reason: Reason)

  // ----- what a fetch has to do -----

  ghost predicate Redirects(a: Attempt) {
    a.status in {Some(301), Some(302), Some(303), Some(307), Some(308)}
  }

  /** Failures and answers that may pass. */
  ghost predicate Temporary(a: Attempt) {
    a.error in {Some(Timeout), Some(NetworkError)} || a.status in {Some(500), Some(502), Some(504)}
  }

  /** A redirect that has to be followed: the budget of the round allows it, it says where to, the
      method survives it, and its target is allowed. */
  ghost predicate Followable(net: Net, policy: Limits, spec: Spec, hop: nat, a: Attempt) {
    && Redirects(a) && hop < policy.maxRedirects
    && a.location.Some? && a.location.value != ""
    && (spec.verb == POST ==> a.status in {Some(307), Some(308)})
    && net.official(net.join(a.url, a.location.value))
  }

  /** How many rounds came before the one of the last attempt. */
  ghost function RoundOf(attempts: seq<Attempt>): nat {
    if |attempts| <= 1 then 0
    else RoundOf(attempts[..|attempts| - 1]) + if Redirects(attempts[|attempts| - 2]) then 0 else 1
  }

  /** How many redirects led to the last attempt within its round. */
  ghost function HopOf(attempts: seq<Attempt>): nat {
    if |attempts| <= 1 || !Redirects(attempts[|attempts| - 2]) then 0 else HopOf(attempts[..|attempts| - 1]) + 1
  }

  /** Where the attempt after a trace has to go, if there has to be one. */
  ghost function NextUrl(net: Net, policy: Limits, spec: Spec, attempts: seq<Attempt>): Option<Url> {
    if attempts == [] then Some(spec.url)
    else
      var last := attempts[|attempts| - 1];
      if Followable(net, policy, spec, HopOf(attempts), last) then Some(net.join(last.url, last.location.value))
      else if !Redirects(last) && Temporary(last) && RoundOf(attempts) < policy.retries then Some(spec.url)
      else None
  }

  /** Every attempt goes where the ones before it lead. */
  ghost predicate Path(net: Net, policy: Limits, spec: Spec, attempts: seq<Attempt>) {
    forall i :: 0 <= i < |attempts| ==> NextUrl(net, policy, spec, attempts[..i]) == Some(attempts[i].url)
  }

  /** What the last attempt comes to. */
  ghost predicate IsOutcome(a: Attempt, status: Status) {
    match a.error
    case Some(f) => status == Faulted(f)
    case None =>
      match a.status
      case None => false
      case Some(code) =>
        if code in {301, 302, 303, 307, 308} then status == RedirectRejected
        else if code == 200 then status == Captured
        else if code == 401 || code == 403 then status == PermissionRequired
        else if code == 429 then status == RateLimited
        else if code >= 500 then status == ServerRejected
        else status == HttpError
  }

  /** The attempt says what the exchange with a number did, or that there was none left. */
  ghost predicate Reports(policy: Limits, spec: Spec, wire: Wire, n: nat, a: Attempt) {
    if n >= policy.maxRequests then a == Attempt(a.url, None, None, 0, None, Some(RequestLimit))
    else
      match wire(n)
      case Failed(fault) => a == Attempt(a.url, None, None, 0, None, Some(fault))
      case Replied(status, location, body) =>
        if |body| > (if spec.verb == GET then policy.pdfBytes else policy.responseBytes)
        then a == Attempt(a.url, None, None, 0, None, Some(ResponseTooLarge))
        else a == Attempt(a.url, Some(status), Some(Digest(body)), |body|, location, None)
  }

  ghost predicate Transcribes(policy: Limits, spec: Spec, wire: Wire, from: nat, attempts: seq<Attempt>) {
    forall i :: 0 <= i < |attempts| ==> Reports(policy, spec, wire, from + i, attempts[i])
  }

  /** The requests spent on a number of attempts. */
  ghost function Spent(policy: Limits, from: nat, n: nat): nat {
    if from + n <= policy.maxRequests then from + n else Max(from, policy.maxRequests)
  }

  /** The trace a fetch has to record: it reports the exchanges from a number on, goes where they
      lead, stops when they lead no further, and bears the outcome of the last one. */
  ghost predicate IsTrace(net: Net, policy: Limits, spec: Spec, wire: Wire, from: nat, attempts: seq<Attempt>, status: Status) {
    && attempts != [] && Path(net, policy, spec, attempts) && Transcribes(policy, spec, wire, from, attempts)
    && NextUrl(net, policy, spec, attempts) == None && IsOutcome(attempts[|attempts| - 1], status)
  }

  lemma {:induction false} SameSoFar(net: Net, policy: Limits, spec: Spec, wire: Wire, from: nat, a: seq<Attempt>, b: seq<Attempt>, n: nat)
    requires n <= |a| && n <= |b|
    requires Path(net, policy, spec, a) && Transcribes(policy, spec, wire, from, a)
    requires Path(net, policy, spec, b) && Transcribes(policy, spec, wire, from, b)
    ensures a[..n] == b[..n]
  {
    hide NextUrl;
    if n > 0 {
      SameSoFar(net, policy, spec, wire, from, a, b, n - 1);
      assert Reports(policy, spec, wire, from + (n - 1), a[n - 1]) && Reports(policy, spec, wire, from + (n - 1), b[n - 1]);
      assert a[..n] == a[..n - 1] + [a[n - 1]] && b[..n] == b[..n - 1] + [b[n - 1]];
    }
  }

  /** The transport and the limits leave a fetch one trace to record, and no choice. */
  lemma TraceIsDetermined(net: Net, policy: Limits, spec: Spec, wire: Wire, from: nat, a: seq<Attempt>, b: seq<Attempt>, s: Status, t: Status)
    requires IsTrace(net, policy, spec, wire, from, a, s) && IsTrace(net, policy, spec, wire, from, b, t)
    ensures a == b && s == t
  {
    hide NextUrl, Transcribes;
    var n := if |a| <= |b| then |a| else |b|;
    SameSoFar(net, policy, spec, wire, from, a, b, n);
    assert a[..|a|] == a && b[..|b|] == b;
  }

  /** What stops a trace: a redirect that need not be followed, or an answer that is no temporary
      failure or came in the last round. */
  lemma {:induction false} TraceStops(net: Net, policy: Limits, spec: Spec, wire: Wire, from: nat, attempts: seq<Attempt>, status: Status)
    requires IsTrace(net, policy, spec, wire, from, attempts, status)
    ensures var last := attempts[|attempts| - 1];
            && (status == RedirectRejected <==> Redirects(last))
            && (Redirects(last) ==>
                  || HopOf(attempts) >= policy.maxRedirects || last.location.None? || last.location.value == ""
                  || (spec.verb == POST && last.status in {Some(301), Some(302), Some(303)})
                  || !net.official(net.join(last.url, last.location.value)))
            && (Temporary(last) ==> RoundOf(attempts) >= policy.retries)
  {
    hide HopOf, RoundOf, Path, Reports;
    var last := attempts[|attempts| - 1];
    assert Reports(policy, spec, wire, from + (|attempts| - 1), last);
    ReportIsPlain(policy, spec, wire, from + (|attempts| - 1), last);
  }

  lemma ReportIsPlain(policy: Limits, spec: Spec, wire: Wire, n: nat, a: Attempt)
    requires Reports(policy, spec, wire, n, a)
    ensures (a.error.Some? <==> a.status.None?) && (Temporary(a) ==> !Redirects(a))
    ensures forall status :: IsOutcome(a, status) ==> (status == RedirectRejected <==> Redirects(a))
  {}

  /** One more attempt at the next url, reporting the next exchange. */
  lemma PathGrows(net: Net, policy: Limits, spec: Spec, wire: Wire, from: nat, attempts: seq<Attempt>, a: Attempt)
    requires Path(net, policy, spec, attempts) && Transcribes(policy, spec, wire, from, attempts)
    requires NextUrl(net, policy, spec, attempts) == Some(a.url) && Reports(policy, spec, wire, from + |attempts|, a)
    ensures Path(net, policy, spec, attempts + [a]) && Transcribes(policy, spec, wire, from, attempts + [a])
  {
    hide NextUrl, Reports;
    var longer := attempts + [a];
    forall i | 0 <= i < |longer|
      ensures NextUrl(net, policy, spec, longer[..i]) == Some(longer[i].url)
      ensures Reports(policy, spec, wire, from + i, longer[i])
    {
      assert longer[..i] == attempts[..i];
      assert i == |attempts| ==> attempts[..i] == attempts;
    }
  }

  /** The round and hop of one more attempt. */
  lemma {:induction false} CountersStep(attempts: seq<Attempt>, a: Attempt)
    ensures var longer := attempts + [a];
            if attempts == [] then RoundOf(longer) == 0 && HopOf(longer) == 0
            else if Redirects(attempts[|attempts| - 1]) then RoundOf(longer) == RoundOf(attempts) && HopOf(longer) == HopOf(attempts) + 1
            else RoundOf(longer) == RoundOf(attempts) + 1 && HopOf(longer) == 0
  {
    hide Redirects;
    var longer := attempts + [a];
    assert longer[..|longer| - 1] == attempts;
    assert attempts != [] ==> longer[|longer| - 2] == attempts[|attempts| - 1];
  }

  lemma ReportsSpent(policy: Limits, spec: Spec, wire: Wire, from: nat, n: nat, a: Attempt)
    requires Reports(policy, spec, wire, Spent(policy, from, n), a)
    ensures Reports(policy, spec, wire, from + n, a)
    ensures Spent(policy, Spent(policy, from, n), 1) == Spent(policy, from, n + 1) && Spent(policy, from, 0) == from
  {}

  /** Which attempt comes next: the first, the next hop of its round, or the first of the next round. */
  ghost predicate Counts(attempts: seq<Attempt>, round: nat, hop: nat) {
    if attempts == [] then round == 0 && hop == 0
    else if Redirects(attempts[|attempts| - 1]) then RoundOf(attempts) == round && HopOf(attempts) + 1 == hop
    else RoundOf(attempts) + 1 == round && hop == 0
  }

  lemma CountedStep(attempts: seq<Attempt>, a: Attempt, round: nat, hop: nat)
    requires Counts(attempts, round, hop)
    ensures RoundOf(attempts + [a]) == round && HopOf(attempts + [a]) == hop
  {
    hide RoundOf, HopOf;
    CountersStep(attempts, a);
  }

  /** An attempt that is no redirect. */
  lemma PlainAttempt(net: Net, policy: Limits, spec: Spec, wire: Wire, n: nat, attempts: seq<Attempt>)
    requires attempts != [] && Reports(policy, spec, wire, n, attempts[|attempts| - 1]) && !IsRedirect(attempts[|attempts| - 1].status)
    ensures var last := attempts[|attempts| - 1];
            Answered(last) && IsOutcome(last, OutcomeOf(last)) && !Redirects(last) && (Retryable(last) <==> Temporary(last))
    ensures NextUrl(net, policy, spec, attempts)
         == if Temporary(attempts[|attempts| - 1]) && RoundOf(attempts) < policy.retries then Some(spec.url) else None
  {}

  /** A redirect, followed or not. */
  lemma RedirectAttempt(net: Net, policy: Limits, spec: Spec, wire: Wire, n: nat, attempts: seq<Attempt>)
    requires attempts != [] && Reports(policy, spec, wire, n, attempts[|attempts| - 1]) && IsRedirect(attempts[|attempts| - 1].status)
    ensures var a := attempts[|attempts| - 1];
            && Redirects(a) && IsOutcome(a, RedirectRejected) && !Temporary(a)
            && NextUrl(net, policy, spec, attempts)
            == if HopOf(attempts) < policy.maxRedirects && a.location.Some? && a.location.value != ""
                  && (spec.verb == GET || KeepsMethod(a.status)) && net.official(Joined(net, a.url, a.location))
               then Some(Joined(net, a.url, a.location)) else None
  {}

  // ----- traces -----

  /** A failed exchange or an answered one with its body collected. */
  ghost predicate WellRecorded(net: Net, policy: Limits, spec: Spec, bodies: Blobs, a: Attempt) {
    && net.official(a.url)
    && (a.body.Some? <==> a.status.Some?) && (a.body.Some? <==> a.error.None?)
    && (a.body.Some? ==>
          && a.body.value in bodies && Digest(bodies[a.body.value]) == a.body.value
          && |bodies[a.body.value]| == a.size && a.size <= Cap(policy, spec))
  }

  lemma RegularIsChecked(net: Net, policy: Limits, spec: Spec, bodies: Blobs, a: Attempt)
    requires WellRecorded(net, policy, spec, bodies, a)
    ensures CheckAttempt(net, policy, spec, bodies, a.url, a).None? <==> RegularAttempt(a)
  {}

  /** The attempts so far are a trace that expects the given url next. */
  ghost predicate Expects(net: Net, policy: Limits, spec: Spec, bodies: Blobs, attempts: seq<Attempt>, t: Tracker) {
    Regular(attempts) ==> Track(net, policy, spec, bodies, attempts, |attempts|) == Ok(t)
  }

  /** One more attempt, at the expected url, completes an acceptable capture. */
  ghost predicate Ends(net: Net, policy: Limits, spec: Spec, bodies: Blobs, attempts: seq<Attempt>, t: Tracker) {
    && attempts != []
    && WellRecorded(net, policy, spec, bodies, attempts[|attempts| - 1])
    && attempts[|attempts| - 1].url == t.expected
    && Expects(net, policy, spec, bodies, attempts[..|attempts| - 1], t)
  }

  lemma {:induction false} TrackPrefix(net: Net, policy: Limits, spec: Spec, blobs: Blobs, attempts: seq<Attempt>, more: seq<Attempt>, n: nat)
    requires n <= |attempts|
    ensures Track(net, policy, spec, blobs, attempts + more, n) == Track(net, policy, spec, blobs, attempts, n)
  {
    hide CheckAttempt, Follow;
    if n > 0 {
      TrackPrefix(net, policy, spec, blobs, attempts, more, n - 1);
      assert (attempts + more)[n - 1] == attempts[n - 1];
    }
  }

  lemma TrackFront(net: Net, policy: Limits, spec: Spec, blobs: Blobs, attempts: seq<Attempt>)
    requires attempts != []
    ensures Track(net, policy, spec, blobs, attempts, |attempts| - 1)
         == Track(net, policy, spec, blobs, attempts[..|attempts| - 1], |attempts| - 1)
  {
    var front, last := attempts[..|attempts| - 1], attempts[|attempts| - 1];
    assert attempts == front + [last];
    TrackPrefix(net, policy, spec, blobs, front, [last], |front|);
  }

  /** What is accepted of a trace, whatever its status claims among the possible ones: exactly
      the regular traces. */
  lemma TraceAcceptedIff(net: Net, policy: Limits, c: Record, bodies: Blobs, t: Tracker)
    requires WellFormed(net, c.request) && c.id == RequestId(c.request)
    requires |c.attempts| <= (policy.retries + 1) * (policy.maxRedirects + 1)
    requires Ends(net, policy, c.request, bodies, c.attempts, t)
    requires c.status == InProgress
             || (c.status == RedirectRejected && IsRedirect(c.attempts[|c.attempts| - 1].status))
             || (Answered(c.attempts[|c.attempts| - 1]) && c.status == OutcomeOf(c.attempts[|c.attempts| - 1]))
    ensures Accepts(net, policy, c, bodies) <==> Regular(c.attempts)
  {
    hide Track, WellFormed;
    var front, last := c.attempts[..|c.attempts| - 1], c.attempts[|c.attempts| - 1];
    assert c.attempts == front + [last];
    TrackFront(net, policy, c.request, bodies, c.attempts);
    RegularIsChecked(net, policy, c.request, bodies, last);
    if Accepts(net, policy, c, bodies) {
      AcceptedIsRegular(net, policy, c, bodies);
    } else {
      assert Regular(c.attempts) ==> Regular(front);
    }
  }

  lemma CheckedIsRegular(net: Net, policy: Limits, spec: Spec, blobs: Blobs, expected: Url, a: Attempt)
    requires CheckAttempt(net, policy, spec, blobs, expected, a).None?
    ensures RegularAttempt(a)
  {}

  lemma {:induction false} TrackedIsRegular(net: Net, policy: Limits, spec: Spec, blobs: Blobs, attempts: seq<Attempt>, n: nat)
    requires n <= |attempts| && Track(net, policy, spec, blobs, attempts, n).Ok?
    ensures Regular(attempts[..n])
  {
    hide CheckAttempt, Follow;
    if n > 0 {
      TrackedIsRegular(net, policy, spec, blobs, attempts, n - 1);
      var t := Track(net, policy, spec, blobs, attempts, n - 1).value;
      CheckedIsRegular(net, policy, spec, blobs, t.expected, attempts[n - 1]);
      assert attempts[..n] == attempts[..n - 1] + [attempts[n - 1]];
    }
  }

  /** The acceptor accepts nothing irregular, from whatever source. */
  lemma AcceptedIsRegular(net: Net, policy: Limits, c: Record, blobs: Blobs)
    requires Accepts(net, policy, c, blobs)
    ensures Regular(c.attempts)
  {
    hide CheckAttempt, Track, Regular;
    var n := |c.attempts| - 1;
    TrackedIsRegular(net, policy, c.request, blobs, c.attempts, n);
    var t := Track(net, policy, c.request, blobs, c.attempts, n).value;
    CheckedIsRegular(net, policy, c.request, blobs, t.expected, c.attempts[n]);
    RegularSnoc(c.attempts);
  }

  lemma RegularSnoc(attempts: seq<Attempt>)
    requires attempts != []
    ensures Regular(attempts) <==> Regular(attempts[..|attempts| - 1]) && RegularAttempt(attempts[|attempts| - 1])
  {
    assert attempts == attempts[..|attempts| - 1] + [attempts[|attempts| - 1]];
  }

  // ----- growing a trace -----

  lemma ExpectsStable(net: Net, policy: Limits, spec: Spec, small: Blobs, large: Blobs, attempts: seq<Attempt>, t: Tracker)
    requires SubBodies(small, large) && Expects(net, policy, spec, small, attempts, t)
    ensures Expects(net, policy, spec, large, attempts, t)
  {
    hide Track;
    if Regular(attempts) {
      TrackStable(net, policy, spec, small, large, attempts, |attempts|);
    }
  }

  /** What the acceptor expects after an attempt that is followed by another one. */
  lemma NextIsExpected(net: Net, policy: Limits, spec: Spec, bodies: Blobs, attempts: seq<Attempt>, t: Tracker, next: Tracker)
    requires Ends(net, policy, spec, bodies, attempts, t)
    requires Follow(net, policy, spec, t, attempts[|attempts| - 1]) == Ok(next)
    ensures Expects(net, policy, spec, bodies, attempts, next)
  {
    hide CheckAttempt, Follow, WellRecorded, Regular, RegularAttempt;
    var last := attempts[|attempts| - 1];
    TrackFront(net, policy, spec, bodies, attempts);
    RegularIsChecked(net, policy, spec, bodies, last);
    RegularSnoc(attempts);
  }

  /** An attempt worth retrying is not a redirect. */
  lemma RetryFollows(net: Net, policy: Limits, spec: Spec, bodies: Blobs, attempts: seq<Attempt>, t: Tracker)
    requires Ends(net, policy, spec, bodies, attempts, t)
    requires Retryable(attempts[|attempts| - 1]) && t.retries < policy.retries
    ensures Follow(net, policy, spec, t, attempts[|attempts| - 1]) == Ok(Tracker(spec.url, t.retries + 1, 0))
  {
    hide Expects;
  }

  /** Room for the attempts of the first retries rounds. */
  function Budget(policy: Limits, rounds: nat): nat {
    rounds * (policy.maxRedirects + 1)
  }

  lemma BudgetGrows(policy: Limits, round: nat)
    ensures Budget(policy, round + 1) == Budget(policy, round) + policy.maxRedirects + 1
    ensures round <= policy.retries ==> Budget(policy, round + 1) <= Budget(policy, policy.retries + 1)
    ensures Budget(policy, policy.retries + 1) == (policy.retries + 1) * (policy.maxRedirects + 1)
  {
    if round <= policy.retries {
      assert (policy.retries + 1) * (policy.maxRedirects + 1) - (round + 1) * (policy.maxRedirects + 1)
          == (policy.retries - round) * (policy.maxRedirects + 1);
    }
  }

  function InProgressOf(spec: Spec, attempts: seq<Attempt>): Record {
    Record(spec, RequestId(spec), attempts, InProgress)
  }

  /** The final status belongs to the last attempt. */
  predicate StatusFits(attempts: seq<Attempt>, status: Status) {
    attempts != []
    && var last := attempts[|attempts| - 1];
       (status == RedirectRejected && IsRedirect(last.status)) || (Answered(last) && status == OutcomeOf(last))
  }

  lemma WindowSplits(policy: Limits, spec: Spec, wire: Wire, from: nat, mid: nat, to: nat)
    requires from <= mid <= to
    ensures RegularWindow(policy, spec, wire, from, to) <==>
            RegularWindow(policy, spec, wire, from, mid) && RegularWindow(policy, spec, wire, mid, to)
  {}

  lemma EmptyWindow(policy: Limits, spec: Spec, wire: Wire, n: nat)
    ensures RegularWindow(policy, spec, wire, n, n)
  {}

  ghost predicate EndsWith(history: seq<CaptureId>, c: Record) {
    history != [] && history[|history| - 1] == CaptureId(c)
  }

  lemma StartOfTrace(net: Net, policy: Limits, spec: Spec, wire: Wire, n: nat)
    ensures Collected(InProgressOf(spec, []), Dict([], map[]))
    ensures Expects(net, policy, spec, map[], [], Tracker(spec.url, 0, 0))
    ensures Regular([]) && RegularWindow(policy, spec, wire, n, n) && Budget(policy, 0) == 0
  {}

  lemma CollectedForAny(c: Record, d: Record, bodies: Bodies)
    requires Collected(c, bodies) && d.attempts == c.attempts
    ensures Collected(d, bodies) && Exact(Stored(d, bodies.at))
  {}

  lemma LoadedIsAccepted(net: Net, policy: Limits, d: Disk, spec: Spec)
    ensures Loaded(net, policy, d, spec).Ok? && Loaded(net, policy, d, spec).value.Some? ==>
              var s := Loaded(net, policy, d, spec).value.value;
              Accepts(net, policy, s.capture, s.blobs) && s.capture.request == spec && Exact(s)
  {
    hide Verdict;
    if Loaded(net, policy, d, spec).Ok? && Loaded(net, policy, d, spec).value.Some? {
      var s := Loaded(net, policy, d, spec).value.value;
      AcceptedBodiesMatch(net, policy, s.capture, s.blobs);
    }
  }

  lemma {:induction false} TrackedBodiesMatch(net: Net, policy: Limits, spec: Spec, blobs: Blobs, attempts: seq<Attempt>, n: nat, i: nat)
    requires i < n <= |attempts| && Track(net, policy, spec, blobs, attempts, n).Ok? && attempts[i].body.Some?
    ensures attempts[i].body.value in blobs && Digest(blobs[attempts[i].body.value]) == attempts[i].body.value
  {
    hide Follow;
    if i < n - 1 {
      TrackedBodiesMatch(net, policy, spec, blobs, attempts, n - 1, i);
    }
  }

  /** Acceptance means that every body is present under its digest. */
  lemma AcceptedBodiesMatch(net: Net, policy: Limits, c: Record, blobs: Blobs)
    requires Accepts(net, policy, c, blobs)
    ensures forall h :: h in DigestsOf(c) ==> h in blobs && Digest(blobs[h]) == h
  {
    hide Track;
    forall i | 0 <= i < |c.attempts| && c.attempts[i].body.Some?
      ensures c.attempts[i].body.value in blobs && Digest(blobs[c.attempts[i].body.value]) == c.attempts[i].body.value
    {
      if i < |c.attempts| - 1 {
        TrackedBodiesMatch(net, policy, c.request, blobs, c.attempts, |c.attempts| - 1, i);
      }
    }
  }

  /** What is loaded is the capture named last. */
  lemma LoadedIsLast(net: Net, policy: Limits, d: Disk, spec: Spec)
    ensures Loaded(net, policy, d, spec).Ok? && Loaded(net, policy, d, spec).value.Some? ==>
              var history := HistoryOf(d, RequestId(spec));
              history != [] && Loaded(net, policy, d, spec).value.value.capture == history[|history| - 1].capture
  {
    hide Verdict, DigestsOf;
  }

  lemma LastIsLoaded(net: Net, policy: Limits, d: Disk, spec: Spec)
    requires JournalOk(net, policy, d)
    ensures var history, loaded := HistoryOf(d, RequestId(spec)), Loaded(net, policy, d, spec);
            && loaded.Ok? && (loaded.value.None? <==> history == [])
            && (history != [] ==> loaded.value.value.capture == history[|history| - 1].capture)
            && (history == [] || history[|history| - 1].capture.status != Captured ==> NoneCaptured(history))
  {
    hide Loaded, Readable;
    LoadFindsLast(net, policy, d, spec);
    assert RequestId(spec) in d.histories ==> HistoryOk(net, policy, d, RequestId(spec));
  }

  /** One irregular capture in a history makes every later load of its request fail. */
  lemma IrregularBlocksRequest(net: Net, policy: Limits, d: Disk, spec: Spec, i: nat)
    requires i < |HistoryOf(d, RequestId(spec))| && !Regular(HistoryOf(d, RequestId(spec))[i].capture.attempts)
    ensures Loaded(net, policy, d, spec).Err?
  {
    hide Regular, Verdict;
    var h := HistoryOf(d, RequestId(spec))[i];
    if LoadOne(net, policy, d, spec, h).Ok? {
      AcceptedIsRegular(net, policy, d.captures[h], LoadOne(net, policy, d, spec, h).value.blobs);
    } else {
      var loaded := LoadUpTo(net, policy, d, spec, i);
      if loaded.Err? {
        LoadFailed(net, policy, d, spec, i, |HistoryOf(d, RequestId(spec))|, loaded.error);
      } else {
        LoadFailed(net, policy, d, spec, i + 1, |HistoryOf(d, RequestId(spec))|, LoadOne(net, policy, d, spec, h).error);
      }
    }
  }

  /** An irregular capture stands in the history. */
  ghost predicate Tainted(history: seq<CaptureId>) {
    exists i :: 0 <= i < |history| && !Regular(history[i].capture.attempts)
  }

  lemma TaintedBlocks(net: Net, policy: Limits, d: Disk, spec: Spec)
    requires Tainted(HistoryOf(d, RequestId(spec)))
    ensures Loaded(net, policy, d, spec).Err?
  {
    hide Regular, Loaded;
    var history := HistoryOf(d, RequestId(spec));
    var i :| 0 <= i < |history| && !Regular(history[i].capture.attempts);
    IrregularBlocksRequest(net, policy, d, spec, i);
  }

  lemma TaintStays(before: Disk, after: Disk, id: RequestId)
    requires Kept(before.histories, after.histories) && Tainted(HistoryOf(before, id))
    ensures Tainted(HistoryOf(after, id))
  {
    hide Regular;
    var history := HistoryOf(before, id);
    var i :| 0 <= i < |history| && !Regular(history[i].capture.attempts);
    assert HistoryOf(after, id)[i] == history[i];
  }

  /** What a save of a trace does to the journal, whether or not the trace is regular. */
  lemma SaveKeeps(d: Disk, c: Record, bodies: Bodies)
    requires Collected(c, bodies)
    ensures Kept(d.histories, d.histories)
    ensures HashesMatch(d) ==> Saved(d, c, bodies).Ok?
    ensures Saved(d, c, bodies).Ok? ==>
              var after := Saved(d, c, bodies).value;
              && Kept(d.histories, after.histories) && (HashesMatch(d) ==> HashesMatch(after))
              && (!Regular(c.attempts) ==> Tainted(HistoryOf(after, c.id)))
  {
    hide Regular, Saved, Tainted, HashesMatch, BodiesSound;
    SavedKeeps(d, c, bodies);
    if Saved(d, c, bodies).Ok? && !Regular(c.attempts) {
      NotedTaints(d, c, bodies);
    }
  }

  lemma NotedTaints(d: Disk, c: Record, bodies: Bodies)
    requires Saved(d, c, bodies).Ok? && !Regular(c.attempts)
    ensures Tainted(HistoryOf(Saved(d, c, bodies).value, c.id))
  {
    hide Regular, Saved;
    SavedKeeps(d, c, bodies);
    var history := HistoryOf(Saved(d, c, bodies).value, c.id);
    var i :| 0 <= i < |history| && history[i] == CaptureId(c);
    assert history[i].capture == c;
  }

  lemma DigestsSnoc(c: Record, a: Attempt)
    ensures DigestsOf(c.(attempts := c.attempts + [a])) == DigestsOf(c) + (if a.body.Some? then {a.body.value} else {})
  {
    var longer := c.attempts + [a];
    forall h | h in DigestsOf(c)
      ensures h in DigestsOf(c.(attempts := longer))
    {
      var i :| 0 <= i < |c.attempts| && c.attempts[i].body == Some(h);
      assert longer[i].body.Some?;
    }
    assert longer[|c.attempts|] == a;
  }

  /** The bodies that go with a capture: exactly those its attempts name, under their digests. */
  ghost predicate Exact(s: Stored) {
    s.blobs.Keys == DigestsOf(s.capture) && forall h :: h in s.blobs ==> Digest(s.blobs[h]) == h
  }

  // ----- the client -----

  class SafeHTTPClient {
    const net: Net
    const policy: Limits
    const wire: Wire
    const authorized: bool
    const retryFailed: bool
    const cache: CaptureCache?
    var requests: nat

    constructor (net: Net, policy: Limits, wire: Wire, authorized: bool, retryFailed: bool, cache: CaptureCache?)
      ensures this.net == net && this.policy == policy && this.wire == wire && this.authorized == authorized
      ensures this.retryFailed == retryFailed && this.cache == cache && requests == 0
    {
      this.net, this.policy, this.wire, this.authorized := net, policy, wire, authorized;
      this.retryFailed, this.cache, requests := retryFailed, cache, 0;
    }

    /** One exchange, unless the client's lifetime budget is used up. */
    method Perform(spec: Spec, url: Url, bodies: Bodies) returns (a: Attempt, collected: Bodies)
      requires net.official(url) && BodiesSound(bodies)
      modifies this`requests
      ensures a.url == url && WellRecorded(net, policy, spec, collected.at, a)
      ensures BodiesSound(collected) && SubBodies(bodies.at, collected.at)
      ensures collected.at.Keys == bodies.at.Keys + (if a.body.Some? then {a.body.value} else {})
      ensures old(requests) <= requests <= old(requests) + 1
      ensures old(requests) <= policy.maxRequests ==> requests <= policy.maxRequests
      ensures RegularAttempt(a) <==> RegularWindow(policy, spec, wire, old(requests), requests)
      ensures Reports(policy, spec, wire, old(requests), a) && requests == Spent(policy, old(requests), 1)
    {
      a, collected := Attempt(url, None, None, 0, None, None), bodies;
      if requests >= policy.maxRequests {
        a := a.(error := Some(RequestLimit));
        return;
      }
      var reply := wire(requests);
      requests := requests + 1;
      match reply
      case Failed(fault) =>
        a := a.(error := Some(fault));
      case Replied(status, location, body) =>
        if |body| > Cap(policy, spec) {
          a := a.(error := Some(ResponseTooLarge));
        } else {
          var h := Digest(body);
          collected := bodies.Put(h, body);
          a := a.(status := Some(status), body := Some(h), size := |body|, location := location);
        }
    }

    /** The cache is sound and holds no successful capture of the request yet. */
    ghost predicate CacheReady(spec: Spec)
      reads cache
    {
      cache != null ==>
        cache.net == net && cache.policy == policy && cache.Valid() && NoneCaptured(HistoryOf(cache.disk, RequestId(spec)))
    }

    ghost function Trail(): seq<Disk>
      reads cache
    {
      if cache == null then [] else cache.trail
    }

    ghost function Past(): Histories
      reads cache
    {
      if cache == null then map[] else cache.disk.histories
    }

    /** Every file of the cache matches its hash. */
    ghost predicate Intact()
      reads cache
    {
      cache != null ==> HashesMatch(cache.disk)
    }

    /** The history of the request can no longer be read back. */
    ghost predicate Blocked(spec: Spec)
      reads cache
    {
      cache != null && Tainted(HistoryOf(cache.disk, RequestId(spec)))
    }

    /** The attempts so far go where they lead, and report the exchanges from a number on. */
    ghost predicate Along(spec: Spec, from: nat, attempts: seq<Attempt>)
      reads this`requests
    {
      Path(net, policy, spec, attempts) && Transcribes(policy, spec, wire, from, attempts)
      && requests == Spent(policy, from, |attempts|)
    }

    /** Journal the attempts so far. */
    method Note(spec: Spec, attempts: seq<Attempt>, bodies: Bodies, ghost t: Tracker) returns (error: Option<CacheError>)
      requires WellFormed(net, spec) && Collected(InProgressOf(spec, attempts), bodies)
      requires Ends(net, policy, spec, bodies.at, attempts, t)
      requires |attempts| <= (policy.retries + 1) * (policy.maxRedirects + 1)
      modifies cache
      ensures cache == null ==> error.None?
      ensures old(CacheReady(spec)) && Regular(attempts) ==> error.None? && CacheReady(spec) && old(Trail()) <= Trail()
      ensures Kept(old(Past()), Past()) && (old(Intact()) ==> error.None? && Intact())
      ensures cache != null && error.None? && !Regular(attempts) ==> Blocked(spec)
    {
      hide Collected, Accepts, NoneCaptured, Ends, Regular, CaptureCache.Valid, Saved, HistoryOf, Kept, Tainted, HashesMatch, BodiesSound;
      PastIsKept();
      if cache == null {
        return None;
      }
      TraceAcceptedIff(net, policy, InProgressOf(spec, attempts), bodies.at, t);
      SaveKeeps(cache.disk, InProgressOf(spec, attempts), bodies);
      error := cache.Save(InProgressOf(spec, attempts), bodies);
    }

    lemma PastIsKept()
      ensures Kept(Past(), Past())
    {}

    /** One round: from the requested url along its redirects, every attempt journaled. */
    method Chase(spec: Spec, round: nat, previous: seq<Attempt>, held: Bodies, ghost from: nat)
      returns (attempts: seq<Attempt>, bodies: Bodies, status: Status, error: Option<CacheError>, ghost t: Tracker)
      requires WellFormed(net, spec) && round <= policy.retries && |previous| <= Budget(policy, round)
      requires Collected(InProgressOf(spec, previous), held)
      requires Expects(net, policy, spec, held.at, previous, Tracker(spec.url, round, 0))
      requires Along(spec, from, previous) && NextUrl(net, policy, spec, previous) == Some(spec.url) && Counts(previous, round, 0)
      modifies this`requests, cache
      ensures error.None? ==>
                && Along(spec, from, attempts) && attempts != [] && RoundOf(attempts) == round && Leads(spec, attempts, status)
      ensures error.None? ==>
                && Collected(InProgressOf(spec, attempts), bodies) && Ends(net, policy, spec, bodies.at, attempts, t)
                && t.retries == round && |attempts| <= Budget(policy, round + 1) && StatusFits(attempts, status)
      ensures error.None? ==> (Regular(attempts) <==> Regular(previous) && RegularWindow(policy, spec, wire, old(requests), requests))
      ensures old(CacheReady(spec)) && Regular(previous) && RegularWindow(policy, spec, wire, old(requests), requests) ==>
                error.None? && CacheReady(spec) && old(Trail()) <= Trail()
      ensures cache == null ==> error.None?
      ensures Kept(old(Past()), Past()) && (old(Intact()) ==> error.None? && Intact())
      ensures cache != null && error.None? && !Regular(attempts) ==> Blocked(spec)
      ensures old(requests) <= requests <= old(requests) + policy.maxRedirects + 1
      ensures old(requests) <= policy.maxRequests ==> requests <= policy.maxRequests
    {
      hide Collected, Ends, Expects, Regular, RegularWindow, RegularAttempt, WellRecorded, CacheReady, SubBodies, Intact, Past, Blocked,
           Path, Transcribes, NextUrl, Reports, RoundOf, HopOf, Spent, IsOutcome, Temporary;
      PastIsKept();
      hide Kept;
      attempts, bodies, status, error := previous, held, InProgress, None;
      var url, hop := spec.url, 0;
      BudgetGrows(policy, round);
      EmptyWindow(policy, spec, wire, requests);
      hide Budget;
      while true
        invariant hop <= policy.maxRedirects && |attempts| <= Budget(policy, round) + hop
        invariant Collected(InProgressOf(spec, attempts), bodies) && net.official(url)
        invariant Expects(net, policy, spec, bodies.at, attempts, Tracker(url, round, hop))
        invariant Along(spec, from, attempts) && NextUrl(net, policy, spec, attempts) == Some(url) && Counts(attempts, round, hop)
        invariant Regular(attempts) <==> Regular(previous) && RegularWindow(policy, spec, wire, old(requests), requests)
        invariant old(CacheReady(spec)) && Regular(attempts) ==> CacheReady(spec) && old(Trail()) <= Trail()
        invariant Kept(old(Past()), Past()) && (old(Intact()) ==> Intact())
        invariant old(requests) <= requests <= old(requests) + hop
        invariant old(requests) <= policy.maxRequests ==> requests <= policy.maxRequests
        decreases policy.maxRedirects - hop
      {
        t := Tracker(url, round, hop);
        var a;
        ghost var before, past := requests, Past();
        attempts, bodies, a := Try(spec, url, attempts, bodies, t, from, round, hop);
        WindowSplits(policy, spec, wire, old(requests), before, requests);
        error := Note(spec, attempts, bodies, t);
        KeptTransitively(old(Past()), past, Past());
        if error.Some? {
          return;
        }
        if !IsRedirect(a.status) {
          PlainAttempt(net, policy, spec, wire, from + (|attempts| - 1), attempts);
          status := OutcomeOf(a);
          return;
        }
        RedirectAttempt(net, policy, spec, wire, from + (|attempts| - 1), attempts);
        if hop < policy.maxRedirects && a.location.Some? && a.location.value != ""
           && (spec.verb == GET || KeepsMethod(a.status)) && net.official(Joined(net, url, a.location)) {
          url := Joined(net, url, a.location);
          NextIsExpected(net, policy, spec, bodies.at, attempts, t, Tracker(url, round, hop + 1));
          hop := hop + 1;
        } else {
          status := RedirectRejected;
          return;
        }
      }
    }

    /** What the last attempt of a round comes to, and whether another round follows. */
    ghost predicate Leads(spec: Spec, attempts: seq<Attempt>, status: Status)
      requires attempts != []
    {
      var last := attempts[|attempts| - 1];
      && IsOutcome(last, status) && (Retryable(last) <==> Temporary(last)) && (Temporary(last) ==> !Redirects(last))
      && NextUrl(net, policy, spec, attempts) == if Temporary(last) && RoundOf(attempts) < policy.retries then Some(spec.url) else None
    }

    /** One more attempt of a trace. */
    method Try(spec: Spec, url: Url, previous: seq<Attempt>, held: Bodies, ghost t: Tracker, ghost from: nat, ghost round: nat, ghost hop: nat)
      returns (attempts: seq<Attempt>, bodies: Bodies, a: Attempt)
      requires net.official(url) && t.expected == url && Collected(InProgressOf(spec, previous), held)
      requires Expects(net, policy, spec, held.at, previous, t)
      requires Along(spec, from, previous) && NextUrl(net, policy, spec, previous) == Some(url) && Counts(previous, round, hop)
      modifies this`requests
      ensures Along(spec, from, attempts) && RoundOf(attempts) == round && HopOf(attempts) == hop
      ensures Reports(policy, spec, wire, from + |previous|, a)
      ensures attempts == previous + [a] && Answered(a) && a.url == url
      ensures Collected(InProgressOf(spec, attempts), bodies) && Ends(net, policy, spec, bodies.at, attempts, t)
      ensures Regular(attempts) <==> Regular(previous) && RegularWindow(policy, spec, wire, old(requests), requests)
      ensures old(requests) <= requests <= old(requests) + 1
      ensures old(requests) <= policy.maxRequests ==> requests <= policy.maxRequests
    {
      hide Expects, Regular, RegularWindow, RegularAttempt, Path, NextUrl, Transcribes, Reports, RoundOf, HopOf, Counts, Spent;
      a, bodies := Perform(spec, url, held);
      attempts := previous + [a];
      ReportsSpent(policy, spec, wire, from, |previous|, a);
      PathGrows(net, policy, spec, wire, from, previous, a);
      CountedStep(previous, a, round, hop);
      ExpectsStable(net, policy, spec, held.at, bodies.at, previous, t);
      RegularSnoc(attempts);
      DigestsSnoc(InProgressOf(spec, previous), a);
    }

    /** The rounds of a fetch that found no usable capture in the cache. */
    method Acquire(spec: Spec) returns (r: Result<Stored, FetchError>)
      requires WellFormed(net, spec)
      modifies this`requests, cache
      ensures r.Ok? ==> Accepts(net, policy, r.value.capture, r.value.blobs) && r.value.capture.request == spec && r.value.capture.status != InProgress
      ensures r.Ok? ==> Exact(r.value)
      ensures r.Ok? ==> IsTrace(net, policy, spec, wire, old(requests), r.value.capture.attempts, r.value.capture.status)
                        && requests == Spent(policy, old(requests), |r.value.capture.attempts|)
      ensures r.Err? && r.error.Invalid? ==> !RegularWindow(policy, spec, wire, old(requests), requests)
      ensures r.Ok? ==> RegularWindow(policy, spec, wire, old(requests), requests)
      ensures r.Ok? || r.error.Invalid? || (cache != null && r.error.CacheFailed?)
      ensures old(CacheReady(spec)) && RegularWindow(policy, spec, wire, old(requests), requests) ==>
                r.Ok? && (cache != null ==> cache.Valid() && old(Trail()) <= Trail()
                                            && CaptureId(r.value.capture) in HistoryOf(cache.disk, RequestId(spec))
                                            && (r.value.capture.status == Captured ==> EndsWith(HistoryOf(cache.disk, RequestId(spec)), r.value.capture)))
      ensures Kept(old(Past()), Past()) && (old(Intact()) ==> Intact() && (r.Err? ==> r.error.Invalid?))
      ensures cache != null && r.Err? && r.error.Invalid? ==> Blocked(spec)
      ensures old(requests) <= requests <= old(requests) + Budget(policy, policy.retries + 1)
      ensures old(requests) <= policy.maxRequests ==> requests <= policy.maxRequests
    {
      hide Collected, Ends, Expects, Regular, RegularWindow, RegularAttempt, WellRecorded, Budget, Verdict, Intact, Past, Tainted, CacheReady, Accepts, Exact, EndsWith,
           Retryable, Path, Transcribes, NextUrl, RoundOf, HopOf, Spent, IsOutcome, Temporary;
      PastIsKept();
      hide Kept;
      var attempts: seq<Attempt>, bodies: Bodies := [], Dict([], map[]);
      var round, status, error := 0, InProgress, None;
      ghost var t;
      StartOfTrace(net, policy, spec, wire, requests);
      assert Along(spec, requests, []) && NextUrl(net, policy, spec, []) == Some(spec.url) && Counts([], 0, 0) by {
        NothingAlong(spec);
      }
      while true
        invariant round <= policy.retries && |attempts| <= Budget(policy, round)
        invariant Collected(InProgressOf(spec, attempts), bodies)
        invariant Expects(net, policy, spec, bodies.at, attempts, Tracker(spec.url, round, 0))
        invariant Along(spec, old(requests), attempts) && NextUrl(net, policy, spec, attempts) == Some(spec.url) && Counts(attempts, round, 0)
        invariant Regular(attempts) <==> RegularWindow(policy, spec, wire, old(requests), requests)
        invariant old(CacheReady(spec)) && Regular(attempts) ==> CacheReady(spec) && old(Trail()) <= Trail()
        invariant Kept(old(Past()), Past()) && (old(Intact()) ==> Intact())
        invariant old(requests) <= requests <= old(requests) + Budget(policy, round)
        invariant old(requests) <= policy.maxRequests ==> requests <= policy.maxRequests
        decreases policy.retries - round
      {
        BudgetGrows(policy, round);
        ghost var before, past := requests, Past();
        attempts, bodies, status, error, t := Chase(spec, round, attempts, bodies, old(requests));
        WindowSplits(policy, spec, wire, old(requests), before, requests);
        KeptTransitively(old(Past()), past, Past());
        if error.Some? {
          return Err(CacheFailed(error.value));
        }
        if round == policy.retries || !Retryable(attempts[|attempts| - 1]) {
          break;
        }
        RetryFollows(net, policy, spec, bodies.at, attempts, t);
        NextIsExpected(net, policy, spec, bodies.at, attempts, t, Tracker(spec.url, round + 1, 0));
        round := round + 1;
      }
      BudgetGrows(policy, round);
      ghost var past := Past();
      r := Conclude(spec, attempts, bodies, status, t);
      KeptTransitively(old(Past()), past, Past());
    }

    lemma NothingAlong(spec: Spec)
      ensures Along(spec, requests, []) && NextUrl(net, policy, spec, []) == Some(spec.url) && Counts([], 0, 0)
    {}

    /** The finished trace is judged by the acceptor, and kept if it is accepted. */
    method Conclude(spec: Spec, attempts: seq<Attempt>, bodies: Bodies, status: Status, ghost t: Tracker) returns (r: Result<Stored, FetchError>)
      requires WellFormed(net, spec) && Collected(InProgressOf(spec, attempts), bodies) && StatusFits(attempts, status)
      requires Ends(net, policy, spec, bodies.at, attempts, t)
      requires |attempts| <= (policy.retries + 1) * (policy.maxRedirects + 1)
      modifies cache
      ensures r.Ok? ==> Accepts(net, policy, r.value.capture, r.value.blobs) && r.value.capture.request == spec && r.value.capture.status != InProgress
      ensures r.Ok? ==> Exact(r.value) && Regular(attempts) && r.value.capture == Record(spec, RequestId(spec), attempts, status)
      ensures r.Ok? || r.error.Invalid? || (cache != null && r.error.CacheFailed?)
      ensures r.Err? && r.error.Invalid? ==> !Regular(attempts) && (cache != null ==> cache.disk == old(cache.disk))
      ensures old(CacheReady(spec)) && Regular(attempts) ==>
                r.Ok? && (cache != null ==> cache.Valid() && old(Trail()) <= Trail()
                                            && CaptureId(r.value.capture) in HistoryOf(cache.disk, RequestId(spec))
                                            && (r.value.capture.status == Captured ==> EndsWith(HistoryOf(cache.disk, RequestId(spec)), r.value.capture)))
      ensures Kept(old(Past()), Past()) && (old(Intact()) ==> Intact() && (r.Err? ==> r.error.Invalid?))
    {
      hide Collected, Ends, Regular, Verdict, Intact, Past, Kept, CacheReady;
      PastIsKept();
      var c := Record(spec, RequestId(spec), attempts, status);
      TraceAcceptedIff(net, policy, c, bodies.at, t);
      var reason := ValidateCapture(net, policy, c, bodies.at);
      if reason.Some? {
        return Err(Invalid(reason.value));
      }
      CollectedForAny(InProgressOf(spec, attempts), c, bodies);
      var error := Keep(c, bodies);
      return if error.None? then Ok(Stored(c, bodies.at)) else Err(CacheFailed(error.value));
    }

    /** Save the finished capture. */
    method Keep(c: Record, bodies: Bodies) returns (error: Option<CacheError>)
      requires Collected(c, bodies) && Accepts(net, policy, c, bodies.at) && c.id == RequestId(c.request)
      modifies cache
      ensures cache == null ==> error.None?
      ensures old(CacheReady(c.request)) ==>
                error.None? && (cache != null ==> cache.Valid() && old(Trail()) <= Trail()
                                                  && CaptureId(c) in HistoryOf(cache.disk, c.id)
                                                  && (c.status == Captured ==> EndsWith(HistoryOf(cache.disk, c.id), c)))
      ensures Kept(old(Past()), Past()) && (old(Intact()) ==> error.None? && Intact())
    {
      hide Collected, Accepts, NoneCaptured, CaptureCache.Valid, Saved, HistoryOf, Kept, HashesMatch;
      PastIsKept();
      if cache == null {
        return None;
      }
      SaveKeeps(cache.disk, c, bodies);
      error := cache.Save(c, bodies);
    }

    /** Client and cache work for the same hosts under the same limits. */
    ghost predicate Configured() {
      cache != null ==> cache.net == net && cache.policy == policy
    }

    ghost predicate CacheSound()
      reads cache
    {
      cache != null ==> cache.Valid()
    }

    /** The cache holds a successful capture of the request, which is then its last one. */
    ghost predicate HasCapture(spec: Spec)
      reads cache
    {
      cache != null && HistoryOf(cache.disk, RequestId(spec)) != [] && LastCapture(spec).status == Captured
    }

    /** The cache has no usable capture: none at all, or a failure that is to be retried. */
    ghost predicate MustFetch(spec: Spec)
      reads cache
    {
      || cache == null || HistoryOf(cache.disk, RequestId(spec)) == []
      || (retryFailed && LastCapture(spec).status != Captured)
    }

    ghost function LastCapture(spec: Spec): Record
      requires cache != null && HistoryOf(cache.disk, RequestId(spec)) != []
      reads cache
    {
      var history := HistoryOf(cache.disk, RequestId(spec));
      history[|history| - 1].capture
    }

    /** What the cache has for a request: a usable capture, an unreadable history, or nothing. */
    method Cached(spec: Spec) returns (r: Option<Result<Stored, FetchError>>)
      requires Configured()
      ensures r.Some? && r.value.Ok? ==>
                Accepts(net, policy, r.value.value.capture, r.value.value.blobs) && r.value.value.capture.request == spec && Exact(r.value.value)
      ensures r.Some? && r.value.Err? ==> r.value.error.CacheFailed?
      ensures CacheSound() ==>
                && (r.Some? ==> r.value.Ok?) && (r.None? ==> CacheReady(spec))
                && (HasCapture(spec) ==> r.Some? && r.value.value.capture == LastCapture(spec))
                && (r.Some? && r.value.value.capture.status == Captured ==> HasCapture(spec) && LastCapture(spec) == r.value.value.capture)
      ensures Blocked(spec) ==> r.Some? && r.value.Err?
      ensures r.Some? && r.value.Ok? ==> !MustFetch(spec)
      ensures CacheSound() && !MustFetch(spec) ==> r.Some? && r.value.Ok? && r.value.value.capture == LastCapture(spec)
    {
      hide Accepts, Loaded, JournalOk, Grows, Tainted;
      if cache == null {
        return None;
      }
      var cached := cache.Load(spec);
      LoadedIsAccepted(net, policy, cache.disk, spec);
      LoadedIsLast(net, policy, cache.disk, spec);
      if Blocked(spec) {
        TaintedBlocks(net, policy, cache.disk, spec);
      }
      if CacheSound() {
        LastIsLoaded(net, policy, cache.disk, spec);
      }
      if cached.Err? {
        return Some(Err(CacheFailed(cached.error)));
      }
      if cached.value.Some? && (cached.value.value.capture.status == Captured || !retryFailed) {
        return Some(Ok(cached.value.value));
      }
      return None;
    }

    twostate lemma BlockedStays(s: Spec)
      requires Kept(old(Past()), Past()) && old(Blocked(s))
      ensures Blocked(s)
    {
      hide Kept, Tainted;
      TaintStays(old(cache.disk), cache.disk, RequestId(s));
    }

    /** fetch. Every result is accepted. A cached success is returned without any exchange; a new
        result comes of a trace that is accepted exactly if all its exchanges were regular; and then
        the journal can be read back at every moment, ends with a success, and finds it again. After
        an irregular exchange the request is blocked for good: every later fetch of it fails before
        any exchange, whatever is fetched in between. */
    method Fetch(spec: Spec) returns (r: Result<Stored, FetchError>)
      requires Configured() && (spec.verb == GET ==> spec.form == map[])
      modifies this`requests, cache
      ensures r.Ok? ==> Accepts(net, policy, r.value.capture, r.value.blobs) && r.value.capture.request == spec && Exact(r.value)
      ensures r.Ok? && old(MustFetch(spec)) ==>
                && IsTrace(net, policy, spec, wire, old(requests), r.value.capture.attempts, r.value.capture.status)
                && requests == Spent(policy, old(requests), |r.value.capture.attempts|)
      ensures old(CacheSound()) && !old(MustFetch(spec)) && net.official(spec.url) ==>
                r.Ok? && r.value.capture == old(LastCapture(spec)) && requests == old(requests) && cache.disk == old(cache.disk)
      ensures r.Err? && r.error.Invalid? ==> !RegularWindow(policy, spec, wire, old(requests), requests)
      ensures r.Ok? ==> RegularWindow(policy, spec, wire, old(requests), requests)
      ensures old(requests) <= requests <= old(requests) + Budget(policy, policy.retries + 1)
      ensures old(requests) <= policy.maxRequests ==> requests <= policy.maxRequests
      ensures r == Err(UnsafeRequest) <==> !net.official(spec.url)
      ensures old(CacheSound()) && RegularWindow(policy, spec, wire, old(requests), requests) ==>
                && (r.Ok? || r.error == UnsafeRequest || (!authorized && r.error == NotAuthorized))
                && CacheSound() && old(Trail()) <= Trail()
      ensures old(CacheSound()) && old(HasCapture(spec)) && net.official(spec.url) ==>
                r.Ok? && r.value.capture == old(LastCapture(spec)) && requests == old(requests) && cache.disk == old(cache.disk)
      ensures old(CacheSound()) && cache != null && r.Ok? && r.value.capture.status == Captured ==>
                HasCapture(spec) && LastCapture(spec) == r.value.capture
      ensures old(Intact()) ==> Intact() && (!RegularWindow(policy, spec, wire, old(requests), requests) ==> r.Err? && r.error.Invalid?)
      ensures cache != null && r.Err? && r.error.Invalid? ==> Blocked(spec)
      ensures old(Blocked(spec)) && net.official(spec.url) ==>
                r.Err? && r.error.CacheFailed? && requests == old(requests) && cache.disk == old(cache.disk)
      ensures forall s :: old(Blocked(s)) ==> Blocked(s)
    {
      hide Accepts, Budget, RegularWindow, JournalOk, Grows, Kept, CacheReady, Intact, Blocked, Past, LastCapture;
      PastIsKept();
      EmptyWindow(policy, spec, wire, requests);
      if !net.official(spec.url) {
        return Err(UnsafeRequest);
      }
      var cached := Cached(spec);
      if cached.Some? {
        return cached.value;
      }
      if !authorized {
        return Err(NotAuthorized);
      }
      r := Acquire(spec);
      forall s | old(Blocked(s))
        ensures Blocked(s)
      {
        BlockedStays(s);
      }
      AcquiredIsLast(spec, r);
    }

    lemma AcquiredIsLast(spec: Spec, r: Result<Stored, FetchError>)
      ensures cache != null && r.Ok? && r.value.capture.status == Captured && EndsWith(HistoryOf(cache.disk, RequestId(spec)), r.value.capture) ==>
                HasCapture(spec) && LastCapture(spec) == r.value.capture
    {}
  }
}
