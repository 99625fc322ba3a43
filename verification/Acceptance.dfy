/** What the acceptor of captures accepts, read off the record: where each attempt has to go, what it has
    to carry, and what the status has to say (validate_capture in
    src/ashare_quant/data/announcement_http.py). */
module Acceptance {
  import opened Basics
  import opened Capture
  import opened Fetch

  /** Where a redirect leads; without a location, to the same url again. */
  ghost function Target(net: Net, a: Attempt): Url {
    match a.location
    case None => a.url
    case Some(l) => if l == "" then a.url else net.join(a.url, l)
  }

  /** Where the attempt after these may go, if there may be one. */
  ghost function Allowed(net: Net, policy: Limits, spec: Spec, attempts: seq<Attempt>): Option<Url> {
    if attempts == [] then Some(spec.url)
    else
      var last := attempts[|attempts| - 1];
      if Redirects(last) then
        if HopOf(attempts) < policy.maxRedirects && (spec.verb == POST ==> last.status in {Some(307), Some(308)})
           && net.official(Target(net, last))
        then Some(Target(net, last)) else None
      else if Temporary(last) && RoundOf(attempts) < policy.retries then Some(spec.url)
      else None
  }

  /** An answer with its body at hand, or a listed failure. */
  ghost predicate Proper(net: Net, policy: Limits, spec: Spec, blobs: Blobs, a: Attempt) {
    && net.official(a.url)
    && match a.body
       case None => a.status == None && a.error.Some? && a.error != Some(Unlisted)
       case Some(digest) =>
         && a.error == None && a.status.Some? && 100 <= a.status.value && a.status.value <= 599
         && digest in blobs && Digest(blobs[digest]) == digest && a.size == |blobs[digest]|
         && a.size <= (if spec.verb == GET then policy.pdfBytes else policy.responseBytes)
  }

  /** Each of the first n attempts goes where the ones before it lead, and is proper. */
  ghost predicate Orderly(net: Net, policy: Limits, spec: Spec, blobs: Blobs, attempts: seq<Attempt>, n: nat)
    requires n <= |attempts|
  {
    forall i :: 0 <= i < n ==> Allowed(net, policy, spec, attempts[..i]) == Some(attempts[i].url) && Proper(net, policy, spec, blobs, attempts[i])
  }

  /** What the status may say of the last attempt. A redirect may be called rejected or an error. */
  ghost predicate MayRead(a: Attempt, status: Status) {
    status == InProgress || IsOutcome(a, status) || (Redirects(a) && status == HttpError)
  }

  ghost predicate Acceptable(net: Net, policy: Limits, c: Record, blobs: Blobs) {
    && net.official(c.request.url) && (c.request.verb == GET ==> c.request.form == map[])
    && c.id == RequestId(c.request)
    && 1 <= |c.attempts| && |c.attempts| <= (policy.retries + 1) * (policy.maxRedirects + 1)
    && Orderly(net, policy, c.request, blobs, c.attempts, |c.attempts|)
    && MayRead(c.attempts[|c.attempts| - 1], c.status)
  }

  lemma CheckedIff(net: Net, policy: Limits, spec: Spec, blobs: Blobs, expected: Url, a: Attempt)
    ensures CheckAttempt(net, policy, spec, blobs, expected, a).None? <==> a.url == expected && Proper(net, policy, spec, blobs, a)
  {}

  /** An attempt is followed by another exactly where that is allowed. */
  lemma FollowIff(net: Net, policy: Limits, spec: Spec, attempts: seq<Attempt>, t: Tracker)
    requires attempts != [] && RoundOf(attempts) == t.retries && HopOf(attempts) == t.redirects
    ensures var next := Follow(net, policy, spec, t, attempts[|attempts| - 1]);
            && (next.Ok? <==> Allowed(net, policy, spec, attempts).Some?)
            && (next.Ok? ==> Allowed(net, policy, spec, attempts) == Some(next.value.expected)
                             && Counts(attempts, next.value.retries, next.value.redirects))
  {
    hide RoundOf, HopOf;
  }

  lemma {:induction false} TrackIff(net: Net, policy: Limits, spec: Spec, blobs: Blobs, attempts: seq<Attempt>, n: nat)
    requires n <= |attempts|
    ensures var t := Track(net, policy, spec, blobs, attempts, n);
            && (t.Ok? <==> Orderly(net, policy, spec, blobs, attempts, n) && Allowed(net, policy, spec, attempts[..n]).Some?)
            && (t.Ok? ==> Allowed(net, policy, spec, attempts[..n]) == Some(t.value.expected)
                          && Counts(attempts[..n], t.value.retries, t.value.redirects))
  {
    hide CheckAttempt, Follow, Proper, Allowed, Counts;
    if n == 0 {
      assert attempts[..0] == [];
      NothingTracked(net, policy, spec);
    } else {
      TrackIff(net, policy, spec, blobs, attempts, n - 1);
      var before := Track(net, policy, spec, blobs, attempts, n - 1);
      assert attempts[..n] == attempts[..n - 1] + [attempts[n - 1]];
      if before.Ok? {
        CheckedIff(net, policy, spec, blobs, before.value.expected, attempts[n - 1]);
        CountedStep(attempts[..n - 1], attempts[n - 1], before.value.retries, before.value.redirects);
        FollowIff(net, policy, spec, attempts[..n], before.value);
      }
    }
  }

  lemma NothingTracked(net: Net, policy: Limits, spec: Spec)
    ensures Allowed(net, policy, spec, []) == Some(spec.url) && Counts([], 0, 0)
  {}

  lemma StatusIff(policy: Limits, c: Record)
    requires c.attempts != [] && Answered(c.attempts[|c.attempts| - 1])
    requires var last := c.attempts[|c.attempts| - 1]; last.error.Some? ==> last.status.None?
    ensures CheckStatus(c).None? <==> MayRead(c.attempts[|c.attempts| - 1], c.status)
  {}

  lemma ProperIsAnswered(net: Net, policy: Limits, spec: Spec, blobs: Blobs, a: Attempt)
    requires Proper(net, policy, spec, blobs, a)
    ensures Answered(a) && (a.error.Some? ==> a.status.None?)
  {}

  /** The acceptor accepts exactly the acceptable records. */
  lemma AcceptsIff(net: Net, policy: Limits, c: Record, blobs: Blobs)
    ensures Accepts(net, policy, c, blobs) <==> Acceptable(net, policy, c, blobs)
  {
    hide CheckAttempt, Track, Proper, Allowed, CheckStatus, MayRead, Counts;
    if c.attempts != [] {
      var n, last := |c.attempts| - 1, c.attempts[|c.attempts| - 1];
      TrackIff(net, policy, c.request, blobs, c.attempts, n);
      var t := Track(net, policy, c.request, blobs, c.attempts, n);
      assert Orderly(net, policy, c.request, blobs, c.attempts, n + 1) <==>
             Orderly(net, policy, c.request, blobs, c.attempts, n)
             && Allowed(net, policy, c.request, c.attempts[..n]) == Some(last.url) && Proper(net, policy, c.request, blobs, last);
      if t.Ok? {
        CheckedIff(net, policy, c.request, blobs, t.value.expected, last);
        if Proper(net, policy, c.request, blobs, last) {
          ProperIsAnswered(net, policy, c.request, blobs, last);
          StatusIff(policy, c);
        }
      }
    }
  }
}
