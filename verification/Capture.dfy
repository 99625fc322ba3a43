/** HTTP captures: what a bounded fetch records, the independent acceptor of such records, and the
    journal they are kept in (src/ashare_quant/data/announcement_http.py). A digest or payload hash
    is modelled by the value it was taken of, which is an injective function. */
module Capture {
  import opened Basics

  type Url = nat
  type Body = seq<bv8>
  type Form = map<string, string>

  datatype Digest = Digest(body: Body)

  datatype Verb = GET | POST

  datatype Spec = Spec(url: Url, verb: Verb, form: Form)

  /** Allow-listing and reference resolution (section 5 of RFC 3986), both uninterpreted. */
  datatype Net = Net(official: Url -> bool, join: (Url, string) -> Url)

  datatype Limits = Limits(retries: nat, maxRedirects: nat, maxRequests: nat, responseBytes: nat, pdfBytes: nat)

  datatype Fault =
    | Timeout
    | NetworkError
    | ResponseTooLarge
    | ResponseTruncated
    | EncodingUnsupported
    | NonPublicAddress
    | DnsEmpty
    | RequestLimit
    | UnsafeUrl
    | Unlisted

  datatype Attempt = Attempt(
    url: Url,
    status: Option<int>,
    body: Option<Digest>,
    size: nat,
    location: Option<string>,
    error: Option<Fault>)

  datatype Status =
    | InProgress
    | RedirectRejected
    | Captured
    | PermissionRequired
    | RateLimited
    | ServerRejected
    | HttpError
    | Faulted(fault: Fault)

  datatype RequestId = RequestId(spec: Spec)

  datatype Record = Record(request: Spec, id: RequestId, attempts: seq<Attempt>, status: Status)

  type Blobs = map<Digest, Body>

  /** Every body of one set of blobs is in another. */
  ghost predicate SubBodies(small: Blobs, large: Blobs) {
    forall h :: h in small ==> h in large && large[h] == small[h]
  }

  predicate IsRedirect(status: Option<int>) {
    status.Some? && status.value in {301, 302, 303, 307, 308}
  }

  /** The redirect statuses that keep the method (sections 15.4.8 and 15.4.9 of RFC 9110). */
  predicate KeepsMethod(status: Option<int>) {
    status.Some? && status.value in {307, 308}
  }

  predicate Retryable(a: Attempt) {
    a.error in {Some(Timeout), Some(NetworkError)} || a.status in {Some(500), Some(502), Some(504)}
  }

  /** request_spec: a GET carries no form. */
  predicate WellFormed(net: Net, spec: Spec) {
    net.official(spec.url) && (spec.verb == GET ==> spec.form == map[])
  }

  function Cap(policy: Limits, spec: Spec): nat {
    if spec.verb == GET then policy.pdfBytes else policy.responseBytes
  }

  predicate Answered(a: Attempt) {
    a.error.Some? || a.status.Some?
  }

  function OutcomeOf(a: Attempt): Status
    requires Answered(a)
  {
    if a.error.Some? then Faulted(a.error.value)
    else if a.status.value == 200 then Captured
    else if a.status.value in {401, 403} then PermissionRequired
    else if a.status.value == 429 then RateLimited
    else if a.status.value >= 500 then ServerRejected
    else HttpError
  }

  /** official_url(urljoin(url, location)) before the allow-list: an empty reference is the base. */
  function Joined(net: Net, url: Url, location: Option<string>): Url {
    match location
    case None => url
    case Some(l) => if l == "" then url else net.join(url, l)
  }

  // ----- the acceptor -----

  datatype Reason =
    | RequestSchema
    | RequestIdWrong
    | AttemptLimit
    | RedirectChain
    | UnsafeAttempt
    | CaptureError
    | HttpStatusSchema
    | BlobMissing
    | ResponseHash
    | BodyTooLarge
    | MissingResponse
    | RedirectLimit
    | PostRedirectRewrite
    | RetryLimit
    | RetryNotAllowed
    | CaptureStatus
    | RedirectStatus

  /** Where the acceptor stands between two attempts. */
  datatype Tracker = Tracker(expected: Url, retries: nat, redirects: nat)

  function CheckAttempt(net: Net, policy: Limits, spec: Spec, blobs: Blobs, expected: Url, a: Attempt): (r: Option<Reason>)
    ensures r.None? ==> Answered(a)
  {
    if a.url != expected then Some(RedirectChain)
    else if !net.official(a.url) then Some(UnsafeAttempt)
    else if a.error == Some(Unlisted) then Some(CaptureError)
    else if a.body.Some? then
      if !(a.status.Some? && 100 <= a.status.value <= 599 && a.error.None?) then Some(HttpStatusSchema)
      else if a.body.value !in blobs then Some(BlobMissing)
      else if Digest(blobs[a.body.value]) != a.body.value || |blobs[a.body.value]| != a.size then Some(ResponseHash)
      else if |blobs[a.body.value]| > Cap(policy, spec) then Some(BodyTooLarge)
      else None
    else if a.error.None? || a.status.Some? then Some(MissingResponse)
    else None
  }

  /** What one attempt makes the acceptor expect of the next. */
  function Follow(net: Net, policy: Limits, spec: Spec, t: Tracker, a: Attempt): Result<Tracker, Reason> {
    if IsRedirect(a.status) then
      if t.redirects + 1 > policy.maxRedirects then Err(RedirectLimit)
      else if spec.verb != GET && !KeepsMethod(a.status) then Err(PostRedirectRewrite)
      else if !net.official(Joined(net, a.url, a.location)) then Err(UnsafeAttempt)
      else Ok(Tracker(Joined(net, a.url, a.location), t.retries, t.redirects + 1))
    else if t.retries + 1 > policy.retries then Err(RetryLimit)
    else if !Retryable(a) then Err(RetryNotAllowed)
    else Ok(Tracker(spec.url, t.retries + 1, 0))
  }

  /** The acceptor after the first n attempts, each checked and followed by another. */
  function Track(net: Net, policy: Limits, spec: Spec, blobs: Blobs, attempts: seq<Attempt>, n: nat): Result<Tracker, Reason>
    requires n <= |attempts|
  {
    if n == 0 then Ok(Tracker(spec.url, 0, 0))
    else
      var t :- Track(net, policy, spec, blobs, attempts, n - 1);
      match CheckAttempt(net, policy, spec, blobs, t.expected, attempts[n - 1])
      case Some(reason) => Err(reason)
      case None => Follow(net, policy, spec, t, attempts[n - 1])
  }

  function CheckStatus(c: Record): Option<Reason>
    requires c.attempts != [] && Answered(c.attempts[|c.attempts| - 1])
  {
    var last := c.attempts[|c.attempts| - 1];
    if c.status != OutcomeOf(last) && c.status != InProgress && c.status != RedirectRejected then Some(CaptureStatus)
    else if c.status == RedirectRejected && !IsRedirect(last.status) then Some(RedirectStatus)
    else None
  }

  function CheckLast(net: Net, policy: Limits, blobs: Blobs, c: Record, t: Tracker): Option<Reason>
    requires c.attempts != []
  {
    match CheckAttempt(net, policy, c.request, blobs, t.expected, c.attempts[|c.attempts| - 1])
    case Some(reason) => Some(reason)
    case None => CheckStatus(c)
  }

  /** validate_capture: None accepts. */
  function Verdict(net: Net, policy: Limits, c: Record, blobs: Blobs): Option<Reason> {
    if !WellFormed(net, c.request) then Some(RequestSchema)
    else if c.id != RequestId(c.request) then Some(RequestIdWrong)
    else if !(0 < |c.attempts| <= (policy.retries + 1) * (policy.maxRedirects + 1)) then Some(AttemptLimit)
    else
      match Track(net, policy, c.request, blobs, c.attempts, |c.attempts| - 1)
      case Err(reason) => Some(reason)
      case Ok(t) => CheckLast(net, policy, blobs, c, t)
  }

  predicate Accepts(net: Net, policy: Limits, c: Record, blobs: Blobs) {
    Verdict(net, policy, c, blobs).None?
  }

  lemma {:induction false} TrackFailed(net: Net, policy: Limits, spec: Spec, blobs: Blobs, attempts: seq<Attempt>, k: nat, n: nat, reason: Reason)
    requires k <= n <= |attempts| && Track(net, policy, spec, blobs, attempts, k) == Err(reason)
    ensures Track(net, policy, spec, blobs, attempts, n) == Err(reason)
  {
    hide CheckAttempt, Follow;
    if k < n {
      TrackFailed(net, policy, spec, blobs, attempts, k, n - 1, reason);
    }
  }

  /** The acceptor as it runs. */
  method ValidateCapture(net: Net, policy: Limits, c: Record, blobs: Blobs) returns (reason: Option<Reason>)
    ensures reason == Verdict(net, policy, c, blobs)
  {
    hide CheckAttempt, WellFormed, CheckStatus;
    if !WellFormed(net, c.request) {
      return Some(RequestSchema);
    }
    if c.id != RequestId(c.request) {
      return Some(RequestIdWrong);
    }
    var attempts, spec := c.attempts, c.request;
    if !(0 < |attempts| <= (policy.retries + 1) * (policy.maxRedirects + 1)) {
      return Some(AttemptLimit);
    }
    var expected, retries, redirects := spec.url, 0, 0;
    for i := 0 to |attempts| - 1
      invariant Track(net, policy, spec, blobs, attempts, i) == Ok(Tracker(expected, retries, redirects))
    {
      var a := attempts[i];
      reason := CheckAttempt(net, policy, spec, blobs, expected, a);
      if reason.None? {
        if IsRedirect(a.status) {
          redirects := redirects + 1;
          if redirects > policy.maxRedirects {
            reason := Some(RedirectLimit);
          } else if spec.verb != GET && !KeepsMethod(a.status) {
            reason := Some(PostRedirectRewrite);
          } else if !net.official(Joined(net, a.url, a.location)) {
            reason := Some(UnsafeAttempt);
          } else {
            expected := Joined(net, a.url, a.location);
          }
        } else {
          retries, redirects := retries + 1, 0;
          if retries > policy.retries {
            reason := Some(RetryLimit);
          } else if !Retryable(a) {
            reason := Some(RetryNotAllowed);
          } else {
            expected := spec.url;
          }
        }
      }
      if reason.Some? {
        TrackFailed(net, policy, spec, blobs, attempts, i + 1, |attempts| - 1, reason.value);
        return;
      }
    }
    reason := CheckAttempt(net, policy, spec, blobs, expected, attempts[|attempts| - 1]);
    if reason.None? {
      reason := CheckStatus(c);
    }
  }
}
