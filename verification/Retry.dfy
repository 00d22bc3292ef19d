/** The two retry loops of the gateway.  The network is an object that answers each request as it likes and keeps a
    log of everything that left the process; the loops are specified by the answers they happened to get. */
module Retry {
  import opened Common

  /** One HTTP attempt: an answer, a timeout, or a client error.  Any status may come back, whatever RFC 9110 allows. */
  datatype Outcome = Response(status: int, body: string) | TimedOut | NetworkFailed(message: string) {
    /** Section 15.3 of RFC 9110. */
    predicate IsSuccess() { Response? && 200 <= status < 300 }

    /** The loops try again after a server error (section 15.6 of RFC 9110), a timeout or a network error. */
    predicate IsRetryable() { !Response? || status >= 500 }
  }

  /** `Slept(unit, times)` is a pause of unit * times seconds. */
  datatype Event = Sent(url: string, outcome: Outcome) | Slept(unit: real, times: nat)

  class Network {
    ghost var log: seq<Event>

    constructor ()
      ensures log == []
    {
      log := [];
    }

    method Request(url: string) returns (o: Outcome)
      modifies this
      ensures log == old(log) + [Sent(url, o)]
    {
      o := *;
      log := log + [Sent(url, o)];
    }

    method Sleep(unit: real, times: nat)
      modifies this
      ensures log == old(log) + [Slept(unit, times)]
    {
      log := log + [Slept(unit, times)];
    }
  }

  /** `errors` keeps the failed outcomes themselves instead of the texts made from them. */
  datatype Result = Result(ok: bool, attempts: nat, status: int, body: string, errors: seq<Outcome>)

  // ---------------------------------------------------------------- specification by outcomes

  /** The answers a retry loop may have seen: it went on only after retryable ones, and stopped early only for
      a reason. */
  ghost predicate RetriesOf(os: seq<Outcome>, maxRetries: int) {
    && |os| <= Max(0, maxRetries + 1)
    && (forall i :: 0 <= i < |os| - 1 ==> os[i].IsRetryable())
    && (|os| < maxRetries + 1 ==> os != [] && !os[|os| - 1].IsRetryable())
  }

  /** The status of the latest answer that had one, or 0. */
  function LastStatus(os: seq<Outcome>): int {
    if os == [] then 0
    else if os[|os| - 1].Response? then os[|os| - 1].status
    else LastStatus(os[..|os| - 1])
  }

  function LastBody(os: seq<Outcome>): string {
    if os == [] then ""
    else if os[|os| - 1].Response? then os[|os| - 1].body
    else LastBody(os[..|os| - 1])
  }

  function Succeeded(os: seq<Outcome>): bool { os != [] && os[|os| - 1].IsSuccess() }

  function ResultOf(os: seq<Outcome>, keepBody: bool): Result {
    Result(Succeeded(os), |os|, LastStatus(os), if Succeeded(os) || keepBody then LastBody(os) else "",
           if Succeeded(os) then os[..|os| - 1] else os)
  }

  /** Requests and pauses as they leave the process: before attempt k + 1 the loop sleeps k times the backoff. */
  function Exchange(url: string, os: seq<Outcome>, backoff: real): seq<Event> {
    if os == [] then []
    else if |os| == 1 then [Sent(url, os[0])]
    else Exchange(url, os[..|os| - 1], backoff) + [Slept(backoff, |os| - 1), Sent(url, os[|os| - 1])]
  }

  // ---------------------------------------------------------------- what the exchange adds up to

  function Requests(log: seq<Event>): nat {
    if log == [] then 0 else Requests(log[..|log| - 1]) + (if log[|log| - 1].Sent? then 1 else 0)
  }

  function TimeSlept(log: seq<Event>): real {
    if log == [] then 0.0
    else
      var e := log[|log| - 1];
      TimeSlept(log[..|log| - 1]) + (if e.Slept? then e.unit * e.times as real else 0.0)
  }

  lemma AppendEvents(log: seq<Event>, e: Event)
    ensures Requests(log + [e]) == Requests(log) + (if e.Sent? then 1 else 0)
    ensures TimeSlept(log + [e]) == TimeSlept(log) + (if e.Slept? then e.unit * e.times as real else 0.0)
  {
    assert (log + [e])[..|log|] == log;
  }

  function Triangle(n: nat): int { n * (n - 1) / 2 }

  lemma TriangleStep(n: nat)
    requires n >= 1
    ensures Triangle(n) == Triangle(n - 1) + (n - 1)
  {
    assert n * (n - 1) == (n - 1) * (n - 2) + 2 * (n - 1);
  }

  lemma ScaledSum(scale: real, a: int, b: int)
    ensures scale * (a + b) as real == scale * a as real + scale * b as real
  {
    assert (a + b) as real == a as real + b as real;
  }

  lemma AppendTwo(log: seq<Event>, unit: real, times: nat, sent: Event)
    requires sent.Sent?
    ensures Requests(log + [Slept(unit, times), sent]) == Requests(log) + 1
    ensures TimeSlept(log + [Slept(unit, times), sent]) == TimeSlept(log) + unit * times as real
  {
    AppendEvents(log, Slept(unit, times));
    AppendEvents(log + [Slept(unit, times)], sent);
    assert log + [Slept(unit, times), sent] == log + [Slept(unit, times)] + [sent];
  }

  /** For any answers: as many requests as attempts, backoff * n(n-1)/2 seconds of sleep, one error per failed
      attempt, and never more than max_retries + 1 attempts. */
  lemma {:induction false} RetryArithmetic(url: string, os: seq<Outcome>, backoff: real)
    ensures Requests(Exchange(url, os, backoff)) == |os|
    ensures TimeSlept(Exchange(url, os, backoff)) == backoff * Triangle(|os|) as real
  {
    if |os| == 1 {
      AppendEvents([], Sent(url, os[0]));
      assert [] + [Sent(url, os[0])] == [Sent(url, os[0])];
    } else if |os| > 1 {
      var n, front := |os|, os[..|os| - 1];
      RetryArithmetic(url, front, backoff);
      AppendTwo(Exchange(url, front, backoff), backoff, n - 1, Sent(url, os[n - 1]));
      TriangleStep(n);
      ScaledSum(backoff, Triangle(n - 1), n - 1);
    }
  }

  /** The log of an exchange: the requests at the even places, and after the k-th a pause of k times the backoff. */
  lemma {:induction false} ExchangeLayout(url: string, os: seq<Outcome>, backoff: real)
    ensures var log := Exchange(url, os, backoff);
            && |log| == (if os == [] then 0 else 2 * |os| - 1)
            && (forall k :: 0 <= k < |os| ==> log[2 * k] == Sent(url, os[k]))
            && forall k :: 1 <= k < |os| ==> log[2 * k - 1] == Slept(backoff, k)
  {
    if |os| > 1 { ExchangeLayout(url, os[..|os| - 1], backoff); }
  }

  /** `at` is the place of the latest outcome that was an answer; None when there is none. */
  ghost predicate IsLatestAnswer(os: seq<Outcome>, at: Option<nat>) {
    match at
    case None => forall i :: 0 <= i < |os| ==> !os[i].Response?
    case Some(k) => k < |os| && os[k].Response? && forall i :: k < i < |os| ==> !os[i].Response?
  }

  /** What a loop reports of its outcomes.  It goes on only after a timeout, a client error or a status from 500 up, and
      as long as a retry is left; it succeeds exactly on a last answer in 200..299; the status, and on demand the body,
      are those of the latest answer, 0 and "" without one; the errors are all outcomes but a success. */
  ghost predicate IsReport(os: seq<Outcome>, maxRetries: int, keepBody: bool, r: Result) {
    var last := |os| - 1;
    && r.attempts == |os| && |os| <= (if maxRetries < 0 then 0 else maxRetries + 1)
    && (forall i :: 0 <= i < last && os[i].Response? ==> os[i].status >= 500)
    && (|os| <= maxRetries ==> os != [] && os[last].Response? && os[last].status < 500)
    && (r.ok <==> os != [] && os[last].Response? && 200 <= os[last].status < 300)
    && r.errors == (if r.ok then os[..last] else os)
    && exists at: Option<nat> ::
         && IsLatestAnswer(os, at) && r.status == (if at.Some? then os[at.value].status else 0)
         && r.body == (if at.Some? && (r.ok || keepBody) then os[at.value].body else "")
  }

  lemma {:induction false} LatestAnswer(os: seq<Outcome>) returns (at: Option<nat>)
    ensures IsLatestAnswer(os, at)
    ensures LastStatus(os) == (if at.Some? then os[at.value].status else 0)
    ensures LastBody(os) == (if at.Some? then os[at.value].body else "")
  {
    if os == [] {
      at := None;
    } else if os[|os| - 1].Response? {
      at := Some(|os| - 1);
    } else {
      at := LatestAnswer(os[..|os| - 1]);
    }
  }

  lemma ResultIsReport(os: seq<Outcome>, maxRetries: int, keepBody: bool)
    requires RetriesOf(os, maxRetries)
    ensures IsReport(os, maxRetries, keepBody, ResultOf(os, keepBody))
  {
    var at := LatestAnswer(os);
    hide LastStatus, LastBody;
  }

  // ---------------------------------------------------------------- the loops

  /** _execute_with_retry: posts until a 2xx, a status below 500, or no retry is left. */
  method ExecuteWithRetry(net: Network, url: string, maxRetries: int, backoff: real)
    returns (r: Result, ghost os: seq<Outcome>)
    modifies net
    ensures RetriesOf(os, maxRetries) && r == ResultOf(os, false)
    ensures IsReport(os, maxRetries, false, r)
    ensures net.log == old(net.log) + Exchange(url, os, backoff)
  {
    hide LastStatus, LastBody, Exchange, Pause, IsReport;
    var errors: seq<Outcome> := [];
    var lastStatus, attempts := 0, 0;
    os := [];
    BeforeFirst(url, maxRetries, backoff);
    while attempts < maxRetries + 1
      invariant 0 <= attempts <= Max(0, maxRetries + 1) && attempts == |os| && errors == os
      invariant forall i :: 0 <= i < |os| ==> os[i].IsRetryable()
      invariant lastStatus == LastStatus(os)
      invariant net.log == old(net.log) + Exchange(url, os, backoff) + Pause(os, maxRetries, backoff)
    {
      attempts := attempts + 1;
      var o := net.Request(url);
      Extend(old(net.log), url, os, o, maxRetries, backoff);
      os := os + [o];
      if o.Response? {
        if o.IsSuccess() {
          assert errors == os[..|os| - 1];
          r := Result(true, attempts, o.status, o.body, errors);
          ResultIsReport(os, maxRetries, false);
          return;
        }
        lastStatus := o.status;
        errors := errors + [o];
        if lastStatus < 500 || attempts > maxRetries {
          break;
        }
      } else {
        errors := errors + [o];
      }
      PauseAfter(os, maxRetries, backoff);
      if attempts <= maxRetries {
        net.Sleep(backoff, attempts);
      }
    }
    if |os| > maxRetries { NoPauseAtEnd(os, maxRetries, backoff); }
    r := Result(false, attempts, lastStatus, "", errors);
    ResultIsReport(os, maxRetries, false);
  }

  /** The pause the loop has already made when it comes back to its head. */
  function Pause(os: seq<Outcome>, maxRetries: int, backoff: real): seq<Event> {
    if 1 <= |os| <= maxRetries then [Slept(backoff, |os|)] else []
  }

  lemma BeforeFirst(url: string, maxRetries: int, backoff: real)
    ensures Exchange(url, [], backoff) == [] && Pause([], maxRetries, backoff) == []
    ensures LastStatus([]) == 0 && LastBody([]) == ""
  {
  }

  lemma PauseAfter(os: seq<Outcome>, maxRetries: int, backoff: real)
    requires os != []
    ensures Pause(os, maxRetries, backoff) == if |os| <= maxRetries then [Slept(backoff, |os|)] else []
  {
  }

  lemma NoPauseAtEnd(os: seq<Outcome>, maxRetries: int, backoff: real)
    requires |os| > maxRetries
    ensures Pause(os, maxRetries, backoff) == []
  {
  }

  lemma Extend(log: seq<Event>, url: string, os: seq<Outcome>, o: Outcome, maxRetries: int, backoff: real)
    requires |os| <= maxRetries
    ensures log + Exchange(url, os, backoff) + Pause(os, maxRetries, backoff) + [Sent(url, o)]
         == log + Exchange(url, os + [o], backoff)
    ensures LastStatus(os + [o]) == if o.Response? then o.status else LastStatus(os)
    ensures LastBody(os + [o]) == if o.Response? then o.body else LastBody(os)
  {
    var all := os + [o];
    assert all[..|os|] == os && all[|all| - 1] == o;
    if os != [] {
      var pause, sent := Slept(backoff, |os|), Sent(url, o);
      assert Exchange(url, all, backoff) == Exchange(url, os, backoff) + [pause, sent];
      assert Pause(os, maxRetries, backoff) == [pause];
    }
  }

  /** _execute_http_request_with_retry: the same loop, except that a failed result keeps the latest answer's body. */
  method ExecuteHttpRequestWithRetry(net: Network, url: string, maxRetries: int, backoff: real)
    returns (r: Result, ghost os: seq<Outcome>)
    modifies net
    ensures RetriesOf(os, maxRetries) && r == ResultOf(os, true)
    ensures IsReport(os, maxRetries, true, r)
    ensures net.log == old(net.log) + Exchange(url, os, backoff)
  {
    hide LastStatus, LastBody, Exchange, Pause, IsReport;
    var errors: seq<Outcome> := [];
    var lastStatus, lastBody, attempts := 0, "", 0;
    os := [];
    BeforeFirst(url, maxRetries, backoff);
    while attempts < maxRetries + 1
      invariant 0 <= attempts <= Max(0, maxRetries + 1) && attempts == |os| && errors == os
      invariant forall i :: 0 <= i < |os| ==> os[i].IsRetryable()
      invariant lastStatus == LastStatus(os) && lastBody == LastBody(os)
      invariant net.log == old(net.log) + Exchange(url, os, backoff) + Pause(os, maxRetries, backoff)
    {
      attempts := attempts + 1;
      var o := net.Request(url);
      Extend(old(net.log), url, os, o, maxRetries, backoff);
      os := os + [o];
      if o.Response? {
        lastStatus, lastBody := o.status, o.body;
        if 200 <= lastStatus < 300 {
          assert errors == os[..|os| - 1];
          r := Result(true, attempts, lastStatus, lastBody, errors);
          ResultIsReport(os, maxRetries, true);
          return;
        }
        errors := errors + [o];
        if lastStatus < 500 || attempts > maxRetries {
          break;
        }
      } else {
        errors := errors + [o];
      }
      PauseAfter(os, maxRetries, backoff);
      if attempts <= maxRetries {
        net.Sleep(backoff, attempts);
      }
    }
    if |os| > maxRetries { NoPauseAtEnd(os, maxRetries, backoff); }
    r := Result(false, attempts, lastStatus, lastBody, errors);
    ResultIsReport(os, maxRetries, true);
  }

  // ---------------------------------------------------------------- fallback

  /** The codes of a refused delivery or API call that the fallback looks at. */
  datatype DenialCode = NoDenial | RateLimited | ReceiptInvalid | OtherDenial

  /** _should_try_next_route; 429 is the status of section 4 of RFC 6585. */
  predicate ShouldTryNextRoute(ok: bool, code: DenialCode, status: int) {
    !ok && (code.RateLimited? || code.ReceiptInvalid? || status == 0 || status == 429 || status >= 500)
  }

  lemma {:induction false} AllRetryableStatus(os: seq<Outcome>)
    requires forall i :: 0 <= i < |os| ==> os[i].IsRetryable()
    ensures LastStatus(os) == 0 || LastStatus(os) >= 500
  {
    if os != [] { AllRetryableStatus(os[..|os| - 1]); }
  }

  /** After a failed request the next route is tried exactly when the retries were exhausted on retryable answers, or
      the final answer was a status 0 or 429; so any final status in 1..499 other than 429 stops. */
  lemma FallsThroughWhenExhausted(os: seq<Outcome>, maxRetries: int, keepBody: bool)
    requires RetriesOf(os, maxRetries) && !Succeeded(os)
    ensures var r := ResultOf(os, keepBody);
            ShouldTryNextRoute(r.ok, OtherDenial, r.status)
            <==> os == [] || os[|os| - 1].IsRetryable() || os[|os| - 1].status in {0, 429}
    ensures os != [] && os[|os| - 1].IsRetryable() ==> |os| == maxRetries + 1
  {
    if os != [] && os[|os| - 1].IsRetryable() { AllRetryableStatus(os); }
  }
}
