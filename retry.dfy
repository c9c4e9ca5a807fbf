/** The bounded exponential-backoff retry loop the scripts wrap around every remote
    call: the Gemini SDK call of the sheets processor (base 60 s), the Gemini HTTP
    call of the colab script (base 10 s) and `execute_gspread_write` (base 5 s), all
    with five attempts. Only a rate-limit error is retried; the delay before attempt
    `a + 1` is `base * 2^a`; a rate-limit error on the last attempt and any other
    error end the loop without a result.

    The remote side is an oracle: `service(k)` is the outcome of the `k`-th call made
    to it. `time.sleep` is an event appended to a log. */
module Retry {
  import opened Wrappers

  /** What one call gives back: a value, a rate-limit error, or any other error. */
  datatype Outcome<T> = Ok(value: T) | RateLimited | OtherError

  /** What the loop does that can be observed: a call with its request, or a sleep. */
  datatype Event = Call(request: string) | Sleep(seconds: nat)

  /** The result of a retry loop, the index of the next unused outcome, and the
      events. */
  datatype Attempts<T> = Attempts(reply: Option<T>, next: nat, log: seq<Event>)

  /** What a `get_gemini_correction` returns (the corrected text, or nothing), with
      the index of the next unused service outcome and the events. */
  datatype Correction = Correction(result: Option<string>, next: nat, log: seq<Event>)

  function Pow2(k: nat): (r: nat)
    ensures r >= 1
  {
    if k == 0 then 1 else 2 * Pow2(k - 1)
  }

  /** The loop from attempt `attempt` on, with the next call reading `service(next)`.
      With no attempts left (only possible when `maxAttempts` is 0) it ends without
      a result and without a call, as `for ... in range(0)` does. */
  function Backoff<T>(service: nat -> Outcome<T>, next: nat, request: string, base: nat,
                      maxAttempts: nat, attempt: nat): Attempts<T>
    decreases maxAttempts - attempt
  {
    if attempt >= maxAttempts then Attempts(None, next, [])
    else match service(next)
      case Ok(v) => Attempts(Some(v), next + 1, [Call(request)])
      case RateLimited =>
        if attempt < maxAttempts - 1 then
          var rest := Backoff(service, next + 1, request, base, maxAttempts, attempt + 1);
          rest.(log := [Call(request), Sleep(base * Pow2(attempt))] + rest.log)
        else Attempts(None, next + 1, [Call(request)])
      case OtherError => Attempts(None, next + 1, [Call(request)])
  }

  /** An independent description of the loop: the number of rate-limit errors in a
      row, from `service(next)` on and at most `limit` of them. */
  function LeadingRateLimits<T>(service: nat -> Outcome<T>, next: nat, limit: nat): (k: nat)
    ensures k <= limit
    decreases limit
  {
    if limit == 0 || !service(next).RateLimited? then 0
    else 1 + LeadingRateLimits(service, next + 1, limit - 1)
  }

  /** The events of `k` retried attempts: each call followed by its doubling delay,
      starting at `base * 2^from`. */
  function RetryLog(request: string, base: nat, from: nat, k: nat): seq<Event>
    decreases k
  {
    if k == 0 then [] else [Call(request), Sleep(base * Pow2(from))] + RetryLog(request, base, from + 1, k - 1)
  }

  function CallCount(log: seq<Event>): nat {
    if log == [] then 0 else (if log[0].Call? then 1 else 0) + CallCount(log[1..])
  }

  lemma {:induction false} CallCountAppend(a: seq<Event>, b: seq<Event>)
    ensures CallCount(a + b) == CallCount(a) + CallCount(b)
    decreases |a|
  {
    if a == [] {
      assert a + b == b;
    } else {
      assert (a + b)[1..] == a[1..] + b;
      CallCountAppend(a[1..], b);
    }
  }

  lemma {:induction false} RetryLogCalls(request: string, base: nat, from: nat, k: nat)
    ensures CallCount(RetryLog(request, base, from, k)) == k
    decreases k
  {
    if k > 0 {
      RetryLogCalls(request, base, from + 1, k - 1);
      var head: seq<Event> := [Call(request), Sleep(base * Pow2(from))];
      CallCountAppend(head, RetryLog(request, base, from + 1, k - 1));
      assert CallCount(head) == 1 by { assert head[1..] == [Sleep(base * Pow2(from))]; }
    }
  }

  /** The loop in closed form. With `k` rate-limit errors in a row before the last
      attempt, it makes `k + 1` calls, sleeping `base * 2^a` after the `a`-th, and its
      result is the value of call `k` when that call succeeded and nothing
      otherwise. */
  lemma {:induction false} BackoffClosedForm<T>(service: nat -> Outcome<T>, next: nat, request: string,
                                               base: nat, maxAttempts: nat, attempt: nat)
    requires attempt < maxAttempts
    ensures var k := LeadingRateLimits(service, next, maxAttempts - 1 - attempt);
      var r := Backoff(service, next, request, base, maxAttempts, attempt);
      && r.next == next + k + 1
      && r.log == RetryLog(request, base, attempt, k) + [Call(request)]
      && r.reply == (if service(next + k).Ok? then Some(service(next + k).value) else None)
    decreases maxAttempts - attempt
  {
    if service(next).RateLimited? && attempt < maxAttempts - 1 {
      BackoffClosedForm(service, next + 1, request, base, maxAttempts, attempt + 1);
      var k' := LeadingRateLimits(service, next + 1, maxAttempts - 1 - (attempt + 1));
      assert LeadingRateLimits(service, next, maxAttempts - 1 - attempt) == k' + 1;
      assert next + 1 + k' == next + (k' + 1);
    }
  }

  /** Between one and `maxAttempts` calls are made, and the log accounts for every
      outcome read. */
  lemma BackoffCalls<T>(service: nat -> Outcome<T>, next: nat, request: string, base: nat, maxAttempts: nat)
    requires maxAttempts >= 1
    ensures var r := Backoff(service, next, request, base, maxAttempts, 0);
      1 <= CallCount(r.log) <= maxAttempts && r.next == next + CallCount(r.log)
  {
    BackoffClosedForm(service, next, request, base, maxAttempts, 0);
    var k := LeadingRateLimits(service, next, maxAttempts - 1);
    RetryLogCalls(request, base, 0, k);
    CallCountAppend(RetryLog(request, base, 0, k), [Call(request)]);
  }

  /** A service that always answers with a rate-limit error gets exactly
      `maxAttempts` calls, with the delays `base`, `2 * base`, `4 * base`, ...
      between them, and the loop gives up. */
  lemma AlwaysRateLimited<T>(service: nat -> Outcome<T>, next: nat, request: string, base: nat, maxAttempts: nat)
    requires maxAttempts >= 1
    requires forall j :: next <= j < next + maxAttempts ==> service(j).RateLimited?
    ensures Backoff(service, next, request, base, maxAttempts, 0)
      == Attempts(None, next + maxAttempts, RetryLog(request, base, 0, maxAttempts - 1) + [Call(request)])
  {
    BackoffClosedForm(service, next, request, base, maxAttempts, 0);
    AllRateLimitedCount(service, next, maxAttempts - 1);
  }

  lemma {:induction false} AllRateLimitedCount<T>(service: nat -> Outcome<T>, next: nat, limit: nat)
    requires forall j :: next <= j <= next + limit ==> service(j).RateLimited?
    ensures LeadingRateLimits(service, next, limit) == limit
    decreases limit
  {
    if limit > 0 {
      AllRateLimitedCount(service, next + 1, limit - 1);
    }
  }

  /** Any error other than a rate limit ends the loop at once. */
  lemma OtherErrorStops<T>(service: nat -> Outcome<T>, next: nat, request: string, base: nat,
                           maxAttempts: nat, attempt: nat)
    requires attempt < maxAttempts && service(next).OtherError?
    ensures Backoff(service, next, request, base, maxAttempts, attempt) == Attempts(None, next + 1, [Call(request)])
  {
  }

  /** `r` extended at the front by events already logged. */
  function Prepend<T>(log: seq<Event>, r: Attempts<T>): Attempts<T> {
    r.(log := log + r.log)
  }

  /** A rate-limit error before the last attempt: the call and the pause, then the
      rest of the loop. */
  lemma RateLimitedStep<T>(service: nat -> Outcome<T>, next: nat, request: string, base: nat,
                           maxAttempts: nat, attempt: nat)
    requires attempt < maxAttempts - 1 && service(next).RateLimited?
    ensures Backoff(service, next, request, base, maxAttempts, attempt)
         == Prepend([Call(request), Sleep(base * Pow2(attempt))], Backoff(service, next + 1, request, base, maxAttempts, attempt + 1))
  {
  }

  lemma PrependTwice<T>(a: seq<Event>, b: seq<Event>, r: Attempts<T>)
    ensures Prepend(a, Prepend(b, r)) == Prepend(a + b, r)
  {
    assert a + (b + r.log) == (a + b) + r.log;
  }

  /** The `for attempt in range(max_retries)` loop, shared by the three call sites. */
  method RunWithBackoff<T>(service: nat -> Outcome<T>, start: nat, request: string, base: nat, maxAttempts: nat)
    returns (r: Attempts<T>)
    ensures r == Backoff(service, start, request, base, maxAttempts, 0)
  {
    var attempt := 0;
    var next := start;
    var log: seq<Event> := [];
    while attempt < maxAttempts
      invariant attempt <= maxAttempts
      invariant Backoff(service, start, request, base, maxAttempts, 0)
             == Prepend(log, Backoff(service, next, request, base, maxAttempts, attempt))
      decreases maxAttempts - attempt
    {
      var outcome := service(next);
      if outcome.Ok? {
        return Attempts(Some(outcome.value), next + 1, log + [Call(request)]);
      } else if outcome.RateLimited? && attempt < maxAttempts - 1 {
        var delay := base * Pow2(attempt);
        RateLimitedStep(service, next, request, base, maxAttempts, attempt);
        PrependTwice(log, [Call(request), Sleep(delay)], Backoff(service, next + 1, request, base, maxAttempts, attempt + 1));
        log := log + [Call(request), Sleep(delay)];
        next := next + 1;
        attempt := attempt + 1;
      } else {
        return Attempts(None, next + 1, log + [Call(request)]);
      }
    }
    return Attempts(None, next, log);
  }
}
