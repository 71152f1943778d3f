/** The retry loop of the health-tracking provider. Durations are in nanoseconds. */
module Retry {
  import opened Values

  /** An upstream error; the fields of a model.ProviderError when it is one. */
  datatype Error =
    | ProviderError(status: int, retryable: bool, retryAfter: int)
    | OtherError(message: string)

  predicate IsRetryable(e: Error) {
    e.ProviderError? && e.retryable
  }

  datatype Attempt<R> = Ok(response: R) | Err(error: Error)

  /** How the call ends: with a response, with an error, cancelled while waiting, or, when a negative
      MaxRetries lets no attempt happen, with neither response nor error. */
  datatype Ending<R> = Responded(response: R) | Failed(error: Error) | Cancelled | Nothing

  /** An outcome recorded against the provider's health. */
  datatype Health = Success | Failure(error: Option<Error>)

  const SECOND := 1_000_000_000
  const MAX_BACKOFF := 30 * SECOND
  const TOO_MANY_REQUESTS := 429
  const INT64 := 0x8000_0000_0000_0000

  function Pow2(n: nat): nat {
    if n == 0 then 1 else 2 * Pow2(n - 1)
  }

  /** time.Duration(x) for x >= 0: truncation, and whatever the platform yields once x does not fit. */
  function ToDuration(x: real, overflow: int): int
    requires x >= 0.0
  {
    if x < INT64 as real then x.Floor else overflow
  }

  function Base(retryBackoff: int): (b: int)
    ensures b > 0
  {
    if retryBackoff <= 0 then SECOND else retryBackoff
  }

  /** base * 2^(attempt-1), as a duration, capped. */
  function Capped(retryBackoff: int, attempt: nat, overflow: int): int
    requires attempt >= 1
  {
    var d := ToDuration((Base(retryBackoff) * Pow2(attempt - 1)) as real, overflow);
    if d > MAX_BACKOFF then MAX_BACKOFF else d
  }

  /** time.Duration(float64(d) * jitter), truncating toward zero. */
  function Jittered(d: int, random: real): int {
    Truncate(d as real * (0.5 + random * 0.5))
  }

  function Truncate(x: real): int {
    if x >= 0.0 then x.Floor else -((-x).Floor)
  }

  /** backoffDuration for attempt >= 1, with random drawn from [0, 1). */
  function Backoff(retryBackoff: int, attempt: nat, last: Error, random: real, overflow: int): int
    requires attempt >= 1
  {
    if last.ProviderError? && last.status == TOO_MANY_REQUESTS && last.retryAfter > 0 then last.retryAfter
    else Jittered(Capped(retryBackoff, attempt, overflow), random)
  }

  // ---- The loop

  /** What the upstream and the caller do: the outcome of each attempt, whether the context is done
      when attempt k is waited for, and the random draw for that wait. */
  datatype Script<R> = Script(outcome: nat -> Attempt<R>, cancelled: nat -> bool, random: nat -> real, overflow: int)

  /** An error that another attempt cannot mend: any but a provider error marked as retryable. */
  predicate Final(e: Error) {
    match e
    case ProviderError(_, retryable, _) => !retryable
    case OtherError(_) => true
  }

  predicate Decisive<R>(a: Attempt<R>) {
    a.Ok? || Final(a.error)
  }

  /** calls attempts were made: all but the last failed retryably, and no wait between them was cut. */
  ghost predicate Reached<R>(s: Script<R>, calls: nat) {
    && (forall k :: 0 <= k < calls - 1 ==> !Decisive(s.outcome(k)))
    && (forall k :: 1 <= k < calls ==> !s.cancelled(k))
  }

  /** The sum of the waits before attempts 1 to n. */
  function TotalWait<R>(s: Script<R>, retryBackoff: int, n: nat): int {
    if n == 0 || s.outcome(n - 1).Ok? then 0
    else TotalWait(s, retryBackoff, n - 1) + Backoff(retryBackoff, n, s.outcome(n - 1).error, s.random(n), s.overflow)
  }

  /** How a call must end after so many attempts. */
  ghost predicate Ends<R>(s: Script<R>, maxRetries: int, calls: nat, ending: Ending<R>) {
    if maxRetries < 0 then calls == 0 && ending == Nothing else
    && 1 <= calls <= maxRetries + 1
    && Reached(s, calls)
    && match ending
       case Responded(r) => s.outcome(calls - 1) == Ok(r)
       case Failed(e) => s.outcome(calls - 1) == Err(e) && (Final(e) || calls == maxRetries + 1)
       case Cancelled => !Decisive(s.outcome(calls - 1)) && calls <= maxRetries && s.cancelled(calls)
       case Nothing => false
  }

  /** ChatCompletion: the first success, the first error that is not retryable, or the last error of
      maxRetries + 1; one health outcome, none when cancelled while waiting. */
  method ChatCompletion<R>(s: Script<R>, maxRetries: int, retryBackoff: int)
    returns (ending: Ending<R>, calls: nat, health: seq<Health>, waited: int)
    ensures Ends(s, maxRetries, calls, ending)
    ensures ending.Responded? ==> health == [Success]
    ensures ending.Failed? ==> health == [Failure(Some(ending.error))]
    ensures ending.Cancelled? ==> health == []
    ensures ending.Nothing? ==> health == [Failure(None)]
    ensures waited == if calls == 0 then 0 else TotalWait(s, retryBackoff, calls - 1)
    ensures WaitWithin(s, maxRetries, retryBackoff, waited)
  {
    forall r: nat | r <= maxRetries ensures WaitWithin(s, maxRetries, retryBackoff, TotalWait(s, retryBackoff, r)) {
      WaitsWithin(s, maxRetries, retryBackoff, r);
    }
    hide WaitWithin;
    var lastErr: Option<Error> := None;
    calls, waited, health := 0, 0, [];
    var attempt := 0;
    while attempt <= maxRetries
      invariant 0 <= attempt && calls == attempt
      invariant forall k :: 0 <= k < attempt ==> !Decisive(s.outcome(k))
      invariant forall k :: 1 <= k < attempt ==> !s.cancelled(k)
      invariant attempt == 0 ==> lastErr == None
      invariant attempt > 0 ==> attempt <= maxRetries && lastErr == Some(s.outcome(attempt - 1).error)
      invariant waited == if attempt == 0 then 0 else TotalWait(s, retryBackoff, attempt - 1)
    {
      if attempt > 0 {
        var backoff := Backoff(retryBackoff, attempt, lastErr.value, s.random(attempt), s.overflow);
        if s.cancelled(attempt) {
          return Cancelled, calls, [], waited;
        }
        waited := waited + backoff;
      }
      calls := calls + 1;
      match s.outcome(attempt)
      case Ok(response) =>
        return Responded(response), calls, [Success], waited;
      case Err(e) =>
        lastErr := Some(e);
        if !IsRetryable(e) {
          return Failed(e), calls, [Failure(Some(e))], waited;
        }
        if attempt == maxRetries {
          break;
        }
        attempt := attempt + 1;
    }
    ending := if lastErr.Some? then Failed(lastErr.value) else Nothing;
    health := [Failure(lastErr)];
  }

  /** ChatCompletionStream: the same loop before the first byte; what happens after it is up to the
      stream, which is tracked to its end or to the caller's departure. */
  method ChatCompletionStream<C>(s: Script<seq<StreamEvent<C>>>, maxRetries: int, retryBackoff: int, gone: nat -> bool)
    returns (ending: Ending<seq<StreamEvent<C>>>, calls: nat, health: seq<Health>, waited: int,
             out: seq<StreamEvent<C>>)
    ensures Ends(s, maxRetries, calls, ending)
    ensures !ending.Responded? ==> out == []
    ensures ending.Failed? ==> health == [Failure(Some(ending.error))]
    ensures ending.Cancelled? ==> health == []
    ensures ending.Nothing? ==> health == [Failure(None)]
    ensures ending.Responded? ==> Tracked(ending.response, gone, out, health)
    ensures waited == if calls == 0 then 0 else TotalWait(s, retryBackoff, calls - 1)
    ensures WaitWithin(s, maxRetries, retryBackoff, waited)
  {
    forall r: nat | r <= maxRetries ensures WaitWithin(s, maxRetries, retryBackoff, TotalWait(s, retryBackoff, r)) {
      WaitsWithin(s, maxRetries, retryBackoff, r);
    }
    hide WaitWithin;
    var lastErr: Option<Error> := None;
    calls, waited, health := 0, 0, [];
    out := [];
    var attempt := 0;
    while attempt <= maxRetries
      invariant 0 <= attempt && calls == attempt
      invariant forall k :: 0 <= k < attempt ==> !Decisive(s.outcome(k))
      invariant forall k :: 1 <= k < attempt ==> !s.cancelled(k)
      invariant attempt == 0 ==> lastErr == None
      invariant attempt > 0 ==> attempt <= maxRetries && lastErr == Some(s.outcome(attempt - 1).error)
      invariant waited == if attempt == 0 then 0 else TotalWait(s, retryBackoff, attempt - 1)
    {
      if attempt > 0 {
        var backoff := Backoff(retryBackoff, attempt, lastErr.value, s.random(attempt), s.overflow);
        if s.cancelled(attempt) {
          return Cancelled, calls, [], waited, [];
        }
        waited := waited + backoff;
      }
      calls := calls + 1;
      match s.outcome(attempt)
      case Ok(response) =>
        out, health := TrackStreamHealth(response, gone);
        return Responded(response), calls, health, waited, out;
      case Err(e) =>
        lastErr := Some(e);
        if !IsRetryable(e) {
          return Failed(e), calls, [Failure(Some(e))], waited, [];
        }
        if attempt == maxRetries {
          break;
        }
        attempt := attempt + 1;
    }
    ending := if lastErr.Some? then Failed(lastErr.value) else Nothing;
    health := [Failure(lastErr)];
  }

  /** The ending and the number of calls are determined by the script. */
  lemma EndsUniquely<R>(s: Script<R>, maxRetries: int, calls: nat, ending: Ending<R>, calls': nat, ending': Ending<R>)
    requires Ends(s, maxRetries, calls, ending) && Ends(s, maxRetries, calls', ending')
    ensures calls == calls' && ending == ending'
  {
    if calls < calls' {
      StopsFirst(s, maxRetries, calls, ending, calls');
    } else if calls' < calls {
      StopsFirst(s, maxRetries, calls', ending', calls);
    }
  }

  lemma StopsFirst<R>(s: Script<R>, maxRetries: int, calls: nat, ending: Ending<R>, more: nat)
    requires Ends(s, maxRetries, calls, ending) && calls < more <= maxRetries + 1
    ensures !Reached(s, more)
  {
    var k := calls - 1;
    assert Decisive(s.outcome(k)) || s.cancelled(calls);
  }

  // ---- Streams

  /** One event of a stream: a chunk or an error. */
  datatype StreamEvent<C> = Chunk(chunk: C) | StreamErr(error: Error)

  function LastStreamErr<C>(events: seq<StreamEvent<C>>): Option<Error> {
    if events == [] then None
    else match events[|events| - 1]
      case StreamErr(e) => Some(e)
      case Chunk(_) => LastStreamErr(events[..|events| - 1])
  }

  /** Every event is forwarded in order until the context is done when one is sent. One outcome is
      recorded after a stream that ran to its end, a failure with the last error if there was one,
      and none after a cancelled one. */
  ghost predicate Tracked<C>(events: seq<StreamEvent<C>>, gone: nat -> bool, out: seq<StreamEvent<C>>,
                             health: seq<Health>)
  {
    && out <= events
    && (forall k :: 0 <= k < |out| ==> !gone(k))
    && (|out| < |events| ==> gone(|out|) && health == [])
    && (|out| == |events| ==> Concluded(events, health))
  }

  /** A failure with the last error, or a success if there is none. */
  ghost predicate Concluded<C>(events: seq<StreamEvent<C>>, health: seq<Health>) {
    && ((forall k :: 0 <= k < |events| ==> events[k].Chunk?) ==> health == [Success])
    && (forall k :: 0 <= k < |events| && IsLastErr(events, k) ==> health == [Failure(Some(events[k].error))])
  }

  ghost predicate IsLastErr<C>(events: seq<StreamEvent<C>>, k: nat)
    requires k < |events|
  {
    events[k].StreamErr? && forall j :: k < j < |events| ==> events[j].Chunk?
  }

  lemma {:induction false} LastStreamErrIs<C>(events: seq<StreamEvent<C>>)
    ensures LastStreamErr(events).None? <==> forall k :: 0 <= k < |events| ==> events[k].Chunk?
    ensures LastStreamErr(events).Some? ==>
              exists k :: 0 <= k < |events| && IsLastErr(events, k) && events[k].error == LastStreamErr(events).value
  {
    if events != [] {
      var n := |events| - 1;
      var front := events[..n];
      LastStreamErrIs(front);
      if events[n].StreamErr? {
        assert IsLastErr(events, n);
      } else if LastStreamErr(front).Some? {
        var k :| 0 <= k < n && IsLastErr(front, k) && front[k].error == LastStreamErr(front).value;
        assert IsLastErr(events, k);
      } else {
        assert forall k :: 0 <= k < n ==> front[k].Chunk? && front[k] == events[k];
      }
    }
  }

  lemma ConcludedIs<C>(events: seq<StreamEvent<C>>, health: seq<Health>)
    ensures Concluded(events, health) <==>
              health == [if LastStreamErr(events).Some? then Failure(LastStreamErr(events)) else Success]
  {
    hide LastStreamErr;
    LastStreamErrIs(events);
    forall j, k | 0 <= j < |events| && 0 <= k < |events| && IsLastErr(events, j) && IsLastErr(events, k)
      ensures j == k
    {
      OneLastErr(events, j, k);
    }
  }

  lemma OneLastErr<C>(events: seq<StreamEvent<C>>, j: nat, k: nat)
    requires j < |events| && k < |events| && IsLastErr(events, j) && IsLastErr(events, k)
    ensures j == k
  {
  }

  method TrackStreamHealth<C>(events: seq<StreamEvent<C>>, gone: nat -> bool)
    returns (out: seq<StreamEvent<C>>, health: seq<Health>)
    ensures Tracked(events, gone, out, health)
  {
    out, health := [], [];
    var lastStreamErr: Option<Error> := None;
    var sawError := false;
    for i := 0 to |events|
      invariant out == events[..i]
      invariant forall k :: 0 <= k < i ==> !gone(k)
      invariant sawError == lastStreamErr.Some? && lastStreamErr == LastStreamErr(events[..i])
    {
      if events[i].StreamErr? {
        sawError := true;
        lastStreamErr := Some(events[i].error);
      }
      assert events[..i + 1][..i] == events[..i];
      if gone(i) {
        return;
      }
      out := out + [events[i]];
    }
    assert events[..|events|] == events;
    health := if sawError then [Failure(lastStreamErr)] else [Success];
    ConcludedIs(events, health);
  }

  // ---- Backoff bounds

  lemma {:induction false} Pow2Mono(m: nat, n: nat)
    requires m <= n
    ensures 1 <= Pow2(m) <= Pow2(n)
    decreases n
  {
    if m < n {
      Pow2Mono(m, n - 1);
    } else if n > 0 {
      Pow2Mono(m - 1, n - 1);
    }
  }

  function Min(x: int, y: int): int {
    if x < y then x else y
  }

  /** The nominal wait: exponential, capped at thirty seconds. */
  function Nominal(retryBackoff: int, attempt: nat): int
    requires attempt >= 1
  {
    Min(Base(retryBackoff) * Pow2(attempt - 1), MAX_BACKOFF)
  }

  /** The nominal waits start at the configured wait, or one second without one, and double up to thirty
      seconds. */
  lemma NominalDoubles(retryBackoff: int, attempt: nat)
    requires attempt >= 1
    ensures Nominal(retryBackoff, 1) == Min(if retryBackoff > 0 then retryBackoff else 1_000_000_000, 30_000_000_000)
    ensures Nominal(retryBackoff, attempt + 1) == Min(2 * Nominal(retryBackoff, attempt), 30_000_000_000)
  {
    var p := Base(retryBackoff) * Pow2(attempt - 1);
    BaseTimes(retryBackoff, attempt - 1);
    assert Pow2(attempt) == 2 * Pow2(attempt - 1) && Pow2(0) == 1;
    Twice(Base(retryBackoff), Pow2(attempt - 1));
  }

  lemma Twice(x: int, y: int)
    ensures x * (2 * y) == 2 * (x * y)
  {
  }

  lemma BaseTimes(retryBackoff: int, n: nat)
    ensures Base(retryBackoff) * Pow2(n) >= 1
  {
    Pow2Mono(0, n);
    MulPositive(Base(retryBackoff), Pow2(n));
  }

  lemma MulPositive(x: int, y: int)
    requires x >= 1 && y >= 1
    ensures x * y >= 1
  {
  }

  lemma JitterBounds(d: int, random: real)
    requires d >= 0 && 0.0 <= random < 1.0
    ensures d / 2 <= Jittered(d, random) <= d
  {
    var x := d as real * (0.5 + random * 0.5);
    MulBounds(d as real, 0.5 + random * 0.5, x);
    FloorBounds(d, x);
  }

  /** The jitter spreads a wait over the whole range: each duration from half of it up is drawn by some
      random number. */
  lemma JitterSpreads(d: int, x: int) returns (random: real)
    requires 0 <= d / 2 <= x < d
    ensures 0.0 <= random < 1.0 && Jittered(d, random) == x
  {
    if 2 * x < d {
      random := 0.0;
      assert d as real * (0.5 + 0.0 * 0.5) == d as real * 0.5;
      assert x as real <= d as real * 0.5 < x as real + 1.0;
    } else {
      random := 2.0 * (x as real / d as real) - 1.0;
      Share(x as real, d as real, random);
    }
  }

  lemma Share(x: real, d: real, random: real)
    requires d > 0.0 && random == 2.0 * (x / d) - 1.0 && d <= 2.0 * x && x < d
    ensures d * (0.5 + random * 0.5) == x && 0.0 <= random < 1.0
  {
    var q := x / d;
    assert q * d == x;
    assert 0.5 + random * 0.5 == q;
    Ordered(q, 0.5, d);
    Ordered(q, 1.0, d);
  }

  lemma Ordered(q: real, r: real, d: real)
    requires d > 0.0
    ensures q < r <==> q * d < r * d
  {
    if q < r {
      assert (r - q) * d > 0.0;
    } else {
      assert (q - r) * d >= 0.0;
    }
  }

  lemma FloorBounds(d: int, x: real)
    requires d >= 0 && d as real * 0.5 <= x <= d as real
    ensures d / 2 <= Truncate(x) <= d
  {
    assert (d / 2) as real <= d as real * 0.5;
  }

  lemma MulBounds(d: real, f: real, x: real)
    requires d >= 0.0 && 0.5 <= f <= 1.0 && x == d * f
    ensures d * 0.5 <= x <= d
  {
  }

  /** A computed wait lies between half the nominal wait and the nominal wait, whatever the platform
      makes of a product that does not fit in 63 bits, if and only if the product fits. */
  lemma BackoffWithinNominal(retryBackoff: int, attempt: nat)
    requires attempt >= 1
    ensures (forall random: real, overflow: int :: 0.0 <= random < 1.0 ==>
               Nominal(retryBackoff, attempt) / 2
               <= Jittered(Capped(retryBackoff, attempt, overflow), random)
               <= Nominal(retryBackoff, attempt))
        <==> Base(retryBackoff) * Pow2(attempt - 1) < 0x8000_0000_0000_0000
  {
    var product := Base(retryBackoff) * Pow2(attempt - 1);
    BaseTimes(retryBackoff, attempt - 1);
    if product < INT64 {
      forall random: real, overflow: int | 0.0 <= random < 1.0
        ensures Nominal(retryBackoff, attempt) / 2
             <= Jittered(Capped(retryBackoff, attempt, overflow), random)
             <= Nominal(retryBackoff, attempt)
      {
        CappedFits(retryBackoff, attempt, overflow);
        JitterBounds(Nominal(retryBackoff, attempt), random);
      }
    } else {
      assert product as real >= INT64 as real;
      assert Capped(retryBackoff, attempt, -INT64) == -INT64;
      NegativeJitter();
      assert Nominal(retryBackoff, attempt) / 2 > Jittered(Capped(retryBackoff, attempt, -INT64), 0.0);
    }
  }

  /** The cap fails: with a base of one second, the thirty-fifth retry does not wait at all on a platform
      that yields the least 64-bit integer. */
  lemma BackoffOverflows()
    ensures Base(0) == SECOND && Nominal(0, 35) == MAX_BACKOFF
    ensures Jittered(Capped(0, 35, -INT64), 0.0) < 0
  {
    PowersOfTwo();
    assert Base(0) * Pow2(34) == 17_179_869_184_000_000_000;
    NegativeJitter();
  }

  lemma PowersOfTwo()
    ensures Pow2(34) == 17_179_869_184
  {
    assert Pow2(8) == 256;
    assert Pow2(16) == 65_536;
    assert Pow2(24) == 16_777_216;
    assert Pow2(32) == 4_294_967_296;
  }

  /** On a platform that yields the least 64-bit integer, the wait turns negative: no wait at all. */
  lemma NegativeJitter()
    ensures Jittered(-INT64, 0.0) < 0
  {
    var x := (-INT64) as real * (0.5 + 0.0 * 0.5);
    assert x == -(INT64 as real * 0.5);
    assert (-x).Floor >= 1;
  }

  lemma CappedFits(retryBackoff: int, attempt: nat, overflow: int)
    requires attempt >= 1 && Base(retryBackoff) * Pow2(attempt - 1) < INT64
    ensures Capped(retryBackoff, attempt, overflow) == Nominal(retryBackoff, attempt) > 0
  {
    BaseTimes(retryBackoff, attempt - 1);
    var product := Base(retryBackoff) * Pow2(attempt - 1);
    assert 0.0 <= product as real < INT64 as real;
  }

  /** Each wait in turn: what a 429 asks for, if it asks; else between half the nominal wait and all of it. */
  lemma EachWait<R>(s: Script<R>, retryBackoff: int, n: nat)
    requires n > 0 && s.outcome(n - 1).Err? && Fits(retryBackoff, n) && 0.0 <= s.random(n) < 1.0
    ensures var wait, e := TotalWait(s, retryBackoff, n) - TotalWait(s, retryBackoff, n - 1), s.outcome(n - 1).error;
            if e.ProviderError? && e.status == 429 && e.retryAfter > 0 then wait == e.retryAfter
            else Nominal(retryBackoff, n) / 2 <= wait <= Nominal(retryBackoff, n)
  {
    hide Jittered, Capped, Nominal, Pow2;
    CappedFits(retryBackoff, n, s.overflow);
    JitterBounds(Nominal(retryBackoff, n), s.random(n));
  }

  /** No 429 of the run named a Retry-After, and the draws come from [0, 1). */
  ghost predicate Plain<R>(s: Script<R>, n: nat) {
    && (forall k :: 0 <= k < n && s.outcome(k).Err? && s.outcome(k).error.ProviderError? &&
                    s.outcome(k).error.status == TOO_MANY_REQUESTS ==>
          s.outcome(k).error.retryAfter <= 0)
    && (forall k :: 0.0 <= s.random(k) < 1.0)
  }

  /** r waits total at most base * (2^r - 1), and at most thirty seconds each. */
  ghost predicate Bounded(retryBackoff: int, r: nat, total: int) {
    0 <= total <= Base(retryBackoff) * (Pow2(r) - 1) && total <= MAX_BACKOFF * r
  }

  /** The longest of r nominal waits, base * 2^(r-1), fits in 63 bits. */
  ghost predicate Fits(retryBackoff: int, r: nat) {
    r > 0 ==> Base(retryBackoff) * Pow2(r - 1) < INT64
  }

  /** Unless a 429 names a Retry-After, the waits of r retries total at most min(base * (2^r - 1), 30s * r), as long as
      the longest of them fits in 63 bits. */
  lemma {:induction false} TotalWaitBound<R>(s: Script<R>, retryBackoff: int, r: nat)
    requires Plain(s, r) && Fits(retryBackoff, r)
    ensures Bounded(retryBackoff, r, TotalWait(s, retryBackoff, r))
  {
    hide Backoff, Bounded, Fits, Pow2;
    NoWait(retryBackoff, r);
    if r > 0 && s.outcome(r - 1).Err? {
      FitsBefore(retryBackoff, r - 1, r);
      TotalWaitBound(s, retryBackoff, r - 1);
      PlainBackoff(s, retryBackoff, r);
      AddWait(retryBackoff, r, TotalWait(s, retryBackoff, r - 1),
              Backoff(retryBackoff, r, s.outcome(r - 1).error, s.random(r), s.overflow));
    }
  }

  lemma NoWait(retryBackoff: int, r: nat)
    ensures Bounded(retryBackoff, r, 0)
  {
    Pow2Mono(0, r);
    MulNonNegative(Base(retryBackoff), Pow2(r) - 1);
  }

  lemma FitsBefore(retryBackoff: int, q: nat, r: nat)
    requires q <= r && Fits(retryBackoff, r)
    ensures Fits(retryBackoff, q)
  {
    if q > 0 {
      Pow2Mono(q - 1, r - 1);
      MulMono(Base(retryBackoff), Pow2(q - 1), Pow2(r - 1));
    }
  }

  lemma PlainBackoff<R>(s: Script<R>, retryBackoff: int, r: nat)
    requires r > 0 && Plain(s, r) && Fits(retryBackoff, r) && s.outcome(r - 1).Err?
    ensures 0 <= Backoff(retryBackoff, r, s.outcome(r - 1).error, s.random(r), s.overflow) <= Nominal(retryBackoff, r)
  {
    hide Jittered, Capped, Nominal, Pow2;
    CappedFits(retryBackoff, r, s.overflow);
    JitterBounds(Nominal(retryBackoff, r), s.random(r));
  }

  lemma AddWait(retryBackoff: int, r: nat, total: int, wait: int)
    requires r > 0 && Bounded(retryBackoff, r - 1, total) && 0 <= wait <= Nominal(retryBackoff, r)
    ensures Bounded(retryBackoff, r, total + wait)
  {
    Doubling(Base(retryBackoff), Pow2(r - 1));
  }

  /** More retries only loosen the bound. */
  lemma Loosen(retryBackoff: int, q: nat, r: nat, total: int)
    requires q <= r && Bounded(retryBackoff, q, total)
    ensures Bounded(retryBackoff, r, total)
  {
    Pow2Mono(q, r);
    MulMono(Base(retryBackoff), Pow2(q) - 1, Pow2(r) - 1);
  }

  /** However the call ends, its waits are those of at most maxRetries retries. */
  ghost predicate WaitWithin<R>(s: Script<R>, maxRetries: int, retryBackoff: int, waited: int) {
    maxRetries >= 0 && Plain(s, maxRetries) && Fits(retryBackoff, maxRetries) ==>
      Bounded(retryBackoff, maxRetries, waited)
  }

  lemma WaitsWithin<R>(s: Script<R>, maxRetries: int, retryBackoff: int, r: nat)
    requires r <= maxRetries
    ensures WaitWithin(s, maxRetries, retryBackoff, TotalWait(s, retryBackoff, r))
  {
    hide Bounded, Fits, TotalWait;
    if Plain(s, maxRetries) && Fits(retryBackoff, maxRetries) {
      FitsBefore(retryBackoff, r, maxRetries);
      TotalWaitBound(s, retryBackoff, r);
      Loosen(retryBackoff, r, maxRetries, TotalWait(s, retryBackoff, r));
    }
  }

  lemma MulNonNegative(x: int, y: int)
    requires x >= 0 && y >= 0
    ensures x * y >= 0
  {
  }

  lemma MulMono(x: int, y: int, z: int)
    requires x >= 0 && y <= z
    ensures x * y <= x * z
  {
  }

  lemma Doubling(base: int, p: int)
    ensures base * (p - 1) + base * p == base * (2 * p - 1)
  {
  }
}
