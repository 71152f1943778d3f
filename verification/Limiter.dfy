/** The Go side of the limiter: limits, identifiers, the reply parser, and the reservation with its
    headers. Durations are in nanoseconds, stamps in milliseconds. */
module Limiter {
  import opened Values
  import opened MemberCodec
  import opened Scripts

  const MILLISECOND := 1_000_000
  const SECOND := 1_000_000_000

  datatype Reservation = Reservation(
    allowed: bool,
    limit: int,
    remaining: int,
    reset: int,
    tpmLimit: int,
    tpmRemaining: int,
    tpmReset: int,
    retryAfter: int)

  /** The limits a key carries; zero or less means the configured default. */
  datatype KeyInfo = KeyInfo(rpm: int, tpm: int)

  function Effective(own: int, default: int): int {
    if own > 0 then own else default
  }

  function ClampRemaining(limit: int, used: int): int {
    if limit <= 0 || used >= limit then 0 else limit - used
  }

  function ComputeReset(nowMs: int, oldestMs: int, windowMs: int): int {
    var remaining := windowMs - (nowMs - oldestMs);
    (if remaining < 0 then 0 else remaining) * MILLISECOND
  }

  /** The reservation made from one reply of check.lua. */
  function Reserved(rpm: int, tpm: int, nowMs: int, windowMs: nat, r: Reply): Reservation {
    var reset := ComputeReset(nowMs, r.rpmOldest, windowMs);
    var tpmReset := ComputeReset(nowMs, r.tpmOldest, windowMs);
    var advice := if r.code == REJECT_RPM then reset else if r.code == REJECT_TPM then tpmReset else 0;
    Reservation(
      r.allowed,
      rpm, ClampRemaining(rpm, r.rpmUsed), reset,
      tpm, ClampRemaining(tpm, r.tpmUsed), tpmReset,
      if r.allowed then 0 else if advice <= 0 then windowMs * MILLISECOND else advice)
  }

  /** What a key without limits gets, with no script run. */
  const UNLIMITED := Reservation(true, 0, 0, 0, 0, 0, 0, 0)

  datatype RedisValue = Integer(i: int) | NotInteger

  /** How Redis ships the Lua table. */
  function Shipped(r: Reply): seq<RedisValue> {
    [Integer(if r.allowed then 1 else 0), Integer(r.code), Integer(r.rpmUsed),
     Integer(r.rpmOldest), Integer(r.tpmUsed), Integer(r.tpmOldest)]
  }

  /** parseCheckResult accepts exactly the shipped replies, and six integers whose first is
      neither 0 nor 1 as a rejection; it recovers every reply that was shipped. */
  method ParseCheckResult(out: seq<RedisValue>) returns (r: Option<Reply>)
    ensures r.Some? <==> |out| == 6 && forall i :: 0 <= i < 6 ==> out[i].Integer?
    ensures forall reply :: out == Shipped(reply) ==> r == Some(reply)
    ensures r.Some? ==> Shipped(r.value)[1..] == out[1..] && r.value.allowed == (out[0] == Integer(1))
  {
    if |out| != 6 {
      return None;
    }
    var fields: seq<int> := [];
    for i := 0 to |out|
      invariant |fields| == i
      invariant forall k :: 0 <= k < i ==> out[k] == Integer(fields[k])
    {
      if out[i].NotInteger? {
        return None;
      }
      fields := fields + [out[i].i];
    }
    r := Some(Reply(fields[0] == 1, fields[1], fields[2], fields[3], fields[4], fields[5]));
  }

  class RedisLimiter {
    const instance: string
    const windowMs: nat
    const defaultRPM: int
    const defaultTPM: int
    var counter: nat

    constructor (instance: string, windowMs: nat, defaultRPM: int, defaultTPM: int)
      ensures this.instance == instance && this.windowMs == windowMs && counter == 0
      ensures this.defaultRPM == defaultRPM && this.defaultTPM == defaultTPM
    {
      this.instance, this.windowMs := instance, windowMs;
      this.defaultRPM, this.defaultTPM := defaultRPM, defaultTPM;
      counter := 0;
    }

    method NewReqID(nowMs: int) returns (id: string)
      modifies this`counter
      ensures counter == old(counter) + 1 && id == ReqID(instance, nowMs, counter)
    {
      counter := counter + 1;
      id := ReqID(instance, nowMs, counter);
    }

    /** Reserve runs the script under a fresh identifier and reads the reservation off its reply;
        a key without limits never reaches Redis. */
    method Reserve(key: KeyInfo, store: KeyWindows, nowMs: int, clock: int) returns (res: Reservation)
      modifies this`counter, store
      ensures var rpm, tpm := Effective(key.rpm, defaultRPM), Effective(key.tpm, defaultTPM);
              if rpm <= 0 && tpm <= 0 then
                res == UNLIMITED && counter == old(counter) && store.Value() == old(store.Value())
              else
                var id := ReqID(instance, nowMs, old(counter) + 1);
                var (keys, reply) := CheckStep(old(store.Value()), nowMs, clock, windowMs, rpm, tpm, id);
                && counter == old(counter) + 1 && store.Value() == keys
                && res == Reserved(rpm, tpm, nowMs, windowMs, reply)
      ensures key.rpm > 0 ==> res.limit == key.rpm
      ensures key.tpm > 0 ==> res.tpmLimit == key.tpm
      ensures key.rpm <= 0 && defaultRPM > 0 ==> res.limit == defaultRPM
      ensures key.tpm <= 0 && defaultTPM > 0 ==> res.tpmLimit == defaultTPM
      ensures if key.rpm <= 0 && defaultRPM <= 0 && key.tpm <= 0 && defaultTPM <= 0
              then res.allowed && res.retryAfter == 0 && counter == old(counter) && store.Value() == old(store.Value())
              else counter == old(counter) + 1
    {
      var rpm, tpm := Effective(key.rpm, defaultRPM), Effective(key.tpm, defaultTPM);
      if rpm <= 0 && tpm <= 0 {
        return UNLIMITED;
      }
      var id := NewReqID(nowMs);
      var reply := store.Check(nowMs, clock, windowMs, rpm, tpm, id);
      var parsed := ParseCheckResult(Shipped(reply));
      var r := parsed.value;
      var reset := ComputeReset(nowMs, r.rpmOldest, windowMs);
      var tpmReset := ComputeReset(nowMs, r.tpmOldest, windowMs);
      var retryAfter := 0;
      if !r.allowed {
        if r.code == REJECT_RPM {
          retryAfter := reset;
        } else if r.code == REJECT_TPM {
          retryAfter := tpmReset;
        }
        if retryAfter <= 0 {
          retryAfter := windowMs * MILLISECOND;
        }
      }
      res := Reservation(r.allowed, rpm, ClampRemaining(rpm, r.rpmUsed), reset,
                         tpm, ClampRemaining(tpm, r.tpmUsed), tpmReset, retryAfter);
    }

    /** Nothing is written for no tokens or for a key without a token limit. */
    method RecordTokens(key: KeyInfo, store: KeyWindows, tokens: int, nowMs: int, clock: int)
      modifies this`counter, store
      ensures if tokens <= 0 || Effective(key.tpm, defaultTPM) <= 0 then
                counter == old(counter) && store.Value() == old(store.Value())
              else
                var id := ReqID(instance, nowMs, old(counter) + 1);
                && counter == old(counter) + 1
                && store.Value() == RecordStep(old(store.Value()), nowMs, clock, windowMs, id, tokens)
      ensures counter == old(counter) <==> tokens <= 0 || (key.tpm <= 0 && defaultTPM <= 0)
    {
      if tokens <= 0 || Effective(key.tpm, defaultTPM) <= 0 {
        return;
      }
      var id := NewReqID(nowMs);
      store.Record(nowMs, clock, windowMs, id, tokens);
    }
  }

  /** The Retry-After header of a 429: the least whole number of seconds, at least one, that
      covers the wait. */
  function RetryAfterHeader(retryAfter: int): (secs: int)
    ensures secs >= 1 && secs * 1_000_000_000 >= retryAfter
    ensures forall k :: k >= 1 && k * 1_000_000_000 >= retryAfter ==> secs <= k
  {
    var up := (retryAfter + SECOND - 1) / SECOND;
    if up < 1 then 1 else up
  }

  /** The reset headers: the least whole number of seconds that covers the duration, none for a
      duration that is not positive. */
  function RoundToSecond(d: int): (r: int)
    ensures r >= 0 && r >= d && r % 1_000_000_000 == 0
    ensures forall k :: k >= 0 && k >= d && k % 1_000_000_000 == 0 ==> r <= k
  {
    if d <= 0 then 0 else
      var secs := d / SECOND;
      (if d % SECOND != 0 then secs + 1 else secs) * SECOND
  }
}
