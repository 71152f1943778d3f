/** The two Lua scripts as atomic steps on the sorted sets of one API key. */
module Scripts {
  import opened SortedSets
  import opened MemberCodec

  /** The two sorted sets of one API key. */
  datatype Keys = Keys(rpm: ZSet, tpm: ZSet)

  /** The tuple check.lua returns. */
  datatype Reply = Reply(
    allowed: bool,
    code: int,
    rpmUsed: int,
    rpmOldest: int,
    tpmUsed: int,
    tpmOldest: int)

  const REJECT_OK := 0
  const REJECT_RPM := 1
  const REJECT_TPM := 2

  /** EXPIRE takes whole seconds: twice the window, rounded up. */
  function RpmTtlMs(window: nat): (ttl: nat)
    ensures ttl % 1000 == 0 && 2 * window <= ttl < 2 * window + 1000
  {
    (window * 2 + 999) / 1000 * 1000
  }

  /** tpm_record.lua takes its millisecond window for seconds, so its key only lives longer. */
  function TpmTtlMs(window: nat): nat {
    window * 2 * 1000
  }

  ghost function TokenTotal(z: ZSet): nat {
    SetSum(z.scores.Keys, TokensOf)
  }

  /** The reply to a check that finds count live requests, the oldest stamped first, and total
      live tokens, the oldest stamped tpmFirst; after is the oldest request once this one is in. */
  function Answer(rpmLim: int, tpmLim: int, now: int, count: nat, first: int, after: int, total: nat, tpmFirst: int)
    : Reply
  {
    if rpmLim > 0 && count >= rpmLim then
      Reply(false, REJECT_RPM, count, first, 0, now)
    else if tpmLim <= 0 then
      Reply(true, REJECT_OK, count + 1, after, 0, now)
    else if total >= tpmLim then
      Reply(false, REJECT_TPM, count, first, total, tpmFirst)
    else
      Reply(true, REJECT_OK, count + 1, after, total, tpmFirst)
  }

  /** check.lua: the request set is pruned at every check, the token set when it is read; only an
      admitted request with a request limit leaves a tick. */
  ghost function CheckStep(k: Keys, now: int, clock: int, window: nat, rpmLim: int, tpmLim: int, id: string)
    : (Keys, Reply)
  {
    var rpm := Prune(Touch(k.rpm, clock), now - window);
    var tpm := Prune(Touch(k.tpm, clock), now - window);
    var ticked := if rpmLim > 0 then Add(rpm, id, now, clock + RpmTtlMs(window)) else rpm;
    var reply := Answer(rpmLim, tpmLim, now, |rpm.scores|, Oldest(rpm.scores, now), Oldest(ticked.scores, now),
                        TokenTotal(tpm), Oldest(tpm.scores, now));
    var rpm' := if reply.allowed then ticked else rpm;
    var tpm' := if reply.code == REJECT_RPM || tpmLim <= 0 then k.tpm else tpm;
    (Keys(rpm', tpm'), reply)
  }

  /** tpm_record.lua. */
  function RecordStep(k: Keys, now: int, clock: int, window: nat, id: string, tokens: nat): Keys {
    k.(tpm := Add(Touch(k.tpm, clock), Member(id, tokens), now, clock + TpmTtlMs(window)))
  }

  class KeyWindows {
    var rpm: ZSet
    var tpm: ZSet

    constructor ()
      ensures Value() == Keys(EMPTY, EMPTY)
    {
      rpm, tpm := EMPTY, EMPTY;
    }

    ghost function Value(): Keys
      reads this
    {
      Keys(rpm, tpm)
    }

    /** check.lua, statement by statement. */
    method Check(now: int, clock: int, window: nat, rpmLim: int, tpmLim: int, id: string) returns (r: Reply)
      modifies this
      ensures (Value(), r) == CheckStep(old(Value()), now, clock, window, rpmLim, tpmLim, id)
    {
      rpm := Prune(Touch(rpm, clock), now - window);
      var rpmCount := |rpm.scores|;
      if rpmLim > 0 && rpmCount >= rpmLim {
        var rpmOldest := OldestScore(rpm.scores, now);
        return Reply(false, REJECT_RPM, rpmCount, rpmOldest, 0, now);
      }
      var tpmTotal, tpmOldest := 0, now;
      if tpmLim > 0 {
        tpm := Prune(Touch(tpm, clock), now - window);
        tpmTotal := SumMembers(tpm.scores.Keys);
        tpmOldest := OldestScore(tpm.scores, now);
        if tpmTotal >= tpmLim {
          var rpmOldest := OldestScore(rpm.scores, now);
          return Reply(false, REJECT_TPM, rpmCount, rpmOldest, tpmTotal, tpmOldest);
        }
      }
      if rpmLim > 0 {
        rpm := Add(rpm, id, now, clock + RpmTtlMs(window));
      }
      var rpmOldest := OldestScore(rpm.scores, now);
      r := Reply(true, REJECT_OK, rpmCount + 1, rpmOldest, tpmTotal, tpmOldest);
    }

    method Record(now: int, clock: int, window: nat, id: string, tokens: nat)
      modifies this
      ensures Value() == RecordStep(old(Value()), now, clock, window, id, tokens)
    {
      tpm := Add(Touch(tpm, clock), Member(id, tokens), now, clock + TpmTtlMs(window));
    }
  }

  /** The loop of check.lua that parses and adds up the surviving members, in any order. */
  method SumMembers(members: set<string>) returns (total: nat)
    ensures total == SetSum(members, TokensOf)
  {
    total := 0;
    var rest := members;
    while rest != {}
      invariant rest <= members
      invariant total + SetSum(rest, TokensOf) == SetSum(members, TokensOf)
      decreases rest
    {
      var m :| m in rest;
      SetSumTake(rest, TokensOf, m);
      total := total + TokensOf(m);
      rest := rest - {m};
    }
  }
}
