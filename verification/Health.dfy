/** The circuit breaker of one provider, held against the history of its outcomes. */
module Health {
  import opened Values

  datatype Outcome =
    | Success(at: int)
    | Failure(at: int, error: Option<string>)

  /** The length of the run of failures at the end of the history. */
  function TrailingFailures(history: seq<Outcome>): nat {
    if history == [] || history[|history| - 1].Success? then 0
    else TrailingFailures(history[..|history| - 1]) + 1
  }

  /** When the last failure was recorded. */
  function LastFailure(history: seq<Outcome>): Option<int> {
    if history == [] then None
    else match history[|history| - 1]
      case Failure(at, _) => Some(at)
      case Success(_) => LastFailure(history[..|history| - 1])
  }

  function LastSuccess(history: seq<Outcome>): Option<int> {
    if history == [] then None
    else match history[|history| - 1]
      case Success(at) => Some(at)
      case Failure(_, _) => LastSuccess(history[..|history| - 1])
  }

  function LastError(history: seq<Outcome>): string {
    if history == [] then ""
    else match history[|history| - 1]
      case Failure(_, Some(e)) => e
      case _ => LastError(history[..|history| - 1])
  }

  predicate IsSuccess(o: Outcome) {
    o.Success?
  }

  predicate IsFailure(o: Outcome) {
    o.Failure?
  }

  /** A failure that came with an error. */
  predicate HasError(o: Outcome) {
    o.Failure? && o.error.Some?
  }

  /** The latest outcome of this kind is the k-th. */
  ghost predicate IsLatest(history: seq<Outcome>, kind: Outcome -> bool, k: int) {
    0 <= k < |history| && kind(history[k]) && forall j :: k < j < |history| ==> !kind(history[j])
  }

  ghost predicate Never(history: seq<Outcome>, kind: Outcome -> bool) {
    forall j :: 0 <= j < |history| ==> !kind(history[j])
  }

  /** Exactly so many failures end the history. */
  ghost predicate EndsIn(history: seq<Outcome>, fails: int) {
    && 0 <= fails <= |history|
    && (forall j :: |history| - fails <= j < |history| ==> history[j].Failure?)
    && (fails < |history| ==> history[|history| - fails - 1].Success?)
  }

  /** What the fields of a breaker say of its history: how many failures end it, when the latest success and
      the latest failure were, and the error of the latest failure that came with one. */
  ghost predicate Tells(history: seq<Outcome>, fails: int, success: Option<int>, failure: Option<int>, error: string) {
    && EndsIn(history, fails)
    && (success.None? <==> Never(history, IsSuccess))
    && (forall k :: IsLatest(history, IsSuccess, k) ==> success == Some(history[k].at))
    && (failure.None? <==> Never(history, IsFailure))
    && (forall k :: IsLatest(history, IsFailure, k) ==> failure == Some(history[k].at))
    && (Never(history, HasError) ==> error == "")
    && (forall k :: IsLatest(history, HasError, k) ==> error == history[k].error.value)
  }

  lemma LatestSnoc(history: seq<Outcome>, kind: Outcome -> bool, k: int)
    requires history != [] && IsLatest(history, kind, k)
    ensures if kind(history[|history| - 1]) then k == |history| - 1 else IsLatest(history[..|history| - 1], kind, k)
  {
  }

  lemma NeverSnoc(history: seq<Outcome>, kind: Outcome -> bool)
    requires history != []
    ensures Never(history, kind) <==> Never(history[..|history| - 1], kind) && !kind(history[|history| - 1])
  {
    var front := history[..|history| - 1];
    assert forall j :: 0 <= j < |front| ==> front[j] == history[j];
  }

  lemma {:induction false} HistoryTells(history: seq<Outcome>)
    ensures Tells(history, TrailingFailures(history), LastSuccess(history), LastFailure(history), LastError(history))
  {
    hide EndsIn, Never, IsLatest;
    if history != [] {
      HistoryTells(history[..|history| - 1]);
      LastSuccessTells(history);
      LastFailureTells(history);
      LastErrorTells(history);
    } else {
      NothingTells();
    }
    RunTells(history);
  }

  lemma NothingTells()
    ensures Tells([], 0, None, None, "")
  {
  }

  lemma {:induction false} RunTells(history: seq<Outcome>)
    ensures EndsIn(history, TrailingFailures(history))
  {
    if history != [] && history[|history| - 1].Failure? {
      var front := history[..|history| - 1];
      RunTells(front);
      assert forall j :: 0 <= j < |front| ==> front[j] == history[j];
    }
  }

  lemma LastSuccessTells(history: seq<Outcome>)
    requires history != []
    requires var front := history[..|history| - 1];
             && (LastSuccess(front).None? <==> Never(front, IsSuccess))
             && (forall k :: IsLatest(front, IsSuccess, k) ==> LastSuccess(front) == Some(front[k].at))
    ensures LastSuccess(history).None? <==> Never(history, IsSuccess)
    ensures forall k :: IsLatest(history, IsSuccess, k) ==> LastSuccess(history) == Some(history[k].at)
  {
    NeverSnoc(history, IsSuccess);
    forall k | IsLatest(history, IsSuccess, k) ensures LastSuccess(history) == Some(history[k].at) {
      LatestSnoc(history, IsSuccess, k);
    }
  }

  lemma LastFailureTells(history: seq<Outcome>)
    requires history != []
    requires var front := history[..|history| - 1];
             && (LastFailure(front).None? <==> Never(front, IsFailure))
             && (forall k :: IsLatest(front, IsFailure, k) ==> LastFailure(front) == Some(front[k].at))
    ensures LastFailure(history).None? <==> Never(history, IsFailure)
    ensures forall k :: IsLatest(history, IsFailure, k) ==> LastFailure(history) == Some(history[k].at)
  {
    NeverSnoc(history, IsFailure);
    forall k | IsLatest(history, IsFailure, k) ensures LastFailure(history) == Some(history[k].at) {
      LatestSnoc(history, IsFailure, k);
    }
  }

  lemma LastErrorTells(history: seq<Outcome>)
    requires history != []
    requires var front := history[..|history| - 1];
             && (Never(front, HasError) ==> LastError(front) == "")
             && (forall k :: IsLatest(front, HasError, k) ==> LastError(front) == front[k].error.value)
    ensures Never(history, HasError) ==> LastError(history) == ""
    ensures forall k :: IsLatest(history, HasError, k) ==> LastError(history) == history[k].error.value
  {
    NeverSnoc(history, HasError);
    forall k | IsLatest(history, HasError, k) ensures LastError(history) == history[k].error.value {
      LatestSnoc(history, HasError, k);
    }
  }

  /** What the breaker means: open while the provider has failed threshold times in a row and the last
      of those failures is less than a cooldown old. */
  ghost predicate Available(history: seq<Outcome>, threshold: int, cooldown: int, now: int) {
    || TrailingFailures(history) < threshold
    || (LastFailure(history).Some? && now - LastFailure(history).value >= cooldown)
  }

  datatype HealthStatus = HealthStatus(
    healthy: bool,
    consecutiveFails: int,
    lastSuccess: Option<int>,
    lastFailure: Option<int>,
    lastError: string)

  class ProviderHealth {
    var consecutiveFails: int
    var lastSuccess: Option<int>
    var lastFailure: Option<int>
    var lastError: string
    var healthy: bool
    const failureThreshold: int
    const cooldownPeriod: int
    ghost var history: seq<Outcome>

    /** Every field is a view of the history. */
    ghost predicate Valid()
      reads this
    {
      && failureThreshold > 0 && cooldownPeriod > 0
      && consecutiveFails == TrailingFailures(history)
      && (healthy <==> TrailingFailures(history) < failureThreshold)
      && lastFailure == LastFailure(history)
      && lastSuccess == LastSuccess(history)
      && lastError == LastError(history)
      && (TrailingFailures(history) > 0 ==> lastFailure.Some?)
    }

    constructor (threshold: int, cooldown: int)
      ensures Valid() && history == []
      ensures failureThreshold == (if threshold <= 0 then 5 else threshold)
      ensures cooldownPeriod == (if cooldown <= 0 then 30_000_000_000 else cooldown)
    {
      healthy := true;
      consecutiveFails, lastError := 0, "";
      lastSuccess, lastFailure := None, None;
      failureThreshold := if threshold <= 0 then 5 else threshold;
      cooldownPeriod := if cooldown <= 0 then 30_000_000_000 else cooldown;
      history := [];
    }

    method RecordSuccess(now: int)
      requires Valid()
      modifies this
      ensures Valid() && history == old(history) + [Success(now)]
    {
      consecutiveFails := 0;
      lastSuccess := Some(now);
      healthy := true;
      history := history + [Success(now)];
      assert history[..|history| - 1] == old(history);
    }

    /** Returns the strict flag, read under the same lock. */
    method RecordFailure(now: int, error: Option<string>) returns (stillHealthy: bool)
      requires Valid()
      modifies this
      ensures Valid() && history == old(history) + [Failure(now, error)]
      ensures stillHealthy <==> TrailingFailures(history) < failureThreshold
    {
      consecutiveFails := consecutiveFails + 1;
      lastFailure := Some(now);
      if error.Some? {
        lastError := error.value;
      }
      if consecutiveFails >= failureThreshold {
        healthy := false;
      }
      history := history + [Failure(now, error)];
      assert history[..|history| - 1] == old(history);
      stillHealthy := healthy;
    }

    method IsHealthy(now: int) returns (ok: bool)
      requires Valid()
      ensures ok <==> Available(history, failureThreshold, cooldownPeriod, now)
    {
      if healthy {
        return true;
      }
      ok := now - lastFailure.value >= cooldownPeriod;
    }

    method Status(now: int) returns (s: HealthStatus)
      requires Valid()
      ensures s.healthy <==> Available(history, failureThreshold, cooldownPeriod, now)
      ensures Tells(history, s.consecutiveFails, s.lastSuccess, s.lastFailure, s.lastError)
    {
      HistoryTells(history);
      var ok := healthy;
      if !ok && now - lastFailure.value >= cooldownPeriod {
        ok := true;
      }
      s := HealthStatus(ok, consecutiveFails, lastSuccess, lastFailure, lastError);
    }
  }

  ghost predicate AllFailures(outcomes: seq<Outcome>) {
    forall i :: 0 <= i < |outcomes| ==> outcomes[i].Failure?
  }

  lemma {:induction false} FailuresAdd(history: seq<Outcome>, more: seq<Outcome>)
    requires AllFailures(more)
    ensures TrailingFailures(history + more) == TrailingFailures(history) + |more|
  {
    if more == [] {
      assert history + more == history;
    } else {
      FailuresAdd(history, more[..|more| - 1]);
      assert (history + more)[..|history + more| - 1] == history + more[..|more| - 1];
    }
  }

  /** The breaker opens on the failure that completes a run of threshold failures, and every further
      failure, also one let through after a cooldown, keeps it open for a full cooldown from then
      on; only a success or the cooldown closes it. */
  lemma FailureReopens(history: seq<Outcome>, more: seq<Outcome>, threshold: int, cooldown: int, now: int)
    requires more != [] && AllFailures(more) && TrailingFailures(history) + |more| >= threshold
    ensures Available(history + more, threshold, cooldown, now) <==> now - more[|more| - 1].at >= cooldown
  {
    FailuresAdd(history, more);
    var all := history + more;
    assert all[|all| - 1] == more[|more| - 1];
  }

  /** A success closes the breaker for at least threshold - 1 failures, at any time. */
  lemma SuccessCloses(history: seq<Outcome>, at: int, more: seq<Outcome>, threshold: int, cooldown: int, now: int)
    requires AllFailures(more) && |more| < threshold
    ensures Available(history + [Success(at)] + more, threshold, cooldown, now)
  {
    FailuresAdd(history + [Success(at)], more);
    var all := history + [Success(at)];
    assert all[|all| - 1] == Success(at);
  }
}
