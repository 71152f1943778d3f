/** warnFailOpen: a lock-free throttle on the fail-open warning, under any interleaving. */
module WarnThrottle {

  /** Where one goroutine is inside warnFailOpen. */
  datatype Local =
    | Clocked(now: int)             // has read the clock
    | Passed(now: int, prev: int)   // has loaded prev and passed the interval test

  /** One atomic action of goroutine t. */
  datatype Action =
    | ReadClock(t: int, now: int)
    | Load(t: int)
    | Swap(t: int)

  /** The shared atomic, the goroutines inside, and the stamps of the warnings logged so far. */
  datatype State = State(last: int, inside: map<int, Local>, logged: seq<int>)

  const INITIAL := State(0, map[], [])

  /** ReadClock enters with a clock reading, positive as Unix time is. */
  predicate Enabled(s: State, a: Action) {
    match a
    case ReadClock(t, now) => t !in s.inside && now > 0
    case Load(t) => t in s.inside && s.inside[t].Clocked?
    case Swap(t) => t in s.inside && s.inside[t].Passed?
  }

  function Next(s: State, interval: int, a: Action): State
    requires Enabled(s, a)
  {
    match a
    case ReadClock(t, now) => s.(inside := s.inside[t := Clocked(now)])
    case Load(t) =>
      var now := s.inside[t].now;
      if s.last != 0 && now - s.last < interval then s.(inside := s.inside - {t})
      else s.(inside := s.inside[t := Passed(now, s.last)])
    case Swap(t) =>
      var Passed(now, prev) := s.inside[t];
      if s.last == prev then State(now, s.inside - {t}, s.logged + [now])
      else s.(inside := s.inside - {t})
  }

  /** Every action of the run is one its goroutine can take. */
  ghost predicate Possible(run: seq<Action>, interval: int)
    decreases |run|, 0
  {
    run == [] ||
    (&& Possible(run[..|run| - 1], interval)
     && Enabled(Exec(run[..|run| - 1], interval), run[|run| - 1]))
  }

  ghost function Exec(run: seq<Action>, interval: int): State
    requires Possible(run, interval)
    decreases |run|, 1
  {
    if run == [] then INITIAL else Next(Exec(run[..|run| - 1], interval), interval, run[|run| - 1])
  }

  ghost predicate Spaced(stamps: seq<int>, interval: int) {
    forall i :: 0 < i < |stamps| ==> stamps[i] - stamps[i - 1] >= interval
  }

  /** The atomic is the last logged stamp, and whoever passed the test is an interval past what it
      loaded. */
  ghost predicate Inv(s: State, interval: int) {
    && s.last == (if s.logged == [] then 0 else s.logged[|s.logged| - 1])
    && (forall i :: 0 <= i < |s.logged| ==> s.logged[i] > 0)
    && (forall t :: t in s.inside ==> s.inside[t].now > 0)
    && (forall t :: t in s.inside && s.inside[t].Passed? ==>
          s.inside[t].prev == 0 || s.inside[t].now - s.inside[t].prev >= interval)
    && Spaced(s.logged, interval)
  }

  lemma Preserved(s: State, interval: int, a: Action)
    requires Enabled(s, a) && Inv(s, interval)
    ensures Inv(Next(s, interval, a), interval)
  {
  }

  lemma {:induction false} InvHolds(run: seq<Action>, interval: int)
    requires Possible(run, interval)
    ensures Inv(Exec(run, interval), interval)
  {
    if run != [] {
      InvHolds(run[..|run| - 1], interval);
      Preserved(Exec(run[..|run| - 1], interval), interval, run[|run| - 1]);
    }
  }

  lemma {:induction false} Telescope(stamps: seq<int>, interval: int, i: nat, j: nat)
    requires Spaced(stamps, interval) && i <= j < |stamps|
    ensures stamps[j] - stamps[i] >= (j - i) * interval
  {
    if i < j {
      Telescope(stamps, interval, i, j - 1);
      assert (j - i) * interval == (j - 1 - i) * interval + interval;
    }
  }

  /** Throttling: in any interleaving of any number of goroutines, the i-th and the j-th warning are
      at least j - i intervals apart. */
  lemma WarningsAreSpaced(run: seq<Action>, interval: int, i: nat, j: nat)
    requires Possible(run, interval)
    requires i <= j < |Exec(run, interval).logged|
    ensures Exec(run, interval).logged[j] - Exec(run, interval).logged[i] >= (j - i) * interval
  {
    InvHolds(run, interval);
    Telescope(Exec(run, interval).logged, interval, i, j);
  }

  /** Nobody is silenced without cause: a goroutine that leaves without logging either found a
      warning less than an interval before its own clock reading, or lost the race to one that
      was logged after its load. */
  lemma SilencedByAWarning(run: seq<Action>, more: seq<Action>, interval: int, t: int)
    requires interval >= 0
    requires Possible(run + [Load(t)] + more, interval)
    requires forall i :: 0 <= i < |more| ==> more[i].t != t
    requires Possible(run, interval) && Possible(run + [Load(t)], interval)
    ensures var before, loaded := Exec(run, interval), Exec(run + [Load(t)], interval);
            var s := Exec(run + [Load(t)] + more, interval);
            && (t !in loaded.inside ==>
                  exists k :: 0 <= k < |before.logged| && before.inside[t].now - before.logged[k] < interval)
            && (t in loaded.inside ==>
                  && Enabled(s, Swap(t))
                  && before.logged <= s.logged
                  && (Next(s, interval, Swap(t)).logged == s.logged ==> |before.logged| < |s.logged|))
  {
    var all := run + [Load(t)];
    assert all[..|all| - 1] == run;
    InvHolds(run, interval);
    var before := Exec(run, interval);
    if t in Exec(all, interval).inside {
      Waiting(all, more, interval, t);
      InvHolds(all + more, interval);
    } else {
      var k := |before.logged| - 1;
      assert before.logged[k] == before.last;
      assert before.inside[t].now - before.logged[k] < interval;
    }
  }

  lemma {:induction false} Waiting(run: seq<Action>, more: seq<Action>, interval: int, t: int)
    requires Possible(run + more, interval) && Possible(run, interval)
    requires forall i :: 0 <= i < |more| ==> more[i].t != t
    requires t in Exec(run, interval).inside
    ensures t in Exec(run + more, interval).inside
    ensures Exec(run + more, interval).inside[t] == Exec(run, interval).inside[t]
    ensures Exec(run, interval).logged <= Exec(run + more, interval).logged
  {
    if more == [] {
      assert run + more == run;
    } else {
      var n := |more| - 1;
      var all := run + more;
      assert all[..|all| - 1] == run + more[..n];
      Waiting(run, more[..n], interval, t);
    }
  }
}
