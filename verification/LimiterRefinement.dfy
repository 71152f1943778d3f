/** On one timeline the pruned, expiring sorted sets cannot be told from a log that deletes
    nothing: every reply, and what it counts, is what that log says. */
module LimiterRefinement {
  import opened MemberCodec
  import opened SortedSets
  import opened WindowLog
  import opened Scripts
  import opened LimiterRuns
  import opened LimiterBounds

  /** A limiter that keeps every admission and every token record for ever. */
  datatype Log = Log(ticks: seq<Entry>, usage: seq<Entry>)

  /** Its answer: count or sum what is stamped in (now - window, now]. */
  function LogReply(l: Log, w: nat, e: Event): Reply
    requires e.op.Check?
  {
    var lo := e.now - w;
    var first := OldestIn(l.ticks, lo, e.now);
    Answer(e.op.rpmLim, e.op.tpmLim, e.now, SumIn(l.ticks, lo, e.now), first, first,
           SumIn(l.usage, lo, e.now), OldestIn(l.usage, lo, e.now))
  }

  function LogNext(l: Log, w: nat, e: Event): Log {
    match e.op
    case Check(rpmLim, _, id) =>
      if LogReply(l, w, e).allowed && rpmLim > 0
      then l.(ticks := l.ticks + [Entry(id, e.now, e.clock, 1)])
      else l
    case Record(id, tokens, _) =>
      l.(usage := l.usage + [Entry(Member(id, tokens), e.now, e.clock, tokens)])
  }

  function LogExec(run: seq<Event>, w: nat): Log {
    if run == [] then Log([], []) else LogNext(LogExec(run[..|run| - 1], w), w, run[|run| - 1])
  }

  /** The log beside a system state. */
  ghost function LogOf(s: Sys): Log {
    Log(s.ticks, s.usage)
  }

  /** z is exactly the part of es stamped in (now - w, now]. */
  ghost predicate Mirrors(z: ZSet, es: seq<Entry>, w: nat, now: int) {
    && Tracks(z, es, now, w)
    && (forall e :: e in es ==> e.stamp <= now)
    && (forall m :: m in z.scores ==> now - w < z.scores[m])
  }

  lemma MirrorSum(z: ZSet, es: seq<Entry>, w: nat, now: int, f: string -> nat)
    requires Mirrors(z, es, w, now) && Distinct(es) && Weighs(es, f)
    ensures SetSum(z.scores.Keys, f) == SumIn(es, now - w, now)
  {
    SumIsLive(es, now - w, now, f);
    forall m | m in z.scores ensures m in Live(es, now - w, now) {
      var e :| e in es && e.member == m && e.stamp == z.scores[m];
    }
    assert Live(es, now - w, now) == z.scores.Keys;
  }

  lemma MirrorOldest(z: ZSet, es: seq<Entry>, w: nat, now: int)
    requires Mirrors(z, es, w, now)
    ensures Oldest(z.scores, now) == OldestIn(es, now - w, now)
  {
    var r, q := Oldest(z.scores, now), OldestIn(es, now - w, now);
    OldestInIs(es, now - w, now);
    assert forall e :: e in es && now - w < e.stamp <= now ==> e.member in z.scores && r <= e.stamp;
    if z.scores != map[] {
      var m :| m in z.scores && z.scores[m] == r;
      var e :| e in es && e.member == m && e.stamp == z.scores[m];
      assert q <= e.stamp;
    }
  }

  /** Pruning a tracking set at the latest stamp leaves a mirror. */
  lemma PruneMirrors(z: ZSet, es: seq<Entry>, hi: int, w: nat, e: Event)
    requires Tracks(z, es, hi, w) && hi <= e.now && Aged(es, e, 0, w)
    ensures Mirrors(Prune(Touch(z, e.clock), e.now - w), es, w, e.now)
  {
    TracksPrune(z, es, hi, e.now, w, e.now, e.clock);
  }

  /** Right before the sorted sets are read, they mirror the log. */
  lemma BothMirror(front: seq<Event>, w: nat, e: Event, run: seq<Event>)
    requires run == front + [e] && Fresh(run) && Drift(run, 0, w)
    ensures var s := Exec(front, w);
            && Mirrors(Prune(Touch(s.keys.rpm, e.clock), e.now - w), s.ticks, w, e.now)
            && Mirrors(Prune(Touch(s.keys.tpm, e.clock), e.now - w), s.usage, w, e.now)
            && Shape(s, front)
  {
    assert run[..|run| - 1] == front;
    DropLast(run, 0, w);
    ShapeHolds(front, w);
    var s := Exec(front, w);
    Elapsed(s.ticks, front, run, 0, w);
    Elapsed(s.usage, front, run, 0, w);
    var hi := LatestSoFar(front, w, e, run);
    PruneMirrors(s.keys.rpm, s.ticks, hi, w, e);
    PruneMirrors(s.keys.tpm, s.usage, hi, w, e);
  }

  lemma LatestSoFar(front: seq<Event>, w: nat, e: Event, run: seq<Event>) returns (hi: int)
    requires run == front + [e] && Fresh(front) && Drift(front, 0, w) && Drift(run, 0, w)
    ensures Tracked(Exec(front, w), hi, w) && hi <= e.now
  {
    if front == [] {
      hi := e.now;
    } else {
      hi := Hi(front);
      TrackedHolds(front, w, 0);
      HiBounds(front, 0, w, 0);
      assert Apart(run, |front| - 1, |front|, 0, w);
    }
  }

  /** What the script reads is what the log says. */
  ghost predicate SameReadings(s: Sys, w: nat, e: Event, rpm: ZSet, tpm: ZSet) {
    && |rpm.scores| == SumIn(s.ticks, e.now - w, e.now)
    && Oldest(rpm.scores, e.now) == OldestIn(s.ticks, e.now - w, e.now)
    && TokenTotal(tpm) == SumIn(s.usage, e.now - w, e.now)
    && Oldest(tpm.scores, e.now) == OldestIn(s.usage, e.now - w, e.now)
    && Oldest(Add(rpm, e.op.id, e.now, e.clock + RpmTtlMs(w)).scores, e.now) == Oldest(rpm.scores, e.now)
  }

  lemma OldestAfterTick(s: Sys, front: seq<Event>, w: nat, e: Event, run: seq<Event>, rpm: ZSet)
    requires run == front + [e] && Fresh(run) && Shape(s, front)
    requires Mirrors(rpm, s.ticks, w, e.now)
    ensures Oldest(Add(rpm, e.op.id, e.now, e.clock + RpmTtlMs(w)).scores, e.now) == Oldest(rpm.scores, e.now)
  {
    NotYetTicked(front, s, e, run, rpm, w);
    OldestWithNow(rpm, e.op.id, e.now, e.clock + RpmTtlMs(w));
  }

  lemma TokenSide(usage: seq<Entry>, tpm: ZSet, w: nat, now: int)
    requires Mirrors(tpm, usage, w, now) && Distinct(usage) && Weighs(usage, TokensOf)
    ensures TokenTotal(tpm) == SumIn(usage, now - w, now)
    ensures Oldest(tpm.scores, now) == OldestIn(usage, now - w, now)
  {
    MirrorSum(tpm, usage, w, now, TokensOf);
    MirrorOldest(tpm, usage, w, now);
  }

  lemma SameReply(s: Sys, w: nat, e: Event, rpm: ZSet, tpm: ZSet)
    requires e.op.Check? && SameReadings(s, w, e, rpm, tpm)
    requires rpm == Prune(Touch(s.keys.rpm, e.clock), e.now - w)
    requires tpm == Prune(Touch(s.keys.tpm, e.clock), e.now - w)
    ensures ReplyTo(s, w, e) == LogReply(LogOf(s), w, e)
  {
    ScriptAnswer(s, w, e, rpm, tpm);
    var lo, first := e.now - w, OldestIn(s.ticks, e.now - w, e.now);
    assert LogReply(LogOf(s), w, e) ==
           Answer(e.op.rpmLim, e.op.tpmLim, e.now, SumIn(s.ticks, lo, e.now), first, first,
                  SumIn(s.usage, lo, e.now), OldestIn(s.usage, lo, e.now));
  }

  /** The script's reply, read off the pruned sets, when a tick leaves the oldest score alone. */
  lemma ScriptAnswer(s: Sys, w: nat, e: Event, rpm: ZSet, tpm: ZSet)
    requires e.op.Check?
    requires rpm == Prune(Touch(s.keys.rpm, e.clock), e.now - w)
    requires tpm == Prune(Touch(s.keys.tpm, e.clock), e.now - w)
    requires Oldest(Add(rpm, e.op.id, e.now, e.clock + RpmTtlMs(w)).scores, e.now) == Oldest(rpm.scores, e.now)
    ensures ReplyTo(s, w, e) ==
            Answer(e.op.rpmLim, e.op.tpmLim, e.now, |rpm.scores|, Oldest(rpm.scores, e.now),
                   Oldest(rpm.scores, e.now), TokenTotal(tpm), Oldest(tpm.scores, e.now))
  {
  }

  lemma StepRefines(front: seq<Event>, w: nat, e: Event, run: seq<Event>)
    requires run == front + [e] && Fresh(run) && Drift(run, 0, w) && e.op.Check?
    ensures ReplyTo(Exec(front, w), w, e) == LogReply(LogOf(Exec(front, w)), w, e)
  {
    BothMirror(front, w, e, run);
    MirrorReplies(Exec(front, w), front, w, e, run);
  }

  /** Sets that mirror their logs give the reply the logs give. */
  lemma MirrorReplies(s: Sys, front: seq<Event>, w: nat, e: Event, run: seq<Event>)
    requires run == front + [e] && Fresh(run) && e.op.Check? && Shape(s, front)
    requires Mirrors(Prune(Touch(s.keys.rpm, e.clock), e.now - w), s.ticks, w, e.now)
    requires Mirrors(Prune(Touch(s.keys.tpm, e.clock), e.now - w), s.usage, w, e.now)
    ensures ReplyTo(s, w, e) == LogReply(LogOf(s), w, e)
  {
    var rpm := Prune(Touch(s.keys.rpm, e.clock), e.now - w);
    var tpm := Prune(Touch(s.keys.tpm, e.clock), e.now - w);
    RequestReadings(s, front, w, e, run, rpm);
    TokenReadings(s, front, w, e, tpm);
    SameReply(s, w, e, rpm, tpm);
  }

  lemma RequestReadings(s: Sys, front: seq<Event>, w: nat, e: Event, run: seq<Event>, rpm: ZSet)
    requires run == front + [e] && Fresh(run) && Shape(s, front) && Mirrors(rpm, s.ticks, w, e.now)
    ensures |rpm.scores| == SumIn(s.ticks, e.now - w, e.now)
    ensures Oldest(rpm.scores, e.now) == OldestIn(s.ticks, e.now - w, e.now)
    ensures Oldest(Add(rpm, e.op.id, e.now, e.clock + RpmTtlMs(w)).scores, e.now) == Oldest(rpm.scores, e.now)
  {
    OldestAfterTick(s, front, w, e, run, rpm);
    RequestSide(s.ticks, rpm, w, e.now);
  }

  lemma TokenReadings(s: Sys, front: seq<Event>, w: nat, e: Event, tpm: ZSet)
    requires Shape(s, front) && Mirrors(tpm, s.usage, w, e.now)
    ensures TokenTotal(tpm) == SumIn(s.usage, e.now - w, e.now)
    ensures Oldest(tpm.scores, e.now) == OldestIn(s.usage, e.now - w, e.now)
  {
    TokenSide(s.usage, tpm, w, e.now);
  }

  lemma RequestSide(ticks: seq<Entry>, rpm: ZSet, w: nat, now: int)
    requires Mirrors(rpm, ticks, w, now) && Distinct(ticks) && Weighs(ticks, One)
    ensures |rpm.scores| == SumIn(ticks, now - w, now)
    ensures Oldest(rpm.scores, now) == OldestIn(ticks, now - w, now)
  {
    MirrorSum(rpm, ticks, w, now, One);
    SetSumOnes(rpm.scores.Keys, One);
    MirrorOldest(rpm, ticks, w, now);
  }

  /** A fresh identifier has no tick yet, and no score lies in the future. */
  lemma NotYetTicked(front: seq<Event>, s: Sys, e: Event, run: seq<Event>, rpm: ZSet, w: nat)
    requires run == front + [e] && Fresh(run)
    requires Shape(s, front) && Mirrors(rpm, s.ticks, w, e.now)
    ensures e.op.id !in rpm.scores
    ensures forall m :: m in rpm.scores ==> rpm.scores[m] <= e.now
  {
    forall m | m in rpm.scores ensures m != e.op.id && rpm.scores[m] <= e.now {
      var t :| t in s.ticks && t.member == m && t.stamp == rpm.scores[m];
      var i :| 0 <= i < |front| && front[i].op.id == t.member;
      assert Differ(run, i, |front|);
    }
  }

  /** Adding a member stamped now leaves the oldest score as it was. */
  lemma OldestWithNow(z: ZSet, id: string, now: int, deadline: int)
    requires forall m :: m in z.scores ==> z.scores[m] <= now
    requires id !in z.scores
    ensures Oldest(Add(z, id, now, deadline).scores, now) == Oldest(z.scores, now)
  {
    var z' := Add(z, id, now, deadline);
    var r, r' := Oldest(z.scores, now), Oldest(z'.scores, now);
    if z.scores != map[] {
      var m :| m in z.scores && z.scores[m] == r;
      assert z'.scores[m] == r;
    }
    var m' :| m' in z'.scores && z'.scores[m'] == r';
    assert z'.scores[id] == now;
  }

  /** The system's own log is the log of the limiter that deletes nothing. */
  lemma {:induction false} SameLog(run: seq<Event>, w: nat)
    requires Fresh(run) && Drift(run, 0, w)
    ensures LogOf(Exec(run, w)) == LogExec(run, w)
    ensures Exec(run, w).ticks == LogExec(run, w).ticks
  {
    if run != [] {
      var front, e := run[..|run| - 1], run[|run| - 1];
      assert front + [e] == run;
      DropLast(run, 0, w);
      SameLog(front, w);
      if e.op.Check? {
        StepRefines(front, w, e, run);
      }
    }
  }

  /** Refinement: every reply of every run, in every field, is the reply of the log that deletes
      nothing. Pruning and both EXPIREs are unobservable. */
  lemma Refines(run: seq<Event>, w: nat, i: nat)
    requires Fresh(run) && Drift(run, 0, w) && i < |run| && run[i].op.Check?
    ensures ReplyAt(run, w, i) == LogReply(LogExec(run[..i], w), w, run[i])
  {
    var upto := run[..i + 1];
    Prefix(run, i + 1, 0, w);
    Prefix(run, i, 0, w);
    assert upto == run[..i] + [run[i]];
    StepRefines(run[..i], w, run[i], upto);
    SameLog(run[..i], w);
  }

  /** Conservation: the token sum a check reports is the sum of the token counts handed to the
      record steps so far whose stamps are still in the window, each counted once. */
  lemma TokensConserved(run: seq<Event>, w: nat, i: nat)
    requires Fresh(run) && Drift(run, 0, w) && i < |run| && run[i].op.Check? && run[i].op.tpmLim > 0
    requires ReplyAt(run, w, i).code != REJECT_RPM
    ensures ReplyAt(run, w, i).tpmUsed == Recorded(run[..i], run[i].now - w, run[i].now)
  {
    hide ReplyAt, LogReply;
    Refines(run, w, i);
    Prefix(run, i, 0, w);
    var r := ReplyAt(run, w, i);
    LoggedReport(run[..i], w, run[i], r);
  }

  lemma LoggedReport(run: seq<Event>, w: nat, e: Event, r: Reply)
    requires Fresh(run) && Drift(run, 0, w) && e.op.Check? && e.op.tpmLim > 0
    requires r == LogReply(LogExec(run, w), w, e) && r.code != REJECT_RPM
    ensures r.tpmUsed == Recorded(run, e.now - w, e.now)
  {
    ReportedSum(LogExec(run, w), w, e);
    LoggedUsage(run, w, e.now - w, e.now);
  }

  /** Admitted requests stamped in the window that ends with step i, right before it. */
  ghost function Requested(run: seq<Event>, w: nat, i: nat): nat
    requires i < |run|
  {
    SumIn(Exec(run[..i], w).ticks, run[i].now - w, run[i].now)
  }

  /** What the two limits say of c requests and n tokens in the window. */
  function Verdict(rpmLim: int, tpmLim: int, c: nat, n: nat): int {
    if rpmLim > 0 && c >= rpmLim then REJECT_RPM else if tpmLim > 0 && n >= tpmLim then REJECT_TPM else REJECT_OK
  }

  /** The decision: a check is refused by the request limit exactly when the window already holds
      that many admissions, else by the token limit exactly when the recorded tokens reach it, and
      is admitted otherwise. */
  lemma AdmitsExactly(run: seq<Event>, w: nat, i: nat)
    requires Fresh(run) && Drift(run, 0, w) && i < |run| && run[i].op.Check?
    ensures ReplyAt(run, w, i).code == Verdict(run[i].op.rpmLim, run[i].op.tpmLim, Requested(run, w, i),
                                               Recorded(run[..i], run[i].now - w, run[i].now))
    ensures ReplyAt(run, w, i).allowed <==> ReplyAt(run, w, i).code == REJECT_OK
  {
    hide ReplyAt, LogReply, Verdict, Exec, LogExec, Recorded;
    Refines(run, w, i);
    Prefix(run, i, 0, w);
    LoggedVerdict(run[..i], w, run[i], ReplyAt(run, w, i));
  }

  lemma LoggedVerdict(run: seq<Event>, w: nat, e: Event, r: Reply)
    requires Fresh(run) && Drift(run, 0, w) && e.op.Check? && r == LogReply(LogExec(run, w), w, e)
    ensures r.code == Verdict(e.op.rpmLim, e.op.tpmLim, SumIn(Exec(run, w).ticks, e.now - w, e.now),
                              Recorded(run, e.now - w, e.now))
    ensures r.allowed <==> r.code == REJECT_OK
  {
    hide LogReply, SumIn, Recorded, Exec;
    var l, c, n := Readings(run, w, e.now - w, e.now);
    VerdictOf(l, w, e, r, c, n);
  }

  /** What the log has in a window is what the run put there. */
  lemma Readings(run: seq<Event>, w: nat, lo: int, hi: int) returns (l: Log, c: nat, n: nat)
    requires Fresh(run) && Drift(run, 0, w)
    ensures l == LogExec(run, w)
    ensures c == SumIn(Exec(run, w).ticks, lo, hi) == SumIn(l.ticks, lo, hi)
    ensures n == Recorded(run, lo, hi) == SumIn(l.usage, lo, hi)
  {
    var ticks := SameTicks(run, w);
    LoggedUsage(run, w, lo, hi);
    l, c, n := LogExec(run, w), SumIn(ticks, lo, hi), Recorded(run, lo, hi);
  }

  lemma VerdictOf(l: Log, w: nat, e: Event, r: Reply, c: nat, n: nat)
    requires e.op.Check? && r == LogReply(l, w, e)
    requires c == SumIn(l.ticks, e.now - w, e.now) && n == SumIn(l.usage, e.now - w, e.now)
    ensures r.code == Verdict(e.op.rpmLim, e.op.tpmLim, c, n)
    ensures r.allowed <==> r.code == REJECT_OK
  {
  }

  lemma SameTicks(run: seq<Event>, w: nat) returns (ticks: seq<Entry>)
    requires Fresh(run) && Drift(run, 0, w)
    ensures ticks == Exec(run, w).ticks == LogExec(run, w).ticks
  {
    ticks := Exec(run, w).ticks;
    SameLog(run, w);
  }

  /** The count a check reports is the number of admissions in its window once it is done, its own
      included, exactly if the check has a request limit or the tokens recorded so far refuse it: an
      admission without a request limit leaves no tick but is reported as if it had. */
  lemma RequestsConserved(run: seq<Event>, w: nat, i: nat)
    requires Fresh(run) && Drift(run, 0, w) && i < |run| && run[i].op.Check? && w > 0
    ensures ReplyAt(run, w, i).rpmUsed == SumIn(Exec(run[..i + 1], w).ticks, run[i].now - w, run[i].now)
       <==> || run[i].op.rpmLim > 0
            || (run[i].op.tpmLim > 0 && Recorded(run[..i], run[i].now - w, run[i].now) >= run[i].op.tpmLim)
  {
    hide ReplyAt, LogReply, Exec, LogExec, Recorded;
    var r, upto := ReplyAt(run, w, i), run[..i + 1];
    Refines(run, w, i);
    Prefix(run, i + 1, 0, w);
    Prefix(run, i, 0, w);
    assert upto[..i] == run[..i] && upto[i] == run[i];
    LoggedCount(upto, w, i, r);
  }

  lemma LoggedCount(run: seq<Event>, w: nat, i: nat, r: Reply)
    requires |run| == i + 1 && run[i].op.Check? && w > 0
    requires Fresh(run) && Drift(run, 0, w) && Fresh(run[..i]) && Drift(run[..i], 0, w)
    requires r == LogReply(LogExec(run[..i], w), w, run[i])
    ensures r.rpmUsed == SumIn(Exec(run, w).ticks, run[i].now - w, run[i].now)
       <==> || run[i].op.rpmLim > 0
            || (run[i].op.tpmLim > 0 && Recorded(run[..i], run[i].now - w, run[i].now) >= run[i].op.tpmLim)
  {
    hide LogReply, SumIn, Next, Recorded;
    var ticks := SameTicks(run, w);
    LoggedUsage(run[..i], w, run[i].now - w, run[i].now);
    CountedAfter(LogExec(run[..i], w), w, run[i]);
  }

  lemma CountedAfter(l: Log, w: nat, e: Event)
    requires e.op.Check? && w > 0
    ensures LogReply(l, w, e).rpmUsed == SumIn(LogNext(l, w, e).ticks, e.now - w, e.now)
       <==> e.op.rpmLim > 0 || (e.op.tpmLim > 0 && SumIn(l.usage, e.now - w, e.now) >= e.op.tpmLim)
  {
    hide SumIn, OldestIn;
    SumAppend(l.ticks, Entry(e.op.id, e.now, e.clock, 1), e.now - w, e.now);
  }

  /** A key with a token limit alone: its one admission is reported as one request in a window that
      holds none. */
  lemma UnlimitedIsCounted(w: nat) returns (run: seq<Event>)
    requires w > 0
    ensures Fresh(run) && Drift(run, 0, w) && |run| == 1 && run[0].op.Check?
    ensures run[0].op.rpmLim == 0 && run[0].op.tpmLim > 0
    ensures ReplyAt(run, w, 0).allowed && ReplyAt(run, w, 0).rpmUsed == 1
    ensures SumIn(Exec(run[..1], w).ticks, run[0].now - w, run[0].now) == 0
  {
    run := [Event(0, 0, Check(0, 1, "a"))];
    assert run[..0] == [] && run[..1] == run;
    var pruned := Prune(Touch(EMPTY, 0), 0 - w);
    assert pruned.scores == map[] && pruned.scores.Keys == {};
    SetSumEmpty(TokensOf);
  }

  lemma LoggedUsage(run: seq<Event>, w: nat, lo: int, hi: int)
    requires Fresh(run) && Drift(run, 0, w)
    ensures SumIn(LogExec(run, w).usage, lo, hi) == Recorded(run, lo, hi)
  {
    SameLog(run, w);
    RecordedIsUsage(run, w, lo, hi);
  }

  lemma ReportedSum(l: Log, w: nat, e: Event)
    requires e.op.Check? && e.op.tpmLim > 0 && LogReply(l, w, e).code != REJECT_RPM
    ensures LogReply(l, w, e).tpmUsed == SumIn(l.usage, e.now - w, e.now)
  {
  }
}
