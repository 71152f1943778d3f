/** What a rejected client is told, held against what later checks answer. */
module LimiterAdvice {
  import opened WindowLog
  import opened Scripts
  import opened Limiter
  import opened LimiterRuns
  import opened LimiterBounds
  import opened LimiterRefinement

  ghost function ReservationAt(run: seq<Event>, w: nat, i: nat): Reservation
    requires i < |run| && run[i].op.Check?
  {
    Reserved(run[i].op.rpmLim, run[i].op.tpmLim, run[i].now, w, ReplyAt(run, w, i))
  }

  /** The log right before step i. */
  ghost function LogAt(run: seq<Event>, w: nat, i: nat): Log
    requires i <= |run|
  {
    if i == 0 then Log([], []) else LogNext(LogAt(run, w, i - 1), w, run[i - 1])
  }

  lemma {:induction false} LogAtIs(run: seq<Event>, w: nat, i: nat)
    requires i <= |run|
    ensures LogAt(run, w, i) == LogExec(run[..i], w)
  {
    if i > 0 {
      LogAtIs(run, w, i - 1);
      assert run[..i][..i - 1] == run[..i - 1];
    }
  }

  lemma ReplyIsLogged(run: seq<Event>, w: nat, i: nat)
    requires Fresh(run) && Drift(run, 0, w) && i < |run| && run[i].op.Check?
    ensures ReplyAt(run, w, i) == LogReply(LogAt(run, w, i), w, run[i])
  {
    Refines(run, w, i);
    LogAtIs(run, w, i);
  }

  // ---- The headers

  /** Of a limit, what n leaves. */
  function Left(limit: int, n: nat): nat {
    if n < limit then limit - n else 0
  }

  /** The request headers mean the window: what is left is the limit less the admissions in it once
      the check is done, and the reset is the time until the oldest of them leaves it. */
  lemma RequestHeaders(run: seq<Event>, w: nat, i: nat)
    requires Fresh(run) && Drift(run, 0, w) && i < |run| && run[i].op.Check? && w > 0
    ensures var res, now := ReservationAt(run, w, i), run[i].now;
            var ticks := Exec(run[..i + 1], w).ticks;
            && res.limit == run[i].op.rpmLim && res.remaining == Left(res.limit, SumIn(ticks, now - w, now))
            && res.reset == (OldestIn(ticks, now - w, now) + w - now) * 1_000_000
            && 0 < res.reset <= w * 1_000_000
  {
    hide ReplyAt, LogReply, Exec, LogExec, Reserved;
    var r, upto := ReplyAt(run, w, i), run[..i + 1];
    Refines(run, w, i);
    Prefix(run, i + 1, 0, w);
    assert upto[..i] == run[..i] && upto[i] == run[i];
    LoggedRequestHeaders(upto, w, i, r);
  }

  lemma LoggedRequestHeaders(run: seq<Event>, w: nat, i: nat, r: Reply)
    requires Fresh(run) && Drift(run, 0, w) && |run| == i + 1 && run[i].op.Check? && w > 0
    requires r == LogReply(LogExec(run[..i], w), w, run[i])
    ensures var e, now := run[i], run[i].now;
            var res := Reserved(e.op.rpmLim, e.op.tpmLim, now, w, r);
            var ticks := Exec(run, w).ticks;
            && res.limit == e.op.rpmLim && res.remaining == Left(res.limit, SumIn(ticks, now - w, now))
            && res.reset == (OldestIn(ticks, now - w, now) + w - now) * MILLISECOND
            && 0 < res.reset <= w * MILLISECOND
  {
    hide LogReply, SumIn, OldestIn, Next, Reserved;
    var ticks := SameTicks(run, w);
    RequestHeadersOf(LogExec(run[..i], w), w, run[i]);
  }

  lemma RequestHeadersOf(l: Log, w: nat, e: Event)
    requires e.op.Check? && w > 0
    ensures var res := Reserved(e.op.rpmLim, e.op.tpmLim, e.now, w, LogReply(l, w, e));
            var ticks := LogNext(l, w, e).ticks;
            && res.limit == e.op.rpmLim && res.remaining == Left(res.limit, SumIn(ticks, e.now - w, e.now))
            && res.reset == (OldestIn(ticks, e.now - w, e.now) + w - e.now) * MILLISECOND
            && 0 < res.reset <= w * MILLISECOND
  {
    hide SumIn, OldestIn;
    var t := Entry(e.op.id, e.now, e.clock, 1);
    SumAppend(l.ticks, t, e.now - w, e.now);
    OldestAppend(l.ticks, t, e.now - w);
    OldestInIs(l.ticks, e.now - w, e.now);
  }

  /** The token headers mean the window likewise, with what was recorded; a check without a token limit,
      or refused by the request limit, does not read the tokens and reports an empty window. */
  lemma TokenHeaders(run: seq<Event>, w: nat, i: nat)
    requires Fresh(run) && Drift(run, 0, w) && i < |run| && run[i].op.Check? && w > 0
    ensures var res, now, op := ReservationAt(run, w, i), run[i].now, run[i].op;
            var read := op.tpmLim > 0 && (op.rpmLim <= 0 || Requested(run, w, i) < op.rpmLim);
            && res.tpmLimit == op.tpmLim
            && res.tpmRemaining == Left(op.tpmLim, if read then Recorded(run[..i], now - w, now) else 0)
            && res.tpmReset == (if read then OldestIn(Exec(run[..i], w).usage, now - w, now) + w - now else w)
                               * 1_000_000
            && 0 < res.tpmReset <= w * 1_000_000
  {
    hide ReplyAt, LogReply, Exec, LogExec, Reserved, Recorded, SumIn, OldestIn;
    var r := ReplyAt(run, w, i);
    Refines(run, w, i);
    Prefix(run, i, 0, w);
    LoggedTokenHeaders(run[..i], w, run[i], r);
  }

  lemma LoggedTokenHeaders(run: seq<Event>, w: nat, e: Event, r: Reply)
    requires Fresh(run) && Drift(run, 0, w) && e.op.Check? && w > 0
    requires r == LogReply(LogExec(run, w), w, e)
    ensures var res := Reserved(e.op.rpmLim, e.op.tpmLim, e.now, w, r);
            var read := e.op.tpmLim > 0 &&
                        (e.op.rpmLim <= 0 || SumIn(Exec(run, w).ticks, e.now - w, e.now) < e.op.rpmLim);
            && res.tpmLimit == e.op.tpmLim
            && res.tpmRemaining == Left(e.op.tpmLim, if read then Recorded(run, e.now - w, e.now) else 0)
            && res.tpmReset == (if read then OldestIn(Exec(run, w).usage, e.now - w, e.now) + w - e.now else w)
                               * MILLISECOND
            && 0 < res.tpmReset <= w * MILLISECOND
  {
    hide LogReply, SumIn, OldestIn, Exec, LogExec, Reserved, Recorded;
    SameLog(run, w);
    LoggedUsage(run, w, e.now - w, e.now);
    TokenHeadersOf(LogExec(run, w), w, e);
  }

  lemma TokenHeadersOf(l: Log, w: nat, e: Event)
    requires e.op.Check? && w > 0
    ensures var res := Reserved(e.op.rpmLim, e.op.tpmLim, e.now, w, LogReply(l, w, e));
            var read := e.op.tpmLim > 0 &&
                        (e.op.rpmLim <= 0 || SumIn(l.ticks, e.now - w, e.now) < e.op.rpmLim);
            && res.tpmLimit == e.op.tpmLim
            && res.tpmRemaining == Left(e.op.tpmLim, if read then SumIn(l.usage, e.now - w, e.now) else 0)
            && res.tpmReset == (if read then OldestIn(l.usage, e.now - w, e.now) + w - e.now else w) * MILLISECOND
            && 0 < res.tpmReset <= w * MILLISECOND
  {
    hide SumIn, OldestIn;
    OldestInIs(l.usage, e.now - w, e.now);
  }

  /** The decision the middleware acts on: a reservation is allowed if and only if the window has room
      under both limits, and it advises a wait if and only if it is not. */
  lemma ReservationDecides(run: seq<Event>, w: nat, i: nat)
    requires Fresh(run) && Drift(run, 0, w) && i < |run| && run[i].op.Check? && w > 0
    ensures ReservationAt(run, w, i).allowed <==>
              && (run[i].op.rpmLim <= 0 || Requested(run, w, i) < run[i].op.rpmLim)
              && (run[i].op.tpmLim <= 0 || Recorded(run[..i], run[i].now - w, run[i].now) < run[i].op.tpmLim)
    ensures ReservationAt(run, w, i).retryAfter == 0 <==> ReservationAt(run, w, i).allowed
    ensures ReservationAt(run, w, i).allowed <==> AdmittedAt(run, w, i)
  {
    hide ReplyAt, Exec, Recorded, Requested, Reserved;
    AdmitsExactly(run, w, i);
    ReservedAllows(run[i].op.rpmLim, run[i].op.tpmLim, run[i].now, w, ReplyAt(run, w, i));
  }

  lemma ReservedAllows(rpm: int, tpm: int, now: int, w: nat, r: Reply)
    requires w > 0
    ensures Reserved(rpm, tpm, now, w, r).allowed == r.allowed
    ensures Reserved(rpm, tpm, now, w, r).retryAfter == 0 <==> r.allowed
  {
  }

  // ---- Rejections

  /** short is run without step i. */
  ghost predicate Without(run: seq<Event>, i: nat, short: seq<Event>) {
    && i < |run| == |short| + 1
    && (forall k :: 0 <= k < i ==> short[k] == run[k])
    && (forall k :: i < k < |run| ==> short[k - 1] == run[k])
  }

  /** A rejected check leaves no trace: dropping it from the run changes no other reply. */
  lemma RejectedIsErasable(run: seq<Event>, i: nat, short: seq<Event>, w: nat, j: nat)
    requires Fresh(run) && Drift(run, 0, w) && Without(run, i, short)
    requires i < j < |run| && run[i].op.Check? && run[j].op.Check?
    requires !ReplyAt(run, w, i).allowed
    ensures short[j - 1] == run[j] && ReplyAt(run, w, j) == ReplyAt(short, w, j - 1)
  {
    hide ReplyAt, LogReply, LogAt;
    ErasedReply(run, i, short, w, j, run[j]);
    ReplyIsLogged(run, w, j);
  }

  lemma ErasedReply(run: seq<Event>, i: nat, short: seq<Event>, w: nat, j: nat, e: Event)
    requires Fresh(run) && Drift(run, 0, w) && Without(run, i, short)
    requires i < j < |run| && run[i].op.Check? && run[j] == e && e.op.Check?
    requires !ReplyAt(run, w, i).allowed
    ensures short[j - 1] == e && ReplyAt(short, w, j - 1) == LogReply(LogAt(run, w, j), w, e)
  {
    hide ReplyAt, LogReply, LogAt;
    var log := ErasedTo(run, i, short, w, j);
    ReplyFrom(short, w, j - 1, log, e);
  }

  lemma ErasedTo(run: seq<Event>, i: nat, short: seq<Event>, w: nat, j: nat) returns (log: Log)
    requires Fresh(run) && Drift(run, 0, w) && Without(run, i, short)
    requires i < j < |run| && run[i].op.Check? && !ReplyAt(run, w, i).allowed
    ensures short[j - 1] == run[j] && Fresh(short) && Drift(short, 0, w)
    ensures log == LogAt(run, w, j) == LogAt(short, w, j - 1)
  {
    log := LogAt(run, w, j);
    ReplyIsLogged(run, w, i);
    ErasedLog(run, i, short, w, j);
    Erase(run, i, short, w);
  }

  /** The reply, as a function of the log and the event alone. */
  lemma ReplyFrom(run: seq<Event>, w: nat, i: nat, log: Log, e: Event)
    requires Fresh(run) && Drift(run, 0, w) && i < |run| && run[i] == e && e.op.Check? && LogAt(run, w, i) == log
    ensures ReplyAt(run, w, i) == LogReply(log, w, e)
  {
    ReplyIsLogged(run, w, i);
  }

  lemma Erase(run: seq<Event>, i: nat, short: seq<Event>, w: nat)
    requires Without(run, i, short) && Fresh(run) && Drift(run, 0, w)
    ensures Fresh(short) && Drift(short, 0, w)
  {
    forall j, k | 0 <= j <= k < |short|
      ensures j < k ==> Differ(short, j, k)
      ensures Apart(short, j, k, 0, w)
    {
      var j', k' := if j < i then j else j + 1, if k < i then k else k + 1;
      assert short[j] == run[j'] && short[k] == run[k'];
      assert j < k ==> Differ(run, j', k');
      assert Apart(run, j', k', 0, w);
    }
  }

  lemma {:induction false} ErasedLog(run: seq<Event>, i: nat, short: seq<Event>, w: nat, j: nat)
    requires Without(run, i, short) && i < j <= |run|
    requires run[i].op.Check? && !LogReply(LogAt(run, w, i), w, run[i]).allowed
    ensures LogAt(run, w, j) == LogAt(short, w, j - 1)
  {
    hide LogReply, LogNext;
    if j == i + 1 {
      SamePrefix(run, short, w, i);
      Unmoved(LogAt(run, w, i), w, run[i]);
    } else {
      ErasedLog(run, i, short, w, j - 1);
      SameStep(run, short, w, j);
    }
  }

  lemma SameStep(run: seq<Event>, short: seq<Event>, w: nat, j: nat)
    requires 1 < j <= |run| && j - 2 < |short| && short[j - 2] == run[j - 1]
    requires LogAt(run, w, j - 1) == LogAt(short, w, j - 2)
    ensures LogAt(run, w, j) == LogAt(short, w, j - 1)
  {
  }

  lemma Unmoved(l: Log, w: nat, e: Event)
    requires e.op.Check? && !LogReply(l, w, e).allowed
    ensures LogNext(l, w, e) == l
  {
  }

  lemma {:induction false} SamePrefix(run: seq<Event>, other: seq<Event>, w: nat, i: nat)
    requires i <= |run| && i <= |other| && forall k :: 0 <= k < i ==> run[k] == other[k]
    ensures LogAt(run, w, i) == LogAt(other, w, i)
  {
    if i > 0 {
      SamePrefix(run, other, w, i - 1);
    }
  }

  /** From l to l' the log only grew; quiet says that no request was admitted in between. */
  ghost predicate Grew(l: Log, l': Log, quiet: bool) {
    l.ticks <= l'.ticks && l.usage <= l'.usage && (quiet ==> l.ticks == l'.ticks)
  }

  ghost predicate Quiet(run: seq<Event>, w: nat, i: nat, j: nat) {
    forall k :: i <= k < j ==> !AdmittedAt(run, w, k)
  }

  lemma {:induction false} LogGrows(run: seq<Event>, w: nat, i: nat, j: nat, quiet: bool)
    requires Fresh(run) && Drift(run, 0, w) && i <= j <= |run|
    requires quiet ==> Quiet(run, w, i, j)
    ensures Grew(LogAt(run, w, i), LogAt(run, w, j), quiet)
  {
    if i < j {
      if quiet {
        QuietStep(run, w, i, j);
      }
      LogGrows(run, w, i, j - 1, quiet);
      GrewStep(LogAt(run, w, i), LogAt(run, w, j - 1), w, run[j - 1], quiet);
    }
  }

  lemma QuietStep(run: seq<Event>, w: nat, i: nat, j: nat)
    requires Fresh(run) && Drift(run, 0, w) && i < j <= |run| && Quiet(run, w, i, j)
    ensures Quiet(run, w, i, j - 1)
    ensures run[j - 1].op.Check? ==> !LogReply(LogAt(run, w, j - 1), w, run[j - 1]).allowed
  {
    assert !AdmittedAt(run, w, j - 1);
    if run[j - 1].op.Check? {
      ReplyIsLogged(run, w, j - 1);
    }
  }

  lemma GrewStep(l: Log, l': Log, w: nat, e: Event, quiet: bool)
    requires Grew(l, l', quiet)
    requires quiet && e.op.Check? ==> !LogReply(l', w, e).allowed
    ensures Grew(l, LogNext(l', w, e), quiet)
  {
  }

  /** Right before step i, everything logged is in the past. */
  lemma LogIsPast(run: seq<Event>, w: nat, i: nat)
    requires Fresh(run) && Drift(run, 0, w) && i < |run|
    ensures forall e :: e in LogAt(run, w, i).ticks ==> e.stamp <= run[i].now && e.weight == 1
  {
    var front, upto := run[..i], run[..i + 1];
    assert upto == front + [run[i]];
    Prefix(run, i + 1, 0, w);
    Prefix(run, i, 0, w);
    SameLog(front, w);
    LogAtIs(run, w, i);
    BothMirror(front, w, run[i], upto);
  }

  /** A window that weighs something has an oldest entry. */
  lemma {:induction false} OldestAttained(es: seq<Entry>, lo: int, now: int) returns (e: Entry)
    requires SumIn(es, lo, now) > 0
    ensures e in es && lo < e.stamp <= now && e.stamp == OldestIn(es, lo, now)
    ensures forall x :: x in es && lo < x.stamp <= now ==> e.stamp <= x.stamp
  {
    OldestInIs(es, lo, now);
    var r := OldestIn(es, lo, now);
    e := SomeLive(es, lo, now);
    if r != now {
      e :| e in es && lo < e.stamp <= now && e.stamp == r;
    }
  }

  lemma {:induction false} SomeLive(es: seq<Entry>, lo: int, now: int) returns (e: Entry)
    requires SumIn(es, lo, now) > 0
    ensures e in es && lo < e.stamp <= now
  {
    e := es[|es| - 1];
    if !(lo < e.stamp <= now) {
      e := SomeLive(es[..|es| - 1], lo, now);
    }
  }

  /** Nothing the window (now - w, now] weighed has left by now', if now' comes before the oldest
      entry ages out; records and admissions in between only add. */
  lemma StillThere(es: seq<Entry>, es': seq<Entry>, now: int, now': int, w: nat, oldest: int)
    requires es <= es' && now <= now' < oldest + w
    requires forall x :: x in es && now - w < x.stamp <= now ==> oldest <= x.stamp
    ensures SumIn(es, now - w, now) <= SumIn(es', now' - w, now')
  {
    SumMono(es, now - w, now, now' - w, now');
    SumPrefix(es, es'[|es|..], now' - w, now');
    assert es + es'[|es|..] == es';
  }

  ghost predicate FixedRpm(run: seq<Event>, l: int) {
    forall i :: 0 <= i < |run| && run[i].op.Check? ==> run[i].op.rpmLim == l
  }

  ghost predicate FixedTpm(run: seq<Event>, t: int) {
    forall i :: 0 <= i < |run| && run[i].op.Check? ==> run[i].op.tpmLim == t
  }

  /** e is the oldest entry of es stamped in (now - w, now]. */
  ghost predicate Eldest(es: seq<Entry>, now: int, w: nat, e: Entry) {
    && e in es && now - w < e.stamp <= now
    && forall x :: x in es && now - w < x.stamp <= now ==> e.stamp <= x.stamp
  }

  /** The advised wait is the time until the oldest counted entry ages out, never the fallback. */
  lemma RpmAdvice(l: Log, w: nat, c: Event) returns (e: Entry)
    requires c.op.Check? && LogReply(l, w, c).code == REJECT_RPM
    ensures Eldest(l.ticks, c.now, w, e)
    ensures SumIn(l.ticks, c.now - w, c.now) >= c.op.rpmLim > 0
    ensures Reserved(c.op.rpmLim, c.op.tpmLim, c.now, w, LogReply(l, w, c)).retryAfter
         == (e.stamp + w - c.now) * MILLISECOND
  {
    e := OldestAttained(l.ticks, c.now - w, c.now);
  }

  lemma TpmAdvice(l: Log, w: nat, c: Event) returns (e: Entry)
    requires c.op.Check? && LogReply(l, w, c).code == REJECT_TPM
    ensures Eldest(l.usage, c.now, w, e)
    ensures SumIn(l.usage, c.now - w, c.now) >= c.op.tpmLim > 0
    ensures var res := Reserved(c.op.rpmLim, c.op.tpmLim, c.now, w, LogReply(l, w, c));
            res.retryAfter == res.tpmReset == (e.stamp + w - c.now) * MILLISECOND
  {
    e := OldestAttained(l.usage, c.now - w, c.now);
  }

  /** Before the oldest request ages out, the limit is still used up. */
  lemma RpmStillFull(l: Log, l': Log, w: nat, c: Event, c': Event, e: Entry)
    requires c'.op.Check? && l.ticks <= l'.ticks && Eldest(l.ticks, c.now, w, e)
    requires SumIn(l.ticks, c.now - w, c.now) >= c'.op.rpmLim > 0
    requires c.now <= c'.now < e.stamp + w
    ensures LogReply(l', w, c').code == REJECT_RPM
  {
    StillThere(l.ticks, l'.ticks, c.now, c'.now, w, e.stamp);
  }

  lemma TpmStillFull(l: Log, l': Log, w: nat, c: Event, c': Event, e: Entry)
    requires c'.op.Check? && l.usage <= l'.usage && Eldest(l.usage, c.now, w, e)
    requires SumIn(l.usage, c.now - w, c.now) >= c'.op.tpmLim > 0
    requires c.now <= c'.now < e.stamp + w
    ensures !LogReply(l', w, c').allowed
  {
    StillThere(l.usage, l'.usage, c.now, c'.now, w, e.stamp);
  }

  /** Once it has aged out, one slot is free. */
  lemma RpmSlotFree(l: Log, l': Log, w: nat, c: Event, c': Event, e: Entry)
    requires c'.op.Check? && l.ticks == l'.ticks && Eldest(l.ticks, c.now, w, e) && e.weight == 1
    requires forall x :: x in l.ticks ==> x.stamp <= c.now
    requires SumIn(l.ticks, c.now - w, c.now) <= c'.op.rpmLim
    requires c.now <= c'.now && e.stamp + w <= c'.now
    ensures LogReply(l', w, c').code != REJECT_RPM
  {
    SumDrops(l.ticks, c.now - w, c.now, c'.now - w, c'.now, e);
  }

  /** On one timeline the log itself never holds more than the limit in a window. */
  lemma LogWindowBound(run: seq<Event>, w: nat, l: nat, i: nat, a: int)
    requires Fresh(run) && Drift(run, 0, w) && FixedRpm(run, l) && 0 < l && i <= |run|
    ensures SumIn(LogAt(run, w, i).ticks, a - w, a) <= l
  {
    LogAtIs(run, w, i);
    Prefix(run, i, 0, w);
    PrefixWindowBound(run[..i], w, l, a);
  }

  lemma PrefixWindowBound(run: seq<Event>, w: nat, l: nat, a: int)
    requires Fresh(run) && Drift(run, 0, w) && RpmLimited(run, l)
    ensures SumIn(LogExec(run, w).ticks, a - w, a) <= l
  {
    var ticks := SameTicks(run, w);
    TicksBound(run, w, l, a, ticks);
  }

  lemma TicksBound(run: seq<Event>, w: nat, l: nat, a: int, ticks: seq<Entry>)
    requires Fresh(run) && Drift(run, 0, w) && RpmLimited(run, l) && ticks == Exec(run, w).ticks
    ensures SumIn(ticks, a - w, a) <= l
  {
    RequestWindowBound(run, w, 0, l, a - w, a);
  }

  /** The advice is exact: waiting less is useless, and waiting that long is enough for the
      request limit while nobody else is admitted. */
  ghost predicate Exact(retry: int, w: nat, now: int, now': int, quiet: bool, later: Reply) {
    && 0 < retry <= w * MILLISECOND
    && (now' * MILLISECOND < now * MILLISECOND + retry ==> later.code == REJECT_RPM)
    && (now' * MILLISECOND >= now * MILLISECOND + retry && quiet ==> later.code != REJECT_RPM)
  }

  lemma ExactOnLogs(l: Log, l': Log, w: nat, c: Event, c': Event, quiet: bool)
    requires c.op.Check? && c'.op.Check? && c.op.rpmLim == c'.op.rpmLim && c.now <= c'.now
    requires LogReply(l, w, c).code == REJECT_RPM && Grew(l, l', quiet)
    requires forall x :: x in l.ticks ==> x.stamp <= c.now && x.weight == 1
    requires SumIn(l.ticks, c.now - w, c.now) <= c.op.rpmLim
    ensures Exact(Reserved(c.op.rpmLim, c.op.tpmLim, c.now, w, LogReply(l, w, c)).retryAfter, w,
                  c.now, c'.now, quiet, LogReply(l', w, c'))
  {
    var e := RpmAdvice(l, w, c);
    if c'.now < e.stamp + w {
      RpmStillFull(l, l', w, c, c', e);
    } else if quiet {
      RpmSlotFree(l, l', w, c, c', e);
    }
  }

  /** Exact RPM advice. Under a fixed limit, a check rejected at step i is told a wait in
      (0, window]; every check before the wait is over is RPM-rejected too; and once it is over,
      no check is RPM-rejected as long as none has been admitted since. */
  lemma RpmRetryIsExact(run: seq<Event>, w: nat, l: nat, i: nat, j: nat)
    requires Fresh(run) && Drift(run, 0, w) && FixedRpm(run, l)
    requires i < j < |run| && run[i].op.Check? && run[j].op.Check?
    requires ReplyAt(run, w, i).code == REJECT_RPM
    ensures Exact(ReservationAt(run, w, i).retryAfter, w, run[i].now, run[j].now,
                  Quiet(run, w, i, j), ReplyAt(run, w, j))
  {
    hide ReplyAt, LogReply, LogAt, Reserved, Exact;
    ReplyIsLogged(run, w, i);
    ReplyIsLogged(run, w, j);
    LogGrows(run, w, i, j, Quiet(run, w, i, j));
    ExactForLogs(run, w, l, i, j, LogAt(run, w, i), LogAt(run, w, j), Quiet(run, w, i, j));
  }

  lemma ExactForLogs(run: seq<Event>, w: nat, lim: nat, i: nat, j: nat, l: Log, l': Log, quiet: bool)
    requires Fresh(run) && Drift(run, 0, w) && FixedRpm(run, lim)
    requires i < j < |run| && run[i].op.Check? && run[j].op.Check?
    requires l == LogAt(run, w, i) && Grew(l, l', quiet)
    requires LogReply(l, w, run[i]).code == REJECT_RPM
    ensures Exact(Reserved(run[i].op.rpmLim, run[i].op.tpmLim, run[i].now, w, LogReply(l, w, run[i])).retryAfter, w,
                  run[i].now, run[j].now, quiet, LogReply(l', w, run[j]))
  {
    hide LogReply, LogAt, Reserved, Exact;
    assert Apart(run, i, j, 0, w);
    RejectingLimit(l, w, run[i]);
    FullLog(run, w, lim, i, l);
    ExactOnLogs(l, l', w, run[i], run[j], quiet);
  }

  lemma FullLog(run: seq<Event>, w: nat, lim: nat, i: nat, l: Log)
    requires Fresh(run) && Drift(run, 0, w) && FixedRpm(run, lim) && 0 < lim && i < |run|
    requires l == LogAt(run, w, i)
    ensures SumIn(l.ticks, run[i].now - w, run[i].now) <= lim
    ensures forall x :: x in l.ticks ==> x.stamp <= run[i].now && x.weight == 1
  {
    LogIsPast(run, w, i);
    LogWindowBound(run, w, lim, i, run[i].now);
  }

  lemma RejectingLimit(l: Log, w: nat, c: Event)
    requires c.op.Check? && LogReply(l, w, c).code == REJECT_RPM
    ensures c.op.rpmLim > 0
  {
  }

  /** The advice is sound: waiting less is useless. */
  ghost predicate Sound(res: Reservation, w: nat, now: int, now': int, later: Reply) {
    && 0 < res.retryAfter <= w * MILLISECOND
    && res.retryAfter == res.tpmReset
    && (now' * MILLISECOND < now * MILLISECOND + res.retryAfter ==> !later.allowed)
  }

  lemma SoundOnLogs(l: Log, l': Log, w: nat, c: Event, c': Event)
    requires c.op.Check? && c'.op.Check? && c.op.tpmLim == c'.op.tpmLim && c.now <= c'.now
    requires LogReply(l, w, c).code == REJECT_TPM && l.usage <= l'.usage
    ensures Sound(Reserved(c.op.rpmLim, c.op.tpmLim, c.now, w, LogReply(l, w, c)), w,
                  c.now, c'.now, LogReply(l', w, c'))
  {
    var e := TpmAdvice(l, w, c);
    if c'.now < e.stamp + w {
      TpmStillFull(l, l', w, c, c', e);
    }
  }

  /** Sound TPM advice. Under a fixed token limit, a check rejected for tokens at step i is told a
      wait in (0, window], which is the token reset and not the fallback; every check before it is
      over is rejected, by one limit or the other, whatever is recorded meanwhile. */
  lemma TpmRetryIsSound(run: seq<Event>, w: nat, t: nat, i: nat, j: nat)
    requires Fresh(run) && Drift(run, 0, w) && FixedTpm(run, t)
    requires i < j < |run| && run[i].op.Check? && run[j].op.Check?
    requires ReplyAt(run, w, i).code == REJECT_TPM
    ensures Sound(ReservationAt(run, w, i), w, run[i].now, run[j].now, ReplyAt(run, w, j))
  {
    hide ReplyAt, LogReply, LogAt, Reserved, Sound;
    assert Apart(run, i, j, 0, w);
    ReplyIsLogged(run, w, i);
    ReplyIsLogged(run, w, j);
    LogGrows(run, w, i, j, false);
    SoundOnLogs(LogAt(run, w, i), LogAt(run, w, j), w, run[i], run[j]);
  }
}
