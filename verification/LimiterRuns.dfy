/** Runs of check and record steps from any number of gateways against one API key, and the
    invariant that ties the pruned, expiring sorted sets to a log of everything ever written. */
module LimiterRuns {
  import opened MemberCodec
  import opened SortedSets
  import opened WindowLog
  import opened Scripts

  /** Check is one run of check.lua. Record is one run of tpm_record.lua; owner is the identifier
      under which the recording request was admitted (the record itself gets a fresh one). */
  datatype Op =
    | Check(rpmLim: int, tpmLim: int, id: string)
    | Record(id: string, tokens: nat, owner: string)

  /** One atomic step: the stamp the gateway sent, and the server clock when the script ran. */
  datatype Event = Event(now: int, clock: int, op: Op)

  /** The sorted sets, and beside them the log that forgets nothing. */
  datatype Sys = Sys(keys: Keys, ticks: seq<Entry>, usage: seq<Entry>)

  const INITIAL := Sys(Keys(EMPTY, EMPTY), [], [])

  ghost function ReplyTo(s: Sys, w: nat, e: Event): Reply
    requires e.op.Check?
  {
    CheckStep(s.keys, e.now, e.clock, w, e.op.rpmLim, e.op.tpmLim, e.op.id).1
  }

  ghost function Next(s: Sys, w: nat, e: Event): Sys {
    match e.op
    case Check(rpmLim, tpmLim, id) =>
      var (keys, reply) := CheckStep(s.keys, e.now, e.clock, w, rpmLim, tpmLim, id);
      var tick := if reply.allowed && rpmLim > 0 then [Entry(id, e.now, e.clock, 1)] else [];
      Sys(keys, s.ticks + tick, s.usage)
    case Record(id, tokens, _) =>
      var keys := RecordStep(s.keys, e.now, e.clock, w, id, tokens);
      Sys(keys, s.ticks, s.usage + [Entry(Member(id, tokens), e.now, e.clock, tokens)])
  }

  ghost function Exec(run: seq<Event>, w: nat): Sys {
    if run == [] then INITIAL else Next(Exec(run[..|run| - 1], w), w, run[|run| - 1])
  }

  ghost function ReplyAt(run: seq<Event>, w: nat, i: nat): Reply
    requires i < |run| && run[i].op.Check?
  {
    ReplyTo(Exec(run[..i], w), w, run[i])
  }

  ghost predicate AdmittedAt(run: seq<Event>, w: nat, i: nat) {
    i < |run| && run[i].op.Check? && ReplyAt(run, w, i).allowed
  }

  /** No identifier is used twice. */
  ghost predicate Fresh(run: seq<Event>) {
    forall i, j :: 0 <= i < j < |run| ==> Differ(run, i, j)
  }

  ghost predicate Differ(run: seq<Event>, i: int, j: int)
    requires 0 <= i < |run| && 0 <= j < |run|
  {
    run[i].op.id != run[j].op.id
  }

  /** How far clocks may stray: the server clock never goes back, no stamp lies more than d behind an
      earlier one, and between two steps the server clock advances at most one window w further than
      the stamps. So d = 0 is one timeline of stamps that never goes back, and the time a request
      takes to reach the server may vary by up to a window. */
  ghost predicate Drift(run: seq<Event>, d: int, w: nat) {
    forall i, j :: 0 <= i <= j < |run| ==> Apart(run, i, j, d, w)
  }

  ghost predicate Apart(run: seq<Event>, i: int, j: int, d: int, w: nat)
    requires 0 <= i < |run| && 0 <= j < |run|
  {
    && run[i].clock <= run[j].clock
    && run[i].now - d <= run[j].now
    && run[j].clock - run[i].clock <= run[j].now - run[i].now + w
  }

  /** Whose identifier it is: the process prefix, the stamp, and the process's counter value. */
  datatype Origin = Origin(instance: string, stamp: int, count: nat)

  /** Gateways with different prefixes, each counting its own requests, never reuse an identifier. */
  lemma GatewaysAreFresh(run: seq<Event>, from: seq<Origin>)
    requires |from| == |run|
    requires forall i :: 0 <= i < |run| ==>
               '-' !in from[i].instance
               && run[i].op.id == ReqID(from[i].instance, from[i].stamp, from[i].count)
    requires forall i, j :: 0 <= i < j < |run| && from[i].instance == from[j].instance ==>
               from[i].count != from[j].count
    ensures Fresh(run)
  {
    forall i, j | 0 <= i < j < |run| ensures Differ(run, i, j) {
      if run[i].op.id == run[j].op.id {
        ReqIDInjective(from[i].instance, from[i].stamp, from[i].count,
                       from[j].instance, from[j].stamp, from[j].count);
      }
    }
  }

  /** The largest stamp so far. */
  ghost function Hi(run: seq<Event>): int
    requires run != []
  {
    var e, front := run[|run| - 1], run[..|run| - 1];
    if front == [] || Hi(front) < e.now then e.now else Hi(front)
  }

  function One(m: string): nat {
    1
  }

  /** z holds every entry of es younger than hi - w, holds nothing that is not in es, and will
      not expire before two windows have passed on the server. */
  ghost predicate Tracks(z: ZSet, es: seq<Entry>, hi: int, w: nat) {
    && (forall e :: e in es && e.stamp > hi - w ==> e.member in z.scores && z.scores[e.member] == e.stamp)
    && (forall e :: e in es ==> z.deadline >= e.clock + 2 * w)
    && (forall m :: m in z.scores ==> exists e :: e in es && e.member == m && e.stamp == z.scores[m])
  }

  /** Every entry carries the stamp and clock of some event of the run. */
  ghost predicate FromRun(es: seq<Entry>, run: seq<Event>) {
    forall e :: e in es ==> exists i :: 0 <= i < |run| && run[i].now == e.stamp && run[i].clock == e.clock
  }

  /** The members of es come from identifiers used in the run. */
  ghost predicate TickIds(es: seq<Entry>, run: seq<Event>) {
    forall e :: e in es ==> exists i :: 0 <= i < |run| && run[i].op.id == e.member
  }

  ghost predicate UsageIds(es: seq<Entry>, run: seq<Event>) {
    forall e :: e in es ==> exists i :: 0 <= i < |run| && e.member == Member(run[i].op.id, e.weight)
  }

  ghost predicate Shape(s: Sys, run: seq<Event>) {
    && FromRun(s.ticks, run) && FromRun(s.usage, run)
    && TickIds(s.ticks, run) && UsageIds(s.usage, run)
    && Distinct(s.ticks) && Distinct(s.usage)
    && Weighs(s.ticks, One) && Weighs(s.usage, TokensOf)
  }

  lemma Prefix(run: seq<Event>, n: nat, d: int, w: nat)
    requires n <= |run|
    ensures Fresh(run) ==> Fresh(run[..n])
    ensures Drift(run, d, w) ==> Drift(run[..n], d, w)
  {
    var front := run[..n];
    forall i, j | 0 <= i <= j < n
      ensures Differ(front, i, j) == Differ(run, i, j)
      ensures Apart(front, i, j, d, w) == Apart(run, i, j, d, w)
    {
    }
  }

  lemma DropLast(run: seq<Event>, d: int, w: nat)
    requires run != []
    ensures Fresh(run) ==> Fresh(run[..|run| - 1])
    ensures Drift(run, d, w) ==> Drift(run[..|run| - 1], d, w)
  {
    Prefix(run, |run| - 1, d, w);
  }

  /** What the log looks like, whatever the clocks do. */
  lemma {:induction false} ShapeHolds(run: seq<Event>, w: nat)
    requires Fresh(run)
    ensures Shape(Exec(run, w), run)
  {
    if run != [] {
      var n := |run| - 1;
      var front, e := run[..n], run[n];
      DropLast(run, 0, w);
      ShapeHolds(front, w);
      assert forall i :: 0 <= i < n ==> front[i] == run[i];
      match e.op
      case Check(_, _, id) =>
        ShapeCheck(front, run, w);
      case Record(id, tokens, _) =>
        ShapeRecord(front, run, w);
    }
  }

  lemma ShapeCheck(front: seq<Event>, run: seq<Event>, w: nat)
    requires run != [] && front == run[..|run| - 1] && run[|run| - 1].op.Check?
    requires Fresh(run) && Shape(Exec(front, w), front)
    ensures Shape(Exec(run, w), run)
  {
    hide CheckStep, RecordStep, TokensOf;
    var n := |run| - 1;
    var s, s' := Exec(front, w), Exec(run, w);
    var e := run[n];
    assert s'.usage == s.usage;
    Widen(s, front, run);
    if s'.ticks != s.ticks {
      var t := Entry(e.op.id, e.now, e.clock, 1);
      assert s'.ticks == s.ticks + [t];
      forall x | x in s.ticks ensures x.member != t.member {
        var i :| 0 <= i < |front| && front[i].op.id == x.member;
        assert Differ(run, i, n);
      }
    }
  }

  lemma ShapeRecord(front: seq<Event>, run: seq<Event>, w: nat)
    requires run != [] && front == run[..|run| - 1] && run[|run| - 1].op.Record?
    requires Fresh(run) && Shape(Exec(front, w), front)
    ensures Shape(Exec(run, w), run)
  {
    hide CheckStep, RecordStep, TokensOf, Member;
    var n := |run| - 1;
    var s, s' := Exec(front, w), Exec(run, w);
    var e := run[n];
    Widen(s, front, run);
    var u := Entry(Member(e.op.id, e.op.tokens), e.now, e.clock, e.op.tokens);
    assert s'.usage == s.usage + [u];
    MemberRoundTrip(e.op.id, e.op.tokens);
    forall x | x in s.usage ensures x.member != u.member {
      var i :| 0 <= i < |front| && x.member == Member(front[i].op.id, x.weight);
      assert Differ(run, i, n);
      if x.member == u.member {
        MemberInjective(front[i].op.id, x.weight, e.op.id, e.op.tokens);
      }
    }
  }

  lemma Widen(s: Sys, front: seq<Event>, run: seq<Event>)
    requires run != [] && front == run[..|run| - 1] && Shape(s, front)
    ensures Shape(s, run)
  {
    forall e | e in s.ticks
      ensures exists i :: 0 <= i < |run| && run[i].now == e.stamp && run[i].clock == e.clock
      ensures exists i :: 0 <= i < |run| && run[i].op.id == e.member
    {
      var i :| 0 <= i < |front| && front[i].now == e.stamp && front[i].clock == e.clock;
      assert run[i] == front[i];
      var j :| 0 <= j < |front| && front[j].op.id == e.member;
      assert run[j] == front[j];
    }
    forall e | e in s.usage
      ensures exists i :: 0 <= i < |run| && run[i].now == e.stamp && run[i].clock == e.clock
      ensures exists i :: 0 <= i < |run| && e.member == Member(run[i].op.id, e.weight)
    {
      var i :| 0 <= i < |front| && front[i].now == e.stamp && front[i].clock == e.clock;
      assert run[i] == front[i];
      var j :| 0 <= j < |front| && e.member == Member(front[j].op.id, e.weight);
      assert run[j] == front[j];
    }
  }

  /** Expiry and pruning at a step lose nothing younger than the window. */
  lemma TracksPrune(z: ZSet, es: seq<Entry>, hi: int, hi': int, w: nat, now: int, clock: int)
    requires Tracks(z, es, hi, w) && hi <= hi' && now <= hi'
    requires forall e :: e in es ==> clock - e.clock <= now - e.stamp + w
    ensures Tracks(Prune(Touch(z, clock), now - w), es, hi', w)
    ensures Tracks(Touch(z, clock), es, hi', w)
  {
  }

  /** A step that adds a member not yet in the log keeps the log tracked. */
  lemma TracksAdd(z: ZSet, es: seq<Entry>, hi: int, w: nat, e: Entry, deadline: int)
    requires Tracks(z, es, hi, w)
    requires forall x :: x in es ==> x.member != e.member && x.clock <= e.clock
    requires deadline >= e.clock + 2 * w
    ensures Tracks(Add(z, e.member, e.stamp, deadline), es + [e], hi, w)
  {
    var z' := Add(z, e.member, e.stamp, deadline);
    assert forall x :: x in es + [e] <==> x in es || x == e;
    forall m | m in z'.scores
      ensures exists x :: x in es + [e] && x.member == m && x.stamp == z'.scores[m]
    {
      if m == e.member {
        assert e in es + [e];
      } else {
        var x :| x in es && x.member == m && x.stamp == z.scores[m];
        assert x in es + [e];
      }
    }
  }

  ghost predicate Tracked(s: Sys, hi: int, w: nat) {
    Tracks(s.keys.rpm, s.ticks, hi, w) && Tracks(s.keys.tpm, s.usage, hi, w)
  }

  /** The invariant of every run, whatever its drift. */
  lemma {:induction false} TrackedHolds(run: seq<Event>, w: nat, d: int)
    requires run != [] && Fresh(run) && Drift(run, d, w)
    ensures Tracked(Exec(run, w), Hi(run), w)
  {
    var front := run[..|run| - 1];
    DropLast(run, d, w);
    if front == [] {
      TrackedNext(front, run, w, d, Hi(run));
    } else {
      TrackedHolds(front, w, d);
      TrackedNext(front, run, w, d, Hi(front));
    }
  }

  lemma TrackedNext(front: seq<Event>, run: seq<Event>, w: nat, d: int, hi: int)
    requires run != [] && front == run[..|run| - 1]
    requires Fresh(run) && Fresh(front) && Drift(run, d, w)
    requires Tracked(Exec(front, w), hi, w) && hi <= Hi(run) && run[|run| - 1].now <= Hi(run)
    ensures Tracked(Exec(run, w), Hi(run), w)
  {
    var e, s := run[|run| - 1], Exec(front, w);
    ShapeHolds(front, w);
    ShapeHolds(run, w);
    Elapsed(s.ticks, front, run, d, w);
    Elapsed(s.usage, front, run, d, w);
    if e.op.Check? {
      CheckTracks(s, w, d, e, hi, Hi(run));
    } else {
      RecordTracks(s, w, d, e, hi, Hi(run));
    }
  }

  /** Every logged entry is no later, on both clocks, than the drift allows. */
  lemma Elapsed(es: seq<Entry>, front: seq<Event>, run: seq<Event>, d: int, w: nat)
    requires run != [] && front == run[..|run| - 1]
    requires FromRun(es, front) && Drift(run, d, w)
    ensures Aged(es, run[|run| - 1], d, w)
  {
    var e := run[|run| - 1];
    forall x | x in es
      ensures x.clock <= e.clock && x.stamp - d <= e.now && e.clock - x.clock <= e.now - x.stamp + w
    {
      var i :| 0 <= i < |front| && front[i].now == x.stamp && front[i].clock == x.clock;
      assert Apart(run, i, |run| - 1, d, w);
    }
  }

  /** The sorted sets after check.lua: pruned or untouched, with at most one tick added. */
  lemma CheckEffect(s: Sys, w: nat, e: Event)
    requires e.op.Check?
    ensures var s' := Next(s, w, e);
            var pruned := Prune(Touch(s.keys.rpm, e.clock), e.now - w);
            && s'.usage == s.usage
            && (s'.keys.tpm == s.keys.tpm || s'.keys.tpm == Prune(Touch(s.keys.tpm, e.clock), e.now - w))
            && (|| (s'.ticks == s.ticks && s'.keys.rpm == pruned)
                || (&& s'.ticks == s.ticks + [Entry(e.op.id, e.now, e.clock, 1)]
                    && s'.keys.rpm == Add(pruned, e.op.id, e.now, e.clock + RpmTtlMs(w))))
  {
  }

  /** A check leaves nothing in the request set that is older than its window, nor in the token set if it
      has a token limit and the request limit let it get so far. */
  lemma PrunedAfterCheck(run: seq<Event>, w: nat, i: nat)
    requires i < |run| && run[i].op.Check? && w > 0
    ensures var keys, now := Exec(run[..i + 1], w).keys, run[i].now;
            && (forall m :: m in keys.rpm.scores ==> keys.rpm.scores[m] > now - w)
            && (run[i].op.tpmLim > 0 && ReplyAt(run, w, i).code != REJECT_RPM ==>
                  forall m :: m in keys.tpm.scores ==> keys.tpm.scores[m] > now - w)
  {
    assert run[..i + 1][..i] == run[..i];
    PrunedStep(Exec(run[..i], w), w, run[i]);
  }

  lemma PrunedStep(s: Sys, w: nat, e: Event)
    requires e.op.Check? && w > 0
    ensures var keys := Next(s, w, e).keys;
            && (forall m :: m in keys.rpm.scores ==> keys.rpm.scores[m] > e.now - w)
            && (e.op.tpmLim > 0 && ReplyTo(s, w, e).code != REJECT_RPM ==>
                  forall m :: m in keys.tpm.scores ==> keys.tpm.scores[m] > e.now - w)
  {
    hide SetSum, TokensOf;
  }

  lemma TracksLater(z: ZSet, es: seq<Entry>, hi: int, hi': int, w: nat)
    requires Tracks(z, es, hi, w) && hi <= hi'
    ensures Tracks(z, es, hi', w)
  {
  }

  ghost predicate Aged(es: seq<Entry>, e: Event, d: int, w: nat) {
    forall x :: x in es ==>
      x.clock <= e.clock && x.stamp - d <= e.now && e.clock - x.clock <= e.now - x.stamp + w
  }

  lemma CheckTracks(s: Sys, w: nat, d: int, e: Event, hi: int, hi': int)
    requires e.op.Check? && Tracked(s, hi, w) && hi <= hi' && e.now <= hi'
    requires Aged(s.ticks, e, d, w) && Aged(s.usage, e, d, w)
    requires Distinct(Next(s, w, e).ticks)
    ensures Tracked(Next(s, w, e), hi', w)
  {
    CheckEffect(s, w, e);
    var s' := Next(s, w, e);
    TracksLater(s.keys.tpm, s.usage, hi, hi', w);
    TracksPrune(s.keys.tpm, s.usage, hi, hi', w, e.now, e.clock);
    TracksPrune(s.keys.rpm, s.ticks, hi, hi', w, e.now, e.clock);
    if s'.ticks != s.ticks {
      var t := Entry(e.op.id, e.now, e.clock, 1);
      NewMember(s.ticks, t);
      TracksAdd(Prune(Touch(s.keys.rpm, e.clock), e.now - w), s.ticks, hi', w, t, e.clock + RpmTtlMs(w));
    }
  }

  lemma RecordTracks(s: Sys, w: nat, d: int, e: Event, hi: int, hi': int)
    requires e.op.Record? && Tracked(s, hi, w) && hi <= hi' && e.now <= hi'
    requires Aged(s.ticks, e, d, w) && Aged(s.usage, e, d, w)
    requires Distinct(Next(s, w, e).usage)
    ensures Tracked(Next(s, w, e), hi', w)
  {
    var u := Entry(Member(e.op.id, e.op.tokens), e.now, e.clock, e.op.tokens);
    TracksLater(s.keys.rpm, s.ticks, hi, hi', w);
    TracksPrune(s.keys.tpm, s.usage, hi, hi', w, e.now, e.clock);
    NewMember(s.usage, u);
    TracksAdd(Touch(s.keys.tpm, e.clock), s.usage, hi', w, u, e.clock + TpmTtlMs(w));
  }

  lemma NewMember(es: seq<Entry>, e: Entry)
    requires Distinct(es + [e])
    ensures forall x :: x in es ==> x.member != e.member
  {
    var all := es + [e];
    forall x | x in es ensures x.member != e.member {
      var i :| 0 <= i < |es| && es[i] == x;
      assert all[i].member != all[|es|].member;
    }
  }
}
