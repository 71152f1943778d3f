/** Safety of the limiter over whole runs: the request window and the token overshoot. */
module LimiterBounds {
  import opened MemberCodec
  import opened SortedSets
  import opened WindowLog
  import opened Scripts
  import opened LimiterRuns

  lemma {:induction false} HiBounds(run: seq<Event>, d: int, w: nat, i: nat)
    requires run != [] && Drift(run, d, w) && i < |run|
    ensures run[i].now <= Hi(run) <= run[|run| - 1].now + d
  {
    var n := |run| - 1;
    var front := run[..n];
    DropLast(run, d, w);
    assert Apart(run, n, n, d, w);
    if front != [] {
      HiBounds(front, d, w, if i < n then i else 0);
      HiAttained(front);
      var k :| 0 <= k < |front| && front[k].now == Hi(front);
      assert Apart(run, k, n, d, w);
    }
  }

  lemma {:induction false} HiAttained(run: seq<Event>)
    requires run != []
    ensures exists k :: 0 <= k < |run| && run[k].now == Hi(run)
  {
    var front := run[..|run| - 1];
    if front != [] && !(Hi(front) < run[|run| - 1].now) {
      HiAttained(front);
      var k :| 0 <= k < |front| && front[k].now == Hi(front);
      assert run[k].now == Hi(run);
    } else {
      assert run[|run| - 1].now == Hi(run);
    }
  }

  /** A tracking set weighs at least as much as any window that starts inside it. */
  lemma Covers(z: ZSet, es: seq<Entry>, hi: int, w: nat, f: string -> nat, a: int, b: int)
    requires Tracks(z, es, hi, w) && Distinct(es) && Weighs(es, f) && a >= hi - w
    ensures SumIn(es, a, b) <= SetSum(z.scores.Keys, f)
  {
    SumIsLive(es, a, b, f);
    SetSumMono(Live(es, a, b), z.scores.Keys, f);
  }

  /** Every check of the run enforces a positive request limit of at most l. */
  ghost predicate RpmLimited(run: seq<Event>, l: int) {
    forall i :: 0 <= i < |run| && run[i].op.Check? ==> 0 < run[i].op.rpmLim <= l
  }

  /** Sliding-window safety under clock drift d: no interval (a, b] of length at most window - d
      holds more than l admitted stamps. With d = 0 it is the exact sliding-window limit. */
  lemma {:induction false} RequestWindowBound(run: seq<Event>, w: nat, d: int, l: nat, a: int, b: int)
    requires Fresh(run) && Drift(run, d, w) && RpmLimited(run, l)
    requires b - a <= w - d
    ensures SumIn(Exec(run, w).ticks, a, b) <= l
  {
    if run != [] {
      var n := |run| - 1;
      var front, e := run[..n], run[n];
      DropLast(run, d, w);
      RequestWindowBound(front, w, d, l, a, b);
      var s, s' := Exec(front, w), Exec(run, w);
      if s'.ticks != s.ticks {
        CheckEffect(s, w, e);
        SumAppend(s.ticks, Entry(e.op.id, e.now, e.clock, 1), a, b);
        if a < e.now <= b {
          HiBounds(run, d, w, n);
          TrackedHolds(run, w, d);
          ShapeHolds(run, w);
          Covers(s'.keys.rpm, s'.ticks, Hi(run), w, One, a, b);
          SetSumOnes(s'.keys.rpm.scores.Keys, One);
          AdmittedCount(s, w, e);
        }
      }
    }
  }

  lemma AdmittedCount(s: Sys, w: nat, e: Event)
    requires e.op.Check? && e.op.rpmLim > 0 && ReplyTo(s, w, e).allowed
    ensures |Next(s, w, e).keys.rpm.scores| <= e.op.rpmLim
  {
    var pruned := Prune(Touch(s.keys.rpm, e.clock), e.now - w);
    assert pruned.scores[e.op.id := e.now].Keys == pruned.scores.Keys + {e.op.id};
  }

  /** Tokens recorded with stamps in (lo, hi]. */
  function Recorded(run: seq<Event>, lo: int, hi: int): nat {
    if run == [] then 0 else
      var e := run[|run| - 1];
      Recorded(run[..|run| - 1], lo, hi) + if InWindow(e, lo, hi) then e.op.tokens else 0
  }

  predicate InWindow(e: Event, lo: int, hi: int) {
    e.op.Record? && lo < e.now <= hi
  }

  lemma {:induction false} RecordedIsUsage(run: seq<Event>, w: nat, lo: int, hi: int)
    ensures Recorded(run, lo, hi) == SumIn(Exec(run, w).usage, lo, hi)
  {
    hide CheckStep, RecordStep, Member;
    if run != [] {
      var front, e := run[..|run| - 1], run[|run| - 1];
      RecordedIsUsage(front, w, lo, hi);
      if e.op.Record? {
        SumAppend(Exec(front, w).usage, Entry(Member(e.op.id, e.op.tokens), e.now, e.clock, e.op.tokens), lo, hi);
      } else {
        CheckEffect(Exec(front, w), w, e);
      }
    }
  }

  lemma {:induction false} RecordedSplit(run: seq<Event>, p: nat, lo: int, hi: int)
    requires p <= |run|
    ensures Recorded(run, lo, hi) == Recorded(run[..p], lo, hi) + Recorded(run[p..], lo, hi)
  {
    if p == |run| {
      assert run[..p] == run;
    } else {
      var front, back := run[..|run| - 1], run[p..];
      RecordedSplit(front, p, lo, hi);
      assert front[..p] == run[..p];
      assert back[..|back| - 1] == front[p..];
    }
  }

  /** The requests that record in the window. */
  ghost function Owners(run: seq<Event>, lo: int, hi: int): set<string> {
    set i | 0 <= i < |run| && InWindow(run[i], lo, hi) :: run[i].op.owner
  }

  ghost predicate OnceEach(run: seq<Event>) {
    forall i, j :: 0 <= i < j < |run| && run[i].op.Record? && run[j].op.Record? ==>
      run[i].op.owner != run[j].op.owner
  }

  ghost predicate AtMost(run: seq<Event>, m: nat) {
    forall i :: 0 <= i < |run| && run[i].op.Record? ==> run[i].op.tokens <= m
  }

  lemma {:induction false} RecordedPerOwner(run: seq<Event>, lo: int, hi: int, m: nat)
    requires OnceEach(run) && AtMost(run, m)
    ensures Recorded(run, lo, hi) <= |Owners(run, lo, hi)| * m
  {
    if run != [] {
      var front, e := run[..|run| - 1], run[|run| - 1];
      RecordedPerOwner(front, lo, hi, m);
      OwnersStep(run, lo, hi);
      if InWindow(e, lo, hi) {
        PlusOne(|Owners(front, lo, hi)|, m);
      }
    }
  }

  lemma OwnersStep(run: seq<Event>, lo: int, hi: int)
    requires run != [] && OnceEach(run)
    ensures var n := |run| - 1;
            if InWindow(run[n], lo, hi)
            then |Owners(run, lo, hi)| == |Owners(run[..n], lo, hi)| + 1
            else Owners(run, lo, hi) == Owners(run[..n], lo, hi)
  {
    var n := |run| - 1;
    var front, e := run[..n], run[n];
    assert forall i :: 0 <= i < n ==> front[i] == run[i];
    if InWindow(e, lo, hi) {
      assert e.op.owner !in Owners(front, lo, hi);
      assert Owners(run, lo, hi) == Owners(front, lo, hi) + {e.op.owner};
    }
  }

  lemma PlusOne(x: nat, m: nat)
    ensures (x + 1) * m == x * m + m
  {
  }

  /** A record comes after the admission of the request it belongs to. */
  ghost predicate AdmittedFirst(run: seq<Event>, w: nat) {
    forall r :: 0 <= r < |run| && run[r].op.Record? ==>
      exists i :: 0 <= i < r && AdmittedAt(run, w, i) && run[i].op.id == run[r].op.owner
  }

  /** The requests checked before step p that have yet to record. Every one of them is unfinished
      at p, so a bound on unfinished requests bounds this set. */
  ghost function Outstanding(run: seq<Event>, p: nat): set<string>
    requires p <= |run|
  {
    set r | p <= r < |run| && run[r].op.Record? && CheckedBefore(run, p, run[r].op.owner) :: run[r].op.owner
  }

  ghost predicate CheckedBefore(run: seq<Event>, p: nat, id: string)
    requires p <= |run|
  {
    exists i :: 0 <= i < p && run[i].op.Check? && run[i].op.id == id
  }

  ghost predicate TpmLimited(run: seq<Event>, t: int) {
    forall i :: 0 <= i < |run| && run[i].op.Check? ==> 0 < run[i].op.tpmLim <= t
  }

  /** At no step are more than k requests outstanding. */
  ghost predicate Concurrency(run: seq<Event>, k: nat) {
    forall p :: 0 <= p <= |run| ==> |Outstanding(run, p)| <= k
  }

  /** Step i checks a request that records in the window. */
  ghost predicate IsSource(run: seq<Event>, lo: int, hi: int, i: nat) {
    i < |run| && run[i].op.Check? && run[i].op.id in Owners(run, lo, hi)
  }

  /** The last check whose request records in the window. */
  lemma {:induction false} LastSource(run: seq<Event>, lo: int, hi: int, i: nat, n: nat) returns (p: nat)
    requires IsSource(run, lo, hi, i) && i < n <= |run|
    ensures p < n && IsSource(run, lo, hi, p)
    ensures forall x :: p < x < n ==> !IsSource(run, lo, hi, x)
    decreases n
  {
    p := n - 1;
    if !IsSource(run, lo, hi, p) {
      p := LastSource(run, lo, hi, i, n - 1);
    }
  }

  lemma {:induction false} NothingRecorded(run: seq<Event>, lo: int, hi: int)
    requires forall i :: 0 <= i < |run| ==> !InWindow(run[i], lo, hi)
    ensures Recorded(run, lo, hi) == 0
  {
    if run != [] {
      NothingRecorded(run[..|run| - 1], lo, hi);
    }
  }

  /** Tokens are recorded after admission, so a window can overshoot its limit, but never by as
      much as k requests of m tokens: if at most k requests are ever outstanding and none
      records more than m, the tokens in any (a, b] of length at most window - d stay below
      t + k*m. */
  lemma TokenOvershootBound(run: seq<Event>, w: nat, d: int, t: int, k: nat, m: nat, a: int, b: int)
    requires Fresh(run) && Drift(run, d, w) && TpmLimited(run, t) && 0 < t
    requires AdmittedFirst(run, w) && OnceEach(run) && AtMost(run, m) && Concurrency(run, k)
    requires b - a <= w - d
    ensures Recorded(run, a, b) < t + k * m
  {
    if r :| 0 <= r < |run| && InWindow(run[r], a, b) {
      var p := SourceOf(run, w, r, a, b);
      LateRecords(run, w, p, k, m, a, b);
      EarlyRecords(run, w, d, t, p, a, b);
      RecordedSplit(run, p, a, b);
    } else {
      NothingRecorded(run, a, b);
      Times(0, k, m);
    }
  }

  lemma SourceOf(run: seq<Event>, w: nat, r: nat, a: int, b: int) returns (p: nat)
    requires AdmittedFirst(run, w) && r < |run| && InWindow(run[r], a, b)
    ensures IsSource(run, a, b, p) && forall x :: p < x < |run| ==> !IsSource(run, a, b, x)
  {
    var i := AdmissionOf(run, w, r);
    p := LastSource(run, a, b, i, |run|);
  }

  lemma AdmissionOf(run: seq<Event>, w: nat, r: nat) returns (i: nat)
    requires AdmittedFirst(run, w) && r < |run| && run[r].op.Record?
    ensures i < r && AdmittedAt(run, w, i) && run[i].op.id == run[r].op.owner
    ensures forall lo, hi :: InWindow(run[r], lo, hi) ==> IsSource(run, lo, hi, i)
  {
    i :| 0 <= i < r && AdmittedAt(run, w, i) && run[i].op.id == run[r].op.owner;
  }

  /** Records before the last admission that matters were all in the sum that admitted it. */
  lemma EarlyRecords(run: seq<Event>, w: nat, d: int, t: int, p: nat, a: int, b: int)
    requires Fresh(run) && Drift(run, d, w) && TpmLimited(run, t)
    requires AdmittedFirst(run, w) && b - a <= w - d
    requires IsSource(run, a, b, p)
    ensures Recorded(run[..p], a, b) < t
  {
    var r := SourceAdmitted(run, w, p, a, b);
    HiWithin(run, d, w, p, r);
    Prefix(run, p + 1, d, w);
    AdmittedPrefix(run, w, p);
    SumAtAdmission(run[..p + 1], w, d, t, a, b);
  }

  lemma SourceAdmitted(run: seq<Event>, w: nat, p: nat, a: int, b: int) returns (r: nat)
    requires Fresh(run) && AdmittedFirst(run, w) && IsSource(run, a, b, p)
    ensures p < r < |run| && InWindow(run[r], a, b) && AdmittedAt(run, w, p)
  {
    r :| 0 <= r < |run| && InWindow(run[r], a, b) && run[r].op.owner == run[p].op.id;
    var i := AdmissionOf(run, w, r);
    SameIndex(run, i, p);
  }

  lemma SameIndex(run: seq<Event>, i: nat, j: nat)
    requires Fresh(run) && i < |run| && j < |run|
    requires run[i].op.Check? && run[j].op.Check? && run[i].op.id == run[j].op.id
    ensures i == j
  {
    assert i < j ==> Differ(run, i, j);
    assert j < i ==> Differ(run, j, i);
  }

  lemma AdmittedPrefix(run: seq<Event>, w: nat, p: nat)
    requires AdmittedAt(run, w, p)
    ensures AdmittedAt(run[..p + 1], w, p) && run[..p + 1][..p] == run[..p]
  {
    assert run[..p + 1][..p] == run[..p];
  }

  /** The stamps up to step p exceed a later stamp by at most the drift. */
  lemma HiWithin(run: seq<Event>, d: int, w: nat, p: nat, r: nat)
    requires Drift(run, d, w) && p <= r < |run|
    ensures Hi(run[..p + 1]) <= run[r].now + d && 0 <= d
  {
    var upto := run[..p + 1];
    HiAttained(upto);
    var h :| 0 <= h < |upto| && upto[h].now == Hi(upto);
    assert upto[h] == run[h];
    assert Apart(run, h, r, d, w) && Apart(run, r, r, d, w);
  }

  /** Everything recorded in a window that reaches back no further than the pruning was summed. */
  lemma SumAtAdmission(run: seq<Event>, w: nat, d: int, t: int, a: int, b: int)
    requires run != [] && Fresh(run) && Drift(run, d, w) && Hi(run) - w <= a
    requires AdmittedAt(run, w, |run| - 1) && 0 < run[|run| - 1].op.tpmLim <= t
    ensures Recorded(run[..|run| - 1], a, b) < t
  {
    var front, e := run[..|run| - 1], run[|run| - 1];
    TrackedHolds(run, w, d);
    ShapeHolds(run, w);
    AdmittedTokens(Exec(front, w), w, e);
    Covers(Exec(run, w).keys.tpm, Exec(run, w).usage, Hi(run), w, TokensOf, a, b);
    RecordedIsUsage(front, w, a, b);
  }

  lemma AdmittedTokens(s: Sys, w: nat, e: Event)
    requires e.op.Check? && e.op.tpmLim > 0 && ReplyTo(s, w, e).allowed
    ensures Next(s, w, e).usage == s.usage
    ensures TokenTotal(Next(s, w, e).keys.tpm) < e.op.tpmLim
  {
  }

  /** Records from that admission on belong to requests outstanding right after it. */
  lemma LateRecords(run: seq<Event>, w: nat, p: nat, k: nat, m: nat, a: int, b: int)
    requires AdmittedFirst(run, w) && OnceEach(run) && AtMost(run, m) && Concurrency(run, k)
    requires IsSource(run, a, b, p) && forall x :: p < x < |run| ==> !IsSource(run, a, b, x)
    ensures Recorded(run[p..], a, b) <= k * m
  {
    var back := run[p..];
    assert forall i :: 0 <= i < |back| ==> back[i] == run[p + i];
    RecordedPerOwner(back, a, b, m);
    forall o | o in Owners(back, a, b) ensures o in Outstanding(run, p + 1) {
      var j :| 0 <= j < |back| && InWindow(back[j], a, b) && back[j].op.owner == o;
      var r := p + j;
      assert run[r] == back[j];
      var i := AdmissionOf(run, w, r);
      assert IsSource(run, a, b, i);
      assert CheckedBefore(run, p + 1, o);
    }
    Card(Owners(back, a, b), Outstanding(run, p + 1));
    Times(|Owners(back, a, b)|, k, m);
  }

  lemma {:induction false} Card(s: set<string>, t: set<string>)
    requires s <= t
    ensures |s| <= |t|
    decreases t
  {
    if s != t {
      var x :| x in t && x !in s;
      Card(s, t - {x});
    }
  }

  lemma Times(x: nat, y: nat, m: nat)
    requires x <= y
    ensures x * m <= y * m
  {
  }
}
