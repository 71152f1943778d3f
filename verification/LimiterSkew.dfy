/** The request bound under clock drift cannot be improved by a single millisecond. */
module LimiterSkew {
  import opened MemberCodec
  import opened SortedSets
  import opened WindowLog
  import opened Scripts
  import opened LimiterRuns
  import opened LimiterBounds

  /** Step i: l requests at 0; tokens and a token-rejected check at w, which prunes those requests away;
      and l requests from a gateway whose clock is d behind. */
  function Skewed(w: nat, d: nat, l: nat, i: nat): Event {
    if i < l then Event(0, 0, Check(l, 0, Dec(i)))
    else if i == l then Event(w, 0, Record(Dec(i), 1, Dec(0)))
    else if i == l + 1 then Event(w, 0, Check(l, 1, Dec(i)))
    else Event(w - d, 0, Check(l, 0, Dec(i)))
  }

  function SkewedRun(w: nat, d: nat, l: nat): (run: seq<Event>)
    ensures |run| == 2 * l + 2
    ensures forall i :: 0 <= i < |run| ==> run[i] == Skewed(w, d, l, i)
  {
    seq(2 * l + 2, i requires 0 <= i => Skewed(w, d, l, i))
  }

  lemma SkewedIsLegal(w: nat, d: nat, l: nat)
    requires d <= w && l > 0
    ensures var run := SkewedRun(w, d, l); Fresh(run) && Drift(run, d, w) && RpmLimited(run, l)
  {
    hide Dec;
    var run := SkewedRun(w, d, l);
    forall i, j | 0 <= i < j < |run| ensures Differ(run, i, j) {
      if run[i].op.id == run[j].op.id {
        DecInjective(i, j);
      }
    }
  }

  /** The request set holds n members, all stamped so and all named by steps from lo to lo + n. */
  ghost predicate Holds(z: ZSet, stamp: int, lo: nat, n: nat) {
    && z.deadline >= 0 && |z.scores| == n
    && forall m :: m in z.scores ==> z.scores[m] == stamp && Named(m, lo, n)
  }

  ghost predicate Named(m: string, lo: nat, n: nat) {
    exists j :: lo <= j < lo + n && m == Dec(j)
  }

  /** A set below the limit admits the next request of the same stamp. */
  lemma AdmitOne(s: Sys, w: nat, l: nat, stamp: int, lo: nat, n: nat)
    requires w > 0 && n < l && Holds(s.keys.rpm, stamp, lo, n)
    ensures var e := Event(stamp, 0, Check(l, 0, Dec(lo + n)));
            var s' := Next(s, w, e);
            && Holds(s'.keys.rpm, stamp, lo, n + 1) && s'.keys.tpm == s.keys.tpm
            && s'.ticks == s.ticks + [Entry(e.op.id, stamp, 0, 1)]
  {
    hide Holds, Dec;
    AdmitEffect(s, w, l, stamp, lo, n);
    HoldsAdd(s.keys.rpm, stamp, lo, n, RpmTtlMs(w));
  }

  lemma AdmitEffect(s: Sys, w: nat, l: nat, stamp: int, lo: nat, n: nat)
    requires w > 0 && n < l && Holds(s.keys.rpm, stamp, lo, n)
    ensures var e := Event(stamp, 0, Check(l, 0, Dec(lo + n)));
            var s' := Next(s, w, e);
            && s'.keys.rpm == Add(s.keys.rpm, e.op.id, stamp, RpmTtlMs(w)) && s'.keys.tpm == s.keys.tpm
            && s'.ticks == s.ticks + [Entry(e.op.id, stamp, 0, 1)]
  {
    hide Dec, Named, TokensOf;
    assert Prune(Touch(s.keys.rpm, 0), stamp - w).scores == s.keys.rpm.scores;
  }

  lemma HoldsAdd(z: ZSet, stamp: int, lo: nat, n: nat, deadline: nat)
    requires Holds(z, stamp, lo, n)
    ensures Holds(Add(z, Dec(lo + n), stamp, deadline), stamp, lo, n + 1)
  {
    hide Dec;
    var id := Dec(lo + n);
    if id in z.scores {
      var j :| lo <= j < lo + n && id == Dec(j);
      DecInjective(j, lo + n);
    }
    var scores' := z.scores[id := stamp];
    assert scores'.Keys == z.scores.Keys + {id};
    forall m | m in scores' ensures Named(m, lo, n + 1) {
      if m != id {
        assert Named(m, lo, n);
      } else {
        assert lo <= lo + n < lo + (n + 1);
      }
    }
  }

  /** The check at w finds one token against a limit of one, and prunes every request stamped 0. */
  lemma RejectAll(s: Sys, w: nat, l: nat, id: string, m: string)
    requires w > 0 && l > 0 && s.keys.rpm.deadline >= 0
    requires forall k :: k in s.keys.rpm.scores ==> s.keys.rpm.scores[k] == 0
    requires s.keys.tpm.scores == map[m := w] && s.keys.tpm.deadline >= 0 && TokensOf(m) == 1
    ensures var s' := Next(s, w, Event(w, 0, Check(l, 1, id)));
            s'.ticks == s.ticks && s'.keys.rpm.scores == map[] && s'.keys.rpm.deadline >= 0
  {
    hide TokensOf;
    var tpm := Prune(Touch(s.keys.tpm, 0), 0);
    assert tpm.scores == map[m := w] && tpm.scores.Keys == {m};
    assert Prune(Touch(s.keys.rpm, 0), 0).scores == map[];
    SetSumTake({m}, TokensOf, m);
    assert {m} - {m} == {};
    SetSumEmpty(TokensOf);
  }

  lemma ExecNext(run: seq<Event>, w: nat, n: nat)
    requires n < |run|
    ensures Exec(run[..n + 1], w) == Next(Exec(run[..n], w), w, run[n])
  {
    hide Next;
    assert run[..n + 1][..n] == run[..n];
  }

  /** The first n of the early requests are in. */
  lemma {:induction false} Early(w: nat, d: nat, l: nat, n: nat)
    requires 0 < d <= w && n <= l
    ensures var s := Exec(SkewedRun(w, d, l)[..n], w);
            Holds(s.keys.rpm, 0, 0, n) && s.keys.tpm == EMPTY && SumIn(s.ticks, -1, w - d) == n
  {
    hide Dec, Next;
    if n > 0 {
      var run := SkewedRun(w, d, l);
      var s := Exec(run[..n - 1], w);
      Early(w, d, l, n - 1);
      ExecNext(run, w, n - 1);
      AdmitOne(s, w, l, 0, 0, n - 1);
      SumAppend(s.ticks, Entry(Dec(n - 1), 0, 0, 1), -1, w - d);
    }
  }

  lemma RecordOne(s: Sys, w: nat, id: string, owner: string)
    requires s.keys.tpm == EMPTY
    ensures var s' := Next(s, w, Event(w, 0, Record(id, 1, owner)));
            && s'.ticks == s.ticks && s'.keys.rpm == s.keys.rpm
            && s'.keys.tpm.scores == map[Member(id, 1) := w] && s'.keys.tpm.deadline >= 0
  {
    hide Member;
  }

  /** After the rejected check the request set is empty. */
  lemma Pruned(w: nat, d: nat, l: nat)
    requires 0 < d <= w && l > 0
    ensures var s := Exec(SkewedRun(w, d, l)[..l + 2], w);
            Holds(s.keys.rpm, w - d, l + 2, 0) && SumIn(s.ticks, -1, w - d) == l
  {
    hide Dec, Next, Exec, Member;
    var run := SkewedRun(w, d, l);
    Early(w, d, l, l);
    ExecNext(run, w, l);
    RecordOne(Exec(run[..l], w), w, Dec(l), Dec(0));
    ExecNext(run, w, l + 1);
    MemberRoundTrip(Dec(l), 1);
    RejectAll(Exec(run[..l + 1], w), w, l, Dec(l + 1), Member(Dec(l), 1));
  }

  /** n of the late requests are in as well. */
  lemma {:induction false} LateOnes(w: nat, d: nat, l: nat, n: nat)
    requires 0 < d <= w && 0 < l && n <= l
    ensures var s := Exec(SkewedRun(w, d, l)[..l + 2 + n], w);
            Holds(s.keys.rpm, w - d, l + 2, n) && SumIn(s.ticks, -1, w - d) == l + n
  {
    hide Dec, Next, Exec;
    if n == 0 {
      Pruned(w, d, l);
    } else {
      var run, i := SkewedRun(w, d, l), l + 2 + (n - 1);
      var s := Exec(run[..i], w);
      LateOnes(w, d, l, n - 1);
      ExecNext(run, w, i);
      AdmitOne(s, w, l, w - d, l + 2, n - 1);
      SumAppend(s.ticks, Entry(Dec(i), w - d, 0, 1), -1, w - d);
    }
  }

  /** The bound is tight: for every limit, every window and every drift in it, an interval one millisecond
      longer than window - d can hold twice the limit. */
  lemma SkewBoundIsTight(w: nat, d: nat, l: nat) returns (run: seq<Event>, a: int, b: int)
    requires 0 < d <= w && l > 0
    ensures Fresh(run) && Drift(run, d, w) && RpmLimited(run, l) && b - a == w - d + 1
    ensures SumIn(Exec(run, w).ticks, a, b) == 2 * l
  {
    hide Exec, Dec;
    run, a, b := SkewedRun(w, d, l), -1, w - d;
    SkewedIsLegal(w, d, l);
    LateOnes(w, d, l, l);
    assert run[..2 * l + 2] == run;
  }
}
