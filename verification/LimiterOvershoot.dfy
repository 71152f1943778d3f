/** The token overshoot bound is attained, to the token. */
module LimiterOvershoot {
  import opened MemberCodec
  import opened LimiterRuns
  import opened LimiterBounds
  import opened LimiterRefinement

  /** Where the burst starts: after t - 1 requests of one token each, one after the other. */
  function Alone(t: nat): nat
    requires t > 0
  {
    2 * (t - 1)
  }

  /** Step i: while alone, a check and then its record; then k checks, and then their k records of m
      tokens each. */
  function Burst(t: nat, k: nat, m: nat, i: nat): Op
    requires t > 0
  {
    if i < Alone(t) then
      if i % 2 == 0 then Check(0, t, Dec(i)) else Record(Dec(i), 1, Dec(i - 1))
    else if i < Alone(t) + k then Check(0, t, Dec(i))
    else Record(Dec(i), m, Dec(i - k))
  }

  function BurstRun(t: nat, k: nat, m: nat): (run: seq<Event>)
    requires t > 0
    ensures |run| == Alone(t) + 2 * k
    ensures forall i :: 0 <= i < |run| ==> run[i] == Event(0, 0, Burst(t, k, m, i))
  {
    seq(Alone(t) + 2 * k, i requires 0 <= i => Event(0, 0, Burst(t, k, m, i)))
  }

  /** The check that admits the request recorded at step r. */
  function Source(t: nat, k: nat, r: nat): (i: int)
    requires t > 0
  {
    if r < Alone(t) then r - 1 else r - k
  }

  /** The tokens recorded before step n. */
  function Tokens(t: nat, k: nat, m: nat, n: nat): nat
    requires t > 0
  {
    if n <= Alone(t) then n / 2
    else if n <= Alone(t) + k then t - 1
    else t - 1 + (n - Alone(t) - k) * m
  }

  lemma BurstIsLegal(t: nat, k: nat, m: nat, w: nat)
    requires t > 0
    ensures var run := BurstRun(t, k, m); Fresh(run) && Drift(run, 0, w) && TpmLimited(run, t)
  {
    hide Dec;
    var run := BurstRun(t, k, m);
    forall i, j | 0 <= i < j < |run| ensures Differ(run, i, j) {
      if run[i].op.id == run[j].op.id {
        DecInjective(i, j);
      }
    }
  }

  lemma {:induction false} TokensSoFar(t: nat, k: nat, m: nat, n: nat, lo: int)
    requires t > 0 && n <= Alone(t) + 2 * k && lo < 0
    ensures Recorded(BurstRun(t, k, m)[..n], lo, 0) == Tokens(t, k, m, n)
  {
    hide Dec;
    if n > 0 {
      var run := BurstRun(t, k, m);
      TokensSoFar(t, k, m, n - 1, lo);
      assert run[..n][..n - 1] == run[..n - 1];
      TokensStep(t, k, m, n - 1);
    }
  }

  lemma TokensStep(t: nat, k: nat, m: nat, n: nat)
    requires t > 0
    ensures Tokens(t, k, m, n + 1) == Tokens(t, k, m, n) + (match Burst(t, k, m, n)
                                                            case Check(_, _, _) => 0
                                                            case Record(_, tokens, _) => tokens)
  {
    hide Dec;
    if n >= Alone(t) + k {
      PlusOne(n - Alone(t) - k, m);
    }
  }

  lemma BurstAdmitted(t: nat, k: nat, m: nat, w: nat, i: nat)
    requires t > 0 && w > 0 && i < Alone(t) + 2 * k && Burst(t, k, m, i).Check?
    ensures AdmittedAt(BurstRun(t, k, m), w, i)
  {
    hide ReplyAt, Dec, Recorded, Exec;
    var run := BurstRun(t, k, m);
    BurstIsLegal(t, k, m, w);
    AdmitsExactly(run, w, i);
    TokensSoFar(t, k, m, i, 0 - w);
    assert Tokens(t, k, m, i) < t;
  }

  lemma SourceIs(t: nat, k: nat, m: nat, r: nat)
    requires t > 0 && r < Alone(t) + 2 * k && Burst(t, k, m, r).Record?
    ensures 0 <= Source(t, k, r) && (k > 0 ==> Source(t, k, r) < r)
    ensures Burst(t, k, m, Source(t, k, r)).Check? && Burst(t, k, m, r).owner == Dec(Source(t, k, r))
  {
    hide Dec;
  }

  lemma BurstAdmittedFirst(t: nat, k: nat, m: nat, w: nat)
    requires t > 0 && k > 0 && w > 0
    ensures AdmittedFirst(BurstRun(t, k, m), w)
  {
    hide Dec, AdmittedAt;
    var run := BurstRun(t, k, m);
    forall r | 0 <= r < |run| && run[r].op.Record?
      ensures exists i :: 0 <= i < r && AdmittedAt(run, w, i) && run[i].op.id == run[r].op.owner
    {
      var i := Source(t, k, r);
      SourceIs(t, k, m, r);
      BurstAdmitted(t, k, m, w, i);
      assert run[i].op.id == run[r].op.owner;
    }
  }

  lemma BurstOnceEach(t: nat, k: nat, m: nat)
    requires t > 0
    ensures OnceEach(BurstRun(t, k, m))
  {
    hide Dec;
    var run := BurstRun(t, k, m);
    forall q, r | 0 <= q < r < |run| && run[q].op.Record? && run[r].op.Record?
      ensures run[q].op.owner != run[r].op.owner
    {
      SourceIs(t, k, m, q);
      SourceIs(t, k, m, r);
      if run[q].op.owner == run[r].op.owner {
        DecInjective(Source(t, k, q), Source(t, k, r));
      }
    }
  }

  /** The identifiers of n steps from lo on. */
  function Ids(lo: nat, n: nat): set<string> {
    if n == 0 then {} else Ids(lo, n - 1) + {Dec(lo + n - 1)}
  }

  lemma {:induction false} IdsAre(lo: nat, n: nat, i: nat)
    ensures |Ids(lo, n)| <= n
    ensures lo <= i < lo + n ==> Dec(i) in Ids(lo, n)
  {
    hide Dec;
    if n > 0 {
      IdsAre(lo, n - 1, i);
    }
  }

  /** While alone, one request is outstanding at most; after that, at most the k of the burst. */
  lemma BurstConcurrency(t: nat, k: nat, m: nat)
    requires t > 0 && k > 0
    ensures Concurrency(BurstRun(t, k, m), k)
  {
    hide Dec, Ids, Outstanding;
    var run := BurstRun(t, k, m);
    forall p | 0 <= p <= |run| ensures |Outstanding(run, p)| <= k {
      var lo, n := if p <= Alone(t) then if p == 0 then 0 else p - 1 else Alone(t), if p <= Alone(t) then 1 else k;
      OutstandingIds(t, k, m, p, lo, n);
      IdsAre(lo, n, 0);
      Card(Outstanding(run, p), Ids(lo, n));
    }
  }

  lemma OutstandingIds(t: nat, k: nat, m: nat, p: nat, lo: nat, n: nat)
    requires t > 0 && k > 0 && p <= Alone(t) + 2 * k
    requires p <= Alone(t) ==> n == 1 && (lo == p - 1 || p == 0)
    requires p > Alone(t) ==> n == k && lo == Alone(t)
    ensures Outstanding(BurstRun(t, k, m), p) <= Ids(lo, n)
  {
    hide Dec, Ids;
    var run := BurstRun(t, k, m);
    forall o | o in Outstanding(run, p) ensures o in Ids(lo, n) {
      var r :| p <= r < |run| && run[r].op.Record? && CheckedBefore(run, p, run[r].op.owner) && run[r].op.owner == o;
      var i :| 0 <= i < p && run[i].op.Check? && run[i].op.id == o;
      SourceIs(t, k, m, r);
      DecInjective(i, Source(t, k, r));
      IdsAre(lo, n, i);
    }
  }

  /** The bound is tight: for every window, drift, token limit, concurrency and request size there is a run
      that meets all its hypotheses and records one token less than the bound in an interval of length
      window - d. An interval of no length, for a drift of the whole window, holds nothing. */
  lemma OvershootIsTight(w: nat, d: nat, t: nat, k: nat, m: nat) returns (run: seq<Event>, a: int, b: int)
    requires d < w && t > 0 && k > 0 && m > 0
    ensures Fresh(run) && Drift(run, d, w) && TpmLimited(run, t)
    ensures AdmittedFirst(run, w) && OnceEach(run) && AtMost(run, m) && Concurrency(run, k)
    ensures b - a == w - d && Recorded(run, a, b) == t + k * m - 1
  {
    hide Dec, AdmittedFirst, OnceEach, Concurrency;
    run, a, b := BurstRun(t, k, m), d - w, 0;
    BurstIsLegal(t, k, m, w);
    BurstAdmittedFirst(t, k, m, w);
    BurstOnceEach(t, k, m);
    BurstConcurrency(t, k, m);
    TokensSoFar(t, k, m, |run|, a);
    assert run[..|run|] == run;
  }
}
