/** A log that deletes nothing, and its sliding-window views. */
module WindowLog {
  import opened SortedSets

  /** One admission (weight 1) or one token record (weight = tokens): the member written, the
      gateway's stamp, the server's clock, and what it weighs against the limit. */
  datatype Entry = Entry(member: string, stamp: int, clock: int, weight: nat)

  /** Total weight of the entries stamped in (lo, hi]. */
  function SumIn(es: seq<Entry>, lo: int, hi: int): nat {
    if es == [] then 0 else
      var e := es[|es| - 1];
      SumIn(es[..|es| - 1], lo, hi) + if lo < e.stamp <= hi then e.weight else 0
  }

  /** The least stamp in (lo, now], or now when there is none. */
  function OldestIn(es: seq<Entry>, lo: int, now: int): int {
    if es == [] then now else
      var e, r := es[|es| - 1], OldestIn(es[..|es| - 1], lo, now);
      if lo < e.stamp <= now && e.stamp < r then e.stamp else r
  }

  ghost predicate IsOldestIn(es: seq<Entry>, lo: int, now: int, r: int) {
    && r <= now
    && (r == now || exists e :: e in es && lo < e.stamp <= now && e.stamp == r)
    && (forall e :: e in es && lo < e.stamp <= now ==> r <= e.stamp)
  }

  lemma {:induction false} OldestInIs(es: seq<Entry>, lo: int, now: int)
    ensures IsOldestIn(es, lo, now, OldestIn(es, lo, now))
  {
    if es != [] {
      assert es == es[..|es| - 1] + [es[|es| - 1]];
      OldestInIs(es[..|es| - 1], lo, now);
    }
  }

  /** The members written by the entries stamped in (lo, hi]. */
  ghost function Live(es: seq<Entry>, lo: int, hi: int): set<string> {
    set e | e in es && lo < e.stamp <= hi :: e.member
  }

  ghost predicate Distinct(es: seq<Entry>) {
    forall i, j :: 0 <= i < j < |es| ==> es[i].member != es[j].member
  }

  ghost predicate Weighs(es: seq<Entry>, f: string -> nat) {
    forall e :: e in es ==> e.weight == f(e.member)
  }

  lemma SumAppend(es: seq<Entry>, e: Entry, lo: int, hi: int)
    ensures SumIn(es + [e], lo, hi) == SumIn(es, lo, hi) + if lo < e.stamp <= hi then e.weight else 0
  {
    assert (es + [e])[..|es|] == es;
  }

  /** An entry stamped now changes no oldest stamp. */
  lemma OldestAppend(es: seq<Entry>, e: Entry, lo: int)
    ensures OldestIn(es + [e], lo, e.stamp) == OldestIn(es, lo, e.stamp)
  {
    assert (es + [e])[..|es|] == es;
    OldestInIs(es, lo, e.stamp);
  }

  /** The log's sum is the sum over the set of distinct members in the window. */
  lemma {:induction false} SumIsLive(es: seq<Entry>, lo: int, hi: int, f: string -> nat)
    requires Distinct(es) && Weighs(es, f)
    ensures SumIn(es, lo, hi) == SetSum(Live(es, lo, hi), f)
  {
    hide SetSum;
    if es != [] {
      var front, e := es[..|es| - 1], es[|es| - 1];
      assert es == front + [e];
      SumIsLive(front, lo, hi, f);
      if lo < e.stamp <= hi {
        assert e.member !in Live(front, lo, hi);
        assert Live(es, lo, hi) == Live(front, lo, hi) + {e.member};
        SetSumTake(Live(es, lo, hi), f, e.member);
        assert Live(es, lo, hi) - {e.member} == Live(front, lo, hi);
      } else {
        assert Live(es, lo, hi) == Live(front, lo, hi);
      }
    } else {
      SetSumEmpty(f);
      assert Live(es, lo, hi) == {};
    }
  }

  /** If whatever the first window counts is counted by the second, the sums compare. */
  lemma {:induction false} SumMono(es: seq<Entry>, lo: int, hi: int, lo': int, hi': int)
    requires forall e :: e in es && lo < e.stamp <= hi ==> lo' < e.stamp <= hi'
    ensures SumIn(es, lo, hi) <= SumIn(es, lo', hi')
  {
    if es != [] {
      assert es == es[..|es| - 1] + [es[|es| - 1]];
      SumMono(es[..|es| - 1], lo, hi, lo', hi');
    }
  }

  /** Appending entries only adds. */
  lemma {:induction false} SumPrefix(es: seq<Entry>, more: seq<Entry>, lo: int, hi: int)
    ensures SumIn(es, lo, hi) <= SumIn(es + more, lo, hi)
  {
    if more == [] {
      assert es + more == es;
    } else {
      var n := |more| - 1;
      SumPrefix(es, more[..n], lo, hi);
      assert es + more == (es + more[..n]) + [more[n]];
      SumAppend(es + more[..n], more[n], lo, hi);
    }
  }

  /** Sliding the window past the entry e loses at least its weight. */
  lemma {:induction false} SumDrops(es: seq<Entry>, lo: int, hi: int, lo': int, hi': int, e: Entry)
    requires e in es && lo < e.stamp <= hi && e.stamp <= lo'
    requires lo <= lo' && forall x :: x in es ==> x.stamp <= hi
    ensures SumIn(es, lo', hi') + e.weight <= SumIn(es, lo, hi)
  {
    var front, x := es[..|es| - 1], es[|es| - 1];
    assert es == front + [x];
    if e in front {
      SumDrops(front, lo, hi, lo', hi', e);
    } else {
      SumMono(front, lo', hi', lo, hi);
    }
  }
}
