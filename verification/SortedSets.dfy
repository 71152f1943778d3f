/** The Redis sorted-set commands the scripts use, and sums over the members of a set. */
module SortedSets {

  /** One sorted-set key: its members with their scores, and the EXPIRE deadline in server
      milliseconds, which means nothing while the set is empty. */
  datatype ZSet = ZSet(scores: map<string, int>, deadline: int)

  const EMPTY := ZSet(map[], 0)

  /** The key as the server serves it at a given clock reading: gone once past its deadline. */
  function Touch(z: ZSet, clock: int): ZSet {
    if clock > z.deadline then z.(scores := map[]) else z
  }

  /** ZREMRANGEBYSCORE key -inf cutoff. */
  function Prune(z: ZSet, cutoff: int): ZSet {
    z.(scores := map m | m in z.scores && z.scores[m] > cutoff :: z.scores[m])
  }

  /** ZADD followed by EXPIRE. */
  function Add(z: ZSet, member: string, score: int, deadline: int): ZSet {
    ZSet(z.scores[member := score], deadline)
  }

  /** r is the score ZRANGE key 0 0 reports, or now when the set is empty. */
  ghost predicate IsOldest(scores: map<string, int>, now: int, r: int) {
    && (scores == map[] ==> r == now)
    && (scores != map[] ==> exists m :: m in scores && scores[m] == r)
    && (forall m :: m in scores ==> r <= scores[m])
  }

  lemma {:induction false} OldestExists(scores: map<string, int>, now: int) returns (r: int)
    ensures IsOldest(scores, now, r)
    decreases |scores|
  {
    if scores == map[] {
      r := now;
    } else {
      var m :| m in scores;
      var rest := scores - {m};
      assert scores.Keys == rest.Keys + {m};
      if rest == map[] {
        r := scores[m];
      } else {
        r := OldestExists(rest, now);
        var k :| k in rest && rest[k] == r;
        assert scores[k] == r;
        if scores[m] < r {
          r := scores[m];
        }
      }
      assert forall k :: k in scores && k != m ==> k in rest && scores[k] == rest[k];
    }
  }

  ghost function Oldest(scores: map<string, int>, now: int): (r: int)
    ensures IsOldest(scores, now, r)
  {
    assert exists r :: IsOldest(scores, now, r) by {
      var r := OldestExists(scores, now);
    }
    var r :| IsOldest(scores, now, r);
    r
  }

  /** oldest_score: a scan for the least score. */
  method OldestScore(scores: map<string, int>, now: int) returns (r: int)
    ensures r == Oldest(scores, now)
  {
    r := now;
    var rest := scores.Keys;
    var found := false;
    while rest != {}
      invariant rest <= scores.Keys
      invariant !found ==> rest == scores.Keys && r == now
      invariant found ==> exists m :: m in scores && scores[m] == r
      invariant found ==> forall m :: m in scores && m !in rest ==> r <= scores[m]
      decreases rest
    {
      var m :| m in rest;
      if !found || scores[m] < r {
        r := scores[m];
      }
      found := true;
      rest := rest - {m};
    }
    assert IsOldest(scores, now, r);
  }

  /** The sum of f over a set of members. */
  ghost function SetSum(s: set<string>, f: string -> nat): nat {
    if s == {} then 0 else
      var x :| x in s;
      f(x) + SetSum(s - {x}, f)
  }

  lemma SetSumEmpty(f: string -> nat)
    ensures SetSum({}, f) == 0
  {
  }

  lemma {:induction false} SetSumTake(s: set<string>, f: string -> nat, x: string)
    requires x in s
    ensures SetSum(s, f) == f(x) + SetSum(s - {x}, f)
    decreases s
  {
    var y :| y in s && SetSum(s, f) == f(y) + SetSum(s - {y}, f);
    if y != x {
      SetSumTake(s - {y}, f, x);
      SetSumTake(s - {x}, f, y);
      assert s - {y} - {x} == s - {x} - {y};
    }
  }

  lemma {:induction false} SetSumMono(s: set<string>, t: set<string>, f: string -> nat)
    requires s <= t
    ensures SetSum(s, f) <= SetSum(t, f)
    decreases t
  {
    if s != t {
      var x :| x in t && x !in s;
      SetSumTake(t, f, x);
      SetSumMono(s, t - {x}, f);
    }
  }

  lemma {:induction false} SetSumOnes(s: set<string>, f: string -> nat)
    requires forall m :: f(m) == 1
    ensures SetSum(s, f) == |s|
    decreases s
  {
    if s != {} {
      var x :| x in s;
      SetSumTake(s, f, x);
      SetSumOnes(s - {x}, f);
    }
  }
}
