/** The latency strategy: moving averages, the poller that feeds them, and the selection. */
module Latency {
  import opened Values
  import opened Strategies

  // ---- The average as a weighted sum

  /** The moving average of a non-empty series of samples, newest last. */
  function Ewma(alpha: real, xs: seq<real>): real
    requires xs != []
  {
    if |xs| == 1 then xs[0]
    else Mix(alpha, xs[|xs| - 1], Ewma(alpha, xs[..|xs| - 1]))
  }

  function Mix(alpha: real, x: real, average: real): real {
    alpha * x + (1.0 - alpha) * average
  }

  /** The weight of sample i in the average of n samples. */
  function Weight(alpha: real, n: nat, i: nat): real
    requires i < n
  {
    if n == 1 then 1.0 else if i == n - 1 then alpha else (1.0 - alpha) * Weight(alpha, n - 1, i)
  }

  /** The weights of the first k of n samples, added up. */
  function Share(alpha: real, n: nat, k: nat): real
    requires k <= n
  {
    if k == 0 then 0.0 else Share(alpha, n, k - 1) + Weight(alpha, n, k - 1)
  }

  /** The first k of n samples, weighted and added up. */
  function WeightedSum(alpha: real, xs: seq<real>, n: nat, k: nat): real
    requires k <= n <= |xs|
  {
    if k == 0 then 0.0 else WeightedSum(alpha, xs, n, k - 1) + Weight(alpha, n, k - 1) * xs[k - 1]
  }

  function Power(x: real, n: nat): real {
    if n == 0 then 1.0 else x * Power(x, n - 1)
  }

  /** Every sample enters with weight alpha, the very first one with weight one, and loses the share alpha of
      its weight to each sample after it. */
  lemma {:induction false} WeightDecays(alpha: real, n: nat, i: nat)
    requires i < n
    ensures Weight(alpha, n, i) == (if i == 0 then 1.0 else alpha) * Power(1.0 - alpha, n - 1 - i)
  {
    if i < n - 1 {
      WeightDecays(alpha, n - 1, i);
      Reorder(1.0 - alpha, if i == 0 then 1.0 else alpha, Power(1.0 - alpha, n - 2 - i));
    }
  }

  lemma Reorder(c: real, a: real, p: real)
    ensures c * (a * p) == a * (c * p)
  {
  }

  lemma Product(a: real, b: real)
    requires a >= 0.0 && b >= 0.0
    ensures a * b >= 0.0
  {
  }

  lemma Factor(c: real, s: real, w: real, t: real)
    requires t == c * s
    ensures t + c * w == c * (s + w)
  {
  }

  lemma FactorTerm(c: real, s: real, w: real, x: real, t: real, v: real, sum: real)
    requires t == c * s && v == c * w && sum == s + w * x
    ensures t + v * x == c * sum
  {
  }

  lemma {:induction false} WeightsNonNegative(alpha: real, n: nat, i: nat)
    requires i < n && 0.0 <= alpha <= 1.0
    ensures Weight(alpha, n, i) >= 0.0
  {
    if n > 1 && i < n - 1 {
      WeightsNonNegative(alpha, n - 1, i);
      Product(1.0 - alpha, Weight(alpha, n - 1, i));
    }
  }

  /** One more sample scales every earlier weight. */
  lemma {:induction false} ShareScales(alpha: real, n: nat, k: nat)
    requires k < n && n > 1
    ensures Share(alpha, n, k) == (1.0 - alpha) * Share(alpha, n - 1, k)
  {
    if k > 0 {
      ShareScales(alpha, n, k - 1);
      Factor(1.0 - alpha, Share(alpha, n - 1, k - 1), Weight(alpha, n - 1, k - 1), Share(alpha, n, k - 1));
    }
  }

  /** The weights are shares of one. */
  lemma {:induction false} WeightsSumToOne(alpha: real, n: nat)
    requires n > 0
    ensures Share(alpha, n, n) == 1.0
  {
    if n > 1 {
      ShareScales(alpha, n, n - 1);
      WeightsSumToOne(alpha, n - 1);
    }
  }

  /** One more sample scales every earlier term. */
  lemma {:induction false} SumScales(alpha: real, xs: seq<real>, n: nat, k: nat)
    requires k < n <= |xs| && n > 1
    ensures WeightedSum(alpha, xs, n, k) == (1.0 - alpha) * WeightedSum(alpha, xs, n - 1, k)
  {
    if k > 0 {
      SumScales(alpha, xs, n, k - 1);
      ScaleTerm(alpha, xs, n, k);
    }
  }

  lemma ScaleTerm(alpha: real, xs: seq<real>, n: nat, k: nat)
    requires 0 < k < n <= |xs|
    requires WeightedSum(alpha, xs, n, k - 1) == (1.0 - alpha) * WeightedSum(alpha, xs, n - 1, k - 1)
    ensures WeightedSum(alpha, xs, n, k) == (1.0 - alpha) * WeightedSum(alpha, xs, n - 1, k)
  {
    hide WeightedSum, Weight;
    LastTerm(alpha, xs, n, k);
    LastTerm(alpha, xs, n - 1, k);
    WeightScales(alpha, n, k - 1);
    FactorTerm(1.0 - alpha, WeightedSum(alpha, xs, n - 1, k - 1), Weight(alpha, n - 1, k - 1), xs[k - 1],
               WeightedSum(alpha, xs, n, k - 1), Weight(alpha, n, k - 1), WeightedSum(alpha, xs, n - 1, k));
  }

  lemma LastTerm(alpha: real, xs: seq<real>, n: nat, k: nat)
    requires 0 < k <= n <= |xs|
    ensures WeightedSum(alpha, xs, n, k) ==
            WeightedSum(alpha, xs, n, k - 1) + Weight(alpha, n, k - 1) * xs[k - 1]
  {
    hide Weight;
  }

  lemma WeightScales(alpha: real, n: nat, i: nat)
    requires i < n - 1
    ensures Weight(alpha, n, i) == (1.0 - alpha) * Weight(alpha, n - 1, i)
  {
  }

  lemma {:induction false} PrefixIsWeightedSum(alpha: real, xs: seq<real>, n: nat)
    requires 0 < n <= |xs|
    ensures Ewma(alpha, xs[..n]) == WeightedSum(alpha, xs, n, n)
  {
    if n > 1 {
      PrefixIsWeightedSum(alpha, xs, n - 1);
      SumScales(alpha, xs, n, n - 1);
      assert xs[..n][..n - 1] == xs[..n - 1];
    }
  }

  /** The average is the weighted sum of the samples. */
  lemma EwmaIsWeightedSum(alpha: real, xs: seq<real>)
    requires xs != []
    ensures Ewma(alpha, xs) == WeightedSum(alpha, xs, |xs|, |xs|)
  {
    assert xs[..|xs|] == xs;
    PrefixIsWeightedSum(alpha, xs, |xs|);
  }

  /** The average lies between any bounds on the samples. */
  lemma {:induction false} EwmaBetween(alpha: real, xs: seq<real>, lo: real, hi: real)
    requires xs != [] && 0.0 <= alpha <= 1.0
    requires forall i :: 0 <= i < |xs| ==> lo <= xs[i] <= hi
    ensures lo <= Ewma(alpha, xs) <= hi
  {
    if |xs| > 1 {
      EwmaBetween(alpha, xs[..|xs| - 1], lo, hi);
      Between(alpha, xs[|xs| - 1], Ewma(alpha, xs[..|xs| - 1]), lo, hi);
    }
  }

  lemma Between(alpha: real, x: real, y: real, lo: real, hi: real)
    requires 0.0 <= alpha <= 1.0 && lo <= x <= hi && lo <= y <= hi
    ensures lo <= Mix(alpha, x, y) <= hi
  {
    Product(alpha, x - lo);
    Product(1.0 - alpha, y - lo);
    Product(alpha, hi - x);
    Product(1.0 - alpha, hi - y);
  }

  // ---- The poller

  /** Cumulative latency of one provider. */
  datatype LatencyTotal = LatencyTotal(sum: real, count: nat)

  const ZERO := LatencyTotal(0.0, 0)

  /** What the reader returns: the totals of every provider observed so far. */
  type Totals = map<string, LatencyTotal>

  function Get(totals: Totals, provider: string): LatencyTotal {
    if provider in totals then totals[provider] else ZERO
  }

  /** The average of the observations between two reads, if there were any. */
  function SampleOf(p: LatencyTotal, c: LatencyTotal): Option<real> {
    if c.count <= p.count then None
    else Some((if c.sum < p.sum then 0.0 else c.sum - p.sum) / (c.count - p.count) as real)
  }

  function History(samples: map<string, seq<real>>, provider: string): seq<real> {
    if provider in samples then samples[provider] else []
  }

  function Append(samples: map<string, seq<real>>, provider: string, x: real): map<string, seq<real>> {
    samples[provider := History(samples, provider) + [x]]
  }

  /** What a poll has for a provider: one sample or none. */
  function Given(prev: Totals, curr: Totals, provider: string): seq<real> {
    if provider !in curr then [] else Sample(Get(prev, provider), curr[provider])
  }

  /** The reads of one provider; one it is absent from counts as zero. */
  function Series(polls: seq<Totals>, provider: string): seq<LatencyTotal> {
    seq(|polls|, i requires 0 <= i < |polls| => Get(polls[i], provider))
  }

  /** Every provider but those still to come has got what the poll has for it. */
  ghost predicate Polled(before: map<string, seq<real>>, after: map<string, seq<real>>,
                         prev: Totals, curr: Totals, rest: set<string>)
  {
    forall p :: History(after, p) == History(before, p) + if p in rest then [] else Given(prev, curr, p)
  }

  class LatencyOptimized {
    var ewmas: map<string, real>
    const alpha: real
    const fallback: RoundRobin
    ghost var samples: map<string, seq<real>>

    /** Every tracked average is the moving average of the samples seen for that provider. */
    ghost predicate Valid()
      reads this, fallback
    {
      && 0.0 <= alpha <= 1.0 && fallback.Valid()
      && ewmas.Keys == samples.Keys
      && (forall p :: p in ewmas ==> samples[p] != [] && ewmas[p] == Ewma(alpha, samples[p]))
    }

    constructor (alpha: real)
      requires 0.0 <= alpha <= 1.0
      ensures Valid() && fresh(fallback) && this.alpha == alpha && samples == map[]
    {
      this.alpha := alpha;
      fallback := new RoundRobin();
      ewmas, samples := map[], map[];
    }

    /** Negative samples are ignored. */
    method Observe(provider: string, seconds: real)
      requires Valid()
      modifies this
      ensures Valid() && samples == if seconds < 0.0 then old(samples) else Append(old(samples), provider, seconds)
    {
      if seconds < 0.0 {
        return;
      }
      if provider in ewmas {
        ewmas := ewmas[provider := Mix(alpha, seconds, ewmas[provider])];
      } else {
        ewmas := ewmas[provider := seconds];
      }
      samples := Append(samples, provider, seconds);
      assert provider in old(samples) ==> samples[provider][..|samples[provider]| - 1] == old(samples)[provider];
    }

    /** One tick of run, the providers taken in any order: each gets exactly the sample its totals
        give, and a provider without new observations keeps its average. */
    method Poll(prev: Totals, curr: Totals)
      requires Valid()
      modifies this
      ensures Valid() && Polled(old(samples), samples, prev, curr, {})
    {
      var rest := curr.Keys;
      while rest != {}
        invariant Valid() && rest <= curr.Keys
        invariant Polled(old(samples), samples, prev, curr, rest)
        decreases rest
      {
        var provider :| provider in rest;
        assert rest - {provider} + {provider} == rest;
        rest := rest - {provider};
        ghost var was := samples;
        PollOne(provider, Get(prev, provider), curr[provider]);
        PolledStep(old(samples), was, samples, prev, curr, rest, provider);
      }
    }

    /** The loop of run over a series of polls, one before the first tick and one at every tick: each
        provider gets the samples of its series of polls, in order. */
    method Run(polls: seq<Totals>)
      requires Valid() && polls != []
      modifies this
      ensures Valid() && Fed(old(samples), samples, polls)
    {
      hide Fed, Polled;
      var prev := polls[0];
      FedNothing(samples, polls);
      for i := 1 to |polls|
        invariant Valid() && prev == polls[i - 1]
        invariant Fed(old(samples), samples, polls[..i])
      {
        var curr := polls[i];
        ghost var was := samples;
        Poll(prev, curr);
        FedNext(old(samples), was, samples, polls, i);
        prev := curr;
      }
      assert polls[..|polls|] == polls;
    }

    /** The delta arithmetic for one provider. */
    method PollOne(provider: string, p: LatencyTotal, c: LatencyTotal)
      requires Valid()
      modifies this
      ensures Valid()
      ensures samples == match SampleOf(p, c)
                         case None => old(samples)
                         case Some(x) => Append(old(samples), provider, x)
    {
      if c.count < p.count {
        return;
      }
      var deltaCount := c.count - p.count;
      if deltaCount == 0 {
        return;
      }
      var deltaSum := c.sum - p.sum;
      if deltaSum < 0.0 {
        deltaSum := 0.0;
      }
      Quotient(deltaSum, deltaCount as real);
      Observe(provider, deltaSum / deltaCount as real);
    }

    /** The first candidate with the least tracked average; the round robin while none is tracked. */
    method Select(cs: seq<Candidate>, group: string) returns (r: Option<nat>)
      requires Valid()
      modifies fallback
      ensures Valid()
      ensures r.None? <==> cs == []
      ensures r.Some? ==> r.value < |cs|
      ensures (exists i :: 0 <= i < |cs| && cs[i].provider in ewmas) ==>
                r.Some? && FirstMin(cs, Measured(ewmas), AverageOf(ewmas), r.value)
      ensures cs != [] && (forall i :: 0 <= i < |cs| ==> cs[i].provider !in ewmas) ==>
                r == Some(CounterOf(old(fallback.counters), group) % |cs|)
    {
      if |cs| == 0 {
        return None;
      }
      var bestIdx, bestEwma := -1, 0.0;
      for i := 0 to |cs|
        invariant Valid() && fallback.counters == old(fallback.counters)
        invariant -1 <= bestIdx < i
        invariant bestIdx == -1 ==> forall j :: 0 <= j < i ==> cs[j].provider !in ewmas
        invariant bestIdx >= 0 ==> cs[bestIdx].provider in ewmas && bestEwma == ewmas[cs[bestIdx].provider]
        invariant bestIdx >= 0 ==>
                    forall j :: 0 <= j < i && cs[j].provider in ewmas ==> bestEwma <= ewmas[cs[j].provider]
        invariant bestIdx >= 0 ==>
                    forall j :: 0 <= j < bestIdx && cs[j].provider in ewmas ==> bestEwma < ewmas[cs[j].provider]
      {
        if cs[i].provider !in ewmas {
          continue;
        }
        var v := ewmas[cs[i].provider];
        if bestIdx == -1 || v < bestEwma {
          bestIdx, bestEwma := i, v;
        }
      }
      if bestIdx == -1 {
        r := fallback.Select(cs, group);
        return;
      }
      r := Some(bestIdx);
    }
  }

  lemma PolledStep(before: map<string, seq<real>>, was: map<string, seq<real>>, after: map<string, seq<real>>,
                   prev: Totals, curr: Totals, rest: set<string>, provider: string)
    requires Polled(before, was, prev, curr, rest + {provider}) && provider in curr && provider !in rest
    requires after == match SampleOf(Get(prev, provider), curr[provider])
                      case None => was
                      case Some(x) => Append(was, provider, x)
    ensures Polled(before, after, prev, curr, rest)
  {
    forall p ensures History(after, p) == History(before, p) + if p in rest then [] else Given(prev, curr, p) {
      assert History(was, p) == History(before, p) + if p in rest + {provider} then [] else Given(prev, curr, p);
    }
  }

  /** Every provider has got the samples of its series. */
  ghost predicate Fed(before: map<string, seq<real>>, after: map<string, seq<real>>, polls: seq<Totals>) {
    forall p :: History(after, p) == History(before, p) + Sampled(Series(polls, p))
  }

  lemma FedNothing(samples: map<string, seq<real>>, polls: seq<Totals>)
    requires polls != []
    ensures Fed(samples, samples, polls[..1])
  {
  }

  lemma FedNext(before: map<string, seq<real>>, was: map<string, seq<real>>, after: map<string, seq<real>>,
                polls: seq<Totals>, i: nat)
    requires 0 < i < |polls| && Fed(before, was, polls[..i]) && Polled(was, after, polls[i - 1], polls[i], {})
    ensures Fed(before, after, polls[..i + 1])
  {
    hide Sampled, Given;
    forall p ensures History(after, p) == History(before, p) + Sampled(Series(polls[..i + 1], p)) {
      FedOne(before, was, after, polls, i, p);
    }
  }

  lemma FedOne(before: map<string, seq<real>>, was: map<string, seq<real>>, after: map<string, seq<real>>,
               polls: seq<Totals>, i: nat, p: string)
    requires 0 < i < |polls| && Fed(before, was, polls[..i]) && Polled(was, after, polls[i - 1], polls[i], {})
    ensures History(after, p) == History(before, p) + Sampled(Series(polls[..i + 1], p))
  {
    hide Sampled, Given, History;
    calc {
      History(after, p);
      History(was, p) + Given(polls[i - 1], polls[i], p);
      (History(before, p) + Sampled(Series(polls[..i], p))) + Given(polls[i - 1], polls[i], p);
      { SeriesNext(polls, i, p); }
      History(before, p) + Sampled(Series(polls[..i + 1], p));
    }
  }

  lemma SeriesNext(polls: seq<Totals>, i: nat, p: string)
    requires 0 < i < |polls|
    ensures Sampled(Series(polls[..i + 1], p)) == Sampled(Series(polls[..i], p)) + Given(polls[i - 1], polls[i], p)
  {
    var all := Series(polls[..i + 1], p);
    assert all[..i] == Series(polls[..i], p);
    assert all[i - 1] == Get(polls[i - 1], p) && all[i] == Get(polls[i], p);
  }

  function Measured(ewmas: map<string, real>): Candidate -> bool {
    (c: Candidate) => c.provider in ewmas
  }

  function AverageOf(ewmas: map<string, real>): Candidate -> real {
    (c: Candidate) => if c.provider in ewmas then ewmas[c.provider] else 0.0
  }

  lemma Quotient(a: real, b: real)
    requires a >= 0.0 && b > 0.0
    ensures a / b >= 0.0
  {
  }

  // ---- What the samples add up to

  /** No counter reset and no shrinking sum between consecutive reads. */
  ghost predicate Growing(totals: seq<LatencyTotal>) {
    forall i :: 0 < i < |totals| ==> totals[i - 1].count <= totals[i].count && totals[i - 1].sum <= totals[i].sum
  }

  /** The growth of the sum over a poll that saw no new observation counted. */
  function MissedBy(p: LatencyTotal, c: LatencyTotal): real {
    if c.count == p.count then c.sum - p.sum else 0.0
  }

  /** The samples of a series of reads of one provider, as run appends them. */
  function Sampled(totals: seq<LatencyTotal>): seq<real> {
    if |totals| <= 1 then []
    else Sampled(totals[..|totals| - 1]) + Sample(totals[|totals| - 2], totals[|totals| - 1])
  }

  /** How many observations each of those samples stands for. */
  function Gained(totals: seq<LatencyTotal>): (ns: seq<nat>)
    ensures |ns| == |Sampled(totals)|
  {
    if |totals| <= 1 then []
    else Gained(totals[..|totals| - 1]) + Gain(totals[|totals| - 2], totals[|totals| - 1])
  }

  function Sample(p: LatencyTotal, c: LatencyTotal): seq<real> {
    match SampleOf(p, c)
    case None => []
    case Some(x) => [x]
  }

  function Gain(p: LatencyTotal, c: LatencyTotal): (ns: seq<nat>)
    ensures |ns| == |Sample(p, c)|
  {
    if c.count <= p.count then [] else [c.count - p.count]
  }

  /** Samples times the observations they stand for, added up. */
  function Weigh(xs: seq<real>, ns: seq<nat>): real
    requires |xs| == |ns|
  {
    if xs == [] then 0.0
    else Weigh(xs[..|xs| - 1], ns[..|ns| - 1]) + Times(xs[|xs| - 1], ns[|ns| - 1])
  }

  function Missed(totals: seq<LatencyTotal>): real {
    if |totals| <= 1 then 0.0
    else Missed(totals[..|totals| - 1]) + MissedBy(totals[|totals| - 2], totals[|totals| - 1])
  }

  /** A sample is taken exactly if the count rose; times the observations it stands for, it is the growth of
      the sum, or nothing if the sum shrank. */
  lemma SampleMeans(p: LatencyTotal, c: LatencyTotal)
    ensures SampleOf(p, c).Some? <==> p.count < c.count
    ensures SampleOf(p, c).Some? ==>
              Times(SampleOf(p, c).value, c.count - p.count) == if c.sum < p.sum then 0.0 else c.sum - p.sum
  {
    hide Times;
    if p.count < c.count {
      Whole(if c.sum < p.sum then 0.0 else c.sum - p.sum, c.count - p.count, SampleOf(p, c).value);
    }
  }

  /** Adding one poll's sample adds what it covers. */
  lemma WeighPoll(xs: seq<real>, ns: seq<nat>, p: LatencyTotal, c: LatencyTotal)
    requires |xs| == |ns| && p.count <= c.count && p.sum <= c.sum
    ensures Weigh(xs + Sample(p, c), ns + Gain(p, c)) + MissedBy(p, c) == Weigh(xs, ns) + (c.sum - p.sum)
  {
    hide Weigh, Times, Sample, Gain;
    if p.count < c.count {
      var x := OneSample(p, c);
      WeighSnoc(xs, ns, x, c.count - p.count);
    } else {
      NoSample(p, c);
      assert xs + [] == xs && ns + [] == ns;
    }
  }

  lemma WeighSnoc(xs: seq<real>, ns: seq<nat>, x: real, n: nat)
    requires |xs| == |ns|
    ensures Weigh(xs + [x], ns + [n]) == Weigh(xs, ns) + Times(x, n)
  {
    hide Times;
    assert (xs + [x])[..|xs|] == xs && (ns + [n])[..|ns|] == ns;
  }

  lemma OneSample(p: LatencyTotal, c: LatencyTotal) returns (x: real)
    requires p.count < c.count && p.sum <= c.sum
    ensures Sample(p, c) == [x] && Gain(p, c) == [c.count - p.count]
    ensures Times(x, c.count - p.count) == c.sum - p.sum
  {
    hide Times;
    x := (c.sum - p.sum) / (c.count - p.count) as real;
    Whole(c.sum - p.sum, c.count - p.count, x);
  }

  lemma NoSample(p: LatencyTotal, c: LatencyTotal)
    requires c.count <= p.count
    ensures Sample(p, c) == [] && Gain(p, c) == []
  {
  }

  lemma Whole(a: real, n: nat, x: real)
    requires n > 0 && x == a / n as real
    ensures Times(x, n) == a
  {
    TimesIsProduct(x, n);
    Undo(a, n as real);
  }

  lemma GrowingFront(totals: seq<LatencyTotal>)
    requires Growing(totals) && |totals| > 1
    ensures Growing(totals[..|totals| - 1])
    ensures InStep(totals) <==>
              InStep(totals[..|totals| - 1]) && MissedBy(totals[|totals| - 2], totals[|totals| - 1]) == 0.0
    ensures MissedBy(totals[|totals| - 2], totals[|totals| - 1]) >= 0.0
  {
    var n := |totals| - 1;
    var front := totals[..n];
    assert forall i :: 0 <= i < n ==> front[i] == totals[i];
    assert totals[n - 1].sum <= totals[n].sum;
    if InStep(front) && MissedBy(totals[n - 1], totals[n]) == 0.0 {
      forall i | 0 < i < |totals| && totals[i].count == totals[i - 1].count
        ensures totals[i].sum == totals[i - 1].sum
      {
        assert i < n ==> front[i].sum == front[i - 1].sum;
      }
    }
  }

  /** The samples of any series of reads without a reset, each times its observations, add up to the growth
      of the sum, less what moved in polls that counted nothing new. */
  lemma {:induction false} SamplesAddUp(totals: seq<LatencyTotal>)
    requires totals != [] && Growing(totals)
    ensures Weigh(Sampled(totals), Gained(totals)) + Missed(totals) == totals[|totals| - 1].sum - totals[0].sum
  {
    hide Weigh, Sample, Gain, MissedBy;
    if |totals| > 1 {
      var n := |totals| - 1;
      var front := totals[..n];
      GrowingFront(totals);
      SamplesAddUp(front);
      assert totals[n - 1].count <= totals[n].count && front[n - 1] == totals[n - 1];
      WeighPoll(Sampled(front), Gained(front), totals[n - 1], totals[n]);
    } else {
      WeighNothing();
    }
  }

  lemma WeighNothing()
    ensures Weigh([], []) == 0.0
  {
  }

  lemma Undo(a: real, b: real)
    requires b > 0.0
    ensures a / b * b == a
  {
  }

  /** Between reads the sum moves only when the count does. */
  ghost predicate InStep(totals: seq<LatencyTotal>) {
    forall i :: 0 < i < |totals| && totals[i].count == totals[i - 1].count ==> totals[i].sum == totals[i - 1].sum
  }

  lemma {:induction false} MissedNothing(totals: seq<LatencyTotal>)
    requires totals != [] && Growing(totals)
    ensures Missed(totals) >= 0.0
    ensures Missed(totals) == 0.0 <==> InStep(totals)
  {
    if |totals| > 1 {
      GrowingFront(totals);
      MissedNothing(totals[..|totals| - 1]);
    }
  }

  /** For every reader, over polls with no reset, the samples times their observations telescope to the
      growth of the latency sum if and only if the sum never moves without the count. */
  lemma SamplesTelescope(polls: seq<Totals>, provider: string)
    requires polls != [] && Growing(Series(polls, provider))
    ensures var totals := Series(polls, provider);
            Weigh(Sampled(totals), Gained(totals)) == totals[|totals| - 1].sum - totals[0].sum <==> InStep(totals)
  {
    hide Weigh, Sampled, Gained, Missed;
    SamplesAddUp(Series(polls, provider));
    MissedNothing(Series(polls, provider));
  }

  /** A reader whose sum moved alone would have that growth missed. */
  lemma SumAloneIsMissed()
    ensures var totals := [LatencyTotal(0.0, 1), LatencyTotal(1.0, 1)];
            Growing(totals) && !InStep(totals) && Sampled(totals) == []
  {
    var totals := [LatencyTotal(0.0, 1), LatencyTotal(1.0, 1)];
    assert totals[..1] == [LatencyTotal(0.0, 1)];
    assert totals[1].sum != totals[0].sum;
  }
}
