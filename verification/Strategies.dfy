/** The candidate-ranking strategies. A selection is the index of the chosen candidate, or None for an
    empty list, which every strategy reports as an error. */
module Strategies {
  import opened Values

  datatype Candidate = Candidate(
    provider: string,
    model: string,
    costIn: real,
    costOut: real,
    priority: int,
    weight: int)

  /** i is the first of the candidates meeting p whose key is least. */
  ghost predicate FirstMin(cs: seq<Candidate>, p: Candidate -> bool, key: Candidate -> real, i: int) {
    && 0 <= i < |cs| && p(cs[i])
    && (forall j :: 0 <= j < |cs| && p(cs[j]) ==> key(cs[i]) <= key(cs[j]))
    && (forall j :: 0 <= j < i && p(cs[j]) ==> key(cs[i]) < key(cs[j]))
  }

  // ---- priority

  predicate Any(c: Candidate) {
    true
  }

  function PriorityOf(c: Candidate): real {
    c.priority as real
  }

  method SelectPriority(cs: seq<Candidate>) returns (r: Option<nat>)
    ensures r.None? <==> cs == []
    ensures r.Some? ==> FirstMin(cs, Any, PriorityOf, r.value)
    ensures r.Some? ==> forall j :: 0 <= j < |cs| ==>
              && cs[r.value].priority <= cs[j].priority
              && (j < r.value ==> cs[r.value].priority < cs[j].priority)
  {
    if |cs| == 0 {
      return None;
    }
    var best := 0;
    for i := 1 to |cs|
      invariant 0 <= best < i
      invariant forall j :: 0 <= j < i ==> cs[best].priority <= cs[j].priority
      invariant forall j :: 0 <= j < best ==> cs[best].priority < cs[j].priority
    {
      if cs[i].priority < cs[best].priority {
        best := i;
      }
    }
    r := Some(best);
  }

  // ---- round robin

  const UINT64 := 0x1_0000_0000_0000_0000

  /** The counter of a group; absent means zero. */
  function CounterOf(counters: map<string, nat>, group: string): nat {
    if group in counters then counters[group] else 0
  }

  class RoundRobin {
    var counters: map<string, nat>
    ghost var calls: seq<string>

    /** The counters are those of the selections made so far. */
    ghost predicate Valid()
      reads this
    {
      counters == Counters(calls)
    }

    constructor ()
      ensures Valid() && calls == []
    {
      counters, calls := map[], [];
    }

    method Select(cs: seq<Candidate>, group: string) returns (r: Option<nat>)
      requires Valid()
      modifies this
      ensures Valid()
      ensures cs == [] ==> r == None && calls == old(calls) && counters == old(counters)
      ensures cs != [] ==>
                && calls == old(calls) + [group]
                && r == Some(PickAt(calls, |old(calls)|, |cs|)) && r.value < |cs|
                && r.value == CounterOf(old(counters), group) % |cs|
    {
      if |cs| == 0 {
        return None;
      }
      var idx := CounterOf(counters, group);
      counters := counters[group := (idx + 1) % UINT64];
      calls := calls + [group];
      assert calls[..|calls| - 1] == old(calls);
      r := Some(idx % |cs|);
    }
  }

  /** The counters after a run of selections, each named by its group. */
  function Counters(run: seq<string>): map<string, nat> {
    if run == [] then map[]
    else var c := Counters(run[..|run| - 1]);
      var g := run[|run| - 1];
      c[g := (CounterOf(c, g) + 1) % UINT64]
  }

  /** What selection k of the run picks in a list of n candidates. */
  function PickAt(run: seq<string>, k: nat, n: nat): nat
    requires k < |run| && n > 0
  {
    CounterOf(Counters(run[..k]), run[k]) % n
  }

  /** How often group g appears in the run. */
  function Uses(run: seq<string>, g: string): nat {
    if run == [] then 0 else Uses(run[..|run| - 1], g) + if run[|run| - 1] == g then 1 else 0
  }

  /** How often the selections [a, b) of group g picked index i. */
  function Picks(run: seq<string>, g: string, n: nat, i: nat, a: nat, b: nat): nat
    requires a <= b <= |run| && n > 0
  {
    if a == b then 0
    else Picks(run, g, n, i, a, b - 1) + if run[b - 1] == g && PickAt(run, b - 1, n) == i then 1 else 0
  }

  lemma {:induction false} UsesMono(run: seq<string>, g: string, a: nat, b: nat)
    requires a <= b <= |run|
    ensures Uses(run[..a], g) <= Uses(run[..b], g)
  {
    if a < b {
      UsesMono(run, g, a, b - 1);
      assert run[..b][..b - 1] == run[..b - 1];
    }
  }

  lemma {:induction false} CounterCounts(run: seq<string>, g: string)
    ensures CounterOf(Counters(run), g) == Uses(run, g) % UINT64
  {
    if run != [] {
      CounterCounts(run[..|run| - 1], g);
      ModStep(Uses(run[..|run| - 1], g), UINT64);
    }
  }

  /** The turns of a group go round from its first candidate on, with a counter of 64 bits. */
  lemma PickIsTurn(run: seq<string>, k: nat, n: nat)
    requires k < |run| && n > 0
    ensures PickAt(run, k, n) == Uses(run[..k], run[k]) % 0x1_0000_0000_0000_0000 % n
  {
    CounterCounts(run[..k], run[k]);
  }

  lemma EarlyTurn(run: seq<string>, k: nat, n: nat)
    requires k < |run| && n > 0 && Uses(run[..k], run[k]) < UINT64
    ensures PickAt(run, k, n) == Uses(run[..k], run[k]) % n
  {
    hide PickAt, Uses;
    PickIsTurn(run, k, n);
    ModIs(Uses(run[..k], run[k]), UINT64, 0, Uses(run[..k], run[k]));
  }

  /** How many of 0, 1, ..., m-1 are i modulo n. */
  function Residues(m: nat, n: nat, i: nat): nat
    requires i < n
  {
    if m == 0 then 0 else Residues(m - 1, n, i) + if (m - 1) % n == i then 1 else 0
  }

  lemma {:induction false} PicksAreResidues(run: seq<string>, g: string, n: nat, i: nat, a: nat, b: nat)
    requires a <= b <= |run| && i < n && Uses(run[..b], g) < UINT64
    ensures Residues(Uses(run[..a], g), n, i) + Picks(run, g, n, i, a, b) == Residues(Uses(run[..b], g), n, i)
  {
    hide PickAt;
    if a < b {
      assert run[..b][..b - 1] == run[..b - 1];
      UsesMono(run, g, b - 1, b);
      PicksAreResidues(run, g, n, i, a, b - 1);
      if run[b - 1] == g {
        EarlyTurn(run, b - 1, n);
      }
    }
  }

  /** Fairness: over any stretch of a run in which group g, with n candidates, is selected k times, every
      index is picked floor(k/n) or ceil(k/n) times, whatever other groups are selected in between,
      as long as the counter has not wrapped. */
  lemma RoundRobinIsFair(run: seq<string>, g: string, n: nat, i: nat, a: nat, b: nat)
    requires a <= b <= |run| && i < n && Uses(run[..b], g) < UINT64
    ensures var k := Uses(run[..b], g) - Uses(run[..a], g);
            k >= 0 && k / n <= Picks(run, g, n, i, a, b) <= (k + n - 1) / n
  {
    UsesMono(run, g, a, b);
    PicksAreResidues(run, g, n, i, a, b);
    ResidueSpan(Uses(run[..a], g), Uses(run[..b], g), n, i, Picks(run, g, n, i, a, b));
  }

  /** n times the number of residues, as m rises: it lags behind m by m % n until i is reached in the
      current round, and is ahead after that. */
  lemma {:induction false} ResiduesClosed(m: nat, n: nat, i: nat)
    requires i < n
    ensures n * Residues(m, n, i) == m - m % n + if m % n > i then n else 0
  {
    if m == 0 {
      assert 0 % n == 0;
    } else {
      ResiduesClosed(m - 1, n, i);
      ModStep(m - 1, n);
      OneMore(n, Residues(m - 1, n, i));
    }
  }

  lemma OneMore(n: nat, r: nat)
    ensures n * (r + 1) == n * r + n
  {
  }

  lemma ModStep(m: nat, n: nat)
    requires n > 0
    ensures (m + 1) % n == if m % n == n - 1 then 0 else m % n + 1
  {
    var q, r := m / n, m % n;
    assert m == n * q + r;
    if r == n - 1 {
      OneMore(n, q);
      ModIs(m + 1, n, q + 1, 0);
    } else {
      ModIs(m + 1, n, q, r + 1);
    }
  }

  lemma ModIs(x: nat, n: nat, q: nat, r: nat)
    requires r < n && x == n * q + r
    ensures x % n == r
  {
    var q', r' := x / n, x % n;
    assert x == n * q' + r';
    if q < q' {
      NextMultiple(n, q, q');
    } else if q' < q {
      NextMultiple(n, q', q);
    }
  }

  lemma NextMultiple(n: nat, a: nat, b: nat)
    requires a < b
    ensures n * a + n <= n * b
  {
    OneMore(n, a);
    MulMono(n, a + 1, b);
  }

  lemma MulMono(n: nat, a: nat, b: nat)
    requires a <= b
    ensures n * a <= n * b
  {
  }

  lemma ResidueSpan(x: nat, y: nat, n: nat, i: nat, p: nat)
    requires i < n && x <= y && Residues(x, n, i) + p == Residues(y, n, i)
    ensures (y - x) / n <= p <= (y - x + n - 1) / n
  {
    ResiduesClosed(x, n, i);
    ResiduesClosed(y, n, i);
    Sum3(n, Residues(x, n, i), p, Residues(y, n, i));
    NearQuotient(y - x, n, p);
  }

  lemma Sum3(n: nat, a: nat, p: nat, b: nat)
    requires a + p == b
    ensures n * a + n * p == n * b
  {
  }

  /** A multiple of n within n of k is the floor or the ceiling of k / n, times n. */
  lemma NearQuotient(k: nat, n: nat, p: nat)
    requires n > 0 && k - n < n * p < k + n
    ensures k / n <= p <= (k + n - 1) / n
  {
    AtMostQuotient(k, n, p);
    var c := (k + n - 1) / n;
    assert k + n - 1 == n * c + (k + n - 1) % n;
    if p > c {
      NextMultiple(n, c, p);
    }
  }

  lemma AtMostQuotient(k: nat, n: nat, p: nat)
    requires n > 0 && k - n < n * p
    ensures k / n <= p
  {
    var q := k / n;
    assert k == n * q + k % n;
    if p < q {
      NextMultiple(n, p, q);
    }
  }

  // ---- cost

  /** A request: the model named, the contents of the messages as the bytes Go's strings are, and the output
      allowance. */
  datatype Request = Request(model: string, messages: seq<seq<byte>>, maxTokens: Option<int>)

  const DEFAULT_MAX_TOKENS := 256

  function ContentLength(messages: seq<seq<byte>>): nat {
    if messages == [] then 0 else ContentLength(messages[..|messages| - 1]) + |messages[|messages| - 1]|
  }

  function OutTokens(req: Request): int {
    if req.maxTokens.Some? && req.maxTokens.value > 0 then req.maxTokens.value else DEFAULT_MAX_TOKENS
  }

  /** The estimated price: input bytes at four to a token, plus the output allowance, per 1000. */
  function PriceOf(costIn: real, costOut: real, req: Request): real {
    ContentLength(req.messages) as real / 4.0 / 1000.0 * costIn + OutTokens(req) as real / 1000.0 * costOut
  }

  function Price(c: Candidate, req: Request): real {
    PriceOf(c.costIn, c.costOut, req)
  }

  /** A price is what the bytes cost at four to an input token, and the allowance at output prices, per
      thousand tokens. */
  lemma PriceMeans(costIn: real, costOut: real, req: Request)
    ensures var out := if req.maxTokens.Some? && req.maxTokens.value > 0 then req.maxTokens.value else 256;
            4000.0 * PriceOf(costIn, costOut, req) ==
            ContentLength(req.messages) as real * costIn + 4.0 * (out as real * costOut)
  {
    Thousands(ContentLength(req.messages) as real, costIn, OutTokens(req) as real, costOut);
  }

  lemma Thousands(n: real, x: real, m: real, y: real)
    ensures 4000.0 * (n / 4.0 / 1000.0 * x + m / 1000.0 * y) == n * x + 4.0 * (m * y)
  {
    assert n / 4.0 / 1000.0 == n * 0.00025 && m / 1000.0 == m * 0.001;
  }

  lemma {:induction false} ContentLengthAdds(a: seq<seq<byte>>, b: seq<seq<byte>>)
    ensures ContentLength(a + b) == ContentLength(a) + ContentLength(b)
    ensures |b| == 1 ==> ContentLength(b) == |b[0]|
  {
    if b == [] {
      assert a + b == a;
    } else {
      ContentLengthAdds(a, b[..|b| - 1]);
      assert (a + b)[..|a + b| - 1] == a + b[..|b| - 1];
    }
  }

  method EstimateCost(c: Candidate, req: Request) returns (cost: real)
    ensures cost == Price(c, req)
  {
    var inChars := 0;
    for i := 0 to |req.messages|
      invariant inChars == ContentLength(req.messages[..i])
    {
      assert req.messages[..i + 1][..i] == req.messages[..i];
      inChars := inChars + |req.messages[i]|;
    }
    assert req.messages[..|req.messages|] == req.messages;
    var inTokensPer1k := inChars as real / 4.0 / 1000.0;
    var outTokens := DEFAULT_MAX_TOKENS;
    if req.maxTokens.Some? && req.maxTokens.value > 0 {
      outTokens := req.maxTokens.value;
    }
    cost := inTokensPer1k * c.costIn + outTokens as real / 1000.0 * c.costOut;
  }

  predicate Priced(c: Candidate) {
    c.costIn != 0.0 || c.costOut != 0.0
  }

  function PriceFor(req: Request): Candidate -> real {
    c => Price(c, req)
  }

  /** CostOptimized: the cheapest priced candidate, or the round robin when none is priced. */
  method SelectCost(cs: seq<Candidate>, req: Request, group: string, fallback: RoundRobin) returns (r: Option<nat>)
    requires fallback.Valid()
    modifies fallback
    ensures fallback.Valid()
    ensures r.None? <==> cs == []
    ensures r.Some? ==> r.value < |cs|
    ensures (exists i :: 0 <= i < |cs| && Priced(cs[i])) ==>
              r.Some? && FirstMin(cs, Priced, PriceFor(req), r.value) && fallback.counters == old(fallback.counters)
    ensures cs != [] && (forall i :: 0 <= i < |cs| ==> !Priced(cs[i])) ==>
              r == Some(CounterOf(old(fallback.counters), group) % |cs|)
  {
    if |cs| == 0 {
      return None;
    }
    var bestIdx, bestCost := -1, 0.0;
    for i := 0 to |cs|
      invariant fallback.Valid() && fallback.counters == old(fallback.counters)
      invariant -1 <= bestIdx < i
      invariant bestIdx == -1 ==> forall j :: 0 <= j < i ==> !Priced(cs[j])
      invariant bestIdx >= 0 ==> Priced(cs[bestIdx]) && bestCost == Price(cs[bestIdx], req)
      invariant bestIdx >= 0 ==> forall j :: 0 <= j < i && Priced(cs[j]) ==> bestCost <= Price(cs[j], req)
      invariant bestIdx >= 0 ==> forall j :: 0 <= j < bestIdx && Priced(cs[j]) ==> bestCost < Price(cs[j], req)
    {
      if cs[i].costIn == 0.0 && cs[i].costOut == 0.0 {
        continue;
      }
      var cost := EstimateCost(cs[i], req);
      if bestIdx == -1 || cost < bestCost {
        bestIdx, bestCost := i, cost;
      }
    }
    if bestIdx == -1 {
      r := fallback.Select(cs, group);
      return;
    }
    r := Some(bestIdx);
  }

  // ---- weighted

  function Positive(w: int): nat {
    if w < 0 then 0 else w
  }

  /** The running sum of the positive weights before candidate i. */
  function Cumulative(cs: seq<Candidate>, i: nat): nat
    requires i <= |cs|
  {
    if i == 0 then 0 else Cumulative(cs, i - 1) + Positive(cs[i - 1].weight)
  }

  function Total(cs: seq<Candidate>): nat {
    Cumulative(cs, |cs|)
  }

  /** The picks that candidate i owns: an interval as long as its weight. */
  ghost predicate Owns(cs: seq<Candidate>, i: nat, pick: real)
    requires i < |cs|
  {
    Cumulative(cs, i) as real <= pick < Cumulative(cs, i + 1) as real
  }

  /** i is the last candidate with a positive weight. */
  ghost predicate LastPositive(cs: seq<Candidate>, i: nat) {
    i < |cs| && cs[i].weight > 0 && forall j :: i < j < |cs| ==> cs[j].weight <= 0
  }

  lemma {:induction false} CumulativeMono(cs: seq<Candidate>, i: nat, j: nat)
    requires i <= j <= |cs|
    ensures Cumulative(cs, i) <= Cumulative(cs, j)
  {
    if i < j {
      CumulativeMono(cs, i, j - 1);
    }
  }

  /** n times x. */
  function Times(x: real, n: nat): real {
    if n == 0 then 0.0 else Times(x, n - 1) + x
  }

  lemma {:induction false} TimesIsProduct(x: real, n: nat)
    ensures Times(x, n) == x * n as real
  {
    if n > 0 {
      TimesIsProduct(x, n - 1);
    }
  }

  /** The draw, scaled to the total weight. */
  function PickOf(cs: seq<Candidate>, random: real): real {
    Times(random, Total(cs))
  }

  /** How a pick in [0, total] chooses: the candidate that owns it, and no other, or, when the pick is
      the total itself, the last positive weight. */
  ghost predicate Picked(cs: seq<Candidate>, pick: real, i: nat) {
    && i < |cs| && cs[i].weight > 0
    && (pick < Total(cs) as real ==> forall j :: 0 <= j < |cs| ==> (i == j <==> Owns(cs, j, pick)))
    && (pick == Total(cs) as real ==> LastPositive(cs, i))
  }

  /** How a draw chooses: by weight, or by equal shares when no weight is positive. */
  ghost predicate Chosen(cs: seq<Candidate>, random: real, i: nat) {
    if Total(cs) > 0 then Picked(cs, PickOf(cs, random), i) else i < |cs| && Uniform(|cs|, random, i)
  }

  /** A draw below one scales to a pick below the total. */
  lemma PickInRange(cs: seq<Candidate>, random: real)
    requires 0.0 <= random <= 1.0 && Total(cs) > 0
    ensures 0.0 <= PickOf(cs, random) <= Total(cs) as real
    ensures random < 1.0 <==> PickOf(cs, random) < Total(cs) as real
  {
    Scale(random, Total(cs));
  }

  /** The draw is in [0, 1); random == 1 stands for a product that rounds up to the total. */
  method SelectWeighted(cs: seq<Candidate>, random: real) returns (r: Option<nat>)
    requires 0.0 <= random <= 1.0
    ensures r.None? <==> cs == []
    ensures r.Some? ==> Chosen(cs, random, r.value)
  {
    if |cs| == 0 {
      return None;
    }
    var total := TotalWeight(cs);
    var i: nat;
    if total == 0 {
      i := SelectUniform(|cs|, random);
    } else {
      PickInRange(cs, random);
      i := ScanWeights(cs, Times(random, total));
    }
    r := Some(i);
  }

  method TotalWeight(cs: seq<Candidate>) returns (total: nat)
    ensures total == Total(cs)
  {
    total := 0;
    for i := 0 to |cs|
      invariant total == Cumulative(cs, i)
    {
      if cs[i].weight < 0 {
        continue;
      }
      total := total + cs[i].weight;
    }
  }

  /** The index whose share [i, i+1) of [0, n) holds the scaled draw. */
  ghost predicate Uniform(n: nat, random: real, i: nat) {
    i as real <= Times(random, n) && (random < 1.0 ==> Times(random, n) < i as real + 1.0)
  }

  method SelectUniform(n: nat, random: real) returns (idx: nat)
    requires n > 0 && 0.0 <= random <= 1.0
    ensures idx < n && Uniform(n, random, idx)
  {
    Scale(random, n);
    idx := Times(random, n).Floor;
    if idx >= n {
      idx := n - 1;
    }
  }

  /** The two scans: forward to the interval of the pick, and back to the last positive weight when
      the pick is the total. */
  method ScanWeights(cs: seq<Candidate>, pick: real) returns (r: nat)
    requires 0.0 <= pick <= Total(cs) as real && Total(cs) > 0
    ensures Picked(cs, pick, r)
  {
    var cursor := 0;
    for i := 0 to |cs|
      invariant cursor == Cumulative(cs, i) && cursor as real <= pick
    {
      if cs[i].weight <= 0 {
        continue;
      }
      cursor := cursor + cs[i].weight;
      if pick < cursor as real {
        CumulativeMono(cs, i + 1, |cs|);
        OwnsOne(cs, i, pick);
        return i;
      }
    }
    r := |cs| - 1;
    var i := |cs| - 1;
    while i >= 0
      invariant -1 <= i < |cs|
      invariant forall j :: i < j < |cs| ==> cs[j].weight <= 0
      invariant Cumulative(cs, i + 1) == Total(cs)
    {
      if cs[i].weight > 0 {
        return i;
      }
      i := i - 1;
    }
  }

  lemma {:induction false} Scale(random: real, n: nat)
    requires 0.0 <= random <= 1.0
    ensures 0.0 <= Times(random, n) <= n as real
    ensures n > 0 ==> (random < 1.0 <==> Times(random, n) < n as real)
  {
    if n > 0 {
      Scale(random, n - 1);
    }
  }

  /** Intervals are disjoint. */
  lemma OwnsOne(cs: seq<Candidate>, i: nat, pick: real)
    requires i < |cs| && Owns(cs, i, pick)
    ensures forall j :: 0 <= j < |cs| ==> (i == j <==> Owns(cs, j, pick))
  {
    forall j | 0 <= j < |cs| && j != i ensures !Owns(cs, j, pick) {
      if j < i {
        CumulativeMono(cs, j + 1, i);
      } else {
        CumulativeMono(cs, i + 1, j);
      }
    }
  }

  /** The intervals partition [0, total): every pick in it has exactly one owner, and the interval of
      candidate i is as long as its weight, so a weight that is not positive is never picked. */
  lemma {:induction false} WeightsPartition(cs: seq<Candidate>, pick: real) returns (i: nat)
    requires 0.0 <= pick < Total(cs) as real
    ensures i < |cs| && Owns(cs, i, pick)
    ensures forall j :: 0 <= j < |cs| && Owns(cs, j, pick) ==> j == i
    ensures Cumulative(cs, i + 1) - Cumulative(cs, i) == cs[i].weight > 0
  {
    i := OwnerBelow(cs, pick, |cs|);
    OwnsOne(cs, i, pick);
  }

  lemma {:induction false} OwnerBelow(cs: seq<Candidate>, pick: real, n: nat) returns (i: nat)
    requires n <= |cs| && 0.0 <= pick < Cumulative(cs, n) as real
    ensures i < n && Owns(cs, i, pick)
  {
    if Cumulative(cs, n - 1) as real <= pick {
      i := n - 1;
    } else {
      i := OwnerBelow(cs, pick, n - 1);
    }
  }
}
