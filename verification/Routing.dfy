/** Routing one request: resolve the model to candidates, drop those whose breaker is open, and let
    the strategy pick. */
module Routing {
  import opened Values
  import opened Strategies
  import Latency
  import Health

  // ---- The health filter

  /** The providers whose breaker is open now. A provider that is not tracked never is. */
  ghost function Down(health: map<string, Health.ProviderHealth>, now: int): set<string>
    reads health.Values
  {
    set p | p in health &&
            !Health.Available(health[p].history, health[p].failureThreshold, health[p].cooldownPeriod, now)
  }

  function Up(down: set<string>): Candidate -> bool {
    (c: Candidate) => c.provider !in down
  }

  function Filter(cs: seq<Candidate>, p: Candidate -> bool): seq<Candidate> {
    if cs == [] then []
    else Filter(cs[..|cs| - 1], p) + if p(cs[|cs| - 1]) then [cs[|cs| - 1]] else []
  }

  ghost predicate AllValid(health: map<string, Health.ProviderHealth>)
    reads health.Values
  {
    forall p :: p in health ==> health[p].Valid()
  }

  /** A provider nobody tracks counts as healthy. */
  method IsUp(c: Candidate, health: map<string, Health.ProviderHealth>, now: int) returns (keep: bool)
    requires AllValid(health)
    ensures keep == Up(Down(health, now))(c)
  {
    keep := true;
    if c.provider in health {
      keep := health[c.provider].IsHealthy(now);
    }
  }

  /** filterHealthy: the kept candidates overwrite the front of the very array being read. The first n
      cells end up as the order-preserving filter of what the array held before. */
  method FilterHealthy(a: array<Candidate>, health: map<string, Health.ProviderHealth>, now: int) returns (n: nat)
    requires AllValid(health)
    modifies a
    ensures n <= a.Length
    ensures a[..n] == Filter(old(a[..]), Up(old(Down(health, now))))
  {
    n := 0;
    ghost var cs, up := a[..], Up(Down(health, now));
    for i := 0 to a.Length
      invariant n <= i
      invariant forall k :: i <= k < a.Length ==> a[k] == cs[k]
      invariant a[..n] == Filter(cs[..i], up)
    {
      var c := a[i];
      var keep := IsUp(c, health, now);
      FilterNext(cs, i, up);
      if keep {
        a[n] := c;
        n := n + 1;
        assert a[..n] == a[..n - 1] + [c];
      }
    }
    assert cs[..a.Length] == cs;
  }

  lemma FilterNext(cs: seq<Candidate>, i: nat, p: Candidate -> bool)
    requires i < |cs|
    ensures Filter(cs[..i + 1], p) == Filter(cs[..i], p) + if p(cs[i]) then [cs[i]] else []
  {
    assert cs[..i + 1][..i] == cs[..i];
  }

  /** Where the k-th kept candidate came from. */
  function Origins(cs: seq<Candidate>, p: Candidate -> bool): (o: seq<nat>)
    ensures |o| == |Filter(cs, p)|
  {
    if cs == [] then []
    else Origins(cs[..|cs| - 1], p) + if p(cs[|cs| - 1]) then [|cs| - 1] else []
  }

  ghost predicate Embeds(cs: seq<Candidate>, p: Candidate -> bool, f: seq<Candidate>, o: seq<nat>) {
    && |o| == |f|
    && (forall k :: 0 <= k < |o| ==> o[k] < |cs| && cs[o[k]] == f[k] && p(cs[o[k]]))
    && (forall j, k :: 0 <= j < k < |o| ==> o[j] < o[k])
    && (forall i :: 0 <= i < |cs| && p(cs[i]) ==> i in o)
  }

  /** Filtering keeps exactly the candidates that pass, in their order. */
  lemma {:induction false} FilterEmbeds(cs: seq<Candidate>, p: Candidate -> bool)
    ensures Embeds(cs, p, Filter(cs, p), Origins(cs, p))
  {
    if cs != [] {
      var n := |cs| - 1;
      FilterEmbeds(cs[..n], p);
      EmbedsStep(cs, p, Filter(cs[..n], p), Origins(cs[..n], p));
    }
  }

  lemma EmbedsStep(cs: seq<Candidate>, p: Candidate -> bool, f: seq<Candidate>, o: seq<nat>)
    requires cs != [] && Embeds(cs[..|cs| - 1], p, f, o)
    ensures var n := |cs| - 1;
            if p(cs[n]) then Embeds(cs, p, f + [cs[n]], o + [n]) else Embeds(cs, p, f, o)
  {
    var n := |cs| - 1;
    var front := cs[..n];
    assert forall i :: 0 <= i < n ==> front[i] == cs[i];
    if p(cs[n]) {
      var o' := o + [n];
      forall i | 0 <= i < |cs| && p(cs[i]) ensures i in o' {
        if i < n {
          assert p(front[i]);
          assert i in o;
        } else {
          assert o'[|o|] == i;
        }
      }
    } else {
      forall i | 0 <= i < |cs| && p(cs[i]) ensures i in o {
        assert i < n && p(front[i]);
      }
    }
  }

  function Both(p: Candidate -> bool, q: Candidate -> bool): Candidate -> bool {
    (c: Candidate) => p(c) && q(c)
  }

  /** The first minimum of the filtered list is the first minimum, in configuration order, among the
      candidates that pass the filter. */
  lemma FirstMinThroughFilter(cs: seq<Candidate>, p: Candidate -> bool, q: Candidate -> bool,
                              key: Candidate -> real, k: nat)
    requires FirstMin(Filter(cs, p), q, key, k)
    ensures FirstMin(cs, Both(p, q), key, Origins(cs, p)[k])
    ensures cs[Origins(cs, p)[k]] == Filter(cs, p)[k]
  {
    FilterEmbeds(cs, p);
    var o := Origins(cs, p);
    forall i | 0 <= i < |cs| && Both(p, q)(cs[i])
      ensures key(cs[o[k]]) <= key(cs[i])
      ensures i < o[k] ==> key(cs[o[k]]) < key(cs[i])
    {
      NotBefore(cs, p, q, key, Filter(cs, p), o, k, i);
    }
  }

  lemma NotBefore(cs: seq<Candidate>, p: Candidate -> bool, q: Candidate -> bool, key: Candidate -> real,
                  f: seq<Candidate>, o: seq<nat>, k: nat, i: nat)
    requires Embeds(cs, p, f, o) && FirstMin(f, q, key, k)
    requires i < |cs| && p(cs[i]) && q(cs[i])
    ensures key(f[k]) <= key(cs[i]) && (i < o[k] ==> key(f[k]) < key(cs[i]))
  {
    assert i in o;
    var j :| 0 <= j < |o| && o[j] == i;
    assert f[j] == cs[i];
    assert k < j ==> o[k] < o[j];
  }

  lemma FilterEmpty(cs: seq<Candidate>, p: Candidate -> bool)
    ensures Filter(cs, p) == [] <==> forall i :: 0 <= i < |cs| ==> !p(cs[i])
  {
    FilterEmbeds(cs, p);
    if Filter(cs, p) != [] {
      assert p(cs[Origins(cs, p)[0]]);
    }
  }

  lemma FilterMember(cs: seq<Candidate>, p: Candidate -> bool, k: nat)
    requires k < |Filter(cs, p)|
    ensures Filter(cs, p)[k] in cs && p(Filter(cs, p)[k])
  {
    FilterEmbeds(cs, p);
  }

  // ---- Resolution

  datatype Registry = Registry(models: map<string, string>, aliases: map<string, string>)

  function Canonical(registry: Registry, model: string): string {
    if model in registry.aliases then registry.aliases[model] else model
  }

  /** A configured candidate of a model group. */
  datatype GroupCandidate = GroupCandidate(model: string, costIn: real, costOut: real, priority: int, weight: int)

  datatype Pricing = Pricing(costIn: real, costOut: real)

  datatype Strategy = Priority | Cost | RoundRobinStrategy | Weighted | LatencyStrategy

  function Bind(registry: Registry, c: GroupCandidate): Candidate
    requires c.model in registry.models
  {
    Candidate(registry.models[c.model], c.model, c.costIn, c.costOut, c.priority, c.weight)
  }

  /** The group's candidates that the registry knows, in configuration order. */
  function Expanded(registry: Registry, group: seq<GroupCandidate>): seq<Candidate> {
    if group == [] then []
    else Expanded(registry, group[..|group| - 1]) +
         var c := group[|group| - 1];
         if c.model in registry.models then [Bind(registry, c)] else []
  }

  /** out is the configured candidate c, with the provider registered for its model. */
  ghost predicate Bound(registry: Registry, c: GroupCandidate, out: Candidate) {
    && c.model in registry.models && out.provider == registry.models[c.model] && out.model == c.model
    && out.costIn == c.costIn && out.costOut == c.costOut
    && out.priority == c.priority && out.weight == c.weight
  }

  /** out is made of exactly the registered candidates of the group, those at the indices o, in order. */
  ghost predicate Expands(registry: Registry, group: seq<GroupCandidate>, out: seq<Candidate>, o: seq<nat>) {
    && |o| == |out|
    && (forall k :: 0 <= k < |o| ==> o[k] < |group| && Bound(registry, group[o[k]], out[k]))
    && (forall j, k :: 0 <= j < k < |o| ==> o[j] < o[k])
    && (forall i :: 0 <= i < |group| && group[i].model in registry.models ==> i in o)
  }

  lemma {:induction false} ExpandedIs(registry: Registry, group: seq<GroupCandidate>) returns (o: seq<nat>)
    ensures Expands(registry, group, Expanded(registry, group), o)
  {
    if group == [] {
      o := [];
    } else {
      var n := |group| - 1;
      o := ExpandedIs(registry, group[..n]);
      if group[n].model in registry.models {
        o := o + [n];
        assert o[|o| - 1] == n;
      }
    }
  }

  method ExpandGroup(registry: Registry, group: seq<GroupCandidate>) returns (out: seq<Candidate>)
    ensures out == Expanded(registry, group)
    ensures exists o: seq<nat> :: Expands(registry, group, out, o)
  {
    var o := ExpandedIs(registry, group);
    out := [];
    for i := 0 to |group|
      invariant out == Expanded(registry, group[..i])
    {
      assert group[..i + 1][..i] == group[..i];
      if group[i].model !in registry.models {
        continue;
      }
      out := out + [Bind(registry, group[i])];
    }
    assert group[..|group|] == group;
  }

  datatype Config = Config(
    registry: Registry,
    groups: map<string, seq<GroupCandidate>>,
    pricing: map<string, Pricing>,
    defaultStrategy: Strategy,
    groupStrategies: map<string, Strategy>)

  /** The candidates of a model name: a group first, then a concrete model or alias. */
  function Candidates(cfg: Config, model: string): Option<seq<Candidate>> {
    if model in cfg.groups then Some(Expanded(cfg.registry, cfg.groups[model]))
    else if model !in cfg.registry.models then None
    else
      var canonical := Canonical(cfg.registry, model);
      var price := if canonical in cfg.pricing then cfg.pricing[canonical] else Pricing(0.0, 0.0);
      Some([Candidate(cfg.registry.models[model], canonical, price.costIn, price.costOut, 0, 1)])
  }

  function GroupOf(cfg: Config, model: string): string {
    if model in cfg.groups then model else ""
  }

  function StrategyFor(cfg: Config, group: string): Strategy {
    if group != "" && group in cfg.groupStrategies then cfg.groupStrategies[group] else cfg.defaultStrategy
  }

  // ---- Route

  datatype Decision =
    | UnknownModel
    | NoHealthyProviders
    | Picked(candidate: Candidate, strategy: Strategy, group: string)

  /** What the strategy promises of a pick, over the whole configured list: the earliest minimum among
      the candidates whose breaker is closed. */
  ghost predicate Best(cs: seq<Candidate>, down: set<string>, req: Request, ewmas: map<string, real>,
                       strategy: Strategy, c: Candidate)
  {
    match strategy
    case Priority => exists i :: FirstMin(cs, Both(Up(down), Any), PriorityOf, i) && cs[i] == c
    case Cost =>
      (exists i :: 0 <= i < |cs| && Up(down)(cs[i]) && Priced(cs[i])) ==>
        exists i :: FirstMin(cs, Both(Up(down), Priced), PriceFor(req), i) && cs[i] == c
    case LatencyStrategy =>
      (exists i :: 0 <= i < |cs| && Up(down)(cs[i]) && cs[i].provider in ewmas) ==>
        exists i :: FirstMin(cs, Both(Up(down), Latency.Measured(ewmas)), Latency.AverageOf(ewmas), i) && cs[i] == c
    case Weighted =>
      (exists i :: 0 <= i < |cs| && Up(down)(cs[i]) && cs[i].weight > 0) ==> c.weight > 0
    case RoundRobinStrategy => true
  }

  // ---- The pick, in terms of the configuration

  /** Candidate i of the group is registered and its provider's breaker is closed. */
  ghost predicate Live(registry: Registry, group: seq<GroupCandidate>, down: set<string>, i: int)
    requires 0 <= i < |group|
  {
    group[i].model in registry.models && registry.models[group[i].model] !in down
  }

  ghost predicate HasPrice(c: GroupCandidate) {
    c.costIn != 0.0 || c.costOut != 0.0
  }

  /** What the strategy promises of candidate i of a group: to be the first of the live ones with the least
      priority number, price or average, where there is one to compare; and to have a positive weight
      where one has. */
  ghost predicate BestInGroup(registry: Registry, group: seq<GroupCandidate>, down: set<string>, req: Request,
                              ewmas: map<string, real>, strategy: Strategy, i: nat)
    requires i < |group| && Live(registry, group, down, i)
  {
    match strategy
    case Priority =>
      forall j :: 0 <= j < |group| && Live(registry, group, down, j) ==>
        group[i].priority <= group[j].priority && (j < i ==> group[i].priority < group[j].priority)
    case Cost =>
      (exists j :: 0 <= j < |group| && Live(registry, group, down, j) && HasPrice(group[j])) ==>
        && HasPrice(group[i])
        && forall j :: 0 <= j < |group| && Live(registry, group, down, j) && HasPrice(group[j]) ==>
             && ListPrice(group[i], req) <= ListPrice(group[j], req)
             && (j < i ==> ListPrice(group[i], req) < ListPrice(group[j], req))
    case LatencyStrategy =>
      (exists j :: 0 <= j < |group| && Live(registry, group, down, j) && ProviderOf(registry, group, j) in ewmas) ==>
        && ProviderOf(registry, group, i) in ewmas
        && forall j :: 0 <= j < |group| && Live(registry, group, down, j) && ProviderOf(registry, group, j) in ewmas ==>
             && ewmas[ProviderOf(registry, group, i)] <= ewmas[ProviderOf(registry, group, j)]
             && (j < i ==> ewmas[ProviderOf(registry, group, i)] < ewmas[ProviderOf(registry, group, j)])
    case Weighted =>
      (exists j :: 0 <= j < |group| && Live(registry, group, down, j) && group[j].weight > 0) ==> group[i].weight > 0
    case RoundRobinStrategy => true
  }

  function ListPrice(c: GroupCandidate, req: Request): real {
    PriceOf(c.costIn, c.costOut, req)
  }

  function ProviderOf(registry: Registry, group: seq<GroupCandidate>, j: int): string
    requires 0 <= j < |group| && group[j].model in registry.models
  {
    registry.models[group[j].model]
  }

  /** Where a registered candidate of the group ends up. */
  lemma Where(registry: Registry, group: seq<GroupCandidate>, cs: seq<Candidate>, o: seq<nat>, j: nat) returns (k: nat)
    requires Expands(registry, group, cs, o) && j < |group| && group[j].model in registry.models
    ensures k < |o| && o[k] == j && Bound(registry, group[j], cs[k])
  {
    assert j in o;
    k :| 0 <= k < |o| && o[k] == j;
  }

  /** A first minimum of the expanded list is one of the group. */
  lemma FirstMinInGroup(registry: Registry, group: seq<GroupCandidate>, cs: seq<Candidate>, o: seq<nat>,
                        p: Candidate -> bool, key: Candidate -> real, k: nat, j: nat)
    requires Expands(registry, group, cs, o) && FirstMin(cs, p, key, k)
    requires j < |group| && group[j].model in registry.models
    ensures exists k' :: 0 <= k' < |cs| && Bound(registry, group[j], cs[k']) &&
                         (p(cs[k']) ==> key(cs[k]) <= key(cs[k']) && (j < o[k] ==> key(cs[k]) < key(cs[k'])))
  {
    var k' := Where(registry, group, cs, o, j);
    assert k < k' ==> o[k] < o[k'];
  }

  /** The best of the expanded list is the best of the group. */
  lemma BestOfGroup(registry: Registry, group: seq<GroupCandidate>, cs: seq<Candidate>, o: seq<nat>,
                    down: set<string>, req: Request, ewmas: map<string, real>, strategy: Strategy, c: Candidate)
    returns (i: nat)
    requires Expands(registry, group, cs, o) && c in cs && c.provider !in down
    requires Best(cs, down, req, ewmas, strategy, c)
    ensures i < |group| && Live(registry, group, down, i) && Bound(registry, group[i], c)
    ensures BestInGroup(registry, group, down, req, ewmas, strategy, i)
  {
    hide Best, BestInGroup, Expands;
    match strategy
    case Priority => i := BestPriority(registry, group, cs, o, down, req, ewmas, c);
    case Cost => i := BestCost(registry, group, cs, o, down, req, ewmas, c);
    case LatencyStrategy => i := BestLatency(registry, group, cs, o, down, req, ewmas, c);
    case Weighted => i := BestWeight(registry, group, cs, o, down, req, ewmas, c);
    case RoundRobinStrategy =>
      i := Configured(registry, group, cs, o, down, c);
      AnyTurn(registry, group, down, req, ewmas, i);
  }

  lemma Configured(registry: Registry, group: seq<GroupCandidate>, cs: seq<Candidate>, o: seq<nat>,
                   down: set<string>, c: Candidate)
    returns (i: nat)
    requires Expands(registry, group, cs, o) && c in cs && c.provider !in down
    ensures i < |group| && Live(registry, group, down, i) && Bound(registry, group[i], c)
  {
    var k :| 0 <= k < |cs| && cs[k] == c;
    i := o[k];
  }

  lemma AnyTurn(registry: Registry, group: seq<GroupCandidate>, down: set<string>, req: Request,
                ewmas: map<string, real>, i: nat)
    requires i < |group| && Live(registry, group, down, i)
    ensures BestInGroup(registry, group, down, req, ewmas, RoundRobinStrategy, i)
  {
  }

  lemma BestPriority(registry: Registry, group: seq<GroupCandidate>, cs: seq<Candidate>, o: seq<nat>,
                     down: set<string>, req: Request, ewmas: map<string, real>, c: Candidate)
    returns (i: nat)
    requires Expands(registry, group, cs, o) && c in cs && c.provider !in down
    requires Best(cs, down, req, ewmas, Priority, c)
    ensures i < |group| && Live(registry, group, down, i) && Bound(registry, group[i], c)
    ensures BestInGroup(registry, group, down, req, ewmas, Priority, i)
  {
    var k :| FirstMin(cs, Both(Up(down), Any), PriorityOf, k) && cs[k] == c;
    i := o[k];
    forall j | 0 <= j < |group| && Live(registry, group, down, j)
      ensures group[i].priority <= group[j].priority && (j < i ==> group[i].priority < group[j].priority)
    {
      FirstMinInGroup(registry, group, cs, o, Both(Up(down), Any), PriorityOf, k, j);
    }
  }

  lemma BestCost(registry: Registry, group: seq<GroupCandidate>, cs: seq<Candidate>, o: seq<nat>,
                 down: set<string>, req: Request, ewmas: map<string, real>, c: Candidate)
    returns (i: nat)
    requires Expands(registry, group, cs, o) && c in cs && c.provider !in down
    requires Best(cs, down, req, ewmas, Cost, c)
    ensures i < |group| && Live(registry, group, down, i) && Bound(registry, group[i], c)
    ensures BestInGroup(registry, group, down, req, ewmas, Cost, i)
  {
    hide PriceOf;
    i := Configured(registry, group, cs, o, down, c);
    if j0 :| 0 <= j0 < |group| && Live(registry, group, down, j0) && HasPrice(group[j0]) {
      var k0 := Where(registry, group, cs, o, j0);
      assert Up(down)(cs[k0]) && Priced(cs[k0]);
      var k :| FirstMin(cs, Both(Up(down), Priced), PriceFor(req), k) && cs[k] == c;
      i := o[k];
      forall j | 0 <= j < |group| && Live(registry, group, down, j) && HasPrice(group[j])
        ensures ListPrice(group[i], req) <= ListPrice(group[j], req)
        ensures j < i ==> ListPrice(group[i], req) < ListPrice(group[j], req)
      {
        CheaperInGroup(registry, group, cs, o, down, req, k, j);
      }
    }
  }

  lemma CheaperInGroup(registry: Registry, group: seq<GroupCandidate>, cs: seq<Candidate>, o: seq<nat>,
                       down: set<string>, req: Request, k: nat, j: nat)
    requires Expands(registry, group, cs, o) && FirstMin(cs, Both(Up(down), Priced), PriceFor(req), k)
    requires j < |group| && Live(registry, group, down, j) && HasPrice(group[j])
    ensures ListPrice(group[o[k]], req) <= ListPrice(group[j], req)
    ensures j < o[k] ==> ListPrice(group[o[k]], req) < ListPrice(group[j], req)
  {
    hide PriceOf;
    FirstMinInGroup(registry, group, cs, o, Both(Up(down), Priced), PriceFor(req), k, j);
  }

  lemma BestLatency(registry: Registry, group: seq<GroupCandidate>, cs: seq<Candidate>, o: seq<nat>,
                    down: set<string>, req: Request, ewmas: map<string, real>, c: Candidate)
    returns (i: nat)
    requires Expands(registry, group, cs, o) && c in cs && c.provider !in down
    requires Best(cs, down, req, ewmas, LatencyStrategy, c)
    ensures i < |group| && Live(registry, group, down, i) && Bound(registry, group[i], c)
    ensures BestInGroup(registry, group, down, req, ewmas, LatencyStrategy, i)
  {
    i := Configured(registry, group, cs, o, down, c);
    var p, key := Both(Up(down), Latency.Measured(ewmas)), Latency.AverageOf(ewmas);
    if j0 :| 0 <= j0 < |group| && Live(registry, group, down, j0) && ProviderOf(registry, group, j0) in ewmas {
      var k0 := Where(registry, group, cs, o, j0);
      assert Up(down)(cs[k0]) && cs[k0].provider in ewmas;
      var k :| FirstMin(cs, p, key, k) && cs[k] == c;
      i := o[k];
      forall j | 0 <= j < |group| && Live(registry, group, down, j) && ProviderOf(registry, group, j) in ewmas
        ensures ewmas[ProviderOf(registry, group, i)] <= ewmas[ProviderOf(registry, group, j)]
        ensures j < i ==> ewmas[ProviderOf(registry, group, i)] < ewmas[ProviderOf(registry, group, j)]
      {
        FasterInGroup(registry, group, cs, o, down, ewmas, k, j);
      }
    }
  }

  lemma FasterInGroup(registry: Registry, group: seq<GroupCandidate>, cs: seq<Candidate>, o: seq<nat>,
                      down: set<string>, ewmas: map<string, real>, k: nat, j: nat)
    requires Expands(registry, group, cs, o)
    requires FirstMin(cs, Both(Up(down), Latency.Measured(ewmas)), Latency.AverageOf(ewmas), k)
    requires j < |group| && Live(registry, group, down, j) && ProviderOf(registry, group, j) in ewmas
    ensures var i := o[k];
            && ProviderOf(registry, group, i) in ewmas
            && ewmas[ProviderOf(registry, group, i)] <= ewmas[ProviderOf(registry, group, j)]
            && (j < i ==> ewmas[ProviderOf(registry, group, i)] < ewmas[ProviderOf(registry, group, j)])
  {
    FirstMinInGroup(registry, group, cs, o, Both(Up(down), Latency.Measured(ewmas)), Latency.AverageOf(ewmas), k, j);
  }

  lemma BestWeight(registry: Registry, group: seq<GroupCandidate>, cs: seq<Candidate>, o: seq<nat>,
                   down: set<string>, req: Request, ewmas: map<string, real>, c: Candidate)
    returns (i: nat)
    requires Expands(registry, group, cs, o) && c in cs && c.provider !in down
    requires Best(cs, down, req, ewmas, Weighted, c)
    ensures i < |group| && Live(registry, group, down, i) && Bound(registry, group[i], c)
    ensures BestInGroup(registry, group, down, req, ewmas, Weighted, i)
  {
    i := Configured(registry, group, cs, o, down, c);
    if j0 :| 0 <= j0 < |group| && Live(registry, group, down, j0) && group[j0].weight > 0 {
      var k0 := Where(registry, group, cs, o, j0);
      assert Up(down)(cs[k0]) && cs[k0].weight > 0;
    }
  }

  /** What a decision means, in terms of the configuration and the breakers. */
  ghost predicate Routed(cfg: Config, req: Request, down: set<string>, ewmas: map<string, real>, d: Decision) {
    match d
    case UnknownModel => req.model !in cfg.groups && req.model !in cfg.registry.models
    case NoHealthyProviders =>
      if req.model in cfg.groups then
        var group := cfg.groups[req.model];
        forall i :: 0 <= i < |group| ==> !Live(cfg.registry, group, down, i)
      else
        req.model in cfg.registry.models && cfg.registry.models[req.model] in down
    case Picked(c, strategy, group) =>
      if req.model in cfg.groups then
        && group == req.model
        && strategy == (if group != "" && group in cfg.groupStrategies then cfg.groupStrategies[group]
                        else cfg.defaultStrategy)
        && exists i :: PickedAt(cfg.registry, cfg.groups[req.model], down, req, ewmas, strategy, c, i)
      else
        group == "" && strategy == cfg.defaultStrategy && IsConcrete(cfg, req.model, c) && c.provider !in down
  }

  ghost predicate PickedAt(registry: Registry, group: seq<GroupCandidate>, down: set<string>, req: Request,
                           ewmas: map<string, real>, strategy: Strategy, c: Candidate, i: int)
  {
    && 0 <= i < |group| && Live(registry, group, down, i) && Bound(registry, group[i], c)
    && BestInGroup(registry, group, down, req, ewmas, strategy, i)
  }

  /** The one candidate of a model that is no group: its provider, its name behind an alias, its listed price
      if it has one, and neither priority nor a weight but one. */
  ghost predicate IsConcrete(cfg: Config, model: string, c: Candidate) {
    var name := if model in cfg.registry.aliases then cfg.registry.aliases[model] else model;
    && model in cfg.registry.models && c.provider == cfg.registry.models[model] && c.model == name
    && (name in cfg.pricing ==> c.costIn == cfg.pricing[name].costIn && c.costOut == cfg.pricing[name].costOut)
    && (name !in cfg.pricing ==> c.costIn == 0.0 && c.costOut == 0.0)
    && c.priority == 0 && c.weight == 1
  }

  lemma RoutedUnknown(cfg: Config, req: Request, down: set<string>, ewmas: map<string, real>)
    ensures Candidates(cfg, req.model).None? ==> Routed(cfg, req, down, ewmas, UnknownModel)
  {
  }

  lemma NoneLive(cfg: Config, req: Request, down: set<string>, ewmas: map<string, real>, cs: seq<Candidate>)
    requires Candidates(cfg, req.model) == Some(cs)
    requires forall i :: 0 <= i < |cs| ==> cs[i].provider in down
    ensures Routed(cfg, req, down, ewmas, NoHealthyProviders)
  {
    if req.model in cfg.groups {
      var group := cfg.groups[req.model];
      var o := ExpandedIs(cfg.registry, group);
      forall i | 0 <= i < |group| ensures !Live(cfg.registry, group, down, i) {
        if group[i].model in cfg.registry.models {
          var k := Where(cfg.registry, group, cs, o, i);
        }
      }
    } else {
      assert cs[0].provider in down;
    }
  }

  lemma PickIsRouted(cfg: Config, req: Request, down: set<string>, ewmas: map<string, real>, cs: seq<Candidate>,
                     c: Candidate, strategy: Strategy, group: string)
    requires Candidates(cfg, req.model) == Some(cs) && c in cs && c.provider !in down
    requires Best(cs, down, req, ewmas, strategy, c)
    requires group == (if req.model in cfg.groups then req.model else "")
    requires strategy == (if group != "" && group in cfg.groupStrategies then cfg.groupStrategies[group]
                          else cfg.defaultStrategy)
    ensures Routed(cfg, req, down, ewmas, Picked(c, strategy, group))
  {
    hide Best, BestInGroup;
    if req.model in cfg.groups {
      var o := ExpandedIs(cfg.registry, cfg.groups[req.model]);
      var i := BestOfGroup(cfg.registry, cfg.groups[req.model], cs, o, down, req, ewmas, strategy, c);
      assert PickedAt(cfg.registry, cfg.groups[req.model], down, req, ewmas, strategy, c, i);
    }
  }

  /** The round-robin counters behind the strategies, as they stood before the request. */
  datatype Rotation = Rotation(roundRobin: map<string, nat>, cost: map<string, nat>, latency: map<string, nat>)

  /** How the strategy picks index k of the healthy candidates f. */
  ghost predicate Ranked(f: seq<Candidate>, req: Request, ewmas: map<string, real>, turn: Rotation,
                         strategy: Strategy, group: string, random: real, k: nat)
  {
    && k < |f|
    && match strategy
       case Priority => FirstMin(f, Any, PriorityOf, k)
       case Cost =>
         if exists i :: 0 <= i < |f| && Priced(f[i])
         then FirstMin(f, Priced, PriceFor(req), k)
         else k == CounterOf(turn.cost, group) % |f|
       case RoundRobinStrategy => k == CounterOf(turn.roundRobin, group) % |f|
       case Weighted => Chosen(f, random, k)
       case LatencyStrategy =>
         if exists i :: 0 <= i < |f| && f[i].provider in ewmas
         then FirstMin(f, Latency.Measured(ewmas), Latency.AverageOf(ewmas), k)
         else k == CounterOf(turn.latency, group) % |f|
  }

  class Router {
    const cfg: Config
    const roundRobin: RoundRobin
    const costFallback: RoundRobin
    const latency: Latency.LatencyOptimized

    ghost predicate Valid()
      reads roundRobin, costFallback, latency, latency.fallback
    {
      roundRobin.Valid() && costFallback.Valid() && latency.Valid()
    }

    ghost function Turn(): Rotation
      reads roundRobin, costFallback, latency.fallback
    {
      Rotation(roundRobin.counters, costFallback.counters, latency.fallback.counters)
    }

    constructor (cfg: Config, roundRobin: RoundRobin, costFallback: RoundRobin, latency: Latency.LatencyOptimized)
      ensures this.cfg == cfg && this.roundRobin == roundRobin
      ensures this.costFallback == costFallback && this.latency == latency
    {
      this.cfg, this.roundRobin, this.costFallback, this.latency := cfg, roundRobin, costFallback, latency;
    }

    /** The strategy's pick from a list that is not empty. */
    method Pick(cs: seq<Candidate>, req: Request, strategy: Strategy, group: string, random: real) returns (k: nat)
      requires Valid() && cs != [] && 0.0 <= random <= 1.0
      modifies roundRobin, costFallback, latency.fallback
      ensures Valid()
      ensures Ranked(cs, req, latency.ewmas, old(Turn()), strategy, group, random, k)
    {
      var r: Option<nat>;
      match strategy {
        case Priority => r := SelectPriority(cs);
        case Cost => r := SelectCost(cs, req, group, costFallback);
        case RoundRobinStrategy => r := roundRobin.Select(cs, group);
        case Weighted => r := SelectWeighted(cs, random);
        case LatencyStrategy => r := latency.Select(cs, group);
      }
      k := r.value;
    }

    /** Route fails with UnknownModel exactly for a name that is neither group nor registered, and with
        NoHealthyProviders exactly when no resolved candidate's breaker is closed; otherwise the pick is
        the one the strategy makes among the resolved candidates whose breaker is closed, and the
        best of them in configuration order. */
    method Route(req: Request, health: map<string, Health.ProviderHealth>, now: int, random: real) returns (d: Decision)
      requires Valid() && AllValid(health) && 0.0 <= random <= 1.0
      modifies roundRobin, costFallback, latency.fallback
      ensures Valid()
      ensures Routed(cfg, req, old(Down(health, now)), latency.ewmas, d)
      ensures d.UnknownModel? <==> Candidates(cfg, req.model).None?
      ensures d.NoHealthyProviders? <==>
                var cs := Candidates(cfg, req.model);
                cs.Some? && forall i :: 0 <= i < |cs.value| ==> cs.value[i].provider in old(Down(health, now))
      ensures d.Picked? ==>
                var cs, down := Candidates(cfg, req.model).value, old(Down(health, now));
                && d.candidate in cs && d.candidate.provider !in down
                && d.group == GroupOf(cfg, req.model) && d.strategy == StrategyFor(cfg, d.group)
                && Best(cs, down, req, latency.ewmas, d.strategy, d.candidate)
                && var f := Filter(cs, Up(down));
                   exists k: nat ::
                     && Ranked(f, req, latency.ewmas, old(Turn()), d.strategy, d.group, random, k)
                     && f[k] == d.candidate
    {
      hide Routed, Best;
      RoutedUnknown(cfg, req, Down(health, now), latency.ewmas);
      var group := "";
      var candidates: seq<Candidate>;
      if req.model in cfg.groups {
        group := req.model;
        candidates := ExpandGroup(cfg.registry, cfg.groups[req.model]);
      } else {
        if req.model !in cfg.registry.models {
          return UnknownModel;
        }
        candidates := Candidates(cfg, req.model).value;
      }
      ghost var down := Down(health, now);
      var healthy := Healthy(candidates, health, now);
      FilterEmpty(candidates, Up(down));
      if |healthy| == 0 {
        NoneLive(cfg, req, down, latency.ewmas, candidates);
        return NoHealthyProviders;
      }
      var strategy := cfg.defaultStrategy;
      if group != "" && group in cfg.groupStrategies {
        strategy := cfg.groupStrategies[group];
      }
      var k := Pick(healthy, req, strategy, group, random);
      FilterMember(candidates, Up(down), k);
      BestThroughFilter(candidates, down, req, latency.ewmas, old(Turn()), strategy, group, random, k);
      PickIsRouted(cfg, req, down, latency.ewmas, candidates, healthy[k], strategy, group);
      d := Picked(healthy[k], strategy, group);
    }
  }

  /** The candidate slice, filtered in its own backing array. */
  method Healthy(candidates: seq<Candidate>, health: map<string, Health.ProviderHealth>, now: int)
    returns (healthy: seq<Candidate>)
    requires AllValid(health)
    ensures healthy == Filter(candidates, Up(old(Down(health, now))))
  {
    var a := new Candidate[|candidates|](i requires 0 <= i < |candidates| => candidates[i]);
    assert a[..] == candidates;
    var n := FilterHealthy(a, health, now);
    healthy := a[..n];
  }

  /** A pick that is best in the filtered list is best among the healthy candidates of the whole list. */
  lemma BestThroughFilter(cs: seq<Candidate>, down: set<string>, req: Request, ewmas: map<string, real>,
                          turn: Rotation, strategy: Strategy, group: string, random: real, k: nat)
    requires Ranked(Filter(cs, Up(down)), req, ewmas, turn, strategy, group, random, k)
    ensures Best(cs, down, req, ewmas, strategy, Filter(cs, Up(down))[k])
  {
    var up := Up(down);
    var f := Filter(cs, up);
    match strategy
    case Priority =>
      FirstMinThroughFilter(cs, up, Any, PriorityOf, k);
    case Cost =>
      if i :| 0 <= i < |cs| && up(cs[i]) && Priced(cs[i]) {
        var j := Kept(cs, up, i);
        FirstMinThroughFilter(cs, up, Priced, PriceFor(req), k);
      }
    case LatencyStrategy =>
      if i :| 0 <= i < |cs| && up(cs[i]) && cs[i].provider in ewmas {
        var j := Kept(cs, up, i);
        FirstMinThroughFilter(cs, up, Latency.Measured(ewmas), Latency.AverageOf(ewmas), k);
      }
    case Weighted =>
      if i :| 0 <= i < |cs| && up(cs[i]) && cs[i].weight > 0 {
        var j := Kept(cs, up, i);
        CumulativeMono(f, j + 1, |f|);
      }
    case RoundRobinStrategy =>
  }

  /** Where a candidate that passes ends up. */
  lemma Kept(cs: seq<Candidate>, p: Candidate -> bool, i: nat) returns (j: nat)
    requires i < |cs| && p(cs[i])
    ensures j < |Filter(cs, p)| && Filter(cs, p)[j] == cs[i]
  {
    FilterEmbeds(cs, p);
    var o := Origins(cs, p);
    assert i in o;
    j :| 0 <= j < |o| && o[j] == i;
  }
}
