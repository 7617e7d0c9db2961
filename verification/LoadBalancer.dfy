/** Routing requests to healthy nodes by five strategies, with backups and routing statistics. */
module LoadBalancer {
  import opened RoundRobin
  import opened Wrappers

  type NodeId = string

  datatype Location = Location(datacenter: string, region: string, zone: string, latencyTier: nat)

  datatype NodeWeight = NodeWeight(
    id: NodeId, weight: real, connections: nat, responseTime: real, isHealthy: bool, location: Option<Location>)

  datatype Strategy = RoundRobin | WeightedRoundRobin | LeastConnections | LoadBased | LocationAware

  datatype Route = Route(target: NodeId, backups: seq<NodeId>)

  datatype Error = InvalidParameter | NodeAlreadyExists | NodeNotFound | NoHealthyNodes

  datatype Outcome<T> = Done(value: T) | Refused(error: Error)

  // The characters Unicode counts as white space.
  predicate White(c: char) {
    || '\U{9}' <= c <= '\U{D}'
    || c in {' ', '\U{85}', '\U{A0}', '\U{1680}', '\U{2028}', '\U{2029}', '\U{202F}', '\U{205F}', '\U{3000}'}
    || '\U{2000}' <= c <= '\U{200A}'
  }

  predicate Blank(s: string) { forall c :: c in s ==> White(c) }

  predicate ValidLocation(l: Location) { !Blank(l.datacenter) && !Blank(l.region) && 1 <= l.latencyTier <= 5 }

  predicate Usable(n: NodeWeight) { n.isHealthy && n.weight > 0.0 }

  ghost predicate DistinctIds(nodes: seq<NodeWeight>) {
    forall i, j :: 0 <= i < j < |nodes| ==> nodes[i].id != nodes[j].id
  }

  // Weights lie between 0 and 1, response times are no less than 0 and latency tiers run from 1 to 5.
  ghost predicate Plausible(n: NodeWeight) {
    0.0 <= n.weight <= 1.0 && n.responseTime >= 0.0 && (n.location.Some? ==> 1 <= n.location.value.latencyTier <= 5)
  }

  function Filter(nodes: seq<NodeWeight>, keep: NodeWeight -> bool): (kept: seq<NodeWeight>)
    ensures |kept| <= |nodes|
    ensures forall n :: n in kept <==> n in nodes && keep(n)
  {
    if nodes == [] then []
    else (if keep(nodes[0]) then [nodes[0]] else []) + Filter(nodes[1..], keep)
  }

  lemma {:induction false} FilterDistinct(nodes: seq<NodeWeight>, keep: NodeWeight -> bool)
    requires DistinctIds(nodes)
    ensures DistinctIds(Filter(nodes, keep))
  {
    if nodes != [] {
      FilterDistinct(nodes[1..], keep);
      var rest := Filter(nodes[1..], keep);
      forall j | 0 <= j < |rest|
        ensures rest[j].id != nodes[0].id
      {
        assert rest[j] in nodes[1..];
      }
    }
  }

  // ---------- Scores ----------

  function ConnectionScore(connections: nat): (score: real)
    ensures 0.0 < score <= 1.0
  {
    var load := 1.0 + connections as real * 0.1;
    assert 1.0 / load * load == 1.0;
    1.0 / load
  }

  function TimeScore(responseTime: real): (score: real)
    requires responseTime >= 0.0
    ensures 0.0 < score <= 10.0
  {
    var divisor := responseTime + 100.0;
    assert 1000.0 / divisor * divisor == 1000.0;
    1000.0 / divisor
  }

  function NodeScore(n: NodeWeight): real
    requires Plausible(n)
  {
    if !n.isHealthy then 0.0
    else n.weight * 0.5 + ConnectionScore(n.connections) * 0.3 + TimeScore(n.responseTime) * 0.2
  }

  // A healthy node that is no lighter, no busier and no slower than another scores no less.
  lemma BetterNodeScoresMore(a: NodeWeight, b: NodeWeight)
    requires Plausible(a) && Plausible(b) && a.isHealthy
    requires a.weight >= b.weight && a.connections <= b.connections && a.responseTime <= b.responseTime
    ensures NodeScore(a) >= NodeScore(b)
  {
    Smaller(1.0, 1.0 + a.connections as real * 0.1, 1.0 + b.connections as real * 0.1);
    Smaller(1000.0, a.responseTime + 100.0, b.responseTime + 100.0);
  }

  // Of two healthy nodes one scores more exactly when half its weight, 3 over 10 and its connections, and
  // 200 over 100 and its response time make more together.
  lemma BeatsIff(a: NodeWeight, b: NodeWeight)
    requires Plausible(a) && Plausible(b) && a.isHealthy && b.isHealthy
    ensures NodeScore(a) > NodeScore(b) <==>
            a.weight / 2.0 + 3.0 / (10 + a.connections) as real + 200.0 / (100.0 + a.responseTime) >
            b.weight / 2.0 + 3.0 / (10 + b.connections) as real + 200.0 / (100.0 + b.responseTime)
  {
    ScoreParts(a);
    ScoreParts(b);
  }

  lemma ScoreParts(n: NodeWeight)
    requires Plausible(n) && n.isHealthy
    ensures NodeScore(n) == n.weight / 2.0 + 3.0 / (10 + n.connections) as real + 200.0 / (100.0 + n.responseTime)
  {
    SameQuotient(1.0, 1.0 + n.connections as real * 0.1, 3.0, (10 + n.connections) as real, 0.3);
    SameQuotient(1000.0, n.responseTime + 100.0, 200.0, 100.0 + n.responseTime, 0.2);
  }

  lemma SameQuotient(x: real, d: real, y: real, e: real, factor: real)
    requires d > 0.0 && e > 0.0 && x * e * factor == y * d
    ensures x / d * factor == y / e
  {
    var p, q := x / d, y / e;
    assert p * d == x && q * e == y;
    assert p * factor * (d * e) == x * e * factor && q * (d * e) == y * d;
    var product := d * e;
    assert product > 0.0 && (p * factor - q) * product == 0.0;
    assert (p * factor - q) * product / product == p * factor - q;
  }

  // One node scores more than any unhealthy one exactly when it is healthy.
  lemma OnlyHealthyScores(a: NodeWeight, b: NodeWeight)
    requires Plausible(a) && Plausible(b) && !b.isHealthy
    ensures NodeScore(a) > NodeScore(b) <==> a.isHealthy
  {
  }

  lemma Smaller(x: real, y: real, z: real)
    requires x > 0.0 && 0.0 < y <= z
    ensures x / z <= x / y
  {
    var p, q := x / y, x / z;
    assert p * y == x && q * z == x;
    assert q > 0.0;
    assert q * (z - y) >= 0.0;
    assert (p - q) * y == q * (z - y);
  }

  function Clamp(x: real, low: real, high: real): real { if x < low then low else if x > high then high else x }

  // The weight a health report gives: less for slower answers, none to an unhealthy node.
  function WeightFor(isHealthy: bool, responseTime: real): (weight: real)
    requires responseTime >= 0.0
    ensures 0.0 <= weight <= 1.0 && (weight > 0.0 <==> isHealthy)
  {
    if isHealthy then Clamp(if TimeScore(responseTime) > 2.0 then 2.0 else TimeScore(responseTime), 0.1, 1.0) else 0.0
  }

  // The whole weight up to 900 ms, a tenth from 9900 ms on, and 1000 over 100 and the response time between.
  lemma WeightByTime(responseTime: real)
    requires responseTime >= 0.0
    ensures WeightFor(true, responseTime) == 1.0 <==> responseTime <= 900.0
    ensures WeightFor(true, responseTime) == 0.1 <==> responseTime >= 9900.0
    ensures 900.0 <= responseTime <= 9900.0 ==> WeightFor(true, responseTime) * (responseTime + 100.0) == 1000.0
  {
    var t, score := responseTime + 100.0, TimeScore(responseTime);
    assert score * t == 1000.0;
    Above(score, t, 1.0);
    Above(score, t, 0.1);
  }

  lemma Above(score: real, t: real, limit: real)
    requires t > 0.0 && score * t == 1000.0
    ensures score >= limit <==> 1000.0 >= limit * t
    ensures score == limit <==> 1000.0 == limit * t
  {
    if score > limit {
      assert (score - limit) * t > 0.0;
    } else if score < limit {
      assert (limit - score) * t > 0.0;
    }
  }

  lemma FasterWeighsMore(fast: real, slow: real)
    requires 0.0 <= fast <= slow
    ensures WeightFor(true, fast) >= WeightFor(true, slow)
  {
    var p, q := TimeScore(fast), TimeScore(slow);
    assert p * (fast + 100.0) == 1000.0 && q * (slow + 100.0) == 1000.0;
    assert q * (slow - fast) >= 0.0;
    assert q * (slow + 100.0) == q * (slow - fast) + q * (fast + 100.0);
    assert (p - q) * (fast + 100.0) >= 0.0;
    assert p >= q;
  }

  // ---------- What each strategy promises ----------

  function TotalWeight(nodes: seq<NodeWeight>): real {
    if nodes == [] then 0.0 else TotalWeight(nodes[..|nodes| - 1]) + nodes[|nodes| - 1].weight
  }

  ghost predicate Heaviest(nodes: seq<NodeWeight>, i: nat)
    requires forall n :: n in nodes ==> Plausible(n)
  {
    && i < |nodes|
    && (forall j :: 0 <= j < |nodes| ==> NodeScore(nodes[j]) <= NodeScore(nodes[i]))
    && (forall j :: i < j < |nodes| ==> NodeScore(nodes[j]) < NodeScore(nodes[i]))
  }

  ghost predicate LeastBusy(nodes: seq<NodeWeight>, i: nat) {
    && i < |nodes|
    && (forall j :: 0 <= j < |nodes| ==> nodes[i].connections <= nodes[j].connections)
    && (forall j :: 0 <= j < i ==> nodes[i].connections < nodes[j].connections)
  }

  // A random number below 1 stands for a point of the total weight.
  lemma DrawWithin(random: real, total: real, draw: real)
    requires 0.0 <= random < 1.0 && total > 0.0 && draw == random * total
    ensures 0.0 <= draw < total
  {
    var rest := 1.0 - random;
    assert rest * total > 0.0;
    assert total == (rest + random) * total == rest * total + random * total;
  }

  // The draw falls into the node's own part of the total weight.
  ghost predicate Drawn(nodes: seq<NodeWeight>, draw: real, i: nat) {
    && i < |nodes|
    && (i == 0 || TotalWeight(nodes[..i]) < draw)
    && draw <= TotalWeight(nodes[..i + 1])
  }

  function InDatacenter(nodes: seq<NodeWeight>, datacenter: string): seq<NodeWeight> {
    Filter(nodes, (n: NodeWeight) => n.location.Some? && n.location.value.datacenter == datacenter)
  }

  // No node has a better latency tier than the best of this data centre.
  ghost predicate Nearest(nodes: seq<NodeWeight>, datacenter: string) {
    exists n :: n in InDatacenter(nodes, datacenter) &&
      forall m :: m in nodes && m.location.Some? ==> n.location.value.latencyTier <= m.location.value.latencyTier
  }

  ghost predicate BestNearby(nodes: seq<NodeWeight>, target: NodeWeight)
    requires forall n :: n in nodes ==> Plausible(n)
  {
    if forall n :: n in nodes ==> n.location.None? then IsHeaviest(nodes, target)
    else
      && target.location.Some?
      && Nearest(nodes, target.location.value.datacenter)
      && IsHeaviest(InDatacenter(nodes, target.location.value.datacenter), target)
  }

  ghost predicate IsHeaviest(nodes: seq<NodeWeight>, target: NodeWeight)
    requires forall n :: n in nodes ==> Plausible(n)
  {
    exists i :: 0 <= i < |nodes| && nodes[i] == target && Heaviest(nodes, i)
  }

  ghost predicate Chosen(strategy: Strategy, nodes: seq<NodeWeight>, counter: nat, random: real, target: NodeWeight)
    requires nodes != [] && (forall n :: n in nodes ==> Plausible(n)) && 0.0 <= random < 1.0
  {
    match strategy
    case RoundRobin => target == nodes[Slot(|nodes|, counter)]
    case WeightedRoundRobin =>
      exists i :: 0 <= i < |nodes| && target == nodes[i] && Drawn(nodes, random * TotalWeight(nodes), i)
    case LeastConnections => exists i :: 0 <= i < |nodes| && target == nodes[i] && LeastBusy(nodes, i)
    case LoadBased => IsHeaviest(nodes, target)
    case LocationAware => BestNearby(nodes, target)
  }

  // ---------- The selections ----------

  method SelectLoadBased(nodes: seq<NodeWeight>) returns (target: NodeWeight)
    requires nodes != [] && forall n :: n in nodes ==> Plausible(n)
    ensures IsHeaviest(nodes, target)
  {
    var best := 0;
    for j := 1 to |nodes|
      invariant 0 <= best < j
      invariant forall k :: 0 <= k < j ==> NodeScore(nodes[k]) <= NodeScore(nodes[best])
      invariant forall k :: best < k < j ==> NodeScore(nodes[k]) < NodeScore(nodes[best])
    {
      if NodeScore(nodes[j]) >= NodeScore(nodes[best]) {
        best := j;
      }
    }
    assert Heaviest(nodes, best);
    target := nodes[best];
  }

  method SelectLeastConnections(nodes: seq<NodeWeight>) returns (i: nat)
    requires nodes != []
    ensures LeastBusy(nodes, i)
  {
    i := 0;
    for j := 1 to |nodes|
      invariant 0 <= i < j
      invariant forall k :: 0 <= k < j ==> nodes[i].connections <= nodes[k].connections
      invariant forall k :: 0 <= k < i ==> nodes[i].connections < nodes[k].connections
    {
      if nodes[j].connections < nodes[i].connections {
        i := j;
      }
    }
  }

  lemma TotalWeightNext(nodes: seq<NodeWeight>, i: nat)
    requires i < |nodes|
    ensures TotalWeight(nodes[..i + 1]) == TotalWeight(nodes[..i]) + nodes[i].weight
  {
    assert nodes[..i + 1][..i] == nodes[..i];
  }

  lemma {:induction false} TotalWeightPositive(nodes: seq<NodeWeight>)
    requires nodes != [] && forall n :: n in nodes ==> n.weight > 0.0
    ensures TotalWeight(nodes) > 0.0
  {
    if |nodes| > 1 {
      TotalWeightPositive(nodes[..|nodes| - 1]);
    } else {
      assert TotalWeight(nodes[..0]) == 0.0;
    }
  }

  method SumWeights(nodes: seq<NodeWeight>) returns (total: real)
    ensures total == TotalWeight(nodes)
  {
    total := 0.0;
    for i := 0 to |nodes|
      invariant total == TotalWeight(nodes[..i])
    {
      TotalWeightNext(nodes, i);
      total := total + nodes[i].weight;
    }
    assert nodes[..|nodes|] == nodes;
  }

  // A draw below the total always ends at some node, so the fallback to the first is never taken.
  method FindDrawn(nodes: seq<NodeWeight>, draw: real) returns (i: nat)
    requires nodes != [] && draw < TotalWeight(nodes)
    ensures Drawn(nodes, draw, i)
  {
    assert nodes[..|nodes|] == nodes;
    var left := draw;
    i := 0;
    while i < |nodes|
      invariant 0 <= i <= |nodes| && left == draw - TotalWeight(nodes[..i])
      invariant i == 0 || left > 0.0
    {
      TotalWeightNext(nodes, i);
      left := left - nodes[i].weight;
      if left <= 0.0 {
        return;
      }
      i := i + 1;
    }
    assert false;
  }

  method SelectWeighted(nodes: seq<NodeWeight>, random: real) returns (i: nat)
    requires nodes != [] && (forall n :: n in nodes ==> n.weight > 0.0) && 0.0 <= random < 1.0
    ensures Drawn(nodes, random * TotalWeight(nodes), i)
  {
    var total := SumWeights(nodes);
    TotalWeightPositive(nodes);
    var draw := random * total;
    DrawWithin(random, total, draw);
    i := FindDrawn(nodes, draw);
  }

  function BestTier(nodes: seq<NodeWeight>): nat {
    if nodes == [] then 5
    else
      var rest := BestTier(nodes[1..]);
      if nodes[0].location.Some? && nodes[0].location.value.latencyTier < rest
      then nodes[0].location.value.latencyTier
      else rest
  }

  lemma {:induction false} BestTierIsBest(nodes: seq<NodeWeight>)
    requires nodes != [] && forall n :: n in nodes ==> n.location.Some? && n.location.value.latencyTier <= 5
    ensures forall n :: n in nodes ==> BestTier(nodes) <= n.location.value.latencyTier
    ensures exists n :: n in nodes && n.location.value.latencyTier == BestTier(nodes)
  {
    if |nodes| > 1 {
      BestTierIsBest(nodes[1..]);
      var n :| n in nodes[1..] && n.location.value.latencyTier == BestTier(nodes[1..]);
      assert n in nodes && nodes[0] in nodes;
      assert nodes == [nodes[0]] + nodes[1..];
    } else {
      assert nodes == [nodes[0]] && nodes[0] in nodes;
      assert BestTier(nodes[1..]) == 5;
    }
  }

  method DatacentersOf(nodes: seq<NodeWeight>) returns (datacenters: set<string>)
    ensures forall n :: n in nodes && n.location.Some? ==> n.location.value.datacenter in datacenters
    ensures forall dc :: dc in datacenters ==> InDatacenter(nodes, dc) != []
  {
    datacenters := {};
    for i := 0 to |nodes|
      invariant forall j :: 0 <= j < i && nodes[j].location.Some? ==> nodes[j].location.value.datacenter in datacenters
      invariant forall dc :: dc in datacenters ==> InDatacenter(nodes, dc) != []
    {
      if nodes[i].location.Some? {
        var dc := nodes[i].location.value.datacenter;
        datacenters := datacenters + {dc};
        assert nodes[i] in InDatacenter(nodes, dc);
      }
    }
  }

  // The best node of a data centre with the best latency tier, the centres taken in any order.
  method SelectLocationAware(nodes: seq<NodeWeight>) returns (target: NodeWeight)
    requires nodes != [] && forall n :: n in nodes ==> Plausible(n)
    ensures BestNearby(nodes, target)
  {
    var datacenters := DatacentersOf(nodes);
    if datacenters == {} {
      target := SelectLoadBased(nodes);
      return;
    }
    var best :| best in datacenters;
    var rest := datacenters - {best};
    while rest != {}
      invariant best in datacenters && rest <= datacenters
      invariant forall dc :: dc in datacenters - rest ==>
                  BestTier(InDatacenter(nodes, best)) <= BestTier(InDatacenter(nodes, dc))
    {
      var dc :| dc in rest;
      rest := rest - {dc};
      if BestTier(InDatacenter(nodes, dc)) < BestTier(InDatacenter(nodes, best)) {
        best := dc;
      }
    }
    target := SelectLoadBased(InDatacenter(nodes, best));
    assert target in InDatacenter(nodes, best);
    BestIsNearest(nodes, best, datacenters);
  }

  lemma BestIsNearest(nodes: seq<NodeWeight>, best: string, datacenters: set<string>)
    requires forall n :: n in nodes ==> Plausible(n)
    requires forall n :: n in nodes && n.location.Some? ==> n.location.value.datacenter in datacenters
    requires best in datacenters && InDatacenter(nodes, best) != []
    requires forall dc :: dc in datacenters ==> BestTier(InDatacenter(nodes, best)) <= BestTier(InDatacenter(nodes, dc))
    ensures Nearest(nodes, best)
  {
    BestTierIsBest(InDatacenter(nodes, best));
    var n :| n in InDatacenter(nodes, best) && n.location.value.latencyTier == BestTier(InDatacenter(nodes, best));
    forall m | m in nodes && m.location.Some?
      ensures n.location.value.latencyTier <= m.location.value.latencyTier
    {
      var dc := m.location.value.datacenter;
      assert m in InDatacenter(nodes, dc);
      BestTierIsBest(InDatacenter(nodes, dc));
    }
  }

  // ---------- Consecutive round-robin requests ----------

  // The targets of the next `m` requests while the healthy nodes stay the same.
  function Targets(healthy: seq<NodeWeight>, counter: nat, m: nat): seq<NodeId>
    requires healthy != []
    decreases m
  {
    if m == 0 then []
    else [healthy[Slot(|healthy|, counter)].id] + Targets(healthy, Advance(|healthy|, counter), m - 1)
  }

  lemma {:induction false} TargetsCount(healthy: seq<NodeWeight>, counter: nat, m: nat, k: nat)
    requires DistinctIds(healthy) && k < |healthy|
    ensures multiset(Targets(healthy, counter, m))[healthy[k].id] == Share(|healthy|, counter, m, k)
    decreases m
  {
    if m > 0 {
      var slot, rest := Slot(|healthy|, counter), Targets(healthy, Advance(|healthy|, counter), m - 1);
      TargetsCount(healthy, Advance(|healthy|, counter), m - 1, k);
      assert multiset([healthy[slot].id] + rest) == multiset{healthy[slot].id} + multiset(rest);
    }
  }

  // Each of n nodes gets m / n of m consecutive requests, rounded down or up.
  lemma RoundRobinIsFair(healthy: seq<NodeWeight>, counter: nat, m: nat, k: nat)
    requires DistinctIds(healthy) && k < |healthy|
    ensures
      var n := |healthy|;
      multiset(Targets(healthy, counter, m))[healthy[k].id] ==
        m / n + if Wait(n, Slot(n, counter), k) < m % n then 1 else 0
  {
    TargetsCount(healthy, counter, m, k);
    FairShares(|healthy|, counter, m, k);
  }

  // ---------- The balancer ----------

  function Ids(nodes: seq<NodeWeight>): (ids: seq<NodeId>)
    ensures |ids| == |nodes| && forall i :: 0 <= i < |ids| ==> ids[i] == nodes[i].id
  {
    if nodes == [] then [] else [nodes[0].id] + Ids(nodes[1..])
  }

  function FirstTwo(nodes: seq<NodeWeight>): seq<NodeWeight> { if |nodes| > 2 then nodes[..2] else nodes }

  // At most two other healthy nodes, as many as there are.
  ghost predicate GoodBackups(healthy: seq<NodeWeight>, target: NodeId, backups: seq<NodeId>) {
    && |backups| == (if |healthy| - 1 < 2 then |healthy| - 1 else 2)
    && (forall i :: 0 <= i < |backups| ==> backups[i] != target && exists n :: n in healthy && n.id == backups[i])
    && (forall i, j :: 0 <= i < j < |backups| ==> backups[i] != backups[j])
  }

  lemma {:induction false} OneTarget(healthy: seq<NodeWeight>, target: NodeWeight)
    requires DistinctIds(healthy) && target in healthy
    ensures |Filter(healthy, (n: NodeWeight) => n.id != target.id)| == |healthy| - 1
  {
    if healthy[0] == target {
      NoTarget(healthy[1..], target.id);
    } else {
      assert healthy == [healthy[0]] + healthy[1..];
      OneTarget(healthy[1..], target);
      var i :| 0 <= i < |healthy| && healthy[i] == target;
      assert healthy[0].id != healthy[i].id;
    }
  }

  lemma {:induction false} NoTarget(nodes: seq<NodeWeight>, id: NodeId)
    requires forall i :: 0 <= i < |nodes| ==> nodes[i].id != id
    ensures Filter(nodes, (n: NodeWeight) => n.id != id) == nodes
  {
    if nodes != [] {
      NoTarget(nodes[1..], id);
    }
  }

  lemma BackupsAreGood(healthy: seq<NodeWeight>, target: NodeWeight)
    requires DistinctIds(healthy) && target in healthy
    ensures GoodBackups(healthy, target.id, Ids(FirstTwo(Filter(healthy, (n: NodeWeight) => n.id != target.id))))
  {
    var others := Filter(healthy, (n: NodeWeight) => n.id != target.id);
    OneTarget(healthy, target);
    FilterDistinct(healthy, (n: NodeWeight) => n.id != target.id);
    var two := FirstTwo(others);
    var backups := Ids(two);
    assert two <= others;
    forall i | 0 <= i < |backups|
      ensures backups[i] != target.id && exists n :: n in healthy && n.id == backups[i]
    {
      assert two[i] == others[i] && others[i] in others;
    }
    assert forall i, j :: 0 <= i < j < |backups| ==> others[i].id != others[j].id;
  }

  class LoadBalancer {
    const strategy: Strategy
    // The nodes in the order their map yields them, which stays while no node is added or removed.
    var nodes: seq<NodeWeight>
    var counter: nat
    var stats: map<NodeId, nat>
    // The targets of all requests routed so far.
    ghost var history: seq<NodeId>

    ghost predicate Valid()
      reads this
    {
      && DistinctIds(nodes)
      && (forall n :: n in nodes ==> Plausible(n))
      && (forall id :: id in stats <==> id in history)
      && (forall id :: id in stats ==> stats[id] == multiset(history)[id])
    }

    function Healthy(): seq<NodeWeight>
      reads this
    {
      Filter(nodes, Usable)
    }

    constructor (s: Strategy)
      ensures Valid() && strategy == s && nodes == [] && counter == 0 && history == []
    {
      strategy, nodes, counter, stats, history := s, [], 0, map[], [];
    }

    method AddNode(id: NodeId, weight: real, location: Option<Location>) returns (outcome: Outcome<()>)
      requires Valid()
      modifies `nodes
      ensures Valid()
      ensures outcome.Done? <==>
        && !Blank(id) && 0.0 <= weight <= 1.0
        && (location.Some? ==>
              && !Blank(location.value.datacenter) && !Blank(location.value.region)
              && 1 <= location.value.latencyTier <= 5)
        && (forall n :: n in old(nodes) ==> n.id != id)
      ensures outcome.Done? ==>
                multiset(nodes) == multiset(old(nodes)) + multiset{NodeWeight(id, weight, 0, 50.0, true, location)}
      ensures outcome.Refused? ==> nodes == old(nodes)
      ensures outcome == Refused(NodeAlreadyExists) <==>
        && !Blank(id) && 0.0 <= weight <= 1.0
        && (location.Some? ==>
              && !Blank(location.value.datacenter) && !Blank(location.value.region)
              && 1 <= location.value.latencyTier <= 5)
        && (exists n :: n in old(nodes) && n.id == id)
      ensures outcome.Refused? ==> outcome.error in {InvalidParameter, NodeAlreadyExists}
    {
      if Blank(id) || !(0.0 <= weight <= 1.0) {
        return Refused(InvalidParameter);
      }
      if location.Some? && !ValidLocation(location.value) {
        return Refused(InvalidParameter);
      }
      if exists n :: n in nodes && n.id == id {
        return Refused(NodeAlreadyExists);
      }
      nodes := nodes + [NodeWeight(id, weight, 0, 50.0, true, location)];
      outcome := Done(());
    }

    method UpdateNodeHealth(id: NodeId, isHealthy: bool, responseTime: real) returns (outcome: Outcome<()>)
      requires Valid()
      modifies `nodes
      ensures Valid()
      ensures outcome.Done? <==>
                !Blank(id) && 0.0 <= responseTime <= 300000.0 && exists n :: n in old(nodes) && n.id == id
      ensures outcome == Refused(InvalidParameter) <==> Blank(id) || responseTime < 0.0 || responseTime > 300000.0
      ensures outcome.Refused? ==> nodes == old(nodes) && outcome.error in {InvalidParameter, NodeNotFound}
      ensures outcome.Done? ==> |nodes| == |old(nodes)| && forall i :: 0 <= i < |nodes| ==>
        nodes[i] == if old(nodes)[i].id != id then old(nodes)[i]
          else old(nodes)[i].(isHealthy := isHealthy, responseTime := responseTime,
                              weight := WeightFor(isHealthy, responseTime))
    {
      if Blank(id) || responseTime < 0.0 || responseTime > 300000.0 {
        return Refused(InvalidParameter);
      }
      var i := 0;
      while i < |nodes| && nodes[i].id != id
        invariant 0 <= i <= |nodes|
        invariant forall j :: 0 <= j < i ==> nodes[j].id != id
      {
        i := i + 1;
      }
      if i == |nodes| {
        return Refused(NodeNotFound);
      }
      assert nodes[i] in nodes;
      var n := nodes[i].(isHealthy := isHealthy, responseTime := responseTime,
                         weight := WeightFor(isHealthy, responseTime));
      nodes := nodes[i := n];
      outcome := Done(());
    }

    method Select(healthy: seq<NodeWeight>, random: real) returns (target: NodeWeight)
      requires healthy != [] && (forall n :: n in healthy ==> Plausible(n) && n.weight > 0.0) && 0.0 <= random < 1.0
      modifies `counter
      ensures target in healthy && Chosen(strategy, healthy, old(counter), random, target)
      ensures counter == if strategy.RoundRobin? then Advance(|healthy|, old(counter)) else old(counter)
    {
      match strategy
      case RoundRobin =>
        target := healthy[Slot(|healthy|, counter)];
        counter := Advance(|healthy|, counter);
      case WeightedRoundRobin =>
        var i := SelectWeighted(healthy, random);
        target := healthy[i];
      case LeastConnections =>
        var i := SelectLeastConnections(healthy);
        target := healthy[i];
      case LoadBased =>
        target := SelectLoadBased(healthy);
      case LocationAware =>
        target := SelectLocationAware(healthy);
        assert target in healthy;
    }

    method Record(target: NodeId)
      requires Valid()
      modifies `stats, `history
      ensures Valid() && history == old(history) + [target]
    {
      stats := stats[target := (if target in stats then stats[target] else 0) + 1];
      history := history + [target];
    }

    method RouteRequest(requestType: string, random: real) returns (outcome: Outcome<Route>)
      requires Valid() && 0.0 <= random < 1.0
      modifies `counter, `stats, `history
      ensures Valid()
      ensures outcome.Done? <==> !Blank(requestType) && Healthy() != []
      ensures Blank(requestType) <==> outcome == Refused(InvalidParameter)
      ensures !Blank(requestType) && Healthy() == [] <==> outcome == Refused(NoHealthyNodes)
      ensures outcome.Refused? ==> counter == old(counter) && stats == old(stats) && history == old(history)
      ensures outcome.Done? ==>
        && Healthy() != []
        && (exists n ::
              n in Healthy() && n.id == outcome.value.target && Chosen(strategy, Healthy(), old(counter), random, n))
        && GoodBackups(Healthy(), outcome.value.target, outcome.value.backups)
        && counter == (if strategy.RoundRobin? then Advance(|Healthy()|, old(counter)) else old(counter))
        && history == old(history) + [outcome.value.target]
    {
      if Blank(requestType) {
        return Refused(InvalidParameter);
      }
      var healthy := Healthy();
      if healthy == [] {
        return Refused(NoHealthyNodes);
      }
      FilterDistinct(nodes, Usable);
      var target := Select(healthy, random);
      var others := Filter(healthy, (n: NodeWeight) => n.id != target.id);
      BackupsAreGood(healthy, target);
      Record(target.id);
      outcome := Done(Route(target.id, Ids(FirstTwo(others))));
    }

    // The sum of the counts is the number of requests routed.
    method TotalRequests() returns (total: nat)
      requires Valid()
      ensures total == |history|
    {
      total := 0;
      var rest := stats.Keys;
      ghost var left := multiset(history);
      while rest != {}
        invariant rest <= stats.Keys && total + |left| == |history|
        invariant forall id :: left[id] == if id in rest then multiset(history)[id] else 0
      {
        var id :| id in rest;
        rest := rest - {id};
        left := left[id := 0];
        total := total + stats[id];
      }
      assert left == multiset{};
    }
  }

  // A request may go to every healthy node of some weight and to no other.
  lemma HealthyIff(balancer: LoadBalancer, n: NodeWeight)
    ensures n in balancer.Healthy() <==> n in balancer.nodes && n.isHealthy && n.weight > 0.0
  {
  }

  // ---------- A whole run ----------

  // Each of the n healthy nodes is targeted m / n times, rounded down or up.
  ghost predicate Fair(healthy: seq<NodeWeight>, counter: nat, m: nat, targets: seq<NodeId>)
    requires healthy != []
  {
    forall k :: 0 <= k < |healthy| ==> FairTo(healthy, counter, m, targets, k)
  }

  ghost predicate FairTo(healthy: seq<NodeWeight>, counter: nat, m: nat, targets: seq<NodeId>, k: nat)
    requires k < |healthy|
  {
    var n := |healthy|;
    multiset(targets)[healthy[k].id] == m / n + if Wait(n, Slot(n, counter), k) < m % n then 1 else 0
  }

  lemma TargetsFair(healthy: seq<NodeWeight>, counter: nat, m: nat)
    requires DistinctIds(healthy) && healthy != []
    ensures Fair(healthy, counter, m, Targets(healthy, counter, m))
  {
    forall k | 0 <= k < |healthy|
      ensures FairTo(healthy, counter, m, Targets(healthy, counter, m), k)
    {
      RoundRobinIsFair(healthy, counter, m, k);
    }
  }

  lemma TargetsNext(healthy: seq<NodeWeight>, counter: nat, m: nat, before: seq<NodeId>, target: NodeId)
    requires healthy != [] && m > 0 && target == healthy[Slot(|healthy|, counter)].id
    ensures before + Targets(healthy, counter, m) ==
            before + [target] + Targets(healthy, Advance(|healthy|, counter), m - 1)
  {
  }

  method RouteNext(balancer: LoadBalancer, requestType: string) returns (target: NodeId)
    requires balancer.Valid() && balancer.strategy.RoundRobin? && !Blank(requestType) && balancer.Healthy() != []
    modifies balancer`counter, balancer`stats, balancer`history
    ensures balancer.Valid() && balancer.history == old(balancer.history) + [target]
    ensures
      var healthy := balancer.Healthy();
      healthy != [] && target == healthy[Slot(|healthy|, old(balancer.counter))].id &&
      balancer.counter == Advance(|healthy|, old(balancer.counter))
  {
    var outcome := balancer.RouteRequest(requestType, 0.0);
    target := outcome.value.target;
  }

  // A round-robin balancer asked m times while no node changes.
  method RouteMany(balancer: LoadBalancer, requestType: string, m: nat) returns (targets: seq<NodeId>)
    requires balancer.Valid() && balancer.strategy.RoundRobin? && !Blank(requestType) && balancer.Healthy() != []
    modifies balancer`counter, balancer`stats, balancer`history
    ensures balancer.Valid() && balancer.history == old(balancer.history) + targets
    ensures targets == Targets(balancer.Healthy(), old(balancer.counter), m)
    ensures Fair(balancer.Healthy(), old(balancer.counter), m, targets)
  {
    targets := [];
    ghost var healthy, counter := balancer.Healthy(), balancer.counter;
    assert DistinctIds(healthy) by { FilterDistinct(balancer.nodes, Usable); }
    for done := 0 to m
      invariant balancer.Valid() && balancer.Healthy() == healthy
      invariant balancer.history == old(balancer.history) + targets
      invariant targets + Targets(healthy, balancer.counter, m - done) == Targets(healthy, counter, m)
    {
      ghost var before := balancer.counter;
      var target := RouteNext(balancer, requestType);
      TargetsNext(healthy, before, m - done, targets, target);
      targets := targets + [target];
    }
    TargetsFair(healthy, counter, m);
  }
}
