/** Reassigning shards after nodes fail or are removed. */
module ShardMaps {

  type NodeId = string
  type ShardId = nat

  datatype NodeState = Healthy | Unhealthy | Offline | Joining | Leaving

  datatype NodeInfo = NodeInfo(state: NodeState, lastHeartbeat: int)

  datatype Shard = Shard(primary: NodeId, replicas: seq<NodeId>)

  predicate References(s: Shard, node: NodeId) { s.primary == node || node in s.replicas }

  predicate Distinct(ids: seq<NodeId>) { forall i, j :: 0 <= i < j < |ids| ==> ids[i] != ids[j] }

  // Replicas are distinct nodes other than the primary.
  predicate WellPlaced(s: Shard) { Distinct(s.replicas) && s.primary !in s.replicas }

  function Without(ids: seq<NodeId>, node: NodeId): (kept: seq<NodeId>)
    ensures forall x :: x in kept <==> x in ids && x != node
    ensures |kept| <= |ids|
  {
    if ids == [] then []
    else (if ids[0] == node then [] else [ids[0]]) + Without(ids[1..], node)
  }

  lemma {:induction false} WithoutDistinct(ids: seq<NodeId>, node: NodeId)
    requires Distinct(ids)
    ensures Distinct(Without(ids, node))
  {
    if ids != [] {
      WithoutDistinct(ids[1..], node);
      var rest := Without(ids[1..], node);
      forall j | 0 <= j < |rest|
        ensures rest[j] != ids[0]
      {
        assert rest[j] in rest;
      }
    }
  }

  // ---------- One shard after a failure ----------

  // The first replica takes over from a failed primary; without replicas the first healthy node does.
  function Promote(s: Shard, failed: NodeId, healthy: seq<NodeId>): Shard {
    if s.primary != failed then s
    else if s.replicas != [] then Shard(s.replicas[0], Without(s.replicas, s.replicas[0]))
    else if healthy != [] then s.(primary := healthy[0])
    else s
  }

  // The first healthy node the shard does not use yet.
  function FirstUnused(s: Shard, healthy: seq<NodeId>): (unused: seq<NodeId>)
    ensures |unused| <= 1
    ensures unused == [] <==> forall x :: x in healthy ==> References(s, x)
    ensures unused != [] ==>
      exists i :: 0 <= i < |healthy| && healthy[i] == unused[0] && !References(s, unused[0]) &&
        forall j :: 0 <= j < i ==> References(s, healthy[j])
  {
    if healthy == [] then []
    else if !References(s, healthy[0]) then
      assert healthy[0] == [healthy[0]][0];
      [healthy[0]]
    else
      assert healthy == [healthy[0]] + healthy[1..];
      assert forall j :: 0 < j < |healthy| ==> healthy[j] == healthy[1..][j - 1];
      FirstUnused(s, healthy[1..])
  }

  function Purged(s: Shard, failed: NodeId, healthy: seq<NodeId>): Shard {
    var promoted := Promote(s, failed, healthy);
    promoted.(replicas := Without(promoted.replicas, failed))
  }

  const TARGET_REPLICAS := 2

  function Repair(s: Shard, failed: NodeId, healthy: seq<NodeId>): Shard {
    var purged := Purged(s, failed, healthy);
    if |purged.replicas| < TARGET_REPLICAS && |purged.replicas| < |healthy|
    then purged.(replicas := purged.replicas + FirstUnused(purged, healthy))
    else purged
  }

  // The failed node is gone unless it was recorded as its own first replica.
  lemma RepairRemoves(s: Shard, failed: NodeId, healthy: seq<NodeId>)
    requires healthy != [] && failed !in healthy
    ensures References(Repair(s, failed, healthy), failed) <==>
              s.primary == failed && s.replicas != [] && s.replicas[0] == failed
  {
  }

  // A repair names no node that is neither in the shard already nor healthy.
  lemma RepairAddsOnlyHealthy(s: Shard, failed: NodeId, healthy: seq<NodeId>, node: NodeId)
    requires References(Repair(s, failed, healthy), node)
    ensures References(s, node) || node in healthy
  {
  }

  // The primary stays unless it failed; else the first replica follows it, or the first healthy node.
  lemma RepairPrimary(s: Shard, failed: NodeId, healthy: seq<NodeId>)
    requires healthy != []
    ensures Repair(s, failed, healthy).primary ==
            if s.primary != failed then s.primary else (s.replicas + healthy)[0]
  {
  }

  // Whatever the shard: replicas stay distinct, and the primary is among them afterwards exactly when it
  // was before and did not fail.
  lemma RepairPlacement(s: Shard, failed: NodeId, healthy: seq<NodeId>)
    ensures
      var s' := Repair(s, failed, healthy);
      && (Distinct(s.replicas) ==> Distinct(s'.replicas))
      && (s'.primary in s'.replicas <==> s.primary in s.replicas && s.primary != failed)
  {
    if Distinct(s.replicas) {
      if s.replicas != [] {
        WithoutDistinct(s.replicas, s.replicas[0]);
      }
      WithoutDistinct(Promote(s, failed, healthy).replicas, failed);
    }
  }

  // How many replicas outlive the failure: those that are neither the failed node nor the one that is
  // promoted.
  function Surviving(s: Shard, failed: NodeId): int {
    |s.replicas| - multiset(s.replicas)[failed]
      - if s.primary == failed && s.replicas != [] && s.replicas[0] != failed then multiset(s.replicas)[s.replicas[0]]
        else 0
  }

  // A healthy node the shard does not name, and does not need as its primary.
  predicate HasSpare(s: Shard, failed: NodeId, healthy: seq<NodeId>) {
    exists x :: x in healthy && !References(s, x) && !(s.primary == failed && s.replicas == [] && x == healthy[0])
  }

  // Exactly how many replicas a repair leaves.
  lemma RepairReplicaCount(s: Shard, failed: NodeId, healthy: seq<NodeId>)
    requires healthy != [] && failed !in healthy
    ensures
      var survivors := Surviving(s, failed);
      |Repair(s, failed, healthy).replicas| == survivors +
        if survivors < 2 && survivors < |healthy| && HasSpare(s, failed, healthy) then 1 else 0
  {
    SurvivingCount(s, failed, healthy);
    SpareIsUnused(s, failed, healthy);
  }

  lemma SurvivingCount(s: Shard, failed: NodeId, healthy: seq<NodeId>)
    ensures |Purged(s, failed, healthy).replicas| == Surviving(s, failed)
  {
    WithoutCount(Promote(s, failed, healthy).replicas, failed);
    if s.primary == failed && s.replicas != [] {
      var first := s.replicas[0];
      var rest := Without(s.replicas, first);
      WithoutCount(s.replicas, first);
      assert Purged(s, failed, healthy).replicas == Without(rest, failed);
      if first == failed {
        assert failed !in rest;
      }
    }
  }

  lemma SpareIsUnused(s: Shard, failed: NodeId, healthy: seq<NodeId>)
    requires healthy != [] && failed !in healthy
    ensures HasSpare(s, failed, healthy) <==> FirstUnused(Purged(s, failed, healthy), healthy) != []
  {
    forall x | x in healthy
      ensures References(Purged(s, failed, healthy), x) <==>
                References(s, x) || (s.primary == failed && s.replicas == [] && x == healthy[0])
    {
    }
  }

  // A well-placed shard keeps its number of replicas exactly when there are replicas, no more than two and
  // no more than healthy nodes, and a spare node; or neither replicas nor a spare.
  lemma RepairKeepsReplicaCount(s: Shard, failed: NodeId, healthy: seq<NodeId>)
    requires WellPlaced(s) && References(s, failed) && healthy != [] && failed !in healthy
    ensures |Repair(s, failed, healthy).replicas| == |s.replicas| <==>
            if s.replicas == [] then !HasSpare(s, failed, healthy)
            else |s.replicas| <= 2 && |s.replicas| <= |healthy| && HasSpare(s, failed, healthy)
  {
    RepairReplicaCount(s, failed, healthy);
    if s.replicas != [] {
      DistinctOnce(s.replicas, if s.primary == failed then s.replicas[0] else failed);
    }
  }

  lemma {:induction false} WithoutCount(ids: seq<NodeId>, node: NodeId)
    ensures |Without(ids, node)| == |ids| - multiset(ids)[node]
    ensures forall x :: x != node ==> multiset(Without(ids, node))[x] == multiset(ids)[x]
  {
    if ids != [] {
      WithoutCount(ids[1..], node);
      assert ids == [ids[0]] + ids[1..];
    }
  }

  lemma {:induction false} DistinctOnce(ids: seq<NodeId>, node: NodeId)
    requires Distinct(ids) && node in ids
    ensures multiset(ids)[node] == 1
  {
    assert ids == [ids[0]] + ids[1..];
    if ids[0] == node {
      assert node !in ids[1..];
    } else {
      DistinctOnce(ids[1..], node);
    }
  }

  // The ids listed before the first occurrence of a node.
  function Ahead(ids: seq<NodeId>, node: NodeId): (ahead: seq<NodeId>)
    ensures node in ids ==> (ahead == [] <==> ids[0] == node)
  {
    if ids == [] || ids[0] == node then [] else [ids[0]] + Ahead(ids[1..], node)
  }

  lemma {:induction false} AheadWithout(ids: seq<NodeId>, node: NodeId, other: NodeId)
    requires node in ids && other != node
    ensures Ahead(Without(ids, other), node) == Without(Ahead(ids, node), other)
  {
    var first, rest := ids[0], ids[1..];
    assert ids == [first] + rest;
    WithoutOfMore(first, rest, other);
    AheadOfMore(first, rest, node);
    AheadOfMore(first, Without(rest, other), node);
    if first != node {
      AheadWithout(rest, node, other);
      WithoutOfMore(first, Ahead(rest, node), other);
    }
  }

  lemma AheadOfMore(first: NodeId, rest: seq<NodeId>, node: NodeId)
    ensures Ahead([first] + rest, node) == if first == node then [] else [first] + Ahead(rest, node)
  {
    assert ([first] + rest)[1..] == rest;
  }

  lemma WithoutOfMore(first: NodeId, rest: seq<NodeId>, node: NodeId)
    ensures Without([first] + rest, node) ==
            if first == node then Without(rest, node) else [first] + Without(rest, node)
  {
    assert ([first] + rest)[1..] == rest;
  }

  lemma {:induction false} AheadExtended(ids: seq<NodeId>, more: seq<NodeId>, node: NodeId)
    requires node in ids
    ensures Ahead(ids + more, node) == Ahead(ids, node)
  {
    if ids[0] != node {
      assert ids == [ids[0]] + ids[1..];
      assert (ids + more)[1..] == ids[1..] + more;
      AheadExtended(ids[1..], more, node);
    }
  }

  // With the primary among its replicas, repairing another node only takes that node from what stands
  // ahead of it.
  lemma RepairAhead(s: Shard, failed: NodeId, healthy: seq<NodeId>)
    requires s.primary in s.replicas && s.primary != failed
    ensures
      var s' := Repair(s, failed, healthy);
      && s'.primary == s.primary
      && Ahead(s'.replicas, s.primary) == Without(Ahead(s.replicas, s.primary), failed)
  {
    var purged := s.(replicas := Without(s.replicas, failed));
    AheadWithout(s.replicas, s.primary, failed);
    AheadExtended(purged.replicas, FirstUnused(purged, healthy), s.primary);
  }

  // ---------- One shard after a removal ----------

  function Turn(healthy: seq<NodeId>, index: nat): (node: NodeId)
    requires healthy != []
    ensures node in healthy
  {
    healthy[index % |healthy|]
  }

  // A candidate becomes a replica unless the shard uses it already.
  function Join(primary: NodeId, replicas: seq<NodeId>, candidate: NodeId): (joined: seq<NodeId>)
    ensures replicas <= joined
    ensures Distinct(replicas) ==> Distinct(joined)
    ensures forall x :: x in joined <==> x in replicas || (x == candidate && x != primary)
  {
    if candidate != primary && candidate !in replicas then replicas + [candidate] else replicas
  }

  // The replicas and the running node index after topping up to `target` replicas; the search for
  // nodes gives up once the index has passed two rounds.
  function TopUp(primary: NodeId, replicas: seq<NodeId>, healthy: seq<NodeId>, target: nat, index: nat)
    : (seq<NodeId>, nat)
    requires healthy != []
    decreases if index <= 2 * |healthy| then 2 * |healthy| + 1 - index else 0
  {
    if |replicas| >= target then (replicas, index)
    else
      var replicas' := Join(primary, replicas, Turn(healthy, index));
      if index + 1 > 2 * |healthy| then (replicas', index + 1)
      else TopUp(primary, replicas', healthy, target, index + 1)
  }

  function NewPrimary(s: Shard, removed: NodeId, healthy: seq<NodeId>, index: nat): NodeId
    requires healthy != []
  {
    if s.primary == removed then Turn(healthy, index) else s.primary
  }

  // Two replicas, or as many as one healthy node for the primary leaves.
  function ReplicaTarget(healthy: seq<NodeId>): (target: nat)
    ensures target <= 2 && (healthy != [] ==> target < |healthy|)
    ensures target == 2 || target + 1 >= |healthy|
  {
    if |healthy| >= 3 then 2 else if |healthy| == 0 then 0 else |healthy| - 1
  }

  function Reassign(s: Shard, removed: NodeId, healthy: seq<NodeId>, index: nat): (Shard, nat)
    requires healthy != []
  {
    var primary := NewPrimary(s, removed, healthy, index);
    var (replicas, index') := TopUp(primary, Without(s.replicas, removed), healthy, ReplicaTarget(healthy),
                                    FirstTry(s, removed, index));
    (Shard(primary, replicas), index')
  }

  lemma {:induction false} TopUpAdds(primary: NodeId, replicas: seq<NodeId>, healthy: seq<NodeId>, target: nat,
                                     index: nat)
    requires healthy != []
    ensures
      var result := TopUp(primary, replicas, healthy, target, index).0;
      && replicas <= result
      && (Distinct(replicas) ==> Distinct(result))
      && (forall x :: x in result && x !in replicas ==> x in healthy && x != primary)
    decreases if index <= 2 * |healthy| then 2 * |healthy| + 1 - index else 0
  {
    if |replicas| < target {
      var replicas' := Join(primary, replicas, Turn(healthy, index));
      if index + 1 <= 2 * |healthy| {
        TopUpAdds(primary, replicas', healthy, target, index + 1);
      }
    }
  }

  // The removed node is gone; the primary is the old one or a healthy one; replicas stay distinct and
  // only healthy nodes join them.
  lemma ReassignRemoves(s: Shard, removed: NodeId, healthy: seq<NodeId>, index: nat)
    requires healthy != [] && removed !in healthy
    ensures
      var s' := Reassign(s, removed, healthy, index).0;
      && !References(s', removed)
      && (s.primary == removed ==> s'.primary in healthy)
      && (s.primary != removed ==> s'.primary == s.primary)
      && (Distinct(s.replicas) ==> Distinct(s'.replicas))
      && (forall x :: x in s'.replicas ==> x in s.replicas || x in healthy)
  {
    if Distinct(s.replicas) {
      WithoutDistinct(s.replicas, removed);
    }
    TopUpAdds(NewPrimary(s, removed, healthy, index), Without(s.replicas, removed), healthy, ReplicaTarget(healthy),
              FirstTry(s, removed, index));
  }

  // The new primary is also listed as a replica exactly when it was a replica before: choosing it
  // does not look at the replicas.
  lemma ReassignDisjoint(s: Shard, removed: NodeId, healthy: seq<NodeId>, index: nat)
    requires healthy != [] && removed !in healthy
    ensures
      var s' := Reassign(s, removed, healthy, index).0;
      s'.primary in s'.replicas <==> NewPrimary(s, removed, healthy, index) in Without(s.replicas, removed)
  {
    TopUpAdds(NewPrimary(s, removed, healthy, index), Without(s.replicas, removed), healthy, ReplicaTarget(healthy),
              FirstTry(s, removed, index));
  }

  // With the replica first among the healthy nodes, it becomes the primary and stays a replica.
  lemma ReassignDuplicatesPrimary()
    ensures
      var s := Shard("a", ["b"]);
      && WellPlaced(s)
      && Reassign(s, "a", ["b"], 0).0 == Shard("b", ["b"])
  {
    assert Without(["b"], "a") == ["b"] by {
      assert ["b"][1..] == [];
      assert Without([], "a") == [];
    }
  }

  // If the search stops short of the target it has tried every node from its index to the end of
  // the second round.
  lemma {:induction false} TopUpTries(primary: NodeId, replicas: seq<NodeId>, healthy: seq<NodeId>, target: nat,
                                      index: nat, k: nat)
    requires healthy != [] && index <= k <= 2 * |healthy|
    ensures
      var result := TopUp(primary, replicas, healthy, target, index).0;
      |result| >= target || Turn(healthy, k) == primary || Turn(healthy, k) in result
    decreases k - index
  {
    if k == index {
      TopUpTriesFirst(primary, replicas, healthy, target, index);
    } else if |replicas| < target {
      var replicas' := Join(primary, replicas, Turn(healthy, index));
      TopUpTries(primary, replicas', healthy, target, index + 1, k);
      assert TopUp(primary, replicas, healthy, target, index) == TopUp(primary, replicas', healthy, target, index + 1);
    }
  }

  lemma TopUpTriesFirst(primary: NodeId, replicas: seq<NodeId>, healthy: seq<NodeId>, target: nat, index: nat)
    requires healthy != []
    ensures
      var result := TopUp(primary, replicas, healthy, target, index).0;
      |result| >= target || Turn(healthy, index) == primary || Turn(healthy, index) in result
  {
    if |replicas| < target && index + 1 <= 2 * |healthy| {
      TopUpAdds(primary, Join(primary, replicas, Turn(healthy, index)), healthy, target, index + 1);
    }
  }

  lemma {:induction false} DistinctFits(ids: seq<NodeId>, within: set<NodeId>)
    requires Distinct(ids) && forall x :: x in ids ==> x in within
    ensures |ids| <= |within|
  {
    if ids != [] {
      forall x | x in ids[1..]
        ensures x in within - {ids[0]}
      {
        var i :| 0 <= i < |ids[1..]| && ids[1..][i] == x;
        assert ids[i + 1] == x;
      }
      DistinctFits(ids[1..], within - {ids[0]});
    }
  }

  lemma {:induction false} ElementsFit(ids: seq<NodeId>)
    ensures |set x | x in ids| <= |ids|
  {
    if ids != [] {
      ElementsFit(ids[1..]);
      assert (set x | x in ids) == {ids[0]} + (set x | x in ids[1..]);
    }
  }

  lemma EveryNodeHasATurn(healthy: seq<NodeId>, r: nat, index: nat) returns (k: nat)
    requires r < |healthy| && index <= |healthy| + 1
    ensures index <= k <= 2 * |healthy| && Turn(healthy, k) == healthy[r]
  {
    var n := |healthy|;
    if r + n >= index {
      k := r + n;
      Remainder(k, n, 1, r);
    } else {
      k := 2 * n;
      Remainder(k, n, 2, r);
    }
  }

  lemma Remainder(k: nat, n: nat, q: nat, r: nat)
    requires n > 0 && k == n * q + r && r < n
    ensures k % n == r
  {
    var q', r' := k / n, k % n;
    assert k == n * q' + r';
    SameRemainder(n, q, r, q', r');
  }

  lemma SameRemainder(n: nat, q: nat, r: nat, q': nat, r': nat)
    requires n * q + r == n * q' + r' && r < n && r' < n
    ensures r == r'
  {
    if q < q' {
      OneMore(n, q, q');
    } else if q' < q {
      OneMore(n, q', q);
    }
  }

  lemma OneMore(n: nat, q: nat, q': nat)
    requires q < q'
    ensures n * q' >= n * q + n
  {
    assert n * q' == n * (q + 1) + n * (q' - q - 1);
  }

  // A shard gets its target of replicas as long as the shared index has not passed one round.
  lemma TopUpReachesTarget(primary: NodeId, replicas: seq<NodeId>, healthy: seq<NodeId>, index: nat)
    requires healthy != [] && Distinct(healthy) && index <= |healthy| + 1
    ensures |TopUp(primary, replicas, healthy, ReplicaTarget(healthy), index).0| >= ReplicaTarget(healthy)
  {
    var target := ReplicaTarget(healthy);
    var result := TopUp(primary, replicas, healthy, target, index).0;
    if |result| < target {
      var used := {primary} + set x | x in result;
      forall x | x in healthy
        ensures x in used
      {
        var r :| 0 <= r < |healthy| && healthy[r] == x;
        var k := EveryNodeHasATurn(healthy, r, index);
        TopUpTries(primary, replicas, healthy, target, index, k);
      }
      DistinctFits(healthy, used);
      ElementsFit(result);
    }
  }

  // The last index a search from `index` tries: the end of the second round, or `index` if that is past.
  function LastTry(healthy: seq<NodeId>, index: nat): nat {
    if index <= 2 * |healthy| then 2 * |healthy| else index
  }

  ghost predicate ComesUp(healthy: seq<NodeId>, index: nat, node: NodeId)
    requires healthy != []
  {
    exists k :: index <= k <= LastTry(healthy, index) && Turn(healthy, k) == node
  }

  // The nodes a search from `index` meets that the shard does not use yet.
  ghost function Offered(primary: NodeId, replicas: seq<NodeId>, healthy: seq<NodeId>, index: nat): set<NodeId>
    requires healthy != []
  {
    set x | x in healthy && x != primary && x !in replicas && ComesUp(healthy, index, x)
  }

  lemma ComesUpNext(healthy: seq<NodeId>, index: nat, node: NodeId)
    requires healthy != []
    ensures ComesUp(healthy, index, node) <==>
              Turn(healthy, index) == node || (index < 2 * |healthy| && ComesUp(healthy, index + 1, node))
  {
    if ComesUp(healthy, index, node) {
      var k :| index <= k <= LastTry(healthy, index) && Turn(healthy, k) == node;
      assert k == index || index + 1 <= k <= LastTry(healthy, index + 1);
    }
  }

  // The replicas a shard has together with those the search can still give it.
  ghost function Available(primary: NodeId, replicas: seq<NodeId>, healthy: seq<NodeId>, index: nat): nat
    requires healthy != []
  {
    |replicas| + |Offered(primary, replicas, healthy, index)|
  }

  // Trying a node moves it from the offered to the replicas, if the shard does not use it.
  lemma AvailableNext(primary: NodeId, replicas: seq<NodeId>, healthy: seq<NodeId>, index: nat)
    requires healthy != []
    ensures
      var replicas' := Join(primary, replicas, Turn(healthy, index));
      Available(primary, replicas, healthy, index) ==
        if index < 2 * |healthy| then Available(primary, replicas', healthy, index + 1) else |replicas'|
  {
    var node := Turn(healthy, index);
    var replicas' := Join(primary, replicas, node);
    var rest := if index < 2 * |healthy| then Offered(primary, replicas', healthy, index + 1) else {};
    forall x | x in healthy {
      ComesUpNext(healthy, index, x);
    }
    if node != primary && node !in replicas {
      assert Offered(primary, replicas, healthy, index) == rest + {node} && node !in rest;
    } else {
      assert Offered(primary, replicas, healthy, index) == rest;
    }
  }

  // How many replicas a shard ends up with: those it has if they are enough, or else as many of the
  // offered nodes more as the target allows.
  lemma {:induction false} TopUpCount(primary: NodeId, replicas: seq<NodeId>, healthy: seq<NodeId>, target: nat,
                                      index: nat)
    requires healthy != []
    ensures
      var result := TopUp(primary, replicas, healthy, target, index).0;
      var available := Available(primary, replicas, healthy, index);
      |result| == if |replicas| >= target then |replicas| else if available >= target then target else available
    decreases if index <= 2 * |healthy| then 2 * |healthy| + 1 - index else 0
  {
    if |replicas| < target {
      AvailableNext(primary, replicas, healthy, index);
      var replicas' := Join(primary, replicas, Turn(healthy, index));
      if index < 2 * |healthy| {
        assert TopUp(primary, replicas, healthy, target, index) ==
          TopUp(primary, replicas', healthy, target, index + 1);
        TopUpCount(primary, replicas', healthy, target, index + 1);
        AvailableCovers(primary, replicas', healthy, index + 1);
        assert |replicas'| <= target;
      } else {
        assert TopUp(primary, replicas, healthy, target, index).0 == replicas';
      }
    }
  }

  lemma AvailableCovers(primary: NodeId, replicas: seq<NodeId>, healthy: seq<NodeId>, index: nat)
    requires healthy != []
    ensures Available(primary, replicas, healthy, index) >= |replicas|
  {
  }

  // A reassigned shard gets its number of replicas exactly when those it keeps and the nodes offered
  // from the running index on are that many.
  lemma ReassignReachesTarget(s: Shard, removed: NodeId, healthy: seq<NodeId>, index: nat)
    requires healthy != []
    ensures |Reassign(s, removed, healthy, index).0.replicas| >= ReplicaTarget(healthy) <==>
            EnoughOffered(s, removed, healthy, index)
  {
    TopUpCount(NewPrimary(s, removed, healthy, index), Without(s.replicas, removed), healthy, ReplicaTarget(healthy),
               FirstTry(s, removed, index));
  }

  function FirstTry(s: Shard, removed: NodeId, index: nat): nat { if s.primary == removed then index + 1 else index }

  ghost predicate EnoughOffered(s: Shard, removed: NodeId, healthy: seq<NodeId>, index: nat)
    requires healthy != []
  {
    var kept := Without(s.replicas, removed);
    Available(NewPrimary(s, removed, healthy, index), kept, healthy, FirstTry(s, removed, index)) >=
      ReplicaTarget(healthy)
  }

  // ---------- The whole shard map ----------

  type ShardMap = map<ShardId, Shard>

  // One failure as the manager meets it: the node and the healthy nodes left, in the order listed.
  datatype Failure = Failure(node: NodeId, healthy: seq<NodeId>)

  function Handled(s: Shard, f: Failure): Shard {
    if References(s, f.node) then Repair(s, f.node, f.healthy) else s
  }

  function NodesOf(failures: seq<Failure>): (nodes: seq<NodeId>)
    ensures |nodes| == |failures| && forall i :: 0 <= i < |nodes| ==> nodes[i] == failures[i].node
  {
    seq(|failures|, i requires 0 <= i < |failures| => failures[i].node)
  }

  function RepairAll(shards: ShardMap, f: Failure): (repaired: ShardMap)
    ensures repaired.Keys == shards.Keys
  {
    map id | id in shards :: Handled(shards[id], f)
  }

  function AfterFailures(shards: ShardMap, failures: seq<Failure>): (after: ShardMap)
    ensures after.Keys == shards.Keys
  {
    if failures == [] then shards
    else RepairAll(AfterFailures(shards, failures[..|failures| - 1]), failures[|failures| - 1])
  }

  lemma AfterOneMore(shards: ShardMap, failures: seq<Failure>, f: Failure)
    ensures AfterFailures(shards, failures + [f]) == RepairAll(AfterFailures(shards, failures), f)
  {
    assert (failures + [f])[..|failures|] == failures;
  }

  // Some node is healthy and none of the failed ones is.
  ghost predicate HealthyElsewhere(failures: seq<Failure>) {
    forall i, j :: 0 <= i < |failures| && 0 <= j < |failures| ==>
      failures[i].healthy != [] && failures[j].node !in failures[i].healthy
  }

  ghost predicate DistinctFailures(failures: seq<Failure>) {
    forall i, j :: 0 <= i < j < |failures| ==> failures[i].node != failures[j].node
  }

  ghost predicate NamesNone(s: Shard, failures: seq<Failure>) {
    forall i :: 0 <= i < |failures| ==> !References(s, failures[i].node)
  }

  // One of the first `n` failures is that of the node.
  ghost predicate FailedWithin(failures: seq<Failure>, n: nat, node: NodeId) {
    exists i :: 0 <= i < n <= |failures| && failures[i].node == node
  }

  ghost predicate Failed(failures: seq<Failure>, node: NodeId) { FailedWithin(failures, |failures|, node) }

  // The primary fails while it stands first among its own replicas: all listed ahead of it failed earlier.
  ghost predicate StuckAt(s: Shard, failures: seq<Failure>, i: nat) {
    && i < |failures|
    && failures[i].node == s.primary
    && s.primary in s.replicas
    && forall x :: x in Ahead(s.replicas, s.primary) ==> FailedWithin(failures, i, x)
  }

  ghost predicate Stuck(s: Shard, failures: seq<Failure>) { exists i :: StuckAt(s, failures, i) }

  // What handling failures one after the other makes of a shard.
  ghost predicate Cleared(s: Shard, s': Shard, failures: seq<Failure>) {
    && (NamesNone(s', failures) <==> !Stuck(s, failures))
    && (Stuck(s, failures) ==> s'.primary == s.primary)
    && (forall i :: 0 <= i < |failures| && References(s', failures[i].node) ==> failures[i].node == s.primary)
    && (s'.primary in s'.replicas <==> s.primary in s.replicas && !Failed(failures, s.primary))
    && (Distinct(s.replicas) ==> Distinct(s'.replicas))
    && (NamesNone(s, failures) ==> s' == s)
  }

  // A primary that is among its replicas and did not fail keeps ahead of it those that did not fail.
  ghost predicate KeepsAhead(s: Shard, s': Shard, failures: seq<Failure>) {
    s.primary in s.replicas && !Failed(failures, s.primary) ==>
      && s'.primary == s.primary
      && forall x :: x in Ahead(s'.replicas, s.primary) <==> x in Ahead(s.replicas, s.primary) && !Failed(failures, x)
  }

  lemma FailedNext(failures: seq<Failure>, node: NodeId)
    requires failures != []
    ensures Failed(failures, node) <==>
              Failed(failures[..|failures| - 1], node) || failures[|failures| - 1].node == node
  {
    var n := |failures| - 1;
    if FailedWithin(failures[..n], n, node) {
      var i :| 0 <= i < n && failures[..n][i].node == node;
      assert failures[i].node == node;
    }
    if FailedWithin(failures, n + 1, node) {
      var i :| 0 <= i < n + 1 && failures[i].node == node;
      assert i < n ==> failures[..n][i].node == node;
    }
  }

  lemma FailedInFront(failures: seq<Failure>, n: nat, i: nat, node: NodeId)
    requires i <= n <= |failures|
    ensures FailedWithin(failures[..n], i, node) <==> FailedWithin(failures, i, node)
  {
    assert forall j :: 0 <= j < i ==> failures[..n][j] == failures[j];
  }

  lemma NamesNext(s: Shard, failures: seq<Failure>)
    requires failures != []
    ensures NamesNone(s, failures) <==>
              NamesNone(s, failures[..|failures| - 1]) && !References(s, failures[|failures| - 1].node)
  {
    var n := |failures| - 1;
    assert forall i :: 0 <= i < n ==> failures[..n][i] == failures[i];
  }

  lemma StuckNext(s: Shard, failures: seq<Failure>)
    requires failures != []
    ensures Stuck(s, failures) <==>
              Stuck(s, failures[..|failures| - 1]) || StuckAt(s, failures, |failures| - 1)
  {
    var n := |failures| - 1;
    forall i: nat | i < n
      ensures StuckAt(s, failures[..n], i) <==> StuckAt(s, failures, i)
    {
      forall x {
        FailedInFront(failures, n, i, x);
      }
    }
  }

  // Handling one failure: the node stays only as a primary that comes first among its own replicas, and
  // no failed node comes back.
  lemma RepairStep(s: Shard, f: Failure, others: seq<Failure>)
    requires f.healthy != [] && f.node !in f.healthy
    requires forall i :: 0 <= i < |others| ==> others[i].node !in f.healthy
    ensures
      var s' := Handled(s, f);
      && (References(s', f.node) <==>
            s.primary == f.node && s.primary in s.replicas && Ahead(s.replicas, s.primary) == [])
      && (References(s', f.node) ==> s'.primary == f.node)
      && (s.primary != f.node ==> s'.primary == s.primary)
      && (forall i :: 0 <= i < |others| && References(s', others[i].node) ==> References(s, others[i].node))
      && (s'.primary in s'.replicas <==> s.primary in s.replicas && s.primary != f.node)
      && (Distinct(s.replicas) ==> Distinct(s'.replicas))
  {
    RepairRemoves(s, f.node, f.healthy);
    RepairPlacement(s, f.node, f.healthy);
    forall i | 0 <= i < |others| && References(Handled(s, f), others[i].node)
      ensures References(s, others[i].node)
    {
      if References(s, f.node) {
        RepairAddsOnlyHealthy(s, f.node, f.healthy, others[i].node);
      }
    }
  }

  lemma KeepsAheadNext(s: Shard, before: Shard, failures: seq<Failure>)
    requires failures != [] && KeepsAhead(s, before, failures[..|failures| - 1])
    requires s.primary in s.replicas && !Failed(failures[..|failures| - 1], s.primary) ==>
               before.primary in before.replicas
    ensures KeepsAhead(s, Handled(before, failures[|failures| - 1]), failures)
  {
    var front, last := failures[..|failures| - 1], failures[|failures| - 1];
    forall x {
      FailedNext(failures, x);
    }
    if s.primary in s.replicas && !Failed(failures, s.primary) {
      assert !Failed(front, s.primary);
      if References(before, last.node) {
        RepairAhead(before, last.node, last.healthy);
      } else {
        AheadIsListed(before.replicas, s.primary);
      }
    }
  }

  lemma {:induction false} AheadIsListed(ids: seq<NodeId>, node: NodeId)
    ensures forall x :: x in Ahead(ids, node) ==> x in ids
  {
    if ids != [] && ids[0] != node {
      AheadIsListed(ids[1..], node);
    }
  }

  // The primary gets stuck at the last failure exactly when that failure leaves it.
  lemma StuckLast(s: Shard, before: Shard, failures: seq<Failure>)
    requires failures != [] && DistinctFailures(failures)
    requires KeepsAhead(s, before, failures[..|failures| - 1])
    ensures
      var last := failures[|failures| - 1];
      StuckAt(s, failures, |failures| - 1) ==>
        before.primary == last.node && Ahead(before.replicas, before.primary) == []
    ensures
      var last := failures[|failures| - 1];
      s.primary == last.node && s.primary in s.replicas && Ahead(before.replicas, before.primary) == [] ==>
        StuckAt(s, failures, |failures| - 1)
  {
    var n := |failures| - 1;
    var front := failures[..n];
    forall x {
      FailedInFront(failures, n, n, x);
    }
    if s.primary == failures[n].node && s.primary in s.replicas {
      assert !Failed(front, s.primary);
      var ahead := Ahead(before.replicas, s.primary);
      if ahead != [] {
        assert ahead[0] in ahead;
        assert !Failed(front, ahead[0]);
      }
    }
  }

  lemma ClearedNames(s: Shard, before: Shard, failures: seq<Failure>)
    requires failures != [] && HealthyElsewhere(failures) && DistinctFailures(failures)
    requires Cleared(s, before, failures[..|failures| - 1]) && KeepsAhead(s, before, failures[..|failures| - 1])
    ensures
      var s' := Handled(before, failures[|failures| - 1]);
      && (NamesNone(s', failures) <==> !Stuck(s, failures))
      && (Stuck(s, failures) ==> s'.primary == s.primary)
  {
    var n := |failures| - 1;
    var front, last := failures[..n], failures[n];
    var s' := Handled(before, last);
    RepairStep(before, last, front);
    StuckNext(s, failures);
    StuckLast(s, before, failures);
    NamesNext(s', failures);
    if Stuck(s, front) {
      StuckFailed(s, front);
      assert s.primary != last.node;
      var i :| 0 <= i < |front| && References(before, front[i].node);
      assert References(s', front[i].node);
    } else if StuckAt(s, failures, n) {
      assert References(s', last.node);
    } else {
      assert !References(s', last.node);
      assert NamesNone(s', front);
    }
  }

  lemma StuckFailed(s: Shard, failures: seq<Failure>)
    requires Stuck(s, failures)
    ensures Failed(failures, s.primary)
  {
  }

  lemma OnlyPrimaryNamed(s: Shard, before: Shard, failures: seq<Failure>, i: nat)
    requires i < |failures| && HealthyElsewhere(failures)
    requires Cleared(s, before, failures[..|failures| - 1]) && KeepsAhead(s, before, failures[..|failures| - 1])
    requires References(Handled(before, failures[|failures| - 1]), failures[i].node)
    ensures failures[i].node == s.primary
  {
    var n := |failures| - 1;
    var front, last := failures[..n], failures[n];
    RepairStep(before, last, front);
    if i < n {
      assert front[i] == failures[i];
    }
  }

  // One more failure, of a node that has not failed before.
  lemma ClearedNext(s: Shard, before: Shard, failures: seq<Failure>)
    requires failures != [] && HealthyElsewhere(failures) && DistinctFailures(failures)
    requires Cleared(s, before, failures[..|failures| - 1]) && KeepsAhead(s, before, failures[..|failures| - 1])
    ensures Cleared(s, Handled(before, failures[|failures| - 1]), failures)
  {
    var n := |failures| - 1;
    var front, last := failures[..n], failures[n];
    var s' := Handled(before, last);
    ClearedNames(s, before, failures);
    RepairStep(before, last, front);
    FailedNext(failures, s.primary);
    NamesNext(s, failures);
    forall i | 0 <= i < |failures| && References(s', failures[i].node)
      ensures failures[i].node == s.primary
    {
      OnlyPrimaryNamed(s, before, failures, i);
    }
  }

  // Nodes that failed together are all gone once each has been handled, even when one of them was
  // promoted on the way, unless the primary got stuck; a shard that named none of them is untouched.
  lemma {:induction false} FailuresCleared(shards: ShardMap, failures: seq<Failure>, id: ShardId)
    requires id in shards && HealthyElsewhere(failures) && DistinctFailures(failures)
    ensures Cleared(shards[id], AfterFailures(shards, failures)[id], failures)
    ensures KeepsAhead(shards[id], AfterFailures(shards, failures)[id], failures)
    ensures WellPlaced(shards[id]) ==>
      WellPlaced(AfterFailures(shards, failures)[id]) && NamesNone(AfterFailures(shards, failures)[id], failures)
  {
    if failures != [] {
      FailuresCleared(shards, failures[..|failures| - 1], id);
      ClearedNext(shards[id], AfterFailures(shards, failures[..|failures| - 1])[id], failures);
      KeepsAheadNext(shards[id], AfterFailures(shards, failures[..|failures| - 1])[id], failures);
    }
  }

  ghost predicate AllCleared(before: ShardMap, after: ShardMap, failures: seq<Failure>) {
    before.Keys == after.Keys && forall id :: id in before ==> Cleared(before[id], after[id], failures)
  }

  lemma FailuresClearAll(shards: ShardMap, failures: seq<Failure>)
    requires HealthyElsewhere(failures) && DistinctFailures(failures)
    ensures AllCleared(shards, AfterFailures(shards, failures), failures)
  {
    forall id | id in shards {
      FailuresCleared(shards, failures, id);
    }
  }

  // After a removal, seen from the shard before it: of the nodes that fail together one stays exactly when
  // the removal made it the primary, it was a replica before, and all the kept ones ahead of it fail
  // before it.
  lemma FailuresAfterRemoval(shards: ShardMap, id: ShardId, s: Shard, removed: NodeId, healthy: seq<NodeId>,
                             index: nat, failures: seq<Failure>)
    requires healthy != [] && id in shards && shards[id] == Reassign(s, removed, healthy, index).0
    requires HealthyElsewhere(failures) && DistinctFailures(failures)
    ensures
      var kept := Shard(NewPrimary(s, removed, healthy, index), Without(s.replicas, removed));
      NamesNone(AfterFailures(shards, failures)[id], failures) <==> !Stuck(kept, failures)
  {
    var primary, kept := NewPrimary(s, removed, healthy, index), Without(s.replicas, removed);
    FailuresCleared(shards, failures, id);
    TopUpAdds(primary, kept, healthy, ReplicaTarget(healthy), FirstTry(s, removed, index));
    MoreReplicasBehind(Shard(primary, kept), shards[id], failures);
  }

  // Replicas added behind those a shard has make no difference to whether its primary gets stuck.
  lemma MoreReplicasBehind(s: Shard, s': Shard, failures: seq<Failure>)
    requires s'.primary == s.primary && s.replicas <= s'.replicas
    requires s.primary in s'.replicas ==> s.primary in s.replicas
    ensures Stuck(s', failures) <==> Stuck(s, failures)
  {
    if s.primary in s.replicas {
      assert s'.replicas == s.replicas + s'.replicas[|s.replicas|..];
      AheadExtended(s.replicas, s'.replicas[|s.replicas|..], s.primary);
      forall i: nat
        ensures StuckAt(s', failures, i) <==> StuckAt(s, failures, i)
      {
      }
    }
  }

  lemma AfterTwo(shards: ShardMap, f: Failure, g: Failure)
    ensures AfterFailures(shards, [f]) == RepairAll(shards, f)
    ensures AfterFailures(shards, [f, g]) == RepairAll(RepairAll(shards, f), g)
  {
    assert [] + [f] == [f] && [f] + [g] == [f, g];
    AfterOneMore(shards, [], f);
    AfterOneMore(shards, [f], g);
  }

  // A well-placed shard whose removed primary is replaced by the replica listed second.
  lemma SecondReplicaTakesOver()
    ensures WellPlaced(Shard("a", ["x", "p"]))
    ensures Reassign(Shard("a", ["x", "p"]), "a", ["p", "x", "y"], 0).0 == Shard("p", ["x", "p"])
  {
    WithoutOfTwo("x", "p", "a");
  }

  // That new primary stays when the replica ahead of it fails with it; failing alone it would have gone.
  lemma FailuresAfterRemovalKeepFailedPrimary(shards: ShardMap, id: ShardId, healthy: seq<NodeId>)
    requires id in shards && shards[id] == Shard("p", ["x", "p"]) && healthy == ["y"]
    ensures AfterFailures(shards, [Failure("x", healthy), Failure("p", healthy)])[id] == Shard("p", ["y"])
    ensures AfterFailures(shards, [Failure("p", healthy)])[id] == Shard("x", ["y"])
  {
    SecondFailsAfterFirst(healthy);
    AfterTwo(shards, Failure("x", healthy), Failure("p", healthy));
    AfterTwo(shards, Failure("p", healthy), Failure("p", healthy));
  }

  lemma WithoutOfTwo(x: NodeId, y: NodeId, node: NodeId)
    ensures Without([x, y], node) == (if x == node then [] else [x]) + (if y == node then [] else [y])
  {
    assert [x, y] == [x] + [y];
    WithoutOfMore(x, [y], node);
    WithoutOfOne(y, node);
  }

  lemma WithoutOfOne(x: NodeId, node: NodeId)
    ensures Without([x], node) == if x == node then [] else [x]
  {
    assert [x] == [x] + [];
    WithoutOfMore(x, [], node);
  }

  lemma SecondFailsAfterFirst(healthy: seq<NodeId>)
    requires healthy == ["y"]
    ensures Handled(Shard("p", ["x", "p"]), Failure("x", healthy)) == Shard("p", ["p"])
    ensures Handled(Shard("p", ["p"]), Failure("p", healthy)) == Shard("p", ["y"])
    ensures Handled(Shard("p", ["x", "p"]), Failure("p", healthy)) == Shard("x", ["y"])
  {
    WithoutOfTwo("x", "p", "x");
    WithoutOfOne("p", "p");
    assert Purged(Shard("p", ["x", "p"]), "x", healthy) == Shard("p", ["p"]);
    assert Purged(Shard("p", ["p"]), "p", healthy) == Shard("p", []);
    assert Purged(Shard("p", ["x", "p"]), "p", healthy) == Shard("x", []);
    assert FirstUnused(Shard("p", []), healthy) == healthy;
    assert FirstUnused(Shard("x", []), healthy) == healthy;
  }

  // A single node that fails after a removal stays in a shard exactly when the removal made the first of
  // the remaining replicas the primary, and it is that node.
  lemma FailureAfterRemoval(s: Shard, removed: NodeId, healthy: seq<NodeId>, index: nat, failed: NodeId,
                            others: seq<NodeId>)
    requires healthy != [] && others != [] && failed !in others
    ensures
      var kept := Without(s.replicas, removed);
      References(Repair(Reassign(s, removed, healthy, index).0, failed, others), failed) <==>
        NewPrimary(s, removed, healthy, index) == failed && kept != [] && kept[0] == failed
  {
    var kept := Without(s.replicas, removed);
    var s' := Reassign(s, removed, healthy, index).0;
    RepairRemoves(s', failed, others);
    TopUpAdds(s'.primary, kept, healthy, ReplicaTarget(healthy), FirstTry(s, removed, index));
    if kept == [] && s'.replicas != [] {
      assert s'.replicas[0] in s'.replicas;
    }
  }

  // A well-placed shard this happens to.
  lemma FailureAfterRemovalKeepsFailedPrimary()
    ensures
      var s := Shard("a", ["b"]);
      var reassigned := Reassign(s, "a", ["b", "c"], 0).0;
      && WellPlaced(s)
      && reassigned == Shard("b", ["b"])
      && Repair(reassigned, "b", ["c"]) == Shard("b", ["c"])
  {
    assert ["b"][1..] == [];
    assert Without(["b"], "a") == ["b"];
    assert Without(["b"], "b") == [];
    assert FirstUnused(Shard("b", []), ["c"]) == ["c"];
  }

  // The shards in `order` are reassigned one after the other and share the node index.
  function ReassignAll(shards: ShardMap, order: seq<ShardId>, removed: NodeId, healthy: seq<NodeId>, index: nat)
    : (after: ShardMap)
    requires healthy != [] && forall id :: id in order ==> id in shards
    ensures after.Keys == shards.Keys
  {
    if order == [] then shards
    else
      var (s, index') := Reassign(shards[order[0]], removed, healthy, index);
      ReassignAll(shards[order[0] := s], order[1..], removed, healthy, index')
  }

  lemma {:induction false} ReassignAllFrame(shards: ShardMap, order: seq<ShardId>, removed: NodeId,
                                            healthy: seq<NodeId>, index: nat, id: ShardId)
    requires healthy != [] && (forall x :: x in order ==> x in shards) && id in shards && id !in order
    ensures ReassignAll(shards, order, removed, healthy, index)[id] == shards[id]
  {
    if order != [] {
      var (s, index') := Reassign(shards[order[0]], removed, healthy, index);
      ReassignAllFrame(shards[order[0] := s], order[1..], removed, healthy, index', id);
    }
  }

  // What removing a node does to a shard that named it, whatever the order of the shards.
  ghost predicate Reassigned(s: Shard, s': Shard, removed: NodeId, healthy: seq<NodeId>) {
    && !References(s', removed)
    && (if s.primary == removed then s'.primary in healthy else s'.primary == s.primary)
    && (Distinct(s.replicas) ==> Distinct(s'.replicas))
    && (forall x :: x in s.replicas && x != removed ==> x in s'.replicas)
    && (forall x :: x in s'.replicas ==> x in s.replicas || x in healthy)
    && (WellPlaced(s) && s.primary != removed ==> WellPlaced(s'))
  }

  lemma ReassignMeets(s: Shard, removed: NodeId, healthy: seq<NodeId>, index: nat)
    requires healthy != [] && removed !in healthy
    ensures Reassigned(s, Reassign(s, removed, healthy, index).0, removed, healthy)
  {
    ReassignRemoves(s, removed, healthy, index);
    ReassignDisjoint(s, removed, healthy, index);
    TopUpAdds(NewPrimary(s, removed, healthy, index), Without(s.replicas, removed), healthy, ReplicaTarget(healthy),
              FirstTry(s, removed, index));
  }

  lemma {:induction false} ReassignAllMeets(shards: ShardMap, order: seq<ShardId>, removed: NodeId,
                                            healthy: seq<NodeId>, index: nat, id: ShardId)
    requires healthy != [] && removed !in healthy && forall x :: x in order ==> x in shards
    requires id in order && forall i, j :: 0 <= i < j < |order| ==> order[i] != order[j]
    ensures Reassigned(shards[id], ReassignAll(shards, order, removed, healthy, index)[id], removed, healthy)
  {
    var (s, index') := Reassign(shards[order[0]], removed, healthy, index);
    if order[0] == id {
      ReassignMeets(shards[id], removed, healthy, index);
      ReassignAllFrame(shards[id := s], order[1..], removed, healthy, index', id);
    } else {
      ReassignAllMeets(shards[order[0] := s], order[1..], removed, healthy, index', id);
    }
  }

  // The running index when the k-th shard of the order is reached.
  function IndexAt(shards: ShardMap, order: seq<ShardId>, removed: NodeId, healthy: seq<NodeId>, index: nat, k: nat)
    : nat
    requires healthy != [] && (forall id :: id in order ==> id in shards) && k <= |order|
  {
    if k == 0 then index
    else
      var (s, index') := Reassign(shards[order[0]], removed, healthy, index);
      IndexAt(shards[order[0] := s], order[1..], removed, healthy, index', k - 1)
  }

  // Each shard of the order is reassigned from its own state and the index it is reached with.
  lemma {:induction false} ReassignAllAt(shards: ShardMap, order: seq<ShardId>, removed: NodeId, healthy: seq<NodeId>,
                                         index: nat, k: nat)
    requires healthy != [] && (forall x :: x in order ==> x in shards) && k < |order|
    requires forall i, j :: 0 <= i < j < |order| ==> order[i] != order[j]
    ensures ReassignAll(shards, order, removed, healthy, index)[order[k]] ==
            Reassign(shards[order[k]], removed, healthy, IndexAt(shards, order, removed, healthy, index, k)).0
  {
    var (s, index') := Reassign(shards[order[0]], removed, healthy, index);
    var shards' := shards[order[0] := s];
    if k == 0 {
      ReassignAllFrame(shards', order[1..], removed, healthy, index', order[0]);
    } else {
      assert order[1..][k - 1] == order[k];
      ReassignAllAt(shards', order[1..], removed, healthy, index', k - 1);
    }
  }

  // What a removal does not always provide, with the exact conditions.
  ghost predicate ReassignedFrom(s: Shard, s': Shard, removed: NodeId, healthy: seq<NodeId>, index: nat)
    requires healthy != []
  {
    && s' == Reassign(s, removed, healthy, index).0
    && (s'.primary in s'.replicas <==> NewPrimary(s, removed, healthy, index) in Without(s.replicas, removed))
    && (|s'.replicas| >= ReplicaTarget(healthy) <==> EnoughOffered(s, removed, healthy, index))
  }

  lemma ReassignAllExact(shards: ShardMap, order: seq<ShardId>, removed: NodeId, healthy: seq<NodeId>, k: nat)
    requires healthy != [] && removed !in healthy && (forall x :: x in order ==> x in shards) && k < |order|
    requires forall i, j :: 0 <= i < j < |order| ==> order[i] != order[j]
    ensures
      var after := ReassignAll(shards, order, removed, healthy, 0);
      ReassignedFrom(shards[order[k]], after[order[k]], removed, healthy,
                     IndexAt(shards, order, removed, healthy, 0, k))
  {
    var index := IndexAt(shards, order, removed, healthy, 0, k);
    ReassignAllAt(shards, order, removed, healthy, 0, k);
    ReassignDisjoint(shards[order[k]], removed, healthy, index);
    ReassignReachesTarget(shards[order[k]], removed, healthy, index);
  }

  // What a removal makes of the whole map.
  ghost predicate ReassignedAll(before: ShardMap, after: ShardMap, order: seq<ShardId>, removed: NodeId,
                                healthy: seq<NodeId>)
    requires healthy != [] && (forall id :: id in order ==> id in before) && before.Keys == after.Keys
  {
    && (forall id :: id in before && id !in order ==> after[id] == before[id])
    && (forall k :: 0 <= k < |order| ==> Reassigned(before[order[k]], after[order[k]], removed, healthy))
    && (forall k :: 0 <= k < |order| ==>
          ReassignedFrom(before[order[k]], after[order[k]], removed, healthy,
                         IndexAt(before, order, removed, healthy, 0, k)))
  }

  lemma ReassignAllDone(shards: ShardMap, order: seq<ShardId>, removed: NodeId, healthy: seq<NodeId>)
    requires healthy != [] && removed !in healthy && forall id :: id in order ==> id in shards
    requires forall i, j :: 0 <= i < j < |order| ==> order[i] != order[j]
    ensures ReassignedAll(shards, ReassignAll(shards, order, removed, healthy, 0), order, removed, healthy)
  {
    var after := ReassignAll(shards, order, removed, healthy, 0);
    forall id | id in shards && id !in order
      ensures after[id] == shards[id]
    {
      ReassignAllFrame(shards, order, removed, healthy, 0, id);
    }
    forall k | 0 <= k < |order|
      ensures Reassigned(shards[order[k]], after[order[k]], removed, healthy)
      ensures ReassignedFrom(shards[order[k]], after[order[k]], removed, healthy,
                             IndexAt(shards, order, removed, healthy, 0, k))
    {
      ReassignAllMeets(shards, order, removed, healthy, 0, order[k]);
      ReassignAllExact(shards, order, removed, healthy, k);
    }
  }

  lemma TwoJoin(primary: NodeId, healthy: seq<NodeId>, index: nat)
    requires healthy != [] && index + 1 <= 2 * |healthy|
    requires Turn(healthy, index) != primary && Turn(healthy, index + 1) !in {primary, Turn(healthy, index)}
    ensures TopUp(primary, [], healthy, 2, index) == ([Turn(healthy, index), Turn(healthy, index + 1)], index + 2)
  {
    var x, y := Turn(healthy, index), Turn(healthy, index + 1);
    assert Join(primary, [], x) == [x] && Join(primary, [x], y) == [x, y];
    assert TopUp(primary, [x], healthy, 2, index + 1) == ([x, y], index + 2);
  }

  lemma OneJoins(primary: NodeId, healthy: seq<NodeId>, index: nat)
    requires healthy != [] && index >= 2 * |healthy| && Turn(healthy, index) != primary
    ensures TopUp(primary, [], healthy, 2, index) == ([Turn(healthy, index)], index + 1)
  {
    assert Join(primary, [], Turn(healthy, index)) == [Turn(healthy, index)];
  }

  lemma BareShardFills(healthy: seq<NodeId>, index: nat)
    requires healthy == ["b", "c", "d"] && index in {0, 3}
    ensures Reassign(Shard("a", []), "a", healthy, index) == (Shard("b", ["c", "d"]), index + 3)
  {
    assert Turn(healthy, index) == "b" && Turn(healthy, index + 1) == "c" && Turn(healthy, index + 2) == "d";
    TwoJoin("b", healthy, index + 1);
  }

  lemma BareShardFallsShort(healthy: seq<NodeId>)
    requires healthy == ["b", "c", "d"]
    ensures Reassign(Shard("a", []), "a", healthy, 6) == (Shard("b", ["c"]), 8)
  {
    assert Turn(healthy, 6) == "b" && Turn(healthy, 7) == "c";
    OneJoins("b", healthy, 7);
  }

  lemma IndexOfThird(shards: ShardMap, order: seq<ShardId>, removed: NodeId, healthy: seq<NodeId>)
    requires healthy != [] && (forall id :: id in order ==> id in shards) && |order| == 3
    requires forall i, j :: 0 <= i < j < |order| ==> order[i] != order[j]
    ensures IndexAt(shards, order, removed, healthy, 0, 2) ==
            Reassign(shards[order[1]], removed, healthy, Reassign(shards[order[0]], removed, healthy, 0).1).1
  {
    var (s, index) := Reassign(shards[order[0]], removed, healthy, 0);
    var one := shards[order[0] := s];
    assert order[1..][0] == order[1] && one[order[1]] == shards[order[1]];
    var (s', index') := Reassign(one[order[1]], removed, healthy, index);
    assert IndexAt(one[order[1] := s'], order[1..][1..], removed, healthy, index', 0) == index';
    assert IndexAt(one, order[1..], removed, healthy, index, 1) == index';
  }

  // Three shards without replicas lose their primary: the third is reached when the second round is
  // over, and is left with one replica instead of two.
  lemma RemovalRunsOutOfTurns(shards: ShardMap, order: seq<ShardId>)
    requires (forall id :: id in order ==> id in shards && shards[id] == Shard("a", [])) && |order| == 3
    requires forall i, j :: 0 <= i < j < |order| ==> order[i] != order[j]
    ensures ReassignAll(shards, order, "a", ["b", "c", "d"], 0)[order[2]] == Shard("b", ["c"])
    ensures ReplicaTarget(["b", "c", "d"]) == 2
  {
    ThirdInTurn(shards, order, ["b", "c", "d"]);
  }

  lemma ThirdInTurn(shards: ShardMap, order: seq<ShardId>, healthy: seq<NodeId>)
    requires (forall id :: id in order ==> id in shards && shards[id] == Shard("a", [])) && |order| == 3
    requires (forall i, j :: 0 <= i < j < |order| ==> order[i] != order[j]) && healthy == ["b", "c", "d"]
    ensures ReassignAll(shards, order, "a", healthy, 0)[order[2]] == Shard("b", ["c"])
  {
    BareShardFills(healthy, 0);
    BareShardFills(healthy, 3);
    BareShardFallsShort(healthy);
    IndexOfThird(shards, order, "a", healthy);
    ReassignAllAt(shards, order, "a", healthy, 0, 2);
  }

  // ---------- The manager ----------

  datatype Outcome = Done | NoHealthyNodes

  predicate IsHealthyOther(nodes: map<NodeId, NodeInfo>, failed: NodeId, id: NodeId) {
    id in nodes && id != failed && nodes[id].state == Healthy
  }

  // The nodes a failed node's shards may move to, each once, in the order the map yields them.
  ghost predicate ListsHealthy(nodes: map<NodeId, NodeInfo>, failed: NodeId, healthy: seq<NodeId>) {
    Distinct(healthy) && forall id :: id in healthy <==> IsHealthyOther(nodes, failed, id)
  }

  predicate TimedOut(info: NodeInfo, now: int, timeout: int) {
    now - info.lastHeartbeat > timeout && info.state == Healthy
  }

  function MarkTimedOut(nodes: map<NodeId, NodeInfo>, now: int, timeout: int): map<NodeId, NodeInfo> {
    map id | id in nodes :: if TimedOut(nodes[id], now, timeout) then nodes[id].(state := Unhealthy) else nodes[id]
  }

  // Exactly the healthy nodes not heard of for longer than the timeout become unhealthy; nothing else changes.
  lemma MarkedIff(nodes: map<NodeId, NodeInfo>, now: int, timeout: int, id: NodeId)
    requires id in nodes
    ensures
      var marked := MarkTimedOut(nodes, now, timeout);
      && marked.Keys == nodes.Keys && marked[id].lastHeartbeat == nodes[id].lastHeartbeat
      && (marked[id] != nodes[id] <==> nodes[id].state == Healthy && nodes[id].lastHeartbeat + timeout < now)
      && (marked[id] != nodes[id] ==> marked[id].state == Unhealthy)
  {
  }

  lemma OthersHealthy(nodes: map<NodeId, NodeInfo>, failures: seq<Failure>)
    requires forall i :: 0 <= i < |failures| ==>
      && failures[i].healthy != []
      && ListsHealthy(nodes, failures[i].node, failures[i].healthy)
      && failures[i].node in nodes && nodes[failures[i].node].state != Healthy
    ensures HealthyElsewhere(failures)
  {
  }

  method FindUnused(s: Shard, healthy: seq<NodeId>) returns (unused: seq<NodeId>)
    ensures unused == FirstUnused(s, healthy)
  {
    for i := 0 to |healthy|
      invariant FirstUnused(s, healthy) == FirstUnused(s, healthy[i..])
    {
      if healthy[i] != s.primary && healthy[i] !in s.replicas {
        return [healthy[i]];
      }
    }
    unused := [];
  }

  method RepairShard(s: Shard, failed: NodeId, healthy: seq<NodeId>) returns (s': Shard)
    ensures s' == Repair(s, failed, healthy)
  {
    var primary, replicas := s.primary, s.replicas;
    if primary == failed {
      if replicas != [] {
        primary, replicas := replicas[0], Without(replicas, replicas[0]);
      } else if healthy != [] {
        primary := healthy[0];
      }
    }
    replicas := Without(replicas, failed);
    if |replicas| < TARGET_REPLICAS && |replicas| < |healthy| {
      var unused := FindUnused(Shard(primary, replicas), healthy);
      replicas := replicas + unused;
    }
    s' := Shard(primary, replicas);
  }

  method TopUpReplicas(primary: NodeId, before: seq<NodeId>, healthy: seq<NodeId>, target: nat, index: nat)
    returns (replicas: seq<NodeId>, index': nat)
    requires healthy != []
    ensures (replicas, index') == TopUp(primary, before, healthy, target, index)
  {
    replicas, index' := before, index;
    while |replicas| < target
      invariant TopUp(primary, replicas, healthy, target, index') == TopUp(primary, before, healthy, target, index)
      decreases if index' <= 2 * |healthy| then 2 * |healthy| + 1 - index' else 0
    {
      replicas := Join(primary, replicas, Turn(healthy, index'));
      index' := index' + 1;
      if index' > |healthy| * 2 {
        break;
      }
    }
  }

  method ReassignShard(s: Shard, removed: NodeId, healthy: seq<NodeId>, index: nat) returns (s': Shard, index': nat)
    requires healthy != []
    ensures (s', index') == Reassign(s, removed, healthy, index)
  {
    var primary := s.primary;
    index' := index;
    if primary == removed {
      primary := Turn(healthy, index');
      index' := index' + 1;
    }
    var replicas;
    replicas, index' := TopUpReplicas(primary, Without(s.replicas, removed), healthy, ReplicaTarget(healthy), index');
    s' := Shard(primary, replicas);
  }

  class ClusterManager {
    var nodes: map<NodeId, NodeInfo>
    var shards: ShardMap
    var version: nat

    method HealthyOthers(failed: NodeId) returns (healthy: seq<NodeId>)
      ensures ListsHealthy(nodes, failed, healthy)
    {
      healthy := [];
      var rest := nodes.Keys;
      while rest != {}
        invariant rest <= nodes.Keys && Distinct(healthy)
        invariant forall id :: id in healthy <==> IsHealthyOther(nodes, failed, id) && id !in rest
      {
        var id :| id in rest;
        rest := rest - {id};
        if id != failed && nodes[id].state == Healthy {
          healthy := healthy + [id];
        }
      }
    }

    method AffectedShards(node: NodeId) returns (affected: seq<ShardId>)
      ensures forall id :: id in affected <==> id in shards && References(shards[id], node)
      ensures forall i, j :: 0 <= i < j < |affected| ==> affected[i] != affected[j]
    {
      affected := [];
      var rest := shards.Keys;
      while rest != {}
        invariant rest <= shards.Keys
        invariant forall id :: id in affected <==> id in shards && References(shards[id], node) && id !in rest
        invariant forall i, j :: 0 <= i < j < |affected| ==> affected[i] != affected[j]
      {
        var id :| id in rest;
        rest := rest - {id};
        if References(shards[id], node) {
          affected := affected + [id];
        }
      }
    }

    method HandleNodeFailure(failed: NodeId) returns (outcome: Outcome, ghost healthy: seq<NodeId>)
      modifies `shards, `version
      ensures ListsHealthy(nodes, failed, healthy)
      ensures outcome == NoHealthyNodes <==> forall id :: !IsHealthyOther(nodes, failed, id)
      ensures outcome == NoHealthyNodes ==> shards == old(shards) && version == old(version)
      ensures outcome == Done ==>
                shards == RepairAll(old(shards), Failure(failed, healthy)) && version == old(version) + 1
    {
      var affected := AffectedShards(failed);
      var others := HealthyOthers(failed);
      healthy := others;
      if others == [] {
        return NoHealthyNodes, healthy;
      }
      assert IsHealthyOther(nodes, failed, others[0]);
      var i := 0;
      while i < |affected|
        invariant 0 <= i <= |affected| && shards.Keys == old(shards).Keys && version == old(version)
        invariant forall id :: id in shards ==>
          shards[id] == if id in affected[..i] then Repair(old(shards)[id], failed, others) else old(shards)[id]
      {
        var id := affected[i];
        assert id !in affected[..i];
        var s := RepairShard(shards[id], failed, others);
        shards := shards[id := s];
        assert affected[..i + 1] == affected[..i] + [id];
        i := i + 1;
      }
      assert affected[..i] == affected;
      version := version + 1;
      return Done, healthy;
    }

    method MarkFailed(now: int, timeout: int) returns (failed: seq<NodeId>)
      modifies `nodes
      ensures nodes == MarkTimedOut(old(nodes), now, timeout)
      ensures forall id :: id in failed <==> id in old(nodes) && TimedOut(old(nodes)[id], now, timeout)
      ensures Distinct(failed)
    {
      failed := [];
      var rest := nodes.Keys;
      while rest != {}
        invariant rest <= nodes.Keys == old(nodes).Keys && Distinct(failed)
        invariant forall id :: id in nodes ==>
          nodes[id] == if id in rest then old(nodes)[id] else MarkTimedOut(old(nodes), now, timeout)[id]
        invariant forall id :: id in failed <==> id in nodes && id !in rest && TimedOut(old(nodes)[id], now, timeout)
      {
        var id :| id in rest;
        rest := rest - {id};
        if TimedOut(nodes[id], now, timeout) {
          nodes := nodes[id := nodes[id].(state := Unhealthy)];
          failed := failed + [id];
        }
      }
    }

    method HandleFailures(failed: seq<NodeId>) returns (outcome: Outcome, ghost failures: seq<Failure>)
      requires forall id :: id in failed ==> id in nodes && nodes[id].state != Healthy
      modifies `shards, `version
      ensures shards == AfterFailures(old(shards), failures) && version == old(version) + |failures|
      ensures forall f :: f in failures ==> f.healthy != [] && ListsHealthy(nodes, f.node, f.healthy)
      ensures outcome == Done ==> NodesOf(failures) == failed
      ensures outcome == NoHealthyNodes ==> failures == []
      ensures outcome == NoHealthyNodes <==> failed != [] && forall id :: id in nodes ==> nodes[id].state != Healthy
    {
      failures := [];
      var i := 0;
      while i < |failed|
        invariant 0 <= i <= |failed|
        invariant |failures| == i && NodesOf(failures) == failed[..i]
        invariant shards == AfterFailures(old(shards), failures) && version == old(version) + |failures|
        invariant forall f :: f in failures ==> f.healthy != [] && ListsHealthy(nodes, f.node, f.healthy)
        invariant i > 0 ==> exists id :: id in nodes && nodes[id].state == Healthy
      {
        ghost var healthy;
        outcome, healthy := HandleNodeFailure(failed[i]);
        if outcome == NoHealthyNodes {
          forall id | id in nodes
            ensures nodes[id].state != Healthy
          {
            assert !IsHealthyOther(nodes, failed[i], id);
          }
          return;
        }
        assert IsHealthyOther(nodes, failed[i], healthy[0]);
        AfterOneMore(old(shards), failures, Failure(failed[i], healthy));
        assert failed[..i + 1] == failed[..i] + [failed[i]];
        failures := failures + [Failure(failed[i], healthy)];
        i := i + 1;
      }
      outcome := Done;
    }

    // All timed-out nodes are marked before the first is handled.
    method MonitorClusterHealth(now: int, timeout: int) returns (outcome: Outcome, ghost failures: seq<Failure>)
      modifies this
      ensures nodes == MarkTimedOut(old(nodes), now, timeout)
      ensures shards == AfterFailures(old(shards), failures) && version == old(version) + |failures|
      ensures AllCleared(old(shards), shards, failures)
      ensures outcome == Done ==>
        forall id :: id in nodes && TimedOut(old(nodes)[id], now, timeout) <==>
          exists i :: 0 <= i < |failures| && failures[i].node == id
      ensures outcome == NoHealthyNodes ==> failures == []
      ensures outcome == NoHealthyNodes <==>
        && (exists id :: id in old(nodes) && TimedOut(old(nodes)[id], now, timeout))
        && (forall id :: id in nodes ==> nodes[id].state != Healthy)
    {
      var timedOut := MarkFailed(now, timeout);
      if timedOut != [] {
        assert timedOut[0] in timedOut;
      }
      outcome, failures := HandleFailures(timedOut);
      if outcome == Done {
        forall i | 0 <= i < |failures|
          ensures failures[i].node in nodes && nodes[failures[i].node].state != Healthy
        {
          assert failures[i].node in timedOut;
        }
      }
      OthersHealthy(nodes, failures);
      FailuresClearAll(old(shards), failures);
    }

    method RebalanceAfterRemoval(removed: NodeId)
      returns (outcome: Outcome, ghost order: seq<ShardId>, ghost healthy: seq<NodeId>)
      modifies `shards
      ensures ListsHealthy(nodes, removed, healthy)
      ensures forall id :: id in order <==> id in old(shards) && References(old(shards)[id], removed)
      ensures forall i, j :: 0 <= i < j < |order| ==> order[i] != order[j]
      ensures outcome == NoHealthyNodes <==> order != [] && healthy == []
      ensures outcome == NoHealthyNodes || order == [] ==> shards == old(shards)
      ensures outcome == Done && healthy != [] ==> shards == ReassignAll(old(shards), order, removed, healthy, 0)
    {
      var affected := AffectedShards(removed);
      var others := HealthyOthers(removed);
      order, healthy := affected, others;
      if affected == [] {
        return Done, order, healthy;
      }
      if others == [] {
        return NoHealthyNodes, order, healthy;
      }
      var index, i := 0, 0;
      while i < |affected|
        invariant 0 <= i <= |affected| && shards.Keys == old(shards).Keys
        invariant ReassignAll(shards, affected[i..], removed, others, index) ==
                    ReassignAll(old(shards), affected, removed, others, 0)
      {
        var id := affected[i];
        assert affected[i..][0] == id && affected[i..][1..] == affected[i + 1..];
        var s;
        s, index := ReassignShard(shards[id], removed, others, index);
        shards := shards[id := s];
        i := i + 1;
      }
      return Done, order, healthy;
    }

    // Afterwards no shard names the removed node, unless no healthy node was left.
    method RemoveNode(removed: NodeId)
      returns (outcome: Outcome, ghost order: seq<ShardId>, ghost healthy: seq<NodeId>)
      modifies this
      ensures nodes == old(nodes) - {removed} && ListsHealthy(nodes, removed, healthy)
      ensures version == if removed in old(nodes) then old(version) + 1 else old(version)
      ensures shards.Keys == old(shards).Keys
      ensures forall id :: id in order <==>
                id in shards && removed in old(nodes) && References(old(shards)[id], removed)
      ensures outcome == NoHealthyNodes <==> order != [] && healthy == []
      ensures outcome == NoHealthyNodes ==> shards == old(shards)
      ensures order == [] ==> shards == old(shards)
      ensures outcome == Done && healthy != [] ==> ReassignedAll(old(shards), shards, order, removed, healthy)
    {
      if removed !in nodes {
        assert nodes == nodes - {removed};
        healthy := HealthyOthers(removed);
        return Done, [], healthy;
      }
      nodes := nodes - {removed};
      version := version + 1;
      outcome, order, healthy := RebalanceAfterRemoval(removed);
      if outcome == Done && healthy != [] {
        ReassignAllDone(old(shards), order, removed, healthy);
      }
    }
  }
}
