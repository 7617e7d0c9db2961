/** Laws of the message handlers of a single node, for every state and every request. */
module RaftHandlers {
  import opened Wrappers
  import opened RaftProtocol
  import opened RaftReigns

  // Both counts are the same majority, for every number of peers, and two sets of nodes of that
  // size share a node.
  lemma QuorumsAgreeAndMeet(peers: nat, q: set<NodeId>, r: set<NodeId>)
    requires (forall v :: v in q ==> v < peers + 1) && (forall v :: v in r ==> v < peers + 1)
    requires |q| >= ReplicationQuorum(peers) && |r| >= ElectionQuorum(peers)
    ensures ReplicationQuorum(peers) == ElectionQuorum(peers)
    ensures exists v :: v in q && v in r
  {
    var v := QuorumsMeet(q, r, peers + 1);
  }

  // That is the smallest number with this property: two sets of one node less need not meet.
  lemma FewerNeedNotMeet(peers: nat)
    ensures ElectionQuorum(peers) >= 1
    ensures
      var fewer := ElectionQuorum(peers) - 1;
      exists q: set<NodeId>, r: set<NodeId> ::
        && |q| == |r| == fewer && q !! r
        && (forall v :: v in q + r ==> v < peers + 1)
  {
    var fewer := ElectionQuorum(peers) - 1;
    var q, r := Between(0, fewer), Between(fewer, 2 * fewer);
    assert q !! r;
  }

  // The nodes numbered from `low` to below `high`.
  function Between(low: nat, high: nat): (ids: set<NodeId>)
    requires low <= high
    ensures |ids| == high - low && forall v :: v in ids <==> low <= v < high
    decreases high
  {
    if low == high then {} else Between(low, high - 1) + {high - 1}
  }

  // Entry i carries index i + 1.
  predicate Numbered(log: seq<LogEntry>) { forall i :: 0 <= i < |log| ==> log[i].index == i + 1 }

  predicate Ascending(log: seq<LogEntry>) { forall i, j :: 0 <= i < j < |log| ==> log[i].term <= log[j].term }

  // A vote is granted exactly when the term is not past, the vote is free in it, and the candidate's last
  // entry is of a later term than the voter's, or of the same term and no earlier in the log.
  lemma VoteGrantedIff(n: Node, id: NodeId, candidate: Node)
    requires Numbered(candidate.log)
    ensures
      var mine, theirs := n.log, candidate.log;
      OnVoteRequest(n, BallotOf(id, candidate)).1.voteGranted <==>
        && candidate.currentTerm >= n.currentTerm
        && (candidate.currentTerm > n.currentTerm || n.votedFor == None || n.votedFor == Some(id))
        && (|mine| > 0 ==>
              && |theirs| > 0
              && (|| theirs[|theirs| - 1].term > mine[|mine| - 1].term
                  || (theirs[|theirs| - 1].term == mine[|mine| - 1].term && |theirs| >= |mine|)))
  {
  }

  // A node with a free vote and no later term grants the ballot of every candidate whose log extends its own.
  lemma ExtendedLogGetsVote(n: Node, id: NodeId, candidate: Node)
    requires Numbered(candidate.log) && Ascending(candidate.log) && n.log <= candidate.log
    requires candidate.currentTerm >= n.currentTerm
    requires candidate.currentTerm > n.currentTerm || n.votedFor == None || n.votedFor == Some(id)
    ensures
      var (n', response) := OnVoteRequest(n, BallotOf(id, candidate));
      response == VoteResponse(candidate.currentTerm, true) && n'.votedFor == Some(id)
  {
    VoteGrantedIff(n, id, candidate);
    if n.log != [] {
      assert candidate.log[|n.log| - 1] == n.log[|n.log| - 1];
    }
  }

  // Whatever is asked of it, a node answers with the later of both terms, and a vote changes nothing else.
  lemma VotesOnlyVote(n: Node, r: VoteRequest)
    ensures
      var (n', response) := OnVoteRequest(n, r);
      && n'.currentTerm == response.term == Max(n.currentTerm, r.term)
      && (response.voteGranted ==> n'.votedFor == Some(r.candidateId))
      && (!response.voteGranted ==> n'.votedFor == if r.term > n.currentTerm then None else n.votedFor)
      && n'.role == (if r.term > n.currentTerm then Follower else n.role)
      && n' == n.(currentTerm := n'.currentTerm, votedFor := n'.votedFor, role := n'.role)
  {
  }

  // Of any two well-formed logs at least one gets the other's free vote.
  lemma OneGetsVote(a: Node, b: Node, idA: NodeId, idB: NodeId, term: Term)
    requires Numbered(a.log) && Numbered(b.log) && term > a.currentTerm && term > b.currentTerm
    ensures
      || OnVoteRequest(b, BallotOf(idA, a.(currentTerm := term))).1.voteGranted
      || OnVoteRequest(a, BallotOf(idB, b.(currentTerm := term))).1.voteGranted
  {
  }

  // Who gets a vote that gets a vote also gets the first vote.
  lemma VotesTransitive(a: Node, b: Node, c: Node, idA: NodeId, idB: NodeId, term: Term)
    requires Numbered(a.log) && Numbered(b.log) && term > b.currentTerm && term > c.currentTerm
    requires OnVoteRequest(b, BallotOf(idA, a.(currentTerm := term))).1.voteGranted
    requires OnVoteRequest(c, BallotOf(idB, b.(currentTerm := term))).1.voteGranted
    ensures OnVoteRequest(c, BallotOf(idA, a.(currentTerm := term))).1.voteGranted
  {
  }

  // Within a term a node that granted its vote refuses every other candidate.
  lemma OneVotePerTerm(n: Node, first: VoteRequest, second: VoteRequest)
    requires GrantsVote(n, first) && first.term == second.term && first.candidateId != second.candidateId
    ensures !GrantsVote(OnVoteRequest(n, first).0, second)
  {
  }

  // A candidate that lost may vote for another candidate of the term it stood in, if and only if
  // that candidate's log is at least as up to date as its own.
  lemma LoserVotesAgain(id: NodeId, n: Node, granted: nat, peers: nat, r: VoteRequest)
    requires n.role != Leader && granted + 1 < ElectionQuorum(peers)
    requires r.term == n.currentTerm + 1 && r.candidateId != id
    ensures
      var loser := OnElectionEnd(OnElectionStart(id, n), granted, peers);
      && !GrantsVote(OnElectionStart(id, n), r)
      && (GrantsVote(loser, r) <==> AtLeastAsUpToDate(r.lastLogIndex, r.lastLogTerm, n.log))
  {
  }

  // The log becomes what the leader meant, the prefix followed by the entries, exactly when no entry
  // beyond the first conflicts; a heartbeat leaves the log alone instead.
  lemma ReconcileIsExact(log: seq<LogEntry>, prev: nat, entries: seq<LogEntry>)
    requires prev <= |log|
    ensures entries == [] ==> Reconcile(log, prev, entries) == log
    ensures entries != [] ==>
              (Reconcile(log, prev, entries) == log[..prev] + entries <==>
               FirstConflict(log, prev, entries) in {None, Some(prev)})
  {
    if entries != [] {
      var c := FirstConflict(log, prev, entries);
      if c.Some? && c.value > prev {
        assert |Reconcile(log, prev, entries)| == c.value + |entries| > |log[..prev] + entries|;
      }
    }
  }

  // With two entries of which the second conflicts, the first is written twice.
  lemma ConflictBeyondFirstRepeatsEntry(a: LogEntry, b: LogEntry, c: LogEntry)
    requires b.term != c.term
    ensures Reconcile([a, b], 0, [a, c]) == [a, a, c]
  {
    assert FirstConflict([a, b], 1, [a, c][1..]) == Some(1);
    assert [a, b][..1] == [a];
  }

  // An accepted one-entry request keeps the first k entries exactly when they lie below its previous
  // index, or the entry itself was already there.
  lemma AcceptedAppendKeeps(n: Node, r: AppendRequest, k: nat)
    requires Accepts(n, r) && |r.entries| == 1 && r.prevLogIndex <= |n.log| && k <= |n.log|
    ensures
      var log' := OnAppendRequest(n, r).0.log;
      (k <= |log'| && log'[..k] == n.log[..k]) <==>
      (k <= r.prevLogIndex || (k == r.prevLogIndex + 1 && n.log[r.prevLogIndex] == r.entries[0]))
  {
    var p := r.prevLogIndex;
    var log' := OnAppendRequest(n, r).0.log;
    assert FirstConflict(n.log, p, r.entries) in {None, Some(p)};
    assert log' == n.log[..p] + r.entries;
    if k <= p {
      assert log'[..k] == n.log[..k];
    } else if k == p + 1 {
      assert log'[..k] == log';
      assert log'[p] == r.entries[0] && n.log[..k][p] == n.log[p];
      if n.log[p] == r.entries[0] {
        assert n.log[..k] == n.log[..p] + [n.log[p]];
      }
    }
  }

  // Handled again after a later one, an append takes back the later one's entry, although the node
  // has acknowledged it: the reason why appends must not arrive out of order.
  lemma LateAppendDropsAcknowledgedEntry(n: Node, first: AppendRequest, second: AppendRequest)
    requires n.log == [] && n.currentTerm <= first.term == second.term
    requires first.prevLogIndex == 0 && |first.entries| == 1
    requires second.prevLogIndex == 1 && |second.entries| == 1 && second.prevLogTerm == first.entries[0].term
    ensures
      var one := OnAppendRequest(n, first);
      var two := OnAppendRequest(one.0, second);
      var late := OnAppendRequest(two.0, first);
      && one.1.success && two.1.success && late.1.success
      && two.0.log == first.entries + second.entries
      && late.0.log == first.entries
  {
    var one := OnAppendRequest(n, first).0;
    assert one.log == first.entries;
    var two := OnAppendRequest(one, second).0;
    assert two.log == first.entries + second.entries;
    var late := OnAppendRequest(two, first).0;
    assert FirstConflict(two.log, 0, first.entries) == None;
    assert late.log == two.log[..0] + first.entries;
  }

  // A leader's request reaches its purpose with every follower that agrees with the leader up to the entry
  // before, whatever it holds beyond: the follower's log becomes the leader's.
  lemma ReplicationReaches(n: Node, id: NodeId, leader: Node)
    requires leader.log != [] && Numbered(leader.log) && n.currentTerm <= leader.currentTerm
    requires leader.log[..|leader.log| - 1] <= n.log
    ensures
      var (n', response) := OnAppendRequest(n, ReplicationRequest(id, leader));
      && response == AppendResponse(leader.currentTerm, true, |leader.log|)
      && n'.log == leader.log && n'.currentTerm == leader.currentTerm
      && n'.commitIndex == Max(n.commitIndex, Min(leader.commitIndex, |leader.log|))
      && (n'.lastApplied, n'.storage) == (n.lastApplied, n.storage)
  {
    var p := |leader.log| - 1;
    var r := ReplicationRequest(id, leader);
    assert r.prevLogIndex == p;
    assert p > 0 ==> n.log[p - 1] == leader.log[p - 1];
    assert FirstConflict(n.log, p, r.entries) in {None, Some(p)};
    assert n.log[..p] == leader.log[..p];
    assert leader.log == leader.log[..p] + r.entries;
  }

  // A heartbeat leaves the log of a follower that holds the leader's as it is and passes the commit index on.
  lemma HeartbeatReaches(n: Node, id: NodeId, leader: Node)
    requires Numbered(leader.log) && n.currentTerm <= leader.currentTerm && leader.log <= n.log
    ensures
      var (n', response) := OnAppendRequest(n, HeartbeatRequest(id, leader));
      && response == AppendResponse(leader.currentTerm, true, |n.log|)
      && n'.log == n.log && n'.currentTerm == leader.currentTerm
      && n'.commitIndex == Max(n.commitIndex, Min(leader.commitIndex, |n.log|))
  {
    if leader.log != [] {
      assert n.log[|leader.log| - 1] == leader.log[|leader.log| - 1];
    }
  }

  // A request of a past term, or whose previous entry is missing or of another term, is refused and changes
  // no more than the term and what goes with it.
  lemma RefusedAppendKeeps(n: Node, r: AppendRequest)
    ensures
      var (n', response) := OnAppendRequest(n, r);
      && response.term == n'.currentTerm == Max(n.currentTerm, r.term)
      && (!response.success <==>
            || r.term < n.currentTerm
            || r.prevLogIndex > |n.log|
            || (r.prevLogIndex > 0 && n.log[r.prevLogIndex - 1].term != r.prevLogTerm))
      && (!response.success ==>
            && response.matchIndex == 0
            && n' == if r.term <= n.currentTerm then n
                 else n.(currentTerm := r.term, votedFor := None, role := Follower))
  {
  }

  // ---------- The state machine ----------

  // How many points there are up to the last one of an id; none without one.
  function UpToLast(points: seq<Point>, id: string): (n: nat)
    ensures n <= |points|
    ensures n > 0 ==> points[n - 1].id == id
    ensures forall j :: n <= j < |points| ==> points[j].id != id
  {
    if points == [] || points[|points| - 1].id == id then |points| else UpToLast(points[..|points| - 1], id)
  }

  // Of several points under one id the last is stored; points under other ids stay.
  lemma {:induction false} LastPointStored(vectors: map<string, Point>, points: seq<Point>, id: string)
    ensures
      var stored, n := StorePoints(vectors, points), UpToLast(points, id);
      && (id in stored <==> id in vectors || n > 0)
      && (id in stored ==> stored[id] == if n > 0 then points[n - 1] else vectors[id])
  {
    if points != [] {
      LastPointStored(vectors, points[..|points| - 1], id);
    }
  }

  // An upsert stores the last point given for each id and touches no shard.
  lemma UpsertEffect(storage: Storage, points: seq<Point>, shardId: nat, id: string)
    ensures
      var storage', n := ApplyCommand(storage, Upsert(points, shardId)), UpToLast(points, id);
      && storage'.shards == storage.shards
      && (id in storage'.vectors <==> id in storage.vectors || n > 0)
      && (id in storage'.vectors ==> storage'.vectors[id] == if n > 0 then points[n - 1] else storage.vectors[id])
  {
    LastPointStored(storage.vectors, points, id);
  }

  // A deletion removes exactly the ids given.
  lemma DeleteEffect(storage: Storage, ids: seq<string>, shardId: nat, id: string)
    ensures
      var storage' := ApplyCommand(storage, Delete(ids, shardId));
      && storage'.shards == storage.shards
      && (id in storage'.vectors <==> id in storage.vectors && id !in ids)
      && (id in storage'.vectors ==> storage'.vectors[id] == storage.vectors[id])
  {
  }

  // Creating a shard records its range, dropping one forgets it; other shards and all vectors stay.
  lemma ShardEffects(storage: Storage, shardId: nat, hashRange: (nat, nat), other: nat)
    ensures
      var created := ApplyCommand(storage, CreateShard(shardId, hashRange));
      && created.vectors == storage.vectors
      && shardId in created.shards && created.shards[shardId] == hashRange
      && (other != shardId ==>
            && (other in created.shards <==> other in storage.shards)
            && (other in created.shards ==> created.shards[other] == storage.shards[other]))
    ensures
      var dropped := ApplyCommand(storage, DropShard(shardId));
      && dropped.vectors == storage.vectors
      && (other in dropped.shards <==> other in storage.shards && other != shardId)
      && (other in dropped.shards ==> dropped.shards[other] == storage.shards[other])
  {
  }

  // Deleting what was just stored leaves the vectors that were there before, without those ids.
  lemma DeleteUndoesUpsert(storage: Storage, points: seq<Point>, ids: seq<string>, shardId: nat)
    requires forall id :: id in ids <==> exists i :: 0 <= i < |points| && points[i].id == id
    ensures ApplyCommand(ApplyCommand(storage, Upsert(points, shardId)), Delete(ids, shardId)) ==
            ApplyCommand(storage, Delete(ids, shardId))
  {
    var stored, removed := StorePoints(storage.vectors, points), IdSet(ids);
    forall id
      ensures id in stored - removed <==> id in storage.vectors - removed
      ensures id in storage.vectors - removed ==> stored[id] == storage.vectors[id]
    {
      LastPointStored(storage.vectors, points, id);
    }
    assert stored - removed == storage.vectors - removed;
  }
}
