/** A Raft node as its event loop changes it. */
module RaftEventLoop {
  import opened Wrappers
  import opened RaftProtocol

  class RaftNode {
    const id: NodeId
    const peers: seq<NodeId>
    var role: Role
    var currentTerm: Term
    var votedFor: Option<NodeId>
    var log: seq<LogEntry>
    var commitIndex: LogIndex
    var lastApplied: LogIndex
    var storage: Storage

    // The value this object stands for.
    function View(): Node
      reads this
    {
      Node(role, currentTerm, votedFor, log, commitIndex, lastApplied, storage)
    }

    constructor (id: NodeId, peers: seq<NodeId>)
      ensures View() == FRESH_NODE && this.id == id && this.peers == peers
    {
      this.id, this.peers := id, peers;
      role, currentTerm, votedFor := Follower, 0, None;
      log, commitIndex, lastApplied := [], 0, 0;
      storage := EMPTY_STORAGE;
    }

    method HandleVoteRequest(r: VoteRequest) returns (response: VoteResponse)
      modifies this
      ensures (View(), response) == OnVoteRequest(old(View()), r)
    {
      if r.term > currentTerm {
        currentTerm := r.term;
        votedFor := None;
        role := Follower;
      }
      var granted := false;
      if r.term < currentTerm {
        granted := false;
      } else if votedFor.Some? && votedFor != Some(r.candidateId) {
        granted := false;
      } else {
        var lastLogIndex := |log|;
        var lastLogTerm := if log == [] then 0 else log[|log| - 1].term;
        if r.lastLogTerm > lastLogTerm || (r.lastLogTerm == lastLogTerm && r.lastLogIndex >= lastLogIndex) {
          votedFor := Some(r.candidateId);
          granted := true;
        }
      }
      response := VoteResponse(currentTerm, granted);
    }

    static method FindConflict(log: seq<LogEntry>, start: nat, entries: seq<LogEntry>) returns (conflict: Option<nat>)
      ensures conflict == FirstConflict(log, start, entries)
    {
      var i := 0;
      ghost var rest := entries;
      while i < |entries|
        invariant i <= |entries| && rest == entries[i..]
        invariant FirstConflict(log, start + i, rest) == FirstConflict(log, start, entries)
      {
        var at := start + i;
        if at >= |log| {
          return None;
        }
        if log[at].term != entries[i].term {
          return Some(at);
        }
        rest := rest[1..];
        i := i + 1;
      }
      return None;
    }

    method HandleLogEntries(r: AppendRequest) returns (success: bool, matchIndex: LogIndex)
      requires r.prevLogIndex <= |log|
      modifies this`log
      ensures log == Reconcile(old(log), r.prevLogIndex, r.entries)
      ensures success && matchIndex == |log|
    {
      if r.entries == [] {
        return true, |log|;
      }
      var start := r.prevLogIndex;
      var conflict := FindConflict(log, start, r.entries);
      match conflict {
        case Some(at) => log := log[..at];
        case None => log := log[..start];
      }
      label truncated:
      var k := 0;
      while k < |r.entries|
        invariant k <= |r.entries|
        invariant log == old@truncated(log) + r.entries[..k]
      {
        log := log + [r.entries[k]];
        k := k + 1;
      }
      assert r.entries[..k] == r.entries;
      return true, |log|;
    }

    method HandleAppendRequest(r: AppendRequest) returns (response: AppendResponse)
      modifies this
      ensures (View(), response) == OnAppendRequest(old(View()), r)
    {
      if r.term > currentTerm {
        currentTerm := r.term;
        votedFor := None;
        role := Follower;
      }
      var success, matchIndex := false, 0;
      if r.term < currentTerm {
        success, matchIndex := false, 0;
      } else if r.prevLogIndex > 0 {
        if r.prevLogIndex > |log| {
          success, matchIndex := false, 0;
        } else if log[r.prevLogIndex - 1].term == r.prevLogTerm {
          success, matchIndex := HandleLogEntries(r);
        } else {
          success, matchIndex := false, 0;
        }
      } else {
        success, matchIndex := HandleLogEntries(r);
      }
      if success && r.leaderCommit > commitIndex {
        var newCommitIndex := if r.leaderCommit <= |log| then r.leaderCommit else |log|;
        if newCommitIndex > commitIndex {
          commitIndex := newCommitIndex;
        }
      }
      response := AppendResponse(currentTerm, success, matchIndex);
    }

    // Stand for election in the next term; the ballot goes to every peer.
    method StartElection() returns (ballot: VoteRequest)
      modifies this
      ensures View() == OnElectionStart(id, old(View()))
      ensures ballot == BallotOf(id, View())
    {
      role := Candidate;
      currentTerm := currentTerm + 1;
      votedFor := Some(id);
      var lastLogIndex, lastLogTerm := 0, 0;
      if log != [] {
        lastLogIndex, lastLogTerm := log[|log| - 1].index, log[|log| - 1].term;
      }
      ballot := VoteRequest(currentTerm, id, lastLogIndex, lastLogTerm);
    }

    // Count the votes that arrived before the timeout, one answer per peer that gave one.
    method EndElection(answers: seq<bool>)
      modifies this
      ensures View() == OnElectionEnd(old(View()), multiset(answers)[true], |peers|)
    {
      var count := CountTrue(answers);
      var totalNodes := |peers| + 1;
      var requiredVotes := totalNodes / 2 + 1;
      if count + 1 >= requiredVotes {
        role := Leader;
      } else {
        role := Follower;
        votedFor := None;
      }
    }

    static method CountTrue(answers: seq<bool>) returns (count: nat)
      ensures count == multiset(answers)[true]
    {
      count := 0;
      for i := 0 to |answers|
        invariant count == multiset(answers[..i])[true]
      {
        assert answers[..i + 1] == answers[..i] + [answers[i]];
        if answers[i] {
          count := count + 1;
        }
      }
      assert answers[..|answers|] == answers;
    }

    // Only a leader takes a command; it writes the entry and hands out the request to replicate it.
    method HandleClientCommand(command: VectorCommand) returns (request: Result<AppendRequest>)
      modifies this
      ensures old(role) != Leader ==> request.Failure? && View() == old(View())
      ensures old(role) == Leader ==>
                && View() == OnClientCommand(old(View()), command)
                && request == Success(ReplicationRequest(id, View()))
    {
      if role != Leader {
        return Failure("only the leader takes client commands");
      }
      var index := |log| + 1;
      var entry := LogEntry(index, currentTerm, command);
      log := log + [entry];
      var prevLogIndex, prevLogTerm := 0, 0;
      assert log[..|log| - 1] == old(log);
      if entry.index > 1 {
        var prevEntry := log[entry.index - 2];
        prevLogIndex, prevLogTerm := prevEntry.index, prevEntry.term;
      }
      return Success(AppendRequest(currentTerm, id, prevLogIndex, prevLogTerm, [entry], commitIndex));
    }

    // Count the answers to a replication; a majority commits the entry and applies what is committed.
    method EndReplication(request: AppendRequest, answers: seq<bool>) returns (committed: bool)
      requires |request.entries| == 1 && request.entries[0].index <= |log|
      requires commitIndex <= |log|
      modifies this
      ensures committed <==> multiset(answers)[true] + 1 >= ReplicationQuorum(|peers|)
      ensures
        var counted := OnReplicationEnd(old(View()), request.entries[0].index, multiset(answers)[true], |peers|);
        View() == if counted.commitIndex > old(commitIndex) then AppliedUpTo(counted, counted.commitIndex) else counted
    {
      var count := CountTrue(answers);
      var requiredCount := (|peers| + 1) / 2 + 1;
      if count + 1 >= requiredCount {
        if request.entries[0].index > commitIndex {
          commitIndex := request.entries[0].index;
          ApplyCommittedEntries();
        }
        return true;
      }
      return false;
    }

    method SendHeartbeat() returns (request: AppendRequest)
      ensures request == HeartbeatRequest(id, View())
    {
      var lastLogIndex, lastLogTerm := 0, 0;
      if log != [] {
        lastLogIndex, lastLogTerm := log[|log| - 1].index, log[|log| - 1].term;
      }
      request := AppendRequest(currentTerm, id, lastLogIndex, lastLogTerm, [], commitIndex);
    }

    method ApplyCommittedEntries()
      requires commitIndex <= |log|
      modifies this`lastApplied, this`storage
      ensures View() == AppliedUpTo(old(View()), commitIndex)
    {
      while lastApplied < commitIndex
        invariant commitIndex == old(commitIndex) <= |log|
        invariant AppliedUpTo(View(), commitIndex) == AppliedUpTo(old(View()), commitIndex)
        invariant View() == old(View()).(lastApplied := lastApplied, storage := storage)
      {
        label turn:
        var entry := log[lastApplied];
        lastApplied := lastApplied + 1;
        storage := Execute(storage, entry.command);
        assert View() == ApplyNext(old@turn(View()));
      }
    }

    static method Execute(before: Storage, command: VectorCommand) returns (after: Storage)
      ensures after == ApplyCommand(before, command)
    {
      after := before;
      match command
      case Upsert(points, _) =>
        for i := 0 to |points|
          invariant after == before.(vectors := StorePoints(before.vectors, points[..i]))
        {
          assert points[..i + 1][..i] == points[..i];
          after := after.(vectors := after.vectors[points[i].id := points[i]]);
        }
        assert points[..|points|] == points;
      case Delete(pointIds, _) =>
        for i := 0 to |pointIds|
          invariant after == before.(vectors := before.vectors - IdSet(pointIds[..i]))
        {
          assert IdSet(pointIds[..i + 1]) == IdSet(pointIds[..i]) + {pointIds[i]};
          after := after.(vectors := after.vectors - {pointIds[i]});
        }
        assert pointIds[..|pointIds|] == pointIds;
      case CreateShard(shardId, hashRange) =>
        after := after.(shards := after.shards[shardId := hashRange]);
      case DropShard(shardId) =>
        after := after.(shards := after.shards - {shardId});
    }

    // Succeeds exactly when the terms of the log never descend.
    method VerifyLogConsistency() returns (ok: bool)
      ensures ok <==> forall i, j :: 0 <= i < j < |log| ==> log[i].term <= log[j].term
    {
      var prevTerm := 0;
      for i := 0 to |log|
        invariant i > 0 ==> prevTerm == log[i - 1].term
        invariant i == 0 ==> prevTerm == 0
        invariant forall a, b :: 0 <= a < b < i ==> log[a].term <= log[b].term
      {
        if log[i].term < prevTerm {
          return false;
        }
        prevTerm := log[i].term;
      }
      return true;
    }
  }

  // The node after its apply loop has caught up with the given index.
  function AppliedUpTo(n: Node, index: LogIndex): Node
    requires index <= |n.log|
    decreases index - n.lastApplied
  {
    if n.lastApplied < index then AppliedUpTo(ApplyNext(n), index) else n
  }

  // A node whose storage replays what it has applied, and which then applies all it has committed,
  // holds the replay of its committed log.
  lemma {:induction false} CaughtUpStorage(n: Node, index: LogIndex)
    requires n.lastApplied <= index <= |n.log| && n.storage == Replay(n.log[..n.lastApplied])
    ensures
      var n' := AppliedUpTo(n, index);
      && n' == n.(lastApplied := index, storage := Replay(n.log[..index]))
    decreases index - n.lastApplied
  {
    if n.lastApplied < index {
      assert n.log[..n.lastApplied + 1][..n.lastApplied] == n.log[..n.lastApplied];
      CaughtUpStorage(ApplyNext(n), index);
    }
  }
}
