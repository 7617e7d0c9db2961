/** The safety properties of section 5 of the Raft paper, over every run of the cluster. */
module RaftSafety {
  import opened RaftProtocol
  import opened RaftCluster
  import opened RaftReigns
  import opened RaftInvariant
  import opened RaftElectionSteps
  import opened RaftVictory
  import opened RaftLeaderSteps
  import opened RaftCommandStep
  import opened RaftAppendStep

  // ---------- One step ----------

  lemma StepKeepsInv(c: Cluster, s: Step)
    requires Inv(c) && Enabled(c, s)
    ensures Inv(Do(c, s))
  {
    match s
    case StartElection(id) => StartElectionKeepsInv(c, id);
    case DeliverBallot(ballot, voter) => DeliverBallotKeepsInv(c, ballot, voter);
    case EndElection(id, votes) =>
      if Wins(c, votes) {
        WinElectionKeepsInv(c, id, votes);
      } else {
        LoseElectionKeepsInv(c, id, votes);
      }
    case ClientCommand(id, command) => ClientCommandKeepsInv(c, id, command);
    case Heartbeat(id) => HeartbeatKeepsInv(c, id);
    case DeliverAppend(leader, follower, position) => DeliverAppendKeepsInv(c, leader, follower, position);
    case EndReplication(id, followers) => EndReplicationKeepsInv(c, id, followers);
    case Apply(id) => ApplyKeepsInv(c, id);
  }

  // What only grows: the history, the acknowledgements, every term, every commit index, and every
  // node's committed log.
  ghost predicate Advances(c: Cluster, c': Cluster) {
    && Shape(c) && Shape(c') && |c'.members| == |c.members|
    && Grows(c.history.reigns, c'.history.reigns)
    && c.acks <= c'.acks
    && forall n :: IsMember(c, n) ==> NodeAdvances(c.members[n].node, c'.members[n].node)
  }

  ghost predicate NodeAdvances(a: Node, b: Node) {
    && a.currentTerm <= b.currentTerm
    && a.commitIndex <= b.commitIndex
    && a.lastApplied <= b.lastApplied
    && a.commitIndex <= |a.log| && a.commitIndex <= |b.log|
    && b.log[..a.commitIndex] == a.log[..a.commitIndex]
  }

  ghost predicate CommitsWithin(c: Cluster) {
    forall n :: IsMember(c, n) ==> c.members[n].node.commitIndex <= |c.members[n].node.log|
  }

  lemma StandingStepAdvances(c: Cluster, s: Step)
    requires Shape(c) && CommitsWithin(c) && Enabled(c, s)
    requires s.StartElection? || s.DeliverBallot?
    ensures Advances(c, Do(c, s))
  {
  }

  lemma QuietStepAdvances(c: Cluster, s: Step)
    requires Shape(c) && CommitsWithin(c) && Enabled(c, s)
    requires s.Heartbeat? || s.EndReplication? || s.Apply?
    ensures Advances(c, Do(c, s))
  {
  }

  lemma EndElectionAdvances(c: Cluster, i: NodeId, votes: set<NodeId>)
    requires Shape(c) && CommitsWithin(c) && Enabled(c, EndElection(i, votes))
    requires Wins(c, votes) ==> c.members[i].activity.ballot.term !in c.history.reigns
    ensures Advances(c, Do(c, EndElection(i, votes)))
  {
  }

  lemma ClientCommandAdvances(c: Cluster, i: NodeId, command: VectorCommand)
    requires Shape(c) && CommitsWithin(c) && Enabled(c, ClientCommand(i, command))
    requires c.members[i].node.currentTerm in c.history.reigns
    requires c.history.reigns[c.members[i].node.currentTerm].log == c.members[i].node.log
    ensures Advances(c, Do(c, ClientCommand(i, command)))
  {
    var log := c.members[i].node.log;
    var log' := OnClientCommand(c.members[i].node, command).log;
    assert log'[..c.members[i].node.commitIndex] == log[..c.members[i].node.commitIndex];
  }

  lemma ArrivalAdvances(c: Cluster, c': Cluster, l: NodeId, f: NodeId, position: nat, m: AppendRequest)
    requires CommitsWithin(c) && Arrived(c, c', l, f, position, m)
    ensures Advances(c, c')
  {
  }

  lemma StepAdvances(c: Cluster, s: Step)
    requires Inv(c) && Enabled(c, s)
    ensures Advances(c, Do(c, s))
  {
    assert CommitsWithin(c) by {
      forall n | IsMember(c, n) ensures c.members[n].node.commitIndex <= |c.members[n].node.log| {
        assert LogOk(c, n);
      }
    }
    match s
    case EndElection(id, votes) =>
      if Wins(c, votes) {
        NewTermHasNoLeader(c, id, votes);
      }
      EndElectionAdvances(c, id, votes);
    case ClientCommand(id, command) =>
      LeaderFactsHold(c, id);
      ClientCommandAdvances(c, id, command);
    case DeliverAppend(l, f, position) =>
      DeliverArrives(c, l, f, position);
      ArrivalAdvances(c, Do(c, s), l, f, position, c.members[l].outbox[position]);
    case StartElection(_) => StandingStepAdvances(c, s);
    case DeliverBallot(_, _) => StandingStepAdvances(c, s);
    case _ => QuietStepAdvances(c, s);
  }

  // ---------- Whole runs ----------

  lemma {:induction false} RunInv(run: seq<Cluster>, k: nat)
    requires IsRun(run) && k < |run|
    ensures Inv(run[k])
  {
    if k == 0 {
      InitInv(run[0]);
    } else {
      RunInv(run, k - 1);
      NextAdvances(run[k - 1], run[k - 1 + 1]);
    }
  }

  lemma AdvancesReflexive(c: Cluster)
    requires Shape(c) && LogsOk(c)
    ensures Advances(c, c)
  {
    forall n | IsMember(c, n) ensures NodeAdvances(c.members[n].node, c.members[n].node) { assert LogOk(c, n); }
  }

  lemma NextAdvances(c: Cluster, c': Cluster)
    requires Inv(c) && Next(c, c')
    ensures Inv(c') && Advances(c, c')
  {
    var s :| Enabled(c, s) && c' == Do(c, s);
    StepKeepsInv(c, s);
    StepAdvances(c, s);
  }

  lemma AdvancesTransitive(a: Cluster, b: Cluster, c: Cluster)
    requires Advances(a, b) && Advances(b, c)
    ensures Advances(a, c)
  {
    forall n | IsMember(a, n)
      ensures NodeAdvances(a.members[n].node, c.members[n].node)
    {
      var x, y, z := a.members[n].node, b.members[n].node, c.members[n].node;
      assert NodeAdvances(x, y) && NodeAdvances(y, z);
      PrefixOfPrefix(z.log, y.log, y.commitIndex, x.commitIndex);
    }
  }

  lemma {:induction false} RunAdvances(run: seq<Cluster>, i: nat, j: nat)
    requires IsRun(run) && i <= j < |run|
    ensures Inv(run[i]) && Inv(run[j]) && Advances(run[i], run[j])
    decreases j - i
  {
    RunInv(run, i);
    RunInv(run, j);
    if i == j {
      AdvancesReflexive(run[i]);
    } else {
      RunAdvances(run, i, j - 1);
      NextAdvances(run[j - 1], run[j - 1 + 1]);
      AdvancesTransitive(run[i], run[j - 1], run[j]);
    }
  }

  // In every reachable state a node's indexes are ordered, entry i of its log carries index i + 1,
  // terms ascend along the log up to the current term, and its storage replays what it applied.
  lemma NodesWellFormed(run: seq<Cluster>, k: nat, n: nat)
    requires IsRun(run) && k < |run| && n < |run[k].members|
    ensures
      var node := run[k].members[n].node;
      && node.lastApplied <= node.commitIndex <= |node.log|
      && (forall i :: 0 <= i < |node.log| ==> node.log[i].index == i + 1 && 1 <= node.log[i].term <= node.currentTerm)
      && (forall i, j :: 0 <= i < j < |node.log| ==> node.log[i].term <= node.log[j].term)
      && node.storage == Replay(node.log[..node.lastApplied])
  {
    RunInv(run, k);
    var c := run[k];
    var reigns := c.history.reigns;
    var log := c.members[n].node.log;
    assert LogOk(c, n);
    StanceAuthentic(reigns, StanceOf(c, n));
    forall i | 0 <= i < |log|
      ensures 1 <= log[i].term
    {
      assert Covered(reigns, log, i) && ReignOk(reigns, log[i].term);
    }
    forall i, j | 0 <= i < j < |log|
      ensures log[i].term <= log[j].term
    {
      AuthenticTermsAscend(reigns, log, i, j);
    }
  }

  // Terms, commit indexes and applied indexes never go down, and what a node has committed stays.
  lemma NodesOnlyAdvance(run: seq<Cluster>, i: nat, j: nat, n: nat)
    requires IsRun(run) && i <= j < |run| && n < |run[i].members|
    ensures |run[j].members| == |run[i].members|
    ensures
      var before, after := run[i].members[n].node, run[j].members[n].node;
      && before.currentTerm <= after.currentTerm
      && before.commitIndex <= after.commitIndex
      && before.lastApplied <= after.lastApplied
      && before.commitIndex <= |before.log| && before.commitIndex <= |after.log|
      && after.log[..before.commitIndex] == before.log[..before.commitIndex]
  {
    RunAdvances(run, i, j);
    assert IsMember(run[i], n);
  }

  // Election Safety: over a whole run a term has at most one leader.
  lemma ElectionSafety(run: seq<Cluster>, i: nat, j: nat, a: nat, b: nat)
    requires IsRun(run) && i <= j < |run| && a < |run[i].members| && b < |run[j].members|
    requires run[i].members[a].node.role == Leader && run[j].members[b].node.role == Leader
    requires run[i].members[a].node.currentTerm == run[j].members[b].node.currentTerm
    ensures a == b
  {
    RunAdvances(run, i, j);
    assert RoleOk(run[i], a) && RoleOk(run[j], b);
  }

  // Log Matching, also between logs of different moments.
  lemma LogMatching(run: seq<Cluster>, i: nat, j: nat, a: nat, b: nat, at: nat)
    requires IsRun(run) && i <= j < |run| && a < |run[i].members| && b < |run[j].members|
    requires at < |run[i].members[a].node.log| && at < |run[j].members[b].node.log|
    requires run[i].members[a].node.log[at].term == run[j].members[b].node.log[at].term
    ensures run[i].members[a].node.log[..at + 1] == run[j].members[b].node.log[..at + 1]
  {
    RunAdvances(run, i, j);
    var older, newer := run[i].history.reigns, run[j].history.reigns;
    assert LogOk(run[i], a) && LogOk(run[j], b);
    StanceAuthentic(older, StanceOf(run[i], a));
    StanceAuthentic(newer, StanceOf(run[j], b));
    AuthenticGrows(older, newer, run[i].members[a].node.log);
    AuthenticLogsMatch(newer, run[i].members[a].node.log, run[j].members[b].node.log, at);
  }

  // What a node had committed is committed in every later state, under the term it was then in.
  lemma CommittedLater(run: seq<Cluster>, i: nat, j: nat, a: nat) returns (t: Term)
    requires IsRun(run) && i <= j < |run| && a < |run[i].members|
    ensures run[i].members[a].node.commitIndex <= |run[i].members[a].node.log|
    ensures t <= run[i].members[a].node.currentTerm
    ensures
      var reigns := run[j].history.reigns;
      var node := run[i].members[a].node;
      && Committed(reigns, run[j].acks, |run[j].members|, t, node.commitIndex)
      && (node.commitIndex > 0 ==> reigns[t].log[..node.commitIndex] == node.log[..node.commitIndex])
  {
    RunAdvances(run, i, j);
    assert CommitOk(run[i], a);
    t := run[i].history.commitTerm[a];
    CommittedGrows(run[i].history.reigns, run[i].acks, run[j].history.reigns, run[j].acks, |run[i].members|, t,
                   run[i].members[a].node.commitIndex);
  }

  // Leader Completeness: what any node has committed is in the log of every leader whose term is
  // not below that node's.
  lemma LeadersHoldCommitted(run: seq<Cluster>, i: nat, j: nat, a: nat, b: nat)
    requires IsRun(run) && i <= j < |run| && a < |run[i].members| && b < |run[j].members|
    requires run[j].members[b].node.role == Leader
    requires run[i].members[a].node.currentTerm <= run[j].members[b].node.currentTerm
    ensures
      var node := run[i].members[a].node;
      && node.commitIndex <= |node.log| && node.commitIndex <= |run[j].members[b].node.log|
      && run[j].members[b].node.log[..node.commitIndex] == node.log[..node.commitIndex]
  {
    var t := CommittedLater(run, i, j, a);
    var count := run[i].members[a].node.commitIndex;
    var t' := run[j].members[b].node.currentTerm;
    var reigns := run[j].history.reigns;
    assert t' in reigns && reigns[t'].log == run[j].members[b].node.log by {
      RunInv(run, j);
      LeaderFactsHold(run[j], b);
    }
    if count > 0 {
      assert count <= |reigns[t'].log| && reigns[t].log[..count] == reigns[t'].log[..count] by {
        RunInv(run, j);
        CommittedPrefix(reigns, run[j].acks, |run[j].members|, t, count, t');
      }
    }
  }

  lemma CommittedPrefix(reigns: map<Term, Reign>, acks: set<Ack>, size: nat, t: Term, count: nat, t': Term)
    requires t < t' ==> ReignsOk(reigns) && VotersOk(reigns, acks, size)
    requires Committed(reigns, acks, size, t, count) && 0 < count && t <= t' && t' in reigns
    ensures t in reigns && count <= |reigns[t].log| && count <= |reigns[t'].log|
    ensures reigns[t].log[..count] == reigns[t'].log[..count]
  {
    if t < t' {
      CommittedBelow(reigns, acks, size, t, count, t');
    } else {
      assert t == t';
    }
  }

  lemma CommittedBelow(reigns: map<Term, Reign>, acks: set<Ack>, size: nat, t: Term, count: nat, t': Term)
    requires ReignsOk(reigns) && VotersOk(reigns, acks, size)
    requires Committed(reigns, acks, size, t, count) && 0 < count && t < t' && t' in reigns
    ensures t in reigns && count <= |reigns[t].log| && count <= |reigns[t'].log|
    ensures reigns[t].log[..count] == reigns[t'].log[..count]
  {
    CommittedCarries(reigns, acks, size, t, count, t');
    assert ElectionOk(reigns, acks, size, t');
  }

  // Two committed prefixes of one state's history agree as far as both go.
  lemma CommittedAgree(reigns: map<Term, Reign>, acks: set<Ack>, size: nat, t: Term, count: nat, t': Term, count': nat)
    requires t < t' ==> ReignsOk(reigns) && VotersOk(reigns, acks, size)
    requires t <= t' && 0 < count && 0 < count'
    requires Committed(reigns, acks, size, t, count) && Committed(reigns, acks, size, t', count')
    ensures t in reigns && t' in reigns
    ensures Min(count, count') <= |reigns[t].log| && Min(count, count') <= |reigns[t'].log|
    ensures reigns[t].log[..Min(count, count')] == reigns[t'].log[..Min(count, count')]
  {
    CommittedPrefix(reigns, acks, size, t, count, t');
    PrefixOfPrefix(reigns[t].log, reigns[t'].log, count, Min(count, count'));
  }

  // The same for two logs committed that far.
  lemma CommittedPair(reigns: map<Term, Reign>, acks: set<Ack>, size: nat, t: Term, x: seq<LogEntry>, count: nat,
                      t': Term, y: seq<LogEntry>, count': nat)
    requires t < t' ==> ReignsOk(reigns) && VotersOk(reigns, acks, size)
    requires t <= t' && count <= |x| && count' <= |y|
    requires Committed(reigns, acks, size, t, count) && Committed(reigns, acks, size, t', count')
    requires count > 0 ==> reigns[t].log[..count] == x[..count]
    requires count' > 0 ==> reigns[t'].log[..count'] == y[..count']
    ensures x[..Min(count, count')] == y[..Min(count, count')]
  {
    var least := Min(count, count');
    if least > 0 {
      CommittedAgree(reigns, acks, size, t, count, t', count');
      PrefixOfPrefix(x, reigns[t].log, count, least);
      PrefixOfPrefix(y, reigns[t'].log, count', least);
    }
  }

  lemma CommittedPairInRun(run: seq<Cluster>, k: nat, t: Term, x: seq<LogEntry>, count: nat, u: Term,
                           y: seq<LogEntry>, count': nat)
    requires IsRun(run) && k < |run| && count <= |x| && count' <= |y| && t <= u
    requires Committed(run[k].history.reigns, run[k].acks, |run[k].members|, t, count)
    requires Committed(run[k].history.reigns, run[k].acks, |run[k].members|, u, count')
    requires count > 0 ==> run[k].history.reigns[t].log[..count] == x[..count]
    requires count' > 0 ==> run[k].history.reigns[u].log[..count'] == y[..count']
    ensures x[..Min(count, count')] == y[..Min(count, count')]
  {
    assert HistoryOk(run[k]) by { RunInv(run, k); }
    CommittedPair(run[k].history.reigns, run[k].acks, |run[k].members|, t, x, count, u, y, count');
  }

  // Two nodes' committed logs never disagree, whenever each of them is looked at.
  lemma CommittedLogsAgree(run: seq<Cluster>, i: nat, j: nat, a: nat, b: nat)
    requires IsRun(run) && i < |run| && j < |run| && a < |run[i].members| && b < |run[j].members|
    ensures
      var x, y := run[i].members[a].node, run[j].members[b].node;
      var least := Min(x.commitIndex, y.commitIndex);
      && x.commitIndex <= |x.log| && y.commitIndex <= |y.log|
      && x.log[..least] == y.log[..least]
  {
    var k := if i <= j then j else i;
    var t := CommittedLater(run, i, k, a);
    var u := CommittedLater(run, j, k, b);
    var x, y := run[i].members[a].node, run[j].members[b].node;
    if t <= u {
      CommittedPairInRun(run, k, t, x.log, x.commitIndex, u, y.log, y.commitIndex);
    } else {
      CommittedPairInRun(run, k, u, y.log, y.commitIndex, t, x.log, x.commitIndex);
    }
  }

  // State Machine Safety: of any two nodes, each at any moment, one has applied a prefix of what the
  // other has; having applied equally many entries they hold the same storage.
  lemma StateMachineSafety(run: seq<Cluster>, i: nat, j: nat, a: nat, b: nat)
    requires IsRun(run) && i < |run| && j < |run| && a < |run[i].members| && b < |run[j].members|
    ensures
      var x, y := run[i].members[a].node, run[j].members[b].node;
      && x.lastApplied <= |x.log| && y.lastApplied <= |y.log|
      && (x.lastApplied <= y.lastApplied ==> x.log[..x.lastApplied] <= y.log[..y.lastApplied])
      && (x.lastApplied == y.lastApplied ==> x.storage == y.storage)
  {
    CommittedLogsAgree(run, i, j, a, b);
    NodesWellFormed(run, i, a);
    NodesWellFormed(run, j, b);
    var x, y := run[i].members[a].node, run[j].members[b].node;
    var least := Min(x.commitIndex, y.commitIndex);
    if x.lastApplied <= y.lastApplied {
      assert x.log[..x.lastApplied] == x.log[..least][..x.lastApplied];
      assert y.log[..x.lastApplied] == y.log[..least][..x.lastApplied];
    }
  }

  // A node that endorsed a chosen entry has it in its log, with all before it.
  lemma ChosenEntryKept(c: Cluster, t: Term, j: LogIndex, v: NodeId)
    requires Shape(c) && IsMember(c, v) && HistoryOk(c) && LogOk(c, v) && EndorsementsKept(c, v)
    requires Chosen(c.history.reigns, c.acks, |c.members|, t, j) && Endorses(c.history.reigns, c.acks, v, t, j)
    ensures j <= |c.members[v].node.log| && c.members[v].node.log[..j] == c.history.reigns[t].log[..j]
  {
    assert ReignOk(c.history.reigns, t);
    StanceHoldsChosen(c.history.reigns, c.acks, |c.members|, t, j, StanceOf(c, v));
  }

  lemma StanceHoldsChosen(reigns: map<Term, Reign>, acks: set<Ack>, size: nat, t: Term, j: LogIndex, s: Stance)
    requires t < s.accepted ==> ReignsOk(reigns) && VotersOk(reigns, acks, size)
    requires StanceOk(reigns, s) && 1 <= t
    requires Chosen(reigns, acks, size, t, j) && t <= s.accepted && (t == s.accepted ==> j <= |s.log|)
    ensures j <= |s.log| && s.log[..j] == reigns[t].log[..j]
  {
    var a := s.accepted;
    assert j <= |s.log| && reigns[a].log[..j] == reigns[t].log[..j] by {
      if t < a {
        LeaderCompleteness(reigns, acks, size, t, j, a);
      }
    }
    StancePrefix(reigns, s, j);
  }

  lemma StancePrefix(reigns: map<Term, Reign>, s: Stance, j: nat)
    requires StanceOk(reigns, s) && s.accepted != 0 && j <= |s.log|
    ensures j <= |reigns[s.accepted].log| && s.log[..j] == reigns[s.accepted].log[..j]
  {
  }

  // The entry a leader counts on a majority is chosen, and each node counted endorses it.
  lemma CountedIsChosen(c: Cluster, l: NodeId, followers: set<NodeId>, v: NodeId)
    requires Shape(c) && Enabled(c, EndReplication(l, followers))
    requires RoleOk(c, l) && LeaderFacts(c, l) && EndorsementsOk(c)
    requires |followers| + 1 >= ReplicationQuorum(Peers(c))
    requires v == l || v in followers
    ensures
      var node := c.members[l].node;
      && IsMember(c, v)
      && Chosen(c.history.reigns, c.acks, |c.members|, node.currentTerm, |node.log|)
      && Endorses(c.history.reigns, c.acks, v, node.currentTerm, |node.log|)
  {
    AckersEndorse(c, l, followers);
    assert v in followers + {l};
    var node := c.members[l].node;
    assert EndorsedBy(c.history.reigns, c.acks, followers + {l}, node.currentTerm, |node.log|);
  }

  lemma CountedIsChosenInRun(run: seq<Cluster>, i: nat, l: NodeId, followers: set<NodeId>, v: NodeId)
    requires IsRun(run) && i < |run| && Enabled(run[i], EndReplication(l, followers))
    requires |followers| + 1 >= ReplicationQuorum(Peers(run[i]))
    requires v == l || v in followers
    ensures
      var c := run[i];
      var node := c.members[l].node;
      && IsMember(c, v)
      && Chosen(c.history.reigns, c.acks, |c.members|, node.currentTerm, |node.log|)
      && c.history.reigns[node.currentTerm].log == node.log
      && Endorses(c.history.reigns, c.acks, v, node.currentTerm, |node.log|)
  {
    RunInv(run, i);
    assert RoleOk(run[i], l);
    LeaderFactsHold(run[i], l);
    CountedIsChosen(run[i], l, followers, v);
  }

  // An entry counted on a majority stays, with all before it, in the log of every node counted.
  lemma CountedEntryStays(run: seq<Cluster>, i: nat, j: nat, l: NodeId, followers: set<NodeId>, v: NodeId)
    requires IsRun(run) && i <= j < |run| && Enabled(run[i], EndReplication(l, followers))
    requires |followers| + 1 >= ReplicationQuorum(Peers(run[i]))
    requires v == l || v in followers
    ensures v < |run[j].members|
    ensures run[i].members[l].node.log <= run[j].members[v].node.log
  {
    var log := run[i].members[l].node.log;
    var t := run[i].members[l].node.currentTerm;
    var older, newer := run[i].history.reigns, run[j].history.reigns;
    CountedIsChosenInRun(run, i, l, followers, v);
    assert Grows(older, newer) && run[i].acks <= run[j].acks && |run[i].members| == |run[j].members| by {
      RunAdvances(run, i, j);
    }
    ChosenGrows(older, run[i].acks, newer, run[j].acks, |run[j].members|, t, |log|);
    assert |log| <= |run[j].members[v].node.log| && run[j].members[v].node.log[..|log|] == newer[t].log[..|log|] by {
      RunInv(run, j);
      assert LogOk(run[j], v) && EndorsementsKept(run[j], v);
      ChosenEntryKept(run[j], t, |log|, v);
    }
  }
}
