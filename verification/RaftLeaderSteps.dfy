/** What a leader does on its own keeps the invariant: commands, heartbeats, counting answers, applying. */
module RaftLeaderSteps {
  import opened Wrappers
  import opened RaftProtocol
  import opened RaftCluster
  import opened RaftReigns
  import opened RaftInvariant
  import opened RaftElectionSteps

  // ---------- Steps that leave votes, terms and logs alone ----------

  ghost predicate SameVote(m: Member, m': Member) {
    && m'.node.role == m.node.role
    && m'.node.currentTerm == m.node.currentTerm
    && m'.node.votedFor == m.node.votedFor
    && m'.node.log == m.node.log
    && (m'.activity == m.activity || (m.activity.Replicating? && m'.activity == Idle))
  }

  ghost predicate SameVoting(c: Cluster, c': Cluster) {
    && Shape(c) && Shape(c') && |c'.members| == |c.members|
    && c'.history.reigns == c.history.reigns && c'.history.stances == c.history.stances
    && c'.history.accepted == c.history.accepted
    && c'.acks == c.acks && c'.grants == c.grants && c'.ballots == c.ballots
    && forall n :: IsMember(c, n) ==> SameVote(c.members[n], c'.members[n])
  }

  lemma SameVotingRoles(c: Cluster, c': Cluster)
    requires SameVoting(c, c') && RolesOk(c)
    ensures RolesOk(c')
  {
    forall n | IsMember(c', n) ensures RoleOk(c', n) { assert RoleOk(c, n) && SameVote(c.members[n], c'.members[n]); }
  }

  lemma SameVotingLeaders(c: Cluster, c': Cluster)
    requires SameVoting(c, c') && LeadersOk(c)
    ensures LeadersOk(c')
  {
    forall t | t in c'.history.reigns ensures LeaderOk(c', t) {
      assert LeaderOk(c, t);
      var l := c.history.reigns[t].leader;
      assert SameVote(c.members[l], c'.members[l]);
    }
  }

  lemma SameVotingBallots(c: Cluster, c': Cluster)
    requires SameVoting(c, c') && BallotsOk(c)
    ensures BallotsOk(c')
  {
    forall b | b in c'.ballots ensures BallotOk(c', b) {
      assert BallotOk(c, b);
      assert SameVote(c.members[b.candidateId], c'.members[b.candidateId]);
    }
  }

  lemma SameVotingGrants(c: Cluster, c': Cluster)
    requires SameVoting(c, c') && GrantsOk(c)
    ensures GrantsOk(c')
  {
    forall g | g in c'.grants ensures GrantOk(c', g) && GrantStanceOk(c', g) {
      assert GrantOk(c, g) && GrantStanceOk(c, g);
      assert SameVote(c.members[g.voter], c'.members[g.voter]);
      assert SameVote(c.members[g.candidate], c'.members[g.candidate]);
    }
  }

  lemma SameVotingEndorsements(c: Cluster, c': Cluster)
    requires SameVoting(c, c') && EndorsementsOk(c)
    ensures EndorsementsOk(c')
  {
    forall n | IsMember(c', n) ensures EndorsementsKept(c', n) {
      assert EndorsementsKept(c, n) && SameVote(c.members[n], c'.members[n]);
    }
    forall a | a in c'.acks ensures AckOk(c', a) { assert AckOk(c, a); }
  }

  lemma SameVotingKeeps(c: Cluster, c': Cluster)
    requires SameVoting(c, c') && Inv(c)
    ensures HistoryOk(c') && RolesOk(c') && LeadersOk(c') && BallotsOk(c') && GrantsOk(c') && EndorsementsOk(c')
  {
    SameVotingRoles(c, c');
    SameVotingLeaders(c, c');
    SameVotingBallots(c, c');
    SameVotingGrants(c, c');
    SameVotingEndorsements(c, c');
  }

  // ---------- Applying ----------

  lemma ApplyFrame(c: Cluster, i: NodeId)
    requires Shape(c) && Enabled(c, Apply(i))
    ensures SameVoting(c, DoApply(c, i)) && OnlyStanding(c, DoApply(c, i), i)
  {
  }

  lemma ApplyLog(c: Cluster, i: NodeId)
    requires Shape(c) && Enabled(c, Apply(i)) && LogsOk(c)
    ensures Shape(DoApply(c, i)) && LogOk(DoApply(c, i), i)
  {
    var n := c.members[i].node;
    assert LogOk(c, i);
    assert n.log[..n.lastApplied + 1][..n.lastApplied] == n.log[..n.lastApplied];
  }

  lemma ApplyKeepsInv(c: Cluster, i: NodeId)
    requires Inv(c) && Enabled(c, Apply(i))
    ensures Inv(DoApply(c, i))
  {
    var c' := DoApply(c, i);
    ApplyFrame(c, i);
    assert LogsOk(c') && MailOk(c') && ChannelsOk(c') && CommitsOk(c') by {
      ApplyLog(c, i);
      StandingKeepsMost(c, c', i);
    }
    SameVotingKeeps(c, c');
  }

  // ---------- What is true of a leader ----------

  // A leader's log is its reign's log, and what it has committed is committed under its own reign.
  ghost predicate LeaderFacts(c: Cluster, i: nat)
    requires Shape(c) && IsMember(c, i)
  {
    var node := c.members[i].node;
    var reigns := c.history.reigns;
    && 1 <= node.currentTerm
    && node.currentTerm in reigns
    && reigns[node.currentTerm].leader == i
    && c.history.accepted[i] == node.currentTerm
    && node.log == reigns[node.currentTerm].log
    && reigns[node.currentTerm].base <= |node.log|
    && node.commitIndex <= |node.log|
    && LastIndex(node.log) == |node.log|
    && Committed(reigns, c.acks, |c.members|, node.currentTerm, node.commitIndex)
  }

  lemma LeaderCommit(c: Cluster, i: nat)
    requires Shape(c) && IsMember(c, i) && CommitsOk(c) && HistoryOk(c)
    requires c.members[i].node.currentTerm in c.history.reigns
    ensures
      var node := c.members[i].node;
      Committed(c.history.reigns, c.acks, |c.members|, node.currentTerm, node.commitIndex)
  {
    assert CommitOk(c, i);
    CommittedUnder(c.history.reigns, c.acks, |c.members|, c.history.commitTerm[i], c.members[i].node.commitIndex,
                   c.members[i].node.currentTerm);
  }

  lemma LeaderLog(c: Cluster, i: nat)
    requires Shape(c) && IsMember(c, i) && c.members[i].node.role == Leader
    requires ReignsOk(c.history.reigns) && RoleOk(c, i) && LogOk(c, i) && LeadersOk(c)
    ensures
      var node := c.members[i].node;
      var reigns := c.history.reigns;
      && 1 <= node.currentTerm
      && node.currentTerm in reigns
      && reigns[node.currentTerm].leader == i
      && c.history.accepted[i] == node.currentTerm
      && node.log == reigns[node.currentTerm].log
      && reigns[node.currentTerm].base <= |node.log|
      && LastIndex(node.log) == |node.log|
  {
    assert LeaderOk(c, c.members[i].node.currentTerm);
    assert ReignOk(c.history.reigns, c.members[i].node.currentTerm);
    StanceAuthentic(c.history.reigns, StanceOf(c, i));
  }

  lemma LeaderFactsHold(c: Cluster, i: nat)
    requires Shape(c) && IsMember(c, i) && c.members[i].node.role == Leader
    requires HistoryOk(c) && LogsOk(c) && RolesOk(c) && LeadersOk(c) && CommitsOk(c)
    ensures LeaderFacts(c, i)
  {
    assert LogOk(c, i) && RoleOk(c, i);
    LeaderLog(c, i);
    assert Committed(c.history.reigns, c.acks, |c.members|,
                     c.members[i].node.currentTerm, c.members[i].node.commitIndex) by {
      LeaderCommit(c, i);
    }
  }

  // A message that starts where the leader's log ends is ahead of every node.
  lemma AheadOfAll(c: Cluster, i: nat, f: nat, m: AppendRequest)
    requires Shape(c) && IsMember(c, i) && IsMember(c, f)
    requires LogsOk(c) && CommitsOk(c)
    requires m.term in c.history.reigns && m.prevLogIndex == |c.history.reigns[m.term].log|
    ensures NotBehind(c, f, m)
  {
    assert LogOk(c, f) && CommitOk(c, f);
  }

  // ---------- Heartbeats ----------

  // Only the outbox of node i changed: it sent one more message.
  ghost predicate Sent(c: Cluster, c': Cluster, i: nat, m: AppendRequest) {
    && Shape(c) && IsMember(c, i)
    && c' == c.(members := c.members[i := c.members[i].(outbox := c.members[i].outbox + [m])])
  }

  lemma SentKeepsLogs(c: Cluster, c': Cluster, i: nat, m: AppendRequest)
    requires Sent(c, c', i, m) && LogsOk(c) && CommitsOk(c)
    ensures SameVoting(c, c') && LogsOk(c') && CommitsOk(c')
  {
    forall n | IsMember(c', n) ensures LogOk(c', n) && CommitOk(c', n) { assert LogOk(c, n) && CommitOk(c, n); }
  }

  lemma SentKeepsMail(c: Cluster, c': Cluster, i: nat, m: AppendRequest)
    requires Sent(c, c', i, m) && MailOk(c) && MessageOk(c, i, m)
    requires forall k :: 0 <= k < |c.members[i].outbox| && c.members[i].outbox[k].term == m.term ==>
               c.members[i].outbox[k].prevLogIndex + |c.members[i].outbox[k].entries| <= m.prevLogIndex
    ensures MailOk(c')
  {
    forall l | IsMember(c', l)
      ensures OutboxOk(c', l)
    {
      assert OutboxOk(c, l);
      forall k | 0 <= k < |c'.members[l].outbox|
        ensures MessageOk(c', l, c'.members[l].outbox[k])
      {
        assert MessageOk(c, l, c'.members[l].outbox[k]);
      }
    }
  }

  lemma SentKeepsChannels(c: Cluster, c': Cluster, i: nat, m: AppendRequest)
    requires Sent(c, c', i, m) && ChannelsOk(c)
    requires forall f :: IsMember(c, f) ==> NotBehind(c, f, m)
    ensures Shape(c') && ChannelsOk(c')
  {
    forall l, f | IsMember(c', l) && IsMember(c', f) && l != f
      ensures ChannelOk(c', l, f)
    {
      assert ChannelOk(c, l, f);
      forall k | c'.members[f].cursor[l] <= k < |c'.members[l].outbox|
        ensures NotBehind(c', f, c'.members[l].outbox[k])
      {
        assert NotBehind(c, f, c'.members[l].outbox[k]);
      }
    }
  }

  lemma HeartbeatMessageOk(c: Cluster, i: NodeId)
    requires Shape(c) && Enabled(c, Heartbeat(i)) && LeaderFacts(c, i)
    ensures
      var m := HeartbeatRequest(i, c.members[i].node);
      && MessageOk(c, i, m)
      && m.prevLogIndex == |c.history.reigns[m.term].log|
  {
    var node := c.members[i].node;
    assert node.log[..|node.log|] == node.log;
  }

  // A leader's messages of the current term end within its log.
  lemma OldMessagesEnd(c: Cluster, i: nat, t: Term)
    requires IsMember(c, i) && MailOk(c) && t in c.history.reigns
    ensures forall k :: 0 <= k < |c.members[i].outbox| && c.members[i].outbox[k].term == t ==>
              c.members[i].outbox[k].prevLogIndex + |c.members[i].outbox[k].entries| <= |c.history.reigns[t].log|
  {
    assert OutboxOk(c, i);
    forall k | 0 <= k < |c.members[i].outbox| && c.members[i].outbox[k].term == t
      ensures c.members[i].outbox[k].prevLogIndex + |c.members[i].outbox[k].entries| <= |c.history.reigns[t].log|
    {
      assert MessageOk(c, i, c.members[i].outbox[k]);
    }
  }

  lemma HeartbeatKeepsInv(c: Cluster, i: NodeId)
    requires Inv(c) && Enabled(c, Heartbeat(i))
    ensures Inv(DoHeartbeat(c, i))
  {
    var m := HeartbeatRequest(i, c.members[i].node);
    var c' := DoHeartbeat(c, i);
    assert Sent(c, c', i, m);
    assert MessageOk(c, i, m) && m.prevLogIndex == |c.history.reigns[m.term].log| by {
      LeaderFactsHold(c, i);
      HeartbeatMessageOk(c, i);
    }
    assert SameVoting(c, c') && LogsOk(c') && CommitsOk(c') by { SentKeepsLogs(c, c', i, m); }
    SameVotingKeeps(c, c');
    assert MailOk(c') by {
      OldMessagesEnd(c, i, m.term);
      SentKeepsMail(c, c', i, m);
    }
    forall f | IsMember(c, f) ensures NotBehind(c, f, m) { AheadOfAll(c, i, f, m); }
    assert ChannelsOk(c') by { SentKeepsChannels(c, c', i, m); }
  }

  // ---------- Counting the answers to a replication ----------

  // Node i stopped waiting; it may have raised its commit index under its current term.
  ghost predicate Counted(c: Cluster, c': Cluster, i: nat) {
    && Shape(c) && Shape(c') && IsMember(c, i) && |c'.members| == |c.members|
    && c.members[i].activity.Replicating?
    && var m := c.members[i];
       var m' := c'.members[i];
       && c' == c.(members := c.members[i := m'],
                   history := c.history.(commitTerm := c'.history.commitTerm))
       && m' == m.(activity := Idle, node := m.node.(commitIndex := m'.node.commitIndex))
       && (|| (m'.node.commitIndex == m.node.commitIndex && c'.history.commitTerm == c.history.commitTerm)
           || (&& m.node.commitIndex < m'.node.commitIndex <= |m.node.log|
               && c'.history.commitTerm == c.history.commitTerm[i := m.node.currentTerm]
               && Committed(c.history.reigns, c.acks, |c.members|, m.node.currentTerm, m'.node.commitIndex)))
  }

  lemma CountedKeepsLogs(c: Cluster, c': Cluster, i: nat)
    requires Counted(c, c', i) && LogsOk(c) && MailOk(c)
    ensures SameVoting(c, c') && LogsOk(c') && MailOk(c')
  {
    forall n | IsMember(c', n)
      ensures LogOk(c', n) && OutboxOk(c', n)
    {
      assert LogOk(c, n) && OutboxOk(c, n);
      forall k | 0 <= k < |c'.members[n].outbox|
        ensures MessageOk(c', n, c'.members[n].outbox[k])
      {
        assert MessageOk(c, n, c.members[n].outbox[k]);
      }
    }
  }

  lemma CountedKeepsCommits(c: Cluster, c': Cluster, i: nat)
    requires Counted(c, c', i) && CommitsOk(c)
    requires c.members[i].node.currentTerm in c.history.reigns
    requires c.members[i].node.log == c.history.reigns[c.members[i].node.currentTerm].log
    ensures CommitsOk(c')
  {
    forall n | IsMember(c', n) ensures CommitOk(c', n) { assert CommitOk(c, n); }
  }

  lemma CountedKeepsChannels(c: Cluster, c': Cluster, i: nat)
    requires Counted(c, c', i) && RolesOk(c) && MailOk(c) && ChannelsOk(c)
    ensures ChannelsOk(c')
  {
    assert RoleOk(c, i);
    forall l, f | IsMember(c', l) && IsMember(c', f) && l != f
      ensures ChannelOk(c', l, f)
    {
      assert ChannelOk(c, l, f) && OutboxOk(c, l);
      forall k | c'.members[f].cursor[l] <= k < |c'.members[l].outbox|
        ensures NotBehind(c', f, c'.members[l].outbox[k])
      {
        assert NotBehind(c, f, c.members[l].outbox[k]) && MessageOk(c, l, c.members[l].outbox[k]);
      }
    }
  }

  lemma AckersEndorse(c: Cluster, i: NodeId, followers: set<NodeId>)
    requires Shape(c) && Enabled(c, EndReplication(i, followers)) && EndorsementsOk(c)
    requires c.members[i].activity.request.term in c.history.reigns
    requires c.history.reigns[c.members[i].activity.request.term].leader == i
    requires |followers| + 1 >= ReplicationQuorum(Peers(c))
    ensures IsQuorum(followers + {i}, |c.members|)
    ensures EndorsedBy(c.history.reigns, c.acks, followers, c.members[i].activity.request.term,
                       c.members[i].activity.request.entries[0].index)
  {
    var request := c.members[i].activity.request;
    forall f | f in followers
      ensures IsMember(c, f) && f != i && Endorses(c.history.reigns, c.acks, f, request.term, request.entries[0].index)
    {
      assert AckOk(c, Ack(request.term, f, request.entries[0].index));
    }
    assert |followers + {i}| == |followers| + 1;
  }

  // An entry is counted on a majority only if it is chosen.
  lemma MajorityChooses(c: Cluster, i: NodeId, followers: set<NodeId>)
    requires Shape(c) && Enabled(c, EndReplication(i, followers))
    requires RoleOk(c, i) && LeaderFacts(c, i) && EndorsementsOk(c)
    requires |followers| + 1 >= ReplicationQuorum(Peers(c))
    ensures
      var node := c.members[i].node;
      var index := c.members[i].activity.request.entries[0].index;
      && index == |node.log|
      && Committed(c.history.reigns, c.acks, |c.members|, node.currentTerm, index)
  {
    var t := c.members[i].node.currentTerm;
    var index := c.members[i].activity.request.entries[0].index;
    AckersEndorse(c, i, followers);
    assert EndorsedBy(c.history.reigns, c.acks, followers + {i}, t, index);
    assert Chosen(c.history.reigns, c.acks, |c.members|, t, index);
    assert ChosenUnder(c.history.reigns, c.acks, |c.members|, t, index, t, index);
  }

  lemma EndReplicationCounted(c: Cluster, i: NodeId, followers: set<NodeId>)
    requires Shape(c) && Enabled(c, EndReplication(i, followers))
    requires RoleOk(c, i) && LeaderFacts(c, i) && EndorsementsOk(c)
    ensures Counted(c, DoEndReplication(c, i, followers), i)
  {
    if |followers| + 1 >= ReplicationQuorum(Peers(c)) {
      MajorityChooses(c, i, followers);
    }
  }

  lemma EndReplicationFacts(c: Cluster, i: NodeId, followers: set<NodeId>)
    requires Inv(c) && Enabled(c, EndReplication(i, followers))
    ensures Counted(c, DoEndReplication(c, i, followers), i)
    ensures c.members[i].node.currentTerm in c.history.reigns
    ensures c.members[i].node.log == c.history.reigns[c.members[i].node.currentTerm].log
  {
    assert RoleOk(c, i);
    LeaderFactsHold(c, i);
    EndReplicationCounted(c, i, followers);
  }

  lemma EndReplicationKeepsInv(c: Cluster, i: NodeId, followers: set<NodeId>)
    requires Inv(c) && Enabled(c, EndReplication(i, followers))
    ensures Inv(DoEndReplication(c, i, followers))
  {
    var c' := DoEndReplication(c, i, followers);
    EndReplicationFacts(c, i, followers);
    assert SameVoting(c, c') && LogsOk(c') && MailOk(c') by { CountedKeepsLogs(c, c', i); }
    SameVotingKeeps(c, c');
    assert CommitsOk(c') by { CountedKeepsCommits(c, c', i); }
    assert ChannelsOk(c') by { CountedKeepsChannels(c, c', i); }
  }
}
