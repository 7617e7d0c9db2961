/** A leader that takes a client command and sends its entry keeps the invariant. */
module RaftCommandStep {
  import opened Wrappers
  import opened RaftProtocol
  import opened RaftCluster
  import opened RaftReigns
  import opened RaftInvariant
  import opened RaftElectionSteps
  import opened RaftLeaderSteps

  // Node i, the leader of term t, put one entry at the end of its log and of its reign's log, and
  // sent `m`.
  ghost predicate Extended(c: Cluster, c': Cluster, i: nat, t: Term, e: LogEntry, m: AppendRequest) {
    && Shape(c) && Shape(c') && IsMember(c, i) && LeaderFacts(c, i)
    && t == c.members[i].node.currentTerm == e.term && e.index == |c.members[i].node.log| + 1
    && c.members[i].node.role == Leader && c.members[i].activity == Idle
    && m.term == t && m.entries == [e]
    && c' == c.(members := c.members[i := Member(
                  c.members[i].node.(log := c.members[i].node.log + [e]),
                  Replicating(m),
                  c.members[i].outbox + [m],
                  c.members[i].cursor)],
                history := c.history.(reigns := c.history.reigns[t :=
                  c.history.reigns[t].(log := c.history.reigns[t].log + [e])]))
  }

  lemma ExtendedGrows(c: Cluster, c': Cluster, i: nat, t: Term, e: LogEntry, m: AppendRequest)
    requires Extended(c, c', i, t, e, m)
    ensures Grows(c.history.reigns, c'.history.reigns)
    ensures forall v: NodeId, u: Term, j: LogIndex ::
              Endorses(c'.history.reigns, c'.acks, v, u, j) ==>
                Endorses(c.history.reigns, c.acks, v, u, j) || (v == i && u == t && j == |c.members[i].node.log| + 1)
  {
  }

  lemma ExtendedLogAuthentic(c: Cluster, c': Cluster, i: nat, t: Term, e: LogEntry, m: AppendRequest)
    requires Extended(c, c', i, t, e, m) && ReignsOk(c.history.reigns)
    ensures Authentic(c'.history.reigns, c'.history.reigns[t].log)
  {
    var log := c.history.reigns[t].log;
    assert ReignOk(c.history.reigns, t);
    ExtendedGrows(c, c', i, t, e, m);
    AuthenticGrows(c.history.reigns, c'.history.reigns, log);
    forall k | 0 <= k < |log + [e]|
      ensures Covered(c'.history.reigns, log + [e], k)
    {
      if k < |log| {
        assert Covered(c'.history.reigns, log, k);
        assert (log + [e])[..k + 1] == log[..k + 1];
      }
    }
  }

  lemma ExtendedReigns(c: Cluster, c': Cluster, i: nat, t: Term, e: LogEntry, m: AppendRequest)
    requires Extended(c, c', i, t, e, m) && ReignsOk(c.history.reigns)
    ensures ReignsOk(c'.history.reigns)
  {
    ExtendedGrows(c, c', i, t, e, m);
    ExtendedLogAuthentic(c, c', i, t, e, m);
    forall u | u in c'.history.reigns
      ensures ReignOk(c'.history.reigns, u)
    {
      assert ReignOk(c.history.reigns, u);
      if u != t {
        AuthenticGrows(c.history.reigns, c'.history.reigns, c.history.reigns[u].log);
      }
    }
  }

  // Whoever elected a leader has reached its term, so a node cannot have elected a later leader.
  lemma VoterTerm(c: Cluster, u: Term, v: NodeId)
    requires Shape(c) && LeadersOk(c) && GrantsOk(c) && u in c.history.reigns && v in c.history.reigns[u].voters
    ensures IsMember(c, v) && u <= c.members[v].node.currentTerm
  {
    assert LeaderOk(c, u);
    var l := c.history.reigns[u].leader;
    if v != l {
      assert GrantOk(c, Grant(u, v, l));
    }
  }

  lemma ExtendedVoter(c: Cluster, c': Cluster, i: nat, t: Term, e: LogEntry, m: AppendRequest, u: Term, v: NodeId)
    requires Extended(c, c', i, t, e, m) && LeadersOk(c) && GrantsOk(c)
    requires u in c.history.reigns && v in c.history.reigns[u].voters
    requires c.history.reigns[u].base <= |c.history.reigns[u].log| && VoterOk(c.history.reigns, c.acks, u, v)
    ensures VoterOk(c'.history.reigns, c'.acks, u, v)
  {
    VoterTerm(c, u, v);
    ExtendedGrows(c, c', i, t, e, m);
    StanceGrows(c.history.reigns, c'.history.reigns, c.history.reigns[u].voters[v]);
    var r := c.history.reigns[u];
    assert c'.history.reigns[u].log[..r.base] == r.log[..r.base];
  }

  lemma ExtendedVoters(c: Cluster, c': Cluster, i: nat, t: Term, e: LogEntry, m: AppendRequest)
    requires Extended(c, c', i, t, e, m) && LeadersOk(c) && GrantsOk(c)
    requires VotersOk(c.history.reigns, c.acks, |c.members|)
    ensures VotersOk(c'.history.reigns, c'.acks, |c'.members|)
  {
    forall u | u in c'.history.reigns
      ensures ElectionOk(c'.history.reigns, c'.acks, |c'.members|, u)
    {
      assert ElectionOk(c.history.reigns, c.acks, |c.members|, u);
      forall v | v in c.history.reigns[u].voters
        ensures VoterOk(c'.history.reigns, c'.acks, u, v)
      {
        ExtendedVoter(c, c', i, t, e, m, u, v);
      }
    }
  }

  lemma ExtendedLogs(c: Cluster, c': Cluster, i: nat, t: Term, e: LogEntry, m: AppendRequest)
    requires Extended(c, c', i, t, e, m) && LogsOk(c)
    ensures LogsOk(c')
  {
    ExtendedGrows(c, c', i, t, e, m);
    forall n | IsMember(c', n)
      ensures LogOk(c', n)
    {
      assert LogOk(c, n);
      StanceGrows(c.history.reigns, c'.history.reigns, StanceOf(c, n));
      var node := c.members[i].node;
      assert (node.log + [e])[..node.lastApplied] == node.log[..node.lastApplied];
    }
  }

  lemma ExtendedEndorsements(c: Cluster, c': Cluster, i: nat, t: Term, e: LogEntry, m: AppendRequest)
    requires Extended(c, c', i, t, e, m) && EndorsementsOk(c)
    ensures EndorsementsOk(c')
  {
    ExtendedGrows(c, c', i, t, e, m);
    forall n | IsMember(c', n)
      ensures EndorsementsKept(c', n)
    {
      assert EndorsementsKept(c, n);
    }
    forall a | a in c'.acks ensures AckOk(c', a) { assert AckOk(c, a); }
  }

  lemma ExtendedRoles(c: Cluster, c': Cluster, i: nat, t: Term, e: LogEntry, m: AppendRequest)
    requires Extended(c, c', i, t, e, m) && RolesOk(c)
    ensures RolesOk(c')
  {
    forall n | IsMember(c', n) ensures RoleOk(c', n) { assert RoleOk(c, n); }
  }

  lemma ExtendedLeaders(c: Cluster, c': Cluster, i: nat, t: Term, e: LogEntry, m: AppendRequest)
    requires Extended(c, c', i, t, e, m) && LeadersOk(c) && BallotsOk(c)
    ensures LeadersOk(c') && BallotsOk(c')
  {
    forall u | u in c'.history.reigns ensures LeaderOk(c', u) { assert LeaderOk(c, u); }
    forall b | b in c'.ballots ensures BallotOk(c', b) { assert BallotOk(c, b); }
  }

  lemma ExtendedGrants(c: Cluster, c': Cluster, i: nat, t: Term, e: LogEntry, m: AppendRequest)
    requires Extended(c, c', i, t, e, m) && GrantsOk(c)
    ensures GrantsOk(c')
  {
    ExtendedGrows(c, c', i, t, e, m);
    forall g | g in c'.grants
      ensures GrantOk(c', g) && GrantStanceOk(c', g)
    {
      assert GrantOk(c, g) && GrantStanceOk(c, g);
      StanceGrows(c.history.reigns, c'.history.reigns, c.history.stances[g]);
    }
  }

  lemma ExtendedOldMessage(c: Cluster, c': Cluster, i: nat, t: Term, e: LogEntry, m: AppendRequest, l: nat,
                           o: AppendRequest)
    requires Extended(c, c', i, t, e, m) && MessageOk(c, l, o)
    ensures MessageOk(c', l, o)
  {
    ExtendedGrows(c, c', i, t, e, m);
    CommittedGrows(c.history.reigns, c.acks, c'.history.reigns, c'.acks, |c.members|, o.term, o.leaderCommit);
    var log := c.history.reigns[o.term].log;
    var log' := c'.history.reigns[o.term].log;
    assert log'[..o.prevLogIndex] == log[..o.prevLogIndex];
    assert log'[o.prevLogIndex..o.prevLogIndex + |o.entries|] == log[o.prevLogIndex..o.prevLogIndex + |o.entries|];
  }

  lemma ExtendedMail(c: Cluster, c': Cluster, i: nat, t: Term, e: LogEntry, m: AppendRequest)
    requires Extended(c, c', i, t, e, m) && MailOk(c) && MessageOk(c', i, m)
    requires m.prevLogIndex == |c.members[i].node.log|
    ensures MailOk(c')
  {
    OldMessagesEnd(c, i, t);
    forall l | IsMember(c', l)
      ensures OutboxOk(c', l)
    {
      assert OutboxOk(c, l);
      forall k | 0 <= k < |c'.members[l].outbox|
        ensures MessageOk(c', l, c'.members[l].outbox[k])
      {
        if k < |c.members[l].outbox| {
          ExtendedOldMessage(c, c', i, t, e, m, l, c.members[l].outbox[k]);
        }
      }
    }
  }

  lemma ExtendedChannels(c: Cluster, c': Cluster, i: nat, t: Term, e: LogEntry, m: AppendRequest)
    requires Extended(c, c', i, t, e, m) && MailOk(c) && ChannelsOk(c)
    requires forall f :: IsMember(c, f) ==> NotBehind(c, f, m)
    ensures ChannelsOk(c')
  {
    forall l, f | IsMember(c', l) && IsMember(c', f) && l != f
      ensures ChannelOk(c', l, f)
    {
      assert ChannelOk(c, l, f) && OutboxOk(c, l);
      forall k | c'.members[f].cursor[l] <= k < |c'.members[l].outbox|
        ensures NotBehind(c', f, c'.members[l].outbox[k])
      {
        var o := c'.members[l].outbox[k];
        assert NotBehind(c, f, o);
        if f == i {
          assert MessageOk(c, l, o);
        }
      }
    }
  }

  lemma ExtendedCommits(c: Cluster, c': Cluster, i: nat, t: Term, e: LogEntry, m: AppendRequest)
    requires Extended(c, c', i, t, e, m) && CommitsOk(c)
    ensures CommitsOk(c')
  {
    ExtendedGrows(c, c', i, t, e, m);
    forall n | IsMember(c', n)
      ensures CommitOk(c', n)
    {
      assert CommitOk(c, n);
      CommittedGrows(c.history.reigns, c.acks, c'.history.reigns, c'.acks, |c.members|,
                     c.history.commitTerm[n], c.members[n].node.commitIndex);
      var node := c.members[i].node;
      assert (node.log + [e])[..node.commitIndex] == node.log[..node.commitIndex];
    }
  }

  lemma CommandIsExtension(c: Cluster, i: NodeId, command: VectorCommand)
    requires Shape(c) && Enabled(c, ClientCommand(i, command)) && LeaderFacts(c, i)
    ensures
      var n := c.members[i].node;
      var e := LogEntry(|n.log| + 1, n.currentTerm, command);
      var m := ReplicationRequest(i, OnClientCommand(n, command));
      && Extended(c, DoClientCommand(c, i, command), i, n.currentTerm, e, m)
      && m.prevLogIndex == |n.log| && m.leaderId == i
      && m.prevLogTerm == LastTerm(n.log)
      && m.leaderCommit == n.commitIndex
  {
    var n := c.members[i].node;
    var log := OnClientCommand(n, command).log;
    assert log[..|log| - 1] == n.log;
  }

  lemma NewMessageOk(c: Cluster, c': Cluster, i: nat, t: Term, e: LogEntry, m: AppendRequest)
    requires Extended(c, c', i, t, e, m)
    requires m.prevLogIndex == |c.members[i].node.log| && m.leaderId == i
    requires m.prevLogTerm == LastTerm(c.members[i].node.log) && m.leaderCommit == c.members[i].node.commitIndex
    ensures MessageOk(c', i, m)
  {
    ExtendedGrows(c, c', i, t, e, m);
    CommittedGrows(c.history.reigns, c.acks, c'.history.reigns, c'.acks, |c.members|, t, m.leaderCommit);
    var log := c.history.reigns[t].log;
    assert (log + [e])[..|log|] == log;
    assert (log + [e])[|log|..|log| + 1] == [e];
  }

  lemma ExtensionKeepsInv(c: Cluster, c': Cluster, i: nat, t: Term, e: LogEntry, m: AppendRequest)
    requires Inv(c) && Extended(c, c', i, t, e, m) && MessageOk(c', i, m)
    requires m.prevLogIndex == |c.members[i].node.log|
    ensures Inv(c')
  {
    assert HistoryOk(c') by { ExtendedReigns(c, c', i, t, e, m); ExtendedVoters(c, c', i, t, e, m); }
    assert LogsOk(c') by { ExtendedLogs(c, c', i, t, e, m); }
    assert EndorsementsOk(c') by { ExtendedEndorsements(c, c', i, t, e, m); }
    assert RolesOk(c') by { ExtendedRoles(c, c', i, t, e, m); }
    assert LeadersOk(c') && BallotsOk(c') by { ExtendedLeaders(c, c', i, t, e, m); }
    assert GrantsOk(c') by { ExtendedGrants(c, c', i, t, e, m); }
    assert MailOk(c') by { ExtendedMail(c, c', i, t, e, m); }
    assert ChannelsOk(c') by {
      forall f | IsMember(c, f) ensures NotBehind(c, f, m) { AheadOfAll(c, i, f, m); }
      ExtendedChannels(c, c', i, t, e, m);
    }
    assert CommitsOk(c') by { ExtendedCommits(c, c', i, t, e, m); }
  }

  lemma ClientCommandKeepsInv(c: Cluster, i: NodeId, command: VectorCommand)
    requires Inv(c) && Enabled(c, ClientCommand(i, command))
    ensures Inv(DoClientCommand(c, i, command))
  {
    var n := c.members[i].node;
    var e := LogEntry(|n.log| + 1, n.currentTerm, command);
    var m := ReplicationRequest(i, OnClientCommand(n, command));
    var c' := DoClientCommand(c, i, command);
    assert LeaderFacts(c, i) by { LeaderFactsHold(c, i); }
    CommandIsExtension(c, i, command);
    NewMessageOk(c, c', i, n.currentTerm, e, m);
    ExtensionKeepsInv(c, c', i, n.currentTerm, e, m);
  }
}
