/** Winning an election keeps the invariant; in particular the term had no leader before. */
module RaftVictory {
  import opened Wrappers
  import opened RaftProtocol
  import opened RaftCluster
  import opened RaftReigns
  import opened RaftInvariant
  import opened RaftElectionSteps

  lemma VotersAreQuorum(c: Cluster, i: NodeId, votes: set<NodeId>)
    requires Shape(c) && Enabled(c, EndElection(i, votes)) && Wins(c, votes) && GrantsOk(c)
    ensures i !in votes && IsQuorum(votes + {i}, |c.members|)
  {
    var term := c.members[i].activity.ballot.term;
    forall v | v in votes
      ensures IsMember(c, v) && v != i
    {
      assert GrantOk(c, Grant(term, v, i));
    }
    assert |votes + {i}| == |votes| + 1;
  }

  // A node cannot have voted for the leader of a term and for a candidate still standing in it.
  lemma NoSharedVoter(c: Cluster, i: NodeId, t: Term, v: NodeId)
    requires Shape(c) && IsMember(c, i) && RoleOk(c, i) && c.members[i].activity.Campaigning?
    requires t == c.members[i].node.currentTerm && t in c.history.reigns && LeaderOk(c, t)
    requires GrantsOk(c) && GrantsUnique(c.grants)
    requires v == i || Grant(t, v, i) in c.grants
    ensures v !in c.history.reigns[t].voters
  {
    var l := c.history.reigns[t].leader;
    assert v == i || GrantOk(c, Grant(t, v, i));
    assert v in c.history.reigns[t].voters && v != l ==> GrantOk(c, Grant(t, v, l));
  }

  // Election Safety, at the moment of victory: nobody led this term before.
  lemma NewTermHasNoLeader(c: Cluster, i: NodeId, votes: set<NodeId>)
    requires Shape(c) && Enabled(c, EndElection(i, votes)) && Wins(c, votes)
    requires RolesOk(c) && LeadersOk(c) && GrantsOk(c) && GrantsUnique(c.grants)
    requires VotersOk(c.history.reigns, c.acks, |c.members|)
    ensures c.members[i].activity.ballot.term !in c.history.reigns
  {
    var t := c.members[i].activity.ballot.term;
    assert RoleOk(c, i);
    if t in c.history.reigns {
      VotersAreQuorum(c, i, votes);
      assert ElectionOk(c.history.reigns, c.acks, |c.members|, t);
      var v := QuorumsMeet(votes + {i}, c.history.reigns[t].voters.Keys, |c.members|);
      assert LeaderOk(c, t);
      NoSharedVoter(c, i, t, v);
    }
  }

  // Node i begins a reign in a term that had none; nothing else about logs and mail changes.
  ghost predicate Victory(c: Cluster, c': Cluster, i: nat, t: Term) {
    && Shape(c) && Shape(c') && IsMember(c, i) && |c'.members| == |c.members|
    && t !in c.history.reigns
    && t == c.members[i].node.currentTerm == c'.members[i].node.currentTerm
    && t in c'.history.reigns
    && c'.history.reigns == c.history.reigns[t := c'.history.reigns[t]]
    && c'.history.reigns[t].leader == i
    && c'.history.reigns[t].log == c.members[i].node.log
    && c'.history.reigns[t].base == |c.members[i].node.log|
    && c'.history.accepted == c.history.accepted[i := t]
    && c'.history.commitTerm == c.history.commitTerm
    && c'.history.stances == c.history.stances
    && c'.acks == c.acks && c'.grants == c.grants && c'.ballots == c.ballots
    && (forall n :: IsMember(c, n) && n != i ==> c'.members[n] == c.members[n])
    && c'.members[i].outbox == c.members[i].outbox && c'.members[i].cursor == c.members[i].cursor
    && SameLog(c.members[i].node, c'.members[i].node) && SameApplied(c.members[i].node, c'.members[i].node)
    && c'.members[i].node.role == Leader && c'.members[i].activity == Idle
    && c'.members[i].node.votedFor == c.members[i].node.votedFor
  }

  lemma VictoryGrows(c: Cluster, c': Cluster, i: nat, t: Term)
    requires Victory(c, c', i, t)
    ensures Grows(c.history.reigns, c'.history.reigns)
    ensures forall v: NodeId, u: Term, j: LogIndex ::
              Endorses(c'.history.reigns, c'.acks, v, u, j) <==> Endorses(c.history.reigns, c.acks, v, u, j)
  {
  }

  lemma VictoryReigns(c: Cluster, c': Cluster, i: nat, t: Term)
    requires Victory(c, c', i, t) && ReignsOk(c.history.reigns) && LogsOk(c) && 1 <= t
    ensures ReignsOk(c'.history.reigns)
  {
    VictoryGrows(c, c', i, t);
    assert LogOk(c, i);
    StanceAuthentic(c.history.reigns, StanceOf(c, i));
    AuthenticGrows(c.history.reigns, c'.history.reigns, c.members[i].node.log);
    forall u | u in c'.history.reigns
      ensures ReignOk(c'.history.reigns, u)
    {
      if u != t {
        assert ReignOk(c.history.reigns, u);
        AuthenticGrows(c.history.reigns, c'.history.reigns, c.history.reigns[u].log);
      }
    }
  }

  lemma OldVoterOk(c: Cluster, c': Cluster, i: nat, t: Term, u: Term, v: NodeId)
    requires Victory(c, c', i, t) && u in c.history.reigns && v in c.history.reigns[u].voters
    requires c.history.reigns[u].base <= |c.history.reigns[u].log| && VoterOk(c.history.reigns, c.acks, u, v)
    ensures VoterOk(c'.history.reigns, c'.acks, u, v)
  {
    VictoryGrows(c, c', i, t);
    StanceGrows(c.history.reigns, c'.history.reigns, c.history.reigns[u].voters[v]);
  }

  // The stance of a voter of the new reign, as it stands before the reign begins.
  ghost predicate ElectorOk(c: Cluster, i: nat, t: Term, v: NodeId, s: Stance)
    requires IsMember(c, i)
  {
    && StanceOk(c.history.reigns, s)
    && s.accepted < t
    && AtLeastAsUpToDate(|c.members[i].node.log|, LastTerm(c.members[i].node.log), s.log)
    && Witnesses(c.history.reigns, c.acks, v, t, s)
  }

  lemma NewVoterOk(c: Cluster, c': Cluster, i: nat, t: Term, v: NodeId)
    requires Victory(c, c', i, t) && v in c'.history.reigns[t].voters
    requires ElectorOk(c, i, t, v, c'.history.reigns[t].voters[v])
    ensures VoterOk(c'.history.reigns, c'.acks, t, v)
  {
    var s := c'.history.reigns[t].voters[v];
    VictoryGrows(c, c', i, t);
    StanceGrows(c.history.reigns, c'.history.reigns, s);
    assert c'.history.reigns[t].log[..c'.history.reigns[t].base] == c.members[i].node.log;
  }

  lemma VictoryVoters(c: Cluster, c': Cluster, i: nat, t: Term)
    requires Victory(c, c', i, t) && VotersOk(c.history.reigns, c.acks, |c.members|)
    requires IsQuorum(c'.history.reigns[t].voters.Keys, |c.members|)
    requires forall v :: v in c'.history.reigns[t].voters ==> ElectorOk(c, i, t, v, c'.history.reigns[t].voters[v])
    ensures VotersOk(c'.history.reigns, c'.acks, |c'.members|)
  {
    forall u | u in c'.history.reigns
      ensures ElectionOk(c'.history.reigns, c'.acks, |c'.members|, u)
    {
      if u == t {
        forall v | v in c'.history.reigns[t].voters
          ensures VoterOk(c'.history.reigns, c'.acks, t, v)
        {
          NewVoterOk(c, c', i, t, v);
        }
      } else {
        assert ElectionOk(c.history.reigns, c.acks, |c.members|, u);
        forall v | v in c.history.reigns[u].voters
          ensures VoterOk(c'.history.reigns, c'.acks, u, v)
        {
          OldVoterOk(c, c', i, t, u, v);
        }
      }
    }
  }

  lemma VictoryLogs(c: Cluster, c': Cluster, i: nat, t: Term)
    requires Victory(c, c', i, t) && LogsOk(c) && EndorsementsOk(c)
    ensures LogsOk(c') && EndorsementsOk(c')
  {
    VictoryGrows(c, c', i, t);
    forall n | IsMember(c', n)
      ensures LogOk(c', n) && EndorsementsKept(c', n)
    {
      assert LogOk(c, n) && EndorsementsKept(c, n);
      StanceGrows(c.history.reigns, c'.history.reigns, StanceOf(c, n));
      assert Ack(t, n, 0) in c.acks ==> AckOk(c, Ack(t, n, 0));
      forall u: Term, j: LogIndex | Endorses(c'.history.reigns, c'.acks, n, u, j)
        ensures u != t
      {
        assert Ack(t, n, j) in c.acks ==> AckOk(c, Ack(t, n, j));
      }
    }
    forall a | a in c'.acks
      ensures AckOk(c', a)
    {
      assert AckOk(c, a);
    }
  }

  lemma VictoryRoles(c: Cluster, c': Cluster, i: nat, t: Term)
    requires Victory(c, c', i, t) && RolesOk(c) && LeadersOk(c)
    requires c.members[i].activity.Campaigning?
    requires forall v :: v in c'.history.reigns[t].voters ==> v == i || Grant(t, v, i) in c.grants
    ensures RolesOk(c') && LeadersOk(c')
  {
    assert RoleOk(c, i);
    forall n | IsMember(c', n)
      ensures RoleOk(c', n)
    {
      assert RoleOk(c, n);
    }
    forall u | u in c'.history.reigns
      ensures LeaderOk(c', u)
    {
      if u != t {
        assert LeaderOk(c, u);
      }
    }
  }

  lemma VictoryGrants(c: Cluster, c': Cluster, i: nat, t: Term)
    requires Victory(c, c', i, t) && GrantsOk(c) && RolesOk(c) && c.members[i].activity.Campaigning?
    ensures GrantsOk(c')
  {
    VictoryGrows(c, c', i, t);
    assert RoleOk(c, i);
    forall g | g in c'.grants
      ensures GrantOk(c', g) && GrantStanceOk(c', g)
    {
      assert GrantOk(c, g) && GrantStanceOk(c, g);
      StanceGrows(c.history.reigns, c'.history.reigns, c.history.stances[g]);
    }
  }

  lemma VictoryMail(c: Cluster, c': Cluster, i: nat, t: Term)
    requires Victory(c, c', i, t) && MailOk(c)
    ensures MailOk(c')
  {
    VictoryGrows(c, c', i, t);
    forall l | IsMember(c', l)
      ensures OutboxOk(c', l)
    {
      assert OutboxOk(c, l);
      forall k | 0 <= k < |c'.members[l].outbox|
        ensures MessageOk(c', l, c'.members[l].outbox[k])
      {
        var m := c.members[l].outbox[k];
        assert MessageOk(c, l, m);
        CommittedGrows(c.history.reigns, c.acks, c'.history.reigns, c'.acks, |c.members|, m.term, m.leaderCommit);
      }
    }
  }

  lemma VictoryChannels(c: Cluster, c': Cluster, i: nat, t: Term)
    requires Victory(c, c', i, t) && MailOk(c) && ChannelsOk(c)
    ensures ChannelsOk(c')
  {
    forall l, f | IsMember(c', l) && IsMember(c', f) && l != f
      ensures ChannelOk(c', l, f)
    {
      assert ChannelOk(c, l, f) && OutboxOk(c, l);
      forall k | c'.members[f].cursor[l] <= k < |c'.members[l].outbox|
        ensures NotBehind(c', f, c'.members[l].outbox[k])
      {
        assert NotBehind(c, f, c.members[l].outbox[k]) && MessageOk(c, l, c.members[l].outbox[k]);
      }
    }
  }

  lemma VictoryCommits(c: Cluster, c': Cluster, i: nat, t: Term)
    requires Victory(c, c', i, t) && CommitsOk(c)
    ensures CommitsOk(c')
  {
    VictoryGrows(c, c', i, t);
    forall n | IsMember(c', n)
      ensures CommitOk(c', n)
    {
      assert CommitOk(c, n);
      CommittedGrows(c.history.reigns, c.acks, c'.history.reigns, c'.acks, |c.members|,
                     c.history.commitTerm[n], c.members[n].node.commitIndex);
    }
  }

  lemma WinIsVictory(c: Cluster, i: NodeId, votes: set<NodeId>)
    requires Shape(c) && Enabled(c, EndElection(i, votes)) && Wins(c, votes) && RolesOk(c)
    requires c.members[i].activity.ballot.term !in c.history.reigns
    ensures c.members[i].activity.Campaigning?
    ensures Victory(c, DoEndElection(c, i, votes), i, c.members[i].activity.ballot.term)
    ensures DoEndElection(c, i, votes).history.reigns[c.members[i].activity.ballot.term].voters
            == NewReign(c, i, votes).voters
  {
    assert RoleOk(c, i);
  }

  lemma ElectorsOk(c: Cluster, i: NodeId, votes: set<NodeId>, v: NodeId)
    requires Shape(c) && Enabled(c, EndElection(i, votes)) && RolesOk(c)
    requires GrantsOk(c) && LogsOk(c) && EndorsementsOk(c)
    requires 1 <= c.members[i].activity.ballot.term && c.members[i].activity.ballot.term !in c.history.reigns
    requires v in NewReign(c, i, votes).voters
    ensures ElectorOk(c, i, c.members[i].activity.ballot.term, v, NewReign(c, i, votes).voters[v])
  {
    var t := c.members[i].activity.ballot.term;
    assert RoleOk(c, i);
    if v == i {
      assert LogOk(c, i) && EndorsementsKept(c, i);
    } else {
      var g := Grant(t, v, i);
      assert GrantOk(c, g) && GrantStanceOk(c, g);
    }
  }

  lemma NewVoters(c: Cluster, i: NodeId, votes: set<NodeId>)
    requires Shape(c) && Enabled(c, EndElection(i, votes)) && Wins(c, votes)
    requires RolesOk(c) && GrantsOk(c) && LogsOk(c) && EndorsementsOk(c)
    requires 1 <= c.members[i].activity.ballot.term && c.members[i].activity.ballot.term !in c.history.reigns
    ensures
      var voters := NewReign(c, i, votes).voters;
      var t := c.members[i].activity.ballot.term;
      && IsQuorum(voters.Keys, |c.members|)
      && (forall v :: v in voters ==> ElectorOk(c, i, t, v, voters[v]))
      && (forall v :: v in voters ==> v == i || Grant(t, v, i) in c.grants)
  {
    var voters := NewReign(c, i, votes).voters;
    VotersAreQuorum(c, i, votes);
    assert voters.Keys == votes + {i};
    forall v | v in voters
      ensures ElectorOk(c, i, c.members[i].activity.ballot.term, v, voters[v])
    {
      ElectorsOk(c, i, votes, v);
    }
  }

  lemma WinElectionKeepsInv(c: Cluster, i: NodeId, votes: set<NodeId>)
    requires Inv(c) && Enabled(c, EndElection(i, votes)) && Wins(c, votes)
    ensures Inv(DoEndElection(c, i, votes))
  {
    var t := c.members[i].activity.ballot.term;
    assert t !in c.history.reigns by { NewTermHasNoLeader(c, i, votes); }
    assert 1 <= t by { assert RoleOk(c, i); assert BallotOk(c, c.members[i].activity.ballot); }
    WinIsVictory(c, i, votes);
    NewVoters(c, i, votes);
    EndElectionBallots(c, i, votes);
    VictoryKeepsInv(c, DoEndElection(c, i, votes), i, t);
  }

  lemma VictoryKeepsInv(c: Cluster, c': Cluster, i: NodeId, t: Term)
    requires Inv(c) && Victory(c, c', i, t) && 1 <= t && c.members[i].activity.Campaigning?
    requires IsQuorum(c'.history.reigns[t].voters.Keys, |c.members|)
    requires forall v :: v in c'.history.reigns[t].voters ==> ElectorOk(c, i, t, v, c'.history.reigns[t].voters[v])
    requires forall v :: v in c'.history.reigns[t].voters ==> v == i || Grant(t, v, i) in c.grants
    requires BallotsOk(c')
    ensures Inv(c')
  {
    assert HistoryOk(c') by { VictoryReigns(c, c', i, t); VictoryVoters(c, c', i, t); }
    assert LogsOk(c') && EndorsementsOk(c') by { VictoryLogs(c, c', i, t); }
    assert RolesOk(c') && LeadersOk(c') by { VictoryRoles(c, c', i, t); }
    assert GrantsOk(c') by { VictoryGrants(c, c', i, t); }
    assert MailOk(c') by { VictoryMail(c, c', i, t); }
    assert ChannelsOk(c') by { VictoryChannels(c, c', i, t); }
    assert CommitsOk(c') by { VictoryCommits(c, c', i, t); }
  }
}
