/** Elections keep the invariant. */
module RaftElectionSteps {
  import opened Wrappers
  import opened RaftProtocol
  import opened RaftCluster
  import opened RaftReigns
  import opened RaftInvariant

  // Only node i changed, and nothing but its term, vote, role, activity, what it has applied and how
  // far it has read its mail; the term did not go down.
  ghost predicate OnlyStanding(c: Cluster, c': Cluster, i: nat) {
    && Shape(c) && Shape(c') && IsMember(c, i)
    && |c'.members| == |c.members|
    && c'.history.reigns == c.history.reigns && c'.acks == c.acks
    && c'.history.accepted == c.history.accepted && c'.history.commitTerm == c.history.commitTerm
    && c.grants <= c'.grants
    && (forall n :: IsMember(c, n) && n != i ==> c'.members[n] == c.members[n])
    && c'.members[i].outbox == c.members[i].outbox
    && (forall l :: IsMember(c, l) ==>
          c.members[i].cursor[l] <= c'.members[i].cursor[l] <= Max(c.members[i].cursor[l], |c.members[l].outbox|))
    && SameLog(c.members[i].node, c'.members[i].node)
    && c.members[i].node.currentTerm <= c'.members[i].node.currentTerm
  }

  // Such a change leaves every fact about logs, endorsements, mail and commits alone.

  lemma StandingKeepsLogs(c: Cluster, c': Cluster, i: nat)
    requires OnlyStanding(c, c', i) && LogsOk(c) && LogOk(c', i)
    ensures LogsOk(c')
  {
    forall n | IsMember(c', n)
      ensures LogOk(c', n)
    {
      assert LogOk(c, n);
    }
  }

  lemma StandingKeepsEndorsements(c: Cluster, c': Cluster, i: nat)
    requires OnlyStanding(c, c', i) && EndorsementsOk(c)
    ensures EndorsementsOk(c')
  {
    forall n | IsMember(c', n)
      ensures EndorsementsKept(c', n)
    {
      assert EndorsementsKept(c, n);
    }
    forall a | a in c'.acks
      ensures AckOk(c', a)
    {
      assert AckOk(c, a);
    }
  }

  lemma StandingKeepsMail(c: Cluster, c': Cluster, i: nat)
    requires OnlyStanding(c, c', i) && MailOk(c)
    ensures MailOk(c')
  {
    forall l | IsMember(c', l)
      ensures OutboxOk(c', l)
    {
      assert OutboxOk(c, l);
      forall k | 0 <= k < |c'.members[l].outbox|
        ensures MessageOk(c', l, c'.members[l].outbox[k])
      {
        assert MessageOk(c, l, c.members[l].outbox[k]);
      }
    }
  }

  lemma StandingKeepsChannels(c: Cluster, c': Cluster, i: nat)
    requires OnlyStanding(c, c', i) && ChannelsOk(c)
    ensures ChannelsOk(c')
  {
    forall l, f | IsMember(c', l) && IsMember(c', f) && l != f
      ensures ChannelOk(c', l, f)
    {
      assert ChannelOk(c, l, f);
      forall k | c'.members[f].cursor[l] <= k < |c'.members[l].outbox|
        ensures NotBehind(c', f, c'.members[l].outbox[k])
      {
        assert NotBehind(c, f, c.members[l].outbox[k]);
      }
    }
  }

  lemma StandingKeepsCommits(c: Cluster, c': Cluster, i: nat)
    requires OnlyStanding(c, c', i) && CommitsOk(c)
    ensures CommitsOk(c')
  {
    forall n | IsMember(c', n)
      ensures CommitOk(c', n)
    {
      assert CommitOk(c, n);
    }
  }

  lemma StandingKeepsLog(c: Cluster, c': Cluster, i: nat)
    requires OnlyStanding(c, c', i) && SameApplied(c.members[i].node, c'.members[i].node) && LogsOk(c)
    ensures LogOk(c', i)
  {
    assert LogOk(c, i);
  }

  lemma StandingKeepsMost(c: Cluster, c': Cluster, i: nat)
    requires Inv(c) && OnlyStanding(c, c', i) && LogOk(c', i)
    ensures HistoryOk(c') && LogsOk(c') && EndorsementsOk(c') && MailOk(c') && ChannelsOk(c') && CommitsOk(c')
  {
    StandingKeepsLogs(c, c', i);
    StandingKeepsEndorsements(c, c', i);
    StandingKeepsMail(c, c', i);
    StandingKeepsChannels(c, c', i);
    StandingKeepsCommits(c, c', i);
  }

  // ---------- Starting an election ----------

  lemma StartElectionRoles(c: Cluster, i: NodeId)
    requires Shape(c) && Enabled(c, StartElection(i)) && RolesOk(c) && LeadersOk(c)
    ensures Shape(DoStartElection(c, i)) && RolesOk(DoStartElection(c, i)) && LeadersOk(DoStartElection(c, i))
  {
    var c' := DoStartElection(c, i);
    forall n | IsMember(c', n)
      ensures RoleOk(c', n)
    {
      assert RoleOk(c, n);
    }
    forall t | t in c'.history.reigns
      ensures LeaderOk(c', t)
    {
      assert LeaderOk(c, t);
    }
  }

  lemma StartElectionBallots(c: Cluster, i: NodeId)
    requires Shape(c) && Enabled(c, StartElection(i)) && BallotsOk(c)
    ensures BallotsOk(DoStartElection(c, i))
  {
    var c' := DoStartElection(c, i);
    forall b | b in c'.ballots
      ensures BallotOk(c', b)
    {
      if b in c.ballots {
        assert BallotOk(c, b);
      }
    }
  }

  lemma StartElectionGrants(c: Cluster, i: NodeId)
    requires Shape(c) && Enabled(c, StartElection(i)) && GrantsOk(c)
    ensures Shape(DoStartElection(c, i)) && GrantsOk(DoStartElection(c, i))
  {
    var c' := DoStartElection(c, i);
    forall g | g in c'.grants
      ensures GrantOk(c', g) && GrantStanceOk(c', g)
    {
      assert GrantOk(c, g) && GrantStanceOk(c, g);
    }
  }

  lemma StartElectionStanding(c: Cluster, i: NodeId)
    requires Shape(c) && Enabled(c, StartElection(i))
    ensures OnlyStanding(c, DoStartElection(c, i), i)
    ensures SameApplied(c.members[i].node, DoStartElection(c, i).members[i].node)
    ensures DoStartElection(c, i).grants == c.grants
  {
  }

  lemma StartElectionKeepsInv(c: Cluster, i: NodeId)
    requires Inv(c) && Enabled(c, StartElection(i))
    ensures Inv(DoStartElection(c, i))
  {
    var c' := DoStartElection(c, i);
    StartElectionStanding(c, i);
    assert HistoryOk(c') && LogsOk(c') && EndorsementsOk(c') && MailOk(c') && ChannelsOk(c') && CommitsOk(c') by {
      StandingKeepsLog(c, c', i);
      StandingKeepsMost(c, c', i);
    }
    assert RolesOk(c') && LeadersOk(c') by { StartElectionRoles(c, i); }
    assert BallotsOk(c') by { StartElectionBallots(c, i); }
    assert GrantsOk(c') by { StartElectionGrants(c, i); }
  }

  // ---------- Handling a ballot ----------

  lemma DeliverBallotRoles(c: Cluster, b: VoteRequest, v: NodeId)
    requires Shape(c) && Enabled(c, DeliverBallot(b, v)) && RolesOk(c) && LeadersOk(c)
    ensures Shape(DoDeliverBallot(c, b, v)) && RolesOk(DoDeliverBallot(c, b, v)) && LeadersOk(DoDeliverBallot(c, b, v))
  {
    var c' := DoDeliverBallot(c, b, v);
    forall n | IsMember(c', n)
      ensures RoleOk(c', n)
    {
      assert RoleOk(c, n);
    }
    forall t | t in c'.history.reigns
      ensures LeaderOk(c', t)
    {
      assert LeaderOk(c, t);
    }
  }

  lemma DeliverBallotBallots(c: Cluster, b: VoteRequest, v: NodeId)
    requires Shape(c) && Enabled(c, DeliverBallot(b, v)) && BallotsOk(c)
    ensures BallotsOk(DoDeliverBallot(c, b, v))
  {
    var c' := DoDeliverBallot(c, b, v);
    forall b' | b' in c'.ballots
      ensures BallotOk(c', b')
    {
      assert BallotOk(c, b');
    }
  }

  lemma DeliverBallotOldGrants(c: Cluster, b: VoteRequest, v: NodeId, g: Grant)
    requires Shape(c) && Enabled(c, DeliverBallot(b, v)) && GrantsOk(c) && g in c.grants
    ensures Shape(DoDeliverBallot(c, b, v))
    ensures GrantOk(DoDeliverBallot(c, b, v), g) && GrantStanceOk(DoDeliverBallot(c, b, v), g)
  {
    assert GrantOk(c, g) && GrantStanceOk(c, g);
  }

  lemma NewGrantOk(c: Cluster, b: VoteRequest, v: NodeId)
    requires Shape(c) && Enabled(c, DeliverBallot(b, v)) && GrantsVote(c.members[v].node, b)
    requires BallotsOk(c) && LeadersOk(c)
    requires Grant(b.term, v, b.candidateId) !in c.grants
    ensures Shape(DoDeliverBallot(c, b, v)) && GrantOk(DoDeliverBallot(c, b, v), Grant(b.term, v, b.candidateId))
  {
    assert BallotOk(c, b);
    if b.term in c.history.reigns {
      assert LeaderOk(c, b.term);
    }
  }

  lemma CampaignBallotFits(c: Cluster, b: VoteRequest)
    requires Shape(c) && ReignsOk(c.history.reigns) && LogsOk(c) && RolesOk(c) && BallotsOk(c) && b in c.ballots
    ensures IsMember(c, b.candidateId)
    ensures
      var m := c.members[b.candidateId];
      m.activity.Campaigning? && m.node.currentTerm == b.term ==>
        b.lastLogIndex == |m.node.log| && b.lastLogTerm == LastTerm(m.node.log)
  {
    assert BallotOk(c, b) && RoleOk(c, b.candidateId) && LogOk(c, b.candidateId);
    StanceAuthentic(c.history.reigns, StanceOf(c, b.candidateId));
  }

  lemma NewGrantStanceOk(c: Cluster, b: VoteRequest, v: NodeId)
    requires Shape(c) && Enabled(c, DeliverBallot(b, v)) && GrantsVote(c.members[v].node, b)
    requires ReignsOk(c.history.reigns) && LogsOk(c) && RolesOk(c) && BallotsOk(c) && EndorsementsOk(c)
    requires Grant(b.term, v, b.candidateId) !in c.grants
    requires Shape(DoDeliverBallot(c, b, v)) && GrantOk(DoDeliverBallot(c, b, v), Grant(b.term, v, b.candidateId))
    ensures GrantStanceOk(DoDeliverBallot(c, b, v), Grant(b.term, v, b.candidateId))
  {
    CampaignBallotFits(c, b);
    assert LogOk(c, v) && EndorsementsKept(c, v);
    assert Witnesses(c.history.reigns, c.acks, v, b.term, StanceOf(c, v));
  }

  lemma NewGrant(c: Cluster, b: VoteRequest, v: NodeId, g: Grant)
    requires Inv(c) && Enabled(c, DeliverBallot(b, v))
    requires g in DoDeliverBallot(c, b, v).grants && g !in c.grants
    ensures Shape(DoDeliverBallot(c, b, v))
    ensures GrantOk(DoDeliverBallot(c, b, v), g) && GrantStanceOk(DoDeliverBallot(c, b, v), g)
  {
    NewGrantOk(c, b, v);
    NewGrantStanceOk(c, b, v);
  }

  lemma DeliverBallotGrants(c: Cluster, b: VoteRequest, v: NodeId)
    requires Inv(c) && Enabled(c, DeliverBallot(b, v))
    ensures Shape(DoDeliverBallot(c, b, v)) && GrantsOk(DoDeliverBallot(c, b, v))
  {
    forall g | g in DoDeliverBallot(c, b, v).grants
      ensures GrantOk(DoDeliverBallot(c, b, v), g) && GrantStanceOk(DoDeliverBallot(c, b, v), g)
    {
      if g in c.grants {
        DeliverBallotOldGrants(c, b, v, g);
      } else {
        NewGrant(c, b, v, g);
      }
    }
  }

  lemma DeliverBallotGrantsUnique(c: Cluster, b: VoteRequest, v: NodeId)
    requires Shape(c) && Enabled(c, DeliverBallot(b, v)) && GrantsOk(c) && GrantsUnique(c.grants)
    ensures GrantsUnique(DoDeliverBallot(c, b, v).grants)
  {
    forall g | g in c.grants && g.term == b.term && g.voter == v && GrantsVote(c.members[v].node, b)
      ensures g.candidate == b.candidateId
    {
      assert GrantOk(c, g);
    }
  }

  lemma DeliverBallotStanding(c: Cluster, b: VoteRequest, v: NodeId)
    requires Shape(c) && Enabled(c, DeliverBallot(b, v))
    ensures OnlyStanding(c, DoDeliverBallot(c, b, v), v)
    ensures SameApplied(c.members[v].node, DoDeliverBallot(c, b, v).members[v].node)
  {
  }

  lemma DeliverBallotKeepsInv(c: Cluster, b: VoteRequest, v: NodeId)
    requires Inv(c) && Enabled(c, DeliverBallot(b, v))
    ensures Inv(DoDeliverBallot(c, b, v))
  {
    var c' := DoDeliverBallot(c, b, v);
    DeliverBallotStanding(c, b, v);
    assert HistoryOk(c') && LogsOk(c') && EndorsementsOk(c') && MailOk(c') && ChannelsOk(c') && CommitsOk(c') by {
      StandingKeepsLog(c, c', v);
      StandingKeepsMost(c, c', v);
    }
    assert RolesOk(c') && LeadersOk(c') by { DeliverBallotRoles(c, b, v); }
    assert BallotsOk(c') by { DeliverBallotBallots(c, b, v); }
    assert GrantsOk(c') by { DeliverBallotGrants(c, b, v); }
    assert GrantsUnique(c'.grants) by { DeliverBallotGrantsUnique(c, b, v); }
  }

  // ---------- Losing an election ----------

  ghost predicate Wins(c: Cluster, votes: set<NodeId>) {
    |votes| + 1 >= ElectionQuorum(Peers(c))
  }

  lemma LoseElectionRoles(c: Cluster, i: NodeId, votes: set<NodeId>)
    requires Shape(c) && Enabled(c, EndElection(i, votes)) && !Wins(c, votes) && RolesOk(c) && LeadersOk(c)
    ensures Shape(DoEndElection(c, i, votes))
    ensures RolesOk(DoEndElection(c, i, votes)) && LeadersOk(DoEndElection(c, i, votes))
  {
    var c' := DoEndElection(c, i, votes);
    assert RoleOk(c, i);
    forall n | IsMember(c', n)
      ensures RoleOk(c', n)
    {
      assert RoleOk(c, n);
    }
    forall t | t in c'.history.reigns
      ensures LeaderOk(c', t)
    {
      assert LeaderOk(c, t);
    }
  }

  lemma LoseElectionGrants(c: Cluster, i: NodeId, votes: set<NodeId>)
    requires Shape(c) && Enabled(c, EndElection(i, votes)) && !Wins(c, votes) && RolesOk(c) && GrantsOk(c)
    ensures Shape(DoEndElection(c, i, votes)) && GrantsOk(DoEndElection(c, i, votes))
  {
    var c' := DoEndElection(c, i, votes);
    assert RoleOk(c, i);
    forall g | g in c'.grants
      ensures GrantOk(c', g) && GrantStanceOk(c', g)
    {
      assert GrantOk(c, g) && GrantStanceOk(c, g);
    }
  }

  lemma EndElectionBallots(c: Cluster, i: NodeId, votes: set<NodeId>)
    requires Shape(c) && Enabled(c, EndElection(i, votes)) && BallotsOk(c)
    ensures BallotsOk(DoEndElection(c, i, votes))
  {
    var c' := DoEndElection(c, i, votes);
    forall b | b in c'.ballots
      ensures BallotOk(c', b)
    {
      assert BallotOk(c, b);
    }
  }

  lemma LoseElectionStanding(c: Cluster, i: NodeId, votes: set<NodeId>)
    requires Shape(c) && Enabled(c, EndElection(i, votes)) && !Wins(c, votes)
    ensures OnlyStanding(c, DoEndElection(c, i, votes), i)
    ensures SameApplied(c.members[i].node, DoEndElection(c, i, votes).members[i].node)
    ensures DoEndElection(c, i, votes).grants == c.grants
  {
  }

  lemma LoseElectionKeepsInv(c: Cluster, i: NodeId, votes: set<NodeId>)
    requires Inv(c) && Enabled(c, EndElection(i, votes)) && !Wins(c, votes)
    ensures Inv(DoEndElection(c, i, votes))
  {
    var c' := DoEndElection(c, i, votes);
    LoseElectionStanding(c, i, votes);
    assert HistoryOk(c') && LogsOk(c') && EndorsementsOk(c') && MailOk(c') && ChannelsOk(c') && CommitsOk(c') by {
      StandingKeepsLog(c, c', i);
      StandingKeepsMost(c, c', i);
    }
    assert RolesOk(c') && LeadersOk(c') by { LoseElectionRoles(c, i, votes); }
    assert GrantsOk(c') by { LoseElectionGrants(c, i, votes); }
    assert BallotsOk(c') by { EndElectionBallots(c, i, votes); }
  }
}
