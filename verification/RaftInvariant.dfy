/** What every reachable state of the cluster satisfies. */
module RaftInvariant {
  import opened Wrappers
  import opened RaftProtocol
  import opened RaftCluster
  import opened RaftReigns

  ghost predicate IsMember(c: Cluster, n: int) { 0 <= n < |c.members| }

  ghost predicate SameLog(a: Node, b: Node) { a.log == b.log && a.commitIndex == b.commitIndex }

  ghost predicate SameApplied(a: Node, b: Node) { a.lastApplied == b.lastApplied && a.storage == b.storage }

  // What node n's log is, and who last wrote to it.
  ghost function StanceOf(c: Cluster, n: nat): Stance
    requires Shape(c) && IsMember(c, n)
  {
    Stance(c.members[n].node.log, c.history.accepted[n])
  }

  ghost predicate LogOk(c: Cluster, n: nat)
    requires Shape(c) && IsMember(c, n)
  {
    var node := c.members[n].node;
    && StanceOk(c.history.reigns, StanceOf(c, n))
    && c.history.accepted[n] <= node.currentTerm
    && node.lastApplied <= node.commitIndex <= |node.log|
    && node.storage == Replay(node.log[..node.lastApplied])
  }

  ghost predicate RoleOk(c: Cluster, n: nat)
    requires Shape(c) && IsMember(c, n)
  {
    var m := c.members[n];
    && (m.node.role == Leader ==>
          m.node.currentTerm in c.history.reigns && c.history.reigns[m.node.currentTerm].leader == n)
    && (m.node.role == Candidate <==> m.activity.Campaigning?)
    && (m.activity.Campaigning? ==>
          && m.activity.ballot == BallotOf(n, m.node)
          && m.activity.ballot in c.ballots
          && m.node.votedFor == Some(n))
    && (m.activity.Replicating? ==>
          && m.node.role == Leader
          && m.activity.request.term == m.node.currentTerm
          && |m.activity.request.entries| == 1
          && m.activity.request.entries[0].index == |m.node.log|
          && c.history.reigns[m.node.currentTerm].base < |m.node.log|)
  }

  // The leader of term t stays the leader until it leaves the term, and its log is the reign's log
  // until it accepts an append of a later term.
  ghost predicate LeaderOk(c: Cluster, t: Term)
    requires Shape(c) && t in c.history.reigns
  {
    var r := c.history.reigns[t];
    && IsMember(c, r.leader)
    && var node := c.members[r.leader].node;
       && t <= c.history.accepted[r.leader]
       && t <= node.currentTerm
       && (t == node.currentTerm ==> node.role == Leader && node.votedFor == Some(r.leader))
       && (t == c.history.accepted[r.leader] ==> node.log == r.log)
       && forall v :: v in r.voters ==> v == r.leader || Grant(t, v, r.leader) in c.grants
  }

  ghost predicate BallotOk(c: Cluster, b: VoteRequest) {
    && 1 <= b.term
    && IsMember(c, b.candidateId)
    && var m := c.members[b.candidateId];
       && b.term <= m.node.currentTerm
       && (m.activity.Campaigning? && b.term == m.node.currentTerm ==> b == m.activity.ballot)
  }

  ghost predicate GrantOk(c: Cluster, g: Grant)
    requires Shape(c)
  {
    && IsMember(c, g.voter) && IsMember(c, g.candidate) && g.voter != g.candidate
    && var node := c.members[g.voter].node;
       && 1 <= g.term <= node.currentTerm
       && g.term <= c.members[g.candidate].node.currentTerm
       && (g.term == node.currentTerm ==> node.votedFor == Some(g.candidate))
       && (g.term in c.history.reigns ==> c.history.reigns[g.term].leader != g.voter)
       && g in c.history.stances
  }

  // What the voter held when it granted the vote.
  ghost predicate GrantStanceOk(c: Cluster, g: Grant)
    requires Shape(c) && GrantOk(c, g)
  {
    var s := c.history.stances[g];
    && StanceOk(c.history.reigns, s)
    && s.accepted <= g.term
    && Witnesses(c.history.reigns, c.acks, g.voter, g.term, s)
    && var m := c.members[g.candidate];
       m.activity.Campaigning? && m.node.currentTerm == g.term ==>
         AtLeastAsUpToDate(|m.node.log|, LastTerm(m.node.log), s.log)
  }

  ghost predicate GrantsUnique(grants: set<Grant>) {
    forall g, h :: g in grants && h in grants && g.term == h.term && g.voter == h.voter ==> g == h
  }

  // All that node n ever endorsed is still in its log, unless a later leader wrote to it.
  ghost predicate EndorsementsKept(c: Cluster, n: nat)
    requires Shape(c) && IsMember(c, n)
  {
    forall t: Term, j: LogIndex :: Endorses(c.history.reigns, c.acks, n, t, j) ==>
      t <= c.history.accepted[n] && (t == c.history.accepted[n] ==> j <= |c.members[n].node.log|)
  }

  ghost predicate MessageOk(c: Cluster, l: nat, m: AppendRequest) {
    && m.term in c.history.reigns
    && m.leaderId == l
    && var r := c.history.reigns[m.term];
       && r.leader == l
       && |m.entries| <= 1
       && r.base <= m.prevLogIndex
       && m.prevLogIndex + |m.entries| <= |r.log|
       && m.prevLogTerm == LastTerm(r.log[..m.prevLogIndex])
       && m.entries == r.log[m.prevLogIndex..m.prevLogIndex + |m.entries|]
       && m.leaderCommit <= m.prevLogIndex
       && Committed(c.history.reigns, c.acks, |c.members|, m.term, m.leaderCommit)
  }

  ghost predicate OutboxOk(c: Cluster, l: nat)
    requires IsMember(c, l)
  {
    && (forall k :: 0 <= k < |c.members[l].outbox| ==> MessageOk(c, l, c.members[l].outbox[k]))
    && InOrder(c.members[l].outbox)
  }

  ghost predicate InOrder(outbox: seq<AppendRequest>) {
    forall i, k :: 0 <= i < k < |outbox| && outbox[i].term == outbox[k].term ==>
      outbox[i].prevLogIndex + |outbox[i].entries| <= outbox[k].prevLogIndex
  }

  // A message on its way is never behind what its receiver already took from the same leader.
  ghost predicate NotBehind(c: Cluster, f: nat, m: AppendRequest)
    requires Shape(c) && IsMember(c, f)
  {
    && (c.history.accepted[f] == m.term ==> |c.members[f].node.log| <= m.prevLogIndex)
    && (c.history.commitTerm[f] == m.term ==> c.members[f].node.commitIndex <= m.prevLogIndex)
  }

  ghost predicate ChannelOk(c: Cluster, l: nat, f: nat)
    requires Shape(c) && IsMember(c, l) && IsMember(c, f)
  {
    && c.members[f].cursor[l] <= |c.members[l].outbox|
    && forall k :: c.members[f].cursor[l] <= k < |c.members[l].outbox| ==> NotBehind(c, f, c.members[l].outbox[k])
  }

  ghost predicate CommitOk(c: Cluster, n: nat)
    requires Shape(c) && IsMember(c, n)
  {
    var node := c.members[n].node;
    var t := c.history.commitTerm[n];
    && t <= node.currentTerm
    && node.commitIndex <= |node.log|
    && Committed(c.history.reigns, c.acks, |c.members|, t, node.commitIndex)
    && (node.commitIndex > 0 ==> node.log[..node.commitIndex] == c.history.reigns[t].log[..node.commitIndex])
  }

  ghost predicate AckOk(c: Cluster, a: Ack) {
    && a.term in c.history.reigns
    && IsMember(c, a.follower)
    && a.follower != c.history.reigns[a.term].leader
  }

  ghost predicate LogsOk(c: Cluster) requires Shape(c) { forall n :: IsMember(c, n) ==> LogOk(c, n) }
  ghost predicate RolesOk(c: Cluster) requires Shape(c) { forall n :: IsMember(c, n) ==> RoleOk(c, n) }
  ghost predicate LeadersOk(c: Cluster) requires Shape(c) { forall t :: t in c.history.reigns ==> LeaderOk(c, t) }
  ghost predicate BallotsOk(c: Cluster) { forall b :: b in c.ballots ==> BallotOk(c, b) }
  ghost predicate GrantsOk(c: Cluster)
    requires Shape(c)
  {
    forall g :: g in c.grants ==> GrantOk(c, g) && GrantStanceOk(c, g)
  }
  ghost predicate EndorsementsOk(c: Cluster)
    requires Shape(c)
  {
    && (forall n :: IsMember(c, n) ==> EndorsementsKept(c, n))
    && forall a :: a in c.acks ==> AckOk(c, a)
  }
  ghost predicate MailOk(c: Cluster) { forall l :: IsMember(c, l) ==> OutboxOk(c, l) }
  ghost predicate ChannelsOk(c: Cluster)
    requires Shape(c)
  {
    forall l, f :: IsMember(c, l) && IsMember(c, f) && l != f ==> ChannelOk(c, l, f)
  }
  ghost predicate CommitsOk(c: Cluster) requires Shape(c) { forall n :: IsMember(c, n) ==> CommitOk(c, n) }

  ghost predicate HistoryOk(c: Cluster) {
    && ReignsOk(c.history.reigns)
    && VotersOk(c.history.reigns, c.acks, |c.members|)
  }

  ghost predicate Inv(c: Cluster) {
    && Shape(c)
    && HistoryOk(c)
    && LogsOk(c)
    && RolesOk(c)
    && LeadersOk(c)
    && BallotsOk(c)
    && GrantsOk(c) && GrantsUnique(c.grants)
    && EndorsementsOk(c)
    && MailOk(c)
    && ChannelsOk(c)
    && CommitsOk(c)
  }

  lemma InitInv(c: Cluster)
    requires Init(c)
    ensures Inv(c)
  {
    assert forall n :: IsMember(c, n) ==> c.members[n].node == FRESH_NODE;
  }
}
