/** A node that handles an append or a heartbeat keeps the invariant. */
module RaftAppendStep {
  import opened Wrappers
  import opened RaftProtocol
  import opened RaftCluster
  import opened RaftReigns
  import opened RaftInvariant
  import opened RaftCommandStep

  // ---------- What the handler does, for the messages leaders send ----------

  // A request with one entry leaves the log cut at the previous index plus that entry.
  lemma ReconcileOne(log: seq<LogEntry>, prev: nat, entries: seq<LogEntry>)
    requires prev <= |log| && |entries| == 1
    ensures Reconcile(log, prev, entries) == log[..prev] + entries
  {
    assert FirstConflict(log, prev, entries) in {None, Some(prev)};
  }

  // If the previous entry matches, the logs of receiver and leader agree up to it.
  lemma PreviousMatchesLeader(reigns: map<Term, Reign>, s: Stance, m: AppendRequest)
    requires ReignsOk(reigns) && StanceOk(reigns, s) && m.term in reigns && PreviousMatches(s.log, m)
    requires m.prevLogIndex <= |reigns[m.term].log|
    requires m.prevLogTerm == LastTerm(reigns[m.term].log[..m.prevLogIndex])
    ensures m.prevLogIndex <= |s.log| && s.log[..m.prevLogIndex] == reigns[m.term].log[..m.prevLogIndex]
  {
    var p := m.prevLogIndex;
    if p > 0 {
      StanceAuthentic(reigns, s);
      assert ReignOk(reigns, m.term);
      AuthenticLogsMatch(reigns, s.log, reigns[m.term].log, p - 1);
    }
  }

  // A request the receiver accepts never starts below what the receiver knows to be committed.
  lemma CommitBelowPrevious(c: Cluster, l: nat, f: nat, m: AppendRequest)
    requires Shape(c) && IsMember(c, f) && MessageOk(c, l, m) && NotBehind(c, f, m) && CommitOk(c, f) && HistoryOk(c)
    requires c.members[f].node.currentTerm <= m.term
    ensures c.members[f].node.commitIndex <= m.prevLogIndex
  {
    if c.history.commitTerm[f] < m.term {
      CommittedCarries(c.history.reigns, c.acks, |c.members|, c.history.commitTerm[f],
                       c.members[f].node.commitIndex, m.term);
    }
  }

  // ---------- The step ----------

  ghost predicate Wrote(c: Cluster, c': Cluster, f: nat, m: AppendRequest)
    requires Shape(c) && Shape(c') && IsMember(c, f) && IsMember(c', f)
  {
    && |m.entries| == 1
    && m.term in c.history.reigns
    && c.history.reigns[m.term].base < m.prevLogIndex + 1 <= |c.history.reigns[m.term].log|
    && c'.members[f].node.log == c.history.reigns[m.term].log[..m.prevLogIndex + 1]
    && c'.history.accepted == c.history.accepted[f := m.term]
    && c'.acks == c.acks + {Ack(m.term, f, m.prevLogIndex + 1)}
    && c.members[f].node.currentTerm <= m.term == c'.members[f].node.currentTerm
  }

  ghost predicate Raised(c: Cluster, c': Cluster, f: nat, m: AppendRequest)
    requires Shape(c) && Shape(c') && IsMember(c, f) && IsMember(c', f)
  {
    var commit' := c'.members[f].node.commitIndex;
    && m.term in c.history.reigns
    && commit' <= m.prevLogIndex <= |c.history.reigns[m.term].log|
    && Committed(c.history.reigns, c.acks, |c.members|, m.term, commit')
    && commit' <= |c'.members[f].node.log|
    && c'.members[f].node.log[..commit'] == c.history.reigns[m.term].log[..commit']
    && c'.history.commitTerm == c.history.commitTerm[f := m.term]
    && c.members[f].node.currentTerm <= m.term == c'.members[f].node.currentTerm
  }

  // Node f handled message `position` of node l: it may have written the entry to its log, may have
  // raised its commit index, and kept what it had committed.
  ghost predicate Arrived(c: Cluster, c': Cluster, l: nat, f: nat, position: nat, m: AppendRequest) {
    && Shape(c) && Shape(c') && |c'.members| == |c.members| && IsMember(c, l) && IsMember(c, f) && l != f
    && c.members[f].cursor[l] <= position < |c.members[l].outbox|
    && m == c.members[l].outbox[position]
    && (m.term in c.history.reigns ==> c.history.reigns[m.term].leader == l)
    && c'.history.reigns == c.history.reigns && c'.history.stances == c.history.stances
    && c'.grants == c.grants && c'.ballots == c.ballots
    && (forall n :: IsMember(c, n) && n != f ==> c'.members[n] == c.members[n])
    && ArrivedAt(c.members[f], c'.members[f], l, position, m)
    && (|| (&& c'.members[f].node.log == c.members[f].node.log
            && c'.history.accepted == c.history.accepted && c'.acks == c.acks)
        || Wrote(c, c', f, m))
    && (|| (&& c'.members[f].node.commitIndex == c.members[f].node.commitIndex
            && c'.history.commitTerm == c.history.commitTerm)
        || Raised(c, c', f, m))
  }

  ghost predicate ArrivedAt(before: Member, after: Member, l: nat, position: nat, m: AppendRequest) {
    && before.activity == after.activity == Idle
    && after.outbox == before.outbox
    && l < |before.cursor|
    && after.cursor == before.cursor[l := position + 1]
    && (var adopted := AdoptTerm(before.node, m.term);
        && after.node.role == adopted.role
        && after.node.currentTerm == adopted.currentTerm
        && after.node.votedFor == adopted.votedFor)
    && before.node.commitIndex <= after.node.commitIndex
    && before.node.commitIndex <= |before.node.log|
    && before.node.commitIndex <= |after.node.log|
    && after.node.log[..before.node.commitIndex] == before.node.log[..before.node.commitIndex]
    && SameApplied(before.node, after.node)
  }

  lemma ArrivedRoles(c: Cluster, c': Cluster, l: nat, f: nat, position: nat, m: AppendRequest)
    requires Arrived(c, c', l, f, position, m) && RolesOk(c)
    ensures RolesOk(c')
  {
    forall n | IsMember(c', n) ensures RoleOk(c', n) { assert RoleOk(c, n); }
  }

  lemma ArrivedLeaders(c: Cluster, c': Cluster, l: nat, f: nat, position: nat, m: AppendRequest)
    requires Arrived(c, c', l, f, position, m) && LeadersOk(c) && LogsOk(c)
    ensures LeadersOk(c')
  {
    assert LogOk(c, f);
    forall t | t in c'.history.reigns ensures LeaderOk(c', t) { assert LeaderOk(c, t); }
  }

  lemma ArrivedBallots(c: Cluster, c': Cluster, l: nat, f: nat, position: nat, m: AppendRequest)
    requires Arrived(c, c', l, f, position, m) && BallotsOk(c)
    ensures BallotsOk(c')
  {
    forall b | b in c'.ballots ensures BallotOk(c', b) { assert BallotOk(c, b); }
  }

  // The only new endorsement is the receiver's, in the term it is now in.
  lemma ArrivedEndorses(c: Cluster, c': Cluster, l: nat, f: nat, position: nat, m: AppendRequest)
    requires Arrived(c, c', l, f, position, m)
    ensures c.acks <= c'.acks
    ensures forall v: NodeId, u: Term, j: LogIndex :: Endorses(c'.history.reigns, c'.acks, v, u, j) ==>
              || Endorses(c.history.reigns, c.acks, v, u, j)
              || (v == f && u == m.term && j == m.prevLogIndex + 1 && Wrote(c, c', f, m))
  {
  }

  lemma ArrivedGrant(c: Cluster, c': Cluster, l: nat, f: nat, position: nat, m: AppendRequest, g: Grant)
    requires Arrived(c, c', l, f, position, m) && GrantOk(c, g) && GrantStanceOk(c, g)
    ensures GrantOk(c', g) && GrantStanceOk(c', g)
  {
    ArrivedEndorses(c, c', l, f, position, m);
  }

  lemma ArrivedGrants(c: Cluster, c': Cluster, l: nat, f: nat, position: nat, m: AppendRequest)
    requires Arrived(c, c', l, f, position, m) && GrantsOk(c)
    ensures GrantsOk(c')
  {
    forall g | g in c'.grants ensures GrantOk(c', g) && GrantStanceOk(c', g) {
      assert GrantOk(c, g) && GrantStanceOk(c, g);
      ArrivedGrant(c, c', l, f, position, m, g);
    }
  }

  lemma ArrivedVoter(c: Cluster, c': Cluster, l: nat, f: nat, position: nat, m: AppendRequest, u: Term, v: NodeId)
    requires Arrived(c, c', l, f, position, m) && u in c.history.reigns && v in c.history.reigns[u].voters
    requires c.history.reigns[u].base <= |c.history.reigns[u].log|
    requires v == f ==> u <= c.members[f].node.currentTerm
    requires VoterOk(c.history.reigns, c.acks, u, v)
    ensures VoterOk(c'.history.reigns, c'.acks, u, v)
  {
    ArrivedEndorses(c, c', l, f, position, m);
  }

  lemma ArrivedVoters(c: Cluster, c': Cluster, l: nat, f: nat, position: nat, m: AppendRequest)
    requires Arrived(c, c', l, f, position, m) && LeadersOk(c) && GrantsOk(c)
    requires VotersOk(c.history.reigns, c.acks, |c.members|)
    ensures VotersOk(c'.history.reigns, c'.acks, |c'.members|)
  {
    forall u | u in c'.history.reigns
      ensures ElectionOk(c'.history.reigns, c'.acks, |c'.members|, u)
    {
      assert ElectionOk(c.history.reigns, c.acks, |c.members|, u);
      forall v | v in c.history.reigns[u].voters
        ensures VoterOk(c'.history.reigns, c'.acks, u, v)
      {
        VoterTerm(c, u, v);
        ArrivedVoter(c, c', l, f, position, m, u, v);
      }
    }
  }

  lemma ArrivedLogs(c: Cluster, c': Cluster, l: nat, f: nat, position: nat, m: AppendRequest)
    requires Arrived(c, c', l, f, position, m) && ReignsOk(c.history.reigns) && LogsOk(c)
    ensures LogsOk(c')
  {
    forall n | IsMember(c', n)
      ensures LogOk(c', n)
    {
      assert LogOk(c, n);
      if n == f {
        var a := c.members[f].node;
        var b := c'.members[f].node;
        assert a.log[..a.lastApplied] == a.log[..a.commitIndex][..a.lastApplied];
        assert b.log[..a.lastApplied] == b.log[..a.commitIndex][..a.lastApplied];
        assert m.term in c.history.reigns ==> ReignOk(c.history.reigns, m.term);
      }
    }
  }

  lemma ArrivedEndorsements(c: Cluster, c': Cluster, l: nat, f: nat, position: nat, m: AppendRequest)
    requires Arrived(c, c', l, f, position, m) && EndorsementsOk(c) && LogsOk(c) && NotBehind(c, f, m)
    ensures EndorsementsOk(c')
  {
    ArrivedEndorses(c, c', l, f, position, m);
    forall n | IsMember(c', n)
      ensures EndorsementsKept(c', n)
    {
      assert EndorsementsKept(c, n) && LogOk(c, n);
    }
    forall a | a in c'.acks ensures AckOk(c', a) { assert a in c.acks ==> AckOk(c, a); }
  }

  lemma ArrivedMail(c: Cluster, c': Cluster, l: nat, f: nat, position: nat, m: AppendRequest)
    requires Arrived(c, c', l, f, position, m) && MailOk(c)
    ensures MailOk(c')
  {
    ArrivedEndorses(c, c', l, f, position, m);
    forall n | IsMember(c', n)
      ensures OutboxOk(c', n)
    {
      assert OutboxOk(c, n);
      forall k | 0 <= k < |c'.members[n].outbox|
        ensures MessageOk(c', n, c'.members[n].outbox[k])
      {
        var o := c.members[n].outbox[k];
        assert MessageOk(c, n, o);
        CommittedGrows(c.history.reigns, c.acks, c'.history.reigns, c'.acks, |c.members|, o.term, o.leaderCommit);
      }
    }
  }

  // Later messages of the same leader start after the one that arrived; no other leader shares its term.
  lemma ArrivedNotBehind(c: Cluster, c': Cluster, l: nat, f: nat, position: nat, m: AppendRequest, from: nat,
                         o: AppendRequest)
    requires Arrived(c, c', l, f, position, m) && MessageOk(c, l, m) && MessageOk(c, from, o) && NotBehind(c, f, o)
    requires from == l && o.term == m.term ==> m.prevLogIndex + |m.entries| <= o.prevLogIndex
    ensures NotBehind(c', f, o)
  {
  }

  lemma ArrivedChannels(c: Cluster, c': Cluster, l: nat, f: nat, position: nat, m: AppendRequest)
    requires Arrived(c, c', l, f, position, m) && MailOk(c) && ChannelsOk(c)
    ensures ChannelsOk(c')
  {
    assert OutboxOk(c, l) && MessageOk(c, l, m);
    forall from, to | IsMember(c', from) && IsMember(c', to) && from != to
      ensures ChannelOk(c', from, to)
    {
      assert ChannelOk(c, from, to) && OutboxOk(c, from);
      forall k | c'.members[to].cursor[from] <= k < |c'.members[from].outbox|
        ensures NotBehind(c', to, c'.members[from].outbox[k])
      {
        var o := c.members[from].outbox[k];
        assert NotBehind(c, to, o);
        if to == f {
          assert MessageOk(c, from, o);
          ArrivedNotBehind(c, c', l, f, position, m, from, o);
        }
      }
    }
  }

  lemma ArrivedCommits(c: Cluster, c': Cluster, l: nat, f: nat, position: nat, m: AppendRequest)
    requires Arrived(c, c', l, f, position, m) && CommitsOk(c)
    ensures CommitsOk(c')
  {
    ArrivedEndorses(c, c', l, f, position, m);
    forall n | IsMember(c', n)
      ensures CommitOk(c', n)
    {
      assert CommitOk(c, n);
      CommittedGrows(c.history.reigns, c.acks, c'.history.reigns, c'.acks, |c.members|,
                     c'.history.commitTerm[n], c'.members[n].node.commitIndex);
    }
  }

  // ---------- The handler takes such a step ----------

  // What the log of the receiver agrees with, up to the previous index and hence below it.
  ghost predicate Agrees(c: Cluster, f: nat, m: AppendRequest)
    requires IsMember(c, f)
  {
    var node := c.members[f].node;
    var p := m.prevLogIndex;
    && m.term in c.history.reigns
    && node.commitIndex <= p <= |node.log|
    && p + |m.entries| <= |c.history.reigns[m.term].log|
    && node.log[..p] == c.history.reigns[m.term].log[..p]
    && (m.entries != [] ==> m.entries[0].index == p + 1)
  }

  lemma CutAgreement(a: seq<LogEntry>, b: seq<LogEntry>, p: nat, k: nat)
    requires k <= p <= |a| && p <= |b| && a[..p] == b[..p]
    ensures a[..k] == b[..k]
  {
    PrefixOfPrefix(a, b, p, k);
  }

  lemma DeliverEntry(c: Cluster, l: NodeId, f: NodeId, position: nat, m: AppendRequest)
    requires Shape(c) && Enabled(c, DeliverAppend(l, f, position)) && m == c.members[l].outbox[position]
    requires Accepts(c.members[f].node, m) && MessageOk(c, l, m) && Agrees(c, f, m) && |m.entries| == 1
    ensures Arrived(c, DoDeliverAppend(c, l, f, position), l, f, position, m)
  {
    var node := c.members[f].node;
    var p := m.prevLogIndex;
    var log := c.history.reigns[m.term].log;
    var n' := OnAppendRequest(node, m).0;
    var c' := DoDeliverAppend(c, l, f, position);
    ReconcileOne(node.log, p, m.entries);
    assert n'.log == log[..p + 1];
    assert n'.log[..p] == log[..p];
    CutAgreement(n'.log, node.log, p, node.commitIndex);
    assert Wrote(c, c', f, m);
    if n'.commitIndex > node.commitIndex {
      CutAgreement(n'.log, log, p, n'.commitIndex);
      assert Raised(c, c', f, m);
    }
  }

  lemma DeliverHeartbeat(c: Cluster, l: NodeId, f: NodeId, position: nat, m: AppendRequest)
    requires Shape(c) && Enabled(c, DeliverAppend(l, f, position)) && m == c.members[l].outbox[position]
    requires Accepts(c.members[f].node, m) && MessageOk(c, l, m) && Agrees(c, f, m) && m.entries == []
    ensures Arrived(c, DoDeliverAppend(c, l, f, position), l, f, position, m)
  {
    var node := c.members[f].node;
    var n' := OnAppendRequest(node, m).0;
    assert n'.log == node.log;
    if n'.commitIndex > node.commitIndex {
      CutAgreement(node.log, c.history.reigns[m.term].log, m.prevLogIndex, n'.commitIndex);
      assert Raised(c, DoDeliverAppend(c, l, f, position), f, m);
    }
  }

  lemma DeliverRejected(c: Cluster, l: NodeId, f: NodeId, position: nat, m: AppendRequest)
    requires Shape(c) && Enabled(c, DeliverAppend(l, f, position)) && m == c.members[l].outbox[position]
    requires !Accepts(c.members[f].node, m) && MessageOk(c, l, m)
    requires c.members[f].node.commitIndex <= |c.members[f].node.log|
    ensures Arrived(c, DoDeliverAppend(c, l, f, position), l, f, position, m)
  {
  }

  // An accepted request agrees with the receiver's log, and starts above all it has committed.
  lemma AcceptedAgrees(c: Cluster, l: NodeId, f: NodeId, m: AppendRequest)
    requires Shape(c) && IsMember(c, f) && HistoryOk(c) && LogsOk(c) && CommitsOk(c)
    requires Accepts(c.members[f].node, m) && MessageOk(c, l, m) && NotBehind(c, f, m)
    ensures Agrees(c, f, m)
  {
    assert LogOk(c, f) && CommitOk(c, f) && ReignOk(c.history.reigns, m.term);
    PreviousMatchesLeader(c.history.reigns, StanceOf(c, f), m);
    CommitBelowPrevious(c, l, f, m);
  }

  lemma Pending(c: Cluster, l: NodeId, f: NodeId, position: nat)
    requires Shape(c) && Enabled(c, DeliverAppend(l, f, position)) && MailOk(c) && ChannelsOk(c)
    ensures MessageOk(c, l, c.members[l].outbox[position]) && NotBehind(c, f, c.members[l].outbox[position])
  {
    assert OutboxOk(c, l) && ChannelOk(c, l, f);
  }

  lemma DeliverArrives(c: Cluster, l: NodeId, f: NodeId, position: nat)
    requires Inv(c) && Enabled(c, DeliverAppend(l, f, position))
    ensures Arrived(c, DoDeliverAppend(c, l, f, position), l, f, position, c.members[l].outbox[position])
  {
    var m := c.members[l].outbox[position];
    assert MessageOk(c, l, m) && NotBehind(c, f, m) by { Pending(c, l, f, position); }
    assert c.members[f].node.commitIndex <= |c.members[f].node.log| by { assert LogOk(c, f); }
    if Accepts(c.members[f].node, m) {
      assert Agrees(c, f, m) by { AcceptedAgrees(c, l, f, m); }
      if m.entries == [] {
        DeliverHeartbeat(c, l, f, position, m);
      } else {
        DeliverEntry(c, l, f, position, m);
      }
    } else {
      DeliverRejected(c, l, f, position, m);
    }
  }

  lemma ArrivalKeepsInv(c: Cluster, c': Cluster, l: nat, f: nat, position: nat, m: AppendRequest)
    requires Inv(c) && Arrived(c, c', l, f, position, m) && NotBehind(c, f, m)
    ensures Inv(c')
  {
    assert HistoryOk(c') by { ArrivedVoters(c, c', l, f, position, m); }
    assert LogsOk(c') by { ArrivedLogs(c, c', l, f, position, m); }
    assert RolesOk(c') by { ArrivedRoles(c, c', l, f, position, m); }
    assert LeadersOk(c') by { ArrivedLeaders(c, c', l, f, position, m); }
    assert BallotsOk(c') by { ArrivedBallots(c, c', l, f, position, m); }
    assert GrantsOk(c') by { ArrivedGrants(c, c', l, f, position, m); }
    assert EndorsementsOk(c') by { ArrivedEndorsements(c, c', l, f, position, m); }
    assert MailOk(c') by { ArrivedMail(c, c', l, f, position, m); }
    assert ChannelsOk(c') by { ArrivedChannels(c, c', l, f, position, m); }
    assert CommitsOk(c') by { ArrivedCommits(c, c', l, f, position, m); }
  }

  lemma DeliverAppendKeepsInv(c: Cluster, l: NodeId, f: NodeId, position: nat)
    requires Inv(c) && Enabled(c, DeliverAppend(l, f, position))
    ensures Inv(DoDeliverAppend(c, l, f, position))
  {
    DeliverArrives(c, l, f, position);
    Pending(c, l, f, position);
    ArrivalKeepsInv(c, DoDeliverAppend(c, l, f, position), l, f, position, c.members[l].outbox[position]);
  }
}
