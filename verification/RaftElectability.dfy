/** In every reachable state some node could be elected: everyone would vote for it. */
module RaftElectability {
  import opened RaftProtocol
  import opened RaftCluster
  import opened RaftSafety
  import opened RaftHandlers

  ghost predicate Orderly(c: Cluster) {
    forall n :: 0 <= n < |c.members| ==> Numbered(c.members[n].node.log)
  }

  lemma RunOrderly(run: seq<Cluster>, k: nat)
    requires IsRun(run) && k < |run|
    ensures Orderly(run[k])
  {
    forall n | 0 <= n < |run[k].members|
      ensures Numbered(run[k].members[n].node.log)
    {
      NodesWellFormed(run, k, n);
    }
  }

  // Node `v` would grant the ballot of node `n` standing in the given term.
  ghost predicate WouldVote(c: Cluster, v: NodeId, n: NodeId, term: Term)
    requires v < |c.members| && n < |c.members|
  {
    OnVoteRequest(c.members[v].node, BallotOf(n, c.members[n].node.(currentTerm := term))).1.voteGranted
  }

  ghost predicate LaterThanAll(c: Cluster, term: Term) {
    forall n :: 0 <= n < |c.members| ==> term > c.members[n].node.currentTerm
  }

  // Of any two nodes of a reachable state at least one would get the other's vote.
  lemma OneWouldVote(run: seq<Cluster>, k: nat, a: NodeId, b: NodeId, term: Term)
    requires IsRun(run) && k < |run| && a < |run[k].members| && b < |run[k].members| && LaterThanAll(run[k], term)
    ensures WouldVote(run[k], a, b, term) || WouldVote(run[k], b, a, term)
  {
    RunOrderly(run, k);
    OneGetsVote(run[k].members[a].node, run[k].members[b].node, a, b, term);
  }

  lemma {:induction false} BestOf(c: Cluster, m: nat, term: Term) returns (best: NodeId)
    requires Orderly(c) && LaterThanAll(c, term) && 1 <= m <= |c.members|
    ensures best < m && forall v :: 0 <= v < m ==> WouldVote(c, v, best, term)
  {
    if m == 1 {
      best := 0;
      OneGetsVote(c.members[0].node, c.members[0].node, 0, 0, term);
    } else {
      var last := m - 1;
      var rest := BestOf(c, last, term);
      OneGetsVote(c.members[rest].node, c.members[last].node, rest, last, term);
      if WouldVote(c, last, rest, term) {
        best := rest;
      } else {
        best := last;
        OneGetsVote(c.members[last].node, c.members[last].node, last, last, term);
        forall v | 0 <= v < m - 1
          ensures WouldVote(c, v, last, term)
        {
          assert WouldVote(c, v, rest, term);
          VotesTransitive(c.members[last].node, c.members[rest].node, c.members[v].node, last, rest, term);
        }
      }
    }
  }

  // In every reachable state some node would get every node's vote in every term none has reached.
  lemma SomeNodeElectable(run: seq<Cluster>, k: nat, term: Term) returns (best: NodeId)
    requires IsRun(run) && k < |run| && LaterThanAll(run[k], term)
    ensures best < |run[k].members| && forall v :: 0 <= v < |run[k].members| ==> WouldVote(run[k], v, best, term)
  {
    RunOrderly(run, k);
    SomeMembers(run, k);
    best := BestOf(run[k], |run[k].members|, term);
  }

  lemma SomeMembers(run: seq<Cluster>, k: nat)
    requires IsRun(run) && k < |run|
    ensures |run[k].members| > 0
  {
    RunInv(run, k);
  }
}
