/**
 A cluster of Raft nodes as a transition system over messages.

 Every node runs one event loop: while it waits for the answers to its own election or to its own
 replication it handles nothing else. A ballot stays deliverable for ever, so it may arrive late,
 twice or never. The appends and heartbeats a leader sends to one follower arrive in sending order
 or not at all. Any answer may be lost.
 */
module RaftCluster {
  import opened Wrappers
  import opened RaftProtocol

  datatype Activity = Idle | Campaigning(ballot: VoteRequest) | Replicating(request: AppendRequest)

  // `outbox` holds all a node ever sent as a leader; `cursor[l]` counts the messages of node l that
  // this node has received or lost.
  datatype Member = Member(node: Node, activity: Activity, outbox: seq<AppendRequest>, cursor: seq<nat>)

  datatype Grant = Grant(term: Term, voter: NodeId, candidate: NodeId)
  datatype Ack = Ack(term: Term, follower: NodeId, index: LogIndex)

  // ---------- History variables: no step reads them ----------

  // A node's log, and the last term in which a leader (or the node as leader) wrote to it.
  datatype Stance = Stance(log: seq<LogEntry>, accepted: Term)

  // The leader of one term: its log so far, the length of that log at the election, and what each
  // of the nodes that elected it held when it voted.
  datatype Reign = Reign(leader: NodeId, log: seq<LogEntry>, base: nat, voters: map<NodeId, Stance>)

  datatype History = History(
    reigns: map<Term, Reign>,
    stances: map<Grant, Stance>,
    accepted: seq<Term>,
    commitTerm: seq<Term>)

  datatype Cluster = Cluster(
    members: seq<Member>,
    ballots: set<VoteRequest>,
    grants: set<Grant>,
    acks: set<Ack>,
    history: History)

  // ---------- Steps ----------

  datatype Step =
    | StartElection(id: NodeId)
    | DeliverBallot(ballot: VoteRequest, voter: NodeId)
    | EndElection(id: NodeId, votes: set<NodeId>)
    | ClientCommand(id: NodeId, command: VectorCommand)
    | Heartbeat(id: NodeId)
    | DeliverAppend(leader: NodeId, follower: NodeId, position: nat)
    | EndReplication(id: NodeId, followers: set<NodeId>)
    | Apply(id: NodeId)

  ghost predicate Shape(c: Cluster) {
    && |c.members| > 0
    && |c.history.accepted| == |c.members|
    && |c.history.commitTerm| == |c.members|
    && forall n :: 0 <= n < |c.members| ==> |c.members[n].cursor| == |c.members|
  }

  ghost predicate Init(c: Cluster) {
    && Shape(c)
    && (forall n :: 0 <= n < |c.members| ==>
          && c.members[n].node == FRESH_NODE
          && c.members[n].activity == Idle
          && c.members[n].outbox == []
          && forall l :: 0 <= l < |c.members| ==> c.members[n].cursor[l] == 0)
    && c.ballots == {} && c.grants == {} && c.acks == {}
    && c.history.reigns == map[] && c.history.stances == map[]
    && forall n :: 0 <= n < |c.members| ==> c.history.accepted[n] == 0 && c.history.commitTerm[n] == 0
  }

  ghost predicate Enabled(c: Cluster, s: Step) {
    match s
    case StartElection(id) =>
      id < |c.members| && c.members[id].activity == Idle && c.members[id].node.role != Leader
    case DeliverBallot(ballot, voter) =>
      ballot in c.ballots && voter < |c.members| && voter != ballot.candidateId && c.members[voter].activity == Idle
    case EndElection(id, votes) =>
      && id < |c.members| && c.members[id].activity.Campaigning?
      && forall v | v in votes :: Grant(c.members[id].activity.ballot.term, v, id) in c.grants
    case ClientCommand(id, command) =>
      id < |c.members| && c.members[id].activity == Idle && c.members[id].node.role == Leader
    case Heartbeat(id) =>
      id < |c.members| && c.members[id].activity == Idle && c.members[id].node.role == Leader
    case DeliverAppend(leader, follower, position) =>
      && leader < |c.members| && follower < |c.members| && leader != follower
      && |c.members[follower].cursor| == |c.members|
      && c.members[follower].activity == Idle
      && c.members[follower].cursor[leader] <= position < |c.members[leader].outbox|
    case EndReplication(id, followers) =>
      && id < |c.members| && c.members[id].activity.Replicating?
      && c.members[id].activity.request.entries != []
      && forall f | f in followers ::
           Ack(c.members[id].activity.request.term, f, c.members[id].activity.request.entries[0].index) in c.acks
    case Apply(id) =>
      && id < |c.members|
      && c.members[id].node.lastApplied < c.members[id].node.commitIndex
      && c.members[id].node.lastApplied < |c.members[id].node.log|
  }

  ghost function Peers(c: Cluster): nat { if |c.members| == 0 then 0 else |c.members| - 1 }

  ghost function WithNode(c: Cluster, id: NodeId, n: Node): Cluster
    requires id < |c.members|
  {
    c.(members := c.members[id := c.members[id].(node := n)])
  }

  ghost function DoStartElection(c: Cluster, id: NodeId): Cluster
    requires Enabled(c, StartElection(id))
  {
    var n := OnElectionStart(id, c.members[id].node);
    c.(members := c.members[id := c.members[id].(node := n, activity := Campaigning(BallotOf(id, n)))],
       ballots := c.ballots + {BallotOf(id, n)})
  }

  ghost function DoDeliverBallot(c: Cluster, ballot: VoteRequest, voter: NodeId): Cluster
    requires Shape(c) && Enabled(c, DeliverBallot(ballot, voter))
  {
    var n := c.members[voter].node;
    var (n', response) := OnVoteRequest(n, ballot);
    var c' := WithNode(c, voter, n');
    if response.voteGranted then
      var grant := Grant(ballot.term, voter, ballot.candidateId);
      c'.(grants := c.grants + {grant},
          history := c.history.(stances := c.history.stances + if grant in c.grants then map[] else
                                            map[grant := Stance(n.log, c.history.accepted[voter])]))
    else c'
  }

  // The reign that begins when node `id` wins its election with these votes.
  ghost function NewReign(c: Cluster, id: NodeId, votes: set<NodeId>): Reign
    requires Shape(c) && Enabled(c, EndElection(id, votes))
  {
    var n := c.members[id].node;
    var term := c.members[id].activity.ballot.term;
    Reign(id, n.log, |n.log|,
          map v | v in votes + {id} ::
            if v == id then Stance(n.log, c.history.accepted[id])
            else if Grant(term, v, id) in c.history.stances then c.history.stances[Grant(term, v, id)]
            else Stance([], 0))
  }

  ghost function DoEndElection(c: Cluster, id: NodeId, votes: set<NodeId>): Cluster
    requires Shape(c) && Enabled(c, EndElection(id, votes))
  {
    var m := c.members[id];
    var n := OnElectionEnd(m.node, |votes|, Peers(c));
    var c' := c.(members := c.members[id := m.(node := n, activity := Idle)]);
    if n.role == Leader then
      c'.(history := c.history.(
            reigns := c.history.reigns[m.activity.ballot.term := NewReign(c, id, votes)],
            accepted := c.history.accepted[id := m.activity.ballot.term]))
    else c'
  }

  ghost function DoClientCommand(c: Cluster, id: NodeId, command: VectorCommand): Cluster
    requires Shape(c) && Enabled(c, ClientCommand(id, command))
  {
    var m := c.members[id];
    var n := OnClientCommand(m.node, command);
    var request := ReplicationRequest(id, n);
    c.(members := c.members[id := m.(node := n, activity := Replicating(request), outbox := m.outbox + [request])],
       history :=
         if n.currentTerm in c.history.reigns then
           c.history.(reigns := c.history.reigns[n.currentTerm := c.history.reigns[n.currentTerm].(log := n.log)])
         else c.history)
  }

  ghost function DoHeartbeat(c: Cluster, id: NodeId): Cluster
    requires Enabled(c, Heartbeat(id))
  {
    var m := c.members[id];
    c.(members := c.members[id := m.(outbox := m.outbox + [HeartbeatRequest(id, m.node)])])
  }

  ghost function DoDeliverAppend(c: Cluster, leader: NodeId, follower: NodeId, position: nat): Cluster
    requires Shape(c) && Enabled(c, DeliverAppend(leader, follower, position))
  {
    var m := c.members[follower];
    var request := c.members[leader].outbox[position];
    var (n, response) := OnAppendRequest(m.node, request);
    var written := response.success && request.entries != [];
    c.(members := c.members[follower := m.(node := n, cursor := m.cursor[leader := position + 1])],
       acks := c.acks + if written then {Ack(request.term, follower, request.entries[0].index)} else {},
       history := c.history.(
         accepted := if written then c.history.accepted[follower := request.term] else c.history.accepted,
         commitTerm := if n.commitIndex > m.node.commitIndex then c.history.commitTerm[follower := request.term]
                       else c.history.commitTerm))
  }

  ghost function DoEndReplication(c: Cluster, id: NodeId, followers: set<NodeId>): Cluster
    requires Shape(c) && Enabled(c, EndReplication(id, followers))
  {
    var m := c.members[id];
    var request := m.activity.request;
    var n := OnReplicationEnd(m.node, request.entries[0].index, |followers|, Peers(c));
    c.(members := c.members[id := m.(node := n, activity := Idle)],
       history := c.history.(
         commitTerm := if n.commitIndex > m.node.commitIndex then c.history.commitTerm[id := request.term]
                       else c.history.commitTerm))
  }

  ghost function DoApply(c: Cluster, id: NodeId): Cluster
    requires Enabled(c, Apply(id))
  {
    WithNode(c, id, ApplyNext(c.members[id].node))
  }

  ghost function Do(c: Cluster, s: Step): Cluster
    requires Shape(c) && Enabled(c, s)
  {
    match s
    case StartElection(id) => DoStartElection(c, id)
    case DeliverBallot(ballot, voter) => DoDeliverBallot(c, ballot, voter)
    case EndElection(id, votes) => DoEndElection(c, id, votes)
    case ClientCommand(id, command) => DoClientCommand(c, id, command)
    case Heartbeat(id) => DoHeartbeat(c, id)
    case DeliverAppend(leader, follower, position) => DoDeliverAppend(c, leader, follower, position)
    case EndReplication(id, followers) => DoEndReplication(c, id, followers)
    case Apply(id) => DoApply(c, id)
  }

  ghost predicate Next(c: Cluster, c': Cluster) {
    exists s :: Shape(c) && Enabled(c, s) && c' == Do(c, s)
  }

  // A run of the cluster: an initial state and the states its steps lead through.
  ghost predicate IsRun(run: seq<Cluster>) {
    && run != []
    && Init(run[0])
    && forall k :: 0 <= k < |run| - 1 ==> Next(run[k], run[k + 1])
  }
}
