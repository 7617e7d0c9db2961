/** The cluster model is not empty: three nodes elect a leader, commit a command and apply it twice. */
module RaftScenario {
  import opened Wrappers
  import opened RaftProtocol
  import opened RaftCluster

  ghost predicate EndsAt(run: seq<Cluster>, c: Cluster) {
    IsRun(run) && run[|run| - 1] == c
  }

  ghost predicate Reachable(c: Cluster) {
    exists run :: EndsAt(run, c)
  }

  lemma StepReaches(c: Cluster, s: Step)
    requires Reachable(c) && Shape(c) && Enabled(c, s)
    ensures Reachable(Do(c, s))
  {
    var run :| EndsAt(run, c);
    var run' := run + [Do(c, s)];
    forall k | 0 <= k < |run'| - 1
      ensures Next(run'[k], run'[k + 1])
    {
      if k < |run| - 1 {
        assert Next(run[k], run[k + 1]);
      }
    }
    assert EndsAt(run', Do(c, s));
  }

  const BALLOT := VoteRequest(1, 0, 0, 0)

  function Entry(command: VectorCommand): LogEntry { LogEntry(1, 1, command) }

  function Append(command: VectorCommand): AppendRequest { AppendRequest(1, 0, 0, 0, [Entry(command)], 0) }

  // The first two of three nodes, with nothing sent to the second but what node 0 sent.
  ghost predicate Pair(c: Cluster, a: Node, activity: Activity, outbox: seq<AppendRequest>, b: Node, read: nat) {
    && Reachable(c) && Shape(c) && |c.members| == 3
    && c.members[0].node == a && c.members[0].activity == activity && c.members[0].outbox == outbox
    && c.members[1].node == b && c.members[1].activity == Idle && c.members[1].cursor[0] == read
  }

  function Standing(role: Role, log: seq<LogEntry>, commit: LogIndex): Node {
    Node(role, 1, Some(0), log, commit, 0, EMPTY_STORAGE)
  }

  lemma Started() returns (c: Cluster)
    ensures Pair(c, FRESH_NODE, Idle, [], FRESH_NODE, 0)
  {
    var m := Member(FRESH_NODE, Idle, [], [0, 0, 0]);
    c := Cluster([m, m, m], {}, {}, {}, History(map[], map[], [0, 0, 0], [0, 0, 0]));
    assert Init(c);
    assert EndsAt([c], c);
  }

  lemma Stood() returns (c: Cluster)
    ensures Pair(c, Standing(Candidate, [], 0), Campaigning(BALLOT), [], FRESH_NODE, 0) && BALLOT in c.ballots
  {
    var c0 := Started();
    c := Do(c0, StartElection(0));
    StepReaches(c0, StartElection(0));
  }

  lemma Voted() returns (c: Cluster)
    ensures Pair(c, Standing(Candidate, [], 0), Campaigning(BALLOT), [], Standing(Follower, [], 0), 0)
    ensures Grant(1, 1, 0) in c.grants
  {
    var c1 := Stood();
    c := Do(c1, DeliverBallot(BALLOT, 1));
    StepReaches(c1, DeliverBallot(BALLOT, 1));
  }

  lemma Won() returns (c: Cluster)
    ensures Pair(c, Standing(Leader, [], 0), Idle, [], Standing(Follower, [], 0), 0)
  {
    var c2 := Voted();
    var votes: set<NodeId> := {1};
    c := Do(c2, EndElection(0, votes));
    StepReaches(c2, EndElection(0, votes));
  }

  lemma Commanded(command: VectorCommand) returns (c: Cluster)
    ensures Pair(c, Standing(Leader, [Entry(command)], 0), Replicating(Append(command)), [Append(command)],
                 Standing(Follower, [], 0), 0)
  {
    var c3 := Won();
    c := Do(c3, ClientCommand(0, command));
    StepReaches(c3, ClientCommand(0, command));
    assert c.members[0].node.log == [Entry(command)];
  }

  lemma Replicated(command: VectorCommand) returns (c: Cluster)
    ensures Pair(c, Standing(Leader, [Entry(command)], 0), Replicating(Append(command)), [Append(command)],
                 Standing(Follower, [Entry(command)], 0), 1)
    ensures Ack(1, 1, 1) in c.acks
  {
    var c4 := Commanded(command);
    c := Do(c4, DeliverAppend(0, 1, 0));
    StepReaches(c4, DeliverAppend(0, 1, 0));
    assert Reconcile([], 0, [Entry(command)]) == [Entry(command)];
  }

  lemma Counted(command: VectorCommand) returns (c: Cluster)
    ensures Pair(c, Standing(Leader, [Entry(command)], 1), Idle, [Append(command)],
                 Standing(Follower, [Entry(command)], 0), 1)
  {
    var c5 := Replicated(command);
    var followers: set<NodeId> := {1};
    c := Do(c5, EndReplication(0, followers));
    StepReaches(c5, EndReplication(0, followers));
  }

  lemma Spread(command: VectorCommand) returns (c: Cluster)
    ensures Pair(c, Standing(Leader, [Entry(command)], 1), Idle,
                 [Append(command), AppendRequest(1, 0, 1, 1, [], 1)],
                 Standing(Follower, [Entry(command)], 1), 2)
  {
    var c6 := Counted(command);
    var c7 := Do(c6, Heartbeat(0));
    StepReaches(c6, Heartbeat(0));
    c := Do(c7, DeliverAppend(0, 1, 1));
    StepReaches(c7, DeliverAppend(0, 1, 1));
  }

  ghost predicate AppliedTwice(c: Cluster, command: VectorCommand) {
    && |c.members| == 3
    && forall n :: 0 <= n < 2 ==> c.members[n].node.storage == ApplyCommand(EMPTY_STORAGE, command)
  }

  // A command one node took is applied on two nodes.
  lemma CommandsGetApplied(command: VectorCommand)
    ensures exists c :: Reachable(c) && AppliedTwice(c, command)
  {
    var c8 := Spread(command);
    var c9 := Do(c8, Apply(0));
    StepReaches(c8, Apply(0));
    var c10 := Do(c9, Apply(1));
    StepReaches(c9, Apply(1));
    assert AppliedTwice(c10, command);
  }
}
