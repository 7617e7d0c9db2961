/** The value view of one Raft node and what each of its message handlers does to it. */
module RaftProtocol {
  import opened Wrappers

  // Nodes of a cluster are numbered; terms and log indexes are unbounded.
  type NodeId = nat
  type Term = nat
  type LogIndex = nat

  datatype Point = Point(id: string, vector: seq<real>, payload: map<string, string>)

  datatype VectorCommand =
    | Upsert(points: seq<Point>, shardId: nat)
    | Delete(pointIds: seq<string>, shardId: nat)
    | CreateShard(shardId: nat, hashRange: (nat, nat))
    | DropShard(shardId: nat)

  datatype LogEntry = LogEntry(index: LogIndex, term: Term, command: VectorCommand)

  datatype Role = Follower | Candidate | Leader

  datatype VoteRequest = VoteRequest(term: Term, candidateId: NodeId, lastLogIndex: LogIndex, lastLogTerm: Term)
  datatype VoteResponse = VoteResponse(term: Term, voteGranted: bool)

  datatype AppendRequest = AppendRequest(
    term: Term,
    leaderId: NodeId,
    prevLogIndex: LogIndex,
    prevLogTerm: Term,
    entries: seq<LogEntry>,
    leaderCommit: LogIndex)
  datatype AppendResponse = AppendResponse(term: Term, success: bool, matchIndex: LogIndex)

  // The replicated state: stored vectors by point id, shard hash ranges by shard id.
  datatype Storage = Storage(vectors: map<string, Point>, shards: map<nat, (nat, nat)>)

  const EMPTY_STORAGE := Storage(map[], map[])

  datatype Node = Node(
    role: Role,
    currentTerm: Term,
    votedFor: Option<NodeId>,
    log: seq<LogEntry>,
    commitIndex: LogIndex,
    lastApplied: LogIndex,
    storage: Storage)

  const FRESH_NODE := Node(Follower, 0, None, [], 0, 0, EMPTY_STORAGE)

  // ---------- The state machine ----------

  function StorePoints(vectors: map<string, Point>, points: seq<Point>): map<string, Point> {
    if points == [] then vectors
    else StorePoints(vectors, points[..|points| - 1])[points[|points| - 1].id := points[|points| - 1]]
  }

  function IdSet(ids: seq<string>): set<string> { set id | id in ids }

  function ApplyCommand(storage: Storage, command: VectorCommand): Storage {
    match command
    case Upsert(points, _) => storage.(vectors := StorePoints(storage.vectors, points))
    case Delete(pointIds, _) => storage.(vectors := storage.vectors - IdSet(pointIds))
    case CreateShard(shardId, hashRange) => storage.(shards := storage.shards[shardId := hashRange])
    case DropShard(shardId) => storage.(shards := storage.shards - {shardId})
  }

  // The storage a node holds after applying the entries of a log in order.
  function Replay(log: seq<LogEntry>): Storage {
    if log == [] then EMPTY_STORAGE
    else ApplyCommand(Replay(log[..|log| - 1]), log[|log| - 1].command)
  }

  // ---------- Votes ----------

  function LastTerm(log: seq<LogEntry>): Term {
    if log == [] then 0 else log[|log| - 1].term
  }

  // The index a candidate reports: the one its last entry carries.
  function LastIndex(log: seq<LogEntry>): LogIndex {
    if log == [] then 0 else log[|log| - 1].index
  }

  predicate AtLeastAsUpToDate(lastLogIndex: LogIndex, lastLogTerm: Term, log: seq<LogEntry>) {
    || lastLogTerm > LastTerm(log)
    || (lastLogTerm == LastTerm(log) && lastLogIndex >= |log|)
  }

  // A request from a later term makes the node a follower of that term with no vote cast.
  function AdoptTerm(n: Node, term: Term): Node {
    if term > n.currentTerm then n.(currentTerm := term, votedFor := None, role := Follower) else n
  }

  predicate GrantsVote(n: Node, r: VoteRequest) {
    && r.term >= n.currentTerm
    && (AdoptTerm(n, r.term).votedFor in {None, Some(r.candidateId)})
    && AtLeastAsUpToDate(r.lastLogIndex, r.lastLogTerm, n.log)
  }

  function OnVoteRequest(n: Node, r: VoteRequest): (Node, VoteResponse) {
    var n' := AdoptTerm(n, r.term);
    if GrantsVote(n, r) then
      (n'.(votedFor := Some(r.candidateId)), VoteResponse(n'.currentTerm, true))
    else
      (n', VoteResponse(n'.currentTerm, false))
  }

  // ---------- Elections ----------

  function BallotOf(id: NodeId, n: Node): VoteRequest {
    VoteRequest(n.currentTerm, id, LastIndex(n.log), LastTerm(n.log))
  }

  function OnElectionStart(id: NodeId, n: Node): Node {
    n.(role := Candidate, currentTerm := n.currentTerm + 1, votedFor := Some(id))
  }

  function ElectionQuorum(peers: nat): nat { (peers + 1) / 2 + 1 }

  // peers.len().div_ceil(2) + 1
  function ReplicationQuorum(peers: nat): nat { (if peers % 2 == 0 then peers / 2 else peers / 2 + 1) + 1 }

  // A losing candidate forgets its vote without leaving the term.
  function OnElectionEnd(n: Node, granted: nat, peers: nat): Node {
    if granted + 1 >= ElectionQuorum(peers) then n.(role := Leader)
    else n.(role := Follower, votedFor := None)
  }

  // ---------- Log replication ----------

  // The first position from `at` on where a new entry meets an existing one of another term.
  function FirstConflict(log: seq<LogEntry>, at: nat, entries: seq<LogEntry>): (c: Option<nat>)
    ensures c.Some? ==>
              && at <= c.value < |log| && c.value - at < |entries|
              && log[c.value].term != entries[c.value - at].term
              && forall k | at <= k < c.value :: log[k].term == entries[k - at].term
    ensures c.None? ==> forall k | at <= k < |log| && k - at < |entries| :: log[k].term == entries[k - at].term
    decreases |entries|
  {
    if entries == [] || at >= |log| then None
    else if log[at].term != entries[0].term then Some(at)
    else FirstConflict(log, at + 1, entries[1..])
  }

  // The log after a request whose previous entry matched: cut at the first conflict, or else
  // back to the previous index, and then push every entry of the request.
  function Reconcile(log: seq<LogEntry>, prev: nat, entries: seq<LogEntry>): seq<LogEntry>
    requires prev <= |log|
  {
    if entries == [] then log
    else
      match FirstConflict(log, prev, entries)
      case Some(at) => log[..at] + entries
      case None => log[..prev] + entries
  }

  predicate PreviousMatches(log: seq<LogEntry>, r: AppendRequest) {
    r.prevLogIndex == 0 || (r.prevLogIndex <= |log| && log[r.prevLogIndex - 1].term == r.prevLogTerm)
  }

  predicate Accepts(n: Node, r: AppendRequest) {
    r.term >= n.currentTerm && PreviousMatches(n.log, r)
  }

  function Min(a: nat, b: nat): nat { if a <= b then a else b }

  function Max(a: nat, b: nat): nat { if a >= b then a else b }

  function OnAppendRequest(n: Node, r: AppendRequest): (Node, AppendResponse) {
    var n' := AdoptTerm(n, r.term);
    if Accepts(n, r) then
      var log := Reconcile(n.log, r.prevLogIndex, r.entries);
      (n'.(log := log, commitIndex := Max(n.commitIndex, Min(r.leaderCommit, |log|))),
       AppendResponse(n'.currentTerm, true, |log|))
    else
      (n', AppendResponse(n'.currentTerm, false, 0))
  }

  // ---------- Leaders ----------

  function OnClientCommand(n: Node, command: VectorCommand): Node {
    n.(log := n.log + [LogEntry(|n.log| + 1, n.currentTerm, command)])
  }

  // The request that carries the newest entry of a leader's log.
  function ReplicationRequest(id: NodeId, n: Node): AppendRequest
    requires n.log != []
  {
    var before := n.log[..|n.log| - 1];
    AppendRequest(n.currentTerm, id, LastIndex(before), LastTerm(before), n.log[|n.log| - 1..], n.commitIndex)
  }

  function HeartbeatRequest(id: NodeId, n: Node): AppendRequest {
    AppendRequest(n.currentTerm, id, LastIndex(n.log), LastTerm(n.log), [], n.commitIndex)
  }

  function OnReplicationEnd(n: Node, index: LogIndex, acknowledged: nat, peers: nat): Node {
    if acknowledged + 1 >= ReplicationQuorum(peers) then n.(commitIndex := Max(n.commitIndex, index)) else n
  }

  // One turn of the apply loop.
  function ApplyNext(n: Node): Node
    requires n.lastApplied < |n.log|
  {
    n.(lastApplied := n.lastApplied + 1, storage := ApplyCommand(n.storage, n.log[n.lastApplied].command))
  }
}
