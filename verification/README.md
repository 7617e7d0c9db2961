# A verified model of the vector database

The repository is a distributed vector database: a Raft cluster replicates commands, a cluster
manager moves shards away from failed nodes, and each node answers vector, BM25, filter and fused
queries. This project models those parts in Dafny and proves what they promise.

`dafny verify dfyconfig.toml` checks everything.

## The parts

**Raft.** `RaftProtocol` gives the value view of one node and what each handler does to it;
`RaftEventLoop.RaftNode` is the node itself, whose methods change its fields in place and are proved
against those functions. `RaftCluster` lets any number of nodes take these steps as a transition
system over messages: elections, ballots delivered at any time, client commands, heartbeats, appends,
counting of answers, and applying. `RaftInvariant` is what every reachable state satisfies, kept by
`RaftElectionSteps`, `RaftVictory`, `RaftLeaderSteps`, `RaftCommandStep` and `RaftAppendStep`, one
lemma per step and conjunct. `RaftReigns` holds the argument about quorums and logs, with history
variables that no step reads: the log of each term's leader, what its voters held, and which leader
last wrote to a node. `RaftSafety` states the properties of sections 5.2 to 5.4 of "In Search of an
Understandable Consensus Algorithm (Extended Version)" over every run. `RaftHandlers` states laws of
single handlers, among them when a vote is granted and an append accepted; `RaftElectability` shows that in
every reachable state some node could be elected; `RaftScenario` shows that the transition system does
commit and apply commands.

**Filters.** `FilterModel` flattens JSON documents into leaves and says directly what an expression
means on them; `FilterRoutes` says which leaves and paths those are, by the routes into a document; `FilterIndexes` builds the inverted, numeric and word indexes in place;
`FilterEngines` executes expressions over the indexes and is proved to return what the direct reading
accepts; `SqlFilters` translates SQL conditions,
`SqlMeaning` says when that keeps their meaning, and `SqlSelection` composes both. `DocumentFilters` adds
documents to a new index and filters them, by an expression or a SQL condition.

**Shards.** `ShardMaps` repairs shards after failures and reassigns them after a removal.

**Search.** `VectorIndex` (slots and renumbering), `SparseVectors` (two-cursor dot product),
`SparseDocuments` (vocabulary and sorted vectors), `SparseIndexes`, `Bm25Scores`, `Bm25Runs` and
`Bm25Shape` (the inverted index against the direct sum, after adding and after any run of additions and
removals, and the shape of that sum), `Ranking` and `Fusion` (reciprocal rank and weighted fusion).

**Arithmetic over whole runs.** `TokenBucket` (rate limiter), `RoundRobin` and `LoadBalancer`.

`Ordering` and `Wrappers` are shared helpers.

## What turned out to be otherwise than one might expect

Each of these is proved, with the exact condition under which the code does what one would expect.

- A candidate that lost forgets its vote and may vote again in the term it stood in, if and only if the
  other candidate's log is up to date (`LoserVotesAgain`); a term still has at most one leader
  (`ElectionSafety`).
- An append truncates the log at the previous index even without a conflict, so an append handled late
  takes back an entry the node has acknowledged (`LateAppendDropsAcknowledgedEntry`); which prefixes it
  keeps is `AcceptedAppendKeeps`. The safety properties therefore assume in-order or lost appends.
- With several entries, a conflict beyond the first writes the earlier ones twice (`ReconcileIsExact`).
- A value is indexed under its route written out (`LeavesAreRoutes`). Different routes have different paths
  where keys are not empty and hold neither dots nor opening brackets (`WrittenInjective`), so that a dotted
  path finds exactly the member it names (`NestedMemberFoundIff`); a dotted key and a key inside a key are
  mixed up (`RoutesCollide`).
- A SQL comparison keeps its meaning if and only if it is `=` with a string other than `'true'` and
  `'false'` (which also match booleans), or `>` with the column on the left of a number, or can never hold
  anyway (`ComparisonKeptIffSupported`). A part in parentheses is translated as `id = 'unknown'` whatever
  it says (`ParenthesesLost`), so a comparison in parentheses keeps its meaning if and only if it is that
  one (`ParenthesesKeptIffPlaceholder`).
- Removing a node can make a replica the primary and leave it among the replicas, if and only if the node
  whose turn it is was a replica (`ReassignDisjoint`, `ReassignDuplicatesPrimary`).
- Of nodes that fail together, one stays in a shard if and only if it is the primary, is also a replica, and
  every replica listed ahead of it is handled before it (`FailuresCleared`). A removal can bring that about
  (`FailuresAfterRemoval`): a new primary listed second stays when the replica ahead of it fails with it,
  and goes when it fails alone (`SecondReplicaTakesOver`, `FailuresAfterRemovalKeepFailedPrimary`). For a
  single failure the condition is that it comes first among the replicas (`FailureAfterRemoval`,
  `FailureAfterRemovalKeepsFailedPrimary`).
- A failure costs a well-placed shard a replica unless it has at most two and no more than there are healthy
  nodes, and a healthy node it does not use is left (`RepairKeepsReplicaCount`, with the exact number in
  `RepairReplicaCount`).
- A shard gets its number of replicas if and only if those it keeps and the unused nodes that come up
  before the shared index ends its second round are that many (`ReassignReachesTarget`, with the exact
  number in `TopUpCount`). Of three shards without replicas the third can be left short
  (`RemovalRunsOutOfTurns`).
- The bound of the rate limiter needs the 100 ms refill period (`PeriodIsNeeded`). It holds of a run without
  it if and only if what the bucket starts with, and what the gap since its last refill will pay in, exceeds
  the capacity by no more than the run leaves unused (`BoundWithoutPeriodIff`); so it does if that is within
  the capacity (`BoundWithinCapacity`), and from a moment of refill (`BoundAfterRefill`).
- A BM25 weight is negative for a term in more than half of the documents (`WeightSign`). More occurrences
  then lower the score and longer documents score more; the exact conditions are in `MoreOccurrences`,
  `LongerDocument` and `Saturates` for the usual parameters, and in `ScoresCompare` and `WithinLimit` for any.
- BM25's average length counts a document once for each of its terms (`AverageCountsTerms`). The total is the
  sum of the lengths and, for each document, its length times the number of its known terms less one
  (`TotalIsLengthsAndExcess`). Where every document of some length has a known term, that is the sum of the
  lengths if and only if each has one (`TotalIsLengthsIff`); documents of unknown words only can make up for
  others (`ExcessCancels`).
- Document frequencies do not follow removals. After any run of additions and removals a frequency is too
  high by the entries of the term removed since its list was last empty (`FrequencyIsStale`). It is right if
  and only if there are none, and above the number of documents if and only if they outnumber the documents
  without the term (`FrequencyAfterRun`); the weight is then the logarithm of a negative number
  (`WeightDefined`). For the first removal after adding that comes to whether the removed document, or every
  document, had the term (`FrequencyAfterRemoval`, `FrequencyExceedsDocuments`).
- Removing a document without known terms is not noticed, and the document stays counted (`NoticedIff`,
  `CountIsPresent`).
- The dot product misses common indices out of order (`UnsortedMisses`); the constructor does not check
  the order. A vector has its dense product with every increasing one if and only if each entry that counts
  stands after smaller indices only (`ReadsAllIffLeads`, `ReadsAllIffIncreasing`).

## Model

| member | source | states |
|---|---|---|
| RaftSafety.StateMachineSafety | src/distributed/raft.rs:959-977 | In every run, of any two nodes at any two moments one has applied a prefix of what the other has; equally many applied entries mean equal storage. |
| RaftSafety.CommittedLogsAgree | src/distributed/raft.rs:413-487 | Two nodes' committed log prefixes never disagree, whenever each of them is looked at. |
| RaftSafety.LeadersHoldCommitted | src/distributed/raft.rs:386-399 | What any node has committed is in the log of every leader whose term is not below that node's term. |
| RaftReigns.LeaderCompleteness | src/distributed/raft.rs:363-410 | An entry held by a majority under its leader is in the log every later leader was elected with. |
| RaftReigns.UpToDateLogHolds | src/distributed/raft.rs:386-394 | A log at least as up to date as one holding a chosen entry holds it too, if all leaders in between did. |
| RaftReigns.VoterHolds | src/distributed/raft.rs:1240-1289 | A node that acknowledged a chosen entry still held it when it voted in a later term. |
| RaftReigns.SharedVoter | src/distributed/raft.rs:789-792 | The majority that holds an entry and the majority that elected a leader share a node. |
| RaftSafety.CountedEntryStays | src/distributed/raft.rs:626-639 | Once a leader has counted an entry on a majority, no later step removes it, or anything before it, from a node of that majority. |
| RaftSafety.CountedIsChosenInRun | src/distributed/raft.rs:626-639 | The entry a leader counts on a majority is its newest, and every node counted holds it. |
| RaftSafety.ElectionSafety | src/distributed/raft.rs:677-813 | Over a whole run a term has at most one leader, although losers forget their votes. |
| RaftVictory.NewTermHasNoLeader | src/distributed/raft.rs:788-810 | A candidate that gathers a majority stands in a term no other candidate has won. |
| RaftSafety.LogMatching | src/distributed/raft.rs:433-463 | Logs that hold entries of equal position and term are identical up to it, also across moments of a run. |
| RaftSafety.NodesWellFormed | src/distributed/raft.rs:1140-1159 | In every reachable state applied <= committed <= log length, entry i carries index i+1, terms ascend up to the current term, and storage replays the applied prefix. |
| RaftSafety.NodesOnlyAdvance | src/distributed/raft.rs:366-377 | Terms, commit indexes and applied indexes never go down, and a committed prefix never changes. |
| RaftSafety.RunInv | src/distributed/raft.rs:282-324 | Every state of every run satisfies the cluster invariant. |
| RaftSafety.StepKeepsInv | src/distributed/raft.rs:326-360 | Every step of every node keeps the cluster invariant. |
| RaftSafety.StepAdvances | src/distributed/raft.rs:326-360 | No step lowers a term or an index, shortens the history, or changes what a node has committed. |
| RaftInvariant.InitInv | src/distributed/raft.rs:261-279 | Fresh nodes satisfy the cluster invariant. |
| RaftElectionSteps.StartElectionKeepsInv | src/distributed/raft.rs:677-735 | Standing for election keeps the invariant. |
| RaftElectionSteps.DeliverBallotKeepsInv | src/distributed/raft.rs:363-410 | Handling a vote request, however late, keeps the invariant. |
| RaftElectionSteps.LoseElectionKeepsInv | src/distributed/raft.rs:799-810 | Losing and forgetting the vote keeps the invariant. |
| RaftVictory.WinElectionKeepsInv | src/distributed/raft.rs:796-798 | Becoming leader with a majority of votes keeps the invariant. |
| RaftCommandStep.ClientCommandKeepsInv | src/distributed/raft.rs:490-535 | A leader's new entry and the request that carries it keep the invariant. |
| RaftLeaderSteps.HeartbeatKeepsInv | src/distributed/raft.rs:833-860 | A heartbeat keeps the invariant. |
| RaftLeaderSteps.EndReplicationKeepsInv | src/distributed/raft.rs:626-643 | Counting the answers of a replication keeps the invariant. |
| RaftLeaderSteps.MajorityChooses | src/distributed/raft.rs:626-632 | A majority of acknowledgements makes the counted entry chosen. |
| RaftLeaderSteps.ApplyKeepsInv | src/distributed/raft.rs:959-977 | Applying one entry keeps the invariant. |
| RaftAppendStep.DeliverAppendKeepsInv | src/distributed/raft.rs:413-487 | Handling an append or a heartbeat keeps the invariant, the unconditional truncation included. |
| RaftAppendStep.ReconcileOne | src/distributed/raft.rs:1240-1289 | A one-entry append leaves exactly the prefix up to the previous index and the entry. |
| RaftAppendStep.PreviousMatchesLeader | src/distributed/raft.rs:433-456 | A request whose previous entry matches meets a log that agrees with the leader's up to there. |
| RaftAppendStep.CommitBelowPrevious | src/distributed/raft.rs:1272-1275 | An accepted request never has its previous index below what the node has committed. |
| RaftHandlers.QuorumsAgreeAndMeet | src/distributed/raft.rs:627-627 | The replication majority equals the election majority for every number of peers, and any two such sets share a node. |
| RaftHandlers.OneVotePerTerm | src/distributed/raft.rs:379-384 | Between two requests of one term a node that granted the first refuses another candidate. |
| RaftHandlers.VoteGrantedIff | src/distributed/raft.rs:363-410 | When a vote is granted, exactly: by term, by the vote cast, and by the last entries of both logs. |
| RaftHandlers.ExtendedLogGetsVote | src/distributed/raft.rs:386-399 | A node with a free vote and no later term grants the ballot of every candidate whose log extends its own. |
| RaftHandlers.VotesOnlyVote | src/distributed/raft.rs:363-410 | The answer carries the later of both terms, and handling a ballot changes term, vote and role only. |
| RaftHandlers.FewerNeedNotMeet | src/distributed/raft.rs:789-792 | No smaller number of nodes would do for a majority. |
| RaftElectability.OneWouldVote | src/distributed/raft.rs:386-394 | Of any two nodes of a reachable state at least one would get the other's vote. |
| RaftElectability.SomeNodeElectable | src/distributed/raft.rs:363-410 | In every reachable state some node would get every node's vote in every new term. |
| RaftHandlers.LoserVotesAgain | src/distributed/raft.rs:799-810 | A losing candidate votes for another candidate of its term if and only if that one's log is up to date. |
| RaftHandlers.ReconcileIsExact | src/distributed/raft.rs:1240-1289 | The log becomes prefix plus entries if and only if there is no conflict beyond the first entry; a heartbeat leaves it alone. |
| RaftHandlers.ConflictBeyondFirstRepeatsEntry | src/distributed/raft.rs:1268-1280 | Two entries of which the second conflicts leave the first one in the log twice. |
| RaftHandlers.AcceptedAppendKeeps | src/distributed/raft.rs:1272-1280 | Which prefixes of a log an accepted one-entry append keeps, in both directions. |
| RaftHandlers.ReplicationReaches | src/distributed/raft.rs:413-487 | A leader's request makes the log of every follower that agrees with the leader up to the entry before the leader's log, and passes the commit index on. |
| RaftHandlers.HeartbeatReaches | src/distributed/raft.rs:413-487 | The request of a heartbeat leaves the log of a follower that holds the leader's alone, and passes the commit index on. |
| RaftHandlers.RefusedAppendKeeps | src/distributed/raft.rs:413-456 | When an append is refused, exactly, and that it then changes no log and no index. |
| RaftHandlers.LateAppendDropsAcknowledgedEntry | src/distributed/raft.rs:1272-1280 | An append handled again after a later one drops the later one's acknowledged entry. |
| RaftProtocol.FirstConflict | src/distributed/raft.rs:1250-1266 | The first position where a new entry meets one of another term, or none. |
| RaftEventLoop.RaftNode.HandleVoteRequest | src/distributed/raft.rs:363-410 | The whole new state and the answer to a vote request. |
| RaftEventLoop.RaftNode.HandleAppendRequest | src/distributed/raft.rs:413-487 | The whole new state and the answer to an append request, in every branch. |
| RaftEventLoop.RaftNode.HandleLogEntries | src/distributed/raft.rs:1240-1289 | Truncating and pushing in place gives the reconciled log and its length. |
| RaftEventLoop.RaftNode.FindConflict | src/distributed/raft.rs:1250-1266 | The scan finds the first conflict. |
| RaftEventLoop.RaftNode.StartElection | src/distributed/raft.rs:677-735 | The state of the candidate and the ballot it sends. |
| RaftEventLoop.RaftNode.EndElection | src/distributed/raft.rs:788-810 | The state after counting the votes, won or lost. |
| RaftEventLoop.RaftNode.HandleClientCommand | src/distributed/raft.rs:490-566 | Only a leader takes a command; the new log and the one-entry request. |
| RaftEventLoop.RaftNode.EndReplication | src/distributed/raft.rs:624-643 | A majority commits the entry and applies all that is committed; otherwise nothing changes. |
| RaftEventLoop.RaftNode.ApplyCommittedEntries | src/distributed/raft.rs:959-977 | The apply loop leaves the node caught up with its commit index. |
| RaftEventLoop.CaughtUpStorage | src/distributed/raft.rs:966-974 | Catching up gives the storage that replaying the committed log from the start gives. |
| RaftEventLoop.RaftNode.Execute | src/distributed/raft.rs:1162-1237 | The loops over points and ids apply a command as its definition says. |
| RaftEventLoop.RaftNode.VerifyLogConsistency | src/distributed/raft.rs:1140-1159 | The check succeeds if and only if terms never descend along the log. |
| RaftEventLoop.RaftNode.SendHeartbeat | src/distributed/raft.rs:833-860 | The heartbeat carries the newest entry's index and term and no entries. |
| RaftHandlers.LastPointStored | src/distributed/raft.rs:1167-1176 | Of several points under one id the last is stored, and points under other ids stay. |
| RaftHandlers.UpsertEffect | src/distributed/raft.rs:1167-1176 | An upsert stores the last point of each id and touches no shard. |
| RaftHandlers.DeleteEffect | src/distributed/raft.rs:1177-1186 | A deletion removes exactly the ids given. |
| RaftHandlers.ShardEffects | src/distributed/raft.rs:1187-1234 | Creating a shard records its range, dropping one forgets it; other shards and all vectors stay. |
| RaftHandlers.DeleteUndoesUpsert | src/distributed/raft.rs:1167-1186 | Deleting the ids of an upsert leaves what deleting them without it would have left. |
| RaftScenario.CommandsGetApplied | src/distributed/raft.rs:490-535 | For every command some run of a cluster applies it on two nodes. |
| FilterModel.DistinctDocument | src/filtering.rs:223-263 | Under distinct ids, the facts about an id are exactly the leaves of the document added under it. |
| FilterRoutes.LeavesAreRoutes | src/filtering.rs:266-289 | The leaves of a document are exactly the values that member keys and item numbers lead to, each under its route written out with dots and brackets. |
| FilterRoutes.WrittenKeys | src/filtering.rs:268-276 | A member inside members is indexed under their keys joined by dots. |
| FilterRoutes.WrittenInjective | src/filtering.rs:266-289 | Where keys are not empty and hold neither dots nor opening brackets, no two routes have the same path. |
| FilterRoutes.TextAtRoute | src/filtering.rs:266-289 | In a document of such keys a path has a text if and only if its route leads to it. |
| FilterRoutes.NestedMemberFoundIff | src/filtering.rs:596-619 | So nested equality with a dotted path finds exactly the member its keys lead to. |
| FilterRoutes.RoutesCollide | src/filtering.rs:268-276 | An instance: a dotted key and a key inside a key have the same path. |
| FilterModel.ContainsIff | src/filtering.rs:646-680 | A text contains a part if and only if it is that part with something before and after. |
| FilterModel.NearlyEqualIff | src/filtering.rs:620-632 | Numbers count as equal if and only if they differ by less than 2 to the power of -52. |
| Ordering.LexLessIff | src/filtering.rs:466-468 | Ids are sorted by the first character in which they differ, a prefix first. |
| Ordering.DecimalReads | src/filtering.rs:278-282 | Item numbers are written in decimal. |
| FilterIndexes.WithLeafRecords | src/filtering.rs:292-333 | Indexing a leaf keeps the indexes saying exactly what the documents' leaves say. |
| FilterIndexes.FilterIndex.AddDocument | src/filtering.rs:223-289 | Adding a document keeps that and adds the leaves of its flattening. |
| FilterIndexes.FilterIndex.IndexValue | src/filtering.rs:266-289 | The recursion over objects and arrays indexes exactly the flattened leaves, in order. |
| FilterIndexes.FilterIndex.IndexLeaf | src/filtering.rs:292-333 | What one leaf adds to the value, number and word indexes. |
| FilterEngines.SplitJoin | src/filtering.rs:597-608 | Splitting a path at dots and joining it again gives the path; there are several parts if and only if it has a dot. |
| FilterEngines.FilterEngine.ExecuteFilter | src/filtering.rs:374-400 | Index equals scan: an expression is answered with exactly the documents it holds of; it fails if and only if some NOT does not have one operand. |
| FilterEngines.FilterEngine.ExecuteComparison | src/filtering.rs:403-436 | A comparison is answered with exactly the documents it holds of. |
| FilterEngines.FilterEngine.ExecuteAnd | src/filtering.rs:445-460 | AND keeps exactly the documents all operands hold of, and an empty AND none. |
| FilterEngines.FilterEngine.ExecuteOr | src/filtering.rs:461-470 | OR gives exactly the documents some operand holds of, sorted and without repetition. |
| FilterEngines.FilterEngine.ExecuteNot | src/filtering.rs:471-486 | NOT gives exactly the documents with an indexed leaf of which its operand does not hold. |
| FilterEngines.FilterEngine.ExecuteNested | src/filtering.rs:537-593 | Every nested operator is answered as its direct reading says. |
| FilterEngines.FilterEngine.ExecuteNestedEquality | src/filtering.rs:596-643 | Equality at a dotted path, for strings, numbers and booleans. |
| FilterEngines.FilterEngine.ExecuteNestedContains | src/filtering.rs:646-680 | Containment at a dotted path. |
| FilterEngines.FilterEngine.ExecuteTextSearch | src/filtering.rs:683-704 | A text search gives exactly the documents with one of the words in one of the fields, sorted. |
| FilterEngines.FilterEngine.GetAllDocumentIds | src/filtering.rs:707-732 | Exactly the documents with an indexed leaf, sorted and without repetition. |
| SqlMeaning.ComparisonKeptIffSupported | src/filtering.rs:809-860 | A translated comparison says the same as the SQL one about every document if and only if it is of a supported form. |
| SqlMeaning.UnsupportedComparisonDiffers | src/filtering.rs:412-432 | For every other comparison, a JSON document of one member on which the two differ. |
| SqlMeaning.SupportedConverts | src/filtering.rs:805-901 | A condition made of supported comparisons with AND, OR and NOT is translated, into a well-formed expression. |
| SqlMeaning.SupportedKept | src/filtering.rs:805-939 | Such a condition and its translation hold of the same documents, by two-valued logic. |
| SqlMeaning.ParenthesesLost | src/filtering.rs:892-899 | A condition is translated as the same condition with every parenthesised part replaced by `id = 'unknown'`. |
| SqlMeaning.ParenthesesKeptIffPlaceholder | src/filtering.rs:892-899 | A comparison in parentheses keeps its meaning if and only if it is `id = 'unknown'` itself. |
| SqlMeaning.ParenthesesDiffer | src/filtering.rs:892-899 | For every other comparison, a JSON document of one member on which the parenthesised one and its translation differ. |
| SqlMeaning.TranslationMeans | src/filtering.rs:805-901 | Where the rest is supported, the translation means the condition with that placeholder in place of parenthesised parts. |
| SqlMeaning.ConvertedIsWellFormed | src/filtering.rs:877-886 | Whatever is translated is an expression that can be executed. |
| SqlMeaning.HoldsOnlyOfVisible | src/filtering.rs:707-732 | An expression holds only of documents with an indexed leaf. |
| DocumentFilters.IndexDocuments | src/filtering.rs:223-263 | Documents added one after the other to a new index leave it with exactly their leaves as facts. |
| DocumentFilters.FilterDocuments | src/filtering.rs:374-400 | Of documents added under distinct ids, an expression is answered with exactly the ids of those it holds of. |
| DocumentFilters.SelectDocuments | src/filtering.rs:784-802 | The same for a SQL condition: of documents with an indexed leaf exactly those that satisfy it, where it is supported. |
| SqlSelection.SelectWhere | src/filtering.rs:784-802 | Every translated condition is answered with the documents its translation holds of; for a supported one these are exactly those that satisfy it, parenthesised parts read as the placeholder. |
| ShardMaps.ClusterManager.MonitorClusterHealth | src/distributed/cluster.rs:473-499 | All timed-out nodes are marked first and then handled one after the other; of every shard it says exactly when it still names one of them, and which, and shards that named none are unchanged. |
| ShardMaps.MarkedIff | src/distributed/cluster.rs:480-489 | Exactly the healthy nodes not heard of for longer than the timeout become unhealthy. |
| ShardMaps.FailuresCleared | src/distributed/cluster.rs:491-494 | For every shard: nodes that failed together are gone once each is handled, if and only if its primary did not get stuck, failing while it stood first among its own replicas; then it stays. Otherwise the primary is among the replicas if and only if it was and did not fail. Well-placed shards are cleared and stay well placed. |
| ShardMaps.RepairStep | src/distributed/cluster.rs:537-585 | Handling one failure leaves the node only as a primary first among its own replicas, and brings back none of those already handled. |
| ShardMaps.RepairAhead | src/distributed/cluster.rs:566-584 | Repairing another node only takes that node from what stands ahead of a primary among its replicas. |
| ShardMaps.RepairRemoves | src/distributed/cluster.rs:540-567 | A repair leaves the failed node in a shard if and only if it was primary and its own first replica. |
| ShardMaps.RepairPrimary | src/distributed/cluster.rs:540-563 | The primary stays unless it failed; else the first replica follows it, or the first healthy node. |
| ShardMaps.RepairAddsOnlyHealthy | src/distributed/cluster.rs:569-584 | A repair brings in healthy nodes only. |
| ShardMaps.RepairPlacement | src/distributed/cluster.rs:540-584 | Replicas stay distinct, and the primary is among them if and only if it was before and did not fail. |
| ShardMaps.RepairReplicaCount | src/distributed/cluster.rs:540-584 | Exactly how many replicas a repair leaves, for every shard. |
| ShardMaps.RepairKeepsReplicaCount | src/distributed/cluster.rs:566-584 | When a well-placed shard keeps its number of replicas, exactly: with one or two, no more than there are healthy nodes, if a healthy node is left that it does not use. |
| ShardMaps.ClusterManager.HandleNodeFailure | src/distributed/cluster.rs:503-591 | Exactly the affected shards are repaired and the version goes up; without a healthy node nothing changes. |
| ShardMaps.RepairShard | src/distributed/cluster.rs:537-585 | The steps in place give the repaired shard. |
| ShardMaps.FindUnused | src/distributed/cluster.rs:573-583 | The candidate loop stops at the first healthy node the shard does not use. |
| ShardMaps.FirstUnused | src/distributed/cluster.rs:573-583 | One healthy node the shard does not use, or none if it uses all. |
| ShardMaps.ReassignRemoves | src/distributed/cluster.rs:713-744 | After a reassignment the removed node is gone, a new primary is healthy and replicas are distinct. |
| ShardMaps.ReassignDisjoint | src/distributed/cluster.rs:714-722 | The primary is also a replica if and only if the node chosen for it already was one. |
| ShardMaps.ReassignDuplicatesPrimary | src/distributed/cluster.rs:714-722 | A well-placed shard that ends with its primary among its replicas. |
| ShardMaps.FailuresAfterRemoval | src/distributed/cluster.rs:491-494 | Of nodes that fail together after a removal one stays in a shard if and only if the removal made it the primary, it was a replica, and all the replicas kept ahead of it fail before it. |
| ShardMaps.SecondReplicaTakesOver | src/distributed/cluster.rs:714-722 | A well-placed shard whose second replica becomes the primary and stays a replica. |
| ShardMaps.FailuresAfterRemovalKeepFailedPrimary | src/distributed/cluster.rs:537-585 | It stays the primary when the first replica fails with it, and goes when it fails alone. |
| ShardMaps.FailureAfterRemoval | src/distributed/cluster.rs:537-567 | A single node that fails after a removal stays in a shard if and only if the removal made it the primary and it came first among the replicas kept. |
| ShardMaps.FailureAfterRemovalKeepsFailedPrimary | src/distributed/cluster.rs:540-567 | A well-placed shard this happens to. |
| ShardMaps.ReassignAllMeets | src/distributed/cluster.rs:706-745 | In any order of the shards, every one that named the removed node meets all that a reassignment promises. |
| ShardMaps.ReassignAllAt | src/distributed/cluster.rs:703-745 | Each shard is reassigned from its own state and the running index it is reached with. |
| ShardMaps.ReassignAllExact | src/distributed/cluster.rs:703-745 | With that index: when it gets its number of replicas, and when its primary stays apart from them, both exactly. |
| ShardMaps.ReassignAllFrame | src/distributed/cluster.rs:676-684 | Shards that did not name the removed node are unchanged. |
| ShardMaps.TopUpReachesTarget | src/distributed/cluster.rs:727-743 | In particular every shard gets its number of replicas while the shared index has not passed one round. |
| ShardMaps.TopUpCount | src/distributed/cluster.rs:727-743 | Exactly how many replicas a shard ends up with, from those it keeps, the target and the unused nodes that still come up. |
| ShardMaps.ReassignReachesTarget | src/distributed/cluster.rs:708-744 | A reassigned shard gets its number of replicas if and only if the kept ones and the nodes offered from the running index on are that many. |
| ShardMaps.RemovalRunsOutOfTurns | src/distributed/cluster.rs:703-745 | Of any three shards without replicas that lose their primary, with three healthy nodes left, the third ends with one replica instead of two. |
| ShardMaps.TopUpTries | src/distributed/cluster.rs:729-742 | A search that falls short has tried every node up to the end of the second round. |
| ShardMaps.TopUpReplicas | src/distributed/cluster.rs:729-743 | The loop with its running index terminates and tops up the replicas. |
| ShardMaps.ReassignShard | src/distributed/cluster.rs:708-744 | The steps in place give the reassigned shard and the next index. |
| ShardMaps.ClusterManager.RebalanceAfterRemoval | src/distributed/cluster.rs:668-749 | The affected shards are reassigned one after the other, or nothing changes if none is affected or no node is healthy. |
| ShardMaps.ClusterManager.RemoveNode | src/distributed/cluster.rs:325-345 | Afterwards no shard names the removed node, unless no healthy node was left; for each reassigned shard the exact conditions for its replicas; all other shards are unchanged. |
| VectorIndex.HnswVectorIndex.AddVector | src/index.rs:164-185 | Adding or re-adding binds the id to the vector and nothing else; a wrong dimension changes nothing. |
| VectorIndex.HnswVectorIndex.AddVectors | src/index.rs:187-210 | A batch stores the items before the first of a wrong dimension, also when it then fails without rebuilding. |
| VectorIndex.LastStoredWins | src/index.rs:187-205 | Of several vectors given for an id the last one is kept; other ids are unchanged. |
| VectorIndex.FittingAll | src/index.rs:188-200 | A batch is stored whole if and only if all vectors share one dimension, the index's own if it has one. |
| VectorIndex.HnswVectorIndex.RemoveVector | src/index.rs:233-278 | Removal drops one binding and keeps all others, with slots renumbered in order and orphan slots dropped. |
| VectorIndex.RenumberNext | src/index.rs:247-257 | The renumbering loop moves owned slots together, one at a time. |
| VectorIndex.RenumberedContents | src/index.rs:259-261 | Renumbered slots are owned once each and hold the same vectors under the same ids. |
| VectorIndex.HnswVectorIndex.Clear | src/index.rs:293-298 | Clearing leaves the empty map and no dimension. |
| VectorIndex.HnswVectorIndex.BuildIndex | src/index.rs:140-154 | The graph covers all slots under their labels; without slots it is left alone. |
| VectorIndex.HnswVectorIndex.GetAllVectors | src/index.rs:120-137 | Exactly the map's bindings, sorted by id; no id misses its slot. |
| VectorIndex.HnswVectorIndex.Search | src/index.rs:212-231 | Of the first k places of the graph's answer exactly those whose slot has an owner are reported, in order, under that owner and with its current vector's distance, even after a failed batch. |
| VectorIndex.LabelInjective | src/index.rs:146-148 | Different slots have different labels. |
| SparseVectors.New | src/types.rs:28-50 | A vector is accepted if and only if indices and values match in number and indices lie below the dimension. |
| SparseVectors.DotProduct | src/types.rs:58-76 | For increasing indices the two cursors compute the dense dot product, and also when only the second vector's increase and the first leads. |
| SparseVectors.ReadsAllIffLeads | src/types.rs:58-76 | A vector has its dense product with every increasing one if and only if each entry that counts, the first of its index and not zero, stands after smaller indices only. |
| SparseVectors.ReadsAllIffIncreasing | src/types.rs:28-76 | With distinct indices and without zeros that is if and only if its indices increase. |
| SparseVectors.LeadingReads | src/types.rs:63-73 | From cursors that have passed nothing common, the dense product of what is left is collected. |
| SparseVectors.MergedIsDense | src/types.rs:58-76 | From any two cursor positions the cursors still collect the dense product of the rest. |
| SparseVectors.MergedSymmetric | src/types.rs:63-73 | The dot product is symmetric, for any order of indices. |
| SparseVectors.UnsortedMisses | src/types.rs:63-73 | An instance: a common index out of order is missed. |
| SparseVectors.NormsBoundDot | src/types.rs:58-88 | For any order of indices the squared cursor product is at most the product of the squared norms. |
| SparseVectors.CosineBounded | src/types.rs:79-88 | The cosine similarity of any two vectors lies between -1 and 1. |
| SparseVectors.CosineIsQuotient | src/types.rs:79-88 | The similarity is the dot product over the product of the norms, or 0 if that is 0. |
| SparseVectors.CosineWithItself | src/types.rs:79-88 | A vector that is not zero has similarity 1 with itself. |
| SparseVectors.CauchySchwarz | src/types.rs:79-88 | The squared dense dot product is at most the product of the dense squares. |
| SparseDocuments.BuildVocabulary | src/sparse.rs:318-331 | A vocabulary is injective and numbers its terms below its size. |
| SparseDocuments.DocumentToSparseVector | src/sparse.rs:334-369 | With an injective vocabulary a document's vector has increasing indices and holds every known term's frequency and nothing else; it fails if and only if a number is out of range. |
| SparseIndexes.SparseIndex.AddDocument | src/sparse.rs:71-107 | The new posting lists and document frequencies, keeping the invariant that a term has a frequency if and only if its list is non-empty, and at least the list's length. |
| SparseIndexes.SparseIndex.RemoveDocument | src/sparse.rs:110-150 | The first entry of the id leaves every list, frequencies go with their last entry, and the invariant is kept. |
| SparseIndexes.SparseIndex.SearchBm25 | src/sparse.rs:153-199 | Every matching document once with its score, best first; of these as many from the front as the limit allows. |
| SparseIndexes.AddedCovers | src/sparse.rs:84-86 | Adding keeps frequencies and lists in step. |
| SparseIndexes.RemovedCovers | src/sparse.rs:116-130 | Removing keeps frequencies and lists in step. |
| SparseIndexes.RemoveFirstLength | src/sparse.rs:117-122 | Removing shortens a list by one if and only if it mentions the document. |
| SparseIndexes.TotalTakesAny | src/sparse.rs:92-100 | The total length does not depend on the order in which lists are added up. |
| SparseIndexes.AddList | src/sparse.rs:173-193 | Accumulating a list adds to each document what the list holds for it. |
| Bm25Scores.AnswersAreDirect | src/sparse.rs:153-199 | Over documents added under distinct ids, a search lists exactly those sharing a term with the query, each with the directly summed score. |
| Bm25Scores.ScoreIsDirect | src/sparse.rs:153-222 | The score accumulated over posting lists equals the BM25 sum over the document's own term frequencies. |
| Bm25Scores.ListFindsDocument | src/sparse.rs:75-82 | A posting list contributes to a document what the document's own frequency gives. |
| Bm25Scores.FrequencyIsCount | src/sparse.rs:84-86 | After adding only, a term's frequency and its list's length are the number of documents with the term. |
| Bm25Scores.AverageCountsTerms | src/sparse.rs:92-101 | The total behind the average counts a document's length once for each of its terms. |
| Bm25Scores.TotalIsLengthsAndExcess | src/sparse.rs:92-101 | That is the sum of the lengths and, for each document, its length times the number of its terms less one. |
| Bm25Scores.TotalIsLengthsIff | src/sparse.rs:92-101 | Where every document of some length has a known term, it is the sum of the lengths if and only if each of them has one. |
| Bm25Scores.ExcessCancels | src/sparse.rs:341-353 | Two documents of which neither has one term, and the total is the sum of the lengths all the same. |
| Bm25Scores.RemovedIsNeverAdded | src/sparse.rs:116-122 | Removing a document leaves the lists that adding only the others would have built. |
| Bm25Scores.FrequencyAfterRemoval | src/sparse.rs:125-129 | A frequency that survives the first removal after adding is right if and only if the removed document did not have the term. |
| Bm25Scores.FrequencyExceedsDocuments | src/sparse.rs:125-135 | After that first removal it exceeds the number of documents if and only if every document had the term. |
| Bm25Runs.FrequencyIsStale | src/sparse.rs:71-150 | After any run of additions and removals, whatever the ids, a term has a frequency if and only if its list has entries, and it is the list's length and one more for each entry removed since the list was last empty. |
| Bm25Runs.FrequencyAfterRun | src/sparse.rs:110-135 | It is right if and only if there are no such entries, and above the number of documents counted if and only if they outnumber the documents without the term and those whose removal was not noticed. |
| Bm25Runs.ListsOfPresent | src/sparse.rs:75-122 | After any run that adds no document under an id that is present, the lists are those that adding only the documents present would have built. |
| Bm25Runs.NoticedIff | src/sparse.rs:110-132 | A removal is noticed if and only if the document is present and has terms. |
| Bm25Runs.CountIsPresent | src/sparse.rs:89-135 | The index counts the documents present and those whose removal it did not notice. |
| Bm25Runs.TotalAfterRun | src/sparse.rs:92-146 | The total behind the average is again that of the documents present, each length once for each term. |
| Bm25Runs.ScoreAfterRun | src/sparse.rs:153-222 | The score accumulated after such a run is the sum over the document's own frequencies, each term weighed by the documents present and its stale entries. |
| Bm25Runs.NoStaleIsDirect | src/sparse.rs:202-222 | Without stale entries of the query's terms that is the direct sum over the documents present. |
| Bm25Runs.AnswersAfterRun | src/sparse.rs:153-199 | A search then lists exactly the documents present that share a term with the query, with those scores. |
| Bm25Runs.Replay | src/sparse.rs:71-150 | Changes made to a new index one after the other leave it with the postings, frequencies and count of the run. |
| Bm25Runs.ReplayAndSearch | src/sparse.rs:71-199 | A run and a search: the documents present that share a term, with those scores under the index's own count and average, best first, as many as the limit allows. |
| Bm25Scores.IndexAndSearch | src/sparse.rs:71-199 | Adding documents to a new index and searching gives the directly summed scores under the index's own average, best first, as many as the limit allows of the documents that share a term. |
| Bm25Shape.ScoresCompare | src/sparse.rs:207-222 | For any parameters, frequencies and lengths that divide by nothing zero, which of two scores of a term is larger: by the sign of the weights, of the frequencies across the norms, and of the divisors. |
| Bm25Shape.WithinLimit | src/sparse.rs:207-222 | For any such parameters, when a score stays within k1 + 1 times its weight. |
| Bm25Shape.NormOfLengths | src/sparse.rs:215-220 | The length normalisation is a straight line: k1 (1 - b) for an empty document, k1 for one of average length. |
| Bm25Shape.UnitFrequency | src/sparse.rs:207-222 | A frequency of 1 in a document of average length scores the query's frequency times the weight. |
| Bm25Shape.MoreOccurrences | src/sparse.rs:207-222 | For k1 > 0 and b from 0 to 1: more occurrences of a term do not lower a score if and only if the query's frequency and the weight have one sign, or the document is empty under full normalisation. |
| Bm25Shape.LongerDocument | src/sparse.rs:207-222 | For such k1 and b: a longer document does not score more if and only if those have one sign, or lengths are not normalised. |
| Bm25Shape.Saturates | src/sparse.rs:207-222 | For such k1 and b: a score stays within k1 + 1 times its weight if and only if those have one sign, or the document is empty under full normalisation. |
| Bm25Shape.WeightSign | src/sparse.rs:202-204 | A weight is not negative if and only if at most half of the documents have the term. |
| Bm25Shape.WeightDefined | src/sparse.rs:202-204 | The logarithm is taken of a positive number if and only if the frequency does not exceed the number of documents. |
| Bm25Shape.WeightsCompare | src/sparse.rs:202-204 | How the weights of two terms compare, in one collection or two, exactly. |
| Bm25Shape.RarerWeighsMore | src/sparse.rs:202-204 | A rarer term never weighs less. |
| Ranking.Rank | src/sparse.rs:195-198 | Every entry of a score map once, best score first. |
| Ranking.KeptAreBest | src/sparse.rs:197-198 | A list is cut only where the limit is reached, and nothing left out is better than anything kept. |
| Fusion.Fuse | src/hybrid.rs:422-559 | The fused map as a list, each id once, best score first. |
| Fusion.FusedScores | src/hybrid.rs:430-478 | For lists of distinct ids: exactly the union, each id with the sum of its lists' contributions, equal to its total, and with each list's own score. |
| Fusion.FusedReciprocals | src/hybrid.rs:430-478 | For any lists: the last dense hit of an id and all its other hits, each with one over k plus its rank. |
| Fusion.FusedAtRanks | src/hybrid.rs:430-478 | For lists of distinct ids: one over k plus the rank in each list that has the id. |
| Fusion.FusedLinear | src/hybrid.rs:490-559 | For any lists: the last dense hit of an id and all its other hits, each with its weighed score. |
| Fusion.FusedWeighted | src/hybrid.rs:490-559 | For lists of distinct ids: the weighed score in each list that has the id. |
| Fusion.FusedBreakdown | src/hybrid.rs:434-478 | Beside its score an id keeps the score of its last hit in each list, for any lists. |
| Fusion.RolesInterchangeable | src/hybrid.rs:430-478 | Reciprocal rank scores do not depend on which list plays which role. |
| Fusion.Dominance | src/hybrid.rs:432-434 | For k above -1 a document ahead of another wherever that one appears scores strictly more. |
| Fusion.NormalizedScores | src/hybrid.rs:588-616 | Normalised scores lie between 0 and 1, the best is 1, the worst 0 unless it is the best too, and order is kept in both directions. |
| Fusion.NormalizedAt | src/hybrid.rs:588-616 | Each score is scaled by the lowest and the highest of its list. |
| Fusion.ScaledInProportion | src/hybrid.rs:600-612 | Scaling shrinks differences in proportion to the range. |
| Fusion.NormalizedFusionBounded | src/hybrid.rs:562-585 | With weights that are not negative a document scores between 0 and the sum of the weights of the lists that have it. |
| Fusion.FuseNormalized | src/hybrid.rs:562-585 | Of lists of distinct ids the caller gets the union, each id once, best first, with the linearly fused scores of the normalised lists, bounded that way. |
| TokenBucket.RateLimiter.constructor | src/resilience.rs:284-290 | A new bucket is full, for any rate. |
| TokenBucket.RateLimiter.TryAcquire | src/resilience.rs:293-303 | A request is granted if and only if the refilled bucket holds it; the new bucket; for rates that are not negative tokens stay between 0 and the capacity. |
| TokenBucket.RateLimiter.RefillTokens | src/resilience.rs:327-340 | A refill happens after 100 ms at the earliest and stops at the capacity. |
| TokenBucket.RateLimiter.GetAvailableTokens | src/resilience.rs:343-346 | Looking refills and takes nothing. |
| TokenBucket.Conservation | src/resilience.rs:327-340 | Over every run tokens are accounted for exactly: held, granted and turned away by a full bucket. |
| TokenBucket.BoundFromCreation | src/resilience.rs:284-340 | From creation on at most capacity plus rate times elapsed time is granted. |
| TokenBucket.BoundWithinRun | src/resilience.rs:293-340 | From any attempt of any run on at most capacity plus rate times the elapsed time and 100 ms is granted. |
| TokenBucket.BoundWithoutPeriodIff | src/resilience.rs:293-340 | The bound holds of a run without the 100 ms if and only if the tokens at its start, with what the gap since the last refill will pay in, exceed the capacity by no more than the run leaves unused. |
| TokenBucket.BoundWithinCapacity | src/resilience.rs:327-340 | So it does if those are within the capacity, whatever the run. |
| TokenBucket.BoundAfterRefill | src/resilience.rs:327-340 | From a moment of refill on, the bound holds without the 100 ms. |
| TokenBucket.PeriodIsNeeded | src/resilience.rs:332-333 | In general it does not. |
| TokenBucket.GrantedIff | src/resilience.rs:293-340 | After a tenth of a second an amount is granted if and only if it is within the capacity and within what was held and earned; before that, within what is held. |
| TokenBucket.OnlyFullTurnsAway | src/resilience.rs:332-337 | Tokens are turned away only by a bucket that is then full, and only what it cannot hold; before a tenth of a second nothing changes. |
| TokenBucket.EarnedIsGranted | src/resilience.rs:293-303 | After a pause that earns it an amount is granted if and only if it fits the capacity. |
| RoundRobin.FairShares | src/distributed/load_balancer.rs:357-367 | Of m consecutive requests each of n places gets m/n rounded down or up, and which. |
| RoundRobin.ShareOfRounds | src/distributed/load_balancer.rs:362-364 | Whole rounds give each place one request; an unfinished round gives one to the places next in turn. |
| LoadBalancer.RoundRobinIsFair | src/distributed/load_balancer.rs:357-367 | The same for the node ids targeted while the healthy nodes stay the same. |
| LoadBalancer.RouteMany | src/distributed/load_balancer.rs:298-367 | A round-robin balancer asked m times targets each of its n healthy nodes m/n times, rounded down or up. |
| LoadBalancer.LoadBalancer.RouteRequest | src/distributed/load_balancer.rs:298-354 | When a request is refused; otherwise the target the strategy demands, up to two distinct healthy backups, and one more request on record. |
| LoadBalancer.LoadBalancer.TotalRequests | src/distributed/load_balancer.rs:498-498 | The routing counts sum to the number of requests routed. |
| LoadBalancer.LoadBalancer.AddNode | src/distributed/load_balancer.rs:188-239 | A node is added if and only if its data are valid and its id is new. |
| LoadBalancer.LoadBalancer.UpdateNodeHealth | src/distributed/load_balancer.rs:250-286 | One node's health, response time and weight change, or nothing. |
| LoadBalancer.WeightFor | src/distributed/load_balancer.rs:273-280 | A weight lies between 0 and 1 and is positive if and only if the node is healthy. |
| LoadBalancer.FasterWeighsMore | src/distributed/load_balancer.rs:273-277 | A faster node never weighs less. |
| LoadBalancer.WeightByTime | src/distributed/load_balancer.rs:273-277 | The weight is 1 up to 900 ms, a tenth from 9900 ms on, and 1000 over the response time and 100 between. |
| LoadBalancer.BetterNodeScoresMore | src/distributed/load_balancer.rs:470-481 | A healthy node that is no lighter, no busier and no slower than another scores no less. |
| LoadBalancer.BeatsIff | src/distributed/load_balancer.rs:475-480 | Which of two healthy nodes scores more, exactly, by weight, connections and response time. |
| LoadBalancer.OnlyHealthyScores | src/distributed/load_balancer.rs:470-473 | A node scores more than an unhealthy one if and only if it is healthy. |
| LoadBalancer.HealthyIff | src/distributed/load_balancer.rs:307-311 | A request may go to every healthy node of some weight and to no other. |
| LoadBalancer.SelectWeighted | src/distributed/load_balancer.rs:370-394 | The node whose part of the total weight the draw falls into; the fallback is never taken. |
| LoadBalancer.SelectLeastConnections | src/distributed/load_balancer.rs:397-407 | The first node with the fewest connections. |
| LoadBalancer.SelectLoadBased | src/distributed/load_balancer.rs:410-425 | The last node with the best score. |
| LoadBalancer.SelectLocationAware | src/distributed/load_balancer.rs:428-469 | The best node of a data centre with the best latency tier, or of all if none has a location. |
| LoadBalancer.BackupsAreGood | src/distributed/load_balancer.rs:337-343 | The backups are healthy, distinct, not the target, and two if there are that many others. |

## Left out

Raft:

- StateMachineSafety: assumes that a leader's appends and heartbeats reach each follower in sending order or not at all, because handled out of order they drop acknowledged entries; ballots may come late, twice or never, and any answer may be lost.
- CommandsGetApplied: shows that some run applies a command, not that every run does; timers, randomised timeouts and liveness are not modelled.
- The peers' answers, which the code draws at random, are those of the peers' own handlers. Heartbeats are the append requests the code builds; it posts a different JSON body.
- Crashes, restarts and persistence: granted votes are not persisted before they are answered, and log entries are written and read under different keys.
- Log compaction and snapshots, which break the rule that entry i stands at position i-1.
- `next_index` and `match_index`, which are set and never read; storage errors; entries that fail to deserialise; timestamps. Term and index widths are unbounded. Node ids are numbers, and the storage keys of vectors and shards are kept apart.
- The second consensus in `src/distributed/consensus.rs` and the recovery steps of `src/distributed/failover.rs`.

Filters:

- SelectWhere: takes the parsed condition, because SQL parsing and the reading of numbers are the parser's; for comparisons that are not supported it promises the documents of the translation only. Numbers are reals, and splitting a text into lower-case words is a parameter.
- ExecuteFilter: has no geospatial branch, because what it answers is the R-tree library's; the points, geometries and field metadata are left out with it.

Shards:

- MonitorClusterHealth: does not promise that every failed node is gone from every shard, because the code does not provide it; it states exactly when it does.
- RemoveNode: does not promise that a primary stays apart from its replicas or that a shard gets its number of replicas, because the code does not provide it; it states exactly when it does.
- The cluster statistics, joining, leaving and heartbeats. The monitoring loop that is started only marks nodes; `MonitorClusterHealth` is the method of the manager that also handles them.

Search:

- The graph library: its answer is a parameter, any list of places among the points it was built from. The distance is a parameter too.
- Tokenisation and relative frequencies; a document's length is passed in. Logarithm and division in BM25 and the square root in the cosine are parameters. Floats are reals, without NaN or rounding.
- MoreOccurrences, LongerDocument and Saturates: state k1 > 0 and b between 0 and 1; for other parameters ScoresCompare and WithinLimit give the conditions.
- AnswersAfterRun: is about runs that add no document under an id that is present, as are the results around it; otherwise the index keeps both documents under one id and adds up their scores.
- Fuse: demands that k is no negative whole number, because some rank would then divide by zero, which floats answer with infinity. Learned and adaptive weights are not modelled, nor is fetching the documents.
- FAISS-style indexes, k-means and quantiser training.

Rate limiting and routing:

- TryAcquire: takes the clock as a parameter; bounds on tokens and grants are stated for rates that are not negative. The retry loop of `acquire` is not modelled.
- RouteRequest: the random number is a parameter. Removing nodes, setting connection counts, the health-check loop and the balance report beyond its total would add little.
- Circuit breaker, resource pool, work stealing, query optimiser, and all network, storage and metrics plumbing.
