# A verified model of the sharded-blockchain emulator

The emulator runs many shards, each with its own leader, ledger and consensus, and a supervisor that
partitions accounts, injects transactions and counts block reports. This project models its deterministic
algorithms and its protocols in Dafny and proves what they keep over every input, every run and every
reachable state. To verify all files together, use `dafny verify dfyconfig.toml` in this directory.

Five parts, each ending in theorems about whole runs:

1. **Payment-channel overlay** (`pcn/overlay.go`). Graph theory and the disjoint-set forest
   (`Graphs`, `UnionFind`), breadth-first search with routes (`ShortestPaths`, and `RouteOrder` for which of several
   shortest routes it finds), the gain formula (`OverlayGain`), the degree-constrained spanning tree (`SpanningTree`)
   and the builders (`OverlayBuild`). The gain scored from old distances is the true drop after a rebuild; the single
   pass of the tree builder always connects the shards and obeys a law that speaks of weights and limits alone; the
   full build ends in a connected simple graph within the limits in which no candidate edge has a positive gain.
2. **CLPA label propagation** (`partition/`, the CLPA committee). Counting lemmas over the log of links
   (`ClpaCounts`), the score (`ClpaScores`), the counters (`ClpaShift`), a run as a chain of visits (`ClpaRounds`) and
   the classes `ClpaState` and `ClpaCommittee` (`Clpa`). The fast update agrees with the full recount exactly when the
   moved vertex has no self-loop; every round visits every vertex once.
3. **Bridge protocol** (the Bridge handlers and committee). One leader (`Bridge`) and the distributed system
   (`BridgeProtocol`, `BridgeSteps`, `BridgeRuns`, `BridgeTrails`, `BridgeSends`, `BridgeDrain`), whose messages
   arrive in any order, at most once, or never. Channel money is conserved, channels stay solvent, a transaction's
   hops follow its route one by one, each is sent on exactly if its channel can carry it, drain detection is exact.
4. **Relay ledger and account migration** (chain, relay and CLPA handlers). One shard (`Ledger`), the system of
   shards with re-sharding in all its interleavings (`ShardedLedger`, what its steps keep in `RelaySteps` and
   `MigrationSteps`, whole runs in `LedgerRuns`), the code that splits queues and hands accounts over
   (`QueueSplit`, and `BrokerSplit` for the broker variant, on top of `Sublists` and `Exits`), the test by which
   a shard learns that all others have stopped (`PartitionReady`), and the same system with first-in-first-out
   links in which that test is all a shard goes by (`FifoLedger`): each of its runs is one of `ShardedLedger`,
   whose steps wait for what no shard can see. The money supply is accounted for at every moment (`Supply`), the
   shards in the end compute what one unsharded chain computes, and migration is invisible to balances.
5. **PBFT normal case** (`messageHandle.go`, `AddBlock`, `IsValidBlock`). One replica (`Pbft`), all
   interleavings of messages in one view (`PbftRuns`), what quorums are worth and when they act (`PbftQuorums`), and a
   replica that stalls (`PbftStalls`): chains are prefixes of the leader's proposals, blocks are appended only behind
   two quorums, and at the very message that completes the second.

`Sums`, `Sorting`, `Sublists` and `Accounts` are shared definitions. A class method is proved against a
function on values (`ensures trie == ExecBody(...)`), and the theorems are about those functions.

## Findings

Ten properties one would expect turn out to fail; the condition is proved next to each.

- `ClpaShift.ShiftIsExact`: the incremental edge counts are wrong exactly if the moved vertex is linked to itself;
  `ClpaShift.SelfLoopMiscounts` is an instance. The committee never adds such a link, since `data2tx` drops transfers
  with equal ends (supervisor/committee/committee_relay.go:52).
- `Clpa.ClpaState.Partition`: if some shard has no link when a run of CLPA begins, no vertex moves at all: the
  smallest number of links is zero, and dividing by it makes every score minus infinity. Scores are numbers exactly
  if every shard has a link (`ClpaScores.ExactFiniteIff`, `ClpaShift.MinimumIsZeroIff`); `ClpaShift.IdleShardHolds` is an
  instance, in which the vertex would move if the shard without links were not there.
- `Supply.SupplyConservedIff`: a cross-shard transfer its sender cannot pay for is skipped by the ledger but still
  relayed, and so creates money. The supply of a run stays what it was exactly if no block holds such a transfer of
  positive value; `Supply.SupplyAccount` says how much is created, `Ledger.SupplyConservedIff` is the law of one
  transfer and `Ledger.OverdraftMints` an instance.
- `FifoLedger.StuckIff`: a change of the partition map hangs for ever exactly if some shard that has ever relayed
  committed no block since the change before. The supervisor begins a change only when some shard has committed a
  block since the last (`FifoLedger.BeginAfterBlock`), but not when all have: `HangingChange.SecondChangeHangs` is a
  run in which it waits as it should.
- `BrokerSplit.CrossOrderedIff`: the list handed back to the supervisor keeps the queue's order exactly if the
  queue holds its transactions in the order of their destinations; `BrokerSplit.CrossCanReorder` is an instance.
- `PbftRuns.LockstepIff`: a replica's sequence number leaves its chain behind exactly if it takes up a commit
  quorum for a block beyond its next one; `PbftRuns.AheadIsStuck` shows that it then never appends again, and
  `PbftRuns.RunningAheadHappens` is a run of two replicas (f = 0) in which every message passes the stage wait of
  its handler: pre-prepare and prepare of block 1, then pre-prepare and commit of block 2.
- `PbftStalls.GoesOnIff`: a replica at the beginning of a round can go on exactly if it has not handled the round's
  pre-prepare before its turn; if it has, it takes up no block any more in this view (`PbftStalls.MissedForEver`).
  `PbftStalls.StallHappens` is a run in which every message passes its stage wait.
- `PbftQuorums.QuorumsMeetIff`: two quorums share more than f replicas exactly if the number of replicas is 3f + 1.
- `BridgeSends.CommitSendsOn`: a hop is sent on exactly if its channel can carry the value in its turn. If not, the
  transaction is gone for good and drain detection never fires again (`BridgeDrain.DroppedForEver`);
  `BridgeDrain.DropHappens` is a run.
- `OverlayBuild.BuildOverlayWithMode`: with two shards the tree builder can fail for want of room, exactly if a
  limit is below one, since its own check only covers three shards or more; `OverlayBuild.TwoShardsWithoutRoom`
  is an instance.

## Model

| member | source | states |
|---|---|---|
| UnionFind.Dsu.constructor | pcn/overlay.go:39-48 | every element is its own class, in a valid forest |
| UnionFind.Dsu.Find | pcn/overlay.go:50-55 | returns the representative, compresses the path, changes no class and no rank; terminates because ranks rise along parent links |
| UnionFind.Dsu.Union | pcn/overlay.go:57-74 | merges exactly the two classes and reports whether they differed |
| UnionFind.CompressKeepsForest | pcn/overlay.go:50-55 | pointing an element at its root keeps ranks strictly rising and 2^rank at most the class size |
| UnionFind.LinkKeepsForest | pcn/overlay.go:57-74 | linking by rank keeps ranks strictly rising and 2^rank at most the class size |
| UnionFind.MergeTracksEdge | pcn/overlay.go:134-148 | after merging the classes of an edge's ends, two elements share a class exactly when the edges so far connect them |
| ShortestPaths.BuildAdjacency | pcn/overlay.go:242-254 | fails exactly on an invalid edge; otherwise ascending lists of exactly the adjacent shards |
| ShortestPaths.Expand | pcn/overlay.go:274-282 | visiting all neighbours of the open shard keeps the search invariant and the order of discovery, and leaves it expanded |
| ShortestPaths.Search | pcn/overlay.go:261-283 | ends with a tree all of whose shards are expanded, and the order in which they were reached |
| ShortestPaths.SearchIsExact | pcn/overlay.go:258-288 | breadth-first levels are true distances, and what was not reached is not connected |
| ShortestPaths.BuildRoute | pcn/overlay.go:303-316 | a walk from source to destination along parent links with one shard per level, so simple and of distance + 1 shards |
| RouteOrder.EarlierIsSmaller | pcn/overlay.go:258-283 | of two shards equally far away the one reached first has the lexicographically smaller route |
| RouteOrder.RouteIsFirst | pcn/overlay.go:258-316 | the route to a shard is the lexicographically first of all shortest walks there |
| ShortestPaths.RoutesFrom | pcn/overlay.go:258-291 | one source's row of the overlay, or not reached |
| ShortestPaths.NewOverlay | pcn/overlay.go:241-301 | fails exactly on an invalid edge or a disconnected graph; otherwise Dist is the shortest-path metric and every route the lexicographically first of the shortest paths |
| OverlayGain.ShortcutIsDistance | pcn/overlay.go:325-337 | the three-way minimum over old distances is the distance after the edge is added |
| OverlayGain.RelaxedIsRebuilt | pcn/overlay.go:318-343 | the relaxed matrix is the distance matrix of the graph with the edge, for every connected graph |
| OverlayGain.OverlayGain | pcn/overlay.go:318-343 | the loop computes the drop of the weighted total to the relaxed matrix |
| OverlayGain.GainIsExact | pcn/overlay.go:318-343 | that drop is the true drop of the weighted total when the overlay is rebuilt with the edge |
| SpanningTree.SortedWeightedPairs | pcn/overlay.go:221-239 | all pairs; weights never rise along the list, and equal ones stand in the order of the first, then of the second end |
| SpanningTree.SortedPairsAre | pcn/overlay.go:221-239 | the sorted list holds exactly the pairs u < v below n, each once and with its weight |
| SpanningTree.ConsiderPair | pcn/overlay.go:138-147 | one turn of the loop extends the greedy rule on true connectivity, with degrees and classes in step |
| SpanningTree.LeafyStep | pcn/overlay.go:134-148 | joining two components keeps two vertices of degree at most one in every component with an edge |
| SpanningTree.KruskalConnects | pcn/overlay.go:134-152 | if every pair is joined or full and the limits are at least two, everything is connected |
| SpanningTree.KruskalObeysLaw | pcn/overlay.go:129-148 | a pair is an edge exactly if the heavier edges (ties by the ends) do not join its ends and leave both a free slot, and the edges are in that order |
| SpanningTree.BuildSpanningTree | pcn/overlay.go:129-152 | succeeds exactly when the limits suffice; the edges obey that law, are simple, within the limits, n - 1 and connecting |
| OverlayBuild.CheckInputs | pcn/overlay.go:117-127 | which check fails first, and that nothing else is rejected |
| OverlayBuild.ChooseEdge | pcn/overlay.go:172-189 | the candidate of largest true gain, lexicographically first among equals; none exactly when no candidate gains |
| OverlayBuild.Augment | pcn/overlay.go:154-205 | terminates; every added edge was the greedy choice for the edges before it, and at the end none has positive gain |
| OverlayBuild.BuildOverlayWithMode | pcn/overlay.go:109-206 | for every mode, success exactly on buildable input and which error otherwise; the tree obeys the law of the greedy tree, and the full result is connected, simple, within limits, greedy and unimprovable |
| OverlayBuild.TwoShardsWithoutRoom | pcn/overlay.go:124-152 | two shards, one with limit 0: the checks pass and the tree cannot be built |
| OverlayBuild.HeapDegree | pcn/overlay.go:99-105 | the degree of each shard of the binary tree |
| OverlayBuild.HeapDistances | pcn/overlay.go:99-105 | any two shards of the binary tree are within 2 floor(log2 n) hops |
| OverlayBuild.BuildBinaryTreeOverlay | pcn/overlay.go:95-107 | succeeds for every n >= 1 with n - 1 edges, degrees at most 3 and routes of at most 2 floor(log2 n) hops |
| OverlayBuild.NewCompleteOverlay | pcn/overlay.go:76-85 | every pair is linked and every route is direct |
| Clpa.ClpaState.AddVertex | partition/partition_CLPA.go:47-56 | a new vertex gets its label and is counted; populations stay the number of vertices per label |
| Clpa.ClpaState.AddGraphEdge | partition/graph.go:31-45 | both adjacency lists grow, and lists that recorded the log of links in both directions record the longer log |
| Clpa.ClpaState.AddEdge | partition/partition_CLPA.go:59-70 | the log grows by one link, missing ends are added first, all invariants stay |
| Clpa.ClpaState.ComputeEdges2Shard | partition/partition_CLPA.go:102-143 | whatever the counters were, they become the true counts |
| ClpaCounts.CountSource | partition/partition_CLPA.go:112-126 | counting one more adjacency list adds its arrivals and stays |
| ClpaCounts.AllCounted | partition/partition_CLPA.go:128-136 | the inner count of a shard is even, and arrivals plus half of it are the links touching the shard |
| ClpaCounts.ArrivalsAreTwiceCrossing | partition/partition_CLPA.go:128-132 | summed over the shards every crossing link arrives twice |
| ClpaCounts.MoveChangesCounts | partition/partition_CLPA.go:146-168 | how one relabelling changes the true counts, self-loops included |
| ClpaShift.ShiftIsExact | partition/partition_CLPA.go:146-168 | the fast update gives the true counts if and only if the vertex has no self-loop |
| ClpaShift.SelfLoopMiscounts | partition/partition_CLPA.go:146-168 | an instance: the update leaves -1 links at a shard and -2 crossing |
| Clpa.ClpaState.ChangeShardRecompute | partition/partition_CLPA.go:146-168 | the same of the method on its fields |
| Clpa.ClpaState.GetShardScore | partition/partition_CLPA.go:215-228 | the loop counts the links to the shard; whatever arithmetic makes the score, it is applied to the true four counts |
| Clpa.ClpaState.BestShard | partition/partition_CLPA.go:241-254 | for any score, the first listed neighbour's shard of the largest score above -9999, or the own shard if there is none, although each shard is scored once |
| ClpaScores.NextBest | partition/partition_CLPA.go:244-253 | one more neighbour takes the lead exactly if its score is larger |
| ClpaShift.MinimumIsZeroIff | partition/partition_CLPA.go:137-142 | of true counts the scan finds a zero if and only if some shard has no link |
| ClpaScores.ExactFiniteIff | partition/partition_CLPA.go:227 | for a shard that has links the score, without rounding, is a number if no count is zero, and minus infinity if one is |
| ClpaScores.ExactSinks | partition/partition_CLPA.go:227 | so at a zero minimum it is never above the threshold |
| ClpaScores.IdleShardFreezes | partition/partition_CLPA.go:215-254 | for any score that sinks at zero, with true counts and a shard without links, every vertex's best shard is its own |
| ClpaShift.IdleShardHolds | partition/partition_CLPA.go:215-254 | an instance: three shards, one without links, and a vertex that stays apart from its only neighbour |
| Clpa.ClpaState.Move | partition/partition_CLPA.go:255-264 | label, populations and counters follow, true counts staying true exactly without a self-loop; no populated shard becomes empty |
| Clpa.ClpaState.Visit | partition/partition_CLPA.go:241-264 | for any score, the vertex moves exactly if its best shard is another and its own keeps a member; labels and counters follow |
| Clpa.ClpaState.Round | partition/partition_CLPA.go:237-265 | for any score, there is an order of all vertices in which each is visited once, and each visit is such a move or changes nothing; the run's invariant stays |
| ClpaRounds.StableMeansBest | partition/partition_CLPA.go:237-265 | if a round leaves the labels as they were, nobody who may move has a better shard |
| ClpaRounds.PairMoves | partition/partition_CLPA.go:237-265 | an instance in which every round changes a label |
| Clpa.ClpaState.Partition | partition/partition_CLPA.go:231-274 | for any score, the result is that of as many rounds as allowed, starting from true counts; new labels are the old ones overlaid with it, no shard dies out, at most min(50, rounds) moves each; without self-loops the final recount changes nothing; for a score that sinks at zero and a shard without links nobody moves |
| Clpa.AgreeAfterRun | supervisor/committee/committee_clpa.go:143-152 | after a run, labels, the committee's map and the worker's look-up agree |
| Clpa.ClpaCommittee.HandleBlockInfo | supervisor/committee/committee_clpa.go:214-230 | every executed transfer becomes a link, and labels stay in agreement with the committee's map |
| Clpa.ClpaCommittee.Repartition | supervisor/committee/committee_clpa.go:143-152 | the map sent is that of a hundred rounds on the epoch's graph, and is remembered; a fresh graph is started, and every look-up is the new label |
| Accounts.Addr2Shard | utils/utils_partition.go:11-21 | the default shard is in range |
| Accounts.HexInverts | utils/utils_partition.go:16 | reading a number inverts writing it in base 16, in either case |
| Accounts.LastEightCount | utils/utils_partition.go:12-20 | an address that ends in the eight digits of v belongs to shard v modulo the number of shards, whatever comes before |
| Accounts.ShortCounts | utils/utils_partition.go:12-20 | a shorter address counts as a whole |
| Bridge.BridgeLeader.constructor | consensus_shard/pbft_all/bridge_crypto.go:25-28 | all channels start with the initial balance |
| Bridge.CurrentRouteIndex | consensus_shard/pbft_all/pbftInside_moduleBridge.go:286-300 | the recorded index if this shard is there, otherwise the first position of this shard on the route, or -1 if it has none |
| Bridge.BridgeLeader.BridgeHasCapacity | consensus_shard/pbft_all/pbftInside_moduleBridge.go:229-234 | opens a missing channel with the initial balance and compares |
| Bridge.BridgeLeader.SendOnward | consensus_shard/pbft_all/pbftInside_moduleBridge.go:100-127 | debit and next hop together, or neither |
| Bridge.BridgeLeader.CommitLoop | consensus_shard/pbft_all/pbftInside_moduleBridge.go:91-131 | the block's effect on channels, hops filed by destination, and the four lists |
| Bridge.BridgeLeader.HandleBridgeLeaderCommit | consensus_shard/pbft_all/pbftInside_moduleBridge.go:80-227 | messages and report leave only with a verified joint signature, the debits happen anyway |
| Bridge.BridgeLeader.HandleSeqIDinfos | consensus_shard/pbft_all/pbftOutside_moduleBridge.go:44-68 | the reverse channel is credited, the hops join the pool and the sender's sequence number is kept |
| BridgeProtocol.HopClass | consensus_shard/pbft_all/pbftInside_moduleBridge.go:91-131 | index 0 is bridge1, the last is bridge2, those between are forwarded |
| BridgeProtocol.NextIsNextHop | consensus_shard/pbft_all/pbftInside_moduleBridge.go:236-300 | the generated transaction is the next hop of the same raw transaction, index one higher, value the same, in another shard |
| BridgeProtocol.DirectHop | consensus_shard/pbft_all/pbftInside_moduleBridge.go:236-300 | a transaction without a route goes straight from its sender's shard to its recipient's |
| BridgeSteps.StepKeeps | consensus_shard/pbft_all/pbftInside_moduleBridge.go:80-227 | every event of the system keeps the protocol invariant |
| BridgeSteps.RunKeeps | supervisor/committee/committee_bridge.go:117-235 | every state of every run satisfies it |
| BridgeRuns.ChannelMoneyConserved | consensus_shard/pbft_all/pbftInside_moduleBridge.go:91-169 | both ends of a channel plus value in flight plus value lost are twice the initial balance |
| BridgeRuns.ChannelsSolvent | consensus_shard/pbft_all/pbftInside_moduleBridge.go:229-234 | with non-negative values no balance is negative and no channel exceeds its deposits |
| BridgeRuns.CommitNeverStuck | consensus_shard/pbft_all/pbftInside_moduleBridge.go:91-131 | a leader only ever meets hops that its shard must run |
| BridgeTrails.StepBacks | consensus_shard/pbft_all/pbftInside_moduleBridge.go:91-131 | in every step a hop beyond the first is live or committed only behind the commit of the hop before it |
| BridgeSends.TurnSends | consensus_shard/pbft_all/pbftInside_moduleBridge.go:91-131 | a hop that is not the last: with capacity the channel is debited, the next hop filed for the next shard and the transaction listed once, as bridge1 or forwarded; without, nothing changes |
| BridgeSends.BlockSends | consensus_shard/pbft_all/pbftInside_moduleBridge.go:91-131 | by the end of the block the next hop is filed exactly once if the channel could carry it in its turn, else not at all |
| BridgeSends.CommitSendsOn | consensus_shard/pbft_all/pbftInside_moduleBridge.go:91-169 | in every run: signed, exactly one next hop is on its way to the next shard; unsigned, it is lost; without capacity, no hop is left anywhere |
| BridgeTrails.HopsGoForward | consensus_shard/pbft_all/pbftInside_moduleBridge.go:236-300 | the committed hops of a raw transaction are hops 0, 1, ..., m - 1 of its route, in order and each in its shard, m at most the length of the route; at most one hop is live, and it is hop m, pooled at or on its way to route[m] |
| BridgeRuns.DrainedMeansDone | supervisor/committee/committee_bridge.go:246-270 | when the committee says drained, everything was dealt and finished and no hop is left anywhere, in any order of reports and with any of them lost |
| BridgeDrain.DroppedForEver | supervisor/committee/committee_bridge.go:246-270 | after a hop that its channel could not carry, drain detection never fires |
| BridgeDrain.DropHappens | consensus_shard/pbft_all/pbftInside_moduleBridge.go:229-234 | such a run: a transfer of 101 over a channel that holds 100 |
| BridgeDrain.DrainedIff | supervisor/committee/committee_bridge.go:246-270 | with every block signed and every report counted, it fires if and only if everything was dealt and finished |
| BridgeDrain.DrainedExactly | supervisor/committee/committee_bridge.go:246-270 | in any run, it fires if and only if everything is done and each of the three counters has reached all there is to count |
| BridgeRuns.DealtRouteIsValid | supervisor/committee/committee_bridge.go:325-334 | whatever overlay is current, the dealt route is one the protocol can follow |
| BridgeRuns.DealtRouteIsShortest | supervisor/committee/committee_bridge.go:325-334 | it is the overlay's shortest route, or the direct one if there is none |
| Ledger.ShardNode.ExecuteTx | chain/blockchain.go:93-144 | one transaction on the trie: debit or skip, then credit |
| Ledger.ShardNode.GetUpdateStatusTrie | chain/blockchain.go:80-163 | the whole block in order |
| Ledger.ExecShares | chain/blockchain.go:93-144 | any transaction, of a bridge or broker or not: refused, it changes nothing; else every balance changes by exactly what the account receives here less what it sends, and stored nonces stay |
| Ledger.BodyShares | chain/blockchain.go:80-163 | any block changes every balance by exactly the shares of the transactions that were not refused |
| Ledger.AffordedIsPaid | chain/blockchain.go:113-117 | a block that every account can afford is paid in full |
| Ledger.BodyBalances | chain/blockchain.go:80-163 | a funded block changes each local account by exactly what its transactions say |
| Ledger.BodyElsewhere | chain/blockchain.go:80-163 | and leaves every other account's entry alone |
| Ledger.BodySolvent | chain/blockchain.go:113-121 | no block makes a balance negative |
| Ledger.BookedHereKeepsTotal | chain/blockchain.go:93-144 | a block of inner, broker or bridge transactions keeps the total of its shard |
| Ledger.SupplyConservedIff | chain/blockchain.go:93-144 | a transfer, executed here and its relayed copy there, keeps the supply if and only if it stays local, is covered or is worth nothing |
| Ledger.OverdraftMints | chain/blockchain.go:113-117 | an instance in which 101 coins are created |
| Ledger.ShardNode.PackTxs | core/txpool.go:82-92 | the head of the queue, at most the limit, and the rest stays |
| Ledger.ShardNode.HandleInCommit | consensus_shard/pbft_all/pbftInside_module.go:72-99 | stops exactly on a misplaced transaction; otherwise relays are filed by destination and the three lists counted |
| Ledger.ShardNode.RelayMsgSend | consensus_shard/pbft_all/toolFuncs.go:118-141 | one message to every other shard with exactly what was filed for it and the sequence number, then the pool is clear |
| Ledger.ShardNode.HandleRelay | consensus_shard/pbft_all/pbftOutside_module.go:31-43 | relayed transactions join the queue and the sender's sequence number is kept |
| RelaySteps.BlockMoney | chain/blockchain.go:80-163 | a block keeps, for every account, balance plus outstanding effects and the cover for its debts |
| MigrationSteps.SplitKeeps | consensus_shard/pbft_all/accountTransfer_module.go:58-122 | splitting and sending keeps the invariant, every account's view and the weight of all transactions |
| MigrationSteps.RegroupKeeps | consensus_shard/pbft_all/accountTransfer_module.go:132-141 | the order in which the messages of a change lie does not matter to the invariant |
| MigrationSteps.TakeOverKeeps | consensus_shard/pbft_all/accountTransfer_module.go:132-209 | taking over accounts and transactions keeps them too: each arrives in exactly the state its old home shows |
| LedgerRuns.StepKeeps | consensus_shard/pbft_all/pbftInside_moduleCLPA.go:22-186 | every event of the system keeps places, phases and counts, whatever the data set |
| LedgerRuns.StepKeepsMoney | consensus_shard/pbft_all/pbftInside_moduleCLPA.go:22-186 | and, for a data set that does not overspend, what every account has and is still to get |
| LedgerRuns.RunKeeps | consensus_shard/pbft_all/pbftInside_moduleCLPA.go:22-186 | every state of every run satisfies it |
| LedgerRuns.NoIncorrectTx | consensus_shard/pbft_all/pbftInside_moduleCLPA.go:103-110 | the "incorrect tx" and "error tx" stops are never reached |
| LedgerRuns.MigrationInvisible | consensus_shard/pbft_all/accountTransfer_module.go:58-209 | between blocks no step of a change, in any interleaving, alters what an account looks like |
| LedgerRuns.AppliedEverywhere | consensus_shard/pbft_all/accountTransfer_module.go:178-209 | once all have applied the map, every account is seen at its one new home and every queued transaction waits at the new home of its key |
| LedgerRuns.SettledPlaces | chain/blockchain.go:65-72 | between changes the same holds for the current map |
| LedgerRuns.NeverOverdrawn | chain/blockchain.go:113-121 | whatever the data set, no account is ever below zero |
| Supply.BlockSupply | chain/blockchain.go:80-163 | a block changes the supply by the value of its transactions that leave undebited |
| Supply.SupplyAccount | chain/blockchain.go:80-163 | whatever the data set, in every state of every run balances plus relayed value under way are the starting balances plus what the blocks so far minted |
| Supply.SupplyConservedIff | chain/blockchain.go:113-117 | they equal the starting balances if and only if no block so far let a transaction of positive value leave undebited |
| Supply.SupplyConserved | chain/blockchain.go:80-163 | for a data set in which nobody overspends they always do |
| LedgerRuns.ShardedIsUnsharded | consensus_shard/pbft_all/pbftInside_module.go:55-99 | once nothing is left, every balance equals that of one unsharded chain applying the raw transactions in any order |
| LedgerRuns.DrainedMeansQuiet | supervisor/committee/committee_relay.go:134-153 | drain detection never fires early, in any order of reports and with any of them lost |
| LedgerRuns.QuietMeansDrained | supervisor/committee/committee_relay.go:134-153 | and does fire once everything is done and reported |
| LedgerRuns.DrainedIff | supervisor/committee/committee_relay.go:134-153 | with no report lost and every report counted, it fires if and only if nothing is left |
| LedgerRuns.DrainedExactly | supervisor/committee/committee_relay.go:134-153 | in any run, it fires if and only if nothing is left and all three counters are complete |
| QueueSplit.TakeOut | consensus_shard/pbft_all/accountTransfer_module.go:86-105 | the two-pointer pass in place: exactly the departing transactions come out, the others close ranks in order |
| QueueSplit.PassTakes | consensus_shard/pbft_all/accountTransfer_module.go:71-105 | a pass over what earlier passes left takes what it would take from the whole queue |
| QueueSplit.SplitIsPermutation | consensus_shard/pbft_all/accountTransfer_module.go:71-119 | what stays and all send lists are a permutation of the queue, each an order-preserving sublist |
| QueueSplit.MigratingNode.AccountsToFetch | consensus_shard/pbft_all/accountTransfer_module.go:60-66 | exactly the accounts that leave, without repetition |
| QueueSplit.MigratingNode.FetchAccounts | chain/blockchain.go:368-390 | each account's stored state, or the default |
| QueueSplit.MigratingNode.AccountsFor | consensus_shard/pbft_all/accountTransfer_module.go:75-84 | exactly the accounts that go to one shard, with their states |
| QueueSplit.MigratingNode.SendAccountsAndTxs | consensus_shard/pbft_all/accountTransfer_module.go:58-122 | the whole loop performs the protocol's sending step |
| QueueSplit.MigratingNode.Collect | consensus_shard/pbft_all/accountTransfer_module.go:132-152 | collects all that arrived, in whatever order the map is traversed, and stops exactly on a stray transaction |
| QueueSplit.MigratingNode.AddAccounts | chain/blockchain.go:312-365 | stores the states of exactly the accounts that live here |
| QueueSplit.MigratingNode.AccountTransferDo | consensus_shard/pbft_all/accountTransfer_module.go:178-209 | the map first, then the accounts, and the flags and buffers of the change are reset |
| QueueSplit.TakeOverIsTransfer | consensus_shard/pbft_all/accountTransfer_module.go:132-209 | in every reachable state and for every order of the messages, collecting and transferring perform the protocol's take-over step, with no stray transaction |
| BrokerSplit.Decide | consensus_shard/pbft_all/accountTransfermod_Broker.go:90-118 | the flags say exactly whether a transaction stays, is sent or is handed back |
| BrokerSplit.TakeOut | consensus_shard/pbft_all/accountTransfermod_Broker.go:87-128 | one pass in place, into three lists in order |
| BrokerSplit.SplitQueue | consensus_shard/pbft_all/accountTransfermod_Broker.go:72-142 | all passes: queue, batches and hand-back list are those of each transaction's first taking pass, and together a permutation of the queue |
| BrokerSplit.SplitLosesNothing | consensus_shard/pbft_all/accountTransfermod_Broker.go:72-142 | queue left, batches and hand-back list are a permutation of the queue; the queue left, each batch and each pass's hand-back keep its order |
| BrokerSplit.SplitPlaces | consensus_shard/pbft_all/accountTransfermod_Broker.go:72-142 | nothing left in the queue is anchored at an account that leaves, batches hold only transactions anchored at an account of their shard, and only ordinary transactions are handed back |
| BrokerSplit.CrossOrderedIff | consensus_shard/pbft_all/accountTransfermod_Broker.go:72-153 | the whole hand-back list keeps the order if and only if hand-backs are queued in the order of the passes |
| BrokerSplit.CrossCanReorder | consensus_shard/pbft_all/accountTransfermod_Broker.go:72-153 | an instance in which it does not |
| PartitionReady.GetPartitionReady | consensus_shard/pbft_all/accountTransfer_module.go:40-55 | true exactly if all announced and every relay number seen is the last before the announcement |
| PartitionReady.StepKeeps | consensus_shard/pbft_all/pbftOutside_moduleCLPA.go:40-120 | every event keeps links, sequence numbers and announcements consistent |
| PartitionReady.ReadyMeansQuiet | consensus_shard/pbft_all/accountTransfer_module.go:40-55 | when the test passes, every other shard has stopped and none of its messages is on its way |
| PartitionReady.ReadyIff | consensus_shard/pbft_all/accountTransfer_module.go:40-55 | with all announcements in, it passes if and only if every shard that ever relayed committed a block since its last change |
| FifoLedger.SplitEnabled | consensus_shard/pbft_all/accountTransfer_module.go:40-55 | the shard's own test implies that no shard runs on and no relay is on its way to it |
| FifoLedger.NetStepKeeps | consensus_shard/pbft_all/pbftInside_moduleCLPA.go:22-34 | every event keeps links, phases and relays under way in step |
| FifoLedger.FifoRefinesLedger | consensus_shard/pbft_all/pbftInside_moduleCLPA.go:22-34 | every state of a run in which shards go by their own test is reached by a run of the sharded ledger |
| FifoLedger.ReadyMeansQuiet | consensus_shard/pbft_all/accountTransfer_module.go:40-55 | in every such run, a shard splits its queue only when all have stopped and nothing more can come |
| FifoLedger.FifoNoIncorrectTx | consensus_shard/pbft_all/pbftInside_moduleCLPA.go:103-110 | in every such run the "incorrect tx" and "error tx" stops are never reached |
| FifoLedger.FifoMigrationInvisible | consensus_shard/pbft_all/accountTransfer_module.go:58-209 | nor does a change alter what an account looks like |
| FifoLedger.FifoAppliedEverywhere | consensus_shard/pbft_all/accountTransfer_module.go:178-209 | and once all have applied the map, accounts and transactions are at their new homes |
| FifoLedger.StuckForEver | consensus_shard/pbft_all/pbftInside_moduleCLPA.go:23-27 | a shard whose test fails with all messages in waits for ever, whatever else happens |
| FifoLedger.StuckIff | consensus_shard/pbft_all/pbftInside_moduleCLPA.go:23-27 | and this happens if and only if some other shard that ever relayed committed no block since its last change |
| FifoLedger.BeginAfterBlock | supervisor/committee/committee_clpa.go:154-156 | where the supervisor waits for the epoch it has opened, some shard has committed a block since the change before |
| HangingChange.SecondChangeHangs | consensus_shard/pbft_all/pbftInside_moduleCLPA.go:23-27 | such a run of two shards, with a supervisor that waits: shard 1 relays once, and between two changes only shard 0 commits a block |
| Pbft.PbftNode.Propose | consensus_shard/pbft_all/messageHandle.go:51-80 | the proposal extends the leader's current block and carries its sequence number |
| Pbft.PbftNode.HandlePrePrepare | consensus_shard/pbft_all/messageHandle.go:93-149 | what waits for the stage, is dropped, remembered and answered with a prepare |
| Pbft.PbftNode.HandlePrepare | consensus_shard/pbft_all/messageHandle.go:154-221 | what waits for the stage, what is counted, and the one commit at the quorum |
| Pbft.PbftNode.AddBlock | chain/blockchain.go:229-248 | appends exactly a block of the next height on the current block |
| Pbft.PbftNode.HandleCommit | consensus_shard/pbft_all/messageHandle.go:226-307 | what waits for the stage, what is counted, and the one append, or request for old blocks, at the quorum |
| PbftRuns.CountsKeep | consensus_shard/pbft_all/toolFuncs.go:22-34 | every counted message has a sender of its own |
| PbftRuns.ChainStep | consensus_shard/pbft_all/messageHandle.go:226-307 | a message adds nothing to a chain, or the leader's next proposal, with its commit quorum |
| PbftRuns.StepKeeps | consensus_shard/pbft_all/messageHandle.go:44-307 | every event keeps the invariant, and proposals, messages and chains only grow |
| PbftRuns.ChainIsPrefix | chain/blockchain.go:229-248 | a replica's chain is at any time a prefix of the leader's proposals at any later time |
| PbftRuns.Agreement | consensus_shard/pbft_all/messageHandle.go:44-307 | the chains of any two replicas at any two times are comparable |
| PbftRuns.AppendedAfterQuorums | consensus_shard/pbft_all/messageHandle.go:154-307 | a block is appended only after 2f + 1 commits, and 2f + 1 prepares each broadcast while the parent was the sender's current block |
| PbftQuorums.QuorumsMeet | consensus_shard/pbft_all/pbft.go:142 | of 3f + 1 replicas any two quorums share more than f, and a quorum is no more than those that are not faulty |
| PbftQuorums.QuorumsMeetIff | consensus_shard/pbft_all/pbft.go:142 | for n replicas this holds if and only if n is 3f + 1 |
| PbftQuorums.PreparedAtOnce | consensus_shard/pbft_all/messageHandle.go:93-149 | a replica in step answers the pre-prepare of its next block with a prepare |
| PbftQuorums.CommitAtQuorum | consensus_shard/pbft_all/messageHandle.go:154-221 | a replica broadcasts its commit at the prepare that is number 2f + 1 of those it counts, not before and not later |
| PbftQuorums.AppendedAtQuorum | consensus_shard/pbft_all/messageHandle.go:226-307 | a pooled next block is appended at the commit that brings the number of its senders to 2f + 1, not before and not later |
| PbftRuns.LeaderInLockstep | consensus_shard/pbft_all/messageHandle.go:51-80 | the leader's sequence number is always that of its next block |
| PbftRuns.LockstepIff | consensus_shard/pbft_all/messageHandle.go:260-296 | a message breaks the lockstep if and only if it completes a commit quorum for a block beyond the next |
| PbftRuns.AheadIsStuck | consensus_shard/pbft_all/messageHandle.go:242-296 | a replica that ran ahead never appends again |
| PbftRuns.RunningAheadHappens | consensus_shard/pbft_all/messageHandle.go:226-307 | a run that obeys the stage waits and in which a replica runs ahead |
| PbftStalls.MissedForEver | consensus_shard/pbft_all/messageHandle.go:104-147 | a replica that handled the pre-prepare of a round before its turn appends nothing any more |
| PbftStalls.GoesOnIff | consensus_shard/pbft_all/messageHandle.go:104-147 | at the beginning of a round, a replica in step can still prepare its next block if and only if it has not |
| PbftStalls.StallHappens | consensus_shard/pbft_all/messageHandle.go:104-240 | a run that obeys the stage waits and in which a replica stalls so |

## Left out

- OverlayBuild.BuildOverlayWithMode: requires that the weight matrix has no more rows than there are limits. With more rows the original stops where one of them, other than the last, is shorter than their number, and in building the tree where it looks at a pair with an absent shard before the tree is complete; with one limit the tree is complete at once, so that tree mode succeeds. In full mode it then stops too, unless there is one row too many and the tree uses up every slot, which takes at most two shards.
- ClpaScores.ExactSinks: the one place where scores are computed without rounding; everything else about CLPA holds for any score.
- FifoLedger.FifoRefinesLedger: assumes that messages from one shard to another arrive in order, that there is one change of the map at a time, and that an injected transaction reaches its shard before the next map does, since placing it is one step.
- Accounts.Addr2Shard: a character that is no hexadecimal digit counts as zero, where the original stops.
- View change and catch-up of old messages: a replica that asks for old blocks gets no answer in the model.
- Byzantine replicas and authentication: replicas follow the code.
- The order of waiting PBFT messages: the theorems let a message be handled at any time, whatever the stage, and the leader's stage is set with its proposal in one step.
- Signatures, hashes, encodings and the Merkle-Patricia trie: hashes are injective, tries are maps, a joint signature verifies or not.
- Locks and time: a locked section is one step.
- Machine integers: all integers are unbounded, and values of the relay ledger are not negative.
- Batching and pacing of injection by the supervisor: transactions are placed one at a time at their sender's shard.
- Broker balances and the broker protocol beyond its queue split: broker halves are not credited in every shard, so nothing is conserved there.
- Traffic matrix and the choice of overlay mode and limits: configuration and simple counters.
- Networking, storage, measurement, logging and scripts: input and output.
