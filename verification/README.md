# FunDB in Dafny

A verified model of the parts of FunDB whose correctness cannot be read off one function: the Raft
consensus node, the query optimizer together with the executor it feeds, the structural causal models,
the causal graphs, the regression solver, the HNSW vector index, the shard ring and the distributed
query merge. `dafny verify dfyconfig.toml` checks all of it.

Floating-point numbers are `real`, machine integers are unbounded, hashes, distances and random layers
are arbitrary functions handed to the model. Objects the program updates in place are classes whose
methods are proved against specification functions; the theorems are then about those functions.

## Layout

- Consensus. `raft_types`, `raft_handlers` (each handler as a function), `raft_node` (the node, its
  state and its storage as objects refining those functions), `raft_log` and `raft_quorum` (the loops
  and the commit rule against reference definitions), `raft_cluster` (a cluster as a state machine over
  a network that loses, duplicates and reorders), `raft_election`, `raft_safety`, `raft_steps`,
  `raft_theorems` (the safety results), `raft_progress` (what any majority can still do),
  `raft_limits` (where they stop).
- Queries. `plan`, `strings`, `rules`, `executor` (what a plan denotes, following the filter and sort
  operators exactly), `operators` (what single operators return), `comparisons` (what one comparison can tell), `fold`, `soundness`, `executors`,
  `exactness` (the exact conditions for whole predicates), `convergence`, `pass_counts`.
- Causal models. `products` (multiplication hidden behind a name so that proofs stay linear), `kahn`,
  `scm`, `scm_effects`.
- Causal graphs. `causal_graph`, `strongest`, `tracing`, `causal_engine`, `causal_dag`.
- Regression. `elimination`, `elimination_exact`, `regression`.
- Vector index. `heap`, `hnsw_search`, `hnsw_links`, `hnsw`.
- Cluster. `ring`, `sharding`, `top_k`, `dist_query`.

How the cluster is modelled. A run is a sequence of steps, each one handler on one node and the messages
it sends; messages stay in the network, so a step may use an old or repeated one. A node becomes leader
when it is a candidate holding a majority of grants of its current term (the guard at
`crates/fundb-raft/src/raft.rs:679-682`). Any slice of the leader's log may be sent, announcing a commit
index no further than the slice reaches; an acknowledgement counts for the leader of its own term.
`propose` is one step. A restart rebuilds the node from what it stored; it is called safe here when the
stored log equals the one the node had in memory (`RaftCluster.SafeRestart`).

What the code does against expectation, kept as it is:

- The commit rule takes entry n/2 of the sorted match list. For an even cluster that is only half of the
  nodes, not a majority. Half of a cluster still meets every election majority
  (`RaftQuorum.QuorumsMeet`), so the safety results hold for clusters of every size.
- A candidate that hears the leader of its own term forgets its vote, and no other node does
  (`RaftLimits.VoteKeptExact`); it may vote again (`RaftLimits.VotesTwice`), and election safety
  survives it.
- Followers never store the entries they accept, so a single restart can lose a committed entry
  (`RaftLimits.RestartLosesCommit`). The log results hold for every run whose restarts are safe; runs
  without restarts are among these.
- A follower takes over an announced commit index without asking whether the request vouches for the
  entries up to it; `RaftLimits.CommitRuleExact` says which announcements are safe.
- The optimizer documents a fixed point "or the maximum iteration limit". A filter or limit sinks below
  one projection a pass and waits for those below it. A plan reaches its normal form in as many passes
  as its longest such wait, at least two, plus one for each elidable filter in a row over a vector scan
  (`PassCounts.PassesSuffice`); a filter or a limit above more than eight projections that do not fold
  to `*` never gets there in eight (`PassCounts.TooFewPasses`).
- The elision rule takes any `<` or `<=` for a distance test; it is right only about tests no record can
  fail (`ExecutorResults.ElisionExact`). The swapped confidence test in the filter operator turns the
  operator round twice; the model does the same.
- A cached path list is returned whatever depth is asked for, and after later insertions
  (`CausalDag.DepthsAgree`, `CausalDag.Stale` say when that matters).
- Reinserting a stored identifier into the vector index makes the live count wrong
  (`Hnsw.HnswIndex.Store`). Its node may also find itself and get an edge to itself, its own list may
  grow past the bound, and a deleted one stays deleted. So `Insert` is about new identifiers.
- `add_node` documents a list of migrated shards; it is always empty, although keys move
  (`Sharding.ShardMap.AddNode`).
- A queried shard without records reports a minimum and a maximum of 0 (`DistQuery.MinExact`,
  `DistQuery.MaxExact`).
- The sort operator documents that nulls sort last; under a descending key they come first
  (`Operators.SortExact`).

## Model

| member | source | states |
|---|---|---|
| RaftTheorems.StateMachineSafety | crates/fundb-raft/src/raft.rs:332-425 | In every run with safe restarts of a cluster of any size, at any two moments, of two nodes' committed entries one list is a prefix of the other: no index is ever committed with two entries. |
| RaftTheorems.LeaderCompleteness | crates/fundb-raft/src/raft.rs:289-297 | In every run with safe restarts a leader of a later term holds every entry any node of an earlier term has committed, at whatever moments the two are looked at. |
| RaftTheorems.CommittedForever | crates/fundb-raft/src/raft.rs:397-416 | In every run with safe restarts what a node has committed stays a prefix of what it has committed later: no committed entry is truncated or replaced. |
| RaftTheorems.LogMatching | crates/fundb-raft/src/raft.rs:383-411 | In every run with safe restarts two logs with the same term at one index are equal up to it, and every log is contiguous from 1 with terms that never fall. |
| RaftTheorems.CommitNeverRetreats | crates/fundb-raft/src/raft.rs:413-416 | In every run with safe restarts a node's commit index never falls: a restart takes up the one saved. |
| RaftTheorems.LogStep | crates/fundb-raft/src/raft.rs:356-425 | Every step, safe restarts included, keeps the invariant relating logs, leaders, votes, acknowledgements and messages. |
| RaftElection.ElectionSafety | crates/fundb-raft/src/raft.rs:299-328 | In every run, restarts included, no two nodes lead the same term, at any two moments. |
| RaftElection.ElectionStep | crates/fundb-raft/src/raft.rs:428-469 | Every step, restarts included, keeps the vote invariant and only adds elections; a win is always in a term nobody had won. |
| RaftElection.MoveKeepsInv | crates/fundb-raft/src/raft.rs:738-771 | A step that changes a node's saved vote only from none, by a newer term, or by stepping down to the term's leader keeps the vote invariant. |
| RaftProgress.MajorityElects | crates/fundb-raft/src/raft.rs:289-328 | After any run, restarts of any kind included, any majority of the cluster can by itself make one of its members the leader of a new term: the run of candidacies and votes is given, and the member keeps its log. |
| RaftProgress.MajorityCommits | crates/fundb-raft/src/raft.rs:332-425 | After any run with safe restarts any majority can by itself elect one of its members and have it commit any proposal on top of all that member had. |
| RaftProgress.NoMutualRefusal | crates/fundb-raft/src/raft.rs:289-297 | Of any two nodes one would vote for the other: no two logs refuse each other. |
| RaftProgress.SomeoneElectable | crates/fundb-raft/src/raft.rs:289-297 | Among any nodes there is one all of them would vote for. |
| RaftProgress.VoteOutcome | crates/fundb-raft/src/raft.rs:428-469 | Exactly when a vote is granted, told on the last entries, what it leaves of the node's state, and that only a grant is saved. |
| RaftProgress.AppendOutcome | crates/fundb-raft/src/raft.rs:356-425 | When an append request succeeds, and what it does to term, role, vote and leader; what it leaves alone. |
| RaftQuorum.MajorityMatchIsGreatest | crates/fundb-raft/src/raft.rs:332-343 | Entry n/2 of the sorted match list is the greatest index at least half of the cluster has reached. |
| RaftQuorum.MajorityMatchQuorum | crates/fundb-raft/src/raft.rs:332-343 | The nodes the leader knows to hold that index are at least half of the cluster. |
| RaftQuorum.QuorumsMeet | crates/fundb-raft/src/raft.rs:669-682 | Half of a cluster of any size shares a node with every election majority. |
| RaftLog.MergeIsSplice | crates/fundb-raft/src/raft.rs:397-411 | The truncate loop followed by the append loop keeps the log if it holds all entries, else cuts it at the first gap or conflict and extends it with the rest. |
| RaftLog.TruncateAtConflict | crates/fundb-raft/src/raft.rs:397-404 | The truncate loop cuts the log exactly at the first entry of another term. |
| RaftLog.LogTermAtWellFormed | crates/fundb-raft/src/raft.rs:277-286 | On a contiguous log the lookup by index is the entry at that place, and 0 outside. |
| RaftSafety.SpliceOntoLeader | crates/fundb-raft/src/raft.rs:383-411 | An accepted request leaves the follower with its own log or the leader's slice, in either case extending the leader's log up to the slice's end. |
| RaftSafety.SpliceKeeps | crates/fundb-raft/src/raft.rs:397-411 | Accepting a request cuts off nothing the follower shares with the leader. |
| RaftSteps.UpToDateCarries | crates/fundb-raft/src/raft.rs:289-297 | A candidate log at least as up to date as a voter's holds every prefix the voter must keep. |
| RaftSteps.WinKept | crates/fundb-raft/src/raft.rs:317-328 | A new leader's log holds everything that may have been committed: winning keeps the log invariant. |
| RaftSteps.ProposeKept | crates/fundb-raft/src/raft.rs:534-579 | Appending a proposal keeps the log invariant. |
| RaftSteps.AnswerKept | crates/fundb-raft/src/raft.rs:738-753 | Answering AppendEntries keeps the log invariant. |
| RaftSteps.RecordKept | crates/fundb-raft/src/raft.rs:883-904 | Recording an acknowledgement and advancing the commit index keeps the log invariant. |
| RaftSteps.RestartKept | crates/fundb-raft/src/raft.rs:500-528 | A restart that finds stored the log the node had keeps the log invariant: term, vote and commit index were saved before they were told to anyone. |
| RaftLog.RestartReadsLog | crates/fundb-raft/src/raft.rs:510-518 | A restart reads back the whole stored log when its indices are contiguous. |
| RaftLog.StoreEntryExact | crates/fundb-raft/src/raft.rs:169-182 | Storing an entry keeps what is stored before its index and drops the rest. |
| RaftTheorems.LoneRestartsSafe | crates/fundb-raft/src/raft.rs:534-579 | A node without peers has its whole log stored at every moment, so each of its restarts is safe. |
| RaftSteps.HeartbeatIsEmptySlice | crates/fundb-raft/src/raft.rs:695-716 | A heartbeat is the request for the empty slice at the end of the leader's log, so it announces nothing it does not vouch for. |
| RaftLimits.RestartLosesCommit | crates/fundb-raft/src/raft.rs:738-753 | A concrete run with one restart in which a later leader lacks a committed entry. |
| RaftLimits.CommitRuleExact | crates/fundb-raft/src/raft.rs:413-416 | For any leader log and slice of it: every contiguous follower whose log matches the leader's and that accepts the request commits only a prefix of the leader's log, exactly when the announced index is within the slice, or the slice ends in the leader's own term (so that no other entry can follow) and the index is within the leader's log. |
| RaftLimits.VoteKeptExact | crates/fundb-raft/src/raft.rs:375-379 | Answering a leader of its own term, a node keeps its vote exactly when it is no candidate or had none. |
| RaftLimits.VotesTwice | crates/fundb-raft/src/raft.rs:441-469 | After that a node that had voted grants another candidate of the same term its vote exactly when it was a candidate and the other's log is up to date. |
| RaftNodes.RaftState.TermAt | crates/fundb-raft/src/raft.rs:277-286 | The loop finds the term of the first entry with the index, 0 if there is none. |
| RaftNodes.RaftState.AdvanceCommitIndex | crates/fundb-raft/src/raft.rs:332-353 | The new state and result are those of the commit rule; nothing but the commit index changes. |
| RaftNodes.RaftState.OnAppendEntries | crates/fundb-raft/src/raft.rs:356-425 | New state, reply and persistence flag are those of the handler function. |
| RaftNodes.RaftState.Lead | crates/fundb-raft/src/raft.rs:317-328 | Every peer starts at the index after the log's last with nothing matched. |
| RaftNodes.MemoryRaftStorage.AppendEntry | crates/fundb-raft/src/raft.rs:169-182 | Storage is cut at the first index not below the entry's and the entry appended. |
| RaftNodes.RaftNode.constructor | crates/fundb-raft/src/raft.rs:500-528 | A node built from storage is the restarted node of the cluster model. |
| Soundness.OptimizeSound | crates/fundb-optimizer/src/lib.rs:15-35 | For every well-formed plan and every number of passes the result denotes the same rows and is well-formed again. |
| Soundness.PushdownReplaces | crates/fundb-optimizer/src/rules.rs:27-105 | Pushing filters below projections keeps rows and conditions, for every plan tree. |
| Soundness.LimitReplaces | crates/fundb-optimizer/src/rules.rs:110-175 | Pushing limits below projections keeps rows and conditions. |
| Soundness.EliminateReplaces | crates/fundb-optimizer/src/rules.rs:180-240 | Dropping wildcard projections keeps rows and conditions. |
| Soundness.ConstantFoldReplaces | crates/fundb-optimizer/src/rules.rs:305-372 | Folding every expression of a plan keeps its rows and leaves it safe to fold again. |
| Soundness.ElideReplaces | crates/fundb-optimizer/src/rules.rs:396-450 | Dropping a distance-like filter above a vector scan keeps rows and conditions. |
| Folding.ComparisonFoldExact | crates/fundb-optimizer/src/rules.rs:246-300 | For every comparison operator and either operand order, folding the operands changes the test exactly when it makes a literal the tested column can meet, tests another kind of column, or makes a tested column where there was none of a test some record fails. |
| PredicateExactness.FoldExact | crates/fundb-optimizer/src/rules.rs:246-300 | Folding a combination by And, Or and Not of comparisons on different columns, none of which is constant, leaves its test alone exactly when it leaves every comparison alone. |
| Folding.FoldKeepsPasses | crates/fundb-optimizer/src/rules.rs:246-300 | The filter operator passes the same records for any predicate and its folded form when folding leaves every comparison in it alone. |
| ExecutorResults.ExecutorUnchanged | crates/fundb-executor/src/lib.rs:64-147 | With the executor as it stands, optimizing changes no row of any plan passing a syntactic check. |
| ExecutorResults.ColumnExecutorUnchanged | crates/fundb-executor/src/lib.rs:124-134 | The same for an executor whose projections really drop columns. |
| ExecutorResults.ElisionExact | crates/fundb-optimizer/src/rules.rs:378-412 | The elision rule is right about a filter, over every stored collection, exactly when no record can fail its test; a test on a payload column never qualifies. |
| Operators.SortExact | crates/fundb-executor/src/operators/sort.rs:73-136 | The sort returns the rows it was given, none behind one that the first differing key puts after it (numbers, then strings, then nothing; reversed when descending), and rows that tie on every key as they came. |
| Operators.FieldKeys | crates/fundb-executor/src/operators/sort.rs:92-112 | What a payload field sorts by: numbers and booleans by size, text as text, everything else last. |
| Operators.KindsCompare | crates/fundb-executor/src/operators/filter.rs:149-215 | Text and number fields compare with literals of their kind and fail every test against another kind. |
| Operators.AbsentFields | crates/fundb-executor/src/operators/filter.rs:149-215 | A missing or null field fails every test; a payload that does not decode passes every one. |
| Operators.BooleansCompare | crates/fundb-executor/src/operators/filter.rs:149-215 | A boolean field can only be told equal or different; every other test passes. |
| Operators.FilterLaws | crates/fundb-executor/src/operators/filter.rs:52-75 | Rows are kept one by one, in order, exactly those that pass. |
| Operators.NumbersCompare | crates/fundb-executor/src/operators/filter.rs:230-283 | Numbers compare by size, equality within the tolerance; each operator has its opposite and its mirror image. |
| Operators.StringsCompare | crates/fundb-executor/src/operators/filter.rs:256-283 | Strings compare lexicographically, with the same opposites and mirrors. |
| Operators.LimitLaws | crates/fundb-executor/src/lib.rs:137-141 | A limit keeps the first rows, as many as allowed and there are. |
| Operators.ScanMeans | crates/fundb-executor/src/lib.rs:84-104 | A scan with a predicate and projections denotes the bare scan, filtered and then projected. |
| Operators.ScanLaws | crates/fundb-executor/src/operators/scan.rs:98-130 | A vector scan returns, in order, exactly the records that have the vector and lie nearer than the threshold. |
| Comparisons.NeverFailsExact | crates/fundb-executor/src/operators/filter.rs:75-215 | The comparisons no record can fail, exactly, for every operator and either operand order. |
| ExecutorResults.PushExact | crates/fundb-optimizer/src/rules.rs:27-45 | Any comparison, in either operand order, may be pushed below a column-dropping projection exactly when the projection keeps the column tested or no stored value can meet the comparison. |
| PredicateExactness.PushPredicateExact | crates/fundb-optimizer/src/rules.rs:27-45 | A combination by And, Or and Not of comparisons on different columns, none of which is constant, may be pushed exactly when each of its comparisons may. |
| Convergence.NormalFormIsIdle | crates/fundb-optimizer/src/rules.rs:27-450 | No rule changes a plan exactly when its tree is a normal form: no filter or limit right above a projection, no projection to the bare wildcard, no distance-like filter right above a vector scan, no neutral operand in any expression. |
| Convergence.PassSettles | crates/fundb-optimizer/src/lib.rs:28-44 | A pass that changes a plan makes it strictly lighter; a pass changes nothing exactly when the tree is a normal form. |
| Convergence.EnoughPasses | crates/fundb-optimizer/src/lib.rs:15-25 | As many passes as the plan weighs always reach a normal form. |
| PassCounts.PassesSuffice | crates/fundb-optimizer/src/lib.rs:11-25 | Every plan is in normal form after as many passes as its longest wait (for a projection under filters or limits of its run: these, and the projections below it), at least two, plus the longest row of elidable filters over a vector scan. |
| PassCounts.TooFewPasses | crates/fundb-optimizer/src/lib.rs:11-25 | Whatever else a plan holds, a filter or a limit above more lasting projections than there are passes leaves it short of a normal form. |
| PassCounts.PassesExact | crates/fundb-optimizer/src/lib.rs:11-25 | Where only filters or only limits stand above projections, none a wildcard, and no filter is elided, a number of passes is enough exactly when no wait is longer. |
| PassCounts.PassQueued | crates/fundb-optimizer/src/rules.rs:27-175 | One pass shortens every wait, in every plan. |
| Rules.RunPasses | crates/fundb-optimizer/src/lib.rs:15-25 | The bounded loop with its early exit computes the iterated pass. |
| ScmBuild.New | crates/fundb-causal/src/scm.rs:60-145 | The first equation with mismatched coefficients is refused; otherwise a model is built exactly when no variable is its own ancestor, its order listing every variable once with parents first; the variable named in a cycle error is on a cycle or a walk leads to it from one. |
| ScmBuild.KahnSort | crates/fundb-causal/src/scm.rs:96-129 | When the queue is empty the sorted variables are duplicate-free, parents first, and the in-degrees left count the parents not sorted; the order is the one the equations alone determine, variables set free together coming alphabetically. |
| ScmBuild.SortedOrCyclic | crates/fundb-causal/src/scm.rs:131-139 | The sort covers every variable exactly when the parent relation has no cycle; each variable it misses is on a cycle or below one. |
| ScmBuild.BuildGraph | crates/fundb-causal/src/scm.rs:75-91 | Every mentioned variable has its in-degree, every parent its children once per occurrence. |
| ScmBuild.Relax | crates/fundb-causal/src/scm.rs:114-127 | Each child's degree falls by its occurrences and exactly those reaching zero are collected once. |
| Scm.EvaluateIsTheSolution | crates/fundb-causal/src/scm.rs:150-166 | An assignment keeps the observations and satisfies every unobserved variable's equation exactly when it is the computed one. |
| Scm.EvalSolves | crates/fundb-causal/src/scm.rs:300-327 | One pass over the order, with any noise, yields values meeting every equation that was not fixed. |
| Scm.ComputeEquation | crates/fundb-causal/src/scm.rs:266-273 | The accumulator is the intercept plus the weighted sum, an absent parent counting as 0. |
| Scm.Intervene | crates/fundb-causal/src/scm.rs:170-196 | The errors in order, else the target's value in the model with the intervened variable fixed. |
| Scm.CounterfactualOf | crates/fundb-causal/src/scm.rs:199-246 | The errors in order, else the target's value after abduction, action and prediction. |
| Scm.AbductNoise | crates/fundb-causal/src/scm.rs:216-225 | Each equation's noise is what it leaves unexplained in the factual world. |
| ScmEffects.TotalEffect | crates/fundb-causal/src/scm.rs:170-196 | Moving the intervened value by d moves every variable by d times the summed coefficient products over the directed paths avoiding the other observed variables. |
| ScmEffects.PathsExact | crates/fundb-causal/src/scm.rs:254-297 | The paths summed over are all directed paths that enter no fixed variable, each once. |
| ScmEffects.NonDescendantsUnmoved | crates/fundb-causal/src/scm.rs:170-196 | A variable no such path leads to has the same value after any two interventions. |
| ScmEffects.CounterfactualEffect | crates/fundb-causal/src/scm.rs:199-246 | A counterfactual is the factual world moved along the directed paths; observed variables that have an equation do not block. |
| ScmEffects.CounterfactualConsistency | crates/fundb-causal/src/scm.rs:199-246 | With the antecedent at its factual value the target has its factual value, for every model and observation. |
| ScmEffects.CounterfactualIsIntervention | crates/fundb-causal/src/scm.rs:199-246 | With no equation's variable observed, the counterfactual is the intervention. |
| CausalGraph.ClosesCycle | crates/fundb-causal/src/tier1.rs:97-104 | Adding an edge keeps a graph acyclic exactly when its target does not already reach its source. |
| CausalGraph.CanReach | crates/fundb-causal/src/tier1.rs:170-189 | The depth-first search with its visited set answers whether a path exists. |
| CausalGraph.IndexesTransposed | crates/fundb-causal/src/tier1.rs:69-78 | The reverse index holds each edge as often as the forward one, under its other end, and nowhere else. |
| CausalEngines.CausalEngine.InsertEdge | crates/fundb-causal/src/tier1.rs:97-115 | An edge is refused exactly when it would close a cycle; both indexes stay those of the edges inserted. |
| CausalEngines.CausalEngine.Trace | crates/fundb-causal/src/tier1.rs:123-141 | The paths reported are exactly those within the depth whose edges pass the filters, each once when no edge was inserted twice; each record has the path's nodes, the product of its strengths, and a stability no edge is below, which is 1 or some edge's own. |
| CausalEngines.CausalEngine.DfsTrace | crates/fundb-causal/src/tier1.rs:196-265 | One level of the backtracking search appends exactly what the search function finds below the path. |
| CausalEngines.CausalEngine.EffectsOf | crates/fundb-causal/src/tier1.rs:146-149 | For non-negative strengths, exactly the nodes one to maxDepth edges ahead, each with its greatest strength product. |
| CausalEngines.CausalEngine.CausesOf | crates/fundb-causal/src/tier1.rs:152-154 | The same backwards. |
| PathSearch.AcyclicPathsSimple | crates/fundb-causal/src/tier1.rs:239-242 | In the graphs the engine admits every path is simple, so the revisit guard rejects nothing. |
| StrongestPaths.BfsReachable | crates/fundb-causal/src/tier1.rs:277-313 | The re-queueing search ends with, for every node within the bound, the maximum over all walks. |
| StrongestPaths.EveryWalkCovered | crates/fundb-causal/src/tier1.rs:290-309 | Every walk within the bound is matched by a queued item at least as strong and as short. |
| StrongestPaths.Dual | crates/fundb-causal/src/tier1.rs:146-154 | b is among a's effects exactly when a is among b's causes, with the same strength. |
| PathSearch.TraceExact | crates/fundb-causal/src/tier1.rs:196-265 | The search lists a path exactly when it is simple, within the depth and allowed edge by edge. |
| PathSearch.FoundOnce | crates/fundb-causal/src/tier1.rs:196-265 | No path is listed twice when no edge was inserted twice. |
| PathSearch.PruneIsFilter | crates/fundb-indexes/src/causal_dag.rs:220-272 | For strengths in [0, 1] pruning weak prefixes lists what filtering at the end lists, in the same order. |
| CausalDag.FilterIsPrune | crates/fundb-indexes/src/causal_dag.rs:106-141 | Filtering the unfiltered answer is the pruned answer, record by record. |
| CausalDag.CausalDagIndex.InsertEdge | crates/fundb-indexes/src/causal_dag.rs:74-98 | Out-of-range strengths are refused first, then exactly the edges that close a cycle; the cache is left alone. |
| CausalDag.CausalDagIndex.Paths | crates/fundb-indexes/src/causal_dag.rs:106-141 | An uncached pair is searched; a cached pair gets its entry filtered by strength, which for a current entry is the search within ten edges. Such an answer has a record for exactly the paths within the depth whose strengths multiply to the minimum asked for, with nodes and product. |
| CausalDag.CausalDagIndex.MaterializeClosure | crates/fundb-indexes/src/causal_dag.rs:164-184 | The pair's entry becomes current and no other entry changes. |
| CausalDag.DfsPaths | crates/fundb-indexes/src/causal_dag.rs:220-272 | One level of the backtracking search appends exactly what the search function finds below the path. |
| CausalDag.DepthsAgree | crates/fundb-indexes/src/causal_dag.rs:113-120 | A cached answer has the paths of another depth exactly when the graph has no path strong enough that is longer than the smaller depth and within the larger. |
| CausalDag.Stale | crates/fundb-indexes/src/causal_dag.rs:91-98 | An insertion makes a cached answer stale exactly when the graph had a path to the new edge's source and one from its target that with the edge make at most ten edges. |
| EliminationExact.EliminationSolves | crates/fundb-causal/src/tier2.rs:375-411 | When every chosen pivot is at least 1e-12, the last column is the one solution of the system. |
| EliminationExact.ColumnKeeps | crates/fundb-causal/src/tier2.rs:392-408 | Swapping, scaling and reducing one column keeps the set of solutions and makes the column a unit column. |
| Elimination.GaussJordan | crates/fundb-causal/src/tier2.rs:375-409 | The nested loops compute the elimination column by column, skipping columns with a tiny pivot. |
| Elimination.FindPivot | crates/fundb-causal/src/tier2.rs:375-390 | The first row at or below the diagonal with the largest entry. |
| Regression.OlsCoefficients | crates/fundb-causal/src/tier2.rs:338-411 | Nothing for no data, zeros for too few observations, else the last column of the elimination; with regular pivots no coefficients have a smaller residual sum of squares and the residuals are orthogonal to every regressor. |
| Regression.SolutionIsLeastSquares | crates/fundb-causal/src/tier2.rs:350-411 | The solution of the normal equations is the least-squares fit. |
| Regression.MissIsCross | crates/fundb-causal/src/tier2.rs:351-363 | The amount by which coefficients miss a normal equation is their residuals' inner product with that regressor. |
| Regression.BuildNormalSystem | crates/fundb-causal/src/tier2.rs:351-373 | The accumulating loops build the normal equations. |
| Regression.ResidualSumSquares | crates/fundb-causal/src/tier2.rs:414-425 | The loop sums the squared residuals. |
| Regression.NestedModels | crates/fundb-causal/src/tier2.rs:230-258 | Adding regressors never raises the residual sum of squares of a least-squares fit on the same rows, so with regular pivots the F statistic's numerator needs no clamp; after a skipped pivot the clamp matters. |
| HnswSearch.SearchLayer | crates/fundb-indexes/src/hnsw.rs:347-407 | Reachable nodes with their distances, nearest first, each once. For every width no neighbour of a node found is left out unless the beam is full of nodes at least as near; all reachable nodes are found when the beam is as wide as the layer. |
| HnswSearch.GreedySearchLayer | crates/fundb-indexes/src/hnsw.rs:315-342 | Ends where moving to the nearest live neighbour again and again ends: at a node of the layer no farther than the entry and with no nearer live neighbour. |
| HnswLinks.SelectNeighbours | crates/fundb-indexes/src/hnsw.rs:411-418 | As many candidates as fit, none dropped that is nearer than one kept. |
| HnswLinks.ConnectAll | crates/fundb-indexes/src/hnsw.rs:153-172 | The new node lists the nearest found; each of them lists it back or is full of nodes at least as near; every list keeps its bound and lists no node itself; a list cut back keeps the nearest, and no other list changes. |
| Hnsw.HnswIndex.Insert | crates/fundb-indexes/src/hnsw.rs:102-184 | For a new identifier: neighbours and entry point stored, layers nested, degrees bounded, no self-edges, counts right, the entry point raised only by a higher node; in every layer the node is joined to the nearest that a search of the construction width finds, starting where the descent ends and then from what was found above. |
| Hnsw.HnswIndex.Store | crates/fundb-indexes/src/hnsw.rs:114-126 | The live count stays right exactly when the identifier is new. |
| Hnsw.HnswIndex.Delete | crates/fundb-indexes/src/hnsw.rs:228-237 | Unknown identifiers are refused; a node is counted out once; the structure is untouched. |
| Hnsw.HnswIndex.Compact | crates/fundb-indexes/src/hnsw.rs:250-288 | Dead nodes and every reference to them go, the live ones stay, a live entry point stays, and the invariant holds with a new one otherwise. |
| Hnsw.HnswIndex.Search | crates/fundb-indexes/src/hnsw.rs:191-225 | At most k distinct live nodes in ascending distance, all reachable at layer 0 from the end of the greedy descent from the entry point; for every width no live neighbour of a result is nearer than the results without being one; with a search as wide as the index, exactly the k nearest of all reachable. |
| Hnsw.WidthIsLeast | crates/fundb-indexes/src/hnsw.rs:196-202 | The search width is the least number that serves the wanted recall. |
| Hnsw.LinkAll | crates/fundb-indexes/src/hnsw.rs:142-176 | Linking from the top layer down joins the node everywhere and keeps layers nested, also where the old entry point is pulled up. |
| Ring.OneNodeMoves | crates/fundb-cluster/src/sharding.rs:386-395 | Between rings that differ by one node every key stays or belongs to that node in the larger ring. |
| Ring.HistoryIndependent | crates/fundb-cluster/src/sharding.rs:198-309 | Two rings of the same nodes, however they came about, route every key to the same node. |
| Ring.SuccessorLeast | crates/fundb-cluster/src/sharding.rs:386-395 | The entry chosen has the least hash at or after the key's, or the least of all. |
| Sharding.ShardMap.ShardFor | crates/fundb-cluster/src/sharding.rs:126-142 | Shard 0 for no nodes; else the shard of the entry with the least hash at or after the key's, or the least of all, whose owner is registered and is the entry's node; the collection's shards gain it and keep the others. |
| Sharding.ShardMap.AddNode | crates/fundb-cluster/src/sharding.rs:198-223 | A known node changes nothing; else existing shards keep their owners, keys move only to the new node, and no migration is reported. |
| Sharding.ShardMap.RemoveNode | crates/fundb-cluster/src/sharding.rs:230-309 | Only the removed node's keys move; its shards, inherited ones too, go to the node whose ring entry has the least hash at or after the shard's own, or the least of all; other shards stay, and exactly these moves are reported, each once. |
| Sharding.GoneOffRing | crates/fundb-cluster/src/sharding.rs:261-285 | No shard the removed node owned is left on the ring, so the first lookup of a shard's ring entry never finds one. |
| Sharding.RecomputeOwnership | crates/fundb-cluster/src/sharding.rs:403-433 | Every ring entry's node owns its shard, other owners stay; nothing is reported unless an owner changes. |
| Sharding.ShardMap.ReplicationGroup | crates/fundb-cluster/src/sharding.rs:320-359 | None without owner; else the owner and the next distinct nodes round the ring, one member or as many as factor and cluster allow. |
| Sharding.FirstNewAsMet | crates/fundb-cluster/src/sharding.rs:334-350 | The followers stand in the order the walk meets them, and a node left out is met after all of them. |
| Sharding.FirstNewCount | crates/fundb-cluster/src/sharding.rs:334-350 | The walk finds as many new nodes as there are, up to the number wanted. |
| TopK.BestOfBest | crates/fundb-cluster/src/dist_query.rs:516-545 | The k best of every part's m best are the k best of everything, for m at least k. |
| DistQuery.VectorScanExact | crates/fundb-cluster/src/dist_query.rs:358-388 | For every partition the merged scores are those of the best k of the union, in order, exactly when the oversampling factor is at least 1 (or nothing is asked or stored). |
| DistQuery.VectorScanRecords | crates/fundb-cluster/src/dist_query.rs:358-388 | When no two different records score alike the merged scan returns the very records of the union's best k, in order, confidences capped. |
| DistQuery.MergeVectorScan | crates/fundb-cluster/src/dist_query.rs:516-545 | Records gathered in shard order, confidence capped, stably ranked, cut. |
| DistQuery.AggregateAnswers | crates/fundb-cluster/src/dist_query.rs:567-607 | For every partition the merged Count is the number of records, Sum the sum of their confidences, and Avg their mean: times the number it is the sum, it lies within any bounds they have, and it is 0 for no record. |
| DistQuery.SumLaws | crates/fundb-cluster/src/dist_query.rs:252-253 | Nothing adds 0, a record its confidence, and the sums of two lists add up. |
| DistQuery.AggregateAgrees | crates/fundb-cluster/src/dist_query.rs:567-607 | So they are those of one machine holding the union. |
| DistQuery.MinExact | crates/fundb-cluster/src/dist_query.rs:261-268 | The merged Min is the least confidence of the union exactly when no queried shard is empty, all are, or that confidence is not above 0. |
| DistQuery.MaxExact | crates/fundb-cluster/src/dist_query.rs:269-276 | The merged Max is the greatest confidence of the union exactly when no queried shard is empty, all are, or that confidence is not below 0. |
| DistQuery.RankedStable | crates/fundb-cluster/src/dist_query.rs:526-530 | Ranking is by falling score, keeps every record, and keeps the order of equal scores. |

## Left out

- Snapshots (`install_snapshot`, log compaction): lookups ignore the snapshot, so up-to-date checks and log matching lose their meaning.
- `replicate_and_commit`: acknowledgements of absent peers are simulated there; `RaftNodes.RaftNode.Propose` stops before it and does not return the known leader. Also left out: `force_become_leader`, `force_set_role`, timers, tracing, failing storage.
- Concurrency inside one node: each handler runs under the node's lock and is one step; `propose` is taken as one step although it locks twice.
- Acknowledgements carry the index their request covered; how a transport pairs them, and `next_index` as a choice of what to send, are left to the sender.
- RaftElection.ElectionSafety: leadership is modelled at the guard that calls `become_leader`; the vote count itself is not in the repository (only the self-vote is counted there).
- Rounding, overflow and NaN: all arithmetic is exact.
- The optimizer's cost model and histograms; Join, Aggregate and ContextOptimize are arbitrary functions of their inputs in `Soundness.OptimizeSound` and return nothing in the executor as it stands; Insert, GraphTraverse, CausalTrace, Understand and the causal plan nodes denote no rows.
- PassCounts.PassesSuffice: not the least number for plans that mix filters and limits above projections, where a projection may pass one of each in a pass.
- PredicateExactness.FoldExact: one direction only (`Folding.FoldKeepsPasses`) for predicates whose parts share a column or are constant.
- PredicateExactness.PushPredicateExact: the same; in general `ExecutorResults.KeptPasses` gives the one direction.
- Plan equality is structural, not equality of debug text.
- ScmBuild.New: of the variables on or below a cycle an arbitrary one is named in the error, as hash-map order decides.
- PC discovery, partial correlations, Granger p-values, NOTEARS and ensemble merging: approximations with no exact claim.
- Causal edges carry only what the searches read (ends, strength, stability); mechanism, origin and other metadata are dropped.
- CausalEngines.CausalEngine.EffectsOf: nothing is promised for negative strengths, which the edge type excludes.
- `CausalDagIndex::effects` and `causes`: their stack order can miss stronger longer ways under a tight depth bound; the breadth-first version of the engine is modelled.
- Visualisation, persistence, codecs, networking, authentication, metrics and the command line.
- Hnsw.HnswIndex.Insert: nothing is promised for an identifier already stored, which the program accepts: the count, the bound on its list and the absence of self-edges fail then.
- Hnsw.HnswIndex.Search: without a search as wide as the index nothing is claimed about recall. Product quantisation is left out.
- HnswSearch: binary heaps are sorted sequences; only push and pop in order matter.
- Elimination.GaussJordan: with a tiny pivot the column is skipped and the result is only the elimination's, no solution; rows are sequences held in a local variable rather than nested vectors.
- Sharding.ShardMap.RemoveNode: the first lookup of a removed node's shard on the ring finds nothing (`Sharding.GoneOffRing`), so only the second is modelled; the order of its reports is arbitrary.
- Distributed scans with a limit (shards cut before ranking), point lookups, `route_write`, timeouts and failed shards.
- DistQuery.VectorScanExact: speaks of scores; which of several equally scored records is returned depends on shard order, so `DistQuery.VectorScanRecords` asks for no ties.
