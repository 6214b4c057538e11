# Selti, modelled and proved

Selti is a versioned knowledge graph: granules of text joined by typed, weighted
edges, kept in Postgres, with Redis for queues and locks and numpy for ranking
and layout. This project models its hardest parts in Dafny and proves what they
are for. `dafny verify dfyconfig.toml` checks all of it.

SQL statements are steps over two maps, `memories` and `relations`, and a server
clock; the four statements of create_version are taken apart further, down to the
rows they read, wait for and read again under READ COMMITTED. Redis commands and
commits are the steps that workers interleave. numpy code is modelled over exact reals: `exp`, the
Euclidean length and the sine-and-cosine directions are function parameters with
only the facts the code rests on.

| files | what they hold |
|---|---|
| Schema, Queries, PgRepository | the tables, the statements, and the repository class that runs them |
| VersionChains, VersionRuns, Rewiring | version chains and history, what every statement keeps, what rewiring does to the live graph |
| GranuleStatements | decay, forget, retract and update, row by row |
| ConcurrentVersions, DeliveredVersions, OverlappingVersions, OverlapExample | concurrent create_version transactions, statement by statement: what every run keeps, what a call that wins has written, which edges they take over and which they strand, a run that strands one |
| EdgeLife, EdgeBatches, EdgeOrigins | lazy edge weights, reinforce, prune, restore, statements issued in batches, where edges without a layer come from |
| PageRank, MatrixEntries, Activation | personalised PageRank: contraction, mass, the matrix as built, selection, flows |
| GalacticGroups, GalacticBuckets, SpectralOrder, GalacticArms, ArmCuts, GalacticRelax, GalacticForces, GalacticRelaxLoops | the galaxy layout: union-find associations, bucketing, the component walk, the cut into arms, the force simulation |
| MapRelax | the spatial-hash relaxation of the map |
| RebuildLock, Migrations, LinkerQueue, LinkerWorkers | three protocols: a Redis lock with an expiry, an advisory lock, a retry queue with any number of workers and manual verdicts |
| Words, GraphFile | the binary graph file, byte by byte |
| BatchDedup, BatchIngest, SearchFusion | batch deduplication and ingest, rank fusion and MMR |
| RealFacts, RealSeqs, Vectors, Sorting, Options | arithmetic, vectors and sorts used above |

Main results: `ConcurrentVersions.EveryRun` (chains survive every interleaving),
`DeliveredVersions.WinnerDelivers` (what a call that wins has written),
`OverlappingVersions.MovedIff` (which edges a version takes over),
`VersionChains.HistoryIsChain`, `Rewiring.LiveGraphRenamed`,
`Activation.SpreadIsAccurate`, `GalacticGroups.AssignGroups`,
`SpectralOrder.OrderServesTheCut` with `GalacticArms.CutIntoArms`,
`MapRelax.Pass`, `GalacticRelax.CentroidKeptIff`, `RebuildLock.MutualExclusion`,
`Migrations.EveryRun`, `Migrations.RollBackKeepsPrefixIff`,
`LinkerWorkers.EveryRunBalanced`, `LinkerWorkers.PairStaysGoneIff`,
`GraphFile.WriteAndRead`, `BatchIngest.IngestBatch`, `SearchFusion.GreedyPrefix`.

## Where the code does not do what is said of it

In each case the model follows the code, and the lemma named says exactly when
the promise holds.

- Group relaxation is meant to have cancelling pushes. `force[start + near_rows] += ...` (memory_server/memory/galactic_layout.py:530) is a numpy indexed assignment, in which a repeated row keeps only its last value, so a member with two near neighbours receives one push and the centroid drifts. It is kept for all inputs exactly when the group has at most two members (`GalacticRelax.CentroidKeptIff`), and in any run in which nobody ever has two others within the cutoff (`GalacticRelax.SparseRunKeepsCentroid`).
- `ensure_ids` is described as a guarantee (memory_server/memory/activation.py:88-91); every missing id overwrites the same last slot, so that all are listed exactly when those outside the rest of the list are one node (`Activation.EnsuredIff`, `Activation.EnsuredLosesOne`). With `top_k` 0 the slice `[-0:]` lists every node (`Activation.Select`).
- `relax_min_distance` may stop while points still coincide: a substituted direction at least `min_dist` long gives push 0. Settings allow `min_dist` from 1.0 (memory_server/settings_store.py:597); it cannot happen exactly when every pair's direction is shorter than `min_dist`, as it is from 2.0 on (`MapRelax.QuietMeansApartIff`, `MapRelax.QuietMeansApart`); two points on one spot are parted exactly when theirs is (`MapRelax.StuckPair`, `MapRelax.OneSpotPartedIff`).
- REWIRE in the transaction is meant to rule out that a version exists whose edges have not moved (memory_server/memory/pg_repository.py:366-368). `conn.transaction()` is READ COMMITTED, and REWIRE does not see versions committed after it began: an edge put on the old granule meanwhile, or whose other end was versioned by an overlapping transaction, stays behind, live on a superseded granule. It is exactly these edges that do (`OverlappingVersions.LateEdgeStrandedIff`, `OverlappingVersions.OverlapStrands`, `OverlapExample.OverlapEndsStranded`).
- A pruned edge is not carried over by rewiring. Restored after one of its ends was versioned, it is live on a superseded granule (`Rewiring.RestoreStrands`, `Rewiring.RestoreAfterVersionStrands`).
- edge_prune selects candidates and prunes them in two statements without a transaction or a second check: an edge touched in between is pruned all the same (`EdgeLife.TouchedEdgeStillPruned`).
- `NOT immune` is NULL, not true, exactly for a linker edge without a layer: it decays but is never pruned (`EdgeLife.UnlayeredDecaysUnpruned`). The linker always writes a layer, so only a call of add_relation with such metadata makes one (`EdgeOrigins.UnlayeredOnlyByHand`).
- `_consume_l2_pair` ignores what LREM returns. If a worker popped the item after the LRANGE, the other candidates are pushed back although the worker has them too (`LinkerQueue.SiblingsKeptIff`). A pair taken out comes back exactly when a worker puts back an item with it or a manual verdict on another pair of the item does (`LinkerWorkers.PairStaysGoneIff`); two manual verdicts at once on one item undo each other (`LinkerWorkers.TwoVerdictsUndone`).
- An exception out of `_verdict_one` leaves run_l2_verdicts before the requeue loop: the item and all items waiting to go back are lost (`LinkerQueue.L2Queue.RunL2Verdicts`).
- A forced rebuild is meant to wait until it gets the lock (memory_server/memory/map_service.py:86); it gives up after 180 seconds, while the lock of a killed worker lives for 360 (`RebuildLock.ForcedGivesUpIff`, `RebuildLock.KilledRebuildCostsAForcedRun`).
- run_down takes no advisory lock and can make a worker under way skip a file (`Migrations.RollBackSkipsAFile`), exactly when such a worker lacks the file on its list and has another to apply, or a later one was applied already (`Migrations.RollBackKeepsPrefixIff`); the runs of `Migrations.EveryRun` are those of run_migrations.

## Model

| member | source | states |
|---|---|---|
| `PgRepository.RewireIsInherited` | memory_server/db/queries.py:189-229 | the two REWIRE statements, run one after the other on the already closed old row, move exactly the edges, and write exactly the columns, that the one-step reading of the inheritance rules says |
| `PgRepository.Repository.CreateVersion` | memory_server/memory/pg_repository.py:372-413 | the transaction has one of four outcomes, each stated on the tables it finds; on success the row read back under the new id has the content, hash, metadata, confidence and given importance of the call, the owner, namespace, project and cluster of the old one, one more version, and begins now; the tables are the old ones with this row, the old one closed and its edges inherited, on any failure nothing changes |
| `PgRepository.SuccessorTakesOver` | memory_server/db/queries.py:140-171 | the successor holds the content, hash, metadata, confidence and importance sent, its predecessor's owner, namespace, project and cluster, one more version, begins now and is not frozen; the predecessor is closed where it begins and otherwise unchanged, and so is everybody else |
| `VersionChains.Acyclic` | memory_server/db/queries.py:140-171 | with inverse links and growing versions no granule is its own ancestor at any distance |
| `VersionChains.OneSuccessor` | memory_server/db/queries.py:140-171 | no granule is replaced by two |
| `VersionChains.HistoryIsChain` | memory_server/db/queries.py:238-268 | a listing satisfies GET_HISTORY (both recursive CTEs, min(dist) per id, ORDER BY dist) if and only if it is the whole chain, oldest to newest |
| `VersionChains.HistoryFromAnyMember` | memory_server/memory/service.py:762-775 | any two members of a chain have the same history |
| `VersionChains.WindowsAbut` | memory_server/db/queries.py:140-149 | each version ends at the instant its successor begins, and before every later one begins |
| `VersionChains.OneValidVersion` | memory_server/db/queries.py:140-149 | at most one version of a chain is valid at any instant |
| `VersionRuns.InvKept` | memory_server/db/queries.py:140-171 | every statement on the two tables (inserts of granules, create_version alone, retract, forget, update with freeze and project, cluster refresh, confidence decay; INSERT_RELATION, SYNC_LINKS, INSERT_LINKER_RELATION and the insert of INSERT_COOCCURRENCE_LINKS row by row, its touch, RESOLVE_PENDING_TARGET_NAMES, deletes of relations, prune, restore, reinforce; the clock) keeps the links inverse, every non-tail and only non-tails superseded, the windows, the active-hash index, the foreign keys and the unique edge triple |
| `VersionRuns.InstalledKeeps` | memory_server/memory/pg_repository.py:372-413 | the invariants survive a successor's transaction whichever of the edges on the old granule it has moved |
| `VersionRuns.NoStatementRewrites` | memory_server/db/queries.py:120-136 | no statement loses a granule or rewrites its content, hash, owner, namespace, version, predecessor or beginning |
| `VersionRuns.LinkReaches` | memory_server/db/queries.py:517-526 | INSERT_RELATION writes a new link as given, refreshes the weight (and the labels if told) of one there already and nothing else, and changes nothing for a repeated pending name |
| `ConcurrentVersions.EveryRun` | memory_server/memory/pg_repository.py:372-413 | for every interleaving of any number of create_version calls, each a check and then a READ COMMITTED transaction of INSERT, SUPERSEDE and two REWIREs that read, wait for and re-read rows one by one, with aborts anywhere and every other statement in between: the invariants hold in every committed state and every successful call's granule is still superseded by that call's version |
| `ConcurrentVersions.OneWinner` | memory_server/memory/pg_repository.py:394-399 | of all calls ever checked for one granule at most one succeeds |
| `ConcurrentVersions.StaleCallFails` | memory_server/memory/pg_repository.py:394-399 | a call whose granule was closed by somebody else after its check never succeeds, at whatever statement it then was |
| `ConcurrentVersions.SuccessorIsFinal` | memory_server/db/queries.py:140-149 | once superseded, a granule is superseded by the same version for ever |
| `DeliveredVersions.WinnerDelivers` | memory_server/memory/service.py:711-760 | in every run that begins without the call: if it has won, it was checked before with some text, and from then on in every state its granule is superseded by its version, which has that text and hash and the granule's owner |
| `DeliveredVersions.CommittedAsAsked` | memory_server/memory/service.py:711-745 | at the commit of a checked call, whatever came between: the row read back has the content, hash and given importance of the check, the metadata it read merged with what was sent, the confidence it read times the factor, cut to [0,1], and its predecessor's owner and next version |
| `OverlappingVersions.MovedIff` | memory_server/db/queries.py:189-229 | in every run, at the commit of a call: of the unpruned edges on its old granule whose other end is current or only a name, it has taken over exactly those that, when its REWIRE began, were there unpruned with an end to inherit and whose present other end then existed (unless restored meanwhile) |
| `OverlappingVersions.LateEdgeStrandedIff` | memory_server/db/queries.py:189-229 | a commit leaves a live edge of its old granule on the outdated version if and only if the edge, or the version now at its other end, came after REWIRE began |
| `OverlappingVersions.EveryRunStrandsNothingIff` | memory_server/db/queries.py:174-229 | in every run in which edges are made, resolved and restored between current granules: no state has a live edge on an outdated version of two current chains if and only if no commit leaves one behind |
| `OverlappingVersions.OverlapStrands` | memory_server/db/queries.py:189-229 | from any state in which one call has moved an edge and is about to commit while another waits for that edge to move its other end: the second passes the edge over and its commit strands it |
| `OverlapExample.OverlapEndsStranded` | memory_server/memory/pg_repository.py:372-413 | a run, statement by statement, of two overlapping calls on the two ends of one edge: both succeed, and the edge that was well placed is stranded |
| `OverlappingVersions.UndisturbedIsVersioned` | memory_server/memory/pg_repository.py:372-413 | a transaction during which nothing else is committed leaves exactly what Versioned says in one step |
| `Rewiring.LiveGraphRenamed` | memory_server/db/queries.py:189-229 | the live graph after create_version is the live graph before with old renamed to new, ids, types and weights kept, self-loops on old excepted |
| `Rewiring.NothingLost` | memory_server/db/queries.py:189-229 | no relation disappears, and only the ends and the provenance of one may change |
| `Rewiring.LeftBehind` | memory_server/db/queries.py:174-229 | an edge stays as it is if and only if it is pruned, a version link, a self-loop, not on old, or on old with a dead granule at its other end; so an edge whose target is only a name always follows its source |
| `Rewiring.HeadAfter` | memory_server/db/queries.py:140-171 | the chain that ended in old ends in new, every other head stays |
| `Rewiring.InstallStrandsIff` | memory_server/db/queries.py:174-229 | a successor that takes over some of its predecessor's edges strands one if and only if a live edge to another granule is not among them |
| `Rewiring.NoneStrandedKept` | memory_server/db/queries.py:174-229 | every single statement that places edges well, and a create_version nobody overlaps, strands none |
| `Rewiring.RestoreStrands` | memory_server/db/queries.py:678-687 | restoring a pruned edge strands it if and only if it is no version link, joins two different granules whose chains' heads are both current, and one of the two is superseded |
| `Rewiring.RestoreAfterVersionStrands` | memory_server/db/queries.py:678-687 | prune, then version an end, then restore: the edge is live on the superseded version although both chains are current |
| `EdgeLife.StrengthenedBounds` | memory_server/db/queries.py:633-634 | a touch keeps a weight in [0,1], never lowers it, and lifts it at least to alpha |
| `EdgeLife.TouchNeverWeakens` | memory_server/db/queries.py:605-641 | a reinforced edge's lazy effective weight is at no later instant lower than without the touch |
| `EdgeLife.WeightAfterTouches` | memory_server/db/queries.py:605-641 | after k touches the effective weight is at every later instant at least (1 - (1-w)(1-alpha)^k) faded since the last touch at the rate of k more uses, and exactly that unless the edge is immune |
| `EdgeLife.PruneIsSparing` | memory_server/db/queries.py:575-674 | a live prune writes pruned_at and nothing else, on exactly the live resolved edges that are old enough, made by the linker in a known layer other than L2, not inherited, between unfrozen granules of no two clusters, and faded to the floor at the larger of lambda/(1+uses) and lambda_min since their last use or creation |
| `EdgeLife.EffectiveIs` | memory_server/db/queries.py:575-612 | manual, judged, inherited and frozen-incident edges keep their weight; every other one is at the floor exactly when it has faded to it since its last use |
| `EdgeLife.UnlayeredDecaysUnpruned` | memory_server/db/queries.py:582-612 | immunity is NULL exactly for a linker edge without a layer, not inherited and between unfrozen granules; an old, live, non-bridge edge faded to the floor is a prune candidate if and only if it is neither immune nor such an edge, which fades all the same |
| `EdgeOrigins.UnlayeredOnlyByHand` | memory_server/db/queries.py:517-526 | no run of any statements makes a linker edge without a layer unless add_relation is given the linker's source and no layer |
| `EdgeLife.PruneIsIdempotent` | memory_server/memory/service.py:1585-1617 | a second campaign at the same instant has no candidates |
| `EdgeLife.CandidatesPersist` | memory_server/db/queries.py:647-661 | left alone a candidate stays a candidate at every later instant |
| `EdgeLife.TouchedEdgeStillPruned` | memory_server/memory/service.py:1597-1614 | an edge touched between the campaign's two statements is pruned all the same, and is no candidate any more exactly when its new weight is above the floor |
| `EdgeLife.RestoredPrunable` | memory_server/db/queries.py:678-687 | a just restored edge is a candidate at that instant if and only if it is eligible and its strengthened weight is at most the floor |
| `EdgeLife.RestoredSurvives` | memory_server/memory/service.py:1619-1625 | with beta 0.5 and a floor below 0.5 a restored edge survives the instant; with floor 0.5 every positive weight does |
| `EdgeLife.PruneThenRestore` | memory_server/db/queries.py:668-687 | pruning some edges and restoring one of them is pruning the others and touching that one; restoring it again changes nothing |
| `EdgeBatches.CanonicalEdgePairs` | memory_server/memory/service.py:122-134 | the result is strictly ascending, and holds (a, b) exactly when a < b and the input has the pair in either direction |
| `EdgeBatches.TouchedOnce` | memory_server/memory/pg_repository.py:676-691 | no edge is touched by two disjoint batches of canonical pairs |
| `EdgeBatches.ReinforceInTwo` | memory_server/memory/pg_repository.py:676-691 | two batches of canonical pairs touch what one batch of both would, each edge once |
| `EdgeBatches.ReinforcedIff` | memory_server/db/queries.py:622-641 | reinforcing touches exactly the live edges whose two ends some pair names in either order: one use more, used now, and 1 - alpha of what the weight lacked to 1 still lacking; it leaves every other edge as it is |
| `PgRepository.Repository.ReinforcePairs` | memory_server/memory/pg_repository.py:676-691 | whatever the batch size, the tables end as after one statement over all pairs, and the count is the number of edges touched |
| `PgRepository.Repository.PruneEdgesApply` | memory_server/memory/pg_repository.py:707-717 | whatever the batch size, the tables end as after one statement over all ids, and the count is the number of edges newly pruned |
| `GranuleStatements.DecaySettles` | memory_server/db/queries.py:380-402 | after n days an asserted, unfrozen granule above the floor has its confidence times its namespace's rate to the n-th, but at least the floor; every other granule, and every other column, is as it was |
| `GranuleStatements.ForgetReaches` | memory_server/db/queries.py:292-303 | forgetting closes exactly the asserted granules of the user in its namespace and project, leaves nothing current there, deletes nothing, and changes nothing when repeated |
| `PageRank.StepContracts` | memory_server/memory/activation.py:100-101 | one iteration brings any two vectors closer, in L1, by the damping factor |
| `PageRank.ErrorBound` | memory_server/memory/activation.py:97-102 | for any fixed point of r = d*M*r + (1-d)*e the L1 distance after n iterations is at most 2*d^n |
| `PageRank.IteratesSettle` | memory_server/memory/activation.py:97-102 | every later iterate is within 2*d^n of the n-th, without assuming a fixed point |
| `PageRank.FixedPointUnique` | memory_server/memory/activation.py:97-102 | there is at most one fixed point |
| `PageRank.RankMass` | memory_server/memory/activation.py:97-102 | at every iteration ranks are non-negative with total at most one |
| `PageRank.RankMassExact` | memory_server/memory/activation.py:97-102 | with no dangling node and seed mass one the total is exactly one at every iteration |
| `MatrixEntries.SameMatrix` | memory_server/memory/activation.py:55-64 | arc lists with equal entries are the same operator with the same column sums: collapsing duplicates leaves M*r unchanged |
| `MatrixEntries.KeyInjective` | memory_server/memory/activation.py:55-61 | row*n+col tells arcs apart and decodes back |
| `Activation.BuildIndex` | memory_server/memory/activation.py:32-38 | every endpoint of an edge gets one number and nothing else does; the numbering is a bijection |
| `Activation.Collapse` | memory_server/memory/activation.py:55-61 | the collapsed arcs are at distinct places and have the entries of the raw ones |
| `Activation.MatrixBuilt` | memory_server/memory/activation.py:40-72 | the matrix built is the promised one: Between(s,t)/OutWeight(s) over positive edges, columns of sum one or zero |
| `Activation.MatrixIsSubstochastic` | memory_server/memory/activation.py:43-49 | whatever the edges, no column exceeds one and no entry is negative |
| `Activation.SeedMass` | memory_server/memory/activation.py:94-98 | the seed vector is non-negative of mass at most one, and of mass one if and only if the seeds are distinct |
| `Activation.EnsureNodes` | memory_server/memory/activation.py:107-110 | the loop leaves all but the last slot, and in that the last ensured node that is known and outside the others, if there is one |
| `Activation.EnsuredIff` | memory_server/memory/activation.py:88-110 | all known ensured nodes are in the answer if and only if those outside all but the last slot of the list are one node; the last known one always is |
| `Activation.EnsuredLosesOne` | memory_server/memory/activation.py:107-110 | two ensured nodes outside a list of one: only the second is in the answer |
| `Activation.Select` | memory_server/memory/activation.py:103-112 | the answer is, in descending order of rank, the top k with its last slot given to the ensured nodes |
| `Activation.AnswerHolds` | memory_server/memory/activation.py:79-112 | such an answer has the asked length and no repeats; a listed node outranked by an unlisted one is an ensured node; the last ensured node that is known is listed |
| `Activation.ActivationSpreader.Create` | memory_server/memory/activation.py:26-73 | fails exactly for a damping outside (0,1); otherwise the spreader holds the promised matrix of the edges |
| `Activation.ActivationSpreader.Spread` | memory_server/memory/activation.py:79-112 | answers nothing and keeps the rank if and only if no seed is in the graph; otherwise the rank stored is the n-th iterate, stated node by node from the edges, of the vector with 1/K at each of the K nodes a seed names and 0 elsewhere, and the answer is a selection of it |
| `Activation.ActivationSpreader.EdgeFlows` | memory_server/memory/activation.py:114-135 | none before a spread; then x -> y is listed, once, if and only if both are among the nodes asked for and a positive edge goes from x to y, with x's rank times the share of its out-weight that goes to y |
| `Activation.FlowsCarryRank` | memory_server/memory/activation.py:114-135 | over all nodes the flows out of a node that is not dangling sum to its rank, and a dangling one passes nothing on |
| `Activation.FlowsAreThose` | memory_server/memory/activation.py:114-135 | for any set of nodes the flows read off the matrix are those the edges define |
| `Activation.SeededIsStart` | memory_server/memory/activation.py:94-98 | for any seed list the start vector is 1/K at the nodes named by a seed, however often, and 0 elsewhere |
| `Activation.IterateIsIteration` | memory_server/memory/activation.py:99-102 | the n-th iterate, stated over the edges: each node gets (1-d) of its start and d of what its positive edges bring it |
| `Activation.SpreadIsAccurate` | memory_server/memory/activation.py:94-102 | what spread stores, for the matrix of any edges and any known seeds, is non-negative, of total at most one (exactly one under the two conditions) and within 2*d^n of any fixed point |
| `GalacticGroups.UnionFind.Find` | memory_server/memory/galactic_layout.py:235-239 | path halving terminates, returns the root, and leaves every node's root unchanged |
| `GalacticGroups.UnionFind.Union` | memory_server/memory/galactic_layout.py:241-243 | exactly the two classes are merged, under the second root |
| `GalacticGroups.Roots` | memory_server/memory/galactic_layout.py:233-246 | after the edges two free nodes have one root if and only if a path of free-free edges joins them |
| `GalacticGroups.AssignGroups` | memory_server/memory/galactic_layout.py:217-254 | a clustered node has its cluster's group; two free nodes share an association if and only if a free-free path joins them; a free node stays -1 if and only if it has no edge to another free node; an association is named by its least node id; keys ascend, clusters first |
| `GalacticBuckets.GroupMembers` | memory_server/memory/galactic_layout.py:392-402 | one stable sort and two searches give, for every group, what the mask group_of == g would |
| `GalacticBuckets.LocalIndices` | memory_server/memory/galactic_layout.py:421-429 | a node's local index is its place among the members of its group |
| `GalacticBuckets.GroupEdgeIndices` | memory_server/memory/galactic_layout.py:405-444 | a group's springs are, in edge order, the edges with both ends in it, their ends numbered among its members |
| `GalacticBuckets.ListingIsUnique` | memory_server/memory/galactic_layout.py:392-402 | a set has one ascending listing, so the slice and the mask agree as arrays |
| `SpectralOrder.Component` | memory_server/memory/galactic_layout.py:302-314 | the walk from a vertex collects exactly what links reach from it, marks exactly that, and leaves the marks closed under links |
| `SpectralOrder.Components` | memory_server/memory/galactic_layout.py:299-315 | the vertices of positive degree fall into maximal connected sets, each listed once |
| `SpectralOrder.SpectralOrder` | memory_server/memory/galactic_layout.py:291-319 | the order is those components one after another, larger first and smaller first vertex among equals, each rearranged |
| `SpectralOrder.OrderServesTheCut` | memory_server/memory/galactic_layout.py:345-352 | that order holds every vertex with a link once and nothing else, which is what the cut needs |
| `GalacticArms.PrefixIsCrossing` | memory_server/memory/galactic_layout.py:350-354 | the prefix sums of the difference array are the weights crossing each position |
| `GalacticArms.CutProfile` | memory_server/memory/galactic_layout.py:352-354 | every entry of the computed profile is the weight of the links crossing that position |
| `GalacticArms.ChooseCut` | memory_server/memory/galactic_layout.py:367-377 | the cheapest window position at least min_gap from the cuts before it, the leftmost of equals; the fallback if and only if the window offers none |
| `GalacticArms.CutIntoArms` | memory_server/memory/galactic_layout.py:322-384 | three such cuts, sorted, bound four segments; every vertex of the order has its segment's arm and its evenly spread slot, every other vertex -1 and 0; four or fewer vertices get an arm each |
| `GalacticArms.ArmsPartition` | memory_server/memory/galactic_layout.py:378-384 | along the order arm numbers never fall, and inside an arm slots never do; slots are in [0,1] |
| `GalacticArms.WindowNearTarget` | memory_server/memory/galactic_layout.py:368-371 | any position of a regular window has its cumulative mass within 5% of a quarter of the target |
| `ArmCuts.WindowIff` | memory_server/memory/galactic_layout.py:365-372 | where some place is near the target, a cut may fall exactly where the mass is within a twentieth of a quarter of it |
| `ArmCuts.CutIsCheapest` | memory_server/memory/galactic_layout.py:360-376 | the k-th cut has no higher cost than any other place it may fall that is an eighth of the vertices clear of the earlier cuts: crossing weight against distance from k quarters of the mass, a quarter counting as four times the heaviest crossing |
| `ArmCuts.CutWithoutChoice` | memory_server/memory/galactic_layout.py:372-377 | where no such place is clear, it falls on the first vertex up to which the mass reaches k quarters, the last vertex excepted |
| `ArmCuts.SlotsAreEven` | memory_server/memory/galactic_layout.py:379-382 | along an arm of several vertices the slots run from 0 to 1 in equal steps, a vertex alone has 0.5 |
| `GalacticArms.ArmsBalance` | memory_server/memory/galactic_layout.py:322-384 | for the profile, cuts and arms computed from adjacency, order and masses: when no cut fell outside its window, what the vertices of each arm weigh is within a tenth of a quarter of the total |
| `GalacticRelax.NetForce` | memory_server/memory/galactic_layout.py:517-538 | springs and anchors add up to the pull back to the starting centroid; the rest of the net force is the sum of the kicks |
| `GalacticRelax.StepKeepsCentroid` | memory_server/memory/galactic_layout.py:517-541 | from a balanced state one iteration keeps the centroid if and only if the kicks cancel |
| `GalacticRelax.PushesCancel` | memory_server/memory/galactic_layout.py:521-532 | were every near pair's push added, they would cancel |
| `GalacticRelax.SparseRunKeepsCentroid` | memory_server/memory/galactic_layout.py:517-543 | a run in which no member ever has two others within the cutoff keeps the centroid, for any springs and budget |
| `GalacticRelax.CentroidKeptIff` | memory_server/memory/galactic_layout.py:530-532 | the centroid is kept for every placement, springs and budget of a group of size m if and only if m <= 2: the indexed += keeps only the last push of a row |
| `GalacticForces.ForceOn` | memory_server/memory/galactic_layout.py:517-538 | the force on a member is K_PLACE of the way to its place, its kick, and the pull of every spring at it, none lost |
| `GalacticForces.SpringDraws` | memory_server/memory/galactic_layout.py:534-538 | a spring draws its first end straight towards its second, by K_EDGE * w when they are 1 or more apart |
| `GalacticForces.RepulsionParts` | memory_server/memory/galactic_layout.py:521-532 | a push points straight away from the other, by 400/d^2 when they are 1 or more apart |
| `GalacticForces.AnchorDrawsBack` | memory_server/memory/galactic_layout.py:517-541 | a member at rest that no spring and no neighbour touches goes dt^2 * K_PLACE of the way back to its place |
| `GalacticForces.PairGapAfter` | memory_server/memory/galactic_layout.py:517-541 | two members at rest at their places, 1 or more apart and joined by a spring: one iteration changes their gap by exactly 2 dt^2 (400/d^2 below the cutoff, less K_EDGE * w), unless they would pass each other |
| `GalacticForces.SpringBringsCloser` | memory_server/memory/galactic_layout.py:534-541 | beyond the cutoff they come closer by exactly 2 dt^2 * K_EDGE * w while that is at most the gap |
| `GalacticForces.RunEndsAt` | memory_server/memory/galactic_layout.py:513-543 | the loop ends after the first step that leaves every coordinate slower than 0.001, or with the budget, and answers that step's places |
| `GalacticRelaxLoops.ForceInBlocks` | memory_server/memory/galactic_layout.py:518-538 | the force is the same for every row_chunk |
| `GalacticRelaxLoops.RelaxGroup` | memory_server/memory/galactic_layout.py:510-543 | the relaxed places are the same for every row_chunk, and are those of the unblocked iteration with its early exit |
| `GalacticRelaxLoops.BudgetFits` | memory_server/memory/galactic_layout.py:511-515 | a group of more than 2048 gets the most iterations that keep iterations * members within those of 2048 members, but at least 8 |
| `GalacticBuckets.RelaxByGroup` | memory_server/memory/galactic_layout.py:484-545 | from group numbers and edges: every group of two or more ends where its own members, springs and places put it, whatever the other groups do, and nodes of smaller groups and of none stay |
| `GalacticBuckets.SmallGroupKeepsCentroid` | memory_server/memory/galactic_layout.py:484-545 | a group of at most two members keeps its centroid, whatever its edges and the budget |
| `MapRelax.FloorsAdjacent` | memory_server/memory/map_layout.py:308-316 | coordinates less than a cell apart have cells that differ by at most one |
| `MapRelax.NearIsAdjacent` | memory_server/memory/map_layout.py:299-301 | a pair closer than min_dist lies in adjacent cells |
| `MapRelax.VisitRow` | memory_server/memory/map_layout.py:313-335 | the 27 cells give a point each later point closer than min_dist exactly once |
| `MapRelax.Pass` | memory_server/memory/map_layout.py:306-337 | one hashed pass moves every point as comparing all pairs would, and stops exactly when all pairs would not push |
| `MapRelax.RelaxMinDistance` | memory_server/memory/map_layout.py:291-340 | the result is that of the all-pairs relaxation with the same budget |
| `MapRelax.CentroidKept` | memory_server/memory/map_layout.py:332-339 | the sum of the coordinates never changes |
| `MapRelax.QuietIff` | memory_server/memory/map_layout.py:321-338 | a pass pushes nothing if and only if every pair too close coincides and its substituted direction is at least as long as min_dist |
| `MapRelax.QuietMeansApartIff` | memory_server/memory/map_layout.py:321-338 | for n points stopping early means that all are far enough apart if and only if the direction computed from the numbers of every pair is shorter than min_dist |
| `MapRelax.QuietMeansApart` | memory_server/memory/map_layout.py:323-338 | for min_dist of two or more the early exit happens if and only if all pairs are far enough apart |
| `MapRelax.EarlyExit` | memory_server/memory/map_layout.py:336-338 | once nothing is pushed a larger budget changes nothing |
| `MapRelax.StuckPair` | memory_server/memory/map_layout.py:323-332 | two points on one spot whose substituted direction is at least min_dist long are never parted |
| `MapRelax.PairParted` | memory_server/memory/map_layout.py:332-339 | two points alone, too close but not coincident, end one pass exactly min_dist apart |
| `MapRelax.OneSpotPartedIff` | memory_server/memory/map_layout.py:323-339 | two points on one spot are parted if and only if the direction made for them is shorter than min_dist (and not null): then for good and along it, and the first pass leaves them min_dist less its length apart |
| `MapRelax.SecondPassSettles` | memory_server/memory/map_layout.py:318-339 | a second pass brings them to exactly min_dist |
| `MapRelax.ShovePushesApart` | memory_server/memory/map_layout.py:318-335 | in any group a point gets, from each other one too close, half of what is missing, straight away from it, or along the direction made for the pair if they coincide; the two halves are opposite |
| `RebuildLock.GoodKept` | memory_server/memory/map_service.py:425-442 | every step of every worker keeps: at most one inside, holding the key it set, which outlives its job |
| `RebuildLock.MutualExclusion` | memory_server/memory/map_service.py:81-86 | in every run of any number of hourly and forced workers, with crashes, at most one is inside the rebuild |
| `RebuildLock.DeletesItsOwn` | memory_server/memory/map_service.py:439-442 | every delete on leaving removes the lock the leaver set, still unexpired |
| `RebuildLock.LeavingLetsTheNextIn` | memory_server/memory/map_service.py:428-442 | after the holder leaves nobody is inside and whoever asks next, hourly or forced, gets in |
| `RebuildLock.OthersStayOut` | memory_server/memory/map_service.py:428-438 | while somebody is inside an hourly worker leaves at once, a forced one queues, and neither touches the key |
| `RebuildLock.LockFreesItself` | memory_server/memory/map_service.py:82-85 | 360 seconds after any moment its lock is gone or another SET has made a new one |
| `RebuildLock.ForcedGivesUpIff` | memory_server/memory/map_service.py:428-438 | however a forced worker is scheduled, at each poll it gets in if and only if the key is free, and gives up if and only if it finds, past its deadline, a key that outlives it; the deadline is at least 180 seconds after its job began |
| `RebuildLock.LoneForceIff` | memory_server/memory/map_service.py:428-438 | polling every 5 seconds alone before a key nobody will delete, it gets in when the key expires within the 180 seconds and otherwise leaves at the 36th poll |
| `RebuildLock.KilledRebuildCostsAForcedRun` | memory_server/memory/map_service.py:425-438 | a rebuild killed in its first 180 seconds makes the next forced run give up though nobody is rebuilding |
| `Migrations.EveryRun` | migrations/run.py:87-123 | for every interleaving of workers over one directory, with failing files and dropped connections: no file is committed twice, and what is applied stays a prefix of the sorted list if it was one |
| `Migrations.OneApplier` | migrations/run.py:109-121 | at most one worker applies at a time, and the insert into _migrations never meets its own file |
| `Migrations.ReturnMeansDone` | migrations/run.py:93-121 | a worker that returns without an error leaves every file of the directory applied |
| `Migrations.RollBackKeepsPrefixIff` | migrations/run.py:87-144 | from any state in which every worker going up knows what is pending: after a rollback every run of the others keeps the prefix if and only if nothing later was applied and each of them has the file on its list or nothing unapplied |
| `Migrations.UpInformedKept` | migrations/run.py:87-123 | every step but a rollback keeps that state, reading the last file included |
| `Migrations.CommitKeepsPrefixIff` | migrations/run.py:57-67 | a commit keeps the prefix if and only if every file before it is applied |
| `Migrations.RollBackSkipsAFile` | migrations/run.py:128-144 | run_down takes no lock: a rollback while another worker holds it with its list goes through, and the run ends with the last file applied and the middle one not |
| `LinkerQueue.Accounted` | memory_server/memory/linker.py:629-669 | what is popped is processed, returned or dropped, each item once |
| `LinkerQueue.L2Queue.RunL2Verdicts` | memory_server/memory/linker.py:615-672 | a batch takes the oldest items, fewer when an RPOP fails, reports popped = processed + requeued + dropped and puts the failed ones with tries left back as the newest, one try older; if judging raises, everything popped is gone, items waiting to go back included, and if an LPUSH raises, those not yet put back |
| `LinkerWorkers.EveryRunBalanced` | memory_server/memory/linker.py:629-669 | for every interleaving of pushes, any number of workers and manual verdicts, with failing commands and deaths: new and stripped pushes = queued + in hand and waiting to go back + processed + dropped + lost + taken out, item by item |
| `LinkerWorkers.AttemptsBounded` | memory_server/memory/linker.py:643-654 | in every such run no item is in a worker's hands for more than its linker_l2_max_attempts-th try, and every queued one is new or below it |
| `LinkerWorkers.SoloBatch` | memory_server/memory/linker.py:615-672 | a worker nobody disturbs reaches, step by step, the queue the batch is specified to leave |
| `LinkerQueue.FailingBatch` | memory_server/memory/linker.py:643-666 | a batch with an LLM that never answers lowers the total of tries left by exactly the number popped |
| `LinkerQueue.QueueDrains` | memory_server/memory/linker.py:629-666 | with such an LLM and no pushes the queue is empty after at most that many runs |
| `LinkerQueue.L2Queue.ConsumePair` | memory_server/memory/linker.py:945-983 | undisturbed: the items without the pair keep their order; those that held it follow on the right in order, stripped of it, the emptied ones gone; the count is of the items that held it |
| `LinkerQueue.PairGone` | memory_server/memory/linker.py:945-983 | of that queue the pair's verdicts are wanted no more, in either direction, and every other wanted verdict keeps its multiplicity |
| `LinkerWorkers.SoloConsume` | memory_server/memory/linker.py:945-983 | a manual verdict nobody disturbs reaches that queue step by step |
| `LinkerWorkers.PairStaysGoneIff` | memory_server/memory/linker.py:629-669 | once no queued item has the pair, it stays away in every run in which it is not pushed anew if and only if no worker holds an item with it that it may put back and no manual verdict on another pair has one still to put back |
| `LinkerWorkers.TwoVerdictsUndone` | memory_server/memory/linker.py:953-977 | two manual verdicts at once on two pairs of one item leave both pairs queued |
| `LinkerQueue.SiblingsKeptIff` | memory_server/memory/linker.py:972-977 | what is pushed back after LREM leaves the item's other wants as they were if and only if the item was still queued, or had none: LREM's answer is not looked at |
| `LinkerQueue.SharedVerdictIff` | memory_server/memory/linker.py:95-106 | two lookups share a cache entry if and only if they are of the same two granules with the same hashes, in either order, a missing and an empty hash counting as one |
| `Words.ReadsWritten` | memory_server/memory/map_layout.py:120-120 | 64-bit words written little-endian are read back, from any word on |
| `Words.WritesRead` | memory_server/memory/map_drl_worker.py:65-81 | bytes read as words are the bytes those words are written as |
| `Words.ByteAt` | memory_server/memory/map_layout.py:120-120 | byte i of a word is its digit of weight 256^i |
| `GraphFile.GraphFileWriter.WriteEdges` | memory_server/memory/map_layout.py:115-121 | appends the batch, or fails and changes nothing once weights have begun |
| `GraphFile.GraphFileWriter.WriteWeights` | memory_server/memory/map_layout.py:123-131 | appends the batch and ends the edge phase, or fails and changes nothing once a seed was written |
| `GraphFile.GraphFileWriter.WriteSeed` | memory_server/memory/map_layout.py:133-140 | appends the rows unless the file is finished; a second seed is taken too |
| `GraphFile.GraphFileWriter.Finish` | memory_server/memory/map_layout.py:142-155 | fails exactly for a finished file or a weight count other than 0 and the edge count; otherwise the file is the sections and the trailer |
| `GraphFile.ReadGraph` | memory_server/memory/map_drl_worker.py:52-81 | accepts exactly the files of a graph, whose node count may be negative when there is no seed, and returns that graph |
| `GraphFile.OneGraphPerFile` | memory_server/memory/map_drl_worker.py:65-81 | a file is the file of at most one graph |
| `GraphFile.FinishedIsFileIff` | memory_server/memory/map_layout.py:133-155 | a finished file is the file of the graph written if and only if its seed is empty or has a row for every node; otherwise it is the file of no graph |
| `GraphFile.WriteAndRead` | memory_server/memory/map_layout.py:89-155 | for every split of edges and weights into batches the reader returns the concatenated edges, weights, seed and node count, or fails, by counts alone |
| `GraphFile.Layout` | memory_server/memory/map_layout.py:115-155 | the file of a graph, byte by byte: the edges, source before target, then the weights, then the seed rows, then node count, edge count and the two flags |
| `GraphFile.ReadCoords` | memory_server/memory/map_layout.py:202-212 | accepts exactly three whole numbers for every node, and returns the rows written |
| `BatchDedup.DedupEngine.CheckBatch` | memory_server/memory/dedup.py:144-280 | every entry is decided, as its own key, the rows, the entries before it and its own search say, and is counted once in its namespace |
| `BatchDedup.OneInsertPerKey` | memory_server/memory/dedup.py:196-214 | at most one insert for each (namespace, hash), and none for a pair already active |
| `BatchDedup.DecidedIff` | memory_server/memory/dedup.py:164-280 | an exact duplicate of a row or of an earlier entry is an update in user_facts and a skip elsewhere; of the others exactly those are skipped whose search has a first hit that reaches the threshold and names no other entity; the rest, failed searches included, is inserted |
| `BatchDedup.DedupEngine.ExactPhase` | memory_server/memory/dedup.py:164-194 | grouping by namespace and one look-up decide exactly the entries whose pair is active |
| `BatchDedup.DedupEngine.RepeatPhase` | memory_server/memory/dedup.py:196-214 | of the others exactly those with an earlier entry of the same pair |
| `BatchIngest.SplitValidEntries` | memory_server/tasks/memory_tasks.py:597-614 | the valid entries in order, and the indices of exactly the malformed ones |
| `BatchIngest.ValidIff` | memory_server/tasks/memory_tasks.py:597-614 | an entry is valid if and only if it is a text, or an object whose content is one, with something other than white space in it |
| `BatchIngest.NewRowsDistinct` | memory_server/tasks/memory_tasks.py:674-684 | rows to insert share no (namespace, hash) among themselves or with the rows seen by the check |
| `BatchIngest.InsertTakenIff` | memory_server/tasks/memory_tasks.py:740-752 | the unique index takes the batch insert if and only if nothing committed since the check has one of its keys |
| `BatchIngest.IngestBatch` | memory_server/tasks/memory_tasks.py:633-777 | one answer for each entry: malformed first, then duplicates with the row they duplicate, then inserts with their ids; the summary counts the answers by outcome, insert + skip + update + invalid is the number of entries, and the rows satisfy the index |
| `SearchFusion.RrfFuse` | memory_server/memory/search_fusion.py:49-61 | exactly the documents ranked somewhere, each with the positive sum of 1/(k+rank) over all its places |
| `SearchFusion.MmrRerank` | memory_server/memory/search_fusion.py:64-113 | min(top_k, n) ids, each the best of what was left by value and then by id; empty exactly when top_k or the largest relevance is not positive |
| `SearchFusion.ChosenTradesBest` | memory_server/memory/search_fusion.py:101-113 | against every candidate it was preferred to, each id has the higher lambda * relevance / largest relevance - (1 - lambda) * p, p being its largest similarity to the ids before it, or the same and the smaller id |
| `SearchFusion.PenaltyIsLargest` | memory_server/memory/search_fusion.py:107-107 | the penalty is 0 before anything is selected, else the largest similarity to anything selected |
| `SearchFusion.GreedyDistinct` | memory_server/memory/search_fusion.py:99-113 | no id twice, all of them candidates |
| `SearchFusion.GreedyPrefix` | memory_server/memory/search_fusion.py:99-113 | the selection for a smaller top_k is a prefix of that for a larger one |
| `SearchFusion.PagesDisjoint` | memory_server/memory/service.py:578-582 | over one candidate set a page is a slice of one full order, and pages that do not overlap in position share no id |
| `SearchFusion.PureRelevanceSorts` | memory_server/memory/search_fusion.py:80-113 | with lambda 1 the selection is sorted by relevance, highest first, then by id |

## Left out

- Hard delete and garbage collection of granules: what they leave of a chain depends on foreign-key actions of migrations that are not modelled.
- Legacy `update(..., supersedes=...)`: it has no check of its target and can make a cycle.
- Statements other than those of create_version: each takes effect at one instant, at which no open transaction holds a row it writes or a key it would conflict with; one of several rows is the run of its rows. A deadlock is an abort.
- Triggers, full-text search, Qdrant payloads, metrics, logging, REST and MCP layers, configuration, project registration and context rendering.
- Floating-point rounding, overflow and the rounding of scores to six digits: all arithmetic is over exact reals.
- Activation.ActivationSpreader.Spread: seeds and ensured ids are as given and `top_k` is not negative; the order among equal ranks is left open.
- SELECT_ACTIVATION_EDGES: the spreader takes any list of weighted edges.
- OverlappingVersions.EveryRunStrandsNothingIff: asks that edges are made and restored between current granules; `add_relation` and `restore_edge` do not check it.
- EdgeLife: prune and restore look at one instant of the server clock, and `exp` is any positive function that decreases and is 1 at 0.
- SpectralOrder.SpectralOrder: fiedler_order is any rearrangement of a component.
- GalacticArms.CutIntoArms: asks for positive masses and an order that covers the links, as its only caller provides.
- GalacticArms.ArmsBalance: says nothing of arms one of whose cuts fell outside its window.
- _satellite_anchors, the spiral, bulge and halo placement, incremental layout and layout reports.
- MapRelax.RelaxMinDistance: the directions that part coincident points are any vectors with components between -1 and 1; normalize_bbox and clipping are not modelled.
- RebuildLock: Redis commands take effect at one instant, workers share its clock, and a job past its hard limit has left or been killed; the build lock of snapshots, whose expiry is shorter than its job's limit, is not modelled.
- Migrations: the directory does not change during a run, and a file's SQL either commits or fails as a whole.
- LinkerQueue.L2Queue.RunL2Verdicts: nobody else touches the list during a batch (LinkerWorkers does without that); JSON encoding is one to one, and how each verdict ends is an input.
- LinkerQueue.L2Queue.ConsumePair: nobody else touches the list meanwhile, and LREM and RPUSH do not fail (LinkerWorkers does without both).
- LinkerWorkers: linker_l2_max_attempts does not change during a run, and the verdict cache, which answers for a pair that came back, is not part of it.
- GraphFile.ReadGraph: a trailer whose size is right but whose edge count is negative, or whose seed has a negative node count, is rejected for the exception numpy raises on it.
- GraphFile: float64 values are their 64 bits; file-system errors are not modelled.
- BatchDedup.DedupEngine.CheckBatch: embeddings and searches are inputs, and a failing embed_many, which fails the whole batch, is not modelled.
- BatchIngest.IngestBatch: a repeat inside the batch is linked to some inserted row with its hash, which the code looks up without the namespace; nothing stronger is claimed.
- BatchIngest.IngestBatch: namespaces are their uids, embedding and project resolution are left out.
- SearchFusion.RrfFuse: rankings are inputs; whether they are the channels' true rankings is not claimed.
- SearchFusion.PagesDisjoint: for one fixed candidate set; the prefetch grows with the offset.
- How the name reconciler, co-occurrence linking and clustering choose what they write; stored procedures and the linker threshold settings.
