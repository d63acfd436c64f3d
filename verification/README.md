# WikiLean brain and bot: a verified model

WikiLean keeps a graph of mathematical atoms (the "brain") and a bot that tags Mathlib declarations with Wikidata ids
in batches of reviewed pull requests. This project models the algorithms both rest on and proves what they are for.
Code that changes state step by step is modelled by classes and loops, each proved against a specification; the
specifications then carry the main theorems, for every input and every run.

**The atom layer.** `UnionFind` is the cell builder's union-find with path compression. `CellMerge` holds the merge
rules: `exact` edges fuse both ways, a concept without one attaches to a single best target, and so merging is a
function of the edges that never bridges two cells. `CellOwnership` names the cells and files every organ under one
owner; `AtomLayer` joins the three: who shares an owner depends on exact edges alone. `ClaimAttachment` attaches pages
and statements without bridging; `Supercells` finds the containers that pages shared by several cells go to.
`Synapses` aggregates all weak bonds, one row per pair of atoms.

**The frontier and the shards.** `FrontierScore` proves that a client which re-scores the compressed graph for any set
of libraries gets the score defined on the raw rows. `Midrank` is the radius computation. `TraceSelection` and
`SynapseSelection` are the round robins under a cap, `PrefixShards` the splitting worklist with its lookup, and
`FacetPropagation` the climbs through the containment tree.

**The acquisitions and the benchmark.** `EntityBisection` is the batched Wikidata fetch with its replay,
`DependencyClosure` the lockfile traversal, `LargestRemainder` the stratified sample, `ReplServer` the framing and
recycling of a persistent Lean process.

**The bot.** `TagInsertion` and `TagTrimming` are the two editors of attribute lines. `TagOverlay` and `TagFiltering`
relate what they do, `TagBatch` lifts both to a batch of files, and `TagRoundTrip` says exactly when trimming equals
never having applied; `TagPlacement` asks whether a tag is on its own declaration. `SettleVerdicts` reads reviews,
`ReviewRules` states its rules on the events, `ReadingOrder` says when the order of reading matters, `Poller` and
`PollerRest` are the poller and its coming to rest, `BatchOpen` the opening of batches from stale state and through
crashes.

`Ids`, `Options`, `Walks`, `Sums`, `Bags` and `Sorting` are what the others share.

## Where the code does not do what is claimed

- A trim of two recycled tags on one attribute line does not go through: `plan` computes both new lines from the same
  old one and the last wins, so one tag is left and the trim is undone (`bot/split.py:67-95`, `bot/split.py:111-117`).
  `TagRoundTrip.TrimmedBatchIsPushedIff` is the exact condition for a trim to go through,
  `TagRoundTrip.SharedLineIsRefused` and `TagRoundTrip.TwoTagsShareALine` the failing family.
- A trimmed file is the file opened with the kept tags alone except for its import, which goes wrong in exactly three
  cases (`TagRoundTrip.TrimIsKeptOnly`): the import was there in a file without a tag and is dropped
  (`TagRoundTrip.ImportIsLost`); the file had tags but no import of its own, so that the one the batch added stays behind
  (`TagRoundTrip.ImportIsLeftBehind`); a kept tag's declaration is missing, so that the import it would have brought does
  not come (`TagRoundTrip.ImportIsMissed`).
- A tag is stacked into the attribute line above its declaration even if that line declares something else
  (`bot/open_batch_pr.py:110-116`), and a tag on such a line counts as the declaration's own
  (`bot/open_batch_pr.py:64-70`). After a request the declaration carries the tag exactly if it did before, or the tag is
  inserted and not into a line that declares something (`TagPlacement.LandsOnItsDeclarationIff`,
  `TagPlacement.TagGoesToTheLineAbove`, `TagPlacement.TagOfTheLineAboveCounts`).
- A bare note is documented as ignored (`bot/settle.py:11`), but a later note replaces its author's earlier verdict on
  the tag (`bot/settle.py:204-205`). It is ignored exactly if there is no such verdict or the note is not later
  (`SettleVerdicts.NoteIsIgnoredIff`); `SettleVerdicts.NoteErasesObjection` turns a rejected tag green with one.
- Verdicts of one person with the same timestamp are settled by reading order (`bot/settle.py:204`). A person's standing
  verdict is free of it exactly if their latest ones agree (`SettleVerdicts.OrderIsIrrelevantIff`), and
  `ReadingOrder.OrderDecidesIff` is the exact condition for the order to decide whether a tag is green.
- `decide` says what `tick` will do with three exceptions (`Poller.DecidedIsWhatTheTickDoes`): the state of a merged pull
  request cannot be read (`bot/poll.py:247-248`, `bot/poll.py:353-355`), a rebuild is due without an approved file, or the
  next batch is due and opening is supervised. In all three it says act and the tick does not
  (`Poller.UnreadableMergedParts`, `Poller.MissingApprovedParts`, `Poller.SupervisedOpenParts`).
- A batch comes to rest exactly if it has tags (a green one, if the gate is open), the trim of its settle is not refused
  and it needs no rebuild without an approved file (`PollerRest.RestsAfterThree`, `PollerRest.RestsIfTrimmable`). One
  without a green tag trims itself to an empty pull request that cannot be classified (`PollerRest.NoGreenNeverRests`). If
  a conflict can come back on the same master, four ticks can act, not three (`PollerRest.FewTicksAct`,
  `PollerRest.FourTicksHappen`).
- A rebuild is meant to re-apply exactly the tags on the pull request (`bot/poll.py:160`), but it takes them from the
  approved file, so it keeps them exactly if that file lists them all (`PollerRest.RebuildKeepsTagsIff`).
- The number stored for a new batch is the first of a listing that lacks the exact match on the branch the guard makes
  (`bot/open_batch.py:248-250`), so it is the batch's own exactly if that listing starts on the branch
  (`BatchOpen.TracksTheNewBatchIff`). If it does not, a batch is lost track of and the next one opened while it is still
  open (`BatchOpen.LooseListingLosesABatch`).
- The environment sanity test looks only at error messages (`bench/typecheck.py:593`), so a reply that is itself an
  error object, which has no messages, passes it. An environment in use really elaborated the sanity theorem exactly if
  that reply is no error object (`ReplServer.ReplServer.ReallyPassedIff`, `ReplServer.ErrorObjectIsServed`).
- The frontier validator refuses empty library names, and the builder does not keep them out: what it ships is accepted
  exactly if no row into the frontier comes from a cell with such a library (`FrontierScore.BuildFrontier`,
  `FrontierScore.NamelessIsRefused`).

## Model

| member | source | states |
|---|---|---|
| UnionFind.DSU.Find | brain/build_cells.py:204-212 | both loops terminate; the result is the least id of the component in the union-call graph, and nothing but the registration of the id is observable |
| UnionFind.DSU.Compress | brain/build_cells.py:210-211 | pointing a whole path at its root leaves every id's root as it was |
| UnionFind.DSU.Union | brain/build_cells.py:214-221 | both ids now have the least id of the joined component as root; the pair is recorded as a union call |
| UnionFind.DSU.Groups | brain/build_cells.py:223-227 | every registered id is filed under its root, although each `find` may rewrite the table being read |
| UnionFind.SameRootIffConnected | brain/build_cells.py:198-221 | after any calls, two ids have the same root if and only if a chain of union calls joins them |
| UnionFind.RootIsLeast | brain/build_cells.py:218-220 | the root is the least id of the component |
| UnionFind.GroupsAreComponents | brain/build_cells.py:223-227 | the groups are exactly the components of the union-call graph, keyed by their least ids |
| UnionFind.RootsDependOnlyOnLinks | brain/build_cells.py:198-221 | order of calls and compression are unobservable: the same ids and union pairs give the same roots |
| UnionFind.CompressKeepsForest | brain/build_cells.py:210-211 | one compression step keeps the strictly descending forest and all its roots |
| UnionFind.JoinKeepsValid | brain/build_cells.py:214-221 | linking the larger root below the smaller keeps the forest and makes roots track the enlarged union-call graph |
| Ids.LessAtFirstDifference | brain/build_cells.py:218-220 | ids compare at the first character that differs, and a proper beginning is less |
| CellMerge.Merge | brain/build_cells.py:420-495 | the union calls and the pairs returned are one set: exact claims, and for a concept without one the claim no other attach claim beats on confidence, kind and id |
| CellMerge.MergeLinksAre | brain/build_cells.py:420-495 | that set, claim by claim: which edges and queue bonds count, and which target is best |
| CellMerge.OfferedAre | brain/build_cells.py:432-464 | edges to containers do not count, and a queue bond is worth a medium edge of its kind |
| CellMerge.Classify | brain/build_cells.py:432-464 | exact and attach edges per concept are those the rules name, with queue bonds at their overridden strength |
| CellMerge.FuseExact | brain/build_cells.py:473-477 | rule 1 unites exactly the exact pairs, whatever order the dictionary is walked in |
| CellMerge.AttachBest | brain/build_cells.py:482-493 | rule 2 adds exactly one pair per concept that has attach edges and no exact one |
| CellMerge.Best | brain/build_cells.py:486-490 | the chosen edge is one no other beats on confidence, kind and target |
| CellMerge.MergedIffHomesExact | brain/build_cells.py:420-495 | two organs are merged if and only if exact edges alone connect their homes, an attached concept's home being its best target |
| CellMerge.ShareCellIffHomesExact | brain/build_cells.py:471-493 | the same, stated on the roots the union-find delivers |
| CellMerge.AttachingJoinsNothing | brain/build_cells.py:479-493 | attaching any number of home-less concepts joins no two cells |
| CellMerge.MergeIsOrderFree | brain/build_cells.py:420-495 | the same edges in any order and multiplicity merge the same way |
| CellOwnership.AnchorNamesTheAtom | brain/build_cells.py:515-531 | the anchor is a lowest-numbered exact concept if there is one, else a lowest-numbered concept, else the least declaration, else the least member |
| CellOwnership.AnchorIsLowest | brain/build_cells.py:525-529 | no exact concept is lower than the anchor, and without exact ones no concept is: fewer digits first, then digit by digit |
| CellOwnership.AnchorIsLeastDecl | brain/build_cells.py:530-531 | without a concept the anchor is the least id that starts with `decl:` |
| CellOwnership.QidOrder | brain/build_cells.py:529 | comparing the numbers of two concepts is comparing their lengths and then their characters |
| CellOwnership.AnchorNames | brain/build_cells.py:515-531 | what an anchor is in terms of ids alone: `Q` and digits, `decl:`, the exact concepts |
| CellOwnership.CellIdsDiffer | brain/build_cells.py:633-636 | disjoint merge groups get different cell ids |
| CellOwnership.MergeGroupsAreDisjoint | brain/build_cells.py:590 | the groups of the union-find are disjoint and cover what it registered |
| CellOwnership.CellLayer.Build | brain/build_cells.py:590-676 | merged, lone and field-only ids together form disjoint groups, and cells, organs and owner map are those the groups determine; a merge group with known members has one cell, called after its anchor, that lists exactly these in order and owns them; a concept or declaration that neither merged nor has a container is a cell of its own, and no other such node has an owner |
| CellOwnership.LoneNode | brain/build_cells.py:619-625 | the same for one node, from the finished layer |
| CellOwnership.GroupHasCell | brain/build_cells.py:632-664 | the part about one group, from the finished layer |
| CellOwnership.CellLayer.Assemble | brain/build_cells.py:632-664 | one cell per group with organs, listed in sorted order, every organ owned by the cell that lists it |
| CellOwnership.OrgansAreDistinct | brain/build_cells.py:632-650 | a cell lists its organs once each and in increasing order |
| CellOwnership.CellLayer.OwnFieldConcepts | brain/build_cells.py:671-674 | a concept whose only homes are containers is owned by exactly the one the loops reach last, and no cell changes |
| CellOwnership.FieldOnlyHomes | brain/build_cells.py:671-674 | that one is, of the containers the concept has an edge to, the one that appears last when containers are taken by first appearance |
| CellOwnership.OwnedByLatest | brain/build_cells.py:671-674 | of a concept's containers the owner is the one first seen the latest: every other was seen before it |
| CellOwnership.AssembledIsOwned | brain/build_cells.py:627-664 | assembly makes ownership a function: each listed organ's owner is the listing cell, and ids are listed once |
| CellOwnership.OrganInOneCell | brain/build_cells.py:629-650 | no organ id is listed by two cells, or twice |
| AtomLayer.SameOwnerIffSameRoot | brain/build_cells.py:590-664 | in the finished layer two merged organs have one owner if and only if they have one root |
| AtomLayer.BuildAtoms | brain/build_cells.py:420-676 | edges to owner map: any two known organs that were merged have one owner if and only if exact edges alone connect their homes; of the others, concepts with containers are owned by the one first seen the latest, other concepts and declarations are cells of their own, and nothing else is owned |
| AtomLayer.LayerIsOwnedByHomes | brain/build_cells.py:471-676 | the same from the final state of the union-find and of the layer |
| AtomLayer.UnmergedAreDone | brain/build_cells.py:600-674 | the part about nodes that did not merge, from the finished layer |
| AtomLayer.FieldEdgesAre | brain/build_cells.py:600-602 | the edges to containers are those whose target starts with `path:` |
| AtomLayer.FieldEdgesInOrder | brain/build_cells.py:600-602 | the edges to containers keep their order |
| ClaimAttachment.CollectClaims | brain/build_cells.py:689-694 | the claimants of an item are exactly the permitted owners some edge reaches it from |
| ClaimAttachment.AttachItem | brain/build_cells.py:697-759 | one claimant lists the item and owns it, several leave it out and yield their pairs; all else is unchanged |
| ClaimAttachment.PairSeeds | brain/build_cells.py:750-759 | the nested loops emit the pairs of the sorted claimants |
| ClaimAttachment.PairsAreOnePerPair | brain/build_cells.py:750-759 | exactly one seed per unordered pair of claimants |
| ClaimAttachment.AttachClaims | brain/build_cells.py:697-760 | after all items in any order the layer is as the claims determine, and ownership is still a function |
| ClaimAttachment.AttachPages | brain/build_cells.py:679-760 | pages: cells and containers claim; layer and seeds are determined by the cross-references |
| ClaimAttachment.AttachStatements | brain/build_cells.py:822-866 | statements: only cells claim; layer and seeds are determined by the matches |
| ClaimAttachment.SharedItemsAreUnowned | brain/build_cells.py:729-760 | an item with several claimants is an organ of no cell and has no owner |
| Supercells.Stake | brain/build_cells.py:763-769 | a claimant's stake is itself or its home with the fewest segments, of equals the first by text; it has none only if it has no home |
| Supercells.SharedPrefix | brain/build_cells.py:779-784 | the column loop computes the longest sequence of segments that starts every stake |
| Supercells.SegmentsOfJoined | brain/build_cells.py:778-785 | splitting a joined path gives back its segments |
| Supercells.CommonSupercell | brain/build_cells.py:772-785 | it answers exactly if some path of more than one segment holds every claimant's stake, and then with the deepest such path |
| Supercells.FallbackSupercell | brain/build_cells.py:788-798 | it answers with the home of any claimant that has the fewest segments, of equals the first by text, and fails only if none has a home |
| Synapses.SynapseTable.Add | brain/build_cells.py:889-910 | the table stays the aggregate of the bonds offered so far |
| Synapses.RowsAreHits | brain/build_cells.py:896-910 | a pair has a row if and only if a bond landed on it, and the row is built from exactly those bonds |
| Synapses.RowKeepsFirstTraces | brain/build_cells.py:905-910 | weight, kind counts and kept plus truncated traces all equal the bonds landed; the kept traces are the first 64 |
| Synapses.RowKinds | brain/build_cells.py:906 | each kind is counted as often as it landed |
| Synapses.RowsJoinDistinctAtoms | brain/build_cells.py:893-904 | every row joins two distinct valid atoms, lesser id first |
| Synapses.BondsConserved | brain/build_cells.py:889-910 | weights plus intra-cell plus unowned drops add up to the bonds offered |
| Synapses.CountsAreMultiplicities | brain/build_cells.py:900-906 | a row's kind counts are multiplicities in the bag of unoriented bonds |
| Synapses.AggregationIsOrderFree | brain/build_cells.py:886-999 | pairs, weights and kind counts do not depend on order or orientation of the bonds |
| Synapses.ReorderingKeepsBag | brain/build_cells.py:919-940 | bonds in another order make the same bag |
| Synapses.FlipIsUnoriented | brain/build_cells.py:900 | a bond turned around is the same bond |
| Synapses.ProjectedNeverDoubleCounts | brain/build_cells.py:969-991 | a projected link counts if and only if both ends are owned and its page link was not consumed, wherever that row stands |
| Synapses.BuildSynapses | brain/build_cells.py:871-999 | the table receives the four streams in order; a bond is offered if and only if it is a co-claim or joins the owners of an edge's or link's two ends, leaving out container edges, merged pairs and projected links whose page link is owned |
| Synapses.OfferedAre | brain/build_cells.py:916-991 | the same, stream by stream |
| Synapses.AddRawLinks | brain/build_cells.py:971-979 | raw links are offered as they stream, and the consumed pairs are theirs |
| Synapses.AddProjectedLinks | brain/build_cells.py:981-991 | exactly the unconsumed projected links are offered |
| FrontierScore.Accumulate | brain/build_frontier.py:598-634 | it succeeds if and only if every row is attributable, and then holds the compressed rows and summed edges |
| FrontierScore.AddRow | brain/build_frontier.py:606-627 | one row goes to an edge, a root-set key, or nowhere, by the kind of its ends |
| FrontierScore.DirectParity | brain/build_frontier.py:618-627 | for every library set the compressed rows give the direct score over raw rows, each multi-library neighbour counted once |
| FrontierScore.EdgeParity | brain/build_frontier.py:608-614 | an edge weight is the total of the raw rows between its two cells |
| FrontierScore.BridgeParity | brain/build_frontier.py:643-651 | for every library set the bottleneck sums over edges equal those over raw rows |
| FrontierScore.ParityLaw | brain/build_frontier.py:892-918 | the re-score from the graph equals the score from the raw synapses, for every library set and cell |
| FrontierScore.AllLibrariesEnabled | brain/build_frontier.py:901 | with every library enabled the direct part is the whole row sum |
| FrontierScore.ScoreMonotone | brain/build_frontier.py:873-879 | enabling more libraries never lowers a score |
| FrontierScore.Adjacency | brain/build_frontier.py:637-640 | the adjacency lists hold each cell's edges, in whatever order the edges come |
| FrontierScore.CountLibraries | brain/build_frontier.py:838-842 | every library gets the number of formal cells next to which it is at work, however many keys list it |
| FrontierScore.NamedIffProper | brain/build_cell_shards.py:448-451 | the keys have no empty name exactly if no row into the frontier brings one |
| FrontierScore.ScoreAll | brain/build_frontier.py:636-652 | the loops compute the defined proximity; a single edge is worth to each end the lesser of its weight and the other's direct score |
| FrontierScore.BridgeIsSum | brain/build_frontier.py:643-649 | the bridge term is the sum over the other cells of the bond, or of their own score where that is less |
| FrontierScore.BridgeRefIsSum | brain/build_frontier.py:41-45 | the same on the raw rows for every set of libraries |
| FrontierScore.OneEdge | brain/build_frontier.py:646-649 | a single edge is worth to each end the lesser of its weight and the other end's score |
| FrontierScore.BuildFrontier | brain/build_frontier.py:598-652 | shipped scores are the raw scores with all libraries enabled; it fails only on unattributable rows, and what it ships is accepted exactly if no row brings an empty library name |
| FrontierScore.NamelessIsRefused | brain/build_cell_shards.py:443-451 | one frontier cell next to a cell whose library has no name: the graph shipped is not accepted |
| FrontierScore.EmittedIsAccepted | brain/build_cell_shards.py:400-524 | the emitted graph passes the validator, reconciled counts included, exactly if no key lists an empty library name |
| Midrank.Ranks | brain/build_frontier.py:669-676 | the pass over sorted distinct scores gives each twice its count of higher scores plus its count of equals |
| Midrank.RanksReverseScores | brain/build_frontier.py:665-668 | radii reverse score order strictly and agree exactly on ties |
| Midrank.RanksAverageOneHalf | brain/build_frontier.py:665-676 | the radii average exactly one half over the population |
| Midrank.RescalingKeepsRanks | brain/build_frontier.py:665-668 | only the order of the scores matters |
| Midrank.ValidatorAgrees | brain/build_cell_shards.py:351-369 | the validator's recomputation in area order gives the same ranks |
| TraceSelection.GroupByKind | brain/build_cell_shards.py:593-595 | every kind's list is its traces in their order |
| TraceSelection.Round | brain/build_cell_shards.py:602-605 | a pass over the kinds gives each one more turn until the cap is reached |
| TraceSelection.PickTraces | brain/build_cell_shards.py:583-609 | as many traces as the cap allows; every kind gives a prefix of its own, cut at one level, the rarer kinds ahead and equally rare ones by name, and the output goes round by round and in that order within a round |
| TraceSelection.NextInTurn | brain/build_cell_shards.py:600-605 | a trace picked at its kind's turn belongs behind all traces picked before |
| SynapseSelection.SeatNext | brain/build_cell_shards.py:652-659 | a kind's turn skips only what is seated, and seats nothing only if all its synapses are |
| SynapseSelection.PickUnderCap | brain/build_cell_shards.py:645-661 | the robin ends at the cap or with every synapse of a kind seated; with no more kinds than the cap, every kind's heaviest is in |
| SynapseSelection.PickSynapses | brain/build_cell_shards.py:612-662 | everything if it fits, else exactly the least of the cap and the number of synapses that carry a kind; each kind seats one at each turn while it has any, rarest kind first, and never passes over a heavier one; shown by falling weight and then by id, and with no more kinds than the cap a synapse of each kind that none of the kind outweighs |
| SynapseSelection.SeatTurn | brain/build_cell_shards.py:644-656 | a turn that seats a synapse keeps all kinds' turns in step |
| SynapseSelection.SeatsHeaviest | brain/build_cell_shards.py:648-654 | skipping only what is seated, a turn seats the heaviest of the kind that is left |
| PrefixShards.ShardKey | brain/build_shards.py:76-85 | the key has the wanted length: lower case letters and digits, upper case made lower, `_` for anything else and past the end |
| PrefixShards.GroupByKey | brain/build_cell_shards.py:950-952 | ids are grouped by their key of that length, every id once |
| PrefixShards.FileBuckets | brain/build_cell_shards.py:953-958 | each bucket becomes a fitting leaf or one deeper job, and the work left strictly shrinks |
| PrefixShards.Split | brain/build_cell_shards.py:946-958 | it terminates with prefix-free keys of 2 to 64 characters that cover all ids; a leaf fits the limit, is one id or has the longest key, and every shorter prefix of its key had several ids and more bytes than the limit |
| PrefixShards.LeavesPartition | brain/build_cell_shards.py:1262-1274 | every id is in exactly one leaf, for cells and trace buckets alike |
| PrefixShards.OneKeyMatches | brain/build_cell_shards.py:1338-1341 | at most one leaf key prefixes an id's normalised form, known id or not |
| PrefixShards.Lookup | brain/query.py:79-93 | it finds a matching key exactly if there is one, and the longest of those not longer than the id |
| PrefixShards.LookupIsCorrect | brain/build_cell_shards.py:1338-1341 | the key found names the leaf holding the id, and no other leaf holds or matches it |
| FacetPropagation.Climb | brain/build_cell_shards.py:1053-1058 | stopping at the first ancestor that carries the bits leaves the same table as climbing to the root |
| FacetPropagation.PropagateFacets | brain/build_cell_shards.py:1047-1058 | a path ends with exactly the facets of all cells with a supercell at or below it, on any parent map |
| FacetPropagation.Ancestors | brain/build_cell_shards.py:1063-1068 | the seen set is everything at or above some supercell of the cell |
| FacetPropagation.CountCells | brain/build_cell_shards.py:1061-1070 | each path counts every cell below it once, however many of its modules it spans |
| LargestRemainder.Allocate | bench/build_bridge_tasks.py:53-64 | allocations sum to the total, round their quota up or down, never exceed the domain's count if the total does not exceed the sum, and never favour a smaller domain; a domain goes up before another exactly by its larger fraction, or its name |
| LargestRemainder.LuckyAreLargest | bench/build_bridge_tasks.py:61-63 | who is rounded up lost no less by its floor than who is not |
| LargestRemainder.GiveBonuses | bench/build_bridge_tasks.py:61-63 | the leftover units go one each to the first domains of the rank order |
| LargestRemainder.LeftoversAreFractional | bench/build_bridge_tasks.py:59-63 | leftover units are never more than the domains with a fractional quota, so each rounds one up |
| LargestRemainder.QuotasBalance | bench/build_bridge_tasks.py:57-59 | floors and remainders account for the whole total |
| LargestRemainder.AllocatedIsFair | bench/build_bridge_tasks.py:81-90 | any domain's sample is legal and a larger domain gets no fewer |
| DependencyClosure.ResolveLoop | brain/acquire_d1_snapshot.py:882-890 | shortening the base step by step is nearest-ancestor resolution |
| DependencyClosure.ResolveIsNearest | brain/acquire_d1_snapshot.py:882-890 | what is found is installed under the nearest ancestor that has it; nothing is found only if none has |
| DependencyClosure.ClosureOf | brain/acquire_d1_snapshot.py:892-915 | on any lockfile, cyclic or not, `seen` is the least set with the root closed under loading; it fails only on a reachable required name that resolves nowhere, and succeeds only if there is none |
| DependencyClosure.EdgesAre | brain/acquire_d1_snapshot.py:901-908 | which declarations are needed and which may be missing: dependencies and pinned peers not marked optional, and optional dependencies and the other pinned peers |
| DependencyClosure.ReachableInClosed | brain/acquire_d1_snapshot.py:892-915 | every closed set with the root contains every reachable path, so stack order does not matter |
| EntityBisection.ChaseLoop | brain/acquire_wikidata_entities.py:609-616 | the redirect walk ends at the chain's end or reports a cycle, and uses exactly the rows passed |
| EntityBisection.AnswerOne | brain/acquire_wikidata_entities.py:608-771 | a requested QID gets the answer its one entity row and redirects determine, or the refusal they call for |
| EntityBisection.Normalize | brain/acquire_wikidata_entities.py:585-777 | the loops accept exactly the payloads that answer every QID with one row and leave no row over; an answer is missing if and only if the QID has no redirect and its own row says missing, and else names the entity its row binds it to |
| EntityBisection.NormalizedTells | brain/acquire_wikidata_entities.py:585-777 | the same of the specification, with redirects as chains of rows |
| EntityBisection.AnswerTells | brain/acquire_wikidata_entities.py:608-689 | the answer computed for one QID is the one its rows give, and refusing means that they give none |
| EntityBisection.ChaseIsEnd | brain/acquire_wikidata_entities.py:609-616 | the redirect walk finds the end of the chain of rows exactly if there is one |
| EntityBisection.Acquisition.Execute | brain/acquire_wikidata_entities.py:786-855 | transcript and map grow across the recursion exactly as the pure bisection says |
| EntityBisection.Acquisition.ExecutePlan | brain/acquire_wikidata_entities.py:857-862 | batches in order, then coverage of the whole plan |
| EntityBisection.FetchIsPointwise | brain/acquire_wikidata_entities.py:817-855 | against a faithful server a batch ends with the true answer of each of its QIDs |
| EntityBisection.BisectionRefinesSingleFetches | brain/acquire_wikidata_entities.py:780-862 | the plan succeeds and every QID gets what a request of its own would get at any point |
| EntityBisection.FetchTranscript | brain/acquire_wikidata_entities.py:786-846 | a batch of n costs at most 2n-1 requests, all different, with contiguous indices |
| EntityBisection.PlanTranscript | brain/acquire_wikidata_entities.py:1004-1024 | the whole transcript has distinct requests and contiguous indices, so the duplicate refusal cannot fire |
| EntityBisection.RequestsAreCapped | brain/acquire_wikidata_entities.py:857-862 | no request asks for more than fifty QIDs |
| EntityBisection.UnsplitPlan | brain/acquire_wikidata_entities.py:857-862 | without a refusal the plan takes one request for every fifty QIDs, begun or full |
| EntityBisection.TranscriptReplays | brain/acquire_wikidata_entities.py:1302-1330 | replaying the recorded bodies gives the same records and map and uses every body |
| EntityBisection.PublishTranscript | brain/acquire_wikidata_entities.py:1302-1330 | it succeeds exactly if the replay does with no body missing or left over |
| EntityBisection.LiveIsFaithful | brain/acquire_wikidata_entities.py:831-846 | a server that answers `no-such-entity` exactly for batches with a missing QID is faithful, so faithful servers exist |
| TagInsertion.FindDeclLoop | bot/open_batch_pr.py:44-48 | the scan finds the first line that declares the name |
| TagInsertion.FindDeclFinds | bot/open_batch_pr.py:37-49 | the line found is the first that declares the full name, or without one the first that declares what follows its last dot |
| TagInsertion.AnchorLoop | bot/open_batch_pr.py:51-57 | the anchor is above all bare modifier lines |
| TagInsertion.AlreadyTaggedLoop | bot/open_batch_pr.py:59-70 | it holds exactly if the declaration's line or its attribute block carries the tag |
| TagInsertion.InsertTag | bot/open_batch_pr.py:130-137 | the first line that declares the full name, or else its last part, gets the tag: last in the attribute list above its modifiers, or on a line of its own; nothing changes if it is not declared or carries the tag |
| TagInsertion.Slot | bot/open_batch_pr.py:155-161 | the import goes before the first public import sorting after it, else after the last |
| TagInsertion.AddImportLoop | bot/open_batch_pr.py:145-164 | the import goes in front of the first public import that sorts behind it, else behind the last; nothing changes if it is there or there is no public import |
| TagPlacement.LandsOnItsDeclarationIff | bot/open_batch_pr.py:108-139 | after a request the declaration found for it carries the tag if and only if it did before, or the tag is inserted and the attribute line above declares nothing itself |
| TagPlacement.InsertedIsOnDeclarationIff | bot/open_batch_pr.py:79-121 | of an insertion: the tag is on the declaration if and only if the attribute line above declares nothing itself |
| TagPlacement.FoundAgain | bot/open_batch_pr.py:59-70 | a tag that is on its declaration is found there, so it is not inserted twice |
| TagPlacement.TagGoesToTheLineAbove | bot/open_batch_pr.py:110-116 | right below `@[simp] theorem d`, the tag requested for `e` ends up on `d` |
| TagPlacement.TagOfTheLineAboveCounts | bot/open_batch_pr.py:59-70 | below `@[wikidata q] theorem d` and `@[simp]`, the request to tag `e` with `q` is skipped and `e` has no tag |
| TagOverlay.InsertionsAreAnOverlay | bot/open_batch_pr.py:79-139 | any run of insertions, in all three forms, leaves the original file with lists of tags beside its lines |
| TagOverlay.PlaceOneRenders | bot/open_batch_pr.py:79-121 | one insertion appends its tag to one such list, or changes nothing |
| TagOverlay.KeepPlaceAll | bot/open_batch_pr.py:123-139 | filtering the lists of a run is the run of the remaining requests: where a tag goes depends on no other tag |
| TagTrimming.StripLineRemovesOneTag | bot/split.py:31-54 | every other tag stays, nothing is added, and only a line holding that tag alone is deleted |
| TagTrimming.StripLineRemovesTheTag | bot/split.py:31-54 | on a list without repeats the tag is gone |
| TagTrimming.LastEditWins | bot/split.py:82-90 | a line with planned edits gets the one of the last tag planned on it |
| TagTrimming.RemovedIffTrimmable | bot/split.py:61-117 | the edits remove all tags exactly if each is on one line and no line has two, and then the file is stripped of them |
| TagFiltering.AddImportCommutes | bot/open_batch_pr.py:145-164 | stripping tags and adding the import can be exchanged |
| TagFiltering.DropUndoesAdd | bot/split.py:91-94 | dropping the import undoes adding it |
| TagFiltering.StrippingFilters | bot/split.py:31-54 | stripping a file with inserted tags filters its lists |
| TagFiltering.StripLineTakesOut | bot/split.py:31-54 | a tag is taken out of its list; alone on its line it takes the line with it, alone in a clause the clause |
| TagFiltering.RepeatedTagStays | bot/split.py:37-51 | a list of one tag repeated keeps it once |
| TagBatch.OpenBatch | bot/open_batch_pr.py:123-184 | every file ends with its own requests applied in order and, if it has any, the import |
| TagBatch.Plan | bot/split.py:61-79 | the edits of each file are those of its tags in order, and a tag is missing exactly if its file does not carry it |
| TagBatch.EditFile | bot/split.py:80-117 | edits are applied line by line, and the import goes exactly if no tag remains |
| TagBatch.TrimBatch | bot/split.py:199-211 | the trim either pushes the trimmed files or leaves all files as they were |
| TagRoundTrip.TrimSucceedsIff | bot/split.py:199-211 | on any files, a trim goes through exactly if each tag is on one line of its file and no two share one |
| TagRoundTrip.TaggedIffLanded | bot/open_batch_pr.py:123-139 | applying leaves a tag exactly if there was one or some declaration was found |
| TagRoundTrip.TrimIsKeptOnly | bot/split.py:31-117 | a trimmed file is the file opened with the kept tags alone, import included, if and only if it is not stranded |
| TagRoundTrip.TrimmedBatchIsKeptBatch | bot/split.py:199-211 | a batch whose trim goes through is the batch of the kept tags if and only if none of its files is stranded |
| TagRoundTrip.TrimmedBatchIsPushedIff | bot/split.py:203-211 | an open batch is trimmed exactly if its recycled tags are each on one line and on different ones |
| TagRoundTrip.SharedLineIsRefused | bot/split.py:82-90 | two recycled tags on one line make any trim refuse |
| TagRoundTrip.TwoTagsShareALine | bot/open_batch_pr.py:108-116 | two tags of one plain declaration end up on one line |
| TagRoundTrip.ImportIsLost | bot/split.py:91-94 | a file with the import and no tag loses the import when its only new tag is recycled |
| TagRoundTrip.ImportIsLeftBehind | bot/split.py:80-94 | a file with an upstream tag and no import keeps the import the batch added, when its only new tag is recycled |
| TagRoundTrip.ImportIsMissed | bot/split.py:80-94 | the trim drops an import that a kept tag with a missing declaration would have added |
| SettleVerdicts.Classify | bot/settle.py:188-292 | gate, green and recycled tags, decided from the tables the two reading loops fill, are those defined on the whole log |
| SettleVerdicts.ReadThreads | bot/settle.py:199-242 | the tables of verdicts, reviewers and maintainers after one pass over the comments and reactions |
| SettleVerdicts.ReadApprovals | bot/settle.py:244-254 | the people whose latest review approves, and those with a role in the organisation |
| SettleVerdicts.SpokenOn | bot/settle.py:257-258 | one tag's column of the verdict table, notes left out |
| SettleVerdicts.DecideTag | bot/settle.py:259-273 | the branches of `decide` on these tables: the maintainers' verdicts trump, else no objection and some approval |
| SettleVerdicts.DecidedFromTables | bot/settle.py:256-273 | on the tables read, `decide` says green exactly if the tag is green by the log |
| SettleVerdicts.GateFromTables | bot/settle.py:290-291 | on the tables read, the gate is open exactly if it is by the log |
| SettleVerdicts.GateIsOrderFree | bot/settle.py:290-291 | the gate is the same in every reading order |
| SettleVerdicts.ExplicitIsLastWord | bot/settle.py:199-207 | the recorded verdict is its author's latest on the tag, the first read among equals |
| SettleVerdicts.EachTagIsSorted | bot/settle.py:275-288 | every tag is green or recycled, by its verdict |
| SettleVerdicts.GreenIff | bot/settle.py:256-273 | with a maintainer's standing verdict, green means no maintainer objects; otherwise nobody objects and somebody approves the tag or the PR |
| ReviewRules.GreenByTheRules | bot/settle.py:199-273 | the same on comments, reactions and reviews: what each of them means, whose last word it is and who maintains |
| ReviewRules.GateByTheRules | bot/settle.py:190-254 | the gate is open exactly if two people review and a maintainer does |
| SettleVerdicts.ThreadOrderIsIrrelevant | bot/settle.py:210-243 | verdict and gate do not depend on the order in which comments are read, unless one person's latest verdicts on the tag differ |
| SettleVerdicts.OrderIsIrrelevantIff | bot/settle.py:204-205 | a person's standing verdict on a tag is the same in every reading order if and only if all their latest verdicts on it agree |
| ReadingOrder.OrderDecidesIff | bot/settle.py:199-273 | some reading order sorts the tag differently if and only if it can be green and can be recycled, both read off the latest verdicts |
| ReadingOrder.GreenInSomeOrderIff | bot/settle.py:199-273 | the tag is green in some reading order if and only if a maintainer may approve and none must object, or all maintainers may pass, nobody must object and somebody may approve |
| ReadingOrder.RecycledInSomeOrderIff | bot/settle.py:199-273 | it is recycled in some reading order if and only if a maintainer may object, or all maintainers may pass and somebody may object or nobody need approve |
| ReadingOrder.WishedStands | bot/settle.py:203-205 | among a person's latest verdicts the one read first stands |
| ReadingOrder.OrderDecidesWhenTorn | bot/settle.py:204 | an approval and a rejection of one person at one moment: one order makes the tag green, another recycles it |
| SettleVerdicts.TrimmedStaysTrimmed | bot/poll.py:267-270 | after a trim to the green tags the same reviews recycle nothing: a verdict does not depend on the other tags |
| SettleVerdicts.NoteErasesVerdict | bot/settle.py:199-207 | a note later than its author's recorded verdict takes back that verdict and nothing else; any other note changes nothing |
| SettleVerdicts.NoteIsIgnoredIff | bot/settle.py:199-207 | a note is ignored if and only if its author has no verdict on the tag, or one at least as late |
| SettleVerdicts.NoteErasesObjection | bot/settle.py:199-207 | a rejected tag turns green when its critic leaves a note |
| Poller.Decide | bot/poll.py:344-365 | for every outcome of the steps it says act, wait or error exactly as the tick will, if and only if the tick is not one of three exceptions |
| Poller.DecidedIsWhatTheTickDoes | bot/poll.py:239-365 | the same on single ticks: unreadable merged PR, rebuild without approved file and supervised opening are the only differences |
| Poller.UnreadableMergedParts | bot/poll.py:247-248 | it says act and the tick fails, if a merged PR's state cannot be read |
| Poller.MissingApprovedParts | bot/poll.py:344-365 | it says act and the tick fails, if a rebuild is due and the approved file missing |
| Poller.SupervisedOpenParts | bot/poll.py:239-265 | it says act and the tick does nothing, if the PR has merged and opening is supervised |
| Poller.StateFile.Tick | bot/poll.py:239-314 | the state file after a tick, for every answer and every step's outcome, and no batch's property pushed twice |
| Poller.OpeningNames | bot/open_batch.py:186-191 | after an opening the state file names the new batch; adopted batches and those after a merge start without markers |
| Poller.StateFile.TickSettled | bot/poll.py:266-309 | re-settle before rebuild before self-heal, each with the markers it sets and clears |
| Poller.StateFile.PushProperty | bot/poll.py:317-341 | a clean push is recorded and happens at most once per merged PR |
| PollerRest.ChoiceIsPicked | bot/poll.py:239-314 | what a tick sets out to do depends on eight signals only |
| PollerRest.SignalsFollow | bot/poll.py:239-314 | how one tick, completed or broken off at any step, can change these signals |
| PollerRest.SettleEffect | bot/poll.py:266-277 | a completed settle records the PR; a re-settle clears the self-heal marker and a first settle keeps it |
| PollerRest.RebuildKeepsTagsIff | bot/poll.py:160-166 | a completed rebuild leaves the tags of the pull request as they were if and only if the approved file lists all of them |
| PollerRest.RankDrops | bot/poll.py:267-308 | a completed tick uses up rank and no tick adds to it |
| PollerRest.FewTicksAct | bot/poll.py:239-314 | over any run at most three ticks complete anything, four if conflicts may come back on the same master |
| PollerRest.FourTicksCanAct | bot/poll.py:239-314 | with an open gate and a green tag, settle, heal, rebuild and heal again is a run of four completed ticks |
| PollerRest.FourTicksHappen | bot/poll.py:239-314 | two approvals and a conflict that comes and goes make such a run |
| PollerRest.RestsAfterThree | bot/poll.py:239-365 | in a frozen world the decision from the third tick on is to wait if and only if there are tags (a green one if the gate is open), no settle has its trim refused and no rebuild lacks its approved file, whatever that file lists |
| PollerRest.RestsIfTrimmable | bot/split.py:199-211 | the same on the files of the branch: the trim is refused exactly if a recycled tag is not on one line of its file or shares it with another |
| PollerRest.NoGreenNeverRests | bot/settle.py:172-175 | without a green tag every tick after the settle is an error, or a refused trim tried again |
| BatchOpen.BranchNameInjective | bot/open_batch.py:69-70 | different batches have different branches |
| BatchOpen.BranchNameReads | bot/open_batch.py:69-70 | a branch is the fixed prefix and the batch number in digits |
| BatchOpen.Runner.OpenNextBatch | bot/open_batch.py:144-258 | one run with every crash and failure: the remote side and the state file it leaves |
| BatchOpen.OpensOnlyFreeBranches | bot/open_batch.py:167-208 | past the guard, the branch has no pull request of any state |
| BatchOpen.StateAdvancesByOneBatch | bot/open_batch.py:154-258 | the state changes only past a merged pull request, by one batch, and its branch is the name of its number |
| BatchOpen.TracksTheNewBatchIff | bot/open_batch.py:248-258 | the stored number is the new pull request's if and only if the listing starts exactly on its branch, and else it is another branch's |
| BatchOpen.LooseListingLosesABatch | bot/open_batch.py:248-258 | one listing that starts elsewhere: a stray number is stored for batch 2, and batch 3 is opened while batch 2 is unmerged |
| BatchOpen.RunsAreSafe | bot/open_batch.py:158-258 | over any run with arbitrarily old state files, no push to a branch with a pull request and no branch with two |
| BatchOpen.RunsAreOrdered | bot/open_batch.py:154-258 | past the first, a batch has a pull request only if the one before it has merged, and every state file written names a PR of its batch |
| BatchOpen.OneBatchAtATime | bot/open_batch.py:154-156 | at any time at most one batch past the first has an unmerged pull request |
| ReplServer.ReplServer.ReadLine | bench/typecheck.py:530-546 | for any chunking it returns the next line of the whole stream; buffer and pipe account for every unread byte, also on failure; it fails only if bytes stop coming |
| ReplServer.SplitLosesNothing | bench/typecheck.py:545-546 | the lines and the rest are the whole stream |
| ReplServer.ReplServer.Collect | bench/typecheck.py:559-566 | it returns exactly the lines of the awaited reply and leaves only blank lines behind |
| ReplServer.ReplServer.Exchange | bench/typecheck.py:548-571 | a returned reply is the process's reply to this command, and the stream is quiet again |
| ReplServer.ExpectedLeads | bench/typecheck.py:559-566 | skipping blank lines and ending at the next one, the lines left over and printed lead to the reply |
| ReplServer.FirstLineIsUnique | bench/typecheck.py:545 | a stream has one first line |
| ReplServer.ReplServer.EnsureImported | bench/typecheck.py:573-605 | success means a live process that imported the library into this environment, whose sanity reply has no error message; it succeeds on a process that boots |
| ReplServer.ReplServer.ReallyPassedIff | bench/typecheck.py:585-600 | an accepted environment really elaborated the sanity theorem if and only if its reply to it, either an environment or an error object, is no error object |
| ReplServer.ErrorObjectIsServed | bench/typecheck.py:593-600 | a well-framed process whose sanity reply is an error object, and the verdict served from it |
| ReplServer.ReplServer.Check | bench/typecheck.py:608-646 | a verdict is the reply to this very command in an environment whose sanity reply has no error message; after anything else the process is gone; a process that boots and answers is served |
| ReplServer.ReplServer.Serve | bench/typecheck.py:618-646 | a verdict is the reply to this very command; a time-out means that no call failed, an error that one did or that the reply cannot be read |
| ReplServer.ReplServer.Kill | bench/typecheck.py:520-528 | process, environment and buffer go together |

## Left out

- Parsing: JSON, regular expressions over characters, diffs and Lean declaration heads are taken as given;
  files are lists of structured lines, reviews lists of events, payloads records. An attribute list that spans lines is
  not a line of its own kind.
- Hashes, provenance tables, labels, statistics per kind, request encodings and receipts are not modelled.
- Floating point: proximity is scaled by four, radii and quotas are exact; rounding is not modelled.
- Ids are strings in lexicographic order.
- PrefixShards.ShardKey: the one letter whose lower case has two characters (U+0130) is taken as padding.
- Dictionary iteration: where a loop walks a dictionary or set, it is modelled in an arbitrary order.
- CellOwnership.CellLayer.Build: a cell is its list of organs; its labels, supercells and facets are not modelled.
- ClaimAttachment.AttachPages: does not record the supercell organs of area pages nor fold page facets into cells; which
  supercell they go to is in Supercells.
- CellMerge.MergedIffHomesExact: assumes that no id is both a source and a target of edges, which the schema guarantees.
- Article organs (`brain/build_cells.py:801-819`): two concepts may share a slug, so they have no single owner.
- FrontierScore.EmittedIsAccepted: keys are sorted lists rather than strings joined with `|`, so library names are taken
  to hold no `|`; the validator's checks of JSON types, keys and generation stamps are not modelled.
- TagRoundTrip.TrimIsKeptOnly: assumes the batch's tags are in none of the files it starts from, and attribute lists are
  not empty and hold no tag twice. The merge of master that precedes a trim is not modelled, nor is the substring test of
  `already_tagged` on ids that are prefixes of each other.
- TagBatch.OpenBatch: files outside the checkout are dropped before, as `bot/open_batch_pr.py:358-364` does.
- The staged-diff guard of `bot/open_batch_pr.py:229-256`: its removal count does not fit first-time `to_additive` edits.
- PollerRest.RestsAfterThree: which tags master already has is frozen with it; they count as not in the approved file.
- Poller: triage, harvest, tables, queues and notifications are not modelled; pushes, rebuilds and openings are outcomes.
- BatchOpen.OpensOnlyFreeBranches: assumes the guard's answer lists every pull request on the branch. Two runners inside
  one open at the same time are not modelled.
- BatchOpen.RunsAreOrdered: assumes that listings after a creation start exactly on the new branch; without that the
  stored number is another's and the order can break.
- ReplServer.ReplServer.Check: assumes a process that answers in order, with no blank line inside a reply. Bytes are
  decoded and parsed by a given function; the lock that serialises checks is not modelled.
- DependencyClosure.ClosureOf: install paths are lists of package names; workspace prefixes are not modelled.
- Acquisition transport: HTTP status, media types and curl are outcomes of the response provider.
- Review queues, benchmark prompts and scoring, exporters, the website and the LLM triage would add nothing hard.
