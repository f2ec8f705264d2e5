# RAGFlow: models and proofs

A Dafny 4.11 model of five parts of RAGFlow that carry state or change the shape of data, and
proofs of what they keep. `dafny verify dfyconfig.toml` checks the whole project.

**RAPTOR layers (`rag/raptor.py`).** `PsiUnionFind` is the union-find behind the Psi tree
builder: lazily extended ancestor chains, id lists for representatives, and a write-once
child-to-parent array. `MergeHierarchy` says what a list of ranked pairs means without any data
structure (who is connected, how high a component is, who meets at which level). The files
`PsiForest`, `PsiTree`, `PsiRefinement`, `PsiChains` and `PsiInvariant` prove that the fields
always stand for that meaning. `PsiExactBuild` and `PsiBuild` turn the array into linked node
objects, and `PsiClades` says which leaves lie together in the tree they form; `PsiBuckets` and
`PsiRecursive` are the bucket splitter and the mutual recursion for large inputs, whose stages
`PsiGrowth` records; `PsiRebalance` groups oversized child lists in place, which `PsiRegroup`
tells on values; `PsiLayers`,
`PsiMaterialise` and `PsiStructure` take the tree to summary layers. `RaptorLabels` labels
one layer by either method, `RaptorClassic` is the clustering loop and `RaptorCall` the entry
point. Nodes are heap objects whose children and
parent links the code reassigns; a ghost `Shape` (`PsiNodes`) describes which tree they form.

**Agent canvas (`agent/canvas.py`).** `CanvasGraph` holds components, dependencies and what
each outcome may put on the path; `CanvasRun` is the run loop over the growing path.

**Metadata filters (`common/metadata_*.py`).** `MetaFilter` is the in-memory evaluator over
flattened documents (`MetaDocs`). `EsFilter` translates to Elasticsearch clauses, whose meaning
`EsQuery` gives; `EsAgreement` and `EsMembership` say where the two select the same documents,
and `EsComparisons` what a typed value is compared with.
`InfinityFilter` renders SQL text; `SqlText` is a reader for such text, `SqlRoundTrip` proves
that reading undoes writing, `InfinityMeaning` says what the text means, and
`InfinityComparisons` what single filters read back as. `TextPatterns`
covers escaping and wildcard matching for both.

**DSL migration (`agent/dsl_migration.py`).** `Json` and `VariableRefs` are the dictionary and
text operations; `DslMigration` is the migration, `DslGraph` its idempotence,
`DslIsomorphism` what happens to the workflow graph, `DslNames` what everything is called
afterwards, and `DslReferences` what happens to the references in all nested texts.

**Local vault (`common/local_secrets_vault.py`).** `LocalVault` is the state machine of stored
categories, session and decrypted cache.

What the code leaves to numeric libraries, language models and services is a parameter that may
answer anything of the right shape: a ranking is any list of all pairs of positions, labels are
any function of the items, a summary may be missing, calls finish in any order. Results hold for
all such answers. The
parameters are functions of the nodes' indices, of the clusters' positions or of the path
position, so two different questions may always get different answers.

## Where the code and its own words differ

- `common/metadata_es_filter.py:83-85` says that `must_not wildcard` matches the evaluator for
  `not contains` on multi-valued fields too. It does not: the evaluator unites the buckets, so a
  document with one value that contains the text and one that does not is selected by one side
  only. `EsAgreement.NotContainsAgrees` gives the exact condition, which is the one that
  `EsMembership.NotInListAgrees` gives for `not in`, an operator the module does refuse to push
  down.
- `common/metadata_es_filter.py:24` says that the operators mirror `meta_filter` exactly. `empty`
  differs on documents without a value (`EsAgreement.EmptyDiffers`), `not empty` on lists that
  mix blank and other values (`EsAgreement.NotEmptyDiffers`), `in` with a text is a substring test
  on one side and a comparison of members on the other (`EsMembership.InTextDiffers`), and `in`
  with a list strips its members on one side only. `EsAgreement.EmptyAgrees`,
  `EsAgreement.NotEmptyAgrees`, `EsMembership.InTextAgrees` and
  `EsMembership.InListAgreesAlways` give the conditions.
- Without filters the query selects its whole scope and `meta_filter` nothing
  (`EsAgreement.NoFilterDiffers`).
- With the mixture method the classic loop raises when `max_cluster` is at most 1, when no
  component reaches the threshold for an item, and when a cluster stays empty
  (`rag/raptor.py:246`, `rag/raptor.py:714`, `rag/raptor.py:724`). These are results of the
  model, not preconditions: `RaptorClassic.ClustersRaise` gives the guard of each,
  `RaptorClassic.BuildClassic` says that the loop raises exactly when a layer that it reaches
  meets one, and `RaptorClassic.NoLabelRaised` and `RaptorClassic.EmptyClusterRaised` are inputs.
- Two components whose new ids are equal are merged into one by the migration
  (`DslIsomorphism.CollidingIds`; `DslIsomorphism.ComponentsKept` is the condition), and a link
  that names no component but reads like a new id becomes a link to that component
  (`DslIsomorphism.EntriesRenamed`).
- `agent/dsl_migration.py:42-43` says that custom names are preserved. A `component_name` is
  rewritten like any other text first, so one that is the id of a legacy component, or refers to
  one, changes: `DslNames.CustomNameChanges` is an input and `DslNames.OtherName` the condition.
  Labels and names of drawn nodes are preserved (`DslNames.DrawnNames`).
- If writing the cache fails after the file or the session was written, an unlocked session
  serves an old section (`LocalVault.StaleAfterFailedWrite`).

## Model

| member | source | states |
|---|---|---|
| `PsiUnionFind.UnionFind.constructor` | rag/raptor.py:62-68 | n separate leaves of height 0: the invariant holds, no pair is processed, n roots |
| `PsiChains.OrderedExtend` | rag/raptor.py:70-75 | appends exactly the unseen values in their order |
| `PsiUnionFind.UnionFind.Find` | rag/raptor.py:77-86 | terminates; the lazy chain becomes the full walk to the current representative; the represented forest is unchanged and no full chain becomes partial |
| `PsiUnionFind.UnionFind.RankBisectRight` | rag/raptor.py:88-93 | the first chain position whose rank exceeds the limit, or the end |
| `PsiUnionFind.UnionFind.Build` | rag/raptor.py:95-113 | exact new array, id lists and next id of a recorded edge, clamp included |
| `PsiUnionFind.UnionFind.FirstAbove` | rag/raptor.py:125-129 | the computed insert point is the first ancestor of the leaf that outranks the other root; the rest of the chain is its full walk |
| `PsiChains.InsertPoint` | rag/raptor.py:125-129 | on a full chain the search never runs off the end, so the out-of-range fallback is not taken |
| `PsiChains.RootLeads` | rag/raptor.py:123-124 | a root that outranks another already leads its own chain, so no chain has to be started |
| `PsiUnionFind.UnionFind.HangBelow` | rag/raptor.py:122-141 | an unequal merge keeps the invariant, fuses the two components at every level above the lower rank, overwrites no filled entry, leaves one root fewer |
| `PsiUnionFind.UnionFind.Absorb` | rag/raptor.py:142-147 | an equal-rank merge does the same and raises the winner by one level |
| `PsiUnionFind.UnionFind.Union` | rag/raptor.py:115-148 | true exactly when earlier pairs had not connected the two leaves; the invariant and every filled array entry survive; one root fewer exactly when true |
| `PsiUnionFind.UnionFind.Tree` | rag/raptor.py:150-153 | the used prefix of the array, which is never longer than the array |
| `PsiInvariant.UnequalStep` | rag/raptor.py:95-141 | hanging a root below an outranking ancestor keeps every edge climbing one level; the clamp of the rank index is not needed |
| `PsiInvariant.EqualStep` | rag/raptor.py:110-113 | the new shared parent keeps every edge climbing one level and fits the array |
| `PsiInvariant.ArrayIsHierarchy` | rag/raptor.py:95-153 | two leaves climb to one entry of the array after k steps exactly when the processed pairs make them meet at level k |
| `PsiInvariant.LeafDepth` | rag/raptor.py:95-153 | every leaf reaches its root in exactly as many steps as its component is high, so all leaves of a component have one depth |
| `PsiInvariant.HeightIsLogarithmic` | rag/raptor.py:62-68 | a component of height h has at least 2^h leaves; next_id never exceeds 2n-1 |
| `PsiInvariant.LowestCommonAncestor` | rag/raptor.py:115-148 | the lowest common ancestor of a merged pair sits one level above the lower of the two heights at the merge, whatever pairs follow |
| `MergeHierarchy.LinkedIsEquivalence` | rag/raptor.py:115-148 | being connected by the processed pairs is an equivalence |
| `MergeHierarchy.MeetIsEquivalence` | rag/raptor.py:115-148 | so is meeting at a level |
| `MergeHierarchy.AllMeetAtHeight` | rag/raptor.py:115-148 | connected leaves all meet at the height of their component |
| `MergeHierarchy.MeetingIsFinal` | rag/raptor.py:95-148 | later pairs never change whether connected leaves meet at a level |
| `MergeHierarchy.FirstMeeting` | rag/raptor.py:115-148 | the level at which a newly merged pair first meets |
| `PsiRefinement.JoinRefines` | rag/raptor.py:115-148 | one join of the forest is one step of the pair history, for connection, height and meeting |
| `PsiTree.ClimbTogether` | rag/raptor.py:95-113 | array ancestors of two leaves agree exactly when their level classes do |
| `PsiTree.JoinHeavy` | rag/raptor.py:142-147 | 2^rank stays at most the component's size |
| `PsiExact.SoundIsLevelled` | rag/raptor.py:95-113 | every filled entry leads from a level-k id to a level-(k+1) id |
| `PsiExact.TwoKids` | rag/raptor.py:110-113 | every id that is not a leaf has at least two children |
| `PsiExact.OneRoot` | rag/raptor.py:510-512 | with one component exactly one array entry has no parent |
| `PsiExactBuild.MergeAll` | rag/raptor.py:481-489 | any ranking of all pairs yields exactly n-1 merges and one component, with the early exit |
| `PsiExactBuild.CreateNodes` | rag/raptor.py:491-503 | inputs keep their places, every other id gets one bare node with an index of its own |
| `PsiExactBuild.LinkNodes` | rag/raptor.py:505-509 | children and parent links of the nodes are exactly those of the array |
| `PsiBuild.PickRoot` | rag/raptor.py:511-512 | the node with the largest index among those without a parent is the one root |
| `PsiBuild.RiseIsClimb` | rag/raptor.py:505-509 | climbing parent links of the nodes is climbing the array |
| `PsiBuild.Assemble` | rag/raptor.py:491-513 | the linked nodes form one tree whose leaves are the leaves of the inputs |
| `PsiBuild.BuildExact` | rag/raptor.py:471-513 | one properly linked tree, every internal node with at least two children, leaves preserved as a multiset, fresh distinct indices, n-1 merges; leaves meet by parent links exactly as the ranking makes them, and the leaf sets of the nodes are exactly the classes of the ranking at all levels |
| `PsiClades.EntryMeeting` | rag/raptor.py:481-509 | the leaves below the k-th ancestor of x are those of the trees that meet x at level k |
| `PsiClades.TreeByMeetings` | rag/raptor.py:481-513 | every class of the ranking at every level is the leaves of a node of the tree, the input trees stand in it as they were, and it has no other nodes |
| `PsiBuckets.Fanout` | rag/raptor.py:383-383 | at least two parts and strictly fewer than the group has members |
| `PsiBuckets.FanoutLeast` | rag/raptor.py:383-383 | as few parts as let equal parts fit, but at least 2 and at most 32 |
| `PsiBuckets.ByLabelsMean` | rag/raptor.py:398-400 | the parts in label order: none empty, each exactly the members with one label, together the members with those labels |
| `PsiBuckets.SliceAt` | rag/raptor.py:401-405 | slice k starts at member k * size and is full unless it is the last |
| `PsiBuckets.BucketsOfParts` | rag/raptor.py:378-406 | a group that fits is a bucket; the buckets of any other group are those of its parts |
| `PsiBuckets.SameBucketSameLabel` | rag/raptor.py:398-406 | members of one bucket had one label when their group was cut by labels |
| `PsiBuckets.OneLabelBucket` | rag/raptor.py:398-406 | the members with one label are a bucket when they fit |
| `PsiBuckets.ByLabel` | rag/raptor.py:398-400 | every part holds exactly the members with one label; none is empty; together they are the group |
| `PsiBuckets.Slices` | rag/raptor.py:401-405 | consecutive slices, none longer than the bucket size, together the group |
| `PsiBuckets.SplitGroup` | rag/raptor.py:383-405 | for any labelling at least two non-empty parts, fewer than the group has members, together the group; they are the parts of the labels, or the slices when all members have one label |
| `PsiBuckets.CutBuckets` | rag/raptor.py:374-406 | the worklist terminates and covers all positions by non-empty buckets within the size; the buckets are those that cutting the whole list by labels again and again ends in |
| `PsiBuckets.SortBuckets` | rag/raptor.py:409-409 | ordered by length and first member, same buckets |
| `PsiBuckets.SplitBuckets` | rag/raptor.py:368-410 | the buckets that the labels give, smallest first: a covering within the bucket size, strictly fewer buckets than nodes when there are more nodes than the bucket size |
| `PsiBuckets.CoveredOnce` | rag/raptor.py:368-410 | every position is in exactly one bucket, once |
| `PsiBuckets.BucketsDetermined` | rag/raptor.py:368-410 | number of leaves, bucket size and labels leave only one list of buckets |
| `PsiRecursive.Clamp` | rag/raptor.py:188-189 | the configured limits always satisfy 2 <= bucket size <= exact limit |
| `PsiRecursive.ClampIs` | rag/raptor.py:188-189 | the limits that result, case by case: defaults for unset values, 2 for small ones, and the bucket size cut down to the exact limit |
| `PsiRecursive.BuildFromNodes` | rag/raptor.py:545-554 | the mutual recursion terminates for every size: one linked tree over all inputs, leaves preserved, n-1 merges, new indices only, and a record of the stages in which each ranks, or cuts into buckets, as the configuration says |
| `PsiRecursive.BuildBucketed` | rag/raptor.py:515-543 | the bucketed half, recursing on strictly fewer bucket roots |
| `PsiRecursive.BuildBuckets` | rag/raptor.py:531-538 | the loop over the buckets: separate trees, together all leaves |
| `PsiGrowth.InputsStay` | rag/raptor.py:515-554 | every node of the input trees stands in the result with exactly its leaves |
| `PsiGrowth.StagesStay` | rag/raptor.py:515-554 | so does every tree that any stage of the recursion builds |
| `PsiGrowth.StageMeetings` | rag/raptor.py:515-554 | whatever a stage ranks, the trees that meet at a level by its ranking are together the leaves of one node of the final tree |
| `PsiGrowth.FewLeaves` | rag/raptor.py:551-554 | up to the exact limit: the leaves that the one ranking makes meet x at level k are the leaves of one node, for every x and k |
| `PsiGrowth.BucketLeaves` | rag/raptor.py:531-538 | beyond it: the same within every bucket, by the ranking of that bucket |
| `PsiRebalance.CreatePsiParent` | rag/raptor.py:429-434 | a new parent over the given children, linked both ways |
| `PsiRebalance.GroupOnce` | rag/raptor.py:449-461 | one grouping pass keeps leaves and links and has strictly fewer children; its children are exactly the consecutive batches of `limit`, each below a new parent unless it is a single child |
| `PsiRegroup.RowLength` | rag/raptor.py:450-451 | a pass over n children makes ceil(n / limit) groups |
| `PsiRegroup.RowAt` | rag/raptor.py:450-459 | group k holds children k * limit to (k + 1) * limit - 1 below a new parent, or the last child alone as it was |
| `PsiRebalance.GroupChildren` | rag/raptor.py:448-467 | the grouping loop terminates within the fanout limit; the children are those that passes of such batches give |
| `PsiRebalance.Rebalance` | rag/raptor.py:440-467 | below one node: same left-to-right leaves, two to limit children everywhere |
| `PsiRebalance.RootOf` | rag/raptor.py:345-350 | follows parent links to the top |
| `PsiRebalance.RebalanceTree` | rag/raptor.py:436-469 | same root, same left-to-right leaves, consistent links, fanout within the limit; the tree is exactly the old one with its child lists regrouped bottom-up, each old node keeps exactly its leaves and all others are new; a tree already within the limit is untouched |
| `PsiRegroup.RegroupedKeeps` | rag/raptor.py:440-467 | regrouping changes no order of leaves and no leaves of any old node |
| `PsiRegroup.RegroupedTree` | rag/raptor.py:440-467 | the same told on trees: the old nodes with their leaves are exactly the old ones |
| `PsiStructure.BuildStructure` | rag/raptor.py:556-573 | from chunks to one tree: leaves are the chunks in index and text, linked, bushy, within the fanout limit. Up to the exact limit, for every leaf x and level k some node has as its leaves exactly the y that the ranking makes meet x at level k; beyond it the same holds within each of the buckets that the labels give. When the built tree is within the fanout limit it is the result and leaves meet by parent links as the ranking says |
| `PsiStructure.ClimbsIsLifts` | rag/raptor.py:505-509 | whether nodes meet by parent links as a ranking says is decided by the shape of the tree alone |
| `PsiLayers.CollectHeight` | rag/raptor.py:580-586 | the node's height; the dictionary gains exactly its internal nodes at their heights |
| `PsiLayers.CollectLayers` | rag/raptor.py:576-589 | keys are exactly 1 to the root's height, each with its layer |
| `PsiLayers.TallIs` | rag/raptor.py:580-586 | a leaf has height 0, any other node is one higher than its highest child |
| `PsiLayers.LayerLeftToRight` | rag/raptor.py:580-586 | a layer lists its nodes from left to right: their leaves in turn are leaves of the tree in the tree's order |
| `PsiLayers.ChildrenLower` | rag/raptor.py:580-586 | internal children are in strictly lower layers |
| `PsiLayers.ExactlyOneLayer` | rag/raptor.py:576-589 | every internal node is in the layer of its height and in no other |
| `PsiLayers.TopLayer` | rag/raptor.py:576-589 | the top layer is the root alone, nothing lies above it |
| `PsiLayers.LayersFilled` | rag/raptor.py:576-589 | no layer up to the root is empty |
| `PsiLayers.LayersHoldAll` | rag/raptor.py:576-589 | the layers together hold every internal node once |
| `PsiMaterialise.SummariseNode` | rag/raptor.py:599-610 | asks with the non-empty texts of the children, one for each in their order; stores the text exactly on success |
| `PsiMaterialise.KidTextsAppend` | rag/raptor.py:601-601 | the texts of two lists of children are those of the first and then those of the second |
| `PsiMaterialise.KidTextsOne` | rag/raptor.py:601-601 | one child gives its text, or nothing when it has none |
| `PsiMaterialise.SummarisedExactly` | rag/raptor.py:599-610 | a node gets a summary exactly when some child has a text and the call succeeds, and then the answer to those texts |
| `PsiMaterialise.SummariseLayer` | rag/raptor.py:612-624 | the successful answers for the texts before the layer, collected in list order, in whatever order the calls finish |
| `PsiMaterialise.Materialise` | rag/raptor.py:591-640 | chunks are the originals and the summaries of the layers reached, ranges tile them, every text of a reached layer is the summary of its children's final texts; stops only at the top or at a layer without summaries |
| `PsiMaterialise.SettledHolds` | rag/raptor.py:599-624 | a node of a reached layer whose children all have texts holds the summary of exactly those final texts, one for each child in order, when that call succeeds, and its old text when not |
| `PsiMaterialise.RangeHoldsLayer` | rag/raptor.py:612-640 | range k of the result holds the summaries of layer k, range 0 the original chunks |
| `PsiMaterialise.MaterialisedSizes` | rag/raptor.py:591-640 | at most n-1 chunks are added; exactly one for each internal node when every summary succeeds with a text, the last layer then being the root alone |
| `PsiMaterialise.LayerComplete` | rag/raptor.py:599-624 | when every summary succeeds with a text a layer adds one chunk for each node, in the layer's order |
| `PsiStructure.BuildLayers` | rag/raptor.py:591-640 | the whole Psi build: original chunks an unchanged prefix, tiling ranges, at most 2n-1 chunks, exact sizes when every summary succeeds with a text; the tree of BuildStructure, whose reached nodes hold the summaries of their children's final texts |
| `LayerRanges.TiledOnce` | rag/raptor.py:626-640 | every position of a tiled list lies in exactly one layer |
| `RaptorLabels.GetOptimalClusters` | rag/raptor.py:235-247 | is OptimalCount: the first count from 1 to min(max_cluster, n) - 1 with the lowest score, raising exactly when there is no such count |
| `RaptorLabels.OptimalCount` | rag/raptor.py:235-247 | exists exactly when min(max_cluster, n) is at least 2, has the lowest score, and is the smallest such count |
| `RaptorLabels.WidestGap` | rag/raptor.py:267-269 | the first largest gap of the dendrogram distances |
| `RaptorLabels.GapCountIs` | rag/raptor.py:267-271 | cutting after the first largest gap leaves n - gap - 1 clusters: the count is that, but at most max_cluster and at least 1 |
| `RaptorLabels.GetClustersAhc` | rag/raptor.py:249-280 | the labels the library gives for the count that the largest gap suggests; for three or more items at most max(1, min(n-1, max_cluster)) labels |
| `RaptorLabels.NearestLabels` | rag/raptor.py:291-293 | every item gets the label of its first nearest centroid |
| `RaptorLabels.AdjustTreeNodes` | rag/raptor.py:282-299 | moves items to their nearest centroids until nothing moves, one cluster is left or the rounds are used up; never makes more clusters |
| `RaptorLabels.AdjustedRound` | rag/raptor.py:282-299 | one round: labels stay when rounds are used up, one cluster is left or every item is with its first nearest centroid; otherwise all items move at once |
| `RaptorLabels.LabelsByAhc` | rag/raptor.py:690-703 | the agglomerative labels after at most five rounds of adjustment, numbered from 0 and counted |
| `RaptorLabels.LabelsByMixture` | rag/raptor.py:704-719 | the mixture labels with the best count: each item's first component above the threshold, or one cluster for all when that count is 1 |
| `RaptorLabels.CompactLabels` | rag/raptor.py:701-703 | compacted labels are 0 to k-1, all used, equal and ordered exactly as the labels were |
| `RaptorLabels.FirstAbove` | rag/raptor.py:713-714 | the first component above the threshold for every item; raises exactly when some item has none |
| `RaptorLabels.LabelLayer` | rag/raptor.py:685-719 | exactly the labels and cluster count of LabelsOf, for both methods and every error |
| `RaptorLabels.LabelsFit` | rag/raptor.py:685-719 | a labelled layer has 1 to n-1 clusters and labels within the count; the agglomerative method never raises and uses every number |
| `RaptorLabels.LabelsRaise` | rag/raptor.py:235-247 | labelling raises exactly for the mixture method with max_cluster at most 1, or with a best count above 1 and an item without a component above the threshold |
| `RaptorLabels.LabelsMiss` | rag/raptor.py:721-724 | the labels leave a cluster empty exactly when, for the mixture method with a best count above 1, some component is the first above the threshold for no item |
| `RaptorClassic.SplitLayer` | rag/raptor.py:721-726 | the clusters of the labels: non-empty, every position in exactly one; the assertion fails exactly when some cluster is empty |
| `RaptorClassic.ClusterLayer` | rag/raptor.py:672-726 | the pair, or the clusters of the labels; raises exactly when the layer is refused, with that reason; otherwise a split into strictly fewer clusters |
| `RaptorClassic.ClustersByLabels` | rag/raptor.py:721-726 | item i of the layer is in cluster c exactly when its label is c |
| `RaptorClassic.ClustersRaise` | rag/raptor.py:685-724 | a layer raises an error exactly when the guard for that error holds, and for one error only |
| `RaptorClassic.SummariseClusters` | rag/raptor.py:657-666 | appends exactly the successful summaries of the clusters' texts, in the order in which the tasks finish, whatever it is |
| `RaptorClassic.SummariesAppend` | rag/raptor.py:657-666 | the summaries of two lists of clusters are those of the first and then those of the second |
| `RaptorClassic.SummariesOne` | rag/raptor.py:657-666 | a cluster adds the answer to exactly the texts of its chunks, if there is one |
| `RaptorClassic.BuildClassic` | rag/raptor.py:668-754 | terminates; originals a prefix, ranges tile, each layer holds the summaries of the clusters that the configuration gives the one before; ends at one chunk or where those clusters give no summary; raises exactly when a reached layer is refused, with its error |
| `RaptorClassic.SameCourse` | rag/raptor.py:668-754 | two courses of the loop over the same chunks agree layer by layer |
| `RaptorClassic.AhcNeverFails` | rag/raptor.py:685-703 | no layer is refused by the agglomerative method |
| `RaptorClassic.NoLabelRaised` | rag/raptor.py:713-714 | three chunks and an even mixture with threshold one half: no item has a component above it |
| `RaptorClassic.EmptyClusterRaised` | rag/raptor.py:724-724 | the same chunks with threshold one tenth: the second cluster is empty |
| `RaptorClassic.LayersShrink` | rag/raptor.py:668-754 | each layer is strictly smaller than the one before, so layer k has at most n-k chunks |
| `RaptorClassic.EndsAtOneChunk` | rag/raptor.py:668-754 | when every summary succeeds the loop ends at a single chunk |
| `RaptorCall.Call` | rag/raptor.py:642-754 | fewer than two chunks give nothing, fewer than two usable ones are returned as they are; otherwise the usable chunks are a prefix and the ranges tile, for both builders; only the classic one raises, exactly when a layer that it reaches is refused; for the Psi builder the tree behind the result is the one of the configuration and the result holds the summaries of its layers |
| `RaptorCall.KeptAppend` | rag/raptor.py:646-646 | the usable chunks of two lists are those of the first and then those of the second |
| `RaptorCall.KeptOne` | rag/raptor.py:646-646 | a chunk is usable, as it is, exactly when it has a text and an embedding |
| `CanvasGraph.AdmittedReady` | agent/canvas.py:467-496 | everything a batch admits has its inputs earlier on the path |
| `CanvasGraph.NoneDropped` | agent/canvas.py:478-484 | entries whose inputs are present are never dropped |
| `CanvasGraph.AdmittedOrMissing` | agent/canvas.py:478-484 | a pending entry is admitted, or at some point of the batch it missed an input |
| `CanvasGraph.AdvanceLicensed` | agent/canvas.py:591-641 | post-processing only appends, and only what the component licenses |
| `CanvasGraph.BranchByKind` | agent/canvas.py:628-641 | where control goes, kind by kind, as a list: the chosen branch, the container's start, out of a container at its end, and otherwise the downstream list or back to the container's start |
| `CanvasGraph.AdvanceAppends` | agent/canvas.py:591-641 | what is appended is the handler's jump as listed, or that list in its order with immediate repeats left out |
| `CanvasGraph.AdvanceReaches` | agent/canvas.py:591-641 | everything that a component licenses is on the path afterwards, at its former end or appended |
| `CanvasGraph.ExtendAdds` | agent/canvas.py:613-626 | an extension adds only listed entries and never the same one twice in a row |
| `CanvasRun.Canvas.Start` | agent/canvas.py:437-438 | "begin" is appended unless the path ends at a user form; the run starts steady |
| `CanvasRun.Canvas.RunBatch` | agent/canvas.py:449-496 | terminates; the path is the earlier part and the admitted entries, which are invoked once each in order |
| `CanvasRun.Canvas.ReportDrained` | agent/canvas.py:584-589 | reports, in order, exactly the pending streams before the first that is not used up, and drops them |
| `CanvasRun.Canvas.ReportMessage` | agent/canvas.py:579-589 | the message, its end, and then exactly those reports |
| `CanvasRun.Canvas.PostProcess` | agent/canvas.py:527-641 | the exact next path, error, events and pending streams of one component; reported and pending together gain exactly a component that is no container |
| `CanvasRun.EventsByKind` | agent/canvas.py:527-631 | the reports and pending streams of one component, kind by kind, in their order |
| `CanvasRun.ErrorCases` | agent/canvas.py:591-601 | every error jumps, is answered with a default, or is fatal, in exactly one way |
| `CanvasRun.CanceledAnywhere` | agent/canvas.py:674-674 | an error is a cancellation when it holds the fixed text anywhere |
| `CanvasRun.Canvas.Suspend` | agent/canvas.py:648-662 | the path becomes the pending entries, user forms first, each kind in order |
| `CanvasRun.FormsFirst` | agent/canvas.py:649-650 | that reordering loses and invents nothing |
| `CanvasRun.Canvas.Batch` | agent/canvas.py:514-670 | one turn of the loop, exactly: fails exactly when an admitted component has an unhandled error and then cuts the path back to the batch's start; suspends on pending forms; otherwise the steady state is kept; however it ends, invocations and reports are those of the admitted components; when it goes on, everything that one of its components licenses is on the path, not before the last of them |
| `CanvasRun.BatchKeeps` | agent/canvas.py:514-641 | a batch never alters the processed prefix, keeps every entry ready and licensed, and whatever a processed entry licenses has followed it or missed an input |
| `CanvasRun.AdvanceAllReaches` | agent/canvas.py:527-641 | post-processing a batch puts everything that one of its entries licenses on the path, not before the batch's last entry |
| `CanvasRun.Canvas.Run` | agent/canvas.py:510-672 | over any number of batches and however it ends: the invoked components are a trace in which each was ready and licensed by an earlier one, and each is reported or pending once; steady while running or finished, only processed entries after a failure, licensed pending entries after a suspension; every component that a processed entry licenses has followed it on the path, or is pending after a suspension, unless it missed an input |
| `CanvasRun.InputsComeFirst` | agent/canvas.py:478-484 | on a path that does not begin at a user form every executed component on it has all its inputs earlier |
| `CanvasRun.InvokedHadInputs` | agent/canvas.py:478-484 | every component that a run invoked, also in a failing or suspending batch, had all its inputs earlier on the trace |
| `CanvasRun.AppendedByProcessed` | agent/canvas.py:591-641 | every appended entry is licensed by an earlier processed one |
| `CanvasRun.NothingLeftOut` | agent/canvas.py:478-641 | a finished run leaves out no component that could run: what an executed one licenses is executed too, not before it, if its inputs were there when that one had run |
| `TextPatterns.EscapeIsEach` | common/metadata_es_filter.py:578-580 | three sequential replacements escape each special character exactly once |
| `TextPatterns.EscapedReads` | common/metadata_es_filter.py:578-580 | escaped text reads back as literal characters in front of any pattern |
| `TextPatterns.ContainsPattern` | common/metadata_es_filter.py:295-297 | escaped text between wildcards matches exactly the texts that contain it |
| `TextPatterns.PrefixPattern` | common/metadata_infinity_filter.py:179-182 | escaped text before the wildcard matches exactly the texts that start with it |
| `TextPatterns.SuffixPattern` | common/metadata_es_filter.py:312-314 | escaped text after the wildcard matches exactly the texts that end with it |
| `MetaDocs.Flatten` | api/db/services/doc_metadata_service.py:794-821 | the flattened form lists a document under exactly its values |
| `MetaFilter.FilterOut` | common/metadata_utils.py:53-151 | the documents of exactly the buckets that pass, although the value is normalised again for each |
| `MetaFilter.LowerTwice` | common/metadata_utils.py:46-51 | normalising again changes nothing |
| `MetaFilter.Select` | common/metadata_utils.py:43-172 | exactly the documents for which all, or some, filters hold; the early exit loses nothing; no filter selects nothing |
| `MetaFilter.BucketsAreDocs` | common/metadata_utils.py:152-172 | on flattened documents a filter holds when some value passes |
| `EsFilter.PlanPushdown` | common/metadata_es_filter.py:331-348 | a known logic and all filters translated, or nothing |
| `EsFilter.IsPushdownSupported` | common/metadata_es_filter.py:351-370 | exactly the requests without a missing key, unknown operator, not-equal or not-in |
| `EsFilter.OneAtomicClause` | common/metadata_es_filter.py:116-134 | a translated filter collapses to exactly one clause with its own meaning |
| `EsFilter.WrappingMatters` | common/metadata_es_filter.py:119-131 | without the wrapping a range filter under "or" would accept by mere presence |
| `EsFilter.QueryDenotes` | common/metadata_es_filter.py:147-177 | the query means the scope and the and/or of the filters' own meanings |
| `EsFilter.ComparisonsMean` | common/metadata_es_filter.py:264-293 | equality selects the documents with an equal value, inequality those with values but no equal one, ranges those with a value in range, not in the valued documents that in rejects |
| `EsFilter.RangesCompareNumbers` | common/metadata_es_filter.py:440-460 | a range filter on numbers selects exactly the documents with a number on that side of the one its text denotes |
| `EsComparisons.EqualsCompare` | common/metadata_es_filter.py:414-437 | what a typed text stands for in an equality, spaces aside: a date for itself, a number or truth value for that value, a quoted text for what is in the quotes, any other text for itself; texts compare ignoring case |
| `EsComparisons.TextOperatorsMean` | common/metadata_es_filter.py:295-314 | contains, start with, end with and not contains, position by position of the stored texts |
| `EsComparisons.StripsPadding` | common/metadata_es_filter.py:426-426 | stripping takes the spaces off both ends and nothing else |
| `EsComparisons.SplitsAtComma` | common/metadata_es_filter.py:493-493 | the members before a comma and then those after it |
| `EsComparisons.OnePart` | common/metadata_es_filter.py:493-493 | a part between commas is stripped, and dropped when nothing is left of it |
| `EsComparisons.Refused` | common/metadata_es_filter.py:194-236 | a filter is refused for a missing key or unknown operator, and otherwise exactly when its value does not suit the operator |
| `EsAgreement.PositiveTextAgrees` | common/metadata_es_filter.py:295-314 | contains, start with and end with agree with the evaluator on every list of strings |
| `EsAgreement.NotContainsAgrees` | common/metadata_es_filter.py:299-304 | not contains agrees exactly when the values do not mix texts with and without the sought one; always on a single value |
| `EsAgreement.NotContainsDiffers` | common/metadata_es_filter.py:83-85 | a two-value document on which it does not agree |
| `EsAgreement.EmptyAgrees` | common/metadata_es_filter.py:238-256 | empty agrees exactly on documents that have a value |
| `EsAgreement.EmptyDiffers` | common/metadata_es_filter.py:238-256 | a document without the key: the query selects it, the evaluator does not |
| `EsAgreement.NotEmptyAgrees` | common/metadata_es_filter.py:258-262 | not empty agrees exactly on documents that do not mix blank and other values |
| `EsAgreement.NotEmptyDiffers` | common/metadata_es_filter.py:258-262 | a list of a blank and another value: the evaluator selects it, the query does not |
| `EsAgreement.PushdownSelectsTheSame` | common/metadata_es_filter.py:317-348 | for either logic and any filters of the fragment the pushed-down query selects exactly what the evaluator selects |
| `EsAgreement.NoFilterDiffers` | common/metadata_es_filter.py:147-177 | without filters the query selects its whole scope, the evaluator nothing |
| `EsMembership.InListAgrees` | common/metadata_es_filter.py:284-286 | in with a list agrees on a document exactly when it has a member as written if and only if it has a member once stripped; always when no member has spaces around it |
| `EsMembership.InListAgreesAlways` | common/metadata_es_filter.py:503-503 | in with a list agrees on all string data exactly when no member has spaces around it |
| `EsMembership.NotInListAgrees` | common/metadata_es_filter.py:288-293 | the exact condition under which not in agrees; without spaces around members, that the values do not mix members and others |
| `EsMembership.InTextAgrees` | common/metadata_utils.py:118-119 | in with a text: the query selects no more than the evaluator; they agree exactly when some value is a whole member or none lies inside the text |
| `EsMembership.InTextDiffers` | common/metadata_utils.py:118-119 | the value "al" and the text "alice": the evaluator selects the document, the query does not |
| `EsMembership.PartsInside` | common/metadata_es_filter.py:493-493 | every part of a comma-separated text lies inside it |
| `InfinityFilter.TranslateIn` | common/metadata_infinity_filter.py:125-142 | the text of in, strings before numbers |
| `InfinityFilter.TranslateNotIn` | common/metadata_infinity_filter.py:144-161 | the text of not in |
| `InfinityFilter.BuildInfinityFilter` | common/metadata_infinity_filter.py:190-203 | "1=1" without filters; otherwise the joined fragments in parentheses, refused exactly when the logic is unknown or a filter is refused |
| `SqlRoundTrip.LexQuote` | common/metadata_infinity_filter.py:291-292 | a quoted literal reads back as its text, quotes in it or not |
| `SqlRoundTrip.ReadsBack` | common/metadata_infinity_filter.py:197-203 | reading the text of a tree under NOT over AND over OR gives the tree back |
| `InfinityMeaning.TextIsTree` | common/metadata_infinity_filter.py:61-187 | the text of every single filter is the text of its tree |
| `InfinityMeaning.ReadsAsCondition` | common/metadata_infinity_filter.py:197-203 | the whole text reads back as exactly the tree of its filters, whatever texts they hold |
| `InfinityMeaning.ConditionMeans` | common/metadata_infinity_filter.py:190-203 | what is read back means the and, or the or, of the single filters |
| `InfinityComparisons.TestsRead` | common/metadata_infinity_filter.py:103-171 | equality, inequality and contains on a typed text read back as a test for the number it denotes once stripped, or for the text as it is |
| `InfinityComparisons.RangeReads` | common/metadata_infinity_filter.py:117-123 | a range reads back as a comparison of the extracted number with that number, or of the extracted text with the text |
| `InfinityComparisons.OthersRead` | common/metadata_infinity_filter.py:97-177 | not contains tests for the text whatever it denotes; empty and not empty compare with two double quotes |
| `InfinityComparisons.KeysAllowed` | common/metadata_infinity_filter.py:25-30 | a key is letters, digits and underscores and starts with no digit; one line feed may follow |
| `InfinityComparisons.RefusedValues` | common/metadata_infinity_filter.py:61-95 | a filter is refused for its key or operator, and otherwise exactly when its value does not suit the operator |
| `InfinityMeaning.NotInIsComplement` | common/metadata_infinity_filter.py:125-161 | in accepts the documents with a member, not in exactly the others |
| `InfinityMeaning.LiteralEnds` | common/metadata_infinity_filter.py:179-187 | start with and end with test literal ends, both escapes undone |
| `VariableRefs.SubstituteNothing` | agent/dsl_migration.py:67-76 | a text whose references keep their ids stays as it is |
| `VariableRefs.RefsRenamed` | agent/dsl_migration.py:63-76 | the references of a rewritten text are the renamed references, no more and no fewer |
| `VariableRefs.ReferenceRenamed` | agent/dsl_migration.py:67-76 | what stands before a reference is copied, its id is renamed, everything else about it stays, and the search goes on after its closing braces |
| `DslMigration.BuildIdMap` | agent/dsl_migration.py:53-61 | the first fitting legacy prefix of every component id is replaced |
| `DslMigration.RenameSettles` | agent/dsl_migration.py:22-26 | new ids are never renamed again |
| `DslMigration.RebuildComponents` | agent/dsl_migration.py:87-115 | the components loop, later entries replacing earlier ones of the same new id |
| `DslMigration.ReplaceEdgeId` | agent/dsl_migration.py:159-172 | the replacement loop over an edge id, longest component id first |
| `DslMigration.Normalize` | agent/dsl_migration.py:35-178 | the migration as a whole, unhashable ids raising; what the result is called is stated by DslNames |
| `DslNames.IdsRenamed` | agent/dsl_migration.py:22-61 | the three prefixes and their new ones, as literals; no other id is renamed |
| `DslNames.IdsFollowNames` | agent/dsl_migration.py:22-61 | ids and names are renamed alike: for each legacy name n the id n:rest becomes the new name of n, a colon and rest |
| `DslNames.NameOfComponent` | agent/dsl_migration.py:87-96 | the name of a migrated component: the three literal pairs, any other name a text like the rest, null where it was missing |
| `DslNames.OtherName` | agent/dsl_migration.py:63-96 | another name stays exactly when it is no renamed component id and refers to none |
| `DslNames.CustomNameChanges` | agent/dsl_migration.py:42-43 | a name that is itself the id of a legacy component does not stay |
| `DslNames.DocumentNames` | agent/dsl_migration.py:87-115 | every component of a migrated document, with or without collisions, is some original one under its new id and name |
| `DslNames.ComponentsCalled` | agent/dsl_migration.py:87-115 | without collisions component i is the i-th |
| `DslNames.DrawnNames` | agent/dsl_migration.py:123-172 | drawn node j has its type, label and name renamed by the literal pairs and drawn edge j its id rewritten; no other entry of either is touched |
| `DslNames.ReplaceAbsent` | agent/dsl_migration.py:170-171 | an edge id without a component id in it stays |
| `DslNames.ReplaceFirst` | agent/dsl_migration.py:170-171 | the first occurrence of the component id is replaced and the search goes on after it |
| `DslNames.ReplaceInTurn` | agent/dsl_migration.py:169-172 | the ids are replaced one after the other |
| `DslNames.OrderedByLength` | agent/dsl_migration.py:159-159 | all ids, longest first, those of one length in their order |
| `DslGraph.MigrateIdempotent` | agent/dsl_migration.py:35-178 | migrating twice is migrating once, on every document |
| `DslIsomorphism.ComponentsKept` | agent/dsl_migration.py:87-115 | every component survives exactly when no two new ids collide |
| `DslIsomorphism.CollidingIds` | agent/dsl_migration.py:87-115 | "Splitter:a" and "TokenChunker:a" become one component |
| `DslIsomorphism.EntriesRenamed` | agent/dsl_migration.py:98-107 | entry k of a link list is the new id of b exactly where it was b, or named no component but read like b's old or new id |
| `DslIsomorphism.LinksRenamed` | agent/dsl_migration.py:98-107 | links between components are exactly the renamed ones and those that such stray entries add, on every document without collisions |
| `DslIsomorphism.ClosedNoStray` | agent/dsl_migration.py:98-107 | when every listed entry is a component no such link is added |
| `DslIsomorphism.PlainStray` | agent/dsl_migration.py:63-76 | an entry without references is read as a component exactly when it is that component's new id |
| `DslIsomorphism.ListImage` | agent/dsl_migration.py:98-107 | a migrated list has the same entries in the same places, each renamed |
| `DslIsomorphism.ParentImage` | agent/dsl_migration.py:109-111 | a migrated component has a parent exactly when it had one, the renamed one |
| `DslIsomorphism.MigrationKeepsGraph` | agent/dsl_migration.py:35-178 | in the migrated document without collisions: the same components with the same lists entry by entry and the same parents under new ids, links and parents exactly the renamed ones and those of strays, and drawn nodes (id, parent, form), drawn edges and path renamed one by one |
| `DslIsomorphism.PathRenamed` | agent/dsl_migration.py:117-121 | the path of the migrated document, entry by entry |
| `DslIsomorphism.DocumentNodes` | agent/dsl_migration.py:123-155 | drawn node j is drawn node j with id and parent looked up and its form rewritten |
| `DslIsomorphism.DrawnId` | agent/dsl_migration.py:130-136 | a drawn id becomes the new id of a component exactly where it was its id, or no id at all but already the new one |
| `DslIsomorphism.DocumentEdges` | agent/dsl_migration.py:157-166 | drawn edge j is drawn edge j with both ends looked up |
| `DslReferences.ParametersKept` | agent/dsl_migration.py:63-85 | rewriting leaves a value as it is exactly when no text in it is a renamed component id or, being no component id, refers to a renamed one |
| `DslReferences.ValueRefs` | agent/dsl_migration.py:63-85 | the references in a rewritten value, through all nesting, are the renamed ones in order, exactly when no text that is itself a component id holds a reference that would be renamed |
| `DslReferences.PlainIdsCalm` | agent/dsl_migration.py:63-65 | component ids without braces never stand in the way |
| `DslReferences.ComponentRefs` | agent/dsl_migration.py:87-115 | the same for a whole migrated component |
| `DslReferences.ReferencesMoved` | agent/dsl_migration.py:35-178 | the same in the migrated document for every component, the form of every drawn node, the history, the messages and the reference list; other fields are unchanged |
| `DslReferences.ReferencesResolve` | agent/dsl_migration.py:63-76 | such a reference resolves to the component that it resolved to before, under its new id, and to no other |
| `LocalVault.MergeSections` | common/local_secrets_vault.py:308-311 | offered sections replace the current ones, everything else is ignored |
| `LocalVault.MergeAt` | common/local_secrets_vault.py:308-311 | section by section: an offered one replaces the current one, the others stay, no name is added |
| `LocalVault.Vault.UnlockVault` | common/local_secrets_vault.py:317-343 | the exact next state for every outcome of the session store; on success an unlocked session has the decrypted cache |
| `LocalVault.Vault.SealCategories` | common/local_secrets_vault.py:302-314 | the exact next state, creation included |
| `LocalVault.Vault.LockVault` | common/local_secrets_vault.py:346-347 | the exact next state; locked when the session could be deleted |
| `LocalVault.Vault.GetCategory` | common/local_secrets_vault.py:387-397 | nothing when locked or unknown; in a coherent state exactly what decrypting gives |
| `LocalVault.StepCoherent` | common/local_secrets_vault.py:302-347 | coherence is kept exactly unless a failed call to the session store leaves a stale cache behind an unlocked session |
| `LocalVault.RunCoherent` | common/local_secrets_vault.py:302-347 | over every run with a serving session store, and any expiry, an unlocked session and a cache agree with the files |
| `LocalVault.RunStores` | common/local_secrets_vault.py:302-347 | over every run, what is stored in a category is what was offered for it last, whatever was locked, expired or failed in between |
| `LocalVault.RunServes` | common/local_secrets_vault.py:302-397 | over every served run an unlocked session reads that section from the cache |
| `LocalVault.CodeUnlocks` | common/local_secrets_vault.py:317-343 | a locked vault is unlocked by one event only: a valid code for the stored vault |
| `LocalVault.OnlyCodesUnlock` | common/local_secrets_vault.py:317-347 | over every run a vault that ends up unlocked had a valid code |
| `LocalVault.StaleAfterFailedWrite` | common/local_secrets_vault.py:313-314 | a run with one failed cache write after which the old section is still served |

## Left out

- Embeddings, UMAP, mixtures, agglomerative fits, centroids, cosine ranking and prompts: answers of parameters; real numbers stand for floating point, so rounding and NaN are not modelled.
- Errors, cancellation, retries, time limits and the error budget of language model calls: a summary succeeds or is missing.
- `rag/raptor.py:412-427`, prototype embeddings and the node iterator: they only feed the ranking parameter.
- `rag/raptor.py:384-396`, the rounds of bucket centres: only the resulting labels matter.
- PsiBuckets.SortBuckets: the library sort is written out as an insertion sort on the same key; equal keys keep their order.
- PsiBuckets.CutBuckets: the filter for empty buckets after the worklist is not modelled, because no bucket is empty.
- PsiUnionFind.UnionFind.HangBelow: both unequal-rank branches of `union` are this one method, called with the roles exchanged.
- PsiMaterialise.MaterialisedSizes: the exact sizes ask for summaries with a text, because a summary that succeeds with an empty text is skipped one layer up; SummarisedExactly is the exact condition for one node.
- PsiMaterialise.LayerComplete: asks for summaries with a text, for the same reason.
- PsiStructure.BuildLayers: its exact sizes ask for summaries with a text, for the same reason.
- CanvasRun.Canvas.Run: bounded by a number of batches, because workflows may loop for ever; every property holds for each bound.
- CanvasRun.Canvas.RunBatch: tasks of one batch are invoked in path order; completion order inside a batch is not modelled.
- Canvas lookups of unknown component ids, which raise: the graph is a total function of ids. Cancellation, inputs and outputs as values, speech, files, logs, history and time stamps of a run.
- Comparison operators and date or literal coercion in `meta_filter`, where `value` is rebound between buckets: the in-memory model covers the operators on text, emptiness and membership.
- EsAgreement.PushdownSelectsTheSame: for the fragment that `InFragment` names; `in` has its own results in `EsMembership`.
- Field paths are constructors, not strings, so a metadata key that itself ends in `.keyword` is not distinguished; case folding maps characters one by one and is the same on both sides, whereas `case_insensitive` in Elasticsearch folds ASCII letters only, so the case of other letters is not covered; keyword length limits of an index are not modelled.
- What the Infinity engine's JSON functions return: atoms are a parameter. LiteralEnds takes the engine to compare the extracted text with the pattern.
- DslMigration.ReplaceEdgeId: says how the text of an edge id is rewritten, not that the result is unique or names the new ends; ids that contain each other make both false.
- JSON numbers are integers, and dictionaries are lists of fields in insertion order; Python's copy of the document is implicit.
- Vault cryptography, one-time codes, files, several users and forced re-initialisation: decrypting what the same key encrypted gives it back, and code checking is a flag of the event.
- HTTP clients, command line tools, web front end, storage engines, parsing and ingestion.
