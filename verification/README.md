# Replay engine and observer scheduler: a Dafny model

The first part models the replay engine of `conflict_interface`: game states are tree-shaped
values recorded as bidirectional patches, patches are stored in a byte buffer edited in place,
and a reader travels through time over a graph of patches. The second part models the
scheduler of the server observer.

Each file is one module; the modules build on each other in this order.

- `Values`: values, `apply_operation` with its error paths, and the disciplined slot semantics
  all later proofs use. `Sorting`: the library sort and facts about permutations.
  `Powers`: powers of two.
- `Diff`: the recursive comparison of two states and its two patches.
- `OpFold`, `LongPatch`, `OpTree`, `Collapse`, `Cancellation`, `LongPatchBuilder`,
  `LongPatchLimits`: merging a chain of patches into one long patch, what it preserves, when
  nothing is left of it, and where it goes wrong.
- `ObjectStore`, `RefCache`, `SharedValues`: states as objects in memory, `apply_patch` through
  cached references, and what applying a stored patch twice does.
- `EulerTour`, `SparseTable`, `Steiner`, `PathTree`, `PathIndex`: the path tree, its journal,
  its tour and the subtree that connects a set of paths.
- `PatchGraph`, `Jump`, `Recording`, `JumpLimits`: the patch graph, `jump_to`, how a recording
  becomes a graph, and a family of jumps that fail.
- `Bytes`, `Storage`, `PatchCodec`, `ObjectCodec`: the file format. `ReplayFile`: from recorded
  states to bytes and back to a replay one can jump in.
- `Timeline`: the segments appends and closings leave, and which times they cover.
- `DueUpdates`, `PendingSessions`, `Retry`, `UpdateGrid`: the observer.

## What holds only under conditions

- Long patches. Let a chain of patches be the operations in order. (E): no operation on an
  ancestor path falls between two operations on one path. (C): if a path is changed after the
  last operation on an ancestor, every path strictly between them is changed after that
  operation too. On every valid chain the collapse (`LongPatch.IsCollapse`) applies, and it
  is right if and only if the chain is *loss-free*: under each topmost slot, the operations below
  every skipped child (one without a slot, or with an older one) have no net effect on what the
  slot's value holds there, and no child whose operations cancelled is there to begin with. (E) and (C) together
  imply loss-free. Ordinary recordings violate (C): adding an entry and later changing something
  two levels inside it is enough (`NestedMerged`).
- The code computes the collapse wherever every kept operation *fits* the value it is pushed
  into, at every depth: carried out in order of creation each finds its entry as it needs it.
  (E) implies this. Without (E) it may hold, and a removed entry come back (`SandwichMerged`); or
  not, and `create_long_patch` raise although nothing is wrong with the chain (`MissingRaises`).
- A merged patch can be empty, and then `create_long_patch` raises (the unpacking of an empty
  sorted list). This happens exactly when every topmost addressed position is empty before and
  after the chain (`EmptyExactly`), hence only between equal states (`EmptyUnchanged`);
  `TracelessJump` gives a family of recordings in which a jump fails this way.
- `apply_patch` fails on a patch in which an operation lies below an earlier one, because the
  references below the earlier one are reset; it succeeds on every other fitting patch.
  Recorded and merged patches never nest.
- A stored patch holds the objects it adds. If the state changes one in place and the entry is
  removed without that change being undone first, as a merged patch does, applying the stored
  patch again adds the changed object (`AppliedAgain`).
- Metadata loses map ids longer than 40 bytes and trailing zero bytes; the object serialiser
  takes a plain list that starts with -1 for a registered type.
- A due update that finds its session gone returns before `cleanup_first_update_tracking`. In
  every interleaving of runs this loses no first-update slot (`LookUp`).
- The cap on first updates bounds slots: several runs of one game share one (`SharedSlot`).
- The outage tracker's description says that budgets are not touched while a circuit is open.
  `ChargedExactly` and `ChargedWhileDown` say for which failures this is so.
- If the pool outgrows its size field, an append raises after index, count and bytes have
  changed (`AppendPatches`).
- `jump_to` a time at or before the first segment's start changes nothing: `find_segment`
  excludes a segment's start instant.
- The description of `_validate_segments_non_overlapping` speaks of half-open intervals closed
  at both ends; the model follows the code, where the start instant is not covered.

## Model

| member | source | states |
|---|---|---|
| `Values.StepIsExec` | libs/conflict_interface/conflict_interface/replay/apply_replay_helper.py:12-76 | on every disciplined operation (Add to an empty slot, Replace and Remove on a full one, lists only at their end, objects only replaced into), the code's walk and `apply_operation` succeed and give the state the slot semantics gives |
| `Values.RunIsExec` | libs/conflict_interface/conflict_interface/replay/apply_replay_helper.py:12-76 | the same for every whole patch: disciplined success implies the code's success, with the same state |
| `Values.ExecIsDisciplined` | libs/conflict_interface/conflict_interface/replay/apply_replay_helper.py:12-76 | on every well-formed state every operation whatever does what its disciplined form does and raises exactly where that is not allowed: a dict does not tell Add and Replace apart, an object is only replaced into (a Remove leaves None, an Add needs it), a list appends at its end wherever the Add points |
| `Values.RunWellFormed` | libs/conflict_interface/conflict_interface/replay/apply_replay_helper.py:48-76 | every run of operations keeps lists dense (keys 0..n-1) and objects string-keyed, at every depth |
| `Values.Split` | libs/conflict_interface/conflict_interface/replay/op_tree.cpp:47-110 | running operations on a container is a product over its keys: it succeeds if and only if the direct operations respect the key discipline and every key's own operations succeed on that slot alone, and the result is assembled slot by slot |
| `Diff.BidirectionalReplayPatch.Add` | libs/conflict_interface/conflict_interface/replay/replay_patch.py:43-59 | appends the forward Add, puts its Remove in front of the backward operations |
| `Diff.BidirectionalReplayPatch.Replace` | libs/conflict_interface/conflict_interface/replay/replay_patch.py:61-78 | appends the forward Replace with the new value, puts the Replace with the old value in front |
| `Diff.BidirectionalReplayPatch.Remove` | libs/conflict_interface/conflict_interface/replay/replay_patch.py:80-96 | appends the forward Remove, puts the Add of the old value in front |
| `Diff.DiffAny` | libs/conflict_interface/conflict_interface/replay/make_bipatch_between_gamestates.py:31-58 | what any comparison under a path adds: exactly the differences between the two values, all of them and nothing else, in both directions (an Add where only the second holds a value, a Remove where only the first does, a Replace where both do and the two differ in type or are unequal primitives, each reached through containers of one kind), non-nested and mirrored; they lead from the first value to the second and back |
| `Diff.DiffObject` | libs/conflict_interface/conflict_interface/replay/make_bipatch_between_gamestates.py:60-80 | the same for two objects of one class, attribute by attribute: equal attributes give nothing, a changed one what is different inside it |
| `Diff.DiffList` | libs/conflict_interface/conflict_interface/replay/make_bipatch_between_gamestates.py:83-105 | the same for two lists: inside the elements both have, then appends upwards or removals downwards |
| `Diff.DiffDict` | libs/conflict_interface/conflict_interface/replay/make_bipatch_between_gamestates.py:109-146 | the same for two dicts, for every order in which keys are visited: inside the entries both have, and one operation for each entry only one has |
| `Diff.MakeBiReplayPatch` | libs/conflict_interface/conflict_interface/replay/make_bipatch_between_gamestates.py:11-28 | the two patches hold exactly the differences between the states, each at its own path, and are empty if and only if the states are equal; round trip: forward(a) = b and backward(b) = a for all a and b of one root type, by the code's own application, with pairwise non-nested paths; if the roots differ in type (or are unequal primitives) both patches address the root and both fail |
| `OpFold.FoldRun` | libs/conflict_interface/conflict_interface/replay/op_tree.cpp:58-108 | the fold of one slot is right for every valid run: its kind tells whether the slot was full before and is full after the last direct operation, and what remains of the run are the deeper operations after that one, started from the folded value |
| `OpFold.ListFold` | libs/conflict_interface/conflict_interface/replay/op_tree.cpp:58-108 | folding any valid run of end-only list operations per index and sorting by creation time gives a run that still removes only the last element and appends indices in order, from the same length to the same length |
| `LongPatch.DfsExact` | libs/conflict_interface/conflict_interface/replay/long_patch.py:72-116 | on every chain, pushing later changes into a slot's value gives what running them gives, if and only if the operations under the skipped children have no net effect and no cancelled child is there to begin with |
| `LongPatch.DfsCorrect` | libs/conflict_interface/conflict_interface/replay/long_patch.py:72-116 | under (E) and (C) the push gives what running the later operations gives |
| `LongPatch.CollapseExact` | libs/conflict_interface/conflict_interface/replay/long_patch.py:13-69 | on every valid chain the collapsed patch applies to the start state without error, and gives the chain's end state if and only if the chain is loss-free |
| `LongPatch.CollapsePreserves` | libs/conflict_interface/conflict_interface/replay/long_patch.py:13-69 | under (E) and (C) the collapsed patch gives exactly the chain's end state |
| `OpTree.ChainTimes` | libs/conflict_interface/conflict_interface/replay/op_tree.cpp:47-57 | the running counter stamps the operations of a chain of patches with pairwise distinct, increasing times |
| `OpTree.BuildOpTree` | libs/conflict_interface/conflict_interface/replay/op_tree.cpp:26-129 | the two nested loops compute, for every node of the subtree, the fold of exactly the operations on that path, in order |
| `Collapse.Prune` | libs/conflict_interface/conflict_interface/replay/long_patch.py:96-110 | keeps exactly the children changed since the slot's last change, in order of creation time |
| `Collapse.DfsApplyOps` | libs/conflict_interface/conflict_interface/replay/long_patch.py:72-116 | the recursive in-place application computes the push, without error and with a well-formed result, wherever every kept operation fits the value it is pushed into, at every depth; it raises where one is to be removed from a dict that does not have it |
| `Collapse.DictFit` | libs/conflict_interface/conflict_interface/replay/apply_replay_helper.py:48-76 | on a dict the kept operations fit if and only if each removal finds its entry, so there the two cases of `DfsApplyOps` are all |
| `Collapse.FoldablePushable` | libs/conflict_interface/conflict_interface/replay/long_patch.py:72-116 | in every chain that satisfies (E) and can be run, every kept operation fits |
| `Collapse.CollapseOpTree` | libs/conflict_interface/conflict_interface/replay/long_patch.py:13-69 | on any chain the walk emits only paths of the chain; where every kept operation fits, it emits exactly the topmost effective slots in order of creation time and raises if and only if there is none; it raises where a topmost dict is to lose an entry it does not have |
| `Cancellation.EmptyExactly` | libs/conflict_interface/conflict_interface/replay/long_patch.py:66-69 | nothing of a valid chain survives, so that the unpacking of the sorted list raises, if and only if every topmost addressed position is empty before the chain and after it |
| `Cancellation.EmptyUnchanged` | libs/conflict_interface/conflict_interface/replay/long_patch.py:66-69 | a valid chain of which nothing survives ends in the state it started from |
| `Collapse.CollapseApart` | libs/conflict_interface/conflict_interface/replay/long_patch.py:66-69 | two operations of a collapse with one creation time are the same: the sort never compares anything but times |
| `LongPatchBuilder.CollapseShorter` | libs/conflict_interface/conflict_interface/replay/long_patch.py:256-283 | a collapse has no more operations than its chain |
| `LongPatchBuilder.CollapseIsFlat` | libs/conflict_interface/conflict_interface/replay/long_patch.py:49-64 | the paths of a collapse are pairwise non-nested |
| `LongPatchBuilder.CreateLongPatch` | libs/conflict_interface/conflict_interface/replay/long_patch.py:256-283 | on any chain the patch addresses only paths of the chain; where every kept operation fits, as under (E), it is the collapse: it fails if and only if every topmost addressed position is empty before and after, and then the chain changes nothing; otherwise the patch applies, is no longer, is non-nested, keeps values well-formed, and reaches the chain's end state if and only if the chain is loss-free, which (E) and (C) imply |
| `LongPatchLimits.NestedChangeLost` | libs/conflict_interface/conflict_interface/replay/long_patch.py:103-107 | every chain that adds a dict entry and then changes something at least two levels inside it satisfies (E), violates (C), and its collapse drops the change |
| `LongPatchLimits.NestedMerged` | libs/conflict_interface/conflict_interface/replay/long_patch.py:256-283 | what `create_long_patch` returns on each of these chains: the Add alone |
| `LongPatchLimits.HealthLost` | libs/conflict_interface/conflict_interface/replay/long_patch.py:103-107 | a concrete instance: a unit added with health 1 and then raised to 2 is left at 1 by the merged patch |
| `LongPatchLimits.SandwichKeepsRemoved` | libs/conflict_interface/conflict_interface/replay/op_tree.cpp:66-108 | every chain that adds an entry, replaces its container by one holding the key, and removes the key violates (E) and is not loss-free: its collapse keeps the entry |
| `LongPatchLimits.SandwichMerged` | libs/conflict_interface/conflict_interface/replay/long_patch.py:256-283 | what `create_long_patch` returns on each of these chains: one Replace, which brings back the entry the chain removes |
| `LongPatchLimits.MissingRaises` | libs/conflict_interface/conflict_interface/replay/long_patch.py:256-283 | on every chain that removes an entry, replaces its container by one without the key, and adds and removes the entry again, `create_long_patch` raises, although the chain can be run and changes the state |
| `ObjectStore.Frame` | libs/conflict_interface/conflict_interface/replay/apply_replay_helper.py:12-76 | a write to an object outside an unshared graph leaves the value it represents, its cells and its unsharedness alone |
| `ObjectStore.WalkKept` | libs/conflict_interface/conflict_interface/replay/path_tree.py:158-164 | a write to one key of the container at a path changes no walk from the root that does not pass through that key |
| `ObjectStore.StepThrough` | libs/conflict_interface/conflict_interface/replay/apply_replay_helper.py:12-76 | one operation, carried out on the container object reached by walking the parent path, turns a graph that represents the value into one that represents the stepped value, still unshared, touching one key of one object |
| `RefCache.ReplaySegment.SetChildren` | libs/conflict_interface/conflict_interface/replay/apply_replay_helper.py:79-109 | each child's reference is the object a walk reaches; it succeeds wherever that walk does |
| `RefCache.ReplaySegment.BfsSetReferences` | libs/conflict_interface/conflict_interface/replay/path_tree.py:142-156 | resolves every node of the subtree to the object a walk from the root reaches, keeping all cached references right; it succeeds whenever every node has a container |
| `RefCache.ReplaySegment.ResetChildReferences` | libs/conflict_interface/conflict_interface/replay/path_tree.py:158-164 | forgets exactly the references strictly below the node |
| `RefCache.ReplaySegment.UnknownPaths` | libs/conflict_interface/conflict_interface/replay/replay_segment.py:205-211 | lists exactly the operations whose reference is missing or an empty container |
| `RefCache.PatchNeeds` | libs/conflict_interface/conflict_interface/replay/replay_segment.py:196-234 | every container a patch without nesting writes to exists before the patch |
| `RefCache.ReplaySegment.ApplyPatch` | libs/conflict_interface/conflict_interface/replay/replay_segment.py:196-234 | on an unshared state and fresh values a fitting patch of tree paths is carried out if and only if no operation lies below an earlier one; the state is then the one a fresh walk per operation gives, and every cached reference is again the object such a walk reaches |
| `SharedValues.AppliedAgain` | libs/conflict_interface/conflict_interface/replay/apply_replay_helper.py:48-76 | what a stored patch adds is the object it holds: applied, the entry changed inside the state, removed, and the patch applied again, the entry is the changed one; so the state is the recorded one again if and only if the change was undone on the object in between |
| `RefCache.Load` | libs/conflict_interface/conflict_interface/replay/replay_segment.py:62-70 | a loaded segment, its path tree indexed and its cache empty, satisfies what `ApplyPatch` asks for |
| `EulerTour.TraceOnce` | libs/conflict_interface/conflict_interface/replay/path_tree.py:77-99 | in the tour of every tree each node at or below u is entered once and left once, no other node at all |
| `EulerTour.IntervalIsAncestor` | libs/conflict_interface/conflict_interface/replay/path_tree.py:65-101 | `tin[u] <= tin[v] <= tout[u]` if and only if u is v or an ancestor of v |
| `EulerTour.ShallowestIsLca` | libs/conflict_interface/conflict_interface/replay/steiner_tree.cpp:57-67 | the shallowest tour entry between the first visits of two nodes is their lowest common ancestor, although the revisit after the last child is missing |
| `EulerTour.PrecomputeEulerTour` | libs/conflict_interface/conflict_interface/replay/path_tree.py:65-101 | the stack machine fills `euler`, `tin`, `tout`, `depth`, `parent` and `first` as the recursive tour defines them, for every tree and child order |
| `SparseTable.FillLog` | libs/conflict_interface/conflict_interface/replay/path_tree.py:104-107 | every table entry is the rounded-down binary logarithm |
| `SparseTable.PrecomputeRmq` | libs/conflict_interface/conflict_interface/replay/path_tree.py:103-121 | every entry is the place of a shallowest node in its window of length 2^k |
| `SparseTable.Precompute` | libs/conflict_interface/conflict_interface/replay/path_tree.py:61-63 | tour and table of every tree |
| `SparseTable.QueryLca` | libs/conflict_interface/conflict_interface/replay/steiner_tree.cpp:57-67 | the two-window query returns the lowest common ancestor, in either order of its arguments |
| `Steiner.SortUnique` | libs/conflict_interface/conflict_interface/replay/steiner_tree.cpp:46-49 | sorting by entry time and dropping equal neighbours leaves the same nodes, each once, in strictly increasing tour order |
| `Steiner.WithLcas` | libs/conflict_interface/conflict_interface/replay/steiner_tree.cpp:51-70 | behind the nodes stands the lowest common ancestor of every two neighbours, and nothing else; all are ancestors of given nodes |
| `Steiner.CompressedParents` | libs/conflict_interface/conflict_interface/replay/steiner_tree.cpp:77-100 | the stack gives every node but the root its nearest proper ancestor from the list, above which all its others lie; it never runs empty |
| `Steiner.ExpandEdge` | libs/conflict_interface/conflict_interface/replay/steiner_tree.cpp:111-128 | walking up adds every edge between the two nodes once, and never misses a parent |
| `Steiner.BuildSteinerTree` | libs/conflict_interface/conflict_interface/replay/steiner_tree.cpp:18-144 | for every tree and node list the keys are exactly the nodes on some root path, and each list is exactly the children among them, once each, in tour order |
| `PathTree.AddValid` | libs/conflict_interface/conflict_interface/replay/path_tree.py:39-45 | adding a node under the next index keeps indices dense, parents before children and siblings distinct |
| `PathTree.PathInjective` | libs/conflict_interface/conflict_interface/replay/path_tree.py:241-248 | different nodes have different paths |
| `PathTree.PathListToIdx` | libs/conflict_interface/conflict_interface/replay/path_tree.py:241-248 | returns the node with this path, and None only if there is none |
| `PathTree.Builder.FillWithPaths` | libs/conflict_interface/conflict_interface/replay/path_tree.py:47-58 | returns the journal of its own growth: replayed on the tree before it gives the tree after, with consecutive indices, parents first and no old path moved; every path now has a node and no new node is superfluous |
| `PathTree.Record` | libs/conflict_interface/conflict_interface/replay/replay_segment.py:166-178 | over any sequence of patches the concatenated per-patch lists journal the whole tree from the root-only one |
| `PathTree.LoadPathTree` | libs/conflict_interface/conflict_interface/replay/replay_storage.py:412-427 | the reader rebuilds the tree the journal stands for, or fails exactly when an entry's parent is unknown |
| `PathTree.RecordAndLoad` | libs/conflict_interface/conflict_interface/replay/replay_storage.py:412-427 | from what the recorder journals patch by patch the reader gets the recorder's own tree |
| `PathIndex.AncIsPrefix` | libs/conflict_interface/conflict_interface/replay/path_tree.py:123-140 | a node is an ancestor of another if and only if its path is a prefix |
| `PathIndex.SteinerIsSubtree` | libs/conflict_interface/conflict_interface/replay/path_tree.py:123-140 | the index-based subtree, read by paths, is the prefix closure of the given paths |
| `PathIndex.SubtreeFor` | libs/conflict_interface/conflict_interface/replay/path_tree.py:123-140 | for every list of paths of the tree, looking up their indices, building the subtree and reading it by paths gives the prefix-closed subtree of exactly these paths that resolving references and merging patches work on |
| `PathIndex.WholeTree` | libs/conflict_interface/conflict_interface/replay/path_tree.py:142-164 | the whole path tree, read by paths, is a tree with a node for exactly the paths that have one |
| `PathIndex.IdxToPathList` | libs/conflict_interface/conflict_interface/replay/path_tree.py:232-239 | walking down the one-node subtree yields exactly the node's path, so it is inverse to the lookup |
| `PatchGraph.PrevIs` | libs/conflict_interface/conflict_interface/replay/patch_graph.py:29-46 | the last vertex not after the target, scanning down, is the greatest recorded time not after it; it exists unless all are later |
| `PatchGraph.Graph.FindPrevTimestamp` | libs/conflict_interface/conflict_interface/replay/patch_graph.py:29-46 | the bisection finds that time |
| `PatchGraph.Graph.AddEdgeAndVertices` | libs/conflict_interface/conflict_interface/replay/patch_graph.py:73-89 | the patch map and the pending vertices grow by the patch and its two times |
| `PatchGraph.Graph.Finalize` | libs/conflict_interface/conflict_interface/replay/patch_graph.py:91-114 | vertices are the pending times in order, dense indices invert them, and matrix and patch map agree entry by entry |
| `PatchGraph.Graph.AddEdge` | libs/conflict_interface/conflict_interface/replay/patch_graph.py:48-71 | accepted if and only if both times are vertices; matrix and patch map still agree |
| `PatchGraph.Reconstruct` | libs/conflict_interface/conflict_interface/replay/patch_graph.py:147-158 | the predecessor walk terminates because every edge costs at least 1, and yields a chain from source to target whose cost is the distance |
| `PatchGraph.Graph.FindPatchPathExact` | libs/conflict_interface/conflict_interface/replay/patch_graph.py:131-158 | returns a cheapest chain of all, or nothing if and only if there is no chain, for every routine that solves matrices of positive costs |
| `PatchGraph.Graph.FindPatchPath` | libs/conflict_interface/conflict_interface/replay/patch_graph.py:116-129 | the same between the recorded times at or before the two given ones |
| `PatchGraph.CheapestIsFewest` | libs/conflict_interface/conflict_interface/replay/patch_graph_node.py:34-36 | where every patch costs its number of operations, or 1 if it has none, the cheapest chains are exactly those with the fewest operations, an empty patch counted as one |
| `Jump.LongIs` | libs/conflict_interface/conflict_interface/interface/replay_interface.py:313-318 | so the test for merging holds if and only if the chain has at least two patches and they hold more than 10 operations, an empty patch counted as one |
| `Jump.ChainMeans` | libs/conflict_interface/conflict_interface/interface/replay_interface.py:329-342 | applying any chain of edges leads from the state recorded at its start to the one recorded at its end |
| `Jump.Merge` | libs/conflict_interface/conflict_interface/replay/long_patch.py:256-283 | on any chain the merged edge stays within the path tree and costs its number of operations, or 1; where every kept operation fits, it carries what was recorded if and only if the chain is loss-free, and there is none if and only if every topmost addressed position is empty in both recorded states, which are then equal |
| `Jump.Segment.CreateAndSaveLongPatch` | libs/conflict_interface/conflict_interface/interface/replay_interface.py:400-409 | merges a chain with the fewest operations between the two recorded times and saves it as an edge that costs its operations, or leaves the graph alone where merging raises; graph and path tree stay in order whatever was merged before |
| `Jump.Segment.MoveTo` | libs/conflict_interface/conflict_interface/interface/replay_interface.py:313-342 | from any segment in order, a move takes a chain with the fewest operations and merges one if and only if merging is asked for, the chain has at least two patches and they hold more than 10 operations (an empty one counted as one), and leaves the segment in order; from one that means what was recorded, unless a kept operation of the merged chain does not fit, it fails if and only if nothing is recorded or the merged chain leaves no trace, and then the state is already the recorded one and nothing changes; else the state is the one recorded at the greatest recorded time not after the target if and only if what was merged is loss-free |
| `Jump.MovedKept` | libs/conflict_interface/conflict_interface/interface/replay_interface.py:313-342 | a move keeps the promise of a segment: as long as every chain merged and saved so far was good (all kept operations fit and nothing is lost), its edges and its state mean what was recorded |
| `Jump.ReplayInterface.JumpTo` | libs/conflict_interface/conflict_interface/interface/replay_interface.py:281-327 | on a replay in order, whatever was merged before: it stays at its own time and does nothing for a target in no segment, and then no segment changes; else it moves within the segment that covers the target as `MoveTo` says and leaves all others as they are; order and the promise of every segment are kept |
| `Jump.ReplayInterface.JumpAll` | libs/conflict_interface/conflict_interface/interface/replay_interface.py:281-327 | over any sequence of calls each segment's time is the last target reached in it, and its state the one recorded at the greatest recorded time not after that, as long as every chain merged in it was good; without merging no chain is added, so this holds unconditionally |
| `JumpLimits.ChainCancels` | libs/conflict_interface/conflict_interface/replay/long_patch.py:66-69 | any dict entries added by one patch and removed by the next make a chain that satisfies (E) and leaves no trace |
| `JumpLimits.TracelessJump` | libs/conflict_interface/conflict_interface/interface/replay_interface.py:400-409 | for every dict and six or more new entries, the segment that records their adding and removing is valid, and the jump over both steps fails |
| `Recording.Record` | libs/conflict_interface/conflict_interface/replay/replay_segment.py:130-152 | comparing any history of comparable states step by step, filling the path tree and adding the patch pairs gives a segment that satisfies the invariant of jumping, every edge costing its operations, with the recorded times as vertices |
| `Recording.RecordStep` | libs/conflict_interface/conflict_interface/replay/replay_segment.py:107-128 | the two nodes of one comparison lead from each recorded state to the other, on mirrored paths, hold exactly the differences between the two states, and cost their number of operations, or 1 if the states are equal |
| `Recording.FillTree` | libs/conflict_interface/conflict_interface/replay/replay_segment.py:163-180 | filling the tree with the forward paths gives every backward path a node too, as the recorder assumes, loses no earlier one, and returns the journal of the growth |
| `ReplayFile.WriteHistory` | libs/conflict_interface/conflict_interface/replay/replay_segment.py:154-194 | the stored patches of any history, written step by step, encode its edges with indices of the final path tree, and the nodes they list journal that tree; fails exactly when a number does not fit its field |
| `ReplayFile.Save` | libs/conflict_interface/conflict_interface/replay/replay_storage.py:251-305 | recording any history to a file succeeds exactly when every stored patch, the empty file and the file with all patches fit their fields; the file then holds the history |
| `ReplayFile.LoadTree` | libs/conflict_interface/conflict_interface/replay/replay_storage.py:412-427 | the node lists of the stored patches give back the recorder's path tree |
| `ReplayFile.LoadEdges` | libs/conflict_interface/conflict_interface/replay/replay_storage.py:431-458 | the stored patches give back exactly the recorded edges, their costs and their times |
| `ReplayFile.Open` | libs/conflict_interface/conflict_interface/replay/replay_segment.py:62-70 | reading such a file gives a segment that means the recorded history and starts in its first state, as long as the packers return the raw forms at hand and no plain list in them starts with the marker |
| `ReplayFile.OpenAndJump` | libs/conflict_interface/conflict_interface/interface/replay_interface.py:281-327 | from the bytes to any sequence of jumps: the state is the one recorded at the greatest recorded time not after the last target reached, unconditionally without merging and else as long as every merged chain was good |
| `Bytes.LeRoundTrip` | libs/conflict_interface/conflict_interface/utils/binary.py:46-64 | little-endian numbers of every width come back |
| `Bytes.FitsExactly` | libs/conflict_interface/conflict_interface/utils/binary.py:51-64 | the signed numbers that fit a field of four or eight bytes are exactly those such bytes can stand for |
| `Bytes.BinaryReader.ReadInt32` | libs/conflict_interface/conflict_interface/utils/binary.py:51-54 | reads the signed number at the cursor and moves it; fails at the end of the buffer |
| `Bytes.BinaryReader.ReadSized` | libs/conflict_interface/conflict_interface/replay/replay_storage.py:88-95 | a length and that many bytes are read back, and the cursor stands behind them |
| `Storage.MetaRoundTrip` | libs/conflict_interface/conflict_interface/replay/segment_metadata.py:31-62 | metadata comes back if and only if its map id is at most 40 bytes long and does not end in a zero byte |
| `Storage.IndexRoundTrip` | libs/conflict_interface/conflict_interface/replay/constants.py:11-14 | the 12-byte index entries come back |
| `Storage.FillIndex` | libs/conflict_interface/conflict_interface/replay/replay_storage.py:267-289 | each new patch starts where the one before it ends; fails if and only if the index is full, and has then counted up to its end |
| `Storage.SlicePool` | libs/conflict_interface/conflict_interface/replay/replay_storage.py:444-456 | slicing the pool by the index up to the first empty entry gives exactly the recorded patches in order |
| `Storage.ReplayStorage.AppendPatches` | libs/conflict_interface/conflict_interface/replay/replay_storage.py:251-305 | the three in-place edits add the patches to what is recorded and leave initial state, path tree and layout intact; refused exactly when index or pool size do not suffice: a full index leaves bytes and index alone and the count at its end, a pool too large leaves new index, count and bytes behind with the old pool size |
| `Storage.ReplayStorage.WriteLastGameState` | libs/conflict_interface/conflict_interface/replay/replay_storage.py:221-239 | the last state stands behind the pool, however long the bytes were that it replaces |
| `Storage.ReplayStorage.UpdateMetadata` | libs/conflict_interface/conflict_interface/replay/replay_storage.py:241-249 | the header is replaced where it stands, nothing else changes |
| `Storage.ReplayStorage.CollapseAppendMode` | libs/conflict_interface/conflict_interface/replay/replay_segment.py:78-82 | refused exactly when the segment is full or a number does not fit; otherwise the file is complete |
| `Storage.ReplayStorage.WriteAll` | libs/conflict_interface/conflict_interface/replay/replay_storage.py:168-219 | succeeds exactly when every size and number fits its field, and the file is then complete |
| `Storage.ReadAll` | libs/conflict_interface/conflict_interface/replay/replay_storage.py:75-120 | a complete file gives back initial state, path tree, index, pool and last state, and the metadata if and only if its map id fits |
| `Storage.RecordBatches` | libs/conflict_interface/conflict_interface/replay/replay_storage.py:251-305 | any series of append batches and the collapse succeeds exactly when everything fits, and the file is then complete with all patches in the order of the appends |
| `Storage.RecordAndReadBack` | libs/conflict_interface/conflict_interface/replay/replay_storage.py:251-305 | reading it gives the original initial state and path tree, the latest last state, and the serialised patches in order |
| `PatchCodec.KindsOf` | libs/conflict_interface/conflict_interface/replay/patch_graph_node.py:56-70 | each value is marked by the part it goes into, primitives other than None into one and everything else into the other, and every value goes into one of them |
| `PatchCodec.MergeValues` | libs/conflict_interface/conflict_interface/replay/patch_graph_node.py:113-122 | from the two lists of a split the primitives come back in their places and the other values are filled in from their list in order |
| `PatchCodec.PathsRoundTrip` | libs/conflict_interface/conflict_interface/replay/patch_graph_node.py:54 | the uint32 path array comes back |
| `PatchCodec.Serialize` | libs/conflict_interface/conflict_interface/replay/patch_graph_node.py:38-80 | lays out header, new nodes, arrays and value blobs in the documented order |
| `PatchCodec.Deserialize` | libs/conflict_interface/conflict_interface/replay/patch_graph_node.py:82-132 | of a patch whose raw forms the packers return: where it does not raise it gives back times, cost, operations, paths and new nodes, and exactly those values in which no plain list starts with the marker; it gives back the whole patch if and only if every value is such |
| `PatchCodec.ObjectsItems` | libs/conflict_interface/conflict_interface/game_object/game_object_binary.py:152-182 | the list of non-primitive values is never taken for an object itself: it is read item by item |
| `PatchCodec.ExtractTreeNodes` | libs/conflict_interface/conflict_interface/replay/patch_graph_node.py:134-152 | reads the same new nodes from their fixed offset |
| `ObjectCodec.RoundTrip` | libs/conflict_interface/conflict_interface/game_object/game_object_binary.py:102-232 | `_from_raw` undoes `_to_raw` on every nested value of registered types if and only if no plain list of length two or more in it starts with the marker |
| `Timeline.AtMostOne` | libs/conflict_interface/conflict_interface/replay/replay_timeline.py:335-341 | segments apart in time never cover one instant |
| `Timeline.OrderDoesNotMatter` | libs/conflict_interface/conflict_interface/replay/replay_timeline.py:335-341 | the segment found does not depend on the iteration order of the map |
| `Timeline.ValidateNonOverlapping` | libs/conflict_interface/conflict_interface/replay/replay_timeline.py:390-418 | for segments that do not end before they start, empty ones included, the sorted neighbour check passes if and only if all pairs are apart and no two keys of one start have one end missing and one not, which cannot be compared; it also passes for every chain of segments each of which ends before the next one starts |
| `Timeline.ReplayTimeline.Validate` | libs/conflict_interface/conflict_interface/replay/replay_timeline.py:122-128 | every timeline that was recorded passes this check |
| `Timeline.ReplayTimeline.CloseLastSegment` | libs/conflict_interface/conflict_interface/replay/replay_timeline.py:365-388 | afterwards every segment is closed under its last time and otherwise unchanged, and the segments are those of the events so far |
| `Timeline.ReplayTimeline.QueAppendPatch` | libs/conflict_interface/conflict_interface/replay/replay_timeline.py:291-317 | without an open segment of the version all others are closed under their last times and a new one starts at the append's time; with one, which is the latest, a patch moves that segment's last time to the append's whole second and changes nothing else, and without a patch nothing changes; the segments are those of the events so far |
| `Timeline.BlocksApart` | libs/conflict_interface/conflict_interface/replay/replay_timeline.py:291-388 | after any appends and closings at increasing times no two segments cover one instant, each ends before the next starts, and only the latest can be open |
| `Timeline.BlockOf` | libs/conflict_interface/conflict_interface/replay/replay_timeline.py:291-388 | every segment comes from a longest stretch of appends of one version without a closing: it starts with the first of them, its last time is the whole second of the last of them with a patch, and it ends there as soon as the stretch is over |
| `Timeline.CoveredExactly` | libs/conflict_interface/conflict_interface/replay/replay_timeline.py:335-341 | a time is covered if and only if it lies after some append and either that append's stretch is still going on or it is not after the whole second of a later append of the stretch that has a patch |
| `Timeline.ReplayTimeline.FindSegment` | libs/conflict_interface/conflict_interface/replay/replay_timeline.py:335-341 | on a recorded timeline there is an answer exactly for those times, and it is of the version those appends were made for |
| `DueUpdates.Push` | services/server_observer/src/scheduler.rs:64-70 | an entry goes behind everything not later, into its bucket or a new one; no bucket is empty |
| `DueUpdates.PopEarliest` | services/server_observer/src/scheduler.rs:410-418 | removes the first entry in time order and leaves no empty bucket, so the `expect` cannot fail |
| `DueUpdates.Scheduler.GetDueUpdates` | services/server_observer/src/scheduler.rs:249-290 | the ready ids are the earliest entries, due, in time order, within the cap; the rest of the queue stays as it is, except that a first update without a slot goes to the back of its bucket; the drain stops only for lack of slots, of due entries, or at that update |
| `DueUpdates.Conserved` | services/server_observer/src/scheduler.rs:249-290 | queue and ready list together hold exactly the scheduled entries |
| `DueUpdates.Scheduler.StartDueUpdates` | services/server_observer/src/server_observer.rs:568-581 | runs under way never exceed the cap; every session still has a queued update or a run, and every first-update slot a run; the runs started as first updates stay within the first-update cap if no two of them share a slot |
| `DueUpdates.SlotsAndRuns` | services/server_observer/src/scheduler.rs:249-290 | the runs started as first updates are as many as the slots they take if and only if no two are of one game and none is of a game that has a slot already; else they are more |
| `DueUpdates.SharedSlot` | services/server_observer/src/scheduler.rs:249-290 | a marked game queued n times is started n times at once in one slot, for every n up to the cap on all runs, with room for two first updates |
| `DueUpdates.Scheduler.StartSession` | services/server_observer/src/server_observer.rs:451-461 | a started session is marked, queued and known at once, and the invariant holds |
| `DueUpdates.Scheduler.LookUp` | services/server_observer/src/server_observer.rs:583-595 | a run that finds its session gone ends without cleaning up, and yet no first-update slot is lost: one that is still counted belongs to another run that is about to give it back |
| `DueUpdates.Scheduler.Reschedule` | services/server_observer/src/server_observer.rs:678-698 | an update that goes on queues the next one before its run ends, so no session is ever without a queued update or a run |
| `DueUpdates.Scheduler.RemoveSession` | services/server_observer/src/server_observer.rs:647-676 | the end of a game removes its session while its run still holds the mark; the invariant holds between removal and clean-up |
| `DueUpdates.Scheduler.Finish` | services/server_observer/src/server_observer.rs:642-645 | the end of a run gives back its mark and slot and keeps the invariant |
| `DueUpdates.Scheduler.AllReturned` | services/server_observer/src/server_observer.rs:583-645 | whenever no run is under way every slot is free and every session has a queued update |
| `DueUpdates.Scheduler.CleanupFirstUpdateTracking` | services/server_observer/src/scheduler.rs:114-123 | removes the id from both sets and keeps the invariant |
| `PendingSessions.Sessions.QueueNewSession` | services/server_observer/src/scheduler.rs:125-194 | each set mirrors its queue, no game is queued twice or in both; a promotion keeps the order of the rest |
| `PendingSessions.Sessions.GetPending` | services/server_observer/src/scheduler.rs:196-247 | serves priority first, each queue from its front, as many as both limits allow, and leaves exactly the rest |
| `PendingSessions.Observer.RunRound` | services/server_observer/src/server_observer.rs:338-366 | as many sessions as the queues hold and both maxima leave room for are handed out, priority ones first, whatever the maxima are set to; a game has a session afterwards if and only if it had one that did not end, or was handed out, accepted, and did not end since; active and active normal sessions do not exceed their maxima if they did not before |
| `Retry.TrackerExact` | services/server_observer/src/server_outage_tracker.rs:24-77 | after any run of openings, freezes and closings a server is down if and only if it was opened and not closed since, and frozen for it are exactly the games handed in since that opening |
| `Retry.ServerOutageTracker.Close` | services/server_observer/src/server_outage_tracker.rs:68-77 | returns exactly the games handed in since the circuit opened, and none of them a second time |
| `Retry.AlwaysConsistent` | services/server_observer/src/server_observer.rs:583-863 | in every run of starts, successes, endings, failures and recoveries, with the steps of handling different failures interleaved in any way, every attempt counter stays within 1..12 and no two games share a session |
| `Retry.BroughtBack` | services/server_observer/src/server_observer.rs:249-271 | in every run a server counts as down exactly while an opening is not yet closed, and the games a recovery brings back are exactly those frozen or opened for it since then |
| `Retry.FreezeOnIce` | services/server_observer/src/server_observer.rs:730-766 | a failure handed to the tracker puts its game on ice if and only if the session is the game's, no other server holds the game, no other failure of it under way found the server up, and the circuit has not been closed since the first test |
| `Retry.FrozenUntilRecovery` | services/server_observer/src/server_observer.rs:726-766 | from such a failure to the recovery of its server, whatever failures on that server come in between, the counter does not move and the game is neither dropped nor forgotten; the recovery brings it back with a full budget |
| `Retry.SurvivesBounded` | services/server_observer/src/server_observer.rs:777-803 | over any stretch of a run without success, recovery or drop the counter advances by one per failure that is not frozen and by nothing else, so a session survives at most 11 of them |
| `Retry.LostOnlyBy` | services/server_observer/src/server_observer.rs:777-863 | a game under observation leaves it in a run only by ending or by a failure that was not frozen at the 12th attempt (network error), the 10th (server error) or the 3rd (any other) |
| `Retry.ObservedExactly` | services/server_observer/src/server_observer.rs:777-863 | at any moment of a run a game is observed if and only if it was started before and nothing has taken it out since |
| `Retry.ChargedExactly` | services/server_observer/src/server_observer.rs:730-776 | a failure counts against the budget if and only if its server was not down at the first test and it was not diagnosed as an outage, which only a network error of a server not down at the second test can be |
| `Retry.ChargedWhileDown` | services/server_observer/src/server_observer.rs:730-776 | so budgets are not safe during an outage: a run in which a failure tested before the circuit opens is charged after it has opened |
| `Retry.BackoffExact` | services/server_observer/src/server_observer.rs:777-805 | a failure drops its session if and only if the attempt has reached 12 (network), 10 (server) or 3 (any other); else the delay is exactly the smaller of 5 * 2^(attempt - 1) seconds and 3600, 1800 or the interval; the exponent never exceeds 10 and the delay never 5120 seconds |
| `Retry.RetriedOrDropped` | services/server_observer/src/server_observer.rs:777-863 | over any run, the j-th failure in a row that counts since the session was started, succeeded or was brought back drops it if and only if j has reached 12, 10 or 3, by kind of failure; otherwise it is tried again after exactly the smaller of 5 * 2^(j - 1) seconds and 3600, 1800 or the interval, and keeps its session |
| `Retry.FrozenRetry` | services/server_observer/src/server_observer.rs:726-766 | a failure that is frozen or diagnosed as an outage is tried again after 60 seconds and changes neither counters nor sessions |
| `UpdateGrid.NextIsNext` | services/server_observer/src/scheduler.rs:380-389 | the step computed for now is the first grid time after it: strictly later, at most one interval later |
| `UpdateGrid.NextOnGrid` | services/server_observer/src/scheduler.rs:82-96 | a missed update is rescheduled to the first grid time after now, any other to one interval after its last due time |
| `UpdateGrid.AlwaysOnGrid` | services/server_observer/src/scheduler.rs:82-105 | in every run every regular due time is congruent to the game's offset modulo the interval |
| `UpdateGrid.BehindExactly` | services/server_observer/src/server_observer.rs:678-698 | after a success the next update is due at a grid time, which lies behind now if and only if the last regular one was due at least one interval ago although the update, moved by retries, was not more than one interval late |
| `UpdateGrid.RetryThenSuccess` | services/server_observer/src/scheduler.rs:77-96 | a retry moves the update to exactly its delay after now; a success at most one interval after that goes on with the next step of the grid, a later one with the first grid time after it |
| `UpdateGrid.SettledOnGrid` | services/server_observer/src/server_observer.rs:678-698 | in every run of retries and successes, without a retry since the last success the update after the next success is due no earlier than now |
| `UpdateGrid.RetryPutsBehind` | services/server_observer/src/scheduler.rs:77-96 | a retry at the end of the interval and a success right after it put the next regular update behind now |

## Left out

- Equality across Python types (`1 == True == 1.0`), NaN and negative list indices: paths use plain int and string keys.
- Sharing between a patch's values and the live state: values are copied in the value-level model, and `RefCache` requires them fresh; `dfs_apply_ops` mutates the value still held by the source patch.
- Width of the 32-bit time counter in the fold, and of indices and array entries of the path tree.
- Reading `adj` breadth-first in `build_op_tree_fast`: the model starts from an empty slot for every node of the subtree.
- LongPatchBuilder.CreateLongPatch: where a kept operation does not fit, only the paths of the patch and the failing removals from dicts are described, because a list then gets its new elements elsewhere than meant.
- Jump.ReplayInterface.JumpTo: after merging a chain in which a kept operation does not fit, the state this move leaves is not described; patches are applied by value, and what applying them as objects does is `ApplyPatch` and `AppliedAgain`.
- RefCache.ReplaySegment.SetChildren: stops at an entry that is no container, where the code stores it and fails when an operation is applied through it.
- Timeline.ReplayTimeline.QueAppendPatch: two appends at one millisecond, and continuing a timeline that was loaded from a file.
- Diff.DiffDict: enum keys and the rewriting of keys to their values are not modelled.
- PatchGraph.Graph.FindPatchPathExact: the shortest-path library is a parameter that meets its specification (relaxed edges, attained distances, marked unreachable nodes).
- Compression is a function with an inverse, msgpack and the object encoder are functions; the UTF-8 form of map ids is taken as bytes.
- PatchCodec.Serialize: only patches whose numbers fit their fields; the libraries raise on others.
- PatchCodec.Deserialize: that the msgpack libraries give back the raw lists of the patch at hand is a condition.
- ReplayFile.Open: how objects are seen as values and values written as objects is a pair of functions; that the first undoes the second is a condition on the values at hand.
- Storage.ReplayStorage.AppendPatches: a single patch of more than 2^31 - 1 bytes is refused while the index is filled, which the model notices only at the pool.
- Storage.ReadAll: only files laid out by the model's own writers; what corrupt bytes do is not described.
- ObjectCodec.RoundTrip: dictionaries are lists of pairs, so merging of equal keys is not described; datetimes, timedeltas, enums and points carry plain numbers.
- UpdateGrid.AlwaysOnGrid: the 64-bit hash of a game id is a given number; a changed interval starts a new grid.
- DueUpdates.Scheduler.StartSession: marking, queueing and inserting are one step, as the run loop that starts runs does them in sequence; clearing all sessions at shutdown is not modelled.
- DueUpdates.Scheduler.StartDueUpdates: caps are constants; lowering them at run time can leave more runs under way than the new cap.
- PendingSessions.Observer.RunRound: account selection, database and metrics are the `accepted` flags; resuming sessions at start-up is not modelled.
- Hooks, metrics, proxies, HTTP, Redis, Postgres and S3, and poisoned locks.
- `jump_to_next_patch`, `jump_to_previous_patch`, recording in read-write mode, extending a full segment, and reloading a non-empty serialised path tree.
- Reopening a file in append mode: it reads the same parts `ReadAll` reads.
