# A verified model of the btrfs core structures

This project models, in Dafny, the hardest parts of the btrfs sources kept in this
repository, and proves what their comments, assertions and tests promise.  Tree code,
leaf code, counters and reserves are imperative in the sources and are classes, methods
and loops here; every method is proved against functions and predicates over plain values,
and the lemmas are about those.

**The B+tree (`Keys`, `Tree`, `Context`, `NodeOps`, `Siblings`, `Balance`, `ParentEdits`, `Rows`,
`LeafOps`, `SearchPath`, `Btree`).**  A tree is a value; a search path is an object that holds the
block it stands on and, above it, one frame per level with everything to the left and to
the right.  `PathOK` is the invariant: uniform depth, node and leaf capacities, strictly
sorted keys over the whole tree, and every separator equal to the lowest key of its child.
Node pushes, node splits, three-way balancing, leaf pushes, leaf splits, double splits,
insertion of pointers and deletion of emptied leaves all keep it and keep the place of the
path in the sequence of all items, so that a search followed by an insertion or a deletion
is exactly the same operation on a map.  `Rows` is the row of blocks under one parent: each
of these operations says what the row is afterwards, so that it is also stated when siblings
are tried, how much moves and when a block is added or goes.  The node capacity is any number that goes with a
block of at least 4096 bytes.  Every `BUG_ON` on the way (a full parent in `insert_ptr`, a
one-pointer node left by `balance_level`, the changed pointer at its end, the second double
split) is unreachable: the operations that would hit it have preconditions which their
callers are proved to meet, or the branch does not exist because it is proved dead.

**A leaf as bytes (`LittleEndian`, `LeafFormat`, `LeafEdits`, `LeafRuns`, `LeafBuffer`).**
An extent buffer is a byte array.  `Layout` says that it holds a given sequence of items:
headers of 25 bytes from the front, data from the back, the offsets forming a dense chain.
Each edit is the source's memmoves and offset loops, and ends in the layout of the edited
sequence.  `SpaceIsBytes` connects the byte count of the leaf with the space the tree layer
reckons with, and `LeafLayers` runs an operation on a search path and on the bytes of its
leaves at once: afterwards the bytes hold exactly the leaves that the tree has there.

**Six more cores.**  `WorkQueue` is the ordered work queue as a step relation, with memory
reused by address.  `ListSort` is the linked-list mergesort on real `next` and `prev`
pointers.  `RadixSort`, `Entropy` and `Decompress` are the compression heuristics and the
streaming copy.  `FreeSpace` builds free space as the complement of the extent items.
`SpaceAccounting` and `Reserves` keep the counters of block groups, space infos and block
reserves in step.  `PrelimRefs` merges references with a share counter, `BackrefLinks`
builds up the levelled cache of tree blocks and `BackrefCache` takes it down.  `Words` has
the machine words and powers of two.

Three results are about places where the code does less than it seems to:

- Inserting a key that is already there can return `-EOVERFLOW` instead of `-EEXIST`.
  `Btree.BTree.Insert` states exactly when (the leaf the key lives in has too little free
  space, and the new data and the old item together exceed a leaf), and
  `Btree.ExistingKeyOverflows` gives a tree for which it happens.
- `radix_sort` does not sort for every maximum: the number of bits it looks at is too small
  when the logarithm of the maximum is a multiple of eight.  `RadixSort.SortsIffEnoughBits`
  is the exact condition for arrays of any length, and `RadixSort.SamplesSortedIff` the one
  for the samples that the compression heuristic passes: a largest count of 1, or of 256 to
  511.  `RadixSort.BadSampleFails` gives such a sample, `RadixSort.RadixSortsIff` the
  condition for one array.
- When `btrfs_update_block_group` runs out of block groups in the middle of a range it
  returns `-ENOENT`, but the bytes used in the super block have already moved by the full
  amount.  `SpaceAccounting.FileSystem.UpdateBlockGroup` states the difference, and that the
  counts stay together exactly when every byte of the range lies in a block group;
  `SpaceAccounting.AllocateBeyondTheEnd` is a case in which they do not.

`dafny verify dfyconfig.toml` checks the whole project.

## Model

| member | source | states |
|---|---|---|
| Keys.TotalOrder | btrfs_mfs_v4.2/ctree.c:790-805 | key comparison is a strict total order, and 0 means the keys are equal in all three parts |
| Keys.OrderIs | btrfs_mfs_v4.2/ctree.c:790-805 | the objectid decides first, then the type, then the offset |
| Keys.OrderIsNumber | btrfs_mfs_v4.2/ctree.c:790-805 | for keys that fit the disk format the order is that of the number objectid * 2^72 + type * 2^64 + offset |
| Tree.LowIsFirst | btrfs_mfs_v4.2/ctree.c:1950-1955 | in a sound block of any level the first key stored is the lowest key reachable below it |
| Tree.SeparatorBounds | btrfs_mfs_v4.2/ctree.c:1950-1955 | a separator bounds all items to its left from above and is the key of the first item to its right |
| Tree.SortedInsert | btrfs_mfs_v4.2/ctree.c:4295-4381 | a sorted batch put between smaller and larger keys leaves the whole sequence strictly sorted |
| Tree.SortedRemove | btrfs_mfs_v4.2/ctree.c:4590-4717 | taking out any stretch of items leaves the sequence strictly sorted |
| Context.PlugFlatten | btrfs_mfs_v4.2/ctree.c:2124-2361 | the items of the whole tree are those left of the path, those of its block and those right of it |
| Context.PlugOK | btrfs_mfs_v4.2/ctree.c:2124-2361 | a sound block put back under sound frames gives a sound tree of the right height |
| Context.FixLowOK | btrfs_mfs_v4.2/ctree.c:2681-2703 | after the low keys are fixed, every separator above the block is again the lowest key of its child |
| Context.FixLowKeeps | btrfs_mfs_v4.2/ctree.c:2681-2703 | fixing low keys touches separators only: no item outside the block moves |
| NodeOps.PushNodeLeft | btrfs_mfs_v4.2/ctree.c:2821-2890 | conserves the pointers in order, never overfills, says exactly when it refuses, and how many move in numbers: with `empty` the source drains when it fits and otherwise keeps at least 8 |
| NodeOps.BalanceNodeRight | btrfs_mfs_v4.2/ctree.c:2901-2966 | conserves the pointers in order, never empties the source, moves half plus one or as many as fit, and says exactly when it refuses |
| NodeOps.BalanceThree | btrfs_mfs_v4.2/ctree.c:1161-1233 | left, mid and right keep their concatenation, mid never ends with one pointer, a missing left sibling is never needed, and a merge that fits frees a block |
| NodeOps.PtrsOrdered | btrfs_mfs_v4.2/ctree.c:2778-2812 | siblings of a sound tree always pass the sibling key check |
| Siblings.Exchange | btrfs_mfs_v4.2/ctree.c:1364-1378 | any redistribution of items between two siblings that keeps their concatenation keeps the pair sound under its parent, with the left separator unchanged |
| Siblings.NodePairSound | btrfs_mfs_v4.2/ctree.c:1299-1444 | after pointers moved between sibling nodes, the path through either of them is sound |
| Siblings.SiblingOrder | btrfs_mfs_v4.2/ctree.c:2778-2812 | the last key of a node is below the first key of its right sibling |
| Siblings.PositionOnLeft | btrfs_mfs_v4.2/ctree.c:1366-1378 | a path moved to the left sibling stands at the same place of the item sequence |
| Siblings.PositionOnRight | btrfs_mfs_v4.2/ctree.c:1427-1437 | a path that ends in the right sibling stands at the same place of the item sequence |
| Balance.ThreeSound | btrfs_mfs_v4.2/ctree.c:1161-1259 | after balancing, with pointers to emptied nodes deleted and separators rewritten, the parent is sound and the rest of the tree untouched |
| Balance.PositionInFirst | btrfs_mfs_v4.2/ctree.c:1261-1269 | when the slot falls into the left node, the path there designates the same place |
| Balance.PositionInSecond | btrfs_mfs_v4.2/ctree.c:1273-1276 | when the slot stays in the middle node, the path there designates the same place, whether or not the left node was there |
| Rows.ShareIs | btrfs_mfs_v4.2/ctree.c:1234-1281 | in the row of nodes under the parent exactly the block and its two neighbours change, by new cuts of their concatenation, an emptied block goes, and the path stands on its old entry |
| ParentEdits.PushEditIs | btrfs_mfs_v4.2/ctree.c:3326-3337 | writing the one key of the right sibling, and leaving the left one alone, gives exactly the pointers of the parent after a push |
| ParentEdits.SplitEditIs | btrfs_mfs_v4.2/ctree.c:3042-3089 | inserting one pointer behind a block that gave away its upper part gives exactly the pointers of the parent after a split |
| ParentEdits.BalanceEditIs | btrfs_mfs_v4.2/ctree.c:1161-1259 | the edits of the balancing in the parent, in their order (delete the pointer of the emptied right child or write its key, then the same for the middle child, the left key untouched), give exactly the pointers to the three nodes |
| ParentEdits.LeavesAfterSplit | btrfs_mfs_v4.2/ctree.c:3649-3706 | under the edited parent of a split the halves stand next to each other where the leaf was, and all other leaves are where they were |
| LeafOps.BinSearch | btrfs_mfs_v4.2/ctree.c:920-985 | 0 with the slot of the key, or 1 with the only slot between smaller and larger keys; -EINVAL exactly for a first slot beyond the end |
| LeafOps.SearchForKeySlot | btrfs_mfs_v4.2/ctree.c:1944-1963 | the shortcut after an exact match in the parent gives the answer of a full binary search |
| LeafOps.PickIs | btrfs_mfs_v4.2/ctree.c:2280-2289 | the decremented slot is the last pointer whose key is not above the searched key |
| LeafOps.RightPushSome | btrfs_mfs_v4.2/ctree.c:3254-3294 | the run of trailing items that may move is not empty exactly when the scan gets past the last item; it stays above min_slot and fits the free space, the new bytes included when the slot goes along |
| LeafOps.RightRunStops | btrfs_mfs_v4.2/ctree.c:3254-3294 | and it is the longest: the item before it is the first that stops the scan |
| LeafOps.RightPushIs | btrfs_mfs_v4.2/ctree.c:3254-3294 | in sizes and slots only: which trailing items move, that each of them fits when it is counted, and what stops the scan at the next one |
| LeafOps.LeftPushSome | btrfs_mfs_v4.2/ctree.c:3468-3501 | the mirror image for leading items, which stay below max_slot and never are all of them unless emptying |
| LeafOps.LeftRunStops | btrfs_mfs_v4.2/ctree.c:3468-3501 | and the run of leading items is the longest |
| LeafOps.LeftPushIs | btrfs_mfs_v4.2/ctree.c:3468-3501 | the same for leading items |
| LeafOps.FitsMost | btrfs_mfs_v4.2/ctree.c:3468-3501 | when a leaf is drained, exactly the prefixes up to a certain length fit into the free space on the left |
| LeafOps.FromIs | btrfs_mfs_v4.2/ctree.c:2124-2361 | the items of a leaf from a key on are those from the slot that the search found |
| LeafOps.PlanSplit | btrfs_mfs_v4.2/ctree.c:3835-3880 | the middle exactly when the half with the slot then has the room, else an end, else the slot, else a push first or a double split, with the exact condition of each; a plain split point always leaves room on the side of the slot |
| LeafOps.PushedRightIs | btrfs_mfs_v4.2/ctree.c:3371-3439 | nothing changes without a right leaf or without the room there; a path behind the last item steps over to slot 0 of the right leaf; otherwise exactly the scanned run goes to its front, and the path with its item |
| LeafOps.PushedLeftIs | btrfs_mfs_v4.2/ctree.c:3587-3643 | nothing changes without a left leaf or without the room there; otherwise exactly the scanned run goes to its end, and the path with its item |
| LeafOps.PushedAsideIs | btrfs_mfs_v4.2/ctree.c:3803-3830 | before a leaf is split the right leaf is asked, then the left one, for all the bytes from an end of the leaf and otherwise for what the leaf lacks |
| LeafOps.PushedApartIs | btrfs_mfs_v4.2/ctree.c:3718-3770 | before a double split what is behind the slot goes right, asking for what the leaf lacks; then, if the path is still inside a leaf without the room, what is before the slot goes left |
| LeafOps.SplitRowIs | btrfs_mfs_v4.2/ctree.c:3835-3961 | what a round of a split does to the row of leaves: cut in the middle, an empty leaf at an end, cut at the slot, push apart, or cut twice, with the exact condition of each |
| LeafOps.MergedIs | btrfs_mfs_v4.2/ctree.c:4647-4711 | what a sparse leaf and its neighbours become: as many first items as fit go left, the rest goes right all or nothing and only when the path stays behind, an emptied leaf goes |
| LeafOps.OverflowsIs | btrfs_mfs_v4.2/ctree.c:2060-2088 | the search overflows exactly when the leaf lacks the room and the item with the key and the new bytes exceed a leaf |
| LeafOps.LeafSiblingOrder | btrfs_mfs_v4.2/ctree.c:2778-2812 | sibling leaves always pass the sibling key check |
| LeafOps.LeafMoveRight | btrfs_mfs_v4.2/ctree.c:3296-3357 | moving trailing items to the right leaf keeps the pair sound under the parent, with no item lost and the bytes adding up |
| LeafOps.LeafMoveLeft | btrfs_mfs_v4.2/ctree.c:3503-3571 | the same for leading items and the left leaf |
| LeafOps.LeafSplitSound | btrfs_mfs_v4.2/ctree.c:3649-3706 | cutting a leaf at any inner item gives a sound pair under a parent with one free slot |
| LeafOps.DrainedLeft | btrfs_mfs_v4.2/ctree.c:4670-4701 | when the left leaf has taken all items, the tree without the emptied leaf holds the same items |
| LeafOps.DrainedRight | btrfs_mfs_v4.2/ctree.c:4687-4701 | the same for the right leaf, whose separator takes the lower key |
| LeafOps.HoleRemoved | btrfs_mfs_v4.2/ctree.c:4504-4549 | deleting the pointer to an emptied leaf leaves a sound parent path and no item lost |
| SearchPath.Path.Release | btrfs_mfs_v4.2/ctree.c:211-226 | letting go of the path leaves the tree in which each block of the path sits in its place |
| SearchPath.Path.InsertNewRoot | btrfs_mfs_v4.2/ctree.c:2975-3033 | the new one-pointer root keeps the invariant and the position |
| SearchPath.Path.PushNodesLeft | btrfs_mfs_v4.2/ctree.c:1327-1383 | pushes exactly when the left sibling can take something; the path still designates the same child and position |
| SearchPath.Path.GiveNodesLeft | btrfs_mfs_v4.2/ctree.c:1327-1383 | exactly the first k pointers change node, no other node under the parent changes, and the path goes with its pointer |
| SearchPath.Path.PushNodesRight | btrfs_mfs_v4.2/ctree.c:1388-1442 | the same for the right sibling |
| SearchPath.Path.GiveNodesRight | btrfs_mfs_v4.2/ctree.c:1388-1442 | exactly the last k pointers change node, no other node under the parent changes, and the path goes with its pointer |
| SearchPath.Path.PushNodesForInsert | btrfs_mfs_v4.2/ctree.c:1299-1444 | the row of nodes under the parent and the place in it afterwards, in numbers: the left sibling first, which takes what it can while 8 pointers stay, then the right one, which takes at most half; 0 exactly when one of them takes something; same child and position |
| SearchPath.Path.SplitNode | btrfs_mfs_v4.2/ctree.c:3098-3185 | ends on a node with room for more pointers, designating the same child and position; the siblings are tried first, and the node is cut in its middle and a pointer added to the parent exactly when they take nothing or the room does not suffice |
| SearchPath.Path.SplitBelow | btrfs_mfs_v4.2/ctree.c:3117-3185 | the same as `SplitNode` once there is a parent |
| SearchPath.Path.CutNode | btrfs_mfs_v4.2/ctree.c:3128-3185 | the upper half becomes a node of its own behind the lower one, no other node under the parent changes, and the path goes with its pointer |
| SearchPath.Path.BalanceLevel | btrfs_mfs_v4.2/ctree.c:1041-1293 | never leaves the path on a one-pointer node, designates the same child and position, promotes exactly a one-pointer root, leaves nodes over a quarter full alone, and otherwise the row of nodes under the parent is the old one with the node and its neighbours cut anew |
| SearchPath.Path.BalanceWithSiblings | btrfs_mfs_v4.2/ctree.c:1125-1281 | keeps the invariant, the position and the designated child, frees a node whenever a merge fits, and determines the row of nodes |
| SearchPath.Path.PlaceInThree | btrfs_mfs_v4.2/ctree.c:1234-1281 | in the edited parent the path ends on the pointer it was on, in whichever of the nodes it is now |
| SearchPath.BalancedParent | btrfs_mfs_v4.2/ctree.c:1161-1259 | the edits that the balancing makes in the parent of a sound path give the pointers to the nodes it filled |
| SearchPath.Path.FixupLowKeys | btrfs_mfs_v4.2/ctree.c:2681-2703 | the loop rewrites separators upwards exactly as far as the low key reaches |
| SearchPath.Path.PushLeafRight | btrfs_mfs_v4.2/ctree.c:3371-3439 | moves something exactly when the right leaf has the room and the scan allows it; same position; the leaves under the parent and the place in them are exactly those after the scanned run has moved, or after the step over to the right leaf |
| SearchPath.Path.MoveItemsRight | btrfs_mfs_v4.2/ctree.c:3233-3359 | the part of the push after the checks, with the same promises; a path that moved over finds the room it asked for |
| SearchPath.Path.GiveItemsRight | btrfs_mfs_v4.2/ctree.c:3296-3357 | exactly the last push items change leaf, no other leaf under the parent changes, and the path goes with its item |
| SearchPath.Path.PushLeafLeft | btrfs_mfs_v4.2/ctree.c:3587-3643 | the same for the left leaf |
| SearchPath.Path.MoveItemsLeft | btrfs_mfs_v4.2/ctree.c:3449-3577 | the part of the left push after the checks, with the same promises |
| SearchPath.Path.GiveItemsLeft | btrfs_mfs_v4.2/ctree.c:3503-3571 | exactly the first push items change leaf, and the path goes with its item |
| SearchPath.Path.CopyForSplit | btrfs_mfs_v4.2/ctree.c:3649-3706 | the split keeps the invariant and the position, uses one slot of the parent, and the row of leaves is the old one with the leaf cut in two, the path on its item |
| SearchPath.Path.AddEmptyLeaf | btrfs_mfs_v4.2/ctree.c:3901-3938 | a new empty leaf for the key, before or after, at the same place of the sequence and with its separators right for the key; the row of leaves is the old one with an empty leaf in it |
| SearchPath.Path.InsertEmptyLeaf | btrfs_mfs_v4.2/ctree.c:3901-3938 | the pointers of the parent are the old ones with the one for the empty leaf in front or behind |
| SearchPath.Path.PushForDoubleSplit | btrfs_mfs_v4.2/ctree.c:3718-3770 | the leaves under the parent and the place in them after both pushes, from which follows the room gained; same position in the tree; nothing changes exactly when neither sibling takes anything |
| SearchPath.Path.PushLeaves | btrfs_mfs_v4.2/ctree.c:3803-3830 | the row of leaves after the pushes that come before any split; same position; nothing changes exactly when neither sibling takes anything |
| SearchPath.Path.SplitLeaf | btrfs_mfs_v4.2/ctree.c:3778-3961 | fails exactly with -EOVERFLOW for an extension that fits no leaf, and otherwise ends with the asked room at the same position; when the pushes to the siblings make the room, the row of leaves is that after the pushes and no leaf is added, and only otherwise it is split further |
| SearchPath.Path.SplitRounds | btrfs_mfs_v4.2/ctree.c:3835-3961 | at most three rounds and one double split, however full the neighbours are; the row of leaves is the one of at most three planned rounds |
| SearchPath.Path.SplitRound | btrfs_mfs_v4.2/ctree.c:3835-3961 | one round does to the row of leaves what the plan says, and is the last one exactly when the leaf of the path has the room |
| SearchPath.Path.FindInLeaf | btrfs_mfs_v4.2/ctree.c:1972-2058 | the first-key fast path gives the answer of the full search |
| SearchPath.Path.SearchLeaf | btrfs_mfs_v4.2/ctree.c:1965-2091 | present or absent with the right position, the asked room, and -EOVERFLOW exactly when the item found cannot grow |
| SearchPath.TooBigHere | btrfs_mfs_v4.2/ctree.c:2060-2088 | the item under the slot decides alone whether an existing key overflows |
| SearchPath.Path.InsertItems | btrfs_mfs_v4.2/ctree.c:4295-4381 | the batch goes to the slot, the separators are fixed, and the whole sequence is the old one with the batch in between |
| SearchPath.Path.ChoosePointer | btrfs_mfs_v4.2/ctree.c:2280-2289 | everything left of the chosen child is below the key and everything right of it above |
| SearchPath.NodePlace | btrfs_mfs_v4.2/ctree.c:2280-2289 | the two neighbouring separators are enough to bound the items on both sides of the child |
| SearchPath.ChildSound | btrfs_mfs_v4.2/ctree.c:1619-1733 | the child under a slot is itself the end of a sound path one level down, with its separator as lowest key |
| SearchPath.Path.SetupNodesForSearch | btrfs_mfs_v4.2/ctree.c:1744-1788 | on the way to an insertion a node that lacks room for three more pointers is split and no other; on the way to a deletion a node of at most a quarter is balanced and no other; the row of nodes is determined, the root is promoted exactly when it has one pointer, the designated child and the tree's items stay |
| SearchPath.Path.SearchSlot | btrfs_mfs_v4.2/ctree.c:2124-2361 | agrees with a lower-bound search in the flattened item sequence, for lookups, insertions and deletions; a lookup changes nothing; a search for deletion ends in the leaf the key belongs to, however nodes were balanced on the way; -EOVERFLOW exactly for an existing item that cannot grow |
| SearchPath.Path.DelLeaf | btrfs_mfs_v4.2/ctree.c:4561-4585 | the emptied leaf is gone, the parent keeps its other pointers, and all other items are there |
| SearchPath.Path.MergeLeaf | btrfs_mfs_v4.2/ctree.c:4647-4711 | the items stay in order, and the leaves under the parent are those of `LeafOps.Merged`, one fewer exactly when the leaf goes |
| SearchPath.Path.DrainLeft | btrfs_mfs_v4.2/ctree.c:4664-4701 | exactly the longest prefix that fits goes to the left leaf, no other leaf changes, and the leaf goes exactly when that is all of it |
| SearchPath.Path.DrainRight | btrfs_mfs_v4.2/ctree.c:4675-4701 | all of the leaf goes to the front of the right one, and the leaf with it, exactly when it fits; otherwise nothing changes |
| SearchPath.DrainsFirst | btrfs_mfs_v4.2/ctree.c:3468-3501 | with `empty` the scan takes exactly the longest prefix that fits |
| SearchPath.Path.DelItems | btrfs_mfs_v4.2/ctree.c:4590-4717 | exactly the nr items from the slot on are gone from the sequence; the leaves under the parent afterwards are determined: without the leaf when nothing is left in it, merged with the neighbours when it is under a third full, otherwise as they were without the items |
| SearchPath.Path.KeepRest | btrfs_mfs_v4.2/ctree.c:4633-4711 | the same once it is known that items stay: the threshold of a third decides whether the neighbours are tried |
| SearchPath.Path.ChangeItem | btrfs_mfs_v4.2/ctree.c:4174-4213 | an item that shrank, perhaps with a later key, stands in its place of the sequence, and when it is the first of its leaf the separators follow |
| Btree.MapKeys | btrfs_mfs_v4.2/ctree.c:2124-2361 | the map of a tree has exactly the keys of its items |
| Btree.MapInsert | btrfs_mfs_v4.2/ctree.c:4412-4433 | items put between others add exactly their bindings |
| Btree.MapRemove | btrfs_mfs_v4.2/ctree.c:4590-4717 | items taken out remove exactly their keys |
| Btree.PathIsTree | btrfs_mfs_v4.2/ctree.c:211-226 | a sound path stands for a sound tree with the same items |
| Btree.BTree.Lookup | btrfs_mfs_v4.2/ctree.c:2124-2361 | finds exactly the keys of the map with their data; in front of the rank are exactly the items whose objectid, type and offset, in this order of weight, are below those of the key |
| Btree.RankIs | btrfs_mfs_v4.2/ctree.c:2124-2361 | around the lower bound of a key, in fields only: smaller by objectid, type or offset in front, the key itself or larger behind |
| Btree.BTree.InsertItems | btrfs_mfs_v4.2/ctree.c:4412-4433 | inserting a batch succeeds exactly when its first key is absent, adds exactly the batch, and otherwise leaves all items as they were; -EOVERFLOW has its exact condition |
| Btree.BTree.Insert | btrfs_mfs_v4.2/ctree.c:4439-4460 | map insertion; an existing key gives -EEXIST, or -EOVERFLOW exactly when its leaf is too full and the item could not grow |
| Btree.ExistingKeyOverflows | btrfs_mfs_v4.2/ctree.c:2060-2088 | a sound tree and a key it holds for which an insertion answers -EOVERFLOW |
| Btree.BTree.DeleteItems | btrfs_mfs_v4.2/ctree.c:4590-4717 | takes out exactly the first nr items from the key on of the leaf the key belongs to, or all there are, and nothing when the key is absent |
| Btree.BTree.Delete | btrfs_mfs_v4.2/ctree.c:4590-4717 | map removal of one key, 0 exactly when it was there |
| LittleEndian.RoundTrip | btrfs_mfs_v4.2/accessors.c:58-165 | reading back a stored number gives it when it fits its width |
| LittleEndian.RoundTripBytes | btrfs_mfs_v4.2/accessors.c:58-165 | storing what was read gives the same bytes, and what is read fits its width |
| LittleEndian.FourBytes | btrfs_mfs_v4.2/accessors.c:58-165 | the value of a four-byte field in terms of its bytes, lowest first |
| LittleEndian.EightBytes | btrfs_mfs_v4.2/accessors.c:58-165 | the value of an eight-byte field in terms of its bytes, lowest first |
| LeafFormat.KeyRoundTrip | btrfs_mfs_v4.2/accessors.h:616-630 | a key that fits the disk format is read back unchanged |
| LeafFormat.OffsetChain | btrfs_mfs_v4.2/ctree.c:57-64 | the data of an item ends where the data of the item before it starts, the first at the end of the leaf |
| LeafFormat.SpaceIsBytes | btrfs_mfs_v4.2/ctree.c:3192-3205 | the space of the tree layer is the bytes of headers and data of the leaf |
| LeafFormat.LayoutUnique | btrfs_mfs_v4.2/ctree.c:3192-3227 | the bytes of a leaf determine its items |
| LeafFormat.LeafBytes | btrfs_mfs_v4.2/ctree.c:3192-3227 | where everything in a leaf is: the fields of header i from byte 25 * i on, and each data byte of the item from the offset its header names |
| LeafFormat.FieldsOf | btrfs_mfs_v4.2/accessors.h:436-476 | the three fields of an item header are read back as written |
| LeafEdits.LayoutAfterDelete | btrfs_mfs_v4.2/ctree.c:4602-4626 | the two memmoves and the offset loop of a deletion yield the dense layout of the remaining items, byte for byte |
| LeafEdits.LayoutAfterInsert | btrfs_mfs_v4.2/ctree.c:4334-4374 | the memmoves and loops of a batch insertion yield the layout with the new items in between |
| LeafEdits.LayoutAfterResize | btrfs_mfs_v4.2/ctree.c:4163-4213 | the offset loop and the memmove of a truncation or extension yield the layout with one item changed |
| LeafEdits.LayoutAfterSplit | btrfs_mfs_v4.2/ctree.c:4058-4088 | splitting an item in place yields the layout with two items in its stead |
| LeafEdits.InlineMoved | btrfs_mfs_v4.2/ctree.c:4185-4201 | for an inline file extent cut at its front, the header is moved so that it survives |
| LeafEdits.TruncatedIs | btrfs_mfs_v4.2/ctree.c:4133-4220 | the item that a cut leaves, byte by byte; a cut at the front moves the key offset on by as many bytes, modulo 2^64, and an inline extent keeps its first 21 |
| LeafEdits.SplitIs | btrfs_mfs_v4.2/ctree.c:4058-4088 | the two items of a split, byte by byte, with their keys |
| LeafRuns.PushedRight | btrfs_mfs_v4.2/ctree.c:3299-3314 | the memmoves and copies of a right push leave the pushed items before the old ones, headers and data |
| LeafRuns.PushedLeft | btrfs_mfs_v4.2/ctree.c:3503-3510 | the copies of a left push put the items behind those of the left leaf |
| LeafRuns.LeftJoined | btrfs_mfs_v4.2/ctree.c:3511-3523 | with the offsets shifted, the left leaf is densely packed |
| LeafRuns.FrontDropped | btrfs_mfs_v4.2/ctree.c:3530-3540 | the remaining items of the right leaf move to its front and its back |
| LeafRuns.SplitCopied | btrfs_mfs_v4.2/ctree.c:3663-3679 | the two copies of a split give the new leaf its headers and data |
| LeafRuns.OffsetsDone | btrfs_mfs_v4.2/ctree.c:3316-3324 | recomputing all offsets from the sizes closes the chain |
| LeafBuffer.ExtentBuffer.ReadsBack | btrfs_mfs_v4.2/accessors.h:436-490 | offset, size and key read from the bytes are those of the item |
| LeafBuffer.ExtentBuffer.DataEnd | btrfs_mfs_v4.2/ctree.c:57-64 | the lowest byte used by item data, the end of the leaf when there is none |
| LeafBuffer.ExtentBuffer.FreeSpace | btrfs_mfs_v4.2/ctree.c:3212-3227 | never negative on a sound leaf, and exactly what is not used |
| LeafBuffer.ExtentBuffer.ShiftOffsets | btrfs_mfs_v4.2/ctree.c:4166-4173 | the loop moves the offsets of a range of items by the same amount and nothing else |
| LeafBuffer.ExtentBuffer.DelItems | btrfs_mfs_v4.2/ctree.c:4602-4626 | the leaf holds the old items without the deleted range, item by item, every other byte of data as before |
| LeafBuffer.ExtentBuffer.SetupItems | btrfs_mfs_v4.2/ctree.c:4295-4381 | new items of the given keys and sizes at the slot, all old items unchanged |
| LeafBuffer.ExtentBuffer.InsertItem | btrfs_mfs_v4.2/ctree.c:4439-4460 | with the data written, the leaf holds the old items with the new one in between |
| LeafBuffer.ExtentBuffer.ExtendItem | btrfs_mfs_v4.2/ctree.c:4225-4282 | the item keeps its data and gets the asked bytes at its end, all other items unchanged |
| LeafBuffer.ExtentBuffer.TruncateItem | btrfs_mfs_v4.2/ctree.c:4133-4220 | the item keeps, byte by byte, the right part of its data; its key offset moves on by the bytes cut from the front, modulo 2^64, and stays for a cut at the end; inline extents keep their first 21 bytes; all other items unchanged |
| LeafBuffer.ExtentBuffer.ExtendAndTruncate | btrfs_mfs_v4.2/ctree.c:4133-4282 | extending and then cutting the end to the old size restores all items |
| LeafBuffer.ExtentBuffer.SplitItem | btrfs_mfs_v4.2/ctree.c:4029-4094 | the item becomes two with its data cut in two; refuses exactly without room for a header, and then changes nothing |
| LeafBuffer.ExtentBuffer.CountPushRight | btrfs_mfs_v4.2/ctree.c:3254-3294 | the scan, reading sizes from the bytes, finds exactly the longest run of trailing items that may move |
| LeafBuffer.ExtentBuffer.CountPushLeft | btrfs_mfs_v4.2/ctree.c:3468-3501 | the same for leading items |
| LeafBuffer.ExtentBuffer.PushRight | btrfs_mfs_v4.2/ctree.c:3296-3334 | both leaves hold their share of the items in order, densely packed |
| LeafBuffer.ExtentBuffer.PushLeft | btrfs_mfs_v4.2/ctree.c:3503-3554 | the same to the left |
| LeafBuffer.ExtentBuffer.ScanRight | btrfs_mfs_v4.2/ctree.c:3233-3338 | scan and move together: the number moved is the one of the tree layer, and both leaves hold their share |
| LeafBuffer.ExtentBuffer.ScanLeft | btrfs_mfs_v4.2/ctree.c:3449-3554 | the same to the left |
| LeafBuffer.ExtentBuffer.CopyForSplit | btrfs_mfs_v4.2/ctree.c:3663-3681 | the leaf is cut in two, every item in one of the halves with its bytes |
| LeafLayers.PushRight | btrfs_mfs_v4.2/ctree.c:3233-3359 | a push on a path and on the bytes of both leaves: afterwards the bytes are laid out as exactly the two leaves of the tree layer |
| LeafLayers.PushLeft | btrfs_mfs_v4.2/ctree.c:3449-3577 | the same to the left |
| LeafLayers.Split | btrfs_mfs_v4.2/ctree.c:3649-3706 | the halves of the bytes are the halves of the leaf in the tree, next to each other under the parent |
| LeafLayers.Insert | btrfs_mfs_v4.2/ctree.c:4295-4381 | an item inserted at the path is at the same place in the bytes and in the tree |
| LeafLayers.Truncate | btrfs_mfs_v4.2/ctree.c:4133-4220 | the bytes and the tree hold the item cut the same way, and when the first key of a leaf moved on the separators above it are right |
| WorkQueue.StepKeepsInv | btrfs_mfs_v4.2/async-thread.c:210-355 | each atomic step of any worker keeps the invariant on flags, list, exclusion, ownership, addresses, wakeups and history |
| WorkQueue.Reachable | btrfs_mfs_v4.2/async-thread.c:210-355 | so does every run from the empty queue, in any interleaving |
| WorkQueue.SameAddressIsSelf | btrfs_mfs_v4.2/async-thread.c:252-283 | comparing addresses tells the worker's own item from others, although memory is reused |
| WorkQueue.StartsAlone | btrfs_mfs_v4.2/async-thread.c:222-250 | when an ordered function is about to start, no other runs |
| WorkQueue.OrderedInQueueOrder | btrfs_mfs_v4.2/async-thread.c:222-250 | ordered functions are claimed once each and in queue order over any run |
| WorkQueue.NoUseAfterFree | btrfs_mfs_v4.2/async-thread.c:245-291 | no step touches freed memory, and the item it touches is the only live one at its address |
| WorkQueue.NoLostWakeup | btrfs_mfs_v4.2/async-thread.c:294-329 | with no worker active, the head of the ordered list is not done |
| WorkQueue.KeepsAwake | btrfs_mfs_v4.2/async-thread.c:210-329 | a done head always has a worker that is going to look at the list |
| WorkQueue.AllDone | btrfs_mfs_v4.2/async-thread.c:210-355 | when all workers are finished the list is empty, exactly the ordered items ran, in the order they were queued, and each was freed exactly once |
| WorkQueue.Progress | btrfs_mfs_v4.2/async-thread.c:294-329 | until then some step of a worker can be taken |
| WorkQueue.WhoMayStep | btrfs_mfs_v4.2/async-thread.c:210-355 | nobody waits for anybody: every worker can take its own next step at any time; only a queued item waits, for an active one at its own address; an address is taken again exactly when all its items were freed |
| WorkQueue.LookIs | btrfs_mfs_v4.2/async-thread.c:219-243 | the head is claimed exactly when it is done and not yet claimed, otherwise the loop ends; no other item changes |
| WorkQueue.DropIs | btrfs_mfs_v4.2/async-thread.c:245-250 | the item whose ordered function ran is the head of the list, and comes off it alone |
| WorkQueue.ReleaseIs | btrfs_mfs_v4.2/async-thread.c:252-284 | the item is freed at once exactly when it is not the own one of the worker |
| WorkQueue.LeaveIs | btrfs_mfs_v4.2/async-thread.c:285-291 | and the own one at the end of the loop |
| WorkQueue.StepLowersRank | btrfs_mfs_v4.2/async-thread.c:294-329 | every step of a worker lowers a measure |
| WorkQueue.RunsEnd | btrfs_mfs_v4.2/async-thread.c:210-355 | a run has at most fourteen steps for each queued item |
| ListSort.StableSortUnique | MergeSorting/listsort.c:69-160 | sorted and stable determines the result, so the contract of the sort admits one answer |
| ListSort.StableIsPermutation | MergeSorting/listsort.c:69-160 | a stable rearrangement consists of the same nodes |
| ListSort.StableKeepsOrder | MergeSorting/listsort.c:118-124 | of two equal nodes the one that was first stays first |
| ListSort.MergeSorted | MergeSorting/listsort.c:108-141 | merging sorted runs gives a sorted run |
| ListSort.MergeStable | MergeSorting/listsort.c:118-124 | taking from the left run on ties keeps equal elements in order |
| ListSort.PassSorts | MergeSorting/listsort.c:90-145 | a pass over sorted runs of a length leaves sorted runs of twice the length |
| ListSort.PassStable | MergeSorting/listsort.c:90-145 | a pass is stable |
| ListSort.MergesIsCeiling | MergeSorting/listsort.c:88-91 | the merges of a pass are the number of nodes over twice the run length, rounded up |
| ListSort.StepAlong | MergeSorting/listsort.c:92-103 | the step loop stops at the run length or the end of the list, also when the list is circular |
| ListSort.MergeRuns | MergeSorting/listsort.c:105-145 | the relinking loop builds the merge of the two runs behind what was built before, leaves the rest of the list intact, with back links when double and at most one comparison for each node |
| ListSort.Pass | MergeSorting/listsort.c:82-151 | one pass returns the list of the merged runs, closed when circular, with its number of merges and comparisons bounded |
| ListSort.ListSort | MergeSorting/listsort.c:69-160 | the same nodes in rising order, equal ones in their old order, with next and prev links and closure right in all four modes, node by node; pass k does the rounded-up n over 2^k merges, there are log2 n passes, and at most n comparisons each |
| Entropy.Tangent | btrfs_mfs_v4.2/compression.c:1088-1109 | the integer inequality behind the bound: the fourth power of 6 + e is at most 1296 times 2^e |
| Entropy.FourthPowers | btrfs_mfs_v4.2/compression.c:1088-1091 | the error of the truncated logarithm of a fourth power is bounded in products of integers |
| Entropy.TermBound | btrfs_mfs_v4.2/compression.c:1102-1105 | the summand of one bucket is bounded linearly in its count and the sample size |
| Entropy.SumBound | btrfs_mfs_v4.2/compression.c:1101-1106 | the sum over any number of buckets is bounded likewise and never negative |
| Entropy.EntropyBelow33 | btrfs_mfs_v4.2/compression.c:1101-1108 | with 256 buckets the sum stays below 33 times the sample size |
| Entropy.Ilog2Bounds | btrfs_mfs_v4.2/compression.c:1088-1091 | the logarithm used is the exact floor |
| Entropy.Ilog2Word | btrfs_mfs_v4.2/compression.c:1088-1091 | the fourth power fits 64 bits for every sample and the logarithm is at most 52 |
| Entropy.ShannonEntropy | btrfs_mfs_v4.2/compression.c:1093-1109 | the answer is that of `EntropyMeans`, stated in integers, never above 100, with no overflow of any 32-bit value, for every distribution of a sample of at most 8192 bytes |
| Entropy.EntropyMeans | btrfs_mfs_v4.2/compression.c:1093-1109 | the answer in terms of the buckets: the sum over those in front of the first empty one of p times the difference of the two logarithms, each the exact floor for a fourth power; divided by the sample size and scaled to percent of 32, both rounded down |
| Entropy.UniformIsHundred | btrfs_mfs_v4.2/compression.c:1093-1109 | the bound is reached by the uniform distribution |
| RadixSort.CountAddresses | btrfs_mfs_v4.2/compression.c:1162-1166 | the counters hold the number of items at each address |
| RadixSort.SumUp | btrfs_mfs_v4.2/compression.c:1168-1169 | each counter points behind the places of its address |
| RadixSort.Place | btrfs_mfs_v4.2/compression.c:1171-1177 | walking backwards puts every item at its place, with all indices in bounds |
| RadixSort.CountingPass | btrfs_mfs_v4.2/compression.c:1159-1177 | a pass is the distribution by address and touches nothing beyond the count |
| RadixSort.HavingCommute | btrfs_mfs_v4.2/compression.c:1159-1177 | selecting by two digits does not depend on the order |
| RadixSort.DistributeHaving | btrfs_mfs_v4.2/compression.c:1159-1177 | distribution keeps the items of each address in order |
| RadixSort.PassExtends | btrfs_mfs_v4.2/compression.c:1159-1206 | an array stably sorted by the low bits is, after a pass, stably sorted by four more |
| RadixSort.RoundsSort | btrfs_mfs_v4.2/compression.c:1157-1207 | two passes a round sort by all bits up to bitlen |
| RadixSort.RadixSort | btrfs_mfs_v4.2/compression.c:1132-1208 | ends in the first array, whatever the number of rounds, and changes nothing beyond num in either array |
| RadixSort.RadixResult | btrfs_mfs_v4.2/compression.c:1132-1208 | the result is a stable permutation, descending in count modulo 2^bitlen |
| RadixSort.RadixInWords | btrfs_mfs_v4.2/compression.c:1132-1208 | the same in terms of the buckets: each comes from one old place, none twice; they fall in the low bits of their counts and those with equal low bits keep their order; the number of bits is the logarithm of the largest count rounded up to a multiple of eight |
| RadixSort.EnoughBits | btrfs_mfs_v4.2/compression.c:1148-1156 | the maximum is below 2^bitlen exactly when its logarithm is not a multiple of eight |
| RadixSort.FullySorted | btrfs_mfs_v4.2/compression.c:1132-1208 | then the array is fully descending |
| RadixSort.RadixSortsIff | btrfs_mfs_v4.2/compression.c:1132-1208 | for one array: the result is fully descending exactly when no bucket stands before or ties with a larger one in the bits looked at |
| RadixSort.WitnessFails | btrfs_mfs_v4.2/compression.c:1148-1156 | otherwise, for every length of at least two, an array of that length with that maximum is left out of order |
| RadixSort.SortsIffEnoughBits | btrfs_mfs_v4.2/compression.c:1132-1208 | for a maximum and a length of at least two, all arrays get sorted exactly when the logarithm of the maximum is not a multiple of eight |
| RadixSort.BadSampleFails | btrfs_mfs_v4.2/compression.c:1212-1247 | a sample that the heuristic does pass (256 buckets, whole reads, at most 8192 bytes, at least 64 byte values) and that is left out of order, for each such maximum |
| RadixSort.SamplesSortedIff | btrfs_mfs_v4.2/compression.c:1212-1247 | of the samples the heuristic passes, all with a given maximum get sorted exactly when it is neither 1 nor from 256 to 511 |
| Decompress.OffsetInExtent | btrfs_mfs_v4.2/compression.c:1022-1026 | the offset is right although cb->start may have underflowed and the result is cut to 32 bits |
| Decompress.NoAliases | btrfs_mfs_v4.2/compression.c:1009-1056 | two places of the bio never name the same byte of memory |
| Decompress.CopyOne | btrfs_mfs_v4.2/compression.c:1032-1052 | one turn writes the right bytes at the right place, keeps what was written, and touches no other memory |
| Decompress.Buf2Page | btrfs_mfs_v4.2/compression.c:1009-1056 | a buffer fills exactly the part of the bio it covers, both assertions hold, and 0 means the bio is full |
| Decompress.Stream | btrfs_mfs_v4.2/compression.c:1009-1056 | consecutive buffers fill exactly those bytes of the bio that they reach, each with the byte of the extent at its offset, write nothing else, and end with 0 exactly when the bio does not reach beyond them |
| FreeSpace.FindFirst | btrfs_mfs_v4.2/block-group.c:529-535 | the first excluded range that ends after start, with nothing excluded before it |
| FreeSpace.AddNewFreeSpace | btrfs_mfs_v4.2/block-group.c:519-563 | adds exactly the range without the excluded parts, in disjoint pieces, and reports their total size |
| FreeSpace.SearchSlot | btrfs_mfs_v4.2/block-group.c:738-744 | a search over several leaves gives the lower bound in key order |
| FreeSpace.LaterLeaf | btrfs_mfs_v4.2/block-group.c:757-784 | after yielding, the search for the next key comes to a later leaf, so the loop makes progress |
| FreeSpace.ExtentScanned | btrfs_mfs_v4.2/block-group.c:804-818 | one extent item extends the exact complement up to its end |
| FreeSpace.ScanEnds | btrfs_mfs_v4.2/block-group.c:829-832 | the last piece completes it |
| FreeSpace.LoadExtentTreeFree | btrfs_mfs_v4.2/block-group.c:702-836 | the ranges added are in order, disjoint and exactly the wanted bytes of the group that are in no extent, however often the thread yields; the scan is cut short exactly when the file system is closing at some turn, and then the same holds up to the byte it came to |
| FreeSpace.WantedIs | btrfs_mfs_v4.2/block-group.c:519-563 | wanted is what lies in the group, not before 64 KiB, and in no excluded range |
| FreeSpace.AllocatedIs | btrfs_mfs_v4.2/block-group.c:804-818 | an extent item takes its length and a metadata item one tree block; other items take nothing |
| SpaceAccounting.BlockGroup.IncRo | btrfs_mfs_v4.2/block-group.c:1347-1417 | the exact answer, and totals that follow the group into and in nested read-only state |
| SpaceAccounting.BlockGroup.DecRo | btrfs_mfs_v4.2/block-group.c:2951-2977 | the unused bytes leave the read-only total with the last reference only |
| SpaceAccounting.BlockGroup.AddReservedBytes | btrfs_mfs_v4.2/block-group.c:3669-3709 | refused exactly on a read-only group or for another size class, with limits of 128 KiB and 8 MiB; otherwise the reservation replaces the promise in the totals and the first one sets the class |
| SpaceAccounting.SizeClassFor | btrfs_mfs_v4.2/block-group.c:4477-4484 | small up to 128 KiB, medium up to 8 MiB, large beyond |
| SpaceAccounting.BlockGroup.UseSizeClass | btrfs_mfs_v4.2/block-group.c:4505-4536 | refuses exactly another class that is not forced, and only the first use sets the class |
| SpaceAccounting.BlockGroup.FreeReservedBytes | btrfs_mfs_v4.2/block-group.c:3723-3742 | freed bytes leave the reservation of group and totals, delayed allocation included, and count as read-only when the group is |
| SpaceAccounting.BlockGroup.UpdateOne | btrfs_mfs_v4.2/block-group.c:3584-3617 | reserved becomes used, or used becomes pinned, in group and totals alike |
| SpaceAccounting.BlockGroup.Unpin | btrfs_mfs_v4.2/extent-tree.c:2742-2748 | pinned bytes become free, or read-only |
| SpaceAccounting.BlockGroup.ResetPinned | btrfs_mfs_v4.2/block-group.c:1597-1607 | all pinned bytes become read-only |
| SpaceAccounting.FileSystem.Apply | btrfs_mfs_v4.2/block-group.c:1347-3742 | any transition of any group changes that group only and keeps every space info equal to the sums over its groups |
| SpaceAccounting.FileSystem.Lookup | btrfs_mfs_v4.2/block-group.c:268-272 | the group that holds an address, and none exactly when none does |
| SpaceAccounting.FileSystem.UpdateBlockGroup | btrfs_mfs_v4.2/block-group.c:3542-3654 | over a range that spans groups each gets exactly its overlap; 0 exactly when every byte of the range lies in a group, otherwise -ENOENT and the first byte that does not; the super block keeps its distance to the groups exactly in the first case |
| SpaceAccounting.AllocateBeyondTheEnd | btrfs_mfs_v4.2/block-group.c:3542-3654 | a file system and an allocation for which the super block ends ten bytes off |
| SpaceAccounting.FileSystem.Register | btrfs_mfs_v4.2/space-info.c:299-327 | a new group keeps the totals equal to the sums |
| SpaceAccounting.FileSystem.Remove | btrfs_mfs_v4.2/block-group.c:1201-1221 | an unused read-only group leaves with nothing left behind in the totals |
| SpaceAccounting.SumUpdate | btrfs_mfs_v4.2/block-group.c:1347-3742 | changing one group changes the sum of its space info by the difference of its shares, and no other sum |
| SpaceAccounting.SumRemove | btrfs_mfs_v4.2/block-group.c:1201-1221 | removing one group lowers the sum of its space info by its share, and no other sum |
| SpaceAccounting.FileSystem.StillBalanced | btrfs_mfs_v4.2/block-group.c:1347-3742 | a group in step with its space info keeps all totals equal to the sums |
| SpaceAccounting.RemovalBalances | btrfs_mfs_v4.2/block-group.c:1201-1221 | subtracting the full length is right exactly when nothing is used, reserved or pinned |
| Reserves.BlockRsv.UseBytes | btrfs_mfs_v4.2/block-rsv.c:297-310 | takes the bytes exactly when they are there; full keeps meaning at least the size |
| Reserves.BlockRsv.AddBytes | btrfs_mfs_v4.2/block-rsv.c:312-322 | adds the bytes and keeps that more than the size means full |
| Reserves.BlockRsv.Shrink | btrfs_mfs_v4.2/block-rsv.c:114-137 | frees exactly what exceeds the new size |
| Reserves.BlockRsv.TakeUp | btrfs_mfs_v4.2/block-rsv.c:139-154 | the destination takes no more than it lacks, and the subtraction for that never wraps |
| Reserves.FileSystem.Release | btrfs_mfs_v4.2/block-rsv.c:105-161 | the excess over the new size goes to the delayed refs reserve, or to the global one when that one itself shrinks, as far as it lacks bytes, is not full and shares the space info; the rest, and only that, leaves the promise total; no other reserve changes |
| Reserves.FileSystem.Migrate | btrfs_mfs_v4.2/block-rsv.c:163-175 | all bytes arrive, and the size of the destination grows only when asked to, or nothing changes |
| Reserves.FileSystem.Add | btrfs_mfs_v4.2/block-rsv.c:215-229 | size and reserved grow together, or nothing changes |
| Reserves.FileSystem.Refill | btrfs_mfs_v4.2/block-rsv.c:245-271 | tops up to the asked amount exactly when it is short and granted |
| Reserves.FileSystem.UpdateGlobal | btrfs_mfs_v4.2/block-rsv.c:324-397 | the global reserve holds exactly its size, at most 512 MiB, and what it takes or gives back changes the promise total by the same amount |
| Reserves.FileSystem.UseBlockRsv | btrfs_mfs_v4.2/block-rsv.c:477-548 | which reserve is used and what changes there, case by case; every success hands out exactly blocksize from the reserve it names, in the same space info; every failure hands out nothing |
| Reserves.FileSystem.TryReserve | btrfs_mfs_v4.2/block-rsv.c:506-547 | the space info is asked first, then the global reserve, then the space info in an emergency; what each adds to the promise total and to what was handed out, and which reserve is used |
| Reserves.FileSystem.Unuse | btrfs_mfs_v4.2/block-rsv.h:87-93 | handing back undoes the conservation effect of a use |
| Reserves.SumUpdate | btrfs_mfs_v4.2/block-rsv.c:105-548 | changing one reserve changes the sum of its space info only, by the difference |
| Reserves.FileSystem.StillConserved | btrfs_mfs_v4.2/block-rsv.c:105-548 | one reserve that moves with its space info keeps all promise totals equal to reserves plus handed out |
| PrelimRefs.RefOrder | btrfs_mfs_v4.2/backref.c:225-254 | the comparison is a strict total order on references without their counts |
| PrelimRefs.RefOrderIs | btrfs_mfs_v4.2/backref.c:225-254 | the level decides first, then the root, the type, objectid and offset of the key, and the parent last |
| PrelimRefs.RefsFall | btrfs_mfs_v4.2/backref.c:278-333 | the trees hold their references falling from left to right |
| PrelimRefs.PlugUpdate | btrfs_mfs_v4.2/backref.c:278-333 | changing one node at the end of the search keeps the mirrored order and changes one binding of the whole tree |
| PrelimRefs.FoundBelow | btrfs_mfs_v4.2/backref.c:297-320 | a reference is in the tree exactly when it is below the place the search has come to |
| PrelimRefs.PresentUpdate | btrfs_mfs_v4.2/backref.c:256-271 | the number of references with positive count moves by one exactly when a count crosses zero |
| PrelimRefs.ShareCheck.Update | btrfs_mfs_v4.2/backref.c:256-271 | the share count follows that change, for negative counts too |
| PrelimRefs.PrefTree.Insert | btrfs_mfs_v4.2/backref.c:278-333 | adds the count to the one binding, and the share count to the number of positive ones |
| PrelimRefs.PrefTree.IsSharedDataBackref | btrfs_mfs_v4.2/backref.c:446-469 | the walk agrees with membership in the tree |
| PrelimRefs.MergedIsSum | btrfs_mfs_v4.2/backref.c:278-333 | after any insertions each reference holds the sum of its counts |
| PrelimRefs.InsertedAnyOrder | btrfs_mfs_v4.2/backref.c:278-333 | that sum does not depend on the order of insertion |
| PrelimRefs.AnyOrder | btrfs_mfs_v4.2/backref.c:278-333 | neither does the content of the trees |
| PrelimRefs.InsertAll | btrfs_mfs_v4.2/backref.c:391-419 | after any sequence into the three trees the share count is the number of references with positive sum |
| PrelimRefs.InsertOne | btrfs_mfs_v4.2/backref.c:391-419 | one reference goes into the one tree it belongs to, except one of the data relocation tree, and the answer is 6 exactly when more than one reference is present by then |
| PrelimRefs.KeptCounts | btrfs_mfs_v4.2/backref.c:391-419 | references of the data relocation tree count nowhere, and all others as before |
| BackrefCache.Cache.LinkEdge | btrfs_mfs_v4.2/backref.c:3551-3559 | a new edge to a cached parent one level up is last on both lists, no other node changes; the parent is no leaf any more |
| BackrefLinks.BeginNode | btrfs_mfs_v4.2/backref.c:3017-3036 | a block that is looked up for the first time is the only new one of the cache |
| BackrefLinks.AddParent | btrfs_mfs_v4.2/backref.c:3163-3189 | an edge from a new block to its parent, cached or allocated now one level up, keeps the half-built shape: the edge is on the list of its child only |
| BackrefLinks.AddKeeps | btrfs_mfs_v4.2/backref.c:3294-3354 | the same as a fact about values, for each turn of the walk up a tree |
| BackrefLinks.FinishUpperLinks | btrfs_mfs_v4.2/backref.c:3495-3594 | ends; 0 exactly when all new blocks were checked and are cached ones; then all new blocks are in the tree of block numbers, the cache has its full shape again (with the lowest blocks on the list of leaves and only they), exactly the edges to detached parents are gone, from the lists of their children too, and exactly the blocks that lost all parents are queued |
| BackrefLinks.NoNewAt | btrfs_mfs_v4.2/backref.c:3526-3592 | with no edge pending no new block is left outside the cache on any level |
| BackrefLinks.HalfIsWhole | btrfs_mfs_v4.2/backref.c:3495-3594 | so the half-built shape is the full one |
| BackrefCache.Cache.AddLeaf | btrfs_mfs_v4.2/backref.c:3017-3036 | a new lowest block keeps the shape of the cache and its counts |
| BackrefCache.Cache.PopEdge | btrfs_mfs_v4.2/backref.c:3066-3082 | the first upper edge goes from both lists, its parent becomes the last leaf when that was its last child, no other node changes, and all counts follow |
| BackrefCache.Cache.DropNode | btrfs_mfs_v4.2/backref.h:517-528 | a node without edges leaves all lists, the tree and the count |
| BackrefCache.Cache.CleanupNode | btrfs_mfs_v4.2/backref.c:3056-3085 | exactly the node and its upper edges go; all other nodes keep their parents |
| BackrefCache.PopKeepsEdges | btrfs_mfs_v4.2/backref.c:3066-3082 | the other edges still connect adjacent levels and are on both lists |
| BackrefCache.PopKeepsNodes | btrfs_mfs_v4.2/backref.c:3066-3082 | the lists of every node still hold its own edges only |
| BackrefCache.NoNodeAt | btrfs_mfs_v4.2/backref.c:3090-3118 | with both lists empty no level has a node, by descent along the lower edges |
| BackrefCache.NothingLeft | btrfs_mfs_v4.2/backref.c:3090-3118 | so nodes and edges are all gone |
| BackrefCache.Cache.ReleaseCache | btrfs_mfs_v4.2/backref.c:3090-3118 | terminates with everything empty and both counters zero, so that every closing assertion holds |

## Left out

- Copy on write, reference counts, qgroups, the tree modification log and relocation: a block is changed in place.
- Locks, RCU, restarts after lost locks, and the limit of eight levels of a path: the tree has one writer, and a search starts over only when the root was promoted.
- Reading and writing of blocks, allocation failures, tracing and printing: they succeed.
- Block numbers: a tree is a value and its blocks cannot be shared.
- Merging a sparse leaf into its neighbours and deleting items is proved for the tree and for the bytes of one leaf, not for both at once as in `LeafLayers`.
- LeafBuffer.ExtentBuffer.PushRight: the number of items is a parameter; `LeafBuffer.ExtentBuffer.ScanRight` counts them first.
- LeafBuffer.ExtentBuffer.PushLeft: the number of items is a parameter; `LeafBuffer.ExtentBuffer.ScanLeft` counts them first.
- LeafBuffer.ExtentBuffer.TruncateItem: the separators above the leaf are in `LeafLayers.Truncate`.
- Btree.BTree.DeleteItems: only items of one leaf, as the callers of the deletion do.
- Search on behalf of extending or splitting an item is modelled at `SearchPath.Path.SearchSlot`; there is no map operation for it.
- `search_for_split`, `lowest_level`, `keep_locks` and the search of old roots are not part of this model.
- WorkQueue: the thresholds on pending work, the number of workers, memory barriers and the freeing of items without an ordered function by anything but their own function.
- ListSort.ListSort: the overflow of the C type of the run length is not modelled.
- RadixSort.RadixSort: a bucket is its count and, to tell equal counts apart, a tag; a maximum of zero, for which the logarithm is not defined, is outside.
- `byte_core_set_size` and the other heuristics of the compression are not part of this model.
- FreeSpace.LoadExtentTreeFree: the end of a range does not wrap at 64 bits; extents that begin before the first offset looked at are not seen, as in the source; waking up waiters is not modelled.
- SpaceAccounting.BlockGroup.IncRo: whether metadata may be overcommitted is a parameter.
- Zoned devices, discard, free-space inodes and chunk creation are not part of this model; groups are kept in a sequence.
- Reserves.FileSystem.UseBlockRsv: whether the space info grants a reservation is a parameter, one for each attempt.
- PrelimRefs.ShareCheck.Update: the count of references to the inode itself is only stated for one call; the lists of inodes hanging off a reference and the balancing of the tree are not part of this model.
- BackrefCache.Cache.LinkEdge: puts the edge on both lists, for a parent that is in the cache; new parents and edges on one list only are in `BackrefLinks`.
- BackrefLinks.FinishUpperLinks: a start block of a tree that is only copied on write, whose blocks are never cached, is not covered; which blocks the walk up the trees finds is a parameter of `BackrefLinks.AddParent`, one parent at a time. Nodes and edges are named by numbers in maps.
