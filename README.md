# Lead_rs core, modelled in Dafny

Lead_rs is a small physically based ray tracer. This project models five parts of it and proves properties about them.

- **The bounding volume hierarchy accelerator** (`src/impls/bvh.rs`), module `BVH` with its helpers in `BVHBuild`:
  - `recursive_build` rearranges an array of primitive records in place. It chooses a split by Middle, EqualCounts or the surface-area heuristic (SAH), partitions with two-pointer loops or nth-element, and builds a tree of build nodes.
  - `flatten_bvh_tree` writes that tree into the linear node array.
  - `intersect` and `intersect_p` walk the linear array with an explicit stack.
- **The bounding-box algebra** (`src/geometry/bounding_box.rs`), module `Bounds`, and its older near-copy (`src/utils/bounding_box.rs`), module `LegacyBounds`. Coordinates are f32 values modelled without rounding as `ExtReal.Float`: a finite real, +inf, -inf or NaN. This lets the ±inf sentinel of the empty box, and the division by zero in `offset`, be stated directly.
- **The sampler cursor state machines** (`src/traits/sampler.rs`, `pixel_sampler.rs`, `global_sampler.rs`):
  - class `Sampler.Sampler` holds the state of the trait's default methods: the sample index, the array offsets and the sample arrays.
  - `PixelSampler.PixelSampler` and `GlobalSampler.GlobalSampler` each own one `Sampler` and add their own cursors.
- **The two property stores of the scene reader** (`src/utils/property_list.rs` and the older `src/traits/property_list.rs`): classes over Dafny maps, with the attribute checks as functions.
- **The BxDF reflection-type flags** (`src/material/bxdf.rs` and the `bxdf_type` of the four concrete models): bit masks over `bv32`.

Each state-changing method is specified by a function of the old state. The properties the code promises are proved about those functions as lemmas.

Behaviour of the code worth noting:
- `flatten_bvh_tree` writes each node after its children, at slot `counter - 1`. The array is therefore not in pre-order. An interior node takes the slot its right child wrote, and slot 0 of a tree with more than one node keeps the `LinearBVHNode::new()` placeholder (`BVH.RightChildOverwritten`, `BVH.FlattenedFirstSlot`, `BVH.BVHAccel.Create`).
- The SAH bucket loop computes `12 * (offset as usize)`. Only the first and the last bucket are ever filled (`BVHBuild.BucketedCounts`). The partition uses `(12 * offset) as usize` with 12 clamped to 11 (`BVHBuild.BucketMapsDisagree`).
- SAH on four or fewer records calls nth-element at the relative index `mid - start`. EqualCounts passes the absolute index `mid` (`BVH.EqualCountsIndexPastSlice`).
- `world_bound` returns the bound of the first primitive only.
- The traversals push by appending to `nodes_to_visit` but pop by only lowering `to_visit_offset`. After a pop, the next push lands above a stale entry, and the pop after it reads the stale entry instead of the one just pushed (`BVH.PopPushPopStale`). On a five-node tree whose boxes are all hit, this makes the walk visit nodes 2 and 3 again and never reach node 4 (`BVH.StaleEntryRevisits`).
- Slot 0 of a tree with more than one node is the placeholder, whose box is the empty box. For any ray direction without NaN, the slab test `intersect_inv_p` (src/geometry/bounding_box.rs:284-300) misses the empty box, since +inf is never below -inf. Both traversals then stop at once with no hit (`BVH.BVHAccel.Intersect` and `BVH.BVHAccel.IntersectP` when `boxHit(New())` is false).

## Model

| member | source | states |
|---|---|---|
| BVH.SplitMethodName | src/impls/bvh.rs:12-19 | the name is "Unsupported" exactly for HLGBH |
| BVH.SplitMethodNamesDistinct | src/impls/bvh.rs:12-19 | the three supported split methods have pairwise different names |
| BVHBuild.NewInfo | src/impls/bvh.rs:29-35 | the record keeps its number and bounds; for a finite box the centroid is the per-axis midpoint of p_min and p_max, and it lies inside the box when the box is not inverted |
| BVH.InitInterior | src/impls/bvh.rs:65-71 | an interior node with the given axis and children, whose bounds contain every point of either child's bounds |
| BVH.InteriorShape | src/impls/bvh.rs:65-71 | an interior node over two children covering consecutive runs covers their union; its size and node count are those of the children, plus one node |
| BVH.EqualCountsIndexPastSlice | src/impls/bvh.rs:179-184 | the absolute index (start + end) / 2 is past the sub-slice [start, end) exactly when 3 * start >= end |
| BVHBuild.Gather | src/impls/bvh.rs:122-128 | the primitives a run of records names, one per record, in record order |
| BVHBuild.GatherAppend | src/impls/bvh.rs:122-128 | gathering a concatenation is the concatenation of the gathered parts |
| BVHBuild.BoundsUnionNoNaN | src/impls/bvh.rs:114-118 | the union of a range's bounds has no NaN coordinate |
| BVHBuild.BoundsUnionAppend | src/impls/bvh.rs:114-118 | the bounds of a concatenated range are the union of the two parts' bounds |
| BVHBuild.BoundsUnionContains | src/impls/bvh.rs:114-118 | every point inside some record's bounds is inside the range's bounds |
| BVHBuild.CentroidBoundsFinite | src/impls/bvh.rs:130-133 | a non-empty range has a finite centroid box holding every centroid |
| BVHBuild.Swap | src/impls/bvh.rs:165-167 | exchanges exactly two slots and keeps the multiset of records |
| BVHBuild.PartitionSwap | src/impls/bvh.rs:165-167 | swapping a misplaced pair extends both partitioned ends by one slot and stays within [start, end) |
| BVHBuild.SkipGood | src/impls/bvh.rs:157-159 | the first slot at or after left that does not belong on the left, or right if there is none |
| BVHBuild.SkipBad | src/impls/bvh.rs:161-163 | the scan from the right stops after the last slot that belongs on the left |
| BVHBuild.PartitionRound | src/impls/bvh.rs:155-168 | one round keeps both partitioned ends, permutes only [start, end), makes progress whenever it swaps, and changes nothing when the pointers meet |
| BVHBuild.Partition | src/impls/bvh.rs:151-172 | the range is permuted within [start, end); [start, mid) satisfies the test and [mid, end) does not; mid == end leaves the array unchanged |
| BVHBuild.SelectSwap | src/impls/bvh.rs:181-182 | moving a least key of the rest to slot p extends the selected prefix |
| BVHBuild.MinKeyIndex | src/impls/bvh.rs:181-182 | the first index of a least centroid key in [p, end) |
| BVHBuild.SelectRound | src/impls/bvh.rs:181-182 | one selection step extends the selected prefix by a permutation of [start, end) |
| BVHBuild.SelectNth | src/impls/bvh.rs:181-182 | nth-element: [start, end) is permuted; no key before slot start + k is larger, and none after it is smaller |
| BVHBuild.SelectedEnds | src/impls/bvh.rs:188-190 | a selected prefix through slot q puts slot q in sorted position |
| BVHBuild.BucketOfCast | src/impls/bvh.rs:211-214 | the bucket exists exactly when the truncated offset is at most 1, and is then bucket 0 or bucket 11 |
| BVHBuild.BucketOfScaled | src/impls/bvh.rs:251-255 | never bucket 12; bucket 11 exactly when 12 * offset truncates to 11 or 12 |
| BVHBuild.ScaledBucketInRange | src/impls/bvh.rs:251-255 | for an offset in [0, 1] the bucket is the floor of 12 * offset, clamped to a real bucket |
| BVHBuild.BucketMapsDisagree | src/impls/bvh.rs:211-214 | half-way along the axis the bucket loop uses bucket 0 while the partition uses bucket 6 |
| BVHBuild.BucketedCounts | src/impls/bvh.rs:206-217 | bucketing keeps twelve buckets, counts each record once, and leaves buckets 1 to 10 empty |
| BVHBuild.BucketedNoneSticks | src/impls/bvh.rs:211-214 | once a record's bucket index is past the array, bucketing the whole range fails |
| BVHBuild.BucketedSnoc | src/impls/bvh.rs:208-216 | one more record adds one to its bucket's count and its bounds to the bucket's bounds, or fails on an out-of-range index |
| BVHBuild.ComputeBuckets | src/impls/bvh.rs:206-217 | the loop's buckets are the bucketing of the range, or a failure where the source indexes past the array |
| BVHBuild.SplitSidesCoverAll | src/impls/bvh.rs:219-235 | for every candidate split, the two sides' counts add up to all bucketed records |
| BVHBuild.SplitCosts | src/impls/bvh.rs:219-235 | eleven costs, cost i being the cost of splitting after bucket i |
| BVHBuild.MinCostBucket | src/impls/bvh.rs:237-243 | the least cost, at the first index that attains it |
| BVH.BVHAccel.constructor | src/impls/bvh.rs:102-109 | no primitives, no nodes, a node limit of 0 and the SAH split method |
| BVH.BVHAccel.PlaceholderFacts | src/impls/bvh.rs:83-91 | the placeholder node has the empty box, tests no primitive and has no second child to descend to |
| BVH.BVHAccel.AppendLeafPrimitives | src/impls/bvh.rs:122-128 | a leaf appends exactly the primitives its records name, in range order |
| BVH.BVHAccel.EqualCountsSplit | src/impls/bvh.rs:179-184 | splits at the absolute index (start + end) / 2, with slot start + (start + end) / 2 of the array in sorted position, or panics when (start + end) / 2 is past the slice; the range is only permuted |
| BVH.BVHAccel.SAHSplit | src/impls/bvh.rs:185-288 | up to four records: splits at (start + end) / 2 with that slot in sorted position, and panics only on an empty range; more than four records: the bucket outcome; the range is only permuted |
| BVH.BVHAccel.SAHBucketSplit | src/impls/bvh.rs:192-285 | the first least-cost split becomes a leaf when the range fits in a node and is no cheaper than the record count; otherwise the records of buckets up to the chosen one come first |
| BVH.MiddlePartition | src/impls/bvh.rs:147-175 | the records below p_mid come first, then the rest; the split lands at an end of the range exactly when all records lie on one side of p_mid, and at the end only when nothing moved; the range is only permuted |
| BVH.MiddleFallback | src/impls/bvh.rs:147-178 | a partition lands at an end of the range exactly when the records it rearranged all lay on one side of p_mid |
| BVH.SplitChosenFacts | src/impls/bvh.rs:145-291 | whatever the method, an empty range panics and a split lies within the range. A split at the end moves nothing. Only SAH or HLGBH makes a leaf, and only for more than four records within the node limit. Only they index past the buckets |
| BVH.BVHAccel.ChooseSplit | src/impls/bvh.rs:145-291 | the decision is the configured method's outcome. Middle splits strictly inside the range, with the records below p_mid first, unless all records lie on one side of p_mid; then the outcome is EqualCounts'. EqualCounts and SAH decide as in their rows, and HLGBH decides as SAH. The range is only permuted |
| BVH.BVHAccel.RangeBounds | src/impls/bvh.rs:114-118 | the union of the range's bounds |
| BVH.BVHAccel.RangeCentroidBounds | src/impls/bvh.rs:130-133 | the box of the range's centroids |
| BVH.BVHAccel.RecursiveBuild | src/impls/bvh.rs:111-302 | permutes only its range. On success it adds exactly the tree's node count to the counter and appends the range's primitives in order. The tree covers them, its bounds are the range's, and its root axis is the centroid box's longest. The node follows the build rule: one record, or centroids that coincide on the split axis, give a leaf at once and move nothing. Otherwise the decision is the split method's outcome: a panic fails the node, a leaf moves nothing, and a split at the end of the range fails as unbounded recursion. Any other split gives children of mid - start and end - mid primitives. The returned trace records this call's records before and after, its decision, and the calls of its children, and satisfies `Follows`: every call in it obeys the build rule, and its outcome is its decision's or that of the child that failed first |
| BVH.BVHAccel.DecidedNode | src/impls/bvh.rs:145-291 | a decision other than a split inside the range settles the node: a panic fails it, SAH's leaf holds the whole range with the array as it was, and a split at the end fails as unbounded recursion; the trace has no children and satisfies `Follows` |
| BVH.BVHAccel.SplitNode | src/impls/bvh.rs:292-298 | a split strictly inside the range: the children are built over the records the split method left, and the trace of the node holds both child traces and satisfies `Follows` |
| BVH.FollowsLeafAtOnce | src/impls/bvh.rs:121-143 | a call on one record, or on centroids that coincide on the split axis, that makes the leaf and moves nothing follows the build rule |
| BVH.FollowsNoChildren | src/impls/bvh.rs:145-291 | a call that made no child call, with the outcome its decision prescribes, follows the build rule |
| BVH.FollowsChildren | src/impls/bvh.rs:292-298 | a split whose children follow the build rule over consecutive ranges, and whose outcome is built from theirs or is the first failure among them, follows the build rule |
| BVH.NoChildrenFails | src/impls/bvh.rs:145-298 | a call with no left child has no right child, and fails exactly when its own decision is a panic or a split at the end of its range |
| BVH.SplitOutcome | src/impls/bvh.rs:292-298 | a call with children did not fail by its own decision; it fails with a failed left child without calling the right one, and otherwise fails exactly when the right child fails |
| BVH.SplitCallsFail | src/impls/bvh.rs:292-298 | a split fails exactly when some call below it decides a panic or a split at the end, given that this holds for each of its children |
| BVH.BuildFailsExactly | src/impls/bvh.rs:111-302 | a build fails exactly when one of its calls decides a panic or a split at the end of its range: nothing else makes a node fail, and no failure of a child is recovered from |
| BVH.SmallSAHSplits | src/impls/bvh.rs:185-191 | under SAH or HLGBH, two to four records that are no leaf at once are split at (start + end) / 2 into two non-empty ranges of at most four records, and the node is built when both children are |
| BVH.SmallSAHBuilds | src/impls/bvh.rs:111-302 | under SAH or HLGBH every range of one to four records builds |
| BVH.BVHAccel.SplitAndRecurse | src/impls/bvh.rs:145-298 | once neither leaf test has fired: the same results as RecursiveBuild, with the node already counted, and a trace satisfying `Follows` whose decision is the split method's |
| BVH.BuildRuleLeaves | src/impls/bvh.rs:121-143 | a leaf comes only from one record, from coinciding centroids, or from SAH or HLGBH declining to split more than four records within the node limit |
| BVH.BVHAccel.BuildInterior | src/impls/bvh.rs:293-297 | left child then right child, combined into an interior node over the whole range split on dim, whose children hold mid - start and end - mid primitives. It returns the children's traces: the node is built exactly when both children are; a failed left child is the node's outcome and the right child is never called; otherwise a failed right child is the outcome |
| BVH.BVHAccel.BuildRight | src/impls/bvh.rs:296-297 | the right child built after the left, combined into an interior node whose left child is the given one and whose right child holds end - mid primitives; its trace follows the build rule, and a failed right child is the outcome |
| BVH.InteriorFacts | src/impls/bvh.rs:293-297 | two children built over consecutive ranges give an interior node covering the whole range, with the sum of node counts plus one and the range's bounds |
| BVH.InteriorGather | src/impls/bvh.rs:293-297 | what the two children append, in order, is what the whole range names |
| BVH.CombineBounds | src/impls/bvh.rs:293-297 | the bounds of the two child ranges make up the parent range's bounds |
| BVH.CombineGather | src/impls/bvh.rs:293-297 | the primitives of the two child ranges make up the parent range's |
| BVH.GatherPermuted | src/impls/bvh.rs:342-357 | gathering a rearranged list of records gives a rearrangement of the primitives |
| BVH.BuiltOrdered | src/impls/bvh.rs:342-357 | the primitives the whole build appends are a rearrangement of all primitives |
| BVH.PermutedInitial | src/impls/bvh.rs:347-350 | any rearrangement of the initial records gathers a rearrangement of the primitives |
| BVH.BVHAccel.BuildInfo | src/impls/bvh.rs:347-350 | record i is the primitive info of primitive i and its world bound |
| BVH.BVHAccel.BuildRoot | src/impls/bvh.rs:353 | the root call over every record: an empty array fails; otherwise the counter equals the tree's node count, the tree covers all records from slot 0, and the output list is what the rearranged records name, in order; the trace of the root call starts at output position 0 from the records given and satisfies `Follows` |
| BVH.BVHAccel.BuildTree | src/impls/bvh.rs:347-357 | no primitives means failure; otherwise the counter equals the tree's node count, the tree covers all primitives, and the reordered primitives are a rearrangement of the input. The trace starts from record i being primitive i's info and satisfies `Follows`; the build fails exactly when some call decides a panic or a split at the end of its range, and under SAH or HLGBH any one to four primitives build |
| BVH.WrittenRange | src/impls/bvh.rs:304-337 | flattening writes only slots in [offset, offset + node count), and the last of them holds the node itself |
| BVH.InteriorFirstSlotUnwritten | src/impls/bvh.rs:304-337 | an interior node's flattening never writes the first slot of its range |
| BVH.RightChildOverwritten | src/impls/bvh.rs:319-334 | the parent is written over its right child's slot, replacing the right child's linear node |
| BVH.FlattenedTop | src/impls/bvh.rs:334 | after flattening, the node's own slot holds its linear node |
| BVH.FlattenedFirstSlot | src/impls/bvh.rs:329-334 | flattening an interior root into an empty array leaves the placeholder in slot 0 |
| BVH.FlattenLeaf | src/impls/bvh.rs:312-334 | padding and writing a leaf completes its flattening |
| BVH.FlattenInterior | src/impls/bvh.rs:319-334 | flattening both children, padding and writing the node completes the interior node's flattening |
| BVH.BVHAccel.Padded | src/impls/bvh.rs:329-333 | existing slots are kept and placeholders are added up to the requested length |
| BVH.BVHAccel.FlattenBVHTree | src/impls/bvh.rs:304-337 | returns the post-increment offset, advances the counter by exactly the node count, leaves at least that many slots, and changes the node array exactly as the post-order write describes |
| BVH.BVHAccel.Create | src/impls/bvh.rs:342-367 | the node limit is clamped to 255; an empty list or a build panic fails and leaves the nodes alone; on success the primitives are a rearrangement of the input, the tree covers them, the node array is their flattening, and an interior root leaves the placeholder in slot 0. As for BuildTree, the trace follows the build rule from the initial records, the build fails exactly when some call decides a panic or a split at the end of its range, and under SAH or HLGBH any one to four primitives build |
| BVH.BVHAccel.Configure | src/impls/bvh.rs:343-345 | stores the primitives and the split method, and caps the node limit at 255 |
| BVH.BVHAccel.Install | src/impls/bvh.rs:359-366 | the ordered primitives replace the list; the nodes are the tree flattened from offset 0, its root at slot node count - 1, and an interior root flattened into an empty array leaves the placeholder in slot 0 |
| BVH.BVHAccel.WorldBound | src/impls/bvh.rs:487-490 | the first primitive's world bound, and a panic on an empty list |
| BVH.Push | src/impls/bvh.rs:414-423 | a push appends at the end and raises the offset by one, keeping the offset within the stack |
| BVH.Pop | src/impls/bvh.rs:408-412 | a pop lowers the offset by one and reads the entry below it, always within the stack |
| BVH.PushPopFresh | src/impls/bvh.rs:408-423 | on a stack never popped, the entry pushed is the next one popped |
| BVH.PopPushPopStale | src/impls/bvh.rs:408-423 | after a pop, a push and a pop read the entry popped before, not the one just pushed |
| BVH.Range | src/impls/bvh.rs:402-406 | the indices primitives_offset + 0 to primitives_offset + n - 1, in order |
| BVH.NodeMove | src/impls/bvh.rs:397-431 | after any node the walk moves on or stops, and the stack stays valid |
| BVH.Pending | src/impls/bvh.rs:395-433 | the move still to make after a log is a move on or a stop, with a valid stack |
| BVH.WalkAgrees | src/impls/bvh.rs:395-433 | two logs of the same walk agree at every position both have |
| BVH.WalkDeterministic | src/impls/bvh.rs:395-433 | the walk is fixed by the nodes, the box test and the ray's signs: a shorter log is a prefix of a longer one, and its pending move is the longer log's next entry |
| BVH.StaleEntryRevisits | src/impls/bvh.rs:408-423 | on a five-node tree whose boxes are all hit, the walk visits 0, 1, 2, 3 and then 2 again, and next goes to 3 with node 4 still unvisited |
| BVH.InRangePrefix | src/impls/bvh.rs:449-455 | the longest prefix of a leaf's indices that is in range; when shorter than the indices, the next index is past the list |
| BVH.RangeInRangePrefix | src/impls/bvh.rs:449-455 | the in-range prefix of a leaf's indices runs up to the end of the primitive list |
| BVH.FirstHitInPrefix | src/impls/bvh.rs:449-455 | a first hit within the leaf is a hit among its in-range primitives |
| BVH.WalkStep | src/impls/bvh.rs:395-433 | visiting the pending node extends the log of visits, stacks and tested primitives, and the pending move becomes that node's move |
| BVH.FirstHitAppend | src/impls/bvh.rs:451-455 | a leaf prefix that ends at its first hit, after a hit-free log, leaves a log whose only hit is its last entry |
| BVH.PopOrDone | src/impls/bvh.rs:408-412 | stops exactly on an empty stack; otherwise it moves to the entry just below the offset and lowers the offset by one, leaving the entries as they are |
| BVH.BVHAccel.TestLeaf | src/impls/bvh.rs:402-406 | fails exactly when the leaf indexes past the primitives; otherwise reports a hit exactly when some primitive of the leaf is hit |
| BVH.BVHAccel.TestLeafFirst | src/impls/bvh.rs:451-455 | the first hit primitive of the leaf, with none before it; or no hit in the whole leaf; or a panic past the primitive list |
| BVH.BVHAccel.Visit | src/impls/bvh.rs:397-431 | one pass at a node: it panics exactly when the leaf indexes past the primitives. Otherwise the move is the node's NodeMove, and the hit flag is set exactly when some primitive of the leaf is hit |
| BVH.BVHAccel.VisitP | src/impls/bvh.rs:446-479 | a hit exactly at the first primitive of the leaf that is hit, with none before it; a panic only past the primitive list, and only when no in-range primitive before it is hit; otherwise the node's NodeMove, with no primitive of the leaf hit |
| BVH.BVHAccel.StepP | src/impls/bvh.rs:446-479 | one pass on a hit-free log. A hit, found among the leaf's in-range primitives, leaves the log unchanged. So does a panic, with none of those primitives hit. Otherwise the visit extends the log, which stays hit-free and whose pending move is the one returned |
| BVH.BVHAccel.Step | src/impls/bvh.rs:397-431 | one pass of intersect: a panic leaves the log unchanged; otherwise the visit extends the log, the flag records whether any primitive tested so far was hit, and the pending move is the one returned |
| BVH.BVHAccel.Intersect | src/impls/bvh.rs:387-436 | the walk is a log of visits and stacks, each entry the previous one's NodeMove. On finishing, the pending move is Done and the result is whether any tested primitive was hit. A node index past the array, a bad primitive index and running out of fuel are each reported at the pending node. An empty node array panics. A missed placeholder root gives no hit at once, and a hit one runs out of fuel |
| BVH.BVHAccel.IntersectP | src/impls/bvh.rs:438-485 | the walk is logged as in Intersect, and the log is hit-free. True exactly when the pending leaf hits among its in-range primitives; false only when the walk is Done. Panics, fuel and the placeholder root behave as in Intersect |
| Bounds.New | src/geometry/bounding_box.rs:112-119 | the empty box: no point is inside it |
| Bounds.UnionPt | src/geometry/bounding_box.rs:216-221 | contains the point and every point of the box |
| Bounds.Union | src/geometry/bounding_box.rs:223-230 | contains every point of either operand |
| Bounds.Intersect | src/geometry/bounding_box.rs:232-239 | every point inside the result is inside both operands |
| Bounds.MaxExtent | src/geometry/bounding_box.rs:149-160 | axis 0 only if dx > dy and dx > dz, otherwise 1 only if dy > dz; the chosen component is at least the others |
| Bounds.Corner | src/geometry/bounding_box.rs:162-167 | every corner of a box that is not inverted is inside it |
| Bounds.Get | src/geometry/bounding_box.rs:340-346 | index 0 is p_min, 1 is p_max, any other index panics |
| Bounds.Offset | src/geometry/bounding_box.rs:182-194 | on an axis where p_max is not above p_min, the component is p - p_min; on an axis where p_max is above p_min, it is (p - p_min) / p_max - p_min, with the division applied before the subtraction as the source writes it |
| Bounds.Expand | src/geometry/bounding_box.rs:248-253 | a non-negative delta keeps every point of the box inside |
| Bounds.Area2 | src/geometry/bounding_box.rs:54-57 | the area with abs is never negative |
| Bounds.MaxExtent2 | src/geometry/bounding_box.rs:59-65 | 0 exactly when dx > dy; the chosen extent is at least the other |
| Bounds.UnionNewLeft | src/geometry/bounding_box.rs:112-119 | the empty box is the identity of union on both sides |
| Bounds.UnionPtNew | src/geometry/bounding_box.rs:216-221 | adding a point to the empty box gives the point box |
| Bounds.UnionCommutative | src/geometry/bounding_box.rs:223-230 | union is commutative |
| Bounds.UnionAssociative | src/geometry/bounding_box.rs:223-230 | union is associative |
| Bounds.UnionIdempotent | src/geometry/bounding_box.rs:223-230 | union is idempotent |
| Bounds.InsideExclusiveImpliesInside | src/geometry/bounding_box.rs:204-214 | inside_exclusive implies inside |
| Bounds.OverlapsSymmetric | src/geometry/bounding_box.rs:241-246 | overlaps is symmetric |
| Bounds.CommonPointOverlaps | src/geometry/bounding_box.rs:241-246 | two boxes with a common point overlap |
| Bounds.CornerBits | src/geometry/bounding_box.rs:162-167 | corner c takes p_max on axis k exactly when bit k of c is set; corner 0 is p_min and corner 7 is p_max |
| Bounds.LerpAxisEndpoints | src/geometry/bounding_box.rs:174-180 | one coordinate of lerp gives the low end at t = 0 and the high end at t = 1 |
| Bounds.LerpEndpoints | src/geometry/bounding_box.rs:174-180 | lerp of a finite box at t = 0 is p_min and at t = 1 is p_max |
| Bounds.OffsetFraction | src/geometry/bounding_box.rs:182-194 | only on an axis where p_min is 0 does offset give the fraction of the extent |
| Bounds.OffsetShifted | src/geometry/bounding_box.rs:182-194 | on [10, 20] the midpoint 15 gets offset 5 / 20 - 10, not one half |
| LegacyBounds.LegacyArea2 | src/utils/bounding_box.rs:53-56 | the older area equals the newer one up to sign |
| LegacyBounds.LegacyAreaNonInverted | src/utils/bounding_box.rs:53-56 | on a box that is not inverted the two areas agree and are non-negative |
| LegacyBounds.LegacyAreaOneAxisInverted | src/utils/bounding_box.rs:53-56 | a box inverted on exactly one axis has a negative older area, the opposite of the newer |
| LegacyBounds.LegacyAreaNegativeExample | src/utils/bounding_box.rs:53-56 | the unit square with swapped x sides has older area -1 and newer area 1 |
| LegacyBounds.OlderBounds3Laws | src/utils/bounding_box.rs:187-229 | in the older copy: the empty box is the identity of union, union and union_pt contain their operands, the intersection lies in both operands, inside_exclusive implies inside, overlaps is symmetric |
| ExtReal.ToUsize | src/impls/bvh.rs:211-214 | the f32-to-usize cast saturates at usize::MAX |
| Sampler.ArraySlice | src/traits/sampler.rs:48-69 | the empty slice once every array is handed out; otherwise the idx entries starting at idx * n of the current array, or a panic when they run past its end |
| Sampler.ArraySliceSmallIndex | src/traits/sampler.rs:48-69 | sample index 0 always gives the empty slice, and index 1 a single entry |
| Sampler.Sampler.constructor | src/traits/sampler.rs:20-22 | no arrays, pixel (0, 0), sample 0, both offsets 0 |
| Sampler.Sampler.Init | src/traits/sampler.rs:20-22 | sets samples_per_pixel and nothing else |
| Sampler.Sampler.StartPixel | src/traits/sampler.rs:24-29 | the pixel is p, the sample index and both array offsets are 0 |
| Sampler.Sampler.Request1DArray | src/traits/sampler.rs:38-42 | appends n to the sizes and a zeroed array of n * spp entries, keeping the two lists the same length |
| Sampler.Sampler.Request2DArray | src/traits/sampler.rs:43-47 | the 2D counterpart of Request1DArray |
| Sampler.Sampler.Get1DArray | src/traits/sampler.rs:48-58 | returns the slice for the current array and sample, advancing the offset by one unless every array was already handed out |
| Sampler.Sampler.Get2DArray | src/traits/sampler.rs:59-69 | the 2D counterpart of Get1DArray |
| Sampler.Sampler.StartNextSample | src/traits/sampler.rs:70-76 | both offsets 0, the sample index one higher, and true exactly while it is below samples_per_pixel |
| Sampler.Sampler.SetSampleNumber | src/traits/sampler.rs:81-88 | both offsets 0, the sample index n, and true exactly when n is below samples_per_pixel |
| PixelSampler.PixelSampler.constructor | src/traits/pixel_sampler.rs:10-18 | no precomputed dimensions, both cursors 0, no draws |
| PixelSampler.PixelSampler.Draw1D | src/traits/pixel_sampler.rs:31-39 | within the dimensions: the sample of the current pixel sample, the cursor one further, or a panic past the array; beyond them: the next generator draw, cursor unchanged |
| PixelSampler.PixelSampler.Draw2D | src/traits/pixel_sampler.rs:40-49 | as Draw1D over the 2D samples; beyond them two draws, x first |
| PixelSampler.PixelSampler.DrawKeepsCursor | src/traits/pixel_sampler.rs:19-49 | the cursors never pass the number of precomputed dimensions |
| PixelSampler.PixelSampler.Draws1DInOrder | src/traits/pixel_sampler.rs:31-39 | k calls of get_1d from cursor 0 use the first k dimensions in turn and make no draw |
| PixelSampler.PixelSampler.Repeat1D | src/traits/pixel_sampler.rs:31-39 | once the dimensions are used up, k calls make k draws and leave the cursor alone |
| PixelSampler.PixelSampler.Init | src/traits/pixel_sampler.rs:10-18 | sets spp and appends one zeroed array of spp entries per sampled dimension to both lists |
| PixelSampler.PixelSampler.StartNextSample | src/traits/pixel_sampler.rs:19-24 | both cursors 0, then the base step and its result |
| PixelSampler.PixelSampler.SetSampleNumber | src/traits/pixel_sampler.rs:25-30 | both cursors 0, then the base set and its result |
| PixelSampler.PixelSampler.Get1D | src/traits/pixel_sampler.rs:31-39 | the value, cursor and draw count of Draw1D, keeping the cursor invariant |
| PixelSampler.PixelSampler.Get2D | src/traits/pixel_sampler.rs:40-49 | the value, cursor and draw count of Draw2D, keeping the cursor invariant |
| PixelSampler.PixelSampler.GetCameraSample | src/traits/sampler.rs:32-37 | the film position is the raster position plus the first 2D sample and the lens position the second |
| GlobalSampler.Next1D | src/traits/global_sampler.rs:38-46 | the cursor moves past the dimension sampled, and past the reserved range when it stood in it |
| GlobalSampler.Next2D | src/traits/global_sampler.rs:47-58 | the cursor moves past both dimensions sampled, and past the reserved range when either lay in it |
| GlobalSampler.Sampled | src/traits/global_sampler.rs:38-58 | a series of requests never samples below the starting cursor |
| GlobalSampler.SampledIncreasing | src/traits/global_sampler.rs:38-58 | consecutive requests never sample a dimension twice |
| GlobalSampler.SampledArrayDimsFromOneRequest | src/traits/global_sampler.rs:38-58 | the reserved dimensions sampled all come from one request: at most two, and then adjacent |
| GlobalSampler.RequestAtArrayStartSamplesIt | src/traits/global_sampler.rs:38-58 | a request at the start of the reserved range samples that dimension before skipping |
| GlobalSampler.FilledRow | src/traits/global_sampler.rs:25-29 | entry j below the count is the sample of dimension 5 + i at index get_idx_for_sample(j); the rest of the row is unchanged |
| GlobalSampler.GlobalSampler.constructor | src/traits/global_sampler.rs:6 | dimension 0, interval index 0, the reserved range starting and ending at 5; the source has no constructor of its own (the concrete sampler provides one), so this initial state is a modelling choice |
| GlobalSampler.GlobalSampler.StartNextSample | src/traits/global_sampler.rs:10-15 | dimension 0 at the next sample's interval index, then the base step and its result |
| GlobalSampler.GlobalSampler.SetSampleNumber | src/traits/global_sampler.rs:32-37 | dimension 0 at sample n's interval index, then the base set and its result |
| GlobalSampler.GlobalSampler.StartPixel | src/traits/global_sampler.rs:16-31 | the base reset, dimension 0 at interval index get_idx_for_sample(0), the reserved range ending at 5 + one per 1D array + two per 2D array, and every 1D array filled from its own dimension; a panic exactly when some array is too short |
| GlobalSampler.GlobalSampler.FillRows | src/traits/global_sampler.rs:22-30 | fills every row, failing exactly when some row is too short |
| GlobalSampler.GlobalSampler.FillRow | src/traits/global_sampler.rs:25-29 | fills the row's first count entries, failing exactly when the row is shorter |
| GlobalSampler.GlobalSampler.Get1D | src/traits/global_sampler.rs:38-46 | the sample of the entry dimension, with the cursor moved as Next1D says |
| GlobalSampler.GlobalSampler.Get2D | src/traits/global_sampler.rs:47-58 | the samples of the entry dimension and the next, with the cursor moved as Next2D says |
| GlobalSampler.GlobalSampler.GetCameraSample | src/traits/sampler.rs:32-37 | the film position from the first two sampled dimensions plus the raster position, the lens position from the next two sampled |
| PropertyList.IsPropertyType | src/utils/property_list.rs:35-50 | true exactly for the eight value kinds and scale, translate and rotate |
| PropertyList.IsPropertyValid | src/utils/property_list.rs:52-60 | implies a property type; value kinds need name and value, scale and translate need value, rotate needs axis and angle |
| PropertyList.AddedProperty | src/utils/property_list.rs:62-114 | a transform kind puts one factor in front of the transform and changes nothing else; other kinds leave children and transform alone; unknown kinds change nothing |
| PropertyList.AddedTransform | src/utils/property_list.rs:62-78 | one new factor in front of the transform and no other change |
| PropertyList.StoredValue | src/utils/property_list.rs:79-113 | children and transform unchanged; a kind that is not a value kind changes nothing |
| PropertyList.ValidPropertyAccepted | src/utils/property_list.rs:52-114 | valid attributes are accepted except a bool other than "true" or "false" and an unparsable rotation angle |
| PropertyList.TransformIgnoresName | src/utils/property_list.rs:62-78 | a transform kind does not depend on the "name" attribute |
| PropertyList.UnparsableNumberIgnored | src/utils/property_list.rs:83-99 | an int or float whose value does not parse changes nothing |
| PropertyList.ValueStoredUnderName | src/utils/property_list.rs:79-113 | each value kind stores its parsed value under the name in its own map and changes no other field |
| PropertyList.Lookup | src/utils/property_list.rs:174-204 | the stored value for a present key, the default for an absent one |
| PropertyList.LookupAfterInsert | src/utils/property_list.rs:120-204 | a get after a set returns the value set whatever the default, other keys are unaffected, and the later of two sets wins |
| PropertyList.PropertyList.constructor | src/utils/property_list.rs:19-33 | no children, all maps empty, the identity transform |
| PropertyList.PropertyList.AddProperty | src/utils/property_list.rs:62-114 | the new state is what AddedProperty gives; a panic exactly where it has none |
| PropertyList.PropertyList.AddTransformProperty | src/utils/property_list.rs:62-78 | the new state is what AddedTransform gives; a panic exactly where it has none |
| PropertyList.PropertyList.StoreValue | src/utils/property_list.rs:79-113 | the new state is what StoredValue gives; a panic exactly where it has none |
| PropertyList.PropertyList.AddChild | src/utils/property_list.rs:116-118 | appends exactly the one child |
| PropertyList.PropertyList.SetString | src/utils/property_list.rs:120-122 | writes only the string map |
| PropertyList.PropertyList.SetFloat | src/utils/property_list.rs:124-126 | writes only the float map |
| PropertyList.PropertyList.SetInt | src/utils/property_list.rs:128-130 | writes only the int map |
| PropertyList.PropertyList.SetBool | src/utils/property_list.rs:132-134 | writes only the bool map |
| PropertyList.PropertyList.SetPoint2 | src/utils/property_list.rs:136-138 | writes only the point2 map, with the parsed vector |
| PropertyList.PropertyList.SetPoint3 | src/utils/property_list.rs:140-142 | writes only the point3 map, with the parsed vector |
| PropertyList.PropertyList.SetVector2 | src/utils/property_list.rs:144-146 | writes only the vector2 map, with the parsed vector |
| PropertyList.PropertyList.SetVector3 | src/utils/property_list.rs:148-150 | writes only the vector3 map, with the parsed vector |
| PropertyList.PropertyList.AddScale | src/utils/property_list.rs:152-157 | puts a scale factor in front of the transform |
| PropertyList.PropertyList.AddTranslation | src/utils/property_list.rs:159-164 | puts a translation factor in front of the transform |
| PropertyList.PropertyList.AddRotation | src/utils/property_list.rs:166-172 | puts a rotation factor in front of the transform, panicking exactly when the angle does not parse |
| SimplePropertyList.IsPropertyType | src/traits/property_list.rs:22-29 | true exactly for string, float and int |
| SimplePropertyList.IsPropertyValid | src/traits/property_list.rs:31-36 | true exactly for one of the three types with both name and value present |
| SimplePropertyList.ValidInNewerStore | src/traits/property_list.rs:31-36 | what the older check accepts, the newer accepts too |
| SimplePropertyList.AddedProperty | src/traits/property_list.rs:38-55 | panics exactly when name or value is missing; never touches the children |
| SimplePropertyList.IgnoredProperties | src/traits/property_list.rs:38-55 | an unknown type or an unparsable int or float changes nothing |
| SimplePropertyList.AgreesWithNewerStore | src/traits/property_list.rs:38-55 | on its three types the older store records what the newer one does in the same maps |
| SimplePropertyList.AgreeOnNumber | src/traits/property_list.rs:38-55 | an int or float property lands in the same map in both stores, or is ignored by both when its value does not parse |
| SimplePropertyList.PropertyList.constructor | src/traits/property_list.rs:12-20 | no children and empty maps |
| SimplePropertyList.PropertyList.AddProperty | src/traits/property_list.rs:38-55 | the new state is what AddedProperty gives; a panic exactly where it has none |
| SimplePropertyList.PropertyList.AddChild | src/traits/property_list.rs:57-59 | appends exactly the one child |
| SimplePropertyList.PropertyList.SetString | src/traits/property_list.rs:61-63 | writes only the string map |
| SimplePropertyList.PropertyList.SetFloat | src/traits/property_list.rs:65-67 | writes only the float map |
| SimplePropertyList.PropertyList.SetInt | src/traits/property_list.rs:69-71 | writes only the int map |
| BxDF.FlagValues | src/material/bxdf.rs:3-22 | the basic flags are the distinct powers of two 1, 2, 4, 8 and 16, and BSDFAll is their OR, 31 |
| BxDF.ModelTypeWithinAll | src/material/specular_reflection.rs:9-11 | every concrete model's type lies within the five flags |
| BxDF.ModelFlagValues | src/material/lambertian_reflection.rs:8-10 | the model types are 17, 5, 18 and 19 |
| BxDF.MatchesFlagsIsSubset | src/material/bxdf.rs:38-40 | matches_flags holds exactly when no bit of the type lies outside t's mask; for a type within the five flags, exactly when each of its five flag bits is set in t's mask |
| BxDF.MatchesFlagsPerFlag | src/material/bxdf.rs:38-40 | for a type within BSDFAll's mask, matches_flags holds exactly when each basic flag of the type is one of t's |
| BxDF.MatchesOwnAndAll | src/material/bxdf.rs:38-40 | a type matches its own flag, and matches BSDFAll exactly when it lies within 31 |
| BxDF.ModelsMatchOnlyAll | src/material/bxdf.rs:38-40 | each concrete model matches only BSDFAll |

## Left out

- BVH.BVHAccel.Intersect and BVH.BVHAccel.IntersectP: the walk of the linear array is bounded by a `fuel` parameter and ends with OutOfFuel when it runs out. Termination is not proved. The slab test is the parameter `boxHit`, so the contracts hold for any box test; with the source's `intersect_inv_p` the placeholder root is missed, and on every tree of more than one node both walks stop at once with no hit.
- The ray-box slab test, the ray's `dir_is_neg` and every primitive's own intersection are floating-point code. They are parameters of the traversal (`boxHit`, `dirIsNeg`, `primHit`). The intersection record `its` is not modelled. Each primitive hit overwrites it, so the source keeps the last hit found, not the nearest.
- f32 rounding: coordinates are extended reals without rounding, so the centroid, union, lerp and offset are exact.
- u32 and usize overflow of the counters, offsets and primitive numbers is not modelled. The only cast modelled is f32 to usize (`ExtReal.ToUsize`).
- BVH.BVHAccel.SAHBucketSplit: the SAH costs (bvh.rs:219-235) are an abstract real-valued function `costOf` of the two sides' counts and boxes and the node's box. The surface areas and the NaN an empty bucket produces are not modelled.
- BVH.BVHAccel.Create: `nodes.reserve` is not modelled. The underflow of `2 * len - 1` on an empty list, and the other panics of the build, make Create return Failed instead of panicking. The `assert_eq` of the node count against the final offset is proved as an ensures of BuildTree and FlattenBVHTree.
- BVH.BVHAccel.Create requires every world bound to be finite. With a NaN or infinite coordinate the comparisons of the Middle partition are not a strict order.
- BVH.BVHAccel.BuildTree and BVH.BVHAccel.Create: the build is characterised by its trace (`BVH.Follows`) and by when it fails. A positive statement that a build succeeds is proved only for SAH and HLGBH on one to four primitives (`BVH.SmallSAHBuilds`); for larger inputs the outcome depends on the equal-counts index and the SAH bucket index, and `BVH.BuildFailsExactly` reduces it to the decisions of the calls.
- `select_nth_unstable_by` is modelled by a selection sort that meets the library's contract. Its actual algorithm and the order of equal keys are not modelled.
- The sharing of build nodes through `Arc`, and concurrent use of the accelerator, are left out. The build tree is a plain datatype.
- `bounding_sphere`, `surface_area`, `volume` and the ray-box `intersect_p` of both bounding-box files, and the `intersect_inv_p` of src/geometry/bounding_box.rs (the older file has only a commented-out `intersect_p_inv`), are floating-point math and are not modelled; the traversal takes the box test as the parameter `boxHit`.
- Sampler.Sampler.Get1DArray: the slice `[idx * n, idx * (n + 1))` holds idx entries, not n. This is modelled as written.
- GlobalSampler.GlobalSampler.Get1D and GlobalSampler.GlobalSampler.Get2D return the sample of the entry dimension, even when the cursor then jumps over the reserved range. This is modelled as written.
- GlobalSampler.GlobalSampler.StartPixel fills only the 1D arrays, as the source does. When some array is too short the source panics part-way through the fill. The model reports that as ok == false and says nothing about the partly filled arrays.
- The oracles `get_idx_for_sample` and `sample_dimension` of the global sampler, and the random number generator of the pixel sampler, are function parameters. Each draw of the generator is numbered.
- The parsers `parse::<i32>`, `parse::<f32>` and the vector parsers are abstract partial functions. The panics of `init_string` on a malformed vector are not modelled.
- The property list's Matrix4x4 transform is a list of Scale, Translate and Rotate factors, newest first. This models left multiplication without the matrix arithmetic.
- The getters of both property stores are functions without their own ensures. What they return is stated by PropertyList.Lookup and PropertyList.LookupAfterInsert.
- BxDF: only the type flags and matches_flags are modelled. The float bodies of f, sample_f, pdf and rho are left out.
- The global sampler's GetCameraSample uses the sampler's own get_2d, as the trait's default method does.
