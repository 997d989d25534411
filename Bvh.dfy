/** The bounding volume hierarchy accelerator of src/impls/bvh.rs: the
    recursive build over an in-place array of primitive records, the flattening
    of the build tree into the linear node array, and the two stack-driven
    traversals. Primitives are opaque; only their world bound and two
    intersection tests, given as functions, are observed. */
module BVH {
  import opened ExtReal
  import opened Bounds
  import opened Wrappers
  import opened BVHBuild

  datatype SplitMethod = SAH | HLGBH | Middle | EqualCounts

  /** SplitMethod::to_string: HLGBH falls to the catch-all arm. */
  function SplitMethodName(m: SplitMethod): (r: string)
    ensures r == "Unsupported" <==> m.HLGBH?
  {
    match m
    case SAH => "Surface Area Heuristic"
    case EqualCounts => "Equal Counts"
    case Middle => "Middle"
    case _ => "Unsupported"
  }

  /** The three supported methods have three different names. */
  lemma SplitMethodNamesDistinct(m1: SplitMethod, m2: SplitMethod)
    requires m1 != m2 && !m1.HLGBH? && !m2.HLGBH?
    ensures SplitMethodName(m1) != SplitMethodName(m2)
  {
    assert |SplitMethodName(Middle)| == 6 && |SplitMethodName(EqualCounts)| == 12;
    assert |SplitMethodName(SAH)| == 22;
  }

  /** BVHBuildNode: a leaf holds n primitives from ordered slot `first`. */
  datatype BuildNode =
    | Leaf(bounds: Bounds3, first: nat, n: nat)
    | Interior(bounds: Bounds3, axis: Axis, left: BuildNode, right: BuildNode)

  /** BVHBuildNode::init_interior: the node's bounds are the union of its
      children's bounds. (init_leaf is the Leaf constructor.) */
  function InitInterior(axis: Axis, c0: BuildNode, c1: BuildNode): (r: BuildNode)
    ensures r.Interior? && r.axis == axis && r.left == c0 && r.right == c1
    ensures forall p :: Inside(p, c0.bounds) || Inside(p, c1.bounds) ==> Inside(p, r.bounds)
  {
    Interior(Union(c0.bounds, c1.bounds), axis, c0, c1)
  }

  /** An interior node's size, node count and coverage follow from its children's. */
  lemma InteriorShape(axis: Axis, c0: BuildNode, c1: BuildNode, first: nat, second: nat)
    requires Covers(c0, first) && second == first + Size(c0) && Covers(c1, second)
    ensures var r := InitInterior(axis, c0, c1);
            Covers(r, first) && Size(r) == Size(c0) + Size(c1) && NodeCount(r) == 1 + NodeCount(c0) + NodeCount(c1)
  {
  }

  function NodeCount(node: BuildNode): nat
  {
    match node
    case Leaf(_, _, _) => 1
    case Interior(_, _, l, r) => 1 + NodeCount(l) + NodeCount(r)
  }

  /** Number of primitives below the node. */
  function Size(node: BuildNode): nat
  {
    match node
    case Leaf(_, _, n) => n
    case Interior(_, _, l, r) => Size(l) + Size(r)
  }

  /** The leaves, left to right, hold consecutive non-empty runs of ordered
      primitives starting at `first`. */
  predicate Covers(node: BuildNode, first: nat)
  {
    match node
    case Leaf(_, f, n) => f == first && n >= 1
    case Interior(_, _, l, r) => Covers(l, first) && Covers(r, first + Size(l))
  }

  datatype BuildFailure =
    | NthIndexOutOfRange     // select_nth_unstable_by with index >= slice length
    | BucketIndexOutOfRange  // buckets[b] with b >= 12 (or an overflowing 12 * b)
    | UnboundedRecursion     // the left child repeats the parent's call

  datatype BuildOutcome = Built(node: BuildNode) | Failed(reason: BuildFailure)

  datatype SplitDecision = SplitAt(mid: nat) | MakeLeaf | Panic(reason: BuildFailure)

  /** Ranks for the split-method loop: Middle and HLGBH hand over once. */
  function SplitRank(m: SplitMethod): nat
  {
    if m.Middle? || m.HLGBH? then 1 else 0
  }

  /** Whether (start + end) / 2, used as an absolute index into the slice
      [start, end) as at bvh.rs:181-182, is past the slice: exactly when
      3 * start >= end. */
  lemma EqualCountsIndexPastSlice(start: nat, end: nat)
    requires start <= end
    ensures (start + end) / 2 >= end - start <==> 3 * start >= end
  {
  }

  // ---------------------------------------------------------------------
  // Linear nodes

  datatype LinearNode = LinearNode(bounds: Bounds3, primitivesOffset: Option<nat>,
                                   secondChildOffset: Option<nat>, nPrimitives: nat, axis: Axis)

  /** LinearBVHNode::new(), also the filler pushed by flatten_bvh_tree. */
  function DefaultLinearNode(): LinearNode
  {
    LinearNode(New(), None, None, 0, 0)
  }

  /** The linear node flatten_bvh_tree builds for `node` entered with the
      counter at `offset`: a leaf keeps its offset and count; an interior node
      keeps its axis and the offset returned for its second child. */
  function LinearOf(node: BuildNode, offset: nat): LinearNode
  {
    match node
    case Leaf(b, first, n) =>
      if n > 0 then LinearNode(b, Some(first), None, n, 0) else LinearNode(b, None, None, 0, 0)
    case Interior(b, axis, l, _) => LinearNode(b, None, Some(offset + 2 + NodeCount(l)), 0, axis)
  }

  /** What flatten_bvh_tree, entered with the counter at `offset`, last
      writes into slot i for `node` (None: nothing). Every node is written at
      slot (counter after its children) - 1, after its children, so the parent
      takes the slot its right child wrote; the left child writes only inside
      [offset + 1, offset + 1 + NodeCount(left)) and the right child only
      inside the slots after those (WrittenRange). */
  function WrittenAt(node: BuildNode, offset: nat, i: nat): Option<LinearNode>
    decreases node
  {
    match node
    case Leaf(_, _, _) => if i == offset then Some(LinearOf(node, offset)) else None
    case Interior(_, _, l, r) =>
      if i == offset + NodeCount(node) - 1 then Some(LinearOf(node, offset))
      else if offset + 1 + NodeCount(l) <= i then WrittenAt(r, offset + 1 + NodeCount(l), i)
      else if offset + 1 <= i then WrittenAt(l, offset + 1, i)
      else None
  }

  /** Every written slot lies in [offset, offset + NodeCount), and the node's
      own slot, the last of them, holds the node. */
  lemma {:induction false} WrittenRange(node: BuildNode, offset: nat, i: nat)
    ensures WrittenAt(node, offset, i).Some? ==> offset <= i < offset + NodeCount(node)
    ensures WrittenAt(node, offset, offset + NodeCount(node) - 1) == Some(LinearOf(node, offset))
    decreases node
  {
    if node.Interior? {
      WrittenRange(node.left, offset + 1, i);
      WrittenRange(node.right, offset + 1 + NodeCount(node.left), i);
    }
  }

  /** An interior node never writes the first slot of its range: the slot its
      pre-order position would take keeps whatever was there before. */
  lemma InteriorFirstSlotUnwritten(node: BuildNode, offset: nat)
    requires node.Interior?
    ensures WrittenAt(node, offset, offset).None?
  {
  }

  /** The right child's own slot is its parent's slot, so the right child's
      linear node is overwritten. */
  lemma RightChildOverwritten(node: BuildNode, offset: nat)
    requires node.Interior?
    ensures var rightEntry := offset + 1 + NodeCount(node.left);
            rightEntry + NodeCount(node.right) - 1 == offset + NodeCount(node) - 1 &&
            WrittenAt(node, offset, rightEntry + NodeCount(node.right) - 1) == Some(LinearOf(node, offset)) &&
            LinearOf(node, offset) != LinearOf(node.right, rightEntry)
  {
  }

  /** Slot i after flattening `node` from `offset` over the array `before`:
      the last write, or the old slot, or a pushed placeholder. */
  function SlotAfter(before: seq<LinearNode>, node: BuildNode, offset: nat, i: nat): LinearNode
  {
    match WrittenAt(node, offset, i)
    case Some(x) => x
    case None => if i < |before| then before[i] else DefaultLinearNode()
  }

  /** The contents a node array has after flattening `node` from `offset`
      over the array `before`. */
  ghost predicate FlattenedFrom(after: seq<LinearNode>, before: seq<LinearNode>, node: BuildNode, offset: nat)
  {
    |after| == (if |before| < offset + NodeCount(node) then offset + NodeCount(node) else |before|) &&
    forall i | 0 <= i < |after| :: after[i] == SlotAfter(before, node, offset, i)
  }

  // ---------------------------------------------------------------------
  // The traversal stack

  /** nodes_to_visit with to_visit_offset: pops only move `top`. */
  datatype Stack = Stack(entries: seq<nat>, top: nat)

  predicate StackValid(s: Stack)
  {
    s.top <= |s.entries|
  }

  /** nodes_to_visit.push(x); to_visit_offset += 1. */
  function Push(s: Stack, x: nat): (r: Stack)
    ensures StackValid(s) ==> StackValid(r)
    ensures r.top == s.top + 1 && |r.entries| == |s.entries| + 1 && r.entries[|s.entries|] == x
  {
    Stack(s.entries + [x], s.top + 1)
  }

  /** to_visit_offset -= 1; read nodes_to_visit[to_visit_offset]. The read is
      in bounds for every valid stack. */
  function Pop(s: Stack): (r: (nat, Stack))
    requires StackValid(s) && s.top > 0
    ensures StackValid(r.1) && r.1.top == s.top - 1 && r.1.entries == s.entries
    ensures r.0 == s.entries[s.top - 1]
  {
    (s.entries[s.top - 1], Stack(s.entries, s.top - 1))
  }

  /** On a stack that has never been popped, a pushed entry is the next one popped. */
  lemma PushPopFresh(s: Stack, x: nat)
    requires s.top == |s.entries|
    ensures Pop(Push(s, x)).0 == x
  {
  }

  /** After a pop, a push appends behind the stale entries, so the next pop
      reads the entry just popped again instead of the one just pushed. */
  lemma PopPushPopStale(s: Stack, x: nat)
    requires StackValid(s) && s.top > 0
    ensures Pop(Push(Pop(s).1, x)).0 == Pop(s).0
  {
  }

  datatype Traversal = Finished(hit: bool) | NodeIndexOutOfRange | PrimitiveIndexOutOfRange | OutOfFuel

  /** Primitive indices `off + 0 .. off + n - 1`. */
  function Range(off: nat, n: nat): (r: seq<nat>)
    ensures |r| == n && forall j | 0 <= j < n :: r[j] == off + j
  {
    seq(n, j => off + j)
  }

  /** Primitives a visit to node v tests: all of a hit leaf's primitives. */
  function LeafTests(nodes: seq<LinearNode>, v: nat, boxHit: Bounds3 -> bool): seq<nat>
  {
    if v < |nodes| && boxHit(nodes[v].bounds) && nodes[v].nPrimitives > 0 && nodes[v].primitivesOffset.Some?
    then Range(nodes[v].primitivesOffset.value, nodes[v].nPrimitives)
    else []
  }

  /** Primitives tested by a sequence of node visits, in order. */
  function TestedBy(nodes: seq<LinearNode>, visits: seq<nat>, boxHit: Bounds3 -> bool): seq<nat>
  {
    if |visits| == 0 then []
    else TestedBy(nodes, visits[..|visits| - 1], boxHit) + LeafTests(nodes, visits[|visits| - 1], boxHit)
  }

  /** Some listed primitive index is in range and its primitive is hit. */
  predicate AnyHit<P>(prims: seq<P>, hit: P -> bool, idx: seq<nat>)
  {
    exists k | 0 <= k < |idx| :: idx[k] < |prims| && hit(prims[idx[k]])
  }

  lemma AnyHitAppend<P>(prims: seq<P>, hit: P -> bool, a: seq<nat>, b: seq<nat>)
    ensures AnyHit(prims, hit, a + b) <==> AnyHit(prims, hit, a) || AnyHit(prims, hit, b)
  {
    if AnyHit(prims, hit, a + b) {
      var k :| 0 <= k < |a + b| && (a + b)[k] < |prims| && hit(prims[(a + b)[k]]);
      if k >= |a| {
        assert b[k - |a|] == (a + b)[k];
      }
    }
    if AnyHit(prims, hit, b) {
      var k :| 0 <= k < |b| && b[k] < |prims| && hit(prims[b[k]]);
      assert (a + b)[|a| + k] == b[k];
    }
    if AnyHit(prims, hit, a) {
      var k :| 0 <= k < |a| && a[k] < |prims| && hit(prims[a[k]]);
      assert (a + b)[k] == a[k];
    }
  }

  lemma AnyHitSnoc<P>(prims: seq<P>, hit: P -> bool, a: seq<nat>, x: nat)
    ensures AnyHit(prims, hit, a + [x]) <==> AnyHit(prims, hit, a) || (x < |prims| && hit(prims[x]))
  {
    AnyHitAppend(prims, hit, a, [x]);
    if x < |prims| && hit(prims[x]) {
      assert [x][0] == x;
    }
  }

  /** Every listed primitive index is below n. */
  predicate InRange(idx: seq<nat>, n: nat)
  {
    forall k | 0 <= k < |idx| :: idx[k] < n
  }

  lemma InRangeRange(off: nat, len: nat, n: nat)
    ensures InRange(Range(off, len), n) <==> len == 0 || off + len <= n
  {
    if len > 0 && InRange(Range(off, len), n) {
      assert Range(off, len)[len - 1] == off + len - 1;
    }
  }

  lemma InRangeAppend(a: seq<nat>, b: seq<nat>, n: nat)
    requires InRange(a, n) && InRange(b, n)
    ensures InRange(a + b, n)
  {
    forall k | 0 <= k < |a + b| ensures (a + b)[k] < n {
      if k >= |a| {
        assert (a + b)[k] == b[k - |a|];
      }
    }
  }

  /** What one pass of the traversal loop does at a node: move on to `node`
      with `stack`, stop (nothing left to visit), stop at a hit primitive
      (the `count`-th primitive the leaf tested), or index past the
      primitive list. */
  datatype Move = Next(node: nat, stack: Stack) | Done | Hit(count: nat) | BadPrimitive

  /** The pop of bvh.rs:408-412 and 426-430: stop on an empty stack,
      otherwise move to the entry below the top. */
  function PopOrDone(stack: Stack): (m: Move)
    requires StackValid(stack)
    ensures m.Done? <==> stack.top == 0
    ensures m.Next? ==>
              StackValid(m.stack) && m.stack == Stack(stack.entries, stack.top - 1) &&
              m.node == stack.entries[stack.top - 1]
  {
    if stack.top == 0 then Done else Next(Pop(stack).0, Pop(stack).1)
  }

  /** Where one pass of the loop of bvh.rs:397-431 (and 446-479) goes from
      node `node` in slot v, the primitive tests aside: a missed box and a
      leaf with an offset pop; a hit interior node pushes one child and moves
      to the other, the second child first when dir_is_neg[axis] is set; a hit
      leaf without an offset, or interior node without a second child, stays
      where it is. */
  function NodeMove(node: LinearNode, v: nat, stack: Stack, boxHit: Bounds3 -> bool, dirIsNeg: Axis -> bool): (m: Move)
    requires StackValid(stack)
    ensures m.Next? || m.Done?
    ensures m.Next? ==> StackValid(m.stack)
  {
    if !boxHit(node.bounds) then PopOrDone(stack)
    else if node.nPrimitives > 0 then
      if node.primitivesOffset.Some? then PopOrDone(stack) else Next(v, stack)
    else if node.secondChildOffset.Some? then
      if dirIsNeg(node.axis) then Next(node.secondChildOffset.value, Push(stack, v + 1))
      else Next(v + 1, Push(stack, node.secondChildOffset.value))
    else Next(v, stack)
  }

  /** The slots and stacks of a traversal so far: the walk starts at slot 0
      with an empty stack, and each visit, with its stack, is the move of the
      visit before it. */
  ghost predicate WalkLog(nodes: seq<LinearNode>, boxHit: Bounds3 -> bool, dirIsNeg: Axis -> bool,
                          visits: seq<nat>, stacks: seq<Stack>)
  {
    |stacks| == |visits| && InRange(visits, |nodes|) &&
    (forall k | 0 <= k < |stacks| :: StackValid(stacks[k])) &&
    (|visits| > 0 ==> visits[0] == 0 && stacks[0] == Stack([], 0)) &&
    forall k | 0 <= k < |visits| - 1 ::
      visits[k] < |nodes| && StackValid(stacks[k]) &&
      NodeMove(nodes[visits[k]], visits[k], stacks[k], boxHit, dirIsNeg) == Next(visits[k + 1], stacks[k + 1])
  }

  /** The move the walk makes after the logged visits: to slot 0 with an
      empty stack before the first, else the last visit's move. */
  ghost function Pending(nodes: seq<LinearNode>, boxHit: Bounds3 -> bool, dirIsNeg: Axis -> bool,
                         visits: seq<nat>, stacks: seq<Stack>): (m: Move)
    requires WalkLog(nodes, boxHit, dirIsNeg, visits, stacks)
    ensures m.Next? || m.Done?
    ensures m.Next? ==> StackValid(m.stack)
  {
    if |visits| == 0 then Next(0, Stack([], 0))
    else
      var last := |visits| - 1;
      NodeMove(nodes[visits[last]], visits[last], stacks[last], boxHit, dirIsNeg)
  }

  /** The log of a traversal: its walk, and `tested`, the primitives those
      visits tested, in order and all below n. */
  ghost predicate Walked(nodes: seq<LinearNode>, boxHit: Bounds3 -> bool, dirIsNeg: Axis -> bool,
                         visits: seq<nat>, stacks: seq<Stack>, tested: seq<nat>, n: nat)
  {
    WalkLog(nodes, boxHit, dirIsNeg, visits, stacks) &&
    tested == TestedBy(nodes, visits, boxHit) && InRange(tested, n)
  }

  /** Two walks over the same nodes agree on every slot and stack they both
      logged. */
  lemma {:induction false} WalkAgrees(nodes: seq<LinearNode>, boxHit: Bounds3 -> bool, dirIsNeg: Axis -> bool,
                                      v1: seq<nat>, s1: seq<Stack>, v2: seq<nat>, s2: seq<Stack>, k: nat)
    requires WalkLog(nodes, boxHit, dirIsNeg, v1, s1) && WalkLog(nodes, boxHit, dirIsNeg, v2, s2)
    requires k < |v1| && k < |v2|
    ensures v1[k] == v2[k] && s1[k] == s2[k]
    decreases k
  {
    if k > 0 {
      WalkAgrees(nodes, boxHit, dirIsNeg, v1, s1, v2, s2, k - 1);
      assert NodeMove(nodes[v1[k - 1]], v1[k - 1], s1[k - 1], boxHit, dirIsNeg) == Next(v1[k], s1[k]);
      assert NodeMove(nodes[v2[k - 1]], v2[k - 1], s2[k - 1], boxHit, dirIsNeg) == Next(v2[k], s2[k]);
    }
  }

  /** The walk is determined by the nodes and the two tests: a shorter log
      is a prefix of a longer one, which goes on by the shorter one's pending
      move. */
  lemma WalkDeterministic(nodes: seq<LinearNode>, boxHit: Bounds3 -> bool, dirIsNeg: Axis -> bool,
                          v1: seq<nat>, s1: seq<Stack>, v2: seq<nat>, s2: seq<Stack>)
    requires WalkLog(nodes, boxHit, dirIsNeg, v1, s1) && WalkLog(nodes, boxHit, dirIsNeg, v2, s2)
    requires |v1| <= |v2|
    ensures v1 == v2[..|v1|] && s1 == s2[..|v1|]
    ensures |v1| < |v2| ==> Pending(nodes, boxHit, dirIsNeg, v1, s1) == Next(v2[|v1|], s2[|v1|])
  {
    forall k | 0 <= k < |v1| ensures v1[k] == v2[k] && s1[k] == s2[k] {
      WalkAgrees(nodes, boxHit, dirIsNeg, v1, s1, v2, s2, k);
    }
    if 0 < |v1| < |v2| {
      var last := |v1| - 1;
      assert NodeMove(nodes[v2[last]], v2[last], s2[last], boxHit, dirIsNeg) == Next(v2[last + 1], s2[last + 1]);
    }
  }

  /** Visiting the pending slot `current` with its stack extends the log. */
  lemma WalkStep(nodes: seq<LinearNode>, boxHit: Bounds3 -> bool, dirIsNeg: Axis -> bool,
                 visits: seq<nat>, stacks: seq<Stack>, tested: seq<nat>, n: nat, current: nat, stack: Stack)
    requires Walked(nodes, boxHit, dirIsNeg, visits, stacks, tested, n)
    requires Pending(nodes, boxHit, dirIsNeg, visits, stacks) == Next(current, stack)
    requires current < |nodes| && InRange(LeafTests(nodes, current, boxHit), n)
    ensures StackValid(stack)
    ensures Walked(nodes, boxHit, dirIsNeg, visits + [current], stacks + [stack],
                   tested + LeafTests(nodes, current, boxHit), n)
    ensures Pending(nodes, boxHit, dirIsNeg, visits + [current], stacks + [stack]) ==
            NodeMove(nodes[current], current, stack, boxHit, dirIsNeg)
  {
    var v, s := visits + [current], stacks + [stack];
    assert v[..|v| - 1] == visits;
    InRangeAppend(tested, LeafTests(nodes, current, boxHit), n);
    assert InRange(v, |nodes|) by {
      forall k | 0 <= k < |v| ensures v[k] < |nodes| {
        if k < |visits| {
          assert v[k] == visits[k];
        }
      }
    }
    forall k | 0 <= k < |s| ensures StackValid(s[k]) {
      if k < |stacks| {
        assert s[k] == stacks[k];
      }
    }
    forall k | 0 <= k < |v| - 1
      ensures v[k] < |nodes| && StackValid(s[k]) &&
              NodeMove(nodes[v[k]], v[k], s[k], boxHit, dirIsNeg) == Next(v[k + 1], s[k + 1])
    {
      assert v[k] == visits[k] && s[k] == stacks[k];
      if k + 1 < |visits| {
        assert v[k + 1] == visits[k + 1] && s[k + 1] == stacks[k + 1];
      }
    }
  }

  /** A walk that loses a subtree: node 0 pushes slot 2 and goes to leaf 1,
      whose pop leaves slot 2 as a stale entry; node 2 then pushes slot 4
      behind it, and leaf 3's pop reads the stale slot 2 again, so slot 4 is
      never reached and the walk goes round 2, 3, 2, ... (PopPushPopStale). */
  lemma StaleEntryRevisits()
    ensures var interior := (second: nat) => LinearNode(New(), None, Some(second), 0, 0);
            var leaf := LinearNode(New(), Some(0), None, 1, 0);
            var nodes := [interior(2), leaf, interior(4), leaf, leaf];
            var boxHit := (b: Bounds3) => true;
            var dirIsNeg := (a: Axis) => false;
            var visits := [0, 1, 2, 3, 2];
            var stacks := [Stack([], 0), Stack([2], 1), Stack([2], 0), Stack([2, 4], 1), Stack([2, 4], 0)];
            WalkLog(nodes, boxHit, dirIsNeg, visits, stacks) &&
            Pending(nodes, boxHit, dirIsNeg, visits, stacks) == Next(3, Stack([2, 4, 4], 1))
  {
    var interior := (second: nat) => LinearNode(New(), None, Some(second), 0, 0);
    var leaf := LinearNode(New(), Some(0), None, 1, 0);
    var nodes := [interior(2), leaf, interior(4), leaf, leaf];
    var boxHit := (b: Bounds3) => true;
    var dirIsNeg := (a: Axis) => false;
    var visits := [0, 1, 2, 3, 2];
    var stacks := [Stack([], 0), Stack([2], 1), Stack([2], 0), Stack([2, 4], 1), Stack([2, 4], 0)];
    forall k | 0 <= k < |visits| - 1
      ensures visits[k] < |nodes| && StackValid(stacks[k]) &&
              NodeMove(nodes[visits[k]], visits[k], stacks[k], boxHit, dirIsNeg) == Next(visits[k + 1], stacks[k + 1])
    {
      if k == 0 {
        assert NodeMove(nodes[0], 0, stacks[0], boxHit, dirIsNeg) == Next(1, stacks[1]);
      } else if k == 1 {
        assert NodeMove(nodes[1], 1, stacks[1], boxHit, dirIsNeg) == Next(2, stacks[2]);
      } else if k == 2 {
        assert NodeMove(nodes[2], 2, stacks[2], boxHit, dirIsNeg) == Next(3, stacks[3]);
      } else {
        assert NodeMove(nodes[3], 3, stacks[3], boxHit, dirIsNeg) == Next(2, stacks[4]);
      }
    }
    assert NodeMove(nodes[2], 2, stacks[4], boxHit, dirIsNeg) == Next(3, Stack([2, 4, 4], 1));
  }

  /** A leaf prefix ending at its first hit, tested after a hit-free log,
      leaves a log whose only hit is its last entry. */
  lemma FirstHitAppend<P>(prims: seq<P>, hit: P -> bool, tested: seq<nat>, part: seq<nat>)
    requires InRange(tested, |prims|) && !AnyHit(prims, hit, tested)
    requires 0 < |part| && InRange(part, |prims|)
    requires hit(prims[part[|part| - 1]]) && !AnyHit(prims, hit, part[..|part| - 1])
    ensures InRange(tested + part, |prims|)
    ensures hit(prims[(tested + part)[|tested + part| - 1]])
    ensures !AnyHit(prims, hit, (tested + part)[..|tested + part| - 1])
  {
    AnyHitAppend(prims, hit, tested, part[..|part| - 1]);
    InRangeAppend(tested, part, |prims|);
    assert (tested + part)[..|tested + part| - 1] == tested + part[..|part| - 1];
  }

  /** Tested in order, the listed primitives reach their first hit at the
      count-th, with every index up to it in range. */
  predicate FirstHitAt<P>(prims: seq<P>, hit: P -> bool, idx: seq<nat>, count: nat)
  {
    0 < count <= |idx| && InRange(idx[..count], |prims|) && idx[count - 1] < |prims| &&
    hit(prims[idx[count - 1]]) && !AnyHit(prims, hit, idx[..count - 1])
  }

  /** The longest prefix of idx whose indices are all below n: the
      primitives a leaf tests before an index past the list panics. */
  function InRangePrefix(idx: seq<nat>, n: nat): (r: seq<nat>)
    ensures |r| <= |idx| && r == idx[..|r|] && InRange(r, n)
    ensures |r| < |idx| ==> idx[|r|] >= n
    decreases |idx|
  {
    if |idx| == 0 || idx[0] >= n then []
    else
      var rest := InRangePrefix(idx[1..], n);
      assert idx[1..][..|rest|] == idx[1..|rest| + 1];
      [idx[0]] + rest
  }

  /** A prefix of idx that is all in range lies within InRangePrefix. */
  lemma {:induction false} InRangePrefixCovers(idx: seq<nat>, n: nat, c: nat)
    requires c <= |idx| && InRange(idx[..c], n)
    ensures c <= |InRangePrefix(idx, n)|
    decreases c
  {
    if c > 0 {
      assert idx[..c][0] == idx[0];
      assert idx[1..][..c - 1] == idx[..c][1..];
      InRangePrefixCovers(idx[1..], n, c - 1);
    }
  }

  /** The in-range prefix of a run of indices from off is the run up to the
      end of a list of length len. */
  lemma {:induction false} RangeInRangePrefix(off: nat, len: nat, n: nat)
    ensures InRangePrefix(Range(off, len), n) ==
            Range(off, if off + len <= n then len else if off < n then n - off else 0)
    decreases len
  {
    if len > 0 && off < n {
      assert Range(off, len)[1..] == Range(off + 1, len - 1);
      RangeInRangePrefix(off + 1, len - 1, n);
    }
  }

  /** A hit at primitive off + j, with none of off to off + j - 1 hit, is
      the first hit of the leaf's run of n indices from off. */
  lemma FirstHitInRange<P>(prims: seq<P>, hit: P -> bool, off: nat, n: nat, j: nat)
    requires j < n && off + j < |prims| && hit(prims[off + j]) && !AnyHit(prims, hit, Range(off, j))
    ensures FirstHitAt(prims, hit, Range(off, n), j + 1)
  {
    assert Range(off, n)[..j + 1] == Range(off, j + 1) && Range(off, n)[..j] == Range(off, j);
    InRangeRange(off, j + 1, |prims|);
  }

  /** A first hit in range is a hit in the in-range prefix. */
  lemma FirstHitInPrefix<P>(prims: seq<P>, hit: P -> bool, idx: seq<nat>, count: nat)
    requires FirstHitAt(prims, hit, idx, count)
    ensures AnyHit(prims, hit, InRangePrefix(idx, |prims|))
  {
    InRangePrefixCovers(idx, |prims|, count);
    assert InRangePrefix(idx, |prims|)[count - 1] == idx[count - 1];
  }

  /** What the SAH arm does with more than four records in [start, end):
      it panics exactly when a bucket index is out of range; otherwise
      `chosen` is the first split of least cost, a leaf is made exactly when
      not (n > max_primitives_in_node or min_cost < n) and then nothing moves,
      and any split puts the records of scaled bucket <= chosen before those
      of scaled bucket > chosen. */
  ghost predicate SAHBucketOutcome(d: SplitDecision, chosen: nat, before: seq<Record>, after: seq<Record>,
                                   start: nat, end: nat, cb: Bounds3, dim: Axis, bounds: Bounds3,
                                   costOf: CostFn, maxPrims: nat)
  {
    start <= end <= |before| &&
    Permuted(before, after, start, end) &&
    (d == Panic(BucketIndexOutOfRange) <==> Bucketed(before[start..end], cb, dim).None?) &&
    (d.Panic? ==> d.reason.BucketIndexOutOfRange?) &&
    (Bucketed(before[start..end], cb, dim).Some? ==>
       var bs := Bucketed(before[start..end], cb, dim).value;
       var n := end - start;
       |bs| == N_BUCKETS && chosen < N_BUCKETS - 1 &&
       (forall j | 0 <= j < N_BUCKETS - 1 :: SplitCost(bs, chosen, bounds, costOf) <= SplitCost(bs, j, bounds, costOf)) &&
       (forall j | 0 <= j < chosen :: SplitCost(bs, chosen, bounds, costOf) < SplitCost(bs, j, bounds, costOf)) &&
       (d.MakeLeaf? <==> !(n > maxPrims || SplitCost(bs, chosen, bounds, costOf) < n as real))) &&
    (d.MakeLeaf? ==> after == before) &&
    (d.SplitAt? ==>
       start <= d.mid <= end &&
       (forall i | start <= i < d.mid :: BucketOfScaled(CentroidOffset(after[i], cb, dim)) <= chosen) &&
       (forall i | d.mid <= i < end :: BucketOfScaled(CentroidOffset(after[i], cb, dim)) > chosen) &&
       (d.mid == end ==> after == before))
  }

  /** Slot k of [start, end) is in sorted position by centroid[dim]: what
      select_nth_unstable_by leaves at the index it is given. */
  predicate SortedAt(s: seq<Record>, start: nat, k: nat, end: nat, dim: Axis)
    requires start <= k < end <= |s|
  {
    (forall i | start <= i < k :: Key(s[i], dim) <= Key(s[k], dim)) &&
    (forall i | k < i < end :: Key(s[k], dim) <= Key(s[i], dim))
  }

  /** EqualCounts (bvh.rs:179-184): nth-element at the absolute index
      (start + end) / 2 of the slice. Past the slice's end the library
      panics; otherwise the split is at that index and slot
      start + (start + end) / 2 of the array is in sorted position. */
  predicate EqualCountsOutcome(d: SplitDecision, after: seq<Record>, start: nat, end: nat, dim: Axis)
  {
    start <= end <= |after| &&
    d == (if (start + end) / 2 < end - start then SplitAt((start + end) / 2) else Panic(NthIndexOutOfRange)) &&
    (d.SplitAt? ==> SortedAt(after, start, start + d.mid, end, dim))
  }

  /** SAH with at most four records (bvh.rs:186-190): nth-element at the
      relative index mid - start for mid = (start + end) / 2, so slot mid is
      in sorted position; an empty range panics. */
  predicate SmallSAHOutcome(d: SplitDecision, after: seq<Record>, start: nat, end: nat, dim: Axis)
  {
    start <= end <= |after| &&
    d == (if start < end then SplitAt((start + end) / 2) else Panic(NthIndexOutOfRange)) &&
    (d.SplitAt? ==> SortedAt(after, start, d.mid, end, dim))
  }

  /** SAH (bvh.rs:185-288): nth-element on up to four records, buckets
      beyond that. */
  ghost predicate SAHOutcome(d: SplitDecision, chosen: nat, before: seq<Record>, after: seq<Record>,
                             start: nat, end: nat, cb: Bounds3, dim: Axis, bounds: Bounds3,
                             costOf: CostFn, maxPrims: nat)
  {
    start <= end <= |before| && Permuted(before, after, start, end) &&
    if end - start <= 4 then SmallSAHOutcome(d, after, start, end, dim)
    else SAHBucketOutcome(d, chosen, before, after, start, end, cb, dim, bounds, costOf, maxPrims)
  }

  /** p_mid of bvh.rs:148: the midpoint of the centroid box on the split axis. */
  function MidKey(cb: Bounds3, dim: Axis): Float
  {
    Div(Add(At(cb.pMin, dim), At(cb.pMax, dim)), Fin(2.0))
  }

  /** The left scan's test centroid[dim] < p_mid (bvh.rs:157). */
  predicate BelowMid(r: Record, cb: Bounds3, dim: Axis)
  {
    Lt(Fin(Key(r, dim)), MidKey(cb, dim))
  }

  /** All records of [start, end) lie on the same side of p_mid. */
  predicate OneSided(s: seq<Record>, start: nat, end: nat, cb: Bounds3, dim: Axis)
    requires start <= end <= |s|
  {
    (forall i | start <= i < end :: BelowMid(s[i], cb, dim)) ||
    (forall i | start <= i < end :: !BelowMid(s[i], cb, dim))
  }

  /** Middle (bvh.rs:147-178): when the records of [start, end) all lie on
      one side of p_mid the partition falls at an end of the range and
      EqualCounts decides; otherwise the split is strictly inside the range,
      with the records below p_mid first. */
  predicate MiddleOutcome(d: SplitDecision, before: seq<Record>, after: seq<Record>,
                          start: nat, end: nat, cb: Bounds3, dim: Axis)
  {
    start <= end <= |before| && |after| == |before| &&
    if OneSided(before, start, end, cb, dim) then EqualCountsOutcome(d, after, start, end, dim)
    else
      d.SplitAt? && start < d.mid < end &&
      (forall i | start <= i < d.mid :: BelowMid(after[i], cb, dim)) &&
      (forall i | d.mid <= i < end :: !BelowMid(after[i], cb, dim))
  }

  /** The decision of the split-method loop (bvh.rs:145-291) under split
      method sm, the records of [start, end) going from before to after:
      each method's outcome, with HLGBH falling through to SAH. */
  ghost predicate SplitChosen(sm: SplitMethod, d: SplitDecision, chosen: nat, before: seq<Record>, after: seq<Record>,
                              start: nat, end: nat, cb: Bounds3, dim: Axis, bounds: Bounds3,
                              costOf: CostFn, maxPrims: nat)
  {
    start <= end <= |before| && Permuted(before, after, start, end) &&
    match sm
    case Middle => MiddleOutcome(d, before, after, start, end, cb, dim)
    case EqualCounts => EqualCountsOutcome(d, after, start, end, dim)
    case _ => SAHOutcome(d, chosen, before, after, start, end, cb, dim, bounds, costOf, maxPrims)
  }

  /** What any split method's decision guarantees: an empty range panics, a
      split lies in the range, a split at the end leaves the records where
      they were, only SAH makes a leaf, and only SAH can index past the
      buckets. */
  lemma SplitChosenFacts(sm: SplitMethod, d: SplitDecision, chosen: nat, before: seq<Record>, after: seq<Record>,
                         start: nat, end: nat, cb: Bounds3, dim: Axis, bounds: Bounds3,
                         costOf: CostFn, maxPrims: nat)
    requires SplitChosen(sm, d, chosen, before, after, start, end, cb, dim, bounds, costOf, maxPrims)
    ensures start == end ==> d.Panic?
    ensures d.SplitAt? ==> start <= d.mid <= end
    ensures d.SplitAt? && d.mid == end ==> after == before
    ensures d.MakeLeaf? ==> after == before && 4 < end - start <= maxPrims && (sm.SAH? || sm.HLGBH?)
    ensures d == Panic(BucketIndexOutOfRange) ==> 4 < end - start && (sm.SAH? || sm.HLGBH?)
    ensures d.Panic? ==> d.reason.NthIndexOutOfRange? || d.reason.BucketIndexOutOfRange?
  {
  }

  /** Adding the same multiset to two multisets keeps them apart or equal. */
  lemma MultisetAddCancel<T>(x: multiset<T>, y: multiset<T>, m: multiset<T>)
    requires x + m == y + m
    ensures x == y
  {
    assert x == (x + m) - m;
    assert y == (y + m) - m;
  }

  /** The multiset of a sequence is that of a slice plus that of the rest. */
  lemma MultisetAroundSlice<T>(s: seq<T>, start: nat, end: nat)
    requires start <= end <= |s|
    ensures multiset(s) == multiset(s[start..end]) + (multiset(s[..start]) + multiset(s[end..]))
  {
    assert s == s[..start] + s[start..end] + s[end..];
  }

  /** A rearrangement of [start, end) keeps everything outside it. */
  lemma PermutedOutside(s: seq<Record>, t: seq<Record>, start: nat, end: nat)
    requires Permuted(s, t, start, end)
    ensures s[..start] == t[..start] && s[end..] == t[end..]
  {
    assert forall k | 0 <= k < start :: s[..start][k] == s[k] && t[..start][k] == t[k];
    assert forall k | 0 <= k < |s| - end :: s[end..][k] == s[end + k] && t[end..][k] == t[end + k];
  }

  /** A rearrangement of [start, end) keeps the multiset of the range. */
  lemma PermutedSlice(s: seq<Record>, t: seq<Record>, start: nat, end: nat)
    requires Permuted(s, t, start, end)
    ensures multiset(s[start..end]) == multiset(t[start..end])
  {
    PermutedOutside(s, t, start, end);
    MultisetAroundSlice(s, start, end);
    MultisetAroundSlice(t, start, end);
    MultisetAddCancel(multiset(s[start..end]), multiset(t[start..end]), multiset(s[..start]) + multiset(s[end..]));
  }

  /** A rearrangement of [start, end) draws each of its records from the range. */
  lemma PermutedFrom(s: seq<Record>, t: seq<Record>, start: nat, end: nat, i: nat)
    requires Permuted(s, t, start, end) && start <= i < end
    ensures exists j | start <= j < end :: s[j] == t[i]
  {
    var ss, ts := s[start..end], t[start..end];
    PermutedSlice(s, t, start, end);
    assert t[i] == ts[i - start];
    assert t[i] in multiset(ts);
    assert t[i] in ss;
    var k :| 0 <= k < |ss| && ss[k] == t[i];
    assert s[start + k] == t[i];
  }

  /** The partition lands at an end of the range exactly when the records it
      rearranged all lay on one side of p_mid. */
  lemma MiddleFallback(s: seq<Record>, t: seq<Record>, start: nat, end: nat, m: nat, cb: Bounds3, dim: Axis)
    requires Permuted(s, t, start, end) && start <= m <= end
    requires forall i | start <= i < m :: BelowMid(t[i], cb, dim)
    requires forall i | m <= i < end :: !BelowMid(t[i], cb, dim)
    requires m == end ==> t == s
    ensures m == start || m == end <==> OneSided(s, start, end, cb, dim)
  {
    if m == start && start < end {
      forall i | start <= i < end ensures !BelowMid(s[i], cb, dim) {
        PermutedFrom(t, s, start, end, i);
      }
    }
    if start < m < end {
      PermutedFrom(s, t, start, end, start);
      PermutedFrom(s, t, start, end, m);
      assert BelowMid(t[start], cb, dim) && !BelowMid(t[m], cb, dim);
    }
  }

  /** The Middle arm's two-pointer partition around p_mid (bvh.rs:147-175). */
  method MiddlePartition(info: array<Record>, start: nat, end: nat, cb: Bounds3, dim: Axis) returns (m: nat)
    requires start <= end <= info.Length
    requires cb == CentroidBounds(info[start..end])
    modifies info
    ensures start <= m <= end && Permuted(old(info[..]), info[..], start, end)
    ensures m == start || m == end <==> OneSided(old(info[..]), start, end, cb, dim)
    ensures m == end ==> info[..] == old(info[..])
    ensures forall i | start <= i < m :: BelowMid(info[i], cb, dim)
    ensures forall i | m <= i < end :: !BelowMid(info[i], cb, dim)
    ensures m != start && m != end ==> MiddleOutcome(SplitAt(m), old(info[..]), info[..], start, end, cb, dim)
  {
    if start < end {
      // With a finite midpoint the right scan's `>= p_mid` is the negation
      // of the left scan's `< p_mid`.
      CentroidBoundsFinite(info[start..end]);
      assert At(cb.pMin, dim).Fin? && At(cb.pMax, dim).Fin?;
      assert MidKey(cb, dim).Fin?;
    }
    m := Partition(info, start, end, (r: Record) => BelowMid(r, cb, dim));
    MiddleFallback(old(info[..]), info[..], start, end, m, cb, dim);
  }

  /** bvh.rs:121 and 136: one record, or centroids that coincide on the
      split axis, make a leaf before any split method runs. */
  predicate LeafAtOnce(s: seq<Record>, start: nat, end: nat)
    requires start <= end <= |s|
  {
    var cb := CentroidBounds(s[start..end]);
    end - start == 1 || FEq(At(cb.pMax, MaxExtent(cb)), At(cb.pMin, MaxExtent(cb)))
  }

  /** What one recursive_build call did, kept as a ghost record: its outcome
      `r`, the slot `first` its ordered primitives start from, the records
      `before` it was called on and its range [start, end), the split
      method's decision `d` (MakeLeaf for a leaf made at once) and SAH bucket
      split `chosen`, the records once the split method (`split`) and the
      whole call (`after`) are done, and the calls it made for its children,
      left first. */
  datatype BuildTrace = BuildTrace(r: BuildOutcome, first: nat, before: seq<Record>, start: nat, end: nat,
                                   d: SplitDecision, chosen: nat, split: seq<Record>, after: seq<Record>,
                                   left: Option<BuildTrace>, right: Option<BuildTrace>)

  /** The call's own step of recursive_build under split method sm
      (bvh.rs:111-302): a leaf at once, or the decision's outcome -- a panic
      fails the node, a leaf keeps the records, a split at the end of the
      range is unbounded recursion, and any other split calls the left
      child, fails as it fails, then calls the right child, fails as it
      fails, and otherwise joins the two children with init_interior. */
  ghost predicate BuildRule(sm: SplitMethod, maxPrims: nat, costOf: CostFn, t: BuildTrace)
    requires t.start <= t.end <= |t.before|
  {
    var before, start, end := t.before, t.start, t.end;
    var cb := CentroidBounds(before[start..end]);
    var bounds := BoundsUnion(before[start..end]);
    if LeafAtOnce(before, start, end) then
      t.d == MakeLeaf && t.left.None? && t.right.None? &&
      t.after == before && t.r == Built(Leaf(bounds, t.first, end - start))
    else
      SplitChosen(sm, t.d, t.chosen, before, t.split, start, end, cb, MaxExtent(cb), bounds, costOf, maxPrims) &&
      SplitRule(t, MaxExtent(cb), bounds)
  }

  /** What follows the split method's decision (bvh.rs:292-298). */
  ghost predicate SplitRule(t: BuildTrace, dim: Axis, bounds: Bounds3)
    requires t.start <= t.end
  {
    (!(t.d.SplitAt? && t.d.mid < t.end) ==> t.left.None? && t.right.None?) &&
    (t.d.Panic? ==> t.r == Failed(t.d.reason)) &&
    (t.d.MakeLeaf? ==> t.after == t.before && t.r == Built(Leaf(bounds, t.first, t.end - t.start))) &&
    (t.d == SplitAt(t.end) ==> t.r == Failed(UnboundedRecursion)) &&
    (t.d.SplitAt? && t.d.mid < t.end ==>
       Permuted(t.split, t.after, t.start, t.end) && t.left.Some? &&
       (t.left.value.r.Failed? ==> t.r == t.left.value.r && t.right.None?) &&
       (t.left.value.r.Built? ==>
          t.right.Some? &&
          (t.right.value.r.Failed? ==> t.r == t.right.value.r) &&
          (t.right.value.r.Built? ==> t.r == Built(InitInterior(dim, t.left.value.r.node, t.right.value.r.node)))) &&
       (t.r.Built? ==> t.r.node.Interior? && Size(t.r.node.left) == t.d.mid - t.start &&
                       Size(t.r.node.right) == t.end - t.d.mid))
  }

  /** How a call's children are called: the left child over [start, mid)
      of the records the split method left, from the call's own slot; the
      right child over [mid, end) of the records the left child left, from
      the slot after the left child's primitives; and the call ends with the
      records its last child left. */
  predicate ChildrenLinked(t: BuildTrace)
  {
    (t.left.Some? ==>
       t.d.SplitAt? && t.start <= t.d.mid &&
       t.left.value.first == t.first && t.left.value.before == t.split &&
       t.left.value.start == t.start && t.left.value.end == t.d.mid &&
       (t.right.None? ==> t.after == t.left.value.after)) &&
    (t.right.Some? ==>
       t.left.Some? && t.d.SplitAt? && t.start <= t.d.mid &&
       t.right.value.first == t.first + (t.d.mid - t.start) && t.right.value.before == t.left.value.after &&
       t.right.value.start == t.d.mid && t.right.value.end == t.end && t.after == t.right.value.after)
  }

  /** Every call of the trace follows the build rule, and its children are
      called as ChildrenLinked says. */
  ghost predicate Follows(sm: SplitMethod, maxPrims: nat, costOf: CostFn, t: BuildTrace)
    decreases t, 1
  {
    t.start <= t.end <= |t.before| && BuildRule(sm, maxPrims, costOf, t) && ChildrenLinked(t) &&
    ChildrenFollow(sm, maxPrims, costOf, t)
  }

  /** The calls the call made follow the build rule. */
  ghost predicate ChildrenFollow(sm: SplitMethod, maxPrims: nat, costOf: CostFn, t: BuildTrace)
    decreases t, 0
  {
    (t.left.Some? ==> Follows(sm, maxPrims, costOf, t.left.value)) &&
    (t.right.Some? ==> Follows(sm, maxPrims, costOf, t.right.value))
  }

  /** A call that made a leaf at once. */
  lemma FollowsLeafAtOnce(sm: SplitMethod, maxPrims: nat, costOf: CostFn, t: BuildTrace)
    requires t.start <= t.end <= |t.before| && LeafAtOnce(t.before, t.start, t.end)
    requires t.d == MakeLeaf && t.left.None? && t.right.None? && t.after == t.before
    requires t.r == Built(Leaf(BoundsUnion(t.before[t.start..t.end]), t.first, t.end - t.start))
    ensures Follows(sm, maxPrims, costOf, t)
  {
  }

  /** A call that made no child call: its split method's decision decided. */
  lemma FollowsNoChildren(sm: SplitMethod, maxPrims: nat, costOf: CostFn, t: BuildTrace, cb: Bounds3, bounds: Bounds3)
    requires t.start <= t.end <= |t.before| && !LeafAtOnce(t.before, t.start, t.end)
    requires cb == CentroidBounds(t.before[t.start..t.end]) && bounds == BoundsUnion(t.before[t.start..t.end])
    requires SplitChosen(sm, t.d, t.chosen, t.before, t.split, t.start, t.end, cb, MaxExtent(cb), bounds, costOf, maxPrims)
    requires t.left.None? && t.right.None?
    requires SplitRule(t, MaxExtent(cb), bounds)
    ensures Follows(sm, maxPrims, costOf, t)
  {
  }

  /** A call that split and called its children. */
  lemma FollowsChildren(sm: SplitMethod, maxPrims: nat, costOf: CostFn, t: BuildTrace, cb: Bounds3, bounds: Bounds3)
    requires t.start <= t.end <= |t.before| && !LeafAtOnce(t.before, t.start, t.end)
    requires cb == CentroidBounds(t.before[t.start..t.end]) && bounds == BoundsUnion(t.before[t.start..t.end])
    requires SplitChosen(sm, t.d, t.chosen, t.before, t.split, t.start, t.end, cb, MaxExtent(cb), bounds, costOf, maxPrims)
    requires SplitRule(t, MaxExtent(cb), bounds) && ChildrenLinked(t)
    requires t.left.Some? ==> Follows(sm, maxPrims, costOf, t.left.value)
    requires t.right.Some? ==> Follows(sm, maxPrims, costOf, t.right.value)
    ensures Follows(sm, maxPrims, costOf, t)
  {
    assert ChildrenFollow(sm, maxPrims, costOf, t);
  }

  /** The calls a build made: the root call and those of its children. */
  ghost function Calls(t: BuildTrace): set<BuildTrace>
    decreases t
  {
    {t} + (if t.left.Some? then Calls(t.left.value) else {}) + (if t.right.Some? then Calls(t.right.value) else {})
  }

  /** A call whose own decision fails it: a panic of its split method, or a
      split at the end of its range. */
  predicate DecisionFails(t: BuildTrace)
  {
    t.d.Panic? || t.d == SplitAt(t.end)
  }

  /** A call that made no child call fails exactly when its own decision
      fails it. */
  lemma NoChildrenFails(sm: SplitMethod, maxPrims: nat, costOf: CostFn, t: BuildTrace)
    requires Follows(sm, maxPrims, costOf, t) && t.left.None?
    ensures t.right.None? && (t.r.Failed? <==> DecisionFails(t))
  {
    var cb := CentroidBounds(t.before[t.start..t.end]);
    if !LeafAtOnce(t.before, t.start, t.end) {
      SplitChosenFacts(sm, t.d, t.chosen, t.before, t.split, t.start, t.end, cb, MaxExtent(cb),
                       BoundsUnion(t.before[t.start..t.end]), costOf, maxPrims);
    }
  }

  /** A build fails exactly when one of the calls it made decided a panic or
      a split at the end of its range: no call fails for any other reason,
      and no failure of a child is ever recovered from. */
  lemma {:induction false} BuildFailsExactly(sm: SplitMethod, maxPrims: nat, costOf: CostFn, t: BuildTrace)
    requires Follows(sm, maxPrims, costOf, t)
    ensures t.r.Failed? <==> exists u :: u in Calls(t) && DecisionFails(u)
    decreases t
  {
    if t.left.None? {
      NoChildrenFails(sm, maxPrims, costOf, t);
      assert Calls(t) == {t};
    } else {
      SplitOutcome(sm, maxPrims, costOf, t);
      BuildFailsExactly(sm, maxPrims, costOf, t.left.value);
      if t.right.Some? {
        BuildFailsExactly(sm, maxPrims, costOf, t.right.value);
      }
      SplitCallsFail(t);
    }
  }

  /** A call that made a child call did not fail by its own decision; it
      fails with its left child, and otherwise with its right child. */
  lemma SplitOutcome(sm: SplitMethod, maxPrims: nat, costOf: CostFn, t: BuildTrace)
    requires Follows(sm, maxPrims, costOf, t) && t.left.Some?
    ensures !DecisionFails(t) && Follows(sm, maxPrims, costOf, t.left.value)
    ensures t.left.value.r.Failed? ==> t.r.Failed? && t.right.None?
    ensures t.left.value.r.Built? ==>
              t.right.Some? && Follows(sm, maxPrims, costOf, t.right.value) && (t.r.Failed? <==> t.right.value.r.Failed?)
  {
  }

  /** The calls below a split fail by a decision exactly when the split
      fails, given that each child fails exactly when one of its own calls
      decides so. */
  lemma SplitCallsFail(t: BuildTrace)
    requires t.left.Some? && !DecisionFails(t)
    requires t.left.value.r.Failed? <==> exists u :: u in Calls(t.left.value) && DecisionFails(u)
    requires t.left.value.r.Failed? ==> t.r.Failed? && t.right.None?
    requires t.left.value.r.Built? ==> t.right.Some? && (t.r.Failed? <==> t.right.value.r.Failed?)
    requires t.right.Some? ==> (t.right.value.r.Failed? <==> exists u :: u in Calls(t.right.value) && DecisionFails(u))
    ensures t.r.Failed? <==> exists u :: u in Calls(t) && DecisionFails(u)
  {
    var l := t.left.value;
    if l.r.Failed? {
      assert Calls(t) == {t} + Calls(l);
    } else {
      assert Calls(t) == {t} + Calls(l) + Calls(t.right.value);
    }
  }

  /** Under SAH (and HLGBH, built as SAH) every range of one to four records
      builds: such a range is split at its middle into two smaller non-empty
      ranges, and never panics. */
  lemma {:induction false} SmallSAHBuilds(sm: SplitMethod, maxPrims: nat, costOf: CostFn, t: BuildTrace)
    requires Follows(sm, maxPrims, costOf, t)
    requires (sm.SAH? || sm.HLGBH?) && 0 < t.end - t.start <= 4
    ensures t.r.Built?
    decreases t
  {
    var start, end := t.start, t.end;
    if !LeafAtOnce(t.before, start, end) {
      assert end - start != 1;
      SmallSAHSplits(sm, maxPrims, costOf, t);
      SmallSAHBuilds(sm, maxPrims, costOf, t.left.value);
      SmallSAHBuilds(sm, maxPrims, costOf, t.right.value);
    }
  }

  /** Under SAH a range of two to four records that is no leaf at once is
      split at its middle, both children are called, and neither is empty. */
  lemma SmallSAHSplits(sm: SplitMethod, maxPrims: nat, costOf: CostFn, t: BuildTrace)
    requires Follows(sm, maxPrims, costOf, t) && !LeafAtOnce(t.before, t.start, t.end)
    requires (sm.SAH? || sm.HLGBH?) && 1 < t.end - t.start <= 4
    ensures t.d == SplitAt((t.start + t.end) / 2) && t.left.Some? && 0 < t.left.value.end - t.left.value.start <= 4
    ensures t.left.value.r.Built? ==> t.right.Some? && 0 < t.right.value.end - t.right.value.start <= 4
    ensures t.left.value.r.Built? && t.right.value.r.Built? ==> t.r.Built?
  {
  }

  /** A leaf comes from one record, coinciding centroids, or SAH declining
      to split more than four records within the node limit. */
  lemma BuildRuleLeaves(sm: SplitMethod, maxPrims: nat, costOf: CostFn, t: BuildTrace)
    requires t.start <= t.end <= |t.before|
    requires BuildRule(sm, maxPrims, costOf, t)
    ensures t.r.Built? && t.r.node.Leaf? ==>
              LeafAtOnce(t.before, t.start, t.end) || ((sm.SAH? || sm.HLGBH?) && 4 < t.end - t.start <= maxPrims)
  {
    if !LeafAtOnce(t.before, t.start, t.end) {
      var cb := CentroidBounds(t.before[t.start..t.end]);
      SplitChosenFacts(sm, t.d, t.chosen, t.before, t.split, t.start, t.end, cb, MaxExtent(cb),
                       BoundsUnion(t.before[t.start..t.end]), costOf, maxPrims);
    }
  }

  // ---------------------------------------------------------------------
  // The accelerator

  class BVHAccel<P> {
    var maxPrimitivesInNode: nat
    var splitMethod: SplitMethod
    var primitives: seq<P>
    var nodes: seq<LinearNode>
    /** Primitive::world_bound of each primitive. */
    const worldBound: P -> Bounds3

    /** BVHAccel::new(). */
    constructor (worldBound: P -> Bounds3)
      ensures this.worldBound == worldBound
      ensures maxPrimitivesInNode == 0 && splitMethod == SAH && primitives == [] && nodes == []
    {
      this.worldBound := worldBound;
      maxPrimitivesInNode, splitMethod, primitives, nodes := 0, SAH, [], [];
    }

    /** The root slot 0 holds the LinearBVHNode::new() placeholder. */
    predicate PlaceholderRoot()
      reads this
    {
      |nodes| > 0 && nodes[0] == DefaultLinearNode()
    }

    /** The placeholder in slot 0 has the empty box, no primitives and no
        second child: the walk tests nothing there, and stays on it when its
        box is hit and pops otherwise. */
    lemma PlaceholderFacts(boxHit: Bounds3 -> bool, dirIsNeg: Axis -> bool, stack: Stack)
      requires PlaceholderRoot() && StackValid(stack)
      ensures nodes[0].bounds == New() && LeafTests(nodes, 0, boxHit) == []
      ensures NodeMove(nodes[0], 0, stack, boxHit, dirIsNeg) ==
              if boxHit(New()) then Next(0, stack) else PopOrDone(stack)
    {
    }

    /** The leaf loops of bvh.rs:123-127, 138-142 and 277-281: each record of
        the range appends the primitive it names, in range order. */
    method AppendLeafPrimitives(info: array<Record>, start: nat, end: nat, ordered: seq<P>)
      returns (ordered': seq<P>)
      requires start <= end <= info.Length
      requires NumbersBelow(info[..], |primitives|)
      ensures NumbersBelow(info[start..end], |primitives|)
      ensures ordered' == ordered + Gather(primitives, info[start..end])
    {
      NumbersBelowSlice(info[..], start, end, |primitives|);
      ordered' := ordered;
      var i := start;
      while i < end
        invariant start <= i <= end
        invariant NumbersBelow(info[start..i], |primitives|)
        invariant ordered' == ordered + Gather(primitives, info[start..i])
      {
        assert info[start..i + 1][..i - start] == info[start..i];
        assert info[i] == info[..][i];
        NumbersBelowSlice(info[..], start, i + 1, |primitives|);
        ordered' := ordered' + [primitives[info[i].primitiveNumber]];
        i := i + 1;
      }
    }

    /** select_nth_unstable_by at the absolute index mid = (start + end) / 2
        on the slice [start, end) (bvh.rs:179-184). */
    method EqualCountsSplit(info: array<Record>, start: nat, end: nat, dim: Axis) returns (d: SplitDecision)
      requires start <= end <= info.Length
      modifies info
      ensures Permuted(old(info[..]), info[..], start, end)
      ensures EqualCountsOutcome(d, info[..], start, end, dim)
    {
      var mid := (start + end) / 2;
      if mid >= end - start {
        return Panic(NthIndexOutOfRange);
      }
      SelectNth(info, start, end, mid, dim);
      d := SplitAt(mid);
    }

    /** The SAH arm of bvh.rs:185-288 for up to four records: nth-element at
        the relative index mid - start, so slot mid is in sorted position. */
    method SAHSplit(info: array<Record>, start: nat, end: nat, cb: Bounds3, dim: Axis, bounds: Bounds3, costOf: CostFn)
      returns (d: SplitDecision, ghost chosen: nat)
      requires start <= end <= info.Length
      modifies info
      ensures SAHOutcome(d, chosen, old(info[..]), info[..], start, end, cb, dim, bounds, costOf, maxPrimitivesInNode)
    {
      chosen := 0;
      var n := end - start;
      if n <= 4 {
        var mid := (start + end) / 2;
        if mid - start >= n {
          return Panic(NthIndexOutOfRange), chosen;
        }
        SelectNth(info, start, end, mid - start, dim);
        return SplitAt(mid), chosen;
      }
      d, chosen := SAHBucketSplit(info, start, end, cb, dim, bounds, costOf);
    }

    /** The SAH arm of bvh.rs:192-285 for more than four records: bucket the
        centroids, cost the eleven splits, pick the first cheapest split
        (`chosen`), and either make a leaf or partition by bucket. */
    method SAHBucketSplit(info: array<Record>, start: nat, end: nat, cb: Bounds3, dim: Axis, bounds: Bounds3, costOf: CostFn)
      returns (d: SplitDecision, ghost chosen: nat)
      requires start + 4 < end <= info.Length
      modifies info
      ensures SAHBucketOutcome(d, chosen, old(info[..]), info[..], start, end, cb, dim, bounds, costOf, maxPrimitivesInNode)
    {
      chosen := 0;
      var n := end - start;
      var buckets := ComputeBuckets(info, start, end, cb, dim);
      if buckets.None? {
        return Panic(BucketIndexOutOfRange), chosen;
      }
      var bs := buckets.value;
      BucketedCounts(info[start..end], cb, dim);
      var cost := SplitCosts(bs, bounds, costOf);
      var minCost, b := MinCostBucket(cost);
      chosen := b;
      if n > maxPrimitivesInNode || minCost < n as real {
        var mid := Partition(info, start, end, (r: Record) => BucketOfScaled(CentroidOffset(r, cb, dim)) <= b);
        return SplitAt(mid), chosen;
      }
      return MakeLeaf, chosen;
    }

    /** The split-method loop of bvh.rs:145-291: Middle partitions around the
        centroid midpoint and falls back to EqualCounts when one side is
        empty; HLGBH is handled as SAH. `chosen` is the SAH bucket split. */
    method ChooseSplit(info: array<Record>, start: nat, end: nat, cb: Bounds3, dim: Axis, bounds: Bounds3, costOf: CostFn)
      returns (d: SplitDecision, ghost chosen: nat)
      requires start <= end <= info.Length
      requires cb == CentroidBounds(info[start..end])
      modifies info
      ensures SplitChosen(splitMethod, d, chosen, old(info[..]), info[..], start, end, cb, dim, bounds, costOf,
                          maxPrimitivesInNode)
    {
      chosen := 0;
      var sm := splitMethod;
      while true
        invariant Permuted(old(info[..]), info[..], start, end)
        invariant sm == splitMethod || (sm.EqualCounts? && splitMethod.Middle?) || (sm.SAH? && splitMethod.HLGBH?)
        invariant !sm.EqualCounts? ==> info[..] == old(info[..])
        invariant sm.EqualCounts? && splitMethod.Middle? ==> OneSided(old(info[..]), start, end, cb, dim)
        decreases SplitRank(sm)
      {
        match sm {
          case Middle =>
            var m := MiddlePartition(info, start, end, cb, dim);
            if m != start && m != end {
              return SplitAt(m), chosen;
            }
            sm := EqualCounts;
          case EqualCounts =>
            ghost var partitioned := info[..];
            d := EqualCountsSplit(info, start, end, dim);
            PermutedTrans(old(info[..]), partitioned, info[..], start, end);
            return;
          case SAH =>
            d, chosen := SAHSplit(info, start, end, cb, dim, bounds, costOf);
            return;
          case HLGBH =>
            sm := SAH;
        }
      }
    }

    /** The loop of bvh.rs:114-118: the union of the range's bounds. */
    method RangeBounds(info: array<Record>, start: nat, end: nat) returns (bounds: Bounds3)
      requires start <= end <= info.Length
      ensures bounds == BoundsUnion(info[start..end])
    {
      bounds := New();
      var i := start;
      while i < end
        invariant start <= i <= end
        invariant bounds == BoundsUnion(info[start..i])
      {
        assert info[start..i + 1][..i - start] == info[start..i];
        bounds := Union(bounds, info[i].bounds);
        i := i + 1;
      }
    }

    /** The loop of bvh.rs:130-133: the box of the range's centroids. */
    method RangeCentroidBounds(info: array<Record>, start: nat, end: nat) returns (cb: Bounds3)
      requires start <= end <= info.Length
      ensures cb == CentroidBounds(info[start..end])
    {
      cb := New();
      var i := start;
      while i < end
        invariant start <= i <= end
        invariant cb == CentroidBounds(info[start..i])
      {
        assert info[start..i + 1][..i - start] == info[start..i];
        cb := UnionPt(cb, info[i].centroid);
        i := i + 1;
      }
    }

    /** BVHAccel::recursive_build (bvh.rs:111-302): one node per call, a leaf
        for one record, for centroids that coincide on the split axis or when
        SAH declines to split; otherwise the chosen split and two children.
        `t` records the call and the calls it made. */
    method RecursiveBuild(info: array<Record>, start: nat, end: nat, totalNodes: nat, ordered: seq<P>, costOf: CostFn)
      returns (r: BuildOutcome, totalNodes': nat, ordered': seq<P>, ghost t: BuildTrace)
      requires start <= end <= info.Length
      requires NumbersBelow(info[..], |primitives|)
      modifies info
      decreases end - start, 4
      ensures Permuted(old(info[..]), info[..], start, end)
      ensures NumbersBelow(info[..], |primitives|)
      ensures start == end ==> r.Failed?
      ensures r.Built? ==> totalNodes' == totalNodes + NodeCount(r.node)
      ensures r.Built? ==> Size(r.node) == end - start && Covers(r.node, |ordered|)
      ensures r.Built? ==>
                NumbersBelow(info[start..end], |primitives|) &&
                ordered' == ordered + Gather(primitives, info[start..end])
      ensures r.Built? ==> r.node.bounds == BoundsUnion(info[start..end])
      ensures r.Built? && r.node.Interior? ==> r.node.axis == MaxExtent(CentroidBounds(old(info[start..end])))
      ensures t.r == r && t.first == |ordered| && t.before == old(info[..]) && t.start == start && t.end == end
      ensures t.after == info[..] && Follows(splitMethod, maxPrimitivesInNode, costOf, t)
    {
      var bounds := RangeBounds(info, start, end);
      var n := end - start;
      if n == 1 {
        ordered' := AppendLeafPrimitives(info, start, end, ordered);
        r := Built(Leaf(bounds, |ordered|, n));
        t := BuildTrace(r, |ordered|, info[..], start, end, MakeLeaf, 0, info[..], info[..], None, None);
        FollowsLeafAtOnce(splitMethod, maxPrimitivesInNode, costOf, t);
        return r, totalNodes + 1, ordered', t;
      }
      var cb := RangeCentroidBounds(info, start, end);
      var dim := MaxExtent(cb);
      if FEq(At(cb.pMax, dim), At(cb.pMin, dim)) {
        ordered' := AppendLeafPrimitives(info, start, end, ordered);
        r := Built(Leaf(bounds, |ordered|, n));
        t := BuildTrace(r, |ordered|, info[..], start, end, MakeLeaf, 0, info[..], info[..], None, None);
        FollowsLeafAtOnce(splitMethod, maxPrimitivesInNode, costOf, t);
        return r, totalNodes + 1, ordered', t;
      }
      r, totalNodes', ordered', t := SplitAndRecurse(info, start, end, cb, dim, bounds, totalNodes + 1, ordered, costOf);
    }

    /** The split-method loop of recursive_build and what follows it
        (bvh.rs:145-298), once neither leaf test at bvh.rs:121 and 136 has
        fired; `totalNodes` already counts this node. */
    method SplitAndRecurse(info: array<Record>, start: nat, end: nat, cb: Bounds3, dim: Axis, bounds: Bounds3,
                           totalNodes: nat, ordered: seq<P>, costOf: CostFn)
      returns (r: BuildOutcome, totalNodes': nat, ordered': seq<P>, ghost t: BuildTrace)
      requires start <= end <= info.Length
      requires NumbersBelow(info[..], |primitives|)
      requires cb == CentroidBounds(info[start..end]) && dim == MaxExtent(cb) && bounds == BoundsUnion(info[start..end])
      requires !LeafAtOnce(info[..], start, end)
      modifies info
      decreases end - start, 3
      ensures Permuted(old(info[..]), info[..], start, end)
      ensures NumbersBelow(info[..], |primitives|)
      ensures start == end ==> r.Failed?
      ensures r.Built? ==> totalNodes' + 1 == totalNodes + NodeCount(r.node)
      ensures r.Built? ==> Size(r.node) == end - start && Covers(r.node, |ordered|)
      ensures r.Built? ==>
                NumbersBelow(info[start..end], |primitives|) &&
                ordered' == ordered + Gather(primitives, info[start..end])
      ensures r.Built? ==> r.node.bounds == BoundsUnion(info[start..end])
      ensures r.Built? && r.node.Interior? ==> r.node.axis == dim
      ensures t.r == r && t.first == |ordered| && t.before == old(info[..]) && t.start == start && t.end == end
      ensures t.after == info[..] && Follows(splitMethod, maxPrimitivesInNode, costOf, t)
    {
      var decision;
      ghost var chosen;
      decision, chosen := ChooseSplit(info, start, end, cb, dim, bounds, costOf);
      SplitChosenFacts(splitMethod, decision, chosen, old(info[..]), info[..], start, end, cb, dim, bounds, costOf,
                       maxPrimitivesInNode);
      PermutedNumbers(old(info[..]), info[..], start, end, |primitives|);
      if decision.SplitAt? && decision.mid < end {
        r, totalNodes', ordered', t := SplitNode(info, start, decision.mid, end, cb, dim, bounds, totalNodes, ordered,
                                                  costOf, old(info[..]), chosen);
      } else {
        r, ordered', t := DecidedNode(info, start, end, cb, dim, bounds, ordered, costOf, old(info[..]), decision, chosen);
        totalNodes' := totalNodes;
      }
    }

    /** The split method's decision settles the node without children
        (bvh.rs:145-291): a panic, SAH's leaf, or a split at the end of the
        range, which the left child would repeat on an unchanged range.
        `before` holds the records the node was called on, and the array
        holds them as the split method left them. */
    method DecidedNode(info: array<Record>, start: nat, end: nat, cb: Bounds3, dim: Axis, bounds: Bounds3,
                       ordered: seq<P>, costOf: CostFn, ghost before: seq<Record>, decision: SplitDecision,
                       ghost chosen: nat)
      returns (r: BuildOutcome, ordered': seq<P>, ghost t: BuildTrace)
      requires start <= end <= info.Length == |before|
      requires NumbersBelow(info[..], |primitives|)
      requires cb == CentroidBounds(before[start..end]) && dim == MaxExtent(cb) && bounds == BoundsUnion(before[start..end])
      requires !LeafAtOnce(before, start, end) && !(decision.SplitAt? && decision.mid < end)
      requires SplitChosen(splitMethod, decision, chosen, before, info[..], start, end, cb, dim, bounds, costOf,
                           maxPrimitivesInNode)
      requires decision.SplitAt? ==> decision.mid == end
      requires decision.MakeLeaf? || decision.SplitAt? ==> info[..] == before
      ensures r.Built? ==> NodeCount(r.node) == 1 && r.node.Leaf?
      ensures r.Built? ==> Size(r.node) == end - start && Covers(r.node, |ordered|)
      ensures r.Built? ==>
                NumbersBelow(info[start..end], |primitives|) &&
                ordered' == ordered + Gather(primitives, info[start..end])
      ensures r.Built? ==> r.node.bounds == BoundsUnion(info[start..end])
      ensures t.r == r && t.first == |ordered| && t.before == before && t.start == start && t.end == end
      ensures t.after == info[..] && Follows(splitMethod, maxPrimitivesInNode, costOf, t)
    {
      ordered' := ordered;
      match decision {
        case Panic(reason) =>
          r := Failed(reason);
        case MakeLeaf =>
          ordered' := AppendLeafPrimitives(info, start, end, ordered);
          r := Built(Leaf(bounds, |ordered|, end - start));
        case SplitAt(_) =>
          r := Failed(UnboundedRecursion);
      }
      t := BuildTrace(r, |ordered|, before, start, end, decision, chosen, info[..], info[..], None, None);
      FollowsNoChildren(splitMethod, maxPrimitivesInNode, costOf, t, cb, bounds);
    }

    /** A split strictly inside the range (bvh.rs:292-298): the two children
        and init_interior. `before` holds the records the node was called on,
        and the array holds them as the split method left them. */
    method SplitNode(info: array<Record>, start: nat, mid: nat, end: nat, cb: Bounds3, dim: Axis, bounds: Bounds3,
                     totalNodes: nat, ordered: seq<P>, costOf: CostFn, ghost before: seq<Record>, ghost chosen: nat)
      returns (r: BuildOutcome, totalNodes': nat, ordered': seq<P>, ghost t: BuildTrace)
      requires start <= mid < end <= info.Length == |before|
      requires NumbersBelow(info[..], |primitives|)
      requires cb == CentroidBounds(before[start..end]) && dim == MaxExtent(cb) && bounds == BoundsUnion(before[start..end])
      requires !LeafAtOnce(before, start, end)
      requires SplitChosen(splitMethod, SplitAt(mid), chosen, before, info[..], start, end, cb, dim, bounds, costOf,
                           maxPrimitivesInNode)
      modifies info
      decreases end - start, 2
      ensures Permuted(before, info[..], start, end)
      ensures NumbersBelow(info[..], |primitives|)
      ensures r.Built? ==> totalNodes' + 1 == totalNodes + NodeCount(r.node)
      ensures r.Built? ==> Size(r.node) == end - start && Covers(r.node, |ordered|)
      ensures r.Built? ==>
                NumbersBelow(info[start..end], |primitives|) &&
                ordered' == ordered + Gather(primitives, info[start..end])
      ensures r.Built? ==> r.node.bounds == BoundsUnion(info[start..end])
      ensures r.Built? && r.node.Interior? ==> r.node.axis == dim
      ensures t.r == r && t.first == |ordered| && t.before == before && t.start == start && t.end == end
      ensures t.after == info[..] && Follows(splitMethod, maxPrimitivesInNode, costOf, t)
    {
      ghost var split := info[..];
      ghost var lt, rt;
      r, totalNodes', ordered', lt, rt := BuildInterior(info, start, mid, end, dim, totalNodes, ordered, costOf);
      PermutedTrans(before, split, info[..], start, end);
      t := BuildTrace(r, |ordered|, before, start, end, SplitAt(mid), chosen, split, info[..], Some(lt), rt);
      FollowsChildren(splitMethod, maxPrimitivesInNode, costOf, t, cb, bounds);
    }

    /** The two recursive calls of bvh.rs:293-297, left range first, and
        init_interior over their results; a failing child fails the node.
        `lt` and `rt` record the children's calls; the right child is not
        called once the left one fails. */
    method BuildInterior(info: array<Record>, start: nat, mid: nat, end: nat, dim: Axis,
                         totalNodes: nat, ordered: seq<P>, costOf: CostFn)
      returns (r: BuildOutcome, totalNodes': nat, ordered': seq<P>, ghost lt: BuildTrace, ghost rt: Option<BuildTrace>)
      requires start <= mid < end <= info.Length
      requires NumbersBelow(info[..], |primitives|)
      modifies info
      decreases end - start, 1
      ensures Permuted(old(info[..]), info[..], start, end)
      ensures NumbersBelow(info[..], |primitives|)
      ensures r.Built? ==> r.node.Interior? && r.node.axis == dim
      ensures r.Built? ==> Size(r.node.left) == mid - start && Size(r.node.right) == end - mid
      ensures r.Built? ==> totalNodes' + 1 == totalNodes + NodeCount(r.node)
      ensures r.Built? ==> Size(r.node) == end - start && Covers(r.node, |ordered|)
      ensures r.Built? ==>
                NumbersBelow(info[start..end], |primitives|) &&
                ordered' == ordered + Gather(primitives, info[start..end])
      ensures r.Built? ==> r.node.bounds == BoundsUnion(info[start..end])
      ensures lt.first == |ordered| && lt.before == old(info[..]) && lt.start == start && lt.end == mid
      ensures Follows(splitMethod, maxPrimitivesInNode, costOf, lt)
      ensures lt.r.Failed? ==> r == lt.r && rt.None? && info[..] == lt.after
      ensures lt.r.Built? ==>
                rt.Some? && rt.value.first == |ordered| + (mid - start) && rt.value.before == lt.after &&
                rt.value.start == mid && rt.value.end == end && info[..] == rt.value.after &&
                Follows(splitMethod, maxPrimitivesInNode, costOf, rt.value) &&
                (rt.value.r.Failed? ==> r == rt.value.r) &&
                (rt.value.r.Built? ==> r == Built(InitInterior(dim, lt.r.node, rt.value.r.node)))
    {
      var left, t1, o1;
      left, t1, o1, lt := RecursiveBuild(info, start, mid, totalNodes, ordered, costOf);
      PermutedWiden(old(info[..]), info[..], start, mid, start, end);
      if left.Failed? {
        return left, t1, o1, lt, None;
      }
      ghost var info1 := info[..];
      ghost var right;
      r, totalNodes', ordered', right := BuildRight(info, start, mid, end, dim, left.node, t1, ordered, o1, costOf);
      rt := Some(right);
      PermutedTrans(old(info[..]), info1, info[..], start, end);
    }

    /** The second recursive call of bvh.rs:296 once the left child
        `left` of [start, mid) is built, and init_interior. `rt` records the
        right child's call. */
    method BuildRight(info: array<Record>, start: nat, mid: nat, end: nat, dim: Axis, left: BuildNode,
                      totalNodes: nat, ordered: seq<P>, o1: seq<P>, costOf: CostFn)
      returns (r: BuildOutcome, totalNodes': nat, ordered': seq<P>, ghost rt: BuildTrace)
      requires start < mid < end <= info.Length
      requires NumbersBelow(info[..], |primitives|) && NumbersBelow(info[start..mid], |primitives|)
      requires Size(left) == mid - start && Covers(left, |ordered|) && left.bounds == BoundsUnion(info[start..mid])
      requires o1 == ordered + Gather(primitives, info[start..mid])
      modifies info
      decreases end - start, 0
      ensures Permuted(old(info[..]), info[..], mid, end)
      ensures NumbersBelow(info[..], |primitives|)
      ensures r.Built? ==> r.node.Interior? && r.node.axis == dim
      ensures r.Built? ==> r.node.left == left && Size(r.node.right) == end - mid
      ensures r.Built? ==> totalNodes' + 1 + NodeCount(left) == totalNodes + NodeCount(r.node)
      ensures r.Built? ==> Size(r.node) == end - start && Covers(r.node, |ordered|)
      ensures r.Built? ==>
                NumbersBelow(info[start..end], |primitives|) &&
                ordered' == ordered + Gather(primitives, info[start..end])
      ensures r.Built? ==> r.node.bounds == BoundsUnion(info[start..end])
      ensures rt.first == |o1| && rt.before == old(info[..]) && rt.start == mid && rt.end == end && rt.after == info[..]
      ensures Follows(splitMethod, maxPrimitivesInNode, costOf, rt)
      ensures rt.r.Failed? ==> r == rt.r
      ensures rt.r.Built? ==> r == Built(InitInterior(dim, left, rt.r.node))
    {
      ghost var info1 := info[..];
      assert info1[start..mid] == info[start..mid];
      assert |o1| == |ordered| + Size(left);
      var right, t2, o2;
      right, t2, o2, rt := RecursiveBuild(info, mid, end, totalNodes, o1, costOf);
      if right.Failed? {
        return right, t2, o2, rt;
      }
      ghost var info2 := info[..];
      InteriorFacts(info1, info2, start, mid, end, dim, left, right.node, |ordered|, |o1|);
      SliceUnchanged(info1, info2, start, mid, mid, end);
      NumbersBelowSlice(info2, mid, end, |primitives|);
      InteriorGather(primitives, ordered, o1, o2, info2, start, mid, end);
      assert info[start..end] == info2[start..end];
      return Built(InitInterior(dim, left, right.node)), t2, o2, rt;
    }

    /** BVHAccel::flatten_bvh_tree (bvh.rs:304-337): bumps the counter, flattens
        the children, pads the array with placeholders up to the counter and
        writes the node at slot counter - 1. Returns the post-increment offset
        and the final counter. */
    method FlattenBVHTree(node: BuildNode, offset: nat) returns (myOffset: nat, newOffset: nat)
      modifies this`nodes
      decreases node
      ensures myOffset == offset + 1
      ensures newOffset == offset + NodeCount(node)
      ensures |nodes| >= newOffset
      ensures FlattenedFrom(nodes, old(nodes), node, offset)
      ensures primitives == old(primitives) && maxPrimitivesInNode == old(maxPrimitivesInNode)
      ensures splitMethod == old(splitMethod)
    {
      newOffset := offset + 1;
      myOffset := newOffset;
      var linear: LinearNode;
      ghost var nodes1 := nodes;
      match node {
        case Leaf(b, first, n) =>
          linear := if n > 0 then LinearNode(b, Some(first), None, n, 0) else LinearNode(b, None, None, 0, 0);
        case Interior(b, axis, l, r) =>
          var _, o1 := FlattenBVHTree(l, newOffset);
          nodes1 := nodes;
          var second, o2 := FlattenBVHTree(r, o1);
          newOffset := o2;
          linear := LinearNode(b, None, Some(second), 0, axis);
      }
      ghost var nodes2 := nodes;
      var padded := Padded(nodes, newOffset);
      nodes := padded[newOffset - 1 := linear];
      if node.Leaf? {
        FlattenLeaf(old(nodes), padded, nodes, node, offset);
      } else {
        FlattenInterior(old(nodes), nodes1, nodes2, padded, nodes, node, offset);
      }
    }

    /** The loop of bvh.rs:329-331: pushes placeholders until the array has
        `len` slots; existing slots are kept. */
    static method Padded(ns: seq<LinearNode>, len: nat) returns (r: seq<LinearNode>)
      ensures |r| == if |ns| < len then len else |ns|
      ensures forall i | 0 <= i < |ns| :: r[i] == ns[i]
      ensures forall i | |ns| <= i < |r| :: r[i] == DefaultLinearNode()
    {
      r := ns;
      while |r| < len
        invariant |ns| <= |r| <= (if |ns| < len then len else |ns|)
        invariant forall i | 0 <= i < |ns| :: r[i] == ns[i]
        invariant forall i | |ns| <= i < |r| :: r[i] == DefaultLinearNode()
        decreases len - |r|
      {
        r := r + [DefaultLinearNode()];
      }
    }

    /** The primitive loop of bvh.rs:402-406: every primitive of the leaf is
        tested in order, and an index past the primitive list panics (ok is
        false). */
    method TestLeaf(off: nat, n: nat, primHit: P -> bool) returns (ok: bool, hitAny: bool)
      ensures ok <==> n == 0 || off + n <= |primitives|
      ensures ok ==> (hitAny <==> AnyHit(primitives, primHit, Range(off, n)))
    {
      hitAny := false;
      var j := 0;
      while j < n
        invariant j <= n && (j > 0 ==> off + j <= |primitives|)
        invariant hitAny <==> AnyHit(primitives, primHit, Range(off, j))
      {
        if off + j >= |primitives| {
          return false, hitAny;
        }
        assert Range(off, j + 1) == Range(off, j) + [off + j];
        AnyHitSnoc(primitives, primHit, Range(off, j), off + j);
        if primHit(primitives[off + j]) {
          hitAny := true;
        }
        j := j + 1;
      }
      ok := true;
    }

    /** The primitive loop of bvh.rs:451-455: the primitives of the leaf are
        tested in order until the first hit, `first`, relative to the leaf's
        offset; an index past the primitive list reached before any hit
        panics (ok is false). */
    method TestLeafFirst(off: nat, n: nat, primHit: P -> bool) returns (ok: bool, first: Option<nat>)
      ensures !ok ==>
                first.None? && n > 0 && off + n > |primitives| &&
                !AnyHit(primitives, primHit, Range(off, if off < |primitives| then |primitives| - off else 0))
      ensures ok && first.None? ==>
                (n == 0 || off + n <= |primitives|) && !AnyHit(primitives, primHit, Range(off, n))
      ensures first.Some? ==>
                ok && first.value < n && off + first.value < |primitives| &&
                primHit(primitives[off + first.value]) && !AnyHit(primitives, primHit, Range(off, first.value))
    {
      var j := 0;
      while j < n
        invariant j <= n && (j > 0 ==> off + j <= |primitives|)
        invariant !AnyHit(primitives, primHit, Range(off, j))
      {
        if off + j >= |primitives| {
          return false, None;
        }
        if primHit(primitives[off + j]) {
          return true, Some(j);
        }
        assert Range(off, j + 1) == Range(off, j) + [off + j];
        AnyHitSnoc(primitives, primHit, Range(off, j), off + j);
        j := j + 1;
      }
      ok, first := true, None;
    }

    /** The loop of bvh.rs:347-350: record i is BVHPrimitiveInfo::new(i, world bound of primitive i). */
    method BuildInfo(prims: seq<P>) returns (info: array<Record>)
      requires forall i | 0 <= i < |prims| :: FiniteBox(worldBound(prims[i]))
      ensures fresh(info) && info.Length == |prims|
      ensures forall k | 0 <= k < |prims| :: info[k] == NewInfo(k, worldBound(prims[k]))
      ensures forall k | 0 <= k < |prims| :: info[k].primitiveNumber == k
    {
      info := new Record[|prims|];
      var i := 0;
      while i < |prims|
        invariant i <= |prims|
        invariant forall k | 0 <= k < i :: info[k] == NewInfo(k, worldBound(prims[k]))
        modifies info
      {
        info[i] := NewInfo(i, worldBound(prims[i]));
        i := i + 1;
      }
    }

    /** The records create starts from (bvh.rs:347-350): record i is
        primitive i's info. */
    function InitialRecords(prims: seq<P>): seq<Record>
      requires forall i | 0 <= i < |prims| :: FiniteBox(worldBound(prims[i]))
    {
      seq(|prims|, k requires 0 <= k < |prims| => NewInfo(k, worldBound(prims[k])))
    }

    /** The build part of create (bvh.rs:347-357): one record per primitive,
        recursive_build over all of them, and the ordered primitives, which
        are a rearrangement of the primitives. `trace` records the calls of
        the build: it fails exactly when one of them decides a panic or a
        split at the end of its range, and under SAH it builds any one to
        four primitives. */
    method BuildTree(costOf: CostFn) returns (r: BuildOutcome, totalNodes: nat, ordered: seq<P>, ghost trace: BuildTrace)
      requires forall i | 0 <= i < |primitives| :: FiniteBox(worldBound(primitives[i]))
      ensures |primitives| == 0 ==> r.Failed?
      ensures r.Built? ==> totalNodes == NodeCount(r.node)
      ensures r.Built? ==> Size(r.node) == |primitives| && Covers(r.node, 0)
      ensures r.Built? ==> multiset(ordered) == multiset(primitives)
      ensures trace.r == r && trace.start == 0 && trace.end == |primitives|
      ensures trace.first == 0 && trace.before == InitialRecords(primitives)
      ensures Follows(splitMethod, maxPrimitivesInNode, costOf, trace)
      ensures r.Failed? <==> exists u :: u in Calls(trace) && DecisionFails(u)
      ensures (splitMethod.SAH? || splitMethod.HLGBH?) && 0 < |primitives| <= 4 ==> r.Built?
    {
      var info := BuildInfo(primitives);
      ghost var initial := info[..];
      assert initial == InitialRecords(primitives);
      InitialNumbers(initial, |primitives|);
      r, totalNodes, ordered, trace := BuildRoot(info, costOf);
      if r.Built? {
        BuiltOrdered(primitives, initial, info[..], ordered);
      }
      BuildFailsExactly(splitMethod, maxPrimitivesInNode, costOf, trace);
      if (splitMethod.SAH? || splitMethod.HLGBH?) && 0 < |primitives| <= 4 {
        SmallSAHBuilds(splitMethod, maxPrimitivesInNode, costOf, trace);
      }
    }

    /** The root call of bvh.rs:353: recursive_build over every record, from
        an empty counter and an empty output list. */
    method BuildRoot(info: array<Record>, costOf: CostFn)
      returns (r: BuildOutcome, totalNodes: nat, ordered: seq<P>, ghost trace: BuildTrace)
      requires info.Length == |primitives| && NumbersBelow(info[..], |primitives|)
      modifies info
      ensures Permuted(old(info[..]), info[..], 0, info.Length)
      ensures info.Length == 0 ==> r.Failed?
      ensures r.Built? ==> totalNodes == NodeCount(r.node) && Size(r.node) == info.Length && Covers(r.node, 0)
      ensures r.Built? ==>
                NumbersBelow(info[0..info.Length], |primitives|) && ordered == [] + Gather(primitives, info[0..info.Length])
      ensures trace.r == r && trace.first == 0 && trace.before == old(info[..]) && trace.start == 0 && trace.end == info.Length
      ensures Follows(splitMethod, maxPrimitivesInNode, costOf, trace)
    {
      r, totalNodes, ordered, trace := RecursiveBuild(info, 0, info.Length, 0, [], costOf);
    }

    /** BVHAccel::create (bvh.rs:342-367). The build's panics are returned as
        Failed; `trace` records the calls of the build as in BuildTree. */
    method Create(prims: seq<P>, maxPrims: nat, split: SplitMethod, costOf: CostFn)
      returns (r: BuildOutcome, ghost trace: BuildTrace)
      requires forall i | 0 <= i < |prims| :: FiniteBox(worldBound(prims[i]))
      modifies this`primitives, this`maxPrimitivesInNode, this`splitMethod, this`nodes
      ensures maxPrimitivesInNode == if maxPrims < 255 then maxPrims else 255
      ensures splitMethod == split
      ensures |prims| == 0 ==> r.Failed?
      ensures r.Failed? ==> primitives == prims && nodes == old(nodes)
      ensures r.Built? ==> multiset(primitives) == multiset(prims)
      ensures r.Built? ==> Size(r.node) == |prims| && Covers(r.node, 0)
      ensures r.Built? ==> FlattenedFrom(nodes, old(nodes), r.node, 0)
      ensures r.Built? ==> nodes[NodeCount(r.node) - 1] == LinearOf(r.node, 0)
      ensures r.Built? && r.node.Interior? && old(nodes) == [] ==> PlaceholderRoot()
      ensures trace.r == r && trace.start == 0 && trace.end == |prims|
      ensures trace.first == 0 && trace.before == InitialRecords(prims)
      ensures Follows(split, if maxPrims < 255 then maxPrims else 255, costOf, trace)
      ensures r.Failed? <==> exists u :: u in Calls(trace) && DecisionFails(u)
      ensures (split.SAH? || split.HLGBH?) && 0 < |prims| <= 4 ==> r.Built?
    {
      Configure(prims, maxPrims, split);
      var root, totalNodes, ordered;
      root, totalNodes, ordered, trace := BuildTree(costOf);
      if root.Failed? {
        return root, trace;
      }
      Install(root.node, totalNodes, ordered);
      r := root;
    }

    /** The start of create (bvh.rs:342-346): the primitives, the leaf
        size capped at 255 and the split method are stored. */
    method Configure(prims: seq<P>, maxPrims: nat, split: SplitMethod)
      modifies this`primitives, this`maxPrimitivesInNode, this`splitMethod
      ensures primitives == prims && splitMethod == split
      ensures maxPrimitivesInNode == if maxPrims < 255 then maxPrims else 255
    {
      primitives := prims;
      maxPrimitivesInNode := if maxPrims < 255 then maxPrims else 255;
      splitMethod := split;
    }

    /** The end of create (bvh.rs:354-365): the ordered primitives replace
        the list and the tree is flattened into `nodes` from offset 0. */
    method Install(root: BuildNode, totalNodes: nat, ordered: seq<P>)
      requires totalNodes == NodeCount(root)
      modifies this`primitives, this`nodes
      ensures primitives == ordered
      ensures FlattenedFrom(nodes, old(nodes), root, 0)
      ensures NodeCount(root) - 1 < |nodes| && nodes[NodeCount(root) - 1] == LinearOf(root, 0)
      ensures root.Interior? && old(nodes) == [] ==> PlaceholderRoot()
    {
      primitives := ordered;
      var _, offset := FlattenBVHTree(root, 0);
      assert totalNodes == offset;
      FlattenedTop(nodes, old(nodes), root, 0);
      if root.Interior? && old(nodes) == [] {
        FlattenedFirstSlot(nodes, root);
      }
    }

    /** Primitive::world_bound of the accelerator: the first primitive's bound
        only (bvh.rs:487-490); indexing an empty list panics (None). */
    function WorldBound(): (r: Option<Bounds3>)
      reads this
      ensures r.Some? <==> |primitives| > 0
      ensures r.Some? ==> r.value == worldBound(primitives[0])
    {
      if |primitives| == 0 then None else Some(worldBound(primitives[0]))
    }

    /** One pass of the loop of Primitive::intersect (bvh.rs:397-431) at
        node `current`: the slab test, then a leaf's primitives or the
        descent into an interior node's children. */
    method Visit(current: nat, stack: Stack, boxHit: Bounds3 -> bool, dirIsNeg: Axis -> bool, primHit: P -> bool)
      returns (m: Move, leafHit: bool)
      requires current < |nodes| && StackValid(stack)
      ensures m.BadPrimitive? <==> !InRange(LeafTests(nodes, current, boxHit), |primitives|)
      ensures !m.BadPrimitive? ==> m == NodeMove(nodes[current], current, stack, boxHit, dirIsNeg)
      ensures !m.BadPrimitive? ==> (leafHit <==> AnyHit(primitives, primHit, LeafTests(nodes, current, boxHit)))
    {
      var node := nodes[current];
      leafHit := false;
      if boxHit(node.bounds) {
        if node.nPrimitives > 0 {
          if node.primitivesOffset.Some? {
            var off := node.primitivesOffset.value;
            var ok;
            ok, leafHit := TestLeaf(off, node.nPrimitives, primHit);
            InRangeRange(off, node.nPrimitives, |primitives|);
            if !ok {
              return BadPrimitive, leafHit;
            }
            m := PopOrDone(stack);
          } else {
            m := Next(current, stack);
          }
        } else if node.secondChildOffset.Some? {
          var second := node.secondChildOffset.value;
          if dirIsNeg(node.axis) {
            m := Next(second, Push(stack, current + 1));
          } else {
            m := Next(current + 1, Push(stack, second));
          }
        } else {
          m := Next(current, stack);
        }
      } else {
        m := PopOrDone(stack);
      }
    }

    /** One pass of the loop of Primitive::intersect_p (bvh.rs:449-479): as
        Visit, but the first primitive hit ends the walk, and an index past
        the primitive list panics only when no earlier primitive was hit. */
    method VisitP(current: nat, stack: Stack, boxHit: Bounds3 -> bool, dirIsNeg: Axis -> bool, primHit: P -> bool)
      returns (m: Move)
      requires current < |nodes| && StackValid(stack)
      ensures m.BadPrimitive? ==>
                !InRange(LeafTests(nodes, current, boxHit), |primitives|) &&
                !AnyHit(primitives, primHit, InRangePrefix(LeafTests(nodes, current, boxHit), |primitives|))
      ensures m.Hit? ==> FirstHitAt(primitives, primHit, LeafTests(nodes, current, boxHit), m.count)
      ensures !m.Hit? && !m.BadPrimitive? ==>
                m == NodeMove(nodes[current], current, stack, boxHit, dirIsNeg) &&
                InRange(LeafTests(nodes, current, boxHit), |primitives|) &&
                !AnyHit(primitives, primHit, LeafTests(nodes, current, boxHit))
    {
      var node := nodes[current];
      if boxHit(node.bounds) {
        if node.nPrimitives > 0 {
          if node.primitivesOffset.Some? {
            m := VisitLeafP(current, stack, boxHit, primHit);
          } else {
            m := Next(current, stack);
          }
        } else if node.secondChildOffset.Some? {
          var second := node.secondChildOffset.value;
          if dirIsNeg(node.axis) {
            m := Next(second, Push(stack, current + 1));
          } else {
            m := Next(current + 1, Push(stack, second));
          }
        } else {
          m := Next(current, stack);
        }
      } else {
        m := PopOrDone(stack);
      }
    }

    /** The leaf arm of intersect_p (bvh.rs:449-462): the leaf's primitives
        are tested in order up to the first hit; a hit-free leaf pops or
        stops. */
    method VisitLeafP(current: nat, stack: Stack, boxHit: Bounds3 -> bool, primHit: P -> bool) returns (m: Move)
      requires current < |nodes| && StackValid(stack)
      requires boxHit(nodes[current].bounds) && nodes[current].nPrimitives > 0 && nodes[current].primitivesOffset.Some?
      ensures m.BadPrimitive? ==>
                !InRange(LeafTests(nodes, current, boxHit), |primitives|) &&
                !AnyHit(primitives, primHit, InRangePrefix(LeafTests(nodes, current, boxHit), |primitives|))
      ensures m.Hit? ==> FirstHitAt(primitives, primHit, LeafTests(nodes, current, boxHit), m.count)
      ensures !m.Hit? && !m.BadPrimitive? ==>
                m == PopOrDone(stack) &&
                InRange(LeafTests(nodes, current, boxHit), |primitives|) &&
                !AnyHit(primitives, primHit, LeafTests(nodes, current, boxHit))
    {
      var off, n := nodes[current].primitivesOffset.value, nodes[current].nPrimitives;
      assert LeafTests(nodes, current, boxHit) == Range(off, n);
      var ok, first := TestLeafFirst(off, n, primHit);
      InRangeRange(off, n, |primitives|);
      if !ok {
        RangeInRangePrefix(off, n, |primitives|);
        return BadPrimitive;
      }
      if first.Some? {
        FirstHitInRange(primitives, primHit, off, n, first.value);
        return Hit(first.value + 1);
      }
      m := PopOrDone(stack);
    }

    /** One pass of intersect_p's loop body at the pending slot `current`:
        a hit or a bad index ends the walk with the log unchanged; otherwise
        the visit is logged, nothing in it hit, and the walk goes on by its
        move. */
    method StepP(current: nat, stack: Stack, boxHit: Bounds3 -> bool, dirIsNeg: Axis -> bool, primHit: P -> bool,
                 ghost visits: seq<nat>, ghost stacks: seq<Stack>, ghost tested: seq<nat>)
      returns (m: Move, ghost visits': seq<nat>, ghost stacks': seq<Stack>, ghost tested': seq<nat>)
      requires current < |nodes|
      requires Walked(nodes, boxHit, dirIsNeg, visits, stacks, tested, |primitives|) && !AnyHit(primitives, primHit, tested)
      requires Pending(nodes, boxHit, dirIsNeg, visits, stacks) == Next(current, stack)
      ensures m.Hit? || m.BadPrimitive? ==> visits' == visits && stacks' == stacks && tested' == tested
      ensures m.BadPrimitive? ==>
                !InRange(LeafTests(nodes, current, boxHit), |primitives|) &&
                !AnyHit(primitives, primHit, InRangePrefix(LeafTests(nodes, current, boxHit), |primitives|))
      ensures m.Hit? ==> AnyHit(primitives, primHit, InRangePrefix(LeafTests(nodes, current, boxHit), |primitives|))
      ensures m.Next? || m.Done? ==>
                visits' == visits + [current] && stacks' == stacks + [stack] &&
                tested' == tested + LeafTests(nodes, current, boxHit) &&
                Walked(nodes, boxHit, dirIsNeg, visits', stacks', tested', |primitives|) &&
                !AnyHit(primitives, primHit, tested') &&
                Pending(nodes, boxHit, dirIsNeg, visits', stacks') == m
      ensures PlaceholderRoot() && current == 0 && stack == Stack([], 0) ==>
                tested' == tested && m == (if boxHit(New()) then Next(0, stack) else Done)
    {
      visits', stacks', tested' := visits, stacks, tested;
      assert StackValid(stack);
      if PlaceholderRoot() {
        PlaceholderFacts(boxHit, dirIsNeg, stack);
      }
      m := VisitP(current, stack, boxHit, dirIsNeg, primHit);
      if m.Hit? {
        FirstHitInPrefix(primitives, primHit, LeafTests(nodes, current, boxHit), m.count);
      }
      if m.BadPrimitive? || m.Hit? {
        return;
      }
      ghost var leaf := LeafTests(nodes, current, boxHit);
      WalkStep(nodes, boxHit, dirIsNeg, visits, stacks, tested, |primitives|, current, stack);
      AnyHitAppend(primitives, primHit, tested, leaf);
      visits', stacks', tested' := visits + [current], stacks + [stack], tested + leaf;
    }

    /** One pass of intersect's loop body at the pending slot `current`: a
        bad index ends the walk with the log unchanged; otherwise the visit
        is logged, hit' records whether anything tested so far was hit, and
        the walk goes on by its move. */
    method Step(current: nat, stack: Stack, boxHit: Bounds3 -> bool, dirIsNeg: Axis -> bool, primHit: P -> bool,
                hit: bool, ghost visits: seq<nat>, ghost stacks: seq<Stack>, ghost tested: seq<nat>)
      returns (m: Move, hit': bool, ghost visits': seq<nat>, ghost stacks': seq<Stack>, ghost tested': seq<nat>)
      requires current < |nodes|
      requires Walked(nodes, boxHit, dirIsNeg, visits, stacks, tested, |primitives|)
      requires hit <==> AnyHit(primitives, primHit, tested)
      requires Pending(nodes, boxHit, dirIsNeg, visits, stacks) == Next(current, stack)
      ensures !m.Hit?
      ensures m.BadPrimitive? ==>
                visits' == visits && stacks' == stacks && tested' == tested &&
                !InRange(LeafTests(nodes, current, boxHit), |primitives|)
      ensures !m.BadPrimitive? ==>
                visits' == visits + [current] && stacks' == stacks + [stack] &&
                tested' == tested + LeafTests(nodes, current, boxHit) &&
                Walked(nodes, boxHit, dirIsNeg, visits', stacks', tested', |primitives|) &&
                (hit' <==> AnyHit(primitives, primHit, tested')) &&
                Pending(nodes, boxHit, dirIsNeg, visits', stacks') == m
      ensures PlaceholderRoot() && current == 0 && stack == Stack([], 0) ==>
                tested' == tested && m == (if boxHit(New()) then Next(0, stack) else Done)
    {
      visits', stacks', tested', hit' := visits, stacks, tested, hit;
      assert StackValid(stack);
      if PlaceholderRoot() {
        PlaceholderFacts(boxHit, dirIsNeg, stack);
      }
      var leafHit;
      m, leafHit := Visit(current, stack, boxHit, dirIsNeg, primHit);
      if m.BadPrimitive? {
        return;
      }
      ghost var leaf := LeafTests(nodes, current, boxHit);
      WalkStep(nodes, boxHit, dirIsNeg, visits, stacks, tested, |primitives|, current, stack);
      AnyHitAppend(primitives, primHit, tested, leaf);
      visits', stacks', tested' := visits + [current], stacks + [stack], tested + leaf;
      hit' := hit || leafHit;
    }

    /** Primitive::intersect (bvh.rs:387-436). `boxHit` is the slab test of a
        node's bounds against the ray, `dirIsNeg` the sign of the inverse
        direction per axis, `primHit` a primitive's own intersect. The ghost
        results log the walk: the slots visited, the stack at each visit and
        the primitives tested. The walk ends when the pending move is Done,
        at a slot past the node list, at a leaf indexing past the primitive
        list, or when the fuel runs out. */
    method Intersect(boxHit: Bounds3 -> bool, dirIsNeg: Axis -> bool, primHit: P -> bool, fuel: nat)
      returns (r: Traversal, ghost tested: seq<nat>, ghost visits: seq<nat>, ghost stacks: seq<Stack>)
      ensures Walked(nodes, boxHit, dirIsNeg, visits, stacks, tested, |primitives|) && |visits| <= fuel
      ensures r.Finished? ==>
                Pending(nodes, boxHit, dirIsNeg, visits, stacks) == Done &&
                (r.hit <==> AnyHit(primitives, primHit, tested))
      ensures r.NodeIndexOutOfRange? ==>
                var m := Pending(nodes, boxHit, dirIsNeg, visits, stacks);
                m.Next? && m.node >= |nodes|
      ensures r.PrimitiveIndexOutOfRange? ==>
                var m := Pending(nodes, boxHit, dirIsNeg, visits, stacks);
                m.Next? && m.node < |nodes| && !InRange(LeafTests(nodes, m.node, boxHit), |primitives|)
      ensures r.OutOfFuel? ==> |visits| == fuel && Pending(nodes, boxHit, dirIsNeg, visits, stacks).Next?
      ensures |nodes| == 0 && fuel > 0 ==> r == NodeIndexOutOfRange
      ensures PlaceholderRoot() && !boxHit(New()) && fuel > 0 ==> r == Finished(false)
      ensures PlaceholderRoot() && boxHit(New()) ==> r == OutOfFuel
    {
      var hit := false;
      var stack := Stack([], 0);
      var current: nat := 0;
      var fuelLeft: nat := fuel;
      tested, visits, stacks := [], [], [];
      while fuelLeft > 0
        invariant fuelLeft <= fuel && |visits| == fuel - fuelLeft
        invariant Walked(nodes, boxHit, dirIsNeg, visits, stacks, tested, |primitives|)
        invariant hit <==> AnyHit(primitives, primHit, tested)
        invariant Pending(nodes, boxHit, dirIsNeg, visits, stacks) == Next(current, stack)
        invariant PlaceholderRoot() ==> current == 0 && stack == Stack([], 0) && tested == []
        invariant PlaceholderRoot() && !boxHit(New()) ==> fuelLeft == fuel
        decreases fuelLeft
      {
        fuelLeft := fuelLeft - 1;
        if current >= |nodes| {
          return NodeIndexOutOfRange, tested, visits, stacks;
        }
        var m;
        ghost var visits', stacks', tested';
        m, hit, visits', stacks', tested' := Step(current, stack, boxHit, dirIsNeg, primHit, hit, visits, stacks, tested);
        if m.BadPrimitive? {
          return PrimitiveIndexOutOfRange, tested, visits, stacks;
        }
        visits, stacks, tested := visits', stacks', tested';
        if m.Done? {
          return Finished(hit), tested, visits, stacks;
        }
        current, stack := m.node, m.stack;
      }
      r := OutOfFuel;
    }

    /** Primitive::intersect_p (bvh.rs:438-485): the walk of Intersect, but
        the first primitive hit ends it with true. The log holds the visits
        completed without a hit; a hit or a bad index happens at the pending
        slot. */
    method IntersectP(boxHit: Bounds3 -> bool, dirIsNeg: Axis -> bool, primHit: P -> bool, fuel: nat)
      returns (r: Traversal, ghost tested: seq<nat>, ghost visits: seq<nat>, ghost stacks: seq<Stack>)
      ensures Walked(nodes, boxHit, dirIsNeg, visits, stacks, tested, |primitives|) && |visits| <= fuel
      ensures !AnyHit(primitives, primHit, tested)
      ensures r == Finished(true) ==>
                var m := Pending(nodes, boxHit, dirIsNeg, visits, stacks);
                m.Next? && m.node < |nodes| &&
                AnyHit(primitives, primHit, InRangePrefix(LeafTests(nodes, m.node, boxHit), |primitives|))
      ensures r == Finished(false) ==> Pending(nodes, boxHit, dirIsNeg, visits, stacks) == Done
      ensures r.NodeIndexOutOfRange? ==>
                var m := Pending(nodes, boxHit, dirIsNeg, visits, stacks);
                m.Next? && m.node >= |nodes|
      ensures r.PrimitiveIndexOutOfRange? ==>
                var m := Pending(nodes, boxHit, dirIsNeg, visits, stacks);
                m.Next? && m.node < |nodes| && !InRange(LeafTests(nodes, m.node, boxHit), |primitives|) &&
                !AnyHit(primitives, primHit, InRangePrefix(LeafTests(nodes, m.node, boxHit), |primitives|))
      ensures r.OutOfFuel? ==> |visits| == fuel && Pending(nodes, boxHit, dirIsNeg, visits, stacks).Next?
      ensures |nodes| == 0 && fuel > 0 ==> r == NodeIndexOutOfRange
      ensures PlaceholderRoot() && !boxHit(New()) && fuel > 0 ==> r == Finished(false)
      ensures PlaceholderRoot() && boxHit(New()) ==> r == OutOfFuel
    {
      var stack := Stack([], 0);
      var current: nat := 0;
      var fuelLeft: nat := fuel;
      tested, visits, stacks := [], [], [];
      while fuelLeft > 0
        invariant fuelLeft <= fuel && |visits| == fuel - fuelLeft
        invariant Walked(nodes, boxHit, dirIsNeg, visits, stacks, tested, |primitives|)
        invariant !AnyHit(primitives, primHit, tested)
        invariant Pending(nodes, boxHit, dirIsNeg, visits, stacks) == Next(current, stack)
        invariant PlaceholderRoot() ==> current == 0 && stack == Stack([], 0) && tested == []
        invariant PlaceholderRoot() && !boxHit(New()) ==> fuelLeft == fuel
        decreases fuelLeft
      {
        fuelLeft := fuelLeft - 1;
        if current >= |nodes| {
          return NodeIndexOutOfRange, tested, visits, stacks;
        }
        var m;
        ghost var visits', stacks', tested';
        m, visits', stacks', tested' := StepP(current, stack, boxHit, dirIsNeg, primHit, visits, stacks, tested);
        if m.BadPrimitive? {
          return PrimitiveIndexOutOfRange, tested, visits, stacks;
        }
        if m.Hit? {
          return Finished(true), tested, visits, stacks;
        }
        visits, stacks, tested := visits', stacks', tested';
        if m.Done? {
          return Finished(false), tested, visits, stacks;
        }
        current, stack := m.node, m.stack;
      }
      r := OutOfFuel;
    }
  }

  // ---------------------------------------------------------------------
  // Proof steps

  /** After flattening, the node's own slot holds its linear node. */
  lemma FlattenedTop(after: seq<LinearNode>, before: seq<LinearNode>, node: BuildNode, offset: nat)
    requires FlattenedFrom(after, before, node, offset)
    ensures offset + NodeCount(node) - 1 < |after|
    ensures after[offset + NodeCount(node) - 1] == LinearOf(node, offset)
  {
    WrittenRange(node, offset, offset);
  }

  /** Flattening an interior root into an empty array leaves the placeholder
      in slot 0. */
  lemma FlattenedFirstSlot(after: seq<LinearNode>, node: BuildNode)
    requires node.Interior? && FlattenedFrom(after, [], node, 0)
    ensures |after| > 0 && after[0] == DefaultLinearNode()
  {
    InteriorFirstSlotUnwritten(node, 0);
  }

  /** Padding a leaf's array and writing the leaf completes its flattening. */
  lemma FlattenLeaf(n0: seq<LinearNode>, padded: seq<LinearNode>, n3: seq<LinearNode>, node: BuildNode, offset: nat)
    requires node.Leaf?
    requires |padded| == (if |n0| < offset + 1 then offset + 1 else |n0|)
    requires forall i | 0 <= i < |n0| :: padded[i] == n0[i]
    requires forall i | |n0| <= i < |padded| :: padded[i] == DefaultLinearNode()
    requires n3 == padded[offset := LinearOf(node, offset)]
    ensures FlattenedFrom(n3, n0, node, offset)
  {
  }

  /** Flattening both children, padding and writing the node at its slot
      completes the node's flattening. */
  lemma FlattenInterior(n0: seq<LinearNode>, n1: seq<LinearNode>, n2: seq<LinearNode>, padded: seq<LinearNode>,
                        n3: seq<LinearNode>, node: BuildNode, offset: nat)
    requires node.Interior?
    requires FlattenedFrom(n1, n0, node.left, offset + 1)
    requires FlattenedFrom(n2, n1, node.right, offset + 1 + NodeCount(node.left))
    requires var top := offset + NodeCount(node);
             |padded| == (if |n2| < top then top else |n2|) &&
             (forall i | 0 <= i < |n2| :: padded[i] == n2[i]) &&
             (forall i | |n2| <= i < |padded| :: padded[i] == DefaultLinearNode()) &&
             n3 == padded[top - 1 := LinearOf(node, offset)]
    ensures FlattenedFrom(n3, n0, node, offset)
  {
    var top := offset + NodeCount(node);
    assert |n2| >= top;
    forall i | 0 <= i < |n3| ensures n3[i] == SlotAfter(n0, node, offset, i) {
      if i != top - 1 {
        InteriorSlot(n0, n1, n2[i], node, offset, i);
      }
    }
  }

  /** A slot other than the node's own, after both children are flattened. */
  lemma InteriorSlot(n0: seq<LinearNode>, n1: seq<LinearNode>, x: LinearNode, node: BuildNode, offset: nat, i: nat)
    requires node.Interior? && i != offset + NodeCount(node) - 1
    requires |n1| == (if |n0| < offset + 1 + NodeCount(node.left) then offset + 1 + NodeCount(node.left) else |n0|)
    requires i < |n1| ==> n1[i] == SlotAfter(n0, node.left, offset + 1, i)
    requires x == SlotAfter(n1, node.right, offset + 1 + NodeCount(node.left), i)
    ensures x == SlotAfter(n0, node, offset, i)
  {
    var mid := offset + 1 + NodeCount(node.left);
    WrittenInterior(node, offset, i);
    if mid <= i {
      WrittenOutside(node.left, offset + 1, i);
      RightRangeSlot(n0, n1, x, node, offset, i);
    } else {
      WrittenOutside(node.right, mid, i);
      if i < offset + 1 {
        WrittenOutside(node.left, offset + 1, i);
      }
      LeftRangeSlot(n0, n1, x, node, offset, i);
    }
  }

  /** A slot before the right child's range: what the left child left there. */
  lemma LeftRangeSlot(n0: seq<LinearNode>, n1: seq<LinearNode>, x: LinearNode, node: BuildNode, offset: nat, i: nat)
    requires node.Interior? && i < offset + 1 + NodeCount(node.left) <= |n1|
    requires n1[i] == SlotAfter(n0, node.left, offset + 1, i)
    requires x == SlotAfter(n1, node.right, offset + 1 + NodeCount(node.left), i)
    requires WrittenAt(node.right, offset + 1 + NodeCount(node.left), i).None?
    requires offset + 1 <= i ==> WrittenAt(node, offset, i) == WrittenAt(node.left, offset + 1, i)
    requires i < offset + 1 ==> WrittenAt(node, offset, i).None? && WrittenAt(node.left, offset + 1, i).None?
    ensures x == SlotAfter(n0, node, offset, i)
  {
  }

  /** No write lands outside [offset, offset + NodeCount). */
  lemma WrittenOutside(node: BuildNode, offset: nat, i: nat)
    requires i < offset || offset + NodeCount(node) <= i
    ensures WrittenAt(node, offset, i).None?
  {
    WrittenRange(node, offset, i);
  }

  /** A slot at or past the right child's range: the right child's write,
      else what the left child left there, which is the old slot. */
  lemma RightRangeSlot(n0: seq<LinearNode>, n1: seq<LinearNode>, x: LinearNode, node: BuildNode, offset: nat, i: nat)
    requires node.Interior? && offset + 1 + NodeCount(node.left) <= i
    requires |n1| == (if |n0| < offset + 1 + NodeCount(node.left) then offset + 1 + NodeCount(node.left) else |n0|)
    requires i < |n1| ==> n1[i] == SlotAfter(n0, node.left, offset + 1, i)
    requires x == SlotAfter(n1, node.right, offset + 1 + NodeCount(node.left), i)
    requires WrittenAt(node, offset, i) == WrittenAt(node.right, offset + 1 + NodeCount(node.left), i)
    requires WrittenAt(node.left, offset + 1, i).None?
    ensures x == SlotAfter(n0, node, offset, i)
  {
  }

  /** Below its own slot, an interior node's writes are its children's: the
      right child's from the right range on, the left child's before it. */
  lemma WrittenInterior(node: BuildNode, offset: nat, i: nat)
    requires node.Interior? && i != offset + NodeCount(node) - 1
    ensures offset + 1 + NodeCount(node.left) <= i ==>
              WrittenAt(node, offset, i) == WrittenAt(node.right, offset + 1 + NodeCount(node.left), i)
    ensures offset + 1 <= i < offset + 1 + NodeCount(node.left) ==>
              WrittenAt(node, offset, i) == WrittenAt(node.left, offset + 1, i)
    ensures i < offset + 1 ==> WrittenAt(node, offset, i).None?
  {
  }

  /** What the two recursive calls of a build establish about their children
      gives the same facts about the interior node over both ranges. */
  lemma InteriorFacts(info1: seq<Record>, info2: seq<Record>, start: nat, mid: nat, end: nat,
                      dim: Axis, left: BuildNode, right: BuildNode, first: nat, rightFirst: nat)
    requires start <= mid <= end <= |info1| && Permuted(info1, info2, mid, end)
    requires Size(left) == mid - start && Covers(left, first) && left.bounds == BoundsUnion(info1[start..mid])
    requires rightFirst == first + Size(left)
    requires Size(right) == end - mid && Covers(right, rightFirst) && right.bounds == BoundsUnion(info2[mid..end])
    ensures var node := InitInterior(dim, left, right);
            Size(node) == end - start && Covers(node, first) &&
            NodeCount(node) == 1 + NodeCount(left) + NodeCount(right) &&
            node.bounds == BoundsUnion(info2[start..end])
  {
    SliceUnchanged(info1, info2, start, mid, mid, end);
    CombineBounds(info2, start, mid, end);
    InteriorShape(dim, left, right, first, rightFirst);
  }

  /** The primitives the two children append, in order, are those of the
      parent's range. */
  lemma InteriorGather<P>(prims: seq<P>, ordered: seq<P>, o1: seq<P>, o2: seq<P>, s: seq<Record>,
                          start: nat, mid: nat, end: nat)
    requires start <= mid <= end <= |s| && NumbersBelow(s, |prims|)
    requires NumbersBelow(s[start..mid], |prims|) && NumbersBelow(s[mid..end], |prims|)
    requires o1 == ordered + Gather(prims, s[start..mid]) && o2 == o1 + Gather(prims, s[mid..end])
    ensures NumbersBelow(s[start..end], |prims|) && o2 == ordered + Gather(prims, s[start..end])
  {
    CombineGather(prims, s, start, mid, end);
    AppendAssoc(ordered, Gather(prims, s[start..mid]), Gather(prims, s[mid..end]));
  }

  lemma SliceSplit<T>(s: seq<T>, start: nat, mid: nat, end: nat)
    requires start <= mid <= end <= |s|
    ensures s[start..end] == s[start..mid] + s[mid..end]
  {
  }

  lemma AppendAssoc<T>(a: seq<T>, b: seq<T>, c: seq<T>)
    ensures (a + b) + c == a + (b + c)
  {
  }

  /** Gathering around one more record adds that record's primitive once. */
  lemma GatherInsert<P>(prims: seq<P>, a: seq<Record>, x: Record, b: seq<Record>)
    requires NumbersBelow(a, |prims|) && NumbersBelow(b, |prims|) && x.primitiveNumber < |prims|
    ensures NumbersBelow(a + [x] + b, |prims|) && NumbersBelow(a + b, |prims|)
    ensures multiset(Gather(prims, a + [x] + b)) ==
            multiset(Gather(prims, a + b)) + multiset{prims[x.primitiveNumber]}
  {
    assert NumbersBelow([x], |prims|);
    GatherAppend(prims, a, [x]);
    GatherAppend(prims, a + [x], b);
    GatherAppend(prims, a, b);
    var ga, gb := Gather(prims, a), Gather(prims, b);
    var p := prims[x.primitiveNumber];
    assert Gather(prims, [x]) == [p];
    assert Gather(prims, a + [x] + b) == ga + [p] + gb;
  }

  /** Slots outside a rearranged range keep their records. */
  lemma SliceUnchanged(s1: seq<Record>, s2: seq<Record>, lo: nat, hi: nat, start: nat, end: nat)
    requires Permuted(s1, s2, start, end) && lo <= hi <= start
    ensures s2[lo..hi] == s1[lo..hi]
  {
    assert forall k | lo <= k < hi :: s2[k] == s1[k];
  }

  /** The bounds of the two children's ranges make up the parent's bounds. */
  lemma CombineBounds(s: seq<Record>, start: nat, mid: nat, end: nat)
    requires start <= mid <= end <= |s|
    ensures BoundsUnion(s[start..end]) == Union(BoundsUnion(s[start..mid]), BoundsUnion(s[mid..end]))
  {
    SliceSplit(s, start, mid, end);
    BoundsUnionAppend(s[start..mid], s[mid..end]);
  }

  /** The primitives of the two children's ranges make up the parent's. */
  lemma CombineGather<P>(prims: seq<P>, s: seq<Record>, start: nat, mid: nat, end: nat)
    requires start <= mid <= end <= |s|
    requires NumbersBelow(s, |prims|)
    ensures NumbersBelow(s[start..mid], |prims|) && NumbersBelow(s[mid..end], |prims|)
    ensures NumbersBelow(s[start..end], |prims|)
    ensures Gather(prims, s[start..end]) == Gather(prims, s[start..mid]) + Gather(prims, s[mid..end])
  {
    SliceSplit(s, start, mid, end);
    NumbersBelowSlice(s, start, mid, |prims|);
    NumbersBelowSlice(s, mid, end, |prims|);
    GatherAppend(prims, s[start..mid], s[mid..end]);
  }

  /** Taking the same element out of two equal multisets leaves equal ones. */
  lemma MultisetCancel<T>(u: seq<T>, x: T, a: seq<T>, b: seq<T>)
    requires multiset(u + [x]) == multiset(a + [x] + b)
    ensures multiset(u) == multiset(a + b)
  {
    assert multiset(u + [x]) == multiset(u) + multiset{x};
    assert multiset(a + [x] + b) == multiset(a + b) + multiset{x};
    assert multiset(u) == multiset(u + [x]) - multiset{x};
  }

  /** Gathering a rearranged range gives a rearrangement of the primitives. */
  lemma {:induction false} GatherPermuted<P>(prims: seq<P>, s: seq<Record>, t: seq<Record>)
    requires multiset(s) == multiset(t)
    requires NumbersBelow(s, |prims|) && NumbersBelow(t, |prims|)
    ensures multiset(Gather(prims, s)) == multiset(Gather(prims, t))
    decreases |s|
  {
    if |s| == 0 {
      assert |multiset(t)| == 0;
    } else {
      var x := s[|s| - 1];
      assert x in multiset(s);
      var j :| 0 <= j < |t| && t[j] == x;
      PermutedStep(prims, s, t, j);
      GatherPermuted(prims, s[..|s| - 1], t[..j] + t[j + 1..]);
    }
  }

  /** Taking the last record of s and its match t[j] out of both sides keeps
      them rearrangements of each other, and gathering the rest rearranged
      gives the whole gathered rearranged. */
  lemma PermutedStep<P>(prims: seq<P>, s: seq<Record>, t: seq<Record>, j: nat)
    requires multiset(s) == multiset(t)
    requires NumbersBelow(s, |prims|) && NumbersBelow(t, |prims|)
    requires 0 < |s| && j < |t| && t[j] == s[|s| - 1]
    ensures var s', u := s[..|s| - 1], t[..j] + t[j + 1..];
            NumbersBelow(s', |prims|) && NumbersBelow(u, |prims|) && multiset(s') == multiset(u) &&
            (multiset(Gather(prims, s')) == multiset(Gather(prims, u)) ==>
               multiset(Gather(prims, s)) == multiset(Gather(prims, t)))
  {
    var x := s[|s| - 1];
    var s' := s[..|s| - 1];
    var a, b := t[..j], t[j + 1..];
    assert s == s' + [x];
    assert t == a + [x] + b;
    MultisetCancel(s', x, a, b);
    NumbersBelowSlice(t, 0, j, |prims|);
    NumbersBelowSlice(t, j + 1, |t|, |prims|);
    assert t[0..j] == a && t[j + 1..|t|] == b;
    GatherInsert(prims, a, x, b);
    NumbersBelowSlice(s, 0, |s| - 1, |prims|);
    assert s[0..|s| - 1] == s';
    GatherLast(prims, s);
  }

  /** Gathering adds the last record's primitive last. */
  lemma GatherLast<P>(prims: seq<P>, s: seq<Record>)
    requires 0 < |s| && NumbersBelow(s, |prims|)
    ensures NumbersBelow(s[..|s| - 1], |prims|)
    ensures multiset(Gather(prims, s)) ==
            multiset(Gather(prims, s[..|s| - 1])) + multiset{prims[s[|s| - 1].primitiveNumber]}
  {
    NumbersBelowSlice(s, 0, |s| - 1, |prims|);
    assert s[0..|s| - 1] == s[..|s| - 1];
  }

  /** The records create builds name each primitive once, in order, so any
      rearrangement of them gathers a rearrangement of the primitives. */
  lemma InitialNumbers(initial: seq<Record>, n: nat)
    requires |initial| == n && forall k | 0 <= k < |initial| :: initial[k].primitiveNumber == k
    ensures NumbersBelow(initial, n)
  {
  }

  /** The primitives the whole build appends are a rearrangement of all of
      them. */
  lemma BuiltOrdered<P>(prims: seq<P>, initial: seq<Record>, final: seq<Record>, ordered: seq<P>)
    requires |initial| == |prims|
    requires forall k | 0 <= k < |initial| :: initial[k].primitiveNumber == k
    requires Permuted(initial, final, 0, |initial|)
    requires NumbersBelow(final[0..|prims|], |prims|) && ordered == [] + Gather(prims, final[0..|prims|])
    ensures multiset(ordered) == multiset(prims)
  {
    assert final[0..|prims|] == final;
    PermutedInitial(prims, initial, final);
  }

  lemma PermutedInitial<P>(prims: seq<P>, initial: seq<Record>, final: seq<Record>)
    requires |initial| == |prims|
    requires forall k | 0 <= k < |initial| :: initial[k].primitiveNumber == k
    requires Permuted(initial, final, 0, |initial|)
    ensures NumbersBelow(initial, |prims|) && NumbersBelow(final, |prims|)
    ensures multiset(Gather(prims, final)) == multiset(prims)
  {
    PermutedNumbers(initial, final, 0, |initial|, |prims|);
    assert Gather(prims, initial) == prims;
    GatherPermuted(prims, final, initial);
  }
}
