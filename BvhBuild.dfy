/** The array-level steps of the BVH build (src/impls/bvh.rs): primitive
    records, the bounds of a range of records, the two-pointer partition, the
    nth-element selection and the SAH buckets. The recursion that strings them
    together lives in module BVH. */
module BVHBuild {
  import opened ExtReal
  import opened Bounds
  import opened Wrappers

  // ---------------------------------------------------------------------
  // Primitive records

  /** BVHPrimitiveInfo: a primitive's index, its world bound and its centroid. */
  datatype PrimitiveInfo = PrimitiveInfo(primitiveNumber: nat, bounds: Bounds3, centroid: Vec3)

  /** BVHPrimitiveInfo::new: the centroid is p_min * 0.5 + p_max * 0.5. */
  function NewInfo(i: nat, b: Bounds3): (r: PrimitiveInfo)
    ensures r.primitiveNumber == i && r.bounds == b
    ensures FiniteBox(b) ==> FinitePoint(r.centroid)
    ensures FiniteBox(b) ==> forall k: Axis ::
              At(r.centroid, k).v == (At(b.pMin, k).v + At(b.pMax, k).v) / 2.0
    ensures FiniteBox(b) && NonInverted(b) ==> Inside(r.centroid, b)
  {
    PrimitiveInfo(i, b, Add3(Scale3(b.pMin, Fin(0.5)), Scale3(b.pMax, Fin(0.5))))
  }

  predicate WellFormed(r: PrimitiveInfo)
  {
    FiniteBox(r.bounds) && FinitePoint(r.centroid)
  }

  /** The records the build works on: finite bounds and a finite centroid. */
  type Record = r: PrimitiveInfo | WellFormed(r)
    witness PrimitiveInfo(0, Bounds3(Vec3(Fin(0.0), Fin(0.0), Fin(0.0)), Vec3(Fin(0.0), Fin(0.0), Fin(0.0))),
                          Vec3(Fin(0.0), Fin(0.0), Fin(0.0)))

  /** centroid[dim], the key every comparison of the build uses. */
  function Key(r: Record, dim: Axis): real
  {
    At(r.centroid, dim).v
  }

  /** Every record names a primitive below n. */
  predicate NumbersBelow(rs: seq<Record>, n: nat)
  {
    forall i | 0 <= i < |rs| :: rs[i].primitiveNumber < n
  }

  /** The primitives a range of records names, in record order. */
  function Gather<P>(prims: seq<P>, rs: seq<Record>): (r: seq<P>)
    requires NumbersBelow(rs, |prims|)
    ensures |r| == |rs|
    ensures forall i | 0 <= i < |rs| :: r[i] == prims[rs[i].primitiveNumber]
  {
    if |rs| == 0 then []
    else Gather(prims, rs[..|rs| - 1]) + [prims[rs[|rs| - 1].primitiveNumber]]
  }

  lemma GatherAppend<P>(prims: seq<P>, a: seq<Record>, b: seq<Record>)
    requires NumbersBelow(a, |prims|) && NumbersBelow(b, |prims|)
    ensures NumbersBelow(a + b, |prims|)
    ensures Gather(prims, a + b) == Gather(prims, a) + Gather(prims, b)
  {
    assert NumbersBelow(a + b, |prims|) by {
      forall i | 0 <= i < |a + b| ensures (a + b)[i].primitiveNumber < |prims| {
        if i >= |a| { assert (a + b)[i] == b[i - |a|]; }
      }
    }
  }

  // ---------------------------------------------------------------------
  // Bounds of a range

  /** The loop `bounds = union(bounds, info[i].bounds)` over a range, from new(). */
  function BoundsUnion(rs: seq<Record>): Bounds3
  {
    if |rs| == 0 then New() else Union(BoundsUnion(rs[..|rs| - 1]), rs[|rs| - 1].bounds)
  }

  /** The loop `centroid_bounds = union_pt(centroid_bounds, info[i].centroid)`. */
  function CentroidBounds(rs: seq<Record>): Bounds3
  {
    if |rs| == 0 then New() else UnionPt(CentroidBounds(rs[..|rs| - 1]), rs[|rs| - 1].centroid)
  }

  lemma {:induction false} BoundsUnionNoNaN(rs: seq<Record>)
    ensures BoxNoNaN(BoundsUnion(rs))
  {
    if |rs| > 0 {
      BoundsUnionNoNaN(rs[..|rs| - 1]);
    }
  }

  /** The bounds of a concatenation are the union of the two parts' bounds. */
  lemma {:induction false} BoundsUnionAppend(a: seq<Record>, b: seq<Record>)
    ensures BoundsUnion(a + b) == Union(BoundsUnion(a), BoundsUnion(b))
    decreases |b|
  {
    if |b| == 0 {
      assert a + b == a;
      BoundsUnionNoNaN(a);
      UnionNewLeft(BoundsUnion(a));
    } else {
      var b' := b[..|b| - 1];
      assert (a + b)[..|a + b| - 1] == a + b';
      assert (a + b)[|a + b| - 1] == b[|b| - 1];
      BoundsUnionAppend(a, b');
      UnionAssociative(BoundsUnion(a), BoundsUnion(b'), b[|b| - 1].bounds);
    }
  }

  /** A node's bounds contain every point of every primitive it covers. */
  lemma {:induction false} BoundsUnionContains(rs: seq<Record>, i: nat, p: Vec3)
    requires i < |rs| && Inside(p, rs[i].bounds)
    ensures Inside(p, BoundsUnion(rs))
  {
    if i < |rs| - 1 {
      BoundsUnionContains(rs[..|rs| - 1], i, p);
    }
  }

  /** A non-empty range has a finite centroid box that holds every centroid. */
  lemma {:induction false} CentroidBoundsFinite(rs: seq<Record>)
    requires |rs| > 0
    ensures FiniteBox(CentroidBounds(rs))
    ensures forall i | 0 <= i < |rs| :: Inside(rs[i].centroid, CentroidBounds(rs))
  {
    var init := rs[..|rs| - 1];
    if |init| > 0 {
      CentroidBoundsFinite(init);
      forall i | 0 <= i < |rs| ensures Inside(rs[i].centroid, CentroidBounds(rs)) {
        if i < |init| {
          assert init[i] == rs[i];
        }
      }
    }
  }

  // ---------------------------------------------------------------------
  // In-place permutations

  /** t is s with only the slots in [start, end) rearranged. */
  ghost predicate Permuted(s: seq<Record>, t: seq<Record>, start: nat, end: nat)
  {
    |s| == |t| && start <= end <= |s| && multiset(s) == multiset(t) &&
    forall k | 0 <= k < |s| && !(start <= k < end) :: s[k] == t[k]
  }

  lemma PermutedWiden(s: seq<Record>, t: seq<Record>, lo: nat, hi: nat, start: nat, end: nat)
    requires start <= lo <= hi <= end <= |s| && Permuted(s, t, lo, hi)
    ensures Permuted(s, t, start, end)
  {
  }

  lemma PermutedTrans(s: seq<Record>, t: seq<Record>, u: seq<Record>, start: nat, end: nat)
    requires Permuted(s, t, start, end) && Permuted(t, u, start, end)
    ensures Permuted(s, u, start, end)
  {
  }

  lemma PermutedNumbers(s: seq<Record>, t: seq<Record>, start: nat, end: nat, n: nat)
    requires Permuted(s, t, start, end) && NumbersBelow(s, n)
    ensures NumbersBelow(t, n)
  {
    forall i | 0 <= i < |t| ensures t[i].primitiveNumber < n {
      assert t[i] in multiset(t);
      assert t[i] in s;
    }
  }

  lemma NumbersBelowSlice(s: seq<Record>, lo: nat, hi: nat, n: nat)
    requires lo <= hi <= |s| && NumbersBelow(s, n)
    ensures NumbersBelow(s[lo..hi], n)
  {
    forall i | 0 <= i < hi - lo ensures s[lo..hi][i].primitiveNumber < n {
      assert s[lo..hi][i] == s[lo + i];
    }
  }

  /** primitive_info.swap(i, j). */
  method Swap(a: array<Record>, i: nat, j: nat)
    requires i < a.Length && j < a.Length
    modifies a
    ensures a[..] == old(a[..])[i := old(a[j])][j := old(a[i])]
    ensures multiset(a[..]) == multiset(old(a[..]))
  {
    a[i], a[j] := a[j], a[i];
  }

  /** Swapping the misplaced pair at left and right - 1 extends both sorted
      ends by one slot and touches nothing outside [start, end). */
  lemma PartitionSwap(s: seq<Record>, t: seq<Record>, start: nat, left: nat, right: nat, end: nat, good: Record -> bool)
    requires start <= left < right <= end <= |s|
    requires forall i | start <= i < left :: good(s[i])
    requires forall i | right <= i < end :: !good(s[i])
    requires !good(s[left]) && good(s[right - 1])
    requires t == s[left := s[right - 1]][right - 1 := s[left]] && multiset(t) == multiset(s)
    ensures forall i | start <= i <= left :: good(t[i])
    ensures forall i | right - 1 <= i < end :: !good(t[i])
    ensures Permuted(s, t, start, end)
  {
  }

  /** The left scan: the first slot of [left, right) that does not belong on
      the left, or right. */
  method SkipGood(a: array<Record>, left: nat, right: nat, good: Record -> bool) returns (l: nat)
    requires left <= right <= a.Length
    ensures left <= l <= right
    ensures forall i | left <= i < l :: good(a[i])
    ensures l < right ==> !good(a[l])
  {
    l := left;
    while l < right && good(a[l])
      invariant left <= l <= right
      invariant forall i | left <= i < l :: good(a[i])
    {
      l := l + 1;
    }
  }

  /** The right scan: the end of [left, right) once the trailing slots that
      do not belong on the left are skipped. */
  method SkipBad(a: array<Record>, left: nat, right: nat, good: Record -> bool) returns (r: nat)
    requires left <= right <= a.Length
    ensures left <= r <= right
    ensures forall i | r <= i < right :: !good(a[i])
    ensures left < r ==> good(a[r - 1])
  {
    r := right;
    while left < r && !good(a[r - 1])
      invariant left <= r <= right
      invariant forall i | r <= i < right :: !good(a[i])
    {
      r := r - 1;
    }
  }

  /** One round of the outer two-pointer loop: the left scan, the right scan
      and, when the pointers have not met, the swap of the misplaced pair. */
  method PartitionRound(a: array<Record>, start: nat, end: nat, left: nat, right: nat, good: Record -> bool)
    returns (l: nat, r: nat, ghost swapped: bool)
    requires start <= left < right <= end <= a.Length
    requires forall i | start <= i < left :: good(a[i])
    requires forall i | right <= i < end :: !good(a[i])
    modifies a
    ensures left <= l <= r <= right
    ensures forall i | start <= i < l :: good(a[i])
    ensures forall i | r <= i < end :: !good(a[i])
    ensures Permuted(old(a[..]), a[..], start, end)
    ensures !swapped ==> l == r && a[..] == old(a[..])
    ensures swapped ==> l < r && !good(a[r - 1])
    ensures good(old(a[left])) ==> r - l < right - left
    ensures !good(old(a[right - 1])) ==> r < right
    ensures r - l == right - left ==> l < r && good(a[l])
  {
    l := SkipGood(a, left, right, good);
    r := SkipBad(a, l, right, good);
    swapped := false;
    if l < r {
      ghost var before := a[..];
      Swap(a, l, r - 1);
      PartitionSwap(before, a[..], start, l, r, end, good);
      swapped := true;
    }
  }

  /** The two-pointer loops of bvh.rs:151-172 (Middle) and bvh.rs:247-275
      (SAH): `left` skips records that belong on the left, `right` skips
      records that belong on the right, and a misplaced pair is swapped. Both
      loops test a predicate and its negation; `good` is that predicate. */
  method Partition(a: array<Record>, start: nat, end: nat, good: Record -> bool) returns (mid: nat)
    requires start <= end <= a.Length
    modifies a
    ensures start <= mid <= end
    ensures Permuted(old(a[..]), a[..], start, end)
    ensures forall i | start <= i < mid :: good(a[i])
    ensures forall i | mid <= i < end :: !good(a[i])
    ensures mid == end ==> a[..] == old(a[..])
  {
    var left, right := start, end;
    ghost var swapped := false;
    while left < right
      invariant start <= left <= right <= end
      invariant Permuted(old(a[..]), a[..], start, end)
      invariant forall i | start <= i < left :: good(a[i])
      invariant forall i | right <= i < end :: !good(a[i])
      invariant !swapped ==> a[..] == old(a[..])
      invariant swapped ==> right < end || (left < right && !good(a[right - 1]))
      decreases right - left, if left < right && good(a[left]) then 0 else 1
    {
      ghost var before := a[..];
      ghost var now;
      left, right, now := PartitionRound(a, start, end, left, right, good);
      PermutedTrans(old(a[..]), before, a[..], start, end);
      swapped := swapped || now;
    }
    mid := left;
  }

  /** Slots [start, p) hold, in order, keys no larger than any key in [p, end). */
  ghost predicate SelectedPrefix(s: seq<Record>, start: nat, p: nat, end: nat, dim: Axis)
    requires start <= p <= end <= |s|
  {
    (forall i, j | start <= i < j < p :: Key(s[i], dim) <= Key(s[j], dim)) &&
    (forall i, j | start <= i < p <= j < end :: Key(s[i], dim) <= Key(s[j], dim))
  }

  /** Moving a least key of [p, end) to slot p extends the selected prefix. */
  lemma SelectSwap(s: seq<Record>, t: seq<Record>, start: nat, p: nat, m: nat, end: nat, dim: Axis)
    requires start <= p <= m < end <= |s|
    requires SelectedPrefix(s, start, p, end, dim)
    requires forall j | p <= j < end :: Key(s[m], dim) <= Key(s[j], dim)
    requires t == s[p := s[m]][m := s[p]] && multiset(t) == multiset(s)
    ensures SelectedPrefix(t, start, p + 1, end, dim)
    ensures Permuted(s, t, start, end)
  {
    forall i, j | start <= i < p + 1 <= j < end ensures Key(t[i], dim) <= Key(t[j], dim) {
      if i < p {
        assert t[i] == s[i];
        assert t[j] == s[j] || t[j] == s[p];
      } else {
        assert t[i] == s[m];
        assert t[j] == s[j] || t[j] == s[p];
      }
    }
    forall i, j | start <= i < j < p + 1 ensures Key(t[i], dim) <= Key(t[j], dim) {
      assert t[i] == s[i];
      if j == p {
        assert t[j] == s[m];
      } else {
        assert t[j] == s[j];
      }
    }
  }

  /** The first least key of a[p..end]. */
  method MinKeyIndex(a: array<Record>, p: nat, end: nat, dim: Axis) returns (m: nat)
    requires p < end <= a.Length
    ensures p <= m < end
    ensures forall j | p <= j < end :: Key(a[m], dim) <= Key(a[j], dim)
    ensures forall j | p <= j < m :: Key(a[m], dim) < Key(a[j], dim)
  {
    m := p;
    var q := p + 1;
    while q < end
      invariant p <= m < q <= end
      invariant forall j | p <= j < q :: Key(a[m], dim) <= Key(a[j], dim)
      invariant forall j | p <= j < m :: Key(a[m], dim) < Key(a[j], dim)
    {
      if Key(a[q], dim) < Key(a[m], dim) {
        m := q;
      }
      q := q + 1;
    }
  }

  /** One selection step: a least key of [p, end) is swapped into slot p. */
  method SelectRound(a: array<Record>, start: nat, p: nat, end: nat, dim: Axis)
    requires start <= p < end <= a.Length
    requires SelectedPrefix(a[..], start, p, end, dim)
    modifies a
    ensures Permuted(old(a[..]), a[..], start, end)
    ensures SelectedPrefix(a[..], start, p + 1, end, dim)
  {
    var m := MinKeyIndex(a, p, end, dim);
    ghost var before := a[..];
    Swap(a, p, m);
    SelectSwap(before, a[..], start, p, m, end, dim);
  }

  /** slice.select_nth_unstable_by(k, centroid[dim] order) on a[start..end],
      by its library contract: the range is permuted, nothing before slot
      start + k has a larger key and nothing after it a smaller one. The
      caller rules out k >= end - start, where the library panics. */
  method SelectNth(a: array<Record>, start: nat, end: nat, k: nat, dim: Axis)
    requires start + k < end <= a.Length
    modifies a
    ensures Permuted(old(a[..]), a[..], start, end)
    ensures forall i | start <= i < start + k :: Key(a[i], dim) <= Key(a[start + k], dim)
    ensures forall i | start + k < i < end :: Key(a[start + k], dim) <= Key(a[i], dim)
  {
    var p := start;
    while p <= start + k
      invariant start <= p <= start + k + 1
      invariant Permuted(old(a[..]), a[..], start, end)
      invariant SelectedPrefix(a[..], start, p, end, dim)
    {
      ghost var before := a[..];
      SelectRound(a, start, p, end, dim);
      PermutedTrans(old(a[..]), before, a[..], start, end);
      p := p + 1;
    }
    SelectedEnds(a[..], start, start + k, end, dim);
  }

  /** A selected prefix through slot q puts slot q in sorted position. */
  lemma SelectedEnds(s: seq<Record>, start: nat, q: nat, end: nat, dim: Axis)
    requires start <= q < end <= |s| && SelectedPrefix(s, start, q + 1, end, dim)
    ensures forall i | start <= i < q :: Key(s[i], dim) <= Key(s[q], dim)
    ensures forall i | q < i < end :: Key(s[q], dim) <= Key(s[i], dim)
  {
  }

  // ---------------------------------------------------------------------
  // SAH buckets

  const N_BUCKETS: nat := 12

  /** The bucket of bvh.rs:211-214, `n_buckets * (offset as usize)`: the cast
      binds tighter than the product, so the offset is truncated first. An
      index past the last bucket panics (None). */
  function BucketOfCast(off: Float): (r: Option<nat>)
    ensures r.Some? <==> ToUsize(off) <= 1
    ensures r.Some? ==> r.value == 0 || r.value == N_BUCKETS - 1
  {
    var b := N_BUCKETS * ToUsize(off);
    var b := if b == N_BUCKETS then b - 1 else b;
    if b < N_BUCKETS then Some(b) else None
  }

  /** The bucket of bvh.rs:251-255 and 262-265, `(n_buckets * offset) as usize`
      with 12 clamped to 11; never used as an index, so never a panic. */
  function BucketOfScaled(off: Float): (r: nat)
    ensures r != N_BUCKETS
    ensures r == N_BUCKETS - 1 <==> ToUsize(Mul(Fin(12.0), off)) in {N_BUCKETS - 1, N_BUCKETS}
  {
    var b := ToUsize(Mul(Fin(12.0), off));
    if b == N_BUCKETS then b - 1 else b
  }

  /** For an offset inside [0, 1] the scaled map is the floor of 12 * offset,
      clamped to 11, which always names a real bucket. */
  lemma ScaledBucketInRange(x: real)
    requires 0.0 <= x <= 1.0
    ensures BucketOfScaled(Fin(x)) < N_BUCKETS
    ensures 12.0 * x < 12.0 ==> BucketOfScaled(Fin(x)) == (12.0 * x).Floor
  {
    assert Mul(Fin(12.0), Fin(x)) == Fin(12.0 * x);
  }

  /** The two maps disagree: half-way along the axis the cast map sends a
      centroid to bucket 0 while the partition puts it in bucket 6. */
  lemma BucketMapsDisagree()
    ensures BucketOfCast(Fin(0.5)) == Some(0)
    ensures BucketOfScaled(Fin(0.5)) == 6
  {
    assert ToUsize(Fin(0.5)) == 0;
    assert Mul(Fin(12.0), Fin(0.5)) == Fin(6.0);
    assert (6.0).Floor == 6;
  }

  datatype BucketInfo = BucketInfo(count: nat, bounds: Bounds3)

  function EmptyBuckets(): seq<BucketInfo>
  {
    seq(N_BUCKETS, _ => BucketInfo(0, New()))
  }

  /** Offset of the record's centroid along dim inside the centroid box. */
  function CentroidOffset(r: Record, cb: Bounds3, dim: Axis): Float
  {
    At(Offset(cb, r.centroid), dim)
  }

  /** The bucket loop of bvh.rs:210-217 as a fold over the range; None when
      some record's bucket index is out of range. */
  function Bucketed(rs: seq<Record>, cb: Bounds3, dim: Axis): Option<seq<BucketInfo>>
  {
    if |rs| == 0 then Some(EmptyBuckets())
    else
      match Bucketed(rs[..|rs| - 1], cb, dim)
      case None => None
      case Some(bs) =>
        var r := rs[|rs| - 1];
        match BucketOfCast(CentroidOffset(r, cb, dim))
        case None => None
        case Some(b) =>
          if b < |bs| then Some(bs[b := BucketInfo(bs[b].count + 1, Union(bs[b].bounds, r.bounds))])
          else None
  }

  /** Sum of the counts of buckets [lo, hi). */
  function CountRange(bs: seq<BucketInfo>, lo: nat, hi: nat): nat
    requires lo <= hi <= |bs|
    decreases hi - lo
  {
    if lo == hi then 0 else CountRange(bs, lo, hi - 1) + bs[hi - 1].count
  }

  /** Union of the bounds of buckets [lo, hi), from new(). */
  function UnionRange(bs: seq<BucketInfo>, lo: nat, hi: nat): Bounds3
    requires lo <= hi <= |bs|
    decreases hi - lo
  {
    if lo == hi then New() else Union(UnionRange(bs, lo, hi - 1), bs[hi - 1].bounds)
  }

  lemma {:induction false} CountRangeSplit(bs: seq<BucketInfo>, lo: nat, m: nat, hi: nat)
    requires lo <= m <= hi <= |bs|
    ensures CountRange(bs, lo, m) + CountRange(bs, m, hi) == CountRange(bs, lo, hi)
    decreases hi - m
  {
    if m < hi {
      CountRangeSplit(bs, lo, m, hi - 1);
    }
  }

  lemma {:induction false} CountRangeZeroes(bs: seq<BucketInfo>, lo: nat, hi: nat)
    requires lo <= hi <= |bs|
    requires forall i | lo <= i < hi :: bs[i].count == 0
    ensures CountRange(bs, lo, hi) == 0
    decreases hi - lo
  {
    if lo < hi {
      CountRangeZeroes(bs, lo, hi - 1);
    }
  }

  lemma CountRangeUpdate(bs: seq<BucketInfo>, b: nat, x: BucketInfo, hi: nat)
    requires b < hi <= |bs|
    ensures CountRange(bs[b := x], 0, hi) + bs[b].count == CountRange(bs, 0, hi) + x.count
    decreases hi
  {
    if hi - 1 != b {
      CountRangeUpdate(bs, b, x, hi - 1);
    } else {
      CountRangeSame(bs, bs[b := x], b);
    }
  }

  lemma CountRangeSame(bs: seq<BucketInfo>, cs: seq<BucketInfo>, hi: nat)
    requires hi <= |bs| && hi <= |cs|
    requires forall i | 0 <= i < hi :: bs[i] == cs[i]
    ensures CountRange(bs, 0, hi) == CountRange(cs, 0, hi)
  {
  }

  /** Bucketing a range keeps twelve buckets, counts every record once, and,
      because of the cast at bvh.rs:211, fills only the first and the last. */
  lemma {:induction false} BucketedCounts(rs: seq<Record>, cb: Bounds3, dim: Axis)
    requires Bucketed(rs, cb, dim).Some?
    ensures |Bucketed(rs, cb, dim).value| == N_BUCKETS
    ensures CountRange(Bucketed(rs, cb, dim).value, 0, N_BUCKETS) == |rs|
    ensures forall i | 0 < i < N_BUCKETS - 1 :: Bucketed(rs, cb, dim).value[i].count == 0
  {
    var bs := Bucketed(rs, cb, dim).value;
    if |rs| == 0 {
      CountRangeZeroes(bs, 0, N_BUCKETS);
    } else {
      var prev := Bucketed(rs[..|rs| - 1], cb, dim).value;
      BucketedCounts(rs[..|rs| - 1], cb, dim);
      var b := BucketOfCast(CentroidOffset(rs[|rs| - 1], cb, dim)).value;
      CountRangeUpdate(prev, b, bs[b], N_BUCKETS);
    }
  }

  /** Once a record's bucket index is out of range, the whole fold fails. */
  lemma {:induction false} BucketedNoneSticks(rs: seq<Record>, k: nat, cb: Bounds3, dim: Axis)
    requires k <= |rs| && Bucketed(rs[..k], cb, dim).None?
    ensures Bucketed(rs, cb, dim).None?
    decreases |rs|
  {
    if k < |rs| {
      assert rs[..|rs| - 1][..k] == rs[..k];
      BucketedNoneSticks(rs[..|rs| - 1], k, cb, dim);
    } else {
      assert rs[..k] == rs;
    }
  }

  /** One more record of the range, folded into the buckets so far. */
  lemma BucketedSnoc(rs: seq<Record>, k: nat, cb: Bounds3, dim: Axis, bs: seq<BucketInfo>)
    requires k < |rs| && Bucketed(rs[..k], cb, dim) == Some(bs) && |bs| == N_BUCKETS
    ensures BucketOfCast(CentroidOffset(rs[k], cb, dim)).None? ==> Bucketed(rs[..k + 1], cb, dim).None?
    ensures BucketOfCast(CentroidOffset(rs[k], cb, dim)).Some? ==>
              var b := BucketOfCast(CentroidOffset(rs[k], cb, dim)).value;
              Bucketed(rs[..k + 1], cb, dim) == Some(bs[b := BucketInfo(bs[b].count + 1, Union(bs[b].bounds, rs[k].bounds))])
  {
    assert rs[..k + 1][..k] == rs[..k];
  }

  /** The bucket loop of bvh.rs:206-217 over a[start..end]. */
  method ComputeBuckets(a: array<Record>, start: nat, end: nat, cb: Bounds3, dim: Axis)
    returns (r: Option<seq<BucketInfo>>)
    requires start <= end <= a.Length
    ensures r == Bucketed(a[start..end], cb, dim)
  {
    var buckets := EmptyBuckets();
    ghost var rs := a[start..end];
    var i := start;
    while i < end
      invariant start <= i <= end
      invariant Bucketed(rs[..i - start], cb, dim) == Some(buckets)
      invariant |buckets| == N_BUCKETS
    {
      var x := a[i];
      assert x == rs[i - start];
      BucketedSnoc(rs, i - start, cb, dim, buckets);
      match BucketOfCast(CentroidOffset(x, cb, dim)) {
        case None =>
          BucketedNoneSticks(rs, i + 1 - start, cb, dim);
          return None;
        case Some(b) =>
          buckets := buckets[b := BucketInfo(buckets[b].count + 1, Union(buckets[b].bounds, x.bounds))];
      }
      i := i + 1;
    }
    assert rs[..i - start] == rs;
    r := Some(buckets);
  }

  /** The SAH cost of a split, given the counts and bounds of the two sides and
      the node's bounds. The float formula of bvh.rs:234 is left abstract. */
  type CostFn = (nat, Bounds3, nat, Bounds3, Bounds3) -> real

  /** The cost of splitting after bucket i: buckets [0, i] on one side. */
  function SplitCost(bs: seq<BucketInfo>, i: nat, bounds: Bounds3, costOf: CostFn): real
    requires i < N_BUCKETS - 1 && |bs| == N_BUCKETS
  {
    costOf(CountRange(bs, 0, i + 1), UnionRange(bs, 0, i + 1),
           CountRange(bs, i + 1, N_BUCKETS), UnionRange(bs, i + 1, N_BUCKETS), bounds)
  }

  /** Whatever split is chosen, its two sides together hold every record that
      was bucketed. */
  lemma SplitSidesCoverAll(bs: seq<BucketInfo>, i: nat)
    requires i < N_BUCKETS - 1 && |bs| == N_BUCKETS
    ensures CountRange(bs, 0, i + 1) + CountRange(bs, i + 1, N_BUCKETS) == CountRange(bs, 0, N_BUCKETS)
  {
    CountRangeSplit(bs, 0, i + 1, N_BUCKETS);
  }

  /** The cost loops of bvh.rs:219-235. */
  method SplitCosts(bs: seq<BucketInfo>, bounds: Bounds3, costOf: CostFn) returns (cost: seq<real>)
    requires |bs| == N_BUCKETS
    ensures |cost| == N_BUCKETS - 1
    ensures forall i | 0 <= i < N_BUCKETS - 1 :: cost[i] == SplitCost(bs, i, bounds, costOf)
  {
    cost := seq(N_BUCKETS - 1, _ => 0.0);
    var i := 0;
    while i < N_BUCKETS - 1
      invariant i <= N_BUCKETS - 1 && |cost| == N_BUCKETS - 1
      invariant forall k | 0 <= k < i :: cost[k] == SplitCost(bs, k, bounds, costOf)
    {
      var b0, b1 := New(), New();
      var count0, count1 := 0, 0;
      var j := 0;
      while j <= i
        invariant j <= i + 1
        invariant b0 == UnionRange(bs, 0, j) && count0 == CountRange(bs, 0, j)
      {
        b0 := Union(b0, bs[j].bounds);
        count0 := count0 + bs[j].count;
        j := j + 1;
      }
      j := i + 1;
      while j < N_BUCKETS
        invariant i + 1 <= j <= N_BUCKETS
        invariant b1 == UnionRange(bs, i + 1, j) && count1 == CountRange(bs, i + 1, j)
      {
        b1 := Union(b1, bs[j].bounds);
        count1 := count1 + bs[j].count;
        j := j + 1;
      }
      cost := cost[i := costOf(count0, b0, count1, b1, bounds)];
      i := i + 1;
    }
  }

  /** The search of bvh.rs:237-243: the first bucket of least cost. */
  method MinCostBucket(cost: seq<real>) returns (minCost: real, b: nat)
    requires |cost| > 0
    ensures b < |cost| && minCost == cost[b]
    ensures forall j | 0 <= j < |cost| :: minCost <= cost[j]
    ensures forall j | 0 <= j < b :: minCost < cost[j]
  {
    minCost, b := cost[0], 0;
    var i := 0;
    while i < |cost|
      invariant i <= |cost| && b < |cost| && minCost == cost[b] && b <= i
      invariant forall j | 0 <= j < i :: minCost <= cost[j]
      invariant forall j | 0 <= j < b :: minCost < cost[j]
    {
      if cost[i] < minCost {
        minCost, b := cost[i], i;
      }
      i := i + 1;
    }
  }
}
