/** Axis-aligned bounding boxes of the renderer's geometry layer
    (src/geometry/bounding_box.rs): the lattice operations the BVH is built
    from, over f32 coordinates modelled by ExtReal.Float. */
module Bounds {
  import opened ExtReal
  import opened Wrappers

  /** A coordinate axis: 0 is x, 1 is y, 2 is z. */
  type Axis = a: nat | a < 3

  /** Points and vectors share one representation, as `Point<T, 3>` and
      `Vector<T, 3>` do in the source. */
  datatype Vec3 = Vec3(x: Float, y: Float, z: Float)

  datatype Vec2 = Vec2(x: Float, y: Float)

  datatype Bounds3 = Bounds3(pMin: Vec3, pMax: Vec3)

  datatype Bounds2 = Bounds2(pMin: Vec2, pMax: Vec2)

  /** Component `axis` of a point (the source's `p[axis]`). */
  function At(p: Vec3, axis: Axis): Float
  {
    if axis == 0 then p.x else if axis == 1 then p.y else p.z
  }

  predicate NoNaN(p: Vec3)
  {
    !p.x.NaN? && !p.y.NaN? && !p.z.NaN?
  }

  predicate FinitePoint(p: Vec3)
  {
    p.x.Fin? && p.y.Fin? && p.z.Fin?
  }

  predicate BoxNoNaN(b: Bounds3)
  {
    NoNaN(b.pMin) && NoNaN(b.pMax)
  }

  predicate FiniteBox(b: Bounds3)
  {
    FinitePoint(b.pMin) && FinitePoint(b.pMax)
  }

  /** p_min <= p_max on every axis. */
  predicate NonInverted(b: Bounds3)
  {
    Le(b.pMin.x, b.pMax.x) && Le(b.pMin.y, b.pMax.y) && Le(b.pMin.z, b.pMax.z)
  }

  function Sub3(p: Vec3, q: Vec3): Vec3
  {
    Vec3(Sub(p.x, q.x), Sub(p.y, q.y), Sub(p.z, q.z))
  }

  function Add3(p: Vec3, q: Vec3): Vec3
  {
    Vec3(Add(p.x, q.x), Add(p.y, q.y), Add(p.z, q.z))
  }

  function Scale3(p: Vec3, s: Float): Vec3
  {
    Vec3(Mul(p.x, s), Mul(p.y, s), Mul(p.z, s))
  }

  function Min3(p: Vec3, q: Vec3): Vec3
  {
    Vec3(Min(p.x, q.x), Min(p.y, q.y), Min(p.z, q.z))
  }

  function Max3(p: Vec3, q: Vec3): Vec3
  {
    Vec3(Max(p.x, q.x), Max(p.y, q.y), Max(p.z, q.z))
  }

  // ---------------------------------------------------------------------
  // Bounds3

  /** Bounds3::new(): the empty box, p_min = +inf and p_max = -inf on every axis. */
  function New(): (r: Bounds3)
    ensures forall p :: !Inside(p, r)
  {
    Bounds3(Vec3(PosInf, PosInf, PosInf), Vec3(NegInf, NegInf, NegInf))
  }

  function Diagonal(b: Bounds3): Vec3
  {
    Sub3(b.pMax, b.pMin)
  }

  predicate Inside(p: Vec3, b: Bounds3)
  {
    Ge(p.x, b.pMin.x) && Le(p.x, b.pMax.x) &&
    Ge(p.y, b.pMin.y) && Le(p.y, b.pMax.y) &&
    Ge(p.z, b.pMin.z) && Le(p.z, b.pMax.z)
  }

  predicate InsideExclusive(p: Vec3, b: Bounds3)
  {
    Ge(p.x, b.pMin.x) && Lt(p.x, b.pMax.x) &&
    Ge(p.y, b.pMin.y) && Lt(p.y, b.pMax.y) &&
    Ge(p.z, b.pMin.z) && Lt(p.z, b.pMax.z)
  }

  predicate Overlaps(b1: Bounds3, b2: Bounds3)
  {
    (Ge(b1.pMax.x, b2.pMin.x) && Le(b1.pMin.x, b2.pMax.x)) &&
    (Ge(b1.pMax.y, b2.pMin.y) && Le(b1.pMin.y, b2.pMax.y)) &&
    (Ge(b1.pMax.z, b2.pMin.z) && Le(b1.pMin.z, b2.pMax.z))
  }

  /** Smallest box containing b and the point p. */
  function UnionPt(b: Bounds3, p: Vec3): (r: Bounds3)
    ensures NoNaN(p) ==> Inside(p, r)
    ensures forall q :: Inside(q, b) ==> Inside(q, r)
  {
    Bounds3(Min3(b.pMin, p), Max3(b.pMax, p))
  }

  /** Smallest box containing both operands. */
  function Union(b1: Bounds3, b2: Bounds3): (r: Bounds3)
    ensures forall p :: Inside(p, b1) || Inside(p, b2) ==> Inside(p, r)
  {
    Bounds3(Min3(b1.pMin, b2.pMin), Max3(b1.pMax, b2.pMax))
  }

  /** Common part of both operands (inverted when they are disjoint). */
  function Intersect(b1: Bounds3, b2: Bounds3): (r: Bounds3)
    ensures BoxNoNaN(b1) && BoxNoNaN(b2) ==>
              forall p :: Inside(p, r) ==> Inside(p, b1) && Inside(p, b2)
  {
    Bounds3(Max3(b1.pMin, b2.pMin), Min3(b1.pMax, b2.pMax))
  }

  /** Axis of the largest diagonal component; strict comparisons, so ties go
      to the later axis. */
  function MaxExtent(b: Bounds3): (r: Axis)
    ensures NoNaN(Diagonal(b)) ==>
              forall k: Axis :: Ge(At(Diagonal(b), r), At(Diagonal(b), k))
    ensures r == 0 ==> Gt(Diagonal(b).x, Diagonal(b).y) && Gt(Diagonal(b).x, Diagonal(b).z)
    ensures r == 1 ==> Gt(Diagonal(b).y, Diagonal(b).z)
  {
    var d := Diagonal(b);
    if Gt(d.x, d.y) && Gt(d.x, d.z) then 0
    else if Gt(d.y, d.z) then 1
    else 2
  }

  /** Corner number `c`: bit k of c selects p_max on axis k. */
  function Corner(b: Bounds3, c: bv8): (r: Vec3)
    ensures NonInverted(b) ==> Inside(r, b)
  {
    Vec3(if c & 1 != 0 then b.pMax.x else b.pMin.x,
         if c & 2 != 0 then b.pMax.y else b.pMin.y,
         if c & 4 != 0 then b.pMax.z else b.pMin.z)
  }

  /** Bounds3::get: index 0 is p_min, 1 is p_max, any other index panics (None). */
  function Get(b: Bounds3, i: nat): (r: Option<Vec3>)
    ensures r.Some? <==> i < 2
    ensures r.Some? ==> r.value == Corner(b, if i == 0 then 0 else 7)
  {
    if i == 0 then Some(b.pMin) else if i == 1 then Some(b.pMax) else None
  }

  /** Point at parameter t: p_min * (1 - t) + t * p_max on every axis. */
  function Lerp(b: Bounds3, t: Vec3): Vec3
  {
    Vec3(Add(Mul(b.pMin.x, Sub(Fin(1.0), t.x)), Mul(t.x, b.pMax.x)),
         Add(Mul(b.pMin.y, Sub(Fin(1.0), t.y)), Mul(t.y, b.pMax.y)),
         Add(Mul(b.pMin.z, Sub(Fin(1.0), t.z)), Mul(t.z, b.pMax.z)))
  }

  /** Offset of one coordinate as the source computes it: the difference
      o = p - p_min, replaced by `o / p_max - p_min` (division binds tighter than
      the subtraction) on an axis whose extent is positive. */
  function OffsetAxis(o: Float, lo: Float, hi: Float): Float
  {
    if Gt(hi, lo) then Sub(Div(o, hi), lo) else o
  }

  /** Bounds3::offset: starts from p - p_min and overwrites the components of
      the axes with p_max > p_min. */
  function Offset(b: Bounds3, p: Vec3): (r: Vec3)
    ensures forall k: Axis :: !Gt(At(b.pMax, k), At(b.pMin, k)) ==>
              At(r, k) == Sub(At(p, k), At(b.pMin, k))
    ensures forall k: Axis :: Gt(At(b.pMax, k), At(b.pMin, k)) ==>
              At(r, k) == Sub(Div(Sub(At(p, k), At(b.pMin, k)), At(b.pMax, k)), At(b.pMin, k))
  {
    var o := Sub3(p, b.pMin);
    var o := o.(x := OffsetAxis(o.x, b.pMin.x, b.pMax.x));
    var o := o.(y := OffsetAxis(o.y, b.pMin.y, b.pMax.y));
    o.(z := OffsetAxis(o.z, b.pMin.z, b.pMax.z))
  }

  /** Grows every side of the box by delta. */
  function Expand(b: Bounds3, delta: Float): (r: Bounds3)
    ensures delta.Fin? && delta.v >= 0.0 ==> forall p :: Inside(p, b) ==> Inside(p, r)
  {
    Bounds3(Add3(b.pMin, Vec3(Neg(delta), Neg(delta), Neg(delta))),
            Add3(b.pMax, Vec3(delta, delta, delta)))
  }

  // ---------------------------------------------------------------------
  // Bounds2

  function Diagonal2(b: Bounds2): Vec2
  {
    Vec2(Sub(b.pMax.x, b.pMin.x), Sub(b.pMax.y, b.pMin.y))
  }

  /** Bounds2::area with abs: never negative. */
  function Area2(b: Bounds2): (r: Float)
    ensures !r.NaN? ==> Ge(r, Fin(0.0))
  {
    var d := Diagonal2(b);
    Abs(Mul(d.x, d.y))
  }

  /** Bounds2::max_extent: 0 iff the x extent is strictly larger. */
  function MaxExtent2(b: Bounds2): (r: nat)
    ensures r < 2
    ensures r == 0 <==> Gt(Diagonal2(b).x, Diagonal2(b).y)
    ensures !Diagonal2(b).x.NaN? && !Diagonal2(b).y.NaN? ==>
              Ge(if r == 0 then Diagonal2(b).x else Diagonal2(b).y,
                 if r == 0 then Diagonal2(b).y else Diagonal2(b).x)
  {
    var d := Diagonal2(b);
    if Gt(d.x, d.y) then 0 else 1
  }

  // ---------------------------------------------------------------------
  // Laws

  /** The empty sentinel is the identity of union (for boxes without NaN). */
  lemma UnionNewLeft(b: Bounds3)
    requires BoxNoNaN(b)
    ensures Union(New(), b) == b
    ensures Union(b, New()) == b
  {
    SentinelIdentity(b.pMin.x); SentinelIdentity(b.pMin.y); SentinelIdentity(b.pMin.z);
    SentinelIdentity(b.pMax.x); SentinelIdentity(b.pMax.y); SentinelIdentity(b.pMax.z);
  }

  /** Adding a point to the empty box gives the point box. */
  lemma UnionPtNew(p: Vec3)
    requires NoNaN(p)
    ensures UnionPt(New(), p) == Bounds3(p, p)
  {
  }

  lemma UnionCommutative(b1: Bounds3, b2: Bounds3)
    ensures Union(b1, b2) == Union(b2, b1)
  {
    MinMaxLaws(b1.pMin.x, b2.pMin.x, b1.pMin.x); MinMaxLaws(b1.pMin.y, b2.pMin.y, b1.pMin.y);
    MinMaxLaws(b1.pMin.z, b2.pMin.z, b1.pMin.z); MinMaxLaws(b1.pMax.x, b2.pMax.x, b1.pMax.x);
    MinMaxLaws(b1.pMax.y, b2.pMax.y, b1.pMax.y); MinMaxLaws(b1.pMax.z, b2.pMax.z, b1.pMax.z);
  }

  lemma UnionAssociative(b1: Bounds3, b2: Bounds3, b3: Bounds3)
    ensures Union(Union(b1, b2), b3) == Union(b1, Union(b2, b3))
  {
    MinMaxLaws(b1.pMin.x, b2.pMin.x, b3.pMin.x); MinMaxLaws(b1.pMin.y, b2.pMin.y, b3.pMin.y);
    MinMaxLaws(b1.pMin.z, b2.pMin.z, b3.pMin.z); MinMaxLaws(b1.pMax.x, b2.pMax.x, b3.pMax.x);
    MinMaxLaws(b1.pMax.y, b2.pMax.y, b3.pMax.y); MinMaxLaws(b1.pMax.z, b2.pMax.z, b3.pMax.z);
  }

  lemma UnionIdempotent(b: Bounds3)
    ensures Union(b, b) == b
  {
  }

  lemma InsideExclusiveImpliesInside(p: Vec3, b: Bounds3)
    ensures InsideExclusive(p, b) ==> Inside(p, b)
  {
  }

  lemma OverlapsSymmetric(b1: Bounds3, b2: Bounds3)
    ensures Overlaps(b1, b2) <==> Overlaps(b2, b1)
  {
  }

  /** A point inside both boxes makes them overlap. */
  lemma CommonPointOverlaps(p: Vec3, b1: Bounds3, b2: Bounds3)
    requires Inside(p, b1) && Inside(p, b2)
    ensures Overlaps(b1, b2)
  {
    LeTransitive(b2.pMin.x, p.x, b1.pMax.x); LeTransitive(b1.pMin.x, p.x, b2.pMax.x);
    LeTransitive(b2.pMin.y, p.y, b1.pMax.y); LeTransitive(b1.pMin.y, p.y, b2.pMax.y);
    LeTransitive(b2.pMin.z, p.z, b1.pMax.z); LeTransitive(b1.pMin.z, p.z, b2.pMax.z);
  }

  /** Corner number c takes p_max on axis k exactly when bit k of c is set;
      corner 0 is p_min and corner 7 is p_max. */
  lemma CornerBits(b: Bounds3, c: bv8, k: Axis)
    ensures At(Corner(b, c), k) ==
              if c & ((1 as bv8) << k) != 0 then At(b.pMax, k) else At(b.pMin, k)
    ensures Corner(b, 0) == b.pMin && Corner(b, 7) == b.pMax
  {
  }

  /** One coordinate of lerp at t = 0 and t = 1. */
  lemma LerpAxisEndpoints(lo: real, hi: real)
    ensures Add(Mul(Fin(lo), Sub(Fin(1.0), Fin(0.0))), Mul(Fin(0.0), Fin(hi))) == Fin(lo)
    ensures Add(Mul(Fin(lo), Sub(Fin(1.0), Fin(1.0))), Mul(Fin(1.0), Fin(hi))) == Fin(hi)
  {
    assert Sub(Fin(1.0), Fin(0.0)) == Fin(1.0);
    assert Sub(Fin(1.0), Fin(1.0)) == Fin(0.0);
  }

  /** lerp at t = 0 and t = 1 gives the two extreme corners of a finite box. */
  lemma LerpEndpoints(b: Bounds3)
    requires FiniteBox(b)
    ensures Lerp(b, Vec3(Fin(0.0), Fin(0.0), Fin(0.0))) == b.pMin
    ensures Lerp(b, Vec3(Fin(1.0), Fin(1.0), Fin(1.0))) == b.pMax
  {
    LerpAxisEndpoints(b.pMin.x.v, b.pMax.x.v);
    LerpAxisEndpoints(b.pMin.y.v, b.pMax.y.v);
    LerpAxisEndpoints(b.pMin.z.v, b.pMax.z.v);
  }

  /** Only when p_min is 0 on an axis does offset give the fraction of the
      extent; elsewhere it is shifted by -p_min (see OffsetShifted). */
  lemma OffsetFraction(b: Bounds3, p: Vec3, k: Axis)
    requires FiniteBox(b) && FinitePoint(p)
    requires At(b.pMin, k) == Fin(0.0) && Gt(At(b.pMax, k), At(b.pMin, k))
    ensures At(Offset(b, p), k) == Fin(At(p, k).v / At(b.pMax, k).v)
  {
  }

  /** On the box [10, 20] along x, the point x = 15 lies halfway, yet offset
      returns 5 / 20 - 10. */
  lemma OffsetShifted()
    ensures Offset(Bounds3(Vec3(Fin(10.0), Fin(0.0), Fin(0.0)), Vec3(Fin(20.0), Fin(0.0), Fin(0.0))),
                   Vec3(Fin(15.0), Fin(0.0), Fin(0.0))).x == Fin(-9.75)
  {
    var b := Bounds3(Vec3(Fin(10.0), Fin(0.0), Fin(0.0)), Vec3(Fin(20.0), Fin(0.0), Fin(0.0)));
    var o := Sub(Fin(15.0), Fin(10.0));
    assert o == Fin(5.0);
    assert Div(o, Fin(20.0)) == Fin(0.25);
    assert OffsetAxis(o, Fin(10.0), Fin(20.0)) == Fin(-9.75);
  }
}
