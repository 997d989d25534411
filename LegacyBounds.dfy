/** The older copy of the box types (src/utils/bounding_box.rs). The Bounds3
    operations it has are written exactly as those of
    src/geometry/bounding_box.rs, so they are the functions of module Bounds;
    it has no `to_string` or `get` for either box type and no
    `intersect_inv_p` (only a commented-out `intersect_p_inv`). The one
    operation that differs is Bounds2::area, which has no `abs`. */
module LegacyBounds {
  import opened ExtReal
  import opened Bounds

  predicate FiniteBox2(b: Bounds2)
  {
    b.pMin.x.Fin? && b.pMin.y.Fin? && b.pMax.x.Fin? && b.pMax.y.Fin?
  }

  /** Bounds2::area of the older copy: the product of the diagonal's
      components, without `abs`; up to sign it is the newer area. */
  function LegacyArea2(b: Bounds2): (r: Float)
    ensures r == Area2(b) || r == Neg(Area2(b))
  {
    var d := Diagonal2(b);
    Mul(d.x, d.y)
  }

  /** On a box that is not inverted the two areas agree. */
  lemma LegacyAreaNonInverted(b: Bounds2)
    requires FiniteBox2(b) && Le(b.pMin.x, b.pMax.x) && Le(b.pMin.y, b.pMax.y)
    ensures LegacyArea2(b) == Area2(b)
    ensures Ge(LegacyArea2(b), Fin(0.0))
  {
    var dx, dy := b.pMax.x.v - b.pMin.x.v, b.pMax.y.v - b.pMin.y.v;
    assert Diagonal2(b) == Vec2(Fin(dx), Fin(dy));
    assert dx * dy >= 0.0;
  }

  /** A box inverted along exactly one axis, with a positive extent along the
      other, has a negative area in the older copy: the opposite of the
      newer one. */
  lemma LegacyAreaOneAxisInverted(b: Bounds2)
    requires FiniteBox2(b)
    requires (Lt(b.pMax.x, b.pMin.x) && Lt(b.pMin.y, b.pMax.y)) ||
             (Lt(b.pMin.x, b.pMax.x) && Lt(b.pMax.y, b.pMin.y))
    ensures Lt(LegacyArea2(b), Fin(0.0))
    ensures LegacyArea2(b) == Neg(Area2(b))
  {
    var dx, dy := b.pMax.x.v - b.pMin.x.v, b.pMax.y.v - b.pMin.y.v;
    assert Diagonal2(b) == Vec2(Fin(dx), Fin(dy));
    assert dx * dy < 0.0;
  }

  /** The unit square with its x sides swapped has area -1 in the older copy
      and 1 in the newer one. */
  lemma LegacyAreaNegativeExample()
    ensures LegacyArea2(Bounds2(Vec2(Fin(1.0), Fin(0.0)), Vec2(Fin(0.0), Fin(1.0)))) == Fin(-1.0)
    ensures Area2(Bounds2(Vec2(Fin(1.0), Fin(0.0)), Vec2(Fin(0.0), Fin(1.0)))) == Fin(1.0)
  {
    var b := Bounds2(Vec2(Fin(1.0), Fin(0.0)), Vec2(Fin(0.0), Fin(1.0)));
    assert Diagonal2(b) == Vec2(Fin(-1.0), Fin(1.0));
  }

  /** The laws the older Bounds3 copy promises, which hold because its
      operations are the same: the empty sentinel is the identity of union,
      union contains both operands and the added point, a point of the
      intersection lies in both operands, inside_exclusive implies inside,
      and overlaps is symmetric. */
  lemma OlderBounds3Laws(b1: Bounds3, b2: Bounds3, p: Vec3)
    requires BoxNoNaN(b1) && BoxNoNaN(b2) && NoNaN(p)
    ensures Union(New(), b1) == b1 && Union(b1, New()) == b1
    ensures Inside(p, b1) || Inside(p, b2) ==> Inside(p, Union(b1, b2))
    ensures Inside(p, UnionPt(b1, p))
    ensures Inside(p, Intersect(b1, b2)) ==> Inside(p, b1) && Inside(p, b2)
    ensures InsideExclusive(p, b1) ==> Inside(p, b1)
    ensures Overlaps(b1, b2) <==> Overlaps(b2, b1)
  {
    UnionNewLeft(b1);
    InsideExclusiveImpliesInside(p, b1);
    OverlapsSymmetric(b1, b2);
  }
}
