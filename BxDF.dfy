/** The reflection-model flags (src/material/bxdf.rs): each BxDFType is a
    u32 bit mask, a concrete BxDF reports the OR of its flags, and
    matches_flags(t) asks whether all of them are among t's. The concrete
    models' float evaluation is not part of this model; only their flags
    (the bxdf_type methods of the files under src/material/) are. */
module BxDF {
  datatype BxDFType = Reflection | Transmission | Diffuse | Glossy | Specular | All

  /** BxDFType::to_u32 (bxdf.rs:13-22): bit k is 1 << k. */
  function ToU32(t: BxDFType): bv32
  {
    match t
    case Reflection => 1
    case Transmission => 2
    case Diffuse => 4
    case Glossy => 8
    case Specular => 16
    case All => 1 | 2 | 4 | 8 | 16
  }

  /** The five basic flags are the distinct powers of two 1, 2, 4, 8 and
      16, and All is their OR, 31. */
  lemma FlagValues()
    ensures ToU32(Reflection) == 1 && ToU32(Transmission) == 2 && ToU32(Diffuse) == 4
    ensures ToU32(Glossy) == 8 && ToU32(Specular) == 16
    ensures ToU32(All) == 31
    ensures ToU32(All) == ToU32(Reflection) | ToU32(Transmission) | ToU32(Diffuse) | ToU32(Glossy) | ToU32(Specular)
    ensures forall t, u | t != u && t != All && u != All :: ToU32(t) & ToU32(u) == 0
  {
  }

  /** The concrete reflection models whose flags the source defines. */
  datatype Model = SpecularReflection | LambertianReflection | SpecularTransmission | FresnelSpecular

  /** The bxdf_type of each concrete model. */
  function TypeOf(m: Model): bv32
  {
    match m
    case SpecularReflection => ToU32(Reflection) | ToU32(Specular)
    case LambertianReflection => ToU32(Reflection) | ToU32(Diffuse)
    case SpecularTransmission => ToU32(Transmission) | ToU32(Specular)
    case FresnelSpecular => ToU32(Transmission) | ToU32(Reflection) | ToU32(Specular)
  }

  /** Every concrete model's type lies within the five flags. */
  lemma ModelTypeWithinAll(m: Model)
    ensures TypeOf(m) & ToU32(All) == TypeOf(m)
  {
  }

  lemma ModelFlagValues()
    ensures TypeOf(SpecularReflection) == 17
    ensures TypeOf(LambertianReflection) == 5
    ensures TypeOf(SpecularTransmission) == 18
    ensures TypeOf(FresnelSpecular) == 19
  {
  }

  /** BxDF::matches_flags (bxdf.rs:38-40) for a BxDF of type `bxdfType`. */
  predicate MatchesFlags(bxdfType: bv32, t: BxDFType)
  {
    ToU32(t) & bxdfType == bxdfType
  }

  predicate IsBasic(f: BxDFType)
  {
    f != All
  }

  /** Each of the five flag bits set in b is set in m. */
  predicate BitsWithin(b: bv32, m: bv32)
  {
    (b & 1 != 0 ==> m & 1 != 0) && (b & 2 != 0 ==> m & 2 != 0) && (b & 4 != 0 ==> m & 4 != 0) &&
    (b & 8 != 0 ==> m & 8 != 0) && (b & 16 != 0 ==> m & 16 != 0)
  }

  /** For b within the five flags, no bit of b lies outside m exactly when
      each of its flag bits is in m. */
  lemma MaskIsBits(b: bv32, m: bv32)
    requires b & 31 == b
    ensures b & !m == 0 <==> BitsWithin(b, m)
  {
    var missing := b & !m;
    assert missing == (missing & 1) | (missing & 2) | (missing & 4) | (missing & 8) | (missing & 16);
  }

  /** m & b == b says that no bit of b lies outside m, and back. */
  lemma MaskSubset(b: bv32, m: bv32)
    ensures m & b == b <==> b & !m == 0
  {
    MaskSubsetThere(b, m);
    MaskSubsetBack(b, m);
  }

  lemma MaskSubsetThere(b: bv32, m: bv32)
    ensures m & b == b ==> b & !m == 0
  {
  }

  lemma MaskSubsetBack(b: bv32, m: bv32)
    ensures b & !m == 0 ==> m & b == b
  {
  }

  /** Each basic flag of b being in m gives BitsWithin(b, m). */
  lemma BitsFromBasic(b: bv32, m: bv32)
    requires forall f | IsBasic(f) :: b & ToU32(f) != 0 ==> m & ToU32(f) != 0
    ensures BitsWithin(b, m)
  {
    assert IsBasic(Reflection) && IsBasic(Transmission) && IsBasic(Diffuse);
    assert IsBasic(Glossy) && IsBasic(Specular);
    assert ToU32(Reflection) == 1 && ToU32(Transmission) == 2 && ToU32(Diffuse) == 4;
    assert ToU32(Glossy) == 8 && ToU32(Specular) == 16;
  }

  /** BitsWithin(b, m) puts each basic flag of b in m. */
  lemma BasicFromBits(b: bv32, m: bv32)
    requires BitsWithin(b, m)
    ensures forall f | IsBasic(f) :: b & ToU32(f) != 0 ==> m & ToU32(f) != 0
  {
    forall f | IsBasic(f)
      ensures b & ToU32(f) != 0 ==> m & ToU32(f) != 0
    {
      match f
      case Reflection =>
      case Transmission =>
      case Diffuse =>
      case Glossy =>
      case Specular =>
    }
  }

  /** matches_flags(t) holds exactly when no bit of the BxDF's type lies
      outside t's mask; for a type within the five flags, exactly when each
      of its flag bits is among t's. */
  lemma MatchesFlagsIsSubset(bxdfType: bv32, t: BxDFType)
    ensures MatchesFlags(bxdfType, t) <==> bxdfType & !ToU32(t) == 0
    ensures bxdfType & 31 == bxdfType ==> (MatchesFlags(bxdfType, t) <==> BitsWithin(bxdfType, ToU32(t)))
  {
    MaskSubset(bxdfType, ToU32(t));
    if bxdfType & 31 == bxdfType {
      MaskIsBits(bxdfType, ToU32(t));
    }
  }

  /** For a type within BSDFAll's mask, matches_flags(t) holds exactly when
      each basic flag the BxDF has is among t's. */
  lemma MatchesFlagsPerFlag(bxdfType: bv32, t: BxDFType)
    requires bxdfType & ToU32(All) == bxdfType
    ensures MatchesFlags(bxdfType, t) <==>
              forall f | IsBasic(f) :: bxdfType & ToU32(f) != 0 ==> ToU32(t) & ToU32(f) != 0
  {
    assert ToU32(All) == 31;
    MatchesFlagsIsSubset(bxdfType, t);
    if MatchesFlags(bxdfType, t) {
      BasicFromBits(bxdfType, ToU32(t));
    } else if forall f | IsBasic(f) :: bxdfType & ToU32(f) != 0 ==> ToU32(t) & ToU32(f) != 0 {
      BitsFromBasic(bxdfType, ToU32(t));
    }
  }

  /** A BxDF matches its own type's flag, and matches All whenever its type
      lies within the five flags. */
  lemma MatchesOwnAndAll(bxdfType: bv32, t: BxDFType)
    ensures bxdfType == ToU32(t) ==> MatchesFlags(bxdfType, t)
    ensures MatchesFlags(bxdfType, All) <==> bxdfType & 31 == bxdfType
  {
  }

  /** Every concrete model has two or three flags, so it matches no single
      basic flag: of the six types only All matches it. */
  lemma ModelsMatchOnlyAll(m: Model, t: BxDFType)
    ensures MatchesFlags(TypeOf(m), t) <==> t == All
  {
  }
}
