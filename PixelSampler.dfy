/** The pixel sampler's default methods (src/traits/pixel_sampler.rs): one
    precomputed sample per pixel sample and dimension, handed out by the
    cursors current_1d_dim and current_2d_dim, with the random number
    generator as the fallback once the precomputed dimensions run out. The
    generator is the oracle `rng`, numbering its draws. */
module PixelSampler {
  import opened Wrappers
  import opened ExtReal
  import opened Bounds
  import opened Sampler

  class PixelSampler {
    const base: Sampler
    var samples1D: seq<seq<Float>>
    var samples2D: seq<seq<Vec2>>
    var current1DDim: nat
    var current2DDim: nat
    /** RNG::uniform_f32: the value of the draw with the given number. */
    const rng: nat -> Float
    var draws: nat

    /** The cursors never pass the number of precomputed dimensions. */
    ghost predicate Valid()
      reads this, base
    {
      base.Valid() && current1DDim <= |samples1D| && current2DDim <= |samples2D|
    }

    /** A pixel sampler with no precomputed dimensions and no draws made. */
    constructor (spp: nat, rng: nat -> Float)
      ensures Valid() && fresh(base) && base.samplesPerPixel == spp
      ensures samples1D == [] && samples2D == [] && current1DDim == 0 && current2DDim == 0
      ensures this.rng == rng && draws == 0
    {
      base := new Sampler(spp);
      samples1D, samples2D := [], [];
      current1DDim, current2DDim := 0, 0;
      this.rng := rng;
      draws := 0;
    }

    /** What get_1d does at cursor `dim` after `count` draws: the precomputed
        sample of dimension dim for the current pixel sample, advancing the
        cursor (None when the sample index is past that dimension's array, an
        index panic); once the dimensions run out, the next draw, leaving the
        cursor where it is. */
    function Draw1D(dim: nat, count: nat): (r: (Option<Float>, nat, nat))
      reads this, base
      ensures dim < |samples1D| ==>
                r.1 == dim + 1 && r.2 == count &&
                (r.0.Some? <==> base.currentPixelSampleIndex < |samples1D[dim]|) &&
                (r.0.Some? ==> r.0.value == samples1D[dim][base.currentPixelSampleIndex])
      ensures dim >= |samples1D| ==> r.0 == Some(rng(count)) && r.1 == dim && r.2 == count + 1
    {
      if dim < |samples1D| then
        var idx := base.currentPixelSampleIndex;
        (if idx < |samples1D[dim]| then Some(samples1D[dim][idx]) else None, dim + 1, count)
      else (Some(rng(count)), dim, count + 1)
    }

    /** get_2d's counterpart of Draw1D; the fallback takes two draws, x first. */
    function Draw2D(dim: nat, count: nat): (r: (Option<Vec2>, nat, nat))
      reads this, base
      ensures dim < |samples2D| ==>
                r.1 == dim + 1 && r.2 == count &&
                (r.0.Some? <==> base.currentPixelSampleIndex < |samples2D[dim]|) &&
                (r.0.Some? ==> r.0.value == samples2D[dim][base.currentPixelSampleIndex])
      ensures dim >= |samples2D| ==> r.0 == Some(Vec2(rng(count), rng(count + 1))) && r.1 == dim && r.2 == count + 2
    {
      if dim < |samples2D| then
        var idx := base.currentPixelSampleIndex;
        (if idx < |samples2D[dim]| then Some(samples2D[dim][idx]) else None, dim + 1, count)
      else (Some(Vec2(rng(count), rng(count + 1))), dim, count + 2)
    }

    /** The cursor stays within the dimensions, so Valid() is kept. */
    lemma DrawKeepsCursor(dim: nat, count: nat)
      requires dim <= |samples1D|
      ensures Draw1D(dim, count).1 <= |samples1D|
      ensures dim <= |samples2D| ==> Draw2D(dim, count).1 <= |samples2D|
    {
    }

    /** Each precomputed dimension is used once per pixel sample, in order:
        after k calls from cursor 0 (k at most the number of dimensions) the
        cursor is k and no draw was made. */
    lemma {:induction false} Draws1DInOrder(k: nat, count: nat)
      requires k <= |samples1D|
      ensures Repeat1D(0, count, k) == (k, count)
    {
      if k > 0 {
        Draws1DInOrder(k - 1, count);
      }
    }

    /** The cursor and draw count after k calls of get_1d from (dim, count). */
    function Repeat1D(dim: nat, count: nat, k: nat): (r: (nat, nat))
      reads this, base
      ensures k > 0 && dim >= |samples1D| ==> r == (dim, count + k)
      decreases k
    {
      if k == 0 then (dim, count)
      else
        var prev := Repeat1D(dim, count, k - 1);
        var next := Draw1D(prev.0, prev.1);
        (next.1, next.2)
    }

    /** PixelSampler::init (pixel_sampler.rs:10-18): the base init, then one
        zeroed array of samples_per_pixel entries per sampled dimension in
        both lists. */
    method Init(spp: nat, nSampledDimensions: nat)
      requires Valid()
      modifies this`samples1D, this`samples2D, base`samplesPerPixel
      ensures Valid()
      ensures base.samplesPerPixel == spp
      ensures samples1D == old(samples1D) + seq(nSampledDimensions, _ => seq(spp, _ => Fin(0.0)))
      ensures samples2D == old(samples2D) + seq(nSampledDimensions, _ => seq(spp, _ => ZeroPoint2()))
      ensures current1DDim == old(current1DDim) && current2DDim == old(current2DDim) && draws == old(draws)
      ensures base.currentPixelSampleIndex == old(base.currentPixelSampleIndex)
    {
      base.Init(spp);
      var zeroPt := ZeroPoint2();
      var i := 0;
      while i < nSampledDimensions
        invariant i <= nSampledDimensions && base.Valid() && base.samplesPerPixel == spp
        invariant samples1D == old(samples1D) + seq(i, _ => seq(spp, _ => Fin(0.0)))
        invariant samples2D == old(samples2D) + seq(i, _ => seq(spp, _ => ZeroPoint2()))
        invariant current1DDim == old(current1DDim) && current2DDim == old(current2DDim) && draws == old(draws)
        invariant base.currentPixelSampleIndex == old(base.currentPixelSampleIndex)
      {
        samples1D := samples1D + [seq(spp, _ => Fin(0.0))];
        samples2D := samples2D + [seq(spp, _ => zeroPt)];
        i := i + 1;
      }
    }

    /** PixelSampler::start_next_sample (pixel_sampler.rs:19-24). */
    method StartNextSample() returns (more: bool)
      requires Valid()
      modifies this`current1DDim, this`current2DDim,
               base`array1DOffset, base`array2DOffset, base`currentPixelSampleIndex
      ensures Valid()
      ensures current1DDim == 0 && current2DDim == 0
      ensures base.array1DOffset == 0 && base.array2DOffset == 0
      ensures base.currentPixelSampleIndex == old(base.currentPixelSampleIndex) + 1
      ensures more <==> base.currentPixelSampleIndex < base.samplesPerPixel
      ensures samples1D == old(samples1D) && samples2D == old(samples2D) && draws == old(draws)
    {
      current1DDim := 0;
      current2DDim := 0;
      more := base.StartNextSample();
    }

    /** PixelSampler::set_sample_number (pixel_sampler.rs:25-30). */
    method SetSampleNumber(sampleNum: nat) returns (more: bool)
      requires Valid()
      modifies this`current1DDim, this`current2DDim,
               base`array1DOffset, base`array2DOffset, base`currentPixelSampleIndex
      ensures Valid()
      ensures current1DDim == 0 && current2DDim == 0
      ensures base.array1DOffset == 0 && base.array2DOffset == 0
      ensures base.currentPixelSampleIndex == sampleNum
      ensures more <==> sampleNum < base.samplesPerPixel
      ensures samples1D == old(samples1D) && samples2D == old(samples2D) && draws == old(draws)
    {
      current1DDim := 0;
      current2DDim := 0;
      more := base.SetSampleNumber(sampleNum);
    }

    /** PixelSampler::get_1d (pixel_sampler.rs:31-39). */
    method Get1D() returns (v: Option<Float>)
      requires Valid()
      modifies this`current1DDim, this`draws
      ensures Valid()
      ensures (v, current1DDim, draws) == Draw1D(old(current1DDim), old(draws))
    {
      if current1DDim < |samples1D| {
        current1DDim := current1DDim + 1;
        var cur1DDim := current1DDim - 1;
        var curPixelIdx := base.currentPixelSampleIndex;
        if curPixelIdx >= |samples1D[cur1DDim]| {
          return None;
        }
        return Some(samples1D[cur1DDim][curPixelIdx]);
      }
      v := Some(rng(draws));
      draws := draws + 1;
    }

    /** PixelSampler::get_2d (pixel_sampler.rs:40-49). */
    method Get2D() returns (v: Option<Vec2>)
      requires Valid()
      modifies this`current2DDim, this`draws
      ensures Valid()
      ensures (v, current2DDim, draws) == Draw2D(old(current2DDim), old(draws))
    {
      if current2DDim < |samples2D| {
        current2DDim := current2DDim + 1;
        var cur2DDim := current2DDim - 1;
        var curPixelIdx := base.currentPixelSampleIndex;
        if curPixelIdx >= |samples2D[cur2DDim]| {
          return None;
        }
        return Some(samples2D[cur2DDim][curPixelIdx]);
      }
      var x := rng(draws);
      var y := rng(draws + 1);
      draws := draws + 2;
      v := Some(Vec2(x, y));
    }

    /** Sampler::get_camera_sample (sampler.rs:32-37) for a pixel sampler:
        the film position takes the first 2D sample, offset by the raster
        position, and the lens position the second. */
    method GetCameraSample(pRaster: Vec2) returns (r: Option<CameraSample>)
      requires Valid()
      modifies this`current2DDim, this`draws
      ensures Valid()
      ensures var (film, d1, c1) := Draw2D(old(current2DDim), old(draws));
              var (lens, d2, c2) := Draw2D(d1, c1);
              r == (if film.Some? && lens.Some? then Some(CameraSample(Add2(pRaster, film.value), lens.value)) else None) &&
              (film.Some? ==> current2DDim == d2 && draws == c2)
    {
      var film := Get2D();
      if film.None? {
        return None;
      }
      var lens := Get2D();
      if lens.None? {
        return None;
      }
      r := Some(CameraSample(Add2(pRaster, film.value), lens.value));
    }
  }
}
