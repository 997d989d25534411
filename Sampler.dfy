/** The per-pixel cursor state every sampler shares (src/traits/sampler.rs):
    the current pixel and sample index, the lists of requested sample arrays
    and the cursors into them. Sample values are opaque f32 payloads
    (ExtReal.Float), 2D ones Bounds.Vec2. */
module Sampler {
  import opened Wrappers
  import opened ExtReal
  import opened Bounds

  /** CameraSample: the film and lens positions of one camera ray. */
  datatype CameraSample = CameraSample(pFilm: Vec2, pLens: Vec2)

  /** Point2f::new(): the origin. */
  function ZeroPoint2(): Vec2
  {
    Vec2(Fin(0.0), Fin(0.0))
  }

  function Add2(p: Vec2, q: Vec2): Vec2
  {
    Vec2(Add(p.x, q.x), Add(p.y, q.y))
  }

  /** What get_1d_array / get_2d_array return (sampler.rs:48-69) for array
      cursor `offset`, sample index `idx` and requested size `n`: the empty
      slice once every array has been handed out, otherwise the entries
      [idx * n, idx * (n + 1)) of array `offset`; None when that range is
      past the array's end (a slice panic). The range holds idx entries, not
      n. */
  function ArraySlice<T>(arrays: seq<seq<T>>, offset: nat, idx: nat, n: nat): (r: Option<seq<T>>)
    requires offset <= |arrays|
    ensures offset == |arrays| ==> r == Some([])
    ensures offset < |arrays| ==> (r.Some? <==> idx * (n + 1) <= |arrays[offset]|)
    ensures offset < |arrays| && r.Some? ==>
              |r.value| == idx &&
              forall k | 0 <= k < idx :: idx * n + k < |arrays[offset]| && r.value[k] == arrays[offset][idx * n + k]
  {
    if offset == |arrays| then Some([])
    else if idx * (n + 1) <= |arrays[offset]| then
      SliceBounds(idx, n);
      Some(arrays[offset][idx * n .. idx * (n + 1)])
    else None
  }

  lemma SliceBounds(idx: nat, n: nat)
    ensures idx * n <= idx * (n + 1) == idx * n + idx
  {
  }

  /** With sample index 0 the slice is always empty, whatever was requested;
      with index 1 it is a single entry. */
  lemma ArraySliceSmallIndex<T>(arrays: seq<seq<T>>, offset: nat, n: nat)
    requires offset < |arrays|
    ensures ArraySlice(arrays, offset, 0, n) == Some([])
    ensures n + 1 <= |arrays[offset]| ==> ArraySlice(arrays, offset, 1, n) == Some([arrays[offset][n]])
  {
    var a := ArraySlice(arrays, offset, 1, n);
    if n + 1 <= |arrays[offset]| {
      assert 1 * (n + 1) == n + 1 && 1 * n + 0 == n;
      assert |a.value| == 1 && a.value[0] == arrays[offset][n];
      assert a.value == [arrays[offset][n]];
    }
  }

  class Sampler {
    var samplesPerPixel: nat
    var currentPixel: Vec2
    var currentPixelSampleIndex: nat
    var array1DOffset: nat
    var array2DOffset: nat
    var samples1DArraySizes: seq<nat>
    var samples2DArraySizes: seq<nat>
    var sampleArray1D: seq<seq<Float>>
    var sampleArray2D: seq<seq<Vec2>>

    /** Each requested size has its array, and the array cursors never pass
        the number of arrays. */
    ghost predicate Valid()
      reads this
    {
      |samples1DArraySizes| == |sampleArray1D| && |samples2DArraySizes| == |sampleArray2D| &&
      array1DOffset <= |sampleArray1D| && array2DOffset <= |sampleArray2D|
    }

    /** A sampler with no arrays, at pixel (0, 0), sample 0. */
    constructor (spp: nat)
      ensures Valid() && samplesPerPixel == spp
      ensures currentPixel == ZeroPoint2() && currentPixelSampleIndex == 0
      ensures array1DOffset == 0 && array2DOffset == 0
      ensures samples1DArraySizes == [] && samples2DArraySizes == []
      ensures sampleArray1D == [] && sampleArray2D == []
    {
      samplesPerPixel := spp;
      currentPixel := ZeroPoint2();
      currentPixelSampleIndex := 0;
      array1DOffset, array2DOffset := 0, 0;
      samples1DArraySizes, samples2DArraySizes := [], [];
      sampleArray1D, sampleArray2D := [], [];
    }

    /** Sampler::init (sampler.rs:20-22): sets samples_per_pixel only. */
    method Init(spp: nat)
      requires Valid()
      modifies this`samplesPerPixel
      ensures Valid() && samplesPerPixel == spp
    {
      samplesPerPixel := spp;
    }

    /** Sampler::start_pixel (sampler.rs:24-29). */
    method StartPixel(p: Vec2)
      requires Valid()
      modifies this`currentPixel, this`currentPixelSampleIndex, this`array1DOffset, this`array2DOffset
      ensures Valid()
      ensures currentPixel == p && currentPixelSampleIndex == 0
      ensures array1DOffset == 0 && array2DOffset == 0
    {
      currentPixel := p;
      currentPixelSampleIndex := 0;
      array1DOffset := 0;
      array2DOffset := 0;
    }

    /** Sampler::request_1d_array (sampler.rs:38-42): records the size and
        appends a zeroed array of n * samples_per_pixel entries. */
    method Request1DArray(n: nat)
      requires Valid()
      modifies this`samples1DArraySizes, this`sampleArray1D
      ensures Valid()
      ensures samples1DArraySizes == old(samples1DArraySizes) + [n]
      ensures sampleArray1D == old(sampleArray1D) + [seq(n * samplesPerPixel, _ => Fin(0.0))]
    {
      samples1DArraySizes := samples1DArraySizes + [n];
      sampleArray1D := sampleArray1D + [seq(n * samplesPerPixel, _ => Fin(0.0))];
    }

    /** Sampler::request_2d_array (sampler.rs:43-47). */
    method Request2DArray(n: nat)
      requires Valid()
      modifies this`samples2DArraySizes, this`sampleArray2D
      ensures Valid()
      ensures samples2DArraySizes == old(samples2DArraySizes) + [n]
      ensures sampleArray2D == old(sampleArray2D) + [seq(n * samplesPerPixel, _ => ZeroPoint2())]
    {
      samples2DArraySizes := samples2DArraySizes + [n];
      sampleArray2D := sampleArray2D + [seq(n * samplesPerPixel, _ => ZeroPoint2())];
    }

    /** Sampler::get_1d_array (sampler.rs:48-58): hands out the next array's
        slice for the current sample and advances the cursor; once all arrays
        are handed out it returns the empty slice and stays. None is the
        slice panic. */
    method Get1DArray(n: nat) returns (r: Option<seq<Float>>)
      requires Valid()
      modifies this`array1DOffset
      ensures Valid()
      ensures r == ArraySlice(sampleArray1D, old(array1DOffset), currentPixelSampleIndex, n)
      ensures array1DOffset == if old(array1DOffset) == |sampleArray1D| then old(array1DOffset) else old(array1DOffset) + 1
    {
      if array1DOffset == |sampleArray1D| {
        return Some([]);
      }
      var startIdx := currentPixelSampleIndex * n;
      var endIdx := currentPixelSampleIndex * (n + 1);
      var offset := array1DOffset;
      array1DOffset := array1DOffset + 1;
      SliceBounds(currentPixelSampleIndex, n);
      if endIdx > |sampleArray1D[offset]| {
        return None;
      }
      r := Some(sampleArray1D[offset][startIdx..endIdx]);
    }

    /** Sampler::get_2d_array (sampler.rs:59-69). */
    method Get2DArray(n: nat) returns (r: Option<seq<Vec2>>)
      requires Valid()
      modifies this`array2DOffset
      ensures Valid()
      ensures r == ArraySlice(sampleArray2D, old(array2DOffset), currentPixelSampleIndex, n)
      ensures array2DOffset == if old(array2DOffset) == |sampleArray2D| then old(array2DOffset) else old(array2DOffset) + 1
    {
      if array2DOffset == |sampleArray2D| {
        return Some([]);
      }
      var startIdx := currentPixelSampleIndex * n;
      var endIdx := currentPixelSampleIndex * (n + 1);
      var offset := array2DOffset;
      array2DOffset := array2DOffset + 1;
      SliceBounds(currentPixelSampleIndex, n);
      if endIdx > |sampleArray2D[offset]| {
        return None;
      }
      r := Some(sampleArray2D[offset][startIdx..endIdx]);
    }

    /** Sampler::start_next_sample (sampler.rs:70-76): resets the array
        cursors, moves to the next sample and reports whether it is still
        below samples_per_pixel. */
    method StartNextSample() returns (more: bool)
      requires Valid()
      modifies this`array1DOffset, this`array2DOffset, this`currentPixelSampleIndex
      ensures Valid()
      ensures array1DOffset == 0 && array2DOffset == 0
      ensures currentPixelSampleIndex == old(currentPixelSampleIndex) + 1
      ensures more <==> currentPixelSampleIndex < samplesPerPixel
    {
      array1DOffset := 0;
      array2DOffset := 0;
      currentPixelSampleIndex := currentPixelSampleIndex + 1;
      more := currentPixelSampleIndex < samplesPerPixel;
    }

    /** Sampler::set_sample_number (sampler.rs:81-88). */
    method SetSampleNumber(sampleNum: nat) returns (more: bool)
      requires Valid()
      modifies this`array1DOffset, this`array2DOffset, this`currentPixelSampleIndex
      ensures Valid()
      ensures array1DOffset == 0 && array2DOffset == 0
      ensures currentPixelSampleIndex == sampleNum
      ensures more <==> sampleNum < samplesPerPixel
    {
      array1DOffset := 0;
      array2DOffset := 0;
      currentPixelSampleIndex := sampleNum;
      more := currentPixelSampleIndex < samplesPerPixel;
    }
  }
}
