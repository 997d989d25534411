/** The global sampler's default methods (src/traits/global_sampler.rs): the
    sample values come from sample_dimension(index, dimension) for the
    current interval sample index, with one dimension cursor shared by the
    1D and 2D requests; the dimensions [array_start_dim, array_end_dim) are
    reserved for the sample arrays that start_pixel fills. The concrete
    sampler's get_idx_for_sample and sample_dimension are the oracles
    `getIdxForSample` and `sampleDimension`. */
module GlobalSampler {
  import opened ExtReal
  import opened Bounds
  import opened Sampler

  /** array_start_dim: the first dimension reserved for sample arrays. */
  const ARRAY_START_DIM: nat := 5

  predicate InArrays(dim: nat, arrayEndDim: nat)
  {
    ARRAY_START_DIM <= dim < arrayEndDim
  }

  /** The dimension cursor after get_1d at cursor `dim`; get_1d samples
      dimension `dim` itself. */
  function Next1D(dim: nat, arrayEndDim: nat): (r: nat)
    ensures r > dim
    ensures InArrays(dim, arrayEndDim) ==> r > arrayEndDim
  {
    (if InArrays(dim, arrayEndDim) then arrayEndDim else dim) + 1
  }

  /** The dimension cursor after get_2d at cursor `dim`; get_2d samples
      dimensions `dim` and `dim + 1`. */
  function Next2D(dim: nat, arrayEndDim: nat): (r: nat)
    ensures r > dim + 1
    ensures InArrays(dim, arrayEndDim) || InArrays(dim + 1, arrayEndDim) ==> r > arrayEndDim
  {
    (if dim + 1 >= ARRAY_START_DIM && dim < arrayEndDim then arrayEndDim else dim) + 2
  }

  /** One request of a sample value: get_1d or get_2d. */
  datatype Request = OneD | TwoD

  function NextDim(dim: nat, arrayEndDim: nat, q: Request): nat
  {
    match q
    case OneD => Next1D(dim, arrayEndDim)
    case TwoD => Next2D(dim, arrayEndDim)
  }

  function RequestDims(dim: nat, q: Request): seq<nat>
  {
    match q
    case OneD => [dim]
    case TwoD => [dim, dim + 1]
  }

  /** The dimensions a series of requests samples, in order, starting at
      cursor `dim`; none is below the starting cursor. */
  function Sampled(dim: nat, arrayEndDim: nat, qs: seq<Request>): (r: seq<nat>)
    ensures forall k | 0 <= k < |r| :: r[k] >= dim
    decreases |qs|
  {
    if qs == [] then []
    else RequestDims(dim, qs[0]) + Sampled(NextDim(dim, arrayEndDim, qs[0]), arrayEndDim, qs[1..])
  }

  predicate StrictlyIncreasing(s: seq<nat>)
  {
    forall i, j | 0 <= i < j < |s| :: s[i] < s[j]
  }

  /** Consecutive requests never sample a dimension twice: the sampled
      dimensions strictly increase. */
  lemma {:induction false} SampledIncreasing(dim: nat, arrayEndDim: nat, qs: seq<Request>)
    ensures StrictlyIncreasing(Sampled(dim, arrayEndDim, qs))
    decreases |qs|
  {
    if qs != [] {
      var next := NextDim(dim, arrayEndDim, qs[0]);
      SampledIncreasing(next, arrayEndDim, qs[1..]);
      var head, tail := RequestDims(dim, qs[0]), Sampled(next, arrayEndDim, qs[1..]);
      var r := Sampled(dim, arrayEndDim, qs);
      assert r == head + tail;
      assert (head == [dim] && next > dim) || (head == [dim, dim + 1] && next > dim + 1);
      forall i, j | 0 <= i < j < |r|
        ensures r[i] < r[j]
      {
        if j < |head| {
          assert r[i] == head[i] && r[j] == head[j];
          assert r[i] < r[j];
        } else if i < |head| {
          assert r[i] == head[i] < next;
          assert r[j] == tail[j - |head|] >= next;
          assert r[i] < r[j];
        } else {
          assert r[i] == tail[i - |head|] && r[j] == tail[j - |head|];
          var i', j' := i - |head|, j - |head|;
          assert 0 <= i' < j' < |tail|;
          assert tail[i'] < tail[j'];
        }
      }
    }
  }

  /** Any two reserved dimensions in `s` are adjacent, in place and value. */
  predicate ReservedAdjacent(s: seq<nat>, arrayEndDim: nat)
  {
    forall i, j | 0 <= i < j < |s| && InArrays(s[i], arrayEndDim) && InArrays(s[j], arrayEndDim) ::
      j == i + 1 && s[j] == s[i] + 1
  }

  /** The reserved dimensions a series of requests samples all come from
      one request, the first to reach the reserved range: at most two of
      them, and then adjacent. */
  lemma {:induction false} SampledArrayDimsFromOneRequest(dim: nat, arrayEndDim: nat, qs: seq<Request>)
    ensures ReservedAdjacent(Sampled(dim, arrayEndDim, qs), arrayEndDim)
    decreases |qs|
  {
    if qs != [] {
      var next := NextDim(dim, arrayEndDim, qs[0]);
      SampledArrayDimsFromOneRequest(next, arrayEndDim, qs[1..]);
      var head, tail := RequestDims(dim, qs[0]), Sampled(next, arrayEndDim, qs[1..]);
      var r := Sampled(dim, arrayEndDim, qs);
      assert r == head + tail;
      assert (head == [dim] && next > dim) || (head == [dim, dim + 1] && next > dim + 1);
      forall i, j | 0 <= i < j < |r| && InArrays(r[i], arrayEndDim) && InArrays(r[j], arrayEndDim)
        ensures j == i + 1 && r[j] == r[i] + 1
      {
        if i < |head| {
          assert InArrays(head[i], arrayEndDim);
          assert next > arrayEndDim;
        } else {
          assert r[i] == tail[i - |head|] && r[j] == tail[j - |head|];
          assert 0 <= i - |head| < j - |head| < |tail|;
        }
      }
    }
  }

  /** get_1d at the first reserved dimension samples that dimension, the
      first 1D array's, before skipping; so does get_2d one below it. With
      one 1D array and one 2D array the reserved range is [5, 8). */
  lemma RequestAtArrayStartSamplesIt()
    ensures Sampled(5, 8, [OneD, OneD]) == [5, 9]
    ensures Sampled(4, 8, [TwoD, OneD]) == [4, 5, 10]
  {
    assert Sampled(9, 8, [OneD]) == [9];
    assert Sampled(10, 8, [OneD]) == [10];
  }

  /** The sample-array row i after start_pixel's fill of its first `count`
      entries: entry j holds sample_dimension(get_idx_for_sample(j),
      array_start_dim + i). */
  function FilledRow(row: seq<Float>, i: nat, count: nat, getIdx: nat -> nat, sampleDim: (nat, nat) -> Float): (r: seq<Float>)
    requires count <= |row|
    ensures |r| == |row| && r[count..] == row[count..]
    ensures forall j | 0 <= j < count :: r[j] == sampleDim(getIdx(j), ARRAY_START_DIM + i)
  {
    seq(|row|, j requires 0 <= j < |row| => if j < count then sampleDim(getIdx(j), ARRAY_START_DIM + i) else row[j])
  }

  /** Every 1D array holds at least size * spp entries. */
  predicate RowsFit(arrays: seq<seq<Float>>, sizes: seq<nat>, spp: nat)
    requires |sizes| == |arrays|
  {
    forall k | 0 <= k < |arrays| :: sizes[k] * spp <= |arrays[k]|
  }

  /** Every row of `filled` is start_pixel's fill of the matching array. */
  predicate RowsFilled(arrays: seq<seq<Float>>, sizes: seq<nat>, spp: nat, filled: seq<seq<Float>>,
                       getIdx: nat -> nat, sampleDim: (nat, nat) -> Float)
    requires |sizes| == |arrays| == |filled|
  {
    forall k | 0 <= k < |arrays| :: sizes[k] * spp <= |arrays[k]| &&
      filled[k] == FilledRow(arrays[k], k, sizes[k] * spp, getIdx, sampleDim)
  }

  class GlobalSampler {
    const base: Sampler
    var dimension: nat
    var intervalSampleIdx: nat
    var arrayEndDim: nat
    const getIdxForSample: nat -> nat
    const sampleDimension: (nat, nat) -> Float

    ghost predicate Valid()
      reads this, base
    {
      base.Valid()
    }

    /** A global sampler over the given oracles, at dimension 0. */
    constructor (spp: nat, getIdxForSample: nat -> nat, sampleDimension: (nat, nat) -> Float)
      ensures Valid() && fresh(base) && base.samplesPerPixel == spp
      ensures dimension == 0 && intervalSampleIdx == 0 && arrayEndDim == ARRAY_START_DIM
      ensures this.getIdxForSample == getIdxForSample && this.sampleDimension == sampleDimension
    {
      base := new Sampler(spp);
      dimension, intervalSampleIdx, arrayEndDim := 0, 0, ARRAY_START_DIM;
      this.getIdxForSample := getIdxForSample;
      this.sampleDimension := sampleDimension;
    }

    /** GlobalSampler::start_next_sample (global_sampler.rs:10-15): back to
        dimension 0 at the next sample's interval index, then the base. */
    method StartNextSample() returns (more: bool)
      requires Valid()
      modifies this`dimension, this`intervalSampleIdx,
               base`array1DOffset, base`array2DOffset, base`currentPixelSampleIndex
      ensures Valid()
      ensures dimension == 0 && intervalSampleIdx == getIdxForSample(old(base.currentPixelSampleIndex) + 1)
      ensures base.currentPixelSampleIndex == old(base.currentPixelSampleIndex) + 1
      ensures base.array1DOffset == 0 && base.array2DOffset == 0
      ensures more <==> base.currentPixelSampleIndex < base.samplesPerPixel
      ensures arrayEndDim == old(arrayEndDim) && base.sampleArray1D == old(base.sampleArray1D)
    {
      dimension := 0;
      intervalSampleIdx := getIdxForSample(base.currentPixelSampleIndex + 1);
      more := base.StartNextSample();
    }

    /** GlobalSampler::set_sample_number (global_sampler.rs:32-37). */
    method SetSampleNumber(sampleNum: nat) returns (more: bool)
      requires Valid()
      modifies this`dimension, this`intervalSampleIdx,
               base`array1DOffset, base`array2DOffset, base`currentPixelSampleIndex
      ensures Valid()
      ensures dimension == 0 && intervalSampleIdx == getIdxForSample(sampleNum)
      ensures base.currentPixelSampleIndex == sampleNum
      ensures base.array1DOffset == 0 && base.array2DOffset == 0
      ensures more <==> sampleNum < base.samplesPerPixel
      ensures arrayEndDim == old(arrayEndDim) && base.sampleArray1D == old(base.sampleArray1D)
    {
      dimension := 0;
      intervalSampleIdx := getIdxForSample(sampleNum);
      more := base.SetSampleNumber(sampleNum);
    }

    /** GlobalSampler::start_pixel (global_sampler.rs:16-31): the base
        start_pixel, dimension 0 at interval index get_idx_for_sample(0),
        the end of the reserved range after one dimension per 1D array and
        two per 2D array, then each 1D array's first size * spp entries
        filled from its own reserved dimension. `ok` is false when some
        array is shorter than that (an index panic); the 2D arrays are not
        filled. */
    method StartPixel(p: Vec2) returns (ok: bool)
      requires Valid()
      modifies this`dimension, this`intervalSampleIdx, this`arrayEndDim, base`currentPixel,
               base`currentPixelSampleIndex, base`array1DOffset, base`array2DOffset, base`sampleArray1D
      ensures Valid()
      ensures base.currentPixel == p && base.currentPixelSampleIndex == 0
      ensures base.array1DOffset == 0 && base.array2DOffset == 0
      ensures dimension == 0 && intervalSampleIdx == getIdxForSample(0)
      ensures arrayEndDim == ARRAY_START_DIM + |base.sampleArray1D| + 2 * |base.sampleArray2D|
      ensures base.samplesPerPixel == old(base.samplesPerPixel)
      ensures base.sampleArray2D == old(base.sampleArray2D)
      ensures ok <==> RowsFit(old(base.sampleArray1D), old(base.samples1DArraySizes), base.samplesPerPixel)
      ensures ok ==> |base.sampleArray1D| == |old(base.sampleArray1D)| &&
                     RowsFilled(old(base.sampleArray1D), old(base.samples1DArraySizes), base.samplesPerPixel,
                                base.sampleArray1D, getIdxForSample, sampleDimension)
      ensures !ok ==> base.sampleArray1D == old(base.sampleArray1D)
    {
      base.StartPixel(p);
      dimension := 0;
      intervalSampleIdx := getIdxForSample(0);
      arrayEndDim := ARRAY_START_DIM + |base.sampleArray1D| + 2 * |base.sampleArray2D|;
      var filled;
      ok, filled := FillRows(base.sampleArray1D, base.samples1DArraySizes, base.samplesPerPixel);
      if ok {
        base.sampleArray1D := filled;
      }
    }

    /** The outer loop of start_pixel (global_sampler.rs:22-30): fills the
        first size * spp entries of each 1D array in turn; `ok` is false when
        some array is shorter than that. */
    method FillRows(arrays: seq<seq<Float>>, sizes: seq<nat>, spp: nat) returns (ok: bool, filled: seq<seq<Float>>)
      requires |sizes| == |arrays|
      ensures ok <==> RowsFit(arrays, sizes, spp)
      ensures ok ==> |filled| == |arrays| && RowsFilled(arrays, sizes, spp, filled, getIdxForSample, sampleDimension)
    {
      filled := arrays;
      var i := 0;
      while i < |sizes|
        invariant i <= |sizes| == |filled|
        invariant forall k | 0 <= k < i :: sizes[k] * spp <= |arrays[k]| &&
                    filled[k] == FilledRow(arrays[k], k, sizes[k] * spp, getIdxForSample, sampleDimension)
        invariant filled[i..] == arrays[i..]
      {
        var nSamples := sizes[i] * spp;
        assert filled[i] == filled[i..][0] == arrays[i..][0] == arrays[i];
        var fits, row := FillRow(filled[i], i, nSamples);
        if !fits {
          return false, filled;
        }
        ghost var before := filled;
        filled := filled[i := row];
        assert filled[i + 1..] == before[i + 1..];
        assert before[i + 1..] == before[i..][1..];
        i := i + 1;
      }
      ok := true;
    }

    /** The inner loop of start_pixel (global_sampler.rs:25-29): writes
        entries 0 .. count - 1 of array row i from its reserved dimension;
        `ok` is false when the row is shorter than count, where the write
        past its end panics. */
    method FillRow(row: seq<Float>, i: nat, count: nat) returns (ok: bool, filled: seq<Float>)
      ensures ok <==> count <= |row|
      ensures ok ==> filled == FilledRow(row, i, count, getIdxForSample, sampleDimension)
    {
      filled := row;
      var j := 0;
      while j < count
        invariant j <= count && j <= |filled| == |row|
        invariant filled[j..] == row[j..]
        invariant forall k | 0 <= k < j :: filled[k] == sampleDimension(getIdxForSample(k), ARRAY_START_DIM + i)
      {
        if j >= |filled| {
          return false, filled;
        }
        var idx := getIdxForSample(j);
        filled := filled[j := sampleDimension(idx, ARRAY_START_DIM + i)];
        j := j + 1;
      }
      ok := true;
      var spec := FilledRow(row, i, count, getIdxForSample, sampleDimension);
      forall k | 0 <= k < |row|
        ensures filled[k] == spec[k]
      {
        if k >= count {
          assert filled[k] == filled[count..][k - count];
          assert spec[k] == spec[count..][k - count];
        }
      }
    }

    /** GlobalSampler::get_1d (global_sampler.rs:38-46): the value of the
        dimension at the cursor, which then moves past it, jumping over the
        reserved range when it stands in it. */
    method Get1D() returns (v: Float)
      modifies this`dimension
      ensures v == sampleDimension(intervalSampleIdx, old(dimension))
      ensures dimension == Next1D(old(dimension), arrayEndDim)
    {
      var dim := dimension;
      if dim >= ARRAY_START_DIM && dim < arrayEndDim {
        dimension := arrayEndDim;
      }
      dimension := dimension + 1;
      v := sampleDimension(intervalSampleIdx, dim);
    }

    /** GlobalSampler::get_2d (global_sampler.rs:47-58): the values of the
        cursor's dimension and the next one. */
    method Get2D() returns (v: Vec2)
      modifies this`dimension
      ensures v == Vec2(sampleDimension(intervalSampleIdx, old(dimension)),
                        sampleDimension(intervalSampleIdx, old(dimension) + 1))
      ensures dimension == Next2D(old(dimension), arrayEndDim)
    {
      var dim := dimension;
      if dim + 1 >= ARRAY_START_DIM && dim < arrayEndDim {
        dimension := arrayEndDim;
      }
      dimension := dimension + 2;
      var t1 := sampleDimension(intervalSampleIdx, dim);
      var t2 := sampleDimension(intervalSampleIdx, dim + 1);
      v := Vec2(t1, t2);
    }

    /** Sampler::get_camera_sample (sampler.rs:32-37) over this sampler's
        get_2d: the film position from the cursor's two dimensions, offset
        by the raster position, the lens position from the next two
        sampled. */
    method GetCameraSample(pRaster: Vec2) returns (r: CameraSample)
      modifies this`dimension
      ensures var lensDim := Next2D(old(dimension), arrayEndDim);
              r == CameraSample(Add2(pRaster, Vec2(sampleDimension(intervalSampleIdx, old(dimension)),
                                                   sampleDimension(intervalSampleIdx, old(dimension) + 1))),
                                Vec2(sampleDimension(intervalSampleIdx, lensDim),
                                     sampleDimension(intervalSampleIdx, lensDim + 1))) &&
              dimension == Next2D(lensDim, arrayEndDim)
    {
      var film := Get2D();
      var lens := Get2D();
      r := CameraSample(Add2(pRaster, film), lens);
    }
  }
}
