/** `struct im_values`: per-channel statistics of interleaved 3-channel
    bytes. Index 0..2 is a colour channel and index 3 the whole image. The
    mean and the variance are computed once and then served from cache
    until `reset`; the histograms are added to on every call, since their
    cache flag is never set. `normMap` stands for `im_object::norm_map`,
    the table of normalised levels, which is not part of this model. */
module ImValues {
  import opened Cl
  import opened Histogram

  /** The normalised level of sample i. */
  function Level(src: seq<Byte>, normMap: seq<real>, i: nat): real
    requires i < |src| && |normMap| == Bins
  {
    normMap[src[i]]
  }

  /** The sum of the levels of colour c over the first n pixels. */
  function ChannelSum(src: seq<Byte>, normMap: seq<real>, n: nat, c: nat): real
    requires 3 * n <= |src| && |normMap| == Bins && c < 3
  {
    if n == 0 then 0.0 else ChannelSum(src, normMap, n - 1, c) + Level(src, normMap, 3 * (n - 1) + c)
  }

  /** The sum of the levels of the first `col` samples of the pixel at `base`. */
  function PixelSum(src: seq<Byte>, normMap: seq<real>, base: nat, col: nat): real
    requires base + col <= |src| && |normMap| == Bins && col <= 3
  {
    if col == 0 then 0.0 else PixelSum(src, normMap, base, col - 1) + Level(src, normMap, base + col - 1)
  }

  /** The sum of all levels of the first n pixels. */
  function GlobalSum(src: seq<Byte>, normMap: seq<real>, n: nat): real
    requires 3 * n <= |src| && |normMap| == Bins
  {
    if n == 0 then 0.0 else GlobalSum(src, normMap, n - 1) + PixelSum(src, normMap, 3 * (n - 1), 3)
  }

  function Sq(d: real): real { d * d }

  lemma SqNonNegative(d: real)
    ensures Sq(d) >= 0.0
  {
    if d < 0.0 { assert Sq(d) == (-d) * (-d); }
  }

  /** The squared deviations from m of colour c over the first n pixels. */
  function ChannelSq(src: seq<Byte>, normMap: seq<real>, n: nat, c: nat, m: real): real
    requires 3 * n <= |src| && |normMap| == Bins && c < 3
  {
    if n == 0 then 0.0 else ChannelSq(src, normMap, n - 1, c, m) + Sq(Level(src, normMap, 3 * (n - 1) + c) - m)
  }

  function PixelSq(src: seq<Byte>, normMap: seq<real>, base: nat, col: nat, m: real): real
    requires base + col <= |src| && |normMap| == Bins && col <= 3
  {
    if col == 0 then 0.0 else PixelSq(src, normMap, base, col - 1, m) + Sq(Level(src, normMap, base + col - 1) - m)
  }

  /** The squared deviations from m of all samples of the first n pixels. */
  function GlobalSq(src: seq<Byte>, normMap: seq<real>, n: nat, m: real): real
    requires 3 * n <= |src| && |normMap| == Bins
  {
    if n == 0 then 0.0 else GlobalSq(src, normMap, n - 1, m) + PixelSq(src, normMap, 3 * (n - 1), 3, m)
  }

  /** The means of `calc_mean`: channel sums over the pixel count, the whole
      image over three times that. */
  function Means(src: seq<Byte>, normMap: seq<real>, n: nat): seq<real>
    requires 3 * n <= |src| && |normMap| == Bins && n >= 1
  {
    [ChannelSum(src, normMap, n, 0) / n as real, ChannelSum(src, normMap, n, 1) / n as real,
     ChannelSum(src, normMap, n, 2) / n as real, GlobalSum(src, normMap, n) / (3 * n) as real]
  }

  /** The variances of `calc_variance` around the means `m` it finds. */
  function Variances(src: seq<Byte>, normMap: seq<real>, n: nat, m: seq<real>): seq<real>
    requires 3 * n <= |src| && |normMap| == Bins && n >= 1 && |m| == 4
  {
    [ChannelSq(src, normMap, n, 0, m[0]) / n as real, ChannelSq(src, normMap, n, 1, m[1]) / n as real,
     ChannelSq(src, normMap, n, 2, m[2]) / n as real, GlobalSq(src, normMap, n, m[3]) / (3 * n) as real]
  }

  /** A whole pixel's sums, written out. */
  lemma PixelSums(src: seq<Byte>, normMap: seq<real>, base: nat, m: real)
    requires base + 3 <= |src| && |normMap| == Bins
    ensures PixelSum(src, normMap, base, 3)
            == Level(src, normMap, base) + Level(src, normMap, base + 1) + Level(src, normMap, base + 2)
    ensures PixelSq(src, normMap, base, 3, m)
            == Sq(Level(src, normMap, base) - m) + Sq(Level(src, normMap, base + 1) - m) + Sq(Level(src, normMap, base + 2) - m)
  {
    assert PixelSum(src, normMap, base, 1) == Level(src, normMap, base);
    assert PixelSq(src, normMap, base, 1, m) == Sq(Level(src, normMap, base) - m);
  }

  /** The whole-image sum is the sum of the three channel sums. */
  lemma {:induction false} GlobalSumSplits(src: seq<Byte>, normMap: seq<real>, n: nat)
    requires 3 * n <= |src| && |normMap| == Bins
    ensures GlobalSum(src, normMap, n)
            == ChannelSum(src, normMap, n, 0) + ChannelSum(src, normMap, n, 1) + ChannelSum(src, normMap, n, 2)
  {
    if n > 0 {
      GlobalSumSplits(src, normMap, n - 1);
      PixelSums(src, normMap, 3 * (n - 1), 0.0);
    }
  }

  /** So the whole-image mean is the average of the channel means. */
  lemma GlobalMeanIsAverage(src: seq<Byte>, normMap: seq<real>, n: nat)
    requires 3 * n <= |src| && |normMap| == Bins && n >= 1
    ensures var m := Means(src, normMap, n); m[3] == (m[0] + m[1] + m[2]) / 3.0
  {
    GlobalSumSplits(src, normMap, n);
    assert (3 * n) as real == 3.0 * n as real;
    var s0, s1, s2 := ChannelSum(src, normMap, n, 0), ChannelSum(src, normMap, n, 1), ChannelSum(src, normMap, n, 2);
    ThirdOfSum(s0, s1, s2, n as real);
  }

  lemma ThirdOfSum(a: real, b: real, c: real, n: real)
    requires n > 0.0
    ensures (a + b + c) / (3.0 * n) == (a / n + b / n + c / n) / 3.0
  {
  }

  /** Sums of squares never go below zero. */
  lemma {:induction false} SquaresNonNegative(src: seq<Byte>, normMap: seq<real>, n: nat, m: real)
    requires 3 * n <= |src| && |normMap| == Bins
    ensures forall c :: 0 <= c < 3 ==> ChannelSq(src, normMap, n, c, m) >= 0.0
    ensures GlobalSq(src, normMap, n, m) >= 0.0
  {
    if n > 0 {
      SquaresNonNegative(src, normMap, n - 1, m);
      PixelSums(src, normMap, 3 * (n - 1), m);
      SqNonNegative(Level(src, normMap, 3 * (n - 1)) - m);
      SqNonNegative(Level(src, normMap, 3 * (n - 1) + 1) - m);
      SqNonNegative(Level(src, normMap, 3 * (n - 1) + 2) - m);
    }
  }

  /** An image whose every sample is the byte b has all means equal to
      b's level and, around those means, no variance. */
  lemma UniformImage(src: seq<Byte>, normMap: seq<real>, n: nat, b: Byte)
    requires 3 * n <= |src| && |normMap| == Bins && n >= 1
    requires forall i :: 0 <= i < 3 * n ==> src[i] == b
    ensures Means(src, normMap, n) == [normMap[b], normMap[b], normMap[b], normMap[b]]
    ensures Variances(src, normMap, n, Means(src, normMap, n)) == [0.0, 0.0, 0.0, 0.0]
  {
    UniformSums(src, normMap, n, b);
    var k, r := normMap[b], n as real;
    assert ChannelSum(src, normMap, n, 0) == r * k && ChannelSum(src, normMap, n, 1) == r * k;
    assert ChannelSum(src, normMap, n, 2) == r * k && GlobalSum(src, normMap, n) == (3.0 * r) * k;
    MulDiv(r, k);
    MulDiv(3.0 * r, k);
    assert (3 * n) as real == 3.0 * r;
    assert ChannelSum(src, normMap, n, 0) / r == k;
    assert GlobalSum(src, normMap, n) / (3 * n) as real == k;
    assert Means(src, normMap, n) == [k, k, k, k];
    assert Variances(src, normMap, n, [k, k, k, k]) == [0.0 / r, 0.0 / r, 0.0 / r, 0.0 / (3.0 * r)];
  }

  lemma MulDiv(r: real, k: real)
    requires r > 0.0
    ensures (r * k) / r == k
  {
  }

  lemma {:induction false} UniformSums(src: seq<Byte>, normMap: seq<real>, n: nat, b: Byte)
    requires 3 * n <= |src| && |normMap| == Bins
    requires forall i :: 0 <= i < 3 * n ==> src[i] == b
    ensures forall c :: 0 <= c < 3 ==> ChannelSum(src, normMap, n, c) == n as real * normMap[b]
    ensures GlobalSum(src, normMap, n) == 3.0 * n as real * normMap[b]
    ensures forall c :: 0 <= c < 3 ==> ChannelSq(src, normMap, n, c, normMap[b]) == 0.0
    ensures GlobalSq(src, normMap, n, normMap[b]) == 0.0
  {
    if n > 0 {
      UniformSums(src, normMap, n - 1, b);
      PixelSums(src, normMap, 3 * (n - 1), normMap[b]);
      assert src[3 * (n - 1)] == b && src[3 * (n - 1) + 1] == b && src[3 * (n - 1) + 2] == b;
    }
  }

  /** `hist[c][v]` after one sample: the sample's colour bin and its
      aggregate bin gain one. */
  lemma AddSampleAt(h: seq<seq<int>>, c: nat, v: Byte, k: nat, u: nat)
    requires IsTable(h) && c < 3 && k < Rows && u < Bins
    ensures AddSample(h, c, v)[k][u] == h[k][u] + (if k == c && u == v then 1 else 0) + (if k == 3 && u == v then 1 else 0)
  {
  }

  class ImValues {
    const mean: array<real>
    const varSq: array<real>
    const histograms: array2<int>
    var cachedMean: bool
    var cachedVariance: bool
    var cachedHist: bool

    /** Four statistics, four rows of 256 bins, and no mean accumulated
        while the mean is not cached. */
    predicate Valid()
      reads this, mean
    {
      && mean.Length == 4 && varSq.Length == 4 && mean != varSq
      && histograms.Length0 == Rows && histograms.Length1 == Bins
      && (!cachedMean ==> forall c :: 0 <= c < 4 ==> mean[c] == 0.0)
    }

    /** Every statistic and every bin starts at zero, nothing cached. */
    constructor ()
      ensures Valid() && fresh(mean) && fresh(varSq) && fresh(histograms)
      ensures !cachedMean && !cachedVariance && !cachedHist
      ensures forall c :: 0 <= c < 4 ==> mean[c] == 0.0 && varSq[c] == 0.0
      ensures forall c, v :: 0 <= c < Rows && 0 <= v < Bins ==> histograms[c, v] == 0
    {
      mean := new real[4](_ => 0.0);
      varSq := new real[4](_ => 0.0);
      var h := new int[Rows, Bins];
      var channel := 0;
      while channel < 4
        modifies h
        invariant 0 <= channel <= 4
        invariant forall c, v :: 0 <= c < channel && 0 <= v < Bins ==> h[c, v] == 0
      {
        var v := 0;
        while v < 256
          modifies h
          invariant 0 <= v <= 256
          invariant forall c, u :: 0 <= c < channel && 0 <= u < Bins ==> h[c, u] == 0
          invariant forall u :: 0 <= u < v ==> h[channel, u] == 0
        {
          h[channel, v] := 0;
          v := v + 1;
        }
        channel := channel + 1;
      }
      histograms := h;
      cachedMean, cachedVariance, cachedHist := false, false, false;
    }

    /** `calc_mean`: the cached means, or the sums of the normalised levels
        over the pixel count (three times it for the whole image). */
    method CalcMean(source: seq<Byte>, pixels: nat, normMap: seq<real>) returns (m: array<real>)
      requires Valid() && 3 * pixels <= |source| && |normMap| == Bins && pixels >= 1
      modifies this, mean
      ensures Valid() && m == mean && cachedMean
      ensures cachedVariance == old(cachedVariance) && cachedHist == old(cachedHist)
      ensures old(cachedMean) ==> mean[..] == old(mean[..])
      ensures !old(cachedMean) ==> mean[..] == Means(source, normMap, pixels)
    {
      m := mean;
      if cachedMean { return; }
      SumLevels(source, pixels, normMap, mean);
      var col := 0;
      while col < 3
        modifies mean
        invariant 0 <= col <= 3
        invariant forall c :: 0 <= c < 3 ==>
                    mean[c] == if c < col then ChannelSum(source, normMap, pixels, c) / pixels as real
                               else ChannelSum(source, normMap, pixels, c)
        invariant mean[3] == GlobalSum(source, normMap, pixels)
      {
        mean[col] := mean[col] / pixels as real;
        col := col + 1;
      }
      mean[3] := mean[3] / (3 * pixels) as real;
      cachedMean := true;
    }

    /** `calc_variance`: the cached variances, or, with the mean made sure
        of first (cached or fresh), the squared deviations over the pixel
        count (three times it for the whole image). */
    method CalcVariance(source: seq<Byte>, pixels: nat, normMap: seq<real>) returns (v: array<real>)
      requires Valid() && 3 * pixels <= |source| && |normMap| == Bins && pixels >= 1
      modifies this, mean, varSq
      ensures Valid() && v == varSq && cachedVariance && cachedHist == old(cachedHist)
      ensures old(cachedVariance) ==> mean[..] == old(mean[..]) && varSq[..] == old(varSq[..]) && cachedMean == old(cachedMean)
      ensures !old(cachedVariance) ==>
                && cachedMean
                && mean[..] == (if old(cachedMean) then old(mean[..]) else Means(source, normMap, pixels))
                && varSq[..] == Variances(source, normMap, pixels, mean[..])
    {
      v := varSq;
      if cachedVariance { return; }
      var _ := CalcMean(source, pixels, normMap);
      var diffSums := new real[4](_ => 0.0);
      SumSquares(source, pixels, normMap, mean, diffSums);
      var col := 0;
      while col < 3
        modifies varSq
        invariant 0 <= col <= 3
        invariant forall c :: 0 <= c < col ==> varSq[c] == ChannelSq(source, normMap, pixels, c, mean[c]) / pixels as real
      {
        varSq[col] := diffSums[col] / pixels as real;
        col := col + 1;
      }
      varSq[3] := diffSums[3] / (3 * pixels) as real;
      cachedVariance := true;
    }

    /** `calc_historgam`: unless the (never set) flag is up, counts every
        sample into its colour row and row 3, on top of what the bins
        already hold. */
    method CalcHistogram(source: seq<Byte>, pixels: nat) returns (h: array2<int>)
      requires Valid() && 3 * pixels <= |source|
      modifies histograms
      ensures h == histograms && Valid()
      ensures old(cachedHist) ==> forall c, v :: 0 <= c < Rows && 0 <= v < Bins ==> histograms[c, v] == old(histograms[c, v])
      ensures !old(cachedHist) ==> forall c, v :: 0 <= c < Rows && 0 <= v < Bins ==>
                histograms[c, v] == old(histograms[c, v]) + Histograms(source, pixels)[c][v]
    {
      h := histograms;
      if cachedHist { return; }
      var len := 3 * pixels;
      var pix := 0;
      ghost var p: nat := 0;
      while pix < len
        invariant pix == 3 * p && p <= pixels
        invariant forall c, v :: 0 <= c < Rows && 0 <= v < Bins ==>
                    histograms[c, v] == old(histograms[c, v]) + Histograms(source, p)[c][v]
      {
        CountPixel(histograms, source, pix, Histograms(source, p));
        pix := pix + 3;
        p := p + 1;
      }
    }

    /** `reset`: zero statistics and no cached mean or variance; the bins
        are cleared only when their flag is up. */
    method Reset()
      requires Valid()
      modifies this, mean, varSq, histograms
      ensures Valid() && !cachedMean && !cachedVariance && !cachedHist
      ensures forall c :: 0 <= c < 4 ==> mean[c] == 0.0 && varSq[c] == 0.0
      ensures old(cachedHist) ==> forall c, v :: 0 <= c < Rows && 0 <= v < Bins ==> histograms[c, v] == 0
      ensures !old(cachedHist) ==> forall c, v :: 0 <= c < Rows && 0 <= v < Bins ==> histograms[c, v] == old(histograms[c, v])
    {
      var channel := 0;
      while channel < 4
        modifies mean, varSq
        invariant 0 <= channel <= 4
        invariant forall c :: 0 <= c < channel ==> mean[c] == 0.0 && varSq[c] == 0.0
      {
        mean[channel], varSq[channel] := 0.0, 0.0;
        channel := channel + 1;
      }
      cachedMean, cachedVariance := false, false;
      if cachedHist {
        cachedHist := false;
        channel := 0;
        while channel < 4
          modifies histograms
          invariant 0 <= channel <= 4
          invariant forall c, v :: 0 <= c < channel && 0 <= v < Bins ==> histograms[c, v] == 0
        {
          var v := 0;
          while v < 256
            modifies histograms
            invariant 0 <= v <= 256
            invariant forall c, u :: 0 <= c < channel && 0 <= u < Bins ==> histograms[c, u] == 0
            invariant forall u :: 0 <= u < v ==> histograms[channel, u] == 0
          {
            histograms[channel, v] := 0;
            v := v + 1;
          }
          channel := channel + 1;
        }
      }
    }
  }

  /** The accumulation loops of `calc_mean`: into zeroed sums, every
      sample's level into its channel and into the whole image. */
  method SumLevels(source: seq<Byte>, pixels: nat, normMap: seq<real>, acc: array<real>)
    requires 3 * pixels <= |source| && |normMap| == Bins && acc.Length == 4
    requires acc[0] == 0.0 && acc[1] == 0.0 && acc[2] == 0.0 && acc[3] == 0.0
    modifies acc
    ensures forall c :: 0 <= c < 3 ==> acc[c] == ChannelSum(source, normMap, pixels, c)
    ensures acc[3] == GlobalSum(source, normMap, pixels)
  {
    var pix := 0;
    ghost var p: nat := 0;
    while pix < 3 * pixels
      invariant pix == 3 * p && p <= pixels
      invariant acc[0] == ChannelSum(source, normMap, p, 0) && acc[1] == ChannelSum(source, normMap, p, 1)
      invariant acc[2] == ChannelSum(source, normMap, p, 2) && acc[3] == GlobalSum(source, normMap, p)
    {
      PixelLevels(source, normMap, pix, acc);
      pix := pix + 3;
      p := p + 1;
    }
  }

  /** The inner loop of `calc_mean` over the three samples of one pixel. */
  method PixelLevels(source: seq<Byte>, normMap: seq<real>, pix: nat, acc: array<real>)
    requires pix + 3 <= |source| && |normMap| == Bins && acc.Length == 4
    modifies acc
    ensures forall c :: 0 <= c < 3 ==> acc[c] == old(acc[c]) + Level(source, normMap, pix + c)
    ensures acc[3] == old(acc[3]) + PixelSum(source, normMap, pix, 3)
  {
    var col := 0;
    while col < 3
      invariant 0 <= col <= 3
      invariant forall c :: 0 <= c < 3 ==> acc[c] == old(acc[c]) + (if c < col then Level(source, normMap, pix + c) else 0.0)
      invariant acc[3] == old(acc[3]) + PixelSum(source, normMap, pix, col)
    {
      var val := normMap[source[pix + col]];
      acc[col] := acc[col] + val;
      acc[3] := acc[3] + val;
      col := col + 1;
    }
  }

  /** The accumulation loops of `calc_variance`: into zeroed sums, every
      sample's squared deviation from its channel mean and from the
      whole-image mean. */
  method SumSquares(source: seq<Byte>, pixels: nat, normMap: seq<real>, mean: array<real>, acc: array<real>)
    requires 3 * pixels <= |source| && |normMap| == Bins && acc.Length == 4 && mean.Length == 4 && acc != mean
    requires acc[0] == 0.0 && acc[1] == 0.0 && acc[2] == 0.0 && acc[3] == 0.0
    modifies acc
    ensures forall c :: 0 <= c < 3 ==> acc[c] == ChannelSq(source, normMap, pixels, c, mean[c])
    ensures acc[3] == GlobalSq(source, normMap, pixels, mean[3])
  {
    var pix := 0;
    ghost var p: nat := 0;
    while pix < 3 * pixels
      invariant pix == 3 * p && p <= pixels
      invariant acc[0] == ChannelSq(source, normMap, p, 0, mean[0]) && acc[1] == ChannelSq(source, normMap, p, 1, mean[1])
      invariant acc[2] == ChannelSq(source, normMap, p, 2, mean[2]) && acc[3] == GlobalSq(source, normMap, p, mean[3])
    {
      PixelSquares(source, normMap, pix, mean, acc);
      pix := pix + 3;
      p := p + 1;
    }
  }

  method PixelSquares(source: seq<Byte>, normMap: seq<real>, pix: nat, mean: array<real>, acc: array<real>)
    requires pix + 3 <= |source| && |normMap| == Bins && acc.Length == 4 && mean.Length == 4 && acc != mean
    modifies acc
    ensures forall c :: 0 <= c < 3 ==> acc[c] == old(acc[c]) + Sq(Level(source, normMap, pix + c) - mean[c])
    ensures acc[3] == old(acc[3]) + PixelSq(source, normMap, pix, 3, mean[3])
  {
    var col := 0;
    while col < 3
      invariant 0 <= col <= 3
      invariant forall c :: 0 <= c < 3 ==>
                  acc[c] == old(acc[c]) + (if c < col then Sq(Level(source, normMap, pix + c) - mean[c]) else 0.0)
      invariant acc[3] == old(acc[3]) + PixelSq(source, normMap, pix, col, mean[3])
    {
      var val := normMap[source[pix + col]];
      assert val == Level(source, normMap, pix + col);
      var diffCol, diffGlobal := val - mean[col], val - mean[3];
      assert PixelSq(source, normMap, pix, col + 1, mean[3]) == PixelSq(source, normMap, pix, col, mean[3]) + Sq(diffGlobal);
      acc[col] := acc[col] + Sq(diffCol);
      acc[3] := acc[3] + Sq(diffGlobal);
      col := col + 1;
    }
  }

  /** The inner loop of `calc_historgam`: the three samples of the pixel
      at `pix` counted on top of what the bins hold, which is what the
      table t gains from them. */
  method CountPixel(h: array2<int>, source: seq<Byte>, pix: nat, ghost t: seq<seq<int>>)
    requires h.Length0 == Rows && h.Length1 == Bins && pix + 3 <= |source| && IsTable(t)
    modifies h
    ensures forall c, v :: 0 <= c < Rows && 0 <= v < Bins ==>
              h[c, v] == old(h[c, v]) + AddPixel(t, source, pix, 3)[c][v] - t[c][v]
  {
    var col := 0;
    while col < 3
      invariant 0 <= col <= 3
      invariant forall c, v :: 0 <= c < Rows && 0 <= v < Bins ==>
                  h[c, v] == old(h[c, v]) + AddPixel(t, source, pix, col)[c][v] - t[c][v]
    {
      var val := source[pix + col];
      h[col, val] := h[col, val] + 1;
      h[3, val] := h[3, val] + 1;
      forall c, v | 0 <= c < Rows && 0 <= v < Bins
        ensures AddPixel(t, source, pix, col + 1)[c][v]
                == AddPixel(t, source, pix, col)[c][v] + (if c == col && v == val then 1 else 0) + (if c == 3 && v == val then 1 else 0)
      {
        AddSampleAt(AddPixel(t, source, pix, col), col, val, c, v);
      }
      col := col + 1;
    }
  }

  /** Counting the same bytes twice into fresh statistics: the flag stays
      down, so every bin holds twice the histogram of the image, and row 3
      is still the sum of the colour rows. */
  method CountTwice(source: seq<Byte>, pixels: nat) returns (s: ImValues)
    requires 3 * pixels <= |source|
    ensures s.Valid() && !s.cachedHist
    ensures forall c, v :: 0 <= c < Rows && 0 <= v < Bins ==> s.histograms[c, v] == 2 * Histograms(source, pixels)[c][v]
    ensures forall v :: 0 <= v < Bins ==> s.histograms[3, v] == s.histograms[0, v] + s.histograms[1, v] + s.histograms[2, v]
  {
    s := new ImValues();
    var _ := s.CalcHistogram(source, pixels);
    var _ := s.CalcHistogram(source, pixels);
    HistogramsInvariant(source, pixels);
  }
}
