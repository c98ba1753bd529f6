/** `struct contraster`: three tone adjustments, each one blocking dispatch
    over the source size. `manual` applies a fixed rational gain curve,
    `exclusive_hist` stretches the levels left after clipping a share of the
    histogram at both ends, and `adaptive_hist` equalises per region. */
module Contraster {
  import opened Cl
  import opened Histogram

  /** `all_channels` adjusts the three colour channels together;
      `single_channel` only the first (a luma or value channel the caller
      converted into beforehand). */
  datatype ChannelMode = AllChannels | SingleChannel

  /** Slots 0..2 as this engine's `set_common_args(kern, src, sampler, dst)`
      binds them: source storage, sampler, destination storage. */
  function CommonSlots(sampler: Arg): (m: map<nat, Arg>)
    ensures m.Keys == {0, 1, 2}
  {
    map[0 := ImageArg(Input), 1 := sampler, 2 := ImageArg(Output)]
  }

  // ---------------------------------------------------------------------
  // manual

  /** Numerator and denominator of the gain curve, with c = 255 * contrast. */
  function GainNumerator(contrast: real): real { 259.0 * (255.0 + contrast * 255.0) }
  function GainDenominator(contrast: real): real { 255.0 * (259.0 - contrast * 255.0) }

  /** On the accepted range the denominator is at least 255 * 4. */
  lemma DenominatorPositive(contrast: real)
    requires -1.0 <= contrast <= 1.0
    ensures GainDenominator(contrast) >= 1020.0
  {
  }

  /** The gain `manual` computes for an accepted contrast level. */
  function Gain(contrast: real): (g: real)
    requires -1.0 <= contrast <= 1.0
    ensures g >= 0.0
  {
    DenominatorPositive(contrast);
    GainNumerator(contrast) / GainDenominator(contrast)
  }

  /** Level 0 leaves the image unchanged, level -1 flattens it, and level
      1 multiplies contrast by 129.5. */
  lemma GainFixedPoints()
    ensures Gain(0.0) == 1.0 && Gain(-1.0) == 0.0 && Gain(1.0) == 129.5
  {
    assert GainNumerator(1.0) == 132090.0 && GainDenominator(1.0) == 1020.0;
  }

  /** A higher contrast level never gives a lower gain. */
  lemma GainIncreasing(a: real, b: real)
    requires -1.0 <= a < b <= 1.0
    ensures Gain(a) < Gain(b)
  {
    DenominatorPositive(a);
    DenominatorPositive(b);
    QuotientIncreasing(GainNumerator(a), GainDenominator(a), GainNumerator(b), GainDenominator(b));
  }

  lemma QuotientIncreasing(n1: real, d1: real, n2: real, d2: real)
    requires 0.0 <= n1 < n2 && 0.0 < d2 <= d1
    ensures n1 / d1 < n2 / d2
  {
    assert n1 / d1 <= n1 / d2 by {
      assert n1 / d1 * d1 == n1 && n1 / d2 * d2 == n1;
      MulMonotone(n1 / d1, d2, d1);
    }
    assert n1 / d2 < n2 / d2 by {
      assert n1 / d2 * d2 == n1 && n2 / d2 * d2 == n2;
    }
  }

  lemma MulMonotone(q: real, a: real, b: real)
    requires q >= 0.0 && 0.0 < a <= b
    ensures q * a <= q * b
  {
  }

  /** `contraster::manual`: a level outside [-1, 1] throws before anything is
      allocated; otherwise one blocking `manual` dispatch over the source
      size with the gain in x, y and z for all channels, in x alone for a
      single channel, and 1 in w. */
  function Manual(size: Int2, contrast: real, mode: ChannelMode): (r: Result<Produced>)
    ensures r.Err? <==> contrast < -1.0 || contrast > 1.0
    ensures r.Err? ==> r.msg == "Invalid contrast, expected in range [-1..1]"
    ensures r.Ok? ==> var p := r.value;
            && p.size == size && |p.log| == 1
            && p.log[0].kernel == "manual" && p.log[0].grid == size
            && !p.log[0].waits && p.log[0].blocking
            && p.log[0].args.Keys == {0, 1, 2, 3}
            && p.log[0].args[1] == SamplerArg(AddressNone, Nearest)
            && p.log[0].args[3] == Real4Arg(Gain(contrast),
                 if mode.AllChannels? then Gain(contrast) else 0.0,
                 if mode.AllChannels? then Gain(contrast) else 0.0, 1.0)
  {
    if contrast < -1.0 || contrast > 1.0 then Err("Invalid contrast, expected in range [-1..1]")
    else
      var g := Gain(contrast);
      var v := if mode.AllChannels? then Real4Arg(g, g, g, 1.0) else Real4Arg(g, 0.0, 0.0, 1.0);
      var args := CommonSlots(SamplerArg(AddressNone, Nearest))[3 := v];
      Ok(Produced(size, [Dispatch("manual", args, size, false, true)]))
  }

  // ---------------------------------------------------------------------
  // exclusive_hist

  /** `min_val` after the upward walk: 0 when nothing is excluded, else the
      least m >= 1 whose bins 1..m hold at least `exclude` samples. Bin 0 is
      never counted. */
  predicate IsLowClip(hist: seq<int>, exclude: int, m: int)
    requires |hist| == 256
  {
    && (exclude <= 0 ==> m == 0)
    && (exclude > 0 ==>
          && 1 <= m <= 255 && SumRange(hist, 1, m + 1) >= exclude
          && forall k :: 2 <= k <= m ==> SumRange(hist, 1, k) < exclude)
  }

  /** `max_val` after the downward walk: 255 when nothing is excluded, else
      the greatest M <= 254 whose bins M..254 hold at least `exclude`
      samples. Bin 255 is never counted. */
  predicate IsHighClip(hist: seq<int>, exclude: int, m: int)
    requires |hist| == 256
  {
    && (exclude <= 0 ==> m == 255)
    && (exclude > 0 ==>
          && 0 <= m <= 254 && SumRange(hist, m, 255) >= exclude
          && forall k :: m < k <= 254 ==> SumRange(hist, k, 255) < exclude)
  }

  /** Each walk has one outcome. */
  lemma ClipsUnique(hist: seq<int>, exclude: int, lo1: int, lo2: int, hi1: int, hi2: int)
    requires |hist| == 256
    requires IsLowClip(hist, exclude, lo1) && IsLowClip(hist, exclude, lo2)
    requires IsHighClip(hist, exclude, hi1) && IsHighClip(hist, exclude, hi2)
    ensures lo1 == lo2 && hi1 == hi2
  {
  }

  /** The walks never look at the outermost bins they start from: the count
      of level 0 does not move `min_val`, nor that of level 255 `max_val`. */
  lemma OuterBinsIgnored(hist: seq<int>, exclude: int, m: int, v: int)
    requires |hist| == 256
    ensures IsLowClip(hist, exclude, m) <==> IsLowClip(hist[0 := v], exclude, m)
    ensures IsHighClip(hist, exclude, m) <==> IsHighClip(hist[255 := v], exclude, m)
  {
    var h0, h255 := hist[0 := v], hist[255 := v];
    forall k | 1 <= k <= 256 ensures SumRange(hist, 1, k) == SumRange(h0, 1, k) {
      SumAgrees(hist, h0, 1, k);
    }
    forall k | 0 <= k <= 255 ensures SumRange(hist, k, 255) == SumRange(h255, k, 255) {
      SumAgrees(hist, h255, k, 255);
    }
  }

  /** The number of samples each end excludes: `trunc(mult * w * h *
      exclusive)`, three samples per pixel for all channels, one for a
      single channel. */
  function Exclude(size: Int2, exclusive: real, mode: ChannelMode): int
  {
    var mult := if mode.AllChannels? then 3 else 1;
    Trunc((mult * size.x * size.y) as real * exclusive)
  }

  /** The two walks of `exclusive_hist`, from 0 upwards and from 255
      downwards, each subtracting the bin it has just stepped onto. */
  method ClipLevels(hist: seq<int>, exclude: int) returns (lo: int, hi: int)
    requires Counts(hist)
    requires exclude <= SumRange(hist, 1, 256) && exclude <= SumRange(hist, 0, 255)
    ensures IsLowClip(hist, exclude, lo) && IsHighClip(hist, exclude, hi)
  {
    lo := WalkUp(hist, exclude);
    hi := WalkDown(hist, exclude);
  }

  /** The upward walk: move the low clip up one level, then take that
      level's count off the exclusion, until nothing is left to exclude. */
  method WalkUp(hist: seq<int>, exclude: int) returns (lo: int)
    requires Counts(hist) && exclude <= SumRange(hist, 1, 256)
    ensures IsLowClip(hist, exclude, lo)
  {
    lo := 0;
    var count := exclude;
    while count > 0
      invariant 0 <= lo <= 255
      invariant exclude <= 0 ==> lo == 0
      invariant count == exclude - SumRange(hist, 1, lo + 1)
      invariant forall k :: 2 <= k <= lo ==> SumRange(hist, 1, k) < exclude
      decreases 255 - lo
    {
      LowStep(hist, exclude, lo);
      lo := lo + 1;
      count := count - hist[lo];
    }
  }

  /** The downward walk: move the high clip down one level, then take that
      level's count off the exclusion, until nothing is left to exclude. */
  method WalkDown(hist: seq<int>, exclude: int) returns (hi: int)
    requires Counts(hist) && exclude <= SumRange(hist, 0, 255)
    ensures IsHighClip(hist, exclude, hi)
  {
    hi := 255;
    var count := exclude;
    while count > 0
      invariant 0 <= hi <= 255
      invariant exclude <= 0 ==> hi == 255
      invariant count == exclude - SumRange(hist, hi, 255)
      invariant forall k :: hi < k <= 254 ==> SumRange(hist, k, 255) < exclude
      decreases hi
    {
      HighStep(hist, exclude, hi);
      hi := hi - 1;
      count := count - hist[hi];
    }
  }

  /** A step of the upward walk stays inside the histogram and extends the
      counted range by one bin. */
  lemma LowStep(hist: seq<int>, exclude: int, lo: int)
    requires Counts(hist) && 0 <= lo <= 255 && exclude <= SumRange(hist, 1, 256)
    requires SumRange(hist, 1, lo + 1) < exclude
    ensures lo < 255 && SumRange(hist, 1, lo + 2) == SumRange(hist, 1, lo + 1) + hist[lo + 1]
  {
    SumExtend(hist, 1, lo + 1);
  }

  /** A step of the downward walk stays inside the histogram. */
  lemma HighStep(hist: seq<int>, exclude: int, hi: int)
    requires Counts(hist) && 0 <= hi <= 255 && exclude <= SumRange(hist, 0, 255)
    requires SumRange(hist, hi, 255) < exclude
    ensures hi > 0
  {
  }

  /** What `exclusive_hist` does once the clip levels are known: throw when
      nothing is left between them, otherwise map level `lo` to 0 and `hi`
      to full scale with the offset and span vectors. */
  function Stretch(size: Int2, lo: int, hi: int, mode: ChannelMode): (r: Result<Produced>)
    ensures r.Err? <==> lo >= hi
    ensures r.Err? ==> r.msg == "Too much exclusive"
    ensures r.Ok? ==> var p := r.value;
            && p.size == size && |p.log| == 1
            && p.log[0].kernel == "exclusive_hist" && p.log[0].grid == size
            && !p.log[0].waits && p.log[0].blocking
            && p.log[0].args.Keys == {0, 1, 2, 3, 4}
            && p.log[0].args[1] == SamplerArg(AddressNone, Nearest)
            && p.log[0].args[3].Real4Arg? && p.log[0].args[4].Real4Arg?
            && var off, norm := p.log[0].args[3], p.log[0].args[4];
               && off.x * 255.0 == lo as real && (off.x + norm.x) * 255.0 == hi as real
               && norm.x > 0.0 && off.w == 0.0 && norm.w == 1.0
               && (mode.AllChannels? ==> off.y == off.z == off.x && norm.y == norm.z == norm.x)
               && (mode.SingleChannel? ==> off.y == off.z == 0.0 && norm.y == norm.z == 1.0)
  {
    if lo >= hi then Err("Too much exclusive")
    else
      var off, norm := lo as real / 255.0, (hi - lo) as real / 255.0;
      var offVec := if mode.SingleChannel? then Real4Arg(off, 0.0, 0.0, 0.0) else Real4Arg(off, off, off, 0.0);
      var normVec := if mode.SingleChannel? then Real4Arg(norm, 1.0, 1.0, 1.0) else Real4Arg(norm, norm, norm, 1.0);
      var args := CommonSlots(SamplerArg(AddressNone, Nearest))[3 := offVec][4 := normVec];
      Ok(Produced(size, [Dispatch("exclusive_hist", args, size, false, true)]))
  }

  /** `contraster::exclusive_hist` on the histogram the channel mode selects
      (the aggregate of all three channels, or the first channel). */
  method ExclusiveHist(size: Int2, hist: seq<int>, exclusive: real, mode: ChannelMode)
    returns (r: Result<Produced>)
    requires Counts(hist)
    requires Exclude(size, exclusive, mode) <= SumRange(hist, 1, 256)
    requires Exclude(size, exclusive, mode) <= SumRange(hist, 0, 255)
    ensures forall lo, hi :: IsLowClip(hist, Exclude(size, exclusive, mode), lo) &&
                             IsHighClip(hist, Exclude(size, exclusive, mode), hi) ==>
                               r == Stretch(size, lo, hi, mode)
  {
    var exclude := Exclude(size, exclusive, mode);
    var lo, hi := ClipLevels(hist, exclude);
    r := Stretch(size, lo, hi, mode);
    forall lo', hi' | IsLowClip(hist, exclude, lo') && IsHighClip(hist, exclude, hi')
      ensures r == Stretch(size, lo', hi', mode)
    {
      ClipsUnique(hist, exclude, lo, lo', hi, hi');
    }
  }

  /** With nothing excluded the full range 0..255 is kept: offset 0 and
      span 1 make the stretch the identity. */
  lemma NoExclusionIsIdentity(size: Int2, hist: seq<int>, exclusive: real, mode: ChannelMode)
    requires |hist| == 256 && Exclude(size, exclusive, mode) <= 0
    ensures IsLowClip(hist, Exclude(size, exclusive, mode), 0)
    ensures IsHighClip(hist, Exclude(size, exclusive, mode), 255)
    ensures var r := Stretch(size, 0, 255, mode);
            r.Ok? && r.value.log[0].args[3].x == 0.0 && r.value.log[0].args[4].x == 1.0
  {
  }

  // ---------------------------------------------------------------------
  // adaptive_hist

  /** Grid side as contraster.cpp:75-76 write it: `q + (r == 0) ? 0 : 1`
      parses as `(q + (r == 0)) ? 0 : 1`. */
  function AdaptiveSideAsWritten(n: int, region: int): int
    requires region != 0
  {
    var q := CDiv(n, region) + (if CMod(n, region) == 0 then 1 else 0);
    if q != 0 then 0 else 1
  }

  /** As written a side is 1 exactly when the image is shorter than one
      region, and 0 otherwise: no work is dispatched for any larger image. */
  lemma AdaptiveSideAsWrittenCollapses(n: int, region: int)
    requires n >= 0 && region > 0
    ensures AdaptiveSideAsWritten(n, region) == (if 0 < n < region then 1 else 0)
    ensures AdaptiveSideAsWritten(1024, 8) == 0
  {
    SplitQuotient(n, region, n / region, n % region);
    assert CDiv(1024, 8) == 128 && CMod(1024, 8) == 0;
  }

  /** `AdaptiveSideAsWrittenCollapses` for any non-zero region. */
  lemma SideAsWritten(n: int, region: int)
    requires region != 0
    ensures n >= 0 && region > 0 ==> AdaptiveSideAsWritten(n, region) == if 0 < n < region then 1 else 0
  {
    if n >= 0 && region > 0 { AdaptiveSideAsWrittenCollapses(n, region); }
  }

  /** The quotient of a non-negative n by a positive divisor is zero
      exactly below the divisor. */
  lemma SplitQuotient(n: int, d: int, q: int, m: int)
    requires n >= 0 && d > 0 && n == q * d + m && 0 <= m < d
    ensures q >= 0 && (q == 0 <==> n < d)
  {
    assert q < 0 ==> q * d <= -d;
    assert q >= 1 ==> q * d >= d;
  }

  /** The evident intent: the number of regions of the given side needed to
      cover n pixels, `q + (r == 0 ? 0 : 1)`. */
  function AdaptiveSide(n: int, region: int): int
    requires region != 0
  {
    CDiv(n, region) + (if CMod(n, region) == 0 then 0 else 1)
  }

  /** The corrected side is the least number of regions that covers n. */
  lemma AdaptiveSideCovers(n: int, region: int)
    requires region != 0
    ensures n >= 0 && region > 0 ==>
              var g := AdaptiveSide(n, region);
              g >= 0 && n <= g * region && (g == 0 || (g - 1) * region < n)
  {
    if n >= 0 && region > 0 {
      var q, m := n / region, n % region;
      assert n == q * region + m;
      if m != 0 {
        assert (q + 1) * region == q * region + region;
      }
    }
  }

  /** A region that passes the check with a non-negative exclusion has
      non-zero sides, so the grid divisions are defined. */
  lemma PassingRegionNonEmpty(region: Int2, exclude: int)
    requires exclude >= 0 && 2 * exclude < region.x * region.y
    ensures region.x != 0 && region.y != 0
  {
  }

  /** The one dispatch of `adaptive_hist` over a given grid: the common
      slots with the clamping sampler, then size, region and exclusion. */
  function AdaptiveDispatch(size: Int2, region: Int2, exclude: int, grid: Int2): Produced
  {
    var args := CommonSlots(SamplerArg(ClampToEdge, Nearest))[3 := SizeArg(size)][4 := SizeArg(region)][5 := IntArg(exclude)];
    Produced(size, [Dispatch("adaptive_hist", args, grid, false, true)])
  }

  /** `contraster::adaptive_hist` as written. It throws when twice the
      exclusion reaches the region area, before any lookup. Then `at` looks
      kernel `adaptive_hist` up among the names `registered` for the
      contraster and throws if it is missing (a `std::out_of_range`, not a
      `std::runtime_error`; "unordered_map::at" stands for its `what()`
      text, which the implementation defines). Otherwise one blocking dispatch is made, one
      work item per region side, and that side is 1 for an image shorter
      than one region and 0 for any larger image. */
  function AdaptiveHist(size: Int2, region: Int2, exclude: int, mode: ChannelMode, registered: set<string>)
    : (r: Result<Produced>)
    requires 2 * exclude >= region.x * region.y || (region.x != 0 && region.y != 0)
    ensures r.Err? <==> 2 * exclude >= region.x * region.y || "adaptive_hist" !in registered
    ensures r.Err? ==> r.msg == if 2 * exclude >= region.x * region.y then "To big exclusion for given region"
                                 else "unordered_map::at"
    ensures r.Ok? ==> var p := r.value;
            && p.size == size && |p.log| == 1
            && p.log[0].kernel == "adaptive_hist" && !p.log[0].waits && p.log[0].blocking
            && p.log[0].args.Keys == {0, 1, 2, 3, 4, 5}
            && p.log[0].args[1] == SamplerArg(ClampToEdge, Nearest)
            && p.log[0].args[3] == SizeArg(size) && p.log[0].args[4] == SizeArg(region)
            && p.log[0].args[5] == IntArg(exclude)
            && var g := p.log[0].grid;
               && (size.x >= 0 && region.x > 0 ==> g.x == if 0 < size.x < region.x then 1 else 0)
               && (size.y >= 0 && region.y > 0 ==> g.y == if 0 < size.y < region.y then 1 else 0)
  {
    if 2 * exclude >= region.x * region.y then Err("To big exclusion for given region")
    else if "adaptive_hist" !in registered then Err("unordered_map::at")
    else
      SideAsWritten(size.x, region.x);
      SideAsWritten(size.y, region.y);
      Ok(AdaptiveDispatch(size, region, exclude,
                          Int2(AdaptiveSideAsWritten(size.x, region.x), AdaptiveSideAsWritten(size.y, region.y))))
  }

  /** `contraster::adaptive_hist` as evidently intended: the same checks
      and slots, over a grid of the fewest regions that cover the image. */
  function AdaptiveHistIntended(size: Int2, region: Int2, exclude: int, mode: ChannelMode, registered: set<string>)
    : (r: Result<Produced>)
    requires 2 * exclude >= region.x * region.y || (region.x != 0 && region.y != 0)
    ensures r.Err? <==> 2 * exclude >= region.x * region.y || "adaptive_hist" !in registered
    ensures r.Ok? ==> var p := r.value;
            && p.size == size && |p.log| == 1 && p.log[0].kernel == "adaptive_hist"
            && var g := p.log[0].grid;
               && (size.x >= 0 && region.x > 0 ==>
                     g.x >= 0 && size.x <= g.x * region.x && (g.x == 0 || (g.x - 1) * region.x < size.x))
               && (size.y >= 0 && region.y > 0 ==>
                     g.y >= 0 && size.y <= g.y * region.y && (g.y == 0 || (g.y - 1) * region.y < size.y))
  {
    if 2 * exclude >= region.x * region.y then Err("To big exclusion for given region")
    else if "adaptive_hist" !in registered then Err("unordered_map::at")
    else
      AdaptiveSideCovers(size.x, region.x);
      AdaptiveSideCovers(size.y, region.y);
      Ok(AdaptiveDispatch(size, region, exclude, Int2(AdaptiveSide(size.x, region.x), AdaptiveSide(size.y, region.y))))
  }

  /** The two differ only in the grid: they fail alike, and a success
      binds the same slots. An image at least one region wide gets no work
      items as written, but at least one column of regions as intended. */
  lemma AdaptiveHistGridOnly(size: Int2, region: Int2, exclude: int, mode: ChannelMode, registered: set<string>)
    requires 2 * exclude >= region.x * region.y || (region.x != 0 && region.y != 0)
    ensures var r, q := AdaptiveHist(size, region, exclude, mode, registered),
                        AdaptiveHistIntended(size, region, exclude, mode, registered);
            && r.Err? == q.Err? && (r.Err? ==> r == q)
            && (r.Ok? ==> r.value.size == q.value.size && r.value.log[0].args == q.value.log[0].args)
            && (r.Ok? && region.x > 0 && size.x >= region.x ==> r.value.log[0].grid.x == 0 < q.value.log[0].grid.x)
  {
    var r := AdaptiveHist(size, region, exclude, mode, registered);
    if r.Ok? && region.x > 0 && size.x >= region.x {
      AdaptiveSideCovers(size.x, region.x);
    }
  }
}
