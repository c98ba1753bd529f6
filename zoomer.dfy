/** `struct zoomer`: resizing by a scale factor. A kernel-type name picks
    the interpolation kernel; factors beyond 2 (or below 0.5) are reached by
    a pyramid of passes that each double (or halve) the image, followed by
    one pass with the residual factor. `precise` instead derives integer
    tap counts from the greatest common divisor of old and new sizes. */
module Zoomer {
  import opened Cl
  import Util

  // ---------------------------------------------------------------------
  // Kernel selection

  /** What `params` holds after the name dispatch of `zoomer::run`:
      `KERN_BILINEAR`, `KERN_LANCZOS` with its `LAN_ORDER`, or `KERN_SPLINE`
      with its `POL_INDEX`. */
  datatype ZoomKernel = Bilinear | Lanczos(order: int) | Spline(index: nat)

  const LanczosTypes: seq<string> := ["lan3", "lan4", "lan5"]

  /** In `POL_INDEX` order: `MITCHELL`, `CATMULL`, `ADOBE`, `B_SPLINE`. */
  const SplineTypes: seq<string> := ["mitchell", "catmull", "adobe", "b-spline"]

  /** The program kernel each interpolation runs. */
  function KernelName(z: ZoomKernel): string
  {
    match z
    case Bilinear => "bilinear"
    case Lanczos(_) => "lanczos"
    case Spline(_) => "splines"
  }

  /** The name dispatch of `zoomer::run` for every name other than
      `precise`, which `Run` handles before it. */
  function Select(kernelType: string): (r: Result<ZoomKernel>)
    ensures r.Ok? <==> kernelType == "bilinear" || kernelType in LanczosTypes || kernelType in SplineTypes
    ensures r == Ok(Bilinear) <==> kernelType == "bilinear"
    ensures forall i :: 0 <= i < |LanczosTypes| ==> (kernelType == LanczosTypes[i] <==> r == Ok(Lanczos(i + 1)))
    ensures forall i :: 0 <= i < |SplineTypes| ==> (kernelType == SplineTypes[i] <==> r == Ok(Spline(i)))
    ensures r.Ok? && r.value.Spline? ==> r.value.index < |SplineTypes|
    ensures r.Err? ==> r.msg == "Unknown kernel type " + kernelType
  {
    if kernelType == "bilinear" then Ok(Bilinear)
    else if kernelType == "lan3" then Ok(Lanczos(1))
    else if kernelType == "lan4" then Ok(Lanczos(2))
    else if kernelType == "lan5" then Ok(Lanczos(3))
    else if kernelType == "mitchell" then Ok(Spline(0))
    else if kernelType == "catmull" then Ok(Spline(1))
    else if kernelType == "adobe" then Ok(Spline(2))
    else if kernelType == "b-spline" then Ok(Spline(3))
    else Err("Unknown kernel type " + kernelType)
  }

  /** `precise` is not one of the names the dispatch accepts. */
  lemma PreciseNotSelected()
    ensures Select("precise").Err?
  {
  }

  // ---------------------------------------------------------------------
  // BC-spline coefficients

  /** The two cubic pieces of a Mitchell–Netravali kernel, scaled by 6, as
      coefficient vectors lowest power first: `upper` on |x| < 1 and `lower`
      on 1 <= |x| < 2. */
  datatype SplinePolynom = SplinePolynom(upper: seq<real>, lower: seq<real>)

  /** `zoomer::calc_spline_polynom` as written: the second `lower`
      coefficient reads `-12B - 48 + C`. */
  function CalcSplinePolynom(b: real, c: real): (p: SplinePolynom)
    ensures |p.upper| == 4 && |p.lower| == 4
    ensures Eval(p.upper, 0.0) == 6.0 - 2.0 * b && Eval(p.upper, 1.0) == b
    ensures Eval(p.lower, 1.0) == b + 49.0 * c - 48.0
    ensures Eval(p.lower, 2.0) == 98.0 * c - 96.0
  {
    SplinePolynom([6.0 - 2.0 * b, 0.0, -18.0 + 12.0 * b + 6.0 * c, 12.0 - 9.0 * b - 6.0 * c],
                  [8.0 * b + 24.0 * c, -12.0 * b - 48.0 + c, 6.0 * b + 30.0 * c, -1.0 * b - 6.0 * c])
  }

  /** The BC-spline pieces with the coefficient `-12B - 48C` of the
      Mitchell–Netravali form. */
  function CalcSplinePolynomCorrected(b: real, c: real): (p: SplinePolynom)
    ensures |p.upper| == 4 && |p.lower| == 4
  {
    SplinePolynom([6.0 - 2.0 * b, 0.0, -18.0 + 12.0 * b + 6.0 * c, 12.0 - 9.0 * b - 6.0 * c],
                  [8.0 * b + 24.0 * c, -12.0 * b - 48.0 * c, 6.0 * b + 30.0 * c, -1.0 * b - 6.0 * c])
  }

  /** Value of the cubic with coefficients p at x. */
  function Eval(p: seq<real>, x: real): real
    requires |p| == 4
  {
    p[0] + x * (p[1] + x * (p[2] + x * p[3]))
  }

  /** Its derivative at x. */
  function Slope(p: seq<real>, x: real): real
    requires |p| == 4
  {
    p[1] + x * (2.0 * p[2] + x * 3.0 * p[3])
  }

  /** The corrected pieces join: equal value and slope at |x| = 1, value and
      slope zero at |x| = 2, and the weights at the integers sum to one. */
  lemma CorrectedSplineIsSmooth(b: real, c: real)
    ensures var p := CalcSplinePolynomCorrected(b, c);
            && Eval(p.upper, 1.0) == Eval(p.lower, 1.0) == b
            && Slope(p.upper, 1.0) == Slope(p.lower, 1.0)
            && Eval(p.lower, 2.0) == 0.0 && Slope(p.lower, 2.0) == 0.0
            && Eval(p.upper, 0.0) + 2.0 * Eval(p.lower, 1.0) == 6.0
  {
  }

  /** The (B, C) pairs of `MITCHELL`, `CATMULL`, `ADOBE` and `B_SPLINE`. */
  const SplineParameters: seq<(real, real)> := [(1.0 / 3.0, 1.0 / 3.0), (0.0, 0.5), (0.0, 0.75), (1.0, 0.0)]

  /** The `polynomials` table the constructor fills, one entry per spline
      name, each built by `calc_spline_polynom` as written. */
  function Polynomials(): (t: seq<SplinePolynom>)
    ensures |t| == |SplineParameters| == |SplineTypes|
    ensures forall i :: 0 <= i < |t| ==> |t[i].upper| == 4 && |t[i].lower| == 4
    ensures forall i :: 0 <= i < |t| ==>
              Eval(t[i].upper, 0.0) == 6.0 - 2.0 * SplineParameters[i].0 && Eval(t[i].upper, 1.0) == SplineParameters[i].0
  {
    seq(|SplineParameters|, i requires 0 <= i < |SplineParameters| =>
      CalcSplinePolynom(SplineParameters[i].0, SplineParameters[i].1))
  }

  /** The table the constructor evidently means to fill: the same four
      (B, C) pairs with the corrected coefficient. */
  function PolynomialsIntended(): (t: seq<SplinePolynom>)
    ensures |t| == |SplineParameters| == |SplineTypes|
    ensures forall i :: 0 <= i < |t| ==> |t[i].upper| == 4 && |t[i].lower| == 4
  {
    seq(|SplineParameters|, i requires 0 <= i < |SplineParameters| =>
      CalcSplinePolynomCorrected(SplineParameters[i].0, SplineParameters[i].1))
  }

  /** As built, the entry for none of the four names vanishes at |x| = 2
      or is continuous at |x| = 1: the `lower` piece is off by `98C - 96`
      at 2. */
  lemma PolynomialsAsWrittenDiscontinuous(i: nat)
    requires i < |SplineParameters|
    ensures var p := Polynomials()[i];
            Eval(p.lower, 2.0) != 0.0 && Eval(p.lower, 1.0) != Eval(p.upper, 1.0)
  {
    var (b, c) := SplineParameters[i];
    assert Polynomials()[i] == CalcSplinePolynom(b, c);
  }

  /** Every entry of the intended table is a C1 kernel of support 2 whose
      integer weights sum to one. */
  lemma PolynomialsSmooth(i: nat)
    requires i < |SplineParameters|
    ensures var p := PolynomialsIntended()[i];
            && Eval(p.upper, 1.0) == Eval(p.lower, 1.0) && Slope(p.upper, 1.0) == Slope(p.lower, 1.0)
            && Eval(p.lower, 2.0) == 0.0 && Eval(p.upper, 0.0) + 2.0 * Eval(p.lower, 1.0) == 6.0
  {
    var (b, c) := SplineParameters[i];
    assert PolynomialsIntended()[i] == CalcSplinePolynomCorrected(b, c);
    CorrectedSplineIsSmooth(b, c);
  }

  /** The built and the intended tables agree on every coefficient except
      the linear one of the `lower` piece, and differ there for all four
      names. */
  lemma PolynomialsDifferInOneCoefficient(i: nat)
    requires i < |SplineParameters|
    ensures var p, q := Polynomials()[i], PolynomialsIntended()[i];
            && p.upper == q.upper
            && p.lower[0] == q.lower[0] && p.lower[2] == q.lower[2] && p.lower[3] == q.lower[3]
            && p.lower[1] != q.lower[1]
  {
    var (b, c) := SplineParameters[i];
    assert Polynomials()[i] == CalcSplinePolynom(b, c);
    assert PolynomialsIntended()[i] == CalcSplinePolynomCorrected(b, c);
  }

  // ---------------------------------------------------------------------
  // The pyramid loop

  /** `step_factor`: 2 when upscaling, 0.5 otherwise. */
  function Step(up: bool): real { if up then 2.0 else 0.5 }

  /** The guard of the loop at zoomer.cpp:92. */
  predicate Continues(up: bool, f: real) { (up && f > 2.0) || (!up && f < 0.5) }

  /** The factor as a magnification: f itself when upscaling, 1/f when
      downscaling. In these terms the guard reads g > 2 and every
      `factor /= step_factor` halves g. */
  function Magnitude(up: bool, f: real): real
    requires f > 0.0
  {
    if up then f else 1.0 / f
  }

  /** The factor a magnification g stands for. */
  function FactorOf(up: bool, g: real): real
    requires g > 0.0
  {
    if up then g else 1.0 / g
  }

  /** The loop of zoomer.cpp:92-100 read in terms of the magnification. */
  lemma MagnitudeStep(up: bool, f: real)
    requires f > 0.0
    ensures Magnitude(up, f) > 0.0
    ensures Continues(up, f) <==> Magnitude(up, f) > 2.0
    ensures f / Step(up) > 0.0 && Magnitude(up, f / Step(up)) == Magnitude(up, f) / 2.0
    ensures FactorOf(up, Magnitude(up, f)) == f
  {
    if !up {
      var u := 1.0 / f;
      assert u * f == 1.0;
      assert f < 0.5 ==> u > 2.0;
      assert u > 2.0 ==> f < 0.5;
      assert f / 0.5 == 2.0 * f;
      assert (u / 2.0) * (2.0 * f) == 1.0;
      assert 1.0 / u == f;
    }
  }

  lemma FloorHalf(u: real)
    requires u > 2.0
    ensures 0 <= (u / 2.0).Floor < u.Floor
  {
  }

  /** Both dimensions times s, each truncated by `static_cast<cl_int>`. */
  function Scale(c: Int2, s: real): Int2
  {
    Int2(Trunc(c.x as real * s), Trunc(c.y as real * s))
  }

  /** Both dimensions times the step factor. */
  function ScaleStep(c: Int2, up: bool): Int2
  {
    if up then Scale(c, 2.0) else Scale(c, 0.5)
  }

  /** The sampler of zoomer.cpp:88-90. */
  function Sampler(z: ZoomKernel): Arg
  {
    SamplerArg(ClampToEdge, if z.Bilinear? then Linear else Nearest)
  }

  /** `zoomer::set_args`: source, sampler, destination, the factor as a
      `float2`, then the Lanczos order or the two spline vectors. */
  function ZoomArgs(z: ZoomKernel, src: Mem, dst: Mem, factor: real): map<nat, Arg>
  {
    var common := map[0 := ImageArg(src), 1 := Sampler(z), 2 := ImageArg(dst), 3 := Real2Arg(factor, factor)];
    match z
    case Bilinear => common
    case Lanczos(order) => common[4 := IntArg(order)]
    case Spline(i) => common[4 := BufferArg(Polynomial(i, 0))][5 := BufferArg(Polynomial(i, 1))]
  }

  /** The slots `set_args` binds, per interpolation. */
  lemma ZoomArgsSlots(z: ZoomKernel, src: Mem, dst: Mem, factor: real)
    ensures var m := ZoomArgs(z, src, dst, factor);
            && {0, 1, 2, 3} <= m.Keys
            && m[0] == ImageArg(src) && m[1] == Sampler(z) && m[2] == ImageArg(dst)
            && m[3] == Real2Arg(factor, factor)
            && (z.Bilinear? ==> m.Keys == {0, 1, 2, 3})
            && (z.Lanczos? ==> m.Keys == {0, 1, 2, 3, 4} && m[4] == IntArg(z.order))
            && (z.Spline? ==> && m.Keys == {0, 1, 2, 3, 4, 5}
                              && m[4] == BufferArg(Polynomial(z.index, 0))
                              && m[5] == BufferArg(Polynomial(z.index, 1)))
  {
  }

  /** The image pass j reads: the run's source first, then the previous
      pass's output (`std::swap(src_ptr, dst_ptr)`). */
  function Source(j: nat): Mem
  {
    if j == 0 then Input else Temp(j - 1)
  }

  /** The image pass j of n writes: the j-th intermediate image, or the
      returned image for the last pass. */
  function Target(n: nat, j: nat): Mem
  {
    if j + 1 == n then Output else Temp(j)
  }

  /** Pass j of n as dispatched: `set_args` with the step factor, then
      `run_blocking` over the pass's size without a predecessor event. */
  function ZoomDispatch(z: ZoomKernel, up: bool, n: nat, j: nat, grid: Int2): Dispatch
  {
    Dispatch(KernelName(z), ZoomArgs(z, Source(j), Target(n, j), Step(up)), grid, false, true)
  }

  /** The dispatches of a run whose passes have the given sizes. */
  function ZoomDispatches(z: ZoomKernel, up: bool, grids: seq<Int2>): (log: seq<Dispatch>)
    ensures |log| == |grids|
    ensures forall j :: 0 <= j < |grids| ==> log[j] == ZoomDispatch(z, up, |grids|, j, grids[j])
  {
    seq(|grids|, j requires 0 <= j < |grids| => ZoomDispatch(z, up, |grids|, j, grids[j]))
  }

  /** The size of a zoomed image and the dispatches that produced it. */

  /** The result size and the size of every pass. */
  datatype Plan = Plan(size: Int2, grids: seq<Int2>)

  /** The passes left when the magnification still to apply is g and the
      current size is cur: a step pass while g > 2, then one pass with the
      factor g stands for, whose size is the result's. */
  function Pyramid(up: bool, g: real, cur: Int2): (p: Plan)
    requires g > 0.0
    decreases g.Floor
    ensures |p.grids| >= 1 && p.grids[|p.grids| - 1] == p.size
  {
    if g > 2.0 then
      FloorHalf(g);
      var next := ScaleStep(cur, up);
      var rest := Pyramid(up, g / 2.0, next);
      Plan(rest.size, [next] + rest.grids)
    else
      var size := Scale(cur, FactorOf(up, g));
      Plan(size, [size])
  }

  /** One step pass, then the passes for the halved magnification. */
  lemma PyramidStep(up: bool, g: real, cur: Int2)
    requires g > 2.0
    ensures var q := Pyramid(up, g / 2.0, ScaleStep(cur, up));
            Pyramid(up, g, cur) == Plan(q.size, [ScaleStep(cur, up)] + q.grids)
  {
  }

  /** No step pass is left once g <= 2. */
  lemma PyramidLast(up: bool, g: real, cur: Int2)
    requires 0.0 < g <= 2.0
    ensures Pyramid(up, g, cur) == Plan(Scale(cur, FactorOf(up, g)), [Scale(cur, FactorOf(up, g))])
  {
  }

  /** One iteration of the loop at zoomer.cpp:92-100 consumes the next
      step pass of the plan. */
  lemma LoopStep(up: bool, f: real, cur: Int2, plan: Plan, i: nat)
    requires f > 0.0 && Continues(up, f) && i < |plan.grids|
    requires Pyramid(up, Magnitude(up, f), cur) == Plan(plan.size, plan.grids[i..])
    ensures f / Step(up) > 0.0 && i + 1 < |plan.grids| && plan.grids[i] == Scale(cur, Step(up))
    ensures Pyramid(up, Magnitude(up, f / Step(up)), Scale(cur, Step(up))) == Plan(plan.size, plan.grids[i + 1..])
    ensures 0 <= Magnitude(up, f / Step(up)).Floor < Magnitude(up, f).Floor
  {
    MagnitudeStep(up, f);
    var g := Magnitude(up, f);
    FloorHalf(g);
    PyramidStep(up, g, cur);
    assert Scale(cur, Step(up)) == ScaleStep(cur, up);
    assert plan.grids[i + 1..] == plan.grids[i..][1..];
  }

  /** After the loop the plan has exactly the residual pass left. */
  lemma LoopExit(up: bool, f: real, cur: Int2, plan: Plan, i: nat)
    requires f > 0.0 && !Continues(up, f) && i < |plan.grids|
    requires Pyramid(up, Magnitude(up, f), cur) == Plan(plan.size, plan.grids[i..])
    ensures i + 1 == |plan.grids| && plan.grids[i] == Scale(cur, f) == plan.size
  {
    MagnitudeStep(up, f);
    PyramidLast(up, Magnitude(up, f), cur);
  }

  /** Appending pass i, read from `src` into `dst`, to the first i dispatches. */
  lemma LogStep(z: ZoomKernel, up: bool, grids: seq<Int2>, i: nat, log: seq<Dispatch>, src: Mem, dst: Mem)
    requires i < |grids| && src == Source(i) && dst == Target(|grids|, i)
    requires log == ZoomDispatches(z, up, grids)[..i]
    ensures log + [Dispatch(KernelName(z), ZoomArgs(z, src, dst, Step(up)), grids[i], false, true)]
            == ZoomDispatches(z, up, grids)[..i + 1]
    ensures i + 1 == |grids| ==>
              log + [Dispatch(KernelName(z), ZoomArgs(z, src, dst, Step(up)), grids[i], false, true)]
              == ZoomDispatches(z, up, grids)
  {
    var spec := ZoomDispatches(z, up, grids);
    assert spec[..i + 1] == spec[..i] + [spec[i]];
    assert spec[..|spec|] == spec;
  }

  /** What every pass of one run shares: its kernel, its sampler, the step
      factor in slot 3, and a blocking dispatch without a predecessor. */
  predicate Binds(z: ZoomKernel, up: bool, d: Dispatch)
  {
    && d.kernel == KernelName(z) && {0, 1, 2, 3} <= d.args.Keys
    && d.args[1] == Sampler(z) && d.args[3] == Real2Arg(Step(up), Step(up))
    && !d.waits && d.blocking
  }

  /** Every pass of a run binds the same kernel and sampler and the step
      factor in slot 3, the final residual pass included; each pass reads
      what the previous one wrote, and only the last writes `Output`. */
  lemma EveryPassBindsStep(z: ZoomKernel, up: bool, grids: seq<Int2>)
    requires |grids| >= 1
    ensures var log := ZoomDispatches(z, up, grids);
            && (forall j :: 0 <= j < |log| ==> Binds(z, up, log[j]))
            && log[0].args[0] == ImageArg(Input)
            && (forall j :: 0 <= j < |log| - 1 ==> log[j].args[2] == ImageArg(Temp(j)) == log[j + 1].args[0])
            && log[|log| - 1].args[2] == ImageArg(Output)
  {
    var n := |grids|;
    var log := ZoomDispatches(z, up, grids);
    forall j | 0 <= j < n ensures Binds(z, up, log[j]) {
      ZoomArgsSlots(z, Source(j), Target(n, j), Step(up));
    }
    forall j | 0 <= j < n - 1 ensures log[j].args[2] == ImageArg(Temp(j)) == log[j + 1].args[0] {
      ZoomArgsSlots(z, Source(j), Target(n, j), Step(up));
      ZoomArgsSlots(z, Source(j + 1), Target(n, j + 1), Step(up));
    }
    ZoomArgsSlots(z, Source(0), Target(n, 0), Step(up));
    ZoomArgsSlots(z, Source(n - 1), Target(n, n - 1), Step(up));
  }

  /** g after j halvings. */
  function Halved(g: real, j: nat): (h: real)
    ensures g > 0.0 ==> h > 0.0
  {
    if j == 0 then g else Halved(g, j - 1) / 2.0
  }

  /** The size after j step passes. */
  function Repeat(c: Int2, up: bool, j: nat): Int2
  {
    if j == 0 then c else ScaleStep(Repeat(c, up, j - 1), up)
  }

  lemma {:induction false} HalvedShift(g: real, j: nat)
    ensures Halved(g, j + 1) == Halved(g / 2.0, j)
  {
    if j > 0 { HalvedShift(g, j - 1); }
  }

  lemma {:induction false} RepeatShift(c: Int2, up: bool, j: nat)
    ensures Repeat(c, up, j + 1) == Repeat(ScaleStep(c, up), up, j)
  {
    if j > 0 { RepeatShift(c, up, j - 1); }
  }

  lemma {:induction false} HalvedTimesPower(g: real, j: nat)
    ensures Halved(g, j) * PowReal(j) == g
  {
    if j > 0 {
      HalvedTimesPower(g, j - 1);
      assert Halved(g, j) * PowReal(j) == (Halved(g, j - 1) / 2.0) * (2.0 * PowReal(j - 1));
    }
  }

  /** The number k of step passes is the least one after which the guard
      fails, and the result size is the size after k step passes times the
      factor left then. */
  lemma PyramidSteps(up: bool, g: real, cur: Int2)
    requires g > 0.0
    ensures var p := Pyramid(up, g, cur);
            var k := |p.grids| - 1;
            && (forall j :: 0 <= j < k ==> Halved(g, j) > 2.0)
            && Halved(g, k) <= 2.0
            && p.size == Scale(Repeat(cur, up, k), FactorOf(up, Halved(g, k)))
  {
    PyramidLength(up, g, cur);
    HalvingGuards(g);
    HalvingSize(up, g, cur);
  }

  /** How many times g can be halved while above 2. */
  function Steps(g: real): nat
    requires g > 0.0
    decreases g.Floor
  {
    if g > 2.0 then FloorHalf(g); 1 + Steps(g / 2.0) else 0
  }

  lemma {:induction false} PyramidLength(up: bool, g: real, cur: Int2)
    requires g > 0.0
    decreases g.Floor
    ensures |Pyramid(up, g, cur).grids| == Steps(g) + 1
  {
    if g > 2.0 {
      FloorHalf(g);
      PyramidStep(up, g, cur);
      PyramidLength(up, g / 2.0, ScaleStep(cur, up));
    } else {
      PyramidLast(up, g, cur);
    }
  }

  lemma {:induction false} HalvingGuards(g: real)
    requires g > 0.0
    decreases g.Floor
    ensures (forall j :: 0 <= j < Steps(g) ==> Halved(g, j) > 2.0) && Halved(g, Steps(g)) <= 2.0
  {
    if g > 2.0 {
      FloorHalf(g);
      HalvingGuards(g / 2.0);
      forall j | 0 <= j < Steps(g) ensures Halved(g, j) > 2.0 {
        if j > 0 { HalvedShift(g, j - 1); }
      }
      HalvedShift(g, Steps(g / 2.0));
    }
  }

  lemma {:induction false} HalvingSize(up: bool, g: real, cur: Int2)
    requires g > 0.0
    decreases g.Floor
    ensures Pyramid(up, g, cur).size == Scale(Repeat(cur, up, Steps(g)), FactorOf(up, Halved(g, Steps(g))))
  {
    if g > 2.0 {
      FloorHalf(g);
      var next := ScaleStep(cur, up);
      PyramidStep(up, g, cur);
      HalvingSize(up, g / 2.0, next);
      HalvedShift(g, Steps(g / 2.0));
      RepeatShift(cur, up, Steps(g / 2.0));
    } else {
      PyramidLast(up, g, cur);
    }
  }

  /** Hence k step passes are taken exactly when 2^k < g <= 2^(k+1) (or
      k = 0 and g <= 2): upscaling by f takes the least k with f / 2^k <= 2,
      downscaling the least k with f * 2^k >= 0.5. */
  lemma StepCountBracket(up: bool, g: real, cur: Int2)
    requires g > 0.0
    ensures var k := |Pyramid(up, g, cur).grids| - 1;
            g <= PowReal(k + 1) && (k > 0 ==> PowReal(k) < g)
  {
    var k := |Pyramid(up, g, cur).grids| - 1;
    PyramidSteps(up, g, cur);
    HalvedTimesPower(g, k);
    assert g <= 2.0 * PowReal(k);
    if k > 0 {
      HalvedTimesPower(g, k - 1);
      assert Halved(g, k - 1) > 2.0;
    }
  }

  /** A magnification of at least 1 ends in [1, 2], and one above 1 ends
      above 1. */
  lemma {:induction false} ResidualMagnitude(up: bool, g: real, cur: Int2)
    requires g >= 1.0
    decreases g.Floor
    ensures var k := |Pyramid(up, g, cur).grids| - 1;
            1.0 <= Halved(g, k) <= 2.0 && (g > 1.0 ==> Halved(g, k) > 1.0)
  {
    PyramidSteps(up, g, cur);
    if g > 2.0 {
      FloorHalf(g);
      ResidualMagnitude(up, g / 2.0, ScaleStep(cur, up));
      HalvedShift(g, |Pyramid(up, g / 2.0, ScaleStep(cur, up)).grids| - 1);
    }
  }

  /** On exit the factor left is in [1, 2] when upscaling and in [0.5, 1)
      when downscaling. */
  lemma ResidualInRange(f: real, cur: Int2)
    requires f > 0.0
    ensures var up := f >= 1.0;
            var g := Magnitude(up, f);
            var r := FactorOf(up, Halved(g, |Pyramid(up, g, cur).grids| - 1));
            (up ==> 1.0 <= r <= 2.0) && (!up ==> 0.5 <= r < 1.0)
  {
    var up := f >= 1.0;
    var g := Magnitude(up, f);
    if !up { InverseAboveOne(f); }
    ResidualMagnitude(up, g, cur);
    if !up { InverseRange(Halved(g, |Pyramid(up, g, cur).grids| - 1)); }
  }

  lemma InverseAboveOne(f: real)
    requires 0.0 < f < 1.0
    ensures 1.0 / f > 1.0
  {
    assert (1.0 / f) * f == 1.0;
  }

  lemma InverseRange(u: real)
    requires 1.0 < u <= 2.0
    ensures 0.5 <= 1.0 / u < 1.0
  {
    assert (1.0 / u) * u == 1.0;
  }

  /** `factor /= step_factor` j times. */
  function Iter(up: bool, f: real, j: nat): real
  {
    if j == 0 then f else Iter(up, f, j - 1) / Step(up)
  }

  /** For a factor <= 0 the guard holds after any number of passes, so the
      loop does not end: `Run` demands a positive factor. */
  lemma {:induction false} NonPositiveNeverExits(f: real, j: nat)
    requires f <= 0.0
    ensures Iter(false, f, j) <= 0.0 && Continues(f >= 1.0, Iter(false, f, j))
  {
    if j > 0 { NonPositiveNeverExits(f, j - 1); }
  }

  // ---------------------------------------------------------------------
  // precise

  /** The integer tap counts and the averaging weight of `zoomer::precise`. */
  datatype Taps = Taps(splitOut: Int2, splitIn: Int2, area: real)

  lemma QuotientBounds(a: int, g: int)
    requires 0 < g && 0 <= a
    ensures 0 <= a / g <= a
    ensures g <= a ==> 1 <= a / g
  {
    QuotientOfSplit(a, g, a / g, a % g);
  }

  /** The same bounds for any a = g * q + r with 0 <= r < g. */
  lemma QuotientOfSplit(a: int, g: int, q: int, r: int)
    requires 0 < g && 0 <= a && a == g * q + r && 0 <= r < g
    ensures 0 <= q <= a
    ensures g <= a ==> 1 <= q
  {
    Util.MulBounds(g, q);
    if q >= 1 { MulAtLeastOne(g, q); AtLeastFactor(g, q); }
  }

  lemma AtLeastFactor(g: int, q: int)
    requires g >= 1 && q >= 1
    ensures g * q >= q
  {
  }

  /** `1.0f / n` for a positive tap product. */
  lemma AreaOfProduct(x: int, y: int)
    requires x >= 1 && y >= 1
    ensures x * y >= 1 && 1.0 / (x * y) as real > 0.0
    ensures 1.0 / (x * y) as real * (x * y) as real == 1.0
  {
    MulAtLeastOne(x, y);
  }

  lemma MulAtLeastOne(x: int, y: int)
    requires x >= 1 && y >= 1
    ensures x * y >= 1
  {
  }

  /** zoomer.cpp:141-145 with `euclidean_gcd` as written. When a side
      grows, the gcd as written is the old side itself, so one output tap
      meets `new / old` input taps, truncated; when a side shrinks by a
      whole ratio the taps are that ratio to one, as intended. */
  function PreciseTaps(src: Int2, dst: Int2): (t: Taps)
    requires src.x > 0 && src.y > 0 && dst.x >= 0 && dst.y >= 0
    ensures 1 <= t.splitOut.x <= src.x && 1 <= t.splitOut.y <= src.y
    ensures 0 <= t.splitIn.x <= dst.x && 0 <= t.splitIn.y <= dst.y
    ensures t.area > 0.0 && t.area * (t.splitOut.x * t.splitOut.y) as real == 1.0
  {
    var gw := Util.GcdAsWritten(src.x, dst.x);
    var gh := Util.GcdAsWritten(src.y, dst.y);
    Util.GcdAsWrittenBounds(src.x, dst.x);
    Util.GcdAsWrittenBounds(src.y, dst.y);
    QuotientBounds(src.x, gw); QuotientBounds(src.y, gh);
    QuotientBounds(dst.x, gw); QuotientBounds(dst.y, gh);
    var out := Int2(src.x / gw, src.y / gh);
    AreaOfProduct(out.x, out.y);
    Taps(out, Int2(dst.x / gw, dst.y / gh), 1.0 / (out.x * out.y) as real)
  }

  /** The taps as written on each axis: a side that does not shrink gets
      one output tap and `new / old` input taps, truncated; a side that
      shrinks by a whole ratio gets that ratio to one. */
  lemma PreciseTapsPerAxis(src: Int2, dst: Int2)
    requires src.x > 0 && src.y > 0 && dst.x >= 0 && dst.y >= 0
    ensures WholeRatioTaps(src, dst, PreciseTaps(src, dst).splitOut, PreciseTaps(src, dst).splitIn)
  {
    AxisTaps(src.x, dst.x);
    AxisTaps(src.y, dst.y);
  }

  /** Output taps o and input taps i for a resize from src to dst: one
      output tap per axis that does not shrink, with `new / old` input taps
      truncated, and `old / new` to one on an axis that shrinks by a whole
      ratio. */
  predicate WholeRatioTaps(src: Int2, dst: Int2, o: Int2, i: Int2)
    requires src.x > 0 && src.y > 0
  {
    && (src.x <= dst.x ==> o.x == 1 && i.x == dst.x / src.x)
    && (src.y <= dst.y ==> o.y == 1 && i.y == dst.y / src.y)
    && (0 < dst.x && src.x % dst.x == 0 ==> o.x == src.x / dst.x && i.x == 1)
    && (0 < dst.y && src.y % dst.y == 0 ==> o.y == src.y / dst.y && i.y == 1)
  }

  /** One axis of `PreciseTapsPerAxis`. */
  lemma AxisTaps(a: nat, b: nat)
    requires a > 0
    ensures a <= b ==> a / Util.GcdAsWritten(a, b) == 1 && b / Util.GcdAsWritten(a, b) == b / a
    ensures 0 < b && a % b == 0 ==> a / Util.GcdAsWritten(a, b) == a / b && b / Util.GcdAsWritten(a, b) == 1
  {
    SmallMod(a, b);
  }

  /** Below the divisor, the remainder is the number itself. */
  lemma SmallMod(a: int, b: int)
    ensures 0 < a < b ==> a % b == a && a % b != 0
  {
  }

  /** The same taps with a true greatest common divisor. */
  function PreciseTapsCorrected(src: Int2, dst: Int2): (t: Taps)
    requires src.x > 0 && src.y > 0 && dst.x >= 0 && dst.y >= 0
    ensures t.splitOut.x >= 1 && t.splitOut.y >= 1
    ensures t.area * (t.splitOut.x * t.splitOut.y) as real == 1.0
  {
    Util.GcdDividesBoth(src.x, dst.x);
    Util.GcdDividesBoth(src.y, dst.y);
    var gw := Util.Gcd(src.x, dst.x);
    var gh := Util.Gcd(src.y, dst.y);
    Util.GcdAtMost(src.x, dst.x);
    Util.GcdAtMost(src.y, dst.y);
    QuotientBounds(src.x, gw); QuotientBounds(src.y, gh);
    var out := Int2(src.x / gw, src.y / gh);
    AreaOfProduct(out.x, out.y);
    Taps(out, Int2(dst.x / gw, dst.y / gh), 1.0 / (out.x * out.y) as real)
  }

  /** With a true gcd, splitIn : splitOut is exactly dst : src per axis. */
  lemma PreciseCorrectedRatio(src: Int2, dst: Int2)
    requires src.x > 0 && src.y > 0 && dst.x >= 0 && dst.y >= 0
    ensures var t := PreciseTapsCorrected(src, dst);
            t.splitIn.x * src.x == t.splitOut.x * dst.x && t.splitIn.y * src.y == t.splitOut.y * dst.y
  {
    Util.GcdDividesBoth(src.x, dst.x);
    Util.GcdDividesBoth(src.y, dst.y);
    ExactQuotients(src.x, dst.x, Util.Gcd(src.x, dst.x));
    ExactQuotients(src.y, dst.y, Util.Gcd(src.y, dst.y));
  }

  lemma ExactQuotients(a: int, b: int, g: int)
    requires g > 0 && a % g == 0 && b % g == 0
    ensures (b / g) * a == (a / g) * b
  {
    var p, q := a / g, b / g;
    assert a == g * p && b == g * q;
    calc {
      q * a;
      q * (g * p);
      p * (g * q);
      p * b;
    }
  }

  /** As written, growing 2x2 to 3x3 gives one output and one input tap per
      axis, a 1 : 1 ratio instead of 3 : 2. */
  lemma PreciseTapsAsWrittenRatio()
    ensures var t := PreciseTaps(Int2(2, 2), Int2(3, 3));
            t.splitOut == Int2(1, 1) && t.splitIn == Int2(1, 1) && t.splitIn.x * 2 != t.splitOut.x * 3
    ensures PreciseTapsCorrected(Int2(2, 2), Int2(3, 3)).splitIn == Int2(3, 3)
  {
    assert Util.Gcd(2, 3) == 1;
  }

  /** So the program's 2x2 to 3x3 resize binds one tap each way with
      weight 1, where the intended one binds 2 output and 3 input taps
      with weight 1/4. */
  lemma PreciseAsWrittenSlots()
    ensures var d := Precise(Int2(2, 2), Int2(3, 3)).log[0];
            d.args[3] == SizeArg(Int2(1, 1)) && d.args[4] == SizeArg(Int2(1, 1)) && d.args[5] == RealArg(1.0)
    ensures var d := PreciseIntended(Int2(2, 2), Int2(3, 3)).log[0];
            d.args[3] == SizeArg(Int2(2, 2)) && d.args[4] == SizeArg(Int2(3, 3)) && d.args[5] == RealArg(0.25)
  {
    PreciseTapsAsWrittenRatio();
    assert Util.Gcd(2, 3) == 1;
  }

  /** The one dispatch of `zoomer::precise` for given taps: kernel
      `precise` over the new size, sampling without addressing and with
      nearest filtering, the tap counts in slots 3 and 4 and the averaging
      weight in slot 5. */
  function PreciseDispatch(dst: Int2, t: Taps): (p: Produced)
    ensures p.size == dst && |p.log| == 1 && p.log[0].grid == dst && PreciseSlots(p.log[0])
    ensures SplitOut(p.log[0]) == t.splitOut && SplitIn(p.log[0]) == t.splitIn && Weight(p.log[0]) == t.area
  {
    var args := map[0 := ImageArg(Input), 1 := SamplerArg(AddressNone, Nearest), 2 := ImageArg(Output),
                    3 := SizeArg(t.splitOut), 4 := SizeArg(t.splitIn), 5 := RealArg(t.area)];
    Produced(dst, [Dispatch("precise", args, dst, false, true)])
  }

  /** The shape of a `precise` launch: one blocking launch of that kernel
      with input, a nearest sampler without addressing and output in slots
      0 to 2, two tap counts in slots 3 and 4 and a weight in slot 5. */
  predicate PreciseSlots(d: Dispatch)
  {
    && d.kernel == "precise" && !d.waits && d.blocking
    && d.args.Keys == {0, 1, 2, 3, 4, 5}
    && d.args[0] == ImageArg(Input) && d.args[1] == SamplerArg(AddressNone, Nearest) && d.args[2] == ImageArg(Output)
    && d.args[3].SizeArg? && d.args[4].SizeArg? && d.args[5].RealArg?
  }

  /** The output taps (`split_out`), input taps (`split_in`) and weight
      (`area`) a `precise` launch binds. */
  function SplitOut(d: Dispatch): Int2
    requires PreciseSlots(d)
  {
    d.args[3].size
  }

  function SplitIn(d: Dispatch): Int2
    requires PreciseSlots(d)
  {
    d.args[4].size
  }

  function Weight(d: Dispatch): real
    requires PreciseSlots(d)
  {
    d.args[5].r
  }

  /** `zoomer::precise` as written, with the taps of the gcd as written:
      a growing side gets one output tap and the truncated `new / old`
      input taps, a side shrinking by a whole ratio gets that ratio to
      one. */
  function Precise(src: Int2, dst: Int2): (p: Produced)
    requires src.x > 0 && src.y > 0 && dst.x >= 0 && dst.y >= 0
    ensures p.size == dst && |p.log| == 1 && p.log[0].grid == dst && PreciseSlots(p.log[0])
    ensures var o, i, w := SplitOut(p.log[0]), SplitIn(p.log[0]), Weight(p.log[0]);
            && 1 <= o.x <= src.x && 1 <= o.y <= src.y && 0 <= i.x <= dst.x && 0 <= i.y <= dst.y
            && w * (o.x * o.y) as real == 1.0
            && WholeRatioTaps(src, dst, o, i)
  {
    var t := PreciseTaps(src, dst);
    PreciseTapsPerAxis(src, dst);
    PreciseDispatch(dst, t)
  }

  /** `zoomer::precise` as evidently intended, with a true gcd: the input
      and output tap counts stand in the ratio dst : src on each axis. */
  function PreciseIntended(src: Int2, dst: Int2): (p: Produced)
    requires src.x > 0 && src.y > 0 && dst.x >= 0 && dst.y >= 0
    ensures p.size == dst && |p.log| == 1 && p.log[0].grid == dst && PreciseSlots(p.log[0])
    ensures var o, i, w := SplitOut(p.log[0]), SplitIn(p.log[0]), Weight(p.log[0]);
            && o.x >= 1 && o.y >= 1
            && i.x * src.x == o.x * dst.x && i.y * src.y == o.y * dst.y
            && w * (o.x * o.y) as real == 1.0
  {
    var t := PreciseTapsCorrected(src, dst);
    PreciseCorrectedRatio(src, dst);
    PreciseDispatch(dst, t)
  }

  /** One axis of a whole-ratio resize: the gcd as written is the true
      one. */
  lemma GcdAgreesOnWholeRatio(a: nat, b: nat)
    requires a > 0 && (b % a == 0 || (0 < b && a % b == 0))
    ensures Util.GcdAsWritten(a, b) == Util.Gcd(a, b)
  {
    SmallMod(a, b);
    SmallMod(b, a);
    if b == 0 {
    } else if a < b {
      assert Util.Gcd(a, b) == Util.Gcd(b, a);
      assert Util.Gcd(b, a) == Util.Gcd(a, b % a);
    } else if a == b {
      assert Util.Gcd(a, b) == Util.Gcd(b, a % b);
    } else {
      assert Util.Gcd(a, b) == Util.Gcd(b, a % b);
    }
  }

  /** When each side grows or shrinks by a whole ratio, the program's
      precise resize is the intended one. */
  lemma PreciseAgreesOnWholeRatios(src: Int2, dst: Int2)
    requires src.x > 0 && src.y > 0 && dst.x >= 0 && dst.y >= 0
    requires dst.x % src.x == 0 || (0 < dst.x && src.x % dst.x == 0)
    requires dst.y % src.y == 0 || (0 < dst.y && src.y % dst.y == 0)
    ensures Precise(src, dst) == PreciseIntended(src, dst)
  {
    GcdAgreesOnWholeRatio(src.x, dst.x);
    GcdAgreesOnWholeRatio(src.y, dst.y);
    assert PreciseTaps(src, dst) == PreciseTapsCorrected(src, dst);
  }

  // ---------------------------------------------------------------------
  // run

  /** `zoomer::run` on a source of size srcSize. */
  method Run(kernelType: string, factor: real, srcSize: Int2) returns (r: Result<Produced>)
    requires srcSize.x > 0 && srcSize.y > 0
    requires factor > 0.0 || (kernelType == "precise" && factor >= 0.0) || (kernelType != "precise" && Select(kernelType).Err?)
    ensures kernelType == "precise" ==> r == Ok(Precise(srcSize, Scale(srcSize, factor)))
    ensures kernelType != "precise" && Select(kernelType).Err? ==> r == Err(Select(kernelType).msg)
    ensures kernelType != "precise" && Select(kernelType).Ok? ==>
              var plan := Pyramid(factor >= 1.0, Magnitude(factor >= 1.0, factor), srcSize);
              r == Ok(Produced(plan.size, ZoomDispatches(Select(kernelType).value, factor >= 1.0, plan.grids)))
  {
    if kernelType == "precise" {
      var newSize := Scale(srcSize, factor);
      TruncBounds(srcSize.x as real * factor);
      TruncBounds(srcSize.y as real * factor);
      return Ok(Precise(srcSize, newSize));
    }
    var sel := Select(kernelType);
    if sel.Err? {
      return Err(sel.msg);
    }
    var zoomed := RunPyramid(sel.value, factor, srcSize);
    r := Ok(zoomed);
  }

  /** zoomer.cpp:79-107, after the name dispatch: the step passes while
      the guard holds, then the residual pass into the returned image. */
  method RunPyramid(z: ZoomKernel, factor: real, srcSize: Int2) returns (result: Produced)
    requires factor > 0.0
    ensures var plan := Pyramid(factor >= 1.0, Magnitude(factor >= 1.0, factor), srcSize);
            result == Produced(plan.size, ZoomDispatches(z, factor >= 1.0, plan.grids))
  {
    var upscale := factor >= 1.0;
    var step := if upscale then 2.0 else 0.5;
    var cur := srcSize;
    var srcPtr := Input;
    var f := factor;
    var i := 0;
    var log: seq<Dispatch> := [];
    ghost var whole := Pyramid(upscale, Magnitude(upscale, factor), srcSize);
    ghost var n := |whole.grids|;
    while (upscale && f > 2.0) || (!upscale && f < 0.5)
      invariant f > 0.0 && step == Step(upscale)
      invariant 0 <= i < n
      invariant Pyramid(upscale, Magnitude(upscale, f), cur) == Plan(whole.size, whole.grids[i..])
      invariant srcPtr == Source(i)
      invariant log == ZoomDispatches(z, upscale, whole.grids)[..i]
      decreases Magnitude(upscale, f).Floor
    {
      LoopStep(upscale, f, cur, whole, i);
      cur := Scale(cur, step);
      var dst := Temp(i);
      LogStep(z, upscale, whole.grids, i, log, srcPtr, dst);
      log := log + [Dispatch(KernelName(z), ZoomArgs(z, srcPtr, dst, step), cur, false, true)];
      srcPtr := dst;
      f := f / step;
      i := i + 1;
    }
    LoopExit(upscale, f, cur, whole, i);
    cur := Scale(cur, f);
    LogStep(z, upscale, whole.grids, i, log, srcPtr, Output);
    log := log + [Dispatch(KernelName(z), ZoomArgs(z, srcPtr, Output, step), cur, false, true)];
    result := Produced(cur, log);
  }
}
