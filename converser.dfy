/** `struct converser`: colour-space conversion of a linear sRGB image. A
    name selects one kernel per direction (sRGB to the space, or back); the
    YCbCr variants share one kernel pair and differ only in the luma
    coefficients bound to slots 6..8. Converting between two non-sRGB
    spaces goes through sRGB. */
module Converser {
  import opened Cl
  import Executor

  /** `HSx_CONVERTER`, `YCBCR_CONVERTER` with its (Kr, Kg, Kb), and
      `CIE_CONVERTER`. */
  datatype Family = HSx | YCbCr(kr: real, kg: real, kb: real) | Cie

  /** The names both directions accept. */
  const Spaces: set<string> := {"hsv", "hsl", "ycc709", "ycc601", "ycc2020", "ciexyz"}

  /** The part of a kernel name that names the space: the three YCbCr
      names share "ycbcr". */
  function KernelSpace(cs: string): string
  {
    if cs in {"ycc709", "ycc601", "ycc2020"} then "ycbcr" else cs
  }

  /** The if/else chain of `from_srgb`: kernel `srgb_to_<space>`. */
  function FromSrgb(cs: string): (r: Result<(string, Family)>)
    ensures r.Ok? <==> cs in Spaces
    ensures r.Ok? ==> r.value.0 == "srgb_to_" + KernelSpace(cs)
    ensures r.Ok? ==> (r.value.1.YCbCr? <==> KernelSpace(cs) == "ycbcr")
    ensures r.Err? ==> r.msg == "Unknown colour space " + cs
  {
    if cs == "hsv" then Ok(("srgb_to_hsv", HSx))
    else if cs == "hsl" then Ok(("srgb_to_hsl", HSx))
    else if cs == "ycc709" then Ok(("srgb_to_ycbcr", YCbCr(0.2126, 0.7152, 0.0722)))
    else if cs == "ycc601" then Ok(("srgb_to_ycbcr", YCbCr(0.299, 0.587, 0.114)))
    else if cs == "ycc2020" then Ok(("srgb_to_ycbcr", YCbCr(0.2627, 0.678, 0.0593)))
    else if cs == "ciexyz" then Ok(("srgb_to_ciexyz", Cie))
    else Err("Unknown colour space " + cs)
  }

  /** The if/else chain of `to_srgb`: kernel `<space>_to_srgb`. */
  function ToSrgb(cs: string): (r: Result<(string, Family)>)
    ensures r.Ok? <==> cs in Spaces
    ensures r.Ok? ==> r.value.0 == KernelSpace(cs) + "_to_srgb"
    ensures r.Ok? ==> (r.value.1.YCbCr? <==> KernelSpace(cs) == "ycbcr")
    ensures r.Err? ==> r.msg == "Unknown colour space " + cs
  {
    if cs == "hsv" then Ok(("hsv_to_srgb", HSx))
    else if cs == "hsl" then Ok(("hsl_to_srgb", HSx))
    else if cs == "ycc709" then Ok(("ycbcr_to_srgb", YCbCr(0.2126, 0.7152, 0.0722)))
    else if cs == "ycc601" then Ok(("ycbcr_to_srgb", YCbCr(0.299, 0.587, 0.114)))
    else if cs == "ycc2020" then Ok(("ycbcr_to_srgb", YCbCr(0.2627, 0.678, 0.0593)))
    else if cs == "ciexyz" then Ok(("ciexyz_to_srgb", Cie))
    else Err("Unknown colour space " + cs)
  }

  /** The two chains are mirror images: for every accepted name they pick
      the same family and coefficients, and kernels `srgb_to_X` and
      `X_to_srgb` for one and the same X. */
  lemma DirectionsMirror(cs: string)
    requires cs in Spaces
    ensures FromSrgb(cs).Ok? && ToSrgb(cs).Ok?
    ensures FromSrgb(cs).value.1 == ToSrgb(cs).value.1
    ensures exists x :: FromSrgb(cs).value.0 == "srgb_to_" + x && ToSrgb(cs).value.0 == x + "_to_srgb"
  {
    var x := if cs == "ycc709" || cs == "ycc601" || cs == "ycc2020" then "ycbcr" else cs;
    assert FromSrgb(cs).value.0 == "srgb_to_" + x && ToSrgb(cs).value.0 == x + "_to_srgb";
  }

  /** Each YCbCr name carries the luma coefficients of its standard
      (ITU-R BT.709, BT.601 and BT.2020), and each triple sums to one, so
      a grey pixel keeps its level as luma. */
  lemma LumaCoefficients(cs: string)
    requires FromSrgb(cs).Ok? && FromSrgb(cs).value.1.YCbCr?
    ensures var f := FromSrgb(cs).value.1;
            && f.kr + f.kg + f.kb == 1.0
            && f.kr > 0.0 && f.kg > 0.0 && f.kb > 0.0
            && (cs == "ycc709" ==> (f.kr, f.kg, f.kb) == (0.2126, 0.7152, 0.0722))
            && (cs == "ycc601" ==> (f.kr, f.kg, f.kb) == (0.299, 0.587, 0.114))
            && (cs == "ycc2020" ==> (f.kr, f.kg, f.kb) == (0.2627, 0.678, 0.0593))
    ensures cs in {"ycc709", "ycc601", "ycc2020"}
  {
  }

  /** One conversion (`from_srgb` or `to_srgb`): a destination of the
      source's size, the six common slots, the three luma slots for a
      YCbCr family only, and one blocking dispatch over the source size. */
  function Step(sel: (string, Family), src: Executor.ImageRef, dst: Mem, mode: Cl.WriteMode): (d: Dispatch)
    ensures d.kernel == sel.0 && d.grid == src.size && !d.waits && d.blocking
    ensures d.args.Keys == if sel.1.YCbCr? then {0, 1, 2, 3, 4, 5, 6, 7, 8} else {0, 1, 2, 3, 4, 5}
    ensures forall i :: 0 <= i < Executor.CommonSlots ==>
              d.args[i] == Executor.CommonArg(src, Executor.ImageRef(dst, src.size), mode, i)
    ensures sel.1.YCbCr? ==>
              d.args[6] == RealArg(sel.1.kr) && d.args[7] == RealArg(sel.1.kg) && d.args[8] == RealArg(sel.1.kb)
  {
    var common := Executor.CommonArgs(src, Executor.ImageRef(dst, src.size), mode);
    var args := match sel.1
      case YCbCr(kr, kg, kb) => common[6 := RealArg(kr)][7 := RealArg(kg)][8 := RealArg(kb)]
      case _ => common;
    Dispatch(sel.0, args, src.size, false, true)
  }

  /** `converser::run`: from sRGB is one `from_srgb`, to sRGB one `to_srgb`,
      and anything else `to_srgb` into a scratch image (written with the
      default buffer mode) followed by `from_srgb` into the result. A name
      the first hop rejects throws before anything is dispatched. */
  function Run(fromCs: string, toCs: string, size: Int2, mode: Cl.WriteMode): (r: Result<Produced>)
    ensures fromCs == "srgb" ==> (r.Ok? <==> toCs in Spaces)
    ensures fromCs != "srgb" && toCs == "srgb" ==> (r.Ok? <==> fromCs in Spaces)
    ensures fromCs != "srgb" && toCs != "srgb" ==> (r.Ok? <==> fromCs in Spaces && toCs in Spaces)
    ensures r.Err? ==> r.msg == "Unknown colour space " + (if fromCs == "srgb" || fromCs in Spaces then toCs else fromCs)
    ensures r.Ok? ==> && r.value.size == size
                      && |r.value.log| == (if fromCs == "srgb" || toCs == "srgb" then 1 else 2)
                      && (forall d :: d in r.value.log ==> d.grid == size)
    ensures r.Ok? && |r.value.log| == 2 ==>
              && r.value.log[0].kernel == ToSrgb(fromCs).value.0
              && r.value.log[1].kernel == FromSrgb(toCs).value.0
              && 2 in r.value.log[0].args && 0 in r.value.log[1].args
              && r.value.log[0].args[2] == ImageArg(Temp(0)) == r.value.log[1].args[0]
  {
    var src := Executor.ImageRef(Input, size);
    if fromCs == "srgb" then
      match FromSrgb(toCs)
      case Err(m) => Err(m)
      case Ok(sel) => Ok(Produced(size, [Step(sel, src, Output, mode)]))
    else if toCs == "srgb" then
      match ToSrgb(fromCs)
      case Err(m) => Err(m)
      case Ok(sel) => Ok(Produced(size, [Step(sel, src, Output, mode)]))
    else
      match ToSrgb(fromCs)
      case Err(m) => Err(m)
      case Ok(back) =>
        match FromSrgb(toCs)
        case Err(m) => Err(m)
        case Ok(sel) =>
          var first := Step(back, src, Temp(0), WriteToBuffer);
          var second := Step(sel, Executor.ImageRef(Temp(0), size), Output, mode);
          Ok(Produced(size, [first, second]))
  }

  /** sRGB to sRGB is not a conversion: it throws for the name "srgb". */
  lemma SrgbToSrgbRejected(size: Int2, mode: Cl.WriteMode)
    ensures Run("srgb", "srgb", size, mode) == Err("Unknown colour space srgb")
  {
  }

  /** Converting into a space and back out dispatches the inverse kernels
      with the same coefficients. */
  lemma RoundTripUsesInverse(cs: string, size: Int2, mode: Cl.WriteMode)
    requires cs in Spaces
    ensures var there, back := Run("srgb", cs, size, mode), Run(cs, "srgb", size, mode);
            && there.Ok? && back.Ok?
            && |there.value.log| == |back.value.log| == 1
            && (exists x :: there.value.log[0].kernel == "srgb_to_" + x && back.value.log[0].kernel == x + "_to_srgb")
            && there.value.log[0].args.Keys == back.value.log[0].args.Keys
            && (forall i :: 6 <= i <= 8 && i in there.value.log[0].args ==>
                  there.value.log[0].args[i] == back.value.log[0].args[i])
  {
    DirectionsMirror(cs);
  }
}
