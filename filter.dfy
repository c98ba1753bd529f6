/** `struct filter`: the separable Gaussian blur. A coefficient array of
    `lin_size` entries is filled around its middle, then a horizontal pass
    writes a scratch image without buffer write, and a vertical pass waits
    for it and writes the result. The Gaussian itself (`expf` over
    `sqrtf(2 pi) sigma`) is the caller's `weight`, applied to the squared
    offset from the middle. */
module Filter {
  import opened Cl
  import Executor

  /** `(lin_size - 1) / 2`, truncating toward zero. */
  function Radius(linSize: int): int
  {
    CDiv(linSize - 1, 2)
  }

  /** The loop writes indices radius - radius .. radius + radius: all inside
      the array, and all of it exactly when the size is odd; for an even
      size only the last entry is left unwritten. */
  lemma RadiusCoverage(linSize: int)
    requires linSize >= 1
    ensures var r := Radius(linSize);
            && 0 <= r && 2 * r < linSize
            && (linSize % 2 == 1 <==> 2 * r + 1 == linSize)
            && (linSize % 2 == 0 <==> 2 * r + 2 == linSize)
  {
  }

  /** The coefficient loop of `gauss`: entry radius + w holds the weight of
      w * w for every w from -radius to radius. */
  method ConvCoefficients(linSize: int, weight: int -> real) returns (radius: int, k: array<real>)
    requires linSize >= 1
    ensures radius == Radius(linSize) && fresh(k) && k.Length == linSize
    ensures 2 * radius < linSize
    ensures forall i :: 0 <= i <= 2 * radius ==> k[i] == weight((i - radius) * (i - radius))
  {
    radius := (linSize - 1) / 2;
    k := new real[linSize];
    var w := -radius;
    while w <= radius
      invariant -radius <= w <= radius + 1
      invariant forall i :: 0 <= i < radius + w ==> k[i] == weight((i - radius) * (i - radius))
    {
      k[radius + w] := weight(w * w);
      w := w + 1;
    }
  }

  /** The entries written are symmetric about the middle: entry
      radius + w equals entry radius - w. */
  lemma CoefficientsSymmetric(radius: int, k: seq<real>, weight: int -> real)
    requires 0 <= radius && 2 * radius < |k|
    requires forall i :: 0 <= i <= 2 * radius ==> k[i] == weight((i - radius) * (i - radius))
    ensures forall i :: 0 <= i <= 2 * radius ==> k[i] == k[2 * radius - i]
  {
    forall i | 0 <= i <= 2 * radius
      ensures k[i] == k[2 * radius - i]
    {
      assert (2 * radius - i - radius) * (2 * radius - i - radius) == (i - radius) * (i - radius);
    }
  }

  /** Slots 6 and 7 that both passes add to the common ones. */
  function ConvArgs(base: map<nat, Arg>, radius: int): map<nat, Arg>
  {
    base[6 := IntArg(radius)][7 := BufferArg(Coefficients)]
  }

  /** `filter::gauss` after the coefficients: the horizontal kernel binds
      the source and the scratch image (`Temp(0)`) with `NO_BUFFER_WRITE`
      and runs without waiting; the vertical kernel binds the scratch image
      and the result with `WRITE_TO_BUFFER` and runs blocking, waiting on
      the horizontal pass. Both grids and the result are the source size.
      Runtime statuses are taken to be successful. */
  method Gauss(e: Executor.Executor, h: Executor.Kernel, v: Executor.Kernel, src: Executor.ImageRef, radius: int)
    returns (result: Executor.ImageRef)
    requires h != v && h.name == "horizontal_conv" && v.name == "vertical_conv"
    modifies e, h, v
    ensures var temp := Executor.ImageRef(Temp(0), src.size);
            && result == Executor.ImageRef(Output, src.size)
            && e.log == old(e.log) + [
                 Dispatch("horizontal_conv", ConvArgs(Executor.Bound(old(h.slots), src, temp, NoBufferWrite, 6), radius),
                          src.size, false, false),
                 Dispatch("vertical_conv", ConvArgs(Executor.Bound(old(v.slots), temp, result, WriteToBuffer, 6), radius),
                          src.size, true, true)]
            && h.slots == ConvArgs(Executor.Bound(old(h.slots), src, temp, NoBufferWrite, 6), radius)
            && v.slots == ConvArgs(Executor.Bound(old(v.slots), temp, result, WriteToBuffer, 6), radius)
  {
    var temp := Executor.ImageRef(Temp(0), src.size);
    var o := e.SetCommonArgs(h, src, temp, NoBufferWrite, [0, 0, 0, 0, 0, 0]);
    var ok := h.SetArg(6, IntArg(radius), 0);
    ok := h.SetArg(7, BufferArg(Coefficients), 0);
    var horizontal := e.RunWithEvent(h, temp.size, false, 0);
    result := Executor.ImageRef(Output, temp.size);
    o := e.SetCommonArgs(v, temp, result, WriteToBuffer, [0, 0, 0, 0, 0, 0]);
    ok := v.SetArg(6, IntArg(radius), 0);
    ok := v.SetArg(7, BufferArg(Coefficients), 0);
    o := e.RunBlocking(v, temp.size, true, 0);
  }

  /** On kernels with no slots bound yet the two passes carry exactly the
      common slots plus radius and coefficients, and the vertical pass
      reads (slot 0) the image the horizontal pass wrote (slot 2). */
  lemma FreshPasses(src: Executor.ImageRef, radius: int)
    ensures var temp := Executor.ImageRef(Temp(0), src.size);
            var first := ConvArgs(Executor.Bound(map[], src, temp, NoBufferWrite, 6), radius);
            var second := ConvArgs(Executor.Bound(map[], temp, Executor.ImageRef(Output, src.size), WriteToBuffer, 6), radius);
            && first.Keys == second.Keys == {0, 1, 2, 3, 4, 5, 6, 7}
            && first[2] == ImageArg(Temp(0)) == second[0]
            && first[5] == ModeArg(NoBufferWrite) && second[5] == ModeArg(WriteToBuffer)
            && first[6] == second[6] == IntArg(radius)
  {
    var temp := Executor.ImageRef(Temp(0), src.size);
    Executor.BoundAllIsCommon(src, temp, NoBufferWrite);
    Executor.BoundAllIsCommon(temp, Executor.ImageRef(Output, src.size), WriteToBuffer);
  }
}
