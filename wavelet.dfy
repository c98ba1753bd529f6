/** `wavelet::run`: Haar denoising. The source is padded to power-of-two
    sides, transformed by horizontal then vertical forward passes,
    soft-thresholded, transformed back by vertical then horizontal inverse
    passes, and cropped to its own size. Two scratch images, `Temp(0)` and
    `Temp(1)`, alternate as source and destination: each pass writes the
    destination, copies it back over the source, and swaps the two. */
module Wavelet {
  import opened Cl

  /** `WAVELET_FORWARD` and `WAVELET_INVERSE`. */
  const ForwardDirection: int := 0
  const InverseDirection: int := 1

  /** What the run puts on the queue: a kernel dispatch, or an image copy
      of `region` from the origin of one image to the origin of another. */
  datatype Op = Enqueue(d: Dispatch) | Copy(from: Mem, to: Mem, region: Int2)

  /** The result image's size, the padded working size and the queue. */
  datatype Transform = Transform(size: Int2, ext: Int2, ops: seq<Op>)

  // ---------------------------------------------------------------------
  // padding

  predicate IsPow2(e: int)
    decreases if e > 0 then e else 0
  {
    e == 1 || (e > 1 && e % 2 == 0 && IsPow2(e / 2))
  }

  /** e is the least power of two that is at least n. */
  predicate IsPadding(e: int, n: int)
  {
    IsPow2(e) && n <= e && (e == 1 || e / 2 < n)
  }

  /** The padding loop: start from 1 and double while the padded side is
      still below the image side. */
  method Pad(n: int) returns (e: int)
    ensures IsPadding(e, n)
  {
    e := 1;
    while e < n
      invariant IsPow2(e) && (e == 1 || e / 2 < n)
      decreases n - e
    {
      e := e * 2;
    }
  }

  function Log2(e: int): nat
    requires IsPow2(e)
    decreases if e > 0 then e else 0
  {
    if e == 1 then 0 else 1 + Log2(e / 2)
  }

  lemma {:induction false} Log2Inverse(e: int)
    requires IsPow2(e)
    ensures Pow2(Log2(e)) == e
    decreases if e > 0 then e else 0
  {
    if e != 1 { Log2Inverse(e / 2); }
  }

  lemma {:induction false} Pow2IsPow2(k: nat)
    ensures IsPow2(Pow2(k)) && Log2(Pow2(k)) == k
  {
    if k > 0 {
      Pow2IsPow2(k - 1);
      assert Pow2(k) / 2 == Pow2(k - 1);
    }
  }

  lemma {:induction false} Pow2Below(j: nat, k: nat)
    requires j < k
    ensures 2 * Pow2(j) <= Pow2(k)
  {
    if j + 1 < k { Pow2Below(j, k - 1); }
  }

  /** Doubling a power of two below another stays within it. */
  lemma DoubleBelow(c: int, e: int)
    requires IsPow2(c) && IsPow2(e) && c < e
    ensures IsPow2(2 * c) && 2 * c <= e
  {
    Log2Inverse(c);
    Log2Inverse(e);
    if Log2(e) <= Log2(c) {
      Pow2Mono(Log2(e), Log2(c));
    }
    Pow2Below(Log2(c), Log2(e));
    assert (2 * c) / 2 == c;
  }

  lemma {:induction false} Pow2Mono(j: nat, k: nat)
    requires j <= k
    ensures Pow2(j) <= Pow2(k)
  {
    if j < k { Pow2Below(j, k); }
  }

  /** The padded size of a dimension is determined by the dimension. */
  lemma PaddingUnique(e1: int, e2: int, n: int)
    requires IsPadding(e1, n) && IsPadding(e2, n)
    ensures e1 == e2
  {
    Log2Inverse(e1);
    Log2Inverse(e2);
    Pow2Order(Log2(e1), Log2(e2));
    Pow2Order(Log2(e2), Log2(e1));
  }

  lemma Pow2Order(j: nat, k: nat)
    ensures j < k ==> 2 * Pow2(j) <= Pow2(k)
  {
    if j < k { Pow2Below(j, k); }
  }

  // ---------------------------------------------------------------------
  // pass sizes

  /** The sizes the forward loops visit: halving while positive, starting
      from c (already halved once). */
  function HalvingSizes(c: int): seq<int>
    decreases if c > 0 then c else 0
  {
    if c <= 0 then [] else [c] + HalvingSizes(c / 2)
  }

  /** The sizes the inverse loops visit: doubling from 1 while below the
      limit. */
  function DoublingSizes(c: int, limit: int): seq<int>
    requires c >= 1
    decreases limit - c
  {
    if c >= limit then [] else [c] + DoublingSizes(2 * c, limit)
  }

  function Reverse(s: seq<int>): seq<int>
  {
    if |s| == 0 then [] else Reverse(s[1..]) + [s[0]]
  }

  lemma {:induction false} DoublingSplit(j: nat, k: nat)
    requires j <= k
    ensures DoublingSizes(Pow2(j), Pow2(k + 1)) == DoublingSizes(Pow2(j), Pow2(k)) + [Pow2(k)]
    decreases k - j
  {
    if j < k {
      Pow2Below(j, k);
      DoublingSplit(j + 1, k);
    }
  }

  /** The inverse loops visit the forward sizes in reverse order, and there
      are log2(e) of them. */
  lemma {:induction false} InverseMirrorsForward(k: nat)
    ensures DoublingSizes(1, Pow2(k)) == Reverse(HalvingSizes(Pow2(k) / 2))
    ensures |HalvingSizes(Pow2(k) / 2)| == k
  {
    if k > 0 {
      InverseMirrorsForward(k - 1);
      assert Pow2(k) / 2 == Pow2(k - 1);
      assert HalvingSizes(Pow2(k - 1)) == [Pow2(k - 1)] + HalvingSizes(Pow2(k - 1) / 2);
      DoublingSplit(0, k - 1);
    }
  }

  lemma {:induction false} ReverseLength(s: seq<int>)
    ensures |Reverse(s)| == |s|
  {
    if |s| > 0 { ReverseLength(s[1..]); }
  }

  /** A power-of-two side e gives log2(e) passes forward and log2(e) back. */
  lemma PassCounts(e: int)
    requires IsPow2(e)
    ensures |HalvingSizes(e / 2)| == Log2(e) && |DoublingSizes(1, e)| == Log2(e)
    ensures DoublingSizes(1, e) == Reverse(HalvingSizes(e / 2))
  {
    Log2Inverse(e);
    InverseMirrorsForward(Log2(e));
    ReverseLength(HalvingSizes(e / 2));
  }

  lemma {:induction false} HalvingAt(k: nat, j: nat)
    requires j < k
    ensures |HalvingSizes(Pow2(k) / 2)| == k && HalvingSizes(Pow2(k) / 2)[j] == Pow2(k - 1 - j)
  {
    assert Pow2(k) / 2 == Pow2(k - 1);
    InverseMirrorsForward(k);
    if j > 0 {
      HalvingAt(k - 1, j - 1);
    }
  }

  lemma {:induction false} DoublingAt(i: nat, k: nat, j: nat)
    requires i <= k
    ensures |DoublingSizes(Pow2(i), Pow2(k))| == k - i
    ensures j < k - i ==> DoublingSizes(Pow2(i), Pow2(k))[j] == Pow2(i + j)
    decreases k - i
  {
    if i < k {
      Pow2Below(i, k);
      if j > 0 { DoublingAt(i + 1, k, j - 1); } else { DoublingAt(i + 1, k, 0); }
    }
  }

  /** Pass j of a forward loop over a side e = 2^k has size e / 2^(j+1);
      pass j of the inverse loop has size 2^j, the size of forward pass
      k - 1 - j. */
  lemma PassSizes(e: int, j: nat)
    requires IsPow2(e) && j < Log2(e)
    ensures var k := Log2(e);
            && |HalvingSizes(e / 2)| == k && |DoublingSizes(1, e)| == k
            && HalvingSizes(e / 2)[j] * Pow2(j + 1) == e
            && DoublingSizes(1, e)[j] == Pow2(j)
            && DoublingSizes(1, e)[j] == HalvingSizes(e / 2)[k - 1 - j]
  {
    var k := Log2(e);
    Log2Inverse(e);
    HalvingAt(k, j);
    HalvingAt(k, k - 1 - j);
    DoublingAt(0, k, j);
    Pow2Product(k - 1 - j, j + 1);
  }

  lemma {:induction false} Pow2Product(i: nat, j: nat)
    ensures Pow2(i) * Pow2(j) == Pow2(i + j)
  {
    if j > 0 {
      Pow2Product(i, j - 1);
      assert Pow2(i) * Pow2(j) == 2 * (Pow2(i) * Pow2(j - 1));
    }
  }

  // ---------------------------------------------------------------------
  // the schedule

  /** The four pass loops of `run`. */
  datatype Sweep = ForwardH | ForwardV | InverseV | InverseH

  function KernelOf(s: Sweep, basis: string): string
  {
    if s == ForwardH || s == InverseH then "horizontal_" + basis else "vertical_" + basis
  }

  function DirectionOf(s: Sweep): int
  {
    if s == ForwardH || s == ForwardV then ForwardDirection else InverseDirection
  }

  /** `cur_size` during a pass of size c: the other coordinate is the full
      padded side. */
  function CurSize(s: Sweep, c: int, ext: Int2): Int2
  {
    if s == ForwardH || s == InverseH then Int2(c, ext.y) else Int2(ext.x, c)
  }

  /** The dispatch grid of a pass: the current size, except the inverse
      horizontal passes, which cover the whole padded image. */
  function GridOf(s: Sweep, c: int, ext: Int2): Int2
  {
    if s == InverseH then ext else CurSize(s, c, ext)
  }

  /** `wavelet::set_args`; the runtime's statuses are not checked. */
  function PassArgs(src: Mem, dst: Mem, cur: Int2, direction: int): map<nat, Arg>
  {
    map[0 := ImageArg(src), 1 := SamplerArg(Clamp, Nearest), 2 := ImageArg(dst),
        3 := SizeArg(cur), 4 := IntArg(direction)]
  }

  /** The image in role `a` after n swaps of the pair (a, b). */
  function Settled(n: nat, a: Mem, b: Mem): Mem
  {
    if n == 0 then a else Settled(n - 1, b, a)
  }

  /** A pass of size c reading `a` and writing `b`: the dispatch, waiting on
      the last copy's event and finishing the queue, then the copy of the
      destination back over the source. */
  function PassOps(basis: string, s: Sweep, c: int, ext: Int2, a: Mem, b: Mem): seq<Op>
  {
    [Enqueue(Dispatch(KernelOf(s, basis), PassArgs(a, b, CurSize(s, c, ext), DirectionOf(s)),
                      GridOf(s, c, ext), true, true)),
     Copy(b, a, ext)]
  }

  /** One loop of `run`: a pass for each size, the pair swapping after each. */
  function SweepOps(basis: string, s: Sweep, sizes: seq<int>, ext: Int2, a: Mem, b: Mem): seq<Op>
  {
    if |sizes| == 0 then [] else PassOps(basis, s, sizes[0], ext, a, b) + SweepOps(basis, s, sizes[1..], ext, b, a)
  }

  /** `soft_threshold` gets only its threshold (slot 6) bound by this run. */
  function ThresholdOp(threshold: real, ext: Int2): Op
  {
    Enqueue(Dispatch("soft_threshold", map[6 := RealArg(threshold)], ext, true, true))
  }

  /** The whole queue of one run on a source of `size` padded to `ext`. */
  function Schedule(basis: string, threshold: real, size: Int2, ext: Int2): seq<Op>
  {
    var hx, hy := HalvingSizes(ext.x / 2), HalvingSizes(ext.y / 2);
    var dy, dx := DoublingSizes(1, ext.y), DoublingSizes(1, ext.x);
    var a0, b0 := Temp(0), Temp(1);
    var a1, b1 := Settled(|hx|, a0, b0), Settled(|hx|, b0, a0);
    var a2, b2 := Settled(|hy|, a1, b1), Settled(|hy|, b1, a1);
    var a3, b3 := b2, a2;
    var a4, b4 := Settled(|dy|, a3, b3), Settled(|dy|, b3, a3);
    var a5 := Settled(|dx|, a4, b4);
    [Copy(Input, a0, ext)]
    + SweepOps(basis, ForwardH, hx, ext, a0, b0)
    + SweepOps(basis, ForwardV, hy, ext, a1, b1)
    + [ThresholdOp(threshold, ext)]
    + SweepOps(basis, InverseV, dy, ext, a3, b3)
    + SweepOps(basis, InverseH, dx, ext, a4, b4)
    + [Copy(a5, Output, size)]
  }

  lemma SweepStep(basis: string, s: Sweep, c: int, rest: seq<int>, ext: Int2, a: Mem, b: Mem, before: seq<Op>)
    ensures before + SweepOps(basis, s, [c] + rest, ext, a, b)
            == (before + PassOps(basis, s, c, ext, a, b)) + SweepOps(basis, s, rest, ext, b, a)
    ensures Settled(|[c] + rest|, a, b) == Settled(|rest|, b, a)
  {
    assert ([c] + rest)[1..] == rest;
  }

  // ---------------------------------------------------------------------
  // properties of the schedule

  /** After n swaps role a holds a when n is even and b when n is odd. */
  lemma {:induction false} SettledParity(n: nat, a: Mem, b: Mem)
    ensures Settled(n, a, b) == if n % 2 == 0 then a else b
  {
    if n > 0 { SettledParity(n - 1, b, a); }
  }

  /** Pass j of a loop is two operations: the dispatch of size sizes[j]
      reading the j-times-swapped source and writing the other image, then
      the copy back. */
  lemma {:induction false} SweepPassAt(basis: string, s: Sweep, sizes: seq<int>, ext: Int2, a: Mem, b: Mem, j: nat)
    requires j < |sizes|
    ensures var ops := SweepOps(basis, s, sizes, ext, a, b);
            var src, dst := Settled(j, a, b), Settled(j, b, a);
            && |ops| == 2 * |sizes|
            && ops[2 * j] == Enqueue(Dispatch(KernelOf(s, basis), PassArgs(src, dst, CurSize(s, sizes[j], ext), DirectionOf(s)),
                                              GridOf(s, sizes[j], ext), true, true))
            && ops[2 * j + 1] == Copy(dst, src, ext)
  {
    SweepLength(basis, s, sizes, ext, a, b);
    if j > 0 {
      SweepPassAt(basis, s, sizes[1..], ext, b, a, j - 1);
      var rest := SweepOps(basis, s, sizes[1..], ext, b, a);
      assert SweepOps(basis, s, sizes, ext, a, b) == PassOps(basis, s, sizes[0], ext, a, b) + rest;
      assert SweepOps(basis, s, sizes, ext, a, b)[2 * j] == rest[2 * (j - 1)];
      assert SweepOps(basis, s, sizes, ext, a, b)[2 * j + 1] == rest[2 * (j - 1) + 1];
    }
  }

  lemma {:induction false} SweepLength(basis: string, s: Sweep, sizes: seq<int>, ext: Int2, a: Mem, b: Mem)
    ensures |SweepOps(basis, s, sizes, ext, a, b)| == 2 * |sizes|
  {
    if |sizes| > 0 { SweepLength(basis, s, sizes[1..], ext, b, a); }
  }

  /** No operation reads and writes the same image. */
  predicate Separate(op: Op)
  {
    match op
    case Copy(from, to, _) => from != to
    case Enqueue(d) => 0 in d.args && 2 in d.args ==> d.args[0] != d.args[2]
  }

  lemma {:induction false} SweepSeparate(basis: string, s: Sweep, sizes: seq<int>, ext: Int2, a: Mem, b: Mem)
    requires a != b
    ensures AllSeparate(SweepOps(basis, s, sizes, ext, a, b))
  {
    if |sizes| > 0 {
      SweepSeparate(basis, s, sizes[1..], ext, b, a);
      var head, rest := PassOps(basis, s, sizes[0], ext, a, b), SweepOps(basis, s, sizes[1..], ext, b, a);
      assert Separate(head[0]) && Separate(head[1]);
      assert AllSeparate(head);
      SeparateAppend(head, rest);
    }
  }

  lemma {:induction false} SettledDistinct(n: nat, a: Mem, b: Mem)
    requires a != b
    ensures Settled(n, a, b) != Settled(n, b, a)
    ensures Settled(n, a, b) in {a, b} && Settled(n, b, a) in {a, b}
  {
    if n > 0 { SettledDistinct(n - 1, b, a); }
  }

  /** Every copy and every pass of a run reads and writes two different
      images: the two scratch images stay distinct through all the swaps. */
  lemma BuffersStayDistinct(basis: string, threshold: real, size: Int2, ext: Int2)
    ensures AllSeparate(Schedule(basis, threshold, size, ext))
  {
    var hx, hy := HalvingSizes(ext.x / 2), HalvingSizes(ext.y / 2);
    var dy, dx := DoublingSizes(1, ext.y), DoublingSizes(1, ext.x);
    var a0, b0 := Temp(0), Temp(1);
    var a1, b1 := Settled(|hx|, a0, b0), Settled(|hx|, b0, a0);
    SettledDistinct(|hx|, a0, b0);
    var a2, b2 := Settled(|hy|, a1, b1), Settled(|hy|, b1, a1);
    SettledDistinct(|hy|, a1, b1);
    var a3, b3 := b2, a2;
    var a4, b4 := Settled(|dy|, a3, b3), Settled(|dy|, b3, a3);
    SettledDistinct(|dy|, a3, b3);
    var a5 := Settled(|dx|, a4, b4);
    SettledDistinct(|dx|, a4, b4);
    SweepSeparate(basis, ForwardH, hx, ext, a0, b0);
    SweepSeparate(basis, ForwardV, hy, ext, a1, b1);
    SweepSeparate(basis, InverseV, dy, ext, a3, b3);
    SweepSeparate(basis, InverseH, dx, ext, a4, b4);
    var q0 := [Copy(Input, a0, ext)] + SweepOps(basis, ForwardH, hx, ext, a0, b0);
    SeparateAppend([Copy(Input, a0, ext)], SweepOps(basis, ForwardH, hx, ext, a0, b0));
    SeparateAppend(q0, SweepOps(basis, ForwardV, hy, ext, a1, b1));
    var q1 := q0 + SweepOps(basis, ForwardV, hy, ext, a1, b1);
    assert Separate(ThresholdOp(threshold, ext));
    SeparateAppend(q1, [ThresholdOp(threshold, ext)]);
    var q2 := q1 + [ThresholdOp(threshold, ext)];
    SeparateAppend(q2, SweepOps(basis, InverseV, dy, ext, a3, b3));
    var q3 := q2 + SweepOps(basis, InverseV, dy, ext, a3, b3);
    SeparateAppend(q3, SweepOps(basis, InverseH, dx, ext, a4, b4));
    var q4 := q3 + SweepOps(basis, InverseH, dx, ext, a4, b4);
    SeparateAppend(q4, [Copy(a5, Output, size)]);
  }

  predicate AllSeparate(ops: seq<Op>)
  {
    forall i :: 0 <= i < |ops| ==> Separate(ops[i])
  }

  lemma SeparateAppend(x: seq<Op>, y: seq<Op>)
    requires AllSeparate(x) && AllSeparate(y)
    ensures AllSeparate(x + y)
  {
    forall i | 0 <= i < |x + y| ensures Separate((x + y)[i]) {
      if i >= |x| { assert (x + y)[i] == y[i - |x|]; }
    }
  }

  /** For power-of-two sides the run makes 4 (log2 ext.x + log2 ext.y) + 3
      operations: the first copies the source into scratch image 0, the
      middle one thresholds over the whole padded grid, and the last crops
      scratch image 1 (an odd number of swaps later) to the source's own
      size. */
  lemma ScheduleLayout(basis: string, threshold: real, size: Int2, ext: Int2)
    requires IsPow2(ext.x) && IsPow2(ext.y)
    ensures var ops := Schedule(basis, threshold, size, ext);
            var nx, ny := Log2(ext.x), Log2(ext.y);
            && |ops| == 4 * (nx + ny) + 3
            && ops[0] == Copy(Input, Temp(0), ext)
            && ops[2 * (nx + ny) + 1] == Enqueue(Dispatch("soft_threshold", map[6 := RealArg(threshold)], ext, true, true))
            && ops[|ops| - 1] == Copy(Temp(1), Output, size)
  {
    var hx, hy := HalvingSizes(ext.x / 2), HalvingSizes(ext.y / 2);
    var dy, dx := DoublingSizes(1, ext.y), DoublingSizes(1, ext.x);
    PassCounts(ext.x);
    PassCounts(ext.y);
    var nx, ny := Log2(ext.x), Log2(ext.y);
    var a0, b0 := Temp(0), Temp(1);
    var a1, b1 := Settled(nx, a0, b0), Settled(nx, b0, a0);
    var a2, b2 := Settled(ny, a1, b1), Settled(ny, b1, a1);
    var a4, b4 := Settled(ny, b2, a2), Settled(ny, a2, b2);
    var a5 := Settled(nx, a4, b4);
    SweepLength(basis, ForwardH, hx, ext, a0, b0);
    SweepLength(basis, ForwardV, hy, ext, a1, b1);
    SweepLength(basis, InverseV, dy, ext, b2, a2);
    SweepLength(basis, InverseH, dx, ext, a4, b4);
    assert a5 == Temp(1) by {
      SettledParity(nx, a4, b4);
      SettledParity(ny, b2, a2);
      SettledParity(ny, a2, b2);
      SettledParity(ny, a1, b1);
      SettledParity(ny, b1, a1);
      SettledParity(nx, a0, b0);
      SettledParity(nx, b0, a0);
    }
    var front := [Copy(Input, a0, ext)] + SweepOps(basis, ForwardH, hx, ext, a0, b0)
                 + SweepOps(basis, ForwardV, hy, ext, a1, b1);
    assert |front| == 2 * (nx + ny) + 1;
    assert Schedule(basis, threshold, size, ext)[|front|] == ThresholdOp(threshold, ext);
  }

  // ---------------------------------------------------------------------
  // run

  /** The forward loops (wavelet.cpp:37-45 and 49-57): `cur_size` holds c in
      the swept coordinate and the full padded side in the other; each pass
      dispatches, copies the destination back over the source and swaps. */
  method HalvingPasses(basis: string, s: Sweep, ext: Int2, start: int, src0: Mem, dst0: Mem)
    returns (ops: seq<Op>, srcPtr: Mem, dstPtr: Mem)
    ensures ops == SweepOps(basis, s, HalvingSizes(start), ext, src0, dst0)
    ensures srcPtr == Settled(|HalvingSizes(start)|, src0, dst0) && dstPtr == Settled(|HalvingSizes(start)|, dst0, src0)
  {
    ops := [];
    srcPtr, dstPtr := src0, dst0;
    var c := start;
    while c > 0
      invariant Settled(|HalvingSizes(c)|, srcPtr, dstPtr) == Settled(|HalvingSizes(start)|, src0, dst0)
      invariant Settled(|HalvingSizes(c)|, dstPtr, srcPtr) == Settled(|HalvingSizes(start)|, dst0, src0)
      invariant ops + SweepOps(basis, s, HalvingSizes(c), ext, srcPtr, dstPtr) == SweepOps(basis, s, HalvingSizes(start), ext, src0, dst0)
      decreases c
    {
      SweepStep(basis, s, c, HalvingSizes(c / 2), ext, srcPtr, dstPtr, ops);
      SweepStep(basis, s, c, HalvingSizes(c / 2), ext, dstPtr, srcPtr, ops);
      ops := ops + [Enqueue(Dispatch(KernelOf(s, basis), PassArgs(srcPtr, dstPtr, CurSize(s, c, ext), DirectionOf(s)),
                                     GridOf(s, c, ext), true, true)),
                    Copy(dstPtr, srcPtr, ext)];
      srcPtr, dstPtr := dstPtr, srcPtr;
      c := c / 2;
    }
  }

  /** The inverse loops (wavelet.cpp:66-74 and 77-85), c = 1, 2, 4, ...
      while below the padded side `limit`. */
  method DoublingPasses(basis: string, s: Sweep, ext: Int2, limit: int, src0: Mem, dst0: Mem)
    returns (ops: seq<Op>, srcPtr: Mem, dstPtr: Mem)
    requires IsPow2(limit)
    ensures ops == SweepOps(basis, s, DoublingSizes(1, limit), ext, src0, dst0)
    ensures srcPtr == Settled(|DoublingSizes(1, limit)|, src0, dst0) && dstPtr == Settled(|DoublingSizes(1, limit)|, dst0, src0)
  {
    ops := [];
    srcPtr, dstPtr := src0, dst0;
    var c := 1;
    while c < limit
      invariant 1 <= c <= limit && IsPow2(c)
      invariant Settled(|DoublingSizes(c, limit)|, srcPtr, dstPtr) == Settled(|DoublingSizes(1, limit)|, src0, dst0)
      invariant Settled(|DoublingSizes(c, limit)|, dstPtr, srcPtr) == Settled(|DoublingSizes(1, limit)|, dst0, src0)
      invariant ops + SweepOps(basis, s, DoublingSizes(c, limit), ext, srcPtr, dstPtr) == SweepOps(basis, s, DoublingSizes(1, limit), ext, src0, dst0)
      decreases limit - c
    {
      SweepStep(basis, s, c, DoublingSizes(2 * c, limit), ext, srcPtr, dstPtr, ops);
      SweepStep(basis, s, c, DoublingSizes(2 * c, limit), ext, dstPtr, srcPtr, ops);
      DoubleBelow(c, limit);
      ops := ops + [Enqueue(Dispatch(KernelOf(s, basis), PassArgs(srcPtr, dstPtr, CurSize(s, c, ext), DirectionOf(s)),
                                     GridOf(s, c, ext), true, true)),
                    Copy(dstPtr, srcPtr, ext)];
      srcPtr, dstPtr := dstPtr, srcPtr;
      c := c * 2;
    }
  }

  /** `wavelet::run` on a source of size srcSize. */
  method Run(basis: string, threshold: real, srcSize: Int2) returns (r: Result<Transform>)
    ensures basis != "haar" ==> r == Err("Unknowm wavelet basis: " + basis)
    ensures basis == "haar" ==> && r.Ok?
                                && IsPadding(r.value.ext.x, srcSize.x) && IsPadding(r.value.ext.y, srcSize.y)
                                && r.value.size == srcSize
                                && r.value.ops == Schedule(basis, threshold, srcSize, r.value.ext)
  {
    if basis != "haar" {
      return Err("Unknowm wavelet basis: " + basis);
    }
    var ex := Pad(srcSize.x);
    var ey := Pad(srcSize.y);
    var ext := Int2(ex, ey);
    var srcPtr, dstPtr := Temp(0), Temp(1);
    var ops := [Copy(Input, srcPtr, ext)];
    var fh, fv, iv, ih;
    fh, srcPtr, dstPtr := HalvingPasses(basis, ForwardH, ext, ext.x / 2, srcPtr, dstPtr);
    fv, srcPtr, dstPtr := HalvingPasses(basis, ForwardV, ext, ext.y / 2, srcPtr, dstPtr);
    var thresholdOp := Enqueue(Dispatch("soft_threshold", map[6 := RealArg(threshold)], ext, true, true));
    srcPtr, dstPtr := dstPtr, srcPtr;
    iv, srcPtr, dstPtr := DoublingPasses(basis, InverseV, ext, ext.y, srcPtr, dstPtr);
    ih, srcPtr, dstPtr := DoublingPasses(basis, InverseH, ext, ext.x, srcPtr, dstPtr);
    ops := ops + fh + fv + [thresholdOp] + iv + ih + [Copy(srcPtr, Output, srcSize)];
    r := Ok(Transform(srcSize, ext, ops));
  }
}
