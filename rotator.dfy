/** `struct rotator`: rotation by an angle in degrees. Multiples of 90
    degrees take the fast path of `simple_angle` (a quarter turn either way
    swaps the sides, a half turn keeps them); any other angle allocates the
    bounding canvas of the rotated image and runs the three-shear or the
    direct-mapping kernel over the source grid. */
module Rotator {
  import opened Cl
  import Executor

  /** The trigonometric values `run` computes from the angle in radians:
      cos t, sin t and tan(t / 2). They are inputs of the model. */
  datatype Trig = Trig(cos: real, sin: real, tanHalf: real)

  function AbsReal(r: real): real { if r < 0.0 then -r else r }

  /** `modf(theta / 90.0, &t) == 0.0`: the angle is a whole number of
      quarter turns. */
  predicate IsSimple(theta: real)
  {
    (theta / 90.0).Floor as real == theta / 90.0
  }

  /** A whole number of quarter turns converts to `int` exactly. */
  lemma SimpleAngleIsWhole(theta: real)
    requires IsSimple(theta)
    ensures Trunc(theta) as real == theta && Trunc(theta) == 90 * (theta / 90.0).Floor
  {
    var k := (theta / 90.0).Floor;
    assert theta == 90.0 * k as real;
    assert (90 * k) as real == theta;
    TruncOfWhole(90 * k);
  }

  lemma TruncOfWhole(n: int)
    ensures Trunc(n as real) == n
  {
  }

  /** `rotator::im_center`: `(n + 1) / 2 - 1` per axis. */
  function ImCenter(size: Int2): Int2
  {
    Int2(CDiv(size.x + 1, 2) - 1, CDiv(size.y + 1, 2) - 1)
  }

  /** For a non-empty side the centre is a pixel of it, in the middle: at
      most one more pixel lies after it than before it. */
  lemma ImCenterInside(n: int)
    requires n >= 1
    ensures var c := ImCenter(Int2(n, n)).x;
            0 <= c < n && 2 * c + 1 <= n <= 2 * c + 2
  {
  }

  /** `rotator::rotate_size`: `trunc(|w cos| + |h sin|) + 1` by
      `trunc(|h cos| + |w sin|) + 1`. */
  function RotateSize(size: Int2, t: Trig): (r: Int2)
    ensures r.x >= 1 && r.y >= 1
    ensures AbsReal(size.x as real * t.cos) + AbsReal(size.y as real * t.sin) < r.x as real
    ensures AbsReal(size.y as real * t.cos) + AbsReal(size.x as real * t.sin) < r.y as real
  {
    var w := AbsReal(size.x as real * t.cos) + AbsReal(size.y as real * t.sin);
    var h := AbsReal(size.y as real * t.cos) + AbsReal(size.x as real * t.sin);
    TruncBounds(w);
    TruncBounds(h);
    Int2(Trunc(w) + 1, Trunc(h) + 1)
  }

  /** Slots 0..5 with the source and a destination allocated with
      `WRITE_TO_BUFFER`. */
  function Common(src: Int2, dst: Int2): (m: map<nat, Arg>)
    ensures m.Keys == {0, 1, 2, 3, 4, 5}
  {
    Executor.CommonArgs(Executor.ImageRef(Input, src), Executor.ImageRef(Output, dst), WriteToBuffer)
  }

  /** `rotator::simple_angle`: 90 turns clockwise and -90 counter-clockwise,
      both swapping the sides; 180 and -180 flip and keep them; every other
      angle, 0 included, throws. One blocking dispatch over the new size. */
  function SimpleAngle(theta: int, src: Int2): (r: Result<Produced>)
    ensures r.Ok? <==> theta in {90, -90, 180, -180}
    ensures r.Err? ==> r.msg == "Not a simple angle"
    ensures r.Ok? ==> var p := r.value;
            && p.size == (if theta == 90 || theta == -90 then Int2(src.y, src.x) else src)
            && |p.log| == 1 && p.log[0].grid == p.size && !p.log[0].waits && p.log[0].blocking
            && p.log[0].args == Common(src, p.size)
            && p.log[0].kernel == (if theta == 90 then "clockwise" else if theta == -90 then "counter_clockwise" else "flip")
  {
    var k := if theta == 90 then Some("clockwise") else if theta == -90 then Some("counter_clockwise")
             else if theta == 180 || theta == -180 then Some("flip") else None;
    match k
    case None => Err("Not a simple angle")
    case Some(name) =>
      var dst := if theta == 90 || theta == -90 then Int2(src.y, src.x) else src;
      Ok(Produced(dst, [Dispatch(name, Common(src, dst), dst, false, true)]))
  }

  /** The slots `set_coord_args` binds, then the two angle slots. Slot 5,
      where `set_common_args` has just put the write mode, is bound again
      to the source size, so the write mode does not reach the kernel. */
  function CoordArgs(src: Int2, dst: Int2, a8: real, a9: real): (m: map<nat, Arg>)
    ensures m.Keys == {0, 1, 2, 3, 4, 5, 6, 7, 8, 9}
    ensures m[5] == SizeArg(src) && m[6] == SizeArg(ImCenter(src)) && m[7] == SizeArg(ImCenter(dst))
    ensures m[8] == RealArg(a8) && m[9] == RealArg(a9)
    ensures forall i :: 0 <= i < 5 ==> m[i] == Common(src, dst)[i]
    ensures Common(src, dst)[5] == ModeArg(WriteToBuffer) != m[5]
  {
    Common(src, dst)[5 := SizeArg(src)][6 := SizeArg(ImCenter(src))][7 := SizeArg(ImCenter(dst))]
      [8 := RealArg(a8)][9 := RealArg(a9)]
  }

  /** `rotator::run`. A whole number of quarter turns goes to
      `simple_angle` whatever the algorithm name. Otherwise `shear` binds
      -tan(t/2) and sin t, `map` binds sin t and cos t, into a canvas of
      the rotated size, with one blocking dispatch over the source grid;
      any other name throws. */
  function Run(algo: string, theta: real, src: Int2, t: Trig): (r: Result<Produced>)
    ensures IsSimple(theta) ==> r == SimpleAngle(Trunc(theta), src)
    ensures !IsSimple(theta) ==> (r.Ok? <==> algo == "shear" || algo == "map")
    ensures !IsSimple(theta) && r.Err? ==> r.msg == "Unknown rotation " + algo
    ensures !IsSimple(theta) && r.Ok? ==> var p := r.value;
            && p.size == RotateSize(src, t)
            && |p.log| == 1 && p.log[0].grid == src && !p.log[0].waits && p.log[0].blocking
            && p.log[0].kernel == (if algo == "shear" then "shear_rotate" else "map_rotate")
            && p.log[0].args == CoordArgs(src, p.size,
                 if algo == "shear" then -t.tanHalf else t.sin,
                 if algo == "shear" then t.sin else t.cos)
  {
    if IsSimple(theta) then SimpleAngle(Trunc(theta), src)
    else
      var dst := RotateSize(src, t);
      if algo == "shear" then
        Ok(Produced(dst, [Dispatch("shear_rotate", CoordArgs(src, dst, -t.tanHalf, t.sin), src, false, true)]))
      else if algo == "map" then
        Ok(Produced(dst, [Dispatch("map_rotate", CoordArgs(src, dst, t.sin, t.cos), src, false, true)]))
      else Err("Unknown rotation " + algo)
  }

  /** Rotating by 0, 270 or 360 degrees throws on the fast path, whatever the
      algorithm. */
  lemma NoTurnThrows(algo: string, src: Int2, t: Trig)
    ensures Run(algo, 0.0, src, t) == Err("Not a simple angle")
    ensures Run(algo, 270.0, src, t) == Err("Not a simple angle")
    ensures Run(algo, 360.0, src, t) == Err("Not a simple angle")
  {
    assert IsSimple(0.0) && IsSimple(270.0) && IsSimple(360.0);
    TruncOfWhole(0);
    TruncOfWhole(270);
    TruncOfWhole(360);
  }

  /** A quarter turn one way and then the other gives back the original
      sides; so does a half turn applied twice. */
  lemma TurnsUndo(src: Int2, theta: int)
    requires theta in {90, -90, 180, -180}
    ensures var there := SimpleAngle(theta, src);
            there.Ok? && SimpleAngle(-theta, there.value.size).Ok?
            && SimpleAngle(-theta, there.value.size).value.size == src
  {
  }
}
