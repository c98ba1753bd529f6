/** `struct executor`: binding the six leading kernel arguments every
    two-image kernel takes, and enqueueing a 2-D dispatch either blocking
    (`run_blocking`) or returning its completion event (`run_with_event`).
    A kernel object keeps its argument slots between calls; the queue is
    the log of dispatches it has accepted. */
module Executor {
  import opened Cl
  import Util

  /** The parts of an `im_object` the newer executor generation reads: its
      storage (sampled image and linear buffer share one handle here), and
      its size. The image's own sampler is `ImageSamplerArg(mem)`. */
  datatype ImageRef = ImageRef(mem: Mem, size: Int2)

  /** Number of leading slots `set_common_args` binds. */
  const CommonSlots: nat := 6

  /** Slot i as `set_common_args` binds it: source image, destination
      buffer, destination image, destination sampler, destination size and
      the write mode. */
  function CommonArg(src: ImageRef, dst: ImageRef, mode: WriteMode, i: nat): Arg
    requires i < CommonSlots
  {
    if i == 0 then ImageArg(src.mem)
    else if i == 1 then BufferArg(dst.mem)
    else if i == 2 then ImageArg(dst.mem)
    else if i == 3 then ImageSamplerArg(dst.mem)
    else if i == 4 then SizeArg(dst.size)
    else ModeArg(mode)
  }

  /** All six common slots. */
  function CommonArgs(src: ImageRef, dst: ImageRef, mode: WriteMode): (m: map<nat, Arg>)
    ensures m.Keys == {0, 1, 2, 3, 4, 5}
  {
    map[0 := ImageArg(src.mem), 1 := BufferArg(dst.mem), 2 := ImageArg(dst.mem),
        3 := ImageSamplerArg(dst.mem), 4 := SizeArg(dst.size), 5 := ModeArg(mode)]
  }

  /** The slots of a kernel that held `base` once slots 0..n-1 are bound. */
  function Bound(base: map<nat, Arg>, src: ImageRef, dst: ImageRef, mode: WriteMode, n: nat): map<nat, Arg>
    requires n <= CommonSlots
  {
    if n == 0 then base else Bound(base, src, dst, mode, n - 1)[n - 1 := CommonArg(src, dst, mode, n - 1)]
  }

  /** Binding the first n slots sets exactly those and keeps every other slot. */
  lemma {:induction false} BoundSlots(base: map<nat, Arg>, src: ImageRef, dst: ImageRef, mode: WriteMode, n: nat)
    requires n <= CommonSlots
    ensures var m := Bound(base, src, dst, mode, n);
            && (forall j: nat :: j < n ==> j in m && m[j] == CommonArg(src, dst, mode, j))
            && (forall j :: j in base && j >= n ==> j in m && m[j] == base[j])
            && (forall j :: j in m ==> j < n || j in base)
  {
    if n > 0 { BoundSlots(base, src, dst, mode, n - 1); }
  }

  /** On a fresh kernel, binding all six gives exactly the common slots. */
  lemma BoundAllIsCommon(src: ImageRef, dst: ImageRef, mode: WriteMode)
    ensures Bound(map[], src, dst, mode, CommonSlots) == CommonArgs(src, dst, mode)
  {
    var m := Bound(map[], src, dst, mode, CommonSlots);
    BoundSlots(map[], src, dst, mode, CommonSlots);
    assert m.Keys == CommonArgs(src, dst, mode).Keys;
  }

  /** The exception text of each slot's binding check. */
  const SlotMessages: seq<string> := [
    "Failed to set src image arg", "Failed to set buffer arg",
    "Failed to set dst image arg", "Failed to set sampler arg",
    "Failed to set out size arg", "Failed to set write mode arg"]

  /** Index of the first failing binding, or 6 when all succeed. */
  function FirstFailure(codes: seq<int>): (i: nat)
    requires |codes| == CommonSlots
    ensures i <= CommonSlots
    ensures forall j :: 0 <= j < i ==> codes[j] == Util.ClSuccess
    ensures i < CommonSlots ==> codes[i] != Util.ClSuccess
  {
    if codes[0] != 0 then 0 else if codes[1] != 0 then 1 else if codes[2] != 0 then 2
    else if codes[3] != 0 then 3 else if codes[4] != 0 then 4 else if codes[5] != 0 then 5
    else 6
  }

  /** What `set_common_args` reports: success when every slot binds,
      otherwise the first refused slot's message with the runtime's category. */
  function BindOutcome(codes: seq<int>): (r: Outcome)
    requires |codes| == CommonSlots
    ensures r.Pass? <==> forall j :: 0 <= j < CommonSlots ==> codes[j] == Util.ClSuccess
    ensures r.Fail? ==> var i := FirstFailure(codes);
                        i < CommonSlots && Util.AssertSuccess(codes[i], SlotMessages[i]) == r
  {
    var i := FirstFailure(codes);
    if i == CommonSlots then Pass else Util.AssertSuccess(codes[i], SlotMessages[i])
  }

  /** An OpenCL kernel object: a name and the values its slots hold. */
  class Kernel {
    const name: string
    var slots: map<nat, Arg>

    constructor (name: string)
      ensures this.name == name && slots == map[]
    {
      this.name := name;
      slots := map[];
    }

    /** `clSetKernelArg`: the slot changes only when the runtime accepts it;
        `code` is the status the runtime returns. */
    method SetArg(slot: nat, value: Arg, code: int) returns (ok: bool)
      modifies this
      ensures ok <==> code == Util.ClSuccess
      ensures slots == if ok then old(slots)[slot := value] else old(slots)
    {
      ok := code == Util.ClSuccess;
      if ok { slots := slots[slot := value]; }
    }
  }

  /** A kernel admits enqueueing and the log of accepted dispatches. */
  class Executor {
    const kernels: map<string, Handle<string>>
    var log: seq<Dispatch>

    constructor (kernels: map<string, Handle<string>>)
      ensures this.kernels == kernels && log == []
    {
      this.kernels := kernels;
      log := [];
    }

    /** `executor::set_common_args`: binds slots 0..5 in order, and on the
        first refusal throws that slot's message, leaving the later slots
        as they were. `codes[i]` is the runtime's status for slot i. */
    method SetCommonArgs(k: Kernel, src: ImageRef, dst: ImageRef, mode: WriteMode, codes: seq<int>)
      returns (r: Outcome)
      requires |codes| == CommonSlots
      modifies k
      ensures var i := FirstFailure(codes);
              && k.slots == Bound(old(k.slots), src, dst, mode, i)
              && r == BindOutcome(codes)
    {
      ghost var base := k.slots;
      var ok0 := BindSlot(k, src, dst, mode, 0, codes[0]);
      if !ok0 { return Util.AssertSuccess(codes[0], SlotMessages[0]); }
      assert k.slots == Bound(base, src, dst, mode, 1);
      var ok1 := BindSlot(k, src, dst, mode, 1, codes[1]);
      if !ok1 { return Util.AssertSuccess(codes[1], SlotMessages[1]); }
      assert k.slots == Bound(base, src, dst, mode, 2);
      var ok2 := BindSlot(k, src, dst, mode, 2, codes[2]);
      if !ok2 { return Util.AssertSuccess(codes[2], SlotMessages[2]); }
      assert k.slots == Bound(base, src, dst, mode, 3);
      var ok3 := BindSlot(k, src, dst, mode, 3, codes[3]);
      if !ok3 { return Util.AssertSuccess(codes[3], SlotMessages[3]); }
      assert k.slots == Bound(base, src, dst, mode, 4);
      var ok4 := BindSlot(k, src, dst, mode, 4, codes[4]);
      if !ok4 { return Util.AssertSuccess(codes[4], SlotMessages[4]); }
      assert k.slots == Bound(base, src, dst, mode, 5);
      var ok5 := BindSlot(k, src, dst, mode, 5, codes[5]);
      if !ok5 { return Util.AssertSuccess(codes[5], SlotMessages[5]); }
      assert k.slots == Bound(base, src, dst, mode, 6);
      r := Pass;
    }

    /** One binding of `set_common_args`: slot i receives its common value. */
    method BindSlot(k: Kernel, src: ImageRef, dst: ImageRef, mode: WriteMode, i: nat, code: int)
      returns (ok: bool)
      requires i < CommonSlots
      modifies k
      ensures ok <==> code == Util.ClSuccess
      ensures k.slots == if ok then old(k.slots)[i := CommonArg(src, dst, mode, i)] else old(k.slots)
    {
      ok := k.SetArg(i, CommonArg(src, dst, mode, i), code);
    }

    /** `executor::run_blocking`: enqueue over the (size.x, size.y) grid,
        waiting on one event iff a predecessor event is given, then finish
        the queue. A refused enqueue throws and appends nothing. */
    method RunBlocking(k: Kernel, size: Int2, hasPrev: bool, code: int) returns (r: Outcome)
      modifies this
      ensures r == Util.AssertSuccess(code, "Failed to enqueue blocking kernel execution")
      ensures log == old(log) + (if r.Pass? then [Dispatch(k.name, k.slots, size, hasPrev, true)] else [])
    {
      r := Util.AssertSuccess(code, "Failed to enqueue blocking kernel execution");
      if r.Pass? { log := log + [Dispatch(k.name, k.slots, size, hasPrev, true)]; }
    }

    /** `executor::run_with_event`: the same enqueue without finishing the
        queue; the returned event is the new dispatch's position in the log. */
    method RunWithEvent(k: Kernel, size: Int2, hasPrev: bool, code: int) returns (r: Result<nat>)
      modifies this
      ensures code == Util.ClSuccess <==> r.Ok?
      ensures r.Ok? ==> r.value == |old(log)| && log == old(log) + [Dispatch(k.name, k.slots, size, hasPrev, false)]
      ensures r.Ok? ==> log[r.value].kernel == k.name && !log[r.value].blocking
      ensures r.Err? ==> Util.AssertSuccess(code, "Failed to enqueue async kernel execution") == Fail(r.msg) && log == old(log)
    {
      var o := Util.AssertSuccess(code, "Failed to enqueue async kernel execution");
      if o.Fail? { return Err(o.msg); }
      r := Ok(|log|);
      log := log + [Dispatch(k.name, k.slots, size, hasPrev, false)];
    }
  }

  /** A client: binding then blocking run records exactly the common slots
      and the destination grid. */
  method BindAndRun(name: string, src: ImageRef, dst: ImageRef) returns (d: Dispatch)
    ensures d == Dispatch(name, CommonArgs(src, dst, WriteToBuffer), dst.size, false, true)
  {
    var e := new Executor(map[]);
    var k := new Kernel(name);
    var o := e.SetCommonArgs(k, src, dst, WriteToBuffer, [0, 0, 0, 0, 0, 0]);
    BoundAllIsCommon(src, dst, WriteToBuffer);
    o := e.RunBlocking(k, dst.size, false, 0);
    d := e.log[0];
  }
}
