/** Vocabulary shared by every engine of the toolkit: 2-D sizes, device
    memory handles, kernel argument values, the record of one kernel
    dispatch, error results, and the C++ arithmetic the host code relies on. */
module Cl {

  /** `cl_int2`: a width/height pair or a 2-D grid. */
  datatype Int2 = Int2(x: int, y: int)

  /** A value, or the text of the exception the source throws instead. */
  datatype Result<T> = Ok(value: T) | Err(msg: string)

  /** `util::assert_success` either returns or throws a message. */
  datatype Outcome = Pass | Fail(msg: string)

  datatype Option<T> = None | Some(value: T)

  /** An unsigned 8-bit sample. */
  type Byte = b: int | 0 <= b < 256

  /** A compiled kernel object as stored in a program's name map, keyed by
      kernel names of type K; `map_of` fills every entry with `NULL` before
      compilation. */
  datatype Handle<K> = Null | Compiled(program: string, name: K)

  /** Device memory objects a run touches, by role. */
  datatype Mem =
    | Input                             // storage of the image handed to the engine
    | Output                            // storage of the image the engine returns
    | Temp(n: nat)                      // the n-th scratch image the run allocates
    | Polynomial(index: nat, half: nat) // zoomer's cached BC-spline vectors
    | Coefficients                      // filter's uploaded convolution weights
    | Device(id: nat)                   // an object the environment allocated, by number

  datatype AddressMode = AddressNone | Clamp | ClampToEdge
  datatype FilterMode = Nearest | Linear

  /** `NO_BUFFER_WRITE` / `WRITE_TO_BUFFER`: whether the kernel also fills the
      image's linear byte buffer. */
  datatype WriteMode = NoBufferWrite | WriteToBuffer

  /** The value bound to one kernel argument slot. */
  datatype Arg =
    | ImageArg(image: Mem)
    | BufferArg(buffer: Mem)
    | ImageSamplerArg(owner: Mem)      // the sampler an image object carries
    | SamplerArg(address: AddressMode, filter: FilterMode)
    | SizeArg(size: Int2)
    | IntArg(i: int)
    | RealArg(r: real)
    | Real2Arg(a: real, b: real)
    | Real4Arg(x: real, y: real, z: real, w: real)
    | ModeArg(mode: WriteMode)

  /** One `clEnqueueNDRangeKernel`: which kernel, what its slots held, the
      2-D global size, whether it waits on one predecessor event, and
      whether the host then waits for the queue to drain (`clFinish`). */
  datatype Dispatch = Dispatch(kernel: string, args: map<nat, Arg>, grid: Int2,
                               waits: bool, blocking: bool)

  /** What an engine returns: the size of the image it allocated for the
      result, and the dispatches it put on the queue, in order. */
  datatype Produced = Produced(size: Int2, log: seq<Dispatch>)

  /** `static_cast<int>` of a floating value: truncation toward zero. */
  function Trunc(r: real): int
  {
    if r >= 0.0 then r.Floor else -((-r).Floor)
  }

  /** Truncation drops the fraction toward zero. */
  lemma TruncBounds(r: real)
    ensures r >= 0.0 ==> 0 <= Trunc(r) && Trunc(r) as real <= r < Trunc(r) as real + 1.0
    ensures r < 0.0 ==> Trunc(r) <= 0 && Trunc(r) as real - 1.0 < r <= Trunc(r) as real
  {
  }

  /** C++ `/` on `int`: the quotient truncates toward zero. */
  function CDiv(a: int, b: int): (q: int)
    requires b != 0
    ensures a >= 0 && b > 0 ==> q == a / b
  {
    if (a >= 0) == (b > 0) then Abs(a) / Abs(b) else -(Abs(a) / Abs(b))
  }

  /** C++ `%` on `int`: the remainder takes the sign of the dividend. */
  function CMod(a: int, b: int): (m: int)
    requires b != 0
    ensures a == CDiv(a, b) * b + m
    ensures Abs(m) < Abs(b)
    ensures a >= 0 ==> m >= 0
    ensures a <= 0 ==> m <= 0
  {
    a - CDiv(a, b) * b
  }

  function Abs(a: int): nat { if a < 0 then -a else a }

  function Pow2(n: nat): (p: nat)
    ensures p >= 1
  {
    if n == 0 then 1 else 2 * Pow2(n - 1)
  }

  function PowReal(n: nat): (p: real)
    ensures p >= 1.0
  {
    if n == 0 then 1.0 else 2.0 * PowReal(n - 1)
  }
}
