/** `struct app`: the owner of the OpenCL environment. It registers the
    kernel names of each program (`match_kernels`), compiles every program
    and creates its kernels (`compile_kernels`), builds the six engines over
    their programs' slices (`init_executors`), and tears all of it down in
    its destructor. The side effects are recorded as a log of steps; the
    runtime's statuses are taken to be successful. The iteration orders of
    the unordered maps are parameters: `order` for `prog_tree`, and one
    order of its names per slice, once when the kernels are created and
    once, over copies of the slices, when they are released. */
module App {
  import opened Cl
  import Util
  import Zoomer
  import Converser
  import Rotator
  import Wavelet
  import Contraster

  /** The six program files. */
  datatype Program = ZoomerCl | RotatorCl | FilterCl | WaveletCl | ConverserCl | ContrasterCl

  function FileName(p: Program): string
  {
    match p
    case ZoomerCl => "zoomer.cl" case RotatorCl => "rotator.cl" case FilterCl => "filter.cl"
    case WaveletCl => "wavelet.cl" case ConverserCl => "converser.cl" case ContrasterCl => "contraster.cl"
  }

  /** The programs in `emplace` order. */
  const ProgramNames: seq<Program> := [ZoomerCl, RotatorCl, FilterCl, WaveletCl, ConverserCl, ContrasterCl]

  /** The kernel names `match_kernels` registers, one value per name. */
  datatype KernelId =
    | Lanczos | Bilinear | Splines | Precise
    | Clockwise | CounterClockwise | Flip | ShearRotate | MapRotate
    | HorizontalConv | VerticalConv | Convolution2D
    | DirectHaar | InverseHaar | SoftThreshold
    | GammaCorrection | SrgbToYcbcr | YcbcrToSrgb | SrgbToHsv | HsvToSrgb | SrgbToHsl | HslToSrgb
    | HslToHsv | HsvToHsl | SrgbToCiexyz | CiexyzToSrgb | CiexyzToCielab | CielabToCiexyz
    | ExclusiveHist | AdaptiveHistAll | AdaptiveHistSingle | Manual

  /** The name each kernel is created and looked up by. */
  function Name(k: KernelId): string
  {
    match k
    case Lanczos => "lanczos" case Bilinear => "bilinear" case Splines => "splines" case Precise => "precise"
    case Clockwise => "clockwise" case CounterClockwise => "counter_clockwise" case Flip => "flip"
    case ShearRotate => "shear_rotate" case MapRotate => "map_rotate"
    case HorizontalConv => "horizontal_conv" case VerticalConv => "vertical_conv" case Convolution2D => "convolution_2D"
    case DirectHaar => "direct_haar" case InverseHaar => "inverse_haar" case SoftThreshold => "soft_threshold"
    case GammaCorrection => "gamma_correction" case SrgbToYcbcr => "srgb_to_ycbcr" case YcbcrToSrgb => "ycbcr_to_srgb"
    case SrgbToHsv => "srgb_to_hsv" case HsvToSrgb => "hsv_to_srgb" case SrgbToHsl => "srgb_to_hsl"
    case HslToSrgb => "hsl_to_srgb" case HslToHsv => "hsl_to_hsv" case HsvToHsl => "hsv_to_hsl"
    case SrgbToCiexyz => "srgb_to_ciexyz" case CiexyzToSrgb => "ciexyz_to_srgb" case CiexyzToCielab => "ciexyz_to_cielab"
    case CielabToCiexyz => "cielab_to_ciexyz"
    case ExclusiveHist => "exclusive_hist" case AdaptiveHistAll => "adaptive_hist_all"
    case AdaptiveHistSingle => "adaptive_hist_single" case Manual => "manual"
  }

  /** The kernels `match_kernels` registers for each program, in the order
      listed there. */
  function Kernels(program: Program): seq<KernelId>
  {
    match program
    case ZoomerCl => [Lanczos, Bilinear, Splines, Precise]
    case RotatorCl => [Clockwise, CounterClockwise, Flip, ShearRotate, MapRotate]
    case FilterCl => [HorizontalConv, VerticalConv, Convolution2D]
    case WaveletCl => [DirectHaar, InverseHaar, SoftThreshold]
    case ConverserCl =>
      [GammaCorrection, SrgbToYcbcr, YcbcrToSrgb, SrgbToHsv, HsvToSrgb, SrgbToHsl, HslToSrgb, HslToHsv, HsvToHsl,
       SrgbToCiexyz, CiexyzToSrgb, CiexyzToCielab, CielabToCiexyz]
    case ContrasterCl => [ExclusiveHist, AdaptiveHistAll, AdaptiveHistSingle, Manual]
  }

  /** The keys of a program's slice of `prog_tree`. */
  function Slice(program: Program): set<KernelId>
  {
    Util.KeysOf(Kernels(program))
  }

  /** The names `match_kernels` lists for each program, in order: the
      names an engine can look up in its slice with `at`. */
  function Names(program: Program): (r: seq<string>)
    ensures |r| == |Kernels(program)|
    ensures forall i :: 0 <= i < |r| ==> r[i] == Name(Kernels(program)[i])
  {
    var ks := Kernels(program);
    seq(|ks|, i requires 0 <= i < |ks| => Name(ks[i]))
  }

  /** A permutation of the programs: an order `prog_tree` may iterate in. */
  predicate IsOrder(order: seq<Program>)
  {
    && |order| == |ProgramNames|
    && (forall p: Program :: p in order)
    && (forall i, j :: 0 <= i < j < |order| ==> order[i] != order[j])
  }

  /** A permutation of a program's kernel names: an order its slice, an
      unordered map, may iterate in. */
  predicate IsSliceOrder(names: seq<KernelId>, program: Program)
  {
    && |names| == |Kernels(program)|
    && (forall n :: n in names <==> n in Kernels(program))
    && (forall i, j :: 0 <= i < j < |names| ==> names[i] != names[j])
  }

  /** An iteration order for every slice. */
  predicate IsSliceOrders(inner: map<Program, seq<KernelId>>)
  {
    forall p: Program :: p in inner && IsSliceOrder(inner[p], p)
  }

  /** An entry for every slice, whatever its order. */
  predicate HasSliceOrders(inner: map<Program, seq<KernelId>>)
  {
    forall p: Program :: p in inner
  }

  /** The engines in `init_executors` order, each with the programs whose
      slices it is handed: the wavelet engine also takes converser's
      `gamma_correction`. The contraster engine is also handed the converser
      engine itself; that dependency between engines is not modelled here. */
  datatype Engine = Engine(name: string, programs: seq<Program>)

  const Engines: seq<Engine> := [
    Engine("zoomer", [ZoomerCl]), Engine("converser", [ConverserCl]),
    Engine("rotator", [RotatorCl]), Engine("filter", [FilterCl]),
    Engine("wavelet", [WaveletCl, ConverserCl]), Engine("contraster", [ContrasterCl])]

  datatype Step =
    | MatchExtensions
    | Register(program: Program)
    | CreateContext
    | Compile(program: Program)
    | CreateKernel(program: Program, kernel: KernelId)
    | CreateQueue
    | CreateEmptyBuffer
    | NewEngine(engine: Engine)
    | DeleteEngine(name: string)
    | ReleaseContext
    | ReleaseQueue
    | ReleaseEmptyBuffer
    | ReleaseProgram(program: Program)
    | ReleaseKernel(program: Program, kernel: KernelId)

  /** The steps of `compile_kernels`' inner loop over the first j names. */
  function KernelSteps(program: Program, names: seq<KernelId>, j: nat): seq<Step>
    requires j <= |names|
  {
    if j == 0 then [] else KernelSteps(program, names, j - 1) + [CreateKernel(program, names[j - 1])]
  }

  /** The steps of `compile_kernels`' outer loop over the first i programs,
      each slice iterated in its order in `inner`. */
  function CompileSteps(order: seq<Program>, inner: map<Program, seq<KernelId>>, i: nat): seq<Step>
    requires i <= |order| && HasSliceOrders(inner)
  {
    if i == 0 then []
    else CompileSteps(order, inner, i - 1) + [Compile(order[i - 1])]
           + KernelSteps(order[i - 1], inner[order[i - 1]], |inner[order[i - 1]]|)
  }

  /** One registration per program, in `emplace` order. */
  function RegisterSteps(): seq<Step>
  {
    seq(|ProgramNames|, k requires 0 <= k < |ProgramNames| => Register(ProgramNames[k]))
  }

  lemma RegisterStepsListed()
    ensures RegisterSteps() == [Register(ZoomerCl), Register(RotatorCl), Register(FilterCl),
                                Register(WaveletCl), Register(ConverserCl), Register(ContrasterCl)]
  {
  }

  /** One engine built per entry of `Engines`, in order. */
  function EngineSteps(): seq<Step>
  {
    seq(|Engines|, k requires 0 <= k < |Engines| => NewEngine(Engines[k]))
  }

  /** Everything the constructor does, in order. */
  function ConstructionSteps(order: seq<Program>, inner: map<Program, seq<KernelId>>): seq<Step>
    requires HasSliceOrders(inner)
  {
    [MatchExtensions] + RegisterSteps() + [CreateContext] + CompileSteps(order, inner, |order|)
      + [CreateQueue, CreateEmptyBuffer] + EngineSteps()
  }

  /** One deletion per engine, in declaration order. */
  function DeleteSteps(): seq<Step>
  {
    seq(|Engines|, k requires 0 <= k < |Engines| => DeleteEngine(Engines[k].name))
  }

  function ReleaseProgramSteps(programs: seq<Program>, i: nat): seq<Step>
    requires i <= |programs|
  {
    if i == 0 then [] else ReleaseProgramSteps(programs, i - 1) + [ReleaseProgram(programs[i - 1])]
  }

  function ReleaseKernelSteps(program: Program, names: seq<KernelId>, j: nat): seq<Step>
    requires j <= |names|
  {
    if j == 0 then [] else ReleaseKernelSteps(program, names, j - 1) + [ReleaseKernel(program, names[j - 1])]
  }

  function ReleaseSliceSteps(order: seq<Program>, inner: map<Program, seq<KernelId>>, i: nat): seq<Step>
    requires i <= |order| && HasSliceOrders(inner)
  {
    if i == 0 then []
    else ReleaseSliceSteps(order, inner, i - 1) + ReleaseKernelSteps(order[i - 1], inner[order[i - 1]], |inner[order[i - 1]]|)
  }

  /** Everything the destructor does, in order. */
  function DestructionSteps(programs: seq<Program>, order: seq<Program>, inner: map<Program, seq<KernelId>>): seq<Step>
    requires HasSliceOrders(inner)
  {
    DeleteSteps() + [ReleaseContext, ReleaseQueue, ReleaseEmptyBuffer]
      + ReleaseProgramSteps(programs, |programs|) + ReleaseSliceSteps(order, inner, |order|)
  }

  /** A slice as `match_kernels` leaves it: the program's names, no kernel
      objects yet. */
  ghost predicate Registered(slice: map<KernelId, Handle<KernelId>>, program: Program)
  {
    slice.Keys == Slice(program) && Unbuilt(slice)
  }

  /** A slice with no kernel objects. */
  ghost predicate Unbuilt(slice: map<KernelId, Handle<KernelId>>)
  {
    forall n :: n in slice ==> slice[n] == Null
  }

  /** A slice as `compile_kernels` leaves it: every name holds the kernel of
      that name built from its program. */
  ghost predicate Built(slice: map<KernelId, Handle<KernelId>>, program: Program)
  {
    forall n :: n in slice ==> slice[n] == Compiled(FileName(program), n)
  }

  /** A slice after the inner loop of `compile_kernels` has created the
      kernels of the first j names. */
  function Compiling(slice: map<KernelId, Handle<KernelId>>, program: Program, names: seq<KernelId>, j: nat)
    : map<KernelId, Handle<KernelId>>
    requires j <= |names|
  {
    if j == 0 then slice
    else Compiling(slice, program, names, j - 1)[names[j - 1] := Compiled(FileName(program), names[j - 1])]
  }

  /** The loop over the first j names keeps the other entries and compiles
      exactly those names. */
  lemma {:induction false} CompilingEffect(slice: map<KernelId, Handle<KernelId>>, program: Program, names: seq<KernelId>, j: nat)
    requires j <= |names|
    ensures Compiling(slice, program, names, j).Keys == slice.Keys + Util.KeysOf(names[..j])
    ensures forall n :: n in Compiling(slice, program, names, j) ==>
              Compiling(slice, program, names, j)[n] == if n in names[..j] then Compiled(FileName(program), n) else slice[n]
  {
    if j > 0 {
      CompilingEffect(slice, program, names, j - 1);
      assert names[..j] == names[..j - 1] + [names[j - 1]];
    }
  }

  /** The loop over all names compiles exactly those names on top of the
      slice. */
  lemma CompilingAll(slice: map<KernelId, Handle<KernelId>>, program: Program, names: seq<KernelId>)
    ensures Compiling(slice, program, names, |names|).Keys == slice.Keys + Util.KeysOf(names)
    ensures forall n :: n in names ==> Compiling(slice, program, names, |names|)[n] == Compiled(FileName(program), n)
  {
    CompilingEffect(slice, program, names, |names|);
    assert names[..|names|] == names;
  }

  /** Run over every name of a fresh slice, in any order it may iterate
      in, the loop builds it. */
  lemma CompilingBuilds(slice: map<KernelId, Handle<KernelId>>, program: Program, names: seq<KernelId>)
    requires IsSliceOrder(names, program) && Registered(slice, program)
    ensures Compiling(slice, program, names, |names|).Keys == Slice(program)
    ensures Built(Compiling(slice, program, names, |names|), program)
  {
    var ks := Slice(program);
    assert forall n :: n in names <==> n in ks;
    CompilingCovers(slice, program, names, ks);
  }

  /** The same over any key set the names enumerate. */
  lemma CompilingCovers(slice: map<KernelId, Handle<KernelId>>, program: Program, names: seq<KernelId>, ks: set<KernelId>)
    requires slice.Keys == ks && forall n :: n in names <==> n in ks
    ensures Compiling(slice, program, names, |names|).Keys == ks
    ensures Built(Compiling(slice, program, names, |names|), program)
  {
    CompilingAll(slice, program, names);
    assert Util.KeysOf(names) == ks;
  }

  /** The loop of `compile_kernels` over one slice: `clCreateKernel` for
      each name in the order `names`, storing the handle under its name.
      It returns the new slice and the kernels it created, in order. */
  method CreateSliceKernels(program: Program, names: seq<KernelId>, start: map<KernelId, Handle<KernelId>>)
    returns (slice: map<KernelId, Handle<KernelId>>, created: seq<Step>)
    ensures slice == Compiling(start, program, names, |names|)
    ensures created == KernelSteps(program, names, |names|)
  {
    slice := start;
    created := [];
    var j := 0;
    while j < |names|
      invariant 0 <= j <= |names| && created == KernelSteps(program, names, j)
      invariant slice == Compiling(start, program, names, j)
    {
      slice := slice[names[j] := Compiled(FileName(program), names[j])];
      created := created + [CreateKernel(program, names[j])];
      j := j + 1;
    }
  }

  class App {
    var extensions: set<string>
    var progTree: map<Program, map<KernelId, Handle<KernelId>>>
    var progObjects: seq<Program>
    var treeOrder: seq<Program>
    var engines: seq<Engine>
    var steps: seq<Step>

    /** `app(plat_id, dev_id)`, once the device is chosen: extensions, then
        the registry, then compilation, then the engines. */
    constructor (order: seq<Program>, inner: map<Program, seq<KernelId>>)
      requires IsOrder(order) && IsSliceOrders(inner)
      ensures steps == ConstructionSteps(order, inner) && engines == Engines && treeOrder == order && progObjects == order
      ensures extensions == {".pnm"}
      ensures forall p: Program :: p in progTree && progTree[p].Keys == Slice(p) && Built(progTree[p], p)
    {
      extensions := {};
      progTree := map[];
      progObjects := [];
      treeOrder := order;
      engines := [];
      steps := [];
      new;
      MatchExtensions();
      MatchKernels();
      CompileKernels(inner);
      InitExecutors();
    }

    /** `match_extensions`: the PNM loader and writer. */
    method MatchExtensions()
      modifies this
      ensures extensions == old(extensions) + {".pnm"} && steps == old(steps) + [Step.MatchExtensions]
      ensures progTree == old(progTree) && progObjects == old(progObjects) && treeOrder == old(treeOrder)
      ensures engines == old(engines)
    {
      extensions := extensions + {".pnm"};
      steps := steps + [Step.MatchExtensions];
    }

    /** `match_kernels`: one `emplace` of `map_of` per program, into a
        tree that starts empty. */
    method MatchKernels()
      requires progTree == map[]
      modifies this
      ensures forall p: Program :: p in progTree && Registered(progTree[p], p)
      ensures steps == old(steps) + RegisterSteps()
      ensures extensions == old(extensions) && progObjects == old(progObjects) && treeOrder == old(treeOrder)
      ensures engines == old(engines)
    {
      Emplace(ZoomerCl);
      ghost var zoomer := progTree[ZoomerCl];
      Emplace(RotatorCl);
      ghost var rotator := progTree[RotatorCl];
      Emplace(FilterCl);
      ghost var filter := progTree[FilterCl];
      Emplace(WaveletCl);
      ghost var wavelet := progTree[WaveletCl];
      Emplace(ConverserCl);
      ghost var converser := progTree[ConverserCl];
      Emplace(ContrasterCl);
      RegisterStepsListed();
      forall p: Program
        ensures p in progTree && Registered(progTree[p], p)
      {
        match p
        case ZoomerCl => assert progTree[p] == zoomer;
        case RotatorCl => assert progTree[p] == rotator;
        case FilterCl => assert progTree[p] == filter;
        case WaveletCl => assert progTree[p] == wavelet;
        case ConverserCl => assert progTree[p] == converser;
        case ContrasterCl =>
      }
    }

    /** One `prog_tree.emplace(file, util::map_of(names))` of a program
        not yet in the tree: its slice holds its names, none of them built;
        the rest of the tree is kept. */
    method Emplace(program: Program)
      requires program !in progTree
      modifies this
      ensures program in progTree && progTree == old(progTree)[program := progTree[program]]
      ensures Registered(progTree[program], program)
      ensures steps == old(steps) + [Register(program)]
      ensures extensions == old(extensions) && progObjects == old(progObjects) && treeOrder == old(treeOrder)
      ensures engines == old(engines)
    {
      var slice := Util.MapOf(Kernels(program));
      progTree := progTree[program := slice];
      steps := steps + [Register(program)];
    }

    /** `compile_kernels`: the context, then each program built in
        `prog_tree` order with every kernel of its slice created in the
        slice's order in `inner`, then the queue. The slices keep their
        names. */
    method CompileKernels(inner: map<Program, seq<KernelId>>)
      requires IsOrder(treeOrder) && progObjects == [] && IsSliceOrders(inner)
      requires forall p: Program :: p in progTree && Registered(progTree[p], p)
      modifies this
      ensures steps == old(steps) + [CreateContext] + CompileSteps(treeOrder, inner, |treeOrder|) + [CreateQueue]
      ensures forall p: Program :: p in progTree && progTree[p].Keys == Slice(p) && Built(progTree[p], p)
      ensures progObjects == treeOrder
      ensures extensions == old(extensions) && treeOrder == old(treeOrder) && engines == old(engines)
    {
      steps := steps + [CreateContext];
      ghost var base := steps;
      var i := 0;
      while i < |treeOrder|
        invariant 0 <= i <= |treeOrder| && steps == base + CompileSteps(treeOrder, inner, i) && progObjects == treeOrder[..i]
        invariant forall p: Program :: p in progTree && progTree[p].Keys == Slice(p)
        invariant forall p: Program :: if p in treeOrder[..i] then Built(progTree[p], p) else Unbuilt(progTree[p])
        invariant extensions == old(extensions) && treeOrder == old(treeOrder) && engines == old(engines)
      {
        var program := treeOrder[i];
        assert treeOrder[..i + 1] == treeOrder[..i] + [program];
        assert program !in treeOrder[..i];
        Build(program, inner[program]);
        Appended(base, CompileSteps(treeOrder, inner, i), [Compile(program)], KernelSteps(program, inner[program], |inner[program]|));
        i := i + 1;
      }
      assert treeOrder[..i] == treeOrder;
      steps := steps + [CreateQueue];
    }

    /** One iteration of `compile_kernels`: the program object is created
        and built, then its slice's kernels in the order `names`. */
    method Build(program: Program, names: seq<KernelId>)
      requires program in progTree && Registered(progTree[program], program) && IsSliceOrder(names, program)
      modifies this
      ensures program in progTree && progTree == old(progTree)[program := progTree[program]]
      ensures progTree[program].Keys == Slice(program) && Built(progTree[program], program)
      ensures progObjects == old(progObjects) + [program]
      ensures steps == old(steps) + [Compile(program)] + KernelSteps(program, names, |names|)
      ensures extensions == old(extensions) && treeOrder == old(treeOrder) && engines == old(engines)
    {
      progObjects := progObjects + [program];
      steps := steps + [Compile(program)];
      CreateKernels(program, names);
    }

    /** The inner loop of `compile_kernels`: `clCreateKernel` for each name
        of one program's slice, in the order `names` the slice iterates in;
        the other slices are untouched. */
    method CreateKernels(program: Program, names: seq<KernelId>)
      requires program in progTree && Registered(progTree[program], program) && IsSliceOrder(names, program)
      modifies this
      ensures program in progTree && progTree == old(progTree)[program := progTree[program]]
      ensures progTree[program].Keys == Slice(program) && Built(progTree[program], program)
      ensures steps == old(steps) + KernelSteps(program, names, |names|)
      ensures extensions == old(extensions) && progObjects == old(progObjects) && treeOrder == old(treeOrder)
      ensures engines == old(engines)
    {
      var slice, created := CreateSliceKernels(program, names, progTree[program]);
      CompilingBuilds(progTree[program], program, names);
      assert slice.Keys == Slice(program) && Built(slice, program);
      progTree := progTree[program := slice];
      steps := steps + created;
    }

    /** `init_executors`: the shared empty buffer, then the six engines. */
    method InitExecutors()
      modifies this
      ensures engines == old(engines) + Engines && steps == old(steps) + [CreateEmptyBuffer] + EngineSteps()
      ensures extensions == old(extensions) && progTree == old(progTree) && progObjects == old(progObjects)
      ensures treeOrder == old(treeOrder)
    {
      steps := steps + [CreateEmptyBuffer];
      engines := engines + Engines;
      steps := steps + [NewEngine(Engines[0]), NewEngine(Engines[1]), NewEngine(Engines[2]),
                        NewEngine(Engines[3]), NewEngine(Engines[4]), NewEngine(Engines[5])];
    }

    /** `~app`: the engines are deleted, then the context, the queue, the
        empty buffer, every program and every kernel are released, each
        slice's kernels in the order `inner` gives for its copy. */
    method Destroy(inner: map<Program, seq<KernelId>>)
      requires IsSliceOrders(inner)
      modifies this
      ensures engines == [] && steps == old(steps) + DestructionSteps(progObjects, treeOrder, inner)
      ensures progObjects == old(progObjects) && treeOrder == old(treeOrder)
      ensures progTree == old(progTree) && extensions == old(extensions)
    {
      ghost var start := steps;
      engines := [];
      steps := steps + (DeleteSteps() + [ReleaseContext, ReleaseQueue, ReleaseEmptyBuffer]);
      ReleasePrograms();
      ReleaseSlices(inner);
      Appended(start, DeleteSteps() + [ReleaseContext, ReleaseQueue, ReleaseEmptyBuffer],
               ReleaseProgramSteps(progObjects, |progObjects|), ReleaseSliceSteps(treeOrder, inner, |treeOrder|));
    }

    /** The first loop of `~app`: `clReleaseProgram` for every program
        object. */
    method ReleasePrograms()
      modifies this
      ensures steps == old(steps) + ReleaseProgramSteps(progObjects, |progObjects|)
      ensures engines == old(engines) && progObjects == old(progObjects) && treeOrder == old(treeOrder)
      ensures progTree == old(progTree) && extensions == old(extensions)
    {
      var i := 0;
      while i < |progObjects|
        invariant 0 <= i <= |progObjects| && steps == old(steps) + ReleaseProgramSteps(progObjects, i)
        invariant engines == old(engines) && progObjects == old(progObjects) && treeOrder == old(treeOrder)
        invariant progTree == old(progTree) && extensions == old(extensions)
      {
        steps := steps + [ReleaseProgram(progObjects[i])];
        i := i + 1;
      }
    }

    /** The second loop of `~app`: every slice's kernels, the slices in
        `prog_tree` order and each copy in its order in `inner`. */
    method ReleaseSlices(inner: map<Program, seq<KernelId>>)
      requires IsSliceOrders(inner)
      modifies this
      ensures steps == old(steps) + ReleaseSliceSteps(treeOrder, inner, |treeOrder|)
      ensures engines == old(engines) && progObjects == old(progObjects) && treeOrder == old(treeOrder)
      ensures progTree == old(progTree) && extensions == old(extensions)
    {
      var i := 0;
      while i < |treeOrder|
        invariant 0 <= i <= |treeOrder| && steps == old(steps) + ReleaseSliceSteps(treeOrder, inner, i)
        invariant engines == old(engines) && progObjects == old(progObjects) && treeOrder == old(treeOrder)
        invariant progTree == old(progTree) && extensions == old(extensions)
      {
        ReleaseKernels(treeOrder[i], inner[treeOrder[i]]);
        Regrouped(old(steps), ReleaseSliceSteps(treeOrder, inner, i),
                  ReleaseKernelSteps(treeOrder[i], inner[treeOrder[i]], |inner[treeOrder[i]]|));
        i := i + 1;
      }
    }

    /** The inner loop of `~app`: `clReleaseKernel` for every kernel of one
        slice's copy, in the order `names` it iterates in. */
    method ReleaseKernels(program: Program, names: seq<KernelId>)
      requires IsSliceOrder(names, program)
      modifies this
      ensures steps == old(steps) + ReleaseKernelSteps(program, names, |names|)
      ensures engines == old(engines) && progObjects == old(progObjects) && treeOrder == old(treeOrder)
      ensures progTree == old(progTree) && extensions == old(extensions)
    {
      var j := 0;
      while j < |names|
        invariant 0 <= j <= |names| && steps == old(steps) + ReleaseKernelSteps(program, names, j)
        invariant engines == old(engines) && progObjects == old(progObjects) && treeOrder == old(treeOrder)
        invariant progTree == old(progTree) && extensions == old(extensions)
      {
        steps := steps + [ReleaseKernel(program, names[j])];
        j := j + 1;
      }
    }

    /** `get_im` / `put_im`: the handler registered for the file's
        extension; a name without a '.', or with an unregistered extension,
        throws. */
    function Handler(filename: string): (r: Result<string>)
      reads this
      ensures r.Ok? <==> Util.FileExt(filename).Ok? && Util.FileExt(filename).value in extensions
      ensures r.Ok? ==> r.value == Util.FileExt(filename).value
    {
      match Util.FileExt(filename)
      case Err(m) => Err(m)
      // "unordered_map::at" stands for the what() text of the library's
      // std::out_of_range, which the standard leaves to the implementation.
      case Ok(ext) => if ext in extensions then Ok(ext) else Err("unordered_map::at")
    }
  }

  /** Regrouping a log that grew by one piece. */
  lemma Regrouped<T>(base: seq<T>, done: seq<T>, next: seq<T>)
    ensures base + done + next == base + (done + next)
  {
  }

  /** Regrouping a log that grew by two pieces. */
  lemma Appended<T>(base: seq<T>, done: seq<T>, next: seq<T>, more: seq<T>)
    ensures base + done + next + more == base + (done + next + more)
  {
  }

  // ---------------------------------------------------------------------
  // properties of the registry and of the two step sequences

  /** The name lists of `match_kernels`, as written there. */
  function ListedNames(program: Program): seq<string>
  {
    match program
    case ZoomerCl => ["lanczos", "bilinear", "splines", "precise"]
    case RotatorCl => ["clockwise", "counter_clockwise", "flip", "shear_rotate", "map_rotate"]
    case FilterCl => ["horizontal_conv", "vertical_conv", "convolution_2D"]
    case WaveletCl => ["direct_haar", "inverse_haar", "soft_threshold"]
    case ConverserCl =>
      ["gamma_correction", "srgb_to_ycbcr", "ycbcr_to_srgb", "srgb_to_hsv", "hsv_to_srgb", "srgb_to_hsl",
       "hsl_to_srgb", "hsl_to_hsv", "hsv_to_hsl", "srgb_to_ciexyz", "ciexyz_to_srgb", "ciexyz_to_cielab",
       "cielab_to_ciexyz"]
    case ContrasterCl => ["exclusive_hist", "adaptive_hist_all", "adaptive_hist_single", "manual"]
  }

  /** Naming the registered kernels gives back those lists. */
  lemma NamesAsListed(program: Program)
    ensures Names(program) == ListedNames(program)
  {
    match program
    case ZoomerCl => ZoomerNames();
    case RotatorCl => RotatorNames();
    case FilterCl => FilterNames();
    case WaveletCl => WaveletNames();
    case ConverserCl => ConverserNames();
    case ContrasterCl => ContrasterNames();
  }

  lemma ZoomerNames() ensures Names(ZoomerCl) == ListedNames(ZoomerCl) {}
  lemma RotatorNames() ensures Names(RotatorCl) == ListedNames(RotatorCl) {}
  lemma FilterNames() ensures Names(FilterCl) == ListedNames(FilterCl) {}
  lemma WaveletNames() ensures Names(WaveletCl) == ListedNames(WaveletCl) {}
  lemma ConverserNames() ensures Names(ConverserCl) == ListedNames(ConverserCl)
  {
    var n, l := Names(ConverserCl), ListedNames(ConverserCl);
    ConverserNamesGamma();
    ConverserNamesYcbcrHs();
    ConverserNamesCie();
    assert n == n[0..5] + n[5..9] + n[9..13];
    assert l == l[0..5] + l[5..9] + l[9..13];
  }

  lemma ConverserNamesGamma() ensures Names(ConverserCl)[0..5] == ListedNames(ConverserCl)[0..5] {}
  lemma ConverserNamesYcbcrHs() ensures Names(ConverserCl)[5..9] == ListedNames(ConverserCl)[5..9] {}
  lemma ConverserNamesCie() ensures Names(ConverserCl)[9..13] == ListedNames(ConverserCl)[9..13] {}

  lemma ContrasterNames() ensures Names(ContrasterCl) == ListedNames(ContrasterCl) {}

  /** Every kernel the zoomer looks up is registered in its slice. */
  lemma ZoomerLookupsPresent(kernelType: string)
    ensures Zoomer.Select(kernelType).Ok? ==> Zoomer.KernelName(Zoomer.Select(kernelType).value) in Names(ZoomerCl)
    ensures "precise" in Names(ZoomerCl)
  {
    NamesAsListed(ZoomerCl);
  }

  /** Every kernel `simple_angle` dispatches is registered in the
      rotator's slice. */
  lemma SimpleAngleLookupsPresent(theta: int, src: Int2)
    ensures Rotator.SimpleAngle(theta, src).Ok? ==> Rotator.SimpleAngle(theta, src).value.log[0].kernel in Names(RotatorCl)
  {
    NamesAsListed(RotatorCl);
  }

  /** Every kernel `rotator::run` dispatches is registered in the
      rotator's slice. */
  lemma RotatorLookupsPresent(algo: string, angle: real, src: Int2, t: Rotator.Trig)
    ensures Rotator.Run(algo, angle, src, t).Ok? ==> Rotator.Run(algo, angle, src, t).value.log[0].kernel in Names(RotatorCl)
  {
    if Rotator.IsSimple(angle) {
      SimpleAngleLookupsPresent(Trunc(angle), src);
    } else {
      NamesAsListed(RotatorCl);
    }
  }

  /** The kernel into every colour space the converser accepts is
      registered in its slice, and so is the gamma kernel. */
  lemma ConverserLookupsPresent(cs: string)
    ensures cs in Converser.Spaces ==> Converser.FromSrgb(cs).value.0 in Names(ConverserCl)
    ensures "gamma_correction" in Names(ConverserCl)
  {
    NamesAsListed(ConverserCl);
  }

  /** So is the kernel back out of every such space. */
  lemma ConverserInverseLookupsPresent(cs: string)
    ensures cs in Converser.Spaces ==> Converser.ToSrgb(cs).value.0 in Names(ConverserCl)
  {
    NamesAsListed(ConverserCl);
  }

  /** The blur's two passes are registered in the filter's slice. */
  lemma FilterLookupsPresent()
    ensures "horizontal_conv" in Names(FilterCl) && "vertical_conv" in Names(FilterCl)
  {
    NamesAsListed(FilterCl);
  }

  /** The wavelet's threshold kernel is registered in its slice. */
  lemma ThresholdLookupPresent()
    ensures "soft_threshold" in Names(WaveletCl)
  {
    NamesAsListed(WaveletCl);
  }

  /** The contraster's manual and exclusive kernels are registered. */
  lemma ContrasterLookupsPresent()
    ensures "manual" in Names(ContrasterCl) && "exclusive_hist" in Names(ContrasterCl)
  {
    NamesAsListed(ContrasterCl);
  }

  /** The contraster's `adaptive_hist` lookup is not registered, so its
      `at` throws. */
  lemma AdaptiveHistMissing()
    ensures "adaptive_hist" !in Names(ContrasterCl)
  {
    NamesAsListed(ContrasterCl);
  }

  /** The names registered on a program's slice, as a set. */
  function Registry(program: Program): (r: set<string>)
    ensures forall n :: n in r <==> n in Names(program)
  {
    set n | n in Names(program)
  }

  /** So in the application the adaptive contrast never dispatches: a
      region the exclusion check lets through meets the missing kernel. */
  lemma AdaptiveHistNeverRuns(size: Int2, region: Int2, exclude: int, mode: Contraster.ChannelMode)
    requires 2 * exclude >= region.x * region.y || (region.x != 0 && region.y != 0)
    ensures var r := Contraster.AdaptiveHist(size, region, exclude, mode, Registry(ContrasterCl));
            r.Err? && r.msg == if 2 * exclude >= region.x * region.y then "To big exclusion for given region"
                               else "unordered_map::at"
  {
    AdaptiveHistMissing();
  }

  /** Neither are the wavelet's Haar passes. */
  lemma HaarPassesMissing()
    ensures Wavelet.KernelOf(Wavelet.ForwardH, "haar") !in Names(WaveletCl)
    ensures Wavelet.KernelOf(Wavelet.ForwardV, "haar") !in Names(WaveletCl)
  {
    NamesAsListed(WaveletCl);
    assert Wavelet.KernelOf(Wavelet.ForwardH, "haar") == "horizontal_haar";
    assert Wavelet.KernelOf(Wavelet.ForwardV, "haar") == "vertical_haar";
  }

  lemma {:induction false} CompileStepsKinds(order: seq<Program>, inner: map<Program, seq<KernelId>>, i: nat)
    requires i <= |order| && HasSliceOrders(inner)
    ensures forall k :: 0 <= k < |CompileSteps(order, inner, i)| ==>
              CompileSteps(order, inner, i)[k].Compile? || CompileSteps(order, inner, i)[k].CreateKernel?
  {
    if i > 0 {
      CompileStepsKinds(order, inner, i - 1);
      KernelStepsKinds(order[i - 1], inner[order[i - 1]], |inner[order[i - 1]]|);
    }
  }

  lemma {:induction false} KernelStepsKinds(program: Program, names: seq<KernelId>, j: nat)
    requires j <= |names|
    ensures forall k :: 0 <= k < |KernelSteps(program, names, j)| ==> KernelSteps(program, names, j)[k].CreateKernel?
  {
    if j > 0 { KernelStepsKinds(program, names, j - 1); }
  }

  /** Construction fills and compiles every slice before it builds any
      engine, and builds the engines in their fixed order. */
  lemma SlicesBeforeEngines(order: seq<Program>, inner: map<Program, seq<KernelId>>)
    requires IsOrder(order) && HasSliceOrders(inner)
    ensures var s := ConstructionSteps(order, inner);
            forall i, j ::
              0 <= i < |s| && 0 <= j < |s| && s[i].NewEngine? && (s[j].Register? || s[j].Compile? || s[j].CreateKernel?)
              ==> j < i
    ensures var s := ConstructionSteps(order, inner);
            |s| >= |Engines| && forall k :: 0 <= k < |Engines| ==> s[|s| - |Engines| + k] == NewEngine(Engines[k])
  {
    var c := CompileSteps(order, inner, |order|);
    CompileStepsKinds(order, inner, |order|);
    var s := ConstructionSteps(order, inner);
    var head := [MatchExtensions] + RegisterSteps() + [CreateContext] + c + [CreateQueue, CreateEmptyBuffer];
    assert s == head + EngineSteps();
    forall k | 0 <= k < |head|
      ensures !head[k].NewEngine?
    {
      if 1 + |ProgramNames| + 1 <= k < 1 + |ProgramNames| + 1 + |c| {
        assert head[k] == c[k - (1 + |ProgramNames| + 1)];
      }
    }
  }

  /** The destructor deletes all six engines before it releases anything,
      and releases the context right before the queue. */
  lemma EnginesDeletedFirst(programs: seq<Program>, order: seq<Program>, inner: map<Program, seq<KernelId>>)
    requires HasSliceOrders(inner)
    ensures var s := DestructionSteps(programs, order, inner);
            && |s| >= |Engines| + 3
            && (forall k :: 0 <= k < |Engines| ==> s[k] == DeleteEngine(Engines[k].name))
            && (forall k :: |Engines| <= k < |s| ==> !s[k].DeleteEngine?)
            && s[|Engines|] == ReleaseContext && s[|Engines| + 1] == ReleaseQueue
  {
    ReleaseProgramKinds(programs, |programs|);
    ReleaseSliceKinds(order, inner, |order|);
    var s := DestructionSteps(programs, order, inner);
    var p, q := ReleaseProgramSteps(programs, |programs|), ReleaseSliceSteps(order, inner, |order|);
    var releases := [ReleaseContext, ReleaseQueue, ReleaseEmptyBuffer];
    NoDeletesConcat(releases, p);
    NoDeletesConcat(releases + p, q);
    var rest := releases + p + q;
    assert s == DeleteSteps() + rest;
    forall k | |Engines| <= k < |s|
      ensures !s[k].DeleteEngine?
    {
      assert s[k] == rest[k - |Engines|];
    }
  }

  /** A log that deletes no engine. */
  predicate NoDeletes(s: seq<Step>)
  {
    forall k :: 0 <= k < |s| ==> !s[k].DeleteEngine?
  }

  lemma NoDeletesConcat(a: seq<Step>, b: seq<Step>)
    requires NoDeletes(a) && NoDeletes(b)
    ensures NoDeletes(a + b)
  {
    forall k | 0 <= k < |a + b|
      ensures !(a + b)[k].DeleteEngine?
    {
      if k < |a| { assert (a + b)[k] == a[k]; } else { assert (a + b)[k] == b[k - |a|]; }
    }
  }

  lemma {:induction false} ReleaseProgramKinds(programs: seq<Program>, i: nat)
    requires i <= |programs|
    ensures forall k :: 0 <= k < |ReleaseProgramSteps(programs, i)| ==> ReleaseProgramSteps(programs, i)[k].ReleaseProgram?
  {
    if i > 0 { ReleaseProgramKinds(programs, i - 1); }
  }

  lemma {:induction false} ReleaseSliceKinds(order: seq<Program>, inner: map<Program, seq<KernelId>>, i: nat)
    requires i <= |order| && HasSliceOrders(inner)
    ensures forall k :: 0 <= k < |ReleaseSliceSteps(order, inner, i)| ==> ReleaseSliceSteps(order, inner, i)[k].ReleaseKernel?
  {
    if i > 0 {
      ReleaseSliceKinds(order, inner, i - 1);
      ReleaseKernelKinds(order[i - 1], inner[order[i - 1]], |inner[order[i - 1]]|);
    }
  }

  /** The kernel loop over the first j names creates exactly those names,
      in that order. */
  lemma {:induction false} KernelStepsAt(program: Program, names: seq<KernelId>, j: nat)
    requires j <= |names|
    ensures |KernelSteps(program, names, j)| == j
    ensures forall i :: 0 <= i < j ==> KernelSteps(program, names, j)[i] == CreateKernel(program, names[i])
  {
    if j > 0 { KernelStepsAt(program, names, j - 1); }
  }

  /** The release loop over the first j names releases exactly those
      names, in that order. */
  lemma {:induction false} ReleaseKernelStepsAt(program: Program, names: seq<KernelId>, j: nat)
    requires j <= |names|
    ensures |ReleaseKernelSteps(program, names, j)| == j
    ensures forall i :: 0 <= i < j ==> ReleaseKernelSteps(program, names, j)[i] == ReleaseKernel(program, names[i])
  {
    if j > 0 { ReleaseKernelStepsAt(program, names, j - 1); }
  }

  /** In whatever order a slice iterates, every registered kernel of the
      program is created once and released once, and nothing else is. */
  lemma EachKernelOnce(program: Program, names: seq<KernelId>, k: KernelId)
    requires IsSliceOrder(names, program)
    ensures var c, r := KernelSteps(program, names, |names|), ReleaseKernelSteps(program, names, |names|);
            && |c| == |r| == |Kernels(program)|
            && (CreateKernel(program, k) in c <==> k in Kernels(program))
            && (ReleaseKernel(program, k) in r <==> k in Kernels(program))
            && (forall i, j :: 0 <= i < j < |c| ==> c[i] != c[j] && r[i] != r[j])
  {
    CreatesEnumerate(program, names, Kernels(program), k);
    ReleasesEnumerate(program, names, Kernels(program), k);
  }

  /** The kernel loop over names that enumerate `ks` without repeats
      creates each kernel of `ks` once and no other. */
  lemma CreatesEnumerate(program: Program, names: seq<KernelId>, ks: seq<KernelId>, k: KernelId)
    requires |names| == |ks| && (forall n :: n in names <==> n in ks)
    requires forall i, j :: 0 <= i < j < |names| ==> names[i] != names[j]
    ensures var c := KernelSteps(program, names, |names|);
            && |c| == |ks|
            && (CreateKernel(program, k) in c <==> k in ks)
            && (forall i, j :: 0 <= i < j < |c| ==> c[i] != c[j])
  {
    KernelStepsAt(program, names, |names|);
    var c := KernelSteps(program, names, |names|);
    if CreateKernel(program, k) in c {
      var i :| 0 <= i < |c| && c[i] == CreateKernel(program, k);
      assert names[i] == k;
    }
    if k in ks {
      var i :| 0 <= i < |names| && names[i] == k;
      assert c[i] == CreateKernel(program, k);
    }
  }

  /** The release loop likewise releases each kernel of `ks` once. */
  lemma ReleasesEnumerate(program: Program, names: seq<KernelId>, ks: seq<KernelId>, k: KernelId)
    requires |names| == |ks| && (forall n :: n in names <==> n in ks)
    requires forall i, j :: 0 <= i < j < |names| ==> names[i] != names[j]
    ensures var r := ReleaseKernelSteps(program, names, |names|);
            && |r| == |ks|
            && (ReleaseKernel(program, k) in r <==> k in ks)
            && (forall i, j :: 0 <= i < j < |r| ==> r[i] != r[j])
  {
    ReleaseKernelStepsAt(program, names, |names|);
    var r := ReleaseKernelSteps(program, names, |names|);
    if ReleaseKernel(program, k) in r {
      var i :| 0 <= i < |r| && r[i] == ReleaseKernel(program, k);
      assert names[i] == k;
    }
    if k in ks {
      var i :| 0 <= i < |names| && names[i] == k;
      assert r[i] == ReleaseKernel(program, k);
    }
  }

  lemma {:induction false} ReleaseKernelKinds(program: Program, names: seq<KernelId>, j: nat)
    requires j <= |names|
    ensures forall k :: 0 <= k < |ReleaseKernelSteps(program, names, j)| ==> ReleaseKernelSteps(program, names, j)[k].ReleaseKernel?
  {
    if j > 0 { ReleaseKernelKinds(program, names, j - 1); }
  }
}
