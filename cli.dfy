/** The command resolution of `main`: from one parsed line (its command
    name and its key-to-value map) to the request the REPL carries out, or
    to the error it reports. `atoi` and `atof` are the caller's; the images
    are read and written by the engines and are not part of this module. */
module Cli {
  import opened Cl
  import Util
  import Converser

  /** `enum class commands`. */
  datatype Cmd = Init | Env | Dev | Quit | Zoom | Converse | Rotate | Contrast | Gauss | Wavelet

  /** The spelling of each command. */
  function Word(c: Cmd): string
  {
    match c
    case Init => "init"
    case Env => "env"
    case Dev => "dev"
    case Quit => "quit"
    case Zoom => "zoom"
    case Converse => "converse"
    case Rotate => "rotate"
    case Contrast => "contrast"
    case Gauss => "gauss"
    case Wavelet => "wavelet"
  }

  /** `command_ids`: every command but `wavelet` is listed. */
  const CommandIds: map<string, Cmd> :=
    map["init" := Init, "env" := Env, "dev" := Dev, "quit" := Quit,
        "zoom" := Zoom, "converse" := Converse, "rotate" := Rotate,
        "contrast" := Contrast, "gauss" := Gauss]

  /** `command_ids.find`. */
  function Lookup(name: string): (r: Option<Cmd>)
    ensures r.Some? ==> r.value != Wavelet && Word(r.value) == name
  {
    if name in CommandIds then Some(CommandIds[name]) else None
  }

  /** The table holds exactly the spelling of every command except `wavelet`. */
  lemma LookupExact(c: Cmd)
    ensures Lookup(Word(c)) == (if c == Wavelet then None else Some(c))
  {
    if c == Wavelet {
      assert |Word(c)| == 7;
      assert forall k | k in CommandIds :: |k| != 7;
    }
  }

  /** `cmd.second[key]`: a missing key reads as the empty string. */
  function Get(args: Util.Command, key: string): string
  {
    if key in args then args[key] else ""
  }

  predicate Given(args: Util.Command, key: string)
  {
    Get(args, key) != ""
  }

  /** Where a rotation turns about. */
  datatype Center = Middle | At(point: Int2)

  /** The rotation centre: the given point, or half of each side. */
  function CenterOf(c: Center, size: Int2): (r: Int2)
    ensures c.At? ==> r == c.point
    ensures c.Middle? && size.x >= 0 && size.y >= 0 ==>
      0 <= 2 * r.x <= size.x <= 2 * r.x + 1 && 0 <= 2 * r.y <= size.y <= 2 * r.y + 1
  {
    match c
    case Middle => Int2(CDiv(size.x, 2), CDiv(size.y, 2))
    case At(p) => p
  }

  datatype ContrastAlgo = Manual(cVal: real) | Exclusive(exclusion: real) | Adaptive(region: Int2, exclude: int)

  /** What a well-formed command asks the application to do. */
  datatype Request =
    | InitApp(platform: int, device: int)
    | EnvInfo
    | DeviceInfo
    | Exit
    | ZoomBy(input: string, output: string, kernType: string, factor: real)
    | ZoomTo(input: string, output: string, newSize: Int2)
    | ConverseImage(input: string, output: string, from: string, to: string)
    | SimpleAngle(input: string, output: string, algo: string)
    | RotateImage(input: string, output: string, algo: string, theta: real, center: Center)
    | ContrastImage(input: string, output: string, via: Option<string>, curve: ContrastAlgo)
    | Blur(input: string, output: string, sigma: real, winSize: int)

  /** What the REPL does with a line: run it, print one of its errors, or
      call into the application through a null `app_ptr`, whose behaviour
      C++ leaves undefined. */
  datatype Reply =
    | Run(request: Request)
    | UnknownCommand(name: string)
    | WrongUsage(cmd: Cmd)
    | Failure(msg: string)
    | NullApp(cmd: Cmd)

  /** `-i`, else the first free argument (zoom, converse, rotate). The
      input is missing exactly when neither is given, which is what the
      usage checks test. */
  function InputFlagFirst(args: Util.Command): (r: string)
    ensures r != "" <==> Given(args, "-i") || Given(args, "arg0")
    ensures r == Get(args, "-i") || r == Get(args, "arg0")
    ensures Given(args, "-i") ==> r == Get(args, "-i")
  {
    if Given(args, "-i") then Get(args, "-i") else Get(args, "arg0")
  }

  /** The first free argument, else `-i` (contrast, gauss). As above, the
      input is missing exactly when neither is given. */
  function InputFreeFirst(args: Util.Command): (r: string)
    ensures r != "" <==> Given(args, "-i") || Given(args, "arg0")
    ensures r == Get(args, "-i") || r == Get(args, "arg0")
    ensures Given(args, "arg0") ==> r == Get(args, "arg0")
  {
    if Given(args, "arg0") then Get(args, "arg0") else Get(args, "-i")
  }

  // ---------------------------------------------------------------------
  // init

  /** `init` as written: the device falls back to `arg1` only when the
      platform is still empty after its own fallback to `arg0`. */
  function InitAsWritten(args: Util.Command, atoi: string -> int): Reply
  {
    var platform := if Given(args, "-p") then Get(args, "-p") else Get(args, "arg0");
    var device := if platform == "" then Get(args, "arg1") else Get(args, "-d");
    if platform == "" || device == "" then WrongUsage(Init)
    else Run(InitApp(atoi(platform), atoi(device)))
  }

  /** As written, a device is only ever taken from `-d`: the positional
      `arg1` never reaches a request. */
  lemma InitAsWrittenIgnoresArg1(args: Util.Command, atoi: string -> int)
    ensures InitAsWritten(args, atoi).Run? <==>
      (Given(args, "-p") || Given(args, "arg0")) && Given(args, "-d")
    ensures InitAsWritten(args, atoi).Run? ==> InitAsWritten(args, atoi).request.device == atoi(Get(args, "-d"))
  {
  }

  /** `init 0 1`, the positional form of the syntax line, is rejected. */
  lemma InitAsWrittenRejectsPositional(atoi: string -> int)
    ensures InitAsWritten(map["exe" := "init", "arg0" := "0", "arg1" := "1"], atoi) == WrongUsage(Init)
  {
    var args := map["exe" := "init", "arg0" := "0", "arg1" := "1"];
    assert |"-d"| == 2 && |"arg0"| == |"arg1"| == |"exe"| + 1;
    assert "-d" !in args;
  }

  /** `init` as intended: the device falls back to `arg1` when `-d` is
      empty. */
  function InitDevice(args: Util.Command, atoi: string -> int): Reply
  {
    var platform := if Given(args, "-p") then Get(args, "-p") else Get(args, "arg0");
    var device := if Given(args, "-d") then Get(args, "-d") else Get(args, "arg1");
    if platform == "" || device == "" then WrongUsage(Init)
    else Run(InitApp(atoi(platform), atoi(device)))
  }

  /** Each of platform and device is taken from its flag, else from its
      free argument; usage is wrong exactly when one of them has neither. */
  lemma InitResolves(args: Util.Command, atoi: string -> int)
    ensures InitDevice(args, atoi).Run? || InitDevice(args, atoi) == WrongUsage(Init)
    ensures InitDevice(args, atoi).Run? <==>
      (Given(args, "-p") || Given(args, "arg0")) && (Given(args, "-d") || Given(args, "arg1"))
    ensures InitDevice(args, atoi).Run? ==>
      InitDevice(args, atoi).request.platform == atoi(if Given(args, "-p") then Get(args, "-p") else Get(args, "arg0")) &&
      InitDevice(args, atoi).request.device == atoi(if Given(args, "-d") then Get(args, "-d") else Get(args, "arg1"))
  {
  }

  /** `init 0 1` now starts platform 0, device 1. */
  lemma InitAcceptsPositional(atoi: string -> int)
    ensures InitDevice(map["exe" := "init", "arg0" := "0", "arg1" := "1"], atoi) == Run(InitApp(atoi("0"), atoi("1")))
  {
    var args := map["exe" := "init", "arg0" := "0", "arg1" := "1"];
    assert |"-d"| == 2 && |"-p"| == 2 && |"arg0"| == |"arg1"| == |"exe"| + 1;
    assert "-d" !in args && "-p" !in args;
    assert "arg0" != "arg1" by { assert "arg0"[3] != "arg1"[3]; }
  }

  // ---------------------------------------------------------------------
  // zoom

  /** The `zoom` case after `assert_init`. The source loads the image
      (main.cpp:79) before it checks `-f`, `-x` and `-y`, so an unreadable
      file fails ahead of a wrong usage of those flags; loading is I/O and
      not part of this model, so here the flag checks decide alone. */
  function ZoomCase(args: Util.Command, atoi: string -> int): Reply
  {
    var input := InputFlagFirst(args);
    var kernType := if Given(args, "-t") then Get(args, "-t") else "bilinear";
    if input == "" || !Given(args, "-o") then WrongUsage(Zoom)
    else if !Given(args, "-x") && !Given(args, "-y") then
      if !Given(args, "-f") then WrongUsage(Zoom)
      else Run(ZoomBy(input, Get(args, "-o"), kernType, (atoi(Get(args, "-f")) as real) / 100.0))
    else if !Given(args, "-x") || !Given(args, "-y") then WrongUsage(Zoom)
    else Run(ZoomTo(input, Get(args, "-o"), Int2(atoi(Get(args, "-x")), atoi(Get(args, "-y")))))
  }

  /** Zoom needs an input and an output, and either a factor alone or both
      target sides: giving exactly one side is wrong usage. With both sides
      the exact resize is chosen and `-t` and `-f` are ignored; otherwise
      the factor is the percentage over 100 and the kernel defaults to
      bilinear. */
  lemma ZoomResolves(args: Util.Command, atoi: string -> int)
    ensures var r := ZoomCase(args, atoi);
            && (r.Run? || r == WrongUsage(Zoom))
            && (r == WrongUsage(Zoom) <==>
                 InputFlagFirst(args) == "" || !Given(args, "-o")
                 || (Given(args, "-x") != Given(args, "-y"))
                 || (!Given(args, "-x") && !Given(args, "-y") && !Given(args, "-f")))
            && (r.Run? ==> r.request.input == InputFlagFirst(args) && r.request.output == Get(args, "-o"))
            && (r.Run? && r.request.ZoomTo? <==> r.Run? && Given(args, "-x") && Given(args, "-y"))
            && (r.Run? && r.request.ZoomTo? ==> r.request.newSize == Int2(atoi(Get(args, "-x")), atoi(Get(args, "-y"))))
            && (r.Run? && r.request.ZoomBy? ==>
                 r.request.factor == (atoi(Get(args, "-f")) as real) / 100.0
                 && r.request.kernType == (if Given(args, "-t") then Get(args, "-t") else "bilinear"))
  {
  }

  // ---------------------------------------------------------------------
  // converse

  /** The `converse` case after `assert_init`. */
  function ConverseCase(args: Util.Command): Reply
  {
    var input := InputFlagFirst(args);
    var to := Get(args, "-t");
    var from := Get(args, "-f");
    if to == "" && from == "" then WrongUsage(Converse)
    else if input == "" || !Given(args, "-o") then WrongUsage(Converse)
    else if from == "" then Run(ConverseImage(input, Get(args, "-o"), "srgb", to))
    else if to == "" then Run(ConverseImage(input, Get(args, "-o"), from, "srgb"))
    else Run(ConverseImage(input, Get(args, "-o"), from, to))
  }

  /** A conversion needs at least one of the two spaces; the one left out
      is sRGB, and a given one is used as given. */
  lemma ConverseResolves(args: Util.Command)
    ensures var r := ConverseCase(args);
            && (r.Run? || r == WrongUsage(Converse))
            && (r.Run? <==> (Given(args, "-t") || Given(args, "-f")) && InputFlagFirst(args) != "" && Given(args, "-o"))
            && (r.Run? ==>
                 && r.request.ConverseImage?
                 && r.request.input == InputFlagFirst(args) && r.request.output == Get(args, "-o")
                 && r.request.from == (if Given(args, "-f") then Get(args, "-f") else "srgb")
                 && r.request.to == (if Given(args, "-t") then Get(args, "-t") else "srgb"))
  {
  }

  // ---------------------------------------------------------------------
  // rotate

  /** The `rotate` case after `assert_init`. */
  function RotateCase(args: Util.Command, atoi: string -> int, atof: string -> real): Reply
  {
    var input := InputFlagFirst(args);
    if !Given(args, "-a") || input == "" || !Given(args, "-o") then WrongUsage(Rotate)
    else
      var algo := if Given(args, "-t") then Get(args, "-t") else "shear";
      if algo == "clockwise" || algo == "counter_clockwise" then
        Run(SimpleAngle(input, Get(args, "-o"), algo))
      else
        var center := if Given(args, "-x") && Given(args, "-y")
                      then At(Int2(atoi(Get(args, "-x")), atoi(Get(args, "-y"))))
                      else Middle;
        Run(RotateImage(input, Get(args, "-o"), algo, atof(Get(args, "-a")), center))
  }

  /** The angle, input and output are required (the angle even for the
      quarter turns, which ignore it); the algorithm defaults to shear; a
      centre is taken only when both coordinates are given. */
  lemma RotateResolves(args: Util.Command, atoi: string -> int, atof: string -> real)
    ensures var r := RotateCase(args, atoi, atof);
            var algo := if Given(args, "-t") then Get(args, "-t") else "shear";
            && (r.Run? || r == WrongUsage(Rotate))
            && (r.Run? <==> Given(args, "-a") && InputFlagFirst(args) != "" && Given(args, "-o"))
            && (r.Run? ==> r.request.input == InputFlagFirst(args) && r.request.output == Get(args, "-o")
                           && r.request.algo == algo)
            && (r.Run? ==> (r.request.SimpleAngle? <==> algo == "clockwise" || algo == "counter_clockwise"))
            && (r.Run? && r.request.RotateImage? ==>
                 && r.request.theta == atof(Get(args, "-a"))
                 && (r.request.center.At? <==> Given(args, "-x") && Given(args, "-y")))
            && (r.Run? && r.request.RotateImage? && r.request.center.At? ==>
                 r.request.center.point == Int2(atoi(Get(args, "-x")), atoi(Get(args, "-y"))))
  {
  }

  // ---------------------------------------------------------------------
  // contrast

  /** The `contrast` case after `assert_init`. After the usage check the
      image is loaded and, with `-v`, converted from sRGB into that space
      (`converser::run` from "srgb" is `from_srgb`) before the algorithm is
      looked at, so a space the converser rejects fails first. The curve
      runs on one channel of the converted image; what is finally written
      is `ContrastWrites`. */
  function ContrastCase(args: Util.Command, atoi: string -> int, atof: string -> real): Reply
  {
    var input := InputFreeFirst(args);
    if input == "" || !Given(args, "-o") then WrongUsage(Contrast)
    else if Given(args, "-v") && Converser.FromSrgb(Get(args, "-v")).Err? then
      Failure(Converser.FromSrgb(Get(args, "-v")).msg)
    else
      var via := if Given(args, "-v") then Some(Get(args, "-v")) else None;
      var algo := if Given(args, "-t") then Get(args, "-t") else "manual";
      if algo == "manual" then
        if !Given(args, "-c") then WrongUsage(Contrast)
        else Run(ContrastImage(input, Get(args, "-o"), via, Manual(atof(Get(args, "-c")))))
      else if algo == "exclusive" then
        var excl := if Given(args, "-e") then Get(args, "-e") else "0.39";
        Run(ContrastImage(input, Get(args, "-o"), via, Exclusive(atof(excl) / 100.0)))
      else if algo == "adaptive" then
        if !Given(args, "-x") || !Given(args, "-y") || !Given(args, "-e") then WrongUsage(Contrast)
        else Run(ContrastImage(input, Get(args, "-o"), via,
                               Adaptive(Int2(atoi(Get(args, "-x")), atoi(Get(args, "-y"))), atoi(Get(args, "-e")))))
      else Failure("Unknown contrast: " + algo)
  }

  /** Usage first, then the colour space, then the curve. A `-v` space the
      converser does not accept, "srgb" among them, fails with the
      converser's message whatever the curve. Of the three curves, manual
      (the default) needs a value, exclusive falls back to an exclusion of
      0.39 percent, adaptive needs a region and an exclusion; any other
      name fails. `-v` selects the single-channel path through that
      space. */
  lemma ContrastResolves(args: Util.Command, atoi: string -> int, atof: string -> real)
    ensures var r := ContrastCase(args, atoi, atof);
            var algo := if Given(args, "-t") then Get(args, "-t") else "manual";
            var spaceOk := !Given(args, "-v") || Get(args, "-v") in Converser.Spaces;
            && (InputFreeFirst(args) == "" || !Given(args, "-o") ==> r == WrongUsage(Contrast))
            && (InputFreeFirst(args) != "" && Given(args, "-o") && !spaceOk ==>
                 r == Failure("Unknown colour space " + Get(args, "-v")))
            && (r.Run? ==>
                 && r.request.ContrastImage?
                 && r.request.input == InputFreeFirst(args) && r.request.output == Get(args, "-o")
                 && r.request.via == (if Given(args, "-v") then Some(Get(args, "-v")) else None)
                 && spaceOk)
            && (InputFreeFirst(args) != "" && Given(args, "-o") && spaceOk ==>
                 && (algo == "manual" ==>
                      r == (if Given(args, "-c") then Run(r.request) else WrongUsage(Contrast))
                      && (r.Run? ==> r.request.curve == Manual(atof(Get(args, "-c")))))
                 && (algo == "exclusive" ==>
                      r.Run? && r.request.curve == Exclusive(atof(if Given(args, "-e") then Get(args, "-e") else "0.39") / 100.0))
                 && (algo == "adaptive" ==>
                      r == (if Given(args, "-x") && Given(args, "-y") && Given(args, "-e") then Run(r.request) else WrongUsage(Contrast))
                      && (r.Run? ==> r.request.curve == Adaptive(Int2(atoi(Get(args, "-x")), atoi(Get(args, "-y"))), atoi(Get(args, "-e")))))
                 && (algo != "manual" && algo != "exclusive" && algo != "adaptive" ==>
                      r == Failure("Unknown contrast: " + algo)))
  {
  }

  /** The images of the `contrast` case as a data flow: the file that was
      loaded, a conversion from one colour space to another, and a curve
      applied to one channel or to all of them. */
  datatype Picture =
    | Loaded(file: string)
    | Converted(from: string, to: string, of: Picture)
    | Contrasted(curve: ContrastAlgo, singleChannel: bool, of: Picture)

  /** The curves applied along a picture's history, first to last. */
  function Curves(p: Picture): seq<ContrastAlgo>
  {
    match p
    case Loaded(_) => []
    case Converted(_, _, q) => Curves(q)
    case Contrasted(c, _, q) => Curves(q) + [c]
  }

  /** The image `contrast` writes, as written. With `-v` the source is
      replaced by its conversion into that space and the curve runs on one
      channel of it; the conversion back to sRGB is then applied to the
      converted source rather than to the curve's result, and its output
      is swapped into `contrasted`, so the curve is lost. */
  function ContrastWrites(input: string, via: Option<string>, curve: ContrastAlgo): Picture
  {
    var src := if via.Some? then Converted("srgb", via.value, Loaded(input)) else Loaded(input);
    var contrasted := Contrasted(curve, via.Some?, src);
    if via.Some? then Converted(via.value, "srgb", src) else contrasted
  }

  /** The image `contrast` evidently means to write: with `-v`, the curve's
      result converted back to sRGB. */
  function ContrastWritesIntended(input: string, via: Option<string>, curve: ContrastAlgo): Picture
  {
    var src := if via.Some? then Converted("srgb", via.value, Loaded(input)) else Loaded(input);
    var contrasted := Contrasted(curve, via.Some?, src);
    if via.Some? then Converted(via.value, "srgb", contrasted) else contrasted
  }

  /** As written, with a colour space the output is the input converted
      there and back, no curve is applied, and so every curve gives the
      same image. */
  lemma ContrastAsWrittenDropsCurve(input: string, space: string, curve: ContrastAlgo, other: ContrastAlgo)
    ensures ContrastWrites(input, Some(space), curve)
            == Converted(space, "srgb", Converted("srgb", space, Loaded(input)))
    ensures Curves(ContrastWrites(input, Some(space), curve)) == []
    ensures ContrastWrites(input, Some(space), curve) == ContrastWrites(input, Some(space), other)
  {
    assert Curves(Converted("srgb", space, Loaded(input))) == Curves(Loaded(input)) == [];
  }

  /** As intended, the output has exactly the requested curve applied: on
      one channel between the two conversions with a colour space, on all
      channels without one, where it agrees with the code as written. */
  lemma ContrastIntendedAppliesCurve(input: string, via: Option<string>, curve: ContrastAlgo)
    ensures Curves(ContrastWritesIntended(input, via, curve)) == [curve]
    ensures via.Some? ==>
              ContrastWritesIntended(input, via, curve)
              == Converted(via.value, "srgb", Contrasted(curve, true, Converted("srgb", via.value, Loaded(input))))
    ensures via.None? ==>
              ContrastWritesIntended(input, via, curve) == ContrastWrites(input, via, curve)
              == Contrasted(curve, false, Loaded(input))
  {
    var src := if via.Some? then Converted("srgb", via.value, Loaded(input)) else Loaded(input);
    assert Curves(src) == [];
    assert Curves(Contrasted(curve, via.Some?, src)) == [curve];
  }

  // ---------------------------------------------------------------------
  // gauss

  /** The `gauss` case: sigma 1 and a window of 3 unless given. */
  function GaussCase(args: Util.Command, atoi: string -> int, atof: string -> real): (r: Reply)
  {
    var input := InputFreeFirst(args);
    if input == "" || !Given(args, "-o") then WrongUsage(Gauss)
    else
      var sigma := if Given(args, "-s") then atof(Get(args, "-s")) else 1.0;
      var win := if Given(args, "-w") then atoi(Get(args, "-w")) else 3;
      Run(Blur(input, Get(args, "-o"), sigma, win))
  }

  lemma GaussResolves(args: Util.Command, atoi: string -> int, atof: string -> real)
    ensures var r := GaussCase(args, atoi, atof);
            && (r.Run? || r == WrongUsage(Gauss))
            && (r.Run? <==> InputFreeFirst(args) != "" && Given(args, "-o"))
            && (r.Run? ==>
                 && r.request.Blur?
                 && r.request.input == InputFreeFirst(args) && r.request.output == Get(args, "-o")
                 && r.request.sigma == (if Given(args, "-s") then atof(Get(args, "-s")) else 1.0)
                 && r.request.winSize == (if Given(args, "-w") then atoi(Get(args, "-w")) else 3))
  {
  }

  // ---------------------------------------------------------------------
  // the dispatch of one line

  /** Lookup, then `assert_init` for the commands that call it, then the
      case, as written. `hasApp` says whether `app_ptr` is set. `init`
      takes its device from `-d` only, and `gauss`, which has no
      `assert_init`, reaches `app_ptr->get_im` without an application once
      its usage check passes. */
  function Resolve(name: string, args: Util.Command, hasApp: bool, atoi: string -> int, atof: string -> real): (r: Reply)
    ensures r.UnknownCommand? <==> Lookup(name).None?
    ensures r.UnknownCommand? ==> r.name == name
    ensures r.WrongUsage? ==> Lookup(name) == Some(r.cmd)
    ensures r.NullApp? <==> Lookup(name) == Some(Gauss) && !hasApp && GaussCase(args, atoi, atof).Run?
  {
    match Lookup(name)
    case None => UnknownCommand(name)
    case Some(c) =>
      match c
      case Init => InitAsWritten(args, atoi)
      case Env => Run(EnvInfo)
      case Quit => Run(Exit)
      case Gauss =>
        var r := GaussCase(args, atoi, atof);
        if r.Run? && !hasApp then NullApp(Gauss) else r
      case _ =>
        if !hasApp then Failure("Not initialised")
        else match c
          case Dev => Run(DeviceInfo)
          case Zoom => ZoomCase(args, atoi)
          case Converse => ConverseCase(args)
          case Rotate => RotateCase(args, atoi, atof)
          case Contrast => ContrastCase(args, atoi, atof)
          case _ => Run(Exit)
  }

  /** The dispatch as evidently intended: `init` falls back to `arg1` for
      the device, and `gauss` checks for an application as the other
      image commands do. Everything else is as written. */
  function ResolveIntended(name: string, args: Util.Command, hasApp: bool, atoi: string -> int, atof: string -> real): (r: Reply)
    ensures !r.NullApp?
    ensures r.UnknownCommand? <==> Lookup(name).None?
    ensures r.WrongUsage? ==> Lookup(name) == Some(r.cmd)
    ensures !hasApp && Lookup(name).Some? && Lookup(name).value !in {Init, Env, Quit} ==> r == Failure("Not initialised")
  {
    match Lookup(name)
    case Some(Init) => InitDevice(args, atoi)
    case Some(Gauss) => if !hasApp then Failure("Not initialised") else GaussCase(args, atoi, atof)
    case _ => Resolve(name, args, hasApp, atoi, atof)
  }

  /** `wavelet` has a syntax line but no entry in the table, so it is
      reported as an unknown command. */
  lemma WaveletUnknown(args: Util.Command, hasApp: bool, atoi: string -> int, atof: string -> real)
    ensures Resolve("wavelet", args, hasApp, atoi, atof) == UnknownCommand("wavelet")
    ensures ResolveIntended("wavelet", args, hasApp, atoi, atof) == UnknownCommand("wavelet")
  {
    LookupExact(Wavelet);
  }

  /** As written: without an application `dev` and the image commands
      report "Not initialised", except `gauss`, which gives its usage error
      or calls through the null `app_ptr`; `init`, `env` and `quit` do not
      depend on it. With an application each command goes to its own case,
      `init` to the one as written. */
  lemma InitialisationGuard(c: Cmd, args: Util.Command, hasApp: bool, atoi: string -> int, atof: string -> real)
    requires c != Wavelet
    ensures var r := Resolve(Word(c), args, hasApp, atoi, atof);
            && (c in {Dev, Zoom, Converse, Rotate, Contrast} && !hasApp ==> r == Failure("Not initialised"))
            && (c == Gauss && !hasApp ==>
                  r == (if GaussCase(args, atoi, atof).Run? then NullApp(Gauss) else GaussCase(args, atoi, atof)))
            && (c in {Init, Env, Quit} ==> r == Resolve(Word(c), args, !hasApp, atoi, atof))
            && (r.NullApp? ==> c == Gauss && !hasApp)
            && (hasApp || c in {Init, Env, Quit} ==>
                 r == match c
                      case Init => InitAsWritten(args, atoi)
                      case Env => Run(EnvInfo)
                      case Dev => Run(DeviceInfo)
                      case Quit => Run(Exit)
                      case Zoom => ZoomCase(args, atoi)
                      case Converse => ConverseCase(args)
                      case Rotate => RotateCase(args, atoi, atof)
                      case Contrast => ContrastCase(args, atoi, atof)
                      case Gauss => GaussCase(args, atoi, atof)
                      case Wavelet => r)
  {
    LookupExact(c);
  }

  /** As intended: without an application every command but `init`, `env`
      and `quit` reports "Not initialised", nothing reaches a null
      `app_ptr`, and only `init` and `gauss` resolve differently from the
      code as written. */
  lemma IntendedGuard(c: Cmd, args: Util.Command, hasApp: bool, atoi: string -> int, atof: string -> real)
    requires c != Wavelet
    ensures var r := ResolveIntended(Word(c), args, hasApp, atoi, atof);
            && (c !in {Init, Env, Quit} && !hasApp ==> r == Failure("Not initialised"))
            && !r.NullApp?
            && (c == Init ==> r == InitDevice(args, atoi))
            && (c != Init && c != Gauss ==> r == Resolve(Word(c), args, hasApp, atoi, atof))
            && (c == Gauss && hasApp ==> r == Resolve(Word(c), args, hasApp, atoi, atof))
  {
    LookupExact(c);
    InitialisationGuard(c, args, hasApp, atoi, atof);
  }

  /** `gauss a -o b` before any successful `init` calls through the null
      `app_ptr` as written. */
  lemma GaussAsWrittenUnguarded(atoi: string -> int, atof: string -> real)
    ensures Resolve("gauss", map["exe" := "gauss", "arg0" := "a", "-o" := "b"], false, atoi, atof) == NullApp(Gauss)
  {
    var args := map["exe" := "gauss", "arg0" := "a", "-o" := "b"];
    LookupExact(Gauss);
    assert Word(Gauss) == "gauss";
    assert "arg0" in args && args["arg0"] == "a";
    assert "-o" in args && args["-o"] == "b";
  }

  /** The same line reports "Not initialised" as intended. */
  lemma GaussIntendedGuarded(atoi: string -> int, atof: string -> real)
    ensures ResolveIntended("gauss", map["exe" := "gauss", "arg0" := "a", "-o" := "b"], false, atoi, atof)
            == Failure("Not initialised")
  {
    LookupExact(Gauss);
    assert Word(Gauss) == "gauss";
  }

  /** `contrast a -o b -v srgb -t bogus` fails in the converser, which
      rejects "srgb", before the unknown curve is noticed. */
  lemma ContrastConvertsFirst(atoi: string -> int, atof: string -> real)
    ensures Resolve("contrast", map["exe" := "contrast", "arg0" := "a", "-o" := "b", "-v" := "srgb", "-t" := "bogus"],
                    true, atoi, atof)
            == Failure("Unknown colour space srgb")
  {
    var args := map["exe" := "contrast", "arg0" := "a", "-o" := "b", "-v" := "srgb", "-t" := "bogus"];
    LookupExact(Contrast);
    assert Word(Contrast) == "contrast";
    assert "arg0" in args && args["arg0"] == "a";
    assert "-o" in args && args["-o"] == "b";
    assert "-v" in args && args["-v"] == "srgb";
    assert Converser.FromSrgb("srgb") == Err("Unknown colour space srgb");
  }

  /** With `-i` and a free argument both present and different, zoom,
      converse and rotate read `-i` while contrast and gauss read the free
      argument. */
  lemma InputOrderDiffers(args: Util.Command)
    requires Given(args, "-i") && Given(args, "arg0") && Get(args, "-i") != Get(args, "arg0")
    ensures InputFlagFirst(args) == Get(args, "-i") && InputFreeFirst(args) == Get(args, "arg0")
    ensures InputFlagFirst(args) != InputFreeFirst(args)
  {
  }
}
