# Im_CL host core in Dafny

Im_CL is a small interactive image-processing toolkit. Its host program in C++
drives OpenCL kernels. This project models that host side:

- the command-line parser (`util::next_action`) and the command dispatcher of
  `main.cpp`;
- the `app` object, which registers the kernel names of six OpenCL programs,
  compiles them, builds the engines over their kernel slices and tears all of
  it down again;
- the `executor` base with its six common kernel arguments and its two launch
  primitives;
- the six engines: `zoomer` (bilinear, Lanczos and BC-spline pyramids plus the
  `precise` area resampler), `rotator` (quarter turns, shear and map
  rotation), `filter` (separable Gaussian), `wavelet` (Haar
  decomposition, soft threshold and reconstruction), `converser` (colour
  spaces through sRGB) and `contraster` (manual, exclusive-histogram and
  adaptive contrast);
- `im_object`, a device image with a host copy cached on demand, and
  `im_values`, cached per-image statistics;
- the helpers of `util.cpp`: `next_power`, `assert_success`, `file_ext`,
  `map_of` and `euclidean_gcd`.

The model does not compute pixels. It records what the host asks of the
device. Every kernel launch is a `Dispatch` value: the kernel name, the
argument slots bound on it, the global grid, whether it waits on an earlier
event and whether it blocks. Engines are pure functions or methods that
return the dispatches they issue. Objects that the source mutates in place
are classes:

- `App.App` keeps `progTree`, `progObjects`, `engines` and a log of `steps`;
- `Executor.Kernel` keeps its slots, and `Executor.Executor` keeps a dispatch
  log;
- `ImObject.Env` keeps a log of device operations;
- `ImObject.ImObject` keeps its storage and its cached host copy;
- `ImValues.ImValues` keeps its `mean`, `varSq` and `histograms` arrays and
  its cache flags.

The loops of the source are `while` loops with invariants. Each is proved
against a recursive function that states its result: the histogram tables,
the channel sums, the zoom pyramid, the wavelet pass schedule, the clip
walks, the compile and release logs, the token grouping of the parser and
the gcd loop.

Shared definitions live in `cl.dfy`: images and buffers (`Mem`), argument
values (`Arg`), `Dispatch`, `Result`/`Outcome`/`Option`, and C's truncating
`/`, `%` and float-to-int cast. `histogram.dfy` holds the histogram table
that `im_object` and `im_values` both fill.

## Model

| member | source | states |
|---|---|---|
| Util.EuclideanGcd | im_cl/util.cpp:70-76 | The loop as written stops after at most two rounds and returns `GcdAsWritten(a, b)`. A zero argument gives the sum of both. Two positive arguments give a positive result no larger than `a`. |
| Util.GcdAsWrittenBounds | im_cl/util.cpp:70-76 | As written, a positive first argument gives a result in `1..a`. |
| Util.GcdAsWrittenCounterexample | im_cl/util.cpp:72-73 | As written, the gcd of 2 and 3 is 2, which does not divide 3; the true gcd is 1. The gcd of 7 and 5 comes out as 2. |
| Util.GcdDividesBoth | im_cl/util.cpp:70-76 | The corrected Euclid (`b %= a`) returns 0 exactly when both arguments are 0. Otherwise its result divides both arguments. |
| Util.GcdGreatest | im_cl/util.cpp:70-76 | Every positive common divisor of the arguments divides the corrected gcd. |
| Util.GcdAtMost | im_cl/util.cpp:70-76 | For a positive first argument, the corrected gcd lies in `1..a`. |
| Util.NextPower | im_cl/util.cpp:5-10 | Succeeds exactly when some table entry is at least `val`. The value is the first such entry: every earlier entry is below `val`. Otherwise it fails with "Too large number". |
| Util.NextPowerUnfilled | im_cl/util.cpp:3-10 | Over the table the program actually has (`power_2_arr` is never written, so all zeros), the result is 0 for `val ≤ 0` and "Too large number" for every `val ≥ 1`. |
| Util.PowersTableGivesLeastPower | im_cl/util.cpp:5-10 | Were the table filled with powers of two, which the source never does, the first entry at least `val` would be the least power of two at least `val`. |
| Util.Category | im_cl/util.cpp:15-36 | The category name is empty exactly for codes outside the switch. |
| Util.AssertSuccess | im_cl/util.cpp:12-38 | Passes exactly on `CL_SUCCESS`. A failure message starts with the caller's message, followed by the code's category in parentheses. |
| Util.CategoriesDistinct | im_cl/util.cpp:15-36 | Distinct listed codes have distinct category names. |
| Util.LastDot | im_cl/util.cpp:41 | The index of the last `.` in the name, or -1 when there is none. |
| Util.FileExt | im_cl/util.cpp:40-43 | Succeeds exactly when the name contains a dot. The extension is a suffix of the name that starts at its last dot and contains no other dot. A name without a dot raises `substr`'s out-of-range error. |
| Util.NextAction | im_cl/util.cpp:45-60 | The command map is `{"exe": first token}` with the grouped tokens emplaced in order. |
| Util.GroupUngroup | im_cl/util.cpp:54-57 | Grouping the tokens into flag/value pairs and free arguments loses nothing: ungrouping gives the tokens back. |
| Util.InsertKeeps | im_cl/util.cpp:55-56 | `emplace` never overwrites a key already in the command. |
| Util.ExeIsFirstToken | im_cl/util.cpp:53 | The command name is stored under "exe". |
| Util.FirstFlagWins | im_cl/util.cpp:55 | For a flag given more than once, the first value is kept. |
| Util.FreeArgsNumbered | im_cl/util.cpp:47-56 | The i-th free argument is stored under "arg" followed by the character `'0' + i`, counting free arguments only. |
| Util.MapOf | im_cl/util.cpp:62-68 | The map's keys are exactly the listed names, each bound to a null kernel. |
| Executor.CommonArgs | im_cl/executor.cpp:7-27 | The common arguments occupy exactly slots 0 to 5. |
| Executor.BoundSlots | im_cl/executor.cpp:10-26 | After the first n slots are bound, slots below n hold the common arguments and other earlier slots are unchanged. No other slot appears. |
| Executor.BoundAllIsCommon | im_cl/executor.cpp:7-27 | Binding all six slots on a kernel with no slots yields exactly the common arguments. |
| Executor.FirstFailure | im_cl/executor.cpp:10-26 | The index of the first failing status; every status before it succeeded. |
| Executor.BindOutcome | im_cl/executor.cpp:10-26 | Passes exactly when all six statuses succeed. Otherwise it is the `assert_success` failure of the first failing slot, with that slot's message. |
| Executor.Kernel.constructor | im_cl/executor.cpp:10 | A kernel starts with its name and no slots bound. |
| Executor.Kernel.SetArg | im_cl/executor.cpp:10 | Succeeds exactly on a success status. Only then is the slot set, to the value. |
| Executor.Executor.constructor | im_cl/executor.cpp:3-4 | An executor holds its program's kernel slice and an empty dispatch log. |
| Executor.Executor.SetCommonArgs | im_cl/executor.cpp:7-27 | Slots are bound in order up to the first failure, where the throw stops the binding. The outcome is `BindOutcome`. |
| Executor.Executor.BindSlot | im_cl/executor.cpp:10-26 | One slot's bind: on success the slot holds its common argument; otherwise nothing changes. |
| Executor.Executor.RunBlocking | im_cl/executor.cpp:30-36 | The outcome is `assert_success` on the enqueue status with the blocking message. On success exactly one blocking dispatch of the kernel's current slots is logged. |
| Executor.Executor.RunWithEvent | im_cl/executor.cpp:39-46 | Succeeds exactly on a success status. It returns the log index (the event) of the single non-blocking dispatch it appended. On failure the log is unchanged. |
| Executor.BindAndRun | im_cl/executor.cpp:7-36 | On fresh slots and successful statuses, a bind followed by a blocking run issues one dispatch with the common arguments over the destination's size. |
| Zoomer.Select | im_cl/zoomer.cpp:61-77 | Accepts exactly "bilinear", "lan3".."lan5" (Lanczos orders 1 to 3) and the four spline names (polynomial indices 0 to 3), each mapped to its own kernel. Any other name fails with "Unknown kernel type " and the name. |
| Zoomer.PreciseNotSelected | im_cl/zoomer.cpp:53-57 | "precise" is routed before the name dispatch and is not one of its names. |
| Zoomer.CalcSplinePolynom | im_cl/zoomer.cpp:36-43 | The coefficients as written. The outer piece ends at `98C - 96` at x = 2 instead of 0, and meets the inner piece at x = 1 with `B + 49C - 48` instead of `B`. |
| Zoomer.CalcSplinePolynomCorrected | im_cl/zoomer.cpp:37-38 | The Mitchell-Netravali coefficients with `-48C` on line 38. Both pieces have four coefficients. |
| Zoomer.CorrectedSplineIsSmooth | im_cl/zoomer.cpp:37-38 | The corrected pieces agree in value (B) and slope at x = 1. The outer piece vanishes with zero slope at x = 2. The weights at offsets 0 and ±1 sum to 6, the normaliser. |
| Zoomer.Polynomials | im_cl/zoomer.cpp:17-38 | The constructor precomputes one polynomial pair for each of the four spline names with the coefficients as written, four per piece. Each inner piece is 6 - 2B at x = 0 and B at x = 1. |
| Zoomer.PolynomialsSmooth | im_cl/zoomer.cpp:17-38 | In the table built with the corrected coefficient, every spline is continuous with matching slope at x = 1, vanishes at x = 2 and sums to 6. |
| Zoomer.PolynomialsAsWrittenDiscontinuous | im_cl/zoomer.cpp:17-38 | In the table the constructor builds, every spline is discontinuous at x = 1 and nonzero at x = 2. |
| Zoomer.PolynomialsIntended | im_cl/zoomer.cpp:17-38 | The same four pairs built with the corrected coefficient on line 38, four coefficients per piece. |
| Zoomer.PolynomialsDifferInOneCoefficient | im_cl/zoomer.cpp:38 | The table as written and the corrected one differ only in the linear coefficient of the outer piece. |
| Zoomer.MagnitudeStep | im_cl/zoomer.cpp:92-99 | With the factor read as a magnification g (f, or 1/f when shrinking), the loop guard is g > 2, and each `factor /= step_factor` halves g. |
| Zoomer.ZoomArgsSlots | im_cl/zoomer.cpp:110-130 | Slots 0 to 3 hold source, sampler, destination and the factor pair. Bilinear binds no more. Lanczos adds its order in slot 4. Splines add their two polynomial buffers in slots 4 and 5. |
| Zoomer.ZoomDispatches | im_cl/zoomer.cpp:92-106 | One dispatch per pyramid level, in order, each from the previous level's image to the next. |
| Zoomer.Pyramid | im_cl/zoomer.cpp:92-104 | The level grids end with the final size. |
| Zoomer.EveryPassBindsStep | im_cl/zoomer.cpp:88-106 | Every pass binds the kernel's sampler and the step factor. The first pass reads the input and the last writes the output. Each pass writes the image the next one reads. |
| Zoomer.PyramidSteps | im_cl/zoomer.cpp:92-103 | The loop halves g until it is at most 2: every intermediate g exceeds 2. The final size is the size after k doublings or halvings, scaled by the residual factor. |
| Zoomer.StepCountBracket | im_cl/zoomer.cpp:92-100 | The number of halving steps k satisfies 2^k < g ≤ 2^(k+1), so it grows with log2 of the factor. |
| Zoomer.ResidualMagnitude | im_cl/zoomer.cpp:92-103 | Starting from g ≥ 1, the residual magnification lies in [1, 2], and exceeds 1 when g does. |
| Zoomer.ResidualInRange | im_cl/zoomer.cpp:92-103 | The factor left for the last pass lies in [1, 2] when enlarging and in [0.5, 1) when shrinking. |
| Zoomer.NonPositiveNeverExits | im_cl/zoomer.cpp:80-100 | For a factor ≤ 0 the guard holds after any number of rounds, so the loop never ends. |
| Zoomer.PreciseTaps | im_cl/zoomer.cpp:141-145 | With the gcd as written, `split_out` lies in `1..size`, `split_in` lies in `0..new size`, and `area` is the reciprocal of the `split_out` area. |
| Zoomer.PreciseTapsPerAxis | im_cl/zoomer.cpp:141-145 | As written, on each axis: when the size divides into the new size, `split_out` is 1 and `split_in` is the quotient; when the new size divides the size, `split_out` is the quotient and `split_in` is 1. |
| Zoomer.PreciseTapsCorrected | im_cl/zoomer.cpp:141-145 | With the corrected gcd, `split_out` is positive and `area` is the reciprocal of its area. |
| Zoomer.PreciseCorrectedRatio | im_cl/zoomer.cpp:141-145 | With the corrected gcd, `split_in / split_out` equals `new size / size` on both axes. |
| Zoomer.PreciseTapsAsWrittenRatio | im_cl/zoomer.cpp:141-145 | As written, resampling 2x2 to 3x3 gets 1:1 taps, which is the wrong ratio. The corrected taps are 2:3. |
| Zoomer.Precise | im_cl/zoomer.cpp:132-151 | As written: one blocking "precise" dispatch over the new size. It binds input, nearest sampler and output, then the tap counts `split_out` in `1..size` and `split_in` in `0..new size`, and the reciprocal of the `split_out` area. Where one side divides the other, the taps are 1 : ratio or ratio : 1. |
| Zoomer.PreciseIntended | im_cl/zoomer.cpp:132-151 | With the corrected gcd: the same dispatch, with `split_in / split_out` equal to `new size / size` on both axes. |
| Zoomer.PreciseAgreesOnWholeRatios | im_cl/zoomer.cpp:141-145 | When on each axis one of size and new size divides the other, the code as written issues exactly the intended dispatch. |
| Zoomer.PreciseAsWrittenSlots | im_cl/zoomer.cpp:141-150 | Resampling 2x2 to 3x3 binds taps 1x1, 1x1 and area 1 as written, where the intended taps are 2x2, 3x3 and area 1/4. |
| Zoomer.Run | im_cl/zoomer.cpp:52-78 | "precise" goes to `Precise` (as written) with the truncated scaled size, for any factor ≥ 0. An unknown name fails with its message. Any other name runs the pyramid for the factor. |
| Zoomer.RunPyramid | im_cl/zoomer.cpp:79-107 | The loop and the last pass issue exactly `ZoomDispatches` over the pyramid's grids, and the result has the pyramid's final size. |
| Wavelet.Pad | im_cl/wavelet.cpp:19-21 | The padded side is the least power of two at least the side (1 for a side below 1). |
| Wavelet.PaddingUnique | im_cl/wavelet.cpp:19-21 | That padding is unique. |
| Wavelet.PassCounts | im_cl/wavelet.cpp:37-85 | On a side of 2^k, each forward loop and each inverse loop runs k passes, and the inverse sizes are the forward sizes reversed. |
| Wavelet.PassSizes | im_cl/wavelet.cpp:37-85 | Forward pass j works on side/2^(j+1) and inverse pass j on 2^j; inverse pass j mirrors forward pass k-1-j. |
| Wavelet.InverseMirrorsForward | im_cl/wavelet.cpp:65-85 | The inverse sizes 1, 2, … below 2^k are the forward halvings of 2^k reversed, k of them. |
| Wavelet.SettledParity | im_cl/wavelet.cpp:44-56 | After n swaps the source buffer is the original source for even n and the other buffer for odd n. |
| Wavelet.SweepPassAt | im_cl/wavelet.cpp:37-45 | Each sweep pass is one blocking dispatch from the current source into the current destination, followed by a copy back. |
| Wavelet.BuffersStayDistinct | im_cl/wavelet.cpp:23-92 | In the whole schedule, no dispatch or copy has the same image as source and destination. |
| Wavelet.ScheduleLayout | im_cl/wavelet.cpp:17-94 | For padded sides 2^nx by 2^ny: 4(nx+ny)+3 operations. The first copies the input into the padded scratch image. The threshold sits in the middle, with slot 6 the threshold. The last copies the original size back out. |
| Wavelet.HalvingPasses | im_cl/wavelet.cpp:37-57 | A forward loop issues exactly the sweep over the halving sizes and leaves the two buffers swapped once per pass. |
| Wavelet.DoublingPasses | im_cl/wavelet.cpp:65-85 | An inverse loop issues exactly the sweep over the doubling sizes and leaves the two buffers swapped once per pass. |
| Wavelet.Run | im_cl/wavelet.cpp:17-94 | A basis other than "haar" fails with "Unknowm wavelet basis: " and the basis. "haar" pads each side to its least power of two and issues exactly the schedule, keeping the source size. |
| Contraster.CommonSlots | im_cl/contraster.cpp:26 | The contraster's common arguments occupy slots 0 to 2. |
| Contraster.Gain | im_cl/contraster.cpp:17-18 | The contrast gain is non-negative over the accepted range. |
| Contraster.GainFixedPoints | im_cl/contraster.cpp:17-18 | Contrast 0 keeps the image (gain 1), -1 flattens it (gain 0), and +1 gives gain 129.5. |
| Contraster.GainIncreasing | im_cl/contraster.cpp:17-18 | The gain strictly increases with the contrast over [-1, 1]. |
| Contraster.Manual | im_cl/contraster.cpp:13-30 | Contrast outside [-1, 1] fails with its message. Otherwise one blocking "manual" dispatch over the image, with the gain on x and also on y and z for all channels (0 there in single-channel mode) and w = 1. |
| Contraster.ClipsUnique | im_cl/contraster.cpp:39-42 | A histogram and an exclusion count determine the low and high clip levels uniquely. |
| Contraster.OuterBinsIgnored | im_cl/contraster.cpp:39-42 | The walks never read bin 0 for the low clip or bin 255 for the high one: changing it changes neither clip. |
| Contraster.ClipLevels | im_cl/contraster.cpp:37-42 | Both walks end at the clip levels the exclusion count defines. |
| Contraster.WalkUp | im_cl/contraster.cpp:39-40 | The upward walk stops at the first level whose bins 1..level hold at least the exclusion count. |
| Contraster.WalkDown | im_cl/contraster.cpp:41-42 | The downward walk stops at the first level whose bins level..254 hold at least the exclusion count. |
| Contraster.Stretch | im_cl/contraster.cpp:44-60 | Fails with "Too much exclusive" exactly when the clips meet or cross. Otherwise one dispatch whose offset maps the low clip to 0 and whose offset + norm maps the high clip to 1, per channel mode. |
| Contraster.ExclusiveHist | im_cl/contraster.cpp:33-61 | The result is `Stretch` at the clip levels of the channel's histogram for the truncated exclusion count. |
| Contraster.NoExclusionIsIdentity | im_cl/contraster.cpp:33-61 | With nothing to exclude, the clips are 0 and 255 and the stretch is offset 0, norm 1. |
| Contraster.AdaptiveSideAsWrittenCollapses | im_cl/contraster.cpp:75-76 | As written, the grid side is 1 when the side is below the region and 0 otherwise. A 1024 side with region 8 gets no work-items. |
| Contraster.AdaptiveSideCovers | im_cl/contraster.cpp:75-76 | The corrected side is the ceiling of side / region: the smallest count of regions that covers the side. |
| Contraster.PassingRegionNonEmpty | im_cl/contraster.cpp:65-67 | A region that passes the exclusion check with a non-negative count is non-empty on both axes. |
| Contraster.AdaptiveHist | im_cl/contraster.cpp:64-79 | As written: fails with "To big exclusion for given region" exactly when 2·exclude ≥ the region area, else with the `at` error exactly when "adaptive_hist" is not among the registered names. Otherwise one blocking "adaptive_hist" dispatch with size, region and exclude in slots 3 to 5, over a grid whose side is 1 for an image shorter than one region and 0 otherwise. |
| Contraster.AdaptiveHistIntended | im_cl/contraster.cpp:64-79 | With the corrected grid side: the same failures, and a grid of the fewest regions that cover the image on each axis. |
| Contraster.AdaptiveHistGridOnly | im_cl/contraster.cpp:64-79 | The two fail alike and bind the same slots. An image at least one region wide gets grid side 0 as written and a positive one as intended. |
| Converser.FromSrgb | im_cl/converser.cpp:16-52 | Accepts exactly the six colour spaces, with kernel `srgb_to_X` where X is the space (the three ycc names share "ycbcr"), a YCbCr family exactly for them. Any other fails with "Unknown colour space " and the name. |
| Converser.ToSrgb | im_cl/converser.cpp:54-90 | Accepts exactly the same six spaces, with kernel `X_to_srgb` for the same X and the same family rule, and the same error. |
| Converser.DirectionsMirror | im_cl/converser.cpp:16-90 | For each space, the two directions use the same converter family and coefficients, with kernels named `srgb_to_X` and `X_to_srgb`. |
| Converser.LumaCoefficients | im_cl/converser.cpp:26-40 | The YCbCr spaces are exactly the three ycc ones. Their luma weights are positive and sum to 1: BT.709, BT.601 and BT.2020. |
| Converser.Step | im_cl/converser.cpp:47-51 | One blocking dispatch over the source size with the common arguments in slots 0 to 5. For YCbCr, slots 6 to 8 hold kr, kg and kb, and nothing else. |
| Converser.Run | im_cl/converser.cpp:10-14 | From sRGB or to sRGB is one step; otherwise two steps through sRGB, the first writing the image the second reads. The error names the first space that is not accepted (sRGB only as a source). |
| Converser.SrgbToSrgbRejected | im_cl/converser.cpp:10-16 | sRGB to sRGB is rejected as an unknown colour space. |
| Converser.RoundTripUsesInverse | im_cl/converser.cpp:10-90 | Converting into a space and back uses mutually inverse kernels with the same slots and the same coefficients. |
| Rotator.SimpleAngleIsWhole | im_cl/rotator.cpp:31-32 | An angle that passes the `modf` test is a whole number, a multiple of 90, so the cast to int is exact. |
| Rotator.ImCenterInside | im_cl/rotator.cpp:15-19 | For a side n ≥ 1 the centre lies inside the side, at the middle pixel (the lower one for even n). |
| Rotator.RotateSize | im_cl/rotator.cpp:7-12 | The new size is positive and strictly larger than the rotated extent on both axes. |
| Rotator.SimpleAngle | im_cl/rotator.cpp:63-73 | Accepts exactly ±90 and ±180, else fails with "Not a simple angle". ±90 swap the sides and use clockwise or counter_clockwise; ±180 use flip. The dispatch binds only the common arguments. |
| Rotator.CoordArgs | im_cl/rotator.cpp:21-27 | Slots 5 to 9 hold input size, both centres and the two angle terms. Slot 5 overwrites the write mode bound there by the common arguments. |
| Rotator.Run | im_cl/rotator.cpp:29-61 | A whole number of quarter turns goes to `SimpleAngle`. Otherwise "shear" and "map" each issue one dispatch over the source grid into the rotated size, with their angle terms. Any other algorithm fails with "Unknown rotation " and the name. |
| Rotator.NoTurnThrows | im_cl/rotator.cpp:31-32 | Angles 0, 270 and 360 pass the test but are not simple angles, so they throw. |
| Rotator.TurnsUndo | im_cl/rotator.cpp:63-73 | A simple angle followed by its negation gives back the original size. |
| Filter.RadiusCoverage | im_cl/filter.cpp:9-13 | The written indices stay inside the array. An odd size is filled entirely; an even size leaves the last entry unwritten. |
| Filter.ConvCoefficients | im_cl/filter.cpp:9-13 | Entry radius + w holds the weight of w² for every w in -radius..radius. |
| Filter.CoefficientsSymmetric | im_cl/filter.cpp:11-12 | The coefficients are symmetric about the middle. |
| Filter.Gauss | im_cl/filter.cpp:18-31 | A non-blocking horizontal pass from the source into a scratch image, then a blocking vertical pass from it into the result. The second waits on the first. Both bind radius and coefficients in slots 6 and 7, and the two kernels end with exactly the slots their passes used. |
| Filter.FreshPasses | im_cl/filter.cpp:18-31 | On fresh kernels both passes bind exactly slots 0 to 7. The vertical pass reads the image the horizontal pass wrote, and the write modes differ. |
| Histogram.Histograms | im_cl/im_object.cpp:104-108 | The histogram table has four rows of 256 bins. |
| Histogram.AddSampleEffect | im_cl/im_object.cpp:107 | One sample adds one to its channel's row and to the aggregate row, and keeps every row's bins non-negative. |
| Histogram.AddPixelEffect | im_cl/im_object.cpp:105-108 | One pixel adds one sample to each of the three channel rows and three to the aggregate row. |
| Histogram.HistogramsInvariant | im_cl/im_object.cpp:101-109 | Each channel row counts every pixel once, and the aggregate row counts 3 × pixels. |
| ImObject.Env.constructor | im_cl/im_object.cpp:15-16 | The environment starts with the given size of the shared transfer buffer, an empty log, and numbering that never hands out the shared buffer's number. |
| ImObject.Env.AllocIm | im_cl/im_object.cpp:8 | Allocates a fresh image id and logs the allocation. |
| ImObject.Env.Transfer | im_cl/im_object.cpp:15-16 | A transfer owns a fresh buffer exactly when it exceeds the preallocation. Otherwise it uses the preallocated buffer. |
| ImObject.Env.EndTransfer | im_cl/im_object.cpp:31 | An owned transfer buffer is released; the preallocation is kept. |
| ImObject.ImObject.constructor | im_cl/im_object.cpp:5-9 | Takes the given storage, or allocates a new image when none is given. There is no host copy yet. |
| ImObject.ImObject.FromHost | im_cl/im_object.cpp:11-32 | Keeps the host bytes. Writes them to a transfer buffer, allocates the image and runs "normalise" into it, and releases the buffer if it owned one. |
| ImObject.ImObject.Move | im_cl/im_object.cpp:34-40 | Takes over the other's storage and host copy, retains the storage and leaves the other without a host copy. |
| ImObject.ImObject.GetHostPtr | im_cl/im_object.cpp:42-65 | A cached host copy is returned with no device work. Otherwise "denormalise" runs into a transfer buffer, a blocking read fills the new host copy, and the copy is cached. |
| ImObject.HostBytesTwice | im_cl/im_object.cpp:42-65 | Two reads of the host copy give the same bytes, and the device is read at most once. |
| ImObject.ImObject.GetChannels | im_cl/im_object.cpp:67-93 | "denormalise" with an event, then non-blocking reads of planes 0 and 1 only, each waiting on the event. The third plane is left unread, as the loop bound of 2 at line 86 has it. |
| ImObject.ImObject.CalcHistograms | im_cl/im_object.cpp:97-111 | The histograms of the (cached) host copy. Each channel row counts every pixel and the aggregate row counts every sample. |
| ImObject.CountSamples | im_cl/im_object.cpp:101-109 | The zeroing and counting loops compute exactly `Histograms` of the first `pixels` pixels. |
| ImObject.ImObject.Destroy | im_cl/im_object.cpp:113-116 | Releases the storage when there is one; nothing else is logged. |
| ImValues.ImValues.constructor | im_cl/im_values.cpp:6-11 | All statistics are zero and nothing is cached. |
| ImValues.ImValues.CalcMean | im_cl/im_values.cpp:19-31 | Once cached, the means are returned unchanged. Otherwise they become the per-channel sums over pixels and the global sum over 3 × pixels, and are cached. |
| ImValues.ImValues.CalcVariance | im_cl/im_values.cpp:33-49 | Once cached, it is unchanged. Otherwise the means are computed (or reused) first, and the variances are the squared deviations from them averaged like the means. |
| ImValues.ImValues.CalcHistogram | im_cl/im_values.cpp:51-61 | Once cached, it is unchanged. Otherwise the pixels' histograms are added to the current bins. The flag is never set, so counts pile up. |
| ImValues.ImValues.Reset | im_cl/im_values.cpp:63-73 | Clears means, variances and all flags. Bins are zeroed only when the histogram flag was set, which never happens. |
| ImValues.SumLevels | im_cl/im_values.cpp:22-27 | The loops leave each channel's level sum and the global sum in the accumulator. |
| ImValues.PixelLevels | im_cl/im_values.cpp:23-26 | One pixel adds its three levels to their channels and to the global sum. |
| ImValues.SumSquares | im_cl/im_values.cpp:38-45 | The loops leave each channel's and the global sum of squared deviations. |
| ImValues.PixelSquares | im_cl/im_values.cpp:39-44 | One pixel adds its squared deviations. |
| ImValues.CountPixel | im_cl/im_values.cpp:55-58 | One pixel's three samples are counted into the bins. |
| ImValues.PixelSums | im_cl/im_values.cpp:23-26 | A pixel's sum is its three levels, and its square sum is their three squared deviations. |
| ImValues.GlobalSumSplits | im_cl/im_values.cpp:22-27 | The global sum is the sum of the three channel sums. |
| ImValues.GlobalMeanIsAverage | im_cl/im_values.cpp:28-29 | The global mean is the average of the three channel means. |
| ImValues.SquaresNonNegative | im_cl/im_values.cpp:38-45 | Every variance sum is non-negative. |
| ImValues.UniformImage | im_cl/im_values.cpp:19-49 | An image of one value has that level as every mean and zero as every variance. |
| ImValues.CountTwice | im_cl/im_values.cpp:51-61 | Two calls on fresh statistics double every bin, since the flag is never set. The aggregate row stays the sum of the channel rows. |
| App.Names | im_cl/app.cpp:59-73 | Each program's kernel names are those of its kernel list, in order. |
| App.RegisterStepsListed | im_cl/app.cpp:59-73 | `match_kernels` registers the six programs in source order. |
| App.NamesAsListed | im_cl/app.cpp:60-72 | Each program's kernel names are exactly the literal list at its `map_of` call. |
| App.CompilingEffect | im_cl/app.cpp:50-53 | After the first j kernels are created, those keys hold compiled handles and every other key is unchanged. |
| App.CompilingBuilds | im_cl/app.cpp:50-53 | Creating every kernel of a registered slice, in any iteration order of that slice, builds all of it, with the keys unchanged. |
| App.App.constructor | im_cl/app.cpp:6-13 | For any iteration order of the program map and of each slice: runs match_extensions, match_kernels, compile_kernels and init_executors in that order. Every program's slice is then built and the engines exist. |
| App.App.MatchExtensions | im_cl/app.cpp:76-79 | Registers ".pnm" and changes nothing else. |
| App.App.MatchKernels | im_cl/app.cpp:59-73 | Every program gets its unbuilt slice with exactly its listed names, and the six registrations are logged. |
| App.App.Emplace | im_cl/app.cpp:60 | One `emplace` of a program not yet in the map: the program gets its unbuilt slice, and the other programs are untouched. |
| App.App.CompileKernels | im_cl/app.cpp:32-57 | Creates the context, builds each program in the map's order with its slice's own order, then creates the queue. Every slice is built with the same keys, and the program objects follow that order. |
| App.App.Build | im_cl/app.cpp:42-53 | One program: its object is appended, it is compiled, and every kernel of its slice is created in the given slice order. |
| App.CreateSliceKernels | im_cl/app.cpp:50-53 | The loop over one slice in the given order returns the slice with exactly those names compiled and the rest kept, and the kernel creations in that order. |
| App.App.CreateKernels | im_cl/app.cpp:50-53 | Creates the kernels of one slice in the given iteration order of that slice, and builds it; nothing else changes. |
| App.App.InitExecutors | im_cl/app.cpp:81-92 | Creates the empty buffer, then the six engines in source order. |
| App.App.Destroy | im_cl/app.cpp:15-30 | Deletes the engines, releases context, queue and empty buffer, then every program object, then every kernel in each slice's iteration order. The program map and the extensions are unchanged. |
| App.App.ReleasePrograms | im_cl/app.cpp:26 | Releases every program object, in order. |
| App.App.ReleaseSlices | im_cl/app.cpp:27-29 | Releases every kernel of every slice, in the map's order and each slice's order. The program map and the extensions are unchanged. |
| App.App.ReleaseKernels | im_cl/app.cpp:28 | Releases the kernels of one slice in its iteration order. The program map, the extensions, the engines and the program objects are unchanged. |
| App.App.Handler | im_cl/app.cpp:115-121 | A file is handled exactly when its extension is registered; the handler key is that extension. |
| App.SlicesBeforeEngines | im_cl/app.cpp:6-13 | During construction every registration, compilation and kernel creation happens before any engine exists. The engines are created last, in order. |
| App.EnginesDeletedFirst | im_cl/app.cpp:15-25 | The destructor deletes all six engines first, then releases context and queue. Nothing after deletes an engine. |
| App.CompileStepsKinds | im_cl/app.cpp:37-54 | The compile loop logs only compilations and kernel creations. |
| App.KernelStepsKinds | im_cl/app.cpp:50-53 | The kernel loop logs only kernel creations. |
| App.ReleaseProgramKinds | im_cl/app.cpp:26 | The program loop logs only program releases. |
| App.ReleaseSliceKinds | im_cl/app.cpp:27-29 | The slice loops log only kernel releases. |
| App.ReleaseKernelKinds | im_cl/app.cpp:28 | One slice's loop logs only kernel releases. |
| App.KernelStepsAt | im_cl/app.cpp:50-53 | The kernel loop over the first j names creates exactly those kernels, in that order. |
| App.ReleaseKernelStepsAt | im_cl/app.cpp:28 | The release loop over the first j names releases exactly those kernels, in that order. |
| App.EachKernelOnce | im_cl/app.cpp:50-53 | Whatever the slice order, every registered kernel of a program is created once and released once, and no other kernel is. |
| App.ZoomerLookupsPresent | im_cl/app.cpp:60 | Every kernel the zoomer can look up, "precise" included, is registered on zoomer.cl. |
| App.SimpleAngleLookupsPresent | im_cl/app.cpp:62 | Every kernel a simple angle looks up is registered on rotator.cl. |
| App.RotatorLookupsPresent | im_cl/app.cpp:62 | Every kernel a successful rotation looks up is registered on rotator.cl. |
| App.ConverserLookupsPresent | im_cl/app.cpp:68-70 | Every forward conversion kernel, and "gamma_correction" used at lines 89-90, is registered on converser.cl. |
| App.ConverserInverseLookupsPresent | im_cl/app.cpp:68-70 | Every inverse conversion kernel is registered on converser.cl. |
| App.FilterLookupsPresent | im_cl/app.cpp:64 | Both Gaussian passes are registered on filter.cl. |
| App.ThresholdLookupPresent | im_cl/app.cpp:66 | "soft_threshold" is registered on wavelet.cl. |
| App.ContrasterLookupsPresent | im_cl/app.cpp:72 | "manual" and "exclusive_hist" are registered on contraster.cl. |
| App.AdaptiveHistMissing | im_cl/app.cpp:72 | "adaptive_hist", which the adaptive contrast looks up, is not registered: only "adaptive_hist_all" and "adaptive_hist_single" are. |
| App.AdaptiveHistNeverRuns | im_cl/contraster.cpp:64-79 | With the contraster's registered names, the adaptive contrast always fails: with the exclusion message, or else with the `at` error. |
| App.HaarPassesMissing | im_cl/app.cpp:66 | "horizontal_haar" and "vertical_haar", which the wavelet looks up, are not registered: only "direct_haar" and "inverse_haar" are. |
| Cli.Lookup | im_cl/main.cpp:7-11 | A found command is not wavelet and its word is the name looked up. |
| Cli.LookupExact | im_cl/main.cpp:7-11 | Every command's word finds that command, except "wavelet", which has no entry. |
| Cli.CenterOf | im_cl/main.cpp:126-130 | An explicit centre is kept. The default centre is the middle pixel of the image. |
| Cli.InputFlagFirst | im_cl/main.cpp:74-75 | The input is empty exactly when neither `-i` nor a free argument is given, which is what the usage checks test; it is one of the two, and `-i` when given. |
| Cli.InputFreeFirst | im_cl/main.cpp:139-140 | The input is empty exactly when neither a free argument nor `-i` is given; it is one of the two, and the free argument when given. |
| Cli.InitAsWrittenIgnoresArg1 | im_cl/main.cpp:49-58 | As written, init runs exactly when a platform is given and `-d` is given, and the device is always `-d`. |
| Cli.InitAsWrittenRejectsPositional | im_cl/main.cpp:53 | As written, `init 0 1` is a wrong usage. |
| Cli.InitResolves | im_cl/main.cpp:49-58 | Corrected: init runs exactly when a platform (`-p` or first free argument) and a device (`-d` or second free argument) are given, each parsed from its chosen source. Otherwise it is a wrong usage. |
| Cli.InitAcceptsPositional | im_cl/main.cpp:53 | Corrected: `init 0 1` initialises platform 0, device 1. |
| Cli.ZoomResolves | im_cl/main.cpp:72-94 | Wrong usage exactly when input or output is missing, or only one of `-x`/`-y` is given, or none of `-x`, `-y`, `-f` is given. `-x -y` asks for precise zoom to that size; otherwise the factor is `-f`/100 with the type defaulting to bilinear. |
| Cli.ConverseResolves | im_cl/main.cpp:95-111 | Runs exactly when `-t` or `-f`, an input and `-o` are given. A missing side defaults to "srgb". |
| Cli.RotateResolves | im_cl/main.cpp:112-136 | Runs exactly when `-a`, an input and `-o` are given, with the algorithm defaulting to "shear". clockwise and counter_clockwise are simple angles. Others rotate by `atof(-a)` about `-x -y` when both are given. |
| Cli.ContrastResolves | im_cl/main.cpp:137-177 | Wrong usage without input or output. Then a `-v` space the converser rejects, "srgb" among them, fails with "Unknown colour space " and the space, whatever the algorithm. Otherwise manual needs `-c`, exclusive defaults `-e` to 0.39 and divides by 100, adaptive needs `-x`, `-y` and `-e`, and any other algorithm fails with "Unknown contrast: " and the name. |
| Cli.GaussResolves | im_cl/main.cpp:178-189 | Runs exactly when an input and `-o` are given, with sigma defaulting to 1 and window to 3. |
| Cli.Resolve | im_cl/main.cpp:39-189 | As written: a line is an unknown command exactly when its word has no entry, and the reply then names it. A usage error names the command looked up. A call through the null `app_ptr` happens exactly for gauss without an app once its usage passes. |
| Cli.ResolveIntended | im_cl/main.cpp:39-189 | As intended: never calls through a null `app_ptr`. Unknown commands and usage errors are as written. Without an app every command but init, env and quit fails with "Not initialised". |
| Cli.WaveletUnknown | im_cl/main.cpp:42-45 | "wavelet" is reported as an unknown command, as written and as intended. |
| Cli.InitialisationGuard | im_cl/main.cpp:27-30 | As written, without an app: dev, zoom, converse, rotate and contrast fail with "Not initialised"; gauss gives its usage error or, once the usage passes, a call through the null `app_ptr`; init, env and quit do not depend on it. Only gauss without an app reaches the null `app_ptr`. With an app, each command resolves through its own case. |
| Cli.IntendedGuard | im_cl/main.cpp:178-189 | As intended, without an app every command but init, env and quit fails with "Not initialised", and nothing reaches a null `app_ptr`. Only init and gauss resolve differently from the code as written. |
| Cli.GaussAsWrittenUnguarded | im_cl/main.cpp:178-189 | As written, `gauss a -o b` before `init` calls through the null `app_ptr`. |
| Cli.GaussIntendedGuarded | im_cl/main.cpp:178-189 | As intended, the same line reports "Not initialised". |
| Cli.ContrastConvertsFirst | im_cl/main.cpp:137-169 | `contrast a -o b -v srgb -t bogus` fails with "Unknown colour space srgb" from the conversion, not with the unknown algorithm. |
| Cli.ContrastAsWrittenDropsCurve | im_cl/main.cpp:142-176 | As written, with `-v` the image written is the input converted into the space and back, with no curve applied, so every curve gives the same output. |
| Cli.ContrastIntendedAppliesCurve | im_cl/main.cpp:142-176 | As intended, the written image has exactly the requested curve applied: on one channel between the two conversions with `-v`, on all channels without it, where it agrees with the code as written. |
| Cli.InputOrderDiffers | im_cl/main.cpp:74-75 | When both `-i` and a free argument are given and differ, zoom/converse/rotate and contrast/gauss pick different inputs. |

## Left out

- Runtime statuses: every OpenCL call is taken to succeed, except where `Executor` and `Util.AssertSuccess` model the failure path explicitly. Device memory exhaustion and build failures (app.cpp:44-49) are not modelled.
- The OpenCL kernels (`.cl` files) are not part of this model. Pixels are not computed; only the dispatches and their arguments are.
- Floating point: `float`/`double` are modelled as `real`. `sin`, `cos`, `tan`, `expf`, `atoi` and `atof` are parameters supplied by the caller.
- `hardware.cpp` and `io_manager.cpp` are not part of this model. `env_info`, `device_info`, image loading and writing, and the printing of the REPL are left out as I/O. `cmd_syntax` only feeds error text.
- The REPL loop of `main` (main.cpp:39-283) is modelled per command by `Cli.Resolve`; the loop around it is I/O. A call through a null `app_ptr` is undefined behaviour in C++ and is the reply `NullApp`, not modelled further.
- Contraster.AdaptiveHist, App.App.Handler, Util.FileExt and Wavelet.Run: the `at` failures here and at app.cpp:116 and 120 and wavelet.cpp:36, and `substr(npos, …)` at util.cpp:42, are `std::out_of_range`, which the handlers at main.cpp:279-280 (`wrong_usage` and `runtime_error` only) do not catch, so in the source they end the program: a file name with no dot or with an extension other than `.pnm` terminates it. The model returns each as an `Err` whose message is the implementation's `what()` text, written "unordered_map::at" or "basic_string::substr".
- `unordered_map` iteration order (app.cpp:37, 27, 28, 50) is a parameter: `order` for the program map, and `inner`, one order of each slice's names, for the slices. Which order an implementation picks is not modelled.
- `im_object::norm_map` is the parameter `normMap` of the `ImValues` members.
- `im_executors.h` is not part of this model beyond the signatures used. main.cpp calls `rotator::simple_angle` with a string and `rotator::run` with a centre, and reads `cmd.first`/`cmd.second`. None of these match the rest of the source, so main's requests are modelled as values and not wired to the engines.
- Zoomer.Run: requires a positive factor for the pyramid kernels, because the loop at zoomer.cpp:92 never ends otherwise, as `Zoomer.NonPositiveNeverExits` proves (a `zoom -f 0` hangs), and a factor ≥ 0 for "precise", because a negative scaled size does not fit the unsigned size it is converted to. An unknown name needs neither.
- Contraster.ExclusiveHist: requires the exclusion count to be at most the histogram mass the walks can pass. The walks at contraster.cpp:39-42 read outside the histogram otherwise.
- Contraster.ExclusiveHist: the histogram row taken from a temporary at contraster.cpp:34 dangles in the source; the model reads the histogram as if it were kept.
- Contraster.AdaptiveHist: requires a region the check at contraster.cpp:65 rejects, or a non-empty one, because the divisions at lines 75-76 divide by the region sides.
- Contraster: `set_args` (contraster.cpp:6-10) is never called and is not modelled. The integer `channel_mode` is the two-valued `ChannelMode`.
- ImValues.ImValues.CalcMean: requires at least one pixel, because the source divides by the pixel count. ImValues.ImValues.CalcVariance has the same requirement.
- Filter.ConvCoefficients: requires `lin_size ≥ 1`, because `new float[lin_size]` needs a non-negative size and the loop writes index 0.
- Util.NextAction: requires that every flag is followed by a value. The source reads `seq[p + 1]` unchecked. The free-argument counter (`char`) is modelled for up to 256 free arguments.
- Util.NextPower: `power_2_arr` (util.cpp:3) is never filled and `next_power` has no caller, so only the zero table is the program's (`Util.NextPowerUnfilled`); the powers-of-two lemma describes a table the source does not build.
- `init` after a failed `init`: `delete app_ptr` (main.cpp:56) is followed by `new app(...)`, and when that constructor throws `app_ptr` is left dangling, so a later command uses freed memory. The model keeps only whether an application exists.
- `size_t` and `cl_int` wrap-around are not modelled: sizes are unbounded integers.
- Wavelet.Run: the unused event chaining of wavelet.cpp is recorded only as the waits flag. The Haar kernels it looks up are not registered (`App.HaarPassesMissing`), so in the source the run ends the program at line 36 with the uncaught `std::out_of_range` named above.
- ImObject.CountSamples and ImValues.CountPixel are inner loops split out of the source's function bodies into methods of their own; their loops are the source's.
- The manual contrast is modelled after the code: the gain `259(255+c)/(255(259-c))` is applied with c = 255·contrast.

## Findings

| source | as written | input that shows it | evidently intended | confidence | as-written member | corrected member |
|---|---|---|---|---|---|---|
| im_cl/util.cpp:73 | `b %= b` clears `b`, so the loop returns the smaller argument or one remainder | `euclidean_gcd(2, 3)` returns 2, which does not divide 3 | `b %= a`, Euclid's algorithm | not executed | Util.GcdAsWrittenCounterexample | Util.GcdGreatest |
| im_cl/zoomer.cpp:38 | `-12B - 48 + C` as the linear coefficient of the outer spline piece | B = C = 1/3: the outer piece is nonzero at x = 2 and does not meet the inner one at x = 1 | `-12B - 48C`, the Mitchell-Netravali coefficient | not executed | Zoomer.PolynomialsAsWrittenDiscontinuous | Zoomer.CorrectedSplineIsSmooth |
| im_cl/contraster.cpp:75-76 | `a / r + (a % r == 0) ? 0 : 1` parses as `(a / r + …) ? 0 : 1` | side 1024, region 8: grid side 0 | `a / r + ((a % r == 0) ? 0 : 1)`, the ceiling | not executed | Contraster.AdaptiveSideAsWrittenCollapses | Contraster.AdaptiveSideCovers |
| im_cl/main.cpp:53 | `if (platform.empty())` guards the fallback to `arg1` for the device | `init 0 1`: the platform comes from `arg0`, `device` stays empty, wrong usage | `if (device.empty())` | not executed | Cli.InitAsWrittenRejectsPositional | Cli.InitAcceptsPositional |
| im_cl/main.cpp:170-174 | with `-v`, the back-conversion runs on `src`, the converted input, and its result replaces `contrasted` | `contrast a -o b -v ycbcr_601 -c 0.5` writes the input converted into YCbCr and back, with no contrast | `run({ v, "srgb" }, contrasted)` | not executed | Cli.ContrastAsWrittenDropsCurve | Cli.ContrastIntendedAppliesCurve |
| im_cl/main.cpp:178-189 | `gauss` has no `assert_init`, unlike every other image command | `gauss a -o b` before `init`: `app_ptr->get_im` through a null `app_ptr` | `assert_init(app_ptr)` before line 185 | not executed | Cli.GaussAsWrittenUnguarded | Cli.GaussIntendedGuarded |

The engines and the dispatcher model the code as written: `Zoomer.Precise` uses the gcd as written, `Zoomer.Polynomials` the coefficients as written, `Contraster.AdaptiveHist` the grid side as written, `Cli.Resolve` the init and gauss cases as written, and `Cli.ContrastWrites` the image the contrast case writes. The corrected versions are separate members, each with its property proved: `Util.Gcd`, `Zoomer.PreciseIntended`, `Zoomer.PolynomialsIntended`, `Contraster.AdaptiveHistIntended`, `Cli.ResolveIntended` and `Cli.ContrastWritesIntended`.
