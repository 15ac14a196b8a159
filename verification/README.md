# Verified model of the Proton Meet client core

This project models, in Dafny, the parts of the Proton Meet client whose correctness is an argument rather than a
glance, and proves what each is for. Run `dafny verify dfyconfig.toml`.

| part | modules | main results |
|---|---|---|
| transposed convolution operator | `Sums`, `TransposeConv`, `Adjoint` | the in-place scatter loops compute the gather sum, pinned on the flat tensors by the impulse law; the operator is the adjoint of the strided, padded convolution; clipping drops exactly the padding |
| frame compositor | `Pixels`, `Raster`, `BoxBlur`, `Erosion`, `Frames`, `Plates`, `EffectsEngine` | the sliding blur is the naive box mean; two clamped passes are a square erosion and erosions add up; images survive both colour conversions; the caches are invisible over every sequence of calls; one frame end to end |
| MLS group driver | `MlsModel`, `MlsEnv`, `MlsLiveness`, `MlsMembership`, `MlsCatchup`, `MlsOutcome` | who is in the group after every run; agreement over every run, exactly when no join loses its commit; agreement after every offline period, exactly when every operation was disciplined; what catching up reports, exactly |
| Vision segmentation | `VisionStore`, `VisionMachine` | from every reachable state of every interleaving the next frame can dispatch within one timeout; masks only get fresher; exactly which mask a frame reads; the exact generation of what a frame composites with |
| audio framing | `DtlnRing`, `Rnnoise` | every sample each call returns, conservation and the latency bound of the ring; the batch path replaces every whole frame in place by its own denoised form |
| calendar export | `IcsText`, `IcsEvent`, `IcsReading` | a reader recovers the lines exactly when the zone has no line break and no fold cuts a character, and then every field; the components nest |
| chat | `Chat` | what receivers decode is what the sender echoed; what is accepted as text is exactly UTF-8 |

Code that works by changing things in place is modelled by methods over arrays, or by classes with the source's own
fields; each is proved against a function of the old state, and the laws are proved about that function. Steps that
several threads interleave are a transition system whose shared part is the class `VisionStore.MaskStore`.

## Assumptions

- An MLS group is its commit history. A commit is accepted exactly when it was built on the receiver's history, every
  commit is fresh, and every library call may fail; a failure is an input of the operation that makes the call.
- Samples and filter weights are exact reals; pixels, masks and sums are integers; opacities, scales and tunings are
  exact reals.
- The segmenter, the Gaussian feather and the gamma curve are arbitrary functions that keep the mask's size. The audio
  denoisers are functions of everything fed so far; `DtlnRing` lets them fail, and `Rnnoise.BatchIsAligned` assumes an
  output one frame behind. SHA-256, grapheme counting, content ids, zone names and date formatting are arbitrary
  functions; formatted dates are ASCII without line breaks or semicolons.
- Rust strings are their UTF-8 octets.

## Where the code does not do what its documentation or its name promises

- `rust/crates/fuzz/src/env.rs:168-205`: when the commit bundle of a join lacks its group info or tree, the join
  returns after the coordinator has merged its commit and before anyone is sent it. With a second member present the
  group is divided (`MlsLiveness.IncompleteBundleDivides`), and this is the only way a run of
  `rust/crates/fuzz/fuzz_targets/mls_liveness.rs` can lose agreement (`MlsLiveness.AgreementOverRuns`).
- `rust/crates/fuzz/fuzz_targets/mls_catchup.rs:13-17` relies on a single canonical chain. The run it describes does
  not ensure one: when two members update before the queue is flushed, catching up rejects the second update
  (`MlsOutcome.SeededConcurrentUpdates`). Over whole periods, everybody agrees afterwards exactly when every operation
  was disciplined (`MlsOutcome.SafeIffDisciplined`), catching up rejects exactly when some commit was built on another
  history than the offline member will have reached, and it reports a divergence only from a coordinator that lost a
  commit (`MlsOutcome.OutcomeOfPeriod`). Some disagreements it does not report (`MlsOutcome.LateAddGoesUnnoticed`).
- `plugins/proton_video_effects/darwin/Classes/MeetBackgroundBlurMediaPipeEngine.swift:993-1009`: a mask read before a
  reload may be composited after the reload has returned (`VisionMachine.StaleCompositeExists`). Exactly, a composited
  mask is outdated when a reload has bumped since it was read, or when it was read between a bump and its clear before a
  result of the new generation had replaced it (`VisionMachine.CompositedMask`).
- `plugins/proton_denoise/common/darwin/Classes/MeetAudioDtlnPipeline.swift:203-205`: a failing frame is dropped and
  adds a frame of silence for good, so the 511-sample bound holds exactly while nothing fails.
- `plugins/proton_denoise/common/cpp/src/proton_rnnoise_processor.cc:33-42`: on the single-frame path in stereo the
  channels share one denoiser that is a frame behind, so the right channel gets the left one's frame. Mono is aligned
  one call late; stereo only where the denoiser cannot tell the channels apart (`Rnnoise.LiveStereoAlignedIff`).
- `rust/crates/meet-calendar/src/lib.rs:66-86` drops a chunk whose ends cut a multi-octet character, and
  `rust/crates/meet-calendar/src/lib.rs:107-111` and `rust/crates/meet-calendar/src/lib.rs:154` print the zone string
  unescaped.
- `plugins/proton_video_effects/native/src/meet_video_effects_engine.cpp:724-750` has no guard for targets below 2x2.
  Exactly the frames outside `EffectsEngine.UsableFrame` have an empty working frame, and the segmenter's input then
  reads outside it (`EffectsEngine.ReadsOutsideIff`); a single pixel is one of them (`EffectsEngine.NoTarget`).

## Model

| member | source | states |
|---|---|---|
| `TransposeConv.OutputExtentMeaning` | plugins/proton_video_effects/native/src/meet_video_effects_custom_ops.cpp:81-159 | every output extent is at least 1; the full scatter extent in VALID mode, and the closed form of the SAME mode, which is stride times input exactly when the filter covers the stride and the stride divides the input |
| `TransposeConv.ClippingDropsPadding` | plugins/proton_video_effects/native/src/meet_video_effects_custom_ops.cpp:185-226 | a scattered row is kept exactly when it lies outside pad/2 low rows and pad - pad/2 high rows; VALID mode never clips |
| `TransposeConv.FlatInRange` | plugins/proton_video_effects/native/src/meet_video_effects_custom_ops.cpp:204-241 | every cell's flat index is inside the buffer |
| `TransposeConv.FlatNeverAliases` | plugins/proton_video_effects/native/src/meet_video_effects_custom_ops.cpp:204-241 | two cells with one flat index are one cell |
| `TransposeConv.AddTaps` | plugins/proton_video_effects/native/src/meet_video_effects_custom_ops.cpp:234-242 | the innermost loop adds value times tap to the channels of one pixel and to nothing else |
| `TransposeConv.AddInputPixel` | plugins/proton_video_effects/native/src/meet_video_effects_custom_ops.cpp:228-243 | one input pixel through one tap position adds its terms, skipping zero samples changes nothing |
| `TransposeConv.AddFilter` | plugins/proton_video_effects/native/src/meet_video_effects_custom_ops.cpp:221-245 | all filter positions of one input pixel, those outside the output contributing nothing |
| `TransposeConv.SeedBias` | plugins/proton_video_effects/native/src/meet_video_effects_custom_ops.cpp:207-210 | every pixel of one batch holds the bias, other batches are untouched |
| `TransposeConv.Invoke` | plugins/proton_video_effects/native/src/meet_video_effects_custom_ops.cpp:203-249 | every output cell is its bias plus the sum of all terms whose strided, padded target it is, for all shapes and strides and whatever the buffer held; and on the flat tensors, for an input that is v at one position, the bias plus v times the filter laid down there and clipped, and the bias alone everywhere else or for an input of zeros |
| `TransposeConv.ImpulseResponse` | plugins/proton_video_effects/native/src/meet_video_effects_custom_ops.cpp:203-249 | for one nonzero sample every output cell is the bias, plus, under the filter laid down at the strided, padded position, the sample times that tap of the flat output-height-width-input filter |
| `TransposeConv.Superposition` | plugins/proton_video_effects/native/src/meet_video_effects_custom_ops.cpp:203-249 | the outputs for two inputs add up to that for their sum, the bias counting once; with the impulse law this determines every output |
| `TransposeConv.Operator` | plugins/proton_video_effects/native/src/meet_video_effects_custom_ops.cpp:139-190 | with the operator's own padding and extents, a row or column is dropped exactly when it falls in the padding |
| `Adjoint.OperatorIsAdjoint` | plugins/proton_video_effects/native/src/meet_video_effects_custom_ops.cpp:185-248 | the inner product of the gather sums with any g equals that of the input with the convolution of g |
| `Adjoint.BufferIsAdjoint` | plugins/proton_video_effects/native/src/meet_video_effects_custom_ops.cpp:203-248 | the same law for the contents of the buffer that `Invoke` leaves when the bias is zero |
| `BoxBlur.WindowSlides` | plugins/proton_video_effects/native/src/meet_video_effects_engine.cpp:159-165 | admitting the entering sample and retiring the leaving one moves the clamped window one step, for every radius |
| `BoxBlur.BlurRow` | plugins/proton_video_effects/native/src/meet_video_effects_engine.cpp:147-166 | one row of the first pass holds the row means and no other row changes |
| `BoxBlur.BlurColumn` | plugins/proton_video_effects/native/src/meet_video_effects_engine.cpp:168-187 | one column of the second pass holds the column means and no other column changes |
| `BoxBlur.BoxBlurArgb` | plugins/proton_video_effects/native/src/meet_video_effects_engine.cpp:143-189 | in place, every channel of every pixel becomes the naive vertical mean of horizontal means over edge-clamped windows, for every size and radius |
| `BoxBlur.BlurStaysInRange` | plugins/proton_video_effects/native/src/meet_video_effects_engine.cpp:143-189 | a blurred channel stays between the least and greatest sample of that channel |
| `BoxBlur.PointSpreads` | plugins/proton_video_effects/native/src/meet_video_effects_engine.cpp:143-189 | a single point becomes, in each direction, the share of window samples that read it, edges repeated |
| `BoxBlur.PointBecomesSquare` | plugins/proton_video_effects/native/src/meet_video_effects_engine.cpp:143-189 | off the edges that is v / (2r+1) / (2r+1) within the radius and 0 outside it |
| `Pixels.Pack` | plugins/proton_video_effects/native/src/meet_video_effects_engine.cpp:98-102 | packing is undone by the three channel reads and is always opaque |
| `Erosion.TwoPassesErode` | plugins/proton_video_effects/native/src/meet_video_effects_engine.cpp:251-274 | row minima then column minima are the minima over the in-bounds part of the square |
| `Erosion.ErosionsCompose` | plugins/proton_video_effects/native/src/meet_video_effects_engine.cpp:251-274 | eroding by r and then by s is eroding by r + s |
| `Erosion.ErosionUnique` | plugins/proton_video_effects/native/src/meet_video_effects_engine.cpp:251-274 | a mask has one erosion of each radius |
| `Erosion.ErodeMask` | plugins/proton_video_effects/native/src/meet_video_effects_engine.cpp:251-274 | in place, the mask becomes its square erosion by the rounded radius, or stays when that is below 1 |
| `Erosion.ErodedTwice` | plugins/proton_video_effects/native/src/meet_video_effects_engine.cpp:251-274 | the erosion as a function: twice is once by the sum |
| `Frames.TargetSizeMeaning` | plugins/proton_video_effects/native/src/meet_video_effects_engine.cpp:71-82 | with exact quotients, target sides are even, at most the source's and at most 1280, and a scaled frame meets 1280 |
| `Frames.AspectKept` | plugins/proton_video_effects/native/src/meet_video_effects_engine.cpp:79-82 | when a frame is scaled, each side times the long side is at most, and less than two long sides below, the source side times 1280 |
| `Frames.RoundedLongSide` | plugins/proton_video_effects/native/src/meet_video_effects_engine.cpp:79-81 | single-precision rounding of the scale and the product (a long side of 2128, say) can make that 1278 and nothing else |
| `Frames.PlaneReadInBounds` | plugins/proton_video_effects/native/src/meet_video_effects_engine.cpp:734-748 | every sampled plane position is inside the plane given a stride of at least its width |
| `Frames.PlaneCell` | plugins/proton_video_effects/native/src/meet_video_effects_engine.cpp:734-748 | a position shows the sample in whose part of the frame it starts |
| `Frames.SamplePlane` | plugins/proton_video_effects/native/src/meet_video_effects_engine.cpp:734-748 | the sampled plane, position by position |
| `Frames.I420ToArgb` | plugins/proton_video_effects/native/src/meet_video_effects_engine.cpp:84-105 | every pixel is converted from the luma sample at its own position and the U and V samples of its 2x2 block |
| `Frames.ArgbToI420` | plugins/proton_video_effects/native/src/meet_video_effects_engine.cpp:107-141 | every luma sample from the pixel at its own position, and every U and V sample from the top-left pixel of its block |
| `Frames.ChromaStoredOnce` | plugins/proton_video_effects/native/src/meet_video_effects_engine.cpp:124-140 | of the positions the chroma loops visit, exactly one stores a given chroma sample |
| `Frames.OutputConversionNeverClamps` | plugins/proton_video_effects/native/src/meet_video_effects_engine.cpp:117-140 | the clamps of the output conversion never fire: video range on every pixel |
| `Frames.GreyRoundTrip` | plugins/proton_video_effects/native/src/meet_video_effects_engine.cpp:84-141 | a grey sample in video range survives both conversions to within one step |
| `Frames.ColourRoundTrip` | plugins/proton_video_effects/native/src/meet_video_effects_engine.cpp:84-141 | every colour survives conversion to I420 and back to within three steps in every channel |
| `Frames.ThereAndBack` | plugins/proton_video_effects/native/src/meet_video_effects_engine.cpp:84-141 | a frame constant on its 2x2 blocks, sent through both conversions, comes back with every pixel at its position and within three steps a channel |
| `Frames.PrimariesOut` | plugins/proton_video_effects/native/src/meet_video_effects_engine.cpp:117-140 | red, green and blue in video range, plane by plane |
| `Frames.PrimariesIn` | plugins/proton_video_effects/native/src/meet_video_effects_engine.cpp:91-102 | red comes from the V plane and blue from the U plane; the ends of video range are black and white |
| `Plates.ResizeArgbNearest` | plugins/proton_video_effects/native/src/meet_video_effects_engine.cpp:532-543 | the resampled image, with every read in bounds |
| `Plates.NearestSameSize` | plugins/proton_video_effects/native/src/meet_video_effects_engine.cpp:532-543 | resampling to the same size is the identity |
| `Plates.NearestCell` | plugins/proton_video_effects/native/src/meet_video_effects_engine.cpp:532-543 | a position shows the pixel in whose part of the destination it starts |
| `Plates.ResizeArgbCover` | plugins/proton_video_effects/native/src/meet_video_effects_engine.cpp:549-565 | the aspect-filled image, or black without one |
| `Plates.CoverNeverClamps` | plugins/proton_video_effects/native/src/meet_video_effects_engine.cpp:554-561 | under a covering scale every source coordinate is inside the image, so its clamp never fires |
| `Plates.CoverScaleCovers` | plugins/proton_video_effects/native/src/meet_video_effects_engine.cpp:554-555 | the chosen scale covers both axes |
| `Plates.CoverSameSize` | plugins/proton_video_effects/native/src/meet_video_effects_engine.cpp:549-565 | an image of the frame's size covers it unchanged |
| `Plates.CoverCentred` | plugins/proton_video_effects/native/src/meet_video_effects_engine.cpp:554-561 | before truncation the crop is centred: pixel edges mirrored in the frame scale to edges mirrored in the image |
| `Plates.CoverCell` | plugins/proton_video_effects/native/src/meet_video_effects_engine.cpp:549-565 | which pixel a position shows: the longer axis decides the scale for both, and the other axis is cropped equally at both ends |
| `Plates.ApplyObscureVeil` | plugins/proton_video_effects/native/src/meet_video_effects_engine.cpp:579-603 | in place, every pixel is desaturated and tinted; every channel stays a byte |
| `Plates.DesaturatedBetween` | plugins/proton_video_effects/native/src/meet_video_effects_engine.cpp:588-593 | truncated desaturation moves a channel towards the luma and never past it |
| `Plates.VeilMeaning` | plugins/proton_video_effects/native/src/meet_video_effects_engine.cpp:584-602 | each channel lies between the desaturated one and the veil's own; full opacity gives the veil, full desaturation without a veil the luma, and neither the pixel |
| `Plates.VeilShares` | plugins/proton_video_effects/native/src/meet_video_effects_engine.cpp:584-602 | between those extremes: the desaturation's share of the way to the luma, then the opacity's share of the way to the veil |
| `Plates.LumaOfPrimaries` | plugins/proton_video_effects/native/src/meet_video_effects_engine.cpp:589 | red 76, green 149, blue 28, and every grey its own value |
| `Plates.OpacityNearest` | plugins/proton_video_effects/native/src/meet_video_effects_engine.cpp:580-582 | no byte is nearer to the opacity; 0 and 1 are exact |
| `Plates.BlendMeaning` | plugins/proton_video_effects/native/src/meet_video_effects_engine.cpp:687-697 | a blended channel lies the mask's share of the way from plate to camera, rounded down; mask 255 gives the camera, mask 0 the plate |
| `Plates.MaskUpCell` | plugins/proton_video_effects/native/src/meet_video_effects_engine.cpp:679-686 | a pixel gets the mask sample in whose part of the frame it starts |
| `Plates.MaskUpSameSize` | plugins/proton_video_effects/native/src/meet_video_effects_engine.cpp:679-686 | a mask of the frame's size is used as it is |
| `Plates.Compose` | plugins/proton_video_effects/native/src/meet_video_effects_engine.cpp:668-698 | every pixel is the blend under the nearest-upscaled mask |
| `EffectsEngine.SolidifyMonotone` | plugins/proton_video_effects/native/src/meet_video_effects_engine.cpp:283-295 | the solidify table is monotone for every permitted tuning |
| `EffectsEngine.SolidifyMeaning` | plugins/proton_video_effects/native/src/meet_video_effects_engine.cpp:283-295 | the stretch keeps the midpoint at half coverage, multiplies distances from it by the slope and saturates; a slope of 1 is the identity |
| `EffectsEngine.ClampNearest` | plugins/proton_video_effects/native/src/meet_video_effects_engine.cpp:475-499 | a clamped setting is in range, on the way from the given value to every value that is |
| `EffectsEngine.ClampedMeaning` | plugins/proton_video_effects/native/src/meet_video_effects_engine.cpp:491-497 | every dial of a clamped tuning is in its own range, and a permitted tuning is kept |
| `EffectsEngine.OneDial` | plugins/proton_video_effects/native/src/meet_video_effects_engine.cpp:652-666 | what a tuning does with erosion, solidifying or gamma active alone, or none of them: that stage, and the feather by a sigma of at least 0.9 mask pixels |
| `EffectsEngine.ErosionFirst` | plugins/proton_video_effects/native/src/meet_video_effects_engine.cpp:655-656 | with several active, eroding first and then using the tuning without erosion gives the same mask |
| `EffectsEngine.SolidifyingNext` | plugins/proton_video_effects/native/src/meet_video_effects_engine.cpp:657-659 | solidifying comes next, before the feather |
| `EffectsEngine.GammaLast` | plugins/proton_video_effects/native/src/meet_video_effects_engine.cpp:663-665 | gamma comes last, after the feather |
| `EffectsEngine.ErodeRadius` | plugins/proton_video_effects/native/src/meet_video_effects_engine.cpp:251-252 | the radius is the erosion fraction of 256, rounded to nearest |
| `EffectsEngine.FreshMaskByDial` | plugins/proton_video_effects/native/src/meet_video_effects_engine.cpp:652-752 | in a frame the raw mask is the segmenter's for the 256x256 resample, the solidify stage uses the stretch and the gamma stage the curve for the current exponent |
| `EffectsEngine.BlurRadiusMeaning` | plugins/proton_video_effects/native/src/meet_video_effects_engine.cpp:568-572 | one pixel of radius for every 16 of sigma, at least 1; the default sigma gives 8 |
| `EffectsEngine.PlateByMode` | plugins/proton_video_effects/native/src/meet_video_effects_engine.cpp:609-634 | image mode with a picture shows the picture covering the frame, unchanged when it has the frame's size; otherwise the blurred room is shown |
| `EffectsEngine.FlatRoom` | plugins/proton_video_effects/native/src/meet_video_effects_engine.cpp:624-633 | a room of one colour stays one colour under the blur, and is veiled like any pixel of it |
| `EffectsEngine.RoomIsBlurredThrice` | plugins/proton_video_effects/native/src/meet_video_effects_engine.cpp:624-633 | the blurred room is a resample to a quarter of the frame's size, at least 8, three successive box blurs, a resample back and the veil |
| `EffectsEngine.BlurredPlateInRange` | plugins/proton_video_effects/native/src/meet_video_effects_engine.cpp:624-631 | before the veil, the blurred plate stays within the range of the frame |
| `EffectsEngine.FrameBetweenCameraAndPlate` | plugins/proton_video_effects/native/src/meet_video_effects_engine.cpp:668-770 | every composed channel lies between camera and plate; it is the camera's where the shaped mask is 255 and the plate's where it is 0 |
| `EffectsEngine.CopiedFrameRoundTrip` | plugins/proton_video_effects/native/src/meet_video_effects_engine.cpp:515-830 | every composed frame is opaque, and copied out and set as replacement image it is the same picture |
| `EffectsEngine.CallKeepsCoherence` | plugins/proton_video_effects/native/src/meet_video_effects_engine.cpp:404-432 | every call leaves the caches holding what recomputing would give |
| `EffectsEngine.CachedIsFresh` | plugins/proton_video_effects/native/src/meet_video_effects_engine.cpp:609-666 | a frame made from coherent caches is the frame made without caches |
| `EffectsEngine.CachesInvisible` | plugins/proton_video_effects/native/src/meet_video_effects_engine.cpp:404-770 | over every sequence of set and process calls, with frames of any sizes, the frames are those of an engine without caches |
| `EffectsEngine.UsableTargetIff` | plugins/proton_video_effects/native/src/meet_video_effects_engine.cpp:73-82 | with exact quotients, which frame sizes have a target of at least 2x2 |
| `EffectsEngine.ReadsOutsideIff` | plugins/proton_video_effects/native/src/meet_video_effects_engine.cpp:724-750 | exactly for the other sizes the working frame is empty and every read of it by the segmenter's input, index 0 first, is out of bounds |
| `EffectsEngine.NoTarget` | plugins/proton_video_effects/native/src/meet_video_effects_engine.cpp:73-82 | two concrete sizes of that kind: 1x1 and 2562x2 |
| `EffectsEngine.WorkingPixel` | plugins/proton_video_effects/native/src/meet_video_effects_engine.cpp:724-749 | which source samples make a pixel of the working frame, each plane with its own stride |
| `EffectsEngine.Engine.SetBackgroundMode` | plugins/proton_video_effects/native/src/meet_video_effects_engine.cpp:467-473 | only the mode changes |
| `EffectsEngine.Engine.SetBlurConfig` | plugins/proton_video_effects/native/src/meet_video_effects_engine.cpp:475-482 | clamped sigma and opacity, nothing else |
| `EffectsEngine.Engine.SetMaskEdgeTuning` | plugins/proton_video_effects/native/src/meet_video_effects_engine.cpp:484-499 | the clamped tuning, caches kept |
| `EffectsEngine.Engine.SetReplacementImage` | plugins/proton_video_effects/native/src/meet_video_effects_engine.cpp:501-530 | sets or clears the image, drops the plate, and reports an empty picture as unusable |
| `EffectsEngine.Engine.EnsureToneLuts` | plugins/proton_video_effects/native/src/meet_video_effects_engine.cpp:404-410 | afterwards both tables are those of the current tuning |
| `EffectsEngine.Engine.ShapeMaskEdge` | plugins/proton_video_effects/native/src/meet_video_effects_engine.cpp:652-666 | erode, solidify, feather, gamma with the tables of the current tuning |
| `EffectsEngine.Engine.ShapeRaw` | plugins/proton_video_effects/native/src/meet_video_effects_engine.cpp:655-665 | the four stages in order with given tables, each under its guard |
| `EffectsEngine.Engine.BackgroundPlate` | plugins/proton_video_effects/native/src/meet_video_effects_engine.cpp:609-634 | in image mode with a picture the plate is that picture covering a frame of the current size, even from the cache; otherwise it is the veiled blur of the frame |
| `EffectsEngine.Engine.ComposeFrame` | plugins/proton_video_effects/native/src/meet_video_effects_engine.cpp:751-761 | the composed frame is the uncached one and the caches stay coherent |
| `EffectsEngine.Engine.ProcessI420` | plugins/proton_video_effects/native/src/meet_video_effects_engine.cpp:700-771 | planes in, planes out: every output sample in terms of the source planes and the settings, for exactly the frames on which the source stays inside its buffers |
| `MlsModel.WithoutMeaning` | rust/crates/fuzz/src/env.rs:379 | eviction removes exactly the target and keeps the rest free of duplicates |
| `MlsModel.JoinKeepsValid` | rust/crates/fuzz/src/env.rs:168-240 | whatever fails, `active` stays free of duplicates and lists exactly the clients with a group |
| `MlsModel.AddMemberKeepsValid` | rust/crates/fuzz/src/env.rs:246-308 | the same for an addition |
| `MlsModel.UpdateKeepsValid` | rust/crates/fuzz/src/env.rs:311-337 | the same for an update |
| `MlsModel.RemoveKeepsValid` | rust/crates/fuzz/src/env.rs:340-386 | the same for a removal |
| `MlsModel.DeliverAllKeepsValid` | rust/crates/fuzz/src/env.rs:559-577 | the same for a flush, which empties the queue |
| `MlsModel.ReplayAppend` | rust/crates/fuzz/src/env.rs:415-428 | replaying two stretches is replaying the second from where the first ends, and a rejection stops both |
| `MlsModel.ReplayMeaning` | rust/crates/fuzz/src/env.rs:415-428 | replay succeeds exactly when every entry is accepted, and otherwise names the first entry built on another history |
| `MlsEnv.TestMlsEnv.constructor` | rust/crates/fuzz/src/env.rs:90-124 | between 1 and 8 clients and no group |
| `MlsEnv.TestMlsEnv.CreateGroup` | rust/crates/fuzz/src/env.rs:135-165 | nothing if a group exists, otherwise its creator alone |
| `MlsEnv.TestMlsEnv.DeliverTo` | rust/crates/fuzz/src/env.rs:547-557 | one message to one member, or to the backlog while that member is offline |
| `MlsEnv.TestMlsEnv.Send` | rust/crates/fuzz/src/env.rs:208-213 | the delivery loop reaches every active member outside the skipped ones exactly once |
| `MlsEnv.TestMlsEnv.Join` | rust/crates/fuzz/src/env.rs:168-240 | the whole new state, for every way the library calls end |
| `MlsEnv.TestMlsEnv.AddMember` | rust/crates/fuzz/src/env.rs:246-308 | the whole new state, for every way the library calls end |
| `MlsEnv.TestMlsEnv.Update` | rust/crates/fuzz/src/env.rs:311-337 | the member moves on and its commit is queued |
| `MlsEnv.TestMlsEnv.Remove` | rust/crates/fuzz/src/env.rs:340-386 | the coordinator's commit reaches everybody, then the target leaves: see `MlsMembership.RemovedLeaves` for the new members, groups and leaves |
| `MlsEnv.TestMlsEnv.DeliverNext` | rust/crates/fuzz/src/env.rs:559-571 | the head of the queue goes to everybody but its sender and into the history |
| `MlsEnv.TestMlsEnv.DeliverAll` | rust/crates/fuzz/src/env.rs:573-577 | deliveries until the queue is empty |
| `MlsEnv.TestMlsEnv.SetExcluded` | rust/crates/fuzz/src/env.rs:391-402 | who may be taken offline, and that the backlog starts empty |
| `MlsEnv.TestMlsEnv.ReplayTo` | rust/crates/fuzz/src/env.rs:415-428 | the replay loop stops at the first commit not built on the history reached |
| `MlsEnv.TestMlsEnv.Catchup` | rust/crates/fuzz/src/env.rs:410-447 | the outcome and the new state are those functions of the old state: rejection at an index, divergence from a peer, or success |
| `MlsLiveness.RoundSettles` | rust/crates/fuzz/fuzz_targets/mls_liveness.rs:23-36 | an operation and its flush keep all active members on one history, unless a commit is lost |
| `MlsLiveness.SplitRoundDiverges` | rust/crates/fuzz/src/env.rs:168-205 | a join that loses its commit divides any group of two or more |
| `MlsLiveness.AgreementOverRuns` | rust/crates/fuzz/fuzz_targets/mls_liveness.rs:19-37 | the assertion of the run holds after every round exactly when no round loses a commit with others present, for every run and library behaviour |
| `MlsLiveness.FreshIsSettled` | rust/crates/fuzz/fuzz_targets/mls_liveness.rs:20-21 | the run starts settled |
| `MlsLiveness.MemberAdded` | rust/crates/fuzz/src/env.rs:246-308 | a successful addition puts everybody, the addee included, on the adder's next history |
| `MlsLiveness.IncompleteBundleDivides` | rust/crates/fuzz/src/env.rs:199-205 | a concrete run that ends divided |
| `MlsMembership.GroupCreated` | rust/crates/fuzz/src/env.rs:135-165 | a group is created only where there is none, and then its creator alone is in it, at its start |
| `MlsMembership.RemovedLeaves` | rust/crates/fuzz/src/env.rs:340-386 | exactly when the target is a member with a known leaf, not the coordinator and not offline, and the commit succeeds, the target and nobody else leaves, loses its group and leaf, and may join again; otherwise nothing changes |
| `MlsMembership.MemberRemoved` | rust/crates/fuzz/src/env.rs:340-386 | in a settled group everybody who stays is on the coordinator's next history |
| `MlsMembership.MemberJoined` | rust/crates/fuzz/src/env.rs:168-240 | a complete join makes the joiner the last member with its own leaf, and everybody is two commits further |
| `MlsMembership.MemberUpdated` | rust/crates/fuzz/src/env.rs:311-337 | an update, once flushed, puts everybody on its author's next history |
| `MlsMembership.FlushIsRecorded` | rust/crates/fuzz/src/env.rs:559-577 | a flush appends the queue in order to the delivery history and changes neither members nor leaves |
| `MlsMembership.RoundChanges` | rust/crates/fuzz/src/env.rs:168-386 | one operation and its flush change coordinator, members and leaves as the operation says, for every library behaviour |
| `MlsMembership.RosterOverRuns` | rust/crates/fuzz/fuzz_targets/mls_liveness.rs:19-37 | over every run, divided or not, members and leaves are those of a roster computed from the operations alone, and the coordinator never changes |
| `MlsCatchup.GoingOfflineStartsChain` | rust/crates/fuzz/src/env.rs:391-402 | a member going offline from a settled group starts a canonical chain |
| `MlsCatchup.FlushFollowsChain` | rust/crates/fuzz/src/env.rs:547-577 | flushing keeps the queue, the members and the backlog on the chain |
| `MlsCatchup.DisciplinedExtendsChain` | rust/crates/fuzz/src/env.rs:168-386 | a disciplined operation extends the chain or leaves it |
| `MlsCatchup.ChainCatchesUp` | rust/crates/fuzz/src/env.rs:410-447 | with an empty queue the backlog is exactly the missing suffix and replaying it reaches the chain |
| `MlsCatchup.OfflinePeriodCatchesUp` | rust/crates/fuzz/fuzz_targets/mls_catchup.rs:22-52 | over every disciplined offline period replay accepts every entry and ends with everybody on the chain |
| `MlsOutcome.FlushMeaning` | rust/crates/fuzz/src/env.rs:559-577 | what a flush does to any member and to the backlog, disciplined or not |
| `MlsOutcome.ImmediateRound` | rust/crates/fuzz/src/env.rs:168-386 | what a join, addition or removal leaves with every member, online or not |
| `MlsOutcome.StuckIffRejects` | rust/crates/fuzz/src/env.rs:168-447 | one operation spoils a replay that would have succeeded exactly when its commit is not built on the history the offline member will have reached |
| `MlsOutcome.ChurnStaysFatal` | rust/crates/fuzz/src/env.rs:168-577 | no later operation or delivery repairs a replay that will be rejected or a commit that cannot reach one side |
| `MlsOutcome.SafeIffDisciplined` | rust/crates/fuzz/fuzz_targets/mls_catchup.rs:30-51 | over every offline period and library behaviour, flush and replay end with everybody on one history exactly when every operation was disciplined |
| `MlsOutcome.OutcomeOfPeriod` | rust/crates/fuzz/src/env.rs:410-447 | over every offline period, catching up rejects exactly when some operation met the rejecting guard, otherwise diverges exactly when a commit was lost and the coordinator is at the epoch reached, and otherwise succeeds |
| `MlsOutcome.DisciplinedIsCaughtUp` | rust/crates/fuzz/src/env.rs:410-447 | a disciplined period is reported as caught up |
| `MlsOutcome.LateAddGoesUnnoticed` | rust/crates/fuzz/src/env.rs:246-447 | when the offline member updates and then adds somebody, the members disagree and catching up still reports success |
| `MlsOutcome.ConcurrentUpdatesBreakCatchup` | rust/crates/fuzz/fuzz_targets/mls_catchup.rs:35-51 | two updates by different online members without a flush between them: the second is rejected, at its position in the backlog |
| `MlsOutcome.SeedStands` | rust/crates/fuzz/fuzz_targets/mls_catchup.rs:23-28 | the seeded group is settled on a known history |
| `MlsOutcome.SeededConcurrentUpdates` | rust/crates/fuzz/fuzz_targets/mls_catchup.rs:22-52 | concrete runs of that shape, rejected at entry 1 |
| `MlsOutcome.SeededPeriod` | rust/crates/fuzz/fuzz_targets/mls_catchup.rs:22-52 | both equivalences for every run of the target once its seeding has succeeded and client 3 is offline |
| `VisionStore.MaskStore.BeginFrame` | plugins/proton_video_effects/darwin/Classes/MeetBackgroundBlurMediaPipeEngine.swift:957-966 | a frame claims the slot exactly when it is free, and then stamps it |
| `VisionStore.MaskStore.ClearInferenceInFlight` | plugins/proton_video_effects/darwin/Classes/MeetBackgroundBlurMediaPipeEngine.swift:1286-1290 | only the flag falls |
| `VisionStore.MaskStore.ResetSegmentationState` | plugins/proton_video_effects/darwin/Classes/MeetBackgroundBlurMediaPipeEngine.swift:278-283 | mask and flag are dropped together |
| `VisionStore.MaskStore.StoreMaskIfNewerLocked` | plugins/proton_video_effects/darwin/Classes/MeetBackgroundBlurMediaPipeEngine.swift:1296-1301 | the newer of the two masks stays |
| `VisionStore.MaskStore.StoreResult` | plugins/proton_video_effects/darwin/Classes/MeetBackgroundBlurMediaPipeEngine.swift:1273-1278 | a result is stored only under the generation it was dispatched for, and then something at least as fresh is there |
| `VisionStore.MaskStore.ReadMask` | plugins/proton_video_effects/darwin/Classes/MeetBackgroundBlurMediaPipeEngine.swift:993-998 | the stored mask exactly when there is one at most 500 ms old |
| `VisionMachine.StepKeepsInv` | plugins/proton_video_effects/darwin/Classes/MeetBackgroundBlurMediaPipeEngine.swift:957-1301 | every atomic step of every thread keeps the invariant |
| `VisionMachine.ReachableInv` | plugins/proton_video_effects/darwin/Classes/MeetBackgroundBlurMediaPipeEngine.swift:957-1301 | the invariant holds in every reachable state |
| `VisionMachine.NeverWedged` | plugins/proton_video_effects/darwin/Classes/MeetBackgroundBlurMediaPipeEngine.swift:1180-1290 | a taken slot always has somebody who will free it: the capture thread, a watchdog due within 750 ms, or a job about to clear it |
| `VisionMachine.WatchdogsFree` | plugins/proton_video_effects/darwin/Classes/MeetBackgroundBlurMediaPipeEngine.swift:1234-1254 | unless the capture thread itself holds the slot, watchdog steps and the clock alone free it within 750 ms |
| `VisionMachine.SlotComesFree` | plugins/proton_video_effects/darwin/Classes/MeetBackgroundBlurMediaPipeEngine.swift:957-1290 | from every reachable state a schedule within 750 ms frees the slot, finishes the frame and lets the next one dispatch, with no inference making progress except one the capture thread is running inline |
| `VisionMachine.MaskOnlyAdvances` | plugins/proton_video_effects/darwin/Classes/MeetBackgroundBlurMediaPipeEngine.swift:1292-1301 | between clears the stored mask's capture time only increases, under late, wedged and inline results |
| `VisionMachine.CompositedMask` | plugins/proton_video_effects/darwin/Classes/MeetBackgroundBlurMediaPipeEngine.swift:984-1004 | a composited mask was at most 500 ms old when read, of the generation then current or, exactly when it was behind, of the one before; it is outdated exactly when it was behind or a reload has bumped since |
| `VisionMachine.ReadMaskIff` | plugins/proton_video_effects/darwin/Classes/MeetBackgroundBlurMediaPipeEngine.swift:993-998 | in every reachable state a frame uses the stored mask exactly when there is one and it is at most 500 ms old |
| `VisionMachine.FresherIsStored` | plugins/proton_video_effects/darwin/Classes/MeetBackgroundBlurMediaPipeEngine.swift:1268-1301 | a result is stored exactly when it is of the current generation and fresher than what is there |
| `VisionMachine.EarlierMaskComposited` | plugins/proton_video_effects/darwin/Classes/MeetBackgroundBlurMediaPipeEngine.swift:957-1004 | a schedule that composites a frame with the mask of the frame before, whose own inference has not started |
| `VisionMachine.ReadBehindIff` | plugins/proton_video_effects/darwin/Classes/MeetBackgroundBlurMediaPipeEngine.swift:412-427 | between a bump and its clear a mask is behind exactly until a result of the new generation replaces it |
| `VisionMachine.ReloadedMask` | plugins/proton_video_effects/darwin/Classes/MeetBackgroundBlurMediaPipeEngine.swift:412-427 | once a reload has returned no mask of an earlier generation is stored |
| `VisionMachine.StaleCompositeExists` | plugins/proton_video_effects/darwin/Classes/MeetBackgroundBlurMediaPipeEngine.swift:412-1004 | a schedule that composites an outdated mask after a reload has returned |
| `DtlnRing.WebParityState.ProcessAt16k` | plugins/proton_denoise/common/darwin/Classes/MeetAudioDtlnPipeline.swift:191-209 | the loop leaves the rings and returns the samples of one call, failures and a missing handle included |
| `DtlnRing.WebParityState.DrainSilencePadded` | plugins/proton_denoise/common/darwin/Classes/MeetAudioDtlnPipeline.swift:211-219 | a prefix of the ring, padded with silence, and the ring keeps the rest |
| `DtlnRing.StreamAccounted` | plugins/proton_denoise/common/darwin/Classes/MeetAudioDtlnPipeline.swift:191-219 | for every chunking and denoiser, nothing is lost, duplicated or reordered, and each call returns as many samples as it was given |
| `DtlnRing.ReturnedSamples` | plugins/proton_denoise/common/darwin/Classes/MeetAudioDtlnPipeline.swift:191-219 | in every call of every stream the first samples returned are the next ones the denoiser produced, continuing where the call before stopped, as many as the chunk and the supply allow and none if the call failed; all later ones are silence |
| `DtlnRing.SilenceConserved` | plugins/proton_denoise/common/darwin/Classes/MeetAudioDtlnPipeline.swift:199-219 | silence returned is what the rings hold plus 512 for every failure |
| `DtlnRing.SilenceIsPeakRemainder` | plugins/proton_denoise/common/darwin/Classes/MeetAudioDtlnPipeline.swift:199-219 | without failures it is the running maximum of samples received modulo 512, hence at most 511 |
| `DtlnRing.LatencyBoundIffNoFailure` | plugins/proton_denoise/common/darwin/Classes/MeetAudioDtlnPipeline.swift:203-205 | the bound holds exactly while no frame has failed |
| `DtlnRing.FailedFrameIsSilence` | plugins/proton_denoise/common/darwin/Classes/MeetAudioDtlnPipeline.swift:203-205 | a concrete stream past the bound: one frame that fails |
| `DtlnRing.ChunkingIrrelevant` | plugins/proton_denoise/common/darwin/Classes/MeetAudioDtlnPipeline.swift:199-209 | however the same input is cut, the denoiser is fed the same frames and what is heard agrees as far as it goes |
| `Rnnoise.ReadFrame` | plugins/proton_denoise/common/cpp/src/proton_rnnoise_processor.cc:49-51 | one frame of one channel of the interleaved samples |
| `Rnnoise.WriteFrame` | plugins/proton_denoise/common/cpp/src/proton_rnnoise_processor.cc:56-58 | replaces it in place; no other channel changes |
| `Rnnoise.ReplacedFrames` | plugins/proton_denoise/common/cpp/src/proton_rnnoise_processor.cc:45-70 | exactly the first frames are replaced and the rest of the channel is as it was |
| `Rnnoise.NextFrameIntact` | plugins/proton_denoise/common/cpp/src/proton_rnnoise_processor.cc:45-60 | writing one frame behind never spoils a frame still to be read |
| `Rnnoise.BatchChannel` | plugins/proton_denoise/common/cpp/src/proton_rnnoise_processor.cc:43-71 | the in-place loop and its flush replace every whole frame by the denoiser's answer to what follows it |
| `Rnnoise.ProcessInterleavedFixed` | plugins/proton_denoise/common/cpp/src/proton_rnnoise_processor.cc:11-75 | every channel in terms of the original samples and everything fed before it, and the voice activity of the frame fed last; bad sizes change nothing and report 0 |
| `Rnnoise.BatchIsAligned` | plugins/proton_denoise/common/cpp/src/proton_rnnoise_processor.cc:43-71 | with a denoiser one frame behind, frame k of the output is g of frame k of the input whatever was fed before, and the trailing partial frame is unchanged |
| `Rnnoise.BatchAlignedInPlace` | plugins/proton_denoise/common/cpp/src/proton_rnnoise_processor.cc:43-71 | the same sample by sample in the interleaved buffer, for every channel, frame and channel count |
| `Rnnoise.LiveStereoCrossesChannels` | plugins/proton_denoise/common/cpp/src/proton_rnnoise_processor.cc:33-42 | on the single-frame path in stereo the right channel becomes g of the left one |
| `Rnnoise.LiveMonoIsOneCallLate` | plugins/proton_denoise/common/cpp/src/proton_rnnoise_processor.cc:33-42 | in mono it becomes g of the previous call's input |
| `Rnnoise.LiveStereoAlignedIff` | plugins/proton_denoise/common/cpp/src/proton_rnnoise_processor.cc:33-42 | in stereo that holds exactly when g is the same of both previous channels and of the left input |
| `Rnnoise.SilentRightIsOverwritten` | plugins/proton_denoise/common/cpp/src/proton_rnnoise_processor.cc:33-42 | a concrete stereo call in which a silent right channel comes out as the left one |
| `Rnnoise.RnnoiseProcessor.ProcessInterleaved` | plugins/proton_denoise/common/cpp/src/proton_rnnoise_processor.cc:99-117 | mono and stereo are processed and report the voice activity of the frame fed last; everything else is left alone |
| `IcsText.EscapeIsOnePass` | rust/crates/meet-calendar/src/lib.rs:227-233 | the five chained replacements are one pass over the characters |
| `IcsText.UnescapeEscape` | rust/crates/meet-calendar/src/lib.rs:227-233 | unescaping (section 3.3.11 of RFC 5545) returns the text without its carriage returns |
| `IcsText.EscapedIsText` | rust/crates/meet-calendar/src/lib.rs:227-233 | escaped text keeps to the grammar of section 3.3.11 of RFC 5545: a separator, backslash or line break only behind a backslash |
| `IcsText.PushLine` | rust/crates/meet-calendar/src/lib.rs:54-87 | the loop appends the folded line to the output |
| `IcsText.KeptMeaning` | rust/crates/meet-calendar/src/lib.rs:66-86 | folding keeps a line whole exactly when none of the octets 75, 149, 223, ... continues a character, and shortens it otherwise |
| `IcsText.ReadsBackIff` | rust/crates/meet-calendar/src/lib.rs:54-87 | unfolding (section 3.1 of RFC 5545) and splitting gives back the pushed lines exactly when none holds a CRLF and no fold cuts a character |
| `IcsText.PhysicalLinesAreShort` | rust/crates/meet-calendar/src/lib.rs:54-87 | no physical line is longer than 75 octets |
| `IcsEvent.EffectiveEnd` | rust/crates/meet-calendar/src/lib.rs:89-94 | the event always ends after it starts: its own end if that is later, otherwise after exactly a positive duration, or one minute without one |
| `IcsEvent.DecimalRoundTrip` | rust/crates/meet-calendar/src/lib.rs:186-192 | printed numbers read back |
| `IcsEvent.PushTimes` | rust/crates/meet-calendar/src/lib.rs:130-173 | the start and end lines for a known zone, an unknown one, or none, appended in print |
| `IcsEvent.PushRecurrence` | rust/crates/meet-calendar/src/lib.rs:182-204 | the rule line built piece by piece, appended in print |
| `IcsEvent.ToIcs` | rust/crates/meet-calendar/src/lib.rs:49-213 | the object is the printed line sequence |
| `IcsReading.EventLines` | rust/crates/meet-calendar/src/lib.rs:97-210 | no line begins with white space, and one holds a CRLF exactly when the zone string does |
| `IcsReading.EventReadsBackIff` | rust/crates/meet-calendar/src/lib.rs:49-213 | for every event, the lines read back exactly when the zone has no CRLF and no fold cuts a character |
| `IcsReading.AsciiEventReadsBack` | rust/crates/meet-calendar/src/lib.rs:49-213 | for ASCII fields, exactly when the zone has no CRLF, and then every physical line fits |
| `IcsReading.BrokenZone` | rust/crates/meet-calendar/src/lib.rs:154 | a zone string that loses the lines |
| `IcsReading.AccentedSummaryIsCut` | rust/crates/meet-calendar/src/lib.rs:66-86 | a summary that folding cuts |
| `IcsReading.ZonedTimesLookUp` | rust/crates/meet-calendar/src/lib.rs:130-151 | in a known zone start and effective end are printed in it |
| `IcsReading.UtcTimesLookUp` | rust/crates/meet-calendar/src/lib.rs:152-173 | otherwise they are printed in UTC |
| `IcsReading.StampLooksUp` | rust/crates/meet-calendar/src/lib.rs:122-128 | the time of making reads back |
| `IcsReading.EventNests` | rust/crates/meet-calendar/src/lib.rs:97-210 | a reader of BEGIN and END lines finds one calendar that holds one event, closed in order, with every property in the component it belongs to |
| `IcsReading.ZoneLooksUp` | rust/crates/meet-calendar/src/lib.rs:107-154 | a known zone is announced, an unknown one kept apart |
| `IcsReading.RuleReadsBack` | rust/crates/meet-calendar/src/lib.rs:182-200 | every rule reads back: frequency, interval with default 1, the count, and the end date only without a count |
| `IcsReading.FieldsReadBack` | rust/crates/meet-calendar/src/lib.rs:49-213 | a reader of the object recovers uid, summary, description, location and rule |
| `Chat.TimestampRoundTrip` | rust/crates/meet-chat/src/mimi.rs:18-33 | the timestamp extension recovers the milliseconds |
| `Chat.BuildMimiMessage` | rust/crates/meet-chat/src/mimi.rs:107-186 | an invalid emoji is refused exactly for reactions; what is built carries the time, the salt of its inputs and its own id |
| `Chat.OnTheWire` | rust/crates/meet-chat/src/mimi.rs:116-182 | the part, disposition and references that each kind of request is sent with |
| `Chat.ReactionsHashedApart` | rust/crates/meet-chat/src/mimi.rs:35-71 | from one sender, room and time no other request is hashed from the same octets as a reaction or a removal |
| `Chat.EncodingAccepted` | rust/crates/meet-chat/src/decode.rs:51-161 | the UTF-8 encoding (section 3 of RFC 3629) of every scalar value is read as one character, whatever follows it |
| `Chat.HeadIsEncoding` | rust/crates/meet-chat/src/decode.rs:51-161 | and whatever is read as one character is the encoding of a scalar value |
| `Chat.EncodedIsUtf8` | rust/crates/meet-chat/src/decode.rs:51-161 | every encoded text is accepted |
| `Chat.Utf8IsEncoded` | rust/crates/meet-chat/src/decode.rs:51-161 | everything accepted is an encoded text |
| `Chat.JoinerIff` | rust/crates/meet-chat/src/mimi.rs:73-78 | the octets of U+200D are found in a text exactly when it holds that character |
| `Chat.OptionalMessageId` | rust/crates/meet-chat/src/decode.rs:39-49 | a topic is an id exactly when it is 32 octets long |
| `Chat.DecodeMimiContent` | rust/crates/meet-chat/src/decode.rs:51-161 | decoding fails exactly on text that is not UTF-8 in a part that would be shown, and keeps id, sender and time |
| `Chat.EchoIsWhatReceiversDecode` | rust/crates/meet-chat/src/compose.rs:3-41 | for every request that builds, decoding the content gives the event echoed locally |
| `Chat.RequestIsRecovered` | rust/crates/meet-chat/src/mimi.rs:107-186 | a receiver recovers the request, a redundant topic aside, so two contents decode alike exactly when the requests are the same |

## Left out

- Floating-point rounding of samples, weights, scales and tone tables: exact arithmetic throughout; 32-bit overflow of pixel products is not modelled.
- The Gaussian kernel of the feathering blur and the power function of the gamma table are arbitrary functions.
- The segmenter, TFLite and its tensor and parameter checks, RNNoise, DTLN and mls-rs internals.
- EffectsEngine.Engine.ProcessI420: requires `UsableFrame`, because the source reads outside its buffers on every other frame; rotation is ignored there as in the source.
- Frames.TargetSizeMeaning: exact quotients; in single precision a long side of 2128 gives 1278, and 26240x41 passes `UsableFrame` though its short side scales to just under 2.
- EffectsEngine.UsableTargetIff: exact quotients, with the same reservation.
- EffectsEngine.Engine: the mutex, the retained preview buffer and the readiness flag; the copy-out is modelled on values (`RgbaOf`).
- MlsEnv.TestMlsEnv: application messages, reloads, drops, reordering, corruption, replays of old messages and the removed-sender check; rosters and trees are determined by the commit history here.
- MlsEnv.TestMlsEnv.Catchup: a rejected entry or a divergence is an outcome instead of a panic.
- VisionMachine: the MediaPipe callback path, which shares the in-flight generation and capture time; a single capture thread; the generation counter is unbounded rather than wrapping; frames are not composited pixel by pixel.
- VisionMachine.SlotComesFree: while an inline inference is running, that inference has to return, since the inline mode has no watchdog by design.
- DtlnRing: resampling to and from 16 kHz, and the deprecated legacy pipeline.
- Rnnoise.BatchIsAligned: excludes a channel of exactly one frame, which takes the single-frame path.
- IcsText: UTF-8 validity is the absence of a cut inside a character, since the input is a Rust string.
- IcsEvent: overflow of a duration in minutes, and how instants are formatted and zone names recognised.
- Chat.ContentOf: CBOR encoding of contents; the hash itself, and distinguishing messages by their salt (a text and the id it replies to are hashed without a separator).
- Legacy plaintext messages, hex ids, key-value storage, logging, plug-in registration, windows, payments, encryption and network services.
