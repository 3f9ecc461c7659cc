# Verified models of the analysis tools

This project models the parts of the repository that decide something from captured data, and proves what they promise:

- `LodBias`, `PartVerdicts`, `GateCodec`, `GateBytes` - the cull-gate probe (`tools/cull_gate_probe.py`). From part rows that passed or
  were rejected the tool brackets a threshold it never sees, replays every part's test under a LOD bias, joins the
  verdicts with the slots each draw covers, and reports how many draws the bias removes as an interval. The interval is
  exactly the range of the tool's own test. Its binary gate file (three versions) is an exact printer/parser pair, and
  every number of it lies at the byte offset the format gives it.
- `LodBiasTruth` - the engine's side of that estimate: which parts would still pass the engine's own test, whether its
  rows can be re-run or not, in every world consistent with the file; and exactly when the interval contains the answer.
- `ReplayGeometry`, `ReplayExport`, `ReplayExtract`, `ReplayFixture`, `FixtureBytes`, `ReplayGuarantees`, with
  `Occurrences` - the
  identity-fusion replay export (`tools/identity_fusion_capture.py`): a windowed vertex buffer, 16- or 32-bit indices and
  a base vertex become a compact vertex buffer and rebased 32-bit indices that fetch the same bytes; later frames borrow
  first-frame geometry by key and occurrence; the fixture file is what the bounded reader accepts, and nothing else is.
  `ReplayGeometry.SampleNormalizes` is a worked example, the draw of the exporter's self test.
- `EyeRegistration` - the eye-split diff (`tools/diff_eye_split.py`): the depth route measures a pure translation exactly
  and the tile map read at that shift cancels it.
- `ProbeBudget` - the try-lock sampling budget (`src/common/call_probe_budget.h`): the class, and a state machine of any
  number of callers in which every shared access is one step, over all interleavings.
- `PanelGeometry` - the draw fetch-window check (`tools/eye_panel_snapshot.py`): two extreme indices decide all fetches.
- `DrawIdentity` - recurrence statistics of draw keys (`tools/draw_identity.py`) and how they move when keys are refined.
- `Fnv`, `BuildDiff` - the hashed block map of two builds and what is concluded from it (`tools/build_diff.py`).
- `ProfileSession` - the trace-session commands and the process handles of `tools/cpu_profile.py`.
- `FlashResidual` - residual geometry and event detection (`tools/flash_patch_residual.py`).
- `RoiMapping` (`tools/eye_decisions.py`), `FsrLiterals` (`tools/gen_fsr_hlsl.py`), `SettingTypes`
  (`tools/gen_settings_schema.py`), `CensusDiff` (`tools/diff_draw_census.py`).
- `Prelude`, `Bytes`, `Parsing` - results, `struct`-style packing, and file formats as parser/writer pairs closed under
  the ways a file combines them; the imperative readers are proved against those pairs.

Python floats are modelled as reals wherever they are computed with, and as raw 32-bit words where a file only carries
them. Loops over mutable state are methods proved against specification functions or predicates; expressions are
functions. A `hide` statement in a proof only withholds a definition from the verifier.

## Where the code and what is said of it differ

- `tile_map` calls a tile valid when it is "wholly inside the image", but looks at every fourth column only: a valid tile
  may overhang the right edge by up to three columns (`EyeRegistration.ValidIsWhollyInsideIff`, `OverhangIsBounded`,
  `ValidTileOverhangs`); which shifts do that to a map is `MapOverhangsIff`.
- The LOD-bias interval is meant to contain the number of draws a bias removes. It does exactly under the conditions of
  `LodBiasTruth.IntervalIsSoundIff`, and fails in three ways. An admitted part may have no counted row (no view dump, or
  a sphere that was not read), and is then removed even without a bias (`UncountedPartIsLost`, `BiasOneIsSoundIff`,
  `NothingIsRemovedAtOneIff`). The 'scale' form, and the 'distance' form as the mechanism it names, apply the factor to
  the whole LOD distance, which is right only without an orthographic constant (`LodBias.ScaledDistanceIsExactIff`,
  `ContextDistanceIsExactIff`, `LodBiasTruth.ScaledViewIsMisjudged`). And the brackets look at rows with any flags
  (`FaultedRowMisleads`). "Kept" means that a test that passed still passes; rejected rows are left out, which is right
  from a factor of one on (`RejectedStaysRejected`), while the tool takes any positive factor (`RejectedCanPass`).
- The "wrong patch huge" test of `_prefer` is implied by the "right patch small" one exactly for no step or from two
  metres on (`FlashResidual.TheThresholdIsTwo`); below that both patches can be small.
- `compute` looks for "the skip line" of an event by its frame, from the first call on: an event whose frame was skipped
  in before is given the bases of that earlier run (`FlashResidual.OwnBasesIff`, `BasesOfAnotherRun`).
- `record` leaves its session running when the `on_started` callback raises, which runs outside its handlers
  (`ProfileSession.SessionIsEndedIff`).
- Setting types do not depend on the walk order, except for keys only read as strings whose first reads in two files
  differ in range (`SettingTypes.DisagreeingFilesDepend`, `OrderFreeIff`).
- `edvr_hash` is FNV-1a from an offset that is not the standard one; both are `Fnv.From` with their own start.

## Model

| member | source | states |
|---|---|---|
| LodBias.FirstLevel | tools/cull_gate_probe.py:150-154 | the level picked is the first whose threshold the distance does not exceed |
| LodBias.PickIs | tools/cull_gate_probe.py:142-155 | a part passes up to the first threshold, at the first level whose next one the distance does not exceed; a table of more than seven levels picks nothing |
| LodBias.PickIsMonotone | tools/cull_gate_probe.py:142-155 | at a smaller distance a passing part still passes, at no coarser a level |
| LodBias.ExplainsIff | tools/cull_gate_probe.py:1078-1104 | thresholds explain the rows when what passed is within its model's and what is within, tested for it, passed |
| LodBias.T0Brackets | tools/cull_gate_probe.py:1078-1104 | the brackets are the largest passing and smallest rejected distance per model; the counts are of conflicting and of inverted models |
| LodBias.NoConflictIffExplained | tools/cull_gate_probe.py:1078-1104 | there is no conflict exactly when some threshold per model explains every counted row |
| LodBias.OneTableNeverContradicts | tools/cull_gate_probe.py:1078-1104 | rows generated by one table per model show no conflict and no inversion, whatever the thresholds |
| LodBias.RowVerdict | tools/cull_gate_probe.py:1126-1145 | one row under a bias: kept for certain, kept possibly |
| LodBias.LodBiasVerdicts | tools/cull_gate_probe.py:1107-1147 | the flags of each eye are the certain and the possible reading of every part's rows |
| LodBias.RemovedIff | tools/cull_gate_probe.py:1150-1157 | a draw goes exactly when it covers a slot and each slot it covers, at whatever place of its range, is claimed and has no kept claimant |
| LodBias.RangeSplits | tools/cull_gate_probe.py:1150-1157 | the draw of two ranges one after the other goes exactly when the draws of both go |
| LodBias.RemovedIsNumber | tools/cull_gate_probe.py:1207-1235 | the number printed is that of the draws all of whose slots are claimed by parts none of which is kept |
| LodBias.JoinIsAntitone | tools/cull_gate_probe.py:1150-1157 | keeping more parts removes no further draw |
| LodBias.IntervalSpansItsTest | tools/cull_gate_probe.py:1107-1157 | with any threshold per model that explains the rows filled in, the tool's own test removes between the two ends, draw by draw and in number; the ends meet where tables are recorded |
| LodBias.IntervalIsTight | tools/cull_gate_probe.py:1107-1157 | each end is reached by thresholds that explain every row, so no narrower interval spans the tool's own test |
| LodBias.RemovedInterval | tools/cull_gate_probe.py:1207-1235 | the interval printed for a bias and form is exactly what the tool's own test removes over the thresholds that explain the rows: it contains all of it and reaches both ends; each end is the number of draws with a slot, all slots claimed and no claimant kept |
| LodBias.BiasOnlyRemoves | tools/cull_gate_probe.py:1107-1157 | a bias never brings back a draw the engine's own verdicts remove |
| LodBias.ScaledDistanceIsExactIff | tools/cull_gate_probe.py:1107-1117 | the scaled distance is the distance under the scaled view exactly when the factor is one or the constant is zero |
| LodBias.ContextDistanceIsExactIff | tools/cull_gate_probe.py:1107-1117 | and likewise under the scaled context |
| LodBiasTruth.GatherParts | tools/cull_gate_probe.py:1189-1203 | a part is admitted by any row of its that passed in the eye's view, and counted are the rows that can be re-run |
| LodBiasTruth.BiasOneKeepsTheAdmitted | tools/cull_gate_probe.py:941-952 | judged by the engine's test, counted or not, a bias of one keeps exactly the parts admitted |
| LodBiasTruth.TruthInRange | tools/cull_gate_probe.py:941-952 | in every world consistent with the rows, what must still pass does, and what does can |
| LodBiasTruth.CanIsReached | tools/cull_gate_probe.py:941-952 | what can still pass does in some consistent world |
| LodBiasTruth.MustIsReached | tools/cull_gate_probe.py:941-952 | what need not still pass does not in some consistent world |
| LodBiasTruth.IntervalIsSoundIff | tools/cull_gate_probe.py:1107-1157 | for every bias and factor the interval spans what is truly kept in every consistent world exactly when the tool is certain only of what no such world contradicts, as comparisons of recorded numbers |
| LodBiasTruth.SoundIffContains | tools/cull_gate_probe.py:1150-1157 | a sound interval contains the number of draws truly removed, for all claims and draws, and no other does |
| LodBiasTruth.AgreesIff | tools/cull_gate_probe.py:1107-1117 | the tool's distance and the engine's give one verdict at every threshold exactly for the biases f is scaled by, no bias, or no constant |
| LodBiasTruth.ExactBiasIsSoundIff | tools/cull_gate_probe.py:1107-1157 | where distances agree and the brackets look at rows that can be re-run, the interval is sound exactly when every part is kept possibly or has all the rows it passed counted |
| LodBiasTruth.BiasOneIsSoundIff | tools/cull_gate_probe.py:1189-1203 | at a factor of one it is sound exactly when every admitted part has a counted row that it passed |
| LodBiasTruth.NothingIsRemovedAtOneIff | tools/cull_gate_probe.py:1206-1211 | at a factor of one the lower end removes nothing beyond the engine's own verdicts exactly then, the upper end exactly when such a row is bounded |
| LodBiasTruth.Estimate | tools/cull_gate_probe.py:1160-1235 | where sound, the interval printed contains what the bias truly removes, in every consistent world; each end is the number of draws all of whose slots are claimed by parts that are not kept |
| LodBiasTruth.RejectedStaysRejected | tools/cull_gate_probe.py:1126-1128 | leaving out rejected rows is right from a factor of one on, where distances are not negative |
| LodBiasTruth.StillPassesIsPasses | tools/cull_gate_probe.py:1126-1128 | under those conditions the parts that still pass are those that pass any test at all |
| LodBiasTruth.RejectedCanPass | tools/cull_gate_probe.py:930-938 | below one, or with the camera inside the sphere, a rejected test can pass |
| LodBiasTruth.UncountedPartIsLost | tools/cull_gate_probe.py:1189-1203 | an admitted part without a counted row: its draw is reported removed at a factor of one |
| LodBiasTruth.ScaledViewIsMisjudged | tools/cull_gate_probe.py:1132-1143 | a view with an orthographic constant at twice the scale: the draw stays and is reported removed |
| LodBiasTruth.FaultedRowMisleads | tools/cull_gate_probe.py:1078-1104 | a row whose sphere was not read moves a bracket: a draw that goes is reported kept |
| PartVerdicts.PartViews | tools/cull_gate_probe.py:457-475 | a view is there exactly when a counted row tested the part in it, passes exactly when one of them passed, and has the level of the last that did; rows left out and rows counted make up the frame |
| PartVerdicts.TestsIff | tools/cull_gate_probe.py:461-472 | which rows test a part: of the frame and the view, with a builder row, none of three flags, and the record, entry and sub-item of the part |
| PartVerdicts.LevelDependsOnOrder | tools/cull_gate_probe.py:474 | swapping two rows that passed changes the level |
| PartVerdicts.RowOrderDoesNotMatter | tools/cull_gate_probe.py:457-475 | which parts are tested and which pass depends only on which rows there are |
| PartVerdicts.VerdictIsFromTheRows | tools/cull_gate_probe.py:478-495 | admitted exactly when a row passed, untested exactly when the record admitted the eye and no row tested the part |
| PartVerdicts.PartTally | tools/cull_gate_probe.py:498-532 | the six columns are the sizes of the six classes of slots and parts, over both eyes |
| PartVerdicts.SlotsTallied | tools/cull_gate_probe.py:507-516 | the columns of slots count drawn slots that every claimant rejects, and drawn slots that none admits and one leaves untested |
| PartVerdicts.PartsTallied | tools/cull_gate_probe.py:517-531 | the columns of parts count claiming parts by their verdict and by whether a slot of theirs is drawn |
| PartVerdicts.NoViolationIffExplained | tools/cull_gate_probe.py:498-506 | both violation columns are zero exactly when the admission explains the draws of both eyes |
| PartVerdicts.ExplainedDrawsAreAdmitted | tools/cull_gate_probe.py:498-506 | in an explained eye with nothing untested every claimed slot drawn has an admitted claimant |
| PartVerdicts.EveryPartIsPlaced | tools/cull_gate_probe.py:522-531 | every claiming part is in exactly one part column, or is rejected with a slot drawn |
| PartVerdicts.TwinsAreExcused | tools/cull_gate_probe.py:504-506 | a slot with an admitted claimant counts against neither it nor its twins |
| GateCodec.ReadGate | tools/cull_gate_probe.py:170-289 | the stream reader returns the parse of the file, or its first error |
| GateCodec.WriteGate | tools/cull_gate_probe.py:292-346 | the writer produces the encoding of what the version carries, for any gate whose fields have their widths, however many dumps, views and planes it has |
| GateCodec.ReadBackIff | tools/cull_gate_probe.py:170-346 | of what is written the reader accepts exactly the well-formed gates, as themselves: more than 16 dumps, 64 views or 32 planes, a reference out of range or a table twice is refused |
| GateCodec.WrittenIsRead | tools/cull_gate_probe.py:170-346 | what is written for any of the three versions is read back, and anything after it is refused |
| GateCodec.ReadIsWritten | tools/cull_gate_probe.py:170-289 | an accepted file is the encoding of its contents, whose references are in range and whose table pointers differ |
| GateCodec.CodecIsExact | tools/cull_gate_probe.py:170-346 | a file is accepted with given contents exactly when it is the encoding of those well-formed contents |
| GateCodec.NoProperPrefix | tools/cull_gate_probe.py:275-278 | no proper extension or prefix of an accepted file is accepted |
| GateCodec.WellFormedIsCarried | tools/cull_gate_probe.py:292-346 | a well-formed gate has nothing its version does not carry, so nothing of it is lost |
| GateBytes.AcceptedBytes | tools/cull_gate_probe.py:104-289 | of an accepted file every field of the header, the counters, the dumps and of each test, builder, entry, sub-item, part and table row is the little-endian number at its offset, with each section right after the one before it |
| GateBytes.AcceptedBounds | tools/cull_gate_probe.py:200-289 | and its counts and references are within the format's bounds |
| GateBytes.ReferencesIff | tools/cull_gate_probe.py:279-288 | no less and no more is asked of the references |
| GateBytes.DumpsIff | tools/cull_gate_probe.py:197-212 | nor of the counts of dumps, views and planes |
| Parsing.ManyForward | tools/cull_gate_probe.py:215-219 | counted items written one after another are read back |
| Parsing.ManyBack | tools/cull_gate_probe.py:215-219 | counted items that are accepted are the writing of what was read |
| Parsing.Stream.Take | tools/cull_gate_probe.py:174-178 | a read of exactly n bytes, or the error of a short one, leaving the rest |
| Bytes.UnpackAllPackAll | tools/cull_gate_probe.py:180-182 | unpacking a record undoes packing it |
| Bytes.PackAllUnpackAll | tools/cull_gate_probe.py:180-182 | packing what was unpacked gives the bytes back |
| Bytes.LowByteFirst | tools/cull_gate_probe.py:180-182 | byte i of a number counts 256 to the i: the low byte comes first |
| Bytes.FourBytes | tools/cull_gate_probe.py:180-182 | so four bytes are what they are in a 32-bit field |
| ReplayGeometry.NormalizationPreservesFetches | tools/identity_fusion_capture.py:134-193 | every rebased index lies in the compact buffer and fetches the bytes the source index fetched through the captured window |
| ReplayGeometry.NothingElseIsCopied | tools/identity_fusion_capture.py:157-169 | the compact buffer runs from the least to the greatest vertex drawn: the index buffer names its first and its last |
| ReplayGeometry.NormalizesIff | tools/identity_fusion_capture.py:134-182 | a draw normalises exactly when its descriptors are sound, every fetch was captured, none is negative and the span fits |
| ReplayGeometry.NormalizeTells | tools/identity_fusion_capture.py:134-182 | the error is that of the first check that fails: descriptors, index window, a vertex before the first, a fetch not captured, a span too wide, the layout |
| ReplayGeometry.KeysSeparate | tools/identity_fusion_capture.py:66-80 | which draws have the same stable key, and which the same key of their geometry |
| ReplayGeometry.NormalizeIsIdempotent | tools/identity_fusion_capture.py:134-193 | a normal form drawn again has the same buffers |
| ReplayGeometry.IndexReadAlone | tools/identity_fusion_capture.py:142-154 | an index read alone from the window is the one unpacked with the rest |
| Occurrences.UnderAt | tools/identity_fusion_capture.py:290-291 | what a draw left under its key is found at its occurrence of the key |
| Occurrences.NthIsUnique | tools/identity_fusion_capture.py:301-303 | a key has each occurrence once |
| ReplayExport.PayloadBuffers | tools/identity_fusion_capture.py:83-131 | a payload's buffers are whole, bounded and of the strides asked for; its instance pair is 8 bytes and its constants are bounded |
| ReplayExport.PayloadIff | tools/identity_fusion_capture.py:83-131 | a draw has a payload exactly when its three buffers are bound with 336, 48 and 8 bytes an item, the pair of its start instance lies in the last and its second and third constants are whole; and that is what it holds |
| ReplayExport.BufferTells | tools/identity_fusion_capture.py:83-98 | why a buffer is refused: unknown, described otherwise, too large, or not whole |
| ReplayExport.PayloadTells | tools/identity_fusion_capture.py:102-131 | why a payload is refused: a buffer first, then the instance pair, then the constants |
| ReplayExport.Exporter.TakeResource | tools/identity_fusion_capture.py:225-242 | a captured buffer is placed once; only a new one beyond the bound is refused |
| ReplayExport.Exporter.TakeGeometry | tools/identity_fusion_capture.py:264-275 | a geometry identity is placed once |
| ReplayExport.Exporter.FirstDraw | tools/identity_fusion_capture.py:248-291 | a first-frame draw has its verdict and leaves its slot, which a failure after registration does not take back |
| ReplayExport.Exporter.FirstFrame | tools/identity_fusion_capture.py:244-292 | every draw of the first frame has its verdict, the slots are theirs in order, the dimensions are those of the first draw that passes |
| ReplayExport.Exporter.LaterDraw | tools/identity_fusion_capture.py:316-329 | a draw that borrows: its own payload through the lender's binding, the lender's geometry |
| ReplayExport.Exporter.LaterFrame | tools/identity_fusion_capture.py:294-331 | every candidate of a later frame has the verdict its key, occurrence, payload and dimensions call for |
| ReplayExport.LendersAreChoices | tools/identity_fusion_capture.py:302-315 | a slot is filled at a later draw's occurrence exactly when a usable first-frame draw corresponds to it, and is that draw's |
| ReplayExport.LenderIsUnique | tools/identity_fusion_capture.py:302-310 | at most one first-frame draw lends to a later one |
| ReplayExport.NoneIsLost | tools/identity_fusion_capture.py:221-223 | every verdict is an output or a counted skip |
| ReplayExtract.EligibleFrames | tools/identity_fusion_capture.py:199-200 | the frames with candidates, in order, each once |
| ReplayExtract.CandidatesIff | tools/identity_fusion_capture.py:58-63 | the candidates of a frame are its draws with the source ordinal, a known shader, one instance and whole triangles, in order |
| ReplayExtract.Select | tools/identity_fusion_capture.py:197-210 | the frames selected are the first consecutive ones with candidates within the bound, and are refused only when there are none such |
| ReplayExtract.LoadShaders | tools/identity_fusion_capture.py:335-343 | the shaders load exactly when each family's bytecode is there, non-empty and, if verified, hashes to its name |
| ReplayExtract.UsedInOrder | tools/identity_fusion_capture.py:335-336 | the families in use keep their order |
| ReplayExtract.EdvrStart | tools/identity_fusion_capture.py:50-55 | the hash starts one digit short of the standard one |
| ReplayExtract.Extract | tools/identity_fusion_capture.py:196-351 | there is an export exactly when frames can be selected, a first-frame draw passes its checks and the shaders of all those of its size are there; and it is explained: frames, verdicts, borrowed geometry, resources, meshes and skips are those the capture calls for |
| ReplayExtract.KeptProvides | tools/identity_fusion_capture.py:333-343 | what the first frame left provides for an export exactly when the capture's first-frame draws do |
| ReplayGuarantees.EveryCandidateIsAccountedFor | tools/identity_fusion_capture.py:361-364 | in every frame accepted and skipped draws add up to the candidates |
| ReplayExtract.TotalCounts | tools/identity_fusion_capture.py:221-223 | the skips of the export are those of its frames together, reason by reason |
| ReplayGuarantees.DrawsAreReplayable | tools/identity_fusion_capture.py:244-331 | every draw of a frame is an eligible draw of that captured frame and has the fixture's width and height |
| ReplayGuarantees.DrawsAreInOrder | tools/identity_fusion_capture.py:244-331 | the draws of a frame come in the order captured, none twice |
| ReplayGuarantees.DrawnWithItsShader | tools/identity_fusion_capture.py:335-348 | every draw, borrowing or not, is replayed with the shader it was captured with and as many indices |
| ReplayGuarantees.FirstDrawsCarry | tools/identity_fusion_capture.py:244-292 | a first-frame draw carries its own constants, pool and bones and the eight bytes of its start instance from the offset of its own instance stream, with its own geometry |
| ReplayGuarantees.LaterDrawsCarry | tools/identity_fusion_capture.py:294-331 | a later draw carries its own, the eight bytes counted from the offset of its lender's instance stream |
| ReplayGuarantees.LaterDrawsBorrow | tools/identity_fusion_capture.py:294-329 | every later draw borrows from the usable first-frame draw of its stable key and occurrence, and all usable ones under that key hold one geometry |
| ReplayGuarantees.BorrowedFetches | tools/identity_fusion_capture.py:294-329 | for every index a later draw fetches from its mesh the bytes its lender fetched from the captured buffers |
| ReplayGuarantees.FixtureIsSound | tools/identity_fusion_capture.py:196-351 | whatever the capture, the extracted fixture is sound once its shaders fit |
| ReplayGuarantees.ExportIsAccepted | tools/identity_fusion_capture.py:394-508 | an extracted fixture within the size bounds is encoded and accepted with its own counts |
| ReplayGuarantees.ExportCapture | tools/identity_fusion_capture.py:531-538 | the chain succeeds exactly when the extraction does and the fixture's fields and total size are within bounds; the inspection never fails and reports the fixture's counts |
| ReplayFixture.Encode | tools/identity_fusion_capture.py:394-440 | the writer succeeds exactly within its bounds and field widths, with the encoding |
| ReplayFixture.Writer.PutBytes | tools/identity_fusion_capture.py:408-411 | a blob within its bound is appended with its length, and refused beyond it |
| ReplayFixture.Writer.PutSections | tools/identity_fusion_capture.py:416-436 | the sections are appended in order as their encoding, or a check fails |
| ReplayFixture.Inspect | tools/identity_fusion_capture.py:443-508 | the bounded reader returns the counts of the file, or its first error |
| ReplayFixture.EncodedIsInspected | tools/identity_fusion_capture.py:394-508 | a well-formed fixture within the bound is accepted with its own counts |
| ReplayFixture.InspectIsExact | tools/identity_fusion_capture.py:443-508 | data is accepted with given counts exactly when it is the encoding of a well-formed fixture of those counts |
| ReplayFixture.NoProperPrefix | tools/identity_fusion_capture.py:505-506 | no proper extension or prefix of an accepted fixture is accepted |
| ReplayFixture.SoundIsWellFormed | tools/identity_fusion_capture.py:394-508 | a fixture within the bounds passes the writer's checks and the reader's |
| ReplayFixture.WellFormedIffSound | tools/identity_fusion_capture.py:394-508 | what the reader accepts is exactly what is within the bounds, so it accepts nothing the writer refuses |
| ReplayFixture.SoundInNumbersIff | tools/identity_fusion_capture.py:394-508 | those bounds in numbers |
| FixtureBytes.EncodedBytes | tools/identity_fusion_capture.py:394-440 | in what is written every number and every buffer lies at its offset: header, shaders, resources, geometries and frames, one item right after another |
| FixtureBytes.AcceptedBytes | tools/identity_fusion_capture.py:443-508 | what the reader accepts is laid out so, as a fixture within the bounds that has the counts reported |
| EyeRegistration.MaskCentroid | tools/diff_eye_split.py:230-247 | the count and mean position of the marked texels |
| EyeRegistration.MaskOverlap | tools/diff_eye_split.py:250-272 | the share of one mask's texels that land on the other once moved |
| EyeRegistration.EachTexelCounts | tools/diff_eye_split.py:230-247 | one more marked texel adds one to the count and its row and its column to the sums |
| EyeRegistration.NothingCounts | tools/diff_eye_split.py:230-247 | and an empty mask has none |
| EyeRegistration.EachLandingCounts | tools/diff_eye_split.py:250-272 | one more marked texel adds a hit exactly when it lands on a marked texel of the other eye |
| EyeRegistration.NothingLands | tools/diff_eye_split.py:250-272 | and an empty mask has no hit |
| EyeRegistration.RoundIff | tools/diff_eye_split.py:364-365 | the nearest whole number, the even one at a tie, and only that |
| EyeRegistration.MeasurePair | tools/diff_eye_split.py:347-368 | a pair of masks is accepted exactly under the area, balance and overlap guards; the shift is the difference of the two centroids to the nearest whole number, to the even one at a tie, and the overlap is that at this shift |
| EyeRegistration.DepthRoute | tools/diff_eye_split.py:340-372 | the first acceptable pair, in the order given, carries the measurement: its centroids' difference to the nearest whole number and the overlap there |
| EyeRegistration.TranslationIsMeasured | tools/diff_eye_split.py:340-372 | a pure translation with nothing clipped is measured exactly, with overlap one |
| EyeRegistration.TileMap | tools/diff_eye_split.py:162-210 | every tile's mean and validity at a shift |
| EyeRegistration.MeanIsBetween | tools/diff_eye_split.py:162-210 | a tile's mean lies between any bounds of its samples inside the image |
| EyeRegistration.ShiftedTileAgrees | tools/diff_eye_split.py:162-210 | read at the shift that undoes the translation, a valid tile has the other eye's mean |
| EyeRegistration.CompareRegistered | tools/diff_eye_split.py:340-372 | the whole chain, for images of any size in which the shift is whole: it is measured on depth, scaled to the image, and every valid tile pair agrees |
| EyeRegistration.ValidIsWhollyInsideIff | tools/diff_eye_split.py:162-172 | a valid tile is wholly inside exactly when its last column is |
| EyeRegistration.OverhangIsBounded | tools/diff_eye_split.py:162-210 | it overhangs the right edge by at most the columns not looked at, three for a tile of sixteen, and no other edge |
| EyeRegistration.MapOverhangsIff | tools/diff_eye_split.py:162-210 | some valid tile of a map overhangs exactly when a row of tiles fits and the shift and the width leave one to three columns of a tile past the edge |
| EyeRegistration.ScaleShiftIsExact | tools/diff_eye_split.py:402-408 | wherever the shift is whole in the other target's texels, as at every multiple of the measured shape, it is found |
| EyeRegistration.ScaleShiftIsNearest | tools/diff_eye_split.py:402-408 | the scaled shift is the nearest whole number to the shift times the ratio of the sizes |
| ProbeBudget.GameCallProbeBudget.Take | src/common/call_probe_budget.h:14-21 | an uncontended call takes the sample the budget admits: one of the first four at once, a later one up to sixteen once 20000 has passed; a contended one takes none and changes nothing |
| ProbeBudget.BudgetHolds | src/common/call_probe_budget.h:6-22 | over every interleaving: one holder, samples 1..n with n at most 16, spaced by the interval from the fifth on, and a call is admitted exactly when it is due |
| ProbeBudget.AdmittedWhenDue | src/common/call_probe_budget.h:16-20 | the next call is admitted exactly when fewer than four were, or fewer than sixteen and the last one 20000 ago or more |
| ProbeBudget.ResultsAreUnique | src/common/call_probe_budget.h:14-21 | each nonzero result is returned once, and a quiet run has returned exactly 1..n |
| ProbeBudget.CallsAreWaitFree | src/common/call_probe_budget.h:6-21 | a call under way ends within ten of its own steps in every interleaving |
| ProbeBudget.NothingWraps | src/common/call_probe_budget.h:17 | the 64-bit subtraction never underflows and the count never leaves its word |
| ProbeBudget.Replay | src/common/call_probe_budget.h:14-21 | an interleaved run is a sequential run of the class with the same results |
| PanelGeometry.VerifyGeometry | tools/eye_panel_snapshot.py:193-246 | a draw is accepted exactly when its formats are sound, its semantics differ under the given upper-casing, and every fetch of every element lies in a retained window |
| PanelGeometry.ExtremesDecide | tools/eye_panel_snapshot.py:238-245 | the least and the greatest vertex or instance decide every fetch between them |
| PanelGeometry.IndexedRange | tools/eye_panel_snapshot.py:201-214 | the range of an indexed draw, strip cuts left out, is that of the vertices it fetches |
| PanelGeometry.CheckElement | tools/eye_panel_snapshot.py:220-245 | one element: its checks, its resolved offset and its window |
| PanelGeometry.AlignUpIsLeast | tools/eye_panel_snapshot.py:231 | aligning gives the least multiple of the alignment not below the number |
| PanelGeometry.AppendedAfter | tools/eye_panel_snapshot.py:230-233 | an appended element comes, aligned, right after the one before it in its slot |
| PanelGeometry.AppendedFirst | tools/eye_panel_snapshot.py:230-233 | and at the start of a slot no element was in |
| PanelGeometry.FormatTable | tools/eye_panel_snapshot.py:184-190 | the size of every format is the number of its components times their bytes |
| PanelGeometry.CutIff | tools/eye_panel_snapshot.py:201-214 | the all-ones index cuts, in the four strip topologies |
| PanelGeometry.IndexAt | tools/eye_panel_snapshot.py:201-214 | index j is the number in the j-th two or four bytes |
| PanelGeometry.IndexCount | tools/eye_panel_snapshot.py:201-214 | and there are as many as fit |
| DrawIdentity.FrameStats | tools/draw_identity.py:247-253 | how many keys, how many distinct, how many that name one draw |
| DrawIdentity.PairStats | tools/draw_identity.py:256-267 | occurrences shared, places shared, and keys that name one draw of each frame |
| DrawIdentity.CountsArePlaces | tools/draw_identity.py:247-267 | unique, usable and positional count places: of keys found nowhere else, of such keys at just one place of the other frame, and of equal keys |
| DrawIdentity.RecurIsSymmetric | tools/draw_identity.py:256-267 | recurrence is symmetric and bounded by both frames |
| DrawIdentity.PositionalWithinRecur | tools/draw_identity.py:256-267 | a key that returns at its place returns |
| DrawIdentity.UsableWithinRecur | tools/draw_identity.py:256-267 | usable keys return |
| DrawIdentity.FinerKeys | tools/draw_identity.py:247-267 | refining a key never raises recurrence or places shared, and never lowers distinct or unique keys |
| DrawIdentity.ArgsAreFinerThanShapes | tools/draw_identity.py:196-203 | the args key refines the shape key |
| DrawIdentity.KeysSeparate | tools/draw_identity.py:196-203 | which draws have the same key: all the fields of it are alike, and no other field matters |
| DrawIdentity.UsableCanRise | tools/draw_identity.py:256-267 | usable keys can rise under refinement |
| DrawIdentity.UsableCanFall | tools/draw_identity.py:256-267 | and can fall |
| Fnv.Fnv1a64 | tools/build_diff.py:87-92 | the loop computes the hash |
| Fnv.Vectors | tools/build_diff.py:87-92 | the published hashes of nothing and of the letter a: the byte is combined before the multiplication |
| Fnv.XorAt | tools/build_diff.py:90 | the combination is exclusive or, bit by bit |
| Fnv.StepIsBijective | tools/build_diff.py:90-91 | each step is a bijection of the 64-bit states |
| Fnv.HashSeparates | tools/build_diff.py:87-92 | inputs of one length that differ in one byte never share a hash |
| BuildDiff.TextBlockHashes | tools/build_diff.py:146-153 | one hash for each block, the last maybe short |
| BuildDiff.ClusterChanged | tools/build_diff.py:201-209 | the clusters are sorted, maximal and cover exactly the indices given |
| BuildDiff.ClustersAreUnique | tools/build_diff.py:201-209 | the maximal runs of a set are determined by it |
| BuildDiff.BlockMap | tools/build_diff.py:306-313 | the changed list and its clusters for two sections |
| BuildDiff.ChangedBlocksDiffer | tools/build_diff.py:306-312 | a changed block differs; with at most one differing byte a block the changed list is exactly the differing blocks |
| BuildDiff.EveryDifferenceIsReported | tools/build_diff.py:306-330 | then every differing byte's address lies in a reported range |
| BuildDiff.NothingElseIsReported | tools/build_diff.py:306-330 | every reported block holds a place where the texts differ, whatever differs elsewhere and however long they are |
| BuildDiff.JudgeTargets | tools/build_diff.py:244-291 | every target has its verdict, a changed one with its first difference and their number; each count is the number of verdicts of its kind |
| BuildDiff.DifferencesAre | tools/build_diff.py:279-287 | the number of differences is that of the places that differ |
| BuildDiff.Compare | tools/build_diff.py:234-345 | nothing is compared under one identity; else the counts are those of the verdicts and of the changed blocks, and the last line names a changed layout, changed targets, changes outside them or none, exactly as targets and text call for |
| BuildDiff.OutsideIsOutside | tools/build_diff.py:334-345 | targets that lie in the text are as they were exactly when every differing byte lies outside all that are mapped |
| BuildDiff.BlocksChangedIff | tools/build_diff.py:299-313 | for texts that differ in at most one byte a block, no change is found exactly in equal ones |
| ProfileSession.Recorder.Record | tools/cpu_profile.py:166-200 | the commands given and the fault that leaves, for every outcome of every step |
| ProfileSession.SessionIsEndedIff | tools/cpu_profile.py:166-200 | the session is brought to an end, or its end attempted last, exactly when the start callback does not raise |
| ProfileSession.CommandsAreInOrder | tools/cpu_profile.py:166-200 | one start, first; at most one stop and one cancel; nothing after a cancel |
| ProfileSession.CommandFaultsWin | tools/cpu_profile.py:172-193 | a failing start or stop is what the caller sees, over the workload's and an ordinary clean-up's failures |
| ProfileSession.FaultsInTurn | tools/cpu_profile.py:166-200 | the callbacks' and the workload's faults are seen exactly when none before them was raised, an interrupted clean-up whenever it happens |
| ProfileSession.FindGame | tools/cpu_profile.py:270-302 | every handle opened is closed except the one returned, and a process is returned only if every other match had exited |
| ProfileSession.Consider | tools/cpu_profile.py:274-294 | one process of the listing: kept, closed, or refused over a live one |
| FlashResidual.Triangle | tools/flash_patch_residual.py:110-111 | the triangle inequality in three dimensions |
| FlashResidual.ResidualBounds | tools/flash_patch_residual.py:229-240 | the residuals against one eye differ by at most the base distance and add up to at least it |
| FlashResidual.TheThresholdIsTwo | tools/flash_patch_residual.py:270-293 | the small test implies the huge test exactly for a step of zero or of two metres and more, and excludes both being small exactly from two metres on |
| FlashResidual.MatchIsThePreferredPatchClose | tools/flash_patch_residual.py:270-293 | from two metres on an event matches exactly when its preferred patch is close |
| FlashResidual.Event.FindBases | tools/flash_patch_residual.py:197-207 | the held base is that of the first skip in the frame the event began in, the new one that of the first refill after it |
| FlashResidual.OwnBasesIff | tools/flash_patch_residual.py:174-207 | an event is sure to be given the bases of its own run exactly when no call before the run skipped in the frame the run began in |
| FlashResidual.BasesOfAnotherRun | tools/flash_patch_residual.py:197-207 | the input on which it fails: one frame with a skip, a refill and a skip |
| FlashResidual.BasesFromInsideARun | tools/flash_patch_residual.py:197-207 | another: the frame was skipped in the middle of an earlier run |
| FlashResidual.Event.FindPatch | tools/flash_patch_residual.py:208-226 | the eyes of the neighbouring frames and the scene patch, recovered so that the held patch is what an acted event drew |
| FlashResidual.Event.Compute | tools/flash_patch_residual.py:194-256 | of a transition every residual that can be known, the class and the match, nothing judged without a patch; nothing at all of a stretch. The scene is old exactly when there was no reset and the camera alone moved far, new exactly when there was one or both moved far together |
| FlashResidual.ClassIff | tools/flash_patch_residual.py:244-268 | the three classes by the evidence in plain numbers; the first two exclude each other |
| FlashResidual.JudgedByEvidence | tools/flash_patch_residual.py:244-293 | which patch is judged against which eye: the held one against the previous where the camera moved alone, the new one against the next where both moved or it was reset, none otherwise |
| FlashResidual.ComputedMatch | tools/flash_patch_residual.py:194-293 | a fully known event from two metres on matches exactly when the patch its class prefers is close |
| FlashResidual.FindEvents | tools/flash_patch_residual.py:303-324 | one event for each maximal run of un-refilled calls, in order: its frames and treatments, a transition up to three calls and a stretch beyond, computed from the dump |
| RoiMapping.MappedIffCentred | tools/eye_decisions.py:77-88 | an output pixel is mapped exactly when its centre lies in the half-open scaled input region |
| RoiMapping.RefusedIffNoneCentred | tools/eye_decisions.py:86-87 | a region is refused exactly when no pixel's centre lies in it |
| RoiMapping.AdjoiningRegionsPartition | tools/eye_decisions.py:77-88 | adjoining regions map to disjoint pixels that make up their union's |
| FsrLiterals.Escape | tools/gen_fsr_hlsl.py:28-51 | a text is escaped exactly when all its characters can be |
| FsrLiterals.EscapableIff | tools/gen_fsr_hlsl.py:28-51 | which characters can be: printable ASCII, line ends and tabs |
| FsrLiterals.EscapedIsRead | tools/gen_fsr_hlsl.py:28-51 | a compiler reads the literal back as the text without carriage returns |
| FsrLiterals.EscapedIsTame | tools/gen_fsr_hlsl.py:41-44 | escaping at most doubles the text and never writes a trigraph |
| FsrLiterals.ChunksAreRead | tools/gen_fsr_hlsl.py:54-59 | however a text is cut, its literals read back, joined, as the text without carriage returns |
| FsrLiterals.Emit | tools/gen_fsr_hlsl.py:54-59 | the bodies written read back as the text, each under the compiler's cap |
| SettingTypes.Readers | tools/gen_settings_schema.py:171-203 | the settings every read agrees on and the keys whose reads conflict |
| SettingTypes.SettingIs | tools/gen_settings_schema.py:192-202 | a setting is that of the first bounded typed read, else of the first typed one, else of the first: its default, bounds, kind and precision |
| SettingTypes.WalkOrderDoesNotMatter | tools/gen_settings_schema.py:144-203 | for any order of the walk the same keys conflict and the others have the same kind, bounds and precision |
| SettingTypes.DisagreeingFilesDepend | tools/gen_settings_schema.py:196-202 | where only strings are read and the first reads of two files name different ranges another order of the files gives the key other bounds |
| SettingTypes.OrderFreeIff | tools/gen_settings_schema.py:171-203 | a key without a conflict has one type in every order of the files exactly when some read of it is typed or the first reads of its files agree on the range |
| CensusDiff.BySignature | tools/diff_draw_census.py:264-270 | the draws under their signatures and frames, and nothing empty |
| CensusDiff.SignatureSeparates | tools/diff_draw_census.py:249-261 | which differences between draws a signature tells apart, and which it leaves out |
| CensusDiff.Diff | tools/diff_draw_census.py:346-373 | what was added, removed and changed |
| CensusDiff.SwapSwaps | tools/diff_draw_census.py:346-373 | swapping the captures swaps added and removed and keeps changed |
| CensusDiff.SelfDiffIsEmpty | tools/diff_draw_census.py:346-373 | a capture does not differ from itself |
| CensusDiff.MeaningDecides | tools/diff_draw_census.py:238-282 | captures that mean the same differ from any other in the same ways |
| CensusDiff.RenumberingIsInvisible | tools/diff_draw_census.py:238-261 | other ordinals for the same objects mean the same |
| CensusDiff.InliningIsInvisible | tools/diff_draw_census.py:238-246 | spelling objects out in place means the same |

## Left out

- Rounding: IEEE-754 single and double arithmetic is modelled over the reals (LOD terms, centroids, luminance, distances, ROI edges); NaN and infinities do not occur in the model.
- Files, processes, GPU, network and clocks: inputs are byte sequences, parsed records or oracles; image files, captures and logs start after the parsing of their text.
- Parsing of log lines, C++ source and command output by regular expressions, argument parsing and report formatting.
- Numeric fits and image numerics: camera recovery, footprint projection, FFT and profile correlation (`best_shift` and the brightness route of `registration`), and the choice of eye targets.
- The weak memory model: the budget's shared accesses are interleaved steps of one sequentially consistent memory, which the acquire/release lock justifies for the guarded fields.
- GateCodec.WriteGate: a value too wide for its field, which `struct.pack` refuses with an exception, is excluded.
- Gate records are modelled with their 32-bit floats as raw words; the decoding of views and tables into floats is not part of the codec.
- LodBiasTruth.Estimate: a part that no row tested in an eye is taken not to be drawn there, as the tool does; how the terms of a row are computed from its view and sphere is not part of the model, only that the distance and the size test are theirs.
- The report of the cull probe around its verdicts (camera naming, occluders, table reproduction) and `tally`, the per-record form of the part tally.
- `draw_payload` is modelled with the binding `extract` passes it; the manifest's hashes and provenance lists are not modelled, its counts are.
- Encode: which of several broken bounds is reported first is stated for the count and total-size checks only.
- BuildDiff.BlockMap: sections are whole; a section table that runs past the end of the file is not modelled.
- BuildDiff.Compare: the text of the printed lines.
- BuildDiff.JudgeTargets: bodies of one target have one size in both builds, as the mapping check guarantees.
- Kernel answers are arbitrary at every query; waiting loops (`wait_for_game`, `wait_for_exit`), the status sampler and the installed-file checks are left out as easier members.
- The capture-side checks of the panel snapshot other than geometry (`verify_blob`, `Reader`, descriptors) and the other capture readers: the same parser pattern as the gate file.
- The distance of two points is a function that measures: its square is the sum of squares; the square root itself is not modelled.
- CensusDiff.Diff: the least and greatest of per-frame totals are compared pair by pair; the ordering and truncation of the printed lists are not modelled.
- Setting annotations, the ini state machine and the C++ argument splitter.
