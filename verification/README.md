# Verified models of the badge firmware's hard parts

Dafny models of seven programs of the v2 badge, with proofs of what each is there for. Every
main result is a statement about all inputs or all runs; code that works in place is modelled
as classes and loops over arrays, each tied to a specification whose properties are proved.

- **H.264 generator of coda-cube** (`Wrappers`, `Bits`, `ExpGolomb`, `BitWriter`, `Nal`, `MotionVectors`,
  `Macroblocks`, `SliceSyntax`, `Partitions`, `SliceDecoder`, `SliceRoundTrip`, `SliceEncoder`, `BPicture`). The bit writer, the
  emulation prevention with its 8-byte test, and the macroblock loop with its neighbour state.
  `SliceDecoder` is written from sections 7.3.4, 7.3.5, 8.4.1 and 9.1 of ITU-T H.264 and imports nothing of
  the encoder; `SliceEncoder.EncodePicture` puts all of it together, from decisions to a NAL unit and
  back. What the renderer decides for each macroblock is an arbitrary input.
- **Motion compensation of coda-cube** (`Interpolation`, `Neon`). The block routine and the NEON
  4x4 routine, lanes with their wrap-around and saturation, against the sample-at-a-time definition.
- **Frame ownership in coda-cube** (`ZeroCopy`, `ShownPictures`, `FrameQueues`). Decoder, main thread,
  worker and compositor as interleaved steps, which picture is shown, and the queues and the buffer table
  in place.
- **Page flips of soph_drm** (`PageFlip`, `FlipEvents`, `FlipRuns`, `FlipPacing`, `SophDrm`). Shadow and working
  register banks, a nondeterministic frame start between any two register windows of commits and
  modesets, the polling timer as one atomic step, the remembered layer.
- **The ION shim** (`IonShim`, `IonDevice`, `CachedMap`, `CachedReads`). Allocation lifetimes and the budget in
  every interleaving of threads; cached maps of a non-coherent device with a cache that fills and
  drops lines at will.
- **The feeder of badge_landscape_vo** (`Pacer`, `ReadWindow`). The self-trimming deadline over any
  run, and the read window against re-reading.
- **Two codecs and a simulation** (`DeltaStream`; `BoardRecord`, `BoardCodec`, `BoardNumbers`, `BoardPath`; `Fire`).

Where the code does less than its comments say, the model follows the code, with the input that
shows it and the condition under which the promise holds:

- soph_drm promises a flip event only after the latch; its no-frame-start fallback gives that up. It
  can fire with the timing generator stopped (`FlipRuns.FallbackGivesUp`) and also on a working display,
  by flips that ask for no event (`FlipRuns.EventlessFlipsStarve`); where every flip asks for one it
  stays away exactly while at most four ticks pass between frame starts
  (`FlipPacing.FallbackStaysAwayIff`).
- soph_drm lets format, pitches and addresses of a flip reach the panel at one frame start. Its modesets
  do not: the park and `sclr_disp_set_cfg()` take several register windows, and a frame start between
  them can make the display scan a layer nobody asked for (`FlipRuns.ParkCanMix`, behind the window
  background; `FlipRuns.EnableCanMix`, in view), exactly under `PageFlip.FrameStartMixesIff`. Commits never do (`PageFlip.NoMixedLayer`).
- The ION budget is checked and taken in two critical sections. Two allocations at once can exceed
  it, and the reported free bytes then wrap (`IonShim.OverrunIsReached`, `IonShim.ReportExactIff`).
- The feeder says it never makes up lost time, but re-bases only past two frames. A deadline that has
  slipped by no more is made up (`Pacer.UnpacedIff`); at most four access units go out at one instant
  (`Pacer.AtMostFourAtOnce`), and four can (`Pacer.BurstOfFour`).
- The feeder's trim is said to take thousands of frames to cross its range; it takes at most 41
  (`Pacer.RangeInFortyOne`).
- The read window can miss an end marker past half a buffer (`ReadWindow.LateEndIsMissed`); it yields
  what re-reading does exactly under `ReadWindow.SameUnitsIff`. The scan can name up to seven bytes more
  than were read (`ReadWindow.OverrunIff`, `ReadWindow.ShortFileOverruns`).
- A board name with a NUL does not survive its record (`BoardRecord.DecodeEncode`), and a store path is
  rebuilt only if it is canonical and no part is zero or empty (`BoardPath.StorePathRoundTrip`): version
  2.10 comes back as 3.0 (`BoardPath.TwoDigitMinorIsLost`).

Assumptions about the surroundings, each in the `Enabled` predicate or the `requires` it belongs
to: the decoder delivers only frames it has been given back and the compositor releases only what
it holds; a hardware frame start copies the whole shadow bank; `sclr_disp_set_layer()` and
`soph_gop_set` are one register window each, `sclr_disp_set_mem()` two (geometry and pitches, then
addresses), `sclr_disp_set_cfg()` those two and one for format and input CSC; a forced update acts at
once; flip_lock keeps the poller out of a commit's register writes, and it is off during a modeset;
the DMA allocator hands out memory that does not overlap what is in use, and only a listed allocation
is freed; the clock is monotone and a sleep ends no
earlier than its deadline; the seeds of the fire, the DMA allocator's answers, the device's writes
and all times are parameters.

`dafny verify dfyconfig.toml` checks everything.

## Model

| member | source | states |
|---|---|---|
| `BitWriter.ShiftInExact` | pkgs/v2/by-name/coda-cube/coda-cube.c:168-170 | `bw_u`'s shift, mask and OR in a 64-bit word append exactly the field's bits to the pending ones and lose none |
| `BitWriter.BW.PutBits` | pkgs/v2/by-name/coda-cube/coda-cube.c:168-173 | from any bit phase the buffer plus the pending bits grow by exactly the field; afterwards fewer than 8 bits are pending and the accumulator holds no others |
| `BitWriter.UeParts` | pkgs/v2/by-name/coda-cube/coda-cube.c:174-178 | written in one field or split in two, a ue(v) code word has the same bits, in fields of at most 32 |
| `BitWriter.BW.PutUe` | pkgs/v2/by-name/coda-cube/coda-cube.c:174-178 | appends the ue(v) code word of every value `bw_ue` can take, also one longer than 32 bits |
| `BitWriter.BW.PutSe` | pkgs/v2/by-name/coda-cube/coda-cube.c:179 | appends the se(v) code word |
| `BitWriter.BW.PutTe` | pkgs/v2/by-name/coda-cube/coda-cube.c:1167 | appends the te(v) code word: nothing, one inverted bit or ue(v), by the number of references |
| `BitWriter.BW.PutTrailing` | pkgs/v2/by-name/coda-cube/coda-cube.c:180 | appends the stop bit and zeros to the next byte boundary, after which nothing is pending |
| `BitWriter.BW.PutBytes` | pkgs/v2/by-name/coda-cube/coda-cube.c:1240-1241 | at a byte boundary, copying bytes into the buffer appends exactly their bits |
| `BitWriter.WriteAll` | pkgs/v2/by-name/coda-cube/coda-cube.c:168-180 | any sequence of fixed-width, ue, se and te writes from any bit phase leaves the exact concatenation, and a reader of the same kinds gets every value back |
| `BitWriter.WrittenIsRead` | pkgs/v2/by-name/coda-cube/coda-cube.c:168-180 | the same as a law on bit strings: whatever stood before, the reader recovers all elements and ends where they end |
| `ExpGolomb.ReadUeAt` | pkgs/v2/by-name/coda-cube/coda-cube.c:174-178 | a ue(v) parser (section 9.1 of ITU-T H.264) standing at a code word returns its value and its end, for every value and whatever follows |
| `ExpGolomb.ReadSeAt` | pkgs/v2/by-name/coda-cube/coda-cube.c:179 | the same for se(v), for every integer |
| `ExpGolomb.ReadTeAt` | pkgs/v2/by-name/coda-cube/coda-cube.c:1167 | the same for te(v), for every reference index below the number of references |
| `ExpGolomb.ReadAllAt` | pkgs/v2/by-name/coda-cube/coda-cube.c:168-180 | the same for every sequence of elements |
| `ExpGolomb.CodeWords` | pkgs/v2/by-name/coda-cube/coda-cube.c:174-179 | the first code words bit by bit, and se(v) in the order 0, 1, -1, 2, -2 |
| `Nal.NoSmallByteWord` | pkgs/v2/by-name/coda-cube/coda-cube.c:190 | the 8-byte subtract-and-mask test holds exactly when every byte is at least 4 |
| `Nal.EscapeLarge` | pkgs/v2/by-name/coda-cube/coda-cube.c:186-194 | bytes of 4 and above pass the byte-at-a-time escape unchanged and end any run of zeros |
| `Nal.NalWrap` | pkgs/v2/by-name/coda-cube/coda-cube.c:181-200 | with its 8-byte fast path the output is the start code, the header byte and the byte-at-a-time escape of the payload |
| `Nal.UnescapeEscape` | pkgs/v2/by-name/coda-cube/coda-cube.c:196-197 | removing the escapes gives back every byte string, whatever zeros were pending |
| `Nal.EscapeHidesStartCodes` | pkgs/v2/by-name/coda-cube/coda-cube.c:196-197 | an escaped payload never holds 00 00 followed by 00, 01 or 02 (section 7.4.1 of ITU-T H.264) |
| `Nal.NalRoundTrip` | pkgs/v2/by-name/coda-cube/coda-cube.c:181-200 | from a wrapped NAL unit the receiver gets back the payload, and finds no start code inside it |
| `MotionVectors.MedIsMedian` | pkgs/v2/by-name/coda-cube/coda-cube.c:316 | the exchanging `med` is the median |
| `MotionVectors.NeighbourIsWritten` | pkgs/v2/by-name/coda-cube/coda-cube.c:312-315 | a neighbour has the reference and vector last written over it; outside the block written nothing changes, and on an empty grid it is unavailable, reference -1, vector zero |
| `MotionVectors.SameVectorIsPredicted` | pkgs/v2/by-name/coda-cube/coda-cube.c:317-328 | two macroblocks side by side with one vector: the second is predicted exactly, component by component |
| `MotionVectors.MvpIsStandard` | pkgs/v2/by-name/coda-cube/coda-cube.c:317-328 | `mvp` is the median prediction of section 8.4.1.3 of ITU-T H.264, stated on the cells of the grid themselves: the list of neighbours and the ones with the wanted reference |
| `MotionVectors.PskipIsStandard` | pkgs/v2/by-name/coda-cube/coda-cube.c:329-334 | `pskip_mv` is the P_Skip vector of section 8.4.1.1 |
| `SliceEncoder.MvState.Lookup` | pkgs/v2/by-name/coda-cube/coda-cube.c:312-315 | the flat arrays at `y * W4 + x`, with their bounds and `sdone` test, give the reference and vector of the abstract grid's cell, or -1 and zero where there is none |
| `SliceEncoder.MvState.Predict` | pkgs/v2/by-name/coda-cube/coda-cube.c:317-328 | computes the predicted vector of the abstract grid |
| `SliceEncoder.MvState.PredictSkip` | pkgs/v2/by-name/coda-cube/coda-cube.c:329-334 | computes the P_Skip vector of the abstract grid |
| `SliceEncoder.MvState.Set` | pkgs/v2/by-name/coda-cube/coda-cube.c:335-348 | writes one reference and vector into exactly the cells of the block, with the narrowing to 8 and 16 bits losing nothing; a lookup inside then returns them, one outside what it did before |
| `SliceEncoder.MvState.PutMv` | pkgs/v2/by-name/coda-cube/coda-cube.c:1264-1265 | writes the difference to the predicted vector and records the vector |
| `SliceEncoder.PutMb` | pkgs/v2/by-name/coda-cube/coda-cube.c:1236-1310 | one macroblock of any kind: appends its syntax, records its partitions and leaves the neighbour state of the specification |
| `SliceEncoder.EncodeMb` | pkgs/v2/by-name/coda-cube/coda-cube.c:1231-1259 | a background macroblock whose P_Skip vector is zero extends the skip run, any other writes the run and itself; what is written plus what remains is always the whole slice |
| `SliceEncoder.EncodeSlice` | pkgs/v2/by-name/coda-cube/coda-cube.c:1228-1314 | the macroblock loop appends the specified slice data and trailing bits to any header, returns every partition in order and keeps the I_PCM samples by macroblock |
| `SliceEncoder.EncodePicture` | pkgs/v2/by-name/coda-cube/coda-cube.c:1171-1315 | header, slice and NAL wrapping together, after the start code 00 00 00 01 and the header byte: a receiver that drops the escapes reads every header element back and recovers exactly the recorded partitions and I_PCM samples |
| `SliceRoundTrip.MbRoundTrip` | pkgs/v2/by-name/coda-cube/coda-cube.c:1236-1310 | a parser with the same neighbour state recovers one macroblock's partitions and samples, its end, and the next neighbour state |
| `SliceRoundTrip.SkipOneMore` | pkgs/v2/by-name/coda-cube/coda-cube.c:1249-1250 | a macroblock the encoder skips decodes to reference 0 and the zero vector |
| `SliceRoundTrip.SliceRoundTripFrom` | pkgs/v2/by-name/coda-cube/coda-cube.c:1231-1312 | from any macroblock on, with any skip run pending, the decoder recovers the records of all that follow |
| `SliceRoundTrip.SliceDecodes` | pkgs/v2/by-name/coda-cube/coda-cube.c:1228-1315 | for every header, picture width, number of references and list of decisions the decoder recovers exactly the recorded partitions and PCM bytes |
| `Macroblocks.ScanOrder` | pkgs/v2/by-name/coda-cube/coda-cube.c:1228-1310 | quarters, blocks and macroblocks lie in the order of section 6.4 of ITU-T H.264, in numbers |
| `Partitions.RecordTiles` | pkgs/v2/by-name/coda-cube/coda-cube.c:1240-1310 | over each of a macroblock's sixteen 4x4 blocks lies exactly one recorded partition, with the reference and vector decided for that block |
| `Partitions.NeighboursSeeDecided` | pkgs/v2/by-name/coda-cube/coda-cube.c:335-348 | and the neighbour state holds the same there |
| `Partitions.BackgroundIsOneRun` | pkgs/v2/by-name/coda-cube/coda-cube.c:1248-1250 | a picture of nothing but background is a single skip run |
| `BPicture.BSliceDecodes` | pkgs/v2/by-name/coda-cube/coda-cube.c:1324-1363 | for every edge map and pair of vectors the decoder of the two-list B slice recovers both lists' vectors of every macroblock |
| `BPicture.BRecordsAre` | pkgs/v2/by-name/coda-cube/coda-cube.c:1342-1359 | edge macroblocks are predicted from both lists with the two given vectors, the others from list 0 with a zero vector |
| `BPicture.PutBMb` | pkgs/v2/by-name/coda-cube/coda-cube.c:1342-1359 | one macroblock of the B picture: its bits and both lists' neighbour states |
| `BPicture.EncodeBSlice` | pkgs/v2/by-name/coda-cube/coda-cube.c:1339-1363 | the loop over the B picture writes exactly the specified slice after any header |
| `BPicture.EncodeBPicture` | pkgs/v2/by-name/coda-cube/coda-cube.c:1324-1363 | header, B slice and NAL wrapping together, after the start code and the header byte: a receiver that drops the escapes reads every header element back and recovers both lists' vectors of every macroblock |
| `Interpolation.BordersRepeat` | pkgs/v2/by-name/coda-cube/coda-cube.c:526-531 | past a border a plane has the sample at that border, in each direction, for every plane and position |
| `Interpolation.QpelIsStandard` | pkgs/v2/by-name/coda-cube/coda-cube.c:541-563 | at all sixteen quarter positions `luma_qpel` is the sample of section 8.4.2.2.1 of ITU-T H.264, stated as weighted sums, one rounding and the two samples each position averages |
| `Interpolation.Fetch` | pkgs/v2/by-name/coda-cube/coda-cube.c:590-598 | the window holds the picture's samples with the borders repeated, whether it is copied or clamped sample by sample |
| `Interpolation.SumRows` | pkgs/v2/by-name/coda-cube/coda-cube.c:618-622 | the first pass holds the horizontal six-tap sums of every row of the window |
| `Interpolation.SampleIs` | pkgs/v2/by-name/coda-cube/coda-cube.c:600-643 | at the positions with one pass or the diagonal average, the window expression is the sample of `luma_qpel` |
| `Interpolation.CentreIs` | pkgs/v2/by-name/coda-cube/coda-cube.c:617-633 | at the positions through the centre half sample, the expression over the stored row sums is the sample of `luma_qpel`, which recomputes them |
| `Interpolation.Sample` | pkgs/v2/by-name/coda-cube/coda-cube.c:600-643 | one sample of the block, in either form, is that of `luma_qpel` |
| `Interpolation.McLumaBlock` | pkgs/v2/by-name/coda-cube/coda-cube.c:586-645 | for every plane, position past the borders included, size up to 16 and vector, each sample of the block is the one `luma_qpel` gives, at all sixteen quarter positions |
| `Interpolation.FilledAt` | pkgs/v2/by-name/coda-cube/coda-cube.c:541-563 | a filled block read at row j, column i is `luma_qpel` at that sample |
| `Neon.TapLane16` | pkgs/v2/by-name/coda-cube/coda-cube.c:822-837 | no 16-bit lane of a six-tap sum over samples wraps: it lies in -2550..10710 |
| `Neon.TapLane32` | pkgs/v2/by-name/coda-cube/coda-cube.c:839-907 | no 32-bit lane of the second six-tap pass wraps |
| `Neon.NarrowIsClip` | pkgs/v2/by-name/coda-cube/coda-cube.c:839-907 | the rounding, saturating narrowings are `clip1` of the rounded sum, for both shifts |
| `Neon.NeonRowIs` | pkgs/v2/by-name/coda-cube/coda-cube.c:822-907 | each kept lane of a row is the sample of `luma_qpel`, at all sixteen positions |
| `Neon.McLuma4Neon` | pkgs/v2/by-name/coda-cube/coda-cube.c:839-907 | for every plane, position and vector the NEON 4x4 path returns the samples of `mc_luma_block`, through its own arithmetic inside and the C routine at the borders |
| `ZeroCopy.StepInv` | pkgs/v2/by-name/coda-cube/coda-cube.c:2245-2371 | every action of the main thread, the worker and the compositor keeps every frame with exactly one owner, the marks in agreement with the compositor, and nothing faulty |
| `ZeroCopy.QueueRoom` | pkgs/v2/by-name/coda-cube/coda-cube.c:2286-2298 | queued and marked frames together never exceed the 32 entries, so `rel_push` always has room, whatever the size of the decoder's pool |
| `ZeroCopy.FramesHaveOneOwner` | pkgs/v2/by-name/coda-cube/coda-cube.c:3290-3506 | in every run, pipelined or not, zero-copy or not: no frame is given back twice or while the compositor holds it, the release queue never overflows, every frame has one owner, and on every exit path all frames are with the decoder or the compositor |
| `ZeroCopy.NothingLeaks` | pkgs/v2/by-name/coda-cube/coda-cube.c:3497-3506 | once the program has left the loop, the decoder's frames and the compositor's are the whole pool |
| `ShownPictures.NewestIsKept` | pkgs/v2/by-name/coda-cube/coda-cube.c:2257-2281 | whenever a decode returns, in any run, it holds the last picture the decoder gave it, read off the actions, and the decoder has every earlier one back |
| `ShownPictures.NewestIsShown` | pkgs/v2/by-name/coda-cube/coda-cube.c:3290-3496 | and that picture is the one accepted, and with zero-copy the one whose buffer the compositor is given |
| `ShownPictures.SecondPictureWins` | pkgs/v2/by-name/coda-cube/coda-cube.c:2269-2273 | two pictures in one decode: the second is kept and the first given back |
| `FrameQueues.ReleaseIsQueued` | pkgs/v2/by-name/coda-cube/coda-cube.c:2525-2537 | in every run a release the compositor sent unmarks its frame and queues it last for the thread that decodes, and does nothing else |
| `FrameQueues.QueuedComesBack` | pkgs/v2/by-name/coda-cube/coda-cube.c:2286-2363 | every queued frame is the decoder's before the next picture is asked for, through the worker or in the loop |
| `FrameQueues.Queues.Push` | pkgs/v2/by-name/coda-cube/coda-cube.c:2291-2298 | the array and its count take the frame, or report a full queue, as the protocol's step |
| `FrameQueues.Queues.Flush` | pkgs/v2/by-name/coda-cube/coda-cube.c:2301-2306 | every queued frame is released once, in order, and the queue is empty |
| `FrameQueues.FlushAllRuns` | pkgs/v2/by-name/coda-cube/coda-cube.c:2301-2306 | flushing the queue is a run of the protocol, so all that holds of runs holds of it |
| `FrameQueues.Queues.Submit` | pkgs/v2/by-name/coda-cube/coda-cube.c:2348-2363 | the queue moves to the worker unchanged and the main thread's is empty |
| `FrameQueues.Queues.WorkerReleases` | pkgs/v2/by-name/coda-cube/coda-cube.c:2331-2333 | the worker releases every frame handed to it once |
| `FrameQueues.WorkerFlushAllRuns` | pkgs/v2/by-name/coda-cube/coda-cube.c:2331-2333 | the worker's releases are a run of the protocol |
| `FrameQueues.Queues.Released` | pkgs/v2/by-name/coda-cube/coda-cube.c:2525-2537 | a release of a marked buffer unmarks it and queues its frame; one of an unmarked buffer is reported |
| `FrameQueues.Queues.Get` | pkgs/v2/by-name/coda-cube/coda-cube.c:2561-2603 | a buffer is returned exactly when it is unmarked and either known with the same layout, or new with room in the table, exported and presentable; the table grows by just that frame |
| `PageFlip.FlipsCompleteAfterLatch` | pkgs/v2/by-name/soph-display/sophdrm/sophdrm.c:343-370 | in every interleaving of commits, timer ticks, frame starts and modesets, for any `vbl_div`: an event sent at a frame start the poller saw goes out only after a frame start has copied that flip's layer into the working bank; with one flip at a time the working bank then shows exactly that flip |
| `FlipEvents.SeenTickSends` | pkgs/v2/by-name/soph-display/sophdrm/sophdrm.c:436-449 | a tick that sees a frame start with the gate full sends exactly the armed events, in order, as seen at a frame start |
| `FlipEvents.EarlyTickWaits` | pkgs/v2/by-name/soph-display/sophdrm/sophdrm.c:436-449 | with the gate not full it sends none and fills the gate by one |
| `FlipEvents.AskedIsArmed` | pkgs/v2/by-name/soph-display/sophdrm/sophdrm.c:1060-1080 | an event asked for is armed, or sent at once with vblanks off |
| `FlipEvents.EventIsKept` | pkgs/v2/by-name/soph-display/sophdrm/sophdrm.c:414-455 | in every run an armed event stays armed until it is sent |
| `FlipEvents.SentWithinDivision` | pkgs/v2/by-name/soph-display/sophdrm/sophdrm.c:414-455 | in every run an armed event is sent by the time the poller has seen max(`vbl_div`, 1) frame starts |
| `FlipEvents.NoneBeforeDivision` | pkgs/v2/by-name/soph-display/sophdrm/sophdrm.c:414-455 | between two completions there are at least max(`vbl_div`, 1) frame starts seen or fallbacks: with fewer, nothing goes out but what is sent with vblanks off |
| `PageFlip.StepInv` | pkgs/v2/by-name/soph-display/sophdrm/sophdrm.c:414-455 | every commit step, tick, frame start and register write of a modeset keeps: outside a modeset's windows each bank shows its last request whole and the remembered layer agrees or is unknown; inside them a bank is exactly what is written so far; a frame start the poller can see came after everything written |
| `PageFlip.NoMixedLayer` | pkgs/v2/by-name/soph-display/sophdrm/sophdrm.c:694-744 | after any history the working bank shows one request whole, unless a frame start fell between two register windows of the modeset going on; then it is exactly what was written at that moment over the last request, and no longer than that modeset lasts; outside modesets the remembered layer agrees with the shadow bank or is unknown |
| `PageFlip.FrameStartMixesIff` | pkgs/v2/by-name/soph-display/patches/scaler-disp-set-layer.patch:25-28 | a frame start takes a layer that is neither the one before a modeset nor the one it writes exactly when it falls between the windows and the two layers differ both in what is written and in what is not; at any other moment it takes the last request whole |
| `FlipRuns.ParkCanMix` | pkgs/v2/by-name/soph-display/sophdrm/sophdrm.c:728-744 | a disable can make the display scan a layer nobody asked for: the park buffer's geometry with the old buffer's addresses |
| `FlipRuns.EnableCanMix` | pkgs/v2/by-name/soph-display/sophdrm/sophdrm.c:816-821 | so can an enable, with the window background already off: the new layer's geometry over whatever the registers held |
| `FlipRuns.EnableRuns` | pkgs/v2/by-name/soph-display/sophdrm/sophdrm.c:781-873 | an uninterrupted enable of the video layer is a run of the protocol's steps and leaves the layer live |
| `FlipRuns.EnableOverlayRuns` | pkgs/v2/by-name/soph-display/sophdrm/sophdrm.c:824-873 | so is one of the overlay |
| `FlipRuns.DisableRuns` | pkgs/v2/by-name/soph-display/sophdrm/sophdrm.c:876-896 | so is a disable |
| `PageFlip.StagedWhole` | pkgs/v2/by-name/soph-display/sophdrm/sophdrm.c:705-716 | after a stage in any history the shadow bank holds the whole requested layer, whichever write was taken |
| `FlipPacing.WorkingDisplayAlwaysLatches` | pkgs/v2/by-name/soph-display/sophdrm/sophdrm.c:414-455 | from probe, or in any history once the poller has seen a frame start with nothing pending, until the display is disabled: if every flip asks for its event and at most four ticks pass between frame starts, no event is sent by the fallback, and every one sent while vblanks run has exactly its flip in the working bank |
| `FlipPacing.FiveTicksAreTooMany` | pkgs/v2/by-name/soph-display/sophdrm/sophdrm.c:407-435 | with five or more ticks between frame starts, a flip just after an unseen one is completed by the fallback before its latch |
| `FlipPacing.FallbackStaysAwayIff` | pkgs/v2/by-name/soph-display/sophdrm/sophdrm.c:407-435 | the fallback stays away from all such runs if and only if at most four ticks pass between frame starts |
| `FlipRuns.FallbackGivesUp` | pkgs/v2/by-name/soph-display/sophdrm/sophdrm.c:432-435 | the guarantee ends at the no-frame-start fallback: with the timing generator stopped, nine ticks complete a flip nothing has latched |
| `FlipRuns.EventlessFlipsStarve` | pkgs/v2/by-name/soph-display/sophdrm/sophdrm.c:1047-1069 | flips without events are enough: eight of them, each just after a frame start, hide those from the poller, and the fallback completes the next flip before its latch |
| `PageFlip.AcceptedIsExact` | pkgs/v2/by-name/soph-display/sophdrm/sophdrm.c:1118-1156 | a framebuffer accepted in the native mode is scanned at its own size, from its own addresses, in its own format and with untruncated, 32-byte aligned pitches |
| `PageFlip.AcceptedIff` | pkgs/v2/by-name/soph-display/sophdrm/sophdrm.c:1118-1156 | accepted are exactly the RGB888 and NV12 framebuffers of the panel's size with pitches, and for NV12 addresses, that are multiples of 32, and pitches below 65536 |
| `PageFlip.ConversionIsTheBuffers` | pkgs/v2/by-name/soph-display/sophdrm/sophdrm.c:231-256 | an NV12 layer is converted with its own encoding and range, unless a parameter overrides them, though the vendor's matrices name their ranges the wrong way round |
| `SophDrm.Driver.VblFn` | pkgs/v2/by-name/soph-display/sophdrm/sophdrm.c:414-455 | the timer callback is the protocol's tick: miss count, fallback, gate and completion |
| `SophDrm.Driver.VideoLoad` | pkgs/v2/by-name/soph-display/sophdrm/sophdrm.c:670-692 | the full write loads the whole layer and remembers it |
| `SophDrm.Driver.VideoStage` | pkgs/v2/by-name/soph-display/sophdrm/sophdrm.c:705-716 | whichever write is taken, the shadow bank ends with the whole layer and the memory agrees with it |
| `SophDrm.Driver.SetCfg` | pkgs/v2/by-name/soph-display/patches/scaler-disp-set-layer.patch:8-11 | the memory's two windows and the colours' one leave the whole layer in the shadow bank |
| `SophDrm.Driver.VideoPark` | pkgs/v2/by-name/soph-display/sophdrm/sophdrm.c:728-744 | in two windows, parks the layer on the driver's buffer, and forgets what was programmed |
| `SophDrm.CommitRuns` | pkgs/v2/by-name/soph-display/sophdrm/sophdrm.c:1028-1080 | an uninterrupted commit is a run of the protocol's steps |
| `SophDrm.Driver.PipeUpdate` | pkgs/v2/by-name/soph-display/sophdrm/sophdrm.c:1047-1080 | a commit stages the whole layer, forgets earlier frame starts, arms or sends its event, and keeps the invariant |
| `SophDrm.Driver.PipeEnable` | pkgs/v2/by-name/soph-display/sophdrm/sophdrm.c:781-873 | enabling the native mode, `sclr_disp_set_cfg()` included, leaves the layer whole and live before vblanks run; uninterrupted it is a run of the protocol's enable |
| `SophDrm.Driver.PipeEnableOverlay` | pkgs/v2/by-name/soph-display/sophdrm/sophdrm.c:824-873 | enabling the half-size mode parks the hidden video layer, points the overlay at its buffer and makes both live; uninterrupted it is a run of the protocol's enable |
| `SophDrm.Driver.PipeUpdateOverlay` | pkgs/v2/by-name/soph-display/sophdrm/sophdrm.c:1047-1080 | a commit on the overlay changes only its address, forgets earlier frame starts, arms or sends its event, and keeps the invariant |
| `SophDrm.Driver.PipeDisable` | pkgs/v2/by-name/soph-display/sophdrm/sophdrm.c:876-896 | disabling sends what is armed, parks the layer and makes that live; uninterrupted it is a run of the protocol's disable |
| `IonShim.StepInv` | pkgs/v2/by-name/soph-display/compat/soph_ion_compat.c:120-194 | every step of every thread keeps: references are the owner's, the exports' and the dma-bufs'; listed means live; memory handed out does not overlap; `ion_in_use` is the 64-bit sum of what is counted |
| `IonShim.PageAlignIs` | pkgs/v2/by-name/soph-display/compat/soph_ion_compat.c:132 | a length is rounded up to whole pages of 4096 bytes by less than one; the last 4095 lengths of the 64-bit range wrap to nothing |
| `IonShim.ReturnedExactlyOnce` | pkgs/v2/by-name/soph-display/compat/soph_ion_compat.c:167-194 | in every interleaving memory is returned at most once, never while the owner, an export or a dma-buf has it, and is on its way back as soon as none has |
| `IonShim.DeadStaysDead` | pkgs/v2/by-name/soph-display/compat/soph_ion_compat.c:167-178 | after the last reference no run gives the allocation another one or returns its memory again |
| `IonShim.LookupIsAlive` | pkgs/v2/by-name/soph-display/compat/soph_ion_compat.c:371-385 | a lookup takes its reference on a live allocation, the only one whose memory holds the address, and fails only if none on the list does |
| `IonShim.InUseIsExact` | pkgs/v2/by-name/soph-display/compat/soph_ion_compat.c:156-176 | `ion_in_use` is the memory handed out less what is not yet counted plus what is returned but still counted; at quiescent points just the memory handed out |
| `IonShim.BudgetOverrunBound` | pkgs/v2/by-name/soph-display/compat/soph_ion_compat.c:132-159 | with at most k allocations between check and count, of at most L bytes each, `ion_in_use` never exceeds the budget plus (k - 1) * L |
| `IonShim.SingleAllocatorKeepsBudget` | pkgs/v2/by-name/soph-display/compat/soph_ion_compat.c:217-225 | one allocation at a time keeps the budget, and the reported free bytes are exact |
| `IonShim.ReportExactIff` | pkgs/v2/by-name/soph-display/compat/soph_ion_compat.c:217-225 | the reported free bytes are exact if and only if the budget is kept; past it they wrap to more than the budget |
| `IonShim.OverrunIsReached` | pkgs/v2/by-name/soph-display/compat/soph_ion_compat.c:132-159 | the bound is tight: for every k and every size of whole pages within the budget there is a run that reaches it |
| `IonDevice.AllocRuns` | pkgs/v2/by-name/soph-display/compat/soph_ion_compat.c:120-163 | an uninterrupted allocation, with each of its failures, is a run of the shim's steps and keeps the invariant |
| `IonDevice.Shim.AllocNofd` | pkgs/v2/by-name/soph-display/compat/soph_ion_compat.c:120-163 | succeeds exactly if the length passes the check and memory is found; then lists, counts and references an allocation of whole pages that holds the length asked for; a failure leaves list and count alone |
| `IonDevice.Shim.FirstContaining` | pkgs/v2/by-name/soph-display/compat/soph_ion_compat.c:376-382 | the walk over the list finds the first listed allocation that contains the address |
| `IonDevice.Shim.BufGet` | pkgs/v2/by-name/soph-display/compat/soph_ion_compat.c:371-385 | takes one reference on that allocation and changes nothing else |
| `IonDevice.Shim.KrefPut` | pkgs/v2/by-name/soph-display/compat/soph_ion_compat.c:167-178 | one reference less on that allocation and nothing else touched, unless it was the last: then the memory is returned once more and `ion_in_use` falls by its size |
| `IonDevice.Shim.FreeNofd` | pkgs/v2/by-name/soph-display/compat/soph_ion_compat.c:180-194 | the allocation leaves the list at once; its memory returns now exactly if no export or dma-buf holds it |
| `IonDevice.Shim.Export` | pkgs/v2/by-name/soph-display/compat/soph_ion_compat.c:387-433 | succeeds exactly if the address is found and no step fails, with offset and size of the allocation and one more open dma-buf; every failure path leaves the state as it was |
| `IonDevice.Shim.DmabufRelease` | pkgs/v2/by-name/soph-display/compat/soph_ion_compat.c:354-359 | closing a dma-buf returns the memory exactly if nobody else refers to it |
| `CachedMap.ReadersSeeSinceStart` | pkgs/v2/by-name/soph-display/compat/soph_ion_compat.c:291-352 | in any run of device writes, speculative fills, maps, splits, unmaps, STARTs and `cached_mmap` changes, a read through a cached map sees something memory held at or after its reader's latest START, or its mmap |
| `CachedMap.CachedMapsCounts` | pkgs/v2/by-name/soph-display/compat/soph_ion_compat.c:272-284 | `cached_maps` is always the number of live cached VMAs |
| `CachedMap.QuietReadIsExact` | pkgs/v2/by-name/soph-display/compat/soph_ion_compat.c:326-352 | if nothing wrote the line since the latest START, the read returns the memory's value |
| `CachedMap.UnbracketedReadIsStale` | pkgs/v2/by-name/soph-display/compat/soph_ion_compat.c:326-352 | without a START after a device write a reader can see the old value |
| `CachedReads.ReadSeesAMoment` | pkgs/v2/by-name/soph-display/compat/soph_ion_compat.c:291-352 | the same said of the actions alone: what a read returns is what the writes had made of memory after some number of the actions before it, no fewer than when the reader's latest START, or its mmap, returned |
| `CachedReads.QuietReadIsLatest` | pkgs/v2/by-name/soph-display/compat/soph_ion_compat.c:326-352 | a read of a line that nothing wrote since the reader's latest START returns the last value written to it |
| `CachedReads.OffMapsNothing` | pkgs/v2/by-name/soph-display/compat/soph_ion_compat.c:76-85 | with `cached_mmap` off and not turned on, no run makes a cached map or reads through one |
| `CachedMap.Buffer.Mmap` | pkgs/v2/by-name/soph-display/compat/soph_ion_compat.c:291-319 | a read-only map while `cached_mmap` is on is cached, counted and starts without stale lines; any other, or a failed remap, changes nothing |
| `CachedMap.Buffer.VmOpen` | pkgs/v2/by-name/soph-display/compat/soph_ion_compat.c:272-277 | a split counts one more map |
| `CachedMap.Buffer.VmClose` | pkgs/v2/by-name/soph-display/compat/soph_ion_compat.c:279-284 | an unmap counts one less; the count is zero exactly when no cached map is left |
| `CachedMap.Buffer.SyncStart` | pkgs/v2/by-name/soph-display/compat/soph_ion_compat.c:343-352 | a START drops every line while the buffer has a cached map, and without one does nothing |
| `CachedMap.Buffer.CachedMmapSet` | pkgs/v2/by-name/soph-display/compat/soph_ion_compat.c:95-108 | what is not a boolean is refused, and so is turning `cached_mmap` on for a coherent device; else it is set |
| `CachedMap.Buffer.BeginCpuAccess` | pkgs/v2/by-name/soph-display/compat/soph_ion_compat.c:343-352 | a START by the reader of a live cached map always drops every line |
| `Pacer.Feeder.Advance` | pkgs/v2/by-name/soph-display/scripts/badge_landscape_vo.c:692-696 | adding a period with its carry loop adds exactly that many nanoseconds and leaves a normal time |
| `Pacer.Feeder.PaceFrame` | pkgs/v2/by-name/soph-display/scripts/badge_landscape_vo.c:675-730 | trim, deadline and re-base are those of the specification on plain nanoseconds |
| `Pacer.Feeder.TrackChange` | pkgs/v2/by-name/soph-display/scripts/badge_landscape_vo.c:500-503 | a track change re-bases the deadline on now and keeps the trim |
| `Pacer.TrimStays` | pkgs/v2/by-name/soph-display/scripts/badge_landscape_vo.c:675-690 | whatever the refusals, the period stays between nominal and nominal plus 1% plus one step |
| `Pacer.SixtyFps` | pkgs/v2/by-name/soph-display/scripts/badge_landscape_vo.c:675-677 | at 60 frames a second: the period, the largest trim and the step, in nanoseconds |
| `Pacer.OneTurnTrims` | pkgs/v2/by-name/soph-display/scripts/badge_landscape_vo.c:681-689 | a refusal since the last turn adds a step until the period is 1% longer, a turn without takes one off, not below nominal |
| `Pacer.RefusalsStretch` | pkgs/v2/by-name/soph-display/scripts/badge_landscape_vo.c:681-689 | over a run with a refusal every turn the period grows a step a turn until it is nominal plus 1%, and stays there |
| `Pacer.CleanTurnsRelax` | pkgs/v2/by-name/soph-display/scripts/badge_landscape_vo.c:681-689 | over a run without refusals it goes back to nominal a step a turn |
| `Pacer.RangeInFortyOne` | pkgs/v2/by-name/soph-display/scripts/badge_landscape_vo.c:661-669 | 41 refused turns cross the whole range at any frame rate, and 40 do not at 60 frames a second |
| `Pacer.TurnKeeps` | pkgs/v2/by-name/soph-display/scripts/badge_landscape_vo.c:675-730 | one turn: the deadline moves by at least a nominal period and is at most two periods behind the clock |
| `Pacer.Spacing` | pkgs/v2/by-name/soph-display/scripts/badge_landscape_vo.c:644-733 | two access units of any run are apart by all but a constant of the nominal periods between them |
| `Pacer.WindowBound` | pkgs/v2/by-name/soph-display/scripts/badge_landscape_vo.c:644-733 | any time window of any run holds at most its length plus twice the largest trim, over the nominal period, and four more accepted access units |
| `Pacer.SubmissionsAreBounded` | pkgs/v2/by-name/soph-display/scripts/badge_landscape_vo.c:644-733 | whatever stalls, refusals and track changes occur, any time window of length T holds at most T/nominal + 5 accepted access units |
| `Pacer.UnpacedIff` | pkgs/v2/by-name/soph-display/scripts/badge_landscape_vo.c:692-732 | exactly when lost time is made up: the deadline is already past, so the sleep returns at once, if and only if it has slipped by no more than two frames |
| `Pacer.AtMostFourAtOnce` | pkgs/v2/by-name/soph-display/scripts/badge_landscape_vo.c:698-732 | in any run at most four access units go out at one instant |
| `Pacer.BurstOfFour` | pkgs/v2/by-name/soph-display/scripts/badge_landscape_vo.c:720-730 | four is reached: a feeder exactly two frames behind submits four access units at one instant |
| `ReadWindow.MarkIsStandard` | pkgs/v2/by-name/soph-display/scripts/badge_landscape_vo.c:561-582 | a start is a NAL unit of type 1, 5 or 20 whose first_mb_in_slice is 0 by the ue(v) parser, an end also one of type 6, 7, 8 or 15 |
| `ReadWindow.LengthMeans` | pkgs/v2/by-name/soph-display/scripts/badge_landscape_vo.c:561-586 | an access unit that ends at a mark has its first picture before it and no mark between them |
| `ReadWindow.LengthInPrefix` | pkgs/v2/by-name/soph-display/scripts/badge_landscape_vo.c:561-586 | an end marker that shows in a prefix of the data is the end found in all of it |
| `ReadWindow.SameUnit` | pkgs/v2/by-name/soph-display/scripts/badge_landscape_vo.c:530-586 | one turn: the window and a fresh read find the same access unit, if its end shows within half a buffer or no more is left |
| `ReadWindow.SameUnitIff` | pkgs/v2/by-name/soph-display/scripts/badge_landscape_vo.c:530-586 | one turn: window and fresh read find the same access unit if and only if the window is refilled, or the end shows in what is left of it, or re-reading ends the unit just where the scan of that stops |
| `ReadWindow.SameUnitsIff` | pkgs/v2/by-name/soph-display/scripts/badge_landscape_vo.c:530-632 | over any number of turns, wraps included, the window yields the same offsets and lengths as re-reading if and only if that holds in every turn along the window |
| `ReadWindow.WindowYieldsSameUnits` | pkgs/v2/by-name/soph-display/scripts/badge_landscape_vo.c:530-632 | a condition on the file alone: if at every offset visited the end shows within half a buffer or no more is left, the window yields the same offsets and lengths as re-reading, wraps included |
| `ReadWindow.LateEndIsMissed` | pkgs/v2/by-name/soph-display/scripts/badge_landscape_vo.c:530-586 | for every buffer of 32 bytes or more, the 1280x720 one included, a file on which the window misses an end that re-reading finds |
| `ReadWindow.OverrunIff` | pkgs/v2/by-name/soph-display/scripts/badge_landscape_vo.c:561-586 | the length handed to the decoder exceeds the bytes at hand, by at most seven, exactly when fewer than eight are left or the picture starts in the last sixteen |
| `ReadWindow.ShortFileOverruns` | pkgs/v2/by-name/soph-display/scripts/badge_landscape_vo.c:561-586 | a file of one ten-byte picture is handed over as sixteen bytes, one of a single byte as eight |
| `ReadWindow.Reader.Search` | pkgs/v2/by-name/soph-display/scripts/badge_landscape_vo.c:561-582 | the search loop finds the first marker at or after its start, or where the data ends |
| `ReadWindow.Reader.Scan` | pkgs/v2/by-name/soph-display/scripts/badge_landscape_vo.c:561-586 | both loops and the length rule give the length of the specification |
| `ReadWindow.Reader.Refresh` | pkgs/v2/by-name/soph-display/scripts/badge_landscape_vo.c:530-558 | the window is refilled exactly when it is exhausted, wraps at the end of the file, and covers `used` afterwards |
| `ReadWindow.Reader.ChangeTrack` | pkgs/v2/by-name/soph-display/scripts/badge_landscape_vo.c:473-480 | a track change starts the new file at its beginning with an empty window |
| `ReadWindow.Reader.NextUnit` | pkgs/v2/by-name/soph-display/scripts/badge_landscape_vo.c:530-632 | one turn of the loop over the buffer is one step of the windowed reader, and ends only on an empty file |
| `DeltaStream.KeyRoundTrip` | pkgs/v2/by-name/nix-badge-bling-badapple-live/emit_delta.c:148-159 | a keyframe's little-endian integers decode to the frame |
| `DeltaStream.UnpackPack` | pkgs/v2/by-name/nix-badge-bling-badapple-live/emit_delta.c:174-195 | every packed integer is below 2^36 and unpacks to just its entries, an odd one out included |
| `DeltaStream.DeltaRoundTrip` | pkgs/v2/by-name/nix-badge-bling-badapple-live/emit_delta.c:160-198 | the changed bytes applied to the previous frame give this frame |
| `DeltaStream.SliceIsFrame` | pkgs/v2/by-name/nix-badge-bling-badapple-live/emit_delta.c:264-272 | the slice from `starts[i]` to `starts[i + 1]` is exactly frame i's integers |
| `DeltaStream.DataIsSmall` | pkgs/v2/by-name/nix-badge-bling-badapple-live/badapple-delta.md:65-82 | every integer of the stream is at least 0 and below 2^36 |
| `DeltaStream.PlaybackIsExact` | pkgs/v2/by-name/nix-badge-bling-badapple-live/emit_delta.c:135-205 | for every frame list, keyframe interval and panel contents, playing from index 0 shows frame t mod nframes at every step t, across loops |
| `DeltaStream.GlitchHeals` | pkgs/v2/by-name/nix-badge-bling-badapple-live/badapple-delta.md:34-35 | whatever a glitch puts on the panel at any step, from the next keyframe on every frame shown is exact again |
| `DeltaStream.KeyFrame` | pkgs/v2/by-name/nix-badge-bling-badapple-live/emit_delta.c:152-158 | the keyframe loop emits the frame's integers |
| `DeltaStream.CountChanges` | pkgs/v2/by-name/nix-badge-bling-badapple-live/emit_delta.c:166-172 | the first pass counts the changes |
| `DeltaStream.PackChanges` | pkgs/v2/by-name/nix-badge-bling-badapple-live/emit_delta.c:174-195 | the second pass, with its pending high entry, emits the packed changes |
| `DeltaStream.EmitFrame` | pkgs/v2/by-name/nix-badge-bling-badapple-live/emit_delta.c:145-202 | one frame's integers, entry count and cursor step |
| `DeltaStream.SplitIff` | pkgs/v2/by-name/nix-badge-bling-badapple-live/emit_delta.c:136-143 | the input splits into n whole frames exactly if it has n times the frame length |
| `DeltaStream.SplitIs` | pkgs/v2/by-name/nix-badge-bling-badapple-live/emit_delta.c:136-143 | frame k is the k-th piece of the input |
| `DeltaStream.PanelIsAccepted` | pkgs/v2/by-name/nix-badge-bling-badapple-live/emit_delta.c:57-80 | the 128x64 panel is accepted, with a frame of exactly the 1024 bytes there may be; taller, empty or odd ones are not |
| `DeltaStream.FormatIs` | pkgs/v2/by-name/nix-badge-bling-badapple-live/badapple-delta.md:67-80 | the format in numbers: four bytes an integer, the lowest first; offset times 256 and byte an entry; the first of two entries times 2^18 |
| `DeltaStream.Emit` | pkgs/v2/by-name/nix-badge-bling-badapple-live/emit_delta.c:57-217 | a stream is emitted exactly for an accepted header and an input of exactly that many frames; played from any panel it shows piece t mod n of the input at every step t |
| `BoardRecord.UnpackPack` | pkgs/v2/badge/board-id/board_id.py:39-68 | fields that fit their widths are read back |
| `BoardRecord.PackUnpack` | pkgs/v2/badge/board-id/board_id.py:39-68 | bits of the right number are written back, and what is read fits |
| `BoardRecord.IndexIs` | pkgs/v2/badge/board-id/board_id.py:27-27 | the index of a character is its place in nix's base32 alphabet, and there is none exactly outside it |
| `BoardRecord.RecordIs` | pkgs/v2/badge/board-id/board_id.py:6-18 | where each field of the 320 bits is, highest bit first, and that they begin with 001 |
| `BoardRecord.DecodeEncode` | pkgs/v2/badge/board-id/board_id.py:93-109 | every encodable record decodes to its fields with the name cut at its first NUL, so to itself if and only if the name has none |
| `BoardRecord.EncodeDecode` | pkgs/v2/badge/board-id/board_id.py:138-158 | encoding what a 40-byte epoch-1 blob decodes to gives back the blob if and only if its name field is NUL after its first NUL |
| `BoardCodec.Writer.Put` | pkgs/v2/badge/board-id/board_id.py:43-47 | a value that fits appends its bits, any other is refused and appends nothing |
| `BoardCodec.Writer.Bytes` | pkgs/v2/badge/board-id/board_id.py:49-55 | setting bit by bit in zeroed bytes gives the bytes of the bits; a count that is no multiple of 8 is refused |
| `BoardCodec.Reader.Get` | pkgs/v2/badge/board-id/board_id.py:63-68 | returns the next bits as a number, or fails exactly when there are too few |
| `BoardCodec.EncodeUser` | pkgs/v2/badge/board-id/board_id.py:93-109 | the writer calls encode exactly the encodable records, to the record of the specification |
| `BoardCodec.DecodeUser` | pkgs/v2/badge/board-id/board_id.py:138-148 | the reader calls decode exactly the blobs of the specification |
| `BoardPath.SplitJoins` | pkgs/v2/badge/board-id/board_id.py:71-79 | what the slashes and the last three dashes of a path separate joins back to the path |
| `BoardPath.JoinSplits` | pkgs/v2/badge/board-id/board_id.py:71-79 | and every such division is found again, whatever dashes the name has |
| `BoardPath.PathParses` | pkgs/v2/badge/board-id/board_id.py:71-90 | the path of every record parses to the record and is canonical |
| `BoardPath.DateIs` | pkgs/v2/badge/board-id/board_id.py:13-14 | the tapeout is the date less 20250000: 20260706 is 10706 |
| `BoardPath.KnownBoard` | pkgs/v2/badge/board-id/board_id.py:6-18 | the board of the layout's own examples is encodable for every hash, and rebuilt as that path, letter by letter |
| `BoardNumbers.PlainInt` | pkgs/v2/badge/board-id/board_id.py:84-86 | plain lower-case digits are read digit by digit by `int` |
| `BoardNumbers.PaddedIsAll` | pkgs/v2/badge/board-id/board_id.py:149-151 | plain digits are the number they stand for, padded to their length |
| `BoardPath.CanonicalRebuilds` | pkgs/v2/badge/board-id/board_id.py:112-125 | a canonical path with all its parts set is rebuilt |
| `BoardPath.RebuiltIsCanonical` | pkgs/v2/badge/board-id/board_id.py:112-125 | a path that is rebuilt has all its parts set and is canonical |
| `BoardPath.TwoDigitMinorIsLost` | pkgs/v2/badge/board-id/board_id.py:80-84 | a minor version of two digits does not come back though every part is set: 2.10 is stored as 30 and rebuilt as 3.0 |
| `BoardPath.StorePathRoundTrip` | pkgs/v2/badge/board-id/board_id.py:71-158 | for every string that parses to an encodable record: encoding, decoding and rebuilding give it back if and only if its name has no NUL, no part is zero or empty, and it is canonical (in /nix/store/, a one-digit minor, no leading zero, 8-digit date, 7 lower-case hexadecimal digits) |
| `Fire.CoolFits` | pkgs/v2/by-name/nix-fixes-this/demo.c:720-722 | every cooled value fits a byte |
| `Fire.CoolIs` | pkgs/v2/by-name/nix-fixes-this/demo.c:720-722 | cooled to 32/129 of the heat, rounded down |
| `Fire.FrameIsCooled` | pkgs/v2/by-name/nix-fixes-this/demo.c:715-728 | after a frame every cell above the two bottom rows, but for the edge columns, holds 32/129 of the heat of the three below it and the one two below |
| `Fire.SeedsAre` | pkgs/v2/by-name/nix-fixes-this/demo.c:708-711 | the low byte of each call of rand(), column by column, the bottom cell first |
| `Fire.FrameAgrees` | pkgs/v2/by-name/nix-fixes-this/demo.c:706-728 | one row-skipping frame has the buffer of a full update, if the rows above `fire_top` are dark |
| `Fire.StaysDark` | pkgs/v2/by-name/nix-fixes-this/demo.c:711-728 | after a frame every row above the new `fire_top` is zero, edge columns included |
| `Fire.FireIsTheSame` | pkgs/v2/by-name/nix-fixes-this/demo.c:706-728 | for every sequence of seeds and number of frames the row-skipping fire has the same buffer as the one that updates every row |
| `Fire.Scene.Seed` | pkgs/v2/by-name/nix-fixes-this/demo.c:708-711 | the two bottom rows take the seeds in the order of the calls |
| `Fire.Scene.Row` | pkgs/v2/by-name/nix-fixes-this/demo.c:718-726 | updating a row in place reads only cells not yet updated, and reports whether the row has heat |
| `Fire.Scene.Propagate` | pkgs/v2/by-name/nix-fixes-this/demo.c:715-728 | rows are updated from two above the fire and the new top is the first with heat |
| `Fire.Scene.Paint` | pkgs/v2/by-name/nix-fixes-this/demo.c:729-730 | the picture is the palette colour of every cell, though rows above the fire are not looked up |
| `Fire.Scene.SceneFire` | pkgs/v2/by-name/nix-fixes-this/demo.c:706-730 | one frame in place: the full update's buffer and picture, every cell cooled from those below it, and the dark rows kept |

## Left out

- The floating-point renderer of coda-cube: which macroblocks are edges, which face, page, reference and vector each block gets. Decisions are any valid ones.
- The slice header's values: the header is any list of valid syntax elements (`EncodePicture`) or any bits (`SliceDecodes`).
- Sequence and picture parameter sets and the I_PCM texture pages of coda-cube (lines 1366-1411): fixed sequences of the same writes.
- Capacity of the output buffers of the bit writer and of `nal_wrap`: they are sequences here.
- Chroma motion compensation, weighted prediction and the edge smoothing of coda-cube: small arithmetic beside the luma routines.
- BitWriter.BW.PutUe: takes values below 2^32 - 1; for the last one the source computes the leading zeros of 0, which C leaves undefined.
- Neon.McLuma4Neon: asks for seven readable bytes after the plane, which the 16-byte loads of the source touch and do not use.
- SliceEncoder.EncodeSlice: pictures of at most 4096 macroblocks (the source has 3600) and 16 references (the source's MAXREF), and partition coordinates that are not narrowed to 16 bits; `SliceRoundTrip.SliceDecodes` has no such bound.
- BPicture.PutBMb: each list has an availability map of its own; the source shares one, which both lists fill together at the end of each macroblock.
- SDL, Wayland, ioctls, pacing on the compositor's frame callback, statistics and argument parsing of coda-cube.
- The window background and the overlay's enable bits of soph_drm, which hide or show a layer without changing what is scanned.
- The underrun and chroma diagnostics of soph_drm (lines 900-1026), its `layer_staged` flag, register bring-up, and commits without a framebuffer or with `nomodeset`.
- Timer period and restart of soph_drm's poller: ticks come at any time, or as `FlipPacing.Paced` says.
- FlipPacing.WorkingDisplayAlwaysLatches: after a disable it starts again at the first frame start the poller sees, because `vbl_miss` is not reset by the next enable.
- The mode list and the overlay branch of `soph_pipe_check`: a pixel format and width test.
- The ION shim's module exit, vmap, attachment mapping and cache calls by physical address; the misc device's permission checks.
- CachedMap: one buffer whose lines are clean; write-combined maps appear only as writers of memory, and a DMA-coherent device, where every map is cacheable, is not modelled.
- The pump, the watchdog and the credits of badge_landscape_vo: the feeder's waits only move its times apart. The pump/watchdog reset race is not claimed anything about.
- Pacer.SubmissionsAreBounded: completed sleeps and a frame rate of 1 to 240, the range BLVO_FPS takes; 0 turns pacing off.
- ReadWindow.Reader.Refresh: a failing fseek on a regular file.
- The overlay (HUD) of the Bad Apple screen, which the caller stamps over the decoded frame, and the columns marked for a partial flush.
- The magic number and the raw header bytes of emit_delta's input: the header is its fields.
- Decimal printing and the printed Nix text of emit_delta: the stream is the lists themselves.
- BoardNumbers.PlainInt: `int` is modelled on ASCII strings, with its signs, blanks, underscores and 0x; digits and blanks of other scripts are not.
- The product string, the serial and the scatter of the eFuse words of board_id.py.
- The text drawn over the fire and the other scenes of demo.c.
