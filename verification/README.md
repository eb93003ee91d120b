# Verification of ez-sdr

This project models the exact bookkeeping of the ez-sdr software radio and proves
what it is for. Six groups are covered, and two small algorithms.

- **Position reports.** `Cpr`, `ZoneLaw`, `CprMoving`, `CprReference` and `CprCache` hold the
  three compact position decoders, the encoder of RTCA DO-260B, Appendix A, section A.1.7, as
  their partner, and the per-aircraft cache. Global decoding is a Chinese remainder argument
  on rounded fractions; it is proved to invert the encoder for every position, and for two
  positions of a moving aircraft exactly as far as the zone index reaches. The table of zone
  latitudes is proved against the law it tabulates, for any function with the stated
  properties of the cosine. The cache is proved against an ordered log of frames and drops.
- **Streams.** `OverlapSave`, `Filters`, `Decimator`, `RateConversion` and `AudioRate`
  process samples in chunks. Each is proved equal to a chunk-free reference: a delayed
  convolution, a filtered value at every source index first + k D, or a count rounded
  up once for the whole stream.
- **Capture continuity.** `Capture`, `Oscillator`, `Channel`, `Broadcast`, `Ingest`,
  `Pipeline` and `Commands` follow samples from the device to a consumer. Ingestion
  publishes a disciplined run; a lossy queue passes an in-order selection of it; the
  channelizer turns it into another disciplined run; and a consumer that sees continuity
  has lost nothing. Queue and command protocols are state machines over all interleavings.
- **Mode S frames.** `Crc`, `PowerTable`, `Powers`, `Repair`, `Protection`, `ShortRepair`,
  `MessageRepair`, `Formats`, `Slicing` and `Scan` go
  from magnitude samples to repaired frames. Parity is division over GF(2) (ICAO Annex
  10, Volume IV, section 3.1.2.3.3); repair of long frames is proved sound, minimal and,
  for one and two errors, exact; repair of replies is proved exact up to a stated
  condition. `PowerTable` holds the words of the first 112 powers of x.
- **Gain control.** `Gain`, `Accounting`, `Measurements` and `Percentile` hold the four-state
  scanner, the sample accounting that feeds it, what that measures, and the noise floor.
- **Dates and wire format.** `CivilDate` and `Beast`.

`Wrappers` and `Arith` are shared helpers. `dafny verify dfyconfig.toml` checks
everything.

## Findings

Where the code differs from its documentation the model follows the code.

- `ez-daemon/src/broadcast.rs:39-41` says that a drop-oldest queue always converges on
  holding the newest value. `Broadcast.NewestKeptIffOnePublisher` shows that this is so
  exactly when at most one thread publishes: a second publisher can refill the room made
  for the newest value before its retry, at any capacity.
- `dump1090/src/demod.rs:237` gives a repaired reply the parity rules of its final
  format, but candidates are still filtered by the format as received. An all-call reply
  whose format field is damaged is therefore restored if and only if its interrogator
  overlay is zero (`ShortRepair.OverlayRestoredIffZero`), and given up otherwise;
  `ShortRepair.ExampleGivenUp` is such a reply.
- The width of a damaged frame is read from its first bit (`dump1090/src/demod.rs:324-351`). A valid
  long frame whose first bit is flipped is taken for a short reply whenever its first half,
  so damaged, passes for one; `MessageRepair.MessageRestored` has the exact condition and
  `MessageRepair.FrameTakenForReply` a frame.
- In exact arithmetic the two distance guards of the relative decoder (`dump1090/src/cpr.rs:308-323`) never
  reject (`CprReference.RelativeAnswers`).
- A controller configured at step 0 never sets its thresholds (`dump1090/src/adaptive.rs:247-256`), so
  until its first change of step the loudness threshold is zero and every decoded message
  counts as loud; the constructor of `Gain.Controller` states exactly when the thresholds
  are those of the step, and `Gain.Control.ThresholdsInForce` that every change sets them.
- A block with no counted samples, or a percentile of one hundred, measures the top
  level (`Percentile.WalkIsOrderStatistic`).

## Model

| member | source | states |
|---|---|---|
| `Cpr.CprMod` | dump1090/src/cpr.rs:43-49 | Rust's truncating remainder plus the correction is the remainder in [0, b), for either sign of a |
| `Cpr.LongitudeZonesShrink` | dump1090/src/cpr.rs:63-132 | the zone count is the same north and south, and never grows away from the equator |
| `ZoneLaw.TableSteps` | dump1090/src/cpr.rs:64-123 | at every latitude of the table, to within a ten-millionth of a degree, the law for that number of zones changes sign |
| `ZoneLaw.ZonesByLaw` | dump1090/src/cpr.rs:63-132 | a latitude has at least n zones if cos^2(lat) (1 - cos(2 pi / n)) is at least 1 - cos(pi / 30) a ten-millionth of a degree further from the equator, and only if it is so that much nearer, for any cosine between the partial sums of its series |
| `ZoneLaw.ZonesExactly` | dump1090/src/cpr.rs:63-132 | between two changes of sign of the law the zone count is the law's |
| `ZoneLaw.AirborneByLaw` | dump1090/src/cpr.rs:63-132 | frames encoded on as many longitude zones as the law, not the table, gives their latitudes decode to the encoded point exactly when the two counts agree |
| `Cpr.InZonesIsQuotient` | dump1090/src/cpr.rs:151-168 | the encoder's coordinate in zones is the standard's quotient of the coordinate by the zone size |
| `Cpr.EncodeIsGlobalRounding` | dump1090/src/cpr.rs:166-168 | rounding one coordinate within its zone is rounding it on the whole grid, the fact every recovery rests on |
| `Cpr.FrameByStandard` | dump1090/src/cpr.rs:151-168 | a frame carries, in 2^17 steps, the parts of a zone that its position lies into its zones: sixty or fifty-nine of latitude, and of longitude as many as the latitude has or one less, at least one |
| `Cpr.ZoneIndexRecoversZones` | dump1090/src/cpr.rs:166 | j, computed from two rounded fractions, is exactly evens minus odds whenever the two grids differ by one zone |
| `Cpr.RecoverZone` | dump1090/src/cpr.rs:167-168 | the index modulo either count is the zone the frame was encoded in, modulo that count |
| `Cpr.AirborneRoundTrip` | dump1090/src/cpr.rs:151-205 | for every position and either authoritative frame, the decoder answers if and only if the two frames lie in the same zone count, and then with the exact grid point of that frame, longitude in [-180, 180); `ZoneLaw.AirborneByLaw` says it for zone counts by the law |
| `Cpr.AirborneAccuracy` | dump1090/src/cpr.rs:151-205 | every answer is the encoded position to within half a quantum in each coordinate, whole turns of longitude aside |
| `Cpr.ZoneIndexOfAny` | dump1090/src/cpr.rs:166 | for any two frames, sent from anywhere, the zone index is right exactly when the cross difference of their total quanta lies in [-65536, 65536), and its error is known otherwise |
| `CprMoving.LatitudeOfTwo` | dump1090/src/cpr.rs:151-181 | for frames sent from two positions, the decoded latitude is that of the authoritative frame if and only if the zone offset is a multiple of its zone count |
| `CprMoving.LongitudeOfTwo` | dump1090/src/cpr.rs:182-205 | the same for the longitude, across the antimeridian too |
| `CprMoving.MovingRoundTrip` | dump1090/src/cpr.rs:151-205 | frames of a moving aircraft whose latitudes lie within one window: an answer exactly when the zone counts agree, then with the authoritative latitude, and with the authoritative position if and only if the longitude offset is a multiple of its zone count |
| `CprMoving.WithinTwentieth` | dump1090/src/cpr.rs:166 | a twentieth of a degree of latitude between the two frames always lies within one window |
| `CprReference.NearestQuarterRecovers` | dump1090/src/cpr.rs:278-279 | the 90 degree ambiguity is resolved to the true longitude if and only if it lies in (-45, 45] degrees of the reference |
| `CprReference.SurfaceBits` | dump1090/src/cpr.rs:209-230 | the standard's 19-bit surface encoding, low 17 bits kept, is the encoding on the 90 degree grid that the decoder inverts |
| `CprReference.ResolvedIffResolvable` | dump1090/src/cpr.rs:230-251 | a latitude known up to 90 degrees is resolved to the true one exactly from the stated references |
| `CprReference.SurfaceRoundTrip` | dump1090/src/cpr.rs:209-281 | against any reference: an answer exactly when the resolved latitudes share a zone count, the encoded latitude exactly when it is resolvable, and the encoded position exactly when moreover its longitude is within (-45, 45] degrees of the reference and the grids agree on its zone, as they do whenever they are the same |
| `CprReference.CprModRealIsFloored` | dump1090/src/cpr.rs:52-58 | the corrected real remainder is the floored one |
| `CprReference.NearestInZonesIsNearest` | dump1090/src/cpr.rs:298-300 | the two-floor formula yields the grid point nearest the reference |
| `CprReference.RelativeAnswers` | dump1090/src/cpr.rs:285-326 | one frame against a reference answers if and only if the nearest grid latitude is not beyond a pole; neither distance guard ever rejects |
| `CprReference.NearestInZonesFinds` | dump1090/src/cpr.rs:298-300 | a grid point is the one found exactly when it lies in the half-open zone around the reference |
| `CprReference.RelativeRoundTrip` | dump1090/src/cpr.rs:285-326 | a position is recovered from one frame exactly when it lies in the half-open zone around the reference in both coordinates, across the antimeridian too |
| `CprCache.DistanceIsSymmetric` | dump1090/src/cpr.rs:342-372 | distance between instants is symmetric, and exists only within one clock domain and epoch |
| `CprCache.NoLaterIsOrder` | dump1090/src/cpr.rs:333-340 | the derived order used to pick the oldest entry is a total preorder |
| `CprCache.FrameIsHeld` | dump1090/src/cpr.rs:392-403 | and such a frame is always cached |
| `CprCache.HeldIsFrame` | dump1090/src/cpr.rs:392-403 | a cached frame is the aircraft's latest of its parity, unbroken by a drop, another kind or another clock |
| `CprCache.AnswerIsHeld` | dump1090/src/cpr.rs:404-412 | and such an answer is always kept |
| `CprCache.HeldIsAnswer` | dump1090/src/cpr.rs:404-412 | a position kept is the aircraft's latest answer, unbroken by a drop, another kind or another clock, and fresh at every frame since |
| `CprCache.EntryIsRecent` | dump1090/src/cpr.rs:392-416 | an aircraft has an entry exactly when the last event that mentions it is a frame, and the entry was last seen then |
| `CprCache.AirborneAnswered` | dump1090/src/cpr.rs:497-544 | after any log of frames and drops: if the latest frame of opposite parity still stands, is of the same kind and at most 10 s away and the pair decodes, the answer is that; otherwise the decoding next to the latest answer that still stands; nothing in exactly the remaining cases |
| `CprCache.SurfaceAnswered` | dump1090/src/cpr.rs:602-647 | after any log a surface frame is answered by the surface decoding of the same pair, or by nothing when there is none |
| `CprCache.PairLocates` | dump1090/src/cpr.rs:497-544 | if both frames of a pair encode one position, the answer is that position to within half a quantum |
| `CprCache.OldestExists` | dump1090/src/cpr.rs:458-462 | a cache that is not empty has an entry no later than any other |
| `CprCache.Decoder.PruneOlderThanAt` | dump1090/src/cpr.rs:440-447 | exactly the entries seen in the caller's domain within the age are kept, unchanged |
| `CprCache.EvictedKeeps` | dump1090/src/cpr.rs:450-468 | making room forgets no recent aircraft, save one oldest entry when none is stale and the frame's aircraft is new; the frame's own recent entry always stays |
| `CprCache.Decoder.EvictOldestIfFull` | dump1090/src/cpr.rs:450-468 | exactly: nothing changes below capacity; a full cache loses its stale entries; and one entry that none precedes goes only if nothing was stale and the aircraft is new |
| `CprCache.Decoder.SubmitWithTimestamp` | dump1090/src/cpr.rs:482-562 | the answer is the one the log of frames and drops owes (the pair, else the reference, else nothing); the log grows by the frame, its answer and what making room dropped; the cache goes on matching the log; a malformed frame changes nothing |
| `CprCache.Decoder.SubmitSurfaceWithTimestamp` | dump1090/src/cpr.rs:585-650 | the same for surface frames with an external reference |
| `OverlapSave.NoWrapPastOverlap` | ez-daemon/src/audio_rf.rs:115-125 | past the overlap no term of the circular convolution wraps |
| `OverlapSave.WindowConvolves` | ez-daemon/src/audio_rf.rs:110-125 | a window's tail is the linear convolution of the stream at the same place |
| `OverlapSave.FilteringIsCausal` | ez-daemon/src/audio_rf.rs:99-131 | later input never changes earlier output |
| `OverlapSave.ConvolutionAdds` | ez-daemon/src/audio_rf.rs:112-125 | convolution is additive in the samples |
| `OverlapSave.LoneSampleGivesTaps` | ez-daemon/src/audio_rf.rs:112-125 | one sample alone gives the taps from its own time on |
| `OverlapSave.RfSelector.FilterWindow` | ez-daemon/src/audio_rf.rs:110-126 | one full window turns the pending samples into ready ones and saves the next overlap |
| `OverlapSave.RfSelector.Process` | ez-daemon/src/audio_rf.rs:104-131 | under any chunking the outputs so far are the FIR output delayed by exactly hop - 1 samples, zeros before that; one output per input, non-finite input taken as zero |
| `OverlapSave.RfSelector.Reset` | ez-daemon/src/audio_rf.rs:93-97 | history, queue and overlap are those of a new filter |
| `OverlapSave.TapsFor` | ez-daemon/src/audio_rf.rs:26-44 | refusal, oddness, the 80:1 ratio bound and the 32769 limit of the tap count |
| `OverlapSave.TapsAreFewest` | ez-daemon/src/audio_rf.rs:36 | no smaller odd count has eighty taps for every bandwidth in the sample rate |
| `OverlapSave.LeastPowerOfTwo` | ez-daemon/src/audio_rf.rs:48 | the transform length is a power of two, and half of it would be too short |
| `Filters.DoubleRing.Push` | ez-daemon/src/channelizer.rs:143-145 | the double-written ring always shows the most recent samples as one contiguous window |
| `Filters.FoldedIsFull` | ez-daemon/src/channelizer.rs:151-156 | the folded 16-pair sum is the full 63-tap inner product |
| `Filters.HalfBandStage.Push` | ez-daemon/src/channelizer.rs:142-157 | every second sample, starting with the first, yields the full FIR over the last 63 samples |
| `Filters.PhaseFilter.Output` | ez-daemon/src/channelizer.rs:191-212 | on the grid of banks the output is the FIR with exactly the bank at the phase, and between two banks their blend by distance; no bank beyond the last is read |
| `Filters.FirAdds` | ez-daemon/src/channelizer.rs:191-212 | filtering is additive in the samples |
| `Filters.FirOfLone` | ez-daemon/src/channelizer.rs:191-212 | a sample alone is weighed by the tap of its age, and by none once it is too old |
| `Decimator.StageLength` | ez-daemon/src/channelizer.rs:281-287 | after j half-band stages one value remains for every 2^j samples begun |
| `Decimator.StagePasses` | ez-daemon/src/channelizer.rs:281-290 | stage j passes exactly the source indices divisible by 2^j |
| `Decimator.StageCount` | ez-daemon/src/channelizer.rs:244-249 | the stages leave a final ratio of at least four and below eight |
| `Decimator.PhaseIsDistance` | ez-daemon/src/channelizer.rs:291-294 | the phase is the distance back to the last index the final filter received |
| `Decimator.DueWhenCountedDown` | ez-daemon/src/channelizer.rs:279-295 | the countdown is zero exactly at the source indices first + k D |
| `Decimator.OutputCount` | ez-daemon/src/channelizer.rs:274-300 | exactly one output for every D samples from the first emitting one |
| `Decimator.OutputAt` | ez-daemon/src/channelizer.rs:274-300 | output k is, at source index n = first + k D, the input itself when D is one, and otherwise the interpolation of the banks at phase (n mod 2^stages) / 2^stages |
| `Decimator.DueStep` | ez-daemon/src/channelizer.rs:279-298 | the count and the distance left after a call, one sample at a time |
| `Decimator.FirDecimator.Process` | ez-daemon/src/channelizer.rs:274-300 | however the stream is cut, the outputs are those of the reference, and `next - input.len()` never underflows |
| `Decimator.FirDecimator.Reset` | ez-daemon/src/channelizer.rs:265-272 | every history is silent and the first output is due at the given offset, at its phase |
| `RateConversion.LowestTerms` | ez-daemon/src/audio_rate.rs:143-148 | the remainder loop ends, and the clock ratio is the sample rate in lowest terms |
| `RateConversion.ExactRatio` | ez-daemon/src/audio_rate.rs:117-126 | the fraction is the exact value of the binary rate, in lowest terms |
| `RateConversion.CoarseFactor` | ez-daemon/src/audio_rate.rs:203-205 | the coarse factor is one or leaves at least four coarse samples a frame |
| `RateConversion.CoarseFactorIsGreatest` | ez-daemon/src/audio_rate.rs:203-205 | it is the greatest factor that leaves a quarter of a million samples a second and four a frame, or one if there is none |
| `RateConversion.CarriedCount` | ez-daemon/src/audio_rate.rs:311-313 | a remainder carried between calls counts exactly the rounded-up total |
| `RateConversion.EnoughFrames` | ez-daemon/src/audio_rate.rs:321-337 | frames produced from complete and begun coarse strides cover those due, with at most one to spare |
| `RateConversion.FrameIsHeard` | ez-daemon/src/audio_rate.rs:323-333 | every frame lies at or before a coarse sample already received |
| `RateConversion.RootDurationCovered` | ez-daemon/src/audio_rate.rs:247-277 | with the floor of the root samples supplied, and one silent interval if the source is faster, the frames cover the root duration |
| `AudioRate.RatePump.PushCoarse` | ez-daemon/src/audio_rate.rs:323-333 | after each coarse sample exactly the frames before the next one are computed, each the filter output at its exact phase |
| `AudioRate.RatePump.EnoughComputed` | ez-daemon/src/audio_rate.rs:334-337 | in every reachable state the frames computed cover the duration heard, so the run-time assertion cannot fail |
| `AudioRate.RatePump.DeliveredIsDue` | ez-daemon/src/audio_rate.rs:311-353 | in every reachable state the frames handed out are ceil(N out / in), and at most one is held back |
| `AudioRate.RatePump.Process` | ez-daemon/src/audio_rate.rs:293-353 | the frames handed out are the next ones of the whole stream, whatever the chunking |
| `AudioRate.IqAudioConverter.Process` | ez-daemon/src/audio_rate.rs:283-353 | rates out of range are refused; a change of rates starts afresh; otherwise the stream goes on, at this call's gain |
| `AudioRate.IqAudioConverter.DurationExact` | ez-daemon/src/audio_rate.rs:283-353 | however the input was cut, the frames are its duration rounded up |
| `AudioRate.IqAudioConverter.ProcessClocked` | ez-daemon/src/audio_rate.rs:131-163 | a clock is accepted exactly when its rate and the output rate are in range, the frames are the next ones of the whole stream, and the exact clock ratio decides whether the stream goes on |
| `AudioRate.IqAudioConverter.ClockedDuration` | ez-daemon/src/audio_rate.rs:131-163 | ceil(N stride out / source) frames after N samples |
| `AudioRate.IqAudioConverter.ProcessCapture` | ez-daemon/src/audio_rate.rs:223-281 | accepted exactly when all rates are in range; given at least the floor of the root samples the frames held always suffice, and those handed out are the next ones of the whole stream, each at the gain of the call that converted it |
| `AudioRate.RatePump.FrameStays` | ez-daemon/src/audio_rate.rs:311-353 | later input leaves every frame that was reached as it was |
| `AudioRate.Grid.FrameInterpolates` | ez-daemon/src/audio_rate.rs:70-87 | frame k is the interpolation of the banks at its own place k in / out, over the coarse samples up to it |
| `AudioRate.LoudnessIsNearest` | ez-daemon/src/audio_rate.rs:179-186 | an output is the sample times the gain, or with clipping the level within full scale nearest to it |
| `AudioRate.IqAudioConverter.FramesSuffice` | ez-daemon/src/audio_rate.rs:271-277 | the assertion on the frames held cannot fail |
| `AudioRate.IqAudioConverter.BacklogBounded` | ez-daemon/src/audio_rate.rs:247-280 | the frames a capture holds back are at most what the supply beyond the floor of the root samples is worth |
| `AudioRate.IqAudioConverter.RootDurationExact` | ez-daemon/src/audio_rate.rs:271-280 | what a capture has handed out is its root duration, rounded up |
| `Oscillator.SeekFormsAgree` | ez-daemon/src/channelizer.rs:37-48 | the integer and the real form of the seek phase agree, lie in [0, 1), and are minus offset times index over rate modulo one turn |
| `Oscillator.AheadIsPhaseAt` | ez-daemon/src/channelizer.rs:55-71 | stepping sample by sample stays on the exact phase of the absolute index |
| `Oscillator.StepWithinNyquist` | ez-daemon/src/channelizer.rs:28-35 | a step is within half a turn exactly when the offset is within Nyquist |
| `Oscillator.Nco.Seek` | ez-daemon/src/channelizer.rs:37-53 | the phase is that of the absolute source index, within half a turn |
| `Oscillator.Nco.Mix` | ez-daemon/src/channelizer.rs:57-71 | every sample is mixed at its own phase, within half a turn if the step is |
| `Capture.OffsetSamples` | ez-proto/src/capture.rs:110-116 | the clock advances by samples times stride, and is refused exactly when it would overflow |
| `Capture.EpochCounter.Fresh` | ez-proto/src/capture.rs:7-10 | every epoch is new |
| `Capture.SampleContinuity.Observe` | ez-daemon/src/bus.rs:56-76 | true if and only if the block exactly continues the block observed before it |
| `Capture.IndexAdvances` | ez-daemon/src/bus.rs:56-76 | within an epoch of a disciplined run later blocks start strictly later |
| `Capture.NoHiddenLoss` | ez-daemon/src/bus.rs:56-76 | of two blocks of one run, the later continues the earlier only if nothing was published between them |
| `Capture.ObservedRunIsWhole` | ez-daemon/src/bus.rs:56-76 | a stretch of received blocks each continuing the one before is an unbroken piece of what was published |
| `Capture.ReceivedIsDisciplined` | ez-daemon/src/broadcast.rs:147-169 | dropping blocks keeps the discipline that the guarantee needs |
| `Channel.PlanChannel` | ez-daemon/src/channelizer.rs:451-470 | a channel is refused exactly outside the capture or at rate zero; otherwise the decimation is the greatest that keeps the rate asked for, or one if the capture is slower than that |
| `Channel.ContinuedIsPrimed` | ez-daemon/src/channelizer.rs:363-374 | the run-time contiguity test means that the block follows the last one handled, and then skip and phase are in step |
| `Channel.StaleNeverContinues` | ez-daemon/src/channelizer.rs:395-400 | an end left behind by a clock that overflowed is never continued |
| `Channel.RunKeeps` | ez-daemon/src/channelizer.rs:393-419 | handling a block keeps the outputs tiled, the skip aligned and the record sound |
| `Channel.PublishesOwed` | ez-daemon/src/channelizer.rs:400-418 | a block is published exactly when some sample index is a multiple of the decimation, and it holds exactly those |
| `Channel.EachMultipleOnce` | ez-daemon/src/channelizer.rs:393-419 | over any run every multiple of the decimation among the inputs of an output epoch is held by exactly one published output of that epoch |
| `Channel.VirtualChannel.Process` | ez-daemon/src/channelizer.rs:356-419 | across any blocks and gaps, for a block whose end and output stride fit: the epoch goes on exactly if the block follows the one before; a block is published exactly when some sample index is a multiple of the decimation, it covers those multiples in order with the count, start, source index, stride, rate and centre stated, and it is marked discontinuous exactly when first of its epoch; phases are exact |
| `Channel.VirtualChannel.Restart` | ez-daemon/src/channelizer.rs:376-392 | a new epoch aligned so that start plus skip is a multiple of the decimation |
| `Channel.VirtualChannel.Retune` | ez-daemon/src/channelizer.rs:497-528 | a retune keeps the epoch numbering and record, forgets the stream end and announces a discontinuity |
| `Channel.VirtualChannel.RecenterWideband` | ez-daemon/src/channelizer.rs:592-600 | moving the wideband capture breaks the stream of every channel |
| `Channel.DiscontinuousIffNewEpoch` | ez-daemon/src/channelizer.rs:404-411 | an output is marked discontinuous exactly when its epoch is new |
| `Channel.OutputsAreDisciplined` | ez-daemon/src/channelizer.rs:404-419 | a channel's output is itself a disciplined run |
| `Channel.EpochInputsAreWhole` | ez-daemon/src/channelizer.rs:356-419 | the wideband blocks handled within one output epoch are an unbroken piece of the wideband run, whatever a queue dropped |
| `Pipeline.LossIsNeverStitched` | ez-daemon/src/channelizer.rs:356-419 | from the device through ingestion, a lossy queue, a channel and another lossy queue: a consumer that sees continuity has lost no output, and the wideband blocks of that epoch are unbroken |
| `Broadcast.RunConserves` | ez-daemon/src/broadcast.rs:147-169 | over every interleaving of any number of publishers and the receiver, each value published is in exactly one of received, queued, lost or in flight, and the counter lags only by what is owed |
| `Broadcast.QuiescentCount` | ez-daemon/src/broadcast.rs:213-215 | with the publishers at rest published = received + queued + dropped |
| `Broadcast.RunKeepsOrder` | ez-daemon/src/broadcast.rs:147-169 | the values of any one publisher are delivered in order |
| `Broadcast.OnePublisherSelects` | ez-daemon/src/broadcast.rs:147-169 | with one publisher what is received is an in-order selection of what was published |
| `Broadcast.LossIsNeverHidden` | ez-daemon/src/broadcast.rs:147-169 | end to end: a consumer that sees continuity holds everything published between |
| `Broadcast.NewestIsDelivered` | ez-daemon/src/broadcast.rs:152-162 | one publisher dropping oldest: the retry always finds room, and the newest value is queued or received |
| `Broadcast.NewestCanBeLost` | ez-daemon/src/broadcast.rs:152-162 | with two or more publishers, at any capacity, an interleaving loses the newest value |
| `Broadcast.NewestKeptIffOnePublisher` | ez-daemon/src/broadcast.rs:33-42 | the policy's stated guarantee holds exactly when there is at most one publisher |
| `Broadcast.UninterruptedDelivery` | ez-daemon/src/broadcast.rs:147-169 | the steps of one delivery without interruption come to the sequential outcome |
| `Broadcast.KeptOfMany` | ez-daemon/src/broadcast.rs:147-169 | of many values offered with nobody receiving, the newest are kept or the oldest, as the policy says, and as many as there is room for |
| `Broadcast.Subscriber.Offer` | ez-daemon/src/broadcast.rs:151-167 | one delivery: the queue and the drop counter together grow by one |
| `Broadcast.Broadcaster.Publish` | ez-daemon/src/broadcast.rs:147-169 | every subscriber is offered the value, independently of the others |
| `Ingest.Ingestion.Command` | ez-daemon/src/ingest.rs:309-385 | which identities survive a command: epoch, product session and verified status for success, recovered failure and lost device |
| `Ingest.Ingestion.Read` | ez-daemon/src/ingest.rs:401-440 | a published block carries the verified status and the right clock; the capture epoch goes on exactly when the source has no clock or is still in its epoch; the block is discontinuous exactly when its epoch is new or the source says so; the session changes exactly when the source epoch is replaced |
| `Ingest.Ingestion.Gap` | ez-daemon/src/ingest.rs:441-450 | a gap retires the capture epoch and nothing else |
| `Ingest.PublishesDisciplined` | ez-daemon/src/ingest.rs:288-470 | everything published is a disciplined run |
| `Ingest.EpochIsHomogeneous` | ez-daemon/src/ingest.rs:295-440 | all blocks of one epoch share frequency, rate, gain and product session |
| `Ingest.FirstIsDiscontinuous` | ez-daemon/src/ingest.rs:424-426 | the first block of every epoch is marked discontinuous |
| `Ingest.ClocklessEpochTiles` | ez-daemon/src/ingest.rs:415-439 | an epoch that ingestion clocks itself is numbered from zero with no hole |
| `Ingest.NoLossIsSeen` | ez-daemon/src/ingest.rs:401-440 | with nothing lost between unmarked neighbours of one epoch on one clock, the later is seen to follow exactly when the stride is one |
| `Ingest.OwnBlocksFollow` | ez-daemon/src/ingest.rs:415-439 | blocks that ingestion clocks itself always follow one another within an epoch |
| `Ingest.ProductLasts` | ez-daemon/src/ingest.rs:330-408 | over a whole run two published blocks belong to one product exactly when no event between them renewed it: a frequency or rate command, or another source epoch, but no gap and no gain change |
| `Ingest.CountingOnNeedsStrideOne` | ez-daemon/src/ingest.rs:412-436 | if a source stops clocking its reads, counting on from its last index is no step back exactly when its stride was one |
| `Commands.Always` | ez-daemon/src/ingest.rs:56-151 | the protocol invariant holds after every interleaving of client, worker, timeout, shutdown and crash |
| `Commands.SettledForGood` | ez-daemon/src/ingest.rs:74-117 | a terminal phase and its outcome never change, and a cancelled command never enters its setter |
| `Commands.ToldTheTruth` | ez-daemon/src/ingest.rs:194-225 | whatever the client is told agrees with what the device did |
| `Commands.SeenPhaseHasOutcome` | ez-daemon/src/ingest.rs:92-117 | who sees applied or rejected also finds the matching outcome |
| `Commands.LateClientIsTold` | ez-daemon/src/ingest.rs:107-117 | a client that gave up waiting for a settled command is told how it was settled, in every continuation, and never that it is pending |
| `Commands.EarlyClientIsTold` | ez-daemon/src/ingest.rs:107-117 | a client that looks while the setter is at work is told that the command is pending |
| `Commands.UndisturbedIsApplied` | ez-daemon/src/ingest.rs:194-225 | without timeout, crash, shutdown or failed send every command reaches its setter, is settled by what the setter did, and the client is told just that |
| `Commands.NeverStuck` | ez-daemon/src/ingest.rs:194-225 | some thread can go on until the client is told and the envelope is gone |
| `Commands.RunsEndSettled` | ez-daemon/src/ingest.rs:143-151 | every run is at most eighteen steps and ends with the command settled and the client told |
| `Crc.BuildTable` | dump1090/src/crc.rs:8-27 | every table entry is eight steps of polynomial division, bits above the remainder notwithstanding |
| `Crc.Crc24` | dump1090/src/crc.rs:37-44 | the byte-wise loop is division of the payload times x^24 |
| `Crc.Crc24Parity` | dump1090/src/crc.rs:56-68 | folding in the trailing parity gives the residue of the whole message |
| `Crc.TimesXnLinear` | dump1090/src/crc.rs:8-27 | division is linear over XOR |
| `Crc.LeadingZero` | dump1090/src/crc.rs:56-68 | leading zero bytes do not change the residue |
| `Crc.PolyOfUnique` | dump1090/src/crc.rs:37-44 | two 24-bit words with the same polynomial are the same word |
| `Powers.PowersDistinct` | dump1090/src/demod.rs:173-193 | the 112 single-bit syndromes are pairwise different |
| `Powers.NoFourTerms` | dump1090/src/demod.rs:258-275 | one and three later powers never sum to zero over the length of a frame |
| `Powers.PairsDistinct` | dump1090/src/demod.rs:258-275 | no two pairs of the 112 powers have the same sum |
| `Repair.SingleBitSyndromes` | dump1090/src/demod.rs:173-193 | the table holds the power of x of each bit |
| `Repair.TwoBitSyndromes` | dump1090/src/demod.rs:258-275 | every pair is listed under its syndrome, the first pair winning |
| `Repair.FlipShiftsResidue` | dump1090/src/demod.rs:200-204 | flipping a bit adds that bit's power, whatever the frame |
| `Repair.RuledOut` | dump1090/src/demod.rs:281-319 | what the syndrome rules out, no frame can be |
| `Repair.CorrectLong` | dump1090/src/demod.rs:281-319 | a repaired frame passes and differs in exactly k bits; no passing frame is nearer, and failure means none lies within the limit |
| `Repair.LongSingleRestored` | dump1090/src/demod.rs:281-319 | one flipped bit of a valid long frame is undone exactly |
| `Repair.LongDoubleRestored` | dump1090/src/demod.rs:281-319 | two flipped bits of a valid long frame, any two, are undone exactly, or given up if fewer than two repairs are allowed |
| `Repair.PairPowersDistinct` | dump1090/src/demod.rs:258-275 | all 6216 pair syndromes differ, so no entry of the table is ever overwritten or passed over |
| `Repair.DoubleIsNotSingle` | dump1090/src/demod.rs:258-275 | no pair of bits has the syndrome of a single bit, the generator having an even number of terms |
| `ShortRepair.CorrectShort` | dump1090/src/demod.rs:210-251 | the first bit that explains the syndrome and leaves a reply valid in its own format, or none; trailing bytes are ignored |
| `Protection.HighPartPresent` | dump1090/src/demod.rs:216-221 | no single-bit syndrome beyond the seven overlay bits hides under the overlay |
| `Protection.HighPartsDiffer` | dump1090/src/demod.rs:229-233 | single-bit syndromes beyond the overlay are told apart by their protected bits alone |
| `ShortRepair.ShortSingleRestored` | dump1090/src/demod.rs:210-251 | one flipped bit of any valid reply is undone exactly, unless the reply is an all-call reply and either the flip lies under the overlay, which absorbs it unnoticed, or it damages the format while the overlay is not zero, and then no repair is made |
| `ShortRepair.OverlayRestoredIffZero` | dump1090/src/demod.rs:216-247 | an all-call reply with a damaged format is restored if and only if it carries no overlay, and is otherwise given up |
| `ShortRepair.ExampleGivenUp` | dump1090/src/demod.rs:216-247 | a concrete all-call reply to interrogator 1, with the third bit flipped, is given up |
| `MessageRepair.CorrectMessage` | dump1090/src/demod.rs:324-351 | the claimed width first, the other if that fails |
| `MessageRepair.PassesBySyndrome` | dump1090/src/demod.rs:210-251 | whether a half passes for a reply is decided by its syndrome and format |
| `MessageRepair.MessageRestored` | dump1090/src/demod.rs:324-351 | a single flip of a valid long frame other than the first bit is undone exactly; the first is undone exactly when the second half is empty or the syndrome of the original first half does not make the damaged one pass for a reply |
| `MessageRepair.MessageDoubleRestored` | dump1090/src/demod.rs:324-351 | two flips of a valid long frame: undone exactly, with the same exact condition if one is the first bit |
| `MessageRepair.FrameTakenForReply` | dump1090/src/demod.rs:324-351 | a concrete valid long frame that is taken for a short reply once its first bit is flipped |
| `Formats.DamageSetIsBall` | dump1090/src/demod.rs:725-735 | the recursive damage set is exactly the formats within that many flips |
| `Slicing.SliceIsCorrelation` | dump1090/src/demod.rs:665-687 | each of the five slicers is the exact correlation with an ideal bit starting at its phase |
| `Slicing.Layout` | dump1090/src/demod.rs:998-1065 | every entry of the byte layouts lies exactly twelve fifths after the one before |
| `Slicing.SliceMessage` | dump1090/src/demod.rs:995-1090 | for every trial phase bit i is sliced at time 95 + phase + 12 i fifths, within 290 samples |
| `Slicing.GuardIsTight` | dump1090/src/demod.rs:848-852 | no bit needs more than 290 samples, and the last bit of the last phases needs all of them |
| `Scan.Demodulator.Demodulate` | dump1090/src/demod.rs:844-1168 | the scan always advances; every start far enough from the end of the block is visited or lies in a message, and what is found is exactly what the oracle of this block accepted at the places visited |
| `Scan.StartsIncrease` | dump1090/src/demod.rs:1158-1168 | accepted starts and ends strictly increase, across blocks too |
| `Scan.Reader.Take` | dump1090/src/main.rs:395-445 | the carried tail is the last 320 samples of the stream, block positions are absolute, and the block is scanned once, by its own oracle |
| `Scan.Reader.Run` | dump1090/src/main.rs:358-445 | over any read sizes and any oracle for each block, once more than 320 further samples have arrived a start has been put to the oracle of some block, its answer recorded, or lies in a message that an oracle accepted |
| `Gain.GainLimits` | dump1090/src/adaptive.rs:258-274 | the limits are the first step with at least the least gain and the last with at most the greatest |
| `Gain.Control.BurstsKeep` | dump1090/src/adaptive.rs:518-549 | loud runs lower the gain and stop a downward scan; only quiet runs below the limit ask for a rise |
| `Gain.Control.RangedKeeps` | dump1090/src/adaptive.rs:551-623 | a downward scan never asks for a rise, and the limit stays at or below where the scan has been |
| `Gain.Control.SteppedKeeps` | dump1090/src/adaptive.rs:503-635 | the step stays in range and moves by at most one, for a stated reason; a scan under poor range rests, steps down or counts down |
| `Gain.Control.SteppedMoves` | dump1090/src/adaptive.rs:503-635 | the step falls, rises or stays exactly when its stated causes say so, and every move is suggested |
| `Gain.Control.SteppedScans` | dump1090/src/adaptive.rs:551-624 | the scan state, its limit and its rescan timer change exactly for their stated causes |
| `Gain.Control.SteppedCounts` | dump1090/src/adaptive.rs:510-531 | timers run down and loud and quiet runs are counted while burst control acts, and all start anew with a new step |
| `Gain.Control.ThresholdsInForce` | dump1090/src/adaptive.rs:217-256 | every change of step brings the thresholds of the new step into force, and they stay until the next |
| `Gain.Controller.ControlUpdate` | dump1090/src/adaptive.rs:503-635 | the field-by-field update makes exactly the moves owed: each fall and rise, the scan state, limit and timers, the runs and the thresholds; the range invariant is kept |
| `Gain.ScanComesToRest` | dump1090/src/adaptive.rs:503-635 | under a range that stays poor a downward scan reaches idle within a bound in steps left, timer and delay |
| `Gain.ClimbReachesTop` | dump1090/src/adaptive.rs:560-580 | under a range that stays good and no burst against it, the gain reaches the top and rests within a bound in steps, delay and quiet run |
| `Gain.RestLooksUp` | dump1090/src/adaptive.rs:602-622 | a resting controller keeps its step until both timers have run out, and with that block goes one step up |
| `Gain.LooksUpAfterDelay` | dump1090/src/adaptive.rs:581-622 | a scan that comes to rest of itself goes one step up after exactly the rescan delay, if the range is good then and nothing disturbs it |
| `Accounting.BurstWindows.Update` | dump1090/src/adaptive.rs:381-430 | any buffer is accounted as if sample by sample |
| `Accounting.BurstWindows.Skip` | dump1090/src/adaptive.rs:357-379 | skipping n samples is accounting any n quiet samples |
| `Accounting.FedAllJoins` | dump1090/src/adaptive.rs:284-330 | feeding in pieces is feeding at once |
| `Accounting.SampleAccounting.Update` | dump1090/src/adaptive.rs:284-347 | with or without a decoded message, the state, smoothed rates, noise level and gain controller included, is that of feeding the samples one at a time; the call hands out the last suggestion made during it |
| `Accounting.CuttingIsInvisible` | dump1090/src/adaptive.rs:284-330 | however undecoded samples are cut into buffers, everything that follows is the same, suggestions included |
| `Accounting.MessageOncePerSubblock` | dump1090/src/adaptive.rs:295-340 | a decoded message is counted once in every subblock that it reaches into |
| `Measurements.LoudSamples` | dump1090/src/adaptive.rs:12-13 | the loud samples are those above 46395 |
| `Measurements.BurstsAreCounted` | dump1090/src/adaptive.rs:420-430 | the bursts counted are the windows that end a run of exactly two to five loud ones, each once |
| `Measurements.DutyShare` | dump1090/src/adaptive.rs:302-309 | of the subblocks begun, exactly the whole part of their duty share is active |
| `Measurements.BlockCadence` | dump1090/src/adaptive.rs:300-319 | a control step is taken with every block-length sample and with no other |
| `Measurements.SubblockGathers` | dump1090/src/adaptive.rs:332-342 | in an active subblock every sample and message is measured once, levels and loud messages included, and in any other nothing is |
| `Measurements.SmoothingConverges` | dump1090/src/adaptive.rs:440-447 | a steady value is approached geometrically |
| `Measurements.BlockRates` | dump1090/src/adaptive.rs:432-449 | at the end of a block the rates move to the counts scaled up by what the duty cycle left out, and totals take the counts over |
| `Percentile.Walk` | dump1090/src/adaptive.rs:465-478 | the walk stops at the first level by which more than n samples are counted |
| `Percentile.WalkIsOrderStatistic` | dump1090/src/adaptive.rs:465-478 | where it stops is the element at index n of the sorted samples, and the top level if there is none |
| `Percentile.IndexIsShare` | dump1090/src/adaptive.rs:470-471 | the index is the whole part of that share of the count |
| `Percentile.IndexInside` | dump1090/src/adaptive.rs:470-471 | the index is inside the block for a percentile below one hundred exactly when the block is not empty |
| `CivilDate.DayToDateToDay` | dump1090/src/main.rs:211-224 | every day number, negative ones too, has a valid date whose number it is |
| `CivilDate.DateToDayToDate` | dump1090/src/main.rs:211-224 | every valid date comes back from its number |
| `CivilDate.NextDayNextDate` | dump1090/src/main.rs:211-224 | the date of the next day is the calendar successor |
| `Beast.EncodeBeastFrame` | dump1090/src/net_io.rs:227-252 | the loop produces the marker 0x1a, the type byte 0x31, 0x32 or 0x33 of the message length, and a payload that reads back with every marker byte doubled |
| `Beast.StreamRoundTrip` | dump1090/src/net_io.rs:224-252 | any stream of known frames is read back, timestamps modulo 2^48 |

## Left out

- Floating-point rounding: degrees, phases, taps, samples, smoothed levels and sample
  rates are exact reals or fractions, and non-finite values are modelled only where the
  filter replaces them by zero.
- Filter design and frequency response: taps are arbitrary, and only symmetry, zero
  positions and bank shapes matter.
- The transform pair of the overlap-save filter is taken to be circular convolution.
- One component of each complex sample is modelled; taps are real, so the other is the
  same. Oscillator phases are in turns, and the complex rotation itself is not modelled.
- Overflow of 64- and 128-bit counters other than capture clocks; capture clocks are
  checked exactly as the code checks them.
- CprCache.Decoder: cache entries are values in a map, so the in-place update of an
  entry appears as replacing it.
- CprReference.SurfaceRoundTrip: does not model the trigonometric test of the 45 NM
  radius around a capture site, which is separate from the decoder.
- Channel.VirtualChannel: represents its decimator by decimation and distance to the
  next output, as the contract of `Decimator.FirDecimator.Process` gives them; the
  filtered values themselves are that module's subject. The registry of channels is
  left out.
- Channel.VirtualChannel.Process: takes the discipline of its input as a
  precondition; `Ingest.PublishesDisciplined` and `Capture.ReceivedIsDisciplined` supply
  it.
- Ingest.Ingestion.Read: a source's clock is taken not to run backwards within one of its
  epochs, and a source that stops clocking its reads in the middle of an epoch to have had
  stride one, which `Ingest.CountingOnNeedsStrideOne` shows to be necessary.
- AudioRate.IqAudioConverter.ProcessCapture: covers a converter used by one capture
  since its settings were chosen; calls of the other entry points in between are not
  modelled.
- AudioRate.IqAudioConverter.ProcessClocked: the rounded quotient kept beside the
  exact ratio is taken to be that ratio.
- Commands.Always: one command, since commands share no state but their queue;
  atomics are sequentially consistent and a thread's step is one atomic operation.
- Broadcast.RunConserves: one subscriber's queue, since a publisher visits subscribers
  one after another; changes of the subscriber list are left out.
- Scan.Demodulator.Demodulate: whether a message is accepted at a position is an
  oracle, in place of preamble thresholds, scoring and the address filter; the sample
  clock has five ticks a sample.
- Gain.Controller: the loudness of a gain rise and the decibels of a noise level, a power
  and a logarithm, are arbitrary functions; the seconds at each step and the number of
  changes are left out.
- Accounting.SampleAccounting.Update: the index of the percentile is computed in integers.
- Repair.CorrectLong: a byte array is a sequence, so the flip of a bit in place is a
  new sequence.
- Sockets, tasks, recordings, lifecycle code, hardware drivers, Mode A/C decoding, field
  extraction, tracking and statistics would add only easy members.
- The raw and SBS text formats: a finite digit table.
