# esp-glow: a verified model of its host-testable core

esp-glow is a lighting controller: cues fade effects in and out, their intents are
merged and rendered into DMX universes, and shows, fixture profiles, MIDI
controllers and device settings travel as small binary blobs. This project models
the parts of it that run without hardware, in Dafny, and proves what they are meant
to guarantee. `dafny verify dfyconfig.toml` checks all of it.

Each operation that changes state is an imperative method proved equal to a function
of the old state (the specification functions live in their own modules, the classes
in others); the main results are lemmas about those functions, for every input or
every run.

## What the modules are

- Show engine: `Cues` (cue lifecycle as a state machine) and `CueShape` (its weight over
  time), `FiringOrder`, `Blend` and `ShowControl` (the HTP/LTP merge of a frame),
  `EmittedLevels` and `EmittedAims` (what a frame emits, said of cues and effects alone),
  `FixtureProfile`, `Render` and `Show` (rendering intents into shared 512-byte buffers),
  `FrameValues` and `FrameShows` (what each channel shows after a frame), `Wiring` and
  `PixelMatrix` (packing pixels into channels) and `MatrixColours` (which hue each is).
- Binary formats: `ProfileFormat` (PFX1), `Mdef`, `ControllerFormat` and
  `ControllerCodec` (MDF1), `Register`, `Crc32` and `DeviceConfig` (CFG1 and its
  CRC-32), `Reading`, `ShowFormat`, `ShowBundle`, `ShowRoundTrip`, `ShowLoader` and
  `ShowCompiler` (SHW1), `Bytes` (numbers, tables, name blobs), `BlobLayouts` and
  `ControllerLayout` (which byte of a blob holds what), `FormatLimits` (exactly what is
  accepted, in numbers), `LoadedShows` (what every show that loads is like).
- Patching: `Collisions` (matrix splitting and the overlap check), `CheckedChannels` (the
  check counts what the renderer writes) and `Patching` (what the check guarantees for
  the frame).
- Timing and traffic: `BeatModel`, `BeatClock` and `BeatTracking` (the tempo PLL),
  `LedModel`, `LedFeedback` and `LedWire` (token bucket, change detection and messages),
  `ArtNet`, `ArtNetRouter`, `Destinations` and `ArtNetWire` (routing, sequence numbers and
  packets), `LiveModel`, `LiveControl`, `LiveCommands`, `ControlTypes` and `ControlQueue`
  (dispatch, latches, what an event does to the cues, and the bounded queue).
- Byte streams: `Osc`, `Json`, `JsonText`, `MidiFraming`, `ControlWire`.

## How the code is represented

- Times, levels, tokens and beats are reals; rounding to an integer is any function
  that is off by at most one half. Serialised floats are their 32-bit patterns.
  The CRC register and the bytes it reads are bit vectors; other bytes are integers
  below 256, and every narrowing cast the code makes is written out. The product in the
  wiring index, which the code takes in `int`, is taken modulo 2^16 even where `int`
  would overflow.
- Lengths and positions are unbounded integers: `size_t` sums are taken not to wrap.
- Effects are pure functions of time. The aim geometry and the Euler matrices are
  uninterpreted; a loaded head keeps its angles. A pixel pattern has drawn on its
  canvas before `render` packs it.
- Mutexes, critical sections and RTOS queues are atomic steps. Network and MIDI
  outputs are logs of what was sent. The null-pointer arguments several functions
  tolerate are not modelled.
- The scratch vectors of `evaluate` are local variables.

## Where a promise fails, and exactly when it holds

- `BeatClock` promises that beat numbers never go backwards. Over any run with
  nondecreasing timestamps, started and stopped and retuned at will, they never do if
  and only if no call of the run slips (`BeatModel.MonotoneIff`), and which calls slip
  can be told from the state before each (`BeatModel.StepsBackExactly`): on a running
  clock `onTempo` exactly when it accepts a tempo slower than the current one with the
  anchor in the past; `start` exactly when a running clock has left beat 0 or a stopped
  one is frozen beyond it; the first beat exactly when it finds a running clock after
  time zero or a stopped one frozen beyond beat 0; a later beat or tap exactly when it
  resumes a stopped clock whose model a slower tempo has put behind the frozen beat,
  that is before `BeatModel.ResumeTime` (`BeatModel.ResumeSlipsBefore`).
  There is an instance of each (`BeatModel.OnTempoExample`, `BeatModel.StartExample`,
  `BeatModel.FirstBeatExample`, `BeatModel.ResumeExample`). From a fresh clock on,
  a run in which no call re-bases the model is monotone
  (`BeatModel.ReadingsNeverDecrease`), and from the first accepted beat on no beat, tap,
  stop or query does (`BeatModel.BeatsNeverDecrease`).
- `PixelMatrix` counts its buffers in a byte, numbers them from the first universe and
  fills them by absolute universe. Every channel stands in its place, for every canvas
  and brightness, exactly when the matrix has no pixels, or starts in universe 0 and
  spans at most 255 universes (`PixelMatrix.PacksIffFits`); `render` leaves in the
  buffers what that statement speaks of (`PixelMatrix.Matrix.Render`,
  `PixelMatrix.Matrix.BuffersPack`).
- `parseStringEscaped` puts its terminator on the last data byte of an exactly full
  buffer: the decoded bytes are all there exactly when a byte was to spare, nothing
  was decoded, or the lost byte was itself a NUL (`Json.StoredWhole`, with an instance in
  `Json.OneCharacterLost`).
- `frameEnd` resolves destinations when it is called. Whatever routes change between a
  frame's last send and its end, the ArtSyncs go to exactly the addresses that got data
  if and only if the active universes still resolve to the same addresses
  (`ArtNet.SynchronisedIffSameAddresses`, with an instance in
  `ArtNet.RetargetedFrame`); with a stable table they do (`ArtNet.FrameSynchronised`).
  With routes and sends in any order it takes that every address sent to is one where
  some universe last sent with a route leads at the end, and the other way round
  (`ArtNet.InterleavedSynchronisedIff`).
- The firing order of the active cues is determined exactly when their ranks are
  pairwise different (`FiringOrder.OrderUniqueIff`), which holds for up to 2^32
  activations and not beyond (`ShowControl.WrapMakesEqualRanks`); while it holds neither the sort nor the cue ids influence a frame
  (`ShowControl.FrameDetermined`). Two active cues of one rank make it depend on the
  sort (`ShowControl.EqualRanksUndetermined`).
- Once a tempo is known the clock follows reports of one tempo, `onTempo` or on-phase
  beats, with 0.85 to the n of the distance left after n of them, if and only if that
  tempo is within a factor of two of its own; from further off it never moves
  (`BeatTracking.ReportsConverge`).
- With a rate below one message a second the LED token bucket never holds a whole
  token and nothing is ever sent (`LedModel.SlowRateIsSilent`).
- live_control.h:43-49 leaves running status to the MIDI framing and counts Program
  Change and Channel Pressure as two bytes; the framing keeps no running status and cuts
  whatever lies between two status bytes into threes (`MidiFraming.StreamDelivered`).
  What is delivered is what was sent if and only if every message has three bytes and
  none leaves out its status byte (`MidiFraming.RunningStatusIff`). Two Program Changes
  under running status come out as one message (`MidiFraming.ProgramChangesMerged`), and
  three data bytes alone as a message without a status byte
  (`MidiFraming.NoRunningStatus`).
- Change detection is per address and channel. Where two tracked LEDs share a status and
  address, the physical LED can be sent a value it shows (`LedModel.SharedWireRepeats`);
  where each has its own, it is not (`LedModel.WireNeverRepeats`).

Where code and comment differ the model follows the code: a fixture record of the
SHW1 bundle is 48 bytes (show_bundle.h:60 and the loader's own up-front check say
46), a matrix record 10 (the up-front check asks for 8), and the head fields of
non-head fixtures are written with their defaults, not zeroed (show_bundle.h:70);
the loader ignores them.

## Model

| member | source | states |
|---|---|---|
| `Cues.WeightInUnit` | show_control.cpp:126-178 | every cue a run can produce has a weight in [0,1] at every later time, in all of fade-in, hold, fade-out, release and manual override |
| `Cues.NextKeepsValid` | show_control.cpp:29-94 | every operation and every frame keeps the cue invariant: manual override implies active, release weights and levels in range, active cues have distinct activation numbers below the wrap |
| `Cues.RunKeepsValid` | show_control.cpp:29-94 | over every run with a nondecreasing clock the invariant holds and all later weights lie in [0,1] |
| `Cues.ReleaseFades` | show_control.cpp:39-48 | releasing a live non-manual cue with a fade-out leaves its weight unchanged at that instant and nonincreasing after it; it is alive, and survives a frame, exactly until the fade ends |
| `Cues.ReleasedCueIsRetired` | show_control.cpp:225-231 | whatever else happens after a release, the first frame at or past the fade's end leaves the cue inactive unless it was triggered again |
| `Cues.SilentAfterStopAll` | show_control.cpp:88-94 | after stopAll no cue contributes to any frame until the next go, goScene or positive setManualLevel |
| `ShowControl.NothingEmittedAfterStopAll` | show_control.cpp:88-94 | so until then frames emit no capability intent and no aim |
| `ShowControl.ShowController.AddCue` | show_control.cpp:15-21 | the next id, the cue as given and inactive, the others unchanged |
| `ShowControl.ShowController.AddScene` | show_control.cpp:23-27 | the next id and the scene's cues |
| `Blend.MergeCap` | show_control.cpp:246-300 | one turn of the merge loop keeps the working entries a blend of all intents merged so far, found or new, HTP or LTP |
| `Blend.MergeAim` | show_control.cpp:303-322 | one turn of the aim loop keeps one entry per fixture, the last aim merged, with the rank of its cue; while aims come in rank order no aim at that fixture came from a higher-ranked cue |
| `Blend.HtpTakesMaximum` | show_control.cpp:254-276 | a key that only blended contributions reach gets the greatest contributed value, and no selection; what each contributes is the next rows |
| `Blend.LtpTakesHighestRank` | show_control.cpp:277-299 | any other key gets value and selection of the last intent of the cue greatest in (priority, activationSeq) |
| `Blend.BlendIsMerge` | show_control.cpp:246-300 | for contributions of both kinds in any order the blend is exactly what taking them one by one leaves: an intensity write takes over where it reaches the value, any other always |
| `EmittedLevels.EmittedIsMerge` | show_control.cpp:246-328 | and so is each emitted value and selection, of what the playing cues bring to its key in firing order |
| `EmittedLevels.EmittedProduct` | show_control.cpp:248-276 | where only linear intensity writes reach an emitted (fixture, capability), its value is WeightAndAlive(cue, t).w * norm01 for some playing cue and some intent of its effects there, no such product exceeds it, and it carries no selection |
| `EmittedLevels.EmittedIntent` | show_control.cpp:277-299 | where none does, what is emitted is an intent exactly as an effect asked for it, unscaled, of a playing cue that no playing cue with an intent there exceeds in (priority, activationSeq) |
| `EmittedLevels.EmittedLatest` | show_control.cpp:225-299 | and it is the last there is: no later cue in the firing order, no later effect of that cue, no later intent of that effect is for that key |
| `EmittedAims.EmittedAimLatest` | show_control.cpp:303-322 | the same of an emitted aim |
| `CueShape.GoShape` | show_control.cpp:126-178 | a cue triggered at t without manual hold weighs 0 before t, (x-t)/fadeIn during its fade-in, 1 from then through its hold, the rest of its fade-out's share during that and then is dead; no other cue changes |
| `CueShape.ReleaseShape` | show_control.cpp:39-48 | an active cue released at weight w weighs w times the rest of its fade-out's share until the end of it, and is dead from then on |
| `CueShape.ManualHolds` | show_control.cpp:68-86 | a positive manual level, at most 1, is the cue's weight at every time; any other puts it out |
| `CueShape.LatestGoOutranks` | show_control.cpp:29-37 | until the counter wraps a cue just triggered outranks every other active cue of its priority or a lower one |
| `CueShape.SceneStarts` | show_control.cpp:50-57 | a scene's cues run since that time and no other cue is touched |
| `CueShape.SceneStops` | show_control.cpp:59-66 | a released scene's cues are released or inactive and no other cue is touched |
| `ShowControl.ShowController.Go` | show_control.cpp:29-37 | the whole new state of a go |
| `ShowControl.ShowController.Release` | show_control.cpp:39-48 | the whole new state of a release, with its weight captured at that time |
| `ShowControl.ShowController.GoScene` | show_control.cpp:50-57 | the scene's cues started in order |
| `ShowControl.ShowController.ReleaseScene` | show_control.cpp:59-66 | the scene's cues released in order |
| `ShowControl.ShowController.SetManualLevel` | show_control.cpp:68-86 | clamping, hold and drop of a manual level, with a fresh activation number only from inactive |
| `ShowControl.ShowController.StopAll` | show_control.cpp:88-94 | every cue inactive, nothing else changed |
| `ShowControl.ShowController.ActiveCues` | show_control.cpp:208-222 | exactly the active cues, sorted by (priority, activationSeq) |
| `ShowControl.ShowController.Evaluate` | show_control.cpp:201-333 | a frame retires the dead cues and appends exactly the blend of the contributions of the live cues, in firing order (what each emitted value is: EmittedLevels, EmittedAims) |
| `ShowControl.ShowController.Emit` | show_control.cpp:325-332 | the working entries appended in order |
| `FiringOrder.FiringOrderUnique` | show_control.cpp:216-222 | while ranks are distinct every correct sort gives the same order |
| `FiringOrder.OrderUniqueIff` | show_control.cpp:216-222 | the firing order is determined if and only if the active cues have pairwise different ranks |
| `FiringOrder.FiredDetermined` | show_control.cpp:216-222 | while ranks are distinct the sequence of cues fired depends on the active cues alone, not on the sort and not on the ids they have |
| `ShowControl.EqualRanksUndetermined` | show_control.cpp:216-222 | with two active cues of one rank two firing orders are correct and the frame differs between them |
| `ShowControl.WrapMakesEqualRanks` | show_control.cpp:29-37 | a run reaches that state: after 2^32 further activations a cue gets the number another still holds |
| `ShowControl.StreamRanked` | show_control.cpp:225-243 | intents reach the merge in rank order |
| `ShowControl.AimStreamRanked` | show_control.cpp:225-243 | aims reach the merge in rank order |
| `ShowControl.AimStreamMembers` | show_control.cpp:225-243 | the aims of a frame are exactly those of the cues it fires |
| `ShowControl.AimedOnce` | show_control.cpp:329-331 | each fixture is aimed at most once, and exactly those some live cue aimed |
| `ShowControl.EmittedAim` | show_control.cpp:303-322 | each emitted aim is the last one at its fixture of the live cue greatest in (priority, activationSeq) |
| `ShowControl.EmittedOnce` | show_control.cpp:326-328 | each (fixture, capability) is emitted at most once, and exactly those some live cue wrote |
| `ShowControl.EmittedUnique` | show_control.cpp:326-328 | the blend determines the emitted list completely |
| `ShowControl.FrameDetermined` | show_control.cpp:201-333 | two reachable states with the same active cues under whatever ids emit the same caps and aims, however they sort, before the counter wraps |
| `ShowControl.EmittedValue` | show_control.cpp:252-299 | the maximum of the values contributed, or the last contribution of the highest-ranked cue, by kind of key |
| `BeatClock.Clock.constructor` | beat_clock.cpp:15-27 | the initial model |
| `BeatClock.Clock.OnBeat` | beat_clock.cpp:38-125 | the whole new state for an accepted, rejected, first, frozen or later beat, as a function of the old one (what it does to the tempo: BeatTracking) |
| `BeatClock.Clock.Correct` | beat_clock.cpp:72-125 | the correction of a later beat as that function |
| `BeatClock.Clock.OnTempo` | beat_clock.cpp:127-137 | period taken over if within bounds, anchor untouched |
| `BeatClock.Clock.Start` | beat_clock.cpp:139-150 | re-anchored at zero and running |
| `BeatClock.Clock.Stop` | beat_clock.cpp:152-156 | frozen at the last beat reported |
| `BeatClock.Clock.Tap` | beat_clock.cpp:158-198 | tap window, outlier rejection and the beat it becomes |
| `BeatClock.Clock.BeatNumber` | beat_clock.cpp:200-204 | the model read at that time, or the frozen beat |
| `BeatClock.Clock.BeatPhase` | beat_clock.cpp:206-210 | the fractional part of the beat number, in [0,1) |
| `BeatClock.Clock.BarPhase` | beat_clock.cpp:212-218 | the position in the four-beat bar from its anchor, in [0,1) |
| `BeatClock.Clock.Bpm` | beat_clock.cpp:220-223 | zero exactly when unknown, else within 40 to 220 and the inverse of the period |
| `BeatClock.Clock.Locked` | beat_clock.cpp:225-230 | running at a known tempo, with the last beat taken at most eight periods before the latest time seen |
| `BeatTracking.TakenExactly` | beat_clock.cpp:38-125 | a later beat is taken exactly when the period it tells of, 60000000/bpm or the interval shared among the beats that fit it, is within 40 to 220 BPM and, once a tempo is known, within a factor of two; taken, it steers the period to 0.85 period + 0.15 target + 0.1 error within those bounds, keeps or makes up 15% of the phase and counts the bar; else only the time is noted |
| `BeatTracking.OnPhaseBeat` | beat_clock.cpp:92-101 | taken where the clock predicts a whole beat it leaves 85% of the distance to the period told of, reported or measured |
| `BeatTracking.AheadIsSlower` | beat_clock.cpp:92-101 | of two corrections towards one target the one further ahead gives the longer period, strictly unless both are at the bounds |
| `BeatTracking.OffTheBeat` | beat_clock.cpp:92-101 | at any phase a beat leaves at most 85% of the distance and a twentieth of the period |
| `BeatTracking.ReportsConverge` | beat_clock.cpp:38-137 | n reports of one tempo, tempo messages or on-phase beats in any order, leave 0.85^n of the distance if it is within a factor of two of the known one, and otherwise never change the period |
| `BeatTracking.FirstBeatTaken` | beat_clock.cpp:46-66 | a first beat is beat zero at its time, at the tempo it reports if any |
| `BeatTracking.FreshClock` | beat_clock.cpp:15-27 | a fresh clock runs at 120 BPM from beat 0 at time 0 without knowing a tempo |
| `BeatTracking.OneBeatAPeriod` | beat_clock.cpp:29-31 | a running clock counts one beat a period from its anchor |
| `BeatTracking.StartsAtZero` | beat_clock.cpp:139-150 | start counts from beat 0 at that time, at the tempo there was |
| `BeatTracking.StopHolds` | beat_clock.cpp:152-156 | a stopped clock answers at all times what it would have answered at the latest time it had seen |
| `BeatTracking.BarPositionAtBeat` | beat_clock.cpp:118-125 | right after a beat said to be number b of its bar the bar position is b-1, after a downbeat 0 |
| `BeatTracking.LockedForEightBeats` | beat_clock.cpp:225-230 | after a beat was taken the clock is locked at exactly the times up to eight of its new periods later |
| `BeatTracking.TapsHeld` | beat_clock.cpp:158-163 | a tap is held with the three before it |
| `BeatTracking.SortedAscending` | beat_clock.cpp:175-178 | the intervals the median is taken from are in ascending order |
| `BeatTracking.MeanOfNear` | beat_clock.cpp:180-192 | intervals all within 30% of their median count for their mean |
| `BeatTracking.OutlierDropped` | beat_clock.cpp:180-192 | of two equal intervals and one further off only the equal ones count |
| `BeatTracking.EvenTaps` | beat_clock.cpp:158-198 | evenly spaced taps become a beat reporting 60000000 over their spacing |
| `BeatModel.CorrectionIsForward` | beat_clock.cpp:85-125 | an accepted later beat keeps the period in bounds, never moves the phase back and moves it forward by at most 0.075 beat |
| `BeatModel.NextSound` | beat_clock.cpp:38-198 | in every run at all the period stays within the 40 to 220 BPM bounds |
| `BeatModel.NextKeepsValid` | beat_clock.cpp:38-204 | the clock invariant is kept by every operation with nondecreasing timestamps |
| `BeatModel.StepsBackExactly` | beat_clock.cpp:38-204 | for every call in every state reachable in order: it takes the beat number back if and only if the stated condition on the state before it holds |
| `BeatModel.MonotoneIff` | beat_clock.cpp:38-204 | over every run in order beat numbers never decrease if and only if no call of the run slips |
| `BeatModel.ReadingsNeverDecrease` | beat_clock.cpp:38-204 | over every run in order from a fresh clock on beat numbers never decrease, unless a first beat, start or onTempo re-bases the model |
| `BeatModel.BeatsNeverDecrease` | beat_clock.cpp:38-204 | from the first accepted beat on, over every run of beats, taps, stops and queries with nondecreasing timestamps, accepted or rejected, running or frozen, beat numbers never decrease |
| `BeatModel.FirstBeatStarts` | beat_clock.cpp:46-66 | an accepted first beat reads 0 and leaves the clock in a state from which the previous row applies |
| `BeatModel.OnTempoStepsBack` | beat_clock.cpp:127-137 | onTempo takes the beat number back exactly when a running clock accepts a slower tempo with its anchor in the past; a stopped clock's number stays |
| `BeatModel.StartStepsBack` | beat_clock.cpp:139-150 | start takes it back exactly when a running clock has left beat 0 or a stopped one is frozen beyond it |
| `BeatModel.BeatStepsBack` | beat_clock.cpp:38-125 | a beat takes it back exactly when it is the first and finds the clock beyond beat 0, or resumes a stopped clock whose model fell behind the frozen beat |
| `BeatModel.ResumeSlipsBefore` | beat_clock.cpp:105-120 | the resuming case in event time: exactly before a time computed from the state |
| `BeatModel.OnTempoExample` | beat_clock.cpp:127-137 | a fresh clock reading 2 at one second reads less after onTempo(100) there |
| `BeatModel.StartExample` | beat_clock.cpp:139-150 | a fresh clock reading 2 at one second reads 0 after start there |
| `BeatModel.ResumeExample` | beat_clock.cpp:120 | a clock stopped at 2.6 and told a tempo of 40 resumes at 2 with the next beat |
| `BeatModel.FirstBeatExample` | beat_clock.cpp:46-66 | a fresh clock reading 2 at one second reads 0 after its first beat there |
| `BeatModel.TapAverageNearMedian` | beat_clock.cpp:158-198 | the tapped interval is an average of intervals within 30% of the median, which always exist |
| `Crc32.ShiftInjective` | device_config.cpp:32-34 | one shift step of the register loses no information |
| `Crc32.ShiftLinear` | device_config.cpp:32-34 | the shift step is linear over exclusive or |
| `Crc32.BurstChangesRegister` | device_config.cpp:28-38 | messages that differ only within four consecutive bytes leave different registers |
| `Crc32.ResidueIffMatching` | device_config.cpp:28-38 | the four bytes after any data leave the residue 0xDEBB20E3 exactly when they are its CRC, low byte first |
| `Crc32.CheckValue` | device_config.cpp:28-38 | the CRC of the nine bytes "123456789" is 0xCBF43926, the check value of the IEEE CRC-32 |
| `DeviceConfig.AcceptedResidue` | device_config.cpp:58-60 | the 150 bytes of every accepted blob leave 0xDEBB20E3 in the register |
| `Crc32.Compute` | device_config.cpp:28-38 | the bit loop computes the CRC as a fold over the bytes |
| `DeviceConfig.Encode` | device_config_encoder.cpp:29-66 | the 150-byte blob, field by field, with its CRC |
| `DeviceConfig.Parse` | device_config.cpp:40-91 | exactly the blobs that are long enough and have the right magic, version and CRC are accepted, and what they decode to |
| `DeviceConfig.BurstRejected` | device_config.h:117-119 | any change confined to four consecutive bytes of an accepted blob, CRC field included, is rejected |
| `DeviceConfig.SingleByteRejected` | device_config.h:117-119 | changing any one byte of an accepted blob makes it rejected |
| `DeviceConfig.RoundTrip` | device_config_encoder.cpp:29-66 | every encodable configuration is accepted and decodes to the same flags, numbers and C strings, and the same record if the string tails are zero |
| `BlobLayouts.ConfigLayout` | device_config_encoder.cpp:29-68 | which of the 150 bytes hold what: "CFG1", version 2, one bit per flag, both texts zero-padded, address and port low byte first, the four pins, and the CRC of the 146 bytes before it |
| `BlobLayouts.ReadFlags` | device_config.cpp:50-70 | an accepted blob is of version 1 or 2, its flags are bits 0, 1 and 2, and version 1 never asks for sync broadcast |
| `FixtureProfile.ApplyCapability` | fixture_profile.cpp:158-191 | the bytes of the first channel of the capability show the level, 16 bits high byte first or 8 bits to the nearest, from the far end when inverted, every other byte stays, and without such a channel all do |
| `FixtureProfile.ApplyDefaults` | fixture_profile.cpp:193-203 | every channel's default, nothing else in the buffer |
| `FixtureProfile.ApplyRangeByName` | fixture_profile.cpp:243-258 | true exactly when some range of that name is on the capability's first channel; one byte written |
| `FixtureProfile.ApplyRangeByIndex` | fixture_profile.cpp:260-266 | the same by position among the channel's ranges |
| `FixtureProfile.RangeValue` | fixture_profile.cpp:231-239 | the value lies inside the range; a discrete range gives its centre |
| `FixtureProfile.NamedRangeShown` | fixture_profile.cpp:243-258 | selecting by name shows the first range so named on the first channel of the capability, its own ends and kind deciding the byte, and changes no other byte |
| `FixtureProfile.ListedRangeShown` | fixture_profile.cpp:218-266 | selecting by position shows that one of the channel's own ranges in order, or changes nothing beyond the last |
| `FixtureProfile.CapWithin` | fixture_profile.cpp:158-191 | a parsed profile writes only inside its footprint |
| `FixtureProfile.DefaultsWithin` | fixture_profile.cpp:193-203 | its defaults too |
| `FixtureProfile.RangesWithin` | fixture_profile.cpp:243-266 | its range selections too |
| `Render.FixturesDoNotInterfere` | show.cpp:111-160 | with disjoint footprints each byte of a fixture equals what rendering that fixture alone on its own intents gives |
| `Render.OutsideFootprints` | show.cpp:111-160 | bytes outside all footprints are zero in fixture universes and unchanged elsewhere |
| `Render.RawUniversesUntouched` | show.cpp:111-160 | raw universes come through a frame unchanged |
| `FrameShows.FrameShowsIntent` | show.cpp:111-160 | after a frame of a checked show each fixture's channel shows the last linear intent for its capability, whatever else the frame holds |
| `FrameShows.FrameShowsAim` | show.cpp:133-144 | without one a head's pan and tilt show what its last aim asks of each |
| `FrameShows.FrameShowsDefault` | show.cpp:119-124 | with neither a channel holds its default, the fine byte zero |
| `FrameShows.FrameShowsNamed` | show.cpp:146-160 | after a last intent that names a range it shows the first range so named |
| `FrameShows.FrameShowsListed` | show.cpp:146-160 | after one that selects by position it shows that range of the channel |
| `Show.Show.ConfigureUniverse` | show.cpp:44-49 | one universe's mode, out-of-range ones ignored |
| `Show.Show.Patch` | show.cpp:51-63 | the new fixture with the next id, or the full marker |
| `Show.Show.FindFixture` | show.cpp:75-80 | the first fixture with that id |
| `Show.Show.WriteRawUniverse` | show.cpp:93-99 | a prefix of a raw universe replaced, all else unchanged |
| `Show.Show.RenderCompute` | show.cpp:111-160 | the buffers become the frame of defaults, aims and intents in that order (what each byte of it shows: FrameShows) |
| `Wiring.WireThenUnwire` | pixel_matrix.cpp:82-96 | every pixel has its own place on the string, in all four serpentine and vertical combinations |
| `Wiring.UnwireThenWire` | pixel_matrix.cpp:82-96 | every place on the string has its pixel |
| `Wiring.SpanHasBuffers` | pixel_matrix.cpp:44-50 | every channel of the span has a buffer and the index fits 16 bits |
| `Wiring.LastChannelLost` | pixel_matrix.cpp:44-50 | a span of more than 255 universes has no buffer for its last channel |
| `PixelMatrix.FrameIsCell` | pixel_matrix.cpp:79-133 | up to 65536 pixels each channel of the string is written once and holds its pixel's component, all else zero |
| `PixelMatrix.PacksIffFits` | pixel_matrix.cpp:31-50 | every channel has a buffer and stands in its place, for every canvas and brightness, if and only if the matrix has no pixels, or starts in universe 0 and spans at most 255 universes |
| `PixelMatrix.Matrix.BuffersPack` | pixel_matrix.cpp:63-135 | after a frame the buffers hold the string in place exactly when the canvas packs |
| `PixelMatrix.Matrix.Render` | pixel_matrix.cpp:63-135 | for matrices of any size every buffer byte is the component last placed there in loop order by its 16-bit wiring index, or zero |
| `PixelMatrix.Matrix.ChannelsInPlace` | pixel_matrix.cpp:63-135 | starting in universe 0, the 3*W*H consecutive channels are in colour order across universe boundaries and all other bytes are zero |
| `MatrixColours.HueShown` | pixel_matrix.cpp:98-119 | component k of a pixel is the byte nearest to 255 times the brightness times the hue named by letter k of the colour order, held within a byte |
| `MatrixColours.FrameShowsPixels` | pixel_matrix.cpp:63-135 | after a frame of a matrix that starts in universe 0 and fits, every component of every pixel stands at startChannel + 3 * wire index + k of the buffers and shows that hue |
| `MatrixColours.StartsAtCorner` | pixel_matrix.cpp:82-96 | the string starts with the first column from the top or the first row from the left |
| `MatrixColours.RunByRun` | pixel_matrix.cpp:82-96 | it takes whole columns or whole rows one after the other |
| `MatrixColours.SerpentineSteps` | pixel_matrix.cpp:82-96 | serpentine wiring goes from neighbour to neighbour all along |
| `MatrixColours.StraightRuns` | pixel_matrix.cpp:82-96 | other wiring starts every run at the same end |
| `MatrixColours.LastUniverseUsed` | pixel_matrix.cpp:44-50 | the span's last channel lies in the last of the universes counted |
| `ProfileFormat.Encode` | profile_encoder.cpp:32-113 | the blob, version 1 exactly without ranges |
| `ProfileFormat.Parse` | fixture_profile.cpp:38-143 | exactly the well-formed blobs are accepted, and what they decode to |
| `ProfileFormat.RoundTrip` | profile_encoder.cpp:32-113 | encoding is accepted exactly when the builder is within the parser's limits, and reads back as described |
| `FormatLimits.ProfileAccepted` | fixture_profile.cpp:38-143 | an encoded profile whose counts fit the header parses exactly with at most 24 channels, 192 ranges and 2048 bytes of names, every offset inside the footprint, every range on a channel and in order |
| `BlobLayouts.ProfileHeader` | profile_encoder.cpp:32-72 | magic, version by whether there are ranges, footprint and counts at their places |
| `BlobLayouts.ProfileCap` | profile_encoder.cpp:32-102 | which five bytes hold channel i and in what order |
| `BlobLayouts.ProfileRange` | profile_encoder.cpp:32-102 | which seven bytes hold function range i, the offset among them leading to its NUL-terminated name in the name table |
| `ProfileFormat.DeclaredNameSelects` | fixture_profile.cpp:243-258 | after the round trip a declared name writes one byte, inside the first range so named on that capability's first channel |
| `Mdef.FindLedRange` | mdef.cpp:230-244 | the first LED range of that message type covering the address |
| `Mdef.LedColorValueByName` | mdef.cpp:282-294 | the loop is the first-match search of the palette |
| `Mdef.SearchFindsFirst` | mdef.cpp:282-294 | that search yields the value of the first entry so named, and nothing exactly when there is none |
| `ControllerFormat.RoundTrip` | controller_encoder.cpp:5-171 | for versions 1, 2 and 3, what encodes without error parses exactly when its values are allowed, and reads back as described, every NUL-free fader and colour name being the string its table entry leads to |
| `FormatLimits.ControllerAccepted` | mdef.cpp:27-228 | within the encoder's limits, in numbers, a controller parses exactly when addresses and colour values are below 128 and in order, modes and types known and channels in pairs within sixteen wherever the version carries them |
| `ControllerLayout.ControllerHeader` | controller_encoder.cpp:51-76 | magic, the rule for the version, channel and counts at their places |
| `ControllerLayout.PadInBlob` | controller_encoder.cpp:78-85 | which bytes hold pad range i in each version |
| `ControllerLayout.FaderInBlob` | controller_encoder.cpp:87-112 | which hold fader range i, its offset leading to its name |
| `ControllerLayout.EncoderInBlob` | controller_encoder.cpp:114-118 | which hold encoder range i |
| `ControllerLayout.LedInBlob` | controller_encoder.cpp:120-137 | which hold LED range i, with the number of colours before its own and of its own |
| `ControllerLayout.ColorInBlob` | controller_encoder.cpp:139-151 | which hold colour j, its offset leading to its name |
| `ControllerFormat.ChannelsSurvive` | controller_encoder.cpp:51-56 | with consistent channels the chosen version loses none of them |
| `ControllerFormat.PaletteLookup` | mdef.cpp:282-294 | after the round trip a colour lookup finds the first colour declared under that name in that LED's own palette, and nothing else |
| `ControllerFormat.InitsReadBack` | mdef.cpp:90-104 | the version 3 init messages read back, whatever follows them |
| `ControllerFormat.ColorNameInBlob` | controller_encoder.cpp:139-145 | each colour's offset finds its NUL-terminated name in the shared blob |
| `ControllerFormat.DescribedWellformed` | mdef.cpp:113-216 | the parser's checks on an encoded builder amount to its values being allowed |
| `ControllerCodec.Encode` | controller_encoder.cpp:5-171 | the blob, or an error exactly beyond the limits |
| `ControllerCodec.Parse` | mdef.cpp:27-228 | exactly the well-formed blobs are accepted, and what they decode to |
| `Reading.ManyReadBack` | show_bundle.cpp:135-298 | a table of records reads back as its entries if each record does |
| `Reading.ManyLocal` | show_bundle.cpp:9-66 | what a table reads from a prefix it reads just so from the whole string |
| `ShowFormat.TablesLoad` | show_bundle.cpp:68-301 | a header and the tables it counts load as their contents, or not at all if an embedded blob does not parse |
| `ShowFormat.LoadLocal` | show_bundle.cpp:68-301 | if a prefix loads, the whole string loads as the same show and ends inside the prefix |
| `ShowFormat.StrictPrefixRejected` | show_bundle.cpp:68-301 | a string its tables fill exactly has no loadable strict prefix |
| `LoadedShows.LoadedIsSound` | show_bundle.cpp:68-301 | whatever byte string loads, the show has as many of everything as its header says, at most eight universes of known transports, every fixture and matrix in one of eight universes, and only well-formed profiles and controllers |
| `ShowRoundTrip.RoundTrip` | provision.cpp:1214-1374 | for every patch within the format's limits and each of versions 1 to 4 the bundle loads exactly when its profiles and controllers parse, then as the patch describes, consumed to the last byte |
| `ShowRoundTrip.PrefixesRejected` | provision.cpp:1214-1374 | every strict prefix of a bundle is rejected |
| `ShowRoundTrip.DestinationsSurvive` | provision.cpp:1299-1309 | in every version an Art-Net universe loads with the address and wire universe the patch gave it |
| `ShowRoundTrip.IndexedProfile` | provision.cpp:1214-1221 | the table entry a fixture's index selects is its own profile despite sharing |
| `ShowRoundTrip.FixtureReadsBack` | show_bundle.cpp:158-217 | a fixture record reads back as the record it was written from (field by field: the next rows) |
| `ShowRoundTrip.RecordLayout` | provision.cpp:1319-1341 | which of the 48 bytes of a fixture record hold which field: position, rotation, pan and tilt range, pan and tilt centre each at its own offset |
| `ShowRoundTrip.FixtureFieldsSurvive` | provision.cpp:1319-1341 | for every patch each field of loaded fixture i, head fields by name, is the patch's field of that name or that of its definition |
| `ShowRoundTrip.HeaderLayout` | provision.cpp:1247-1295 | which bytes of a bundle hold magic, version and counts |
| `ShowRoundTrip.VersionRule` | provision.cpp:1223-1303 | version 4 with an explicit route, else 3 with WLED targets, else 2 with controllers, else 1; the universe count; an unmentioned universe is unused |
| `ShowRoundTrip.TablesInOrder` | provision.cpp:1247-1370 | header, universes, profiles, fixtures, matrices, controllers, WLED targets, with nothing between |
| `ShowRoundTrip.UniverseLayout` | provision.cpp:1297-1309 | which bytes of a universe record hold its output, address and wire universe |
| `ShowRoundTrip.MatrixLayout` | provision.cpp:1343-1352 | which bytes of a matrix record hold which field |
| `ShowRoundTrip.WledLayout` | provision.cpp:1362-1370 | which bytes of a WLED record hold which field |
| `ShowRoundTrip.MatrixWrites` | show_bundle.cpp:219-252 | a matrix record reads back wherever it stands |
| `ShowRoundTrip.WledReadsBack` | show_bundle.cpp:274-298 | a WLED record reads back |
| `ShowLoader.BundleReader.ReadU16` | show_bundle.cpp:20-26 | a bounded read that moves the position, or none |
| `ShowLoader.BundleReader.ReadBytes` | show_bundle.cpp:49-54 | a bounded read of a run of bytes |
| `ShowLoader.ReadFixture` | show_bundle.cpp:158-217 | the field reads amount to the record of the format, with its index and universe checks |
| `ShowLoader.LoadShow` | show_bundle.cpp:68-301 | the loader accepts exactly what the format does and fills the show with it |
| `ShowCompiler.BuildProfiles` | provision.cpp:1214-1221 | one blob per definition file in order of first use, and each fixture's index |
| `ShowCompiler.WriteBundle` | provision.cpp:1223-1374 | the written bytes are the bundle of the format |
| `ShowCompiler.CompiledShowLoads` | provision.cpp:1214-1374 | definitions within their limits always give a bundle that loads, each fixture with its own definition's profile and each controller as declared |
| `Collisions.SplitSpan` | provision.cpp:1056-1070 | the loop ends and yields the pieces of the span |
| `Collisions.PiecesPartition` | provision.cpp:1056-1070 | the pieces cover exactly the matrix's channels in universes up to 255 |
| `Collisions.PiecesApart` | provision.cpp:1056-1070 | at most one piece per universe, in order, each a sound address range |
| `Collisions.FindCollisions` | provision.cpp:1161-1198 | every colliding pair is reported, and nothing else |
| `Collisions.ReportIsIntersection` | provision.cpp:1174-1176 | a reported range is the nonempty intersection of the two ranges |
| `Collisions.NoCollisionIffDisjoint` | provision.cpp:1156-1198 | nothing is reported exactly when no channel is driven by two patched items |
| `Collisions.CheckAddresses` | provision.cpp:1156-1198 | the same of the check from the patched items on |
| `Patching.CheckedShowRenders` | provision.cpp:1156-1198 | a show whose address check reports nothing loads with fixtures that fit their universes and have disjoint footprints, so none interferes with another in a frame |
| `CheckedChannels.FixtureChannels` | provision.cpp:919 | the channels the check counts for a fixture are exactly the bytes of the footprint its writes stay in |
| `CheckedChannels.MatrixCounts` | provision.cpp:1056-1070 | every channel the renderer places a pixel's component in counts for the matrix, as far as universes go |
| `CheckedChannels.CountedIsPixel` | provision.cpp:1056-1070 | and every channel counted is one of those |
| `LedModel.FlushCount` | led_feedback.cpp:105-114 | a pump sends min(pending, whole tokens) values, each costing a token and settling one LED |
| `LedModel.WindowBound` | led_feedback.cpp:90-115 | in every run and every window [t1,t2] at most rate*(1 + t2 - t1) messages are sent |
| `LedModel.NeverSentTwice` | led_feedback.cpp:105-114 | in every run no tracked LED is sent the value it was sent last |
| `LedModel.PumpProgress` | led_feedback.cpp:90-115 | with a rate of at least 1, each pump 1/rate after the last lowers a nonzero pending count; at zero nothing is sent |
| `LedModel.SlowRateIsSilent` | led_feedback.cpp:90-115 | with a rate below 1 nothing is ever sent |
| `LedModel.WireNeverRepeats` | led_feedback.cpp:75-88 | where each tracked LED has a status and address of its own, no value is sent twice in a row there |
| `LedModel.SharedWireRepeats` | led_feedback.cpp:30-39 | where two share one, a value is |
| `LedFeedback.StaticShowIsSilent` | led_feedback.cpp:117-124 | once nothing is pending, refreshing with the same active cues sends nothing |
| `LedFeedback.AutoEventsDistinct` | led_feedback.cpp:58-69 | automatic bindings stage each LED at most once per refresh |
| `LedFeedback.Engine.ApplyDesired` | led_feedback.cpp:19-43 | range lookup, palette lookup, channel rule and the LED state they stage |
| `LedFeedback.Engine.StateFor` | led_feedback.cpp:9-17 | the state of that address and channel, created on first use |
| `LedFeedback.Engine.SetAuto` | led_feedback.cpp:58-69 | the binding of that address and channel replaced in place or appended |
| `LedFeedback.Engine.Refill` | led_feedback.cpp:91-103 | the tokens credited up to now |
| `LedFeedback.Engine.Pump` | led_feedback.cpp:90-115 | the whole new state and output of a pump |
| `LedFeedback.Engine.Refresh` | led_feedback.cpp:117-124 | every binding staged in order, then a pump |
| `LedFeedback.Engine.Pendings` | led_feedback.cpp:126-132 | the number of LEDs whose desired value is not the last sent |
| `LedWire.FlushTells` | led_feedback.cpp:75-115 | every message of a pump is a Note On or Control Change, by the LED's kind, on its own channel or else the controller's, with the address and wanted value of a pending LED |
| `LedWire.CreditGained` | led_feedback.cpp:91-103 | while the bucket is not full it gains rate tokens a second |
| `LedWire.StagedMeans` | led_feedback.cpp:19-43 | staging uses the first note range that has the address, else the first CC range, the first colour so named in its own palette, and the channel only where the range has channels |
| `LedWire.RefreshShows` | led_feedback.cpp:117-124 | after a refresh that leaves nothing pending an LED bound to a cue was last sent its active colour's value if the cue is active and else its inactive one's |
| `ArtNet.DmxFields` | artnet_router.cpp:4-31 | a receiver reads back id, opcode, sequence, 15-bit port address, even length and data |
| `ArtNet.SequenceNumbers` | artnet_router.cpp:74-100 | over every run the n-th packet for a universe carries ((n-1) mod 255)+1, whatever was dropped or rerouted |
| `ArtNet.TargetsExact` | artnet_router.cpp:114-135 | the sync targets are the current destinations of the active universes, once each |
| `ArtNet.FrameSynchronised` | artnet_router.cpp:102-141 | in unicast mode with a stable table one ArtSync goes to each distinct address that got data in the frame, and none elsewhere |
| `ArtNet.FramesStartInactive` | artnet_router.cpp:136 | after a frame's end and any route changes since, no universe is active |
| `ArtNet.SynchronisedIffSameAddresses` | artnet_router.cpp:114-135 | whatever routes change between a frame's last send and its end, ArtSyncs go to exactly the addresses that got data if and only if the active universes still resolve to the same addresses |
| `ArtNet.InterleavedSynchronisedIff` | artnet_router.cpp:74-141 | for routes and sends of a frame in any order, the exact condition on them under which ArtSyncs go to exactly the addresses that got data |
| `ArtNet.RetargetedFrame` | artnet_router.cpp:114-135 | an instance: one route changed between send and frameEnd misdirects the ArtSync |
| `ArtNetRouter.BuildArtDmxPacket` | artnet_router.cpp:4-31 | the packet written into the buffer, and its length |
| `ArtNetRouter.Routing.SetDest` | artnet_router.cpp:54-59 | one route replaced, out-of-range universes ignored |
| `ArtNetRouter.Routing.Send` | artnet_router.cpp:74-100 | the whole new state: a drop, or a packet and an advanced sequence number |
| `ArtNetRouter.Routing.EndFrame` | artnet_router.cpp:102-141 | the syncs sent and the activity cleared, or one broadcast |
| `ArtNetWire.DmxOnTheWire` | artnet_router.cpp:4-31 | the packet byte by byte: "Art-Net", opcode 0x5000, version 14, sequence, port address, even length high byte first, data, pad |
| `ArtNetWire.SyncOnTheWire` | artnet_router.cpp:33-44 | the 14 bytes of an ArtSync |
| `ArtNetWire.SendOnTheWire` | artnet_router.cpp:74-100 | data goes to the universe's own address or else the fallback, under its sequence number; without either nothing goes out and the drop is counted |
| `ArtNetWire.FrameEndOnTheWire` | artnet_router.cpp:102-141 | each sync goes to 255.255.255.255 when configured, else to the address of an active universe |
| `ArtNetWire.DropsCounted` | artnet_router.cpp:85-94 | over every run the counter holds the number of sends that had no route, in 32 bits |
| `LiveModel.NextKeepsParity` | live_control.cpp:174-224 | every event keeps latch and press count in step |
| `LiveModel.ToggleLatch` | live_control.cpp:174-224 | over every run a toggle's latch is the parity of the presses dispatched to it since it was bound, and nothing else is ever latched |
| `LiveModel.PressedTwice` | live_control.cpp:174-224 | two presses restore the state and give different commands |
| `LiveCommands.IdOfEvent` | live_control.cpp:153-167 | an event reaches bindings of its own id, and of 256 times its channel plus it exactly where the controller tells channels apart on that pad or fader |
| `LiveCommands.ToggledCue` | live_control.cpp:192-202 | an unlatched toggle's press starts its cue at that time and latches, a latched one's releases the cue and unlatches; no other cue is touched |
| `LiveCommands.ToggledScene` | live_control.cpp:209-219 | the same for every cue of a scene |
| `LiveCommands.FlashedCue` | live_control.cpp:185-191 | a flash runs its cue while held |
| `LiveCommands.FlashedScene` | live_control.cpp:203-208 | and a scene button its scene |
| `LiveCommands.ProgramSelects` | live_control.cpp:179-182 | a program change starts the scene it numbers, once programs select scenes |
| `LiveCommands.LevelSet` | live_control.cpp:226-244 | a continuous control sets the master, its cue's weight at every later time, or its parameter to the value held within [0,1], and nothing else |
| `LiveCommands.Unmoved` | live_control.cpp:183-224 | a toggle let go, a button bound to a level and an event without a binding do nothing |
| `LiveControl.Control.InternParam` | live_control.cpp:123-129 | the first slot of that name, created once |
| `LiveControl.Control.FindBinding` | live_control.cpp:144-151 | the first binding of that type and id |
| `LiveControl.Control.HandleEvent` | live_control.cpp:174-224 | the new bindings and levels, and what the show's cues become |
| `LiveControl.Control.HandleContinuous` | live_control.cpp:226-244 | the clamped value goes to the master, a cue level or a parameter |
| `ControlQueue.Ring.Push` | control_queue.cpp:19-30 | appended, or rejected and counted when full |
| `ControlQueue.Ring.Pop` | control_queue.cpp:32-39 | the oldest event removed, or none |
| `ControlQueue.PumpControlEvents` | control_queue.cpp:53-62 | min(maxPerFrame, queued) events handled oldest first, the rest still queued |
| `ControlQueue.NothingLost` | control_queue.cpp:19-62 | for every interleaving of pushes and pumps, handled then queued events are the accepted pushes in order, the refused pushes number dropped, the queue keeps to its capacity and no pump exceeds its limit |
| `Osc.ReadOscString` | osc_parser.cpp:14-33 | length and end of a padded string, or none for a missing terminator, cut or nonzero padding |
| `Osc.ParseOsc` | osc_parser.cpp:37-88 | the event of the first binding of the message's address, or none |
| `Osc.ParsePacketRec` | osc_parser.cpp:99-128 | on arbitrary bytes the walk ends, stays in bounds and dispatches exactly the specified events |
| `Osc.WalkTree` | osc_parser.cpp:99-128 | an encoded tree, its leaves any bytes that open no bundle, dispatches its leaves' own events at any depth, bundles nested eight deep or more adding nothing |
| `Osc.TreeDispatches` | osc_parser.cpp:99-128 | every tree nested at most eight deep dispatches exactly what its leaves dispatch on their own, in order; unmapped, malformed and other leaves are skipped without their neighbours |
| `Osc.AnyPacketDispatches` | osc_parser.cpp:99-128 | every byte string is the encoding of such a tree, so this is said of every packet |
| `Osc.MessageReadsBack` | osc_parser.cpp:37-88 | a leaf that is a message with one float or integer argument dispatches its event |
| `Osc.OtherArguments` | osc_parser.cpp:37-58 | of messages with any address, type tags and arguments exactly those with a slash and one f or i argument are taken |
| `ControlWire.MessageOnTheWire` | osc_parser.cpp:37-66 | the bytes of a message: address, ",f" or ",i" and argument at multiples of four, zeros between, the argument high byte first |
| `ControlWire.MessageMakes` | osc_parser.cpp:37-88 | such a packet makes the event of the first binding of its address: pressed by any number but zero for a button, the number for any other control |
| `ControlWire.CueOne` | osc_parser.cpp:37-66 | an instance: the sixteen bytes of "/cue/1" with 1.0 |
| `ControlWire.BundleOpens` | osc_parser.cpp:94-97 | a bundle opens with "#bundle", a NUL and its time |
| `Json.RoundTrip` | web_protocol.cpp:84-154 | every byte string printed as a literal decodes to itself, wherever it stands |
| `Json.ScriptRoundTrip` | web_protocol.cpp:703-739 | the source literal of a printed message decodes to exactly the source |
| `JsonText.NameRoundTrip` | web_protocol.cpp:369-389 | and the name literal to exactly the name, after the message's opening |
| `JsonText.Utf8Encodes` | web_protocol.cpp:84-154 | a code point is written as its shortest UTF-8 sequence |
| `JsonText.UnicodeDecodes` | web_protocol.cpp:84-154 | a \u escape with four hex digits of either case decodes to the UTF-8 of the number they write |
| `JsonText.SimpleDecodes` | web_protocol.cpp:84-154 | of the other escapes exactly the eight of RFC 8259 are understood, each as its byte |
| `JsonText.PlainDecodes` | web_protocol.cpp:84-154 | any other byte stands for itself, and control characters are refused |
| `Json.BuildScriptJson` | web_protocol.cpp:703-739 | the full length is returned and the buffer holds a NUL-terminated prefix of the full output |
| `Json.AppendRaw` | web_protocol.cpp:350-358 | the buffer still shows the output so far, as far as it fits |
| `Json.Parser.ParseStringEscaped` | web_protocol.cpp:84-154 | the decoded length and bytes, or a refusal for a malformed literal or one too long for the buffer |
| `Json.OneCharacterLost` | web_protocol.cpp:149-152 | an instance: a one-character literal in a one-byte buffer is lost to the terminator |
| `Json.StoredWhole` | web_protocol.cpp:149-152 | the decoded bytes are whole exactly with a spare byte, or when the lost byte was a NUL |
| `MidiFraming.RealtimeTransparent` | midi_realtime.cpp:8-46 | deleting all bytes from 0xF8 up leaves the channel messages of any stream unchanged |
| `MidiFraming.StreamDelivered` | midi_realtime.cpp:8-46 | of every stream, real-time bytes anywhere in it and from any state, the bytes from each status byte to the next are delivered cut into threes |
| `MidiFraming.RunningStatusIff` | midi_realtime.cpp:37-46 | for every sequence of messages, with or without running status, what is delivered is what was sent if and only if all have three bytes and none omits its status |
| `MidiFraming.MessageDelivered` | midi_realtime.cpp:8-46 | from any state a status byte and two data bytes with real-time bytes among them yield exactly that message |
| `MidiFraming.BeatsAreClocksOver24` | midi_realtime.cpp:12-18 | over every stream the beat pulses since the last Start, Stop or Continue are the clocks since then over 24 |
| `ControlWire.ClockByte` | midi_realtime.cpp:12-18 | 0xF8 beats on every twenty-fourth |
| `ControlWire.TransportBytes` | midi_realtime.cpp:19-35 | 0xFA, 0xFB and 0xFC are told apart and start the count again, the other real-time bytes do nothing |
| `ControlWire.QuarterNote` | midi_realtime.cpp:12-18 | 24 clocks from the start make one beat, on the last of them |
| `MidiFraming.NoRunningStatus` | midi_realtime.cpp:37-46 | with no message in flight two data bytes make no message and a third makes one without a status byte, for all data |
| `MidiFraming.ProgramChangesMerged` | midi_realtime.cpp:37-46 | an instance: two Program Changes under running status come out as one three-byte message |
| `MidiFraming.MidiByteReader.Feed` | midi_realtime.cpp:8-46 | one byte's result, the new state, and the output buffer untouched unless a message is complete |

## Left out

- Device transports and tasks (UART, USB, UDP, DMX and flash access, the RTOS queues and the web server): hardware and operating-system calls; their mutexes appear as atomic steps.
- The Lua and Fennel scripting layer and its `glow` functions: they rest on the Lua C library.
- Aim geometry, Euler matrices, sine patterns and colour conversion: trigonometry and float detail.
- IEEE rounding: reals are used for fades, tokens and the tempo PLL.
- The text of `.show`, `.fdef` and `.mdef` files: tokenising and error messages; the compiler model starts from the parsed tables and the address checks from the patched items.
- The names inside collision reports and the unused-channel warnings: text for people.
- `skipValue`, number and key parsing and the other messages of web_protocol.cpp: they would add parsers of the same kind as the string parser modelled here.
- `parseMidi`, `decodeEncoderDelta` and `resolvePadXY`: tables and lookups that touch no state.
- `isActive` and the other plain queries: they return a field.
- The beat and script-submission queues: copies of the control event ring.
- The SysEx bytes of controller init messages: carried as opaque blobs.
- WLED effect maps, the status LED, the development server and logging: tables and input/output.
- ShowControl.FrameDetermined: holds for up to 2^32 activations, because the activation counter wraps there.
- Osc.ParsePacketRec: positions are unbounded integers, so a `size_t` narrower than the packet arithmetic is not modelled.
