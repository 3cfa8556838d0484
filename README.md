# midi-visualizer: a verified model of the ingest, tempo lookup and note tracker

midi-visualizer draws the notes of a Standard MIDI File as bars that scroll past a
cursor and plays a square-wave tone when a note starts. This project models the integer core
of the program in Dafny and proves properties about it:

- **`MIDI::from_midi`** (src/midi.rs). It turns the decoded file into one note list per
  track. It also builds a tempo map (tick → microseconds per quarter note) seeded by
  `MIDI::new` with the sentinel entry `i64::MIN → 500000`, and it records the song length.
- **`get_current_tick_and_mspq`** (src/midi.rs). A floor lookup in that tempo map, with
  the pre-roll clamp.
- **`Note::new` / `Note::tick`** (both src/midi.rs and src/main.rs). The per-note
  `pressed` / `pressed_ticks` state machine. The frame loop uses its one-shot test
  `tick(t) && pressed_ticks == 1` to start a sound.
- **`Track::from_midi`** (src/main.rs). The older ingest, which differs from the newer one:
  - one offset and one map of pressed keys are shared by all tracks;
  - every NoteOn records a press;
  - the first tempo wins, and a later tempo event ends its track's scan (`break`);
  - a tempo sentinel `0xffffffff` is replaced by the 500000 default.
- **The frame loop of `main`** (src/main.rs):
  - `curr_tick` starts at `-TICKSCENE_WIDTH` (−768);
  - it advances by `ticks_per_frame = tpqn / 16666 / 6` after every frame;
  - on each frame every note is ticked, and the keys whose one-shot test holds are collected.
- **`color_fromi32`** (src/myconfig.rs). It decodes `0x??RRGGBB` into an RGB colour.

## Layout

| file | module | contents |
|---|---|---|
| wrappers.dfy | `Wrappers` | `Option`, `Result` |
| midi_events.dfy | `MidiEvents` | What the `midly` decoder hands over, reduced to the event kinds the ingests distinguish. A file is a timing division plus tracks of `(delta, event)` pairs. Also the Rust integer bounds. |
| ordered_map.dfy | `OrderedMap` | The `BTreeMap<i64, u32>` as a strictly key-sorted sequence: `Get`, `Insert`, `Floor` (= `range(..=t).next_back()`), and repeated inserts. |
| notes.dfy | `Notes` | Note identity (`NoteData`), render state (`Activity`), the interval test and the `tick` state change. Replaying the state change over many calls and the rising-edge lemmas. |
| midi_file.dfy | `MidiFile` | src/midi.rs: the class `Note`, `New`, `GetCurrentTickAndMspq`, the event loop as functions (`Advance`, `ScanEvents`, `ScanTracks`) and as methods (`HandleEvent`, `ReadTrack`, `FromMidi`) proved equal to them. |
| midi_file_facts.dfy | `MidiFileFacts` | Properties of the src/midi.rs ingest and lookup. |
| visualizer.dfy | `Visualizer` | src/main.rs: its own class `Note`, `Track::from_midi` as functions (`LegacyStep`, `ScanTrack`, `ScanAll`) and as methods (`HandleEvent`, `ReadTrack`, `FromMidi`), `TicksPerFrame`, and the frame loop (`Frame`, `Run`). |
| visualizer_facts.dfy | `VisualizerFacts` | Properties of the older ingest and the frame loop. |
| config.dfy | `Config` | `color_fromi32` and its inverse. |

Each imperative operation of the source is a method whose `ensures` ties its result, or
the new state of the objects it changes, to a specification function. The lemmas state
what the source promises about those functions.

### Behaviour of the code worth knowing

Some of what the code does is easy to misread, or is unlikely to be what its authors meant.
The model follows the code, and these lemmas pin the behaviour down:

- **Re-pressing a held key.** The comment at src/midi.rs:221 says a note is closed by a
  velocity-0 NoteOn or by a NoteOff. A second NoteOn of a held key is neither: it overwrites
  the earlier press tick, so the earlier note is never emitted
  (`MidiFileFacts.RepressOverwritesEarlierPress`).
- **Zero-length notes.** A press and a release on the same tick give a note of duration 0
  (`MidiFileFacts.ZeroLengthNote`).
- **Zero timing values.** `ppq = 0` and a tempo of 0 are accepted at ingest, by the code
  and by the model.
- **Pre-roll tempo.** The floor lookup finds the `i64::MIN` sentinel for every negative
  tick, so pre-roll resolves to 500000 even when the file sets another tempo at tick 0
  (`MidiFileFacts.PreRollUsesDefaultTempo`). The lookup is therefore not idempotent in
  pre-roll: tick −1 resolves to `(0, 500000)`, but tick 0 then resolves to the file's tempo
  (`MidiFileFacts.ResolveNotIdempotentInPreRoll`).
- **Fast tempi freeze the scene.** `ticks_per_frame` is `floor(tpqn / 99996)`, so any tempo
  below 99996 microseconds per quarter note gives 0 and `curr_tick` stays at −768 on every
  frame: no note starting after tick −768 ever sounds
  (`VisualizerFacts.FastTempoFreezesScene`).
- **Key 127.** The tone table of src/audio.rs:26 is built for keys 0 to 126 only, so the
  `unwrap` at src/main.rs:96 panics on the first frame a key-127 note fires. The model
  reports key 127 in the fired list like any other key (`VisualizerFacts.TopKeyCanFire`).
- **No wall clock.** The only clock is the fixed-step `curr_tick` advance of
  src/main.rs:124; the tempo map of src/midi.rs is not consulted by the frame loop.

## Model

| member | source | states |
|---|---|---|
| `MidiFile.Note.constructor` | src/midi.rs:58-66 | A new note has the given start, duration and key, is not pressed and has 0 pressed ticks. |
| `MidiFile.Note.Tick` | src/midi.rs:68-80 | Returns whether `start <= t < start + duration`. Afterwards `pressed` is that answer, and `pressed_ticks` is the old count plus one if the note is active, else 0. |
| `MidiFile.New` | src/midi.rs:166-173 | The tempo map has exactly one entry, `i64::MIN → 500000`. Length is `i64::MAX`, ppq is the given one, and there are no tracks. |
| `MidiFile.PreRollFloor` | src/midi.rs:181 | `(-width) as i64` for an i32 width: `-width`, except that `i32::MIN` wraps to itself. |
| `MidiFile.GetCurrentTickAndMspq` | src/midi.rs:175-192 | For the greatest key `f <= t`, returns the value stored at `f`, with the tick reported as 0 when `f` lies below the pre-roll floor and as `f` otherwise. Returns `(0, 0)` when every key is above `t`. |
| `MidiFile.AsI32` | src/midi.rs:225 | The `as i32` cast: the result is in i32 range, congruent to the input modulo 2^32, and equal to the input when the input fits. |
| `MidiFile.Release` | src/midi.rs:222-240 | Closing a pressed key removes it from the pressed keys, leaves the offset, and appends one note of that key starting at its press tick and ending at the offset. The duration is an i32 congruent to `offset - start` modulo 2^32, which is what `as i32` gives, and it is exact when the difference fits. |
| `MidiFile.Advance` | src/midi.rs:204-246 | One event moves the offset by its delta and appends at most one note, never changing earlier ones. |
| `MidiFile.ScanEvents` | src/midi.rs:199-247 | A track's offset ends at the sum of its deltas, and notes are only appended. |
| `MidiFile.ScanTracks` | src/midi.rs:199-251 | The ingest yields exactly one note list per input track. |
| `MidiFile.PushNote` | src/midi.rs:235-239 | Appends one new idle note `(start, (offset - start) as i32, key)`, keeps the existing notes, and keeps the notes distinct objects. |
| `MidiFile.HandleEvent` | src/midi.rs:205-246 | The body of the event loop changes the tempo map, length, offset, pressed keys and notes exactly as `Advance` does. Existing notes are kept, and added notes are new and idle. The notes stay distinct objects. |
| `MidiFile.ReadTrack` | src/midi.rs:199-247 | The event loop of one track, started from offset 0 with no key pressed, produces the timeline and the notes of `ScanEvents`. Its notes are new, idle and distinct objects. |
| `MidiFile.AddTrack` | src/midi.rs:199-251 | One pass of the track loop: the track's notes and timeline are those of `ScanEvents` from a fresh track state, earlier tracks are kept, and no note object occurs twice over all tracks. |
| `MidiFile.FromMidi` | src/midi.rs:193-258 | Fails exactly for a non-metrical timing division. Otherwise ppq, tempo map, length and every track's notes are those of `ScanTracks`, all notes are new, idle and pairwise distinct objects over all tracks, and the no-tempo warning is raised iff the map has one entry. |
| `OrderedMap.GetSound` | src/midi.rs:144 | A lookup succeeds iff the key is in the map, and returns the value stored with that key. |
| `OrderedMap.LenIsKeyCount` | src/midi.rs:253 | The map's length is the number of its distinct keys. |
| `OrderedMap.Insert` | src/midi.rs:212 | After an insert the keys are the old keys plus the inserted one. |
| `OrderedMap.InsertGet` | src/midi.rs:212 | After an insert the inserted key maps to the new value, and every other key keeps its old value. |
| `OrderedMap.InsertLen` | src/midi.rs:212 | An insert grows the map by one exactly when the key was absent. |
| `OrderedMap.Floor` | src/midi.rs:178 | Returns an entry of the map whose key is the greatest key `<= t`. Returns none iff every key is above `t`. |
| `OrderedMap.InsertAllGet` | src/midi.rs:212 | After a series of inserts, a key holds the value of its last write, or its old value if it was never written. |
| `OrderedMap.InsertAllKeys` | src/midi.rs:212 | After a series of inserts the keys are the old keys plus the written ones. |
| `Notes.ReplayCounts` | src/midi.rs:68-80 | After any series of `tick` calls, `pressed` is the last answer. `pressed_ticks` is the length of the final run of active calls, or the starting count plus the number of calls if every call was active. |
| `Notes.TriggerIsRisingEdge` | src/main.rs:92-97 | From a count of 0, the one-shot test holds on a call iff that call is active and the previous call was not. |
| `Notes.NoRetriggerWhileHeld` | src/main.rs:92-97 | While a note stays active, the one-shot test does not hold again. |
| `MidiFileFacts.ScanEventsTempo` | src/midi.rs:211-213 | A track's scan performs exactly that track's tempo inserts, at their absolute ticks. |
| `MidiFileFacts.ScanTracksTempo` | src/midi.rs:199-213 | The ingest performs all tempo inserts, track after track, on the map it starts from. |
| `MidiFileFacts.ScanEventsLength` | src/midi.rs:214-216 | A track leaves the length at the tick of its last EndOfTrack, or unchanged if it has none. |
| `MidiFileFacts.TempoLastWriteWins` | src/midi.rs:211-213 | Every tick holds the value of the last tempo written there, across all tracks; unwritten ticks keep their `MIDI::new` value. |
| `MidiFileFacts.IngestKeepsSentinel` | src/midi.rs:169-213 | After the ingest the map still maps `i64::MIN` to 500000, and every other key is a tick `>= 0`. |
| `MidiFileFacts.NoTempoWarningIff` | src/midi.rs:253-255 | The map has one entry iff no track holds a tempo event. |
| `MidiFileFacts.LengthIsLastEndOfTrack` | src/midi.rs:214-216 | Length is the tick of the last EndOfTrack processed over all tracks, or `i64::MAX` if there is none. |
| `MidiFileFacts.LookupNeverMisses` | src/midi.rs:169-189 | With the `i64::MIN` key present, every i64 tick has a floor entry, so the `(0, 0)` fallback is unreachable. |
| `MidiFileFacts.ResolveIsStable` | src/midi.rs:175-192 | Looking up the tick a lookup returned (when it was not clamped) gives the same answer again. |
| `MidiFileFacts.MinWidthWraps` | src/midi.rs:181 | At width `i32::MIN` the floor wraps to `i32::MIN`, so a tempo change at tick 100 is reported at 100 rather than clamped to 0. |
| `MidiFileFacts.ResolveNotIdempotentInPreRoll` | src/midi.rs:175-192 | With a tempo of 1000 at tick 0, tick −1 resolves to `(0, 500000)` but resolving the returned tick 0 gives `(0, 1000)`. |
| `MidiFileFacts.PreRollUsesDefaultTempo` | src/midi.rs:178-188 | On an ingested map, every negative tick resolves to `(0, 500000)`, for every i32 scene width. |
| `MidiFileFacts.NewResolvesEverywhere` | src/midi.rs:166-192 | On a map fresh from `MIDI::new`, every i64 tick resolves to `(0, 500000)`, for every i32 scene width. |
| `MidiFileFacts.NotesIgnoreTimeline` | src/midi.rs:204-246 | A track's notes, offset and pressed keys do not depend on the tempo map or the length. |
| `MidiFileFacts.TracksAreIndependent` | src/midi.rs:199-203 | Track `i`'s notes equal those of scanning that track alone, from offset 0 with no key pressed. |
| `MidiFileFacts.EmittedNotesFit` | src/midi.rs:222-241 | While a track's ticks stay within i32, every note starts at or after 0, has a duration `>= 0` (the cast never truncates), and ends by the current offset. |
| `MidiFileFacts.AdvanceKeepsFit` | src/midi.rs:205-246 | One event keeps the presses and notes of a track within `[0, offset]` while the offset fits in i32. |
| `MidiFileFacts.IngestNoteShapes` | src/midi.rs:199-251 | One note list per track, and each note of a track whose ticks fit in i32 lies within `[0, total ticks]`. |
| `MidiFileFacts.VelocityZeroReleases` | src/midi.rs:220-228 | NoteOn(40) at 0 followed by a velocity-0 NoteOn(40) at 100 gives the note `(0, 100, 40)`. |
| `MidiFileFacts.RepressOverwritesEarlierPress` | src/midi.rs:229-231 | A second press at 10 of a key pressed at 0, released at 20, gives only the note `(10, 10, 60)`. |
| `MidiFileFacts.PressesDoNotCrossTracks` | src/midi.rs:199-202 | A press in one track is not closed by a NoteOff in the next track. |
| `MidiFileFacts.ZeroLengthNote` | src/midi.rs:233-241 | A press and a release on the same tick give a note of duration 0. |
| `Visualizer.Note.constructor` | src/main.rs:161-169 | A new note has the given start, duration and key, is not pressed and has 0 pressed ticks. |
| `Visualizer.Note.Tick` | src/main.rs:171-182 | Returns whether `start <= t < start + duration`. Afterwards `pressed` is that answer, and `pressed_ticks` is the old count plus one if the note is active, else 0. |
| `Visualizer.Moved` | src/main.rs:251-253 | The offset grows by the event's delta, and nothing else changes. |
| `Visualizer.LegacyStep` | src/main.rs:255-288 | One non-breaking event moves the offset by its delta and appends at most one note, never changing earlier ones. |
| `Visualizer.ScanTrack` | src/main.rs:250-289 | The event loop of one track, stopping at a second tempo: notes are only appended, the offset grows by at most the track's deltas, and a tempo that was set is kept. |
| `Visualizer.ScanAll` | src/main.rs:249-290 | The track loop with state shared between tracks: notes are only appended, the offset grows by at most the deltas of all tracks, and a tempo that was set is kept. |
| `Visualizer.FinalTpqn` | src/main.rs:292-295 | The result is never the sentinel: the sentinel becomes 500000, and a tempo that was set is kept. |
| `Visualizer.PushNote` | src/main.rs:277-281 | Appends one new idle note `(start, offset - start, key)`, keeps the existing notes, and keeps the notes distinct objects. |
| `Visualizer.HandleEvent` | src/main.rs:250-288 | The body of the event loop changes offset, pressed keys, notes and tempo exactly as `LegacyStep` does. |
| `Visualizer.ReadTrack` | src/main.rs:250-289 | The event loop of one track, including its `break`, continues from the shared state and produces the state of `ScanTrack`. |
| `Visualizer.FromMidi` | src/main.rs:240-298 | The tempo and notes are those of `ScanAll` from offset 0 with no key pressed and the sentinel tempo, with the default substituted. All notes are new, idle and distinct. |
| `Visualizer.TicksPerFrame` | src/main.rs:33-37 | `tpqn / (frame_interval_nano / 1000) / 6` is `floor(tpqn / 99996)`. |
| `Visualizer.FrameTick` | src/main.rs:34 | The tick of any frame is at least `-TICKSCENE_WIDTH`. |
| `Visualizer.FrameTickSnoc` | src/main.rs:124 | Each frame advances `curr_tick` by exactly `ticks_per_frame`. |
| `Visualizer.Fired` | src/main.rs:92-97 | At most one key per note, and every reported key belongs to a note whose one-shot test holds at that tick. |
| `Visualizer.FrameLog` | src/main.rs:92-97 | Entry `f` of the log is the list of keys fired at frame `f`'s tick by the note states after `f` frames. |
| `Visualizer.Frame` | src/main.rs:92-98 | Every note is ticked once at `curr_tick`, and the fired keys are those of the notes whose one-shot test holds, in note order. |
| `Visualizer.Run` | src/main.rs:67-126 | After `n` frames, `curr_tick` is `-768 + n * ticks_per_frame` and each note's state is its `tick` replay over the frame ticks. Frame `f` fired the keys determined by the note states after `f` frames. |
| `VisualizerFacts.TrackTempo` | src/main.rs:257-266 | A track keeps a tempo that was already set, and otherwise takes its first tempo event. |
| `VisualizerFacts.FirstTempoWins` | src/main.rs:257-266 | After all tracks the tempo is the first tempo event of the file in track order, if the scan started unset. |
| `VisualizerFacts.IngestTempo` | src/main.rs:243-295 | The final tempo is the file's first tempo, or 500000 if there is none, and in either case a 24-bit value. |
| `VisualizerFacts.BreakIgnoresRest` | src/main.rs:258-262 | Once a tempo is set, the events after a track's next tempo event have no effect. |
| `VisualizerFacts.BreakMovesOffsetOnly` | src/main.rs:251-262 | The breaking tempo event only moves the offset by its delta. |
| `VisualizerFacts.TrackOffset` | src/main.rs:250-253 | Without a `break`, a track ends at its starting offset plus all its deltas. |
| `VisualizerFacts.SharedOffsetAccumulates` | src/main.rs:246-253 | The offset is not reset between tracks: with at most one tempo event in the file, the final offset is the sum of all deltas of all tracks. |
| `VisualizerFacts.IngestNotesFit` | src/main.rs:270-284 | Every note starts at or after 0, has a duration `>= 0`, and ends no later than the offset. Presses stay within `[0, offset]`. |
| `VisualizerFacts.PressCarriesAcrossTracks` | src/main.rs:246-253 | A press at 3 in track 1 is released by a NoteOff 5 ticks into track 2, giving `(3, 5, 60)`. |
| `VisualizerFacts.VelocityZeroNoteOnDoesNotClose` | src/main.rs:270-273 | A velocity-0 NoteOn moves the press tick instead of completing a note. |
| `VisualizerFacts.SecondTempoSkipsRestOfTrack` | src/main.rs:257-262 | A second tempo ends its track: the note after it is never read, but the next track is scanned from the reached offset. |
| `VisualizerFacts.DefaultTicksPerFrame` | src/main.rs:33-37 | With the default tempo, `ticks_per_frame` is 5 and frame `n` is at tick `-768 + 5n`. |
| `VisualizerFacts.TicksPerFrameBound` | src/main.rs:124 | Any 24-bit tempo gives at most 167 ticks per frame, so the `as i32` cast is exact. |
| `VisualizerFacts.FrameTickMonotone` | src/main.rs:124 | Frame ticks never decrease. |
| `VisualizerFacts.LongNoteIsSeen` | src/main.rs:92-93 | When `ticks_per_frame > 0` (a tempo of at least 99996), a note that starts at or after `-TICKSCENE_WIDTH` and lasts at least one frame step sounds on some frame. |
| `VisualizerFacts.FastTempoFreezesScene` | src/main.rs:33-37 | A tempo below 99996 gives `ticks_per_frame = 0`, every frame is at tick −768, and no note starting after −768 sounds on any frame. |
| `VisualizerFacts.TopKeyCanFire` | src/main.rs:92-96 | A note of key 127 starting at tick 0 fires on its first sounding frame. |
| `VisualizerFacts.FiringKeyListed` | src/main.rs:92-97 | A note that passes its one-shot test at a frame's tick has its key in that frame's fired list. |
| `VisualizerFacts.FiredMembers` | src/main.rs:92-97 | A key is in a frame's fired list iff some note with that key passes its one-shot test on that frame. |
| `VisualizerFacts.FiresOnFirstSoundingFrame` | src/main.rs:92-97 | A new note fires on a frame iff that is the first frame on which it sounds. |
| `Config.AsU32` | src/myconfig.rs:92 | `x as u32` keeps non-negative values and adds 2^32 to negative ones. |
| `Config.ColorFromI32` | src/myconfig.rs:91-98 | Blue is bits 0-7 of `x as u32`. Green and blue together are bits 0-15. Red, green and blue together are bits 0-23. |
| `Config.ColorRoundTrip` | src/myconfig.rs:91-98 | Decoding `r*65536 + g*256 + b` gives back `(r, g, b)`. |
| `Config.HighByteIgnored` | src/myconfig.rs:92-97 | Inputs that agree on bits 0-23 decode to the same colour, whatever their bits 24-31 (the sign included). |
| `Config.MinusOneIsWhite` | src/myconfig.rs:92-97 | `-1` decodes to `(255, 255, 255)`. |

## Left out

- The SDL window, canvas, event pump, resizing, `thread::sleep` and all drawing: these are I/O and UI.
- Floating-point geometry, easing and colour interpolation (`lerp`, `scene_to_screen*`, `easing_*`, `get_color`, `get_x`, `get_y`, `get_width`) and the calls into `ezing`: these are floating-point code and foreign calls.
- src/audio.rs: floating-point waveform synthesis, the SDL mixer and a spawned thread. The frame loop's call to play a sound becomes the list of fired keys.
- `get_track_color` and `Track.color`: they depend on the standard library's unspecified `DefaultHasher`.
- Config loading, the `RwLock` globals and `screen_size*` in src/myconfig.rs: file I/O and process-global locked state. `TICKSCENE_WIDTH` is a parameter of `MidiFile.GetCurrentTickAndMspq`; src/main.rs's own constant 768 is kept as a constant.
- `midly::Smf::parse` and `std::fs::read`: the decoder and file reading are foreign code. Its output is given as input, with every event kind the ingests ignore collapsed into `Other`. The MIDI channel is dropped because neither ingest reads it.
- `println!` diagnostics: the "no tempo" warning of src/midi.rs is a returned boolean. The messages of src/main.rs are dropped.
- The panic on a non-metrical timing division is modelled as a `Failure` result.
- `MidiFile.FromMidi`: the i64 offset is an unbounded integer, so an overflow past `i64::MAX` (more than 2^63 ticks in one track) is not modelled. The `as i32` duration cast is modelled exactly (`MidiFile.AsI32`).
- `Visualizer.FromMidi`: offsets and durations are unbounded integers. The i32 overflow of `offset += delta as i32` and of `offset - start` (a file of more than 2^31 ticks) is not modelled.
- `MidiFile.Note.Tick`: the i32 counter `pressed_ticks` is unbounded, so its overflow after 2^31 consecutive active frames is not modelled.
- `Visualizer.Note.Tick`: the i32 counter `pressed_ticks` is unbounded, so its overflow after 2^31 consecutive active frames is not modelled.
- `MidiFile.GetCurrentTickAndMspq`: the negation `-TICKSCENE_WIDTH` at src/midi.rs:181 is modelled as a release build computes it, wrapping `i32::MIN` to itself (`MidiFile.PreRollFloor`); a debug build panics on that width instead.
- `Visualizer.Run`: the loop runs for a given number of frames instead of until a quit event. `curr_tick` is unbounded, so its i32 overflow after about 2^31 / ticks_per_frame frames is not modelled. The panic of src/main.rs:96 when a key-127 note fires (the tone table of src/audio.rs:26 stops at key 126) is not modelled: the run goes on and reports key 127. The frame loop's `?` early returns are not modelled either: when playing a tone fails (src/main.rs:97, for instance with all 256 mixer channels allocated at src/audio.rs:24 busy) or a rectangle cannot be drawn (src/main.rs:102-107, 111-116), `main` ends with that error, while the model's run goes on.
