/**
 * src/midi.rs: the MIDI-to-timeline ingest (`MIDI::from_midi`), the tempo map seeded by
 * `MIDI::new`, the tempo lookup `get_current_tick_and_mspq`, and `Note::tick`.
 */
module MidiFile {
  import opened Wrappers
  import opened MidiEvents
  import opened Notes
  import OrderedMap

  /** 120 beats per minute: `60_000_000 / 120` microseconds per quarter note. */
  const DEFAULT_MSPQ: int := 60_000_000 / 120

  /** The tempo map `MIDI::new` starts from: one entry at `i64::MIN`. */
  const DEFAULT_TEMPO_MAP: OrderedMap.Map := [OrderedMap.Entry(I64_MIN, DEFAULT_MSPQ)]

  /** A note: its identity is fixed at creation, its render state changes on every frame. */
  class Note {
    const startTick: int
    const duration: int
    const key: U7
    var pressed: bool
    var pressedTicks: int

    /** `Note::new`: the given identity, not pressed, no pressed ticks. */
    constructor (startTick: int, duration: int, key: U7)
      ensures Data() == NoteData(startTick, duration, key)
      ensures State() == Idle
    {
      this.startTick := startTick;
      this.duration := duration;
      this.key := key;
      pressed := false;
      pressedTicks := 0;
    }

    function Data(): NoteData
    {
      NoteData(startTick, duration, key)
    }

    function State(): Activity
      reads this
    {
      Activity(pressed, pressedTicks)
    }

    /** `Note::tick`: reports whether `currTick` lies in the note's half-open interval,
        and makes `pressed` that answer and counts or resets `pressed_ticks`. */
    method Tick(currTick: int) returns (active: bool)
      modifies this
      ensures active == Sounding(Data(), currTick)
      ensures State() == Step(old(State()), active)
    {
      var inside := startTick <= currTick && currTick < startTick + duration;
      if inside {
        pressed := true;
        pressedTicks := pressedTicks + 1;
        return true;
      } else {
        pressed := false;
        pressedTicks := 0;
        return false;
      }
    }
  }

  /** A track's notes in the order they were completed. Its colour is not modelled. */
  datatype Track = Track(notes: seq<Note>)

  /** `MIDI`: tempo map (tick to microseconds per quarter note), ppq, length and tracks. */
  datatype Midi = Midi(mspq: OrderedMap.Map, ppq: int, length: int, tracks: seq<Track>)

  datatype IngestError = UnsupportedTiming

  /** `MIDI::new`: one tempo entry, 500000 at `i64::MIN`; unbounded length; no tracks. */
  function New(ppq: int): (m: Midi)
    ensures |m.mspq| == 1 && OrderedMap.Keys(m.mspq) == {I64_MIN}
    ensures OrderedMap.Get(m.mspq, I64_MIN) == Some(DEFAULT_MSPQ)
    ensures m.ppq == ppq && m.length == I64_MAX && m.tracks == []
  {
    assert DEFAULT_TEMPO_MAP[0] in DEFAULT_TEMPO_MAP;
    Midi(DEFAULT_TEMPO_MAP, ppq, I64_MAX, [])
  }

  /** The pre-roll floor `(-TICKSCENE_WIDTH) as i64`: the negation is an i32 operation, so
      for `i32::MIN` it wraps back to `i32::MIN` (as a release build computes it). */
  function PreRollFloor(tickSceneWidth: int): (b: int)
    requires I32_MIN <= tickSceneWidth <= I32_MAX
    ensures tickSceneWidth != I32_MIN ==> b == -tickSceneWidth
    ensures tickSceneWidth == I32_MIN ==> b == I32_MIN
  {
    AsI32(-tickSceneWidth)
  }

  /** `get_current_tick_and_mspq`: the tempo entry with the greatest key not above `currTick`;
      its key is reported as 0 when it lies below the pre-roll floor.
      When no key is at or below `currTick` the answer is `(0, 0)`. */
  function GetCurrentTickAndMspq(midi: Midi, currTick: int, tickSceneWidth: int): (r: (int, int))
    requires I32_MIN <= tickSceneWidth <= I32_MAX
    ensures forall f :: OrderedMap.IsFloorKey(midi.mspq, currTick, f) ==>
              && r.0 == (if f < PreRollFloor(tickSceneWidth) then 0 else f)
              && OrderedMap.Entry(f, r.1) in midi.mspq
    ensures (forall k :: k in OrderedMap.Keys(midi.mspq) ==> currTick < k) ==> r == (0, 0)
  {
    var found := OrderedMap.Floor(midi.mspq, currTick);
    match found
    case Some(e) =>
      assert forall f :: OrderedMap.IsFloorKey(midi.mspq, currTick, f) ==> f == e.key;
      (if e.key < PreRollFloor(tickSceneWidth) then 0 else e.key, e.value)
    case None => (0, 0)
  }

  /** Rust's `as i32` on an i64: keep the low 32 bits and read them as two's complement. */
  function AsI32(x: int): (r: int)
    ensures I32_MIN <= r <= I32_MAX
    ensures (x - r) % 0x1_0000_0000 == 0
    ensures I32_MIN <= x <= I32_MAX ==> r == x
  {
    var low := x % 0x1_0000_0000;
    if low <= I32_MAX then low else low - 0x1_0000_0000
  }

  /** The state of the event loop of one track: its running tick, its pressed keys with the
      tick each was pressed at, and the notes it has completed. */
  datatype TrackScan = TrackScan(offset: int, pressedKeys: map<U7, int>, notes: seq<NoteData>)

  /** Every track starts at tick 0 with no keys pressed. */
  const FRESH_TRACK := TrackScan(0, map[], [])

  /** The parts of `MIDI` that the event loop writes. */
  datatype Timeline = Timeline(mspq: OrderedMap.Map, length: int)

  /** Releasing a pressed key completes the note from its press to the current tick. */
  function Release(st: TrackScan, key: U7): (r: TrackScan)
    requires key in st.pressedKeys
    ensures r.offset == st.offset
    ensures key !in r.pressedKeys && r.pressedKeys == st.pressedKeys - {key}
    ensures |r.notes| == |st.notes| + 1 && st.notes <= r.notes
    ensures var n := r.notes[|st.notes|];
            n.key == key && n.startTick == st.pressedKeys[key]
            && I32_MIN <= n.duration <= I32_MAX
            && (st.offset - (n.startTick + n.duration)) % 0x1_0000_0000 == 0
            && (I32_MIN <= st.offset - n.startTick <= I32_MAX ==> n.startTick + n.duration == st.offset)
  {
    var start := st.pressedKeys[key];
    st.(pressedKeys := st.pressedKeys - {key},
        notes := st.notes + [NoteData(start, AsI32(st.offset - start), key)])
  }

  /** One iteration of the event loop. A velocity-0 NoteOn of a pressed key and a NoteOff of a
      pressed key complete a note; every other NoteOn (re)records the press at the current
      tick; a NoteOff of an unpressed key does nothing. */
  function Advance(tl: Timeline, st: TrackScan, e: TrackEvent): (r: (Timeline, TrackScan))
    ensures r.1.offset == st.offset + e.delta
    ensures st.notes <= r.1.notes && |r.1.notes| <= |st.notes| + 1
  {
    var moved := st.(offset := if e.delta != 0 then st.offset + e.delta else st.offset);
    match e.kind
    case Tempo(mspq) => (tl.(mspq := OrderedMap.Insert(tl.mspq, moved.offset, mspq)), moved)
    case EndOfTrack => (tl.(length := moved.offset), moved)
    case NoteOn(key, vel) =>
      if vel == 0 && key in moved.pressedKeys then (tl, Release(moved, key))
      else (tl, moved.(pressedKeys := moved.pressedKeys[key := moved.offset]))
    case NoteOff(key, _) =>
      (tl, if key in moved.pressedKeys then Release(moved, key) else moved)
    case Other => (tl, moved)
  }

  /** The event loop of one track. Its offset ends at the sum of the track's deltas, and notes
      are only ever appended. */
  function ScanEvents(tl: Timeline, st: TrackScan, evs: seq<TrackEvent>): (r: (Timeline, TrackScan))
    ensures r.1.offset == st.offset + SumDeltas(evs)
    ensures st.notes <= r.1.notes
    decreases |evs|
  {
    if evs == [] then (tl, st)
    else
      var next := Advance(tl, st, evs[0]);
      ScanEvents(next.0, next.1, evs[1..])
  }

  /** The track loop: each track is scanned from a fresh state, the tempo map and the length
      are threaded through all of them, and each track yields one note list. */
  function ScanTracks(tl: Timeline, tracks: seq<seq<TrackEvent>>): (r: (Timeline, seq<seq<NoteData>>))
    ensures |r.1| == |tracks|
    decreases |tracks|
  {
    if tracks == [] then (tl, [])
    else
      var first := ScanEvents(tl, FRESH_TRACK, tracks[0]);
      var rest := ScanTracks(first.0, tracks[1..]);
      (rest.0, [first.1.notes] + rest.1)
  }

  /** The timeline every ingest starts from. */
  const START := Timeline(DEFAULT_TEMPO_MAP, I64_MAX)

  function Datas(notes: seq<Note>): (ds: seq<NoteData>)
    ensures |ds| == |notes|
  {
    seq(|notes|, i requires 0 <= i < |notes| => notes[i].Data())
  }

  function Shapes(tracks: seq<Track>): (s: seq<seq<NoteData>>)
    ensures |s| == |tracks|
  {
    seq(|tracks|, i requires 0 <= i < |tracks| => Datas(tracks[i].notes))
  }

  /** No note object occurs twice: `Track.notes` is a `Vec` of note values. */
  predicate Distinct(notes: seq<Note>)
  {
    forall i, j :: 0 <= i < j < |notes| ==> notes[i] != notes[j]
  }

  /** The notes of all tracks, track after track. */
  function AllNotes(tracks: seq<Track>): (all: seq<Note>)
    ensures tracks != [] ==> all == AllNotes(tracks[..|tracks| - 1]) + tracks[|tracks| - 1].notes
    decreases |tracks|
  {
    if tracks == [] then [] else AllNotes(tracks[..|tracks| - 1]) + tracks[|tracks| - 1].notes
  }

  /** Every note of `AllNotes` is a note of one of the tracks. */
  lemma {:induction false} AllNotesFromTracks(tracks: seq<Track>, x: Note)
    requires x in AllNotes(tracks)
    ensures exists t, k :: 0 <= t < |tracks| && 0 <= k < |tracks[t].notes| && tracks[t].notes[k] == x
    decreases |tracks|
  {
    var n := |tracks| - 1;
    if x in tracks[n].notes {
      var k :| 0 <= k < |tracks[n].notes| && tracks[n].notes[k] == x;
    } else {
      AllNotesFromTracks(tracks[..n], x);
      var t, k :| 0 <= t < n && 0 <= k < |tracks[..n][t].notes| && tracks[..n][t].notes[k] == x;
      assert tracks[t] == tracks[..n][t];
    }
  }

  /** `track.notes.push(Note::new(start, (offset - start) as i32, key))`. */
  method PushNote(notes: seq<Note>, start: int, offset: int, key: U7) returns (pushed: seq<Note>)
    ensures Datas(pushed) == Datas(notes) + [NoteData(start, AsI32(offset - start), key)]
    ensures |pushed| == |notes| + 1 && pushed[..|notes|] == notes
    ensures fresh(pushed[|notes|]) && pushed[|notes|].State() == Idle
    ensures Distinct(notes) ==> Distinct(pushed)
  {
    var note := new Note(start, AsI32(offset - start), key);
    pushed := notes + [note];
    assert Datas(pushed) == Datas(notes) + [note.Data()];
  }

  /** One pass of the event loop of `MIDI::from_midi`: the match on the event kind. */
  method HandleEvent(mspq: OrderedMap.Map, length: int, offset: int, pressedKeys: map<U7, int>,
                     notes: seq<Note>, e: TrackEvent)
    returns (mspq': OrderedMap.Map, length': int, offset': int, pressedKeys': map<U7, int>, notes': seq<Note>)
    requires Distinct(notes)
    ensures (Timeline(mspq', length'), TrackScan(offset', pressedKeys', Datas(notes')))
            == Advance(Timeline(mspq, length), TrackScan(offset, pressedKeys, Datas(notes)), e)
    ensures |notes| <= |notes'| && notes'[..|notes|] == notes
    ensures forall k :: |notes| <= k < |notes'| ==> fresh(notes'[k]) && notes'[k].State() == Idle
    ensures Distinct(notes')
  {
    mspq', length', offset', pressedKeys', notes' := mspq, length, offset, pressedKeys, notes;
    if e.delta != 0 {
      offset' := offset + e.delta;
    }
    match e.kind {
      case Tempo(tempo) =>
        mspq' := OrderedMap.Insert(mspq, offset', tempo);
      case EndOfTrack =>
        length' := offset';
      case NoteOn(key, vel) =>
        if vel == 0 && key in pressedKeys {
          notes' := PushNote(notes, pressedKeys[key], offset', key);
          pressedKeys' := pressedKeys - {key};
        } else {
          pressedKeys' := pressedKeys[key := offset'];
        }
      case NoteOff(key, vel) =>
        if key in pressedKeys {
          notes' := PushNote(notes, pressedKeys[key], offset', key);
          pressedKeys' := pressedKeys - {key};
        }
      case Other =>
    }
  }

  /** The event loop of `MIDI::from_midi` for one track: it writes the tempo map and the
      length it is given and returns the track's notes, all newly created and idle. */
  method ReadTrack(tl: Timeline, evs: seq<TrackEvent>) returns (out: Timeline, notes: seq<Note>)
    ensures var scanned := ScanEvents(tl, FRESH_TRACK, evs);
            out == scanned.0 && Datas(notes) == scanned.1.notes
    ensures forall k :: 0 <= k < |notes| ==> fresh(notes[k]) && notes[k].State() == Idle
    ensures Distinct(notes)
  {
    var mspq, length := tl.mspq, tl.length;
    var offset := 0;
    var pressedKeys: map<U7, int> := map[];
    notes := [];
    var j := 0;
    while j < |evs|
      invariant 0 <= j <= |evs|
      invariant ScanEvents(tl, FRESH_TRACK, evs)
                == ScanEvents(Timeline(mspq, length), TrackScan(offset, pressedKeys, Datas(notes)), evs[j..])
      invariant forall k :: 0 <= k < |notes| ==> fresh(notes[k]) && notes[k].State() == Idle
      invariant Distinct(notes)
    {
      assert evs[j..][0] == evs[j] && evs[j..][1..] == evs[j + 1..];
      ghost var before := notes;
      mspq, length, offset, pressedKeys, notes := HandleEvent(mspq, length, offset, pressedKeys, notes, evs[j]);
      assert forall k :: 0 <= k < |before| ==> notes[k] == before[k];
      j := j + 1;
    }
    assert evs[j..] == [];
    out := Timeline(mspq, length);
  }

  /** Two lists of distinct notes with no note in common make one list of distinct notes. */
  lemma DistinctConcat(a: seq<Note>, b: seq<Note>)
    requires Distinct(a) && Distinct(b)
    requires forall i, j :: 0 <= i < |a| && 0 <= j < |b| ==> a[i] != b[j]
    ensures Distinct(a + b)
  {
  }

  /** Every note of every track is a note of `AllNotes`. */
  lemma {:induction false} TrackNoteInAllNotes(tracks: seq<Track>, t: int, k: int)
    requires 0 <= t < |tracks| && 0 <= k < |tracks[t].notes|
    ensures tracks[t].notes[k] in AllNotes(tracks)
    decreases |tracks|
  {
    var n := |tracks| - 1;
    if t < n {
      assert tracks[..n][t] == tracks[t];
      TrackNoteInAllNotes(tracks[..n], t, k);
    } else {
      assert tracks[t].notes[k] in tracks[n].notes;
    }
  }

  /** One pass of the track loop of `MIDI::from_midi`: the track's event loop, then its notes
      appended as a new track. The new notes are new objects, so no note occurs twice. */
  method AddTrack(tracks: seq<Track>, tl: Timeline, evs: seq<TrackEvent>)
    returns (out: Timeline, tracks': seq<Track>)
    requires Distinct(AllNotes(tracks))
    ensures var scanned := ScanEvents(tl, FRESH_TRACK, evs);
            out == scanned.0 && Shapes(tracks') == Shapes(tracks) + [scanned.1.notes]
    ensures |tracks'| == |tracks| + 1 && tracks'[..|tracks|] == tracks
    ensures forall x :: x in tracks'[|tracks|].notes ==> fresh(x) && x.State() == Idle
    ensures AllNotes(tracks') == AllNotes(tracks) + tracks'[|tracks|].notes
    ensures Distinct(AllNotes(tracks'))
  {
    ghost var earlier := AllNotes(tracks);
    var notes;
    out, notes := ReadTrack(tl, evs);
    forall i, j | 0 <= i < |earlier| && 0 <= j < |notes|
      ensures earlier[i] != notes[j]
    {
      AllNotesFromTracks(tracks, earlier[i]);
      var t, k :| 0 <= t < |tracks| && 0 <= k < |tracks[t].notes| && tracks[t].notes[k] == earlier[i];
      assert old(allocated(tracks[t].notes[k]));
    }
    DistinctConcat(earlier, notes);
    tracks' := tracks + [Track(notes)];
    assert tracks'[..|tracks|] == tracks;
    assert AllNotes(tracks') == earlier + notes;
    assert Shapes(tracks') == Shapes(tracks) + [Datas(notes)];
  }

  /** Scanning the tracks from `i` on is scanning track `i`, then the tracks after it. */
  lemma ScanTracksFrom(tl: Timeline, tracks: seq<seq<TrackEvent>>, i: int, done: seq<seq<NoteData>>)
    requires 0 <= i < |tracks|
    ensures var rest := ScanTracks(tl, tracks[i..]);
            var first := ScanEvents(tl, FRESH_TRACK, tracks[i]);
            var after := ScanTracks(first.0, tracks[i + 1..]);
            (rest.0, done + rest.1) == (after.0, (done + [first.1.notes]) + after.1)
  {
    assert tracks[i..][0] == tracks[i] && tracks[i..][1..] == tracks[i + 1..];
    var first := ScanEvents(tl, FRESH_TRACK, tracks[i]);
    var after := ScanTracks(first.0, tracks[i + 1..]);
    assert done + ([first.1.notes] + after.1) == (done + [first.1.notes]) + after.1;
  }

  /** `MIDI::from_midi`. A non-metrical timing division is the source's panic. The "no tempo"
      diagnostic is returned: it is raised when the tempo map still holds one entry. */
  method FromMidi(smf: Smf) returns (r: Result<Midi, IngestError>, noTempoWarning: bool)
    ensures r.Success? <==> smf.timing.Metrical?
    ensures r.Success? ==>
              var scanned := ScanTracks(START, smf.tracks);
              && r.value.ppq == smf.timing.ppq
              && r.value.mspq == scanned.0.mspq
              && r.value.length == scanned.0.length
              && Shapes(r.value.tracks) == scanned.1
    ensures r.Success? ==>
              forall i, k :: 0 <= i < |r.value.tracks| && 0 <= k < |r.value.tracks[i].notes| ==>
                fresh(r.value.tracks[i].notes[k]) && r.value.tracks[i].notes[k].State() == Idle
    ensures r.Success? ==> Distinct(AllNotes(r.value.tracks))
    ensures noTempoWarning <==> r.Success? && |r.value.mspq| == 1
  {
    if !smf.timing.Metrical? {
      return Failure(UnsupportedTiming), false;
    }
    var midi := New(smf.timing.ppq);
    assert Timeline(midi.mspq, midi.length) == START && smf.tracks[0..] == smf.tracks;
    ghost var all := ScanTracks(START, smf.tracks);
    assert Shapes(midi.tracks) + all.1 == all.1;
    var i := 0;
    while i < |smf.tracks|
      invariant 0 <= i <= |smf.tracks|
      invariant midi.ppq == smf.timing.ppq
      invariant var rest := ScanTracks(Timeline(midi.mspq, midi.length), smf.tracks[i..]);
                all == (rest.0, Shapes(midi.tracks) + rest.1)
      invariant forall x :: x in AllNotes(midi.tracks) ==> fresh(x) && x.State() == Idle
      invariant Distinct(AllNotes(midi.tracks))
    {
      ghost var before, before_mspq, before_length := midi.tracks, midi.mspq, midi.length;
      label BeforeAdd:
      var tl, tracks := AddTrack(midi.tracks, Timeline(midi.mspq, midi.length), smf.tracks[i]);
      ScanTracksFrom(Timeline(before_mspq, before_length), smf.tracks, i, Shapes(before));
      forall x | x in AllNotes(tracks)
        ensures fresh(x) && x.State() == Idle
      {
        if x in AllNotes(before) {
          AllNotesFromTracks(before, x);
          var t, k :| 0 <= t < |before| && 0 <= k < |before[t].notes| && before[t].notes[k] == x;
          assert old@BeforeAdd(allocated(x) && x.State() == Idle);
        }
      }
      midi := midi.(mspq := tl.mspq, length := tl.length, tracks := tracks);
      i := i + 1;
    }
    assert smf.tracks[i..] == [];
    forall t, k | 0 <= t < |midi.tracks| && 0 <= k < |midi.tracks[t].notes|
      ensures fresh(midi.tracks[t].notes[k]) && midi.tracks[t].notes[k].State() == Idle
    {
      TrackNoteInAllNotes(midi.tracks, t, k);
    }
    noTempoWarning := |midi.mspq| == 1;
    r := Success(midi);
  }
}
