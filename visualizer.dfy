/**
 * src/main.rs: the older ingest `Track::from_midi`, its own `Note` with `Note::tick`, and
 * the fixed-step frame loop of `main` that advances `curr_tick` and fires each note's
 * one-shot sound. Unlike src/midi.rs, one offset and one map of pressed keys are shared by
 * all tracks, every NoteOn records a press, the first tempo wins, and a second tempo event
 * ends the scan of the track it occurs in.
 */
module Visualizer {
  import opened MidiEvents
  import opened Notes

  /** The scene width in ticks; the frame loop starts that far before tick 0. */
  const TICKSCENE_WIDTH: int := 768
  const FPS: int := 60
  /** `1_000_000_000 / FPS`, in u32 arithmetic. */
  const FRAME_INTERVAL_NANO: int := 1_000_000_000 / FPS
  /** The `tpqn` value that marks "no tempo event seen yet". */
  const TEMPO_UNSET: int := 0xffff_ffff
  /** 120 beats per minute: `60_000_000 / 120` microseconds per quarter note. */
  const DEFAULT_TPQN: int := 60_000_000 / 120

  /** A note of src/main.rs: its identity is fixed at creation, its render state changes on
      every frame. */
  class Note {
    const startTick: int
    const duration: int
    const key: U7
    var pressed: bool
    var pressedTicks: int

    /** `Note::new`: the given identity, not pressed, no pressed ticks. */
    constructor (startTick: int, duration: int, key: U7)
      ensures Data() == NoteData(startTick, duration, key)
      ensures State() == Idle
    {
      this.startTick := startTick;
      this.duration := duration;
      this.key := key;
      pressed := false;
      pressedTicks := 0;
    }

    function Data(): NoteData
    {
      NoteData(startTick, duration, key)
    }

    function State(): Activity
      reads this
    {
      Activity(pressed, pressedTicks)
    }

    /** `Note::tick`: reports whether `currTick` lies in the note's half-open interval,
        and makes `pressed` that answer and counts or resets `pressed_ticks`. */
    method Tick(currTick: int) returns (active: bool)
      modifies this
      ensures active == Sounding(Data(), currTick)
      ensures State() == Step(old(State()), active)
    {
      var inside := startTick <= currTick && currTick < startTick + duration;
      if inside {
        pressed := true;
        pressedTicks := pressedTicks + 1;
        return true;
      } else {
        pressed := false;
        pressedTicks := 0;
        return false;
      }
    }
  }

  /** `Track`: the tempo (microseconds per quarter note) and all notes of the file. */
  datatype Track = Track(tpqn: int, notes: seq<Note>)

  function Datas(notes: seq<Note>): (ds: seq<NoteData>)
    ensures |ds| == |notes|
  {
    seq(|notes|, i requires 0 <= i < |notes| => notes[i].Data())
  }

  function States(notes: seq<Note>): (acts: seq<Activity>)
    reads notes
    ensures |acts| == |notes|
  {
    seq(|notes|, i requires 0 <= i < |notes| reads notes => notes[i].State())
  }

  predicate Distinct(notes: seq<Note>)
  {
    forall i, j :: 0 <= i < j < |notes| ==> notes[i] != notes[j]
  }

  // ----- The ingest, as a function of the decoded file -----

  /** The variables of `Track::from_midi`, all of which persist across tracks. */
  datatype Legacy = Legacy(offset: int, pressedKeys: map<U7, int>, notes: seq<NoteData>, tpqn: int)

  const LEGACY_START := Legacy(0, map[], [], TEMPO_UNSET)

  /** The offset update that precedes the match on the event kind. */
  function Moved(st: Legacy, e: TrackEvent): (r: Legacy)
    ensures r.offset == st.offset + e.delta
    ensures r.(offset := st.offset) == st
  {
    st.(offset := if e.delta != 0 then st.offset + e.delta else st.offset)
  }

  /** A tempo event after the tempo was set: the `break` out of the track's event loop. */
  predicate Breaks(st: Legacy, e: TrackEvent)
  {
    e.kind.Tempo? && st.tpqn != TEMPO_UNSET
  }

  /** One iteration of the event loop that does not break. The first tempo is recorded; every
      NoteOn (re)records the press, whatever its velocity; a NoteOff of a pressed key completes
      a note; EndOfTrack and every other event only move the offset. */
  function LegacyStep(st: Legacy, e: TrackEvent): (r: Legacy)
    requires !Breaks(st, e)
    ensures r.offset == st.offset + e.delta
    ensures st.notes <= r.notes && |r.notes| <= |st.notes| + 1
  {
    var moved := Moved(st, e);
    match e.kind
    case Tempo(v) => moved.(tpqn := v)
    case NoteOn(key, _) => moved.(pressedKeys := moved.pressedKeys[key := moved.offset])
    case NoteOff(key, _) =>
      if key in moved.pressedKeys then
        var start := moved.pressedKeys[key];
        moved.(pressedKeys := moved.pressedKeys - {key},
               notes := moved.notes + [NoteData(start, moved.offset - start, key)])
      else moved
    case _ => moved
  }

  /** The event loop over one track, from the shared state `st`. Notes are only appended, the
      offset grows by at most the track's deltas (less when the track breaks), and a tempo
      that was set is kept. */
  function ScanTrack(st: Legacy, evs: seq<TrackEvent>): (r: Legacy)
    ensures st.notes <= r.notes
    ensures st.offset <= r.offset <= st.offset + SumDeltas(evs)
    ensures st.tpqn != TEMPO_UNSET ==> r.tpqn == st.tpqn
    decreases |evs|
  {
    if evs == [] then st
    else if Breaks(st, evs[0]) then Moved(st, evs[0])
    else ScanTrack(LegacyStep(st, evs[0]), evs[1..])
  }

  /** The track loop: the state of one track is where the next one starts. Notes are only
      appended, the offset grows by at most the deltas of all tracks, and a tempo that was set
      is kept. */
  function ScanAll(st: Legacy, tracks: seq<seq<TrackEvent>>): (r: Legacy)
    ensures st.notes <= r.notes
    ensures st.offset <= r.offset <= st.offset + SumDeltas(Flatten(tracks))
    ensures st.tpqn != TEMPO_UNSET ==> r.tpqn == st.tpqn
    decreases |tracks|
  {
    if tracks == [] then st
    else
      SumDeltasAppend(tracks[0], Flatten(tracks[1..]));
      ScanAll(ScanTrack(st, tracks[0]), tracks[1..])
  }

  /** The sentinel left after all tracks is replaced by the default tempo. */
  function FinalTpqn(tpqn: int): (r: int)
    ensures r != TEMPO_UNSET
    ensures tpqn != TEMPO_UNSET ==> r == tpqn
    ensures tpqn == TEMPO_UNSET ==> r == DEFAULT_TPQN
  {
    if tpqn == TEMPO_UNSET then DEFAULT_TPQN else tpqn
  }

  // ----- The ingest, as the source performs it -----

  /** `track.notes.push(Note::new(start, offset - start, key))`. */
  method PushNote(notes: seq<Note>, start: int, offset: int, key: U7) returns (pushed: seq<Note>)
    ensures Datas(pushed) == Datas(notes) + [NoteData(start, offset - start, key)]
    ensures |pushed| == |notes| + 1 && pushed[..|notes|] == notes
    ensures fresh(pushed[|notes|]) && pushed[|notes|].State() == Idle
    ensures Distinct(notes) ==> Distinct(pushed)
  {
    var note := new Note(start, offset - start, key);
    pushed := notes + [note];
    assert Datas(pushed) == Datas(notes) + [note.Data()];
  }

  /** One pass of the event loop of `Track::from_midi` that does not break. */
  method HandleEvent(offset: int, pressedKeys: map<U7, int>, notes: seq<Note>, tpqn: int, e: TrackEvent)
    returns (offset': int, pressedKeys': map<U7, int>, notes': seq<Note>, tpqn': int)
    requires !Breaks(Legacy(offset, pressedKeys, Datas(notes), tpqn), e)
    requires Distinct(notes)
    ensures Legacy(offset', pressedKeys', Datas(notes'), tpqn')
            == LegacyStep(Legacy(offset, pressedKeys, Datas(notes), tpqn), e)
    ensures |notes| <= |notes'| && notes'[..|notes|] == notes
    ensures forall k :: |notes| <= k < |notes'| ==> fresh(notes'[k]) && notes'[k].State() == Idle
    ensures Distinct(notes')
  {
    offset', pressedKeys', notes', tpqn' := offset, pressedKeys, notes, tpqn;
    if e.delta != 0 {
      offset' := offset + e.delta;
    }
    match e.kind {
      case Tempo(v) =>
        tpqn' := v;
      case NoteOn(key, _) =>
        pressedKeys' := pressedKeys[key := offset'];
      case NoteOff(key, _) =>
        if key in pressedKeys {
          notes' := PushNote(notes, pressedKeys[key], offset', key);
          pressedKeys' := pressedKeys - {key};
        }
      case EndOfTrack =>
      case Other =>
    }
  }

  /** The event loop of `Track::from_midi` over one track, including its `break`. */
  method ReadTrack(offset0: int, pressedKeys0: map<U7, int>, notes0: seq<Note>, tpqn0: int, evs: seq<TrackEvent>)
    returns (offset: int, pressedKeys: map<U7, int>, notes: seq<Note>, tpqn: int)
    requires Distinct(notes0)
    ensures Distinct(notes)
    ensures Legacy(offset, pressedKeys, Datas(notes), tpqn)
            == ScanTrack(Legacy(offset0, pressedKeys0, Datas(notes0), tpqn0), evs)
    ensures |notes0| <= |notes| && notes[..|notes0|] == notes0
    ensures forall k :: |notes0| <= k < |notes| ==> fresh(notes[k]) && notes[k].State() == Idle
  {
    offset, pressedKeys, notes, tpqn := offset0, pressedKeys0, notes0, tpqn0;
    var j := 0;
    while j < |evs|
      invariant 0 <= j <= |evs|
      invariant ScanTrack(Legacy(offset0, pressedKeys0, Datas(notes0), tpqn0), evs)
                == ScanTrack(Legacy(offset, pressedKeys, Datas(notes), tpqn), evs[j..])
      invariant |notes0| <= |notes| && notes[..|notes0|] == notes0
      invariant forall k :: |notes0| <= k < |notes| ==> fresh(notes[k]) && notes[k].State() == Idle
      invariant Distinct(notes)
    {
      var e := evs[j];
      assert evs[j..][0] == e && evs[j..][1..] == evs[j + 1..];
      if Breaks(Legacy(offset, pressedKeys, Datas(notes), tpqn), e) {
        if e.delta != 0 {
          offset := offset + e.delta;
        }
        break;
      }
      ghost var before := notes;
      offset, pressedKeys, notes, tpqn := HandleEvent(offset, pressedKeys, notes, tpqn, e);
      assert forall k :: 0 <= k < |before| ==> notes[k] == before[k];
      j := j + 1;
    }
    if j == |evs| {
      assert evs[j..] == [];
    }
  }

  /** `Track::from_midi`. The timing division is not consulted. All notes are new, idle and
      distinct objects. */
  method FromMidi(smf: Smf) returns (track: Track)
    ensures var scanned := ScanAll(LEGACY_START, smf.tracks);
            track.tpqn == FinalTpqn(scanned.tpqn) && Datas(track.notes) == scanned.notes
    ensures forall k :: 0 <= k < |track.notes| ==> fresh(track.notes[k]) && track.notes[k].State() == Idle
    ensures Distinct(track.notes)
  {
    var offset := 0;
    var pressedKeys: map<U7, int> := map[];
    var notes: seq<Note> := [];
    var tpqn := TEMPO_UNSET;
    var i := 0;
    assert smf.tracks[0..] == smf.tracks;
    while i < |smf.tracks|
      invariant 0 <= i <= |smf.tracks|
      invariant ScanAll(LEGACY_START, smf.tracks)
                == ScanAll(Legacy(offset, pressedKeys, Datas(notes), tpqn), smf.tracks[i..])
      invariant forall k :: 0 <= k < |notes| ==> fresh(notes[k]) && notes[k].State() == Idle
      invariant Distinct(notes)
    {
      assert smf.tracks[i..][0] == smf.tracks[i] && smf.tracks[i..][1..] == smf.tracks[i + 1..];
      ghost var before := notes;
      offset, pressedKeys, notes, tpqn := ReadTrack(offset, pressedKeys, notes, tpqn, smf.tracks[i]);
      assert forall k :: 0 <= k < |before| ==> notes[k] == before[k];
      i := i + 1;
    }
    assert smf.tracks[i..] == [];
    if tpqn == TEMPO_UNSET {
      tpqn := DEFAULT_TPQN;
    }
    track := Track(tpqn, notes);
  }

  // ----- The frame loop of `main` -----

  /** `tpqn / (frame_interval_nano / 1000) / 6` in unsigned integer division. */
  function TicksPerFrame(tpqn: nat): (r: nat)
    ensures r * 99996 <= tpqn < (r + 1) * 99996
  {
    var micros := FRAME_INTERVAL_NANO / 1000;
    assert micros == 16666;
    var a := tpqn / micros;
    assert 16666 * a <= tpqn < 16666 * a + 16666;
    assert 6 * (a / 6) <= a < 6 * (a / 6) + 6;
    a / 6
  }

  /** The value of `curr_tick` when frame `n` (counted from 0) is drawn. */
  function FrameTick(tpqn: nat, n: nat): (t: int)
    ensures t >= -TICKSCENE_WIDTH
  {
    -TICKSCENE_WIDTH + n * TicksPerFrame(tpqn)
  }

  /** The interval tests of a note on the first `n` frames. */
  function Flags(d: NoteData, tpqn: nat, n: nat): (flags: seq<bool>)
    ensures |flags| == n
  {
    seq(n, f requires 0 <= f < n => Sounding(d, FrameTick(tpqn, f)))
  }

  /** The states of all notes after the first `f` frames, from the states `acts`. */
  function StatesAfter(acts: seq<Activity>, ds: seq<NoteData>, tpqn: nat, f: nat): (r: seq<Activity>)
    requires |acts| == |ds|
    ensures |r| == |ds|
  {
    seq(|ds|, i requires 0 <= i < |ds| => Replay(acts[i], Flags(ds[i], tpqn, f)))
  }

  /** Every key of `keys` belongs to a note that passes its one-shot test at tick `t`. */
  predicate AllFire(ds: seq<NoteData>, acts: seq<Activity>, t: int, keys: seq<U7>)
    requires |ds| == |acts|
  {
    forall j :: 0 <= j < |keys| ==>
      exists i :: 0 <= i < |ds| && ds[i].key == keys[j] && Triggers(acts[i], Sounding(ds[i], t))
  }

  lemma AllFireSnoc(ds: seq<NoteData>, acts: seq<Activity>, t: int, earlier: seq<U7>)
    requires |ds| == |acts| && ds != []
    requires AllFire(ds[..|ds| - 1], acts[..|ds| - 1], t, earlier)
    ensures AllFire(ds, acts, t, earlier)
    ensures var n := |ds| - 1;
            Triggers(acts[n], Sounding(ds[n], t)) ==> AllFire(ds, acts, t, earlier + [ds[n].key])
  {
    var n := |ds| - 1;
    forall j | 0 <= j < |earlier|
      ensures exists i :: 0 <= i < |ds| && ds[i].key == earlier[j] && Triggers(acts[i], Sounding(ds[i], t))
    {
      var i :| 0 <= i < n && ds[..n][i].key == earlier[j] && Triggers(acts[..n][i], Sounding(ds[..n][i], t));
      assert ds[i] == ds[..n][i] && acts[i] == acts[..n][i];
    }
    if Triggers(acts[n], Sounding(ds[n], t)) {
      var keys := earlier + [ds[n].key];
      forall j | 0 <= j < |keys|
        ensures exists i :: 0 <= i < |ds| && ds[i].key == keys[j] && Triggers(acts[i], Sounding(ds[i], t))
      {
        if j == |earlier| {
          assert ds[n].key == keys[j];
        } else {
          assert keys[j] == earlier[j];
        }
      }
    }
  }

  /** The keys whose sound a frame starts, in note order: the notes for which
      `note.tick(t) && note.pressed_ticks == 1` holds. Each fired key is the key of such a
      note. */
  function Fired(ds: seq<NoteData>, acts: seq<Activity>, t: int): (keys: seq<U7>)
    requires |ds| == |acts|
    ensures |keys| <= |ds|
    ensures AllFire(ds, acts, t, keys)
  {
    if ds == [] then []
    else
      var n := |ds| - 1;
      var earlier := Fired(ds[..n], acts[..n], t);
      AllFireSnoc(ds, acts, t, earlier);
      if Triggers(acts[n], Sounding(ds[n], t)) then earlier + [ds[n].key] else earlier
  }

  /** The states of all notes after one tick at `t`. */
  function StepAll(acts: seq<Activity>, ds: seq<NoteData>, t: int): (r: seq<Activity>)
    requires |acts| == |ds|
    ensures |r| == |ds|
  {
    seq(|ds|, i requires 0 <= i < |ds| => Step(acts[i], Sounding(ds[i], t)))
  }

  lemma StatesAfterSnoc(acts: seq<Activity>, ds: seq<NoteData>, tpqn: nat, f: nat)
    requires |acts| == |ds|
    ensures StatesAfter(acts, ds, tpqn, f + 1)
            == StepAll(StatesAfter(acts, ds, tpqn, f), ds, FrameTick(tpqn, f))
  {
    forall i | 0 <= i < |ds|
      ensures StatesAfter(acts, ds, tpqn, f + 1)[i]
              == StepAll(StatesAfter(acts, ds, tpqn, f), ds, FrameTick(tpqn, f))[i]
    {
      FlagsSnoc(ds[i], tpqn, acts[i], f);
    }
  }

  lemma FlagsSnoc(d: NoteData, tpqn: nat, a: Activity, f: nat)
    ensures Replay(a, Flags(d, tpqn, f + 1)) == Step(Replay(a, Flags(d, tpqn, f)), Sounding(d, FrameTick(tpqn, f)))
  {
    assert Flags(d, tpqn, f + 1)[..f] == Flags(d, tpqn, f);
  }

  /** The body of the main loop that touches notes: tick every note at `currTick` and collect
      the keys whose one-shot test holds. */
  method Frame(notes: seq<Note>, currTick: int) returns (fired: seq<U7>)
    requires Distinct(notes)
    modifies notes
    ensures States(notes) == StepAll(old(States(notes)), Datas(notes), currTick)
    ensures fired == Fired(Datas(notes), old(States(notes)), currTick)
  {
    ghost var ds := Datas(notes);
    ghost var acts := States(notes);
    fired := [];
    var k := 0;
    while k < |notes|
      invariant 0 <= k <= |notes|
      invariant forall i :: 0 <= i < k ==>
                  notes[i].State() == Step(old(notes[i].State()), Sounding(notes[i].Data(), currTick))
      invariant forall i :: k <= i < |notes| ==> notes[i].State() == old(notes[i].State())
      invariant fired == Fired(ds[..k], acts[..k], currTick)
    {
      var active := notes[k].Tick(currTick);
      assert ds[..k + 1][..k] == ds[..k] && acts[..k + 1][..k] == acts[..k];
      if active && notes[k].pressedTicks == 1 {
        fired := fired + [notes[k].key];
      }
      k := k + 1;
    }
    assert ds[..k] == ds && acts[..k] == acts;
    assert forall i :: 0 <= i < |notes| ==> States(notes)[i] == StepAll(acts, ds, currTick)[i];
  }

  /** The keys fired on each of the first `n` frames, from the note states `acts`. */
  function FrameLog(acts: seq<Activity>, ds: seq<NoteData>, tpqn: nat, n: nat): (log: seq<seq<U7>>)
    requires |acts| == |ds|
    ensures |log| == n
    ensures forall f :: 0 <= f < n ==>
              log[f] == Fired(ds, StatesAfter(acts, ds, tpqn, f), FrameTick(tpqn, f))
  {
    if n == 0 then []
    else FrameLog(acts, ds, tpqn, n - 1) + [Fired(ds, StatesAfter(acts, ds, tpqn, n - 1), FrameTick(tpqn, n - 1))]
  }

  lemma FrameTickSnoc(tpqn: nat, n: nat)
    ensures FrameTick(tpqn, n + 1) == FrameTick(tpqn, n) + TicksPerFrame(tpqn)
  {
    var t := TicksPerFrame(tpqn);
    assert (n + 1) * t == n * t + t;
  }

  /** `frames` iterations of the main loop: `curr_tick` starts at `-TICKSCENE_WIDTH` and grows
      by `ticks_per_frame` after each frame; every note is ticked once per frame. The window
      and its quit event are not modelled: the loop runs for a given number of frames. */
  method Run(track: Track, frames: nat) returns (log: seq<seq<U7>>, currTick: int)
    requires track.tpqn >= 0
    requires Distinct(track.notes)
    modifies track.notes
    ensures currTick == FrameTick(track.tpqn, frames)
    ensures States(track.notes) == StatesAfter(old(States(track.notes)), Datas(track.notes), track.tpqn, frames)
    ensures log == FrameLog(old(States(track.notes)), Datas(track.notes), track.tpqn, frames)
  {
    var notes := track.notes;
    ghost var ds := Datas(notes);
    ghost var acts := States(notes);
    var ticksPerFrame := track.tpqn / (FRAME_INTERVAL_NANO / 1000) / 6;
    assert ticksPerFrame == TicksPerFrame(track.tpqn);
    currTick := -TICKSCENE_WIDTH;
    log := [];
    var f := 0;
    while f < frames
      invariant 0 <= f <= frames
      invariant currTick == FrameTick(track.tpqn, f)
      invariant States(notes) == StatesAfter(acts, ds, track.tpqn, f)
      invariant log == FrameLog(acts, ds, track.tpqn, f)
    {
      var fired := Frame(notes, currTick);
      StatesAfterSnoc(acts, ds, track.tpqn, f);
      FrameTickSnoc(track.tpqn, f);
      log := log + [fired];
      currTick := currTick + ticksPerFrame;
      f := f + 1;
    }
  }
}
