/**
 * Properties of the src/main.rs ingest and frame loop, stated about the specification
 * functions of module Visualizer that its methods are proved against.
 */
module VisualizerFacts {
  import opened Wrappers
  import opened MidiEvents
  import opened Notes
  import opened Visualizer

  // ----- Tempo -----

  /** The value of the first tempo event of `evs`, if it has one. */
  function FirstTempo(evs: seq<TrackEvent>): Option<int>
  {
    if evs == [] then None
    else if evs[0].kind.Tempo? then Some(evs[0].kind.mspq)
    else FirstTempo(evs[1..])
  }

  function TempoCount(evs: seq<TrackEvent>): nat
  {
    if evs == [] then 0 else (if evs[0].kind.Tempo? then 1 else 0) + TempoCount(evs[1..])
  }

  /** The tempo a state holds after meeting the events `evs`: the one it had, or else the
      first one of `evs`. */
  function TempoAfter(tpqn: int, evs: seq<TrackEvent>): int
  {
    if tpqn != TEMPO_UNSET then tpqn
    else match FirstTempo(evs) case Some(v) => v case None => TEMPO_UNSET
  }

  lemma {:induction false} FirstTempoAppend(a: seq<TrackEvent>, b: seq<TrackEvent>)
    ensures FirstTempo(a + b) == if FirstTempo(a).Some? then FirstTempo(a) else FirstTempo(b)
    ensures TempoCount(a + b) == TempoCount(a) + TempoCount(b)
  {
    if a == [] {
      assert a + b == b;
    } else {
      assert (a + b)[0] == a[0] && (a + b)[1..] == a[1..] + b;
      FirstTempoAppend(a[1..], b);
    }
  }

  /** One track keeps a tempo that was set, and otherwise takes its first tempo event. */
  lemma {:induction false} TrackTempo(st: Legacy, evs: seq<TrackEvent>)
    ensures ScanTrack(st, evs).tpqn == TempoAfter(st.tpqn, evs)
    decreases |evs|
  {
    if evs != [] && !Breaks(st, evs[0]) {
      TrackTempo(LegacyStep(st, evs[0]), evs[1..]);
    }
  }

  /** The first tempo event of the whole file, in track order, wins: a later one either is
      skipped or ends its track's scan, and never changes `tpqn`. */
  lemma {:induction false} FirstTempoWins(st: Legacy, tracks: seq<seq<TrackEvent>>)
    ensures ScanAll(st, tracks).tpqn == TempoAfter(st.tpqn, Flatten(tracks))
    decreases |tracks|
  {
    if tracks != [] {
      TrackTempo(st, tracks[0]);
      FirstTempoWins(ScanTrack(st, tracks[0]), tracks[1..]);
      FirstTempoAppend(tracks[0], Flatten(tracks[1..]));
      FirstTempoIsU24(tracks[0]);
    }
  }

  /** `Track::from_midi` ends with the file's first tempo, or 500000 when it has none; either
      way a 24-bit value. */
  lemma IngestTempo(tracks: seq<seq<TrackEvent>>)
    ensures FinalTpqn(ScanAll(LEGACY_START, tracks).tpqn)
            == match FirstTempo(Flatten(tracks)) case Some(v) => v case None => DEFAULT_TPQN
    ensures 0 <= FinalTpqn(ScanAll(LEGACY_START, tracks).tpqn) < 0x100_0000
  {
    FirstTempoWins(LEGACY_START, tracks);
    FirstTempoIsU24(Flatten(tracks));
  }

  lemma {:induction false} FirstTempoIsU24(evs: seq<TrackEvent>)
    ensures FirstTempo(evs).Some? ==> 0 <= FirstTempo(evs).value < 0x100_0000
  {
    if evs != [] && !evs[0].kind.Tempo? {
      FirstTempoIsU24(evs[1..]);
    }
  }

  // ----- The `break` -----

  /** Once a tempo is set, a track's scan ends at its next tempo event: whatever follows it in
      that track has no effect. */
  lemma {:induction false} BreakIgnoresRest(st: Legacy, evs: seq<TrackEvent>, j: nat)
    requires j < |evs| && evs[j].kind.Tempo?
    requires st.tpqn != TEMPO_UNSET || exists i :: 0 <= i < j && evs[i].kind.Tempo?
    ensures ScanTrack(st, evs) == ScanTrack(st, evs[..j + 1])
    decreases j
  {
    var prefix := evs[..j + 1];
    assert prefix[0] == evs[0];
    if !Breaks(st, evs[0]) {
      assert j > 0;
      assert prefix[1..] == evs[1..][..j];
      var next := LegacyStep(st, evs[0]);
      if next.tpqn == TEMPO_UNSET {
        var i :| 0 <= i < j && evs[i].kind.Tempo?;
        assert i > 0;
        assert evs[1..][i - 1].kind.Tempo?;
      }
      BreakIgnoresRest(next, evs[1..], j - 1);
    }
  }

  /** The tempo event that breaks is itself consumed only for its delta. */
  lemma BreakMovesOffsetOnly(st: Legacy, evs: seq<TrackEvent>)
    requires evs != [] && Breaks(st, evs[0])
    ensures ScanTrack(st, evs) == st.(offset := st.offset + evs[0].delta)
  {
  }

  // ----- The shared offset -----

  /** With no `break`, a track's scan ends at its starting offset plus all its deltas. */
  lemma {:induction false} TrackOffset(st: Legacy, evs: seq<TrackEvent>)
    requires st.tpqn == TEMPO_UNSET ==> TempoCount(evs) <= 1
    requires st.tpqn != TEMPO_UNSET ==> TempoCount(evs) == 0
    ensures ScanTrack(st, evs).offset == st.offset + SumDeltas(evs)
    decreases |evs|
  {
    if evs != [] {
      assert !Breaks(st, evs[0]);
      var next := LegacyStep(st, evs[0]);
      assert evs[0].kind.Tempo? ==> next.tpqn == evs[0].kind.mspq != TEMPO_UNSET;
      TrackOffset(next, evs[1..]);
    }
  }

  /** The offset is never reset between tracks: when the file holds at most one tempo event
      (so no track breaks), the final offset is the sum of the deltas of every track. */
  lemma {:induction false} SharedOffsetAccumulates(st: Legacy, tracks: seq<seq<TrackEvent>>)
    requires st.tpqn == TEMPO_UNSET ==> TempoCount(Flatten(tracks)) <= 1
    requires st.tpqn != TEMPO_UNSET ==> TempoCount(Flatten(tracks)) == 0
    ensures ScanAll(st, tracks).offset == st.offset + SumDeltas(Flatten(tracks))
    decreases |tracks|
  {
    if tracks != [] {
      FirstTempoAppend(tracks[0], Flatten(tracks[1..]));
      SumDeltasAppend(tracks[0], Flatten(tracks[1..]));
      TrackOffset(st, tracks[0]);
      TrackTempo(st, tracks[0]);
      var next := ScanTrack(st, tracks[0]);
      if st.tpqn == TEMPO_UNSET && TempoCount(tracks[0]) == 1 {
        FirstTempoSome(tracks[0]);
        FirstTempoIsU24(tracks[0]);
      } else if st.tpqn == TEMPO_UNSET {
        FirstTempoSome(tracks[0]);
      }
      SharedOffsetAccumulates(next, tracks[1..]);
    }
  }

  lemma {:induction false} FirstTempoSome(evs: seq<TrackEvent>)
    ensures FirstTempo(evs).Some? <==> TempoCount(evs) > 0
  {
    if evs != [] {
      FirstTempoSome(evs[1..]);
    }
  }

  // ----- Notes -----

  /** The ingest's invariant: presses lie between tick 0 and the offset, and every completed
      note lies inside that range with a non-negative duration. */
  predicate LegacyFit(st: Legacy)
  {
    && 0 <= st.offset
    && (forall k :: k in st.pressedKeys ==> 0 <= st.pressedKeys[k] <= st.offset)
    && (forall j :: 0 <= j < |st.notes| ==>
          0 <= st.notes[j].startTick && 0 <= st.notes[j].duration
          && st.notes[j].startTick + st.notes[j].duration <= st.offset)
  }

  lemma StepKeepsFit(st: Legacy, e: TrackEvent)
    requires LegacyFit(st)
    ensures LegacyFit(Moved(st, e))
    ensures !Breaks(st, e) ==> LegacyFit(LegacyStep(st, e))
  {
    if !Breaks(st, e) {
      var next := LegacyStep(st, e);
      assert forall j :: 0 <= j < |st.notes| ==> next.notes[j] == st.notes[j];
    }
  }

  lemma {:induction false} TrackKeepsFit(st: Legacy, evs: seq<TrackEvent>)
    requires LegacyFit(st)
    ensures LegacyFit(ScanTrack(st, evs))
    decreases |evs|
  {
    if evs != [] {
      StepKeepsFit(st, evs[0]);
      if !Breaks(st, evs[0]) {
        TrackKeepsFit(LegacyStep(st, evs[0]), evs[1..]);
      }
    }
  }

  /** Every note `Track::from_midi` emits starts at or after tick 0, has a non-negative
      duration and ends no later than the final offset. */
  lemma {:induction false} IngestNotesFit(st: Legacy, tracks: seq<seq<TrackEvent>>)
    requires LegacyFit(st)
    ensures LegacyFit(ScanAll(st, tracks))
    decreases |tracks|
  {
    if tracks != [] {
      TrackKeepsFit(st, tracks[0]);
      IngestNotesFit(ScanTrack(st, tracks[0]), tracks[1..]);
    }
  }

  // ----- Scenarios -----

  /** A key pressed in one track is released by a NoteOff in the next one, at the shared
      offset. */
  lemma PressCarriesAcrossTracks()
    ensures ScanAll(LEGACY_START, [[TrackEvent(3, NoteOn(60, 100))], [TrackEvent(5, NoteOff(60, 0))]]).notes
            == [NoteData(3, 5, 60)]
  {
  }

  /** A velocity-0 NoteOn is a press like any other: it moves the press tick instead of
      completing the note. */
  lemma VelocityZeroNoteOnDoesNotClose()
    ensures ScanAll(LEGACY_START, [[TrackEvent(0, NoteOn(60, 100)), TrackEvent(10, NoteOn(60, 0)),
                                    TrackEvent(5, NoteOff(60, 0))]]).notes
            == [NoteData(10, 5, 60)]
  {
  }

  /** A second tempo event ends its track (the note after it is never read), but the next
      track is still scanned, from the offset the breaking event reached. */
  lemma SecondTempoSkipsRestOfTrack()
    ensures var st := ScanAll(LEGACY_START,
                              [[TrackEvent(0, Tempo(1000)), TrackEvent(3, Tempo(2000)),
                                TrackEvent(0, NoteOn(1, 100)), TrackEvent(4, NoteOff(1, 0))],
                               [TrackEvent(1, NoteOn(2, 100)), TrackEvent(1, NoteOff(2, 0))]]);
            st.tpqn == 1000 && st.notes == [NoteData(4, 1, 2)] && st.offset == 5
  {
  }

  // ----- The frame loop -----

  /** With the default tempo the scene advances 5 ticks per frame. */
  lemma DefaultTicksPerFrame(n: nat)
    ensures TicksPerFrame(DEFAULT_TPQN) == 5
    ensures FrameTick(DEFAULT_TPQN, n) == -768 + 5 * n
  {
  }

  /** Any tempo the ingest can produce gives at most 167 ticks per frame, so the
      `ticks_per_frame as i32` cast is exact. */
  lemma TicksPerFrameBound(tpqn: nat)
    requires tpqn < 0x100_0000
    ensures TicksPerFrame(tpqn) <= 167
  {
  }

  /** At tempi faster than 99996 microseconds per quarter note `ticks_per_frame` is 0, so
      `curr_tick` stays at `-TICKSCENE_WIDTH` on every frame and no note that starts after it
      ever sounds. */
  lemma FastTempoFreezesScene(tpqn: nat, d: NoteData, n: nat)
    requires tpqn < 99996
    requires d.startTick > -TICKSCENE_WIDTH
    ensures TicksPerFrame(tpqn) == 0
    ensures FrameTick(tpqn, n) == -TICKSCENE_WIDTH
    ensures !Sounding(d, FrameTick(tpqn, n))
  {
  }

  /** Key 127 can pass the one-shot test like any other key, although the tone table of
      src/audio.rs has entries for keys 0 to 126 only. */
  lemma TopKeyCanFire()
    ensures Fired([NoteData(0, 10, 127)], [Idle], 0) == [127]
  {
  }

  lemma FrameTickMonotone(tpqn: nat, g: nat, f: nat)
    requires g <= f
    ensures FrameTick(tpqn, g) <= FrameTick(tpqn, f)
  {
    var t := TicksPerFrame(tpqn);
    assert f * t == g * t + (f - g) * t;
  }

  /** A note starting in view and lasting at least one frame step sounds on some frame. */
  lemma LongNoteIsSeen(d: NoteData, tpqn: nat)
    requires TicksPerFrame(tpqn) > 0
    requires d.startTick >= -TICKSCENE_WIDTH
    requires d.duration >= TicksPerFrame(tpqn)
    ensures exists f: nat :: Sounding(d, FrameTick(tpqn, f))
  {
    var t := TicksPerFrame(tpqn);
    var x := d.startTick + TICKSCENE_WIDTH;
    var q := (x + t - 1) / t;
    assert x + t - 1 == q * t + (x + t - 1) % t;
    assert Sounding(d, FrameTick(tpqn, q));
  }

  /** Note `i` passes its one-shot test at tick `t` and has key `k`. */
  predicate FiresKey(ds: seq<NoteData>, acts: seq<Activity>, t: int, i: int, k: U7)
    requires |ds| == |acts|
  {
    0 <= i < |ds| && ds[i].key == k && Triggers(acts[i], Sounding(ds[i], t))
  }

  /** A note that passes its one-shot test has its key in the frame's fired list. */
  lemma {:induction false} FiringKeyListed(ds: seq<NoteData>, acts: seq<Activity>, t: int, i: int, k: U7)
    requires |ds| == |acts|
    requires FiresKey(ds, acts, t, i, k)
    ensures k in Fired(ds, acts, t)
  {
    var n := |ds| - 1;
    var earlier := Fired(ds[..n], acts[..n], t);
    if i < n {
      assert FiresKey(ds[..n], acts[..n], t, i, k);
      FiringKeyListed(ds[..n], acts[..n], t, i, k);
      assert k in earlier;
    } else {
      assert Fired(ds, acts, t) == earlier + [k];
    }
  }

  /** Keys in a frame's fired list are exactly the keys of notes whose one-shot test holds. */
  lemma FiredMembers(ds: seq<NoteData>, acts: seq<Activity>, t: int, k: U7)
    requires |ds| == |acts|
    ensures k in Fired(ds, acts, t) <==> exists i :: FiresKey(ds, acts, t, i, k)
  {
    var keys := Fired(ds, acts, t);
    if k in keys {
      var j :| 0 <= j < |keys| && keys[j] == k;
      var i :| 0 <= i < |ds| && ds[i].key == keys[j] && Triggers(acts[i], Sounding(ds[i], t));
      assert FiresKey(ds, acts, t, i, k);
    }
    if exists i :: FiresKey(ds, acts, t, i, k) {
      var i :| FiresKey(ds, acts, t, i, k);
      FiringKeyListed(ds, acts, t, i, k);
    }
  }

  /** Starting from a new note, its sound fires on a frame exactly when that is the first frame
      on which the note sounds: the frame ticks only grow, so its sounding frames are one run,
      and the one-shot test holds only at the start of a run. */
  lemma FiresOnFirstSoundingFrame(d: NoteData, tpqn: nat, f: nat)
    ensures Triggers(Replay(Idle, Flags(d, tpqn, f)), Sounding(d, FrameTick(tpqn, f)))
            <==> Sounding(d, FrameTick(tpqn, f)) && forall g :: 0 <= g < f ==> !Sounding(d, FrameTick(tpqn, g))
  {
    var flags := Flags(d, tpqn, f + 1);
    assert flags[..f] == Flags(d, tpqn, f);
    TriggerIsRisingEdge(Idle, flags, f);
    if Sounding(d, FrameTick(tpqn, f)) && f > 0 && !Sounding(d, FrameTick(tpqn, f - 1)) {
      forall g | 0 <= g < f
        ensures !Sounding(d, FrameTick(tpqn, g))
      {
        FrameTickMonotone(tpqn, g, f - 1);
        FrameTickMonotone(tpqn, f - 1, f);
      }
    }
  }
}
