/**
 * Properties of the src/midi.rs ingest and tempo lookup, stated about the specification
 * functions of module MidiFile that `MidiFile.FromMidi` is proved against.
 */
module MidiFileFacts {
  import opened Wrappers
  import opened MidiEvents
  import opened Notes
  import OrderedMap
  import opened MidiFile

  // ----- The tempo writes and end-of-track marks of a scan -----

  /** The `mspq.insert(offset, tempo)` calls one track makes, with their absolute ticks. */
  function TrackTempoWrites(offset: int, evs: seq<TrackEvent>): seq<OrderedMap.Entry>
    decreases |evs|
  {
    if evs == [] then []
    else
      var at := offset + evs[0].delta;
      var rest := TrackTempoWrites(at, evs[1..]);
      if evs[0].kind.Tempo? then [OrderedMap.Entry(at, evs[0].kind.mspq)] + rest else rest
  }

  /** All tempo writes of an ingest, track after track. */
  function TempoWrites(tracks: seq<seq<TrackEvent>>): seq<OrderedMap.Entry>
    decreases |tracks|
  {
    if tracks == [] then [] else TrackTempoWrites(0, tracks[0]) + TempoWrites(tracks[1..])
  }

  /** The ticks at which one track's EndOfTrack events occur. */
  function TrackEndMarks(offset: int, evs: seq<TrackEvent>): seq<int>
    decreases |evs|
  {
    if evs == [] then []
    else
      var at := offset + evs[0].delta;
      var rest := TrackEndMarks(at, evs[1..]);
      if evs[0].kind.EndOfTrack? then [at] + rest else rest
  }

  function EndMarks(tracks: seq<seq<TrackEvent>>): seq<int>
    decreases |tracks|
  {
    if tracks == [] then [] else TrackEndMarks(0, tracks[0]) + EndMarks(tracks[1..])
  }

  predicate HasTempo(tracks: seq<seq<TrackEvent>>)
  {
    exists i, j :: 0 <= i < |tracks| && 0 <= j < |tracks[i]| && tracks[i][j].kind.Tempo?
  }

  /** A track's scan performs exactly its tempo writes on the map it is given. */
  lemma {:induction false} ScanEventsTempo(tl: Timeline, st: TrackScan, evs: seq<TrackEvent>)
    ensures ScanEvents(tl, st, evs).0.mspq == OrderedMap.InsertAll(tl.mspq, TrackTempoWrites(st.offset, evs))
    decreases |evs|
  {
    if evs != [] {
      var next := Advance(tl, st, evs[0]);
      var at := st.offset + evs[0].delta;
      var rest := TrackTempoWrites(at, evs[1..]);
      ScanEventsTempo(next.0, next.1, evs[1..]);
      match evs[0].kind {
        case Tempo(v) =>
          var ws := [OrderedMap.Entry(at, v)] + rest;
          assert ws[0] == OrderedMap.Entry(at, v) && ws[1..] == rest;
          assert next.0.mspq == OrderedMap.Insert(tl.mspq, at, v);
        case _ =>
          assert next.0.mspq == tl.mspq;
      }
    }
  }

  /** The whole ingest performs all tempo writes, in track order, on the map it starts from. */
  lemma {:induction false} ScanTracksTempo(tl: Timeline, tracks: seq<seq<TrackEvent>>)
    ensures ScanTracks(tl, tracks).0.mspq == OrderedMap.InsertAll(tl.mspq, TempoWrites(tracks))
    decreases |tracks|
  {
    if tracks != [] {
      var first := ScanEvents(tl, FRESH_TRACK, tracks[0]);
      ScanEventsTempo(tl, FRESH_TRACK, tracks[0]);
      ScanTracksTempo(first.0, tracks[1..]);
      OrderedMap.InsertAllAppend(tl.mspq, TrackTempoWrites(0, tracks[0]), TempoWrites(tracks[1..]));
    }
  }

  /** The length a track's scan leaves: its last EndOfTrack tick, else the one it was given. */
  lemma {:induction false} ScanEventsLength(tl: Timeline, st: TrackScan, evs: seq<TrackEvent>)
    ensures var marks := TrackEndMarks(st.offset, evs);
            ScanEvents(tl, st, evs).0.length == if marks == [] then tl.length else marks[|marks| - 1]
    decreases |evs|
  {
    if evs != [] {
      var next := Advance(tl, st, evs[0]);
      ScanEventsLength(next.0, next.1, evs[1..]);
    }
  }

  /** Tempo writes occur at non-negative ticks, never at the `i64::MIN` sentinel. */
  lemma {:induction false} TempoWritesAtTicks(offset: int, evs: seq<TrackEvent>)
    requires offset >= 0
    ensures forall k :: k in OrderedMap.Keys(TrackTempoWrites(offset, evs)) ==> k >= offset
    decreases |evs|
  {
    if evs != [] {
      var at := offset + evs[0].delta;
      TempoWritesAtTicks(at, evs[1..]);
      var ws := TrackTempoWrites(offset, evs);
      if evs[0].kind.Tempo? {
        OrderedMap.KeysOfTail(ws);
        assert ws[1..] == TrackTempoWrites(at, evs[1..]);
      }
    }
  }

  lemma {:induction false} AllTempoWritesAtTicks(tracks: seq<seq<TrackEvent>>)
    ensures forall k :: k in OrderedMap.Keys(TempoWrites(tracks)) ==> k >= 0
    decreases |tracks|
  {
    if tracks != [] {
      TempoWritesAtTicks(0, tracks[0]);
      AllTempoWritesAtTicks(tracks[1..]);
      KeysOfConcat(TrackTempoWrites(0, tracks[0]), TempoWrites(tracks[1..]));
    }
  }

  lemma KeysOfConcat(a: seq<OrderedMap.Entry>, b: seq<OrderedMap.Entry>)
    ensures OrderedMap.Keys(a + b) == OrderedMap.Keys(a) + OrderedMap.Keys(b)
  {
    forall k | k in OrderedMap.Keys(a + b) ensures k in OrderedMap.Keys(a) + OrderedMap.Keys(b) {
      var e :| e in a + b && e.key == k;
    }
    forall k | k in OrderedMap.Keys(a) + OrderedMap.Keys(b) ensures k in OrderedMap.Keys(a + b) {
      if k in OrderedMap.Keys(a) {
        var e :| e in a && e.key == k;
        assert e in a + b;
      } else {
        var e :| e in b && e.key == k;
        assert e in a + b;
      }
    }
  }

  /** A track writes a tempo exactly when it holds a Tempo event. */
  lemma {:induction false} TrackTempoWritesEmpty(offset: int, evs: seq<TrackEvent>)
    ensures TrackTempoWrites(offset, evs) == [] <==> forall j :: 0 <= j < |evs| ==> !evs[j].kind.Tempo?
    decreases |evs|
  {
    if evs != [] {
      TrackTempoWritesEmpty(offset + evs[0].delta, evs[1..]);
      assert forall j :: 1 <= j < |evs| ==> evs[j] == evs[1..][j - 1];
    }
  }

  lemma {:induction false} TempoWritesEmpty(tracks: seq<seq<TrackEvent>>)
    ensures TempoWrites(tracks) == [] <==> !HasTempo(tracks)
    decreases |tracks|
  {
    if tracks != [] {
      TrackTempoWritesEmpty(0, tracks[0]);
      TempoWritesEmpty(tracks[1..]);
      if HasTempo(tracks[1..]) {
        var i, j :| 0 <= i < |tracks[1..]| && 0 <= j < |tracks[1..][i]| && tracks[1..][i][j].kind.Tempo?;
        assert tracks[i + 1][j].kind.Tempo?;
      }
      if HasTempo(tracks) {
        var i, j :| 0 <= i < |tracks| && 0 <= j < |tracks[i]| && tracks[i][j].kind.Tempo?;
        if i > 0 { assert tracks[1..][i - 1][j].kind.Tempo?; }
      }
    }
  }

  // ----- The tempo map an ingest produces -----

  /** The shape every ingested tempo map has: the sentinel entry is still there with its
      default value, and every other key is a non-negative tick. */
  predicate IngestedTempoMap(mspq: OrderedMap.Map)
  {
    && OrderedMap.Get(mspq, I64_MIN) == Some(DEFAULT_MSPQ)
    && forall k :: k in OrderedMap.Keys(mspq) ==> k == I64_MIN || k >= 0
  }

  /** Every tempo event sets `mspq[tick] := value`; the last write to a tick wins, across all
      tracks; ticks never written (the sentinel among them) keep their `MIDI::new` value. */
  lemma TempoLastWriteWins(tracks: seq<seq<TrackEvent>>, k: int)
    ensures OrderedMap.Get(ScanTracks(START, tracks).0.mspq, k)
            == match OrderedMap.LastWrite(TempoWrites(tracks), k)
               case Some(v) => Some(v)
               case None => OrderedMap.Get(DEFAULT_TEMPO_MAP, k)
  {
    ScanTracksTempo(START, tracks);
    OrderedMap.InsertAllGet(DEFAULT_TEMPO_MAP, TempoWrites(tracks), k);
  }

  /** The ingest never removes or overwrites the `i64::MIN` sentinel. */
  lemma IngestKeepsSentinel(tracks: seq<seq<TrackEvent>>)
    ensures IngestedTempoMap(ScanTracks(START, tracks).0.mspq)
  {
    var ws := TempoWrites(tracks);
    ScanTracksTempo(START, tracks);
    AllTempoWritesAtTicks(tracks);
    OrderedMap.LastWriteOfUnwritten(ws, I64_MIN);
    OrderedMap.InsertAllGet(DEFAULT_TEMPO_MAP, ws, I64_MIN);
    OrderedMap.InsertAllKeys(DEFAULT_TEMPO_MAP, ws);
    assert OrderedMap.Get(DEFAULT_TEMPO_MAP, I64_MIN) == Some(DEFAULT_MSPQ);
    assert OrderedMap.Keys(DEFAULT_TEMPO_MAP) == {I64_MIN} by {
      assert DEFAULT_TEMPO_MAP[0] in DEFAULT_TEMPO_MAP;
    }
  }

  /** The keys of an ingested map: the sentinel plus the tick of every tempo write. */
  lemma IngestKeys(tracks: seq<seq<TrackEvent>>)
    ensures OrderedMap.Keys(ScanTracks(START, tracks).0.mspq) == {I64_MIN} + OrderedMap.Keys(TempoWrites(tracks))
  {
    ScanTracksTempo(START, tracks);
    OrderedMap.InsertAllKeys(DEFAULT_TEMPO_MAP, TempoWrites(tracks));
    assert OrderedMap.Keys(DEFAULT_TEMPO_MAP) == {I64_MIN} by {
      assert DEFAULT_TEMPO_MAP[0] in DEFAULT_TEMPO_MAP;
    }
  }

  /** A map holding the sentinel and one more key has at least two entries. */
  lemma TwoKeysTwoEntries(m: OrderedMap.Map, k: int)
    requires I64_MIN in OrderedMap.Keys(m) && k in OrderedMap.Keys(m) && k != I64_MIN
    ensures |m| >= 2
  {
    OrderedMap.LenIsKeyCount(m);
    SubsetCard({I64_MIN, k}, OrderedMap.Keys(m));
  }

  /** The "no tempo" warning (`mspq.len() == 1`) fires exactly when no track holds a tempo event. */
  lemma NoTempoWarningIff(tracks: seq<seq<TrackEvent>>)
    ensures |ScanTracks(START, tracks).0.mspq| == 1 <==> !HasTempo(tracks)
  {
    var ws := TempoWrites(tracks);
    var m := ScanTracks(START, tracks).0.mspq;
    IngestKeys(tracks);
    TempoWritesEmpty(tracks);
    if ws == [] {
      assert OrderedMap.Keys(ws) == {};
      OrderedMap.LenIsKeyCount(m);
    } else {
      AllTempoWritesAtTicks(tracks);
      assert ws[0] in ws;
      TwoKeysTwoEntries(m, ws[0].key);
    }
  }

  lemma SubsetCard(a: set<int>, b: set<int>)
    requires a <= b
    ensures |a| <= |b|
  {
    assert b == a + (b - a);
  }

  /** `length` is the tick of the last EndOfTrack processed, over all tracks; without one it
      stays `i64::MAX`. */
  lemma {:induction false} LengthIsLastEndOfTrack(tl: Timeline, tracks: seq<seq<TrackEvent>>)
    ensures var marks := EndMarks(tracks);
            ScanTracks(tl, tracks).0.length == if marks == [] then tl.length else marks[|marks| - 1]
    decreases |tracks|
  {
    if tracks != [] {
      var first := ScanEvents(tl, FRESH_TRACK, tracks[0]);
      ScanEventsLength(tl, FRESH_TRACK, tracks[0]);
      LengthIsLastEndOfTrack(first.0, tracks[1..]);
      var a, b := TrackEndMarks(0, tracks[0]), EndMarks(tracks[1..]);
      if b != [] { assert (a + b)[|a + b| - 1] == b[|b| - 1]; }
      else { assert a + b == a; }
    }
  }

  // ----- The tempo lookup -----

  /** With the `i64::MIN` key present, every i64 tick has a floor entry: the `(0, 0)`
      fallback of the lookup is unreachable. */
  lemma LookupNeverMisses(midi: Midi, t: int)
    requires I64_MIN in OrderedMap.Keys(midi.mspq)
    requires I64_MIN <= t
    ensures OrderedMap.Floor(midi.mspq, t).Some?
    ensures exists f :: OrderedMap.IsFloorKey(midi.mspq, t, f)
  {
    var found := OrderedMap.Floor(midi.mspq, t);
    assert OrderedMap.IsFloorKey(midi.mspq, t, found.value.key);
  }

  /** Resolving the segment start that a lookup returned gives the same answer again, when
      the floor key was not clamped to 0. */
  lemma ResolveIsStable(midi: Midi, t: int, w: int, f: int)
    requires I32_MIN <= w <= I32_MAX
    requires OrderedMap.IsFloorKey(midi.mspq, t, f) && f >= PreRollFloor(w)
    ensures GetCurrentTickAndMspq(midi, GetCurrentTickAndMspq(midi, t, w).0, w)
            == GetCurrentTickAndMspq(midi, t, w)
  {
    var r := GetCurrentTickAndMspq(midi, t, w);
    assert r.0 == f;
    assert OrderedMap.IsFloorKey(midi.mspq, f, f);
    var e := OrderedMap.Floor(midi.mspq, f).value;
    var e' := OrderedMap.Floor(midi.mspq, t).value;
    assert e.key == f && e'.key == f;
    OrderedMap.GetSound(midi.mspq, f);
  }

  /** Resolving is not idempotent in pre-roll: with a tempo at tick 0, tick -1 resolves to
      segment 0 with the sentinel's tempo (the floor key `i64::MIN` is clamped to 0), but
      resolving that segment start, tick 0, finds the file's tempo. */
  lemma ResolveNotIdempotentInPreRoll()
    ensures var midi := Midi(ScanTracks(START, [[TrackEvent(0, Tempo(1000))]]).0.mspq, 480, I64_MAX, []);
            && GetCurrentTickAndMspq(midi, -1, 768) == (0, DEFAULT_MSPQ)
            && GetCurrentTickAndMspq(midi, GetCurrentTickAndMspq(midi, -1, 768).0, 768) == (0, 1000)
  {
    var evs := [TrackEvent(0, Tempo(1000))];
    var inserted := OrderedMap.Insert(DEFAULT_TEMPO_MAP, 0, 1000);
    assert DEFAULT_TEMPO_MAP[1..] == [];
    assert OrderedMap.Insert(DEFAULT_TEMPO_MAP[1..], 0, 1000) == [OrderedMap.Entry(0, 1000)];
    assert inserted == [OrderedMap.Entry(I64_MIN, DEFAULT_MSPQ), OrderedMap.Entry(0, 1000)];
    var first := Advance(START, FRESH_TRACK, evs[0]);
    assert first.0.mspq == inserted;
    assert evs[1..] == [];
    assert ScanEvents(START, FRESH_TRACK, evs) == ScanEvents(first.0, first.1, []);
    assert [evs][1..] == [];
    assert ScanTracks(START, [evs]).0 == ScanTracks(first.0, []).0;
    var m := ScanTracks(START, [evs]).0.mspq;
    assert m == inserted;
    assert OrderedMap.Keys(m) == {I64_MIN, 0} by {
      assert m[0] in m && m[1] in m;
    }
    assert OrderedMap.IsFloorKey(m, -1, I64_MIN);
    assert OrderedMap.IsFloorKey(m, 0, 0);
  }

  /** At a scene width of `i32::MIN` the negation wraps, the pre-roll floor is `i32::MIN`
      instead of 2^31, and a tempo change at tick 100 is reported at 100, not clamped to 0. */
  lemma MinWidthWraps()
    ensures var m := [OrderedMap.Entry(I64_MIN, DEFAULT_MSPQ), OrderedMap.Entry(100, 7)];
            GetCurrentTickAndMspq(Midi(m, 480, I64_MAX, []), 100, I32_MIN) == (100, 7)
  {
    var m := [OrderedMap.Entry(I64_MIN, DEFAULT_MSPQ), OrderedMap.Entry(100, 7)];
    assert OrderedMap.Keys(m) == {I64_MIN, 100} by {
      assert m[0] in m && m[1] in m;
    }
    assert OrderedMap.IsFloorKey(m, 100, 100);
  }

  /** On an ingested map, every pre-roll tick (below 0) resolves to segment 0 with the default
      120 bpm, even when the file sets a tempo at tick 0: the floor entry is the sentinel. */
  lemma PreRollUsesDefaultTempo(midi: Midi, t: int, w: int)
    requires IngestedTempoMap(midi.mspq)
    requires I64_MIN <= t < 0
    requires I32_MIN <= w <= I32_MAX
    ensures GetCurrentTickAndMspq(midi, t, w) == (0, DEFAULT_MSPQ)
  {
    OrderedMap.GetSound(midi.mspq, I64_MIN);
    assert OrderedMap.IsFloorKey(midi.mspq, t, I64_MIN);
  }

  /** A map fresh from `MIDI::new` resolves every i64 tick to segment 0 at 120 bpm. */
  lemma NewResolvesEverywhere(ppq: int, t: int, w: int)
    requires I64_MIN <= t <= I64_MAX
    requires I32_MIN <= w <= I32_MAX
    ensures GetCurrentTickAndMspq(New(ppq), t, w) == (0, DEFAULT_MSPQ)
  {
    var m := New(ppq);
    assert OrderedMap.IsFloorKey(m.mspq, t, I64_MIN);
    assert m.mspq[0] in m.mspq;
  }

  // ----- Notes -----

  /** The track part of a scan does not depend on the tempo map or length it is given. */
  lemma {:induction false} NotesIgnoreTimeline(tl1: Timeline, tl2: Timeline, st: TrackScan, evs: seq<TrackEvent>)
    ensures ScanEvents(tl1, st, evs).1 == ScanEvents(tl2, st, evs).1
    decreases |evs|
  {
    if evs != [] {
      var n1, n2 := Advance(tl1, st, evs[0]), Advance(tl2, st, evs[0]);
      assert n1.1 == n2.1;
      NotesIgnoreTimeline(n1.0, n2.0, n1.1, evs[1..]);
    }
  }

  /** Pressed keys and the offset are per track: the notes of track `i` are those of scanning
      that track alone, from tick 0 with no key pressed, whatever the other tracks hold. */
  lemma {:induction false} TracksAreIndependent(tl: Timeline, tracks: seq<seq<TrackEvent>>, i: nat)
    requires i < |tracks|
    ensures ScanTracks(tl, tracks).1[i] == ScanEvents(START, FRESH_TRACK, tracks[i]).1.notes
    decreases i
  {
    var first := ScanEvents(tl, FRESH_TRACK, tracks[0]);
    if i == 0 {
      NotesIgnoreTimeline(tl, START, FRESH_TRACK, tracks[0]);
    } else {
      TracksAreIndependent(first.0, tracks[1..], i - 1);
    }
  }

  /** The per-track invariant of the event loop: presses lie between tick 0 and the current
      tick, and every completed note lies inside that range with a non-negative duration. */
  predicate NotesFit(st: TrackScan)
  {
    && 0 <= st.offset
    && (forall k :: k in st.pressedKeys ==> 0 <= st.pressedKeys[k] <= st.offset)
    && (forall j :: 0 <= j < |st.notes| ==>
          0 <= st.notes[j].startTick && 0 <= st.notes[j].duration
          && st.notes[j].startTick + st.notes[j].duration <= st.offset)
  }

  /** While offsets stay within i32, the `as i32` cast never truncates a duration: every note
      starts at or after tick 0 and ends no later than the track's last tick. */
  lemma {:induction false} EmittedNotesFit(tl: Timeline, st: TrackScan, evs: seq<TrackEvent>)
    requires NotesFit(st)
    requires st.offset + SumDeltas(evs) <= I32_MAX
    ensures NotesFit(ScanEvents(tl, st, evs).1)
    decreases |evs|
  {
    if evs != [] {
      var next := Advance(tl, st, evs[0]);
      AdvanceKeepsFit(tl, st, evs[0]);
      EmittedNotesFit(next.0, next.1, evs[1..]);
    }
  }

  lemma AdvanceKeepsFit(tl: Timeline, st: TrackScan, e: TrackEvent)
    requires NotesFit(st)
    requires st.offset + e.delta <= I32_MAX
    ensures NotesFit(Advance(tl, st, e).1)
  {
    var next := Advance(tl, st, e).1;
    var at := st.offset + e.delta;
    assert forall j :: 0 <= j < |st.notes| ==> next.notes[j] == st.notes[j];
    if |next.notes| > |st.notes| {
      var key := next.notes[|st.notes|].key;
      assert key in st.pressedKeys;
      var start := st.pressedKeys[key];
      assert next.notes[|st.notes|] == NoteData(start, AsI32(at - start), key);
      assert AsI32(at - start) == at - start;
    }
  }

  /** The ingest emits one note list per track, and with the track's ticks in i32 range every
      emitted note lies within its track. */
  lemma IngestNoteShapes(tracks: seq<seq<TrackEvent>>, i: nat, j: nat)
    requires i < |tracks|
    requires SumDeltas(tracks[i]) <= I32_MAX
    ensures |ScanTracks(START, tracks).1| == |tracks|
    ensures j < |ScanTracks(START, tracks).1[i]| ==>
              var n := ScanTracks(START, tracks).1[i][j];
              0 <= n.startTick && 0 <= n.duration && n.startTick + n.duration <= SumDeltas(tracks[i])
  {
    TracksAreIndependent(START, tracks, i);
    EmittedNotesFit(START, FRESH_TRACK, tracks[i]);
  }

  // ----- Scenarios -----

  /** A velocity-0 NoteOn releases the key: NoteOn(40) at 0, NoteOn(40, vel 0) at 100. */
  lemma VelocityZeroReleases()
    ensures ScanEvents(START, FRESH_TRACK,
                       [TrackEvent(0, NoteOn(40, 100)), TrackEvent(100, NoteOn(40, 0))]).1.notes
            == [NoteData(0, 100, 40)]
  {
  }

  /** A re-press of a held key overwrites the earlier press tick: the earlier note is lost. */
  lemma RepressOverwritesEarlierPress()
    ensures ScanEvents(START, FRESH_TRACK,
                       [TrackEvent(0, NoteOn(60, 100)), TrackEvent(10, NoteOn(60, 100)),
                        TrackEvent(10, NoteOff(60, 0))]).1.notes
            == [NoteData(10, 10, 60)]
  {
  }

  /** A press in one track is not closed by a release in the next one. */
  lemma PressesDoNotCrossTracks()
    ensures ScanTracks(START, [[TrackEvent(0, NoteOn(60, 100))], [TrackEvent(5, NoteOff(60, 0))]]).1
            == [[], []]
  {
  }

  /** Press and release on the same tick give a note of duration 0. */
  lemma ZeroLengthNote()
    ensures ScanEvents(START, FRESH_TRACK,
                       [TrackEvent(7, NoteOn(60, 100)), TrackEvent(0, NoteOff(60, 0))]).1.notes
            == [NoteData(7, 0, 60)]
  {
  }
}
