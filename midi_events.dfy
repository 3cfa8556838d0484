/**
 * The decoded Standard MIDI File, as the `midly` decoder hands it to the ingest code.
 * The decoder itself is not modelled: a file is a timing division plus a sequence of
 * tracks, each an ordered sequence of (delta, event) pairs. Only the event kinds that
 * the ingest code distinguishes are kept; every other kind is `Other`.
 */
module MidiEvents {

  /** Integer widths of the Rust types the source uses. */
  const I32_MIN: int := -0x8000_0000
  const I32_MAX: int := 0x7fff_ffff
  const I64_MIN: int := -0x8000_0000_0000_0000
  const I64_MAX: int := 0x7fff_ffff_ffff_ffff

  /** midly's narrow unsigned integers: key/velocity, ppq, tempo and delta-time. */
  type U7 = x: int | 0 <= x < 0x80
  type U15 = x: int | 0 <= x < 0x8000
  type U24 = x: int | 0 <= x < 0x100_0000
  type U28 = x: int | 0 <= x < 0x1000_0000

  /** NoteOn/NoteOff are channel messages (the channel is ignored by both ingesters);
      Tempo and EndOfTrack are meta messages. */
  datatype Event =
    | NoteOn(key: U7, vel: U7)
    | NoteOff(key: U7, vel: U7)
    | Tempo(mspq: U24)
    | EndOfTrack
    | Other

  datatype TrackEvent = TrackEvent(delta: U28, kind: Event)

  datatype Timing = Metrical(ppq: U15) | Timecode(fps: int, subframe: int)

  datatype Smf = Smf(timing: Timing, tracks: seq<seq<TrackEvent>>)

  /** Sum of the delta-times of a track: the absolute tick of its last event. */
  function SumDeltas(evs: seq<TrackEvent>): nat
  {
    if evs == [] then 0 else evs[0].delta + SumDeltas(evs[1..])
  }

  /** All tracks' events, one track after the other. */
  function Flatten(tracks: seq<seq<TrackEvent>>): seq<TrackEvent>
  {
    if tracks == [] then [] else tracks[0] + Flatten(tracks[1..])
  }

  lemma {:induction false} SumDeltasAppend(a: seq<TrackEvent>, b: seq<TrackEvent>)
    ensures SumDeltas(a + b) == SumDeltas(a) + SumDeltas(b)
  {
    if a != [] {
      assert (a + b)[1..] == a[1..] + b;
      SumDeltasAppend(a[1..], b);
    } else {
      assert a + b == b;
    }
  }
}
