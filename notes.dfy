/**
 * The note activation state machine that `Note::tick` implements (identically in
 * src/midi.rs and src/main.rs), stated on values so that both Note classes share it.
 */
module Notes {
  import opened MidiEvents

  /** A completed note: its start tick, its length in ticks and its key. */
  datatype NoteData = NoteData(startTick: int, duration: int, key: U7)

  /** The render state of a note: the `pressed` flag and the `pressed_ticks` counter. */
  datatype Activity = Activity(pressed: bool, pressedTicks: int)

  /** The state `Note::new` gives a note. */
  const Idle := Activity(false, 0)

  /** The half-open interval test of `Note::tick`: `start <= t < start + duration`. */
  predicate Sounding(n: NoteData, t: int)
  {
    n.startTick <= t < n.startTick + n.duration
  }

  /** The state change of one `tick` call whose interval test gave `active`. */
  function Step(a: Activity, active: bool): Activity
  {
    if active then Activity(true, a.pressedTicks + 1) else Idle
  }

  /** The caller's one-shot test: `note.tick(t) && note.pressed_ticks == 1`. */
  predicate Triggers(a: Activity, active: bool)
  {
    active && Step(a, active).pressedTicks == 1
  }

  /** Successive `tick` calls from state `a`, given their interval tests in call order. */
  function Replay(a: Activity, flags: seq<bool>): Activity
  {
    if flags == [] then a else Step(Replay(a, flags[..|flags| - 1]), flags[|flags| - 1])
  }

  /** The number of consecutive `true` tests that end `flags`. */
  function TrailingRun(flags: seq<bool>): (n: nat)
    ensures n <= |flags|
  {
    if flags == [] || !flags[|flags| - 1] then 0 else TrailingRun(flags[..|flags| - 1]) + 1
  }

  /** After any sequence of calls, `pressed` is the last test and `pressed_ticks` counts the
      consecutive active calls at the end; if every call was active, the count continues
      from the one the note started with. */
  lemma {:induction false} ReplayCounts(a: Activity, flags: seq<bool>)
    ensures flags != [] ==> Replay(a, flags).pressed == flags[|flags| - 1]
    ensures Replay(a, flags).pressedTicks ==
              if TrailingRun(flags) == |flags| then a.pressedTicks + |flags| else TrailingRun(flags)
  {
    if flags != [] {
      ReplayCounts(a, flags[..|flags| - 1]);
    }
  }

  /** From a fresh or inactive note (`pressed_ticks == 0`), the one-shot test holds on a call
      exactly when that call is active and the previous one was not: the rising edge. */
  lemma TriggerIsRisingEdge(a: Activity, flags: seq<bool>, i: nat)
    requires a.pressedTicks == 0
    requires i < |flags|
    ensures Triggers(Replay(a, flags[..i]), flags[i]) <==> flags[i] && (i == 0 || !flags[i - 1])
  {
    ReplayCounts(a, flags[..i]);
    if i > 0 {
      assert flags[..i][..i - 1] == flags[..i - 1];
      if flags[i - 1] {
        ReplayCounts(a, flags[..i - 1]);
      }
    }
  }

  /** While a note stays active the one-shot test does not fire again. */
  lemma NoRetriggerWhileHeld(a: Activity, flags: seq<bool>, i: nat, j: nat)
    requires a.pressedTicks >= 0
    requires i < j < |flags|
    requires forall k :: i <= k <= j ==> flags[k]
    ensures !Triggers(Replay(a, flags[..j]), flags[j])
  {
    ReplayCounts(a, flags[..j]);
    assert flags[..j][j - 1] == flags[j - 1];
    assert TrailingRun(flags[..j]) >= 1;
  }
}
