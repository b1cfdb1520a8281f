/**
 * Computer-keyboard input: two rows of twelve keys play the twelve notes of
 * the left and the right hand's octave, the arrow keys move those octaves
 * within [0, 8], and a key held down does not sound again until it is let go.
 */
module Keyboard {
  import opened Wrappers
  import Lists
  import Pitch

  const MaxOctave := 8

  /** The keys of `left_dict` and `right_dict`, in semitone order from C. */
  const LeftKeys: string := "ZSXDCVGBHNJM"
  const RightKeys: string := "R5T6YU8I9O0P"

  datatype Arrow = Up | Down | LeftArrow | RightArrow

  /** `left_oct` and `right_oct`. */
  datatype Octaves = Octaves(left: int, right: int)

  predicate InRange(o: Octaves)
  {
    0 <= o.left <= MaxOctave && 0 <= o.right <= MaxOctave
  }

  /** One arrow press: up/down move the left hand, right/left the right hand, never past 0 or 8. */
  function Shift(o: Octaves, a: Arrow): (r: Octaves)
    ensures InRange(o) ==> InRange(r)
    ensures a == Up || a == Down ==> r.right == o.right
    ensures a == LeftArrow || a == RightArrow ==> r.left == o.left
  {
    match a
    case RightArrow => if o.right < MaxOctave then o.(right := o.right + 1) else o
    case LeftArrow => if o.right > 0 then o.(right := o.right - 1) else o
    case Up => if o.left < MaxOctave then o.(left := o.left + 1) else o
    case Down => if o.left > 0 then o.(left := o.left - 1) else o
  }

  function ShiftAll(o: Octaves, arrows: seq<Arrow>): Octaves
    decreases |arrows|
  {
    if arrows == [] then o else ShiftAll(Shift(o, arrows[0]), arrows[1..])
  }

  /** No sequence of arrow presses takes an octave outside [0, 8]. */
  lemma {:induction false} ShiftAllInRange(o: Octaves, arrows: seq<Arrow>)
    requires InRange(o)
    ensures InRange(ShiftAll(o, arrows))
    decreases |arrows|
  {
    if arrows != [] {
      ShiftAllInRange(Shift(o, arrows[0]), arrows[1..]);
    }
  }

  /** Away from the bounds an arrow press is undone by the opposite one; at a bound it is ignored. */
  lemma ShiftUndo(o: Octaves)
    requires InRange(o)
    ensures o.left < MaxOctave ==> Shift(Shift(o, Up), Down) == o
    ensures o.left > 0 ==> Shift(Shift(o, Down), Up) == o
    ensures o.right < MaxOctave ==> Shift(Shift(o, RightArrow), LeftArrow) == o
    ensures o.right > 0 ==> Shift(Shift(o, LeftArrow), RightArrow) == o
    ensures o.left == MaxOctave ==> Shift(o, Up) == o
    ensures o.left == 0 ==> Shift(o, Down) == o
  {
    var (l, r) := (o.left, o.right);
    assert Shift(o, Up) == if l < MaxOctave then Octaves(l + 1, r) else o;
    assert Shift(o, Down) == if l > 0 then Octaves(l - 1, r) else o;
    assert Shift(o, RightArrow) == if r < MaxOctave then Octaves(l, r + 1) else o;
    assert Shift(o, LeftArrow) == if r > 0 then Octaves(l, r - 1) else o;
  }

  /** The note name a typed key plays on a hand whose keys are `keys`, at octave `oct`. */
  function HandNote(keys: string, oct: int, key: string): (r: Option<string>)
    requires |keys| <= 12 && -10 < oct < 10
    ensures r.Some? ==> |r.value| >= 2
  {
    if |key| != 1 then None
    else
      match Lists.FirstIndex(keys, key[0])
      case None => None
      case Some(k) =>
        Pitch.LetterShape(k);
        Some(Pitch.NoteNames[k] + Pitch.OctaveText(oct))
  }

  /** The note a typed key plays: the left hand's row is looked up first. */
  function TypedNote(o: Octaves, key: string): (r: Option<string>)
    requires InRange(o)
    ensures r.Some? ==> |r.value| >= 2
  {
    var l := HandNote(LeftKeys, o.left, key);
    if l.Some? then l else HandNote(RightKeys, o.right, key)
  }

  lemma RowsDistinct()
    ensures Lists.Distinct(LeftKeys) && Lists.Distinct(RightKeys)
    ensures forall i, j :: 0 <= i < |LeftKeys| && 0 <= j < |RightKeys| ==> LeftKeys[i] != RightKeys[j]
  {
  }

  /** No key is in both rows, so one key press sounds at most one note. */
  lemma RowsDisjoint(o: Octaves, key: string)
    requires InRange(o)
    ensures HandNote(LeftKeys, o.left, key).Some? ==> HandNote(RightKeys, o.right, key).None?
  {
    RowsDistinct();
  }

  /**
   * The `k`-th key of a row at octave `oct` plays the note whose MIDI number
   * `n` is `12 * (oct + 1) + k`, named as the timeline names it.
   */
  lemma HandNoteIsMidiName(keys: string, oct: int, k: nat, n: int)
    requires keys == LeftKeys || keys == RightKeys
    requires 0 <= oct <= MaxOctave && k < 12 && n == 12 * (oct + 1) + k
    ensures HandNote(keys, oct, [keys[k]]) == Pitch.MidiToNoteName(n)
  {
    RowIndex(keys, k);
    HandNoteNamed(keys, oct, k, n);
  }

  lemma HandNoteNamed(keys: string, oct: int, k: nat, n: int)
    requires |keys| == 12 && 0 <= oct <= MaxOctave && k < 12 && n == 12 * (oct + 1) + k
    requires Lists.FirstIndex(keys, keys[k]) == Some(k)
    ensures HandNote(keys, oct, [keys[k]]) == Pitch.MidiToNoteName(n)
  {
    HandNoteAt(keys, oct, k);
    Pitch.NameOfParts(n, k, oct);
  }

  /** The key that a row's lookup finds at position `k` names the `k`-th letter. */
  lemma HandNoteAt(keys: string, oct: int, k: nat)
    requires |keys| <= 12 && -10 < oct < 10 && k < |keys|
    requires Lists.FirstIndex(keys, keys[k]) == Some(k)
    ensures HandNote(keys, oct, [keys[k]]) == Some(Pitch.NoteNames[k] + Pitch.OctaveText(oct))
  {
    assert [keys[k]][0] == keys[k];
  }

  lemma RowIndex(keys: string, k: nat)
    requires keys == LeftKeys || keys == RightKeys
    requires k < 12
    ensures |keys| == 12 && Lists.FirstIndex(keys, keys[k]) == Some(k)
  {
    RowsDistinct();
  }

  /** Input events for the held-key set. */
  datatype KeyEvent = KeyDown(key: string) | KeyUp(key: string)

  /** A key-down passes the held-key check only if the key is not already held. */
  predicate Retriggers(held: set<string>, key: string)
  {
    key !in held
  }

  /** `keys_pressed` after one event: a key-down adds the key, a key-up removes it. */
  function AfterEvent(held: set<string>, e: KeyEvent): set<string>
  {
    match e
    case KeyDown(k) => held + {k}
    case KeyUp(k) => held - {k}
  }

  /**
   * The keys whose key-down events pass the held-key check, in order; a key on
   * neither row passes it too and then plays nothing.
   */
  function Triggers(held: set<string>, events: seq<KeyEvent>): (r: seq<string>)
    ensures |r| <= |events|
    decreases |events|
  {
    if events == [] then []
    else
      var now := match events[0]
        case KeyDown(k) => if Retriggers(held, k) then [k] else []
        case KeyUp(_) => [];
      now + Triggers(AfterEvent(held, events[0]), events[1..])
  }

  /**
   * Between two releases a key passes the held-key check at most once: with no
   * key-up for `k`, `k` passes once if it was not held and never if it was.
   */
  lemma {:induction false} NoRetriggerWhileHeld(held: set<string>, events: seq<KeyEvent>, k: string)
    requires forall i :: 0 <= i < |events| ==> events[i] != KeyUp(k)
    ensures multiset(Triggers(held, events))[k] <= if k in held then 0 else 1
    ensures k !in held && KeyDown(k) in events ==> k in Triggers(held, events)
    decreases |events|
  {
    if events != [] {
      var rest := events[1..];
      assert forall i :: 0 <= i < |rest| ==> rest[i] == events[i + 1];
      NoRetriggerWhileHeld(AfterEvent(held, events[0]), rest, k);
    }
  }

  /** Letting a key go re-arms it. */
  lemma ReleaseRearms(held: set<string>, k: string)
    ensures Triggers(held, [KeyUp(k), KeyDown(k)]) == [k]
  {
    var events := [KeyUp(k), KeyDown(k)];
    assert events[1..] == [KeyDown(k)];
    assert Triggers(held - {k}, [KeyDown(k)]) == [k];
  }
}
