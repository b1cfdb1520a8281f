/**
 * Timeline extraction (`load_midi_file`): the message stream of a MIDI file is
 * walked in file order with a running sum of delta times, and every `note_on`
 * with positive velocity whose name is a key of the black table (asked first)
 * or of the white table becomes a playback entry stamped with the running time
 * in milliseconds.  Times are exact reals here.
 */
module Timeline {
  import opened Wrappers
  import Pitch

  datatype MsgType = NoteOn | NoteOff | OtherMsg

  /** One message as the MIDI parser yields it: `time` is the delta in seconds. */
  datatype MidiMsg = MidiMsg(delta: real, kind: MsgType, note: int, velocity: int)

  datatype KeyColor = Black | White

  /** `(msg_time_ms, index, note_type, velocity)`. */
  datatype Entry = Entry(timeMs: real, index: nat, color: KeyColor, velocity: int)

  /** `black_note_map` and `white_note_map`: note name to key index. */
  datatype KeyMaps = KeyMaps(black: map<string, nat>, white: map<string, nat>)

  /** The key a message sounds on the rendered keyboard, if any. */
  function Classify(m: MidiMsg, maps: KeyMaps): Option<(KeyColor, nat)>
  {
    if m.kind == NoteOn && m.velocity > 0 then
      match Pitch.MidiToNoteName(m.note)
      case None => None
      case Some(name) =>
        if name in maps.black then Some((Black, maps.black[name]))
        else if name in maps.white then Some((White, maps.white[name]))
        else None
    else None
  }

  /** What the loop appends for one message once the running time is `timeSec`. */
  function Emit(m: MidiMsg, timeSec: real, maps: KeyMaps): seq<Entry>
  {
    match Classify(m, maps)
    case None => []
    case Some((color, index)) => [Entry(timeSec * 1000.0, index, color, m.velocity)]
  }

  /** The entries of `msgs` when the running time before them is `t`. */
  function ExtractFrom(msgs: seq<MidiMsg>, t: real, maps: KeyMaps): seq<Entry>
  {
    if msgs == [] then []
    else
      var t' := t + msgs[0].delta;
      Emit(msgs[0], t', maps) + ExtractFrom(msgs[1..], t', maps)
  }

  function Extract(msgs: seq<MidiMsg>, maps: KeyMaps): seq<Entry>
  {
    ExtractFrom(msgs, 0.0, maps)
  }

  /** The sum of the deltas of `msgs`, in seconds. */
  function Elapsed(msgs: seq<MidiMsg>): real
  {
    if msgs == [] then 0.0 else msgs[0].delta + Elapsed(msgs[1..])
  }

  /** How many messages of `msgs` produce an entry. */
  function EmitCount(msgs: seq<MidiMsg>, maps: KeyMaps): nat
  {
    if msgs == [] then 0
    else (if Classify(msgs[0], maps).Some? then 1 else 0) + EmitCount(msgs[1..], maps)
  }

  ghost predicate NonNegativeDeltas(msgs: seq<MidiMsg>)
  {
    forall i :: 0 <= i < |msgs| ==> msgs[i].delta >= 0.0
  }

  ghost predicate SortedByTime(es: seq<Entry>)
  {
    forall i, j :: 0 <= i < j < |es| ==> es[i].timeMs <= es[j].timeMs
  }

  /**
   * A message yields an entry exactly when it is a `note_on` with positive
   * velocity, its number has a name, and the name is in one of the tables; the
   * black table decides first, and the velocity is carried unchanged.
   */
  lemma ClassifyCases(m: MidiMsg, maps: KeyMaps)
    ensures Classify(m, maps).Some? <==>
      m.kind == NoteOn && m.velocity > 0 && 0 <= m.note <= Pitch.MaxMidi &&
      (Pitch.MidiToNoteName(m.note).value in maps.black || Pitch.MidiToNoteName(m.note).value in maps.white)
    ensures Classify(m, maps).Some? ==>
      var name := Pitch.MidiToNoteName(m.note).value;
      if name in maps.black then Classify(m, maps).value == (Black, maps.black[name])
      else Classify(m, maps).value == (White, maps.white[name])
  {
  }

  lemma {:induction false} ElapsedAppend(a: seq<MidiMsg>, b: seq<MidiMsg>)
    ensures Elapsed(a + b) == Elapsed(a) + Elapsed(b)
  {
    if a != [] {
      assert (a + b)[1..] == a[1..] + b;
      ElapsedAppend(a[1..], b);
    } else {
      assert a + b == b;
    }
  }

  lemma {:induction false} EmitCountAppend(a: seq<MidiMsg>, b: seq<MidiMsg>, maps: KeyMaps)
    ensures EmitCount(a + b, maps) == EmitCount(a, maps) + EmitCount(b, maps)
  {
    if a != [] {
      assert (a + b)[1..] == a[1..] + b;
      EmitCountAppend(a[1..], b, maps);
    } else {
      assert a + b == b;
    }
  }

  /** Extraction is a homomorphism: what follows a prefix starts at the prefix's elapsed time. */
  lemma {:induction false} ExtractAppend(a: seq<MidiMsg>, b: seq<MidiMsg>, t: real, maps: KeyMaps)
    ensures ExtractFrom(a + b, t, maps) == ExtractFrom(a, t, maps) + ExtractFrom(b, t + Elapsed(a), maps)
  {
    if a != [] {
      assert (a + b)[1..] == a[1..] + b;
      ExtractAppend(a[1..], b, t + a[0].delta, maps);
    } else {
      assert a + b == b;
    }
  }

  /** One entry per producing message, no more. */
  lemma {:induction false} ExtractLength(msgs: seq<MidiMsg>, t: real, maps: KeyMaps)
    ensures |ExtractFrom(msgs, t, maps)| == EmitCount(msgs, maps)
  {
    if msgs != [] {
      ExtractLength(msgs[1..], t + msgs[0].delta, maps);
    }
  }

  /**
   * The entry of a producing message `msgs[j]` sits after the entries of the
   * messages before it; its time is 1000 times the running sum of every delta
   * up to and including its own (whatever the other messages were), and its key
   * and velocity are the message's.
   */
  lemma {:induction false} ExtractAt(msgs: seq<MidiMsg>, t: real, maps: KeyMaps, j: nat)
    requires j < |msgs| && Classify(msgs[j], maps).Some?
    ensures var out, k := ExtractFrom(msgs, t, maps), EmitCount(msgs[..j], maps);
      k < |out| &&
      out[k] == Entry((t + Elapsed(msgs[..j + 1])) * 1000.0,
                      Classify(msgs[j], maps).value.1, Classify(msgs[j], maps).value.0,
                      msgs[j].velocity)
  {
    var a, b := msgs[..j], msgs[j..];
    assert msgs == a + b;
    ExtractAppend(a, b, t, maps);
    ExtractLength(a, t, maps);
    assert b[1..] == msgs[j + 1..];
    ElapsedAppend(a, [msgs[j]]);
    assert msgs[..j + 1] == a + [msgs[j]];
    assert Elapsed([msgs[j]]) == msgs[j].delta;
    ExtractLength(b[1..], t + Elapsed(a) + msgs[j].delta, maps);
  }

  /** Every entry is stamped no earlier than the starting time when no delta is negative. */
  lemma {:induction false} ExtractNotBefore(msgs: seq<MidiMsg>, t: real, maps: KeyMaps)
    requires NonNegativeDeltas(msgs)
    ensures forall i :: 0 <= i < |ExtractFrom(msgs, t, maps)| ==> ExtractFrom(msgs, t, maps)[i].timeMs >= t * 1000.0
  {
    if msgs != [] {
      ExtractNotBefore(msgs[1..], t + msgs[0].delta, maps);
    }
  }

  /** With no negative delta the timeline comes out in time order. */
  lemma {:induction false} ExtractSorted(msgs: seq<MidiMsg>, t: real, maps: KeyMaps)
    requires NonNegativeDeltas(msgs)
    ensures SortedByTime(ExtractFrom(msgs, t, maps))
  {
    if msgs != [] {
      var t' := t + msgs[0].delta;
      ExtractSorted(msgs[1..], t', maps);
      ExtractNotBefore(msgs[1..], t', maps);
    }
  }
}
