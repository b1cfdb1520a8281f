/**
 * The state the main loop keeps between frames, as one object: the loaded
 * timeline with its cursor and playing flag, the two highlight lists, the
 * live channel list, the two hands' octaves and the set of held keys.  Each
 * method is one of the loop's state updates; the mixer's `find_channel` and
 * `get_busy` and the wall clock arrive as parameters.
 */
module Engine {
  import opened Wrappers
  import Lists
  import Pitch
  import opened Timeline
  import opened Highlights
  import opened Dispatch
  import opened Voices
  import opened Keyboard

  /** What a key-down did. */
  datatype KeyOutcome =
    | AlreadyHeld                          // debounced: the key is still down
    | NoNote                               // the key is not in either row
    | Sounded(color: KeyColor, index: nat)
    | NotOnKeyboard(name: string)          // `list.index` raises ValueError

  /**
   * The key a typed note name lights: a name with '#' second is looked up in
   * the black labels, any other in the white notes, by first occurrence.
   */
  function KeyIndex(blackLabels: seq<string>, whiteNotes: seq<string>, name: string): (r: Option<(KeyColor, nat)>)
    requires |name| >= 2
    ensures r.None? <==> (if name[1] == '#' then name !in blackLabels else name !in whiteNotes)
    ensures r.Some? ==> (r.value.0 == Black <==> name[1] == '#')
    ensures r.Some? && r.value.0 == Black ==> r.value.1 < |blackLabels| && blackLabels[r.value.1] == name
    ensures r.Some? && r.value.0 == White ==> r.value.1 < |whiteNotes| && whiteNotes[r.value.1] == name
  {
    if name[1] == '#' then
      match Lists.FirstIndex(blackLabels, name)
      case None => None
      case Some(i) => Some((Black, i))
    else
      match Lists.FirstIndex(whiteNotes, name)
      case None => None
      case Some(i) => Some((White, i))
  }

  /**
   * What a key-down does, given the held keys, the octaves and the tables:
   * a held key is ignored, a key off both rows plays nothing, and a typed
   * note lights the key `KeyIndex` finds or fails the lookup.
   */
  function Press(held: set<string>, o: Octaves, blackLabels: seq<string>, whiteNotes: seq<string>, key: string): (r: KeyOutcome)
    requires InRange(o)
    ensures r.AlreadyHeld? <==> !Retriggers(held, key)
    ensures r.NoNote? <==> Retriggers(held, key) && TypedNote(o, key).None?
    ensures r.NotOnKeyboard? ==>
      Retriggers(held, key) && TypedNote(o, key) == Some(r.name) &&
      (if r.name[1] == '#' then r.name !in blackLabels else r.name !in whiteNotes)
    ensures r.Sounded? ==>
      Retriggers(held, key) && TypedNote(o, key).Some? &&
      var name := TypedNote(o, key).value;
      (r.color == Black <==> name[1] == '#') &&
      (r.color == Black ==> r.index < |blackLabels| && blackLabels[r.index] == name) &&
      (r.color == White ==> r.index < |whiteNotes| && whiteNotes[r.index] == name)
  {
    if !Retriggers(held, key) then AlreadyHeld
    else
      var note := TypedNote(o, key);
      if note.None? then NoNote
      else
        match KeyIndex(blackLabels, whiteNotes, note.value)
        case None => NotOnKeyboard(note.value)
        case Some((color, index)) => Sounded(color, index)
  }

  /** Tables as the keyboard layout has them: no duplicates, sharps exactly on the black keys. */
  ghost predicate WellFormedTables(blackLabels: seq<string>, whiteNotes: seq<string>)
  {
    Lists.Distinct(blackLabels) && Lists.Distinct(whiteNotes) &&
    (forall i :: 0 <= i < |blackLabels| ==> |blackLabels[i]| >= 2 && blackLabels[i][1] == '#') &&
    (forall i :: 0 <= i < |whiteNotes| ==> |whiteNotes[i]| >= 2 ==> whiteNotes[i][1] != '#')
  }

  /** `black_note_map` and `white_note_map`: each defined exactly on its table's names. */
  function TableMaps(blackLabels: seq<string>, whiteNotes: seq<string>): (m: KeyMaps)
    ensures forall name :: name in m.black <==> name in blackLabels
    ensures forall name :: name in m.white <==> name in whiteNotes
  {
    KeyMaps(Lists.IndexMap(blackLabels), Lists.IndexMap(whiteNotes))
  }

  /**
   * With well-formed tables, typing a note lights the same key a `note_on` of
   * that pitch lights during playback, and a typed note that playback would
   * skip is exactly one whose `index` lookup fails.
   */
  lemma TypedKeyMatchesTimeline(blackLabels: seq<string>, whiteNotes: seq<string>, n: int, velocity: int)
    requires WellFormedTables(blackLabels, whiteNotes)
    requires 0 <= n <= Pitch.MaxMidi && velocity > 0
    ensures KeyIndex(blackLabels, whiteNotes, Pitch.MidiToNoteName(n).value) ==
            Classify(MidiMsg(0.0, NoteOn, n, velocity), TableMaps(blackLabels, whiteNotes))
  {
    var name := Pitch.MidiToNoteName(n).value;
    var maps := TableMaps(blackLabels, whiteNotes);
    Lists.IndexMapAgreesWithFirstIndex(blackLabels, name);
    Lists.IndexMapAgreesWithFirstIndex(whiteNotes, name);
    if name[1] != '#' {
      assert name !in blackLabels;
    }
  }

  /**
   * The arrows reach octaves the 88-key layout does not fully cover: at left
   * octave 0 the first key of the row types `C0`, and when no white key is
   * labelled so the `index` lookup fails.
   */
  lemma LowestLeftOctaveOffKeyboard(held: set<string>, right: int, blackLabels: seq<string>, whiteNotes: seq<string>)
    requires 0 <= right <= MaxOctave && "Z" !in held && "C0" !in whiteNotes
    ensures Press(held, Octaves(0, right), blackLabels, whiteNotes, "Z") == NotOnKeyboard("C0")
  {
    RowIndex(LeftKeys, 0);
    HandNoteAt(LeftKeys, 0, 0);
    assert [LeftKeys[0]] == "Z";
    assert Pitch.NoteNames[0] + Pitch.OctaveText(0) == "C0";
  }


  /**
   * The loading loop: walks the messages keeping the running time in seconds,
   * and appends each message's entry as `MessageEntry` finds it.
   */
  method ExtractLoop(msgs: seq<MidiMsg>, maps: KeyMaps) returns (out: seq<Entry>)
    ensures out == Extract(msgs, maps)
  {
    out := [];
    var currentTimeSec: real := 0.0;
    var i := 0;
    while i < |msgs|
      invariant 0 <= i <= |msgs|
      invariant currentTimeSec == Elapsed(msgs[..i])
      invariant out == Extract(msgs[..i], maps)
    {
      var msg := msgs[i];
      var added := MessageEntry(msg, currentTimeSec + msg.delta, maps);
      LoadTurn(msgs, i, currentTimeSec, maps);
      currentTimeSec := currentTimeSec + msg.delta;
      out := out + added;
      i := i + 1;
    }
    assert msgs[..i] == msgs;
  }

  /** One turn of the loading loop: the prefix read so far grows by one message and its entry. */
  lemma LoadTurn(msgs: seq<MidiMsg>, i: nat, t: real, maps: KeyMaps)
    requires i < |msgs| && t == Elapsed(msgs[..i])
    ensures Elapsed(msgs[..i + 1]) == t + msgs[i].delta
    ensures Extract(msgs[..i + 1], maps) == Extract(msgs[..i], maps) + Emit(msgs[i], t + msgs[i].delta, maps)
  {
    var a, m := msgs[..i], msgs[i];
    assert msgs[..i + 1] == a + [m];
    ElapsedAppend(a, [m]);
    ExtractAppend(a, [m], 0.0, maps);
    assert [m][1..] == [];
    assert ExtractFrom([m], t, maps) == Emit(m, t + m.delta, maps) + ExtractFrom([], t + m.delta, maps);
  }



  /** The dispatch loop's accumulators: the two highlight lists and the channel list. */
  datatype Run = Run(blacks: seq<Highlight>, whites: seq<Highlight>, chs: seq<Channel>)

  /** One due entry dispatched: its key lights in its colour's list and its channel, if any, is kept. */
  function Take(r: Run, e: Entry, f: Option<Channel>): (r': Run)
    ensures |r'.blacks| + |r'.whites| == |r.blacks| + |r.whites| + 1
    ensures |r.blacks| <= |r'.blacks| && r'.blacks[..|r.blacks|] == r.blacks
    ensures |r.whites| <= |r'.whites| && r'.whites[..|r.whites|] == r.whites
  {
    if e.color == Black then Run(r.blacks + [Fresh(e.index)], r.whites, Played(r.chs, f))
    else Run(r.blacks, r.whites + [Fresh(e.index)], Played(r.chs, f))
  }

  /** The run `es` dispatched in order, `found[k]` answering the `k`-th channel request. */
  function TakeAll(r: Run, es: seq<Entry>, found: seq<Option<Channel>>): (r': Run)
    requires |es| <= |found|
    ensures |r'.blacks| + |r'.whites| == |r.blacks| + |r.whites| + |es|
  {
    if es == [] then r
    else Take(TakeAll(r, es[..|es| - 1], found), es[|es| - 1], found[|es| - 1])
  }

  /** A dispatched run appends each colour's highlights and the frame's allocations. */
  lemma {:induction false} TakeAllSpec(r: Run, es: seq<Entry>, found: seq<Option<Channel>>)
    requires |es| <= |found|
    ensures TakeAll(r, es, found) ==
      Run(r.blacks + HighlightsFor(es, Black), r.whites + HighlightsFor(es, White), r.chs + Allocations(found, |es|))
  {
    if es != [] {
      var n := |es| - 1;
      TakeAllSpec(r, es[..n], found);
      AllocationsStep(r.chs, found, n);
      TakeExtends(r.blacks, r.whites, HighlightsFor(es[..n], Black), HighlightsFor(es[..n], White),
                  r.chs + Allocations(found, n), es[n], found[n]);
      assert es[..|es| - 1] == es[..n];
    }
  }

  /** Taking one entry after a run extends that colour's highlights by one counter. */
  lemma TakeExtends(blacks: seq<Highlight>, whites: seq<Highlight>, hb: seq<Highlight>, hw: seq<Highlight>,
                    chs: seq<Channel>, e: Entry, f: Option<Channel>)
    ensures var t := Take(Run(blacks + hb, whites + hw, chs), e, f);
      t.blacks == blacks + (hb + (if e.color == Black then [Fresh(e.index)] else [])) &&
      t.whites == whites + (hw + (if e.color == White then [Fresh(e.index)] else [])) &&
      t.chs == Played(chs, f)
  {
    if e.color == Black {
      assert blacks + (hb + [Fresh(e.index)]) == (blacks + hb) + [Fresh(e.index)];
      assert whites + (hw + []) == whites + hw;
    } else {
      assert whites + (hw + [Fresh(e.index)]) == (whites + hw) + [Fresh(e.index)];
      assert blacks + (hb + []) == blacks + hb;
    }
  }

  /** One turn of the dispatch loop: the entry at the cursor joins the dispatched run. */
  lemma TakeAllStep(r: Run, msgs: seq<Entry>, c0: nat, i: nat, found: seq<Option<Channel>>)
    requires c0 <= i < |msgs| && |found| >= |msgs| - c0
    ensures TakeAll(r, msgs[c0..i + 1], found) == Take(TakeAll(r, msgs[c0..i], found), msgs[i], found[i - c0])
  {
    assert msgs[c0..i + 1][..i - c0] == msgs[c0..i];
  }

  /**
   * The body of the loading loop for one message, once the running time is
   * `currentTimeSec`: the entry it appends, if any.
   */
  method MessageEntry(msg: MidiMsg, currentTimeSec: real, maps: KeyMaps) returns (added: seq<Entry>)
    ensures added == Emit(msg, currentTimeSec, maps)
  {
    added := [];
    if msg.kind == NoteOn && msg.velocity > 0 {
      var noteName := Pitch.MidiToNoteName(msg.note);
      if noteName.Some? {
        if noteName.value in maps.black {
          added := [Entry(currentTimeSec * 1000.0, maps.black[noteName.value], Black, msg.velocity)];
        } else if noteName.value in maps.white {
          added := [Entry(currentTimeSec * 1000.0, maps.white[noteName.value], White, msg.velocity)];
        }
      }
    }
  }

  /**
   * The dispatch loop on the state it reads and writes: from `c0`, every entry
   * due by `nowMs` lights its key and registers its channel, in order.
   */
  method DispatchRun(msgs: seq<Entry>, c0: nat, nowMs: real, found: seq<Option<Channel>>,
                     blacks0: seq<Highlight>, whites0: seq<Highlight>, chs0: seq<Channel>)
    returns (i: nat, blacks: seq<Highlight>, whites: seq<Highlight>, chs: seq<Channel>)
    requires c0 <= |msgs| && |found| >= |msgs| - c0
    ensures c0 <= i <= |msgs| && i == DueEnd(msgs, c0, nowMs)
    ensures blacks == blacks0 + HighlightsFor(msgs[c0..i], Black)
    ensures whites == whites0 + HighlightsFor(msgs[c0..i], White)
    ensures chs == chs0 + Allocations(found, i - c0)
  {
    i, blacks, whites, chs := c0, blacks0, whites0, chs0;
    ghost var r0 := Run(blacks0, whites0, chs0);
    while i < |msgs|
      invariant c0 <= i <= |msgs|
      invariant DueEnd(msgs, c0, nowMs) == DueEnd(msgs, i, nowMs)
      invariant Run(blacks, whites, chs) == TakeAll(r0, msgs[c0..i], found)
      decreases |msgs| - i
    {
      var e := msgs[i];
      if nowMs >= e.timeMs {
        TakeAllStep(r0, msgs, c0, i, found);
        if e.color == Black {
          blacks := blacks + [Fresh(e.index)];
        } else {
          whites := whites + [Fresh(e.index)];
        }
        chs := Played(chs, found[i - c0]);
        i := i + 1;
      } else {
        break;
      }
    }
    TakeAllSpec(r0, msgs[c0..i], found);
  }

  /** A black highlight after the drawing loop has visited the keys below `upTo`. */
  function PartlyDecayed(h: Highlight, upTo: int): Highlight
  {
    if 0 <= h.key < upTo && h.frames > 0 then h.(frames := h.frames - 1) else h
  }

  class PlaybackEngine {
    /** `white_notes` and `black_labels` from the key layout. */
    const whiteNotes: seq<string>
    const blackLabels: seq<string>

    var messages: seq<Entry>        // playback_messages
    var cursor: nat                 // current_msg_index
    var active: bool                // playback_active
    var startTime: int              // playback_start_time, in clock milliseconds
    var activeWhites: seq<Highlight>
    var activeBlacks: seq<Highlight>
    var channels: seq<Channel>      // g_active_channels
    var leftOct: int
    var rightOct: int
    var keysPressed: set<string>
    /**
     * The octaves `left_dict` and `right_dict` were built with at the top of
     * the current frame; every key-down of the frame's event batch reads them,
     * even after an arrow key of the same batch has moved `leftOct` or `rightOct`.
     */
    var frameOcts: Octaves

    ghost predicate Valid()
      reads this
    {
      cursor <= |messages| && InRange(Octaves(leftOct, rightOct)) && InRange(frameOcts) &&
      Bounded(activeWhites) && Bounded(activeBlacks)
    }

    function Maps(): KeyMaps
    {
      TableMaps(blackLabels, whiteNotes)
    }

    function Octs(): Octaves
      reads this
    {
      Octaves(leftOct, rightOct)
    }

    constructor (whiteNotes: seq<string>, blackLabels: seq<string>)
      ensures Valid()
      ensures this.whiteNotes == whiteNotes && this.blackLabels == blackLabels
      ensures messages == [] && cursor == 0 && !active && startTime == 0
      ensures activeWhites == [] && activeBlacks == [] && channels == []
      ensures leftOct == 4 && rightOct == 5 && keysPressed == {} && frameOcts == Octaves(4, 5)
    {
      this.whiteNotes := whiteNotes;
      this.blackLabels := blackLabels;
      messages, cursor, active, startTime := [], 0, false, 0;
      activeWhites, activeBlacks, channels := [], [], [];
      leftOct, rightOct, keysPressed := 4, 5, {};
      frameOcts := Octaves(4, 5);
    }

    /** The top of each frame: the two rows' note tables are rebuilt from the current octaves. */
    method BuildRows()
      requires Valid()
      modifies this`frameOcts
      ensures Valid()
      ensures frameOcts == Octs()
    {
      frameOcts := Octaves(leftOct, rightOct);
    }

    /**
     * `load_midi_file`: `parsed` is what the MIDI parser yields, None when it
     * raised.  A failed load changes nothing; a successful one replaces the
     * timeline, rewinds the cursor and stops playback.
     */
    method Load(parsed: Option<seq<MidiMsg>>) returns (ok: bool)
      requires Valid()
      modifies this`messages, this`cursor, this`active
      ensures Valid()
      ensures ok == parsed.Some?
      ensures !ok ==> messages == old(messages) && cursor == old(cursor) && active == old(active)
      ensures ok ==> messages == Extract(parsed.value, Maps()) && cursor == 0 && !active
    {
      if parsed.None? {
        return false;
      }
      var out := ExtractLoop(parsed.value, Maps());
      messages := out;
      cursor := 0;
      active := false;
      ok := true;
    }

    /** The keypad-0 handler: a successful load starts playback at clock time `now`. */
    method Play(parsed: Option<seq<MidiMsg>>, now: int) returns (ok: bool)
      requires Valid()
      modifies this`messages, this`cursor, this`active, this`startTime
      ensures Valid()
      ensures ok == parsed.Some?
      ensures !ok ==> messages == old(messages) && cursor == old(cursor) && active == old(active) && startTime == old(startTime)
      ensures ok ==> messages == Extract(parsed.value, Maps()) && cursor == 0 && active && startTime == now
    {
      ok := Load(parsed);
      if ok {
        active := true;
        startTime := now;
        cursor := 0;
      }
    }

    /** The once-per-frame pruning: keeps the channels that report busy, in order. */
    method Prune(busy: set<Channel>)
      modifies this`channels
      ensures channels == KeepBusy(old(channels), busy)
    {
      channels := KeepBusy(channels, busy);
    }

    /**
     * `play_note_with_limiter`: returns the square of the volume set on the
     * channel, and registers the channel `find_channel` answered, if any.
     */
    method PlayNote(velocity: int, found: Option<Channel>) returns (volumeSquared: real)
      modifies this`channels
      ensures volumeSquared == VolumeSquared(|old(channels)|, velocity)
      ensures channels == Played(old(channels), found)
    {
      var numPlaying := |channels|;
      volumeSquared := VolumeSquared(numPlaying, velocity);
      if found.Some? {
        channels := channels + [found.value];
      }
    }

    /**
     * One frame of the dispatcher with the clock at `ticks`; `found[k]` is the
     * answer of the `k`-th `find_channel` call of this frame.  If playback is on
     * with entries left, the cursor moves over exactly the entries due, each
     * lights its key and asks for a channel, and playback stops once none are left.
     */
    method Tick(ticks: int, found: seq<Option<Channel>>)
      requires Valid()
      requires |found| >= |messages| - cursor
      modifies this`cursor, this`active, this`activeBlacks, this`activeWhites, this`channels
      ensures Valid()
      ensures !(old(active) && old(cursor) < |messages|) ==>
        cursor == old(cursor) && active == old(active) && channels == old(channels) &&
        activeBlacks == old(activeBlacks) && activeWhites == old(activeWhites)
      ensures old(active) && old(cursor) < |messages| ==>
        var due := DueEnd(messages, old(cursor), (ticks - startTime) as real);
        cursor == due &&
        activeBlacks == old(activeBlacks) + HighlightsFor(messages[old(cursor)..due], Black) &&
        activeWhites == old(activeWhites) + HighlightsFor(messages[old(cursor)..due], White) &&
        channels == old(channels) + Allocations(found, due - old(cursor)) &&
        active == (due < |messages|)
    {
      if active && cursor < |messages| {
        var nowMs := (ticks - startTime) as real;
        DispatchDue(nowMs, found);
        if cursor >= |messages| {
          active := false;
        }
      }
    }

    /**
     * The per-frame updates, in the main loop's order: the two rows are rebuilt
     * from the octaves, the channel list is pruned, the dispatcher runs (so the
     * limiter sees the pruned count), and `draw_piano` counts the highlights
     * down, including those lit by this frame's dispatch.  The frame's events
     * follow, handled one by one by the caller.
     */
    method Frame(busy: set<Channel>, ticks: int, found: seq<Option<Channel>>)
      requires Valid()
      requires |found| >= |messages| - cursor
      modifies this`frameOcts, this`channels, this`cursor, this`active, this`activeBlacks, this`activeWhites
      ensures Valid()
      ensures frameOcts == old(Octs())
      ensures !(old(active) && old(cursor) < |messages|) ==>
        cursor == old(cursor) && active == old(active) && channels == KeepBusy(old(channels), busy) &&
        activeBlacks == DecayedBlacks(old(activeBlacks)) && activeWhites == DecayedWhites(old(activeWhites))
      ensures old(active) && old(cursor) < |messages| ==>
        var due := DueEnd(messages, old(cursor), (ticks - startTime) as real);
        cursor == due && active == (due < |messages|) &&
        channels == KeepBusy(old(channels), busy) + Allocations(found, due - old(cursor)) &&
        activeBlacks == DecayedBlacks(old(activeBlacks) + HighlightsFor(messages[old(cursor)..due], Black)) &&
        activeWhites == DecayedWhites(old(activeWhites) + HighlightsFor(messages[old(cursor)..due], White))
    {
      BuildRows();
      Prune(busy);
      Tick(ticks, found);
      DecayHighlights();
    }

    /**
     * The inner loop of the dispatcher: takes every entry due by `nowMs`, in
     * order, each one lighting its key and registering the channel its
     * `play_note_with_limiter` call was given.
     */
    method DispatchDue(nowMs: real, found: seq<Option<Channel>>)
      requires Valid()
      requires |found| >= |messages| - cursor
      modifies this`cursor, this`activeBlacks, this`activeWhites, this`channels
      ensures Valid()
      ensures cursor == DueEnd(messages, old(cursor), nowMs)
      ensures activeBlacks == old(activeBlacks) + HighlightsFor(messages[old(cursor)..cursor], Black)
      ensures activeWhites == old(activeWhites) + HighlightsFor(messages[old(cursor)..cursor], White)
      ensures channels == old(channels) + Allocations(found, cursor - old(cursor))
    {
      var c0 := cursor;
      var i, blacks, whites, chs := DispatchRun(messages, c0, nowMs, found, activeBlacks, activeWhites, channels);
      HighlightsForFresh(messages[c0..i], Black);
      HighlightsForFresh(messages[c0..i], White);
      AppendKeepsBounded(activeBlacks, HighlightsFor(messages[c0..i], Black));
      AppendKeepsBounded(activeWhites, HighlightsFor(messages[c0..i], White));
      cursor, activeBlacks, activeWhites, channels := i, blacks, whites, chs;
    }

    /** The counter updates of `draw_piano` for one frame. */
    method DecayHighlights()
      requires Valid()
      modifies this`activeBlacks, this`activeWhites
      ensures Valid()
      ensures activeBlacks == DecayedBlacks(old(activeBlacks))
      ensures activeWhites == DecayedWhites(old(activeWhites))
    {
      ghost var blacks0 := activeBlacks;
      for i := 0 to BlackKeyCount
        invariant |activeBlacks| == |blacks0|
        invariant forall q :: 0 <= q < |blacks0| ==> activeBlacks[q] == PartlyDecayed(blacks0[q], i)
        invariant activeWhites == old(activeWhites)
      {
        for q := 0 to |activeBlacks|
          invariant |activeBlacks| == |blacks0|
          invariant forall r :: 0 <= r < q ==> activeBlacks[r] == PartlyDecayed(blacks0[r], i + 1)
          invariant forall r :: q <= r < |blacks0| ==> activeBlacks[r] == PartlyDecayed(blacks0[r], i)
          invariant activeWhites == old(activeWhites)
        {
          if activeBlacks[q].key == i && activeBlacks[q].frames > 0 {
            activeBlacks := activeBlacks[q := activeBlacks[q].(frames := activeBlacks[q].frames - 1)];
          }
        }
      }
      assert activeBlacks == DecayedBlacks(blacks0);
      ghost var whites0 := activeWhites;
      for i := 0 to |activeWhites|
        invariant activeBlacks == DecayedBlacks(blacks0)
        invariant |activeWhites| == |whites0|
        invariant forall r :: 0 <= r < i ==> activeWhites[r] == DecayWhite(whites0[r])
        invariant forall r :: i <= r < |whites0| ==> activeWhites[r] == whites0[r]
      {
        if activeWhites[i].frames > 0 {
          activeWhites := activeWhites[i := activeWhites[i].(frames := activeWhites[i].frames - 1)];
        }
      }
      assert activeWhites == DecayedWhites(whites0);
      DecayKeepsBounded(blacks0);
      DecayKeepsBounded(whites0);
    }

    /** The arrow-key handler. */
    method ShiftOctave(a: Arrow)
      requires Valid()
      modifies this`leftOct, this`rightOct
      ensures Valid()
      ensures Octs() == Shift(old(Octs()), a)
    {
      match a
      case RightArrow => if rightOct < MaxOctave { rightOct := rightOct + 1; }
      case LeftArrow => if rightOct > 0 { rightOct := rightOct - 1; }
      case Up => if leftOct < MaxOctave { leftOct := leftOct + 1; }
      case Down => if leftOct > 0 { leftOct := leftOct - 1; }
    }

    /**
     * The key-down handler for a typed key (already upper-cased); `found` is
     * `find_channel`'s answer should a note sound.  The note is the one the
     * rows built at the top of the frame give, not the current octaves.
     */
    method KeyDown(key: string, found: Option<Channel>) returns (outcome: KeyOutcome, volumeSquared: Option<real>)
      requires Valid()
      modifies this`keysPressed, this`channels, this`activeBlacks, this`activeWhites
      ensures Valid()
      ensures outcome == Press(old(keysPressed), frameOcts, blackLabels, whiteNotes, key)
      ensures keysPressed == AfterEvent(old(keysPressed), KeyEvent.KeyDown(key))
      ensures volumeSquared.Some? <==> outcome.Sounded?
      ensures outcome.Sounded? ==>
        volumeSquared.value == VolumeSquared(|old(channels)|, 127) &&
        channels == Played(old(channels), found) &&
        (if outcome.color == Black
         then activeBlacks == old(activeBlacks) + [Fresh(outcome.index)] && activeWhites == old(activeWhites)
         else activeWhites == old(activeWhites) + [Fresh(outcome.index)] && activeBlacks == old(activeBlacks))
      ensures !outcome.Sounded? ==>
        channels == old(channels) && activeBlacks == old(activeBlacks) && activeWhites == old(activeWhites)
    {
      outcome := Press(keysPressed, frameOcts, blackLabels, whiteNotes, key);
      volumeSquared := Apply(key, outcome, found);
    }

    /**
     * The state changes of a key-down whose outcome is known; the square of the
     * volume set on the channel when a note is played, None when none is.
     */
    method Apply(key: string, outcome: KeyOutcome, found: Option<Channel>) returns (volumeSquared: Option<real>)
      requires Valid()
      modifies this`keysPressed, this`channels, this`activeBlacks, this`activeWhites
      ensures Valid()
      ensures keysPressed == AfterEvent(old(keysPressed), KeyEvent.KeyDown(key))
      ensures volumeSquared.Some? <==> outcome.Sounded?
      ensures outcome.Sounded? ==>
        volumeSquared.value == VolumeSquared(|old(channels)|, 127) &&
        channels == Played(old(channels), found) &&
        (if outcome.color == Black
         then activeBlacks == old(activeBlacks) + [Fresh(outcome.index)] && activeWhites == old(activeWhites)
         else activeWhites == old(activeWhites) + [Fresh(outcome.index)] && activeBlacks == old(activeBlacks))
      ensures !outcome.Sounded? ==>
        channels == old(channels) && activeBlacks == old(activeBlacks) && activeWhites == old(activeWhites)
    {
      keysPressed := keysPressed + {key};
      volumeSquared := None;
      if outcome.Sounded? {
        var v := Sound(outcome.color, outcome.index, found);
        volumeSquared := Some(v);
      }
    }

    /**
     * A typed note that found its key: it asks the mixer for a channel at full
     * velocity, returning the square of the volume set, and the key lights.
     */
    method Sound(color: KeyColor, index: nat, found: Option<Channel>) returns (volumeSquared: real)
      requires Valid()
      modifies this`channels, this`activeBlacks, this`activeWhites
      ensures Valid()
      ensures volumeSquared == VolumeSquared(|old(channels)|, 127)
      ensures channels == Played(old(channels), found)
      ensures color == Black ==> activeBlacks == old(activeBlacks) + [Fresh(index)] && activeWhites == old(activeWhites)
      ensures color == White ==> activeWhites == old(activeWhites) + [Fresh(index)] && activeBlacks == old(activeBlacks)
    {
      volumeSquared := PlayNote(127, found);
      AppendKeepsBounded(activeBlacks, [Fresh(index)]);
      AppendKeepsBounded(activeWhites, [Fresh(index)]);
      if color == Black {
        activeBlacks := activeBlacks + [Fresh(index)];
      } else {
        activeWhites := activeWhites + [Fresh(index)];
      }
    }

    /** The key-up handler: the key is no longer held. */
    method KeyUp(key: string)
      modifies this`keysPressed
      ensures keysPressed == AfterEvent(old(keysPressed), KeyEvent.KeyUp(key))
    {
      if key in keysPressed {
        keysPressed := keysPressed - {key};
      }
    }
  }
}
