# Arpeggio playback engine in Dafny

Arpeggio is an on-screen piano. It plays the notes typed on two rows of the
computer keyboard and plays back a MIDI file by lighting and sounding the keys
of an 88-key layout. This project models the engine inside `main.py` and leaves
out the drawing. The engine has these parts:

- **Pitch naming.** `midi_to_note_name` turns a MIDI number in [0, 127] into a
  letter name and the octave `n // 12 - 1` (module `Pitch`).
- **Timeline extraction.** `load_midi_file` walks the parsed message stream
  with a running total of delta times. It stamps every sounding `note_on` whose
  name is on the keyboard with that time in milliseconds, its key index, its
  key colour and its velocity (modules `Timeline` and `Lists`, and the methods
  `Engine.ExtractLoop` and `Engine.PlaybackEngine.Load`).
- **Dispatcher.** Once per frame, the cursor moves over every timeline entry
  that is due. Each entry lights its key and asks the mixer for a channel to
  play its note on (the note is dropped when none is free), and playback stops
  when no entries are left (modules `Dispatch` and `Highlights`, the methods
  `Engine.DispatchRun` and `Engine.PlaybackEngine.Tick`).
- **Voice bookkeeping.** The list of live mixer channels is pruned to the busy
  ones every frame. A played note appends the channel the mixer found, if it
  found one. The soft limiter scales the volume once more than 16 voices are
  live (module `Voices`).
- **Highlights.** Each trigger appends an `[index, 30]` counter. Drawing a
  frame counts every positive counter down by one. A black counter only goes
  down when its index is one of the 36 black keys drawn (module `Highlights`,
  method `Engine.PlaybackEngine.DecayHighlights`).
- **Keyboard input.** The arrow keys move the two hands' octaves within
  [0, 8]. A key held down does not sound again until a key-up releases it, and
  a typed key's note lights the key that the `list.index` lookup finds
  (module `Keyboard`, and in `Engine` the function `Press` and the methods
  `KeyDown` and `KeyUp`).

The global state of the script becomes the class `Engine.PlaybackEngine`. Its
fields are:

- `playback_messages`;
- `current_msg_index`;
- `playback_active`;
- `playback_start_time`;
- the two highlight lists;
- `g_active_channels`;
- the two octaves;
- the octaves `left_dict` and `right_dict` were built with at the top of the
  frame, which every key-down of that frame reads;
- `keys_pressed`.

Each event handler and per-frame update is one method, proved against
functions of the module it belongs to. Loops run in heap-free methods
(`ExtractLoop`, `DispatchRun`) or in place on the fields
(`DecayHighlights`).

These external inputs become parameters:

- the MIDI parser's result: an `Option` over the message stream, with None
  standing for the exception;
- the mixer's `find_channel` answers: one `Option<Channel>` per call;
- `get_busy`: the set of busy channels;
- the clock: an integer number of milliseconds.

The key tables `white_notes` and `black_labels` come from a module outside
`main.py`. They are constructor parameters here, and
`Engine.WellFormedTables` states what the layout is taken to satisfy.

Times are exact reals. The shipped code sums floating-point seconds, so it
can round where this model does not.

Three behaviours are modelled as the code has them:

- Highlights are never removed from their lists. A spent counter stays there
  at 0.
- Starting playback of a file with no sounding notes leaves `playback_active`
  true. The dispatcher's outer guard (`main.py:320`) never reaches the line
  that clears it.
- Playback only fires notes. There are no note-off events, durations, sustain
  pedal or lead-in.

## Model

| member | source | states |
|---|---|---|
| Lists.FirstIndex | main.py:375-388 | `list.index`: None exactly when the name is absent; otherwise a position holding the name with no earlier one |
| Lists.IndexMap | main.py:67-68 | the dict built over `enumerate`: its keys are exactly the names, each maps to a position holding it, and no later position holds it (duplicates: last wins) |
| Lists.IndexMapAgreesWithFirstIndex | main.py:67-68 | with no duplicate names, the dictionary lookup used during loading and `list.index` used on key-down give the same position, and fail together |
| Lists.DuplicateSplitsLookups | main.py:67-68 | with a duplicate name, `index` finds the first copy and the dictionary keeps the last |
| Pitch.OctaveText | main.py:77 | `str` of an octave in (-10, 10) is one or two characters and never starts with '#' |
| Pitch.MidiToNoteName | main.py:71-77 | None exactly when the number is outside [0, 127] |
| Pitch.NameOfParts | main.py:74-77 | the name of `12 * (o + 1) + k` is `NOTE_NAMES[k]` followed by the octave `o` |
| Pitch.NoteNameRoundTrip | main.py:71-77 | every name produced reads back as its own number, so naming loses nothing |
| Pitch.NoteNumberSound | main.py:71-77 | any text that reads back as a number is exactly that number's name |
| Pitch.NoteNameInjective | main.py:71-77 | distinct numbers in range get distinct names |
| Pitch.SharpNames | main.py:74-77 | a name's second character is '#' exactly for pitch classes 1, 3, 6, 8 and 10 |
| Pitch.NoteNamesDistinct | main.py:42 | the twelve letter names are pairwise distinct |
| Timeline.ClassifyCases | main.py:93-108 | a message yields an entry exactly when it is a `note_on` with positive velocity, in range, whose name is in one of the tables; the black table decides first and its index is the one stored |
| Timeline.Classify | main.py:93-108 | definition: the colour and index a message's key has, black table first, or None when the message sounds nothing on the keyboard (its properties in `ClassifyCases`) |
| Timeline.Emit | main.py:96-108 | definition: the entry one message appends at running time `timeSec`, stamped in milliseconds, or nothing |
| Timeline.ExtractFrom | main.py:91-108 | definition: the entries of a message stream whose running time before it is `t` (characterised by `ExtractAt`, `ExtractLength`, `ExtractAppend`) |
| Timeline.Extract | main.py:88-108 | definition: the whole timeline, running time starting at 0 |
| Timeline.Elapsed | main.py:92 | definition: the sum of the deltas, the value of `current_time_sec` after them |
| Timeline.EmitCount | main.py:93-108 | definition: how many messages pass the entry tests |
| Timeline.ExtractAt | main.py:89-108 | a producing message's entry sits after those of earlier messages, with time 1000 × (start + every delta up to and including its own), its table index, its colour and its velocity |
| Timeline.ExtractLength | main.py:91-108 | one entry per producing message and no more |
| Timeline.ExtractAppend | main.py:89-92 | extraction of a concatenation is the extraction of each part, the second starting at the first's elapsed time; every delta counts, sounding or not |
| Timeline.ElapsedAppend | main.py:92 | the running time over a concatenation is the sum of the parts' running times |
| Timeline.EmitCountAppend | main.py:93-108 | the number of producing messages adds up over a concatenation |
| Timeline.ExtractNotBefore | main.py:89-108 | with no negative delta, every entry is stamped no earlier than the starting time |
| Timeline.ExtractSorted | main.py:89-108 | with no negative delta, the timeline comes out in time order |
| Engine.MessageEntry | main.py:92-108 | the loop body for one message appends exactly the entry `Emit` gives for it |
| Engine.ExtractLoop | main.py:88-108 | the loading loop builds exactly `Extract` of the messages |
| Engine.LoadTurn | main.py:91-108 | one turn of the loading loop: the running time grows by the message's delta and the timeline of the prefix read so far grows by exactly that message's entry |
| Engine.TableMaps | main.py:67-68 | `black_note_map` and `white_note_map`: each is defined on exactly the names of its table |
| Engine.PlaybackEngine.Load | main.py:80-112 | a failed parse returns false and changes nothing; success returns true, replaces the timeline with `Extract`, rewinds the cursor and stops playback |
| Engine.PlaybackEngine.Play | main.py:397-408 | keypad 0: on a successful load, playback is active from clock time `now` at cursor 0; otherwise nothing changes |
| Engine.TypedKeyMatchesTimeline | main.py:93-108 | with well-formed tables, the key a typed note name lights is the key that a `note_on` of that pitch lights during playback |
| Dispatch.DueEnd | main.py:323-341 | the cursor stop: never before the start, never past the end, every entry passed is due and the entry it stops at is not |
| Dispatch.DueEndSorted | main.py:323-341 | on a sorted timeline, every entry from the stop onward is not yet due |
| Dispatch.DueEndIdle | main.py:327-341 | when the entry at the cursor is not due, the cursor stays |
| Dispatch.DueEndMonotone | main.py:321-341 | a later clock never takes fewer entries |
| Dispatch.DueEndTwoTicks | main.py:320-345 | two frames at `now` then `later` stop where one frame at `later` would, so nothing is skipped or reordered between frames |
| Dispatch.HighlightsForAppend | main.py:329-334 | one more dispatched entry appends one fresh counter to its own colour's list and nothing to the other |
| Dispatch.HighlightsPartition | main.py:329-334 | every dispatched entry lands in exactly one of the two lists |
| Dispatch.HighlightsForFresh | main.py:331-334 | every appended counter is 30, and every dispatched entry of a colour lights its key in that list |
| Dispatch.HighlightsFor | main.py:329-334 | the counters a run of dispatched entries appends to one colour's list, never more than the run is long |
| Engine.TakeAllSpec | main.py:323-341 | dispatching a run appends each colour's highlights and this frame's channel allocations, in order |
| Engine.TakeExtends | main.py:328-334 | taking one entry after a run appends one fresh counter to that run's highlights of its colour, none to the other, and records its channel |
| Engine.TakeAllStep | main.py:323-339 | one turn of the dispatch loop extends the run by the entry at the cursor |
| Engine.Take | main.py:328-339 | one dispatched entry adds exactly one counter, to its colour's list, keeps both lists' old contents as prefixes, and records its channel |
| Engine.TakeAll | main.py:323-339 | a run dispatched in order adds exactly one counter per entry across the two lists |
| Engine.DispatchRun | main.py:323-341 | the dispatch loop stops at `DueEnd`, lights exactly the keys of the due entries in order and keeps exactly the channels found for them |
| Engine.PlaybackEngine.DispatchDue | main.py:323-341 | the same loop on the engine's fields, keeping every counter in [0, 30] |
| Engine.PlaybackEngine.Tick | main.py:320-345 | inactive or finished: nothing changes; otherwise the cursor moves to `DueEnd` at `ticks - start`, the due entries light their keys and keep the channels found for them, and playback is active exactly while entries remain |
| Voices.KeepBusy | main.py:318 | pruning keeps a channel exactly when it was live and is busy, and never lengthens the list |
| Voices.KeepBusyAppend | main.py:318 | pruning distributes over concatenation, so it keeps the original order |
| Voices.KeepBusyCounts | main.py:318 | pruning keeps each busy channel as many times as it occurred, and no other channel |
| Voices.KeepBusyAllBusy | main.py:318 | a list of busy channels survives pruning untouched |
| Voices.KeepBusyIdempotent | main.py:318 | pruning twice is pruning once |
| Engine.PlaybackEngine.Prune | main.py:318 | the channel list becomes its busy channels, in order |
| Voices.LimiterRatio | main.py:123-126 | the ratio under the square root lies in (0, 1], and is 1 exactly when at most 16 voices are live |
| Voices.LimiterRatioAntitone | main.py:123-126 | more live voices never make a note louder |
| Voices.VolumeBounded | main.py:132-134 | for any MIDI velocity, the square of the final volume lies in [0, 0.36], so the volume lies in [0, 0.6] |
| Voices.SixtyFourVoices | main.py:123-134 | with 64 live voices, a full-velocity note has ratio 1/4 and volume 0.3 (square 0.09) |
| Voices.AllocationsStep | main.py:136-140 | one more `find_channel` call extends the frame's allocations by its answer |
| Voices.Played | main.py:136-144 | the channel list after one played note: the old list unchanged as a prefix, followed by the found channel, or nothing when none was found |
| Voices.Allocations | main.py:136-140 | the channels the first `n` `find_channel` calls of a frame hand out, at most one per call |
| Voices.VolumeSquared | main.py:121-134 | definition: the square of `final_volume`, the base volume squared times the limiter ratio times `(velocity / 127)` squared (bounded by `VolumeBounded`) |
| Engine.PlaybackEngine.PlayNote | main.py:115-144 | the volume is set from the live count before this note, and the channel list grows by the found channel, or stays as it was when none is found |
| Highlights.DecayShape | main.py:167-196 | one frame keeps length and keys, lowers each positive counter by one (a black one only for drawn indices 0..35), never below zero, and leaves the rest alone |
| Highlights.DecayKeepsBounded | main.py:167-196 | a frame keeps every counter in [0, 30] |
| Highlights.AppendKeepsBounded | main.py:331-334 | appending fresh counters keeps every counter in [0, 30] |
| Highlights.DecayNFrames | main.py:167-196 | after `n` frames a counted-down highlight has `max(frames - n, 0)` left and keeps its key |
| Highlights.FreshLifetime | main.py:167-196 | a freshly lit key stays lit for exactly 30 frames |
| Highlights.UndrawnBlackNeverDecays | main.py:159-177 | a black counter whose index is not drawn never goes down |
| Highlights.Fresh | main.py:331-334 | definition: the `[index, 30]` counter every trigger appends |
| Highlights.DecayBlack | main.py:167-177 | definition: one frame of a black counter, lowered only while positive and only for the drawn indices 0..35 (its properties in `DecayShape`) |
| Highlights.DecayWhite | main.py:192-196 | definition: one frame of a white counter, lowered only while positive |
| Highlights.DecayedBlacks | main.py:159-177 | definition: the black list after one `draw_piano`, element by element |
| Highlights.DecayedWhites | main.py:192-196 | definition: the white list after one `draw_piano`, element by element |
| Engine.PlaybackEngine.DecayHighlights | main.py:159-196 | the in-place loops of `draw_piano` leave exactly `DecayedBlacks` and `DecayedWhites` of the old lists |
| Keyboard.Shift | main.py:410-421 | one arrow keeps both octaves in [0, 8] and moves only its own hand |
| Keyboard.ShiftAllInRange | main.py:410-421 | no sequence of arrow presses takes an octave outside [0, 8] |
| Keyboard.ShiftUndo | main.py:410-421 | away from a bound an arrow is undone by the opposite one; at a bound it is ignored |
| Keyboard.ShiftAll | main.py:410-421 | definition: the octaves after a sequence of arrow presses, one `Shift` each (bounded by `ShiftAllInRange`) |
| Engine.PlaybackEngine.ShiftOctave | main.py:410-421 | the arrow handler sets the octaves to `Shift` of the old ones |
| Keyboard.HandNote | main.py:287-314 | a row's note for a typed key, when there is one, is at least two characters long |
| Keyboard.TypedNote | main.py:373-390 | the note a typed key plays, when there is one, is at least two characters long |
| Keyboard.RowsDisjoint | main.py:373-390 | no key is in both rows, so the two `if` blocks of the key-down handler never both fire |
| Keyboard.HandNoteIsMidiName | main.py:287-314 | the `k`-th key of a row at octave `oct` plays exactly the name `midi_to_note_name` gives `12 * (oct + 1) + k` |
| Keyboard.RowIndex | main.py:287-314 | each key of a row is found at its own position |
| Keyboard.NoRetriggerWhileHeld | main.py:369-395 | with no key-up for `k`, `k` passes the held-key check at most once, and not at all if already held; a key-down of an unheld `k` does pass it (whether a note then sounds is `Press`'s business) |
| Keyboard.ReleaseRearms | main.py:392-395 | after a key-up, the next key-down of that key passes the held-key check |
| Keyboard.Retriggers | main.py:371 | definition: the held-key check, passed exactly by a key not in `keys_pressed` |
| Keyboard.AfterEvent | main.py:371-395 | definition: `keys_pressed` after one event; a key-down adds the key, a key-up removes it |
| Keyboard.Triggers | main.py:369-395 | the keys whose key-downs pass the held-key check over a run of events, in order, never more than the events |
| Engine.KeyIndex | main.py:374-388 | a name with '#' second is looked up in the black labels, any other in the white notes; None exactly when it is absent there, otherwise a position holding it |
| Engine.Press | main.py:369-390 | a held key does nothing; a key off both rows plays nothing; otherwise the typed note lights the key of its colour whose label is that note, or the lookup fails |
| Engine.PlaybackEngine.KeyDown | main.py:369-390 | the outcome is `Press` of the old held keys at the octaves the rows were built with at the top of the frame (not the current ones, which an arrow earlier in the same event batch may have moved), the key is now held, and a sounded note asks for a channel at velocity 127, returns the square of the volume that sets (`VolumeSquared` of the live count before it and 127), registers the channel found and lights its key; otherwise no volume is returned and nothing else changes |
| Engine.PlaybackEngine.Apply | main.py:372-390 | the key is now held; a volume is returned exactly for a sounded outcome, the square of the one set at velocity 127, and only then is a channel registered and a key lit in its colour's list |
| Engine.PlaybackEngine.Sound | main.py:375-390 | a note found on the keyboard asks for a channel at velocity 127 and returns the square of the volume that sets from the live count before it, registers the channel found, and appends a fresh counter to its colour's list only |
| Engine.PlaybackEngine.Frame | main.py:286-349 | one frame before its events, in the loop's order: the rows are rebuilt from the octaves, the channels pruned, then dispatch runs on the pruned list, then `draw_piano` counts down every highlight, those this dispatch just lit included |
| Engine.PlaybackEngine.BuildRows | main.py:287-314 | the top of each frame: `left_dict` and `right_dict` are rebuilt from the current octaves, which the frame's key-downs then read |
| Engine.LowestLeftOctaveOffKeyboard | main.py:373-381 | at left octave 0 the key `Z` types `C0`, and with no white key labelled `C0` the lookup fails (the source raises ValueError) |
| Engine.PlaybackEngine.KeyUp | main.py:392-395 | the key is no longer held |
| Engine.PlaybackEngine.constructor | main.py:31-41 | empty timeline at cursor 0, playback off, no highlights or channels, octaves 4 and 5 (rows built for them), and no key held (`keys_pressed = set()`, main.py:285) |

## Left out

- Drawing, fonts, images, the window and the event loop's plumbing: presentation and I/O.
- The black-key x-position arithmetic of `draw_piano`: render geometry.
- Sound loading and the mixer's internals: foreign calls. `find_channel` and `get_busy` are parameters.
- `mido` parsing: modelled as an `Option` over the message stream it yields.
- The contents of `piano_lists`: the tables are parameters. Their expected shape is `Engine.WellFormedTables`.
- Mouse hit-testing with `collidepoint`: it depends on the foreign rectangle API.
- `event.unicode.upper()`: the key arrives already upper-cased.
- The main loop itself is not one member. `Engine.PlaybackEngine.Frame` runs the work of one frame before its events, in the source order: rows, pruning (main.py:318), dispatch (main.py:320-345), then the countdown of `draw_piano` (main.py:347). The caller then runs the batch's handlers in order (main.py:353-421). So a key lit by dispatch is counted down in the frame that lit it, while a typed key is first counted down in the next frame.
- Voices.VolumeSquared: the square root and the floating-point products that set the channel volume are not modelled. The square of the volume, with the limiter ratio in exact reals, stands in for them.
- Engine.PlaybackEngine.KeyDown: in the source, the ValueError that `list.index` raises for a typed note missing from its table is caught nowhere, so the script ends. The model does not end: it finishes the handler with the outcome `NotOnKeyboard`, the key stays held, and nothing else changes. The octave bounds let this happen: with a layout from A0 to C8, left octave 0 types `C0` to `G#0` and right octave 8 types `C#8` to `B8` (`Engine.LowestLeftOctaveOffKeyboard`).
- Engine.PlaybackEngine.KeyDown: the source tests the left row and then the right row. The model looks the key up once, left row first. `Keyboard.RowsDisjoint` shows that at most one row matches.
- Engine.DispatchRun: the channel volume of each dispatched note is not computed. Only its effect on the channel list is kept.
- Floating-point rounding of the running time: times are exact reals.
