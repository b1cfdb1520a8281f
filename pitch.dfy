/**
 * Pitch naming: a MIDI note number in [0, 127] becomes a letter name from the
 * twelve-tone table followed by the octave `n // 12 - 1`, written as Python's
 * `str` writes an integer.  `NoteNumber` is the inverse reading of such a name;
 * it is not in the program and serves to state that naming loses nothing.
 */
module Pitch {
  import opened Wrappers
  import Lists

  const NoteNames: seq<string> := ["C", "C#", "D", "D#", "E", "F", "F#", "G", "G#", "A", "A#", "B"]

  const MaxMidi := 127

  function Digit(d: int): char
    requires 0 <= d <= 9
  {
    ('0' as int + d) as char
  }

  /** Python's `str(o)` for an integer of magnitude below ten. */
  function OctaveText(o: int): (s: string)
    requires -10 < o < 10
    ensures 1 <= |s| <= 2
    ensures s[0] != '#'
  {
    if o < 0 then ['-', Digit(-o)] else [Digit(o)]
  }

  /** `midi_to_note_name`: None outside [0, 127]. */
  function MidiToNoteName(n: int): (r: Option<string>)
    ensures r.None? <==> !(0 <= n <= MaxMidi)
  {
    if !(0 <= n <= MaxMidi) then None
    else Some(NoteNames[n % 12] + OctaveText(n / 12 - 1))
  }

  /** Reads back the octave that `OctaveText` writes, refusing every other text. */
  function ParseOctave(t: string): Option<int>
  {
    if |t| == 1 && '0' <= t[0] <= '9' then Some(t[0] as int - '0' as int)
    else if |t| == 2 && t[0] == '-' && '1' <= t[1] <= '9' then Some('0' as int - t[1] as int)
    else None
  }

  /** The length of a name's letter part: two when a sharp follows the letter. */
  function LetterLength(s: string): nat
  {
    if |s| >= 2 && s[1] == '#' then 2 else 1
  }

  /** Reads a note name back as a MIDI number. */
  function NoteNumber(s: string): Option<int>
  {
    if |s| < 2 then None
    else
      var len := LetterLength(s);
      FromParts(Lists.FirstIndex(NoteNames, s[..len]), ParseOctave(s[len..]))
  }

  /** The MIDI number of a letter index and an octave, when both were read and it is in range. */
  function FromParts(letter: Option<nat>, octave: Option<int>): Option<int>
  {
    if letter.None? || octave.None? then None
    else
      var n := 12 * (octave.value + 1) + letter.value;
      if 0 <= n <= MaxMidi then Some(n) else None
  }

  /** A letter name is one letter, or a letter and '#'. */
  lemma LetterShape(k: nat)
    requires k < 12
    ensures 1 <= |NoteNames[k]| <= 2
    ensures |NoteNames[k]| == 2 ==> NoteNames[k][1] == '#'
  {
  }

  lemma NoteNamesDistinct()
    ensures Lists.Distinct(NoteNames)
  {
    forall i, j | 0 <= i < j < |NoteNames|
      ensures NoteNames[i] != NoteNames[j]
    {
      assert NoteNames[i][0] != NoteNames[j][0] || |NoteNames[i]| != |NoteNames[j]|;
    }
  }

  lemma OctaveRoundTrip(o: int)
    requires -10 < o < 10
    ensures ParseOctave(OctaveText(o)) == Some(o)
  {
  }

  lemma ParseOctaveSound(t: string, o: int)
    requires ParseOctave(t) == Some(o)
    ensures -10 < o < 10 && OctaveText(o) == t
  {
    if |t| == 1 {
      assert [Digit(o)] == t;
    } else {
      assert ['-', Digit(-o)] == t;
    }
  }

  /** Naming loses nothing: every name produced reads back as its own number. */
  lemma NoteNameRoundTrip(n: int)
    requires 0 <= n <= MaxMidi
    ensures MidiToNoteName(n).Some? && NoteNumber(MidiToNoteName(n).value) == Some(n)
  {
    var k, o := n % 12, n / 12 - 1;
    NameOfParts(n, k, o);
    NameReadsBack(k, o, n);
  }

  lemma NameReadsBack(k: nat, o: int, n: int)
    requires k < 12 && -1 <= o <= 9 && n == 12 * (o + 1) + k && 0 <= n <= MaxMidi
    ensures NoteNumber(NoteNames[k] + OctaveText(o)) == Some(n)
  {
    NameParts(k, o);
    FromPartsInRange(k, o, n);
  }

  lemma NameParts(k: nat, o: int)
    requires k < 12 && -1 <= o <= 9
    ensures NoteNumber(NoteNames[k] + OctaveText(o)) == FromParts(Some(k), Some(o))
  {
    PartsReadBack(k, o);
    ReadsBack(NoteNames[k], OctaveText(o), k, o);
  }

  lemma PartsReadBack(k: nat, o: int)
    requires k < 12 && -1 <= o <= 9
    ensures Lists.FirstIndex(NoteNames, NoteNames[k]) == Some(k) && ParseOctave(OctaveText(o)) == Some(o)
    ensures 1 <= |NoteNames[k]| <= 2 && (|NoteNames[k]| == 2 ==> NoteNames[k][1] == '#')
  {
    LetterShape(k);
    LetterIndex(k);
    OctaveRoundTrip(o);
  }

  lemma FromPartsInRange(k: nat, o: int, n: int)
    requires n == 12 * (o + 1) + k && 0 <= n <= MaxMidi
    ensures FromParts(Some(k), Some(o)) == Some(n)
  {
  }

  lemma LetterIndex(k: nat)
    requires k < 12
    ensures Lists.FirstIndex(NoteNames, NoteNames[k]) == Some(k)
  {
    NoteNamesDistinct();
  }

  /** A letter part and an octave part that each read back make a name that reads back. */
  lemma ReadsBack(letter: string, oct: string, k: nat, o: int)
    requires 1 <= |letter| <= 2 && (|letter| == 2 ==> letter[1] == '#')
    requires |oct| >= 1 && oct[0] != '#'
    requires Lists.FirstIndex(NoteNames, letter) == Some(k) && ParseOctave(oct) == Some(o)
    ensures NoteNumber(letter + oct) == FromParts(Some(k), Some(o))
  {
    var s := letter + oct;
    assert |letter| == 1 ==> s[1] == oct[0];
    assert LetterLength(s) == |letter|;
    assert s[..|letter|] == letter;
    assert s[|letter|..] == oct;
  }

  /** A text reads back as a number only when it is exactly that number's name. */
  lemma NoteNumberSound(s: string, n: int)
    requires NoteNumber(s) == Some(n)
    ensures MidiToNoteName(n) == Some(s)
  {
    var len := LetterLength(s);
    assert |s| >= 2;
    var k := Lists.FirstIndex(NoteNames, s[..len]).value;
    var o := ParseOctave(s[len..]).value;
    ParseOctaveSound(s[len..], o);
    assert s == NoteNames[k] + OctaveText(o) by {
      assert s == s[..len] + s[len..];
    }
    NameOfParts(n, k, o);
  }

  lemma NameOfParts(n: int, k: nat, o: int)
    requires k < 12 && -10 < o < 10 && n == 12 * (o + 1) + k && 0 <= n <= MaxMidi
    ensures MidiToNoteName(n) == Some(NoteNames[k] + OctaveText(o))
  {
    assert n % 12 == k && n / 12 - 1 == o;
  }

  /** Distinct MIDI numbers get distinct names. */
  lemma NoteNameInjective(a: int, b: int)
    requires 0 <= a <= MaxMidi && 0 <= b <= MaxMidi
    requires MidiToNoteName(a) == MidiToNoteName(b)
    ensures a == b
  {
    NoteNameRoundTrip(a);
    NoteNameRoundTrip(b);
  }

  /** A name's second character is '#' exactly for the five sharp pitch classes. */
  lemma SharpNames(n: int)
    requires 0 <= n <= MaxMidi
    ensures MidiToNoteName(n).value[1] == '#' <==> n % 12 in {1, 3, 6, 8, 10}
  {
  }
}
