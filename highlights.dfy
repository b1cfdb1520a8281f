/**
 * Key highlights: `[index, frames]` pairs appended on every trigger and counted
 * down once per drawn frame by `draw_piano`.  A counter is only decremented
 * while positive, a black highlight only when its index is one of the 36 black
 * keys drawn, and no highlight is ever removed from its list.
 */
module Highlights {

  const HighlightFrames := 30
  const BlackKeyCount := 36

  datatype Highlight = Highlight(key: int, frames: int)

  /** A counter a trigger appends. */
  function Fresh(key: int): Highlight
  {
    Highlight(key, HighlightFrames)
  }

  /** One frame of a black highlight: only keys the drawing loop visits are counted down. */
  function DecayBlack(h: Highlight): Highlight
  {
    if 0 <= h.key < BlackKeyCount && h.frames > 0 then h.(frames := h.frames - 1) else h
  }

  /** One frame of a white highlight. */
  function DecayWhite(h: Highlight): Highlight
  {
    if h.frames > 0 then h.(frames := h.frames - 1) else h
  }

  function DecayedBlacks(s: seq<Highlight>): seq<Highlight>
  {
    seq(|s|, q requires 0 <= q < |s| => DecayBlack(s[q]))
  }

  function DecayedWhites(s: seq<Highlight>): seq<Highlight>
  {
    seq(|s|, q requires 0 <= q < |s| => DecayWhite(s[q]))
  }

  /** Every counter lies in [0, 30]. */
  ghost predicate Bounded(s: seq<Highlight>)
  {
    forall q :: 0 <= q < |s| ==> 0 <= s[q].frames <= HighlightFrames
  }

  /** `n` frames of decay of a single highlight. */
  function DecayN(h: Highlight, black: bool, n: nat): Highlight
  {
    if n == 0 then h
    else
      var h' := DecayN(h, black, n - 1);
      if black then DecayBlack(h') else DecayWhite(h')
  }

  /**
   * A frame keeps the list's length and every key, lowers each positive counter
   * of a drawn key by exactly one, never lowers a counter below zero and leaves
   * the rest alone.
   */
  lemma DecayShape(s: seq<Highlight>, q: nat)
    requires q < |s|
    ensures |DecayedBlacks(s)| == |s| && |DecayedWhites(s)| == |s|
    ensures DecayedBlacks(s)[q].key == s[q].key && DecayedWhites(s)[q].key == s[q].key
    ensures DecayedWhites(s)[q].frames == if s[q].frames > 0 then s[q].frames - 1 else s[q].frames
    ensures DecayedBlacks(s)[q].frames ==
      if s[q].frames > 0 && 0 <= s[q].key < BlackKeyCount then s[q].frames - 1 else s[q].frames
    ensures s[q].frames >= 0 ==> DecayedBlacks(s)[q].frames >= 0 && DecayedWhites(s)[q].frames >= 0
  {
  }

  /** A frame keeps every counter in [0, 30]. */
  lemma DecayKeepsBounded(s: seq<Highlight>)
    requires Bounded(s)
    ensures Bounded(DecayedBlacks(s)) && Bounded(DecayedWhites(s))
  {
  }

  /** Appending fresh highlights keeps every counter in [0, 30]. */
  lemma AppendKeepsBounded(s: seq<Highlight>, t: seq<Highlight>)
    requires Bounded(s)
    requires forall q :: 0 <= q < |t| ==> t[q].frames == HighlightFrames
    ensures Bounded(s + t)
  {
  }

  /**
   * A highlight with a non-negative counter that gets counted down has
   * `max(frames - n, 0)` left after `n` frames, keeping its key.
   */
  lemma {:induction false} DecayNFrames(h: Highlight, black: bool, n: nat)
    requires h.frames >= 0
    requires black ==> 0 <= h.key < BlackKeyCount
    ensures DecayN(h, black, n).key == h.key
    ensures DecayN(h, black, n).frames == if n <= h.frames then h.frames - n else 0
  {
    if n > 0 {
      DecayNFrames(h, black, n - 1);
    }
  }

  /** A freshly triggered key of the keyboard stays lit for exactly 30 frames. */
  lemma FreshLifetime(key: int, black: bool, n: nat)
    requires black ==> 0 <= key < BlackKeyCount
    ensures DecayN(Fresh(key), black, n).frames > 0 <==> n < HighlightFrames
  {
    DecayNFrames(Fresh(key), black, n);
  }

  /** A black highlight whose index is not drawn is never counted down. */
  lemma {:induction false} UndrawnBlackNeverDecays(h: Highlight, n: nat)
    requires !(0 <= h.key < BlackKeyCount)
    ensures DecayN(h, true, n) == h
  {
    if n > 0 {
      UndrawnBlackNeverDecays(h, n - 1);
    }
  }
}
