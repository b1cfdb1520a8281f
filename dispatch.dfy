/**
 * The playback dispatcher of the main loop: on each frame, entries are taken
 * from the cursor on for as long as their time has come, every taken entry
 * lights its key for 30 frames and asks the mixer for a channel to play its
 * note on, and the cursor stops at the first entry still in the future.
 */
module Dispatch {
  import opened Timeline
  import opened Highlights

  /** Where the cursor stops when it starts at `i` and the clock reads `now`. */
  function DueEnd(msgs: seq<Entry>, i: nat, now: real): (e: nat)
    requires i <= |msgs|
    ensures i <= e <= |msgs|
    ensures forall k :: i <= k < e ==> msgs[k].timeMs <= now
    ensures e < |msgs| ==> msgs[e].timeMs > now
    decreases |msgs| - i
  {
    if i < |msgs| && msgs[i].timeMs <= now then DueEnd(msgs, i + 1, now) else i
  }

  /**
   * The highlights a run of dispatched entries appends to one colour's list:
   * `Black` collects the black entries, `White` every other one, since the
   * source sends anything not black to the white list.
   */
  function HighlightsFor(es: seq<Entry>, c: KeyColor): (r: seq<Highlight>)
    ensures |r| <= |es|
  {
    if es == [] then []
    else
      var last := es[|es| - 1];
      HighlightsFor(es[..|es| - 1], c) + (if last.color == c then [Fresh(last.index)] else [])
  }

  /** On a sorted timeline the cursor splits it into everything due and everything not. */
  lemma DueEndSorted(msgs: seq<Entry>, i: nat, now: real)
    requires i <= |msgs| && SortedByTime(msgs)
    ensures forall k :: DueEnd(msgs, i, now) <= k < |msgs| ==> msgs[k].timeMs > now
  {
  }

  /** When nothing is due the cursor stays where it is. */
  lemma DueEndIdle(msgs: seq<Entry>, i: nat, now: real)
    requires i <= |msgs| && (i == |msgs| || msgs[i].timeMs > now)
    ensures DueEnd(msgs, i, now) == i
  {
  }

  /** A later clock never takes fewer entries. */
  lemma {:induction false} DueEndMonotone(msgs: seq<Entry>, i: nat, now: real, later: real)
    requires i <= |msgs| && now <= later
    ensures DueEnd(msgs, i, now) <= DueEnd(msgs, i, later)
    decreases |msgs| - i
  {
    if i < |msgs| && msgs[i].timeMs <= now {
      DueEndMonotone(msgs, i + 1, now, later);
    }
  }

  /**
   * Splitting one late frame into two earlier ones changes nothing: dispatching
   * up to `now` and then up to `later` stops where dispatching up to `later`
   * at once would, so slow frames neither skip nor reorder entries.
   */
  lemma {:induction false} DueEndTwoTicks(msgs: seq<Entry>, i: nat, now: real, later: real)
    requires i <= |msgs| && now <= later
    ensures DueEnd(msgs, DueEnd(msgs, i, now), later) == DueEnd(msgs, i, later)
    decreases |msgs| - i
  {
    if i < |msgs| && msgs[i].timeMs <= now {
      DueEndTwoTicks(msgs, i + 1, now, later);
    }
  }

  lemma {:induction false} HighlightsForAppend(es: seq<Entry>, e: Entry, c: KeyColor)
    ensures HighlightsFor(es + [e], c) == HighlightsFor(es, c) + (if e.color == c then [Fresh(e.index)] else [])
  {
    assert (es + [e])[..|es + [e]| - 1] == es;
  }

  /** Every dispatched entry lands in exactly one of the two lists. */
  lemma {:induction false} HighlightsPartition(es: seq<Entry>)
    ensures |HighlightsFor(es, Black)| + |HighlightsFor(es, White)| == |es|
  {
    if es != [] {
      HighlightsPartition(es[..|es| - 1]);
    }
  }

  /** Each appended highlight is fresh, and every entry of the colour has its key lit. */
  lemma {:induction false} HighlightsForFresh(es: seq<Entry>, c: KeyColor)
    ensures forall q :: 0 <= q < |HighlightsFor(es, c)| ==> HighlightsFor(es, c)[q].frames == HighlightFrames
    ensures forall k :: 0 <= k < |es| && es[k].color == c ==> Fresh(es[k].index) in HighlightsFor(es, c)
  {
    if es != [] {
      HighlightsForFresh(es[..|es| - 1], c);
    }
  }
}
