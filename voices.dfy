/**
 * Voice bookkeeping: the list of channels handed out by the mixer, pruned to
 * the busy ones once per frame, and the soft limiter of
 * `play_note_with_limiter`.  The limiter factor is the square root of
 * `LimiterRatio`; the square root itself is not modelled, its square is.
 */
module Voices {
  import opened Wrappers

  /** A mixer channel, known only by identity. */
  type Channel = nat

  const LimiterThreshold: nat := 16
  const BaseNoteVolume: real := 0.6
  const MaxVelocity: real := 127.0

  /** `[ch for ch in channels if ch.get_busy()]`, `busy` being the channels that answer True. */
  function KeepBusy(chs: seq<Channel>, busy: set<Channel>): (r: seq<Channel>)
    ensures |r| <= |chs|
    ensures forall c :: c in r <==> c in chs && c in busy
  {
    if chs == [] then [] else (if chs[0] in busy then [chs[0]] else []) + KeepBusy(chs[1..], busy)
  }

  /** The square of the limiter factor: one up to the threshold, `16 / count` above it. */
  function LimiterRatio(count: nat): (r: real)
    ensures 0.0 < r <= 1.0
    ensures r == 1.0 <==> count <= LimiterThreshold
  {
    if count > LimiterThreshold then LimiterThreshold as real / count as real else 1.0
  }

  /** The square of `final_volume`: base volume squared, times the ratio, times `(velocity / 127)` squared. */
  function VolumeSquared(count: nat, velocity: int): real
  {
    var v := velocity as real / MaxVelocity;
    BaseNoteVolume * BaseNoteVolume * LimiterRatio(count) * (v * v)
  }

  /** The channel list after one `play_note_with_limiter`: grown by the channel found, if any. */
  function Played(chs: seq<Channel>, found: Option<Channel>): (r: seq<Channel>)
    ensures |r| == |chs| + (if found.Some? then 1 else 0) && r[..|chs|] == chs
    ensures found.Some? ==> r[|chs|] == found.value
  {
    if found.Some? then chs + [found.value] else chs
  }

  /** The channels the first `n` calls of `find_channel` in one frame hand out, in order; `found[k]` answers call `k`. */
  function Allocations(found: seq<Option<Channel>>, n: nat): (r: seq<Channel>)
    requires n <= |found|
    ensures |r| <= n
  {
    if n == 0 then [] else Played(Allocations(found, n - 1), found[n - 1])
  }

  /** One more `find_channel` call extends the allocations of the frame by its answer. */
  lemma AllocationsStep(base: seq<Channel>, found: seq<Option<Channel>>, n: nat)
    requires n < |found|
    ensures base + Allocations(found, n + 1) == Played(base + Allocations(found, n), found[n])
  {
    var a := Allocations(found, n);
    if found[n].Some? {
      assert base + (a + [found[n].value]) == (base + a) + [found[n].value];
    }
  }

  /** Pruning splits over concatenation, so it keeps the original order. */
  lemma {:induction false} KeepBusyAppend(a: seq<Channel>, b: seq<Channel>, busy: set<Channel>)
    ensures KeepBusy(a + b, busy) == KeepBusy(a, busy) + KeepBusy(b, busy)
  {
    if a == [] {
      assert a + b == b;
    } else {
      assert (a + b)[1..] == a[1..] + b;
      KeepBusyAppend(a[1..], b, busy);
    }
  }

  /** Pruning keeps every busy entry as often as it occurs, and no other. */
  lemma {:induction false} KeepBusyCounts(chs: seq<Channel>, busy: set<Channel>, c: Channel)
    ensures multiset(KeepBusy(chs, busy))[c] == if c in busy then multiset(chs)[c] else 0
  {
    if chs != [] {
      assert chs == [chs[0]] + chs[1..];
      KeepBusyCounts(chs[1..], busy, c);
    }
  }

  /** A list of busy channels survives pruning untouched, so pruning twice is pruning once. */
  lemma {:induction false} KeepBusyAllBusy(chs: seq<Channel>, busy: set<Channel>)
    requires forall i :: 0 <= i < |chs| ==> chs[i] in busy
    ensures KeepBusy(chs, busy) == chs
  {
    if chs != [] {
      KeepBusyAllBusy(chs[1..], busy);
    }
  }

  lemma KeepBusyIdempotent(chs: seq<Channel>, busy: set<Channel>)
    ensures KeepBusy(KeepBusy(chs, busy), busy) == KeepBusy(chs, busy)
  {
    KeepBusyAllBusy(KeepBusy(chs, busy), busy);
  }

  /** More live voices never means a louder note. */
  lemma LimiterRatioAntitone(m: nat, n: nat)
    requires m <= n
    ensures LimiterRatio(n) <= LimiterRatio(m)
  {
    if n > LimiterThreshold && m > LimiterThreshold {
      var t, mr, nr := LimiterThreshold as real, m as real, n as real;
      var x, y := t / nr, t / mr;
      assert x * nr == t;
      assert y * mr == t;
      assert 0.0 < y;
      assert (y - x) * nr == y * (nr - mr);
      assert y * (nr - mr) >= 0.0;
      assert (y - x) * nr >= 0.0;
    }
  }

  /** The volume lies in [0, base volume] for every MIDI velocity: its square in [0, 0.36]. */
  lemma VolumeBounded(count: nat, velocity: int)
    requires 0 <= velocity <= 127
    ensures 0.0 <= VolumeSquared(count, velocity) <= BaseNoteVolume * BaseNoteVolume
  {
    var v := velocity as real / MaxVelocity;
    var b := BaseNoteVolume * BaseNoteVolume;
    var r := LimiterRatio(count);
    assert 0.0 <= v <= 1.0;
    assert 0.0 <= v * v <= v by {
      assert v * v <= v * 1.0;
    }
    assert 0.0 <= b * r <= b by {
      assert b * r <= b * 1.0;
    }
    assert (b * r) * (v * v) <= (b * r) * 1.0;
    assert VolumeSquared(count, velocity) == (b * r) * (v * v);
  }

  /** With 64 live voices a full-velocity note plays at 0.6 * sqrt(16 / 64) = 0.3, whose square is 0.09. */
  lemma SixtyFourVoices()
    ensures LimiterRatio(64) == 0.25
    ensures VolumeSquared(64, 127) == 0.09
  {
  }
}
