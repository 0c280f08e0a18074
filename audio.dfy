/**
 * Audio segments as the sequencer sees them: one integer sample per
 * millisecond, so that the length of a segment is its duration in ms (the
 * unit pydub's `len()` reports). Silence, concatenation and the saturating
 * overlay used by the mixer are defined here.
 */
module Audio {

  type Segment = seq<int>

  /** Range of a 16-bit sample; overlay saturates to it. */
  const SampleMin: int := -32768
  const SampleMax: int := 32767

  ghost predicate InRange(s: Segment) {
    forall i :: 0 <= i < |s| ==> SampleMin <= s[i] <= SampleMax
  }

  function Max(a: int, b: int): int {
    if a < b then b else a
  }

  /** `AudioSegment.silent(duration=d)`: d samples of zero; a negative duration gives nothing. */
  function Silent(duration: int): (r: Segment)
    ensures |r| == Max(0, duration)
    ensures forall i :: 0 <= i < |r| ==> r[i] == 0
  {
    if duration <= 0 then [] else Silent(duration - 1) + [0]
  }

  /** Saturates a sample sum to the 16-bit range. */
  function Clamp(x: int): (r: int)
    ensures SampleMin <= r <= SampleMax
    ensures SampleMin <= x <= SampleMax ==> r == x
    ensures x < SampleMin ==> r == SampleMin
    ensures SampleMax < x ==> r == SampleMax
  {
    if x < SampleMin then SampleMin else if SampleMax < x then SampleMax else x
  }

  /**
   * `base.overlay(s)` at position 0: the result always has the length of
   * `base`; `s` is cut at the end of `base`, and past the end of `s` the base
   * is kept as it is.
   */
  function Overlay(base: Segment, s: Segment): (r: Segment)
    ensures |r| == |base|
  {
    seq(|base|, i requires 0 <= i < |base| => if i < |s| then Clamp(base[i] + s[i]) else base[i])
  }

  /** `s` cut or padded with silence to exactly `n` samples. */
  function Fit(s: Segment, n: nat): (r: Segment)
    ensures |r| == n
  {
    if n <= |s| then s[..n] else s + Silent(n - |s|)
  }

  /** The concatenation of `slots`, in order (the renderers' repeated `+=`). */
  function Concat(slots: seq<Segment>): Segment
  {
    if slots == [] then [] else Concat(slots[..|slots| - 1]) + slots[|slots| - 1]
  }

  /** Overlaying an empty segment is the same as skipping it. */
  lemma OverlayNothing(base: Segment)
    ensures Overlay(base, []) == base
  {
  }

  /** Overlaying keeps every sample of the result in range when the base is. */
  lemma OverlayInRange(base: Segment, s: Segment)
    requires InRange(base)
    ensures InRange(Overlay(base, s))
  {
  }

  /**
   * Overlaying an in-range segment on silence at offset 0 yields that segment,
   * truncated or padded to the length of the silence: a layer, not an append.
   */
  lemma OverlayOnSilence(n: nat, s: Segment)
    requires InRange(s)
    ensures Overlay(Silent(n), s) == Fit(s, n)
  {
    var r := Overlay(Silent(n), s);
    forall i | 0 <= i < n
      ensures r[i] == Fit(s, n)[i]
    {
      if i < |s| {
        assert r[i] == Clamp(0 + s[i]);
      }
    }
  }

  /** A concatenation of in-range slots is in range. */
  lemma {:induction false} ConcatInRange(slots: seq<Segment>)
    requires forall i :: 0 <= i < |slots| ==> InRange(slots[i])
    ensures InRange(Concat(slots))
  {
    if slots != [] {
      var init := slots[..|slots| - 1];
      ConcatInRange(init);
      var c := Concat(slots);
      forall k | 0 <= k < |c|
        ensures SampleMin <= c[k] <= SampleMax
      {
        if k >= |Concat(init)| {
          assert c[k] == slots[|slots| - 1][k - |Concat(init)|];
        }
      }
    }
  }

  /** The length of a concatenation of slots that all have width `w`. */
  lemma {:induction false} ConcatUniformLength(slots: seq<Segment>, w: nat)
    requires forall i :: 0 <= i < |slots| ==> |slots[i]| == w
    ensures |Concat(slots)| == |slots| * w
  {
    if slots != [] {
      var init := slots[..|slots| - 1];
      ConcatUniformLength(init, w);
      assert |Concat(slots)| == (|slots| - 1) * w + w;
    }
  }

  lemma MulNonnegative(a: nat, b: nat)
    ensures 0 <= a * b
  {
  }

  /** Slot `k` of a concatenation of width-`w` slots occupies [k*w, (k+1)*w). */
  lemma {:induction false} ConcatSlot(slots: seq<Segment>, w: nat, k: nat)
    requires forall i :: 0 <= i < |slots| ==> |slots[i]| == w
    requires k < |slots|
    ensures k * w + w <= |Concat(slots)|
    ensures Concat(slots)[k * w..k * w + w] == slots[k]
  {
    var n := |slots|;
    var init := slots[..n - 1];
    UniformPrefix(slots, init, w);
    MulNonnegative(k, w);
    var lo: nat := k * w;
    if k < n - 1 {
      ConcatSlot(init, w, k);
      SlotOfAppend(Concat(init), slots[n - 1], lo, w, init[k]);
    } else {
      ConcatLastSlot(slots, w, lo);
    }
  }

  /** The last of `n` width-`w` slots starts at `lo == (n-1)*w`. */
  lemma ConcatLastSlot(slots: seq<Segment>, w: nat, lo: nat)
    requires forall i :: 0 <= i < |slots| ==> |slots[i]| == w
    requires slots != [] && lo == (|slots| - 1) * w
    ensures lo + w <= |Concat(slots)|
    ensures Concat(slots)[lo..lo + w] == slots[|slots| - 1]
  {
    var n := |slots|;
    var init := slots[..n - 1];
    UniformPrefix(slots, init, w);
    ConcatUniformLength(init, w);
    SlotOfAppend(Concat(init), slots[n - 1], lo, w, slots[n - 1]);
  }

  /** Dropping the last of a list of width-`w` slots leaves width-`w` slots. */
  lemma UniformPrefix(slots: seq<Segment>, init: seq<Segment>, w: nat)
    requires forall i :: 0 <= i < |slots| ==> |slots[i]| == w
    requires slots != [] && init == slots[..|slots| - 1]
    ensures forall i :: 0 <= i < |init| ==> |init[i]| == w
  {
  }

  /** A width-`w` slot found in `front`, or equal to `last` right after it, is found in `front + last`. */
  lemma SlotOfAppend(front: Segment, last: Segment, lo: nat, w: nat, slot: Segment)
    requires |last| == w
    requires (lo == |front| && slot == last) || (lo + w <= |front| && front[lo..lo + w] == slot)
    ensures lo + w <= |front + last|
    ensures (front + last)[lo..lo + w] == slot
  {
    SliceAppend(front, last, lo, lo + w);
  }

  /** A slice of `a + b` that lies within `a`, or is exactly `b`. */
  lemma SliceAppend(a: Segment, b: Segment, i: nat, j: nat)
    requires i <= j <= |a + b|
    ensures j <= |a| ==> (a + b)[i..j] == a[i..j]
    ensures i == |a| && j == |a| + |b| ==> (a + b)[i..j] == b
  {
  }
}
