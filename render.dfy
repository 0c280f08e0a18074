/**
 * The tempo clock and the two renderers, as specification functions: what
 * `create_pattern_sound` and `create_melody_sound` build, slot by slot.
 */
module Render {
  import opened Wrappers
  import opened Audio

  const MinTempo: int := 20
  const MaxTempo: int := 300
  const DefaultTempo: int := 120
  /** A measure is four beats. */
  const BeatsPerMeasure: int := 4

  /** The loader: `load_audio_file(path)`, None when the file is missing or fails to decode. */
  type Loader = string -> Option<Segment>

  /** `60000 // tempo`: the whole milliseconds in one beat, rounded down. */
  function BeatMs(tempo: int): (r: int)
    requires 0 < tempo
    ensures 0 <= r
    ensures r * tempo <= 60000 < (r + 1) * tempo
  {
    60000 / tempo
  }

  /** Every valid tempo gives a beat of between 200 and 3000 ms. */
  lemma BeatMsBounds(tempo: int)
    requires MinTempo <= tempo <= MaxTempo
    ensures 200 <= BeatMs(tempo) <= 3000
  {
  }

  lemma BeatMsExamples()
    ensures BeatMs(DefaultTempo) == 500
    ensures BeatMs(90) == 666
    ensures BeatMs(MinTempo) == 3000 && BeatMs(MaxTempo) == 200
  {
  }

  /** `f"{dir}/{name}.wav"`. */
  function WavPath(dir: string, name: string): string {
    dir + "/" + name + ".wav"
  }

  /**
   * The loader's result as the source tests it (`if not hit_sound`,
   * `if note_audio`): a segment of length zero is falsy, so it counts as a
   * failed load.
   */
  function Loaded(load: Loader, path: string): (r: Option<Segment>)
    ensures r.Some? ==> |r.value| > 0 && load(path) == r
    ensures r.None? ==> load(path).None? || load(path).value == []
  {
    match load(path)
    case None => None
    case Some(s) => if |s| == 0 then None else Some(s)
  }

  /** One beat slot of a pattern: the hit padded to a beat for a flag equal to 1, a silent beat otherwise. */
  function PatternSlot(flag: int, hit: Segment, beatMs: int): Segment {
    if flag == 1 then hit + Silent(beatMs - |hit|) else Silent(beatMs)
  }

  function PatternSlots(flags: seq<int>, hit: Segment, beatMs: int): (r: seq<Segment>)
    ensures |r| == |flags|
  {
    seq(|flags|, i requires 0 <= i < |flags| => PatternSlot(flags[i], hit, beatMs))
  }

  /** The track a pattern renders to once its hit sample has loaded. */
  function PatternTrack(flags: seq<int>, hit: Segment, beatMs: int): Segment {
    Concat(PatternSlots(flags, hit, beatMs))
  }

  /**
   * `create_pattern_sound`: the sample named after the pattern is loaded once;
   * if that fails the whole pattern renders to None, whatever its flags.
   */
  function RenderPattern(flags: seq<int>, name: string, beatMs: int, samplesDir: string, load: Loader): (r: Option<Segment>)
    ensures Loaded(load, WavPath(samplesDir, name)).None? <==> r.None?
  {
    match Loaded(load, WavPath(samplesDir, name))
    case None => None
    case Some(hit) => Some(PatternTrack(flags, hit, beatMs))
  }

  /** One beat slot of a melody: the note padded to a beat, or a silent beat when it did not load. */
  function NoteSlot(note: Option<Segment>, beatMs: int): Segment {
    match note
    case None => Silent(beatMs)
    case Some(s) => s + Silent(beatMs - |s|)
  }

  function MelodySlots(notes: seq<string>, beatMs: int, notesDir: string, load: Loader): (r: seq<Segment>)
    ensures |r| == |notes|
  {
    seq(|notes|, i requires 0 <= i < |notes| => NoteSlot(Loaded(load, WavPath(notesDir, notes[i])), beatMs))
  }

  /** `create_melody_sound`: one slot per note, each loading its own sample. */
  function MelodyTrack(notes: seq<string>, beatMs: int, notesDir: string, load: Loader): Segment {
    Concat(MelodySlots(notes, beatMs, notesDir, load))
  }

  /** Every segment the loader returns holds 16-bit samples. */
  ghost predicate LoaderInRange(load: Loader) {
    forall p :: load(p).Some? ==> InRange(load(p).value)
  }

  /** A pattern track built from an in-range hit is in range. */
  lemma PatternTrackInRange(flags: seq<int>, hit: Segment, beatMs: int)
    requires InRange(hit)
    ensures InRange(PatternTrack(flags, hit, beatMs))
  {
    var slots := PatternSlots(flags, hit, beatMs);
    forall i | 0 <= i < |slots|
      ensures InRange(slots[i])
    {
      assert slots[i] == PatternSlot(flags[i], hit, beatMs);
    }
    ConcatInRange(slots);
  }

  /** A melody track built from a loader of 16-bit samples is in range. */
  lemma MelodyTrackInRange(notes: seq<string>, beatMs: int, notesDir: string, load: Loader)
    requires LoaderInRange(load)
    ensures InRange(MelodyTrack(notes, beatMs, notesDir, load))
  {
    var slots := MelodySlots(notes, beatMs, notesDir, load);
    forall i | 0 <= i < |slots|
      ensures InRange(slots[i])
    {
      var note := Loaded(load, WavPath(notesDir, notes[i]));
      assert slots[i] == NoteSlot(note, beatMs);
    }
    ConcatInRange(slots);
  }

  /**
   * A hit slot is `max(|hit|, beat)` long and starts with the hit, then silence;
   * a slot for any other flag value is exactly one beat of silence.
   */
  lemma PatternSlotShape(flag: int, hit: Segment, beatMs: nat)
    ensures flag == 1 ==> |PatternSlot(flag, hit, beatMs)| == Max(|hit|, beatMs)
    ensures flag == 1 ==> PatternSlot(flag, hit, beatMs)[..|hit|] == hit
    ensures flag != 1 ==> PatternSlot(flag, hit, beatMs) == Silent(beatMs)
    ensures forall i :: (flag != 1 || |hit| <= i) && 0 <= i < |PatternSlot(flag, hit, beatMs)| ==>
              PatternSlot(flag, hit, beatMs)[i] == 0
  {
    var s := PatternSlot(flag, hit, beatMs);
    if flag == 1 {
      assert s[..|hit|] == hit;
      forall i | |hit| <= i < |s| ensures s[i] == 0 {
        assert s[i] == Silent(beatMs - |hit|)[i - |hit|];
      }
    }
  }

  /** A pattern whose hit fits in a beat renders to exactly one beat per flag. */
  lemma PatternTrackLength(flags: seq<int>, hit: Segment, beatMs: nat)
    requires |hit| <= beatMs
    ensures |PatternTrack(flags, hit, beatMs)| == |flags| * beatMs
  {
    ConcatUniformLength(PatternSlots(flags, hit, beatMs), beatMs);
  }

  /** With a hit that fits in a beat, beat `k` of the track is the slot of flag `k`. */
  lemma PatternTrackBeat(flags: seq<int>, hit: Segment, beatMs: nat, k: nat)
    requires |hit| <= beatMs && k < |flags|
    ensures k * beatMs + beatMs <= |PatternTrack(flags, hit, beatMs)|
    ensures PatternTrack(flags, hit, beatMs)[k * beatMs..k * beatMs + beatMs] == PatternSlot(flags[k], hit, beatMs)
  {
    ConcatSlot(PatternSlots(flags, hit, beatMs), beatMs, k);
  }

  /** Number of flags equal to 1. */
  function Hits(flags: seq<int>): (r: nat)
    ensures r <= |flags|
  {
    if flags == [] then 0 else Hits(flags[..|flags| - 1]) + (if flags[|flags| - 1] == 1 then 1 else 0)
  }

  /**
   * Length of a pattern track for any hit length: every hit slot is
   * `max(|hit|, beat)` long and every other slot one beat.
   */
  lemma {:induction false} PatternTrackLengthGeneral(flags: seq<int>, hit: Segment, beatMs: nat)
    ensures |PatternTrack(flags, hit, beatMs)| ==
            Hits(flags) * Max(|hit|, beatMs) + (|flags| - Hits(flags)) * beatMs
  {
    if flags != [] {
      var n := |flags|;
      var init := flags[..n - 1];
      var slots := PatternSlots(flags, hit, beatMs);
      PatternTrackLengthGeneral(init, hit, beatMs);
      assert slots[..n - 1] == PatternSlots(init, hit, beatMs);
      var h, m := Hits(init), Max(|hit|, beatMs);
      var before := |PatternTrack(init, hit, beatMs)|;
      assert |PatternTrack(flags, hit, beatMs)| == before + |slots[n - 1]|;
      if flags[n - 1] == 1 {
        assert |slots[n - 1]| == m;
        OneMore(h, n - 1 - h, m, beatMs);
      } else {
        assert |slots[n - 1]| == beatMs;
        OneMore(n - 1 - h, h, beatMs, m);
      }
    }
  }

  /** One more slot of width `m`, next to `k` slots of width `b`. */
  lemma OneMore(h: int, k: int, m: int, b: int)
    ensures h * m + k * b + m == (h + 1) * m + k * b
    ensures k * b + h * m + m == k * b + (h + 1) * m
  {
  }

  /** A melody whose loaded notes all fit in a beat. */
  ghost predicate NotesFit(notes: seq<string>, beatMs: int, notesDir: string, load: Loader) {
    forall i :: 0 <= i < |notes| ==>
      (Loaded(load, WavPath(notesDir, notes[i])).Some? ==> |Loaded(load, WavPath(notesDir, notes[i])).value| <= beatMs)
  }

  /** Slot `k` of a melody is its note padded to `max(|note|, beat)`, or one silent beat if missing. */
  lemma NoteSlotShape(note: Option<Segment>, beatMs: nat)
    ensures note.None? ==> NoteSlot(note, beatMs) == Silent(beatMs)
    ensures note.Some? ==> |NoteSlot(note, beatMs)| == Max(|note.value|, beatMs)
    ensures note.Some? ==> NoteSlot(note, beatMs)[..|note.value|] == note.value
    ensures note.Some? ==> forall i :: |note.value| <= i < |NoteSlot(note, beatMs)| ==> NoteSlot(note, beatMs)[i] == 0
  {
    if note.Some? {
      var s := NoteSlot(note, beatMs);
      assert s[..|note.value|] == note.value;
      forall i | |note.value| <= i < |s| ensures s[i] == 0 {
        assert s[i] == Silent(beatMs - |note.value|)[i - |note.value|];
      }
    }
  }

  /** A melody whose notes fit in a beat renders to exactly one beat per note, missing notes included. */
  lemma MelodyTrackLength(notes: seq<string>, beatMs: nat, notesDir: string, load: Loader)
    requires NotesFit(notes, beatMs, notesDir, load)
    ensures |MelodyTrack(notes, beatMs, notesDir, load)| == |notes| * beatMs
  {
    var slots := MelodySlots(notes, beatMs, notesDir, load);
    forall i | 0 <= i < |slots| ensures |slots[i]| == beatMs {
      NoteSlotShape(Loaded(load, WavPath(notesDir, notes[i])), beatMs);
    }
    ConcatUniformLength(slots, beatMs);
  }

  /**
   * Beat `k` of a melody whose notes fit in a beat holds note `k` padded to a
   * beat; a note that did not load leaves that beat silent.
   */
  lemma MelodyTrackBeat(notes: seq<string>, beatMs: nat, notesDir: string, load: Loader, k: nat)
    requires NotesFit(notes, beatMs, notesDir, load) && k < |notes|
    ensures k * beatMs + beatMs <= |MelodyTrack(notes, beatMs, notesDir, load)|
    ensures MelodyTrack(notes, beatMs, notesDir, load)[k * beatMs..k * beatMs + beatMs] ==
            NoteSlot(Loaded(load, WavPath(notesDir, notes[k])), beatMs)
    ensures Loaded(load, WavPath(notesDir, notes[k])).None? ==>
            MelodyTrack(notes, beatMs, notesDir, load)[k * beatMs..k * beatMs + beatMs] == Silent(beatMs)
  {
    var slots := MelodySlots(notes, beatMs, notesDir, load);
    forall i | 0 <= i < |slots| ensures |slots[i]| == beatMs {
      NoteSlotShape(Loaded(load, WavPath(notesDir, notes[i])), beatMs);
    }
    ConcatSlot(slots, beatMs, k);
  }
}
