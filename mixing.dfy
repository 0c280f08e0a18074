/**
 * The mixing loops of `mix_and_play` and `mix_and_save`: each name is
 * resolved against the patterns first and the melodies second, rendered, and
 * overlaid at offset 0 on one silent measure.
 */
module Mixing {
  import opened Wrappers
  import opened Audio
  import opened Render

  /** The definitions a mix reads: the two maps and the two sample directories. */
  datatype Library = Library(
    patterns: map<string, seq<int>>,
    melodies: map<string, seq<string>>,
    samplesDir: string,
    notesDir: string)

  /** What a mix operand names. */
  datatype Resolved = PatternItem(flags: seq<int>) | MelodyItem(notes: seq<string>) | Unresolved

  /**
   * `if name in self.patterns ... elif name in self.melodies`: patterns win
   * over melodies, and a name in neither map resolves to nothing.
   */
  function Resolve(lib: Library, name: string): (r: Resolved)
    ensures name in lib.patterns ==> r == PatternItem(lib.patterns[name])
    ensures name !in lib.patterns && name in lib.melodies ==> r == MelodyItem(lib.melodies[name])
    ensures r.Unresolved? <==> name !in lib.patterns && name !in lib.melodies
  {
    if name in lib.patterns then PatternItem(lib.patterns[name])
    else if name in lib.melodies then MelodyItem(lib.melodies[name])
    else Unresolved
  }

  /** The `sound` a name yields in the mix loop (None for an unresolved name). */
  function RenderItem(lib: Library, name: string, beatMs: int, load: Loader): Option<Segment> {
    match Resolve(lib, name)
    case PatternItem(flags) => RenderPattern(flags, name, beatMs, lib.samplesDir, load)
    case MelodyItem(notes) => Some(MelodyTrack(notes, beatMs, lib.notesDir, load))
    case Unresolved => None
  }

  /** `if sound:` — a render is skipped when it is None or empty. */
  predicate Audible(sound: Option<Segment>) {
    sound.Some? && |sound.value| > 0
  }

  /** `final` after the loop has run over `names`, starting from `base`. */
  function MixOnto(base: Segment, names: seq<string>, lib: Library, beatMs: int, load: Loader): Segment
  {
    if names == [] then base
    else
      var acc := MixOnto(base, names[..|names| - 1], lib, beatMs, load);
      var sound := RenderItem(lib, names[|names| - 1], beatMs, load);
      if Audible(sound) then Overlay(acc, sound.value) else acc
  }

  /** `AudioSegment.silent(duration=beat_ms * 4)`: the measure every mix starts from. */
  function Measure(beatMs: int): Segment {
    Silent(BeatsPerMeasure * beatMs)
  }

  /** The buffer a mix of `names` hands to the player or the exporter. */
  function MixDown(names: seq<string>, lib: Library, beatMs: int, load: Loader): Segment {
    MixOnto(Measure(beatMs), names, lib, beatMs, load)
  }

  /** However many items are layered on, the buffer keeps the length of its base. */
  lemma {:induction false} MixOntoLength(base: Segment, names: seq<string>, lib: Library, beatMs: int, load: Loader)
    ensures |MixOnto(base, names, lib, beatMs, load)| == |base|
  {
    if names != [] {
      MixOntoLength(base, names[..|names| - 1], lib, beatMs, load);
    }
  }

  /** A mix is always exactly one measure, four beats, long. */
  lemma MixDownLength(names: seq<string>, lib: Library, beatMs: nat, load: Loader)
    ensures |MixDown(names, lib, beatMs, load)| == 4 * beatMs
  {
    MixOntoLength(Measure(beatMs), names, lib, beatMs, load);
  }

  /** Every sample of a mix lies in the 16-bit range, however loud the layers. */
  lemma {:induction false} MixOntoInRange(base: Segment, names: seq<string>, lib: Library, beatMs: int, load: Loader)
    requires InRange(base)
    ensures InRange(MixOnto(base, names, lib, beatMs, load))
  {
    if names != [] {
      var acc := MixOnto(base, names[..|names| - 1], lib, beatMs, load);
      MixOntoInRange(base, names[..|names| - 1], lib, beatMs, load);
      var sound := RenderItem(lib, names[|names| - 1], beatMs, load);
      if Audible(sound) {
        OverlayInRange(acc, sound.value);
      }
    }
  }

  /** Names that resolve to nothing leave the measure as it is. */
  lemma {:induction false} MixOntoUnresolved(base: Segment, names: seq<string>, lib: Library, beatMs: int, load: Loader)
    requires forall i :: 0 <= i < |names| ==> names[i] !in lib.patterns && names[i] !in lib.melodies
    ensures MixOnto(base, names, lib, beatMs, load) == base
  {
    if names != [] {
      MixOntoUnresolved(base, names[..|names| - 1], lib, beatMs, load);
    }
  }

  /** Mixing `a` and then `b` is mixing `b` onto the result of mixing `a`. */
  lemma {:induction false} MixOntoAppend(base: Segment, a: seq<string>, b: seq<string>, lib: Library, beatMs: int, load: Loader)
    ensures MixOnto(base, a + b, lib, beatMs, load) == MixOnto(MixOnto(base, a, lib, beatMs, load), b, lib, beatMs, load)
  {
    if b == [] {
      assert a + b == a;
    } else {
      var init := b[..|b| - 1];
      assert (a + b)[..|a + b| - 1] == a + init;
      assert (a + b)[|a + b| - 1] == b[|b| - 1];
      MixOntoAppend(base, a, init, lib, beatMs, load);
    }
  }

  /** An item with no sound, wherever it stands in the list, leaves the mix as if it were absent. */
  lemma MixOntoSkipsSilent(base: Segment, a: seq<string>, name: string, b: seq<string>, lib: Library, beatMs: int, load: Loader)
    requires !Audible(RenderItem(lib, name, beatMs, load))
    ensures MixOnto(base, a + [name] + b, lib, beatMs, load) == MixOnto(base, a + b, lib, beatMs, load)
  {
    assert (a + [name])[..|a|] == a;
    assert MixOnto(base, a + [name], lib, beatMs, load) == MixOnto(base, a, lib, beatMs, load);
    MixOntoAppend(base, a + [name], b, lib, beatMs, load);
    MixOntoAppend(base, a, b, lib, beatMs, load);
  }

  /** A pattern whose sample does not load contributes nothing to the mix, wherever it is listed. */
  lemma MixOntoSilentPattern(base: Segment, names: seq<string>, name: string, rest: seq<string>, lib: Library, beatMs: int, load: Loader)
    requires name in lib.patterns && Loaded(load, WavPath(lib.samplesDir, name)).None?
    ensures MixOnto(base, names + [name], lib, beatMs, load) == MixOnto(base, names, lib, beatMs, load)
    ensures MixOnto(base, names + [name] + rest, lib, beatMs, load) == MixOnto(base, names + rest, lib, beatMs, load)
  {
    assert RenderItem(lib, name, beatMs, load).None?;
    MixOntoSkipsSilent(base, names, name, [], lib, beatMs, load);
    assert names + [name] + [] == names + [name] && names + [] == names;
    MixOntoSkipsSilent(base, names, name, rest, lib, beatMs, load);
  }

  /**
   * Mixing a single item: the measure holds that item's render laid at
   * offset 0, cut or padded with silence to four beats; an item with no sound
   * gives the silent measure.
   */
  lemma MixDownSingle(name: string, lib: Library, beatMs: nat, load: Loader)
    ensures var sound := RenderItem(lib, name, beatMs, load);
            Audible(sound) && InRange(sound.value) ==> MixDown([name], lib, beatMs, load) == Fit(sound.value, 4 * beatMs)
    ensures !Audible(RenderItem(lib, name, beatMs, load)) ==> MixDown([name], lib, beatMs, load) == Measure(beatMs)
  {
    var sound := RenderItem(lib, name, beatMs, load);
    assert [name][..0] == [];
    assert MixOnto(Measure(beatMs), [], lib, beatMs, load) == Measure(beatMs);
    if Audible(sound) && InRange(sound.value) {
      OverlayOnSilence(4 * beatMs, sound.value);
    }
  }

  /**
   * A name defined as both a pattern and a melody mixes as the pattern: any
   * list, wherever the name stands in it, mixes as if the melody were absent.
   */
  lemma MixPrefersPattern(base: Segment, names: seq<string>, name: string, lib: Library, beatMs: int, load: Loader)
    requires name in lib.patterns && name in lib.melodies
    ensures MixOnto(base, names, lib, beatMs, load) ==
            MixOnto(base, names, lib.(melodies := lib.melodies - {name}), beatMs, load)
  {
    var lib' := lib.(melodies := lib.melodies - {name});
    forall i | 0 <= i < |names|
      ensures RenderItem(lib, names[i], beatMs, load) == RenderItem(lib', names[i], beatMs, load)
    {
      assert Resolve(lib, names[i]) == Resolve(lib', names[i]);
    }
    MixOntoSameRenders(base, names, lib, lib', beatMs, load);
  }

  /** With a loader of 16-bit samples, every render is in range. */
  lemma RenderItemInRange(lib: Library, name: string, beatMs: int, load: Loader)
    requires LoaderInRange(load)
    ensures RenderItem(lib, name, beatMs, load).Some? ==> InRange(RenderItem(lib, name, beatMs, load).value)
  {
    match Resolve(lib, name)
    case PatternItem(flags) =>
      var hit := Loaded(load, WavPath(lib.samplesDir, name));
      if hit.Some? {
        PatternTrackInRange(flags, hit.value, beatMs);
      }
    case MelodyItem(notes) =>
      MelodyTrackInRange(notes, beatMs, lib.notesDir, load);
    case Unresolved =>
  }

  /**
   * Mixing a single item with a loader of 16-bit samples: the measure holds
   * the item's render cut or padded to four beats.
   */
  lemma MixDownSingleLoaded(name: string, lib: Library, beatMs: nat, load: Loader)
    requires LoaderInRange(load)
    ensures var sound := RenderItem(lib, name, beatMs, load);
            Audible(sound) ==> MixDown([name], lib, beatMs, load) == Fit(sound.value, 4 * beatMs)
  {
    RenderItemInRange(lib, name, beatMs, load);
    MixDownSingle(name, lib, beatMs, load);
  }

  /** Two libraries that render every listed name alike mix the list alike. */
  lemma {:induction false} MixOntoSameRenders(base: Segment, names: seq<string>, lib: Library, lib': Library, beatMs: int, load: Loader)
    requires forall i :: 0 <= i < |names| ==> RenderItem(lib, names[i], beatMs, load) == RenderItem(lib', names[i], beatMs, load)
    ensures MixOnto(base, names, lib, beatMs, load) == MixOnto(base, names, lib', beatMs, load)
  {
    if names != [] {
      MixOntoSameRenders(base, names[..|names| - 1], lib, lib', beatMs, load);
    }
  }
}
