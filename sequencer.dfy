/**
 * `MusicSequencer`: the session state (tempo, pattern and melody
 * definitions, the current playback) and the operations that change it.
 * The playback sink and the file exporter are outside the model; what the
 * sequencer asks of them is kept, in order, in the ghost log `events`.
 */
module Sequencer {
  import opened Wrappers
  import opened Audio
  import opened Text
  import opened Render
  import opened Mixing

  /** The handle the playback sink returns when it starts playing a buffer. */
  datatype Handle = Handle(id: nat)

  /** One request to the playback sink or the file exporter. */
  datatype SinkEvent =
    | Started(handle: Handle, buffer: Segment)
    | Stopped(handle: Handle)
    | Exported(filename: string, buffer: Segment)

  /** The handles that were started and not stopped since. */
  ghost function Playing(events: seq<SinkEvent>): set<Handle> {
    if events == [] then {}
    else
      var before := Playing(events[..|events| - 1]);
      var e := events[|events| - 1];
      if e.Started? then before + {e.handle}
      else if e.Stopped? then before - {e.handle}
      else before
  }

  function Held(playback: Option<Handle>): set<Handle> {
    if playback.Some? then {playback.value} else {}
  }

  /** What `stop_playback` asks of the sink: to stop the held handle, if any. */
  function StopRequests(playback: Option<Handle>): seq<SinkEvent> {
    if playback.Some? then [Stopped(playback.value)] else []
  }

  lemma PlayingAppend(events: seq<SinkEvent>, e: SinkEvent)
    ensures e.Started? ==> Playing(events + [e]) == Playing(events) + {e.handle}
    ensures e.Stopped? ==> Playing(events + [e]) == Playing(events) - {e.handle}
    ensures e.Exported? ==> Playing(events + [e]) == Playing(events)
  {
    assert (events + [e])[..|events|] == events;
  }

  /**
   * A source line once the regular expressions of `parse_line` have matched
   * it, with every operand still as text: the tempo's digits, the list of a
   * pattern or melody, the items of a mix and the file name of a save.
   */
  datatype Command =
    | TempoCommand(digits: string)
    | PatternCommand(name: string, body: string)
    | MelodyCommand(name: string, body: string)
    | MixCommand(body: string)
    | SaveCommand(filename: string)
    | NoCommand

  /** The regular-expression dispatch, applied to a line with its comment removed. */
  type Classifier = string -> Command

  class MusicSequencer {
    var tempo: int
    var patterns: map<string, seq<int>>
    var melodies: map<string, seq<string>>
    var samplesDir: string
    var notesDir: string
    var currentPlayback: Option<Handle>
    ghost var events: seq<SinkEvent>

    /** The tempo is always a valid one, and no playback runs but the held one. */
    ghost predicate Valid()
      reads this
    {
      MinTempo <= tempo <= MaxTempo && Playing(events) <= Held(currentPlayback)
    }

    /** The definitions a mix reads. */
    function Defs(): Library
      reads this`patterns, this`melodies, this`samplesDir, this`notesDir
    {
      Library(patterns, melodies, samplesDir, notesDir)
    }

    constructor ()
      ensures Valid()
      ensures tempo == DefaultTempo && patterns == map[] && melodies == map[]
      ensures samplesDir == "samples" && notesDir == "notes"
      ensures currentPlayback == None && events == []
    {
      tempo := DefaultTempo;
      patterns := map[];
      melodies := map[];
      samplesDir := "samples";
      notesDir := "notes";
      currentPlayback := None;
      events := [];
    }

    /** `stop_playback`: asks the sink to stop the held playback; the handle itself is kept. */
    method StopPlayback()
      requires Valid()
      modifies this`events
      ensures Valid()
      ensures events == old(events) + StopRequests(currentPlayback)
      ensures Playing(events) == {}
    {
      if currentPlayback.Some? {
        PlayingAppend(events, Stopped(currentPlayback.value));
        events := events + [Stopped(currentPlayback.value)];
      }
    }

    /**
     * `set_tempo`: a tempo in [20, 300] is committed; any other value is
     * rejected (the warning) and the previous tempo is kept.
     */
    method SetTempo(newTempo: int) returns (accepted: bool)
      requires Valid()
      modifies this`tempo
      ensures Valid()
      ensures accepted <==> MinTempo <= newTempo <= MaxTempo
      ensures tempo == if accepted then newTempo else old(tempo)
    {
      accepted := MinTempo <= newTempo <= MaxTempo;
      if accepted {
        tempo := newTempo;
      }
    }

    /** `create_pattern_sound`: the pattern's sample loaded once, then one slot per flag. */
    method CreatePatternSound(name: string, beatMs: int, load: Loader) returns (sound: Option<Segment>)
      requires name in patterns
      ensures sound == RenderPattern(patterns[name], name, beatMs, samplesDir, load)
    {
      var pattern := patterns[name];
      var hitSound := load(WavPath(samplesDir, name));
      if hitSound.None? || |hitSound.value| == 0 {
        return None;
      }
      var hit := hitSound.value;
      ghost var slots := PatternSlots(pattern, hit, beatMs);
      var acc := Silent(0);
      for i := 0 to |pattern|
        invariant acc == Concat(slots[..i])
      {
        if pattern[i] == 1 {
          acc := acc + (hit + Silent(beatMs - |hit|));
        } else {
          acc := acc + Silent(beatMs);
        }
        assert slots[..i + 1][..i] == slots[..i];
      }
      assert slots[..|pattern|] == slots;
      sound := Some(acc);
    }

    /** `create_melody_sound`: one slot per note; it never returns None. */
    method CreateMelodySound(name: string, beatMs: int, load: Loader) returns (sound: Option<Segment>)
      requires name in melodies
      ensures sound == Some(MelodyTrack(melodies[name], beatMs, notesDir, load))
    {
      var notes := melodies[name];
      ghost var slots := MelodySlots(notes, beatMs, notesDir, load);
      var acc := Silent(0);
      for i := 0 to |notes|
        invariant acc == Concat(slots[..i])
      {
        var noteAudio := load(WavPath(notesDir, notes[i]));
        if noteAudio.Some? && |noteAudio.value| > 0 {
          acc := acc + (noteAudio.value + Silent(beatMs - |noteAudio.value|));
        } else {
          acc := acc + Silent(beatMs);
        }
        assert slots[..i + 1][..i] == slots[..i];
      }
      assert slots[..|notes|] == slots;
      sound := Some(acc);
    }

    /**
     * The loop shared by `mix_and_play` and `mix_and_save`: one silent measure
     * at the current tempo, with every audible item overlaid on it at offset 0.
     */
    method Mix(items: seq<string>, load: Loader) returns (final: Segment)
      requires Valid()
      ensures final == MixDown(items, Defs(), BeatMs(tempo), load)
      ensures |final| == BeatsPerMeasure * BeatMs(tempo)
    {
      var beatMs := 60000 / tempo;
      final := Silent(BeatsPerMeasure * beatMs);
      for i := 0 to |items|
        invariant final == MixOnto(Measure(beatMs), items[..i], Defs(), beatMs, load)
      {
        var name := items[i];
        var sound: Option<Segment> := None;
        if name in patterns {
          sound := CreatePatternSound(name, beatMs, load);
        } else if name in melodies {
          sound := CreateMelodySound(name, beatMs, load);
        }
        if sound.Some? && |sound.value| > 0 {
          final := Overlay(final, sound.value);
        }
        assert items[..i + 1][..i] == items[..i];
      }
      assert items[..|items|] == items;
      MixDownLength(items, Defs(), beatMs, load);
    }

    /**
     * What `mix_and_play` does with `items`: an empty list changes nothing;
     * otherwise the held playback is stopped and the mix of the items, at
     * the tempo and with the definitions of the old state, is started and held.
     */
    twostate predicate Played(items: seq<string>, load: Loader, next: Handle)
      requires old(Valid())
      reads this
    {
      unchanged(this`tempo, this`patterns, this`melodies)
      && (items == [] ==> unchanged(this`events, this`currentPlayback))
      && (items != [] ==>
            currentPlayback == Some(next)
            && events == old(events) + StopRequests(old(currentPlayback))
               + [Started(next, MixDown(items, old(Defs()), BeatMs(old(tempo)), load))])
    }

    /**
     * `mix_and_play`: an empty item list is an error and changes nothing;
     * otherwise the mix is built, the held playback is stopped, and the new
     * one started and held. At most one playback is left running.
     */
    method MixAndPlay(items: seq<string>, load: Loader, next: Handle) returns (mixed: bool)
      requires Valid()
      modifies this`events, this`currentPlayback
      ensures Valid()
      ensures mixed <==> items != []
      ensures Played(items, load, next)
      ensures mixed ==> Playing(events) == {next}
    {
      if items == [] {
        return false;
      }
      var final := Mix(items, load);
      StopPlayback();
      PlayingAppend(events, Started(next, final));
      events := events + [Started(next, final)];
      currentPlayback := Some(next);
      mixed := true;
    }

    /** `mix_and_save`: the same mix, handed to the exporter; there is no empty-list guard. */
    method MixAndSave(items: seq<string>, filename: string, load: Loader)
      requires Valid()
      modifies this`events
      ensures Valid()
      ensures events == old(events) + [Exported(filename, MixDown(items, old(Defs()), BeatMs(old(tempo)), load))]
      ensures items == [] ==> events == old(events) + [Exported(filename, Measure(BeatMs(old(tempo))))]
    {
      var final := Mix(items, load);
      PlayingAppend(events, Exported(filename, final));
      events := events + [Exported(filename, final)];
    }

    /** Nothing the sequencer holds has changed. */
    twostate predicate Untouched()
      reads this
    {
      unchanged(this`tempo, this`patterns, this`melodies, this`events, this`currentPlayback)
    }

    /** `tempo N`: the tempo is set if valid, kept otherwise; nothing else changes. */
    twostate predicate TempoApplied(v: int)
      reads this
    {
      tempo == (if MinTempo <= v <= MaxTempo then v else old(tempo))
      && unchanged(this`patterns, this`melodies, this`events, this`currentPlayback)
    }

    /**
     * `pattern name = [...]`: the items of the list converted by `int()` are
     * inserted or overwrite the definition; when an item does not convert
     * (ValueError), `ok` is false and the patterns are left as they were.
     */
    twostate predicate PatternDefined(name: string, body: string, toInt: IntParser, ok: bool)
      reads this
    {
      var flags := ParseInts(SplitList(body), toInt);
      (ok <==> flags.Some?)
      && (ok ==> patterns == old(patterns)[name := flags.value])
      && (!ok ==> unchanged(this`patterns))
      && unchanged(this`tempo, this`melodies, this`events, this`currentPlayback)
    }

    /** `melody name = [...]`: the note list is inserted or overwritten; nothing else changes. */
    twostate predicate MelodyDefined(name: string, body: string)
      reads this
    {
      melodies == old(melodies)[name := SplitList(body)]
      && unchanged(this`tempo, this`patterns, this`events, this`currentPlayback)
    }

    /**
     * `save file(...)`: the items between the parentheses are mixed and
     * exported; `ok` is false, and nothing happens, when the line has no `(`.
     */
    twostate predicate MixSaved(filename: string, code: string, load: Loader, ok: bool)
      requires old(Valid())
      reads this
    {
      unchanged(this`tempo, this`patterns, this`melodies, this`currentPlayback)
      && (ok <==> SaveItemsText(code).Some?)
      && (!ok ==> unchanged(this`events))
      && (ok ==>
            events == old(events)
               + [Exported(filename, MixDown(SplitList(SaveItemsText(code).value), old(Defs()), BeatMs(old(tempo)), load))])
    }

    /**
     * What carrying out `cmd` on the stripped line `code` does to the state:
     * the branches of `parse_line` after the comment is cut.
     */
    twostate predicate Performed(cmd: Command, code: string, toInt: IntParser, load: Loader, next: Handle, ok: bool)
      requires old(Valid())
      reads this
    {
      match cmd
      case TempoCommand(digits) =>
        (ok <==> toInt(digits).Some?)
        && (ok ==> TempoApplied(toInt(digits).value))
        && (!ok ==> Untouched())
      case PatternCommand(name, body) => PatternDefined(name, body, toInt, ok)
      case MelodyCommand(name, body) => ok && MelodyDefined(name, body)
      case MixCommand(body) => ok && Played(SplitList(body), load, next)
      case SaveCommand(filename) => MixSaved(filename, code, load, ok)
      case NoCommand => ok && Untouched()
    }

    /** The `mix(...)` branch of `parse_line`: plays the comma list of items. */
    method MixLine(body: string, load: Loader, next: Handle) returns (ok: bool)
      requires Valid()
      modifies this`events, this`currentPlayback
      ensures Valid()
      ensures ok && Played(SplitList(body), load, next)
    {
      var _ := MixAndPlay(SplitList(body), load, next);
      ok := true;
    }

    /**
     * The `save` branch of `parse_line`: saves the items written between the
     * parentheses of the line, or fails (the source's IndexError) without one.
     */
    method SaveLine(filename: string, code: string, load: Loader) returns (ok: bool)
      requires Valid()
      modifies this`events
      ensures Valid()
      ensures MixSaved(filename, code, load, ok)
    {
      var text := SaveItemsText(code);
      ok := text.Some?;
      if ok {
        MixAndSave(SplitList(text.value), filename, load);
      }
    }

    /**
     * The dispatch of `parse_line` on a matched command. `ok` is false only
     * where the source raises: tempo digits or a pattern item that `int()`
     * rejects, or a save line without `(`.
     */
    method Execute(cmd: Command, code: string, toInt: IntParser, load: Loader, next: Handle) returns (ok: bool)
      requires Valid()
      modifies this`tempo, this`patterns, this`melodies, this`events, this`currentPlayback
      ensures Valid()
      ensures Performed(cmd, code, toInt, load, next, ok)
    {
      ok := true;
      match cmd
      case TempoCommand(digits) =>
        var value := toInt(digits);
        ok := value.Some?;
        if ok {
          var _ := SetTempo(value.value);
        }
      case PatternCommand(name, body) =>
        var flags := ParseInts(SplitList(body), toInt);
        ok := flags.Some?;
        if ok {
          patterns := patterns[name := flags.value];
        }
      case MelodyCommand(name, body) =>
        melodies := melodies[name := SplitList(body)];
      case MixCommand(body) =>
        ok := MixLine(body, load, next);
      case SaveCommand(filename) =>
        ok := SaveLine(filename, code, load);
      case NoCommand =>
    }

    /**
     * `parse_line`: the comment is cut and the line stripped; a blank line
     * does nothing; otherwise the command the line matches is carried out.
     */
    method ParseLine(line: string, classify: Classifier, toInt: IntParser, load: Loader, next: Handle) returns (ok: bool)
      requires Valid()
      modifies this`tempo, this`patterns, this`melodies, this`events, this`currentPlayback
      ensures Valid()
      ensures StripComment(line) == [] ==> ok && Untouched()
      ensures StripComment(line) != [] ==>
                Performed(classify(StripComment(line)), StripComment(line), toInt, load, next, ok)
    {
      var code := StripComment(line);
      if code == [] {
        return true;
      }
      ok := Execute(classify(code), code, toInt, load, next);
    }
  }

  /**
   * Two plays in a row: the second stops the first before starting, and only
   * the second is left playing.
   */
  method PlayTwice(s: MusicSequencer, first: seq<string>, second: seq<string>, load: Loader, h1: Handle, h2: Handle)
    requires s.Valid() && first != [] && second != []
    modifies s
    ensures s.currentPlayback == Some(h2)
    ensures Playing(s.events) == {h2}
    ensures |s.events| >= 3
    ensures s.events[|s.events| - 3].Started? && s.events[|s.events| - 3].handle == h1
    ensures s.events[|s.events| - 2] == Stopped(h1)
    ensures s.events[|s.events| - 1].Started? && s.events[|s.events| - 1].handle == h2
  {
    var _ := s.MixAndPlay(first, load, h1);
    var _ := s.MixAndPlay(second, load, h2);
  }
}
