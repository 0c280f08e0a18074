# MuziCode sequencer, modelled in Dafny

MuziCode reads a small song language line by line and drives a `MusicSequencer`. The sequencer:
- holds the session state: the tempo, named drum patterns (lists of integer flags), named melodies (lists of note names), two sample directories and the current playback handle;
- renders patterns and melodies into audio tracks;
- mixes named tracks onto one silent four-beat measure, then plays the measure or saves it to a file.

This project models that engine.

Audio is abstract. A segment is a `seq<int>` holding one sample per millisecond, so its length is its duration:
- `silent(d)` is `max(0, d)` zeros;
- `+` is concatenation;
- `overlay` at offset 0 adds sample by sample, saturates to the 16-bit range, and keeps the base's length.

Sample files are read through a loader parameter, `string -> Option<Segment>`. An empty segment counts as a failed load, as the source's truthiness tests `if not hit_sound` (muzicode.py:115) and `if note_audio` (muzicode.py:132) do. The playback device and the WAV exporter are not modelled. What the sequencer asks of them (start, stop, export) is recorded, in order, in a ghost log `events`. The class invariant says the tempo is in [20, 300] and that at most one playback, the held one, is running.

Modules:
- `Audio` (`audio.dfy`): segments, silence, saturating overlay, concatenation of slots.
- `Text` (`text.dfy`): `str.split`, Python's `str.strip` (with Python's whitespace set), the comment cut, the comma lists, the `int()` conversion of a pattern's items, and the text between the parentheses of a `save` line.
- `Render` (`render.dfy`): the beat clock `60000 // tempo`, and the pattern and melody renderers as specification functions with lemmas on track shape.
- `Mixing` (`mixing.dfy`): name resolution (patterns before melodies) and the overlay loop as a specification function, with lemmas on length, range, skipping and priority.
- `Sequencer` (`sequencer.dfy`): the `MusicSequencer` class. Its methods carry the source's loops and state changes, each proved against the functions above. `ParseLine` dispatches a line to them.

Two behaviours of the code are easy to miss, and the model keeps both:
- An empty item list is rejected only by `mix_and_play` (muzicode.py:66-68). `mix_and_save([])` still exports the silent measure.
- A rejected tempo keeps the previous tempo (muzicode.py:48-51), although the warning text mentions 120.

## Model

| member | source | states |
|---|---|---|
| `Audio.Silent` | muzicode.py:120-122 | `silent(d)` has length `max(0, d)` and every sample is zero |
| `Audio.Overlay` | muzicode.py:81-82 | an overlay always has exactly the length of the base |
| `Audio.OverlayOnSilence` | muzicode.py:71-82 | overlaying an in-range segment on silence gives that segment cut or padded to the silence's length: a layer at offset 0, not an append |
| `Audio.OverlayNothing` | muzicode.py:81-82 | overlaying an empty segment leaves the base unchanged, the same as skipping the item |
| `Audio.OverlayInRange` | muzicode.py:82 | overlaying keeps every sample of an in-range base within the 16-bit range |
| `Audio.ConcatSlot` | muzicode.py:118-124 | in a concatenation of slots of width `w`, slot `k` occupies exactly `[k*w, k*w+w)` |
| `Audio.ConcatInRange` | muzicode.py:120-122 | concatenating in-range slots with `+=` gives an in-range track |
| `Text.Split` | muzicode.py:24 | `split(c)` yields at least one piece and no piece contains `c` |
| `Text.JoinSplit` | muzicode.py:24 | joining the pieces of `s.split(c)` with `c` gives `s` back |
| `Text.SplitJoin` | muzicode.py:24 | splitting a `c`-join of `c`-free pieces gives the pieces back |
| `Text.SplitHeadPrefix` | muzicode.py:43 | the first piece of a split is a prefix of the text |
| `Text.Strip` | muzicode.py:24 | the result of `strip()` has no whitespace at either end |
| `Text.StripTrims` | muzicode.py:24 | `strip()` removes only whitespace, and only from the two ends |
| `Text.StripPadded` | muzicode.py:24 | padding a stripped text with whitespace on both sides and stripping gives it back |
| `Text.StripStripped` | muzicode.py:36 | a text without surrounding whitespace is its own strip |
| `Text.StripIdempotent` | muzicode.py:24 | stripping twice equals stripping once |
| `Text.StripKeepsOut` | muzicode.py:24 | a character absent from a text is absent from its strip |
| `Text.SplitList` | muzicode.py:36-39 | every element of a parsed comma list is non-blank, stripped and comma-free |
| `Text.NonBlankOfItems` | muzicode.py:39 | filtering and stripping a list of proper items leaves it unchanged |
| `Text.SplitListJoin` | muzicode.py:39 | round trip: a list of proper items written comma-separated parses back to itself |
| `Text.NonBlankItems` | muzicode.py:36 | every piece kept from comma-free parts is non-blank, stripped and comma-free |
| `Text.NonBlankAppend` | muzicode.py:36 | filtering a concatenation of parts filters each half, so each part is kept or dropped on its own |
| `Text.NonBlankDropsBlank` | muzicode.py:36 | a part that strips to nothing, at any position, is dropped and the parts around it keep their order |
| `Text.NonBlankKeepsItem` | muzicode.py:36 | a part that does not strip to nothing, at any position, is kept, stripped, between the parts around it |
| `Text.NonBlankSkipsBlank` | muzicode.py:36 | example: the parts `"1"`, `" "`, `"0"` filter to the items `1` and `0` |
| `Text.SplitListSkipsBlank` | muzicode.py:32 | the list text `1, ,0` gives the items `1` and `0`: blank items are skipped, not passed to `int()` |
| `Text.ParseInts` | muzicode.py:32 | converting the items fails exactly when `int()` rejects one of them; on success there is one integer per item, each the conversion of its item |
| `Text.StripComment` | muzicode.py:24 | the code part of a line has no `#` and no surrounding whitespace |
| `Text.CommentIgnored` | muzicode.py:24-26 | whatever follows the first `#` never changes the code part of the line |
| `Text.SaveItemsText` | muzicode.py:43 | the save operand is missing exactly when the line has no `(` (where the source raises IndexError); when present it contains no parentheses |
| `Text.SaveItemsBetweenParens` | muzicode.py:43 | for `head(items)tail` the save operand is exactly `items` |
| `Text.SplitFirstPrefix` | muzicode.py:43 | a separator-free start of a text belongs to the first piece of its split |
| `Render.BeatMs` | muzicode.py:70 | the beat is the floor of `60000 / tempo`: `r*tempo <= 60000 < (r+1)*tempo` |
| `Render.BeatMsBounds` | muzicode.py:46-51 | every accepted tempo gives a beat of 200 to 3000 ms |
| `Render.BeatMsExamples` | muzicode.py:92 | tempo 120 gives 500 ms, 90 gives 666, 20 gives 3000 and 300 gives 200 |
| `Render.RenderPattern` | muzicode.py:114-116 | a pattern renders to None exactly when its one hit sample fails to load, whatever its flags |
| `Render.PatternSlotShape` | muzicode.py:119-122 | a flag equal to 1 gives a slot of length `max(len(hit), beat)` that starts with the hit and then is silent; any other flag gives one beat of silence |
| `Render.PatternTrackLength` | muzicode.py:118-124 | with a hit no longer than a beat, a pattern renders to `len(flags) * beat` ms |
| `Render.PatternTrackBeat` | muzicode.py:118-124 | with such a hit, beat `k` of the track is the slot of flag `k`, in order |
| `Render.PatternTrackLengthGeneral` | muzicode.py:118-124 | for any hit, the track length is `hits * max(len(hit), beat) + (len(flags) - hits) * beat` |
| `Render.PatternTrackInRange` | muzicode.py:118-124 | a pattern track built from an in-range hit sample is in range |
| `Render.NoteSlotShape` | muzicode.py:132-135 | a missing note is one silent beat; a loaded note's slot is `max(len(note), beat)` long, starts with the note, and is silent after it |
| `Render.MelodyTrackLength` | muzicode.py:126-137 | a melody whose notes fit a beat renders to `len(notes) * beat` ms, missing notes included |
| `Render.MelodyTrackBeat` | muzicode.py:130-135 | beat `k` of such a melody holds note `k`, and is silent when that note fails to load |
| `Render.MelodyTrackInRange` | muzicode.py:130-135 | a melody track is in range when every segment the loader returns is |
| `Mixing.MixOntoLength` | muzicode.py:81-82 | however many items are overlaid, the mix keeps the length of its base |
| `Mixing.MixDownLength` | muzicode.py:70-82 | every mix is exactly `4 * beat` long |
| `Mixing.MixOntoInRange` | muzicode.py:81-82 | every sample of a mix stays in the 16-bit range |
| `Mixing.MixOntoUnresolved` | muzicode.py:73-82 | names that are in neither map leave the measure unchanged |
| `Mixing.MixOntoAppend` | muzicode.py:73-82 | mixing a list `a + b` is mixing `b` onto the mix of `a`: the loop folds left over the items |
| `Mixing.MixOntoSkipsSilent` | muzicode.py:81-82 | an item with no sound (unresolved, a failed pattern load, or an empty render), at any position, leaves the mix as if it were not listed |
| `Mixing.MixOntoSilentPattern` | muzicode.py:76-82 | a pattern whose sample fails to load, at any position in the list, contributes nothing |
| `Mixing.MixDownSingle` | muzicode.py:71-82 | mixing one item gives its in-range render cut or padded to the measure, or the silent measure if it has no sound |
| `Mixing.RenderItemInRange` | muzicode.py:76-79 | when every loaded segment holds 16-bit samples, so does every render a name yields |
| `Mixing.MixDownSingleLoaded` | muzicode.py:71-82 | with such a loader, mixing one audible item gives its render cut or padded to the measure, with no further condition |
| `Mixing.MixPrefersPattern` | muzicode.py:76-79 | a name defined as both a pattern and a melody, wherever it stands in the list, mixes as if the melody were absent |
| `Mixing.MixOntoSameRenders` | muzicode.py:76-82 | two libraries that render each listed name to the same track give the same mix |
| `Sequencer.MusicSequencer.constructor` | muzicode.py:9-15 | a new sequencer has tempo 120, no definitions, the directories `samples` and `notes`, and nothing playing |
| `Sequencer.MusicSequencer.StopPlayback` | muzicode.py:17-20 | a stop request is sent for the held handle if there is one, nothing else happens, and afterwards nothing is playing |
| `Sequencer.MusicSequencer.SetTempo` | muzicode.py:46-51 | the tempo is set exactly when it lies in [20, 300]; otherwise the previous tempo is kept |
| `Sequencer.MusicSequencer.CreatePatternSound` | muzicode.py:109-124 | the loop returns the pattern's render: None on a failed load, otherwise the slots concatenated in flag order |
| `Sequencer.MusicSequencer.CreateMelodySound` | muzicode.py:126-137 | the loop always returns a segment: the melody's slots concatenated in note order |
| `Sequencer.MusicSequencer.Mix` | muzicode.py:92-104 | the mix loop builds the mix of the items at the current tempo, exactly `4 * beat` long |
| `Sequencer.MusicSequencer.MixAndPlay` | muzicode.py:64-88 | an empty list changes nothing; otherwise the held playback is stopped, the mix is started and held, and only it is playing |
| `Sequencer.MusicSequencer.MixAndSave` | muzicode.py:90-107 | the mix is exported under the filename; an empty list exports the silent measure |
| `Sequencer.MusicSequencer.MixLine` | muzicode.py:38-40 | a `mix(...)` line plays its comma list of items |
| `Sequencer.MusicSequencer.SaveLine` | muzicode.py:41-44 | a `save` line exports the items between its parentheses, or fails with no effect when it has no `(` |
| `Sequencer.MusicSequencer.Execute` | muzicode.py:28-44 | each command has its effect: tempo set or kept, a definition inserted or overwritten, a mix played or saved, nothing else changed; tempo digits or a pattern item that `int()` rejects fail (`ok` false) and change nothing |
| `Sequencer.MusicSequencer.ParseLine` | muzicode.py:22-44 | a line that is blank once its comment is cut does nothing; any other line carries out the command its code part matches |
| `Sequencer.PlayTwice` | muzicode.py:84-85 | two plays in a row log, in this order, the start of the first, its stop and the start of the second, and leave only the second playing and held |

## Left out

- Decoding WAV files and exporting them is left out. Reading and writing files belongs to pydub. The loader is a parameter, and an export is an `Exported` entry in the event log.
- Frame rates, sample widths and channel counts are left out; those are pydub's business. Samples are abstract 16-bit integers, one per millisecond.
- Asynchronous playback and the real `stop()` are left out, since they drive an external audio device. Starting and stopping are entries in the event log, and the next playback handle is a parameter.
- The `loop` flag of `mix_and_play` is left out. It is a stub with no behaviour.
- `load_song_file` is left out: it opens a file and reports exceptions. It calls `parse_line` on each stripped line inside one `try` (muzicode.py:141-148), so the first exception stops every later line. `ParseLine` returns `ok == false` in the three such cases the model keeps: tempo digits or a pattern item that `int()` rejects (ValueError), and a `save` line without `(` (IndexError).
- `os.path.exists` and the loader's exception handling are folded into the loader. Every failure comes back as None.
- All `print` messages are left out, including the tempo warning whose text mentions 120.
- The regular expressions of `parse_line` are left out. This covers case-insensitivity, `\w`, `\d`, `\S` and prefix matching. A classifier parameter maps the code part of a line to a `Command`, whose operands stay text.
- Python's `int()` on the tempo's digits and on a pattern item is a parameter `IntParser`, returning None where `int()` raises ValueError. Its rules (sign, whitespace, underscores, non-ASCII digits, and the limit on the number of digits, 4300 by default in current CPython) are not spelled out.
- `current_playback` is tested for truthiness in the source. The model treats any held handle as truthy.
- Assigning `samples_dir` and `notes_dir` from outside the class is left out. The model keeps them as fields that only the constructor sets.
