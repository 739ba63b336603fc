# Note-sequence cleanup, modelled in Dafny

This project models the cleanup that runs on a transcribed note sequence before it is
played or displayed. Two cleaners are modelled.

The library pipeline `cleanNoteSequence` (src/core/note_sequence_utils.ts) has four
stages:

1. Same-pitch merging.
2. Cross-pitch merging.
3. A minimum-duration filter.
4. Adaptive grid quantization, which removes the initial silence, rounds both times of
   every note to the grid with a minimum length of one grid unit, and closes gaps below
   one grid unit.

The demo cleaner `cleanMidiTranscription` (demos/midi_cleaner.ts) makes one pass over the
notes sorted by pitch and then start time. It drops notes shorter than 0.1 s and joins a
kept note to the previous kept note of the same pitch when the gap is below 0.05 s.

Files:

- `notes.dfy` (module `Notes`): the note and note-sequence values, plus the relations the
  contracts use between two collections of notes. `Covers` means every note lies inside
  some output note. `WidenedFrom` means every output note is a stretched copy of an input
  note. `ExtendedFrom` means every output note is a copy with a later end.
- `sorting.dfy` (module `Sorting`): the two comparators passed to `Array.prototype.sort`,
  and a stable insertion sort standing for `sort`.
- `grid.dfy` (module `Grid`): `Math.round` and snapping to a grid, in exact reals, with
  the grid facts used by quantization.
- `note_sequence_utils.dfy` (module `NoteSequenceUtils`): the four stages and their
  composition. Two notes are `Separated` when the later one starts no earlier than the
  first, after its end, and at least the threshold after its end. A list is pairwise
  separated when every note is separated from every later one.
- `midi_cleaner.dfy` (module `MidiCleaner`): the demo cleaner and its two constants.

Each stage that the source writes as a loop is a method with that loop. Each is proved
against a specification: the relations above, the ordering predicates, and the per-note
predicates `SnappedCopy` and `ContiguousStep` of quantization. Some loops carry ghost state
that exists only for the proof. In the demo cleaner, the index sequences `firsts` and `lasts`
record which sorted notes each emitted note was joined from, and `home[k]` is the emitted
note that the kept sorted note `k` starts inside. In same-pitch
merging, the pitch list `taken` records the order in which the groups were appended.

Inputs and outputs are values. Several things are abstracted or absent:

- The sort is a function of its input (see Left out).
- `Object.keys` order is ascending pitch.
- There is no I/O.

## Model

| member | source | states |
|---|---|---|
| `Sorting.Sort` | src/core/note_sequence_utils.ts:25 | the result is ordered by the comparator and is a permutation of the input (same multiset, same length) |
| `Sorting.InsertSorted` | src/core/note_sequence_utils.ts:25 | a note that may follow every element of a sorted list is placed last, after the notes it compares equal to |
| `Sorting.SortOfSorted` | src/core/note_sequence_utils.ts:25 | stability on sorted input: a list already in order, equal keys included, is returned unchanged |
| `Grid.Round` | src/core/note_sequence_utils.ts:145 | `Math.round` returns an integer within half a unit of its argument, halves rounding up |
| `Grid.Snap` | src/core/note_sequence_utils.ts:145-146 | the snapped time is a grid point; on a positive grid it is the nearest one, within half a grid unit |
| `Grid.SnapMonotonic` | src/core/note_sequence_utils.ts:145 | on a positive grid, snapping never reverses the order of two times |
| `Grid.GridPointsApart` | src/core/note_sequence_utils.ts:149-151 | two different points of a positive grid lie at least one grid unit apart |
| `Grid.OnGridShiftTo` | src/core/note_sequence_utils.ts:164-172 | after a note is moved onto the previous note's end, the new cumulative shift is still a grid point |
| `NoteSequenceUtils.GroupByPitch` | src/core/note_sequence_utils.ts:14-20 | there is one group per pitch that occurs; each group is non-empty and holds exactly that pitch's notes in input order |
| `NoteSequenceUtils.MergeRun` | src/core/note_sequence_utils.ts:26-40 | the reference merge of one run: a note is absorbed into the current note (end becomes the later end) when it starts less than the threshold after the current end, or not after it; otherwise the current note is emitted and the note becomes current; proved to emit between 1 and the run's size notes |
| `NoteSequenceUtils.MergeRunExtended` | src/core/note_sequence_utils.ts:26-40 | every note the run emits is a note of the run with its end moved later, and the first one extends the run's first note |
| `NoteSequenceUtils.MergeRunCovers` | src/core/note_sequence_utils.ts:26-40 | on a start-ordered run, every note of the run lies inside an emitted note |
| `NoteSequenceUtils.MergeRunSeparates` | src/core/note_sequence_utils.ts:26-40 | on a start-ordered run, the emitted notes are pairwise separated: each starts no earlier than, after, and at least the threshold after the end of every earlier one |
| `NoteSequenceUtils.MergeRunSeparated` | src/core/note_sequence_utils.ts:26-40 | a group whose notes are already pairwise separated comes out unchanged, since a note is absorbed only when it starts less than the threshold after the current end, or not after it |
| `NoteSequenceUtils.MergeSortedGroup` | src/core/note_sequence_utils.ts:24-40 | the loop computes `MergeRun` of the start-sorted group, which absorbs a note exactly when it starts less than the threshold after, or not after, the current end, and otherwise emits the current note; between 1 and the group's size notes; every group note lies inside an output note; every output note is a group note with its end moved later; output notes are pairwise separated; an already separated group is returned unchanged |
| `NoteSequenceUtils.MergedPitch` | src/core/note_sequence_utils.ts:24-40 | the reference output for pitch `p`: `MergeRun` of the notes of pitch `p` sorted by start, or nothing when `p` does not occur; proved no longer than that pitch's notes |
| `NoteSequenceUtils.MergedPitchOfPitch` | src/core/note_sequence_utils.ts:24-40 | the merged group of pitch `p` holds only notes of pitch `p` |
| `NoteSequenceUtils.ConcatMergedPitches` | src/core/note_sequence_utils.ts:22-43 | concatenating the merged groups of a list of distinct pitches gives, for each pitch, exactly that pitch's merged group, and nothing for other pitches |
| `NoteSequenceUtils.MergedPitchSeparated` | src/core/note_sequence_utils.ts:24-40 | a pitch whose start-sorted notes are already pairwise separated is left as it is |
| `NoteSequenceUtils.SamePitchDone` | src/core/note_sequence_utils.ts:22-44 | once every pitch has been taken, the loop state gives all guarantees of `MergeSamePitchNotes` |
| `NoteSequenceUtils.MergeSamePitchNotes` | src/core/note_sequence_utils.ts:9-45 | the notes of each pitch in the output are exactly the merged start-sorted group of that pitch (`MergedPitch`); no more notes than the input; every input note lies inside an output note of its own pitch; every output note is an input note with its end moved later; the output is ordered by pitch, and same-pitch notes are separated by at least the threshold |
| `NoteSequenceUtils.MergeStep` | src/core/note_sequence_utils.ts:24-42 | appending the merged group of the least pending pitch keeps five invariants of the loop over the groups: the output is no longer than the notes of the pitches done; it holds only pitches below the pending ones; it covers every note of those pitches with an output note of the same pitch; every output note extends an input note; and it is ordered by pitch and separated within a pitch |
| `NoteSequenceUtils.TakeStep` | src/core/note_sequence_utils.ts:23-42 | after appending the merged group of `key`, the output is the concatenation of the merged groups of the pitches taken so far, and `taken` lists each done pitch exactly once |
| `NoteSequenceUtils.SamePitchStep` | src/core/note_sequence_utils.ts:23-42 | one turn of the loop over the groups keeps its whole state: the five invariants of `MergeStep` together with those of `TakeStep` |
| `NoteSequenceUtils.Hull` | src/core/note_sequence_utils.ts:78-79 | the merged note keeps all fields of the longer note and spans both notes' intervals; each end comes from one of the two notes |
| `NoteSequenceUtils.AbsorbCoversAndWidens` | src/core/note_sequence_utils.ts:77-85 | replacing one note by the hull of two notes and splicing the other out removes exactly one note; every note still lies inside a note of the result; every note of the result widens an original note |
| `NoteSequenceUtils.PartnerIsFirst` | src/core/note_sequence_utils.ts:62-72 | `Partner(s, i)` is the first index after `i` whose note is mergeable with `s[i]` (different pitch, overlapping or at a gap in `[0, threshold)`), or the length when there is none |
| `NoteSequenceUtils.FirstMergingIsFirst` | src/core/note_sequence_utils.ts:61-72 | no index before `FirstMerging(s, from)` has a mergeable partner |
| `NoteSequenceUtils.MergePair` | src/core/note_sequence_utils.ts:74-85 | merging a pair removes exactly one note; the longer note, or `s[i]` on a tie, becomes the hull of both (the definition `MergeAll` uses) |
| `NoteSequenceUtils.MergeAll` | src/core/note_sequence_utils.ts:56-100 | the reference fixed point of the `while (merged)` loop: merge the first mergeable pair in scan order with `MergePair`, and repeat until none is left; proved no longer than its input |
| `NoteSequenceUtils.MergeAllNoOp` | src/core/note_sequence_utils.ts:58-100 | a list with no mergeable pair is returned as it is |
| `NoteSequenceUtils.MergeAllSettled` | src/core/note_sequence_utils.ts:58-100 | the result of `MergeAll` has no mergeable pair |
| `NoteSequenceUtils.FirstPairIs` | src/core/note_sequence_utils.ts:61-91 | the pair where the scan stops is the first pair `MergeAll` merges, and merging it leaves the final result unchanged |
| `NoteSequenceUtils.MergeFound` | src/core/note_sequence_utils.ts:74-91 | merging the pair the scan found keeps every input note inside an output note and every output note a stretched input note, and the final result is unchanged |
| `NoteSequenceUtils.FindMergeablePair` | src/core/note_sequence_utils.ts:61-99 | the scan reports the first mergeable pair in index order (least `i`, then least `j`), or that no pair is mergeable |
| `NoteSequenceUtils.MergeDifferentPitchNotes` | src/core/note_sequence_utils.ts:51-102 | the result is `MergeAll` of the start-sorted input: each pass merges, into the longer note, the first mergeable pair in scan order, and nothing else; a sorted input with no mergeable pair comes back unchanged; no more notes than the input; at termination no note is overlapping or nearly consecutive with a later note of another pitch; every input note lies inside an output note; every output note is an input note stretched in time |
| `NoteSequenceUtils.FilterByDuration` | src/core/note_sequence_utils.ts:204-206 | a note is kept exactly when it occurs in the input and lasts at least the minimum; nothing is duplicated (sub-multiset) |
| `NoteSequenceUtils.FilterByDurationCount` | src/core/note_sequence_utils.ts:204-206 | every copy of a long enough note is kept, and no copy of a shorter one |
| `NoteSequenceUtils.FilterByDurationAppend` | src/core/note_sequence_utils.ts:204-206 | the filter keeps the order: filtering a concatenation concatenates the filtered parts |
| `NoteSequenceUtils.EarliestStart` | src/core/note_sequence_utils.ts:129 | the minimum start time: no note starts earlier, and some note starts exactly then |
| `NoteSequenceUtils.RemoveSilence` | src/core/note_sequence_utils.ts:130-134 | every note is moved by the same offset; its other fields and its duration are kept; no start becomes negative; some note starts at zero |
| `NoteSequenceUtils.QuantizeOrder` | src/core/note_sequence_utils.ts:137 | the visiting order is the silence-free notes, permuted and sorted by start time |
| `NoteSequenceUtils.QuantizeOrderStartsAtZero` | src/core/note_sequence_utils.ts:129-137 | the first visited note starts at zero, and none starts earlier |
| `NoteSequenceUtils.QuantizeOrderFrom` | src/core/note_sequence_utils.ts:130-137 | every visited note is an input note moved in time, with its other fields and duration kept |
| `NoteSequenceUtils.SnapStart` | src/core/note_sequence_utils.ts:145 | the snapped start is a grid point |
| `NoteSequenceUtils.SnapEnd` | src/core/note_sequence_utils.ts:146-151 | the snapped end is a grid point; on a positive grid it lies at least one grid unit after the snapped start |
| `NoteSequenceUtils.ShiftedSnapIsSnappedCopy` | src/core/note_sequence_utils.ts:154-155 | a snapped note moved earlier by a non-negative grid multiple keeps its fields, its grid alignment and its snapped duration |
| `NoteSequenceUtils.ContiguousStepHolds` | src/core/note_sequence_utils.ts:159-175 | the gap rule gives the step relation between consecutive quantized notes, and on a positive grid starts stay in order |
| `NoteSequenceUtils.QuantizedSortedByStart` | src/core/note_sequence_utils.ts:143-182 | on a positive grid, the quantized notes come out sorted by start time |
| `NoteSequenceUtils.QuantizeSorted` | src/core/note_sequence_utils.ts:139-183 | see the list below the table |
| `NoteSequenceUtils.QuantizeNoteTimes` | src/core/note_sequence_utils.ts:122-184 | an empty input comes back empty; otherwise see the list below the table |
| `NoteSequenceUtils.CleanedFrom` | src/core/note_sequence_utils.ts:198-208 | a note that survives all four stages carries every non-time field of some input note |
| `NoteSequenceUtils.CleanNoteSequence` | src/core/note_sequence_utils.ts:191-214 | the sequence-level fields are kept; the stages are related to one another; see the list below the table |
| `MidiCleaner.CleanStep` | demos/midi_cleaner.ts:115-130 | one step adds at most one note and never removes one (the definition `CleanMidiTranscription` is proved against) |
| `MidiCleaner.Cleaned` | demos/midi_cleaner.ts:114-131 | the reference output of the loop: `CleanStep` applied to each note of the list in turn; proved no longer than the list |
| `MidiCleaner.CleanedAtMostKept` | demos/midi_cleaner.ts:115-130 | the cleaner emits no more notes than the duration filter alone keeps |
| `MidiCleaner.CleanedApart` | demos/midi_cleaner.ts:115-130 | when every kept note starts at least `MERGE_THRESHOLD` after the end of every earlier kept note of its pitch, nothing is joined: the result is the sorted notes with the short ones dropped |
| `MidiCleaner.CleanMidiTranscription` | demos/midi_cleaner.ts:105-137 | the sequence-level fields are kept and there are no more notes than before; see the list below the table |
| `MidiCleaner.SkipStep` | demos/midi_cleaner.ts:116-118 | dropping a short note keeps the loop state |
| `MidiCleaner.JoinStep` | demos/midi_cleaner.ts:120-124 | joining a kept note to the previous kept note keeps the loop state |
| `MidiCleaner.EmitStep` | demos/midi_cleaner.ts:125-130 | emitting a kept note as a new note keeps the loop state |
| `MidiCleaner.CleanedAll` | demos/midi_cleaner.ts:110-131 | the final loop state gives the join and start-within guarantees about the unsorted input |

Rows whose contracts are too long for one cell:

- `QuantizeSorted`: one output note per input note, and the first output note starts at
  zero. Each output note is a snapped copy of its input note: same fields, both times on
  the grid, the snapped duration, moved earlier by a non-negative amount. Each pair of
  consecutive notes obeys the gap rule:
  - the cumulative shift never decreases;
  - the shift stays the same when the original gap is at least one grid unit;
  - when the gap is below one unit, the later note starts no later than the earlier one
    ends;
  - the shift grows only to make the later note start exactly where the earlier one ends.
- `QuantizeNoteTimes`: for a non-empty input, the `QuantizeSorted` guarantees hold for
  the visiting order. In addition:
  - every output note carries the fields of an input note;
  - both times of every output note are on the grid;
  - on a positive grid, every note lasts at least one grid unit, and the output is sorted
    by start time.
- `CleanNoteSequence`, with the ghost results `samePitchMerged` (the first stage) and
  `cleaned` (the filter's output):
  - each pitch of `samePitchMerged` is that pitch's merged group (`MergedPitch`), and
    `samePitchMerged` is ordered by pitch and separated within a pitch;
  - `cleaned` is `FilterByDuration` of `MergeAll` of the start-sorted `samePitchMerged`,
    so every note handed to the quantizer lasts at least `minNoteDuration`;
  - the output has one note per note of `cleaned`, and no more than the input;
  - when `cleaned` is non-empty, the `QuantizeSorted` guarantees hold between the output
    and `QuantizeOrder(cleaned)`;
  - every output note carries the non-time fields of an input note;
  - the first note starts at zero;
  - every time is a grid point;
  - on a positive grid, every note lasts at least one grid unit, and the notes are sorted
    by start time.
- `CleanMidiTranscription`:
  - the notes are `Cleaned` of the notes sorted by pitch and then start time. `Cleaned`
    applies `CleanStep` to each sorted note in turn. A short note is dropped. A kept note
    of the same pitch as the last emitted note, starting less than `MERGE_THRESHOLD`
    after that note's end, gives it its end time. Any other kept note is emitted;
  - when no kept note is that close to an earlier kept note of its pitch, the result is
    the sorted notes with the short ones dropped;
  - every output note lasts at least `MIN_NOTE_DURATION`;
  - the output is ordered by pitch, and same-pitch notes are separated by at least
    `MERGE_THRESHOLD`;
  - every output note joins two kept input notes: it takes the fields and start of the
    first and the end of the last, which has the same pitch and starts no earlier;
  - every kept input note starts inside an output note of its pitch.

The constants `MIN_NOTE_DURATION = 0.1` and `MERGE_THRESHOLD = 0.05`
(demos/midi_cleaner.ts:14 and :16) are `MidiCleaner.MIN_NOTE_DURATION` and
`MidiCleaner.MERGE_THRESHOLD`.

## Left out

- Times are exact reals. IEEE-754 rounding is not modelled: sums, differences and
  `Math.round(t / resolution) * resolution` are exact here.
- NaN, infinities and a zero resolution are not modelled. In the source, a zero
  resolution divides by zero. `Math.round` of the quotient is infinite, or NaN for a zero
  time, and multiplying it by zero gives NaN. So every quantized time is NaN, never
  infinite.
- QuantizeNoteTimes: requires a non-zero resolution when the list is non-empty. This is
  exactly the case where the source divides (it returns an empty list before the loop).
- CleanNoteSequence: requires a non-zero resolution whenever the input has a note. This is
  stronger than the source needs. When both merges and the filter leave no note, the
  source returns before dividing, even on a zero resolution. The model has no closed form
  for "nothing survives the filter" to put in the precondition.
- Aliasing and in-place mutation are not modelled:
  - `mergeSamePitchNotes` writes the merged end time into the caller's note objects.
  - `mergeDifferentPitchNotes` writes into the objects shared with its input.
  - An input array holding the same object twice would see both copies change.
  - The model works on note values, so the defensive clone in `cleanNoteSequence`
    (src/core/note_sequence_utils.ts:198) is the identity here.
- `Array.prototype.sort` is modelled as a stable insertion sort. `Sort` is proved ordered
  and a permutation. Several contracts name `Sort` itself: `MergedPitch`,
  `MergeDifferentPitchNotes`, `CleanNoteSequence` and `CleanMidiTranscription`. So they
  also fix the order of notes with equal keys, as the stable sort leaves it
  (`SortOfSorted` proves that a list already in order, equal keys included, comes back
  unchanged). ECMAScript
  2019 and later require `Array.prototype.sort` to be stable, and with a consistent
  comparator a stable sort's result is unique. So this is the order the engine produces.
  The model does not cover a comparator made inconsistent by NaN times.
- `Object.keys` over the pitch groups is modelled as ascending pitch. JavaScript gives
  that order for the non-negative integer pitches of MIDI. It lists a key that is not an
  array index, such as "-1", after all index keys, in the order the pitch first occurs
  in the input. The model instead visits negative pitches first, in ascending order. The
  order of the same-pitch output then differs from the source. The stable start sort of
  the cross-pitch stage keeps that order among notes with equal starts, so the difference
  can change which equal-start pair is merged first.
- The spread in `Math.min(...notes.map(...))` can exceed the engine's argument limit on
  very long inputs. The model has no such limit.
- MergeDifferentPitchNotes: the two nested `for` loops of one pass are the method
  `FindMergeablePair`, and the merge follows in the caller. The scan order, the break
  after the first merge and the restart are as in the source.
- CleanMidiTranscription: the join assigns the later note's end time without taking a
  maximum, so a joined note can end earlier than before. The contract therefore says that
  each kept note starts inside an output note, not that it lies wholly inside one.
- Everything else in demos/midi_cleaner.ts is not part of this model: reading the
  uploaded file, the transcription model, the player, visualizers, DOM handlers and the
  display of the notes. The same goes for the remaining library modules.
