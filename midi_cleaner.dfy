/** The post-processing of the transcription demo (demos/midi_cleaner.ts): one pass over
    the notes sorted by pitch and start time that drops short notes and joins each kept
    note to the previous kept note of the same pitch when it starts less than the merge
    threshold after that note's end. */
module MidiCleaner {
  import opened Notes
  import opened Sorting
  import opened NoteSequenceUtils

  /** Notes shorter than this many seconds are dropped. */
  const MIN_NOTE_DURATION: real := 0.1
  /** A kept note starting less than this many seconds after the end of the previous kept
      note of its pitch is joined to it. */
  const MERGE_THRESHOLD: real := 0.05

  predicate Kept(n: Note) {
    Duration(n) >= MIN_NOTE_DURATION
  }

  /** `o` is `first` with its end time replaced by the end time of `last`, a note of the
      same pitch starting no earlier than `first`. */
  predicate Joined(o: Note, first: Note, last: Note) {
    && SameExceptTimes(o, first)
    && o.startTime == first.startTime
    && o.endTime == last.endTime
    && last.pitch == first.pitch
    && first.startTime <= last.startTime
  }

  /** Every note of `outer` joins two kept notes of `inner`. */
  ghost predicate JoinedFrom(outer: seq<Note>, inner: seq<Note>) {
    forall o :: o in outer ==>
      exists first, last :: first in inner && last in inner && Kept(first) && Kept(last) && Joined(o, first, last)
  }

  /** `o` has the pitch of `n` and `n` starts inside `o`. */
  predicate StartsWithin(o: Note, n: Note) {
    o.pitch == n.pitch && o.startTime <= n.startTime <= o.endTime
  }

  /** Every kept note of `inner` starts inside a note of `outer` of its own pitch. */
  ghost predicate KeptStartsWithin(outer: seq<Note>, inner: seq<Note>) {
    forall n {:trigger Listed(n, inner)} :: Listed(n, inner) && Kept(n) ==>
      exists o :: o in outer && StartsWithin(o, n)
  }

  /** One step of the loop of cleanMidiTranscription on the notes emitted so far: a short
      note is dropped; a kept note of the pitch of the last emitted note that starts less
      than MERGE_THRESHOLD after that note's end gives it its end time; any other kept
      note is emitted. */
  function CleanStep(cleaned: seq<Note>, note: Note): (r: seq<Note>)
    ensures |cleaned| <= |r| <= |cleaned| + 1
  {
    if !Kept(note) then cleaned
    else if cleaned != [] && note.pitch == cleaned[|cleaned| - 1].pitch &&
            note.startTime - cleaned[|cleaned| - 1].endTime < MERGE_THRESHOLD
    then cleaned[|cleaned| - 1 := cleaned[|cleaned| - 1].(endTime := note.endTime)]
    else cleaned + [note]
  }

  /** The notes the loop of cleanMidiTranscription emits for the list `s`, taken in order. */
  function Cleaned(s: seq<Note>): (r: seq<Note>)
    ensures |r| <= |s|
    decreases |s|
  {
    if s == [] then [] else CleanStep(Cleaned(s[..|s| - 1]), s[|s| - 1])
  }

  /** Within the list `s`, kept notes of one pitch are at least MERGE_THRESHOLD apart:
      each starts that long after the end of every earlier kept note of its pitch. */
  ghost predicate KeptApart(s: seq<Note>) {
    forall a, b :: 0 <= a < b < |s| && Kept(s[a]) && Kept(s[b]) && s[a].pitch == s[b].pitch ==>
      s[b].startTime - s[a].endTime >= MERGE_THRESHOLD
  }

  /** Joining never adds notes: at most as many notes come out as the duration filter keeps. */
  lemma {:induction false} CleanedAtMostKept(s: seq<Note>)
    ensures |Cleaned(s)| <= |FilterByDuration(s, MIN_NOTE_DURATION)|
    decreases |s|
  {
    if s != [] {
      CleanedAtMostKept(s[..|s| - 1]);
    }
  }

  /** When no kept note is within MERGE_THRESHOLD of an earlier kept note of its pitch,
      nothing is joined: the cleaner only drops the short notes. */
  lemma {:induction false} CleanedApart(s: seq<Note>)
    requires KeptApart(s)
    ensures Cleaned(s) == FilterByDuration(s, MIN_NOTE_DURATION)
    decreases |s|
  {
    if s != [] {
      var init, last := s[..|s| - 1], s[|s| - 1];
      assert KeptApart(init) by {
        forall a, b | 0 <= a < b < |init| && Kept(init[a]) && Kept(init[b]) && init[a].pitch == init[b].pitch
          ensures init[b].startTime - init[a].endTime >= MERGE_THRESHOLD
        {
          assert init[a] == s[a] && init[b] == s[b];
        }
      }
      CleanedApart(init);
      var kept := FilterByDuration(init, MIN_NOTE_DURATION);
      assert Cleaned(s) == CleanStep(kept, last);
      if Kept(last) {
        assert FilterByDuration(s, MIN_NOTE_DURATION) == kept + [last];
        if kept != [] {
          var prev := kept[|kept| - 1];
          assert prev in init;
          var a :| 0 <= a < |init| && init[a] == prev;
          assert s[a] == prev && a < |s| - 1;
        }
      }
    }
  }

  /** Cleaning one more note applies one more step. */
  lemma CleanedPrefix(s: seq<Note>, i: int)
    requires 0 <= i < |s|
    ensures Cleaned(s[..i + 1]) == CleanStep(Cleaned(s[..i]), s[i])
  {
    assert s[..i + 1][..i] == s[..i];
  }

  /** cleanMidiTranscription: sorts by pitch and then start time, drops notes shorter than
      MIN_NOTE_DURATION, and joins a kept note to the last emitted note when that note has
      the same pitch and the kept note starts less than MERGE_THRESHOLD after its end (the
      emitted note takes the kept note's end time); every other kept note is emitted as a
      new note. The sequence-level fields are kept. */
  method CleanMidiTranscription(ns: NoteSequence) returns (r: NoteSequence)
    ensures r == ns.(notes := r.notes)
    ensures r.notes == Cleaned(Sort(ByPitchThenStart, ns.notes))
    ensures KeptApart(Sort(ByPitchThenStart, ns.notes)) ==>
              r.notes == FilterByDuration(Sort(ByPitchThenStart, ns.notes), MIN_NOTE_DURATION)
    ensures |r.notes| <= |ns.notes|
    ensures forall o :: o in r.notes ==> Kept(o)
    ensures GroupedAndSeparated(r.notes, MERGE_THRESHOLD)
    ensures JoinedFrom(r.notes, ns.notes)
    ensures KeptStartsWithin(r.notes, ns.notes)
  {
    var cleanedNotes: seq<Note> := [];
    var sortedNotes := Sort(ByPitchThenStart, ns.notes);
    // For each emitted note, the sorted notes it was joined from; for each visited kept
    // sorted note, the emitted note it starts inside.
    ghost var firsts, lasts, home := [], [], [];
    for i := 0 to |sortedNotes|
      invariant |cleanedNotes| <= i
      invariant CleanedUpTo(sortedNotes, cleanedNotes, firsts, lasts, home, i)
      invariant cleanedNotes == Cleaned(sortedNotes[..i])
    {
      var note := sortedNotes[i];
      CleanedPrefix(sortedNotes, i);
      if note.endTime - note.startTime < MIN_NOTE_DURATION {
        SkipStep(sortedNotes, cleanedNotes, firsts, lasts, home, i);
        home := home + [0];
        continue;
      }
      if cleanedNotes != [] && note.pitch == cleanedNotes[|cleanedNotes| - 1].pitch &&
         note.startTime - cleanedNotes[|cleanedNotes| - 1].endTime < MERGE_THRESHOLD {
        ghost var last := |cleanedNotes| - 1;
        JoinStep(sortedNotes, cleanedNotes, firsts, lasts, home, i);
        var prevNote := cleanedNotes[|cleanedNotes| - 1];
        cleanedNotes := cleanedNotes[|cleanedNotes| - 1 := prevNote.(endTime := note.endTime)];
        lasts, home := lasts[last := i], home + [last];
      } else {
        ghost var next := |cleanedNotes|;
        EmitStep(sortedNotes, cleanedNotes, firsts, lasts, home, i);
        cleanedNotes := cleanedNotes + [note];
        firsts, lasts, home := firsts + [i], lasts + [i], home + [next];
      }
    }
    CleanedAll(sortedNotes, ns.notes, cleanedNotes, firsts, lasts, home);
    assert sortedNotes[..|sortedNotes|] == sortedNotes;
    if KeptApart(sortedNotes) {
      CleanedApart(sortedNotes);
    }
    r := ns.(notes := cleanedNotes);
  }

  /** The state of the loop of CleanMidiTranscription after the first `i` sorted notes:
      emitted note `a` joins the kept sorted notes `firsts[a]` and `lasts[a]`; every kept
      sorted note `k` starts inside emitted note `home[k]`; emitted notes are ordered by
      pitch and separated within a pitch. */
  ghost predicate CleanedUpTo(sorted: seq<Note>, cleaned: seq<Note>, firsts: seq<int>, lasts: seq<int>,
                              home: seq<int>, i: int)
  {
    && 0 <= i <= |sorted| && |home| == i
    && EmittedJoined(sorted, cleaned, firsts, lasts, i)
    && GroupedAndSeparated(cleaned, MERGE_THRESHOLD)
    && KeptHomed(sorted, cleaned, home, i)
  }

  /** Emitted note `a` joins the kept notes `sorted[firsts[a]]` and `sorted[lasts[a]]`,
      both among the first `i`. */
  ghost predicate EmittedJoined(sorted: seq<Note>, cleaned: seq<Note>, firsts: seq<int>, lasts: seq<int>, i: int)
    requires 0 <= i <= |sorted|
  {
    && |firsts| == |cleaned| && |lasts| == |cleaned|
    && forall a :: 0 <= a < |cleaned| ==>
         && 0 <= firsts[a] <= lasts[a] < i
         && Kept(sorted[firsts[a]]) && Kept(sorted[lasts[a]])
         && Joined(cleaned[a], sorted[firsts[a]], sorted[lasts[a]])
  }

  /** Each kept note among the first `i` sorted notes starts inside emitted note `home[k]`. */
  ghost predicate KeptHomed(sorted: seq<Note>, cleaned: seq<Note>, home: seq<int>, i: int)
    requires 0 <= i <= |sorted| && |home| == i
  {
    forall k {:trigger home[k]} :: 0 <= k < i && Kept(sorted[k]) ==>
      0 <= home[k] < |cleaned| && StartsWithin(cleaned[home[k]], sorted[k])
  }

  /** Dropping the short note `sorted[i]` keeps the loop state. */
  lemma SkipStep(sorted: seq<Note>, cleaned: seq<Note>, firsts: seq<int>, lasts: seq<int>,
                 home: seq<int>, i: int)
    requires 0 <= i < |sorted| && !Kept(sorted[i])
    requires CleanedUpTo(sorted, cleaned, firsts, lasts, home, i)
    ensures CleanedUpTo(sorted, cleaned, firsts, lasts, home + [0], i + 1)
  {
    var home' := home + [0];
    assert forall k {:trigger home'[k]} :: 0 <= k < i + 1 && Kept(sorted[k]) ==>
          0 <= home'[k] < |cleaned| && StartsWithin(cleaned[home'[k]], sorted[k]) by {
      forall k | 0 <= k < i + 1 && Kept(sorted[k])
        ensures 0 <= home'[k] < |cleaned| && StartsWithin(cleaned[home'[k]], sorted[k])
      {
        assert k < i && home'[k] == home[k];
      }
    }
  }

  /** Joining the kept note `sorted[i]` to the last emitted note keeps the loop state. */
  lemma JoinStep(sorted: seq<Note>, cleaned: seq<Note>, firsts: seq<int>, lasts: seq<int>,
                 home: seq<int>, i: int)
    requires SortedBy(ByPitchThenStart, sorted) && 0 <= i < |sorted|
    requires CleanedUpTo(sorted, cleaned, firsts, lasts, home, i)
    requires Kept(sorted[i]) && cleaned != []
    requires sorted[i].pitch == cleaned[|cleaned| - 1].pitch
    requires sorted[i].startTime - cleaned[|cleaned| - 1].endTime < MERGE_THRESHOLD
    ensures var L := |cleaned| - 1;
      CleanedUpTo(sorted, cleaned[L := cleaned[L].(endTime := sorted[i].endTime)],
                  firsts, lasts[L := i], home + [L], i + 1)
  {
    var L := |cleaned| - 1;
    JoinKeepsJoined(sorted, cleaned, firsts, lasts, i);
    JoinKeepsSeparated(cleaned, sorted[i].endTime);
    assert InOrder(ByPitchThenStart, sorted[firsts[L]], sorted[i]);
    JoinKeepsHomed(sorted, cleaned, home, i);
  }

  lemma JoinKeepsJoined(sorted: seq<Note>, cleaned: seq<Note>, firsts: seq<int>, lasts: seq<int>, i: int)
    requires SortedBy(ByPitchThenStart, sorted) && 0 <= i < |sorted|
    requires EmittedJoined(sorted, cleaned, firsts, lasts, i)
    requires Kept(sorted[i]) && cleaned != []
    requires sorted[i].pitch == cleaned[|cleaned| - 1].pitch
    ensures var L := |cleaned| - 1;
      EmittedJoined(sorted, cleaned[L := cleaned[L].(endTime := sorted[i].endTime)], firsts, lasts[L := i], i + 1)
  {
    var note, L := sorted[i], |cleaned| - 1;
    var cleaned', lasts' := cleaned[L := cleaned[L].(endTime := note.endTime)], lasts[L := i];
    forall a | 0 <= a < |cleaned'|
      ensures && 0 <= firsts[a] <= lasts'[a] < i + 1
              && Kept(sorted[firsts[a]]) && Kept(sorted[lasts'[a]])
              && Joined(cleaned'[a], sorted[firsts[a]], sorted[lasts'[a]])
    {
      if a == L {
        assert InOrder(ByPitchThenStart, sorted[firsts[L]], note);
      }
    }
  }

  /** Moving the end of the last emitted note keeps the emitted notes grouped and separated. */
  lemma JoinKeepsSeparated(cleaned: seq<Note>, end: real)
    requires GroupedAndSeparated(cleaned, MERGE_THRESHOLD) && cleaned != []
    ensures var L := |cleaned| - 1;
      GroupedAndSeparated(cleaned[L := cleaned[L].(endTime := end)], MERGE_THRESHOLD)
  {
    var L := |cleaned| - 1;
    var cleaned' := cleaned[L := cleaned[L].(endTime := end)];
    forall a, b | 0 <= a < b < |cleaned'|
      ensures cleaned'[a].pitch < cleaned'[b].pitch ||
              (cleaned'[a].pitch == cleaned'[b].pitch && Separated(cleaned'[a], cleaned'[b], MERGE_THRESHOLD))
    {
      assert cleaned'[a] == cleaned[a];
    }
  }

  lemma JoinKeepsHomed(sorted: seq<Note>, cleaned: seq<Note>, home: seq<int>, i: int)
    requires SortedBy(ByPitchThenStart, sorted) && 0 <= i < |sorted| && |home| == i
    requires KeptHomed(sorted, cleaned, home, i) && Kept(sorted[i])
    requires cleaned != [] && sorted[i].pitch == cleaned[|cleaned| - 1].pitch
    requires sorted[i].startTime - cleaned[|cleaned| - 1].endTime < MERGE_THRESHOLD
    requires cleaned[|cleaned| - 1].startTime <= sorted[i].startTime
    ensures var L := |cleaned| - 1;
      KeptHomed(sorted, cleaned[L := cleaned[L].(endTime := sorted[i].endTime)], home + [L], i + 1)
  {
    var note, L := sorted[i], |cleaned| - 1;
    var cleaned', home' := cleaned[L := cleaned[L].(endTime := note.endTime)], home + [L];
    forall k | 0 <= k < i + 1 && Kept(sorted[k])
      ensures 0 <= home'[k] < |cleaned'| && StartsWithin(cleaned'[home'[k]], sorted[k])
    {
      if k < i && home[k] == L {
        assert InOrder(ByPitchThenStart, sorted[k], note);
      }
    }
  }

  /** Emitting the kept note `sorted[i]` as a new note keeps the loop state. */
  lemma EmitStep(sorted: seq<Note>, cleaned: seq<Note>, firsts: seq<int>, lasts: seq<int>,
                 home: seq<int>, i: int)
    requires SortedBy(ByPitchThenStart, sorted) && 0 <= i < |sorted|
    requires CleanedUpTo(sorted, cleaned, firsts, lasts, home, i)
    requires Kept(sorted[i])
    requires cleaned != [] && sorted[i].pitch == cleaned[|cleaned| - 1].pitch ==>
               sorted[i].startTime - cleaned[|cleaned| - 1].endTime >= MERGE_THRESHOLD
    ensures CleanedUpTo(sorted, cleaned + [sorted[i]], firsts + [i], lasts + [i], home + [|cleaned|], i + 1)
  {
    var note, L := sorted[i], |cleaned|;
    var cleaned' := cleaned + [note];
    assert Joined(note, note, note);
    forall a, b | 0 <= a < b < |cleaned'|
      ensures cleaned'[a].pitch < cleaned'[b].pitch ||
              (cleaned'[a].pitch == cleaned'[b].pitch && Separated(cleaned'[a], cleaned'[b], MERGE_THRESHOLD))
    {
      if b == L {
        var prev := cleaned[L - 1];
        assert InOrder(ByPitchThenStart, sorted[firsts[L - 1]], note);
        if a < L - 1 {
          assert cleaned[a].pitch < prev.pitch ||
                 (cleaned[a].pitch == prev.pitch && Separated(cleaned[a], prev, MERGE_THRESHOLD));
        }
      }
    }
  }

  /** After the last sorted note the loop state gives the guarantees about the input,
      which holds the same notes as its sorted copy. */
  lemma CleanedAll(sorted: seq<Note>, notes: seq<Note>, cleaned: seq<Note>, firsts: seq<int>,
                   lasts: seq<int>, home: seq<int>)
    requires multiset(sorted) == multiset(notes)
    requires CleanedUpTo(sorted, cleaned, firsts, lasts, home, |sorted|)
    ensures forall o :: o in cleaned ==> Kept(o)
    ensures JoinedFrom(cleaned, notes)
    ensures KeptStartsWithin(cleaned, notes)
  {
    forall o | o in cleaned
      ensures Kept(o)
      ensures exists first, last :: first in notes && last in notes && Kept(first) && Kept(last) && Joined(o, first, last)
    {
      var a :| 0 <= a < |cleaned| && cleaned[a] == o;
      var first, last := sorted[firsts[a]], sorted[lasts[a]];
      assert first in multiset(notes) && last in multiset(notes);
    }
    forall n | n in notes && Kept(n)
      ensures exists o :: o in cleaned && StartsWithin(o, n)
    {
      assert n in multiset(sorted);
      var k :| 0 <= k < |sorted| && sorted[k] == n;
      assert cleaned[home[k]] in cleaned;
    }
  }
}
