/** The note-sequence cleanup pipeline of src/core/note_sequence_utils.ts: same-pitch
    merging, cross-pitch merging, the duration filter and adaptive grid quantization. */
module NoteSequenceUtils {
  import opened Notes
  import opened Sorting
  import opened Grid

  // ---------------------------------------------------------------------------
  // mergeSamePitchNotes
  // ---------------------------------------------------------------------------

  /** `b` starts no earlier than `a`, strictly after `a` ends, and at least `threshold`
      after it. */
  predicate Separated(a: Note, b: Note, threshold: real) {
    a.startTime <= b.startTime && b.startTime > a.endTime && b.startTime - a.endTime >= threshold
  }

  /** The merge condition of the group loop: `note` overlaps the accumulator `current`
      or starts less than `threshold` after its end. */
  predicate Absorbs(current: Note, note: Note, threshold: real) {
    note.startTime - current.endTime < threshold || note.startTime <= current.endTime
  }

  /** The merge of one start-sorted group, as a function: from the accumulator `current`,
      each next note is absorbed when `Absorbs` holds (the accumulator's end becomes the
      later of the two ends); otherwise the accumulator is emitted and the note becomes
      the new accumulator. */
  function MergeRun(current: Note, rest: seq<Note>, threshold: real): (r: seq<Note>)
    ensures 1 <= |r| <= |rest| + 1
    decreases |rest|
  {
    if rest == [] then [current]
    else if Absorbs(current, rest[0], threshold) then
      MergeRun(current.(endTime := Max(current.endTime, rest[0].endTime)), rest[1..], threshold)
    else
      [current] + MergeRun(rest[0], rest[1..], threshold)
  }

  /** `s` lists its notes by ascending pitch, and any two notes of the same pitch are
      separated (the later one starts after, and at least `threshold` after, the earlier
      one ends). */
  ghost predicate GroupedAndSeparated(s: seq<Note>, threshold: real) {
    forall a, b :: 0 <= a < b < |s| ==>
      s[a].pitch < s[b].pitch || (s[a].pitch == s[b].pitch && Separated(s[a], s[b], threshold))
  }

  /** The set of pitches that occur in `s`. */
  function PitchesOf(s: seq<Note>): set<int> {
    set n | n in s :: n.pitch
  }

  /** The notes of `s` that have pitch `p`, in their order in `s`. */
  function WithPitch(s: seq<Note>, p: int): seq<Note> {
    if s == [] then []
    else
      var init, last := s[..|s| - 1], s[|s| - 1];
      assert s == init + [last];
      WithPitch(init, p) + (if last.pitch == p then [last] else [])
  }

  /** The notes of `s` whose pitch is in `ps`, in their order in `s`. */
  function WithPitchIn(s: seq<Note>, ps: set<int>): seq<Note> {
    if s == [] then []
    else
      var init, last := s[..|s| - 1], s[|s| - 1];
      assert s == init + [last];
      WithPitchIn(init, ps) + (if last.pitch in ps then [last] else [])
  }

  /** A note is selected exactly when it occurs and its pitch is in the selection. */
  lemma {:induction false} WithPitchInMember(s: seq<Note>, ps: set<int>, n: Note)
    ensures n in WithPitchIn(s, ps) <==> n in s && n.pitch in ps
  {
    if s != [] {
      var init, last := s[..|s| - 1], s[|s| - 1];
      assert s == init + [last];
      WithPitchInMember(init, ps, n);
    }
  }

  /** A note has pitch `p` and occurs in `s` exactly when it is one of `s`'s notes of pitch `p`. */
  lemma {:induction false} WithPitchMember(s: seq<Note>, p: int, n: Note)
    ensures n in WithPitch(s, p) <==> n in s && n.pitch == p
  {
    if s != [] {
      var init, last := s[..|s| - 1], s[|s| - 1];
      assert s == init + [last];
      WithPitchMember(init, p, n);
    }
  }

  /** Selecting no pitch selects no note. */
  lemma {:induction false} WithPitchInNone(s: seq<Note>)
    ensures WithPitchIn(s, {}) == []
  {
    if s != [] {
      WithPitchInNone(s[..|s| - 1]);
    }
  }

  /** A pitch that does not occur selects no note. */
  lemma {:induction false} WithPitchAbsent(s: seq<Note>, p: int)
    requires p !in PitchesOf(s)
    ensures WithPitch(s, p) == []
  {
    if s != [] {
      var init, last := s[..|s| - 1], s[|s| - 1];
      assert s == init + [last];
      assert last.pitch in PitchesOf(s);
      assert PitchesOf(init) <= PitchesOf(s);
      WithPitchAbsent(init, p);
    }
  }

  /** Adding one pitch to the selection adds exactly the notes of that pitch. */
  lemma {:induction false} WithPitchInAdd(s: seq<Note>, ps: set<int>, p: int)
    requires p !in ps
    ensures |WithPitchIn(s, ps + {p})| == |WithPitchIn(s, ps)| + |WithPitch(s, p)|
  {
    if s != [] {
      WithPitchInAdd(s[..|s| - 1], ps, p);
    }
  }

  /** Selecting every pitch that occurs keeps every note. */
  lemma {:induction false} WithPitchInAll(s: seq<Note>, ps: set<int>)
    requires PitchesOf(s) <= ps
    ensures WithPitchIn(s, ps) == s
  {
    if s != [] {
      var init, last := s[..|s| - 1], s[|s| - 1];
      assert s == init + [last];
      assert last.pitch in PitchesOf(s);
      assert PitchesOf(init) <= PitchesOf(s);
      WithPitchInAll(init, ps);
    }
  }

  /** A non-empty finite set of pitches has a least element. */
  lemma {:induction false} LeastPitchExists(ps: set<int>)
    requires ps != {}
    ensures exists p :: p in ps && forall q :: q in ps ==> p <= q
  {
    var x := PickPitch(ps);
    if !forall q :: q in ps ==> x <= q {
      var y :| y in ps && y < x;
      var rest := ps - {x};
      assert y in rest;
      LeastPitchExists(rest);
      var m :| m in rest && forall q :: q in rest ==> m <= q;
      assert forall q :: q in ps ==> q == x || q in rest;
      assert m in ps && forall q :: q in ps ==> m <= q;
    }
  }

  ghost function PickPitch(ps: set<int>): (x: int)
    requires ps != {}
    ensures x in ps
  {
    NonEmptyHasElement(ps);
    var x :| x in ps; x
  }

  lemma NonEmptyHasElement(ps: set<int>)
    requires ps != {}
    ensures exists x :: x in ps
  {
    if forall x :: x !in ps {
      assert false;
    }
  }

  /** Any two notes of `s` are separated, the earlier one first. */
  ghost predicate PairwiseSeparated(s: seq<Note>, threshold: real) {
    forall a, b :: 0 <= a < b < |s| ==> Separated(s[a], s[b], threshold)
  }

  /** The accumulator starts no later than any note still to come, and those notes are
      sorted by start time. */
  ghost predicate RunOrdered(current: Note, rest: seq<Note>) {
    SortedBy(ByStart, rest) && forall k :: 0 <= k < |rest| ==> current.startTime <= rest[k].startTime
  }

  /** The first note of a run is the accumulator with a later end, and every note of the
      run is a note of the accumulator and the rest with a later end. */
  lemma {:induction false} MergeRunExtended(current: Note, rest: seq<Note>, threshold: real)
    ensures var r := MergeRun(current, rest, threshold);
      ExtendsEnd(r[0], current) && ExtendedFrom(r, [current] + rest)
    decreases |rest|
  {
    var r := MergeRun(current, rest, threshold);
    assert ExtendsEnd(current, current) && current in [current] + rest;
    if rest != [] {
      var tail := rest[1..];
      assert rest == [rest[0]] + tail;
      if Absorbs(current, rest[0], threshold) {
        var grown := current.(endTime := Max(current.endTime, rest[0].endTime));
        MergeRunExtended(grown, tail, threshold);
        forall o | o in r ensures exists n :: n in [current] + rest && ExtendsEnd(o, n) {
          var n :| n in [grown] + tail && ExtendsEnd(o, n);
          if n == grown {
            assert ExtendsEnd(o, current);
          } else {
            assert n in [current] + rest;
          }
        }
      } else {
        MergeRunExtended(rest[0], tail, threshold);
        forall o | o in r ensures exists n :: n in [current] + rest && ExtendsEnd(o, n) {
          if o != current {
            assert o in MergeRun(rest[0], tail, threshold);
            var n :| n in [rest[0]] + tail && ExtendsEnd(o, n);
            assert n in [current] + rest;
          }
        }
      }
    }
  }

  /** Every note of the accumulator and the rest lies inside some note of the run. */
  lemma {:induction false} MergeRunCovers(current: Note, rest: seq<Note>, threshold: real)
    requires RunOrdered(current, rest)
    ensures Covers(MergeRun(current, rest, threshold), [current] + rest)
    decreases |rest|
  {
    var r := MergeRun(current, rest, threshold);
    if rest == [] {
      forall n | Listed(n, [current]) ensures exists o :: o in r && Spans(o, n) {
        assert Spans(current, current);
      }
    } else {
      var tail := rest[1..];
      assert rest == [rest[0]] + tail;
      if Absorbs(current, rest[0], threshold) {
        var grown := current.(endTime := Max(current.endTime, rest[0].endTime));
        assert RunOrdered(grown, tail);
        MergeRunCovers(grown, tail, threshold);
        assert Listed(grown, [grown] + tail);
        var g :| g in r && Spans(g, grown);
        forall n | Listed(n, [current] + rest) ensures exists o :: o in r && Spans(o, n) {
          if n == current || n == rest[0] {
            assert Spans(g, n);
          } else {
            assert Listed(n, [grown] + tail);
          }
        }
      } else {
        assert RunOrdered(rest[0], tail);
        MergeRunCovers(rest[0], tail, threshold);
        forall n | Listed(n, [current] + rest) ensures exists o :: o in r && Spans(o, n) {
          if n == current {
            assert Spans(current, n) && current in r;
          } else {
            assert Listed(n, [rest[0]] + tail);
            var o :| o in MergeRun(rest[0], tail, threshold) && Spans(o, n);
            assert o in r;
          }
        }
      }
    }
  }

  /** The notes of a run are pairwise separated. */
  lemma {:induction false} MergeRunSeparates(current: Note, rest: seq<Note>, threshold: real)
    requires RunOrdered(current, rest)
    ensures PairwiseSeparated(MergeRun(current, rest, threshold), threshold)
    decreases |rest|
  {
    var r := MergeRun(current, rest, threshold);
    if rest != [] {
      var tail := rest[1..];
      assert rest == [rest[0]] + tail;
      if Absorbs(current, rest[0], threshold) {
        var grown := current.(endTime := Max(current.endTime, rest[0].endTime));
        assert RunOrdered(grown, tail);
        MergeRunSeparates(grown, tail, threshold);
        assert r == MergeRun(grown, tail, threshold);
      } else {
        var later := MergeRun(rest[0], tail, threshold);
        assert RunOrdered(rest[0], tail);
        MergeRunSeparates(rest[0], tail, threshold);
        MergeRunExtended(rest[0], tail, threshold);
        forall b | 0 <= b < |later| ensures Separated(current, later[b], threshold) {
          assert later[b] in later;
          var n :| n in [rest[0]] + tail && ExtendsEnd(later[b], n);
          var k :| 0 <= k < |rest| && rest[k] == n;
          assert InOrder(ByStart, rest[0], rest[k]) || k == 0;
        }
        forall a, b | 0 <= a < b < |r| ensures Separated(r[a], r[b], threshold) {
          assert r[b] == later[b - 1];
          if a > 0 { assert r[a] == later[a - 1]; }
        }
      }
    }
  }

  /** A non-empty group whose notes are pairwise separated is left as it is. */
  lemma {:induction false} MergeRunSeparated(group: seq<Note>, threshold: real)
    requires group != []
    requires PairwiseSeparated(group, threshold)
    ensures MergeRun(group[0], group[1..], threshold) == group
  {
    if |group| > 1 {
      var rest := group[1..];
      assert Separated(group[0], group[1], threshold);
      assert PairwiseSeparated(rest, threshold) by {
        forall a, b | 0 <= a < b < |rest| ensures Separated(rest[a], rest[b], threshold) {
          assert rest[a] == group[a + 1] && rest[b] == group[b + 1];
        }
      }
      MergeRunSeparated(rest, threshold);
      assert rest[1..] == group[2..];
      assert group == [group[0]] + rest;
    }
  }

  /** One turn of the group loop follows MergeRun: the emitted notes followed by the run from
      the accumulator over the rest of the group stay the run over the whole group. */
  lemma RunStep(emitted: seq<Note>, current: Note, group: seq<Note>, i: int, threshold: real)
    requires 1 <= i < |group|
    requires emitted + MergeRun(current, group[i..], threshold) == MergeRun(group[0], group[1..], threshold)
    ensures var whole, note := MergeRun(group[0], group[1..], threshold), group[i];
      if Absorbs(current, note, threshold) then
        emitted + MergeRun(current.(endTime := Max(current.endTime, note.endTime)), group[i + 1..], threshold) == whole
      else
        (emitted + [current]) + MergeRun(note, group[i + 1..], threshold) == whole
  {
    assert group[i..][0] == group[i] && group[i..][1..] == group[i + 1..];
  }

  /** The merge loop of one pitch group, already sorted by start time: the accumulator
      `current` absorbs every note that overlaps it or starts less than `mergeThreshold`
      after its end, growing its end time and never its start. */
  method MergeSortedGroup(group: seq<Note>, mergeThreshold: real) returns (mergedGroup: seq<Note>)
    requires group != []
    requires SortedBy(ByStart, group)
    ensures mergedGroup == MergeRun(group[0], group[1..], mergeThreshold)
    ensures 1 <= |mergedGroup| <= |group|
    ensures Covers(mergedGroup, group)
    ensures ExtendedFrom(mergedGroup, group)
    ensures PairwiseSeparated(mergedGroup, mergeThreshold)
    ensures PairwiseSeparated(group, mergeThreshold) ==> mergedGroup == group
  {
    mergedGroup := [];
    var current := group[0];
    for i := 1 to |group|
      invariant mergedGroup + MergeRun(current, group[i..], mergeThreshold) ==
                MergeRun(group[0], group[1..], mergeThreshold)
    {
      var note := group[i];
      RunStep(mergedGroup, current, group, i, mergeThreshold);
      if note.startTime - current.endTime < mergeThreshold || note.startTime <= current.endTime {
        current := current.(endTime := Max(current.endTime, note.endTime));
      } else {
        mergedGroup := mergedGroup + [current];
        current := note;
      }
    }
    assert group[|group|..] == [];
    mergedGroup := mergedGroup + [current];
    assert group == [group[0]] + group[1..];
    assert RunOrdered(group[0], group[1..]) by {
      forall k | 0 <= k < |group| - 1 ensures group[0].startTime <= group[1..][k].startTime {
        assert InOrder(ByStart, group[0], group[k + 1]);
      }
    }
    MergeRunExtended(group[0], group[1..], mergeThreshold);
    MergeRunCovers(group[0], group[1..], mergeThreshold);
    MergeRunSeparates(group[0], group[1..], mergeThreshold);
    if PairwiseSeparated(group, mergeThreshold) {
      MergeRunSeparated(group, mergeThreshold);
    }
  }

  /** The grouping pass of mergeSamePitchNotes: one entry per pitch that occurs, holding
      that pitch's notes in input order. */
  method GroupByPitch(notes: seq<Note>) returns (groups: map<int, seq<Note>>)
    ensures groups.Keys == PitchesOf(notes)
    ensures forall p :: p in groups ==> groups[p] == WithPitch(notes, p)
    ensures forall p :: p in groups ==> groups[p] != []
  {
    groups := map[];
    for k := 0 to |notes|
      invariant groups.Keys == PitchesOf(notes[..k])
      invariant forall p :: p in groups ==> groups[p] == WithPitch(notes[..k], p)
      invariant forall p :: p in groups ==> groups[p] != []
    {
      var note := notes[k];
      assert notes[..k + 1] == notes[..k] + [note];
      assert notes[..k + 1][..k] == notes[..k];
      assert forall p :: (WithPitch(notes[..k + 1], p) ==
        WithPitch(notes[..k], p) + (if note.pitch == p then [note] else []));
      if note.pitch !in groups {
        WithPitchAbsent(notes[..k], note.pitch);
        groups := groups[note.pitch := []];
      }
      groups := groups[note.pitch := groups[note.pitch] + [note]];
    }
    assert notes[..|notes|] == notes;
  }

  /** Every note of `inner` lies inside some note of `outer` that has its pitch. */
  ghost predicate CoversSamePitch(outer: seq<Note>, inner: seq<Note>) {
    forall n {:trigger Listed(n, inner)} :: Listed(n, inner) ==>
      exists o :: o in outer && o.pitch == n.pitch && Spans(o, n)
  }

  ghost predicate AllOfPitch(s: seq<Note>, p: int) {
    forall o :: o in s ==> o.pitch == p
  }

  ghost predicate PitchesBelow(s: seq<Note>, ps: set<int>) {
    forall o, p :: o in s && p in ps ==> o.pitch < p
  }

  /** mergeSamePitchNotes: groups the notes by pitch (groups visited in ascending pitch),
      sorts each group by start time and merges each group with MergeSortedGroup. */
  method MergeSamePitchNotes(notes: seq<Note>, mergeThreshold: real) returns (mergedNotes: seq<Note>)
    ensures |mergedNotes| <= |notes|
    ensures CoversSamePitch(mergedNotes, notes)
    ensures ExtendedFrom(mergedNotes, notes)
    ensures GroupedAndSeparated(mergedNotes, mergeThreshold)
    ensures forall p :: WithPitch(mergedNotes, p) == MergedPitch(notes, p, mergeThreshold)
  {
    var groups := GroupByPitch(notes);
    mergedNotes := [];
    var pending := groups.Keys;
    // Ghost: the pitches already merged, in the order they were visited.
    ghost var taken: seq<int> := [];
    SamePitchStart(notes, groups.Keys, mergeThreshold);
    while pending != {}
      invariant SamePitchProgress(notes, groups.Keys, pending, mergedNotes, taken, mergeThreshold)
      decreases pending
    {
      LeastPitchExists(pending);
      var key :| key in pending && forall q :: q in pending ==> key <= q;
      var group := Sort(ByStart, groups[key]);
      var mergedGroup := MergeSortedGroup(group, mergeThreshold);
      SamePitchStep(notes, groups.Keys, pending, key, taken, group, mergedGroup, mergedNotes, mergeThreshold);
      mergedNotes := mergedNotes + mergedGroup;
      pending := pending - {key};
      taken := taken + [key];
    }
    SamePitchDone(notes, groups.Keys, mergedNotes, taken, mergeThreshold);
  }

  /** The state of the loop of MergeSamePitchNotes: `merged` holds the merged notes of the
      pitches visited so far (`keys - pending`, in the order `taken`), every pitch still
      pending exceeds every pitch in `merged`, and the guarantees of the method hold for
      the notes of the visited pitches. */
  ghost predicate SamePitchProgress(notes: seq<Note>, keys: set<int>, pending: set<int>,
                                    merged: seq<Note>, taken: seq<int>, threshold: real) {
    && pending <= keys
    && |merged| <= |WithPitchIn(notes, keys - pending)|
    && PitchesBelow(merged, pending)
    && CoversSamePitch(merged, WithPitchIn(notes, keys - pending))
    && ExtendedFrom(merged, notes)
    && GroupedAndSeparated(merged, threshold)
    && merged == ConcatMerged(notes, taken, threshold)
    && Enumerates(taken, keys - pending)
  }

  /** Before the first group, nothing is merged and everything is pending. */
  lemma SamePitchStart(notes: seq<Note>, keys: set<int>, threshold: real)
    ensures SamePitchProgress(notes, keys, keys, [], [], threshold)
  {
    assert keys - keys == {};
    WithPitchInNone(notes);
  }

  /** One turn of the loop: appending the merged group of the least pending pitch `key`. */
  lemma SamePitchStep(notes: seq<Note>, keys: set<int>, pending: set<int>, key: int, taken: seq<int>,
                      group: seq<Note>, mergedGroup: seq<Note>, merged: seq<Note>, threshold: real)
    requires SamePitchProgress(notes, keys, pending, merged, taken, threshold)
    requires key in pending && forall q :: q in pending ==> key <= q
    requires group == Sort(ByStart, WithPitch(notes, key)) && group != []
    requires mergedGroup == MergeRun(group[0], group[1..], threshold)
    requires |mergedGroup| <= |group|
    requires Covers(mergedGroup, group)
    requires ExtendedFrom(mergedGroup, group)
    requires PairwiseSeparated(mergedGroup, threshold)
    ensures SamePitchProgress(notes, keys, pending - {key}, merged + mergedGroup, taken + [key], threshold)
  {
    MergeStep(notes, keys, pending, key, group, mergedGroup, merged, threshold);
    TakeStep(notes, keys, pending, key, taken, group, mergedGroup, merged, threshold);
  }

  /** When no pitch is pending, the loop state gives the guarantees of MergeSamePitchNotes. */
  lemma SamePitchDone(notes: seq<Note>, keys: set<int>, merged: seq<Note>, taken: seq<int>, threshold: real)
    requires keys == PitchesOf(notes)
    requires SamePitchProgress(notes, keys, {}, merged, taken, threshold)
    ensures |merged| <= |notes|
    ensures CoversSamePitch(merged, notes)
    ensures ExtendedFrom(merged, notes)
    ensures GroupedAndSeparated(merged, threshold)
    ensures forall p :: WithPitch(merged, p) == MergedPitch(notes, p, threshold)
  {
    assert keys - {} == keys;
    WithPitchInAll(notes, keys);
    AllPitchesMerged(notes, keys, taken, threshold);
  }

  /** Once every pitch that occurs has been visited, every pitch's notes in the output are
      its merged notes. */
  lemma AllPitchesMerged(notes: seq<Note>, keys: set<int>, taken: seq<int>, threshold: real)
    requires keys == PitchesOf(notes) && Enumerates(taken, keys)
    ensures forall p :: WithPitch(ConcatMerged(notes, taken, threshold), p) == MergedPitch(notes, p, threshold)
  {
    ConcatMergedPitches(notes, taken, keys, threshold);
    forall p | p !in keys ensures MergedPitch(notes, p, threshold) == [] {
      WithPitchAbsent(notes, p);
    }
  }

  /** The merged notes of pitch `p`: the notes of that pitch, sorted by start time and
      merged by MergeRun. */
  function MergedPitch(notes: seq<Note>, p: int, threshold: real): (r: seq<Note>)
    ensures |r| <= |WithPitch(notes, p)|
  {
    var group := Sort(ByStart, WithPitch(notes, p));
    if group == [] then [] else MergeRun(group[0], group[1..], threshold)
  }

  /** `ps` lists every element of `done` exactly once. */
  ghost predicate Enumerates(ps: seq<int>, done: set<int>) {
    && (forall q :: q in ps <==> q in done)
    && (forall a, b :: 0 <= a < b < |ps| ==> ps[a] != ps[b])
  }

  /** Appending the merged notes of the next pitch `key` extends the concatenation by `key`,
      and the visited pitches by `key`. */
  lemma TakeStep(notes: seq<Note>, keys: set<int>, pending: set<int>, key: int, taken: seq<int>,
                 group: seq<Note>, mergedGroup: seq<Note>, mergedNotes: seq<Note>, threshold: real)
    requires pending <= keys && key in pending && Enumerates(taken, keys - pending)
    requires group == Sort(ByStart, WithPitch(notes, key)) && group != []
    requires mergedGroup == MergeRun(group[0], group[1..], threshold)
    requires mergedNotes == ConcatMerged(notes, taken, threshold)
    ensures mergedNotes + mergedGroup == ConcatMerged(notes, taken + [key], threshold)
    ensures Enumerates(taken + [key], keys - (pending - {key}))
  {
    assert (taken + [key])[..|taken|] == taken;
    assert mergedGroup == MergedPitch(notes, key, threshold);
    EnumeratesStep(keys - pending, key, taken);
    assert keys - (pending - {key}) == (keys - pending) + {key};
  }

  /** Adding one more element, listed last, keeps an enumeration. */
  lemma EnumeratesStep(done: set<int>, key: int, taken: seq<int>)
    requires key !in done && Enumerates(taken, done)
    ensures Enumerates(taken + [key], done + {key})
  {
    var t := taken + [key];
    forall q ensures q in t <==> q in done + {key} {
      assert q in t <==> q in taken || q == key;
    }
    forall a, b | 0 <= a < b < |t| ensures t[a] != t[b] {
      assert t[a] == taken[a];
      if b < |taken| { assert t[b] == taken[b]; }
    }
  }

  /** The merged notes of the pitches `ps`, one pitch after another. */
  function ConcatMerged(notes: seq<Note>, ps: seq<int>, threshold: real): seq<Note> {
    if ps == [] then []
    else ConcatMerged(notes, ps[..|ps| - 1], threshold) + MergedPitch(notes, ps[|ps| - 1], threshold)
  }

  /** Every merged note of pitch `p` has pitch `p`. */
  lemma MergedPitchOfPitch(notes: seq<Note>, p: int, threshold: real)
    ensures AllOfPitch(MergedPitch(notes, p, threshold), p)
  {
    var group := Sort(ByStart, WithPitch(notes, p));
    if group != [] {
      MergeRunExtended(group[0], group[1..], threshold);
      assert group == [group[0]] + group[1..];
      GroupOrigin(notes, group, MergedPitch(notes, p, threshold), p);
    }
  }

  /** Over distinct pitches, the notes of pitch `p` in the concatenation are `p`'s merged
      notes when `p` is listed, and there are none otherwise. */
  lemma {:induction false} ConcatMergedPitches(notes: seq<Note>, ps: seq<int>, done: set<int>, threshold: real)
    requires Enumerates(ps, done)
    ensures forall p :: WithPitch(ConcatMerged(notes, ps, threshold), p) ==
                        if p in done then MergedPitch(notes, p, threshold) else []
    decreases |ps|
  {
    if ps != [] {
      var init, last := ps[..|ps| - 1], ps[|ps| - 1];
      EnumeratesInit(ps, done);
      ConcatMergedPitches(notes, init, done - {last}, threshold);
      assert ConcatMerged(notes, ps, threshold) ==
             ConcatMerged(notes, init, threshold) + MergedPitch(notes, last, threshold);
      ConcatStepPitches(notes, init, last, done, threshold);
    }
  }

  /** Dropping the last element of an enumeration enumerates the rest of the set. */
  lemma EnumeratesInit(ps: seq<int>, done: set<int>)
    requires ps != [] && Enumerates(ps, done)
    ensures ps[|ps| - 1] in done && Enumerates(ps[..|ps| - 1], done - {ps[|ps| - 1]})
  {
    var init, last := ps[..|ps| - 1], ps[|ps| - 1];
    assert ps == init + [last];
    forall q ensures q in init <==> q in done - {last} {
      if q in init {
        var k :| 0 <= k < |init| && init[k] == q;
        assert ps[k] == q;
      }
    }
  }

  /** One more pitch `last` in the concatenation adds its merged notes to its selection. */
  lemma ConcatStepPitches(notes: seq<Note>, init: seq<int>, last: int, done: set<int>, threshold: real)
    requires last in done
    requires forall p :: WithPitch(ConcatMerged(notes, init, threshold), p) ==
                         if p in done - {last} then MergedPitch(notes, p, threshold) else []
    ensures forall p :: WithPitch(ConcatMerged(notes, init, threshold) + MergedPitch(notes, last, threshold), p) ==
                        if p in done then MergedPitch(notes, p, threshold) else []
  {
    MergedPitchOfPitch(notes, last, threshold);
    var before := ConcatMerged(notes, init, threshold);
    var added := MergedPitch(notes, last, threshold);
    forall p ensures WithPitch(before + added, p) ==
                     if p in done then MergedPitch(notes, p, threshold) else [] {
      var earlier := WithPitch(before, p);
      assert earlier == if p in done - {last} then MergedPitch(notes, p, threshold) else [];
      AppendPitchGroup(before, added, last, p);
      if p != last {
        assert (p in done - {last}) == (p in done);
      }
    }
  }

  /** Appending notes all of pitch `key` to notes without that pitch adds them to `key`'s
      selection and leaves every other pitch's selection alone. */
  lemma AppendPitchGroup(before: seq<Note>, added: seq<Note>, key: int, p: int)
    requires AllOfPitch(added, key)
    requires p == key ==> WithPitch(before, p) == []
    ensures WithPitch(before + added, p) == if p == key then added else WithPitch(before, p)
  {
    WithPitchAppend(before, added, p);
    WithPitchUniform(added, key, p);
    assert [] + added == added;
    assert WithPitch(before, p) + [] == WithPitch(before, p);
  }

  /** Selecting a pitch distributes over concatenation. */
  lemma {:induction false} WithPitchAppend(a: seq<Note>, b: seq<Note>, p: int)
    ensures WithPitch(a + b, p) == WithPitch(a, p) + WithPitch(b, p)
    decreases |b|
  {
    if b == [] {
      assert a + b == a;
    } else {
      var init, last := b[..|b| - 1], b[|b| - 1];
      assert a + b == (a + init) + [last];
      assert (a + b)[..|a + b| - 1] == a + init;
      WithPitchAppend(a, init, p);
    }
  }

  /** In a sequence of one pitch, selecting that pitch keeps everything and selecting any
      other keeps nothing. */
  lemma {:induction false} WithPitchUniform(s: seq<Note>, key: int, p: int)
    requires AllOfPitch(s, key)
    ensures WithPitch(s, p) == if p == key then s else []
  {
    if s != [] {
      var init, last := s[..|s| - 1], s[|s| - 1];
      assert s == init + [last];
      assert last in s;
      assert AllOfPitch(init, key) by {
        forall o | o in init ensures o.pitch == key {
          assert o in s;
        }
      }
      WithPitchUniform(init, key, p);
    }
  }

  /** A pitch whose sorted notes are already pairwise separated comes out as those notes. */
  lemma MergedPitchSeparated(notes: seq<Note>, p: int, threshold: real)
    requires PairwiseSeparated(Sort(ByStart, WithPitch(notes, p)), threshold)
    ensures MergedPitch(notes, p, threshold) == Sort(ByStart, WithPitch(notes, p))
  {
    if Sort(ByStart, WithPitch(notes, p)) != [] {
      MergeRunSeparated(Sort(ByStart, WithPitch(notes, p)), threshold);
    }
  }

  /** One turn of the loop of MergeSamePitchNotes: appending the merged group of the least
      pending pitch `key` re-establishes the loop invariants with `key` no longer pending. */
  lemma MergeStep(notes: seq<Note>, keys: set<int>, pending: set<int>, key: int, group: seq<Note>,
                  mergedGroup: seq<Note>, mergedNotes: seq<Note>, mergeThreshold: real)
    requires pending <= keys
    requires key in pending && forall q :: q in pending ==> key <= q
    requires multiset(group) == multiset(WithPitch(notes, key))
    requires |mergedGroup| <= |group|
    requires Covers(mergedGroup, group)
    requires ExtendedFrom(mergedGroup, group)
    requires PairwiseSeparated(mergedGroup, mergeThreshold)
    requires |mergedNotes| <= |WithPitchIn(notes, keys - pending)|
    requires PitchesBelow(mergedNotes, pending)
    requires CoversSamePitch(mergedNotes, WithPitchIn(notes, keys - pending))
    requires ExtendedFrom(mergedNotes, notes)
    requires GroupedAndSeparated(mergedNotes, mergeThreshold)
    ensures var all, rest := mergedNotes + mergedGroup, pending - {key};
      && |all| <= |WithPitchIn(notes, keys - rest)|
      && PitchesBelow(all, rest)
      && CoversSamePitch(all, WithPitchIn(notes, keys - rest))
      && ExtendedFrom(all, notes)
      && GroupedAndSeparated(all, mergeThreshold)
  {
    var done := keys - pending;
    GroupOrigin(notes, group, mergedGroup, key);
    AppendCovers(notes, group, mergedGroup, mergedNotes, key, done);
    AppendOrdered(mergedNotes, mergedGroup, key, pending, mergeThreshold);
    ExtendedFromAppend(mergedNotes, mergedGroup, notes);
    WithPitchInAdd(notes, done, key);
    assert |group| == |WithPitch(notes, key)| by {
      assert |multiset(group)| == |multiset(WithPitch(notes, key))|;
    }
    assert keys - (pending - {key}) == done + {key};
  }

  /** Every note of the merged group of pitch `key` has that pitch and extends a note of `notes`. */
  lemma GroupOrigin(notes: seq<Note>, group: seq<Note>, mergedGroup: seq<Note>, key: int)
    requires multiset(group) == multiset(WithPitch(notes, key))
    requires ExtendedFrom(mergedGroup, group)
    ensures AllOfPitch(mergedGroup, key)
    ensures ExtendedFrom(mergedGroup, notes)
  {
    var members := WithPitch(notes, key);
    forall o | o in mergedGroup ensures o.pitch == key && exists n :: n in notes && ExtendsEnd(o, n) {
      var n :| n in group && ExtendsEnd(o, n);
      assert n in multiset(group);
      assert n in members;
      WithPitchMember(notes, key, n);
    }
  }

  /** After appending the merged group of pitch `key`, every note whose pitch is done
      lies inside a merged note of its own pitch. */
  lemma AppendCovers(notes: seq<Note>, group: seq<Note>, mergedGroup: seq<Note>,
                     mergedNotes: seq<Note>, key: int, done: set<int>)
    requires multiset(group) == multiset(WithPitch(notes, key))
    requires Covers(mergedGroup, group)
    requires AllOfPitch(mergedGroup, key)
    requires CoversSamePitch(mergedNotes, WithPitchIn(notes, done))
    ensures CoversSamePitch(mergedNotes + mergedGroup, WithPitchIn(notes, done + {key}))
  {
    var all := mergedNotes + mergedGroup;
    var members := WithPitch(notes, key);
    forall n | Listed(n, WithPitchIn(notes, done + {key}))
      ensures exists o :: o in all && o.pitch == n.pitch && Spans(o, n)
    {
      WithPitchInMember(notes, done + {key}, n);
      WithPitchInMember(notes, done, n);
      if n.pitch == key {
        WithPitchMember(notes, key, n);
        assert n in members;
        assert n in multiset(members);
        assert Listed(n, group);
        var o :| o in mergedGroup && Spans(o, n);
        assert o in all;
      } else {
        assert Listed(n, WithPitchIn(notes, done));
        var o :| o in mergedNotes && o.pitch == n.pitch && Spans(o, n);
        assert o in all;
      }
    }
  }

  /** Appending a same-pitch, mutually separated group whose pitch exceeds every pitch
      already emitted keeps the output ordered by pitch and separated within a pitch. */
  lemma AppendOrdered(mergedNotes: seq<Note>, mergedGroup: seq<Note>, key: int, pending: set<int>,
                      mergeThreshold: real)
    requires AllOfPitch(mergedGroup, key)
    requires PairwiseSeparated(mergedGroup, mergeThreshold)
    requires key in pending && forall q :: q in pending ==> key <= q
    requires PitchesBelow(mergedNotes, pending)
    requires GroupedAndSeparated(mergedNotes, mergeThreshold)
    ensures GroupedAndSeparated(mergedNotes + mergedGroup, mergeThreshold)
    ensures PitchesBelow(mergedNotes + mergedGroup, pending - {key})
  {
    var all := mergedNotes + mergedGroup;
    assert forall o :: o in all ==> o in mergedNotes || o in mergedGroup;
    forall a, b | 0 <= a < b < |all|
      ensures all[a].pitch < all[b].pitch ||
              (all[a].pitch == all[b].pitch && Separated(all[a], all[b], mergeThreshold))
    {
      if b < |mergedNotes| {
        assert all[a] == mergedNotes[a] && all[b] == mergedNotes[b];
      } else if a < |mergedNotes| {
        assert all[a] in mergedNotes;
        assert all[b] == mergedGroup[b - |mergedNotes|];
        assert all[b] in mergedGroup;
      } else {
        assert all[a] == mergedGroup[a - |mergedNotes|] && all[b] == mergedGroup[b - |mergedNotes|];
        assert all[a] in mergedGroup && all[b] in mergedGroup;
      }
    }
  }

  // ---------------------------------------------------------------------------
  // mergeDifferentPitchNotes
  // ---------------------------------------------------------------------------

  /** The two notes' intervals share some time (open intervals). */
  predicate Overlap(a: Note, b: Note) {
    a.startTime < b.endTime && b.startTime < a.endTime
  }

  /** `b` starts at or after the end of `a`, less than `threshold` after it. */
  predicate NearlyConsecutive(a: Note, b: Note, threshold: real) {
    var gap := b.startTime - a.endTime;
    gap < threshold && gap >= 0.0
  }

  /** The condition under which the cross-pitch pass merges `a` (earlier in the list)
      with `b` (later in the list). */
  predicate Mergeable(a: Note, b: Note, threshold: real) {
    a.pitch != b.pitch && (Overlap(a, b) || NearlyConsecutive(a, b, threshold))
  }

  /** No note of `s` is mergeable with any note after it. */
  ghost predicate NoMergeablePair(s: seq<Note>, threshold: real) {
    forall a, b :: 0 <= a < b < |s| ==> !Mergeable(s[a], s[b], threshold)
  }

  /** `keep` stretched to the smallest interval holding both notes; every other field
      of `keep` survives. */
  function Hull(keep: Note, other: Note): (h: Note)
    ensures Widens(h, keep) && Spans(h, other)
    ensures h.startTime == keep.startTime || h.startTime == other.startTime
    ensures h.endTime == keep.endTime || h.endTime == other.endTime
  {
    keep.(startTime := Min(keep.startTime, other.startTime),
          endTime := Max(keep.endTime, other.endTime))
  }

  /** Replacing `s[k]` by its hull with `s[d]` and removing `s[d]` loses no note's interval
      and invents no note. */
  lemma {:induction false} AbsorbCoversAndWidens(s: seq<Note>, k: int, d: int)
    requires 0 <= k < |s| && 0 <= d < |s| && k != d
    ensures var t := s[k := Hull(s[k], s[d])];
      var r := t[..d] + t[d + 1..];
      && |r| == |s| - 1
      && Covers(r, s)
      && WidenedFrom(r, s)
  {
    var t := s[k := Hull(s[k], s[d])];
    var r := t[..d] + t[d + 1..];
    var h := Hull(s[k], s[d]);
    assert h in r by {
      if k < d { assert r[k] == h; } else { assert r[k - 1] == h; }
    }
    forall n | n in s
      ensures exists o :: o in r && Spans(o, n)
    {
      var m :| 0 <= m < |s| && s[m] == n;
      if m == k || m == d {
        assert Spans(h, n);
      } else {
        assert Spans(n, n);
        if m < d { assert r[m] == n; } else { assert r[m - 1] == n; }
      }
    }
    forall o | o in r
      ensures exists n :: n in s && Widens(o, n)
    {
      var m :| 0 <= m < |r| && r[m] == o;
      var m' := if m < d then m else m + 1;
      assert o == t[m'];
      if m' == k {
        assert Widens(o, s[k]);
      } else {
        assert o == s[m'] && Widens(o, o);
      }
    }
  }

  /** The first index `b >= from` whose note is mergeable with `s[i]`, or `|s|` if none is
      (PartnerFromIsFirst). */
  function PartnerFrom(s: seq<Note>, i: int, from: int, threshold: real): (b: int)
    requires 0 <= i < from <= |s|
    ensures from <= b <= |s|
    decreases |s| - from
  {
    if from == |s| then |s|
    else if Mergeable(s[i], s[from], threshold) then from
    else PartnerFrom(s, i, from + 1, threshold)
  }

  lemma {:induction false} PartnerFromIsFirst(s: seq<Note>, i: int, from: int, threshold: real)
    requires 0 <= i < from <= |s|
    ensures var b := PartnerFrom(s, i, from, threshold);
      && (b < |s| ==> Mergeable(s[i], s[b], threshold))
      && (forall c :: from <= c < b ==> !Mergeable(s[i], s[c], threshold))
    decreases |s| - from
  {
    if from < |s| && !Mergeable(s[i], s[from], threshold) {
      PartnerFromIsFirst(s, i, from + 1, threshold);
    }
  }

  /** The first index after `i` whose note is mergeable with `s[i]`, or `|s|` if none is
      (PartnerIsFirst). */
  function Partner(s: seq<Note>, i: int, threshold: real): (b: int)
    requires 0 <= i < |s|
    ensures i < b <= |s|
  {
    PartnerFrom(s, i, i + 1, threshold)
  }

  /** Partner finds the first mergeable note after `s[i]`. */
  lemma PartnerIsFirst(s: seq<Note>, i: int, threshold: real)
    requires 0 <= i < |s|
    ensures var b := Partner(s, i, threshold);
      && (b < |s| ==> Mergeable(s[i], s[b], threshold))
      && (forall c :: i < c < b ==> !Mergeable(s[i], s[c], threshold))
  {
    PartnerFromIsFirst(s, i, i + 1, threshold);
  }

  /** The first index `i >= from` that has a mergeable note after it, or `|s|` if none has
      (FirstMergingIsFirst). */
  function FirstMerging(s: seq<Note>, from: int, threshold: real): (i: int)
    requires 0 <= from <= |s|
    ensures from <= i <= |s|
    ensures i < |s| ==> Partner(s, i, threshold) < |s|
    decreases |s| - from
  {
    if from == |s| then |s|
    else if Partner(s, from, threshold) < |s| then from
    else FirstMerging(s, from + 1, threshold)
  }

  /** FirstMerging finds the first index that has a partner. */
  lemma {:induction false} FirstMergingIsFirst(s: seq<Note>, from: int, threshold: real)
    requires 0 <= from <= |s|
    ensures var i := FirstMerging(s, from, threshold);
      forall a :: from <= a < i ==> Partner(s, a, threshold) == |s|
    decreases |s| - from
  {
    if from < |s| && Partner(s, from, threshold) == |s| {
      FirstMergingIsFirst(s, from + 1, threshold);
    }
  }

  /** Merges `s[i]` with `s[j]` (`i < j`) as one step of the pass does: the longer note
      (`s[i]` when they are equally long) becomes the hull of both, and the other is
      removed. */
  function MergePair(s: seq<Note>, i: int, j: int): (t: seq<Note>)
    requires 0 <= i < j < |s|
    ensures |t| == |s| - 1
  {
    if Duration(s[i]) >= Duration(s[j]) then
      var u := s[i := Hull(s[i], s[j])];
      u[..j] + u[j + 1..]
    else
      var u := s[j := Hull(s[j], s[i])];
      u[..i] + u[i + 1..]
  }

  /** The specification of the cross-pitch pass: merge the first mergeable pair in index
      order (the least `i`, then the least `j`), and repeat until no pair is mergeable. */
  function MergeAll(s: seq<Note>, threshold: real): (r: seq<Note>)
    ensures |r| <= |s|
    decreases |s|
  {
    var i := FirstMerging(s, 0, threshold);
    if i == |s| then s
    else MergeAll(MergePair(s, i, Partner(s, i, threshold)), threshold)
  }

  /** `a` and `b` are indices of `s` whose notes are mergeable. */
  predicate MergeableAt(s: seq<Note>, a: int, b: int, threshold: real) {
    0 <= a < |s| && 0 <= b < |s| && Mergeable(s[a], s[b], threshold)
  }

  /** A list with no mergeable pair is left as it is. */
  lemma MergeAllNoOp(s: seq<Note>, threshold: real)
    requires NoMergeablePair(s, threshold)
    ensures MergeAll(s, threshold) == s
  {
    FirstMergingIsFirst(s, 0, threshold);
    forall a | 0 <= a < |s| ensures Partner(s, a, threshold) == |s| {
      PartnerIsFirst(s, a, threshold);
      assert !MergeableAt(s, a, Partner(s, a, threshold), threshold);
    }
  }

  /** No pair of the result is mergeable. */
  lemma {:induction false} MergeAllSettled(s: seq<Note>, threshold: real)
    ensures NoMergeablePair(MergeAll(s, threshold), threshold)
    decreases |s|
  {
    var i := FirstMerging(s, 0, threshold);
    if i == |s| {
      FirstMergingIsFirst(s, 0, threshold);
      forall a, b | 0 <= a < b < |s| ensures !Mergeable(s[a], s[b], threshold) {
        PartnerIsFirst(s, a, threshold);
      }
    } else {
      MergeAllSettled(MergePair(s, i, Partner(s, i, threshold)), threshold);
    }
  }

  /** When no pair before `(i, j)` in index order is mergeable and `(i, j)` is, then
      `(i, j)` is the pair that MergeAll merges first. */
  lemma FirstPairIs(s: seq<Note>, i: int, j: int, threshold: real)
    requires FirstPair(s, i, j, threshold)
    ensures FirstMerging(s, 0, threshold) == i && Partner(s, i, threshold) == j
    ensures MergeAll(s, threshold) == MergeAll(MergePair(s, i, j), threshold)
  {
    var g := Partner(s, i, threshold);
    PartnerIsFirst(s, i, threshold);
    assert !MergeableAt(s, i, g, threshold) || j <= g;
    assert g == j;
    FirstMergingIsFirst(s, 0, threshold);
    forall a | 0 <= a < i ensures Partner(s, a, threshold) == |s| {
      PartnerIsFirst(s, a, threshold);
      assert !MergeableAt(s, a, Partner(s, a, threshold), threshold);
    }
  }

  /** `(i, j)` is the first mergeable pair of `s` in the scan order of the source: no
      earlier `i` has a mergeable partner, and no partner of `i` comes before `j`. */
  ghost predicate FirstPair(s: seq<Note>, i: int, j: int, threshold: real) {
    && 0 <= i < j < |s| && Mergeable(s[i], s[j], threshold)
    && (forall a, b :: 0 <= a < i && a < b < |s| ==> !Mergeable(s[a], s[b], threshold))
    && (forall b :: i < b < j ==> !Mergeable(s[i], s[b], threshold))
  }

  /** Merging the first mergeable pair `(i, j)` of `s` keeps the guarantees of the pass
      about the original notes and leads to the same final result. */
  lemma MergeFound(s: seq<Note>, i: int, j: int, notes: seq<Note>, threshold: real)
    requires FirstPair(s, i, j, threshold)
    requires Covers(s, notes) && WidenedFrom(s, notes)
    ensures var t := MergePair(s, i, j);
      && Covers(t, notes) && WidenedFrom(t, notes)
      && MergeAll(t, threshold) == MergeAll(s, threshold)
  {
    FirstPairIs(s, i, j, threshold);
    var t := MergePair(s, i, j);
    if Duration(s[i]) >= Duration(s[j]) {
      AbsorbCoversAndWidens(s, i, j);
    } else {
      AbsorbCoversAndWidens(s, j, i);
    }
    CoversTransitive(t, s, notes);
    WidenedFromTransitive(t, s, notes);
  }

  /** The two nested `for` loops of one pass of mergeDifferentPitchNotes: they stop at the
      first pair of different-pitch notes that overlap or are nearly consecutive. */
  method FindMergeablePair(s: seq<Note>, mergeThreshold: real) returns (found: bool, i: int, j: int)
    ensures found ==> FirstPair(s, i, j, mergeThreshold)
    ensures !found ==> NoMergeablePair(s, mergeThreshold)
  {
    found := false;
    i := 0;
    j := 0;
    while i < |s|
      invariant 0 <= i <= |s|
      invariant forall a, b :: 0 <= a < i && a < b < |s| ==> !Mergeable(s[a], s[b], mergeThreshold)
    {
      j := i + 1;
      while j < |s|
        invariant i < j <= |s|
        invariant forall b :: i < b < j ==> !Mergeable(s[i], s[b], mergeThreshold)
      {
        if s[i].pitch != s[j].pitch {
          var overlap := s[i].startTime < s[j].endTime && s[j].startTime < s[i].endTime;
          var gap := s[j].startTime - s[i].endTime;
          var nearlyConsecutive := gap < mergeThreshold && gap >= 0.0;
          if overlap || nearlyConsecutive {
            found := true;
            return;
          }
        }
        j := j + 1;
      }
      i := i + 1;
    }
  }

  /** mergeDifferentPitchNotes: repeatedly scans the start-sorted list for the first pair
      (in index order) of different-pitch notes that overlap or are nearly consecutive,
      merges the shorter into the longer, and restarts the scan, until a scan finds no
      such pair. */
  method MergeDifferentPitchNotes(notes: seq<Note>, mergeThreshold: real) returns (mergedNotes: seq<Note>)
    ensures mergedNotes == MergeAll(Sort(ByStart, notes), mergeThreshold)
    ensures |mergedNotes| <= |notes|
    ensures NoMergeablePair(mergedNotes, mergeThreshold)
    ensures Covers(mergedNotes, notes)
    ensures WidenedFrom(mergedNotes, notes)
    ensures NoMergeablePair(Sort(ByStart, notes), mergeThreshold) ==> mergedNotes == Sort(ByStart, notes)
  {
    mergedNotes := Sort(ByStart, notes);
    PermutationCoversAndWidens(mergedNotes, notes);
    ghost var sorted := mergedNotes;
    var merged := true;
    while merged
      invariant |mergedNotes| <= |notes|
      invariant Covers(mergedNotes, notes) && WidenedFrom(mergedNotes, notes)
      invariant !merged ==> NoMergeablePair(mergedNotes, mergeThreshold)
      invariant MergeAll(mergedNotes, mergeThreshold) == MergeAll(sorted, mergeThreshold)
      decreases |mergedNotes| + (if merged then 1 else 0)
    {
      var i, j;
      merged, i, j := FindMergeablePair(mergedNotes, mergeThreshold);
      if merged {
        ghost var before := mergedNotes;
        MergeFound(before, i, j, notes, mergeThreshold);
        var durationI := mergedNotes[i].endTime - mergedNotes[i].startTime;
        var durationJ := mergedNotes[j].endTime - mergedNotes[j].startTime;
        if durationI >= durationJ {
          mergedNotes := mergedNotes[i := Hull(mergedNotes[i], mergedNotes[j])];
          mergedNotes := mergedNotes[..j] + mergedNotes[j + 1..];
        } else {
          mergedNotes := mergedNotes[j := Hull(mergedNotes[j], mergedNotes[i])];
          mergedNotes := mergedNotes[..i] + mergedNotes[i + 1..];
        }
        assert mergedNotes == MergePair(before, i, j);
      }
    }
    MergeAllNoOp(mergedNotes, mergeThreshold);
    if NoMergeablePair(sorted, mergeThreshold) {
      MergeAllNoOp(sorted, mergeThreshold);
    }
  }

  // ---------------------------------------------------------------------------
  // the duration filter of cleanNoteSequence
  // ---------------------------------------------------------------------------

  /** `notes.filter(note => note.endTime - note.startTime >= minDuration)`. */
  function FilterByDuration(notes: seq<Note>, minDuration: real): (kept: seq<Note>)
    ensures |kept| <= |notes|
    ensures multiset(kept) <= multiset(notes)
    ensures forall n :: n in kept <==> n in notes && Duration(n) >= minDuration
  {
    if notes == [] then []
    else
      var init, last := notes[..|notes| - 1], notes[|notes| - 1];
      assert notes == init + [last];
      FilterByDuration(init, minDuration) + (if Duration(last) >= minDuration then [last] else [])
  }

  /** The filter keeps every copy of a note that lasts long enough and no copy of one that
      does not. */
  lemma {:induction false} FilterByDurationCount(notes: seq<Note>, minDuration: real, n: Note)
    ensures multiset(FilterByDuration(notes, minDuration))[n] ==
            if Duration(n) >= minDuration then multiset(notes)[n] else 0
    decreases |notes|
  {
    if notes != [] {
      var init, last := notes[..|notes| - 1], notes[|notes| - 1];
      assert notes == init + [last];
      FilterByDurationCount(init, minDuration, n);
    }
  }

  /** The filter keeps the relative order of the notes: filtering a concatenation is the
      concatenation of the filtered parts. */
  lemma {:induction false} FilterByDurationAppend(a: seq<Note>, b: seq<Note>, minDuration: real)
    ensures FilterByDuration(a + b, minDuration) == FilterByDuration(a, minDuration) + FilterByDuration(b, minDuration)
    decreases |b|
  {
    if b == [] {
      assert a + b == a;
    } else {
      var init, last := b[..|b| - 1], b[|b| - 1];
      var tail := if Duration(last) >= minDuration then [last] else [];
      assert (a + b)[..|a + b| - 1] == a + init && (a + b)[|a + b| - 1] == last;
      calc {
        FilterByDuration(a + b, minDuration);
        FilterByDuration(a + init, minDuration) + tail;
        { FilterByDurationAppend(a, init, minDuration); }
        FilterByDuration(a, minDuration) + FilterByDuration(init, minDuration) + tail;
        FilterByDuration(a, minDuration) + (FilterByDuration(init, minDuration) + tail);
        FilterByDuration(a, minDuration) + FilterByDuration(b, minDuration);
      }
    }
  }

  // ---------------------------------------------------------------------------
  // quantizeNoteTimes
  // ---------------------------------------------------------------------------

  /** `Math.min(...notes.map(note => note.startTime))`. */
  function EarliestStart(notes: seq<Note>): (m: real)
    requires notes != []
    ensures forall n :: n in notes ==> m <= n.startTime
    ensures exists n :: n in notes && n.startTime == m
  {
    if |notes| == 1 then notes[0].startTime
    else
      var rest := EarliestStart(notes[1..]);
      assert forall n :: n in notes[1..] ==> n in notes;
      Min(notes[0].startTime, rest)
  }

  /** `n` moved earlier by `offset`, both ends. */
  function ShiftTimes(n: Note, offset: real): Note {
    n.(startTime := n.startTime - offset, endTime := n.endTime - offset)
  }

  /** Removes the initial silence: every note moves earlier by the earliest start time. */
  function RemoveSilence(notes: seq<Note>): (shifted: seq<Note>)
    requires notes != []
    ensures |shifted| == |notes|
    ensures forall k :: 0 <= k < |notes| ==>
              && SameExceptTimes(shifted[k], notes[k])
              && Duration(shifted[k]) == Duration(notes[k])
              && shifted[k].startTime >= 0.0
              && notes[k].startTime - shifted[k].startTime == notes[0].startTime - shifted[0].startTime
    ensures exists n :: n in shifted && n.startTime == 0.0
  {
    var m := EarliestStart(notes);
    var shifted := seq(|notes|, k requires 0 <= k < |notes| => ShiftTimes(notes[k], m));
    var w :| w in notes && w.startTime == m;
    var kw :| 0 <= kw < |notes| && notes[kw] == w;
    assert shifted[kw].startTime == 0.0;
    shifted
  }

  /** The notes in the order the quantization loop visits them: silence removed, then
      sorted by start time. */
  function QuantizeOrder(notes: seq<Note>): (sorted: seq<Note>)
    requires notes != []
    ensures |sorted| == |notes|
    ensures multiset(sorted) == multiset(RemoveSilence(notes))
    ensures SortedBy(ByStart, sorted)
  {
    Sort(ByStart, RemoveSilence(notes))
  }

  /** After silence removal the first visited note starts at time zero, and none earlier. */
  lemma QuantizeOrderStartsAtZero(notes: seq<Note>)
    requires notes != []
    ensures QuantizeOrder(notes)[0].startTime == 0.0
    ensures forall n :: n in QuantizeOrder(notes) ==> n.startTime >= 0.0
  {
    var shifted, sorted := RemoveSilence(notes), QuantizeOrder(notes);
    forall n | n in sorted ensures n.startTime >= 0.0 {
      assert n in multiset(shifted);
      var k :| 0 <= k < |shifted| && shifted[k] == n;
    }
    var z :| z in shifted && z.startTime == 0.0;
    assert z in multiset(sorted);
    var kz :| 0 <= kz < |sorted| && sorted[kz] == z;
    if kz > 0 {
      assert InOrder(ByStart, sorted[0], sorted[kz]);
    }
    assert sorted[0] in sorted;
  }

  /** The snapped start time of a note. */
  function SnapStart(n: Note, resolution: real): (t: real)
    requires resolution != 0.0
    ensures OnGrid(t, resolution)
  {
    Snap(n.startTime, resolution)
  }

  /** The snapped end time, pushed one grid unit past the snapped start when it would not
      lie after it. */
  function SnapEnd(n: Note, resolution: real): (t: real)
    requires resolution != 0.0
    ensures OnGrid(t, resolution)
    ensures resolution > 0.0 ==> t - SnapStart(n, resolution) >= resolution
  {
    var qStart, qEnd := SnapStart(n, resolution), Snap(n.endTime, resolution);
    if qEnd <= qStart then
      OnGridMultiple(1, resolution);
      OnGridAdd(qStart, resolution, resolution);
      qStart + resolution
    else
      GridPointsApartIfPositive(qStart, qEnd, resolution);
      qEnd
  }

  /** How far the quantization loop has moved `q` earlier than the snapped start of the
      note `source` it was made from: the cumulative shift in force for that note. */
  function ShiftOf(q: Note, source: Note, resolution: real): real
    requires resolution != 0.0
  {
    SnapStart(source, resolution) - q.startTime
  }

  /** `q` is `source` snapped to the grid (with the minimum-duration rule) and then moved
      earlier by a non-negative amount: its fields are `source`'s, both its times are on
      the grid, and its duration is the snapped duration. */
  ghost predicate SnappedCopy(q: Note, source: Note, resolution: real)
    requires resolution != 0.0
  {
    && SameExceptTimes(q, source)
    && OnGrid(q.startTime, resolution) && OnGrid(q.endTime, resolution)
    && Duration(q) == SnapEnd(source, resolution) - SnapStart(source, resolution)
    && ShiftOf(q, source, resolution) >= 0.0
  }

  /** How the quantized note `q` (made from `source`) follows the quantized note `prev`
      (made from `prevSource`): the cumulative shift never decreases; it grows only when the
      original gap is below one grid unit, and then only far enough to make `q` start
      where `prev` ends; a gap below one grid unit never survives quantization; and on a
      positive grid start times stay in order. */
  ghost predicate ContiguousStep(prev: Note, q: Note, prevSource: Note, source: Note, resolution: real)
    requires resolution != 0.0
  {
    var gap := source.startTime - prevSource.endTime;
    var before, after := ShiftOf(prev, prevSource, resolution), ShiftOf(q, source, resolution);
    && before <= after
    && (gap >= resolution ==> after == before)
    && (gap < resolution ==> q.startTime <= prev.endTime)
    && (after > before ==> q.startTime == prev.endTime)
    && (resolution > 0.0 ==> prev.startTime <= q.startTime)
  }

  lemma SnapZero(resolution: real)
    requires resolution != 0.0
    ensures Snap(0.0, resolution) == 0.0
  {
    assert 0.0 / resolution == 0.0;
  }

  /** A snapped note moved earlier by a non-negative grid multiple is a snapped copy. */
  lemma ShiftedSnapIsSnappedCopy(q: Note, source: Note, shift: real, resolution: real)
    requires resolution != 0.0
    requires OnGrid(shift, resolution) && shift >= 0.0
    requires SameExceptTimes(q, source)
    requires q.startTime == SnapStart(source, resolution) - shift
    requires q.endTime == SnapEnd(source, resolution) - shift
    ensures SnappedCopy(q, source, resolution)
    ensures ShiftOf(q, source, resolution) == shift
  {
    OnGridSub(SnapStart(source, resolution), shift, resolution);
    OnGridSub(SnapEnd(source, resolution), shift, resolution);
  }

  /** The facts the loop of QuantizeNoteTimes establishes about one step, assembled into
      ContiguousStep; on a positive grid the start times stay in order because snapping
      keeps order and every quantized note lasts at least one grid unit. */
  lemma ContiguousStepHolds(prev: Note, q: Note, prevSource: Note, source: Note,
                            before: real, after: real, resolution: real)
    requires resolution != 0.0
    requires SnappedCopy(prev, prevSource, resolution)
    requires ShiftOf(prev, prevSource, resolution) == before
    requires q.startTime == SnapStart(source, resolution) - after
    requires before <= after
    requires source.startTime - prevSource.endTime >= resolution ==> after == before
    requires source.startTime - prevSource.endTime < resolution ==> q.startTime <= prev.endTime
    requires after > before ==> q.startTime == prev.endTime
    requires prevSource.startTime <= source.startTime
    ensures ContiguousStep(prev, q, prevSource, source, resolution)
  {
    if resolution > 0.0 {
      SnapMonotonic(prevSource.startTime, source.startTime, resolution);
    }
  }

  /** Appending the next quantized note keeps the per-note and per-step facts of the
      prefix. */
  lemma AppendQuantized(q: seq<Note>, sorted: seq<Note>, next: Note, resolution: real)
    requires resolution != 0.0 && |q| < |sorted|
    requires forall k :: 0 <= k < |q| ==> SnappedCopy(q[k], sorted[k], resolution)
    requires forall k :: 0 < k < |q| ==>
               ContiguousStep(q[k - 1], q[k], sorted[k - 1], sorted[k], resolution)
    requires SnappedCopy(next, sorted[|q|], resolution)
    requires |q| > 0 ==> ContiguousStep(q[|q| - 1], next, sorted[|q| - 1], sorted[|q|], resolution)
    requires |q| > 0 ==> q[0].startTime == 0.0
    requires |q| == 0 ==> next.startTime == 0.0
    ensures var q' := q + [next];
      && (forall k :: 0 <= k < |q'| ==> SnappedCopy(q'[k], sorted[k], resolution))
      && (forall k :: 0 < k < |q'| ==>
            ContiguousStep(q'[k - 1], q'[k], sorted[k - 1], sorted[k], resolution))
      && q'[0].startTime == 0.0
      && q'[|q|] == next
  {
  }

  /** On a positive grid the chain of contiguous steps keeps every earlier quantized note
      starting no later than note `k`. */
  lemma {:induction false} QuantizedInOrderUpTo(q: seq<Note>, sorted: seq<Note>, resolution: real, k: int)
    requires resolution > 0.0 && |q| == |sorted| && 0 <= k < |q|
    requires forall j :: 0 < j < |q| ==> ContiguousStep(q[j - 1], q[j], sorted[j - 1], sorted[j], resolution)
    ensures forall j :: 0 <= j <= k ==> q[j].startTime <= q[k].startTime
  {
    if k > 0 {
      QuantizedInOrderUpTo(q, sorted, resolution, k - 1);
      assert ContiguousStep(q[k - 1], q[k], sorted[k - 1], sorted[k], resolution);
    }
  }

  /** On a positive grid the quantized notes come out sorted by start time. */
  lemma QuantizedSortedByStart(q: seq<Note>, sorted: seq<Note>, resolution: real)
    requires resolution > 0.0 && |q| == |sorted|
    requires forall j :: 0 < j < |q| ==> ContiguousStep(q[j - 1], q[j], sorted[j - 1], sorted[j], resolution)
    ensures SortedBy(ByStart, q)
  {
    forall j, k | 0 <= j < k < |q|
      ensures InOrder(ByStart, q[j], q[k])
    {
      QuantizedInOrderUpTo(q, sorted, resolution, k);
    }
  }

  /** The quantization loop of quantizeNoteTimes over the notes already shifted and sorted:
      snaps both times of each note to the grid (at least one grid unit long) and, where
      the gap to the previous note is below one grid unit, moves the note and all later
      ones earlier so that it starts where the previous one ends. */
  method QuantizeSorted(sortedNotes: seq<Note>, resolution: real) returns (quantizedNotes: seq<Note>)
    requires resolution != 0.0
    requires sortedNotes != [] ==> sortedNotes[0].startTime == 0.0
    requires forall k :: 0 < k < |sortedNotes| ==> sortedNotes[k - 1].startTime <= sortedNotes[k].startTime
    ensures |quantizedNotes| == |sortedNotes|
    ensures sortedNotes != [] ==> quantizedNotes[0].startTime == 0.0
    ensures forall k :: 0 <= k < |sortedNotes| ==> SnappedCopy(quantizedNotes[k], sortedNotes[k], resolution)
    ensures forall k :: 0 < k < |sortedNotes| ==>
              ContiguousStep(quantizedNotes[k - 1], quantizedNotes[k], sortedNotes[k - 1], sortedNotes[k], resolution)
  {
    quantizedNotes := [];
    var cumulativeShift := 0.0;
    OnGridZero(resolution);
    for i := 0 to |sortedNotes|
      invariant |quantizedNotes| == i
      invariant OnGrid(cumulativeShift, resolution) && cumulativeShift >= 0.0
      invariant i > 0 ==> ShiftOf(quantizedNotes[i - 1], sortedNotes[i - 1], resolution) == cumulativeShift
      invariant i == 0 ==> cumulativeShift == 0.0
      invariant i > 0 ==> quantizedNotes[0].startTime == 0.0
      invariant forall k :: 0 <= k < i ==> SnappedCopy(quantizedNotes[k], sortedNotes[k], resolution)
      invariant forall k :: 0 < k < i ==>
                  ContiguousStep(quantizedNotes[k - 1], quantizedNotes[k], sortedNotes[k - 1], sortedNotes[k], resolution)
    {
      var qStart := SnapStart(sortedNotes[i], resolution);
      var qEnd := Snap(sortedNotes[i].endTime, resolution);
      if qEnd <= qStart {
        qEnd := qStart + resolution;
      }
      ghost var snapStart, snapEnd, shiftBefore := qStart, qEnd, cumulativeShift;
      assert snapEnd == SnapEnd(sortedNotes[i], resolution);
      qStart := qStart - cumulativeShift;
      qEnd := qEnd - cumulativeShift;
      if i > 0 {
        var originalGap := sortedNotes[i].startTime - sortedNotes[i - 1].endTime;
        if originalGap < resolution {
          var desiredStart := quantizedNotes[i - 1].endTime;
          var shift := qStart - desiredStart;
          if shift > 0.0 {
            qStart := qStart - shift;
            qEnd := qEnd - shift;
            cumulativeShift := cumulativeShift + shift;
            OnGridShiftTo(snapStart, shiftBefore, desiredStart, cumulativeShift, resolution);
          }
        }
      }
      assert qStart == snapStart - cumulativeShift && qEnd == snapEnd - cumulativeShift;
      var quantized := sortedNotes[i].(startTime := qStart, endTime := qEnd);
      ShiftedSnapIsSnappedCopy(quantized, sortedNotes[i], cumulativeShift, resolution);
      if i == 0 {
        SnapZero(resolution);
      } else {
        ContiguousStepHolds(quantizedNotes[i - 1], quantized, sortedNotes[i - 1], sortedNotes[i],
                            shiftBefore, cumulativeShift, resolution);
      }
      AppendQuantized(quantizedNotes, sortedNotes, quantized, resolution);
      quantizedNotes := quantizedNotes + [quantized];
    }
  }

  /** quantizeNoteTimes: an empty list comes back as it is; otherwise the initial silence is
      removed, the notes are sorted by start time and quantized by QuantizeSorted. */
  method QuantizeNoteTimes(notes: seq<Note>, resolution: real) returns (quantizedNotes: seq<Note>)
    requires notes != [] ==> resolution != 0.0
    ensures notes == [] ==> quantizedNotes == []
    ensures |quantizedNotes| == |notes|
    ensures notes != [] ==>
      var sorted := QuantizeOrder(notes);
      && quantizedNotes[0].startTime == 0.0
      && (forall k :: 0 <= k < |notes| ==> SnappedCopy(quantizedNotes[k], sorted[k], resolution))
      && (forall k :: 0 < k < |notes| ==>
            ContiguousStep(quantizedNotes[k - 1], quantizedNotes[k], sorted[k - 1], sorted[k], resolution))
    ensures forall o :: o in quantizedNotes ==> exists n :: n in notes && SameExceptTimes(o, n)
    ensures forall o :: o in quantizedNotes ==>
              OnGrid(o.startTime, resolution) && OnGrid(o.endTime, resolution)
    ensures resolution > 0.0 ==> forall o :: o in quantizedNotes ==> Duration(o) >= resolution
    ensures resolution > 0.0 ==> SortedBy(ByStart, quantizedNotes)
  {
    if |notes| == 0 {
      return notes;
    }
    var sortedNotes := QuantizeOrder(notes);
    QuantizeOrderStartsAtZero(notes);
    assert forall k :: 0 < k < |sortedNotes| ==> InOrder(ByStart, sortedNotes[k - 1], sortedNotes[k]);
    quantizedNotes := QuantizeSorted(sortedNotes, resolution);
    if resolution > 0.0 {
      QuantizedSortedByStart(quantizedNotes, sortedNotes, resolution);
    }
    QuantizeOrderFrom(notes);
    forall o | o in quantizedNotes
      ensures exists n :: n in notes && SameExceptTimes(o, n)
      ensures OnGrid(o.startTime, resolution) && OnGrid(o.endTime, resolution)
      ensures resolution > 0.0 ==> Duration(o) >= resolution
    {
      var k :| 0 <= k < |quantizedNotes| && quantizedNotes[k] == o;
      assert SnappedCopy(o, sortedNotes[k], resolution);
      assert sortedNotes[k] in sortedNotes;
    }
  }

  /** Every note the quantization loop visits is an input note moved in time, with its
      duration and every other field kept. */
  lemma {:induction false} QuantizeOrderFrom(notes: seq<Note>)
    requires notes != []
    ensures forall n :: n in QuantizeOrder(notes) ==>
              exists m :: m in notes && SameExceptTimes(n, m) && Duration(n) == Duration(m)
  {
    var shifted := RemoveSilence(notes);
    forall n | n in QuantizeOrder(notes)
      ensures exists m :: m in notes && SameExceptTimes(n, m) && Duration(n) == Duration(m)
    {
      assert n in multiset(shifted);
      var k :| 0 <= k < |shifted| && shifted[k] == n;
      assert notes[k] in notes;
    }
  }

  // ---------------------------------------------------------------------------
  // cleanNoteSequence
  // ---------------------------------------------------------------------------

  /** Chains the provenance guarantees of the four stages: a quantized note carries the
      fields of a kept note, which widens a same-pitch-merged note, which extends an
      input note. */
  lemma CleanedFrom(quantized: seq<Note>, cleaned: seq<Note>, allMerged: seq<Note>,
                    samePitchMerged: seq<Note>, notes: seq<Note>)
    requires forall o :: o in quantized ==> exists n :: n in cleaned && SameExceptTimes(o, n)
    requires forall n :: n in cleaned ==> n in allMerged
    requires WidenedFrom(allMerged, samePitchMerged)
    requires ExtendedFrom(samePitchMerged, notes)
    ensures forall o :: o in quantized ==> exists n :: n in notes && SameExceptTimes(o, n)
  {
    forall o | o in quantized
      ensures exists n :: n in notes && SameExceptTimes(o, n)
    {
      var c :| c in cleaned && SameExceptTimes(o, c);
      var d :| d in samePitchMerged && Widens(c, d);
      var n :| n in notes && ExtendsEnd(d, n);
    }
  }

  /** cleanNoteSequence: same-pitch merging, then cross-pitch merging, then the duration
      filter, then quantization; the sequence-level fields are kept. The ghost results
      `samePitchMerged` and `cleaned` are the outputs of the first stage and of the filter. */
  method CleanNoteSequence(ns: NoteSequence, minNoteDuration: real, mergeThreshold: real,
                           quantizeResolution: real)
    returns (r: NoteSequence, ghost samePitchMerged: seq<Note>, ghost cleaned: seq<Note>)
    requires ns.notes != [] ==> quantizeResolution != 0.0
    ensures forall p :: WithPitch(samePitchMerged, p) == MergedPitch(ns.notes, p, mergeThreshold)
    ensures GroupedAndSeparated(samePitchMerged, mergeThreshold)
    ensures cleaned == FilterByDuration(MergeAll(Sort(ByStart, samePitchMerged), mergeThreshold), minNoteDuration)
    ensures forall n :: n in cleaned ==> Duration(n) >= minNoteDuration
    ensures r == ns.(notes := r.notes)
    ensures |r.notes| == |cleaned| <= |ns.notes|
    ensures cleaned != [] ==>
      var sorted := QuantizeOrder(cleaned);
      && r.notes[0].startTime == 0.0
      && (forall k :: 0 <= k < |cleaned| ==> SnappedCopy(r.notes[k], sorted[k], quantizeResolution))
      && (forall k :: 0 < k < |cleaned| ==>
            ContiguousStep(r.notes[k - 1], r.notes[k], sorted[k - 1], sorted[k], quantizeResolution))
    ensures forall o :: o in r.notes ==> exists n :: n in ns.notes && SameExceptTimes(o, n)
    ensures r.notes != [] ==> forall o :: o in r.notes ==>
              OnGrid(o.startTime, quantizeResolution) && OnGrid(o.endTime, quantizeResolution)
    ensures quantizeResolution > 0.0 ==> forall o :: o in r.notes ==> Duration(o) >= quantizeResolution
    ensures quantizeResolution > 0.0 ==> SortedBy(ByStart, r.notes)
  {
    var samePitch := MergeSamePitchNotes(ns.notes, mergeThreshold);
    var allMerged := MergeDifferentPitchNotes(samePitch, mergeThreshold);
    var cleanedNotes := FilterByDuration(allMerged, minNoteDuration);
    assert ns.notes == [] ==> cleanedNotes == [];
    var quantized := QuantizeNoteTimes(cleanedNotes, quantizeResolution);
    CleanedFrom(quantized, cleanedNotes, allMerged, samePitch, ns.notes);
    samePitchMerged, cleaned := samePitch, cleanedNotes;
    r := ns.(notes := quantized);
  }
}
