/** The ordering the source obtains from Array.prototype.sort with its two comparators,
    modelled as a stable insertion sort on values. */
module Sorting {
  import opened Notes

  /** The comparators passed to `sort`: `a.startTime - b.startTime`, and
      "pitch first, then startTime". */
  datatype SortKey = ByStart | ByPitchThenStart

  /** `a` may precede `b` under `key` (the comparator does not return a positive number). */
  predicate InOrder(key: SortKey, a: Note, b: Note) {
    match key
    case ByStart => a.startTime <= b.startTime
    case ByPitchThenStart =>
      a.pitch < b.pitch || (a.pitch == b.pitch && a.startTime <= b.startTime)
  }

  ghost predicate SortedBy(key: SortKey, s: seq<Note>) {
    forall i, j :: 0 <= i < j < |s| ==> InOrder(key, s[i], s[j])
  }

  /** Inserts `n` after every element of the sorted `s` that may precede it. */
  function Insert(key: SortKey, s: seq<Note>, n: Note): (r: seq<Note>)
    requires SortedBy(key, s)
    ensures SortedBy(key, r)
    ensures multiset(r) == multiset(s) + multiset{n}
    decreases |s|
  {
    if s == [] then [n]
    else if InOrder(key, s[|s| - 1], n) then s + [n]
    else
      var init, last := s[..|s| - 1], s[|s| - 1];
      var r' := Insert(key, init, n);
      InsertBeforeLast(key, s, n, r');
      r' + [last]
  }

  /** The step of Insert that puts the last element of `s` after the recursive result. */
  lemma {:induction false} InsertBeforeLast(key: SortKey, s: seq<Note>, n: Note, r': seq<Note>)
    requires s != [] && SortedBy(key, s) && !InOrder(key, s[|s| - 1], n)
    requires SortedBy(key, r') && multiset(r') == multiset(s[..|s| - 1]) + multiset{n}
    ensures SortedBy(key, r' + [s[|s| - 1]])
    ensures multiset(r' + [s[|s| - 1]]) == multiset(s) + multiset{n}
  {
    var init, last := s[..|s| - 1], s[|s| - 1];
    assert s == init + [last];
    forall i | 0 <= i < |r'| ensures InOrder(key, r'[i], last) {
      assert r'[i] in multiset(r');
      if r'[i] != n {
        assert r'[i] in multiset(init);
        var k :| 0 <= k < |init| && init[k] == r'[i];
        assert s[k] == init[k];
      }
    }
  }

  /** Sorts `s` by `key`; notes that compare equal keep their input order. */
  function Sort(key: SortKey, s: seq<Note>): (r: seq<Note>)
    ensures SortedBy(key, r)
    ensures multiset(r) == multiset(s)
    ensures |r| == |s|
  {
    if s == [] then []
    else
      assert s == s[..|s| - 1] + [s[|s| - 1]];
      var r := Insert(key, Sort(key, s[..|s| - 1]), s[|s| - 1]);
      assert |multiset(r)| == |r|;
      r
  }

  /** A note that may follow every element of the sorted `s` is appended at the end: it is
      not moved ahead of an element it compares equal to. */
  lemma InsertSorted(key: SortKey, s: seq<Note>, n: Note)
    requires SortedBy(key, s) && SortedBy(key, s + [n])
    ensures Insert(key, s, n) == s + [n]
  {
    if s != [] {
      assert (s + [n])[|s| - 1] == s[|s| - 1] && (s + [n])[|s|] == n;
    }
  }

  /** Stability on sorted input: a list already in order, including any run of notes that
      compare equal, is returned as it is. */
  lemma {:induction false} SortOfSorted(key: SortKey, s: seq<Note>)
    requires SortedBy(key, s)
    ensures Sort(key, s) == s
    decreases |s|
  {
    if s != [] {
      var init, last := s[..|s| - 1], s[|s| - 1];
      assert s == init + [last];
      assert SortedBy(key, init);
      SortOfSorted(key, init);
      InsertSorted(key, init, last);
    }
  }
}
