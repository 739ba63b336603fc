/** The data model shared by both cleaners: a timed, pitched note and a note sequence. */
module Notes {

  /** One note. Times are seconds, taken as exact reals. The optional fields of the
      original interface (velocity, instrument, program, isDrum) are carried as plain
      values; no stage reads them, every stage passes them through. */
  datatype Note = Note(
    pitch: int,
    startTime: real,
    endTime: real,
    velocity: int,
    instrument: int,
    program: int,
    isDrum: bool)

  datatype Tempo = Tempo(time: real, qpm: real)

  /** A note sequence: the notes plus sequence-level metadata that every cleaner passes
      through unchanged. */
  datatype NoteSequence = NoteSequence(
    notes: seq<Note>,
    totalTime: real,
    ticksPerQuarter: int,
    tempos: seq<Tempo>)

  function Duration(n: Note): real {
    n.endTime - n.startTime
  }

  function Min(a: real, b: real): (m: real)
    ensures m <= a && m <= b && (m == a || m == b)
  {
    if a <= b then a else b
  }

  function Max(a: real, b: real): (m: real)
    ensures m >= a && m >= b && (m == a || m == b)
  {
    if a >= b then a else b
  }

  /** The interval of `outer` contains the interval of `inner`. */
  predicate Spans(outer: Note, inner: Note) {
    outer.startTime <= inner.startTime && inner.endTime <= outer.endTime
  }

  /** `a` and `b` agree on every field except the two times. */
  predicate SameExceptTimes(a: Note, b: Note) {
    && a.pitch == b.pitch
    && a.velocity == b.velocity
    && a.instrument == b.instrument
    && a.program == b.program
    && a.isDrum == b.isDrum
  }

  /** `o` is `n` with only its end time moved, and moved later (never earlier). */
  predicate ExtendsEnd(o: Note, n: Note) {
    SameExceptTimes(o, n) && o.startTime == n.startTime && o.endTime >= n.endTime
  }

  /** `o` is `n` re-timed so that it still spans `n`'s interval. */
  predicate Widens(o: Note, n: Note) {
    SameExceptTimes(o, n) && Spans(o, n)
  }

  /** `n` is a note of `s`. The covering predicates below quantify over `Listed` rather
      than over plain membership, so that a proof uses them only for the notes it names
      and they never chain with the predicates that go the other way. */
  ghost predicate Listed(n: Note, s: seq<Note>) {
    n in s
  }

  /** Every note of `inner` lies inside some note of `outer`. */
  ghost predicate Covers(outer: seq<Note>, inner: seq<Note>) {
    forall n {:trigger Listed(n, inner)} :: Listed(n, inner) ==> exists o :: o in outer && Spans(o, n)
  }

  /** Every note of `outer` is a re-timed, widened copy of some note of `inner`. */
  ghost predicate WidenedFrom(outer: seq<Note>, inner: seq<Note>) {
    forall o :: o in outer ==> exists n :: n in inner && Widens(o, n)
  }

  /** Every note of `outer` is a copy of some note of `inner` with a later (or equal) end time. */
  ghost predicate ExtendedFrom(outer: seq<Note>, inner: seq<Note>) {
    forall o :: o in outer ==> exists n :: n in inner && ExtendsEnd(o, n)
  }

  lemma ExtendedFromAppend(a: seq<Note>, b: seq<Note>, c: seq<Note>)
    requires ExtendedFrom(a, c) && ExtendedFrom(b, c)
    ensures ExtendedFrom(a + b, c)
  {
    assert forall o :: o in a + b ==> o in a || o in b;
  }

  lemma {:induction false} CoversTransitive(a: seq<Note>, b: seq<Note>, c: seq<Note>)
    requires Covers(a, b) && Covers(b, c)
    ensures Covers(a, c)
  {
    forall n | Listed(n, c)
      ensures exists o :: o in a && Spans(o, n)
    {
      var nb :| nb in b && Spans(nb, n);
      assert Listed(nb, b);
      var na :| na in a && Spans(na, nb);
      assert Spans(na, n);
    }
  }

  lemma {:induction false} WidenedFromTransitive(a: seq<Note>, b: seq<Note>, c: seq<Note>)
    requires WidenedFrom(a, b) && WidenedFrom(b, c)
    ensures WidenedFrom(a, c)
  {
    forall o | o in a
      ensures exists n :: n in c && Widens(o, n)
    {
      var nb :| nb in b && Widens(o, nb);
      var nc :| nc in c && Widens(nb, nc);
      assert Widens(o, nc);
    }
  }

  /** A reordering loses no note and changes none: it covers, and is widened from, its input. */
  lemma {:induction false} PermutationCoversAndWidens(a: seq<Note>, b: seq<Note>)
    requires multiset(a) == multiset(b)
    ensures Covers(a, b) && WidenedFrom(a, b)
  {
    forall n | n in b
      ensures exists o :: o in a && Spans(o, n)
    {
      assert n in multiset(b);
      assert Spans(n, n);
    }
    forall o | o in a
      ensures exists n :: n in b && Widens(o, n)
    {
      assert o in multiset(a);
      assert Widens(o, o);
    }
  }
}
