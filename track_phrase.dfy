/** `TrackPhrase`: the notes of one pattern of one tone in the track sequencer, kept as
    an ordered list, with the length and view position of the phrase and the beat and
    measure counters the song playhead drives. */
module TrackPhrases {
  import opened Wrappers

  /** A note of the phrase: start and end are beats. */
  datatype PhraseNote = PhraseNote(pitch: int, start: real, end: real, velocity: real, flags: int)

  /** The kinds of `OnTrackPhraseChange` the modelled operations post. */
  datatype PhraseChangeKind = Length | NoteAdd | NoteRemove | ClearMeasure | Position

  /** An `OnTrackPhraseChange`: its kind and the note it concerns, if any. */
  datatype PhraseChange = PhraseChange(kind: PhraseChangeKind, note: Option<PhraseNote>)

  function Abs(x: int): (r: nat)
    ensures r == x || r == -x
  {
    if x < 0 then -x else x
  }

  /** Java's `/` on `int`: the quotient truncated toward zero. */
  function JavaDiv(a: int, b: int): int
    requires b != 0
  {
    if (a < 0) == (b < 0) then Abs(a) / Abs(b) else -(Abs(a) / Abs(b))
  }

  /** Java's `%` on `int`: the remainder takes the sign of the dividend and is smaller
      than the divisor. */
  function JavaRem(a: int, b: int): (r: int)
    requires b != 0
    ensures r == 0 || (r > 0) == (a > 0)
    ensures Abs(r) < Abs(b)
  {
    var x: int, y: int := Abs(a), Abs(b);
    var m := x % y;
    assert 0 <= m < y && (x == 0 ==> m == 0);
    if a >= 0 then m else -m
  }

  /** The quotient is the quotient of the magnitudes, positive when the signs agree and
      negative when they differ. */
  lemma QuotientTruncates(a: int, b: int)
    requires b != 0
    ensures Abs(JavaDiv(a, b)) == Abs(a) / Abs(b)
    ensures JavaDiv(a, b) == 0 || (JavaDiv(a, b) > 0 <==> (a < 0) == (b < 0))
  {
    var x: int, y: int := Abs(a), Abs(b);
    assert x / y >= 0;
  }

  lemma NegatedProducts(x: int, y: int)
    ensures (-x) * y == -(x * y) && x * (-y) == -(x * y)
  {
  }

  /** Java's division identity: `(a / b) * b + a % b == a`. */
  lemma DivisionIdentity(a: int, b: int)
    requires b != 0
    ensures a == b * JavaDiv(a, b) + JavaRem(a, b)
  {
    var x: int, y: int := Abs(a), Abs(b);
    var m := x / y;
    assert x == y * m + x % y;
    NegatedProducts(y, m);
    if a >= 0 && b > 0 {
      assert b * JavaDiv(a, b) == y * m;
    } else if a >= 0 {
      assert b * JavaDiv(a, b) == (-y) * (-m);
    } else if b > 0 {
      assert b * JavaDiv(a, b) == y * (-m);
    } else {
      assert b * JavaDiv(a, b) == (-y) * m;
    }
  }

  /** A non-zero multiple of `b` is at least `b` in size. */
  lemma {:induction false} MultipleAtLeast(b: int, d: int)
    requires b > 0 && d >= 1
    ensures b * d >= b
    decreases d
  {
    if d > 1 {
      MultipleAtLeast(b, d - 1);
      assert b * d == b * (d - 1) + b;
    }
  }

  /** Dafny's `%` is the one remainder in `0..|b|-1` that a multiple of `b` leaves. */
  lemma EuclideanRemainder(a: int, b: int, k: int, r: int)
    requires b != 0 && a == b * k + r && 0 <= r < Abs(b)
    ensures a % b == r
  {
    var q := a / b;
    var d := q - k;
    assert b * q + a % b == b * k + r;
    assert b * d == b * q - b * k;
    assert b * d == r - a % b;
    if d != 0 {
      NegatedProducts(b, d);
      NegatedProducts(-b, d);
      if b > 0 && d > 0 {
        MultipleAtLeast(b, d);
      } else if b > 0 {
        MultipleAtLeast(b, -d);
      } else if d > 0 {
        MultipleAtLeast(-b, d);
      } else {
        MultipleAtLeast(-b, -d);
      }
      assert false;
    }
  }

  /** Java's `%` against Dafny's Euclidean `%`: the two agree for a non-negative
      dividend; for a negative one Java's result is Dafny's shifted down by the size
      of the divisor, unless the divisor divides the dividend. Java's `%` is thus the
      remainder of the magnitudes, with the dividend's sign. */
  lemma TruncatedRemainder(a: int, b: int)
    requires b != 0
    ensures a >= 0 ==> JavaRem(a, b) == a % b
    ensures a < 0 ==> JavaRem(a, b) == if a % b == 0 then 0 else a % b - Abs(b)
    ensures JavaRem(a, b) == if a >= 0 then Abs(a) % Abs(b) else -(Abs(a) % Abs(b))
  {
    var q, r := JavaDiv(a, b), JavaRem(a, b);
    DivisionIdentity(a, b);
    if a >= 0 || r == 0 {
      EuclideanRemainder(a, b, q, r);
    } else {
      var j := if b > 0 then q - 1 else q + 1;
      assert b * j == b * q - Abs(b);
      EuclideanRemainder(a, b, j, r + Abs(b));
    }
  }

  /** What truncating division leaves over is zero or has the dividend's sign, and is
      smaller than the divisor. */
  lemma JavaDivRemainder(a: int, b: int)
    requires b != 0
    ensures var r := a - b * JavaDiv(a, b); (r == 0 || (r > 0) == (a > 0)) && Abs(r) < Abs(b)
  {
    DivisionIdentity(a, b);
  }

  /** The four sign combinations, as Java computes them. */
  lemma JavaDivSigns()
    ensures JavaDiv(5, 4) == 1 && JavaDiv(-5, 4) == -1 && JavaDiv(5, -4) == -1 && JavaDiv(-5, -4) == 1
    ensures JavaRem(5, 4) == 1 && JavaRem(-5, 4) == -1 && JavaRem(5, -4) == 1 && JavaRem(-5, -4) == -1
  {
  }

  /** The note starts in measure `measure` (four beats to a measure). */
  predicate InMeasure(note: PhraseNote, measure: int) {
    var beat := note.start.Floor;
    measure * 4 <= beat < measure * 4 + 4
  }

  /** The notes of `notes` in measure `measure`, in list order. */
  function NotesIn(notes: seq<PhraseNote>, measure: int): (r: seq<PhraseNote>)
    ensures |r| <= |notes|
  {
    if notes == [] then []
    else (if InMeasure(notes[0], measure) then [notes[0]] else []) + NotesIn(notes[1..], measure)
  }

  /** Every note `NotesIn` keeps lies in the measure and comes from the list. */
  lemma {:induction false} NotesInSelects(notes: seq<PhraseNote>, measure: int)
    ensures forall i :: 0 <= i < |NotesIn(notes, measure)| ==>
      InMeasure(NotesIn(notes, measure)[i], measure) && NotesIn(notes, measure)[i] in notes
  {
    if notes != [] {
      NotesInSelects(notes[1..], measure);
      var r := NotesIn(notes, measure);
      var head := if InMeasure(notes[0], measure) then [notes[0]] else [];
      forall i | 0 <= i < |r|
        ensures InMeasure(r[i], measure) && r[i] in notes
      {
        if i >= |head| {
          assert r[i] == NotesIn(notes[1..], measure)[i - |head|];
        }
      }
    }
  }

  /** The notes of `notes` outside measure `measure`, in list order. */
  function NotesOutside(notes: seq<PhraseNote>, measure: int): (r: seq<PhraseNote>)
    ensures |r| <= |notes|
  {
    if notes == [] then []
    else (if InMeasure(notes[0], measure) then [] else [notes[0]]) + NotesOutside(notes[1..], measure)
  }

  /** Every note `NotesOutside` keeps lies outside the measure and comes from the list. */
  lemma {:induction false} NotesOutsideSelects(notes: seq<PhraseNote>, measure: int)
    ensures forall i :: 0 <= i < |NotesOutside(notes, measure)| ==>
      !InMeasure(NotesOutside(notes, measure)[i], measure) && NotesOutside(notes, measure)[i] in notes
  {
    if notes != [] {
      NotesOutsideSelects(notes[1..], measure);
      var r := NotesOutside(notes, measure);
      var head := if InMeasure(notes[0], measure) then [] else [notes[0]];
      forall i | 0 <= i < |r|
        ensures !InMeasure(r[i], measure) && r[i] in notes
      {
        if i >= |head| {
          assert r[i] == NotesOutside(notes[1..], measure)[i - |head|];
        }
      }
    }
  }

  predicate Matches(note: PhraseNote, pitch: int, start: real) {
    note.pitch == pitch && note.start == start
  }

  /** The list with its first note of that pitch and start removed, if it has one. */
  function RemoveFirst(notes: seq<PhraseNote>, pitch: int, start: real): (r: seq<PhraseNote>)
    ensures |r| == if FirstMatching(notes, pitch, start).Some? then |notes| - 1 else |notes|
  {
    if notes == [] then []
    else if Matches(notes[0], pitch, start) then notes[1..]
    else [notes[0]] + RemoveFirst(notes[1..], pitch, start)
  }

  /** The first note of the list with that pitch and start, if it has one. */
  function FirstMatching(notes: seq<PhraseNote>, pitch: int, start: real): Option<PhraseNote> {
    if notes == [] then None
    else if Matches(notes[0], pitch, start) then Some(notes[0])
    else FirstMatching(notes[1..], pitch, start)
  }

  /** The events a `clear` posts for removing `list`, one per note, in order. */
  function Removals(list: seq<PhraseNote>): (r: seq<PhraseChange>)
    ensures |r| == |list|
    ensures forall i :: 0 <= i < |list| ==> r[i] == PhraseChange(NoteRemove, Some(list[i]))
  {
    seq(|list|, i requires 0 <= i < |list| => PhraseChange(NoteRemove, Some(list[i])))
  }

  /** Removing one more note of the list posts one more event, for that note. */
  lemma RemovalsStep(list: seq<PhraseNote>, k: nat)
    requires k < |list|
    ensures Removals(list[..k + 1]) == Removals(list[..k]) + [PhraseChange(NoteRemove, Some(list[k]))]
  {
  }

  /** The list with its first `k` notes in measure `measure` removed. */
  function DropFirstIn(notes: seq<PhraseNote>, measure: int, k: nat): seq<PhraseNote> {
    if k == 0 || notes == [] then notes
    else if InMeasure(notes[0], measure) then DropFirstIn(notes[1..], measure, k - 1)
    else [notes[0]] + DropFirstIn(notes[1..], measure, k)
  }

  lemma {:induction false} NotesInAppend(a: seq<PhraseNote>, b: seq<PhraseNote>, measure: int)
    ensures NotesIn(a + b, measure) == NotesIn(a, measure) + NotesIn(b, measure)
    decreases |a|
  {
    if a != [] {
      assert (a + b)[1..] == a[1..] + b;
      NotesInAppend(a[1..], b, measure);
    } else {
      assert a + b == b;
    }
  }

  /** Removing a note by its pitch and start changes nothing when no note has them. */
  lemma {:induction false} RemoveFirstNone(notes: seq<PhraseNote>, pitch: int, start: real)
    requires forall j :: 0 <= j < |notes| ==> !Matches(notes[j], pitch, start)
    ensures RemoveFirst(notes, pitch, start) == notes
    ensures FirstMatching(notes, pitch, start) == None
    decreases |notes|
  {
    if notes != [] {
      assert forall j :: 0 <= j < |notes[1..]| ==> notes[1..][j] == notes[j + 1];
      RemoveFirstNone(notes[1..], pitch, start);
      assert notes == [notes[0]] + notes[1..];
    }
  }

  /** Otherwise it removes exactly one note, the first that has them. */
  lemma {:induction false} RemoveFirstAt(notes: seq<PhraseNote>, pitch: int, start: real, i: int)
    requires 0 <= i < |notes| && Matches(notes[i], pitch, start)
    requires forall j :: 0 <= j < i ==> !Matches(notes[j], pitch, start)
    ensures RemoveFirst(notes, pitch, start) == notes[..i] + notes[i + 1..]
    decreases i
  {
    if i == 0 {
      assert notes[..0] + notes[1..] == notes[1..];
    } else {
      var tail := notes[1..];
      assert tail[i - 1] == notes[i];
      forall j | 0 <= j < i - 1
        ensures !Matches(tail[j], pitch, start)
      {
        assert tail[j] == notes[j + 1];
      }
      RemoveFirstAt(tail, pitch, start, i - 1);
      assert !Matches(notes[0], pitch, start);
      calc {
        RemoveFirst(notes, pitch, start);
        [notes[0]] + RemoveFirst(tail, pitch, start);
        [notes[0]] + (tail[..i - 1] + tail[i..]);
        { assert [notes[0]] + tail[..i - 1] == notes[..i]; assert tail[i..] == notes[i + 1..]; }
        notes[..i] + notes[i + 1..];
      }
    }
  }

  /** The first match at index `i` is the note `FirstMatching` finds. */
  lemma {:induction false} FirstMatchingAt(notes: seq<PhraseNote>, pitch: int, start: real, i: int)
    requires 0 <= i < |notes| && Matches(notes[i], pitch, start)
    requires forall j :: 0 <= j < i ==> !Matches(notes[j], pitch, start)
    ensures FirstMatching(notes, pitch, start) == Some(notes[i])
    decreases i
  {
    if i > 0 {
      assert notes[1..][i - 1] == notes[i];
      assert forall j :: 0 <= j < i - 1 ==> notes[1..][j] == notes[j + 1];
      FirstMatchingAt(notes[1..], pitch, start, i - 1);
    }
  }

  /** Removing the first match never adds a note: what is left is part of the list. */
  lemma {:induction false} RemoveFirstShrinks(notes: seq<PhraseNote>, pitch: int, start: real)
    ensures multiset(RemoveFirst(notes, pitch, start)) <= multiset(notes)
    decreases |notes|
  {
    if notes != [] {
      RemoveFirstShrinks(notes[1..], pitch, start);
      assert notes == [notes[0]] + notes[1..];
    }
  }

  /** One step of `clear(measure)`: with the first `k` notes of the measure gone,
      removing the note that matches the `k`-th note of the measure removes that very
      note, because no note outside the measure shares its start and no earlier note of
      the measure is left. */
  lemma DropStep(notes: seq<PhraseNote>, measure: int, k: nat)
    requires k < |NotesIn(notes, measure)|
    ensures RemoveFirst(DropFirstIn(notes, measure, k), NotesIn(notes, measure)[k].pitch, NotesIn(notes, measure)[k].start)
      == DropFirstIn(notes, measure, k + 1)
  {
    DropsEach(notes, measure, k);
  }

  lemma {:induction false} DropsEach(notes: seq<PhraseNote>, measure: int, k: nat)
    requires k < |NotesIn(notes, measure)|
    ensures DropsNext(notes, measure, k)
    decreases |notes|
  {
    if InMeasure(notes[0], measure) {
      if k == 0 {
        DropsFirstInMeasure(notes, measure);
      } else {
        assert NotesIn(notes, measure) == [notes[0]] + NotesIn(notes[1..], measure);
        DropsEach(notes[1..], measure, k - 1);
        DropsPastInMeasure(notes, measure, k);
      }
    } else {
      assert NotesIn(notes, measure) == NotesIn(notes[1..], measure);
      DropsEach(notes[1..], measure, k);
      DropsPastOutside(notes, measure, k);
    }
  }

  /** Removing the `k`-th note of the measure from the list with the first `k`
      removed removes the first `k + 1`. */
  predicate DropsNext(notes: seq<PhraseNote>, measure: int, k: nat) {
    k < |NotesIn(notes, measure)| &&
    RemoveFirst(DropFirstIn(notes, measure, k), NotesIn(notes, measure)[k].pitch, NotesIn(notes, measure)[k].start)
      == DropFirstIn(notes, measure, k + 1)
  }

  lemma DropsFirstInMeasure(notes: seq<PhraseNote>, measure: int)
    requires notes != [] && InMeasure(notes[0], measure)
    ensures DropsNext(notes, measure, 0)
  {
    assert NotesIn(notes, measure)[0] == notes[0];
    assert DropFirstIn(notes[1..], measure, 0) == notes[1..];
  }

  lemma DropsPastInMeasure(notes: seq<PhraseNote>, measure: int, k: nat)
    requires notes != [] && InMeasure(notes[0], measure) && 0 < k
    requires DropsNext(notes[1..], measure, k - 1)
    ensures DropsNext(notes, measure, k)
  {
    assert NotesIn(notes, measure) == [notes[0]] + NotesIn(notes[1..], measure);
  }

  lemma DropsPastOutside(notes: seq<PhraseNote>, measure: int, k: nat)
    requires notes != [] && !InMeasure(notes[0], measure)
    requires DropsNext(notes[1..], measure, k)
    ensures DropsNext(notes, measure, k)
  {
    var n := NotesIn(notes[1..], measure)[k];
    assert NotesIn(notes, measure) == NotesIn(notes[1..], measure);
    NotesInSelects(notes[1..], measure);
    assert !Matches(notes[0], n.pitch, n.start);
    var kept := DropFirstIn(notes[1..], measure, k);
    assert DropFirstIn(notes, measure, k) == [notes[0]] + kept by {
      if k == 0 {
        assert kept == notes[1..];
      }
    }
    assert ([notes[0]] + kept)[1..] == kept;
  }

  /** With the first `k` notes of the measure dropped, the first note matching the
      `k`-th note of the measure is that note itself: it is the note `clear` removes. */
  lemma {:induction false} DropFindsNext(notes: seq<PhraseNote>, measure: int, k: nat)
    requires k < |NotesIn(notes, measure)|
    ensures FirstMatching(DropFirstIn(notes, measure, k), NotesIn(notes, measure)[k].pitch, NotesIn(notes, measure)[k].start)
      == Some(NotesIn(notes, measure)[k])
    decreases |notes|
  {
    var rest := notes[1..];
    if InMeasure(notes[0], measure) {
      assert NotesIn(notes, measure) == [notes[0]] + NotesIn(rest, measure);
      if k > 0 {
        DropFindsNext(rest, measure, k - 1);
      }
    } else {
      assert NotesIn(notes, measure) == NotesIn(rest, measure);
      var n := NotesIn(rest, measure)[k];
      NotesInSelects(rest, measure);
      assert !Matches(notes[0], n.pitch, n.start);
      DropFindsNext(rest, measure, k);
      var kept := DropFirstIn(rest, measure, k);
      assert DropFirstIn(notes, measure, k) == [notes[0]] + kept by {
        if k == 0 {
          assert kept == rest;
        }
      }
      assert ([notes[0]] + kept)[1..] == kept;
    }
  }

  /** Dropping every note of the measure leaves the notes outside it. */
  lemma {:induction false} DropAll(notes: seq<PhraseNote>, measure: int)
    ensures DropFirstIn(notes, measure, |NotesIn(notes, measure)|) == NotesOutside(notes, measure)
    decreases |notes|
  {
    if notes != [] {
      var rest := notes[1..];
      DropAll(rest, measure);
      var n := |NotesIn(rest, measure)|;
      if InMeasure(notes[0], measure) {
        assert NotesIn(notes, measure) == [notes[0]] + NotesIn(rest, measure);
        assert DropFirstIn(notes, measure, n + 1) == DropFirstIn(rest, measure, n);
      } else {
        assert NotesIn(notes, measure) == NotesIn(rest, measure);
        if n == 0 {
          assert DropFirstIn(rest, measure, 0) == rest;
          NoneInMeasure(rest, measure);
        } else {
          assert DropFirstIn(notes, measure, n) == [notes[0]] + DropFirstIn(rest, measure, n);
        }
      }
    }
  }

  lemma {:induction false} NoneInMeasure(notes: seq<PhraseNote>, measure: int)
    requires |NotesIn(notes, measure)| == 0
    ensures NotesOutside(notes, measure) == notes
    decreases |notes|
  {
    if notes != [] {
      NoneInMeasure(notes[1..], measure);
    }
  }

  /** The measure counter `setCurrentBeat(value, seeking)` leaves, from the last beat
      and the measure before the call. */
  function NextMeasure(last: int, measure: int, value: int, seeking: bool): (r: int)
    ensures value == last ==> r == measure
    ensures last < value && value == 0 ==> r == 0
    ensures (!seeking && value != 0) || value < last ==> measure - 1 <= r <= measure + 1
    ensures value < last ==> r <= measure
  {
    if value == last then measure
    else if last < value then
      if value == 0 then 0
      else if seeking then JavaDiv(value, 4)
      else if JavaRem(value, 4) == 0 then measure + 1
      else measure
    else if JavaRem(last, 4) == 0 then measure - 1
    else measure
  }

  /** The counters agree: at a non-negative beat, the measure is the beat's measure. */
  predicate Tracks(beat: int, measure: int) {
    beat >= 0 ==> measure == beat / 4
  }

  /** The measure counter follows the playhead: from agreeing counters, a step of one
      beat forward or back, or a seek forward, leaves them agreeing. */
  lemma MeasureFollowsBeat(last: int, measure: int, value: int, seeking: bool)
    requires Tracks(last, measure)
    requires value == last + 1 || value == last - 1 || (seeking && value > last)
    ensures Tracks(value, NextMeasure(last, measure, value, seeking))
  {
    if value >= 0 && value != last {
      if last < value && value != 0 && !seeking {
        assert last >= 0 && value == last + 1;
        assert JavaRem(value, 4) == value % 4;
      } else if last > value {
        assert JavaRem(last, 4) == last % 4;
      }
    }
  }

  class TrackPhrase {
    const toneIndex: int
    const bank: int
    const pattern: int
    var length: int
    var position: int
    var notes: seq<PhraseNote>
    var currentBeat: int
    var currentMeasure: int
    var events: seq<PhraseChange>

    /** `new TrackPhrase(controller, toneIndex, bank, pattern)`: length 0, position 1,
        no notes, beat -1, measure 0, nothing posted. */
    constructor (toneIndex: int, bank: int, pattern: int)
      ensures this.toneIndex == toneIndex && this.bank == bank && this.pattern == pattern
      ensures length == 0 && position == 1 && notes == [] && currentBeat == -1 && currentMeasure == 0
      ensures events == []
    {
      this.toneIndex := toneIndex;
      this.bank := bank;
      this.pattern := pattern;
      length := 0;
      position := 1;
      notes := [];
      currentBeat := -1;
      currentMeasure := 0;
      events := [];
    }

    /** `setPosition`: ignores the current value and any value outside 0..length. */
    method SetPosition(value: int)
      modifies this
      ensures position != old(position) <==> value != old(position) && 0 <= value <= length
      ensures position == value || position == old(position)
      ensures events == old(events) + (if position != old(position) then [PhraseChange(Position, None)] else [])
      ensures length == old(length) && notes == old(notes)
      ensures currentBeat == old(currentBeat) && currentMeasure == old(currentMeasure)
    {
      if position == value {
        return;
      }
      if value < 0 || value > length {
        return;
      }
      position := value;
      events := events + [PhraseChange(Position, None)];
    }

    /** `setLength`: a new length is taken as it is, and a position beyond it is lowered
        to it (a negative length leaves the position alone). A position within a
        non-negative length stays within it. */
    method SetLength(value: int)
      modifies this
      ensures length == value
      ensures value == old(length) ==> position == old(position)
      ensures value != old(length) ==> position == (if old(position) > value && value >= 0 then value else old(position))
      ensures old(0 <= position <= length) && value >= 0 ==> 0 <= position <= length
      ensures events == old(events) +
        if value == old(length) then []
        else [PhraseChange(Length, None)] + (if old(position) > value && value >= 0 then [PhraseChange(Position, None)] else [])
      ensures notes == old(notes) && currentBeat == old(currentBeat) && currentMeasure == old(currentMeasure)
    {
      if value == length {
        return;
      }
      length := value;
      events := events + [PhraseChange(Length, None)];
      if position > value {
        SetPosition(value);
      }
    }

    /** `addNote`: appends one new note and returns it. */
    method AddNote(pitch: int, start: real, end: real, velocity: real, flags: int) returns (note: PhraseNote)
      modifies this
      ensures note == PhraseNote(pitch, start, end, velocity, flags)
      ensures notes == old(notes) + [note]
      ensures events == old(events) + [PhraseChange(NoteAdd, Some(note))]
      ensures length == old(length) && position == old(position)
      ensures currentBeat == old(currentBeat) && currentMeasure == old(currentMeasure)
    {
      note := PhraseNote(pitch, start, end, velocity, flags);
      notes := notes + [note];
      events := events + [PhraseChange(NoteAdd, Some(note))];
    }

    /** The index of the first note with that pitch and start, or -1. */
    method FirstMatch(pitch: int, start: real) returns (i: int)
      ensures -1 <= i < |notes|
      ensures i == -1 <==> forall j :: 0 <= j < |notes| ==> !Matches(notes[j], pitch, start)
      ensures i >= 0 ==> Matches(notes[i], pitch, start) && forall j :: 0 <= j < i ==> !Matches(notes[j], pitch, start)
    {
      i := 0;
      while i < |notes|
        invariant 0 <= i <= |notes|
        invariant forall j :: 0 <= j < i ==> !Matches(notes[j], pitch, start)
      {
        if notes[i].pitch == pitch && notes[i].start == start {
          return;
        }
        i := i + 1;
      }
      i := -1;
    }

    /** `getNote(pitch, start)`: the first note with that pitch and start, or null. */
    method GetNote(pitch: int, start: real) returns (r: Option<PhraseNote>)
      ensures r.None? <==> forall j :: 0 <= j < |notes| ==> !Matches(notes[j], pitch, start)
      ensures r.Some? ==> exists i :: (0 <= i < |notes| && notes[i] == r.value && Matches(r.value, pitch, start) &&
        forall j :: 0 <= j < i ==> !Matches(notes[j], pitch, start))
    {
      var i := FirstMatch(pitch, start);
      r := if i == -1 then None else Some(notes[i]);
    }

    /** `hasNote(pitch, start)`: some note has that pitch and start. */
    method HasNote(pitch: int, start: real) returns (r: bool)
      ensures r <==> exists i :: 0 <= i < |notes| && Matches(notes[i], pitch, start)
    {
      var note := GetNote(pitch, start);
      r := note.Some?;
    }

    /** `removeNote(pitch, start)`: removes the first note with that pitch and start and
        returns it; with no such note, returns null and changes nothing. */
    method RemoveNote(pitch: int, start: real) returns (r: Option<PhraseNote>)
      modifies this
      ensures notes == RemoveFirst(old(notes), pitch, start)
      ensures r == FirstMatching(old(notes), pitch, start)
      ensures events == old(events) + (if r.Some? then [PhraseChange(NoteRemove, r)] else [])
      ensures r.None? <==> notes == old(notes) && forall j :: 0 <= j < |notes| ==> !Matches(notes[j], pitch, start)
      ensures r.Some? ==> exists i :: (0 <= i < |old(notes)| && r.value == old(notes)[i] && Matches(r.value, pitch, start) &&
        notes == old(notes)[..i] + old(notes)[i + 1..])
      ensures length == old(length) && position == old(position)
      ensures currentBeat == old(currentBeat) && currentMeasure == old(currentMeasure)
    {
      var i := FirstMatch(pitch, start);
      if i == -1 {
        RemoveFirstNone(notes, pitch, start);
        return None;
      }
      RemoveFirstAt(notes, pitch, start, i);
      FirstMatchingAt(notes, pitch, start, i);
      r := Some(notes[i]);
      notes := notes[..i] + notes[i + 1..];
      events := events + [PhraseChange(NoteRemove, r)];
    }

    /** `getNotes(measure)`: the notes whose start beat, rounded down, lies in the
        measure's four beats, in list order. */
    method GetNotes(measure: int) returns (result: seq<PhraseNote>)
      ensures result == NotesIn(notes, measure)
    {
      result := [];
      var i := 0;
      while i < |notes|
        invariant 0 <= i <= |notes|
        invariant result == NotesIn(notes[..i], measure)
      {
        var note := notes[i];
        var beat := note.start.Floor;
        var startBeat := measure * 4;
        NotesInAppend(notes[..i], [note], measure);
        assert notes[..i + 1] == notes[..i] + [note];
        if beat >= startBeat && beat < startBeat + 4 {
          result := result + [note];
        }
        i := i + 1;
      }
      assert notes[..i] == notes;
    }

    /** `clear(measure)`: removes, one by one, a note matching each note of the measure;
        what is left are exactly the notes of the other measures, in order. */
    method Clear(measure: int)
      modifies this
      ensures notes == NotesOutside(old(notes), measure)
      ensures events == old(events) + Removals(NotesIn(old(notes), measure)) + [PhraseChange(ClearMeasure, None)]
      ensures length == old(length) && position == old(position)
      ensures currentBeat == old(currentBeat) && currentMeasure == old(currentMeasure)
    {
      ghost var original := notes;
      var list := GetNotes(measure);
      RemoveEach(original, measure, list);
      DropAll(original, measure);
      events := events + [PhraseChange(ClearMeasure, None)];
    }

    /** The loop of `clear`: removes the notes of the measure one by one, in order. */
    method RemoveEach(ghost original: seq<PhraseNote>, measure: int, list: seq<PhraseNote>)
      requires notes == original && list == NotesIn(original, measure)
      modifies this
      ensures notes == DropFirstIn(original, measure, |list|)
      ensures events == old(events) + Removals(list)
      ensures length == old(length) && position == old(position)
      ensures currentBeat == old(currentBeat) && currentMeasure == old(currentMeasure)
    {
      var k := 0;
      while k < |list|
        invariant 0 <= k <= |list|
        invariant notes == DropFirstIn(original, measure, k)
        invariant events == old(events) + Removals(list[..k])
        invariant length == old(length) && position == old(position)
        invariant currentBeat == old(currentBeat) && currentMeasure == old(currentMeasure)
      {
        RemovalsStep(list, k);
        ClearOne(original, measure, k, list[k]);
        k := k + 1;
      }
      assert list[..k] == list;
    }

    /** One pass of the `clear` loop: the `k`-th note of the measure is removed. */
    method ClearOne(ghost original: seq<PhraseNote>, measure: int, k: nat, note: PhraseNote)
      requires k < |NotesIn(original, measure)| && note == NotesIn(original, measure)[k]
      requires notes == DropFirstIn(original, measure, k)
      modifies this
      ensures notes == DropFirstIn(original, measure, k + 1)
      ensures events == old(events) + [PhraseChange(NoteRemove, Some(note))]
      ensures length == old(length) && position == old(position)
      ensures currentBeat == old(currentBeat) && currentMeasure == old(currentMeasure)
    {
      DropStep(original, measure, k);
      DropFindsNext(original, measure, k);
      var removed := RemoveNote(note.pitch, note.start);
    }

    /** `setCurrentBeat(value, seeking)`: moves the beat and updates the measure counter
        by the rules of `NextMeasure`; the counters keep agreeing while the playhead
        steps or seeks forward. */
    method SetCurrentBeat(value: int, seeking: bool)
      modifies this
      ensures currentBeat == value
      ensures currentMeasure == NextMeasure(old(currentBeat), old(currentMeasure), value, seeking)
      ensures old(Tracks(currentBeat, currentMeasure)) && (value == old(currentBeat) + 1 || value == old(currentBeat) - 1 || (seeking && value > old(currentBeat))) ==>
        Tracks(currentBeat, currentMeasure)
      ensures length == old(length) && position == old(position) && notes == old(notes) && events == old(events)
    {
      var last := currentBeat;
      if value == currentBeat {
        return;
      }
      if value == last + 1 || value == last - 1 || (seeking && value > last) {
        if Tracks(last, currentMeasure) {
          MeasureFollowsBeat(last, currentMeasure, value, seeking);
        }
      }
      currentBeat := value;
      if last < value {
        if currentBeat == 0 {
          currentMeasure := 0;
        } else {
          var remainder := JavaRem(currentBeat, 4);
          if seeking {
            currentMeasure := JavaDiv(currentBeat, 4);
          } else if remainder == 0 {
            currentMeasure := currentMeasure + 1;
          }
        }
      } else if last > value {
        var remainder := JavaRem(last, 4);
        if remainder == 0 {
          currentMeasure := currentMeasure - 1;
        }
      }
    }
  }
}
