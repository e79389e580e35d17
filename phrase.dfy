/** The groove-station `Phrase`: a trigger table over the steps of a pattern, a view
    position counted in measures (from 1), and the length of the pattern sequencer it
    drives.

    The source keys its `TreeMap` by the float beat of a step under the current
    resolution; here the table is keyed by that step number, which orders the same way.
    The pattern sequencer is external: its length is the `length` field, and the calls
    made on it are logged in `sent`. */
module GrooveStation {
  import opened Wrappers
  import SortedMaps

  datatype Scale = Sixteenth | SixteenthTriplet | ThirtySecond | ThirtySecondTriplet

  /** The three resolutions `getResolution` can answer. */
  datatype Resolution = SixteenthNote | ThirtySecondNote | SixtyFourthNote

  /** `getResolution`: the 16th and 32nd scales map to their own resolution, the
      triplet scales to 64th notes. */
  function ResolutionOf(scale: Scale): (r: Resolution)
    ensures r == SixtyFourthNote <==> scale == SixteenthTriplet || scale == ThirtySecondTriplet
    ensures r == SixteenthNote <==> scale == Sixteenth
  {
    match scale
    case Sixteenth => SixteenthNote
    case ThirtySecond => ThirtySecondNote
    case _ => SixtyFourthNote
  }

  /** `Resolution.toSteps`: steps in one measure. */
  function StepsPerMeasure(resolution: Resolution): (r: int)
    ensures r == 16 || r == 32 || r == 64
    ensures r % 16 == 0
  {
    match resolution
    case SixteenthNote => 16
    case ThirtySecondNote => 32
    case SixtyFourthNote => 64
  }

  /** `steps` steps a measure over `length` measures make whole views, at least one a
      measure. */
  lemma WholeViews(steps: int, length: int)
    requires steps == 16 || steps == 32 || steps == 64
    ensures (steps * length) % 16 == 0
    ensures length >= 0 ==> steps * length >= 16 * length
    ensures steps * length == 0 <==> length == 0
  {
    var k := steps / 16;
    assert steps * length == 16 * (k * length);
  }

  /** Step `v` of a view cut from the ordered triggers of a table keyed by `0..n-1`
      at `from` is the trigger of step `from + v`. */
  lemma WindowStep(table: map<int, Trigger>, n: nat, from: int, view: seq<Trigger>, v: int)
    requires table.Keys == SortedMaps.Range(0, n)
    requires 0 <= from && from + ViewWidth <= |SortedMaps.ValuesInKeyOrder(table)|
    requires view == SortedMaps.ValuesInKeyOrder(table)[from..from + ViewWidth]
    requires 0 <= v < ViewWidth
    ensures from + v in table && view[v] == table[from + v]
  {
    assert |table.Keys| == n;
    SortedMaps.WindowOfRange(table, n, from, ViewWidth, v);
  }

  /** `indciesInView`: the width of the step view. */
  const ViewWidth: int := 16

  datatype Trigger = Trigger(step: int, pitch: int, gate: real, velocity: real, flags: int, selected: bool)

  /** The trigger `updateTriggers` puts at an untouched step. */
  function DefaultTrigger(step: int): Trigger {
    Trigger(step, 60, 0.25, 1.0, 0, false)
  }

  /** Default triggers at every step of `lo..hi-1`. */
  function Defaults(lo: int, hi: int): (r: map<int, Trigger>)
    ensures forall k :: k in r <==> lo <= k < hi
    ensures forall k :: k in r ==> r[k] == DefaultTrigger(k)
    decreases hi - lo
  {
    if hi <= lo then map[] else Defaults(lo, hi - 1)[hi - 1 := DefaultTrigger(hi - 1)]
  }

  /** A table holding default triggers at the steps `lo..hi-1` and `table`'s entries
      elsewhere is `table` with those defaults put over it. */
  lemma FilledIsDefaults(table: map<int, Trigger>, filled: map<int, Trigger>, lo: int, hi: int)
    requires forall k :: k in filled <==> k in table || lo <= k < hi
    requires forall k :: k in filled ==> filled[k] == if lo <= k < hi then DefaultTrigger(k) else table[k]
    ensures filled == table + Defaults(lo, hi)
  {
    var d := Defaults(lo, hi);
    var grown := table + d;
    assert filled.Keys == grown.Keys;
    forall k | k in filled ensures filled[k] == grown[k] {
      if lo <= k < hi {
        assert grown[k] == d[k];
      } else {
        assert grown[k] == table[k];
      }
    }
  }

  /** The loop of `updateTriggers` that puts a default trigger at every step of
      `lo..hi-1` over `table`, replacing what was there. */
  method FillLoop(table: map<int, Trigger>, lo: int, hi: int) returns (filled: map<int, Trigger>)
    ensures filled == table + Defaults(lo, hi)
  {
    if hi <= lo {
      assert Defaults(lo, hi) == map[];
      return table;
    }
    filled := table;
    var i := lo;
    while i < hi
      invariant lo <= i <= hi
      invariant forall k :: k in filled <==> k in table || lo <= k < i
      invariant forall k :: k in filled ==> filled[k] == if lo <= k < i then DefaultTrigger(k) else table[k]
    {
      filled := filled[i := DefaultTrigger(i)];
      i := i + 1;
    }
    FilledIsDefaults(table, filled, lo, hi);
  }

  /** The table `updateTriggers(length, oldLength)` leaves: unchanged for a length
      that does not grow a non-empty table; default triggers over every step for an
      empty table or an unknown old length (-1); otherwise default triggers over the
      steps the growth adds. A put replaces what was at its step. */
  function Grown(table: map<int, Trigger>, steps: int, length: int, oldLength: int): map<int, Trigger> {
    if length <= oldLength && table != map[] then table
    else if oldLength == -1 || table == map[] then table + Defaults(0, steps * length)
    else table + Defaults(steps * oldLength, steps * length)
  }

  /** Every step below `count` holds a trigger. */
  predicate Covers(table: map<int, Trigger>, count: int) {
    forall s :: 0 <= s < count ==> s in table
  }

  /** Growing never removes a trigger, and a table that covered the old step count
      covers the new one (the resolution does not change in between). */
  lemma GrownKeepsAndCovers(table: map<int, Trigger>, steps: int, length: int, oldLength: int)
    requires steps > 0
    ensures table.Keys <= Grown(table, steps, length, oldLength).Keys
    ensures Covers(table, steps * oldLength) ==> Covers(Grown(table, steps, length, oldLength), steps * length)
    ensures table == map[] ==> Grown(table, steps, length, oldLength).Keys == SortedMaps.Range(0, steps * length)
  {
    var g := Grown(table, steps, length, oldLength);
    if Covers(table, steps * oldLength) && !(length <= oldLength && table != map[]) && oldLength != -1 && table != map[] {
      forall s | 0 <= s < steps * length ensures s in g {
        if s >= steps * oldLength {
          assert s in Defaults(steps * oldLength, steps * length);
        }
      }
    }
    if length <= oldLength && table != map[] && Covers(table, steps * oldLength) {
      assert steps * length <= steps * oldLength;
    }
  }

  /** Growing from a known length on a non-empty table touches only the steps the
      growth adds: every trigger outside them is kept as it was, every step inside them
      gets a default trigger. */
  lemma GrownOnlyAppends(table: map<int, Trigger>, steps: int, length: int, oldLength: int, s: int)
    requires table != map[] && oldLength != -1 && length > oldLength
    ensures s in table && !(steps * oldLength <= s < steps * length) ==> Grown(table, steps, length, oldLength)[s] == table[s]
    ensures steps * oldLength <= s < steps * length ==> Grown(table, steps, length, oldLength)[s] == DefaultTrigger(s)
  {
    assert Grown(table, steps, length, oldLength) == table + Defaults(steps * oldLength, steps * length);
  }

  /** Calls made on the external pattern sequencer. */
  datatype SequencerCall =
    | SetSequencerLength(length: int)
    | SequencerTriggerOn(resolution: Resolution, step: int, pitch: int, gate: real, velocity: real, flags: int)
    | SequencerTriggerOff(resolution: Resolution, step: int, pitch: int)

  class Phrase {
    var scale: Scale
    var position: int
    /** The pattern sequencer's length, in measures. */
    var length: int
    var table: map<int, Trigger>
    var sent: seq<SequencerCall>

    /** A phrase attached to a pattern sequencer of length `length`: 16th scale,
        position 1, no triggers. */
    constructor (length: int)
      ensures scale == Sixteenth && position == 1 && this.length == length
      ensures table == map[] && sent == []
    {
      scale := Sixteenth;
      position := 1;
      this.length := length;
      table := map[];
      sent := [];
    }

    /** `getStepCount`: steps per measure times the length. It is a whole number of
        views, at least one view per measure, and zero only for an empty pattern. */
    function StepCount(): (r: int)
      reads this
      ensures r % 16 == 0
      ensures length >= 0 ==> r >= 16 * length
      ensures r == 0 <==> length == 0
    {
      var steps := StepsPerMeasure(ResolutionOf(scale));
      WholeViews(steps, length);
      steps * length
    }

    /** `toAbsoluteStep`: a step of the view, shifted by the measures before the
        position. */
    function ToAbsoluteStep(viewStep: int): (r: int)
      reads this
      ensures 1 <= position <= length && 0 <= viewStep < ViewWidth ==> 0 <= r < StepCount()
    {
      viewStep + 16 * position - 16
    }

    /** `setPosition`: ignores the current value and any value outside 0..length. */
    method SetPosition(value: int)
      modifies this
      ensures position != old(position) <==> value != old(position) && 0 <= value <= length
      ensures position == value || position == old(position)
      ensures scale == old(scale) && length == old(length) && table == old(table) && sent == old(sent)
    {
      if position == value {
        return;
      }
      if value < 0 || value > length {
        return;
      }
      position := value;
    }

    /** `incrementPosition`: one measure forward, clamped to the length. */
    method IncrementPosition()
      modifies this
      ensures -1 <= old(position) < length ==> position == old(position) + 1
      ensures 0 <= length <= old(position) ==> position == length
      ensures length < 0 || old(position) < -1 ==> position == old(position)
      ensures old(1 <= position <= length) ==> 1 <= position <= length
      ensures scale == old(scale) && length == old(length) && table == old(table) && sent == old(sent)
    {
      var value := position + 1;
      if value > length {
        value := length;
      }
      SetPosition(value);
    }

    /** `decrementPosition`: one measure back, clamped to 1. */
    method DecrementPosition()
      modifies this
      ensures 1 < old(position) <= length + 1 ==> position == old(position) - 1
      ensures old(position) <= 1 && 1 <= length ==> position == 1
      ensures (if old(position) > 1 then old(position) - 1 else 1) > length ==> position == old(position)
      ensures old(1 <= position <= length) ==> 1 <= position <= length
      ensures scale == old(scale) && length == old(length) && table == old(table) && sent == old(sent)
    {
      var value := position - 1;
      if value < 1 {
        value := 1;
      }
      SetPosition(value);
    }

    /** `setLength`: returns early when the length is unchanged and the table is not
        empty. Otherwise a position beyond the new length is lowered to it (the check
        is made against the old length), the sequencer gets the new length, and the
        table grows as `updateTriggers` grows it. */
    method SetLength(value: int)
      modifies this
      ensures old(length) == value && old(table) != map[] ==>
        position == old(position) && length == old(length) && table == old(table) && sent == old(sent)
      ensures !(old(length) == value && old(table) != map[]) ==>
        && length == value
        && position == (if old(position) > value && 0 <= value <= old(length) then value else old(position))
        && table == Grown(old(table), StepsPerMeasure(ResolutionOf(scale)), value, old(length))
        && sent == old(sent) + [SetSequencerLength(value)]
      ensures old(table).Keys <= table.Keys
      ensures old(Covers(table, StepCount())) ==> Covers(table, StepCount())
      ensures old(table) == map[] ==> table.Keys == SortedMaps.Range(0, StepCount())
      ensures scale == old(scale)
    {
      GrownKeepsAndCovers(table, StepsPerMeasure(ResolutionOf(scale)), value, length);
      var oldValue := length;
      if oldValue == value && table != map[] {
        return;
      }
      if position > value {
        SetPosition(value);
      }
      length := value;
      sent := sent + [SetSequencerLength(value)];
      UpdateTriggers(value, oldValue);
    }

    /** `updateTriggers(length, oldLength)`, with its two filling loops. */
    method UpdateTriggers(newLength: int, oldLength: int)
      modifies this
      ensures table == Grown(old(table), StepsPerMeasure(ResolutionOf(scale)), newLength, oldLength)
      ensures scale == old(scale) && position == old(position) && length == old(length) && sent == old(sent)
    {
      var steps := StepsPerMeasure(ResolutionOf(scale));
      if newLength <= oldLength && table != map[] {
        return;
      }
      var start := if oldLength == -1 || table == map[] then 0 else steps * oldLength;
      FillDefaults(start, steps * newLength);
    }

    /** One filling loop of `updateTriggers`: a default trigger put at every step of
        `lo..hi-1`, replacing what was there. */
    method FillDefaults(lo: int, hi: int)
      modifies this
      ensures table == old(table) + Defaults(lo, hi)
      ensures scale == old(scale) && position == old(position) && length == old(length) && sent == old(sent)
    {
      var filled := FillLoop(table, lo, hi);
      table := filled;
    }

    /** `triggerOn(step, pitch, gate, velocity, flags)`: forwards the note to the
        sequencer, then creates or overwrites the trigger at the step and selects it. */
    method TriggerOn(step: int, pitch: int, gate: real, velocity: real, flags: int)
      modifies this
      ensures table == old(table)[step := Trigger(step, pitch, gate, velocity, flags, true)]
      ensures IsSelected(step)
      ensures sent == old(sent) + [SequencerTriggerOn(ResolutionOf(scale), step, pitch, gate, velocity, flags)]
      ensures scale == old(scale) && position == old(position) && length == old(length)
    {
      sent := sent + [SequencerTriggerOn(ResolutionOf(scale), step, pitch, gate, velocity, flags)];
      table := table[step := Trigger(step, pitch, gate, velocity, flags, true)];
    }

    /** `triggerOff(step)`: unselects the trigger at the step and keeps its note; a step
        without a trigger fails before anything is sent. */
    method TriggerOff(step: int) returns (o: Outcome)
      modifies this
      ensures step !in old(table) ==> o == Fail(NullPointer) && table == old(table) && sent == old(sent)
      ensures step in old(table) ==>
        && o == Pass
        && table == old(table)[step := old(table)[step].(selected := false)]
        && !IsSelected(step)
        && sent == old(sent) + [SequencerTriggerOff(ResolutionOf(scale), step, old(table)[step].pitch)]
      ensures scale == old(scale) && position == old(position) && length == old(length)
    {
      if step !in table {
        return Fail(NullPointer);
      }
      var trigger := table[step];
      sent := sent + [SequencerTriggerOff(ResolutionOf(scale), step, trigger.pitch)];
      table := table[step := trigger.(selected := false)];
      o := Pass;
    }

    /** `isSelected(step)`: false for a step without a trigger. */
    function IsSelected(step: int): (r: bool)
      reads this
      ensures r ==> step in table
    {
      step in table && table[step].selected
    }

    /** `getViewSteps`: sixteen triggers in step order, starting at the first step of
        the position's measure; the 16th and 32nd scales have an end, any other scale
        gives an end of -1. `subList` refuses a negative start or an end beyond the
        table (out of bounds) and an end before the start (illegal argument). */
    function GetViewSteps(): (r: Result<seq<Trigger>>)
      reads this
      ensures r.Ok? ==> |r.value| == ViewWidth && (scale == Sixteenth || scale == ThirtySecond)
      ensures r.Ok? <==> (scale == Sixteenth || scale == ThirtySecond) && 1 <= position && 16 * position <= |table|
    {
      var values := SortedMaps.ValuesInKeyOrder(table);
      var from := 16 * position - 16;
      var to := if scale == Sixteenth || scale == ThirtySecond then from + ViewWidth else -1;
      assert |values| == |table|;
      if from < 0 || to > |values| then Err(IndexOutOfBounds)
      else if from > to then Err(IllegalArgument)
      else Ok(values[from..to])
    }

    /** When the table holds exactly the steps `0..n-1` (as after the first
        `setLength`), view step `v` shows the trigger at absolute step
        `toAbsoluteStep(v)`. */
    lemma ViewShowsAbsoluteSteps(n: nat, v: int)
      requires table.Keys == SortedMaps.Range(0, n)
      requires GetViewSteps().Ok? && 0 <= v < ViewWidth
      ensures ToAbsoluteStep(v) in table
      ensures GetViewSteps().value[v] == table[ToAbsoluteStep(v)]
    {
      ViewIsWindow();
      WindowStep(table, n, 16 * position - 16, GetViewSteps().value, v);
    }

    /** A successful `getViewSteps` is the window of the ordered triggers that starts
        at the first step of the position's measure. */
    lemma ViewIsWindow()
      requires GetViewSteps().Ok?
      ensures 0 <= 16 * position - 16 && 16 * position <= |SortedMaps.ValuesInKeyOrder(table)|
      ensures GetViewSteps().value == SortedMaps.ValuesInKeyOrder(table)[16 * position - 16..16 * position]
    {
    }
  }
}
