/** `CrossoverModule`: a modular-synth crossover with four controls, each documented
    as ranging over 0..1, and the control values it sends to the engine (an
    append-only log). */
module Crossovers {
  import opened Wrappers

  datatype Control = Frequency | InGain | LowGain | HighGain

  /** The engine's name of each control. */
  function ControlName(c: Control): (r: string)
    ensures |r| > 0
  {
    match c
    case Frequency => "frequency"
    case InGain => "in_gain"
    case LowGain => "low_gain"
    case HighGain => "high_gain"
  }

  /** Distinct controls are sent under distinct names. */
  lemma ControlNamesDistinct(a: Control, b: Control)
    ensures ControlName(a) == ControlName(b) ==> a == b
  {
  }

  /** Every control ranges over 0..1. */
  predicate InRange(v: real) {
    0.0 <= v <= 1.0
  }

  /** A `setValue(name, value)` to the engine. */
  datatype ValueSend = ValueSend(name: string, value: real)

  datatype Controls = Controls(frequency: real, inGain: real, lowGain: real, highGain: real)

  function Value(s: Controls, c: Control): real {
    match c
    case Frequency => s.frequency
    case InGain => s.inGain
    case LowGain => s.lowGain
    case HighGain => s.highGain
  }

  function WithValue(s: Controls, c: Control, v: real): (r: Controls)
    ensures Value(r, c) == v
    ensures forall d :: d != c ==> Value(r, d) == Value(s, d)
  {
    match c
    case Frequency => s.(frequency := v)
    case InGain => s.(inGain := v)
    case LowGain => s.(lowGain := v)
    case HighGain => s.(highGain := v)
  }

  predicate AllInRange(s: Controls) {
    InRange(s.frequency) && InRange(s.inGain) && InRange(s.lowGain) && InRange(s.highGain)
  }

  /** A setter as the source writes it: the current value is ignored; any other value
      is stored, and the range check builds an exception that is never thrown, so an
      out-of-range value is stored as well. */
  function SetAsWritten(s: Controls, c: Control, v: real): (r: Controls)
    ensures Value(r, c) == v
    ensures forall d :: d != c ==> Value(r, d) == Value(s, d)
  {
    if Value(s, c) == v then s else WithValue(s, c, v)
  }

  /** A setter as its range check means it: the current value is ignored, a value
      outside 0..1 is refused before anything changes, any other is stored. */
  function SetChecked(s: Controls, c: Control, v: real): (r: Result<Controls>)
    ensures r.Err? <==> Value(s, c) != v && !InRange(v)
    ensures r.Err? ==> r.failure == IllegalArgument
    ensures r.Ok? ==> Value(r.value, c) == v && forall d :: d != c ==> Value(r.value, d) == Value(s, d)
  {
    if Value(s, c) == v then Ok(s)
    else if !InRange(v) then Err(IllegalArgument)
    else Ok(WithValue(s, c, v))
  }

  /** The checked setter keeps every control within 0..1. */
  lemma SetCheckedKeepsRange(s: Controls, c: Control, v: real)
    requires AllInRange(s)
    ensures SetChecked(s, c, v).Ok? ==> AllInRange(SetChecked(s, c, v).value)
  {
    match c
    case Frequency =>
    case InGain =>
    case LowGain =>
    case HighGain =>
  }

  /** As written, a new module given a frequency of 2 stores it: the setter leaves the
      module outside its documented range, which the checked setter refuses. */
  lemma AsWrittenEscapesRange()
    ensures AllInRange(Controls(0.0, 0.0, 0.0, 0.0))
    ensures SetAsWritten(Controls(0.0, 0.0, 0.0, 0.0), Frequency, 2.0).frequency == 2.0
    ensures !AllInRange(SetAsWritten(Controls(0.0, 0.0, 0.0, 0.0), Frequency, 2.0))
    ensures SetChecked(Controls(0.0, 0.0, 0.0, 0.0), Frequency, 2.0) == Err(IllegalArgument)
  {
  }

  /** The crossover's jacks; an input and an output may share a number. */
  datatype CrossoverJack = InInput | OutLow | OutHigh

  function JackValue(j: CrossoverJack): (r: int)
    ensures r == 1 <==> j == OutHigh
    ensures r == 0 <==> j != OutHigh
  {
    match j
    case InInput => 0
    case OutLow => 0
    case OutHigh => 1
  }

  class CrossoverModule {
    var frequency: real
    var inGain: real
    var lowGain: real
    var highGain: real
    var sent: seq<ValueSend>

    function Current(): Controls
      reads this
    {
      Controls(frequency, inGain, lowGain, highGain)
    }

    /** A new module: every control at 0, nothing sent. */
    constructor ()
      ensures Current() == Controls(0.0, 0.0, 0.0, 0.0) && sent == []
      ensures AllInRange(Current())
    {
      frequency, inGain, lowGain, highGain := 0.0, 0.0, 0.0, 0.0;
      sent := [];
    }

    /** `getNumBays`: the crossover takes no bay of its own. */
    function GetNumBays(): (r: int)
      ensures r == 0
    {
      0
    }

    method Store(c: Control, value: real)
      modifies this
      ensures Current() == WithValue(old(Current()), c, value)
      ensures sent == old(sent)
    {
      match c {
        case Frequency => frequency := value;
        case InGain => inGain := value;
        case LowGain => lowGain := value;
        case HighGain => highGain := value;
      }
    }

    /** `setFrequency`, `setInGain`, `setLowGain`, `setHighGain` as written: an equal
        value is ignored; any other is stored and sent, whatever its range. */
    method SetControlAsWritten(c: Control, value: real)
      modifies this
      ensures Current() == SetAsWritten(old(Current()), c, value)
      ensures sent == old(sent) + (if Value(old(Current()), c) == value then [] else [ValueSend(ControlName(c), value)])
    {
      if Value(Current(), c) == value {
        return;
      }
      Store(c, value);
      sent := sent + [ValueSend(ControlName(c), value)];
    }

    /** The four setters with their range check enforced: an equal value is ignored,
        a value outside 0..1 is refused before anything changes, any other is stored
        and sent. */
    method SetControl(c: Control, value: real) returns (o: Outcome)
      requires AllInRange(Current())
      modifies this
      ensures AllInRange(Current())
      ensures o.Fail? <==> SetChecked(old(Current()), c, value).Err?
      ensures o.Fail? ==> o.failure == IllegalArgument && Current() == old(Current()) && sent == old(sent)
      ensures o.Pass? ==> Current() == SetChecked(old(Current()), c, value).value
      ensures o.Pass? && Value(old(Current()), c) != value ==> sent == old(sent) + [ValueSend(ControlName(c), value)]
      ensures o.Pass? && Value(old(Current()), c) == value ==> sent == old(sent)
    {
      if Value(Current(), c) == value {
        return Pass;
      }
      if value < 0.0 || value > 1.0 {
        return Fail(IllegalArgument);
      }
      Store(c, value);
      SetCheckedKeepsRange(old(Current()), c, value);
      sent := sent + [ValueSend(ControlName(c), value)];
      o := Pass;
    }
  }
}
