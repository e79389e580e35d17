/** `PatternBank`: the 64 patterns of a groove box (four banks of sixteen), the selected
    pattern and the pending one queued to play next. The groove box parts and machines
    a committed pattern is pushed into are not part of this model; the copy of the
    committed pattern is the pattern value itself. */
module PatternBanks {
  import opened Wrappers

  /** Patterns are numbered 0..63. */
  const PatternCount: int := 64

  /** A pattern of the bank, known by its linear index. */
  datatype BankPattern = BankPattern(index: int, name: string)

  /** A `PatternReference(i, bank)`: the reference to the bank's pattern `i`. */
  datatype PatternReference = PatternReference(index: int)

  datatype BankEvent = PendingIndexChanged(index: int) | PatternChanged(index: int)

  /** The range of a Java `int`. */
  const IntMin: int := -0x8000_0000
  const IntMax: int := 0x7fff_ffff

  /** Java's `int` addition: the sum wrapped into the 32-bit two's-complement range. */
  function Int32Add(a: int, b: int): (r: int)
    ensures IntMin <= r <= IntMax
    ensures (r - (a + b)) % 0x1_0000_0000 == 0
    ensures IntMin <= a + b <= IntMax ==> r == a + b
  {
    (a + b - IntMin) % 0x1_0000_0000 + IntMin
  }

  /** The index `incrementIndex` queues after `target`: one up, 64 wrapping to 0. */
  function NextIndex(target: int): (r: int)
    ensures 0 <= target < PatternCount ==> r == (target + 1) % PatternCount
  {
    var index := Int32Add(target, 1);
    if index > 63 then 0 else index
  }

  /** The index `decrementIndex` queues before `target`: one down, -1 wrapping to 63. */
  function PrevIndex(target: int): (r: int)
    ensures 0 <= target < PatternCount ==> r == (target + PatternCount - 1) % PatternCount
  {
    var index := Int32Add(target, -1);
    if index < 0 then 63 else index
  }

  /** Outside the pattern range the 32-bit sum escapes both wrap checks: one past
      `Integer.MAX_VALUE` is `Integer.MIN_VALUE`, which is not above 63, and one below
      `Integer.MIN_VALUE` is `Integer.MAX_VALUE`, which is not below 0. */
  lemma StepsOverflow()
    ensures NextIndex(IntMax) == IntMin
    ensures PrevIndex(IntMin) == IntMax
  {
  }

  /** Both steps stay within 0..63 and undo each other. */
  lemma StepsStayInRange(target: int)
    requires 0 <= target < PatternCount
    ensures 0 <= NextIndex(target) < PatternCount && 0 <= PrevIndex(target) < PatternCount
    ensures PrevIndex(NextIndex(target)) == target && NextIndex(PrevIndex(target)) == target
  {
  }

  /** `k` increments from `target`. */
  function Advance(target: int, k: nat): int {
    if k == 0 then target else NextIndex(Advance(target, k - 1))
  }

  /** Incrementing counts modulo 64: `k` increments from a pattern index land on
      `(target + k) % 64`, so 64 increments come back to the start. */
  lemma {:induction false} AdvanceWraps(target: int, k: nat)
    requires 0 <= target < PatternCount
    ensures Advance(target, k) == (target + k) % PatternCount
  {
    if k > 0 {
      AdvanceWraps(target, k - 1);
    }
  }

  /** The Create phase's loop: a reference put for every index 0..63 over `base`. */
  method WithReferences(base: map<int, PatternReference>) returns (references: map<int, PatternReference>)
    ensures forall k :: k in references <==> k in base || 0 <= k < PatternCount
    ensures forall i :: 0 <= i < PatternCount ==> references[i] == PatternReference(i)
    ensures forall k :: k in base && !(0 <= k < PatternCount) ==> references[k] == base[k]
  {
    references := base;
    var i := 0;
    while i < 64
      invariant 0 <= i <= PatternCount
      invariant references == base + map k | 0 <= k < i :: PatternReference(k)
    {
      references := references[i := PatternReference(i)];
      i := i + 1;
    }
  }

  class PatternBank {
    var pendingPattern: int
    var selectedIndex: int
    var patterns: map<int, BankPattern>
    var patternReferences: map<int, PatternReference>
    var temporaryPattern: Option<BankPattern>
    var events: seq<BankEvent>

    /** Every pattern is stored under its own index. */
    ghost predicate Valid()
      reads this
    {
      forall i :: i in patterns ==> patterns[i].index == i
    }

    /** A new bank: nothing pending, pattern 0 selected, no patterns. */
    constructor ()
      ensures Valid()
      ensures pendingPattern == -1 && selectedIndex == 0
      ensures patterns == map[] && patternReferences == map[] && temporaryPattern == None && events == []
    {
      pendingPattern := -1;
      selectedIndex := 0;
      patterns := map[];
      patternReferences := map[];
      temporaryPattern := None;
      events := [];
    }

    /** `setPendingPattern`: a new value is taken and announced; the current one is
        ignored. */
    method SetPendingPattern(value: int)
      modifies this
      ensures pendingPattern == value
      ensures events == old(events) + (if value == old(pendingPattern) then [] else [PendingIndexChanged(value)])
      ensures selectedIndex == old(selectedIndex) && patterns == old(patterns)
      ensures patternReferences == old(patternReferences) && temporaryPattern == old(temporaryPattern)
    {
      if value == pendingPattern {
        return;
      }
      pendingPattern := value;
      events := events + [PendingIndexChanged(pendingPattern)];
    }

    /** `setSelectedIndex`: the current value is ignored. */
    method SetSelectedIndex(value: int)
      modifies this
      ensures selectedIndex == value
      ensures pendingPattern == old(pendingPattern) && patterns == old(patterns) && events == old(events)
      ensures patternReferences == old(patternReferences) && temporaryPattern == old(temporaryPattern)
    {
      if value == selectedIndex {
        return;
      }
      selectedIndex := value;
    }

    /** The index the step operations start from: the pending one, or the selected one
        when nothing is pending. */
    function Target(): (r: int)
      reads this
      ensures r == pendingPattern || r == selectedIndex
      ensures 0 <= selectedIndex < PatternCount && (pendingPattern == -1 || 0 <= pendingPattern < PatternCount) ==>
        0 <= r < PatternCount
    {
      if pendingPattern != -1 then pendingPattern else selectedIndex
    }

    /** `incrementIndex`: queues the pattern after the target. From a pattern index,
        the queued index is again one. */
    method IncrementIndex()
      modifies this
      ensures pendingPattern == NextIndex(old(Target()))
      ensures old(0 <= Target() < PatternCount) ==> 0 <= pendingPattern < PatternCount
      ensures events == old(events) + (if pendingPattern == old(pendingPattern) then [] else [PendingIndexChanged(pendingPattern)])
      ensures selectedIndex == old(selectedIndex) && patterns == old(patterns)
      ensures patternReferences == old(patternReferences) && temporaryPattern == old(temporaryPattern)
    {
      var target := selectedIndex;
      if pendingPattern != -1 {
        target := pendingPattern;
      }
      var index := Int32Add(target, 1);
      if index > 63 {
        index := 0;
      }
      SetPendingPattern(index);
    }

    /** `decrementIndex`: queues the pattern before the target. From a pattern index,
        the queued index is again one. */
    method DecrementIndex()
      modifies this
      ensures pendingPattern == PrevIndex(old(Target()))
      ensures old(0 <= Target() < PatternCount) ==> 0 <= pendingPattern < PatternCount
      ensures events == old(events) + (if pendingPattern == old(pendingPattern) then [] else [PendingIndexChanged(pendingPattern)])
      ensures selectedIndex == old(selectedIndex) && patterns == old(patterns)
      ensures patternReferences == old(patternReferences) && temporaryPattern == old(temporaryPattern)
    {
      var target := selectedIndex;
      if pendingPattern != -1 {
        target := pendingPattern;
      }
      var index := Int32Add(target, -1);
      if index < 0 {
        index := 63;
      }
      SetPendingPattern(index);
    }

    /** The Create phase: a reference for every pattern index 0..63. */
    method CreateReferences()
      modifies this
      ensures forall k :: k in patternReferences <==> k in old(patternReferences) || 0 <= k < PatternCount
      ensures forall i :: 0 <= i < PatternCount ==> patternReferences[i] == PatternReference(i)
      ensures forall k :: k in old(patternReferences) && !(0 <= k < PatternCount) ==> patternReferences[k] == old(patternReferences)[k]
      ensures pendingPattern == old(pendingPattern) && selectedIndex == old(selectedIndex) && patterns == old(patterns)
      ensures temporaryPattern == old(temporaryPattern) && events == old(events)
    {
      var references := WithReferences(patternReferences);
      patternReferences := references;
    }

    /** `addPattern`: stores the pattern under its own index, replacing any there. */
    method AddPattern(pattern: BankPattern)
      requires Valid()
      modifies this
      ensures Valid()
      ensures patterns == old(patterns)[pattern.index := pattern]
      ensures pendingPattern == old(pendingPattern) && selectedIndex == old(selectedIndex)
      ensures patternReferences == old(patternReferences) && temporaryPattern == old(temporaryPattern) && events == old(events)
    {
      patterns := patterns[pattern.index := pattern];
    }

    /** `setNextPattern(index)`: queues `index` and commits it: the pattern there becomes
        the temporary copy, `index` the selected pattern, and nothing stays pending. An
        index without a pattern fails at the dereference, leaving `index` pending. */
    method SetNextPattern(index: int) returns (o: Outcome)
      requires Valid()
      modifies this
      ensures Valid()
      ensures index !in old(patterns) ==>
        o == Fail(NullPointer) && pendingPattern == index && selectedIndex == old(selectedIndex) &&
        temporaryPattern == old(temporaryPattern) && events == old(events)
      ensures index in old(patterns) ==>
        && o == Pass
        && selectedIndex == index
        && pendingPattern == -1
        && temporaryPattern == Some(old(patterns)[index])
        && events == old(events) + [PatternChanged(index)]
      ensures patterns == old(patterns) && patternReferences == old(patternReferences)
    {
      pendingPattern := index;
      o := CommitPendingPattern();
      if o.Fail? {
        return;
      }
      pendingPattern := -1;
    }

    /** `commitPendingPattern`, without the machine updates. */
    method CommitPendingPattern() returns (o: Outcome)
      requires Valid()
      modifies this
      ensures Valid()
      ensures pendingPattern !in patterns ==>
        o == Fail(NullPointer) && selectedIndex == old(selectedIndex) &&
        temporaryPattern == old(temporaryPattern) && events == old(events)
      ensures pendingPattern in patterns ==>
        && o == Pass
        && selectedIndex == pendingPattern
        && temporaryPattern == Some(patterns[pendingPattern])
        && events == old(events) + [PatternChanged(pendingPattern)]
      ensures pendingPattern == old(pendingPattern) && patterns == old(patterns) && patternReferences == old(patternReferences)
    {
      var pending := pendingPattern;
      if pending !in patterns {
        return Fail(NullPointer);
      }
      temporaryPattern := Some(patterns[pending]);
      SetSelectedIndex(pendingPattern);
      events := events + [PatternChanged(selectedIndex)];
      o := Pass;
    }
  }
}
