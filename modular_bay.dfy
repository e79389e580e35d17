/** `ModularBayComponent`: the bays of a modular synth machine and the components
    plugged into them. The sixteen bays are scanned on restore, and each component
    found is created and restored in turn.

    What the engine answers to the type query is a parameter, one code per bay. The
    type codes that have a component class, and how many bays each class spans, are a
    parameter too: the `catalog`. A code outside the catalog is taken to reach the
    `default` branch of `create` (a type enum that maps every code to a constant, not
    to null); the enum's `fromInt` is not part of this model. Messages to the engine
    go to an append-only log. */
module ModularBays {
  import opened Wrappers
  import SortedMaps

  const BayCount: int := 16

  /** A component created for a bay: its type code, its bay, the index of the machine
      it belongs to, and the number of bays it spans. */
  datatype Component = Component(typeCode: int, bay: int, machineIndex: int, numBays: int)

  /** The messages the bay sends: the TYPE query of a bay, the CREATE of a component,
      and a component's own restore. */
  datatype ModularSend =
    | TypeQuery(machine: int, bay: int)
    | Create(machine: int, bay: int, typeCode: int)
    | RestoreComponent(bay: int)

  /** What `create(type, bay)` returns: a component of the type for the bay and the
      machine, or none for a code without a component class, which is assumed to
      reach the `default` branch. */
  function Created(catalog: map<int, int>, code: int, bay: int, machineIndex: int): (r: Option<Component>)
    ensures r.Some? <==> code in catalog
    ensures r.Some? ==> r.value.bay == bay && r.value.machineIndex == machineIndex && r.value.typeCode == code
  {
    if code in catalog then Some(Component(code, bay, machineIndex, catalog[code])) else None
  }

  /** The outcome of the bay scan from bay `i` on: the components put, the messages
      sent, and whether the scan ran to the end. */
  datatype ScanResult = ScanResult(components: map<int, Option<Component>>, sends: seq<ModularSend>, outcome: Outcome)

  /** The scan of `restoreComponents` from bay `i`. The bay's type is queried (of
      machine 0); a non-zero type is created and put at the bay; a component spanning
      more than one bay makes the scan skip the next bay; a type without a component
      puts nothing usable at the bay and fails at the dereference that follows. */
  function Scan(query: seq<int>, catalog: map<int, int>, machineIndex: int, i: int): ScanResult
    requires |query| == BayCount && 0 <= i
    decreases BayCount - i
  {
    if i >= BayCount then ScanResult(map[], [], Pass)
    else
      var code := query[i];
      if code == 0 then
        var rest := Scan(query, catalog, machineIndex, i + 1);
        rest.(sends := [TypeQuery(0, i)] + rest.sends)
      else
        var made := Created(catalog, code, i, machineIndex);
        var head := [TypeQuery(0, i), Create(machineIndex, i, code)];
        if made.None? then ScanResult(map[i := None], head, Fail(NullPointer))
        else
          var next := if made.value.numBays > 1 then i + 2 else i + 1;
          var rest := Scan(query, catalog, machineIndex, next);
          ScanResult(map[i := made] + rest.components, head + rest.sends, rest.outcome)
  }

  /** The scan from bay `i` puts only at bays from `i` on whose type is non-zero, and
      at each such bay the component created for that very bay and machine. */
  lemma {:induction false} ScanPutsCreated(query: seq<int>, catalog: map<int, int>, machineIndex: int, i: int)
    requires |query| == BayCount && 0 <= i
    ensures var r := Scan(query, catalog, machineIndex, i);
      forall k :: k in r.components ==>
        && i <= k < BayCount
        && query[k] != 0
        && r.components[k] == Created(catalog, query[k], k, machineIndex)
    decreases BayCount - i
  {
    if i < BayCount {
      var code := query[i];
      if code == 0 {
        ScanPutsCreated(query, catalog, machineIndex, i + 1);
      } else if code in catalog {
        var next := if catalog[code] > 1 then i + 2 else i + 1;
        ScanPutsCreated(query, catalog, machineIndex, next);
      }
    }
  }

  /** Conversely, every bay of non-zero type the scan queries receives an entry: the
      component created for it, or null for a type without a component class. */
  lemma {:induction false} ScanPutsEveryQueried(query: seq<int>, catalog: map<int, int>, machineIndex: int, i: int)
    requires |query| == BayCount && 0 <= i
    ensures var r := Scan(query, catalog, machineIndex, i);
      forall k :: 0 <= k < BayCount && query[k] != 0 && TypeQuery(0, k) in r.sends ==> k in r.components
    decreases BayCount - i
  {
    if i < BayCount {
      var code := query[i];
      if code == 0 {
        ScanPutsEveryQueried(query, catalog, machineIndex, i + 1);
      } else if code in catalog {
        var next := if catalog[code] > 1 then i + 2 else i + 1;
        ScanPutsEveryQueried(query, catalog, machineIndex, next);
      }
    }
  }

  /** The scan from bay `i` queries the type of machine 0 only, at bays from `i` on. */
  lemma {:induction false} ScanQueriesMachineZero(query: seq<int>, catalog: map<int, int>, machineIndex: int, i: int)
    requires |query| == BayCount && 0 <= i
    ensures var r := Scan(query, catalog, machineIndex, i);
      forall s :: s in r.sends && s.TypeQuery? ==> s.machine == 0 && i <= s.bay < BayCount
    decreases BayCount - i
  {
    if i < BayCount {
      var code := query[i];
      if code == 0 {
        ScanQueriesMachineZero(query, catalog, machineIndex, i + 1);
      } else if code in catalog {
        var next := if catalog[code] > 1 then i + 2 else i + 1;
        ScanQueriesMachineZero(query, catalog, machineIndex, next);
      }
    }
  }

  /** After a component spanning more than one bay, the next bay is neither queried
      nor put. */
  ghost predicate SkipsSpanned(r: ScanResult) {
    forall k :: k in r.components && r.components[k].Some? && r.components[k].value.numBays > 1 ==>
      k + 1 !in r.components && TypeQuery(0, k + 1) !in r.sends
  }

  /** Querying an empty bay before the bays put later keeps the skips. */
  lemma SkipsAfterQuery(rest: ScanResult, i: int)
    requires SkipsSpanned(rest)
    requires forall k :: k in rest.components ==> i < k
    ensures SkipsSpanned(ScanResult(rest.components, [TypeQuery(0, i)] + rest.sends, rest.outcome))
  {
  }

  /** Putting a component at bay `i` before a scan that starts past the bays it spans
      keeps the skips. */
  lemma SkipsAfterPut(rest: ScanResult, i: int, made: Component, head: seq<ModularSend>)
    requires SkipsSpanned(rest)
    requires var next := if made.numBays > 1 then i + 2 else i + 1;
      && (forall k :: k in rest.components ==> next <= k)
      && (forall s :: s in rest.sends && s.TypeQuery? ==> next <= s.bay)
    requires forall s :: s in head && s.TypeQuery? ==> s.bay == i
    ensures SkipsSpanned(ScanResult(map[i := Some(made)] + rest.components, head + rest.sends, rest.outcome))
  {
    var r := ScanResult(map[i := Some(made)] + rest.components, head + rest.sends, rest.outcome);
    forall k | k in r.components && r.components[k].Some? && r.components[k].value.numBays > 1
      ensures k + 1 !in r.components && TypeQuery(0, k + 1) !in r.sends
    {
      if k == i {
        assert TypeQuery(0, i + 1) !in rest.sends;
      } else {
        assert k in rest.components;
      }
    }
  }

  /** After a component spanning more than one bay, the scan from bay `i` neither
      queries nor puts the next bay. */
  lemma {:induction false} ScanSkipsSpannedBay(query: seq<int>, catalog: map<int, int>, machineIndex: int, i: int)
    requires |query| == BayCount && 0 <= i
    ensures var r := Scan(query, catalog, machineIndex, i);
      forall k :: k in r.components && r.components[k].Some? && r.components[k].value.numBays > 1 ==>
        k + 1 !in r.components && TypeQuery(0, k + 1) !in r.sends
    decreases BayCount - i
  {
    if i < BayCount {
      var code := query[i];
      if code == 0 {
        ScanSkipsSpannedBay(query, catalog, machineIndex, i + 1);
        ScanPutsCreated(query, catalog, machineIndex, i + 1);
        SkipsAfterQuery(Scan(query, catalog, machineIndex, i + 1), i);
      } else if code in catalog {
        var next := if catalog[code] > 1 then i + 2 else i + 1;
        ScanSkipsSpannedBay(query, catalog, machineIndex, next);
        ScanPutsCreated(query, catalog, machineIndex, next);
        ScanQueriesMachineZero(query, catalog, machineIndex, next);
        var made := Created(catalog, code, i, machineIndex).value;
        SkipsAfterPut(Scan(query, catalog, machineIndex, next), i, made, [TypeQuery(0, i), Create(machineIndex, i, code)]);
      }
    }
    assert SkipsSpanned(Scan(query, catalog, machineIndex, i));
  }

  /** A bay whose type is zero never holds a component after a scan. */
  lemma EmptyBaysStayEmpty(query: seq<int>, catalog: map<int, int>, machineIndex: int, k: int)
    requires |query| == BayCount && 0 <= k < BayCount && query[k] == 0
    ensures k !in Scan(query, catalog, machineIndex, 0).components
  {
    ScanPutsCreated(query, catalog, machineIndex, 0);
  }

  /** The restores of the components stored at `bays[j..]`, in order, stopping at a
      bay that holds no component. */
  datatype Restored = Restored(sends: seq<ModularSend>, outcome: Outcome)

  function RestoreFrom(bays: seq<int>, j: nat, components: map<int, Option<Component>>): (r: Restored)
    ensures r.outcome.Fail? ==> r.outcome.failure == NullPointer
    decreases |bays| - j
  {
    if j >= |bays| then Restored([], Pass)
    else if bays[j] !in components || components[bays[j]].None? then Restored([], Fail(NullPointer))
    else
      var rest := RestoreFrom(bays, j + 1, components);
      Restored([RestoreComponent(bays[j])] + rest.sends, rest.outcome)
  }

  /** When every bay holds a component, each is restored once, in the order given. */
  lemma {:induction false} RestoreFromAll(bays: seq<int>, j: nat, components: map<int, Option<Component>>)
    requires j <= |bays|
    requires forall k :: 0 <= k < |bays| ==> bays[k] in components && components[bays[k]].Some?
    ensures RestoreFrom(bays, j, components).outcome == Pass
    ensures |RestoreFrom(bays, j, components).sends| == |bays| - j
    ensures forall k :: j <= k < |bays| ==> RestoreFrom(bays, j, components).sends[k - j] == RestoreComponent(bays[k])
    decreases |bays| - j
  {
    if j < |bays| {
      RestoreFromAll(bays, j + 1, components);
    }
  }

  /** A scan that runs to the end puts a component at every bay it puts. */
  lemma {:induction false} ScanPassPutsComponents(query: seq<int>, catalog: map<int, int>, machineIndex: int, i: int)
    requires |query| == BayCount && 0 <= i
    requires Scan(query, catalog, machineIndex, i).outcome == Pass
    ensures forall k :: k in Scan(query, catalog, machineIndex, i).components ==> Scan(query, catalog, machineIndex, i).components[k].Some?
    decreases BayCount - i
  {
    if i < BayCount {
      var code := query[i];
      if code == 0 {
        ScanPassPutsComponents(query, catalog, machineIndex, i + 1);
      } else if code in catalog {
        ScanPassPutsComponents(query, catalog, machineIndex, if catalog[code] > 1 then i + 2 else i + 1);
      }
    }
  }

  /** Restoring a stored map that holds a component at every bay restores each once,
      by ascending bay. */
  lemma RestoreAllStored(stored: map<int, Option<Component>>)
    requires forall k :: k in stored ==> stored[k].Some?
    ensures var bays := SortedMaps.SortedKeys(stored.Keys);
      var restored := RestoreFrom(bays, 0, stored);
      && restored.outcome == Pass
      && |restored.sends| == |stored|
      && forall k :: 0 <= k < |bays| ==> restored.sends[k] == RestoreComponent(bays[k])
  {
    var bays := SortedMaps.SortedKeys(stored.Keys);
    forall k | 0 <= k < |bays|
      ensures bays[k] in stored && stored[bays[k]].Some?
    {
      assert bays[k] in bays;
    }
    RestoreFromAll(bays, 0, stored);
    assert |stored.Keys| == |stored|;
  }

  /** On a bay with no components yet, a scan that runs to the end is followed by one
      restore of each component it put, by ascending bay. */
  lemma RestoreAfterCleanScan(query: seq<int>, catalog: map<int, int>, machineIndex: int)
    requires |query| == BayCount
    requires Scan(query, catalog, machineIndex, 0).outcome == Pass
    ensures var stored := map[] + Scan(query, catalog, machineIndex, 0).components;
      var bays := SortedMaps.SortedKeys(stored.Keys);
      var restored := RestoreFrom(bays, 0, stored);
      && restored.outcome == Pass
      && |restored.sends| == |stored|
      && forall k :: 0 <= k < |bays| ==> restored.sends[k] == RestoreComponent(bays[k])
  {
    var put := Scan(query, catalog, machineIndex, 0).components;
    assert map[] + put == put;
    ScanPassPutsComponents(query, catalog, machineIndex, 0);
    RestoreAllStored(put);
  }

  /** A bay of type zero: the loop sends its query and goes on at the next bay. */
  lemma ScanStepEmpty(query: seq<int>, catalog: map<int, int>, machineIndex: int, i: int,
                      put: map<int, Option<Component>>, sent: seq<ModularSend>)
    requires |query| == BayCount && 0 <= i < BayCount && query[i] == 0
    ensures var here, rest := Scan(query, catalog, machineIndex, i), Scan(query, catalog, machineIndex, i + 1);
      && put + rest.components == put + here.components
      && sent + [TypeQuery(0, i)] + rest.sends == sent + here.sends
      && rest.outcome == here.outcome
  {
    var rest := Scan(query, catalog, machineIndex, i + 1);
    assert sent + [TypeQuery(0, i)] + rest.sends == sent + ([TypeQuery(0, i)] + rest.sends);
  }

  /** A bay whose type has no component: the loop puts nothing usable there, sends
      the query and the CREATE, and fails. */
  lemma ScanStepUnknown(query: seq<int>, catalog: map<int, int>, machineIndex: int, i: int,
                        put: map<int, Option<Component>>, sent: seq<ModularSend>)
    requires |query| == BayCount && 0 <= i < BayCount && query[i] != 0 && query[i] !in catalog
    ensures var here := Scan(query, catalog, machineIndex, i);
      && put[i := None] == put + here.components
      && sent + [TypeQuery(0, i)] + [Create(machineIndex, i, query[i])] == sent + here.sends
      && here.outcome == Fail(NullPointer)
  {
  }

  /** A bay whose type has a component: the loop puts it, sends the query and the
      CREATE, and goes on past the bays the component spans. */
  lemma ScanStepCreated(query: seq<int>, catalog: map<int, int>, machineIndex: int, i: int,
                        put: map<int, Option<Component>>, sent: seq<ModularSend>)
    requires |query| == BayCount && 0 <= i < BayCount && query[i] != 0 && query[i] in catalog
    ensures var here, made := Scan(query, catalog, machineIndex, i), Created(catalog, query[i], i, machineIndex);
      var rest := Scan(query, catalog, machineIndex, if made.value.numBays > 1 then i + 2 else i + 1);
      && put[i := made] + rest.components == put + here.components
      && sent + [TypeQuery(0, i)] + [Create(machineIndex, i, query[i])] + rest.sends == sent + here.sends
      && rest.outcome == here.outcome
  {
    var code := query[i];
    var made := Created(catalog, code, i, machineIndex);
    var next := if made.value.numBays > 1 then i + 2 else i + 1;
    var rest := Scan(query, catalog, machineIndex, next);
    ScanPutsCreated(query, catalog, machineIndex, next);
    PutThenUnion(put, i, made, rest.components);
    assert sent + [TypeQuery(0, i)] + [Create(machineIndex, i, code)] + rest.sends
      == sent + ([TypeQuery(0, i), Create(machineIndex, i, code)] + rest.sends);
  }

  class ModularBayComponent {
    var components: map<int, Option<Component>>
    /** `getMachineIndex()`: the machine the bay belongs to. */
    const machineIndex: int
    var sent: seq<ModularSend>

    constructor (machineIndex: int)
      ensures this.machineIndex == machineIndex && components == map[] && sent == []
    {
      this.machineIndex := machineIndex;
      components := map[];
      sent := [];
    }

    /** `create(type, bay)`: the component of the type for the bay, carrying the
        machine's index, or none for a type without a component class; the CREATE
        message is sent for every type. */
    method CreateComponent(catalog: map<int, int>, code: int, bay: int) returns (c: Option<Component>)
      modifies this
      ensures c == Created(catalog, code, bay, machineIndex)
      ensures sent == old(sent) + [Create(machineIndex, bay, code)]
      ensures components == old(components)
    {
      if code in catalog {
        c := Some(Component(code, bay, machineIndex, catalog[code]));
      } else {
        c := None;
      }
      sent := sent + [Create(machineIndex, bay, code)];
    }

    /** `restoreComponents`: the bay scan, then a restore of every stored component. */
    method RestoreComponents(query: seq<int>, catalog: map<int, int>) returns (o: Outcome)
      requires |query| == BayCount
      modifies this
      ensures var scan := Scan(query, catalog, machineIndex, 0);
        && components == old(components) + scan.components
        && (scan.outcome.Fail? ==> o == scan.outcome && sent == old(sent) + scan.sends)
        && (scan.outcome.Pass? ==>
          var restored := RestoreFrom(SortedMaps.SortedKeys(components.Keys), 0, components);
          o == restored.outcome && sent == old(sent) + scan.sends + restored.sends)
    {
      o := ScanBays(query, catalog);
      if o.Fail? {
        return;
      }
      o := RestoreStored(SortedMaps.SortedKeys(components.Keys));
    }

    /** The scan half of `restoreComponents`. */
    method ScanBays(query: seq<int>, catalog: map<int, int>) returns (o: Outcome)
      requires |query| == BayCount
      modifies this
      ensures var scan := Scan(query, catalog, machineIndex, 0);
        components == old(components) + scan.components && sent == old(sent) + scan.sends && o == scan.outcome
    {
      var i := 0;
      while i < BayCount
        invariant 0 <= i <= BayCount + 1
        invariant components + Scan(query, catalog, machineIndex, i).components
          == old(components) + Scan(query, catalog, machineIndex, 0).components
        invariant sent + Scan(query, catalog, machineIndex, i).sends == old(sent) + Scan(query, catalog, machineIndex, 0).sends
        invariant Scan(query, catalog, machineIndex, i).outcome == Scan(query, catalog, machineIndex, 0).outcome
        decreases BayCount - i
      {
        var next;
        next, o := ScanBay(query, catalog, i);
        if o.Fail? {
          return;
        }
        i := next;
      }
      o := Pass;
    }

    /** One pass of the scan loop: bay `i` is queried and, for a non-zero type, its
        component is created and put; the scan goes on at the next bay, or the one
        after when the component spans more than one bay. */
    method ScanBay(query: seq<int>, catalog: map<int, int>, i: int) returns (next: int, o: Outcome)
      requires |query| == BayCount && 0 <= i < BayCount
      modifies this
      ensures o.Fail? ==>
        && components == old(components) + Scan(query, catalog, machineIndex, i).components
        && sent == old(sent) + Scan(query, catalog, machineIndex, i).sends
        && o == Scan(query, catalog, machineIndex, i).outcome
      ensures o.Pass? ==>
        && i < next <= i + 2
        && components + Scan(query, catalog, machineIndex, next).components == old(components) + Scan(query, catalog, machineIndex, i).components
        && sent + Scan(query, catalog, machineIndex, next).sends == old(sent) + Scan(query, catalog, machineIndex, i).sends
        && Scan(query, catalog, machineIndex, next).outcome == Scan(query, catalog, machineIndex, i).outcome
    {
      sent := sent + [TypeQuery(0, i)];
      var code := query[i];
      next := i + 1;
      o := Pass;
      if code == 0 {
        ScanStepEmpty(query, catalog, machineIndex, i, old(components), old(sent));
      } else {
        if code in catalog {
          ScanStepCreated(query, catalog, machineIndex, i, old(components), old(sent));
        } else {
          ScanStepUnknown(query, catalog, machineIndex, i, old(components), old(sent));
        }
        var made := CreateComponent(catalog, code, i);
        components := components[i := made];
        if made.None? {
          return next, Fail(NullPointer);
        }
        if made.value.numBays > 1 {
          next := next + 1;
        }
      }
    }

    /** The restore half of `restoreComponents`: the component stored at each of
        `bays`, in order (`restoreComponents` passes the stored bays in ascending
        order). */
    method RestoreStored(bays: seq<int>) returns (o: Outcome)
      modifies this
      ensures components == old(components)
      ensures var restored := RestoreFrom(bays, 0, components);
        o == restored.outcome && sent == old(sent) + restored.sends
    {
      var log := [];
      var j := 0;
      while j < |bays|
        invariant 0 <= j <= |bays|
        invariant unchanged(this)
        invariant log + RestoreFrom(bays, j, components).sends == RestoreFrom(bays, 0, components).sends
        invariant RestoreFrom(bays, j, components).outcome == RestoreFrom(bays, 0, components).outcome
      {
        if bays[j] !in components || components[bays[j]].None? {
          sent := sent + log;
          return Fail(NullPointer);
        }
        log := log + [RestoreComponent(bays[j])];
        j := j + 1;
      }
      sent := sent + log;
      o := Pass;
    }
  }

  /** Putting a bay and then adding bays above it is adding both at once. */
  lemma PutThenUnion(m: map<int, Option<Component>>, i: int, v: Option<Component>, rest: map<int, Option<Component>>)
    requires forall k :: k in rest ==> k > i
    ensures m[i := v] + rest == m + (map[i := v] + rest)
  {
  }
}
