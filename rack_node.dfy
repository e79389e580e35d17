/** `RackNode`: the root of a rack state. It owns the machines of the native rack,
    keyed by slot index, and a selected-index pointer.

    The machines themselves (`MachineNode`, its mixer channel and its lifecycle) are not
    part of this model beyond what the rack reads and writes: index, type, name, the
    mute and solo flags of the mixer channel, and the last lifecycle call made on it.
    Engine traffic is an append-only log of commands; posted events are a log too. */
module Rack {
  import opened Wrappers
  import Paths
  import SortedMaps

  /** The native rack has fourteen machine slots, 0..13. */
  const MachineSlots: int := 14

  /** The machine type tag (`MachineType`), opaque here. */
  datatype MachineType = MachineType(code: int)

  /** The last lifecycle call made on a machine node. */
  datatype Phase = Added | Created | Restored | Destroyed

  /** A machine node as the rack sees it. */
  datatype MachineNode = MachineNode(
    index: int,
    machineType: MachineType,
    name: string,
    mute: bool,
    solo: bool,
    phase: Phase)

  /** A freshly built machine node: its mixer channel is neither muted nor soloed. */
  function NewMachine(index: int, machineType: MachineType, name: string, phase: Phase): MachineNode {
    MachineNode(index, machineType, name, false, false, phase)
  }

  /** Commands sent to the native rack. */
  datatype RackCommand = BlankRack | LoadSong(path: string)

  /** Events the rack posts. */
  datatype RackEvent =
    | MachineCreated(machine: MachineNode)
    | MachineDestroyed(machine: MachineNode)
    | SelectionChanged(selected: Option<MachineNode>, lastSelected: Option<MachineNode>)
    | SoloRefresh

  /** `machines.get(index)`: the machine at `index`, or null. */
  function Lookup(machines: map<int, MachineNode>, index: int): (r: Option<MachineNode>)
    ensures r.Some? <==> index in machines
    ensures r.Some? ==> r.value == machines[index]
  {
    if index in machines then Some(machines[index]) else None
  }

  /** Every machine is stored under its own index (`addMachine` puts it there). */
  predicate Indexed(machines: map<int, MachineNode>) {
    forall k :: k in machines ==> machines[k].index == k
  }

  /** Exclusive solo: a soloed machine is the only soloed one and every other machine
      is muted. */
  predicate SoloExclusive(machines: map<int, MachineNode>) {
    forall a, b :: a in machines && b in machines && a != b && machines[a].solo ==>
      !machines[b].solo && machines[b].mute
  }

  /** The slots 0..13 the native rack reports a machine name for. */
  function OccupiedSlots(names: int -> Option<string>): set<int> {
    OccupiedBelow(names, MachineSlots)
  }

  /** The slots below `n` the native rack reports a machine name for. */
  function OccupiedBelow(names: int -> Option<string>, n: int): set<int> {
    set i | 0 <= i < n && names(i).Some? && names(i).value != ""
  }

  /** One slot of the scan: a slot with a name adds its machine, any other leaves the
      map as it was, and what the scan has built so far stays in place. */
  lemma ScanStep(start: map<int, MachineNode>, before: map<int, MachineNode>, after: map<int, MachineNode>,
                 names: int -> Option<string>, types: int -> MachineType, i: int)
    requires 0 <= i
    requires before.Keys == start.Keys + OccupiedBelow(names, i)
    requires forall j :: j in OccupiedBelow(names, i) ==> before[j] == NewMachine(j, types(j), names(j).value, Added)
    requires forall k :: k in start && k !in OccupiedBelow(names, i) ==> before[k] == start[k]
    requires after == if names(i).Some? && names(i).value != "" then before[i := NewMachine(i, types(i), names(i).value, Added)] else before
    ensures after.Keys == start.Keys + OccupiedBelow(names, i + 1)
    ensures forall j :: j in OccupiedBelow(names, i + 1) ==> after[j] == NewMachine(j, types(j), names(j).value, Added)
    ensures forall k :: k in start && k !in OccupiedBelow(names, i + 1) ==> after[k] == start[k]
  {
    if names(i).Some? && names(i).value != "" {
      assert OccupiedBelow(names, i + 1) == OccupiedBelow(names, i) + {i};
    } else {
      assert OccupiedBelow(names, i + 1) == OccupiedBelow(names, i);
    }
  }

  /** `File.isAbsolute` on a Unix file system: the path starts at the root. */
  predicate IsAbsolute(path: string) {
    |path| > 0 && path[0] == '/'
  }

  /** `getAbsoluteFile().getAbsolutePath()`: an absolute path is kept, and a relative
      one is resolved under the songs directory. */
  function AbsoluteSongPath(path: string, songsDirectory: string): (r: string)
    ensures IsAbsolute(path) ==> r == path
    ensures IsAbsolute(songsDirectory) ==> IsAbsolute(r)
    ensures |path| <= |r| && r[|r| - |path|..] == path
  {
    if IsAbsolute(path) then path else songsDirectory + "/" + path
  }

  class RackNode {
    var path: Option<string>
    var machines: map<int, MachineNode>
    var selectedIndex: int
    var sent: seq<RackCommand>
    var events: seq<RackEvent>

    ghost predicate Valid()
      reads this
    {
      Indexed(machines)
    }

    /** `new RackNode(path)`: no machines, machine 0 selected. */
    constructor (path: Option<string>)
      ensures Valid()
      ensures this.path == path && machines == map[] && selectedIndex == 0
      ensures sent == [] && events == []
    {
      this.path := path;
      machines := map[];
      selectedIndex := 0;
      sent := [];
      events := [];
    }

    /** `getName`: the base name of the `.caustic` path; fails when there is no path. */
    function GetName(): (r: Result<string>)
      reads this
      ensures r.Err? <==> path.None?
      ensures r.Err? ==> r.failure == IllegalState
      ensures r.Ok? ==> r.value == Paths.BaseName(path.value)
    {
      if path.None? then Err(IllegalState) else Ok(Paths.BaseName(path.value))
    }

    /** `getSelectedMachine`: the machine under the selected index, or null when that
        index is not a key (which includes -1). */
    function SelectedMachine(): (r: Option<MachineNode>)
      reads this
      ensures r.Some? <==> selectedIndex in machines
      ensures r.Some? ==> r.value == machines[selectedIndex]
    {
      Lookup(machines, selectedIndex)
    }

    /** `addMachine(machineNode)`: stores the node under its own index, replacing any
        node already there. */
    method AddMachine(node: MachineNode)
      requires Valid()
      modifies this
      ensures Valid()
      ensures machines == old(machines)[node.index := node]
      ensures selectedIndex == old(selectedIndex) && path == old(path)
      ensures sent == old(sent) && events == old(events)
    {
      machines := machines[node.index := node];
    }

    /** `removeMachine(index)`: removes the key and returns what was there, or null. */
    method RemoveMachine(index: int) returns (r: Option<MachineNode>)
      requires Valid()
      modifies this
      ensures Valid()
      ensures r == Lookup(old(machines), index)
      ensures machines == old(machines) - {index}
      ensures selectedIndex == old(selectedIndex) && path == old(path)
      ensures sent == old(sent) && events == old(events)
    {
      r := Lookup(machines, index);
      machines := machines - {index};
    }

    /** `createMachine(index, type, name)`: refuses an occupied index; otherwise adds a
        new machine at exactly that index, calls its `create`, and posts the creation. */
    method CreateMachine(index: int, machineType: MachineType, name: string) returns (r: Result<MachineNode>)
      requires Valid()
      modifies this
      ensures Valid()
      ensures index in old(machines) ==> r == Err(CausticException) && machines == old(machines) && events == old(events)
      ensures index !in old(machines) ==>
        && r == Ok(NewMachine(index, machineType, name, Created))
        && machines == old(machines)[index := r.value]
        && events == old(events) + [MachineCreated(r.value)]
      ensures selectedIndex == old(selectedIndex) && path == old(path) && sent == old(sent)
    {
      if index in machines {
        return Err(CausticException);
      }
      var node := NewMachine(index, machineType, name, Added);
      AddMachine(node);
      // createMachine(machineNode) adds the node once more, then calls its create()
      node := node.(phase := Created);
      AddMachine(node);
      events := events + [MachineCreated(node)];
      r := Ok(node);
    }

    /** `setSelectedIndex(int)`: nothing happens for the current value; otherwise the
        index is taken as it is, whether or not a machine is there, and a selection
        change carrying the new and the previous selected machine is posted. */
    method SetSelectedIndex(index: int)
      requires Valid()
      modifies this
      ensures Valid()
      ensures selectedIndex == index
      ensures index == old(selectedIndex) ==> events == old(events)
      ensures index != old(selectedIndex) ==>
        events == old(events) + [SelectionChanged(Lookup(machines, index), Lookup(old(machines), old(selectedIndex)))]
      ensures machines == old(machines) && path == old(path) && sent == old(sent)
    {
      if selectedIndex == index {
        return;
      }
      var last := SelectedMachine();
      selectedIndex := index;
      events := events + [SelectionChanged(SelectedMachine(), last)];
    }

    /** `setSelectedIndex(MachineNode)`: fails for a node whose index is not a key. */
    method SelectMachine(node: MachineNode) returns (o: Outcome)
      requires Valid()
      modifies this
      ensures Valid()
      ensures node.index !in old(machines) ==> o == Fail(CausticError) && selectedIndex == old(selectedIndex) && events == old(events)
      ensures node.index in old(machines) ==> o == Pass && selectedIndex == node.index && node.index in machines && SelectedMachine() == Some(machines[node.index])
      ensures node.index in old(machines) ==>
        events == old(events) + (if node.index == old(selectedIndex) then []
                                 else [SelectionChanged(Some(old(machines)[node.index]), Lookup(old(machines), old(selectedIndex)))])
      ensures machines == old(machines) && path == old(path) && sent == old(sent)
    {
      if node.index !in machines {
        return Fail(CausticError);
      }
      SetSelectedIndex(node.index);
      o := Pass;
    }

    /** `destroyMachine(index)`: removes exactly that key and destroys the node; when it
        was the selected one the selection becomes -1. An index with no machine fails
        (the source dereferences the missing node) and changes nothing. */
    method DestroyMachine(index: int) returns (r: Result<MachineNode>)
      requires Valid()
      modifies this
      ensures Valid()
      ensures index !in old(machines) ==> r == Err(NullPointer) && machines == old(machines) && selectedIndex == old(selectedIndex) && events == old(events)
      ensures index in old(machines) ==>
        && r == Ok(old(machines)[index].(phase := Destroyed))
        && machines == old(machines) - {index}
        && selectedIndex == (if old(selectedIndex) == index then -1 else old(selectedIndex))
        && events == old(events)
                      + (if old(selectedIndex) == index && index != -1 then [SelectionChanged(Lookup(machines, -1), None)] else [])
                      + [MachineDestroyed(r.value)]
      ensures path == old(path) && sent == old(sent)
    {
      var removed := RemoveMachine(index);
      if removed.None? {
        return Err(NullPointer);
      }
      var node := removed.value.(phase := Destroyed);
      if selectedIndex == index {
        SetSelectedIndex(-1);
      }
      events := events + [MachineDestroyed(node)];
      r := Ok(node);
    }

    /** `setMute(index, value)`: clears the solo flag of every machine, then sets the
        mute flag of machine `index` alone. A missing machine fails after the solo flags
        were cleared, as in the source. */
    method SetMute(index: int, value: bool) returns (o: Outcome)
      requires Valid()
      modifies this
      ensures Valid()
      ensures machines.Keys == old(machines).Keys
      ensures forall k :: k in machines && k != index ==> machines[k] == old(machines)[k].(solo := false)
      ensures index in old(machines) ==> o == Pass && machines[index] == old(machines)[index].(solo := false, mute := value)
      ensures index !in old(machines) ==> o == Fail(NullPointer) && events == old(events)
      ensures index in old(machines) ==> events == old(events) + [SoloRefresh]
      ensures forall k :: k in machines ==> !machines[k].solo
      ensures selectedIndex == old(selectedIndex) && path == old(path) && sent == old(sent)
    {
      var ms := machines;
      var todo := ms.Keys;
      while todo != {}
        invariant todo <= ms.Keys
        invariant ms.Keys == machines.Keys
        invariant forall k :: k in ms && k !in todo ==> ms[k] == machines[k].(solo := false)
        invariant forall k :: k in todo ==> ms[k] == machines[k]
        invariant unchanged(this)
        decreases todo
      {
        var k := SortedMaps.Least(todo);
        ms := ms[k := ms[k].(solo := false)];
        todo := todo - {k};
      }
      machines := ms;
      if index !in machines {
        return Fail(NullPointer);
      }
      machines := machines[index := machines[index].(mute := value)];
      events := events + [SoloRefresh];
      o := Pass;
    }

    /** `setSolo(index, true)`: every other machine ends muted and unsoloed, machine
        `index` unmuted and soloed, so the solo is exclusive. `setSolo(index, false)`:
        every machine ends unmuted and unsoloed. A missing machine with `true` fails
        after the others were muted, as in the source. */
    method SetSolo(index: int, value: bool) returns (o: Outcome)
      requires Valid()
      modifies this
      ensures Valid()
      ensures machines.Keys == old(machines).Keys
      ensures value ==> forall k :: k in machines && k != index ==> machines[k] == old(machines)[k].(mute := true, solo := false)
      ensures value && index in old(machines) ==>
        && o == Pass
        && machines[index] == old(machines)[index].(mute := false, solo := true)
        && SoloExclusive(machines)
      ensures value && index !in old(machines) ==> o == Fail(NullPointer)
      ensures !value ==> o == Pass && forall k :: k in machines ==> machines[k] == old(machines)[k].(mute := false, solo := false)
      ensures selectedIndex == old(selectedIndex) && path == old(path) && sent == old(sent) && events == old(events)
    {
      var ms := machines;
      var todo := ms.Keys;
      while todo != {}
        invariant todo <= ms.Keys
        invariant ms.Keys == machines.Keys
        invariant value ==> forall k :: k in ms && k !in todo && k != index ==> ms[k] == machines[k].(mute := true, solo := false)
        invariant !value ==> forall k :: k in ms && k !in todo ==> ms[k] == machines[k].(mute := false, solo := false)
        invariant forall k :: k in todo || (value && k == index && k in ms) ==> ms[k] == machines[k]
        invariant unchanged(this)
        decreases todo
      {
        var k := SortedMaps.Least(todo);
        if !value {
          ms := ms[k := ms[k].(mute := false, solo := false)];
        } else if ms[k].index != index {
          ms := ms[k := ms[k].(mute := true, solo := false)];
        }
        todo := todo - {k};
      }
      machines := ms;
      if !value {
        return Pass;
      }
      if index !in machines {
        return Fail(NullPointer);
      }
      machines := machines[index := machines[index].(mute := false, solo := true)];
      o := Pass;
    }

    /** `restoreComponents`: with a path, the native rack is blanked and the song loaded;
        then each of the fourteen slots whose queried machine name is non-null and
        non-empty gets a new machine of the queried type (replacing a node already under
        that key), and every machine is restored. `names` and `types` are the engine's
        answers to the name and type queries; `songsDirectory` is the application's
        songs directory, under which a relative path is loaded. */
    method RestoreComponents(names: int -> Option<string>, types: int -> MachineType, songsDirectory: string)
      requires Valid()
      modifies this
      ensures Valid()
      ensures machines.Keys == old(machines).Keys + OccupiedSlots(names)
      ensures forall i :: i in OccupiedSlots(names) ==> machines[i] == NewMachine(i, types(i), names(i).value, Restored)
      ensures forall k :: k in old(machines) && k !in OccupiedSlots(names) ==> machines[k] == old(machines)[k].(phase := Restored)
      ensures path.Some? ==> sent == old(sent) + [BlankRack, LoadSong(AbsoluteSongPath(path.value, songsDirectory))]
      ensures path.None? ==> sent == old(sent)
      ensures selectedIndex == old(selectedIndex) && path == old(path) && events == old(events)
    {
      if path.Some? {
        sent := sent + [BlankRack, LoadSong(AbsoluteSongPath(path.value, songsDirectory))];
      }
      ScanSlots(names, types);
      RestoreMachines();
    }

    /** The slot scan of `restoreComponents`: slots 0..13 in order, each with a non-empty
        name adding a new machine of the queried type under its index. */
    method ScanSlots(names: int -> Option<string>, types: int -> MachineType)
      requires Valid()
      modifies this
      ensures Valid()
      ensures machines.Keys == old(machines).Keys + OccupiedSlots(names)
      ensures forall i :: i in OccupiedSlots(names) ==> machines[i] == NewMachine(i, types(i), names(i).value, Added)
      ensures forall k :: k in old(machines) && k !in OccupiedSlots(names) ==> machines[k] == old(machines)[k]
      ensures selectedIndex == old(selectedIndex) && path == old(path) && events == old(events) && sent == old(sent)
    {
      var i := 0;
      while i < MachineSlots
        invariant 0 <= i <= MachineSlots
        invariant machines.Keys == old(machines).Keys + OccupiedBelow(names, i)
        invariant forall j :: j in OccupiedBelow(names, i) ==> machines[j] == NewMachine(j, types(j), names(j).value, Added)
        invariant forall k :: k in old(machines) && k !in OccupiedBelow(names, i) ==> machines[k] == old(machines)[k]
        invariant Indexed(machines)
        invariant selectedIndex == old(selectedIndex) && path == old(path) && events == old(events) && sent == old(sent)
      {
        ghost var before := machines;
        var name := names(i);
        if name.Some? && name.value != "" {
          AddMachine(NewMachine(i, types(i), name.value, Added));
        }
        ScanStep(old(machines), before, machines, names, types, i);
        i := i + 1;
      }
    }

    /** The closing loop of `restoreComponents`: every machine is restored. */
    method RestoreMachines()
      requires Valid()
      modifies this
      ensures Valid()
      ensures machines.Keys == old(machines).Keys
      ensures forall k :: k in machines ==> machines[k] == old(machines)[k].(phase := Restored)
      ensures selectedIndex == old(selectedIndex) && path == old(path) && events == old(events) && sent == old(sent)
    {
      var todo := machines.Keys;
      while todo != {}
        invariant todo <= machines.Keys
        invariant machines.Keys == old(machines).Keys
        invariant forall k :: k in machines ==> machines[k] == if k in todo then old(machines)[k] else old(machines)[k].(phase := Restored)
        invariant Indexed(machines)
        invariant selectedIndex == old(selectedIndex) && path == old(path) && events == old(events) && sent == old(sent)
        decreases todo
      {
        var k := SortedMaps.Least(todo);
        machines := machines[k := machines[k].(phase := Restored)];
        todo := todo - {k};
      }
    }
  }
}
