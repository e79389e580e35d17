/** `Pattern`: a pattern of the groove machine, an insertion-ordered list of distinct
    parts, a length pushed into every part's phrase, and the selected part. A part is
    known here only by its identity and the length its phrase was last given; the
    library item and the tempo sent to the system sequencer are not part of this
    model. */
module Patterns {
  import opened Wrappers

  /** A part of the pattern; `phraseLength` is the length its phrase holds. */
  class Part {
    var phraseLength: int

    constructor (phraseLength: int)
      ensures this.phraseLength == phraseLength
    {
      this.phraseLength := phraseLength;
    }
  }

  /** `OnPatternSelectedPartChange(part, oldPart)`. */
  datatype SelectedPartChange = SelectedPartChange(part: Option<Part>, oldPart: Option<Part>)

  /** No part appears twice. */
  ghost predicate Distinct(parts: seq<Part>) {
    forall i, j :: 0 <= i < j < |parts| ==> parts[i] != parts[j]
  }

  /** A list without repetitions has as many elements as it has distinct members. */
  lemma {:induction false} DistinctCount(parts: seq<Part>)
    requires Distinct(parts)
    ensures |set p | p in parts| == |parts|
  {
    if parts != [] {
      var rest := parts[..|parts| - 1];
      var last := parts[|parts| - 1];
      assert Distinct(rest);
      DistinctCount(rest);
      assert last !in rest;
      assert (set p | p in parts) == (set p | p in rest) + {last};
    }
  }

  class Pattern {
    var parts: seq<Part>
    var length: int
    var selectedPart: Option<Part>
    var events: seq<SelectedPartChange>

    ghost predicate Valid()
      reads this
    {
      Distinct(parts)
    }

    /** A new pattern: no parts, no selection, and the length -1 that is not one yet. */
    constructor ()
      ensures Valid()
      ensures parts == [] && length == -1 && selectedPart == None && events == []
    {
      parts := [];
      length := -1;
      selectedPart := None;
      events := [];
    }

    /** `addPart`: a part already listed is ignored; a new one goes at the end. */
    method AddPart(part: Part)
      requires Valid()
      modifies this
      ensures Valid()
      ensures part in old(parts) ==> parts == old(parts)
      ensures part !in old(parts) ==> parts == old(parts) + [part]
      ensures length == old(length) && selectedPart == old(selectedPart) && events == old(events)
    {
      if part in parts {
        return;
      }
      parts := parts + [part];
    }

    /** `getPartCount`: the number of distinct parts added. */
    function GetPartCount(): (r: nat)
      requires Valid()
      reads this
      ensures r == |set p | p in parts|
    {
      DistinctCount(parts);
      |parts|
    }

    /** `getParts`: the parts in the order they were added. */
    function GetParts(): (r: seq<Part>)
      requires Valid()
      reads this
      ensures Distinct(r) && |r| == GetPartCount()
      ensures forall i :: 0 <= i < |r| ==> r[i] == parts[i]
    {
      parts
    }

    /** `getPart(index)`: the list's element; an index outside the list is refused. */
    function GetPart(index: int): (r: Result<Part>)
      reads this
      ensures r.Ok? <==> 0 <= index < |parts|
      ensures r.Ok? ==> r.value == parts[index]
      ensures r.Err? ==> r.failure == IndexOutOfBounds
    {
      if 0 <= index < |parts| then Ok(parts[index]) else Err(IndexOutOfBounds)
    }

    /** `setLength`: an equal value is ignored; otherwise the value is taken and every
        part's phrase is given it. */
    method SetLength(value: int)
      modifies this, parts
      ensures length == value
      ensures old(length) == value ==> unchanged(old(parts))
      ensures old(length) != value ==> forall p :: p in parts ==> p.phraseLength == value
      ensures parts == old(parts) && selectedPart == old(selectedPart) && events == old(events)
    {
      if length == value {
        return;
      }
      length := value;
      var i := 0;
      while i < |parts|
        invariant 0 <= i <= |parts|
        invariant parts == old(parts) && length == value
        invariant selectedPart == old(selectedPart) && events == old(events)
        invariant forall j :: 0 <= j < i ==> parts[j].phraseLength == value
      {
        parts[i].phraseLength := value;
        i := i + 1;
      }
    }

    /** `setSelectedPart(part)`: selecting the selected part is ignored; otherwise the
        selection changes and one change carrying the new and old parts is posted. */
    method SetSelectedPart(value: Option<Part>)
      modifies this
      ensures selectedPart == value
      ensures old(selectedPart) == value ==> events == old(events)
      ensures old(selectedPart) != value ==> events == old(events) + [SelectedPartChange(value, old(selectedPart))]
      ensures parts == old(parts) && length == old(length)
    {
      if selectedPart == value {
        return;
      }
      var oldPart := selectedPart;
      selectedPart := value;
      events := events + [SelectedPartChange(selectedPart, oldPart)];
    }

    /** `setSelectedPart(index)`: selects the list's element; an index outside the list
        is refused before anything changes. */
    method SetSelectedPartAt(index: int) returns (o: Outcome)
      modifies this
      ensures o.Fail? <==> !(0 <= index < |parts|)
      ensures o.Fail? ==> o.failure == IndexOutOfBounds && selectedPart == old(selectedPart) && events == old(events)
      ensures o.Pass? ==> selectedPart == Some(parts[index])
      ensures o.Pass? && old(selectedPart) != Some(parts[index]) ==>
        events == old(events) + [SelectedPartChange(Some(parts[index]), old(selectedPart))]
      ensures o.Pass? && old(selectedPart) == Some(parts[index]) ==> events == old(events)
      ensures parts == old(parts) && length == old(length)
    {
      var part := GetPart(index);
      if part.Err? {
        return Fail(part.failure);
      }
      SetSelectedPart(Some(part.value));
      o := Pass;
    }
  }
}
