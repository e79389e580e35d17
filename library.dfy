/** `Library`: the in-memory index of a node library, a map from node type to a map
    from node id to the node's metadata (`NodeInfo`). Writing and deleting the archives
    on disk is not part of this model; the path the library's path resolver computes
    for a node, and the library directory, are parameters. */
module Libraries {
  import opened Wrappers
  import SortedMaps

  /** The kind of a node (`NodeType`), opaque here. */
  datatype NodeType = NodeType(code: int)

  /** A node's `UUID`. */
  datatype Uuid = Uuid(bits: int)

  /** The metadata of a node: its id and type, its optional name and archive file, and
      its path relative to the library directory. */
  datatype NodeInfo = NodeInfo(id: Uuid, nodeType: NodeType, name: Option<string>, file: Option<string>, relativePath: string)

  /** A `File(parent, child)`. */
  datatype FileRef = FileRef(directory: string, name: string)

  type Index = map<NodeType, map<Uuid, NodeInfo>>

  /** Every info is filed under its own type and id. */
  predicate WellFiled(index: Index) {
    forall t, u :: t in index && u in index[t] ==> index[t][u].id == u && index[t][u].nodeType == t
  }

  /** `contains`: the info's type has a bucket and the bucket holds the info's id. */
  predicate Holds(index: Index, info: NodeInfo) {
    info.nodeType in index && info.id in index[info.nodeType]
  }

  /** The index with `info` put under its type and id, the bucket created if needed. */
  function Inserted(index: Index, info: NodeInfo): Index {
    var bucket := if info.nodeType in index then index[info.nodeType] else map[];
    index[info.nodeType := bucket[info.id := info]]
  }

  /** The index with the id removed from the type's bucket (the bucket itself stays). */
  function Deleted(index: Index, t: NodeType, id: Uuid): Index
    requires t in index
  {
    index[t := index[t] - {id}]
  }

  /** Removing what was just added restores the index, except that a bucket created by
      the addition stays behind, empty. */
  lemma {:induction false} RemoveUndoesAdd(index: Index, info: NodeInfo)
    requires !Holds(index, info)
    ensures info.nodeType in index ==> Deleted(Inserted(index, info), info.nodeType, info.id) == index
    ensures info.nodeType !in index ==> Deleted(Inserted(index, info), info.nodeType, info.id) == index[info.nodeType := map[]]
  {
    var t := info.nodeType;
    if t in index {
      assert index[t][info.id := info] - {info.id} == index[t];
    } else {
      assert map[info.id := info] - {info.id} == map[];
    }
  }

  /** Adding never disturbs another entry, and filing keeps the index well filed. */
  lemma InsertedKeepsOthers(index: Index, info: NodeInfo)
    requires WellFiled(index)
    ensures WellFiled(Inserted(index, info))
    ensures Holds(Inserted(index, info), info)
    ensures forall t, u :: t in index && u in index[t] && (t, u) != (info.nodeType, info.id) ==>
      t in Inserted(index, info) && u in Inserted(index, info)[t] && Inserted(index, info)[t][u] == index[t][u]
  {
  }

  class Library {
    var index: Index
    /** What `getDirectory()` answers for this library. */
    const directory: string

    ghost predicate Valid()
      reads this
    {
      WellFiled(index)
    }

    constructor (directory: string)
      ensures Valid() && index == map[] && this.directory == directory
    {
      index := map[];
      this.directory := directory;
    }

    /** `contains(node)`. */
    function Contains(info: NodeInfo): (r: bool)
      reads this
      ensures r <==> Holds(index, info)
    {
      var infos := if info.nodeType in index then Some(index[info.nodeType]) else None;
      if infos.None? then false else info.id in infos.value
    }

    /** `get(id)`: scans every bucket for an info with that id; one is returned if any
        bucket files one, null otherwise. */
    method Get(id: Uuid) returns (r: Option<NodeInfo>)
      requires Valid()
      ensures r.None? <==> forall t :: t in index ==> id !in index[t]
      ensures r.Some? ==> r.value.id == id && exists t :: t in index && id in index[t] && index[t][id] == r.value
    {
      var types := index.Keys;
      while types != {}
        invariant types <= index.Keys
        invariant forall t :: t in index && t !in types ==> id !in index[t]
        decreases types
      {
        SortedMaps.HasMember(types);
        var t :| t in types;
        var list := index[t];
        var ids := list.Keys;
        while ids != {}
          invariant ids <= list.Keys
          invariant id in list ==> id in ids
          decreases ids
        {
          SortedMaps.HasMember(ids);
          var u :| u in ids;
          var info := list[u];
          if info.id == id {
            return Some(info);
          }
          ids := ids - {u};
        }
        types := types - {t};
      }
      r := None;
    }

    /** `add(node)` with `definitionAdded`: a contained node gives false and changes
        nothing; an info with neither file nor name is refused; otherwise the info,
        given the file the path resolver computes, is filed under its type and id, and
        the answer is true. */
    method Add(info: NodeInfo, resolvedPath: string) returns (r: Result<bool>)
      requires Valid()
      modifies this
      ensures Valid()
      ensures old(Contains(info)) ==> r == Ok(false) && index == old(index)
      ensures !old(Contains(info)) && info.file.None? && info.name.None? ==> r == Err(CausticException) && index == old(index)
      ensures !old(Contains(info)) && (info.file.Some? || info.name.Some?) ==>
        && r == Ok(true)
        && index == Inserted(old(index), info.(file := Some(resolvedPath)))
        && Contains(info)
    {
      if Contains(info) {
        return Ok(false);
      }
      if info.file.None? && info.name.None? {
        return Err(CausticException);
      }
      var stored := info.(file := Some(resolvedPath));
      var list := if stored.nodeType in index then index[stored.nodeType] else map[];
      if stored.nodeType !in index {
        index := index[stored.nodeType := list];
      }
      index := index[stored.nodeType := list[stored.id := stored]];
      InsertedKeepsOthers(old(index), stored);
      r := Ok(true);
    }

    /** `remove(node)`: an absent node gives false; otherwise its id is removed from its
        bucket and the archive is resolved for deletion, which fails when the removed
        info has no file. */
    method Remove(info: NodeInfo) returns (r: Result<bool>)
      requires Valid()
      modifies this
      ensures Valid()
      ensures !old(Contains(info)) ==> r == Ok(false) && index == old(index)
      ensures old(Contains(info)) ==>
        && index == Deleted(old(index), info.nodeType, info.id)
        && !Contains(info)
        && (old(index)[info.nodeType][info.id].file.None? ==> r == Err(IllegalState))
        && (old(index)[info.nodeType][info.id].file.Some? ==> r == Ok(true))
    {
      if !Contains(info) {
        return Ok(false);
      }
      var typeMap := index[info.nodeType];
      var removed := typeMap[info.id];
      index := index[info.nodeType := typeMap - {info.id}];
      var archive := ResolveAbsoluteArchive(removed);
      if archive.Err? {
        return Err(archive.failure);
      }
      r := Ok(true);
    }

    /** `findAll(type)`: every info of the type's bucket (the filter keeps all); a type
        without a bucket fails at the dereference. */
    method FindAll(t: NodeType) returns (r: Result<seq<NodeInfo>>)
      requires Valid()
      ensures t !in index ==> r == Err(NullPointer)
      ensures t in index ==> r.Ok? && |r.value| == |index[t]|
      ensures t in index ==> forall u :: u in index[t] ==> index[t][u] in r.value
      ensures t in index ==> forall x :: x in r.value ==> x.id in index[t] && index[t][x.id] == x
    {
      if t !in index {
        return Err(NullPointer);
      }
      var list := index[t];
      var result := [];
      var ids := list.Keys;
      while ids != {}
        invariant ids <= list.Keys
        invariant |result| + |ids| == |list|
        invariant forall u :: u in list && u !in ids ==> list[u] in result
        invariant forall x :: x in result ==> x.id in list && x.id !in ids && list[x.id] == x
        decreases ids
      {
        SortedMaps.HasMember(ids);
        var u :| u in ids;
        var info := list[u];
        if !Filter(info) {
          result := result + [info];
        }
        ids := ids - {u};
      }
      r := Ok(result);
    }

    /** `filter`: excludes nothing. */
    function Filter(info: NodeInfo): (r: bool)
      ensures !r
    {
      false
    }

    /** `resolveAbsoluteArchive(info)`: the info's relative path inside the library
        directory; refused when the info has no file. */
    function ResolveAbsoluteArchive(info: NodeInfo): (r: Result<FileRef>)
      ensures r.Err? <==> info.file.None?
      ensures r.Err? ==> r.failure == IllegalState
      ensures r.Ok? ==> r.value == FileRef(directory, info.relativePath)
    {
      if info.file.None? then Err(IllegalState) else Ok(FileRef(directory, info.relativePath))
    }
  }
}
