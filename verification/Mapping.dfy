/** The persisted two-way index between pod ids and workload names. */
module Mapping {
  datatype Entry = Entry(id: string, name: string)

  datatype Index = Index(idToName: map<string, string>, nameToId: map<string, string>)

  /** The two maps are each other's inverse. */
  ghost predicate Inverse(ix: Index)
  {
    && (forall id :: id in ix.idToName ==> ix.idToName[id] in ix.nameToId && ix.nameToId[ix.idToName[id]] == id)
    && (forall name :: name in ix.nameToId ==>
          ix.nameToId[name] in ix.idToName && ix.idToName[ix.nameToId[name]] == name)
  }

  function Added(ix: Index, name: string, id: string): Index
  {
    Index(ix.idToName[id := name], ix.nameToId[name := id])
  }

  function Lookup(m: map<string, string>, key: string): string
  {
    if key in m then m[key] else ""
  }

  function Removed(ix: Index, name: string): Index
  {
    Index(ix.idToName - {Lookup(ix.nameToId, name)}, ix.nameToId - {name})
  }

  /** What loading a list of entries builds. */
  function Rebuilt(entries: seq<Entry>): Index
  {
    if entries == [] then Index(map[], map[])
    else Added(Rebuilt(entries[..|entries| - 1]), entries[|entries| - 1].name, entries[|entries| - 1].id)
  }

  /** The entries list the map, every id once, in some order. */
  ghost predicate Lists(entries: seq<Entry>, m: map<string, string>)
  {
    && (forall e :: e in entries ==> e.id in m && m[e.id] == e.name)
    && (forall id :: id in m ==> Entry(id, m[id]) in entries)
    && (forall i, j :: 0 <= i < j < |entries| ==> entries[i].id != entries[j].id)
  }

  /** Adding a pair keeps the maps inverse exactly when neither side is taken by another pair. */
  lemma AddKeepsInverse(ix: Index, name: string, id: string)
    requires Inverse(ix)
    ensures Inverse(Added(ix, name, id)) <==>
            (name in ix.nameToId ==> ix.nameToId[name] == id) && (id in ix.idToName ==> ix.idToName[id] == name)
  {
    var t := Added(ix, name, id);
    if name in ix.nameToId && ix.nameToId[name] != id {
      var other := ix.nameToId[name];
      assert t.idToName[other] == name && t.nameToId[name] == id;
    }
    if id in ix.idToName && ix.idToName[id] != name {
      var other := ix.idToName[id];
      assert t.nameToId[other] == id && t.idToName[id] == name;
    }
  }

  /** Removing a name keeps the maps inverse exactly when the name is known or no id is empty:
      an unknown name looks up the empty id. */
  lemma RemoveKeepsInverse(ix: Index, name: string)
    requires Inverse(ix)
    ensures Inverse(Removed(ix, name)) <==> name in ix.nameToId || "" !in ix.idToName
    ensures Inverse(Removed(ix, name)) ==> name !in Removed(ix, name).nameToId
  {
    var t := Removed(ix, name);
    if name !in ix.nameToId && "" in ix.idToName {
      var other := ix.idToName[""];
      assert other in t.nameToId && t.nameToId[other] == "" && "" !in t.idToName;
    }
  }

  lemma {:induction false} RebuiltMaps(entries: seq<Entry>)
    ensures forall e :: e in entries ==> e.id in Rebuilt(entries).idToName && e.name in Rebuilt(entries).nameToId
    ensures forall id :: id in Rebuilt(entries).idToName ==> Entry(id, Rebuilt(entries).idToName[id]) in entries
    ensures forall name :: name in Rebuilt(entries).nameToId ==> Entry(Rebuilt(entries).nameToId[name], name) in entries
  {
    if entries != [] {
      var front, last := entries[..|entries| - 1], entries[|entries| - 1];
      RebuiltMaps(front);
      assert entries == front + [last] && last == Entry(last.id, last.name);
    }
  }

  /** Persisting a one-to-one index and loading it again restores both maps, whatever order the
      entries were written in. */
  lemma ReloadRestores(ix: Index, entries: seq<Entry>)
    requires Inverse(ix) && Lists(entries, ix.idToName)
    ensures Rebuilt(entries) == ix
  {
    RebuiltMaps(entries);
    var t := Rebuilt(entries);
    forall id | id in ix.idToName
      ensures id in t.idToName && t.idToName[id] == ix.idToName[id]
    {
      assert Entry(id, ix.idToName[id]) in entries;
      assert Entry(id, t.idToName[id]) in entries;
    }
    forall name | name in ix.nameToId
      ensures name in t.nameToId && t.nameToId[name] == ix.nameToId[name]
    {
      assert Entry(ix.nameToId[name], name) in entries;
      assert Entry(t.nameToId[name], name) in entries;
    }
    forall name | name in t.nameToId
      ensures name in ix.nameToId
    {
      assert Entry(t.nameToId[name], name) in entries;
    }
    assert t.idToName == ix.idToName;
    assert t.nameToId == ix.nameToId;
  }

  /** What the workload manager does to the index: it starts a pod only after the workload was
      removed, and every pod has a fresh id. */
  datatype Change = Start(name: string, id: string) | Drop(name: string)

  predicate Allowed(ix: Index, c: Change)
  {
    c.Start? ==> c.name !in ix.nameToId && c.id !in ix.idToName && c.id != ""
  }

  function Changed(ix: Index, c: Change): Index
  {
    match c
    case Start(name, id) => Added(ix, name, id)
    case Drop(name) => Removed(ix, name)
  }

  /** Over every run of the manager the index stays one-to-one. */
  lemma {:induction false} RunsStayInverse(indexes: seq<Index>, changes: seq<Change>, i: nat)
    requires |indexes| == |changes| + 1 && i <= |changes|
    requires Inverse(indexes[0]) && "" !in indexes[0].idToName
    requires forall k :: 0 <= k < |changes| ==>
               Allowed(indexes[k], changes[k]) && indexes[k + 1] == Changed(indexes[k], changes[k])
    ensures Inverse(indexes[i]) && "" !in indexes[i].idToName
  {
    if i > 0 {
      RunsStayInverse(indexes, changes, i - 1);
      match changes[i - 1]
      case Start(name, id) => AddKeepsInverse(indexes[i - 1], name, id);
      case Drop(name) => RemoveKeepsInverse(indexes[i - 1], name);
    }
  }

  class MappingRepository {
    var idToName: map<string, string>
    var nameToId: map<string, string>
    var file: seq<Entry>

    function Current(): Index
      reads this
    {
      Index(idToName, nameToId)
    }

    /** The maps are inverse, no id is empty, and so are the maps a restart would load. */
    ghost predicate Valid()
      reads this
    {
      Inverse(Current()) && "" !in idToName && Inverse(Rebuilt(file))
    }

    /** Loads the mapping file; a missing file is one without entries. */
    constructor (file: seq<Entry>)
      ensures Current() == Rebuilt(file) && this.file == file
    {
      this.file := file;
      var ids, names := map[], map[];
      var i := 0;
      while i < |file|
        invariant 0 <= i <= |file| && Index(ids, names) == Rebuilt(file[..i])
      {
        ids := ids[file[i].id := file[i].name];
        names := names[file[i].name := file[i].id];
        assert file[..i + 1][..i] == file[..i];
        i := i + 1;
      }
      assert file[..|file|] == file;
      idToName, nameToId := ids, names;
    }

    method Persist(writes: bool) returns (ok: bool)
      modifies this`file
      ensures ok == writes
      ensures if writes then Lists(file, idToName) else file == old(file)
    {
      var entries: seq<Entry> := [];
      var left := idToName.Keys;
      while left != {}
        invariant left <= idToName.Keys
        invariant forall e :: e in entries ==> e.id in idToName && e.id !in left && idToName[e.id] == e.name
        invariant forall id :: id in idToName && id !in left ==> Entry(id, idToName[id]) in entries
        invariant forall i, j :: 0 <= i < j < |entries| ==> entries[i].id != entries[j].id
        decreases |left|
      {
        var id :| id in left;
        assert forall e :: e in entries ==> e.id != id;
        entries := entries + [Entry(id, idToName[id])];
        left := left - {id};
      }
      if writes {
        file := entries;
      }
      return writes;
    }

    /** Records a pair; the maps change even when the file cannot be written. */
    method Add(name: string, id: string, writes: bool) returns (ok: bool)
      requires Valid()
      modifies this
      ensures Current() == Added(old(Current()), name, id) && ok == writes
      ensures if writes then Lists(file, idToName) else file == old(file)
      ensures Inverse(Current()) <==>
              && (name in old(nameToId) ==> old(nameToId)[name] == id)
              && (id in old(idToName) ==> old(idToName)[id] == name)
      ensures Inverse(Current()) && id != "" ==> Valid()
      ensures Inverse(Current()) && writes ==> Rebuilt(file) == Current()
    {
      idToName := idToName[id := name];
      nameToId := nameToId[name := id];
      AddKeepsInverse(old(Current()), name, id);
      ok := Persist(writes);
      if writes && Inverse(Current()) {
        ReloadRestores(Current(), file);
      }
    }

    method Remove(name: string, writes: bool) returns (ok: bool)
      requires Valid()
      modifies this
      ensures Valid() && ok == writes
      ensures Current() == Removed(old(Current()), name)
      ensures if writes then Lists(file, idToName) else file == old(file)
      ensures writes ==> Rebuilt(file) == Current()
    {
      RemoveKeepsInverse(Current(), name);
      var id := if name in nameToId then nameToId[name] else "";
      idToName := idToName - {id};
      nameToId := nameToId - {name};
      ok := Persist(writes);
      if writes {
        ReloadRestores(Current(), file);
      }
    }

    /** Without the file a restart loads an empty index; the one in memory stays. */
    method RemoveMappingFile(fails: bool) returns (ok: bool)
      requires Valid()
      modifies this`file
      ensures Valid() && ok == !fails && file == if ok then [] else old(file)
    {
      if fails {
        return false;
      }
      file := [];
      return true;
    }

    function GetId(name: string): string
      reads this
    {
      Lookup(nameToId, name)
    }

    function GetName(id: string): string
      reads this
    {
      Lookup(idToName, id)
    }
  }
}
