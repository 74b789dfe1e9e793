/** The in-memory document store: a collection maps integer ids to stored
    tasks and hands out ids from a counter that only moves forward; the
    database is a registry of collections by name. */
module FakeMongoDb {
  import opened Wrappers
  import opened Domain

  /** The state of one collection as a value: the stored records by id and
      the id counter `_current_idx`. */
  datatype Store = Store(files: map<int, Task>, currentIdx: int)

  /** The state of a freshly constructed collection. */
  const Empty := Store(map[], 0)

  /** The counter invariant: the counter is non-negative and every stored id
      lies in [0, counter). */
  ghost predicate CounterInvariant(s: Store) {
    0 <= s.currentIdx && forall k :: k in s.files ==> 0 <= k < s.currentIdx
  }

  /** The stored ids at or above `from`: the variant of the probing loop. */
  function KeysFrom(files: map<int, Task>, from: int): set<int> {
    set k | k in files && from <= k
  }

  lemma KeysFromShrinks(files: map<int, Task>, from: int)
    requires from in files
    ensures |KeysFrom(files, from + 1)| < |KeysFrom(files, from)|
  {
    assert KeysFrom(files, from + 1) == KeysFrom(files, from) - {from};
  }

  /** The id the probing loop of `create` stops at: the least free id at or
      above `from`. */
  function NextFree(files: map<int, Task>, from: int): (id: int)
    ensures from <= id && id !in files
    ensures forall j :: from <= j < id ==> j in files
    decreases |KeysFrom(files, from)|
  {
    if from !in files then from
    else
      KeysFromShrinks(files, from);
      NextFree(files, from + 1)
  }

  /** `create` on a store value: the new store and the id assigned. */
  function Created(s: Store, t: Task): (r: (Store, int))
    ensures r.1 !in s.files && s.currentIdx <= r.1
    ensures r.0.files.Keys == s.files.Keys + {r.1} && |r.0.files| == |s.files| + 1
    ensures r.0.files[r.1] == t.(id := r.1)
    ensures forall k :: k in s.files ==> r.0.files[k] == s.files[k]
    ensures r.0.currentIdx == r.1 + 1
    ensures CounterInvariant(s) ==> r.1 == s.currentIdx && CounterInvariant(r.0)
  {
    var id := NextFree(s.files, s.currentIdx);
    (Store(s.files[id := t.(id := id)], id + 1), id)
  }

  /** `update` on a store value: KeyError for a missing id, otherwise the
      store with only that entry replaced. */
  function Updated(s: Store, id: int, t: Task): (r: Result<Store>)
    ensures r.Err? <==> id !in s.files
    ensures r.Err? ==> r.error == KeyError(id)
    ensures r.Ok? ==> r.value.files.Keys == s.files.Keys && r.value.currentIdx == s.currentIdx
    ensures r.Ok? ==> r.value.files[id] == t
    ensures r.Ok? ==> forall k :: k in s.files && k != id ==> r.value.files[k] == s.files[k]
    ensures r.Ok? && CounterInvariant(s) ==> CounterInvariant(r.value)
  {
    if id !in s.files then Err(KeyError(id))
    else Ok(Store(s.files[id := t], s.currentIdx))
  }

  /** `delete` on a store value: the id is gone, nothing else changes, and a
      missing id is a no-op. */
  function Deleted(s: Store, id: int): (r: Store)
    ensures r.files.Keys == s.files.Keys - {id}
    ensures forall k :: k in r.files ==> r.files[k] == s.files[k]
    ensures r.currentIdx == s.currentIdx
    ensures id !in s.files ==> r == s
    ensures CounterInvariant(s) ==> CounterInvariant(r)
  {
    if id in s.files then Store(s.files - {id}, s.currentIdx) else s
  }

  lemma DeleteIsIdempotent(s: Store, id: int)
    ensures Deleted(Deleted(s, id), id) == Deleted(s, id)
  {
  }

  /** `all` holds the stored records one per stored id: `keys` says which
      id each element of `all` comes from. */
  ghost predicate Enumerates(files: map<int, Task>, all: seq<Task>, keys: seq<int>) {
    && |keys| == |all|
    && (forall i :: 0 <= i < |keys| ==> keys[i] in files && all[i] == files[keys[i]])
    && (forall i, j :: 0 <= i < j < |keys| ==> keys[i] != keys[j])
    && (forall k :: k in files ==> k in keys)
  }

  /** A non-empty set of ids has an element. */
  lemma NonEmptyHasKey(ks: set<int>)
    requires ks != {}
    ensures exists k :: k in ks
  {
    if forall k :: k !in ks {
      assert false;
    }
  }

  /** One collection: `files` (the `file` view) and the counter. */
  class FakeCollection {
    var files: map<int, Task>
    var currentIdx: int

    function Model(): Store
      reads this
    {
      Store(files, currentIdx)
    }

    ghost predicate Valid()
      reads this
    {
      CounterInvariant(Model())
    }

    constructor ()
      ensures Model() == Empty && Valid()
    {
      files := map[];
      currentIdx := 0;
    }

    /** Probes upward from the counter for a free id, overwrites `file.id`
        with it, stores a copy of `file` and advances the counter past it. */
    method Create(file: TodoTask) returns (r: TodoTask)
      modifies this, file
      ensures r == file
      ensures (Model(), file.id) == Created(old(Model()), old(file.Snapshot()))
      ensures file.name == old(file.name) && file.status == old(file.status)
      ensures currentIdx == file.id + 1
      ensures old(Valid()) ==> Valid() && file.id == old(currentIdx)
    {
      while currentIdx in files
        invariant files == old(files) && old(currentIdx) <= currentIdx
        invariant NextFree(files, currentIdx) == NextFree(files, old(currentIdx))
        invariant unchanged(file)
        decreases |KeysFrom(files, currentIdx)|
      {
        KeysFromShrinks(files, currentIdx);
        currentIdx := currentIdx + 1;
      }
      file.id := currentIdx;
      files := files[file.id := file.Snapshot()];
      currentIdx := currentIdx + 1;
      r := file;
    }

    /** The stored record for `id`, or None; never raises. */
    method Read(id: int) returns (r: Option<Task>)
      ensures r.Some? <==> id in files
      ensures r.Some? ==> r.value == files[id]
    {
      if id in files {
        return Some(files[id]);
      }
      return None;
    }

    /** Raises KeyError for a missing id and changes nothing; otherwise
        stores a copy of `file` under `id` and returns `file`. */
    method Update(id: int, file: TodoTask) returns (r: Result<TodoTask>)
      modifies this
      ensures id !in old(files) ==> r == Err(KeyError(id)) && Model() == old(Model())
      ensures id in old(files) ==> r == Ok(file) && Updated(old(Model()), id, file.Snapshot()) == Ok(Model())
      ensures old(Valid()) ==> Valid()
    {
      if id !in files {
        return Err(KeyError(id));
      }
      files := files[id := file.Snapshot()];
      r := Ok(file);
    }

    /** Removes `id` if it is stored; otherwise does nothing. */
    method Delete(id: int)
      modifies this
      ensures Model() == Deleted(old(Model()), id)
      ensures currentIdx == old(currentIdx)
      ensures old(Valid()) ==> Valid()
    {
      if id in files {
        files := files - {id};
      }
    }

    /** A copy of every stored record, one per stored id (`keys`, a ghost
        result, says which). */
    method ListAll() returns (all: seq<Task>, ghost keys: seq<int>)
      ensures |all| == |files|
      ensures Enumerates(files, all, keys)
    {
      all, keys := [], [];
      var rest := files.Keys;
      while rest != {}
        invariant rest <= files.Keys
        invariant Enumerates(files - rest, all, keys)
        invariant |keys| + |rest| == |files|
        decreases |rest|
      {
        NonEmptyHasKey(rest);
        var k :| k in rest;
        all, keys := all + [files[k]], keys + [k];
        rest := rest - {k};
      }
    }
  }

  /** The database: a registry of collections by name. */
  class FakeMongo {
    var collections: map<string, FakeCollection>

    constructor ()
      ensures collections == map[]
    {
      collections := map[];
    }

    /** The collection registered under `colName`, created empty on first use. */
    method GetCollection(colName: string) returns (c: FakeCollection)
      modifies this
      ensures colName in collections && collections[colName] == c
      ensures colName in old(collections) ==> collections == old(collections) && c == old(collections[colName])
      ensures colName !in old(collections) ==>
                fresh(c) && c.Model() == Empty && c.Valid() && collections == old(collections)[colName := c]
    {
      if colName !in collections {
        var created := new FakeCollection();
        collections := collections[colName := created];
      }
      c := collections[colName];
    }

    /** Forgets the collection registered under `colName`, if any. */
    method DelCollection(colName: string)
      modifies this
      ensures collections == old(collections) - {colName}
      ensures colName !in old(collections) ==> collections == old(collections)
    {
      if colName in collections {
        collections := collections - {colName};
      }
    }
  }
}
