/** The reference semantics of an external index: a table keyed by generation and record id. */
module Indexes {
  import opened Common
  import opened Ranking
  import Chunking

  type Generation = string

  /** uuid5 names, taken as injective: a chunk's id from its version and ordinal, a fact's id from
      its evidence chunk and the concatenation `source|relation|target`. */
  datatype RecordId = ChunkId(version: VersionId, ordinal: nat)
                    | FactId(version: VersionId, ordinal: nat, triple: string)

  datatype Record = Passage(version: VersionId, text: string, locator: Chunking.Locator)
                  | Triple(version: VersionId, evidence: RecordId, source: string, relation: string, target: string)

  type Key = (Generation, RecordId)
  type Store = map<Key, Record>

  /** The rows of an upsert as a table; of two rows with one id the later one stays. */
  function Rows(rows: seq<(RecordId, Record)>): map<RecordId, Record> {
    if rows == [] then map[]
    else
      var last := rows[|rows| - 1];
      Rows(rows[..|rows| - 1])[last.0 := last.1]
  }

  /** The i-th row is the last under its id. */
  ghost predicate LastRow(rows: seq<(RecordId, Record)>, i: nat, id: RecordId) {
    i < |rows| && rows[i].0 == id && forall j :: i < j < |rows| ==> rows[j].0 != id
  }

  /** Each id among the rows has the record of its last row, and there are no others. */
  lemma {:induction false} RowsExact(rows: seq<(RecordId, Record)>)
    ensures forall i :: 0 <= i < |rows| ==> rows[i].0 in Rows(rows)
    ensures forall id :: id in Rows(rows) ==> exists i: nat :: LastRow(rows, i, id) && Rows(rows)[id] == rows[i].1
  {
    if rows != [] {
      var n := |rows| - 1;
      var before := rows[..n];
      RowsExact(before);
      forall i | 0 <= i < |rows| ensures rows[i].0 in Rows(rows) {
        assert i < n ==> rows[i] == before[i];
      }
      forall id | id in Rows(rows) ensures exists i: nat :: LastRow(rows, i, id) && Rows(rows)[id] == rows[i].1 {
        var i := LastOf(rows, id);
      }
    }
  }

  lemma {:induction false} LastOf(rows: seq<(RecordId, Record)>, id: RecordId) returns (i: nat)
    requires rows != [] && id in Rows(rows)
    requires var before := rows[..|rows| - 1];
             id in Rows(before) ==> exists j: nat :: LastRow(before, j, id) && Rows(before)[id] == before[j].1
    ensures LastRow(rows, i, id) && Rows(rows)[id] == rows[i].1
  {
    var before := rows[..|rows| - 1];
    if id == rows[|before|].0 {
      i := |before|;
    } else {
      var j: nat :| LastRow(before, j, id) && Rows(before)[id] == before[j].1;
      i := j;
    }
  }

  function Written(store: Store, generation: Generation, part: map<RecordId, Record>): (r: Store)
    ensures forall key :: key in r <==> key in store || (key.0 == generation && key.1 in part)
    ensures forall key :: key in r ==>
              r[key] == if key.0 == generation && key.1 in part then part[key.1] else store[key]
  {
    var added := set id | id in part :: (generation, id);
    map key | key in store.Keys + added ::
      if key.0 == generation && key.1 in part then part[key.1] else store[key]
  }

  lemma WrittenNext(store: Store, generation: Generation, rows: seq<(RecordId, Record)>, i: nat)
    requires i < |rows|
    ensures Written(store, generation, Rows(rows[..i + 1])) ==
            Written(store, generation, Rows(rows[..i]))[(generation, rows[i].0) := rows[i].1]
  {
    assert rows[..i + 1][..i] == rows[..i];
  }

  function Deleted(store: Store, generation: Generation, version: VersionId): Store {
    map key | key in store && !(key.0 == generation && store[key].version == version) :: store[key]
  }

  /** What an index holds for one version. */
  function Slice(store: Store, generation: Generation, version: VersionId): map<RecordId, Record> {
    var ids := set key | key in store :: key.1;
    map id | id in ids && (generation, id) in store && store[(generation, id)].version == version ::
      store[(generation, id)]
  }

  lemma SliceExact(store: Store, generation: Generation, version: VersionId)
    ensures forall id :: id in Slice(store, generation, version) <==>
                         (generation, id) in store && store[(generation, id)].version == version
    ensures forall id :: id in Slice(store, generation, version) ==>
                         Slice(store, generation, version)[id] == store[(generation, id)]
  {
    forall id | (generation, id) in store ensures id in set key | key in store :: key.1 {
      var key := (generation, id);
      assert key in store && key.1 == id;
    }
  }

  /** Every record sits under an id of its own version. */
  ghost predicate Owned(store: Store) {
    forall key :: key in store ==> store[key].version == key.1.version
  }

  ghost predicate OwnedBy(version: VersionId, part: map<RecordId, Record>) {
    forall id :: id in part ==> id.version == version && part[id].version == version
  }

  /** Only records of one version, in one generation, were touched. */
  ghost predicate OthersKept(before: Store, after: Store, generation: Generation, version: VersionId) {
    && Owned(after)
    && (forall g, v :: g != generation || v != version ==> Slice(after, g, v) == Slice(before, g, v))
    && (forall key :: key in after ==> key in before || (key.0 == generation && key.1.version == version))
  }

  /** Records of one version join its slice. */
  lemma WrittenSlice(store: Store, generation: Generation, version: VersionId, part: map<RecordId, Record>)
    requires Owned(store) && OwnedBy(version, part)
    ensures Slice(Written(store, generation, part), generation, version) == Slice(store, generation, version) + part
  {
    SliceExact(Written(store, generation, part), generation, version);
    SliceExact(store, generation, version);
  }

  lemma WrittenKeeps(store: Store, generation: Generation, version: VersionId, part: map<RecordId, Record>)
    requires Owned(store) && OwnedBy(version, part)
    ensures OthersKept(store, Written(store, generation, part), generation, version)
  {
    var after := Written(store, generation, part);
    forall g, v | g != generation || v != version ensures Slice(after, g, v) == Slice(store, g, v) {
      SliceExact(after, g, v);
      SliceExact(store, g, v);
    }
  }

  /** A deleted version's slice is empty. */
  lemma DeletedSlice(store: Store, generation: Generation, version: VersionId)
    ensures Slice(Deleted(store, generation, version), generation, version) == map[]
  {
    SliceExact(Deleted(store, generation, version), generation, version);
  }

  lemma DeletedKeeps(store: Store, generation: Generation, version: VersionId)
    requires Owned(store)
    ensures OthersKept(store, Deleted(store, generation, version), generation, version)
  {
    var after := Deleted(store, generation, version);
    forall g, v | g != generation || v != version ensures Slice(after, g, v) == Slice(store, g, v) {
      SliceExact(after, g, v);
      SliceExact(store, g, v);
    }
  }

  /** A search: only records of the scope, the best of them, best first. */
  predicate InSearch(store: Store, key: Key, generation: Generation, versions: set<VersionId>) {
    key in store && key.0 == generation && store[key].version in versions
  }

  predicate Beats(score: Record -> real, store: Store, a: Key, b: Key) {
    a in store && b in store && score(store[a]) >= score(store[b])
  }

  function Cap(limit: int): nat {
    if limit < 1 then 1 else if limit > 100 then 100 else limit
  }

  class FakeIndex {
    var records: Store

    constructor ()
      ensures records == map[]
    {
      records := map[];
    }

    method Upsert(generation: Generation, rows: seq<(RecordId, Record)>)
      modifies this
      ensures records == Written(old(records), generation, Rows(rows))
    {
      assert records == Written(records, generation, map[]);
      for i := 0 to |rows|
        invariant records == Written(old(records), generation, Rows(rows[..i]))
      {
        WrittenNext(old(records), generation, rows, i);
        records := records[(generation, rows[i].0) := rows[i].1];
      }
      assert rows[..|rows|] == rows;
    }

    method DeleteVersion(generation: Generation, version: VersionId)
      modifies this
      ensures records == Deleted(old(records), generation, version)
      ensures Slice(records, generation, version) == map[]
    {
      records := map key | key in records && !(key.0 == generation && records[key].version == version) :: records[key];
      SliceExact(records, generation, version);
    }

    method Search(score: Record -> real, generation: Generation, versions: set<VersionId>, limit: int)
      returns (hits: seq<Key>)
      ensures |hits| <= Max(1, Min(limit, 100)) && Distinct(hits)
      ensures forall i :: 0 <= i < |hits| ==> InSearch(records, hits[i], generation, versions)
      ensures forall i, j :: 0 <= i < j < |hits| ==> Beats(score, records, hits[i], hits[j])
      // What is left out is worse, and only a full page leaves anything out.
      ensures forall i, key :: 0 <= i < |hits| && InSearch(records, key, generation, versions) && key !in hits ==>
                Beats(score, records, hits[i], key)
      ensures |hits| < Max(1, Min(limit, 100)) ==>
                forall key :: InSearch(records, key, generation, versions) ==> key in hits
    {
      var scores := map key | key in records && key.0 == generation && records[key].version in versions ::
        score(records[key]);
      hits := BestFirst(scores, Cap(limit));
    }
  }
}
