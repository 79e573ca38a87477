// The in-memory vector store as the map that ingestion acts on.
module VectorStore {
  import opened Wrappers

  // Stands for the hash of "source:index", which is taken to be injective.
  datatype ChunkId = ChunkId(source: string, index: nat)

  datatype Metadata = Metadata(sourceId: string, chunkIndex: nat, totalChunks: nat, extra: string)

  datatype VectorRecord = VectorRecord(id: ChunkId, text: string, embedding: seq<real>, metadata: Metadata)

  type Records = map<ChunkId, VectorRecord>

  datatype Collection = Collection(dim: nat, records: Records)

  datatype VectorError = CollectionNotFound | DimensionMismatch | BadArgument

  // The only filter that ingestion uses: equality on the source.
  predicate Matches(r: VectorRecord, filter: Option<string>) {
    filter.Some? ==> r.metadata.sourceId == filter.value
  }

  // Insert or overwrite one after the other.
  function Put(records: Records, batch: seq<VectorRecord>): Records {
    if |batch| == 0 then records
    else Put(records, batch[..|batch| - 1])[batch[|batch| - 1].id := batch[|batch| - 1]]
  }

  predicate LastWithId(batch: seq<VectorRecord>, i: nat)
    requires i < |batch|
  {
    forall j :: i < j < |batch| ==> batch[j].id != batch[i].id
  }

  predicate Named(batch: seq<VectorRecord>, k: ChunkId) {
    exists i :: 0 <= i < |batch| && batch[i].id == k
  }

  // A later record of a batch wins over an earlier one.
  lemma {:induction false} PutLast(records: Records, batch: seq<VectorRecord>, i: nat)
    requires i < |batch| && LastWithId(batch, i)
    ensures var r := Put(records, batch); batch[i].id in r && r[batch[i].id] == batch[i]
    decreases |batch|
  {
    if i < |batch| - 1 {
      assert batch[|batch| - 1].id != batch[i].id;
      PutLast(records, batch[..|batch| - 1], i);
    }
  }

  // What no record of the batch names stays as it was.
  lemma {:induction false} PutOther(records: Records, batch: seq<VectorRecord>, k: ChunkId)
    requires !Named(batch, k)
    ensures var r := Put(records, batch); (k in r <==> k in records) && (k in records ==> r[k] == records[k])
  {
    if |batch| > 0 {
      var n := |batch| - 1;
      assert batch[n].id != k;
      assert forall i :: 0 <= i < n ==> batch[..n][i] == batch[i];
      PutOther(records, batch[..n], k);
    }
  }

  lemma PutReads(records: Records, batch: seq<VectorRecord>)
    ensures var r := Put(records, batch);
      && (forall i :: 0 <= i < |batch| && LastWithId(batch, i) ==> batch[i].id in r && r[batch[i].id] == batch[i])
      && (forall k :: !Named(batch, k) ==> (k in r <==> k in records) && (k in records ==> r[k] == records[k]))
  {
    hide Put;
    forall i | 0 <= i < |batch| && LastWithId(batch, i)
      ensures batch[i].id in Put(records, batch) && Put(records, batch)[batch[i].id] == batch[i]
    {
      PutLast(records, batch, i);
    }
    forall k | !Named(batch, k)
      ensures k in Put(records, batch) <==> k in records
      ensures k in records ==> k in Put(records, batch) && Put(records, batch)[k] == records[k]
    {
      PutOther(records, batch, k);
    }
  }

  predicate DimsOk(batch: seq<VectorRecord>, dim: nat) {
    forall i :: 0 <= i < |batch| ==> |batch[i].embedding| == dim
  }

  function Removed(records: Records, ids: set<ChunkId>, filter: Option<string>): Records {
    map k | k in records && !(k in ids && Matches(records[k], filter)) :: records[k]
  }

  function Selected(records: Records, filter: Option<string>): set<ChunkId> {
    SelectedIn(records, records.Keys, filter)
  }

  function SelectedIn(records: Records, keys: set<ChunkId>, filter: Option<string>): set<ChunkId> {
    set k | k in keys && k in records && Matches(records[k], filter)
  }

  lemma SelectOneMore(records: Records, keys: set<ChunkId>, k: ChunkId, filter: Option<string>)
    requires k in records && k !in keys
    ensures |SelectedIn(records, keys + {k}, filter)|
         == |SelectedIn(records, keys, filter)| + (if Matches(records[k], filter) then 1 else 0)
  {
    var before, after := SelectedIn(records, keys, filter), SelectedIn(records, keys + {k}, filter);
    assert after == if Matches(records[k], filter) then before + {k} else before;
  }

  lemma SelectedMatch(records: Records, filter: Option<string>)
    ensures Selected(records, filter)
         == set k | k in records && (filter.Some? ==> records[k].metadata.sourceId == filter.value)
  {
  }

  class InMemoryVectorStore {
    var collections: map<string, Collection>

    constructor ()
      ensures collections == map[]
    {
      collections := map[];
    }

    method EnsureCollection(kb: string, dim: int) returns (r: Result<(), VectorError>)
      modifies this
      ensures r.Err? ==> collections == old(collections)
      ensures r.Ok? <==> dim > 0 && (kb in old(collections) ==> old(collections)[kb].dim == dim)
      ensures r.Err? ==> r.error == if dim <= 0 then BadArgument else DimensionMismatch
      ensures r.Ok? && kb in old(collections) ==> collections == old(collections)
      ensures r.Ok? && kb !in old(collections) ==> collections == old(collections)[kb := Collection(dim, map[])]
    {
      if dim <= 0 {
        return Err(BadArgument);
      }
      if kb !in collections {
        collections := collections[kb := Collection(dim, map[])];
        return Ok(());
      }
      if collections[kb].dim != dim {
        return Err(DimensionMismatch);
      }
      return Ok(());
    }

    // The whole batch is validated before anything is written.
    method Upsert(kb: string, batch: seq<VectorRecord>) returns (r: Result<(), VectorError>)
      modifies this
      ensures r.Err? ==> collections == old(collections)
      ensures r.Ok? <==> kb in old(collections) && DimsOk(batch, old(collections)[kb].dim)
      ensures r.Err? ==> r.error == if kb in old(collections) then DimensionMismatch else CollectionNotFound
      ensures r.Ok? ==>
        var c := old(collections)[kb];
        collections == old(collections)[kb := c.(records := Put(c.records, batch))]
      // Each record of the batch whose id does not come again is stored under it; other ids keep theirs.
      ensures r.Ok? ==>
        var before, after := old(collections)[kb].records, collections[kb].records;
        && (forall i :: 0 <= i < |batch| && LastWithId(batch, i) ==> batch[i].id in after && after[batch[i].id] == batch[i])
        && (forall k :: !Named(batch, k) ==> (k in after <==> k in before) && (k in before ==> after[k] == before[k]))
    {
      if kb !in collections {
        return Err(CollectionNotFound);
      }
      var c := collections[kb];
      for i := 0 to |batch|
        invariant DimsOk(batch[..i], c.dim)
      {
        if |batch[i].embedding| != c.dim {
          return Err(DimensionMismatch);
        }
        assert batch[..i + 1] == batch[..i] + [batch[i]];
      }
      assert batch[..|batch|] == batch;
      var records := c.records;
      for i := 0 to |batch|
        invariant records == Put(c.records, batch[..i])
      {
        records := records[batch[i].id := batch[i]];
        assert batch[..i + 1][..i] == batch[..i];
      }
      collections := collections[kb := c.(records := records)];
      PutReads(c.records, batch);
      return Ok(());
    }

    method Delete(kb: string, ids: Option<seq<ChunkId>>, filter: Option<string>) returns (r: Result<nat, VectorError>)
      modifies this
      ensures r.Err? ==> collections == old(collections)
      ensures r.Ok? <==> kb in old(collections) && (ids.Some? || filter.Some?)
      ensures r.Err? ==> r.error == if ids.None? && filter.None? then BadArgument else CollectionNotFound
      ensures r.Ok? ==>
        var c := old(collections)[kb];
        var targets := if ids.Some? then set k | k in ids.value else c.records.Keys;
        && collections == old(collections)[kb := c.(records := Removed(c.records, targets, filter))]
        && |collections[kb].records| + r.value == |c.records|
      ensures r.Ok? ==>
        var before, after := old(collections)[kb].records, collections[kb].records;
        && (forall k :: k in after ==> k in before && after[k] == before[k])
        && (forall k :: k in before ==>
              (k !in after <==>
                (ids.Some? ==> k in ids.value) && (filter.Some? ==> before[k].metadata.sourceId == filter.value)))
    {
      if ids.None? && filter.None? {
        return Err(BadArgument);
      }
      if kb !in collections {
        return Err(CollectionNotFound);
      }
      var c := collections[kb];
      var targets := if ids.Some? then set k | k in ids.value else c.records.Keys;
      var doomed := set k | k in targets && k in c.records && Matches(c.records[k], filter);
      collections := collections[kb := c.(records := c.records - doomed)];
      assert c.records - doomed == Removed(c.records, targets, filter);
      assert (c.records - doomed).Keys == c.records.Keys - doomed && doomed <= c.records.Keys;
      return Ok(|doomed|);
    }

    method Count(kb: string, filter: Option<string>) returns (r: Result<nat, VectorError>)
      ensures r == if kb in collections then Ok(|Selected(collections[kb].records, filter)|) else Err(CollectionNotFound)
      ensures r.Ok? ==>
        var records := collections[kb].records;
        r.value == |set k | k in records && (filter.Some? ==> records[k].metadata.sourceId == filter.value)|
    {
      if kb !in collections {
        return Err(CollectionNotFound);
      }
      var records := collections[kb].records;
      var keys, n := records.Keys, 0;
      ghost var seen := {};
      assert SelectedIn(records, seen, filter) == {};
      hide SelectedIn;
      while keys != {}
        invariant keys !! seen && keys + seen == records.Keys
        invariant n == |SelectedIn(records, seen, filter)|
        decreases keys
      {
        var k :| k in keys;
        SelectOneMore(records, seen, k, filter);
        if Matches(records[k], filter) {
          n := n + 1;
        }
        keys, seen := keys - {k}, seen + {k};
      }
      assert seen == records.Keys;
      SelectedMatch(records, filter);
      return Ok(n);
    }
  }
}
