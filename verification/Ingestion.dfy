// Re-ingesting a document: count the old chunks, overwrite window by window,
// then delete the tail that the new version no longer has.
module Ingestion {
  import opened Wrappers
  import opened VectorStore

  // What one ingest writes for a source.
  datatype Doc = Doc(source: string, chunks: seq<string>, extra: string, embed: string -> seq<real>)

  function RecordAt(d: Doc, i: nat): VectorRecord
    requires i < |d.chunks|
  {
    VectorRecord(ChunkId(d.source, i), d.chunks[i], d.embed(d.chunks[i]),
                 Metadata(d.source, i, |d.chunks|, d.extra))
  }

  function Batch(d: Doc, start: nat, end: nat): (r: seq<VectorRecord>)
    requires start <= end <= |d.chunks|
    ensures |r| == end - start
  {
    seq(end - start, k requires 0 <= k < end - start => RecordAt(d, start + k))
  }

  function Tail(source: string, start: nat, end: nat): (r: seq<ChunkId>)
    requires start <= end
    ensures forall k :: k in r <==> k.source == source && start <= k.index < end
  {
    var r := seq(end - start, k requires 0 <= k < end - start => ChunkId(source, start + k));
    assert forall i :: start <= i < end ==> r[i - start] == ChunkId(source, i);
    r
  }

  function DropTail(records: Records, source: string, n: nat, previous: nat): Records {
    if previous <= n then records else Removed(records, (set k | k in Tail(source, n, previous)), None)
  }

  // Records sit under their own id, and the id tells source and position.
  predicate WellKeyed(records: Records) {
    forall k :: k in records ==>
      records[k].id == k && k == ChunkId(records[k].metadata.sourceId, records[k].metadata.chunkIndex)
  }

  // The stored positions of a source are exactly 0 .. m - 1.
  ghost predicate IsPrefix(records: Records, source: string, m: nat) {
    forall i: nat :: ChunkId(source, i) in records <==> i < m
  }

  // The first `n` chunks of the new version are in place.
  predicate Holds(records: Records, d: Doc, n: nat)
    requires n <= |d.chunks|
  {
    forall i :: 0 <= i < n ==>
      ChunkId(d.source, i) in records && records[ChunkId(d.source, i)] == RecordAt(d, i)
  }

  predicate SameElsewhere(a: Records, b: Records, source: string) {
    && (forall k :: k in a && k.source != source ==> k in b && b[k] == a[k])
    && (forall k :: k in b && k.source != source ==> k in a)
  }

  function Max(a: nat, b: nat): nat {
    if a < b then b else a
  }

  function IdsBelow(source: string, m: nat): set<ChunkId> {
    set i: nat | 0 <= i < m :: ChunkId(source, i)
  }

  lemma {:induction false} IdsBelowSize(source: string, m: nat)
    ensures |IdsBelow(source, m)| == m
  {
    if m > 0 {
      IdsBelowSize(source, m - 1);
      assert IdsBelow(source, m) == IdsBelow(source, m - 1) + {ChunkId(source, m - 1)};
    }
  }

  // Counting by the source filter counts the prefix.
  lemma CountIsPrefix(records: Records, source: string, m: nat)
    requires WellKeyed(records) && IsPrefix(records, source, m)
    ensures |Selected(records, Some(source))| == m
  {
    var s, t := Selected(records, Some(source)), IdsBelow(source, m);
    forall k | k in s
      ensures k in t
    {
      assert k == ChunkId(source, k.index);
    }
    forall k | k in t
      ensures k in s
    {
      assert records[k].id == k;
    }
    assert s == t;
    IdsBelowSize(source, m);
  }

  // What a window writes.
  lemma {:induction false} PutBatch(records: Records, d: Doc, start: nat, end: nat)
    requires start <= end <= |d.chunks|
    ensures var r := Put(records, Batch(d, start, end));
      && (forall i :: start <= i < end ==> ChunkId(d.source, i) in r && r[ChunkId(d.source, i)] == RecordAt(d, i))
      && (forall k :: k in r ==> (k.source == d.source && start <= k.index < end) || (k in records && r[k] == records[k]))
      && (forall k :: k in records ==> k in r)
    decreases end - start
  {
    if start < end {
      PutBatch(records, d, start, end - 1);
      var b := Batch(d, start, end);
      assert b[..|b| - 1] == Batch(d, start, end - 1);
      assert b[|b| - 1] == RecordAt(d, end - 1);
    }
  }

  // State of one ingest in mid-flight: `written` chunks of the new version are
  // in, and the stored positions never fall below what they were at the start.
  ghost predicate InFlight(records: Records, d: Doc, previous: nat, written: nat) {
    && WellKeyed(records) && written <= |d.chunks|
    && IsPrefix(records, d.source, Max(previous, written))
    && Holds(records, d, written)
  }

  lemma WindowKeepsInFlight(records: Records, d: Doc, previous: nat, start: nat, end: nat)
    requires InFlight(records, d, previous, start) && start <= end <= |d.chunks|
    ensures var r := Put(records, Batch(d, start, end));
      InFlight(r, d, previous, end) && SameElsewhere(records, r, d.source)
  {
    PutBatch(records, d, start, end);
    var r := Put(records, Batch(d, start, end));
    forall k | k in r
      ensures r[k].id == k && k == ChunkId(r[k].metadata.sourceId, r[k].metadata.chunkIndex)
    {
      if k.source == d.source && start <= k.index < end {
        assert k == ChunkId(d.source, k.index);
      }
    }
    forall i: nat
      ensures ChunkId(d.source, i) in r <==> i < Max(previous, end)
    {
      assert ChunkId(d.source, i) in records <==> i < Max(previous, start);
    }
  }

  // The whole store after a successful ingest: the new version of the source and nothing else of it.
  predicate Exactly(before: Records, after: Records, d: Doc) {
    && Holds(after, d, |d.chunks|)
    && (forall k :: k in after && k.source == d.source ==> k.index < |d.chunks|)
    && SameElsewhere(before, after, d.source)
  }

  lemma TailLeavesExactly(records: Records, d: Doc, previous: nat)
    requires InFlight(records, d, previous, |d.chunks|)
    ensures var n := |d.chunks|;
      var r := DropTail(records, d.source, n, previous);
      Exactly(records, r, d) && WellKeyed(r) && IsPrefix(r, d.source, n)
  {
    var n := |d.chunks|;
    if previous > n {
      var doomed := set k | k in Tail(d.source, n, previous);
      var r := Removed(records, doomed, None);
      forall i: nat
        ensures ChunkId(d.source, i) in r <==> i < n
      {
        assert ChunkId(d.source, i) in records <==> i < previous;
      }
      assert forall k :: k in r && k.source == d.source ==> k == ChunkId(d.source, k.index);
    } else {
      assert forall k :: k in records && k.source == d.source ==> k == ChunkId(d.source, k.index);
    }
  }

  // ---- Reading back ----

  // The records of the source, looked up by position, are the chunks of the document with
  // their embeddings and positions, and there are no others.
  predicate ReadsAs(records: Records, d: Doc) {
    && (forall i :: 0 <= i < |d.chunks| ==> ChunkId(d.source, i) in records && IsChunk(records[ChunkId(d.source, i)], d, i))
    && (forall k :: k in records && k.source == d.source ==> k.index < |d.chunks|)
  }

  predicate IsChunk(r: VectorRecord, d: Doc, i: nat)
    requires i < |d.chunks|
  {
    && r.text == d.chunks[i] && r.embedding == d.embed(d.chunks[i])
    && r.metadata.sourceId == d.source && r.metadata.chunkIndex == i
    && r.metadata.totalChunks == |d.chunks| && r.metadata.extra == d.extra
  }

  lemma ExactlyReadsBack(before: Records, after: Records, d: Doc)
    requires Exactly(before, after, d)
    ensures ReadsAs(after, d)
  {
  }

  // The stored texts of a source in the order of their positions.
  function TextsOf(records: Records, source: string, n: nat): seq<string>
    requires forall i :: 0 <= i < n ==> ChunkId(source, i) in records
  {
    seq(n, i requires 0 <= i < n => records[ChunkId(source, i)].text)
  }

  // As many records as the document has chunks bear its source, and read in order their texts are the chunks.
  lemma TextsAreChunks(records: Records, d: Doc)
    requires WellKeyed(records) && ReadsAs(records, d)
    ensures |Selected(records, Some(d.source))| == |d.chunks|
    ensures TextsOf(records, d.source, |d.chunks|) == d.chunks
  {
    forall i: nat
      ensures ChunkId(d.source, i) in records <==> i < |d.chunks|
    {
    }
    CountIsPrefix(records, d.source, |d.chunks|);
    var texts := TextsOf(records, d.source, |d.chunks|);
    forall i | 0 <= i < |d.chunks|
      ensures texts[i] == d.chunks[i]
    {
      assert IsChunk(records[ChunkId(d.source, i)], d, i);
    }
  }

  // Running the ingest again after an interruption ends where an undisturbed run
  // would have: a successful result is determined by the new version and the other sources.
  lemma ExactlyIsUnique(before1: Records, after1: Records, before2: Records, after2: Records, d: Doc)
    requires Exactly(before1, after1, d) && Exactly(before2, after2, d)
    requires SameElsewhere(before1, before2, d.source)
    ensures after1 == after2
  {
    forall k
      ensures k in after1 <==> k in after2
      ensures k in after1 ==> after1[k] == after2[k]
    {
      if k.source == d.source {
        assert k == ChunkId(d.source, k.index);
        if k.index < |d.chunks| {
          assert ChunkId(d.source, k.index) in after1 && ChunkId(d.source, k.index) in after2;
        }
      }
    }
  }

  datatype Outcome = Done(chunkCount: nat) | Interrupted | Rejected(error: VectorError)

  // ---- A whole ingest as a function ----

  type Collections = map<string, Collection>

  function RecordsOf(collections: Collections, kb: string): Records {
    if kb in collections then collections[kb].records else map[]
  }

  // A cancellation or an embedding failure strikes at the first window
  // boundary with at least `fault` chunks in; the last boundary is just
  // before the tail is dropped.
  predicate Strikes(fault: Option<nat>, written: nat) {
    fault.Some? && written >= fault.value
  }

  function WindowEnd(d: Doc, window: nat, start: nat): nat {
    if start + window < |d.chunks| then start + window else |d.chunks|
  }

  function Stored(collections: Collections, kb: string, d: Doc, start: nat, end: nat): Collections
    requires kb in collections && start <= end <= |d.chunks|
  {
    collections[kb := collections[kb].(records := Put(collections[kb].records, Batch(d, start, end)))]
  }

  // The windows from `start` on, up to the first fault or rejection.
  function WriteFrom(
    collections: Collections, kb: string, d: Doc, window: nat, fault: Option<nat>, start: nat)
    : (r: (Collections, Outcome, nat))
    requires window > 0 && kb in collections && start <= |d.chunks|
    ensures kb in r.0 && start <= r.2 <= |d.chunks|
    ensures r.1.Done? ==> r.1.chunkCount == r.2 == |d.chunks| && !Strikes(fault, r.2)
    ensures r.1.Interrupted? ==> Strikes(fault, r.2)
    decreases |d.chunks| - start
  {
    if Strikes(fault, start) then (collections, Interrupted, start)
    else if start == |d.chunks| then (collections, Done(start), start)
    else
      var end := WindowEnd(d, window, start);
      if !DimsOk(Batch(d, start, end), collections[kb].dim) then (collections, Rejected(DimensionMismatch), start)
      else WriteFrom(Stored(collections, kb, d, start, end), kb, d, window, fault, end)
  }

  function Trimmed(written: Collections, kb: string, d: Doc, previous: nat): Collections
    requires kb in written
  {
    written[kb := written[kb].(records := DropTail(written[kb].records, d.source, |d.chunks|, previous))]
  }

  function Indexed(collections: Collections, kb: string, dim: int, d: Doc, window: nat, fault: Option<nat>)
    : (Collections, Outcome)
    requires window > 0
  {
    if dim <= 0 then (collections, Rejected(BadArgument))
    else if kb in collections && collections[kb].dim != dim then (collections, Rejected(DimensionMismatch))
    else
      var ready := Opened(collections, kb, dim);
      var previous := |Selected(ready[kb].records, Some(d.source))|;
      var (written, outcome, _) := WriteFrom(ready, kb, d, window, fault, 0);
      if outcome.Done? then
        (Trimmed(written, kb, d, previous), outcome)
      else (written, outcome)
  }

  function Opened(collections: Collections, kb: string, dim: nat): (r: Collections)
    ensures kb in r
  {
    if kb in collections then collections else collections[kb := Collection(dim, map[])]
  }

  // Nothing but the source's records in `kb` differs.
  predicate SameBut(a: Collections, b: Collections, kb: string, source: string) {
    && kb in a && b.Keys == a.Keys && b[kb].dim == a[kb].dim
    && (forall other :: other in a && other != kb ==> b[other] == a[other])
    && SameElsewhere(a[kb].records, b[kb].records, source)
  }

  lemma {:induction false} WriteFromKeeps(
    collections: Collections, kb: string, d: Doc, window: nat, fault: Option<nat>, start: nat, previous: nat)
    requires window > 0 && kb in collections && InFlight(collections[kb].records, d, previous, start)
    ensures var (c, outcome, n) := WriteFrom(collections, kb, d, window, fault, start);
      && SameBut(collections, c, kb, d.source)
      && InFlight(c[kb].records, d, previous, n)
      && (outcome.Done? ==> n == |d.chunks|)
    decreases |d.chunks| - start
  {
    var end := WindowEnd(d, window, start);
    if !Strikes(fault, start) && start < |d.chunks| && DimsOk(Batch(d, start, end), collections[kb].dim) {
      WindowKeepsInFlight(collections[kb].records, d, previous, start, end);
      WriteFromKeeps(Stored(collections, kb, d, start, end), kb, d, window, fault, end, previous);
    }
  }

  // The collection is well-formed and the source is stored without a gap.
  ghost predicate Sound(collections: Collections, kb: string, source: string) {
    WellKeyed(RecordsOf(collections, kb)) && exists m: nat :: IsPrefix(RecordsOf(collections, kb), source, m)
  }

  // What an ingest leaves, however it ends.
  lemma IndexedKeeps(collections: Collections, kb: string, dim: int, d: Doc, window: nat, fault: Option<nat>)
    requires window > 0 && Sound(collections, kb, d.source)
    ensures var (c, outcome) := Indexed(collections, kb, dim, d, window, fault);
      && Sound(c, kb, d.source)
      && (c == collections ||
            (dim > 0 && (kb in collections ==> collections[kb].dim == dim) && SameBut(Opened(collections, kb, dim), c, kb, d.source)))
      && (outcome.Done? ==>
            && dim > 0 && (kb in collections ==> collections[kb].dim == dim)
            && SameBut(Opened(collections, kb, dim), c, kb, d.source)
            && Exactly(RecordsOf(collections, kb), c[kb].records, d))
  {
    if dim > 0 && (kb in collections ==> collections[kb].dim == dim) {
      WrittenKeeps(collections, kb, dim, d, window, fault);
    }
  }

  lemma WrittenKeeps(collections: Collections, kb: string, dim: nat, d: Doc, window: nat, fault: Option<nat>)
    requires window > 0 && Sound(collections, kb, d.source) && dim > 0 && (kb in collections ==> collections[kb].dim == dim)
    ensures var (c, outcome) := Indexed(collections, kb, dim, d, window, fault);
      && Sound(c, kb, d.source) && SameBut(Opened(collections, kb, dim), c, kb, d.source)
      && (outcome.Done? ==> Exactly(RecordsOf(collections, kb), c[kb].records, d))
  {
    var m: nat :| IsPrefix(RecordsOf(collections, kb), d.source, m);
    var ready := Opened(collections, kb, dim);
    CountIsPrefix(ready[kb].records, d.source, m);
    WriteFromKeeps(ready, kb, d, window, fault, 0, m);
    var (written, outcome, n) := WriteFrom(ready, kb, d, window, fault, 0);
    hide WriteFrom, Selected;
    if outcome.Done? {
      TailKeeps(ready, written, kb, d, m);
    } else {
      assert IsPrefix(written[kb].records, d.source, Max(m, n));
    }
  }

  lemma TailKeeps(ready: Collections, written: Collections, kb: string, d: Doc, m: nat)
    requires SameBut(ready, written, kb, d.source) && InFlight(written[kb].records, d, m, |d.chunks|)
    ensures var c := Trimmed(written, kb, d, m);
      && SameBut(ready, c, kb, d.source) && Sound(c, kb, d.source)
      && Exactly(ready[kb].records, c[kb].records, d)
  {
    TailLeavesExactly(written[kb].records, d, m);
    hide DropTail, InFlight, IsPrefix, Holds, WellKeyed;
    var records := DropTail(written[kb].records, d.source, |d.chunks|, m);
    assert IsPrefix(records, d.source, |d.chunks|);
  }

  // The collection of `kb` in mid-ingest, everything else as in `before`.
  ghost predicate Midway(before: Collections, now: Collections, kb: string, d: Doc, m: nat, written: nat) {
    && kb in now
    && InFlight(now[kb].records, d, m, written)
    && SameElsewhere(RecordsOf(before, kb), now[kb].records, d.source)
    && forall other :: other in before && other != kb ==> other in now && now[other] == before[other]
  }

  lemma TailFinishes(before: Collections, written: Collections, kb: string, d: Doc, m: nat)
    requires Midway(before, written, kb, d, m, |d.chunks|)
    ensures var c := Trimmed(written, kb, d, m);
      Midway(before, c, kb, d, 0, |d.chunks|) && Exactly(RecordsOf(before, kb), c[kb].records, d)
  {
    TailLeavesExactly(written[kb].records, d, m);
    var records := DropTail(written[kb].records, d.source, |d.chunks|, m);
    assert InFlight(records, d, 0, |d.chunks|);
    hide DropTail, InFlight, IsPrefix, Holds;
  }

  // The store accepts the document.
  predicate Accepts(collections: Collections, kb: string, dim: int, d: Doc) {
    && dim > 0 && (kb in collections ==> collections[kb].dim == dim)
    && forall i :: 0 <= i < |d.chunks| ==> |d.embed(d.chunks[i])| == dim
  }

  lemma {:induction false} WriteFromDoneIff(collections: Collections, kb: string, d: Doc, window: nat, start: nat)
    requires window > 0 && kb in collections && start <= |d.chunks|
    ensures WriteFrom(collections, kb, d, window, None, start).1.Done?
      <==> forall i :: start <= i < |d.chunks| ==> |d.embed(d.chunks[i])| == collections[kb].dim
    decreases |d.chunks| - start
  {
    if start < |d.chunks| {
      var end := WindowEnd(d, window, start);
      BatchDims(d, start, end, collections[kb].dim);
      if DimsOk(Batch(d, start, end), collections[kb].dim) {
        WriteFromDoneIff(Stored(collections, kb, d, start, end), kb, d, window, end);
      }
    }
  }

  lemma BatchDims(d: Doc, start: nat, end: nat, dim: nat)
    requires start <= end <= |d.chunks|
    ensures DimsOk(Batch(d, start, end), dim) <==> forall i :: start <= i < end ==> |d.embed(d.chunks[i])| == dim
  {
    var b := Batch(d, start, end);
    forall i | start <= i < end
      ensures b[i - start] == RecordAt(d, i)
    {
    }
    if DimsOk(b, dim) {
      forall i | start <= i < end
        ensures |d.embed(d.chunks[i])| == dim
      {
        assert |b[i - start].embedding| == dim;
      }
    }
  }

  // An undisturbed ingest succeeds exactly when the store accepts the document.
  lemma UndisturbedDoneIff(collections: Collections, kb: string, dim: int, d: Doc, window: nat)
    requires window > 0
    ensures Indexed(collections, kb, dim, d, window, None).1.Done? <==> Accepts(collections, kb, dim, d)
  {
    if dim > 0 && (kb in collections ==> collections[kb].dim == dim) {
      WriteFromDoneIff(Opened(collections, kb, dim), kb, d, window, 0);
    }
  }

  // After a successful ingest the document can be read back from the store, chunk by chunk.
  lemma IndexedReadsBack(collections: Collections, kb: string, dim: int, d: Doc, window: nat, fault: Option<nat>)
    requires window > 0 && Sound(collections, kb, d.source)
    ensures var (c, outcome) := Indexed(collections, kb, dim, d, window, fault);
      outcome.Done? ==>
        && kb in c && ReadsAs(c[kb].records, d)
        && TextsOf(c[kb].records, d.source, |d.chunks|) == d.chunks
        && |Selected(c[kb].records, Some(d.source))| == |d.chunks| == outcome.chunkCount
  {
    var (c, outcome) := Indexed(collections, kb, dim, d, window, fault);
    IndexedKeeps(collections, kb, dim, d, window, fault);
    if outcome.Done? {
      ExactlyReadsBack(RecordsOf(collections, kb), c[kb].records, d);
      TextsAreChunks(c[kb].records, d);
    }
  }

  // For every store and every fault point: whatever became of a first ingest, running
  // it again succeeds exactly when an undisturbed ingest of the original store would,
  // and leaves the same store, whatever the window sizes.
  lemma RerunEqualsUndisturbed(
    collections: Collections, kb: string, dim: int, d: Doc, fault: Option<nat>,
    firstWindow: nat, secondWindow: nat, undisturbedWindow: nat)
    requires firstWindow > 0 && secondWindow > 0 && undisturbedWindow > 0 && Sound(collections, kb, d.source)
    ensures var after := Indexed(collections, kb, dim, d, firstWindow, fault).0;
            var (again, second) := Indexed(after, kb, dim, d, secondWindow, None);
            var (once, undisturbed) := Indexed(collections, kb, dim, d, undisturbedWindow, None);
      && (second.Done? <==> undisturbed.Done?)
      && (undisturbed.Done? ==> again == once)
  {
    var after := Indexed(collections, kb, dim, d, firstWindow, fault).0;
    var (again, second) := Indexed(after, kb, dim, d, secondWindow, None);
    var (once, undisturbed) := Indexed(collections, kb, dim, d, undisturbedWindow, None);
    IndexedKeeps(collections, kb, dim, d, firstWindow, fault);
    IndexedKeeps(after, kb, dim, d, secondWindow, None);
    IndexedKeeps(collections, kb, dim, d, undisturbedWindow, None);
    UndisturbedDoneIff(after, kb, dim, d, secondWindow);
    UndisturbedDoneIff(collections, kb, dim, d, undisturbedWindow);
    if undisturbed.Done? {
      SameResult(collections, after, again, once, kb, dim, d);
    }
  }

  lemma SameResult(
    collections: Collections, after: Collections, again: Collections, once: Collections, kb: string, dim: nat, d: Doc)
    requires after == collections || SameBut(Opened(collections, kb, dim), after, kb, d.source)
    requires SameBut(Opened(after, kb, dim), again, kb, d.source) && SameBut(Opened(collections, kb, dim), once, kb, d.source)
    requires Exactly(RecordsOf(after, kb), again[kb].records, d) && Exactly(RecordsOf(collections, kb), once[kb].records, d)
    ensures again == once
  {
    ExactlyIsUnique(RecordsOf(after, kb), again[kb].records, RecordsOf(collections, kb), once[kb].records, d);
    hide Exactly;
    assert again[kb] == once[kb];
    assert again.Keys == once.Keys;
    assert forall other :: other in once && other != kb ==> again[other] == once[other];
  }

  class IngestRunner {
    const store: InMemoryVectorStore
    const window: nat

    constructor (store: InMemoryVectorStore, window: nat)
      requires window > 0
      ensures this.store == store && this.window == window
    {
      this.store, this.window := store, window;
    }

    // One window: embed and upsert.
    method WriteWindow(kb: string, d: Doc, start: nat, end: nat, ghost before: Collections, ghost m: nat)
      returns (r: Result<(), VectorError>)
      requires start <= end <= |d.chunks| && Midway(before, store.collections, kb, d, m, start)
      modifies store
      ensures r.Ok? ==> Midway(before, store.collections, kb, d, m, end)
      ensures r.Err? ==> store.collections == old(store.collections) && r.error == DimensionMismatch
      ensures r.Ok? <==> DimsOk(Batch(d, start, end), old(store.collections)[kb].dim)
      ensures r.Ok? ==> store.collections == Stored(old(store.collections), kb, d, start, end)
    {
      WindowKeepsInFlight(store.collections[kb].records, d, m, start, end);
      r := store.Upsert(kb, Batch(d, start, end));
    }

    method WriteAll(kb: string, d: Doc, fault: Option<nat>, ghost before: Collections, ghost m: nat)
      returns (r: Outcome, written: nat)
      requires window > 0 && Midway(before, store.collections, kb, d, m, 0)
      modifies store
      ensures Midway(before, store.collections, kb, d, m, written)
      ensures (store.collections, r, written) == WriteFrom(old(store.collections), kb, d, window, fault, 0)
      ensures r.Done? ==> r.chunkCount == written == |d.chunks| && !Strikes(fault, |d.chunks|)
      ensures r.Interrupted? ==> Strikes(fault, written)
    {
      written := 0;
      while written < |d.chunks|
        invariant Midway(before, store.collections, kb, d, m, written) && written <= |d.chunks|
        invariant WriteFrom(store.collections, kb, d, window, fault, written) == WriteFrom(old(store.collections), kb, d, window, fault, 0)
        decreases |d.chunks| - written
      {
        if Strikes(fault, written) {
          return Interrupted, written;
        }
        var end := WindowEnd(d, window, written);
        var stored := WriteWindow(kb, d, written, end, before, m);
        if stored.Err? {
          return Rejected(stored.error), written;
        }
        written := end;
      }
      return if Strikes(fault, written) then Interrupted else Done(written), written;
    }

    // `m` is the length of the old version, `n` how many new chunks went in.
    method Index(kb: string, dim: int, d: Doc, fault: Option<nat>) returns (r: Outcome, ghost m: nat, ghost n: nat)
      requires window > 0
      requires WellKeyed(RecordsOf(store.collections, kb))
      requires exists k: nat :: IsPrefix(RecordsOf(store.collections, kb), d.source, k)
      modifies store
      ensures (store.collections, r) == Indexed(old(store.collections), kb, dim, d, window, fault)
      ensures IsPrefix(RecordsOf(old(store.collections), kb), d.source, m)
      // Success: exactly the new version, everything else as it was.
      ensures r.Done? ==>
        && r.chunkCount == n == |d.chunks|
        && Midway(old(store.collections), store.collections, kb, d, 0, |d.chunks|)
        && Exactly(RecordsOf(old(store.collections), kb), store.collections[kb].records, d)
      // Otherwise whole new chunks followed by old ones, without a gap and not shorter than before.
      ensures !r.Done? ==>
        store.collections == old(store.collections) || Midway(old(store.collections), store.collections, kb, d, m, n)
      ensures r.Done? ==> !Strikes(fault, |d.chunks|)
      ensures r.Interrupted? ==> Strikes(fault, n)
    {
      ghost var before := store.collections;
      m :| IsPrefix(RecordsOf(before, kb), d.source, m);
      n := 0;
      var ensured := store.EnsureCollection(kb, dim);
      if ensured.Err? {
        return Rejected(ensured.error), m, n;
      }
      assert store.collections[kb].records == RecordsOf(before, kb);
      assert Midway(before, store.collections, kb, d, m, 0);
      var counted := store.Count(kb, Some(d.source));
      CountIsPrefix(RecordsOf(before, kb), d.source, m);
      hide Midway, WriteFrom, WellKeyed, IsPrefix, Exactly, DropTail, Selected;
      var previous := counted.value;
      var written;
      r, written := WriteAll(kb, d, fault, before, m);
      n := written;
      if r.Done? {
        TailFinishes(before, store.collections, kb, d, m);
        DropStaleTail(kb, d.source, |d.chunks|, previous);
      }
    }

    method DropStaleTail(kb: string, source: string, newCount: nat, previous: nat)
      requires kb in store.collections
      modifies store
      ensures kb in store.collections
      ensures store.collections == old(store.collections)[kb := old(store.collections)[kb].(
        records := DropTail(old(store.collections)[kb].records, source, newCount, previous))]
    {
      if previous <= newCount {
        return;
      }
      var _ := store.Delete(kb, Some(Tail(source, newCount, previous)), None);
    }
  }
}
