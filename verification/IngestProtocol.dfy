// Ingests of different sources interleaved on one collection, one at a time per
// source, each of which may be abandoned at any window.
module IngestProtocol {
  import opened Wrappers
  import opened VectorStore
  import opened Ingestion

  datatype Job = Job(doc: Doc, previous: nat, written: nat)

  datatype State = State(records: Records, jobs: map<string, Job>)

  datatype Step =
    | Begin(doc: Doc)                     // count the old version
    | Write(source: string, window: nat)  // one upsert
    | Finish(source: string)              // drop the tail and end
    | Abandon(source: string)             // cancelled, crashed or failed

  function LengthOf(records: Records, source: string): nat {
    |Selected(records, Some(source))|
  }

  function Do(s: State, step: Step): State {
    match step
    case Begin(d) =>
      if d.source in s.jobs then s
      else s.(jobs := s.jobs[d.source := Job(d, LengthOf(s.records, d.source), 0)])
    case Write(source, window) =>
      if source !in s.jobs || s.jobs[source].written > |s.jobs[source].doc.chunks| then s
      else
        var j := s.jobs[source];
        var n := |j.doc.chunks|;
        var end := if j.written + window < n then j.written + window else n;
        State(Put(s.records, Batch(j.doc, j.written, end)), s.jobs[source := j.(written := end)])
    case Finish(source) =>
      if source !in s.jobs || s.jobs[source].written != |s.jobs[source].doc.chunks| then s
      else
        var j := s.jobs[source];
        State(DropTail(s.records, source, j.written, j.previous), s.jobs - {source})
    case Abandon(source) => s.(jobs := s.jobs - {source})
  }

  function Run(s: State, steps: seq<Step>): State {
    if |steps| == 0 then s else Do(Run(s, steps[..|steps| - 1]), steps[|steps| - 1])
  }

  // No source has a gap.
  ghost predicate GapFree(records: Records) {
    forall source :: IsPrefix(records, source, LengthOf(records, source))
  }

  ghost predicate Inv(s: State) {
    && WellKeyed(s.records) && GapFree(s.records)
    && forall source :: source in s.jobs ==>
         var j := s.jobs[source];
         j.doc.source == source && InFlight(s.records, j.doc, j.previous, j.written)
  }

  lemma PrefixLength(records: Records, source: string, m: nat)
    requires WellKeyed(records) && IsPrefix(records, source, m)
    ensures LengthOf(records, source) == m
  {
    CountIsPrefix(records, source, m);
  }

  // What a change confined to one source keeps of another.
  lemma OtherSource(a: Records, b: Records, source: string, other: string)
    requires WellKeyed(a) && WellKeyed(b) && GapFree(a) && SameElsewhere(a, b, source) && other != source
    ensures IsPrefix(b, other, LengthOf(a, other)) && LengthOf(b, other) == LengthOf(a, other)
  {
    var m := LengthOf(a, other);
    assert IsPrefix(a, other, m);
    forall i: nat
      ensures ChunkId(other, i) in b <==> i < m
    {
      assert ChunkId(other, i) in a <==> i < m;
    }
    PrefixLength(b, other, m);
  }

  lemma OtherJob(a: Records, b: Records, source: string, d: Doc, previous: nat, written: nat)
    requires WellKeyed(b) && SameElsewhere(a, b, source) && d.source != source
    requires InFlight(a, d, previous, written)
    ensures InFlight(b, d, previous, written)
  {
    forall i: nat
      ensures ChunkId(d.source, i) in b <==> i < Max(previous, written)
    {
      assert ChunkId(d.source, i) in a <==> i < Max(previous, written);
    }
  }

  // A step that changes only `source`, keeps it gap-free and, if its job goes on, in flight.
  lemma ConfinedStep(s: State, t: State, source: string, m: nat)
    requires Inv(s) && WellKeyed(t.records) && SameElsewhere(s.records, t.records, source)
    requires IsPrefix(t.records, source, m)
    requires forall other :: other in t.jobs && other != source ==> other in s.jobs && t.jobs[other] == s.jobs[other]
    requires source in t.jobs ==>
      t.jobs[source].doc.source == source
      && InFlight(t.records, t.jobs[source].doc, t.jobs[source].previous, t.jobs[source].written)
    ensures Inv(t)
  {
    forall other
      ensures IsPrefix(t.records, other, LengthOf(t.records, other))
    {
      if other == source {
        PrefixLength(t.records, source, m);
      } else {
        OtherSource(s.records, t.records, source, other);
      }
    }
    forall other | other in t.jobs && other != source
      ensures InFlight(t.records, t.jobs[other].doc, t.jobs[other].previous, t.jobs[other].written)
    {
      OtherJob(s.records, t.records, source, t.jobs[other].doc, t.jobs[other].previous, t.jobs[other].written);
    }
  }

  lemma WriteStep(s: State, source: string, window: nat)
    requires Inv(s) && source in s.jobs
    ensures var t := Do(s, Write(source, window));
      Inv(t) && SameElsewhere(s.records, t.records, source)
      && LengthOf(s.records, source) <= LengthOf(t.records, source)
  {
    var j := s.jobs[source];
    var n := |j.doc.chunks|;
    var end := if j.written + window < n then j.written + window else n;
    var t := Do(s, Write(source, window));
    WindowKeepsInFlight(s.records, j.doc, j.previous, j.written, end);
    ConfinedStep(s, t, source, Max(j.previous, end));
    PrefixLength(s.records, source, Max(j.previous, j.written));
    PrefixLength(t.records, source, Max(j.previous, end));
  }

  // The only step that shortens a source ends an ingest whose chunks are all
  // written, and it leaves exactly the new version.
  lemma FinishStep(s: State, source: string)
    requires Inv(s) && source in s.jobs && s.jobs[source].written == |s.jobs[source].doc.chunks|
    ensures var t, d := Do(s, Finish(source)), s.jobs[source].doc;
      && Inv(t) && Exactly(s.records, t.records, d)
      && LengthOf(t.records, source) == |d.chunks|
  {
    var j := s.jobs[source];
    var t := Do(s, Finish(source));
    TailLeavesExactly(s.records, j.doc, j.previous);
    ConfinedStep(s, t, source, |j.doc.chunks|);
    PrefixLength(t.records, source, |j.doc.chunks|);
  }

  lemma BeginStep(s: State, d: Doc)
    requires Inv(s)
    ensures Inv(Do(s, Begin(d)))
  {
    assert IsPrefix(s.records, d.source, LengthOf(s.records, d.source));
  }

  lemma StepKeepsInv(s: State, step: Step)
    requires Inv(s)
    ensures Inv(Do(s, step))
  {
    match step
    case Begin(d) => BeginStep(s, d);
    case Write(source, window) =>
      if source in s.jobs {
        WriteStep(s, source, window);
      }
    case Finish(source) =>
      if source in s.jobs && s.jobs[source].written == |s.jobs[source].doc.chunks| {
        FinishStep(s, source);
      }
    case Abandon(source) =>
  }

  // In every run every source is stored as a gap-free prefix at every moment.
  lemma {:induction false} AlwaysGapFree(s: State, steps: seq<Step>)
    requires Inv(s)
    ensures Inv(Run(s, steps))
  {
    if |steps| > 0 {
      AlwaysGapFree(s, steps[..|steps| - 1]);
      StepKeepsInv(Run(s, steps[..|steps| - 1]), steps[|steps| - 1]);
    }
  }

  lemma EmptyStoreIsGapFree()
    ensures Inv(State(map[], map[]))
  {
    forall source
      ensures IsPrefix(map[], source, LengthOf(map[], source))
    {
      assert Selected(map[], Some(source)) == {};
    }
  }

  // No step shortens what is stored of a source, except the end of an ingest of
  // that source with every chunk of the new version written.
  lemma NeverShorterBeforeTheEnd(s: State, step: Step, source: string)
    requires Inv(s)
    ensures var t := Do(s, step);
      LengthOf(t.records, source) < LengthOf(s.records, source) ==>
        step == Finish(source) && source in s.jobs && LengthOf(t.records, source) == |s.jobs[source].doc.chunks|
        && Holds(t.records, s.jobs[source].doc, |s.jobs[source].doc.chunks|)
  {
    var t := Do(s, step);
    if step.Write? && step.source in s.jobs {
      WriteStep(s, step.source, step.window);
      if step.source != source {
        OtherSource(s.records, t.records, step.source, source);
      }
    } else if step.Finish? && step.source in s.jobs && s.jobs[step.source].written == |s.jobs[step.source].doc.chunks| {
      FinishStep(s, step.source);
      if step.source != source {
        OtherSource(s.records, t.records, step.source, source);
      }
    }
  }

  // ---- Abandoned ingests leave no trace ----

  function OfSource(records: Records, source: string): Records {
    map k | k in records && k.source == source :: records[k]
  }

  // What a document is stored as.
  function Version(d: Doc): Records {
    map i: nat | 0 <= i < |d.chunks| :: ChunkId(d.source, i) := RecordAt(d, i)
  }

  ghost predicate Finishes(s: State, step: Step, d: Doc) {
    && step == Finish(d.source) && d.source in s.jobs
    && s.jobs[d.source].doc == d && s.jobs[d.source].written == |d.chunks|
  }

  predicate WritesTo(step: Step, source: string) {
    step == Finish(source) || (step.Write? && step.source == source)
  }

  lemma ExactlyIsVersion(before: Records, after: Records, d: Doc)
    requires Exactly(before, after, d)
    ensures OfSource(after, d.source) == Version(d)
  {
    var r, v := OfSource(after, d.source), Version(d);
    forall k
      ensures k in r <==> k in v
      ensures k in r ==> r[k] == v[k]
    {
      if k.source == d.source {
        assert k == ChunkId(d.source, k.index);
      }
    }
  }

  lemma OtherStepKeeps(s: State, step: Step, source: string)
    requires Inv(s) && !WritesTo(step, source)
    ensures OfSource(Do(s, step).records, source) == OfSource(s.records, source)
  {
    if step.Write? && step.source in s.jobs {
      WriteStep(s, step.source, step.window);
    } else if step.Finish? && step.source in s.jobs && s.jobs[step.source].written == |s.jobs[step.source].doc.chunks| {
      FinishStep(s, step.source);
    }
  }

  // Whatever was begun, written and abandoned before, and whatever other sources do in
  // between and after: a finished ingest leaves exactly its document, until the next
  // write to the source.
  lemma {:induction false} LastFinishDecides(s: State, steps: seq<Step>, k: nat, d: Doc)
    requires Inv(s) && k < |steps| && Finishes(Run(s, steps[..k]), steps[k], d)
    requires forall i :: k < i < |steps| ==> !WritesTo(steps[i], d.source)
    ensures OfSource(Run(s, steps).records, d.source) == Version(d)
    decreases |steps|
  {
    var n := |steps| - 1;
    AlwaysGapFree(s, steps[..n]);
    if k == n {
      FinishStep(Run(s, steps[..n]), d.source);
      ExactlyIsVersion(Run(s, steps[..n]).records, Run(s, steps).records, d);
    } else {
      assert steps[..n][..k] == steps[..k];
      LastFinishDecides(s, steps[..n], k, d);
      OtherStepKeeps(Run(s, steps[..n]), steps[n], d.source);
    }
  }

  // Two runs that finish the same document last store the same of its source, however
  // often either was interrupted.
  lemma InterruptionsLeaveNoTrace(s: State, steps: seq<Step>, k: nat, t: State, others: seq<Step>, j: nat, d: Doc)
    requires Inv(s) && k < |steps| && Finishes(Run(s, steps[..k]), steps[k], d)
    requires Inv(t) && j < |others| && Finishes(Run(t, others[..j]), others[j], d)
    requires forall i :: k < i < |steps| ==> !WritesTo(steps[i], d.source)
    requires forall i :: j < i < |others| ==> !WritesTo(others[i], d.source)
    ensures OfSource(Run(s, steps).records, d.source) == OfSource(Run(t, others).records, d.source)
  {
    LastFinishDecides(s, steps, k, d);
    LastFinishDecides(t, others, j, d);
  }

  // Until the next write to its source, a document that was finished last reads back from the store.
  lemma FinishedReadsBack(s: State, steps: seq<Step>, k: nat, d: Doc)
    requires Inv(s) && k < |steps| && Finishes(Run(s, steps[..k]), steps[k], d)
    requires forall i :: k < i < |steps| ==> !WritesTo(steps[i], d.source)
    ensures var r := Run(s, steps).records;
      ReadsAs(r, d) && TextsOf(r, d.source, |d.chunks|) == d.chunks && LengthOf(r, d.source) == |d.chunks|
  {
    LastFinishDecides(s, steps, k, d);
    AlwaysGapFree(s, steps);
    var r := Run(s, steps).records;
    VersionReadsBack(r, d);
    TextsAreChunks(r, d);
  }

  lemma VersionReadsBack(records: Records, d: Doc)
    requires OfSource(records, d.source) == Version(d)
    ensures ReadsAs(records, d)
  {
    forall k | k in records && k.source == d.source
      ensures k.index < |d.chunks|
    {
      assert k in OfSource(records, d.source);
    }
    forall i | 0 <= i < |d.chunks|
      ensures ChunkId(d.source, i) in records && IsChunk(records[ChunkId(d.source, i)], d, i)
    {
      assert ChunkId(d.source, i) in Version(d);
      assert ChunkId(d.source, i) in OfSource(records, d.source);
    }
  }

  // ---- An ingest that is left alone ----

  function Writes(source: string, window: nat, n: nat): seq<Step> {
    seq(n, i requires 0 <= i < n => Write(source, window))
  }

  lemma RunSnoc(s: State, steps: seq<Step>, step: Step)
    ensures Run(s, steps + [step]) == Do(Run(s, steps), step)
  {
    assert (steps + [step])[..|steps|] == steps;
  }

  // The ingest of `d` runs and at least `k` of its chunks are written.
  ghost predicate Writing(s: State, t: State, d: Doc, k: nat) {
    && Inv(t) && d.source in t.jobs && t.jobs[d.source].doc == d && k <= t.jobs[d.source].written <= |d.chunks|
    && SameElsewhere(s.records, t.records, d.source)
  }

  lemma WriteAdvances(s: State, t: State, d: Doc, window: nat, k: nat)
    requires Writing(s, t, d, k) && window > 0 && k < |d.chunks|
    ensures Writing(s, Do(t, Write(d.source, window)), d, k + 1)
  {
    WriteStep(t, d.source, window);
    hide Inv, Batch, Put;
  }

  lemma {:induction false} WrittenBy(s: State, d: Doc, window: nat, k: nat)
    requires Inv(s) && d.source !in s.jobs && window > 0 && k <= |d.chunks|
    ensures Writing(s, Run(s, [Begin(d)] + Writes(d.source, window, k)), d, k)
  {
    hide Run, Do, Writing;
    if k == 0 {
      assert [] + [Begin(d)] == [Begin(d)] + Writes(d.source, window, 0);
      RunSnoc(s, [], Begin(d));
      Begun(s, d);
    } else {
      WrittenBy(s, d, window, k - 1);
      var steps := [Begin(d)] + Writes(d.source, window, k - 1);
      assert steps + [Write(d.source, window)] == [Begin(d)] + Writes(d.source, window, k);
      RunSnoc(s, steps, Write(d.source, window));
      WriteAdvances(s, Run(s, steps), d, window, k - 1);
    }
  }

  lemma Begun(s: State, d: Doc)
    requires Inv(s) && d.source !in s.jobs
    ensures Writing(s, Do(Run(s, []), Begin(d)), d, 0)
  {
    BeginStep(s, d);
    hide Inv;
  }

  // Begun while no other ingest of its source runs, written window by window and finished,
  // a document reads back from the store, whatever was there of it before.
  lemma UndisturbedIngest(s: State, d: Doc, window: nat)
    requires Inv(s) && d.source !in s.jobs && window > 0
    ensures var r := Run(s, [Begin(d)] + Writes(d.source, window, |d.chunks|) + [Finish(d.source)]);
      && ReadsAs(r.records, d) && LengthOf(r.records, d.source) == |d.chunks|
      && SameElsewhere(s.records, r.records, d.source) && d.source !in r.jobs
  {
    var steps := [Begin(d)] + Writes(d.source, window, |d.chunks|);
    WrittenBy(s, d, window, |d.chunks|);
    RunSnoc(s, steps, Finish(d.source));
    hide Run;
    IngestFinishes(s, Run(s, steps), d);
  }

  lemma IngestFinishes(s: State, t: State, d: Doc)
    requires Writing(s, t, d, |d.chunks|)
    ensures var r := Do(t, Finish(d.source));
      && ReadsAs(r.records, d) && LengthOf(r.records, d.source) == |d.chunks|
      && SameElsewhere(s.records, r.records, d.source) && d.source !in r.jobs
  {
    FinishStep(t, d.source);
    var r := Do(t, Finish(d.source));
    hide Inv, LengthOf;
    ExactlyReadsBack(t.records, r.records, d);
  }

  // At most one ingest of a source runs at a time: beginning another one changes nothing.
  lemma OneIngestPerSource(s: State, d: Doc)
    requires d.source in s.jobs
    ensures Do(s, Begin(d)) == s
  {
  }
}
