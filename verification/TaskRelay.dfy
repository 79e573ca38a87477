// A split pipeline can always finish: for any lanes that together can serve all
// stages there is a run in which worker after worker claims the task, runs
// stages until one belongs to another lane, and hands over or succeeds.
module TaskRelay {
  import opened Wrappers
  import opened TaskModels
  import opened TaskStore
  import opened TaskProtocol
  import opened TaskTheorems
  import opened TaskBudget
  import opened TaskLanes

  // The first stage from `k` on that a worker of this lane must not run.
  function Stop(pl: Pipeline, lane: Option<string>, k: nat): (e: nat)
    requires k <= |pl|
    ensures k <= e <= |pl|
    ensures e < |pl| ==> Foreign(pl[e], lane)
    ensures forall i :: k <= i < e ==> !Foreign(pl[i], lane)
    decreases |pl| - k
  {
    if k == |pl| || Foreign(pl[k], lane) then k else Stop(pl, lane, k + 1)
  }

  // ---- The steps of one leg ----

  function StageSteps(p: nat): seq<Step> {
    [Advance(p, false, ""), Load(p, 0), Save(p), BodyReturns(p, None)]
  }

  function LoopSteps(p: nat, k: nat, e: nat): seq<Step>
    requires k <= e
  {
    if k == e then [] else LoopSteps(p, k, e - 1) + StageSteps(p)
  }

  function FinishSteps(p: nat): seq<Step> {
    [Advance(p, false, ""), Fence(p), Load(p, 0), Save(p)]
  }

  function LegSteps(pl: Pipeline, p: nat, worker: string, lane: Option<string>, k: nat): seq<Step>
    requires k <= |pl|
  {
    ClaimBy(p, worker, lane, 0) + [ReadAnchor(p)] + LoopSteps(p, k, Stop(pl, lane, k)) + FinishSteps(p)
  }

  // A run of four steps, spelled out.
  lemma FourSteps(pl: Pipeline, s: State, a: Step, b: Step, c: Step, d: Step)
    ensures var s1 := Do(pl, s, a); var s2 := Do(pl, s1, b); var s3 := Do(pl, s2, c);
      && Run(pl, s, [a, b, c, d]) == Do(pl, s3, d)
      && Bodies(pl, s, [a, b, c, d]) == Gain(s, a) + Gain(s1, b) + Gain(s2, c) + Gain(s3, d)
  {
    hide Do, Run, Bodies, Gain;
    EmptyRun(pl, s);
    OneStep(pl, s, [], a);
    assert [] + [a] == [a];
    OneStep(pl, s, [a], b);
    assert [a] + [b] == [a, b];
    OneStep(pl, s, [a, b], c);
    assert [a, b] + [c] == [a, b, c];
    OneStep(pl, s, [a, b, c], d);
    assert [a, b, c] + [d] == [a, b, c, d];
  }

  lemma EmptyRun(pl: Pipeline, s: State)
    ensures Run(pl, s, []) == s && Bodies(pl, s, []) == []
  {
  }

  lemma OneStep(pl: Pipeline, s: State, front: seq<Step>, step: Step)
    ensures Run(pl, s, front + [step]) == Do(pl, Run(pl, s, front), step)
    ensures Bodies(pl, s, front + [step]) == Bodies(pl, s, front) + Gain(Run(pl, s, front), step)
  {
    assert (front + [step])[..|front|] == front;
  }

  lemma NoReturnsNoBodies(pl: Pipeline, s: State, steps: seq<Step>)
    requires forall k :: 0 <= k < |steps| ==> !steps[k].BodyReturns?
    ensures Bodies(pl, s, steps) == []
  {
    if |steps| > 0 {
      NoReturnsNoBodies(pl, s, steps[..|steps| - 1]);
    }
  }

  // Worker `p` owns the running task and is at the top of the loop before stage `i`.
  predicate AtStage(s: State, p: nat, worker: string, lane: Option<string>, i: nat) {
    && p in s.procs && s.procs[p].pc == Loop(i) && s.procs[p].call.None? && s.procs[p].claimed
    && s.procs[p].worker == worker && s.procs[p].lane == lane
    && s.record.status == Running && s.record.workerId == Some(worker)
  }

  // The counters that a leg adds up, and the set of processes.
  predicate SameAccount(s: State, t: State) {
    && t.record.attempts == s.record.attempts && t.handoffs == s.handoffs && t.procs.Keys == s.procs.Keys
  }

  // A store call that nobody disturbs.
  lemma QuietCall(pl: Pipeline, s: State, p: nat, q: Request)
    requires p in s.procs && s.procs[p].call.None? && RequestOf(pl, s.procs[p]) == Some(q)
    requires q.expected.None? && Mutate(s.record, q.m, 0).Ok?
    requires !s.procs[p].pc.Reopen? && !s.procs[p].pc.Claim?
    ensures var t := Do(pl, Do(pl, s, Load(p, 0)), Save(p));
      && t.record == Committed(s.record, q.m, 0)
      && t.procs == s.procs[p := Returned(s.procs[p])]
      && t.handoffs == (if s.procs[p].pc.HandOver? then s.handoffs + 1 else s.handoffs)
  {
    var s1 := Do(pl, s, Load(p, 0));
    assert s1 == s.(procs := s.procs[p := s.procs[p].(call := Some(Call(s.record, 0)))]);
    assert Commits(pl, s1, Save(p));
  }

  lemma StageDo(pl: Pipeline, s: State, p: nat, worker: string, lane: Option<string>, i: nat)
    requires i < |pl| && AtStage(s, p, worker, lane, i) && !Foreign(pl[i], lane)
    ensures var s1 := Do(pl, s, Advance(p, false, ""));
      var s2 := Do(pl, s1, Load(p, 0));
      var s3 := Do(pl, s2, Save(p));
      && s3.procs == s.procs[p := s.procs[p].(pc := Body(i), conflicts := 0)]
      && s3.record.attempts == s.record.attempts && s3.record.status == Running
      && s3.record.workerId == s.record.workerId && s3.handoffs == s.handoffs
  {
    var s1 := Do(pl, s, Advance(p, false, ""));
    assert s1 == s.(procs := s.procs[p := s.procs[p].(pc := Enter(i))]);
    var m := EnterStage(pl[i].name, NO_FIELDS.(progress := Some(i as real / |pl| as real)));
    QuietCall(pl, s1, p, Request(m, None));
    assert Committed(s.record, m, 0).attempts == s.record.attempts;
  }

  lemma StageRun(pl: Pipeline, s: State, p: nat, worker: string, lane: Option<string>, i: nat)
    requires i < |pl| && AtStage(s, p, worker, lane, i) && !Foreign(pl[i], lane)
    ensures var t := Run(pl, s, StageSteps(p));
      AtStage(t, p, worker, lane, i + 1) && SameAccount(s, t) && Bodies(pl, s, StageSteps(p)) == [i]
  {
    FourSteps(pl, s, Advance(p, false, ""), Load(p, 0), Save(p), BodyReturns(p, None));
    StageDo(pl, s, p, worker, lane, i);
  }

  lemma {:induction false} LoopRun(pl: Pipeline, s: State, p: nat, worker: string, lane: Option<string>, k: nat, e: nat)
    requires k <= e <= |pl| && AtStage(s, p, worker, lane, k)
    requires forall i :: k <= i < e ==> !Foreign(pl[i], lane)
    ensures var t := Run(pl, s, LoopSteps(p, k, e));
      AtStage(t, p, worker, lane, e) && SameAccount(s, t) && Bodies(pl, s, LoopSteps(p, k, e)) == Range(k, e)
  {
    hide Do, Run, Bodies;
    EmptyRun(pl, s);
    if k < e {
      var front := LoopSteps(p, k, e - 1);
      LoopRun(pl, s, p, worker, lane, k, e - 1);
      StageRun(pl, Run(pl, s, front), p, worker, lane, e - 1);
      RunSplits(pl, s, front, StageSteps(p));
      BodiesSplit(pl, s, front, StageSteps(p));
      assert Range(k, e) == Range(k, e - 1) + [e - 1];
    }
  }

  predicate LegEnds(pl: Pipeline, s: State, t: State, e: nat) {
    && (e >= |pl| ==>
          t.record.status == Succeeded && t.record.attempts == s.record.attempts && t.handoffs == s.handoffs)
    && (e < |pl| ==>
          && t.record.status == Pending && t.record.attempts == s.record.attempts - 1
          && t.record.resumeStage == Some(pl[e].name) && t.handoffs == s.handoffs + 1)
  }

  lemma FinishDo(pl: Pipeline, s: State, p: nat, worker: string, lane: Option<string>, e: nat)
    requires e <= |pl| && AtStage(s, p, worker, lane, e) && (e < |pl| ==> Foreign(pl[e], lane))
    requires s.record.attempts > 0
    ensures var s1 := Do(pl, s, Advance(p, false, ""));
      var s2 := Do(pl, s1, Fence(p));
      var t := Do(pl, Do(pl, s2, Load(p, 0)), Save(p));
      LegEnds(pl, s, t, e) && t.procs.Keys == s.procs.Keys
  {
    var s1 := Do(pl, s, Advance(p, false, ""));
    var outcome := if e == |pl| then Done("") else Handoff(pl[e].lane.value, pl[e].name);
    assert s1 == s.(procs := s.procs[p := s.procs[p].(pc := Finish(outcome))]);
    var s2 := Do(pl, s1, Fence(p));
    var pc := if e == |pl| then Succeed("") else HandOver(pl[e].name);
    assert s2.procs[p] == s.procs[p].(pc := pc, seen := s.record) && s2.record == s.record && s2.handoffs == s.handoffs;
    var q := RequestOf(pl, s2.procs[p]).value;
    QuietCall(pl, s2, p, q);
  }

  lemma FinishRun(pl: Pipeline, s: State, p: nat, worker: string, lane: Option<string>, e: nat)
    requires e <= |pl| && AtStage(s, p, worker, lane, e) && (e < |pl| ==> Foreign(pl[e], lane))
    requires s.record.attempts > 0
    ensures var t := Run(pl, s, FinishSteps(p));
      && Bodies(pl, s, FinishSteps(p)) == []
      && t.procs.Keys == s.procs.Keys && LegEnds(pl, s, t, e)
  {
    FourSteps(pl, s, Advance(p, false, ""), Fence(p), Load(p, 0), Save(p));
    FinishDo(pl, s, p, worker, lane, e);
  }

  lemma AnchorRun(pl: Pipeline, s: State, p: nat)
    requires p in s.procs && s.procs[p].pc == Start
    ensures Run(pl, s, [ReadAnchor(p)]) == Do(pl, s, ReadAnchor(p))
    ensures Do(pl, s, ReadAnchor(p)) ==
      s.(procs := s.procs[p := s.procs[p].(pc := Loop(StartIndex(pl, s.record.resumeStage)), seen := s.record)])
  {
    OneStep(pl, s, [], ReadAnchor(p));
    assert [] + [ReadAnchor(p)] == [ReadAnchor(p)];
  }

  lemma ClaimBodies(pl: Pipeline, s: State, p: nat, worker: string, lane: Option<string>)
    ensures Bodies(pl, s, ClaimBy(p, worker, lane, 0) + [ReadAnchor(p)]) == []
  {
    NoReturnsNoBodies(pl, s, ClaimBy(p, worker, lane, 0) + [ReadAnchor(p)]);
  }

  // One leg runs exactly the stages up to the first foreign one, and then either
  // succeeds, one attempt later, or requeues the task there at no cost.
  lemma LegRun(pl: Pipeline, s: State, p: nat, worker: string, lane: Option<string>, k: nat)
    requires Distinct(pl) && k <= |pl| && QueuedAt(pl, s, k) && p !in s.procs
    ensures var e, t, leg := Stop(pl, lane, k), Run(pl, s, LegSteps(pl, p, worker, lane, k)), LegSteps(pl, p, worker, lane, k);
      && Bodies(pl, s, leg) == Range(k, e)
      && t.procs.Keys == s.procs.Keys + {p}
      && (e == |pl| ==>
            t.record.status == Succeeded && t.record.attempts == s.record.attempts + 1 && t.handoffs == s.handoffs)
      && (e < |pl| ==>
            QueuedAt(pl, t, e) && t.record.attempts == s.record.attempts && t.handoffs == s.handoffs + 1)
  {
    hide Do, Run, Bodies;
    var e := Stop(pl, lane, k);
    var claim, anchor, loop, finish := ClaimBy(p, worker, lane, 0), [ReadAnchor(p)], LoopSteps(p, k, e), FinishSteps(p);
    ClaimRun(pl, s, p, worker, lane, 0);
    var s1 := Run(pl, s, claim);
    var s2 := Do(pl, s1, ReadAnchor(p));
    AnchorRun(pl, s1, p);
    LoopRun(pl, s2, p, worker, lane, k, e);
    var s3 := Run(pl, s2, loop);
    FinishRun(pl, s3, p, worker, lane, e);
    RunSplits(pl, s, claim + anchor + loop, finish);
    RunSplits(pl, s, claim + anchor, loop);
    RunSplits(pl, s, claim, anchor);
    BodiesSplit(pl, s, claim + anchor + loop, finish);
    BodiesSplit(pl, s, claim + anchor, loop);
    ClaimBodies(pl, s, p, worker, lane);
    if e < |pl| {
      DistinctIndex(pl, e);
    }
  }

  lemma EmptyRange(a: nat)
    ensures Range(a, a) == []
  {
  }

  lemma RangeJoin(a: nat, b: nat, c: nat)
    requires a <= b <= c
    ensures Range(a, b) + Range(b, c) == Range(a, c)
  {
  }

  // ---- A relay of legs ----

  // The successive workers' lanes; worker number j is process `p + j`.
  function RelaySteps(pl: Pipeline, p: nat, lanes: seq<Option<string>>, k: nat): seq<Step>
    requires k <= |pl|
    decreases |lanes|
  {
    if |lanes| == 0 then []
    else
      var e := Stop(pl, lanes[0], k);
      LegSteps(pl, p, "w", lanes[0], k) + if e == |pl| then [] else RelaySteps(pl, p + 1, lanes[1..], e)
  }

  // How far the workers get, and whether they finish.
  function RelayEnd(pl: Pipeline, lanes: seq<Option<string>>, k: nat): (r: (nat, bool))
    requires k <= |pl|
    ensures k <= r.0 <= |pl| && (r.1 ==> r.0 == |pl|)
    decreases |lanes|
  {
    if |lanes| == 0 then (k, false)
    else
      var e := Stop(pl, lanes[0], k);
      if e == |pl| then (e, true) else RelayEnd(pl, lanes[1..], e)
  }

  lemma {:induction false} RelayRun(pl: Pipeline, s: State, p: nat, lanes: seq<Option<string>>, k: nat)
    requires Distinct(pl) && k <= |pl| && QueuedAt(pl, s, k) && (forall q :: q in s.procs ==> q < p)
    ensures var steps := RelaySteps(pl, p, lanes, k); var t, (e, finished) := Run(pl, s, steps), RelayEnd(pl, lanes, k);
      && Bodies(pl, s, steps) == Range(k, e)
      && (finished ==> t.record.status == Succeeded && t.record.attempts == s.record.attempts + 1)
      && (!finished ==> QueuedAt(pl, t, e) && t.record.attempts == s.record.attempts)
      && t.handoffs <= s.handoffs + |lanes|
      && (finished ==> t.handoffs < s.handoffs + |lanes|)
    decreases |lanes|
  {
    hide Do, Run, Bodies, LegSteps, Range;
    EmptyRun(pl, s);
    EmptyRange(k);
    if |lanes| > 0 {
      var e := Stop(pl, lanes[0], k);
      var leg := LegSteps(pl, p, "w", lanes[0], k);
      LegRun(pl, s, p, "w", lanes[0], k);
      var s1 := Run(pl, s, leg);
      if e == |pl| {
        assert leg + [] == leg;
      } else {
        var rest := RelaySteps(pl, p + 1, lanes[1..], e);
        RelayRun(pl, s1, p + 1, lanes[1..], e);
        RunSplits(pl, s, leg, rest);
        BodiesSplit(pl, s, leg, rest);
        RangeJoin(k, e, RelayEnd(pl, lanes, k).0);
      }
    }
  }

  // Each worker after the first serves the lane that the previous hand-over named.
  predicate Matched(pl: Pipeline, lanes: seq<Option<string>>, k: nat)
    requires k <= |pl|
    decreases |lanes|
  {
    |lanes| > 1 ==>
      var e := Stop(pl, lanes[0], k);
      e < |pl| ==> lanes[1] == pl[e].lane && Matched(pl, lanes[1..], e)
  }

  // With delivery to the named lane every later leg makes progress.
  lemma {:induction false} MatchedRelayEnds(pl: Pipeline, lanes: seq<Option<string>>, k: nat)
    requires k <= |pl| && Matched(pl, lanes, k) && |lanes| >= 1
    requires |lanes| >= |pl| - k + (if k < |pl| && Foreign(pl[k], lanes[0]) then 1 else 0)
    ensures RelayEnd(pl, lanes, k).1
    decreases |lanes|
  {
    var e := Stop(pl, lanes[0], k);
    if e < |pl| {
      assert lanes[1..][0] == pl[e].lane;
      MatchedRelayEnds(pl, lanes[1..], e);
    }
  }

  lemma LoopIsSmooth(p: nat, k: nat, e: nat)
    requires k <= e
    ensures AllSmooth(LoopSteps(p, k, e)) && NoResult(LoopSteps(p, k, e))
  {
    if k < e {
      LoopIsSmooth(p, k, e - 1);
    }
  }

  // No body returns the final result.
  predicate NoResult(steps: seq<Step>) {
    forall k :: 0 <= k < |steps| && steps[k].BodyReturns? ==> steps[k].done.None?
  }

  lemma RelayIsSmooth(pl: Pipeline, p: nat, lanes: seq<Option<string>>, k: nat)
    requires k <= |pl|
    ensures AllSmooth(RelaySteps(pl, p, lanes, k)) && NoResult(RelaySteps(pl, p, lanes, k))
    decreases |lanes|
  {
    if |lanes| > 0 {
      var e := Stop(pl, lanes[0], k);
      LoopIsSmooth(p, k, e);
      if e < |pl| {
        RelayIsSmooth(pl, p + 1, lanes[1..], e);
      }
    }
  }

  lemma NoResultNotShort(pl: Pipeline, s: State, steps: seq<Step>)
    requires NoResult(steps)
    ensures !CutShort(pl, s, steps)
  {
    if |steps| > 0 {
      NoResultNotShort(pl, s, steps[..|steps| - 1]);
    }
  }

  // A queued task can always be brought to success by workers of the given lanes,
  // if there is one more of them than stages and each serves the lane that the
  // hand-over before it named.
  lemma SplitCanFinish(pl: Pipeline, s: State, p: nat, lanes: seq<Option<string>>, k: nat) returns (steps: seq<Step>)
    requires Distinct(pl) && k <= |pl| && Ready(pl, s, k) && (forall q :: q in s.procs ==> q < p)
    requires Matched(pl, lanes, k) && |lanes| > |pl| - k
    ensures AllSmooth(steps) && !CutShort(pl, s, steps)
    ensures Run(pl, s, steps).record.status == Succeeded
    ensures Bodies(pl, s, steps) == Range(k, |pl|)
  {
    steps := RelaySteps(pl, p, lanes, k);
    MatchedRelayEnds(pl, lanes, k);
    RelayRun(pl, s, p, lanes, k);
    RelayIsSmooth(pl, p, lanes, k);
    NoResultNotShort(pl, s, steps);
  }
}
