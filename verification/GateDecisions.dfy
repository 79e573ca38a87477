// What each block of the gate decides, and for whom: statements about every
// reachable state that speak of the callers' places and not of the gate's fields.
module GateDecisions {
  import opened Wrappers
  import opened Gate
  import opened GateProtocol

  // ---- Arrivals ----

  function AllAt(place: seq<Place>, p: Place): set<Ticket> {
    set w: Ticket | w < |place| && place[w] == p
  }

  function Elements(q: seq<Ticket>): set<Ticket> {
    set w | w in q
  }

  lemma {:induction false} DistinctLength(q: seq<Ticket>)
    requires Increasing(q)
    ensures |Elements(q)| == |q|
  {
    if |q| > 0 {
      var n := |q| - 1;
      DistinctLength(q[..n]);
      assert q == q[..n] + [q[n]];
      assert Elements(q) == Elements(q[..n]) + {q[n]};
    }
  }

  // The queue is as long as there are queued callers.
  lemma QueueLength(s: State)
    requires Inv(s)
    ensures |s.book.queue| == |AllAt(s.place, Queued)|
  {
    DistinctLength(s.book.queue);
    assert Elements(s.book.queue) == AllAt(s.place, Queued);
  }

  // A newcomer is let in exactly when a permit is free, turned away exactly when
  // all are out and the waiting room has a size and is full, and otherwise waits
  // as the last one. Nobody else moves.
  lemma ArrivalDecided(limit: nat, maxWaiting: nat, steps: seq<Step>, kind: Kind)
    ensures var s := Run(Init(limit, maxWaiting), steps); var t, w := Do(s, Arrive(kind)), |s.place|;
      && |t.place| == w + 1 && t.place[..w] == s.place
      && (t.place[w] == Holding <==> CountPermits(s.place) < limit)
      && (t.place[w] == Gone <==>
            CountPermits(s.place) == limit && maxWaiting > 0 && |AllAt(s.place, Queued)| == maxWaiting)
      && (t.place[w] == Queued <==>
            CountPermits(s.place) == limit && (maxWaiting == 0 || |AllAt(s.place, Queued)| < maxWaiting))
      && t.book.queue == (if t.place[w] == Queued then s.book.queue + [w] else s.book.queue)
      && t.book.rejected == s.book.rejected + (if t.place[w] == Gone then 1 else 0)
      && t.book.admitted == s.book.admitted + (if t.place[w] == Holding then 1 else 0)
  {
    var s := Run(Init(limit, maxWaiting), steps);
    RunKeepsInv(limit, maxWaiting, steps);
    LimitIsConstant(limit, maxWaiting, steps);
    QueueLength(s);
  }

  // The caller exists and its loop is not closed.
  predicate MayStep(s: State, w: Ticket) {
    w < |s.place| == |s.kinds| && w !in s.closed
  }

  // `v` waits, can be woken, and everybody who waits ahead of it cannot.
  predicate IsNext(s: State, v: Ticket) {
    && At(s, v, Queued) && v !in s.closed
    && forall u :: 0 <= u < v && At(s, u, Queued) ==> u in s.closed
  }

  // A release wakes the earliest caller that still waits and can be woken; those it
  // passes over have closed loops. Without one the permit is free again.
  lemma ReleaseWakesNext(limit: nat, maxWaiting: nat, steps: seq<Step>, w: Ticket)
    requires var s := Run(Init(limit, maxWaiting), steps);
      MayStep(s, w) && (s.place[w] == Holding || s.place[w] == Returning)
    ensures var s := Run(Init(limit, maxWaiting), steps); var t := Do(s, Release(w));
      && |t.place| == |s.place| && t.place[w] == Gone
      && (forall v :: 0 <= v < |s.place| && v != w ==>
            && (t.place[v] == Granted <==> s.place[v] == Granted || IsNext(s, v))
            && (t.place[v] == Skipped <==>
                  s.place[v] == Skipped || (s.place[v] == Queued && v in s.closed && !HasNextUpTo(s, v)))
            && (t.place[v] != s.place[v] ==> s.place[v] == Queued && (t.place[v] == Granted || t.place[v] == Skipped)))
      && t.book.available == s.book.available + (if HasNextUpTo(s, |s.place|) then 0 else 1)
  {
    var s := Run(Init(limit, maxWaiting), steps);
    RunKeepsInv(limit, maxWaiting, steps);
    LeaveWakesNext(s, w);
    hide Leave, Run, Inv, IsNext, HasNextUpTo;
  }

  predicate HasNextUpTo(s: State, n: nat) {
    exists v: Ticket :: v < n && At(s, v, Queued) && v !in s.closed
  }

  lemma LeaveWakesNext(s: State, w: Ticket)
    requires Inv(s) && (At(s, w, Holding) || At(s, w, Returning))
    ensures var t := Leave(s, w);
      && |t.place| == |s.place| && t.place[w] == Gone
      && (forall v :: 0 <= v < |s.place| && v != w ==>
            && (t.place[v] == Granted <==> s.place[v] == Granted || IsNext(s, v))
            && (t.place[v] == Skipped <==>
                  s.place[v] == Skipped || (s.place[v] == Queued && v in s.closed && !HasNextUpTo(s, v)))
            && (t.place[v] != s.place[v] ==> s.place[v] == Queued && (t.place[v] == Granted || t.place[v] == Skipped)))
      && t.book.available == s.book.available + (if HasNextUpTo(s, |s.place|) then 0 else 1)
  {
    var q, n := s.book.queue, DeadPrefix(s.book.queue, s.closed);
    var t := Leave(s, w);
    FrontOfQueue(s);
    var placed := SkipAll(s.place[w := Gone], q[..n]);
    assert t.place == (if n < |q| then placed[q[n] := Granted] else placed)
        && t.book.available == s.book.available + (if n < |q| then 0 else 1)
        && w !in q && (forall v: Ticket :: v < |s.place| ==> (v in q <==> s.place[v] == Queued)) by {
      hide DeadPrefix, SkipAll, CountPermits, IsNext, HasNextUpTo;
      assert n < |q| ==> q[n] in q;
    }
    assert (forall v :: v in q[..n] ==> v in q) && (n < |q| ==> q[n] in q && q[n] < |s.place|);
    hide Leave, DeadPrefix, Inv, IsNext, HasNextUpTo;
    forall v | 0 <= v < |s.place| && v != w && v !in q
      ensures !IsNext(s, v)
    {
      assert !At(s, v, Queued);
      NotNext(s, v);
    }
  }

  lemma NotNext(s: State, v: Ticket)
    requires !At(s, v, Queued)
    ensures !IsNext(s, v)
  {
  }

  // The dead front of the queue, the next one to be woken, and whether there is one.
  lemma FrontOfQueue(s: State)
    requires Inv(s)
    ensures var q, n := s.book.queue, DeadPrefix(s.book.queue, s.closed);
      && (forall v :: v in q ==> (v in q[..n] <==> v in s.closed && !HasNextUpTo(s, v)))
      && (forall v :: v in q ==> (n < |q| && v == q[n] <==> IsNext(s, v)))
      && (n < |q| ==> q[n] !in q[..n])
      && (HasNextUpTo(s, |s.place|) <==> n < |q|)
  {
    var q, n := s.book.queue, DeadPrefix(s.book.queue, s.closed);
    assert HasNextUpTo(s, |s.place|) <==> n < |q| by {
      if n < |q| {
        assert q[n] in q && At(s, q[n], Queued);
      }
      if HasNextUpTo(s, |s.place|) {
        var v: Ticket :| v < |s.place| && At(s, v, Queued) && v !in s.closed;
        assert v in q;
      }
    }
    if n < |q| {
      GrantKeepsOrder(s.order, q, n);
    }
    forall v | v in q
      ensures (v in q[..n] <==> v in s.closed && !HasNextUpTo(s, v)) && (n < |q| && v == q[n] <==> IsNext(s, v))
    {
      hide DeadPrefix, IsNext, HasNextUpTo, CountPermits;
      var i :| 0 <= i < |q| && q[i] == v;
      NextByPosition(s, i);
    }
  }

  // In an ordered queue the dead front ends at the next one to be woken.
  lemma NextByPosition(s: State, i: nat)
    requires Inv(s) && i < |s.book.queue|
    ensures var q, n := s.book.queue, DeadPrefix(s.book.queue, s.closed);
      && (i < n <==> q[i] in q[..n])
      && (i < n <==> q[i] in s.closed && !HasNextUpTo(s, q[i]))
      && (i == n <==> IsNext(s, q[i]))
  {
    var q, n := s.book.queue, DeadPrefix(s.book.queue, s.closed);
    hide DeadPrefix, CountPermits;
    forall u: Ticket | u < q[i] && At(s, u, Queued)
      ensures exists j :: 0 <= j < i && q[j] == u
    {
      assert u in q;
    }
    assert q[i] in q;
    if n < i {
      assert q[n] in q && At(s, q[n], Queued);
    }
    if n == i {
      forall u: Ticket | u < q[i] && At(s, u, Queued)
        ensures u in s.closed
      {
        var j :| 0 <= j < i && q[j] == u;
      }
    }
  }

  // ---- Giving up ----

  // A caller whose wait runs out leaves, unless a permit was handed over just before:
  // then it has one to give back. Either way it counts as one rejection.
  lemma TimeoutDecided(limit: nat, maxWaiting: nat, steps: seq<Step>, w: Ticket)
    requires var s := Run(Init(limit, maxWaiting), steps);
      MayStep(s, w) && s.kinds[w] != SyncOnLoop && (s.place[w] == Queued || s.place[w] == Granted)
    ensures var s := Run(Init(limit, maxWaiting), steps); var t := Do(s, Timeout(w));
      && t.place == s.place[w := if s.place[w] == Granted then Returning else Gone]
      && t.book.rejected == s.book.rejected + 1
      && t.book.inFlight == s.book.inFlight && t.book.available == s.book.available
  {
    var s := Run(Init(limit, maxWaiting), steps);
    RunKeepsInv(limit, maxWaiting, steps);
    GiveUpDecided(s, w, true);
    hide Run, Inv, GiveUp;
  }

  // A cancelled coroutine and a refused event loop leave in the same way but are not rejections.
  lemma CancelDecided(limit: nat, maxWaiting: nat, steps: seq<Step>, w: Ticket)
    requires var s := Run(Init(limit, maxWaiting), steps);
      MayStep(s, w) && s.kinds[w] != SyncWorker && (s.place[w] == Queued || s.place[w] == Granted)
    ensures var s := Run(Init(limit, maxWaiting), steps);
      var t := Do(s, if s.kinds[w] == Async then Cancel(w) else RefuseLoop(w));
      && t.place == s.place[w := if s.place[w] == Granted then Returning else Gone]
      && t.book.rejected == s.book.rejected
      && t.book.inFlight == s.book.inFlight && t.book.available == s.book.available
  {
    var s := Run(Init(limit, maxWaiting), steps);
    RunKeepsInv(limit, maxWaiting, steps);
    GiveUpDecided(s, w, false);
    hide Run, Inv, GiveUp;
  }

  lemma GiveUpDecided(s: State, w: Ticket, rejected: bool)
    requires Inv(s) && w < |s.place| && (s.place[w] == Queued || s.place[w] == Granted)
    ensures var t := GiveUp(s, w, rejected);
      && t.place == s.place[w := if s.place[w] == Granted then Returning else Gone]
      && t.book.rejected == s.book.rejected + (if rejected then 1 else 0)
      && t.book.inFlight == s.book.inFlight && t.book.available == s.book.available
  {
  }

  // A caller that was handed a permit and resumes holds it, and nothing is counted twice.
  lemma ResumeHolds(s: State, w: Ticket)
    requires MayStep(s, w) && s.kinds[w] != SyncOnLoop && s.place[w] == Granted
    ensures Do(s, Resume(w)) == s.(place := s.place[w := Holding])
  {
  }

  predicate OnlyCoroutinesClosed(s: State) {
    forall w :: w in s.closed ==> w < |s.kinds| && s.kinds[w] == Async
  }

  // Only coroutines stop for good because their loop was closed.
  lemma {:induction false} ClosedAreCoroutines(limit: nat, maxWaiting: nat, steps: seq<Step>)
    ensures OnlyCoroutinesClosed(Run(Init(limit, maxWaiting), steps))
  {
    if |steps| > 0 {
      var s := Run(Init(limit, maxWaiting), steps[..|steps| - 1]);
      ClosedAreCoroutines(limit, maxWaiting, steps[..|steps| - 1]);
      StepClosesCoroutines(s, steps[|steps| - 1]);
    }
  }

  lemma StepClosesCoroutines(s: State, step: Step)
    requires OnlyCoroutinesClosed(s)
    ensures OnlyCoroutinesClosed(Do(s, step))
  {
    hide TryTakeBook, AbandonBook, ReleaseBook, SkipAll, DeadPrefix;
    match step
    case Arrive(_) =>
    case _ =>
  }

  // ---- The peaks ----

  predicate IsMaximum(values: seq<nat>, m: int) {
    (forall k :: 0 <= k < |values| ==> values[k] <= m) && exists k :: 0 <= k < |values| && values[k] == m
  }

  // How many permits were out, and how many callers queued, after each step so far.
  function Permits(s: State, steps: seq<Step>): (r: seq<nat>) {
    seq(|steps| + 1, k requires 0 <= k <= |steps| => CountPermits(Run(s, steps[..k]).place))
  }

  function Queues(s: State, steps: seq<Step>): (r: seq<nat>) {
    seq(|steps| + 1, k requires 0 <= k <= |steps| => |Run(s, steps[..k]).book.queue|)
  }

  // The reported peaks are the largest number of permits out and of callers queued at any moment.
  lemma {:induction false} PeaksAreMaxima(limit: nat, maxWaiting: nat, steps: seq<Step>)
    ensures var s := Init(limit, maxWaiting); var b := Run(s, steps).book;
      IsMaximum(Permits(s, steps), b.peakInFlight) && IsMaximum(Queues(s, steps), b.peakWaiting)
  {
    var s := Init(limit, maxWaiting);
    if |steps| == 0 {
      NoSteps(s, steps);
      assert Permits(s, steps)[0] == 0 && Queues(s, steps)[0] == 0;
    } else {
      var n := |steps| - 1;
      PeaksAreMaxima(limit, maxWaiting, steps[..n]);
      RunKeepsInv(limit, maxWaiting, steps[..n]);
      RunKeepsInv(limit, maxWaiting, steps);
      StepMovesPeaks(Run(s, steps[..n]), steps[n]);
      TracesSnoc(s, steps);
      hide Run, Do, Inv, CountPermits, Permits, Queues, IsMaximum;
      MaximumSnoc(Permits(s, steps[..n]), Run(s, steps[..n]).book.peakInFlight, CountPermits(Run(s, steps).place));
      MaximumSnoc(Queues(s, steps[..n]), Run(s, steps[..n]).book.peakWaiting, |Run(s, steps).book.queue|);
    }
  }

  lemma NoSteps(s: State, steps: seq<Step>)
    requires |steps| == 0 && s.place == [] && s.book.queue == []
    ensures Permits(s, steps) == [0] && Queues(s, steps) == [0]
  {
    assert steps[..0] == steps;
  }

  lemma TracesSnoc(s: State, steps: seq<Step>)
    requires |steps| > 0
    ensures var n := |steps| - 1;
      && Run(s, steps) == Do(Run(s, steps[..n]), steps[n])
      && Permits(s, steps) == Permits(s, steps[..n]) + [CountPermits(Run(s, steps).place)]
      && Queues(s, steps) == Queues(s, steps[..n]) + [|Run(s, steps).book.queue|]
  {
    hide Do, CountPermits;
    assert Run(s, steps) == Do(Run(s, steps[..|steps| - 1]), steps[|steps| - 1]);
    hide Run;
    PermitsSnoc(s, steps);
    QueuesSnoc(s, steps);
  }

  lemma PermitsSnoc(s: State, steps: seq<Step>)
    requires |steps| > 0
    ensures Permits(s, steps) == Permits(s, steps[..|steps| - 1]) + [CountPermits(Run(s, steps).place)]
  {
    hide Run, Do, CountPermits;
    var n := |steps| - 1;
    var all, front := Permits(s, steps), Permits(s, steps[..n]);
    assert steps[..|steps|] == steps;
    forall k | 0 <= k <= n
      ensures all[k] == front[k]
    {
      assert steps[..n][..k] == steps[..k];
    }
  }

  lemma QueuesSnoc(s: State, steps: seq<Step>)
    requires |steps| > 0
    ensures Queues(s, steps) == Queues(s, steps[..|steps| - 1]) + [|Run(s, steps).book.queue|]
  {
    hide Run, Do, CountPermits;
    var n := |steps| - 1;
    var all, front := Queues(s, steps), Queues(s, steps[..n]);
    assert steps[..|steps|] == steps;
    forall k | 0 <= k <= n
      ensures all[k] == front[k]
    {
      assert steps[..n][..k] == steps[..k];
    }
  }

  lemma MaximumSnoc(values: seq<nat>, m: int, v: nat)
    requires IsMaximum(values, m)
    ensures IsMaximum(values + [v], Max(m, v))
  {
    var k :| 0 <= k < |values| && values[k] == m;
    assert (values + [v])[k] == m && (values + [v])[|values|] == v;
  }

  lemma StepMovesPeaks(s: State, step: Step)
    requires Inv(s) && Inv(Do(s, step))
    ensures var t := Do(s, step);
      && t.book.peakInFlight == Max(s.book.peakInFlight, CountPermits(t.place))
      && t.book.peakWaiting == Max(s.book.peakWaiting, |t.book.queue|)
  {
    BookMovesPeaks(s, step);
    hide Do, CountPermits;
  }

  lemma BookMovesPeaks(s: State, step: Step)
    requires PermitsConserved(s) && NobodyStranded(s) && ArrivalOrder(s.order, s.book.queue)
    ensures var t := Do(s, step);
      && t.book.peakInFlight == Max(s.book.peakInFlight, t.book.inFlight)
      && t.book.peakWaiting == Max(s.book.peakWaiting, |t.book.queue|)
  {
    hide DeadPrefix, CountPermits, SkipAll;
    match step
    case Arrive(_) =>
    case Timeout(w) => WithoutIsShorter(s.book.queue, w);
    case Cancel(w) => WithoutIsShorter(s.book.queue, w);
    case RefuseLoop(w) => WithoutIsShorter(s.book.queue, w);
    case Release(_) =>
    case _ =>
  }

  lemma WithoutIsShorter(q: seq<Ticket>, w: Ticket)
    requires Increasing(q)
    ensures w in q ==> |Without(q, w)| == |q| - 1
  {
    if w in q {
      WithoutIsRemoval(q, w);
    }
  }
}
