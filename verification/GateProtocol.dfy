// Any number of threads and coroutines on one gate.
//
// A step is one lock-protected block of the gate together with the move of the
// caller that runs it. Each call of `acquire` draws a fresh ticket, so tickets
// are ordered by arrival. A caller whose event loop is closed takes no step.
module GateProtocol {
  import opened Wrappers
  import opened Gate

  datatype Kind = SyncWorker | SyncOnLoop | Async

  // Queued, woken but not resumed, inside the block, holding a permit it no
  // longer wants, left, or skipped by a release that could not wake it.
  datatype Place = Queued | Granted | Holding | Returning | Gone | Skipped

  // `order`, `releases`, `fullRefusals` and `timeouts` are history: the tickets
  // in the order of admission and the events so far.
  datatype State = State(
    book: Book, kinds: seq<Kind>, place: seq<Place>, closed: set<Ticket>,
    order: seq<Ticket>, releases: nat, fullRefusals: nat, timeouts: nat)

  datatype Step =
    | Arrive(kind: Kind)
    | Resume(w: Ticket)       // the woken waiter returns from its wait
    | Timeout(w: Ticket)      // the wait ran out, possibly just after a grant
    | Cancel(w: Ticket)       // a coroutine is cancelled while it waits
    | RefuseLoop(w: Ticket)   // a sync acquire finds itself on an event loop
    | Release(w: Ticket)      // leaving the block, or giving back an unwanted permit
    | CloseLoop(w: Ticket)

  function Init(limit: nat, maxWaiting: nat): State {
    State(Book(limit, maxWaiting, limit, [], 0, 0, 0, 0, 0), [], [], {}, [], 0, 0, 0)
  }

  predicate At(s: State, w: Ticket, p: Place) {
    w < |s.place| && s.place[w] == p
  }

  predicate Waits(s: State, w: Ticket) {
    At(s, w, Queued) || At(s, w, Granted)
  }

  // The caller can take a step of this kind.
  predicate Acts(s: State, w: Ticket) {
    w < |s.place| && w < |s.kinds| && w !in s.closed
  }

  function GiveUp(s: State, w: Ticket, rejected: bool): State
    requires w < |s.place|
  {
    var (book, had) := AbandonBook(s.book, w, rejected);
    s.(book := book, place := s.place[w := if had then Returning else Gone],
       timeouts := if rejected then s.timeouts + 1 else s.timeouts)
  }

  function SkipAll(place: seq<Place>, front: seq<Ticket>): (r: seq<Place>)
    ensures |r| == |place|
    ensures forall w :: 0 <= w < |place| ==> r[w] == if w in front then Skipped else place[w]
  {
    seq(|place|, w requires 0 <= w < |place| => if w in front then Skipped else place[w])
  }

  function Leave(s: State, w: Ticket): State
    requires w < |s.place|
  {
    var (book, woken) := ReleaseBook(s.book, s.closed);
    var front := s.book.queue[..DeadPrefix(s.book.queue, s.closed)];
    var place := SkipAll(s.place[w := Gone], front);
    match woken
    case Some(v) =>
      s.(book := book, releases := s.releases + 1, order := s.order + [v],
         place := if v < |place| then place[v := Granted] else place)
    case None => s.(book := book, releases := s.releases + 1, place := place)
  }

  function Enter(s: State, kind: Kind): State {
    var w := |s.kinds|;
    var (book, answer) := TryTakeBook(s.book, w);
    match answer
    case Admitted =>
      s.(book := book, kinds := s.kinds + [kind], place := s.place + [Holding], order := s.order + [w])
    case MustWait => s.(book := book, kinds := s.kinds + [kind], place := s.place + [Queued])
    case Refused =>
      s.(book := book, kinds := s.kinds + [kind], place := s.place + [Gone], fullRefusals := s.fullRefusals + 1)
  }

  function Do(s: State, step: Step): State {
    match step
    case Arrive(kind) => Enter(s, kind)
    case Resume(w) =>
      if Acts(s, w) && At(s, w, Granted) && s.kinds[w] != SyncOnLoop then s.(place := s.place[w := Holding]) else s
    case Timeout(w) =>
      if Acts(s, w) && Waits(s, w) && s.kinds[w] != SyncOnLoop then GiveUp(s, w, true) else s
    case Cancel(w) =>
      if Acts(s, w) && Waits(s, w) && s.kinds[w] == Async then GiveUp(s, w, false) else s
    case RefuseLoop(w) =>
      if Acts(s, w) && Waits(s, w) && s.kinds[w] == SyncOnLoop then GiveUp(s, w, false) else s
    case Release(w) =>
      if Acts(s, w) && (At(s, w, Holding) || At(s, w, Returning)) then Leave(s, w) else s
    case CloseLoop(w) =>
      if w < |s.kinds| && s.kinds[w] == Async then s.(closed := s.closed + {w}) else s
  }

  function Run(s: State, steps: seq<Step>): State {
    if |steps| == 0 then s else Do(Run(s, steps[..|steps| - 1]), steps[|steps| - 1])
  }

  // ---- The invariant ----

  predicate HasPermit(p: Place) {
    p == Granted || p == Holding || p == Returning
  }

  function CountPermits(place: seq<Place>): nat {
    if |place| == 0 then 0
    else CountPermits(place[..|place| - 1]) + if HasPermit(place[|place| - 1]) then 1 else 0
  }

  // Every permit is in the pool or with exactly one caller.
  predicate PermitsConserved(s: State) {
    && s.book.available + s.book.inFlight == s.book.limit
    && s.book.inFlight == CountPermits(s.place)
    && s.book.admitted == s.book.inFlight + s.releases
    && s.book.inFlight <= s.book.peakInFlight <= s.book.limit
  }

  predicate RejectionsCounted(s: State) {
    s.book.rejected == s.fullRefusals + s.timeouts
  }

  // A free permit means that nobody waits, and the waiting room is bounded.
  predicate NobodyStranded(s: State) {
    && (s.book.available > 0 ==> s.book.queue == [])
    && (s.book.maxWaiting > 0 ==> |s.book.queue| <= s.book.maxWaiting)
    && |s.book.queue| <= s.book.peakWaiting
  }

  predicate Increasing(q: seq<Ticket>) {
    forall i, j :: 0 <= i < j < |q| ==> q[i] < q[j]
  }

  // Admissions happen in the order of arrival, and whoever waits came after all of them.
  predicate ArrivalOrder(order: seq<Ticket>, queue: seq<Ticket>) {
    && Increasing(order)
    && Increasing(queue)
    && forall v, w :: v in order && w in queue ==> v < w
  }

  // The queue holds exactly the tickets that are queued, and a release skips
  // only waiters whose loop is closed.
  predicate QueueIsPlaces(s: State) {
    && |s.kinds| == |s.place|
    && (forall w :: w in s.book.queue ==> At(s, w, Queued))
    && (forall w :: 0 <= w < |s.place| && s.place[w] == Queued ==> w in s.book.queue)
    && (forall w :: 0 <= w < |s.place| && s.place[w] == Skipped ==> w in s.closed)
    && (forall w :: w in s.order ==> w < |s.place|)
    && |s.order| == s.book.admitted
  }

  predicate Inv(s: State) {
    && PermitsConserved(s) && RejectionsCounted(s) && NobodyStranded(s)
    && ArrivalOrder(s.order, s.book.queue) && QueueIsPlaces(s)
  }

  // ---- Order ----

  lemma AppendKeepsOrder(order: seq<Ticket>, w: Ticket)
    requires Increasing(order) && forall v :: v in order ==> v < w
    ensures Increasing(order + [w])
  {
    forall i | 0 <= i < |order|
      ensures order[i] < w
    {
      assert order[i] in order;
    }
  }

  lemma QueueUpKeepsOrder(order: seq<Ticket>, queue: seq<Ticket>, w: Ticket)
    requires ArrivalOrder(order, queue)
    requires (forall v :: v in order ==> v < w) && (forall v :: v in queue ==> v < w)
    ensures ArrivalOrder(order, queue + [w])
    ensures queue == [] ==> ArrivalOrder(order + [w], queue)
  {
    AppendKeepsOrder(queue, w);
    AppendKeepsOrder(order, w);
  }

  // Removing a ticket from an increasing queue removes exactly that ticket.
  lemma {:induction false} WithoutIsRemoval(q: seq<Ticket>, w: Ticket)
    requires Increasing(q) && w in q
    ensures Increasing(Without(q, w)) && |Without(q, w)| == |q| - 1
    ensures forall v :: v in Without(q, w) <==> v in q && v != w
  {
    assert q == [q[0]] + q[1..];
    if q[0] != w {
      WithoutIsRemoval(q[1..], w);
      var r := Without(q[1..], w);
      forall j | 0 <= j < |r|
        ensures q[0] < r[j]
      {
        assert r[j] in q[1..];
      }
    }
  }

  // Granting the waiter at `n` and dropping those before it keeps the order.
  lemma GrantKeepsOrder(order: seq<Ticket>, q: seq<Ticket>, n: nat)
    requires ArrivalOrder(order, q) && n < |q|
    ensures ArrivalOrder(order + [q[n]], q[n + 1..])
    ensures forall v :: v in q[n + 1..] ==> v in q && v != q[n] && v !in q[..n]
    ensures q[n] !in q[..n]
    ensures forall v :: v in q ==> v == q[n] || v in q[n + 1..] || v in q[..n]
  {
    assert q[n] in q;
    AppendKeepsOrder(order, q[n]);
    assert q == q[..n] + [q[n]] + q[n + 1..];
  }

  // ---- Counting ----

  lemma {:induction false} CountUpdate(place: seq<Place>, w: nat, p: Place)
    requires w < |place|
    ensures CountPermits(place[w := p]) + (if HasPermit(place[w]) then 1 else 0)
         == CountPermits(place) + (if HasPermit(p) then 1 else 0)
  {
    var n := |place| - 1;
    if w < n {
      CountUpdate(place[..n], w, p);
      assert place[w := p][..n] == place[..n][w := p];
    } else {
      assert place[w := p][..n] == place[..n];
    }
  }

  lemma {:induction false} CountSame(a: seq<Place>, b: seq<Place>)
    requires |a| == |b| && forall i :: 0 <= i < |a| ==> HasPermit(a[i]) == HasPermit(b[i])
    ensures CountPermits(a) == CountPermits(b)
  {
    if |a| > 0 {
      CountSame(a[..|a| - 1], b[..|b| - 1]);
    }
  }

  lemma CountAppend(place: seq<Place>, p: Place)
    ensures CountPermits(place + [p]) == CountPermits(place) + if HasPermit(p) then 1 else 0
  {
    assert (place + [p])[..|place|] == place;
  }

  // ---- Every step keeps the invariant ----

  lemma GiveUpKeepsInv(s: State, w: Ticket, rejected: bool)
    requires Inv(s) && Waits(s, w)
    ensures Inv(GiveUp(s, w, rejected))
  {
    CountUpdate(s.place, w, if w in s.book.queue then Gone else Returning);
    if w in s.book.queue {
      WithoutIsRemoval(s.book.queue, w);
    }
  }

  // The permit count after `w` left, the dead front was skipped and `v` was woken.
  lemma LeaveCount(place: seq<Place>, w: Ticket, front: seq<Ticket>, v: Ticket)
    requires w < |place| && (place[w] == Holding || place[w] == Returning)
    requires forall u :: u in front ==> u < |place| && place[u] == Queued
    requires v < |place| && place[v] == Queued && v !in front
    ensures var left := SkipAll(place[w := Gone], front);
      CountPermits(left) == CountPermits(place) - 1 && CountPermits(left[v := Granted]) == CountPermits(place)
  {
    CountUpdate(place, w, Gone);
    LeaveCountToPool(place, w, front);
    CountUpdate(SkipAll(place[w := Gone], front), v, Granted);
  }

  lemma LeaveCountToPool(place: seq<Place>, w: Ticket, front: seq<Ticket>)
    requires w < |place| && (place[w] == Holding || place[w] == Returning)
    requires forall u :: u in front ==> u < |place| && place[u] == Queued
    ensures CountPermits(SkipAll(place[w := Gone], front)) == CountPermits(place) - 1
  {
    CountUpdate(place, w, Gone);
    CountSame(place[w := Gone], SkipAll(place[w := Gone], front));
  }

  lemma SkippedOthersStay(place: seq<Place>, w: Ticket, front: seq<Ticket>, woken: Ticket, v: Ticket)
    requires w < |place| && v < |place| && woken < |place| && v != w && v != woken && v !in front
    ensures SkipAll(place[w := Gone], front)[woken := Granted][v] == place[v]
  {
  }

  lemma LeaveKeepsPlaces(s: State, w: Ticket)
    requires Inv(s) && (At(s, w, Holding) || At(s, w, Returning))
    ensures QueueIsPlaces(Leave(s, w))
  {
    hide DeadPrefix, SkipAll, CountPermits;
    var q, n := s.book.queue, DeadPrefix(s.book.queue, s.closed);
    var t := Leave(s, w);
    assert forall v :: v in q[..n] ==> v in q && v in s.closed;
    if n < |q| {
      assert q[n] in q;
      GrantKeepsOrder(s.order, q, n);
      assert t.place == SkipAll(s.place[w := Gone], q[..n])[q[n] := Granted];
      assert t.book.queue == q[n + 1..];
      forall v | v in t.book.queue
        ensures At(t, v, Queued)
      {
        assert v in q[n + 1..];
        assert At(s, v, Queued) && At(s, q[n], Queued);
        SkippedOthersStay(s.place, w, q[..n], q[n], v);
      }
    } else {
      assert q[..n] == q;
      assert t.place == SkipAll(s.place[w := Gone], q);
    }
  }

  lemma LeaveKeepsOrder(s: State, w: Ticket)
    requires Inv(s) && (At(s, w, Holding) || At(s, w, Returning))
    ensures ArrivalOrder(Leave(s, w).order, Leave(s, w).book.queue) && NobodyStranded(Leave(s, w))
  {
    hide DeadPrefix, SkipAll, CountPermits;
    var q, n := s.book.queue, DeadPrefix(s.book.queue, s.closed);
    if n < |q| {
      GrantKeepsOrder(s.order, q, n);
    }
  }

  lemma LeaveKeepsPermits(s: State, w: Ticket)
    requires Inv(s) && (At(s, w, Holding) || At(s, w, Returning))
    ensures PermitsConserved(Leave(s, w)) && RejectionsCounted(Leave(s, w))
  {
    hide DeadPrefix, SkipAll, CountPermits;
    var q, n := s.book.queue, DeadPrefix(s.book.queue, s.closed);
    assert forall v :: v in q[..n] ==> v in q;
    if n < |q| {
      assert q[n] in q;
      GrantKeepsOrder(s.order, q, n);
      LeaveCount(s.place, w, q[..n], q[n]);
    } else {
      LeaveCountToPool(s.place, w, q[..n]);
    }
  }

  lemma LeaveKeepsInv(s: State, w: Ticket)
    requires Inv(s) && (At(s, w, Holding) || At(s, w, Returning))
    ensures Inv(Leave(s, w))
  {
    LeaveKeepsPlaces(s, w);
    LeaveKeepsOrder(s, w);
    LeaveKeepsPermits(s, w);
  }

  lemma ArriveKeepsInv(s: State, kind: Kind)
    requires Inv(s)
    ensures Inv(Enter(s, kind))
  {
    ArriveKeepsOrder(s, kind);
    ArriveKeepsPlaces(s, kind);
    CountAppend(s.place, Holding);
    CountAppend(s.place, Queued);
    CountAppend(s.place, Gone);
    hide CountPermits, ArrivalOrder, QueueIsPlaces;
  }

  lemma ArriveKeepsOrder(s: State, kind: Kind)
    requires ArrivalOrder(s.order, s.book.queue) && QueueIsPlaces(s) && NobodyStranded(s)
    ensures ArrivalOrder(Enter(s, kind).order, Enter(s, kind).book.queue)
  {
    QueueUpKeepsOrder(s.order, s.book.queue, |s.kinds|);
    hide ArrivalOrder;
  }

  lemma ArriveKeepsPlaces(s: State, kind: Kind)
    requires QueueIsPlaces(s)
    ensures QueueIsPlaces(Enter(s, kind))
  {
  }

  lemma StepKeepsInv(s: State, step: Step)
    requires Inv(s)
    ensures Inv(Do(s, step))
  {
    match step
    case Arrive(kind) => ArriveKeepsInv(s, kind);
    case Resume(w) =>
      if At(s, w, Granted) {
        CountUpdate(s.place, w, Holding);
      }
    case Timeout(w) =>
      if Waits(s, w) {
        GiveUpKeepsInv(s, w, true);
      }
    case Cancel(w) =>
      if Waits(s, w) {
        GiveUpKeepsInv(s, w, false);
      }
    case RefuseLoop(w) =>
      if Waits(s, w) {
        GiveUpKeepsInv(s, w, false);
      }
    case Release(w) =>
      if At(s, w, Holding) || At(s, w, Returning) {
        LeaveKeepsInv(s, w);
      }
    case CloseLoop(w) =>
  }

  // Permits are conserved, rejections are counted whichever side of the
  // hand-over race wins, nobody overtakes and nobody is stranded.
  lemma {:induction false} RunKeepsInv(limit: nat, maxWaiting: nat, steps: seq<Step>)
    ensures Inv(Run(Init(limit, maxWaiting), steps))
  {
    if |steps| > 0 {
      RunKeepsInv(limit, maxWaiting, steps[..|steps| - 1]);
      StepKeepsInv(Run(Init(limit, maxWaiting), steps[..|steps| - 1]), steps[|steps| - 1]);
    }
  }

  // ---- What the invariant says about whole runs ----

  predicate NobodyHolds(place: seq<Place>) {
    forall w :: 0 <= w < |place| ==> !HasPermit(place[w])
  }

  // Once nobody holds a permit, all of them are back in the pool: cancelled,
  // timed-out and refused callers leak nothing.
  lemma NoPermitLeaks(limit: nat, maxWaiting: nat, steps: seq<Step>)
    requires NobodyHolds(Run(Init(limit, maxWaiting), steps).place)
    ensures Run(Init(limit, maxWaiting), steps).book.available == limit
  {
    var s := Run(Init(limit, maxWaiting), steps);
    RunKeepsInv(limit, maxWaiting, steps);
    CountNone(s.place);
    LimitIsConstant(limit, maxWaiting, steps);
  }

  lemma {:induction false} CountNone(place: seq<Place>)
    requires NobodyHolds(place)
    ensures CountPermits(place) == 0
  {
    if |place| > 0 {
      CountNone(place[..|place| - 1]);
    }
  }

  lemma {:induction false} LimitIsConstant(limit: nat, maxWaiting: nat, steps: seq<Step>)
    ensures var b := Run(Init(limit, maxWaiting), steps).book; b.limit == limit && b.maxWaiting == maxWaiting
  {
    if |steps| > 0 {
      LimitIsConstant(limit, maxWaiting, steps[..|steps| - 1]);
    }
  }

  // While anybody is queued, all the permits are out.
  lemma QueuedMeansSaturated(limit: nat, maxWaiting: nat, steps: seq<Step>, w: Ticket)
    requires At(Run(Init(limit, maxWaiting), steps), w, Queued)
    ensures var s := Run(Init(limit, maxWaiting), steps);
      s.book.inFlight == limit && CountPermits(s.place) == limit && s.book.peakInFlight == limit
  {
    RunKeepsInv(limit, maxWaiting, steps);
    LimitIsConstant(limit, maxWaiting, steps);
  }

  // The step makes `w` stop waiting without a permit, or closes its loop.
  predicate Quits(step: Step, w: Ticket) {
    step == Timeout(w) || step == Cancel(w) || step == RefuseLoop(w) || step == CloseLoop(w)
  }

  lemma QueuedStaysOrIsAdmitted(s: State, step: Step, w: Ticket)
    requires Inv(s) && w < |s.place| && w !in s.closed && !Quits(step, w)
    requires At(s, w, Queued) || w in s.order
    ensures var t := Do(s, step); w < |t.place| && w !in t.closed && (At(t, w, Queued) || w in t.order)
  {
    if step.Release? && Do(s, step) != s {
      var q, n := s.book.queue, DeadPrefix(s.book.queue, s.closed);
      if At(s, w, Queued) && n < |q| && w != q[n] {
        assert w in q;
        GrantKeepsOrder(s.order, q, n);
      }
    }
  }

  // A queued caller that can be woken and does not quit is admitted before
  // every caller that arrived after it.
  lemma {:induction false} NoOvertaking(
    limit: nat, maxWaiting: nat, steps: seq<Step>, k: nat, a: Ticket, b: Ticket)
    requires k <= |steps| && a < b
    requires At(Run(Init(limit, maxWaiting), steps[..k]), a, Queued)
    requires a !in Run(Init(limit, maxWaiting), steps[..k]).closed
    requires forall i :: k <= i < |steps| ==> !Quits(steps[i], a)
    requires b in Run(Init(limit, maxWaiting), steps).order
    ensures var order := Run(Init(limit, maxWaiting), steps).order;
      exists i, j :: 0 <= i < j < |order| && order[i] == a && order[j] == b
  {
    var t := Run(Init(limit, maxWaiting), steps);
    StaysOrIsAdmitted(limit, maxWaiting, steps, k, a);
    RunKeepsInv(limit, maxWaiting, steps);
    assert a in t.order;
    var i :| 0 <= i < |t.order| && t.order[i] == a;
    var j :| 0 <= j < |t.order| && t.order[j] == b;
  }

  lemma {:induction false} StaysOrIsAdmitted(limit: nat, maxWaiting: nat, steps: seq<Step>, k: nat, a: Ticket)
    requires k <= |steps|
    requires At(Run(Init(limit, maxWaiting), steps[..k]), a, Queued)
    requires a !in Run(Init(limit, maxWaiting), steps[..k]).closed
    requires forall i :: k <= i < |steps| ==> !Quits(steps[i], a)
    ensures var t := Run(Init(limit, maxWaiting), steps);
      a < |t.place| && a !in t.closed && (At(t, a, Queued) || a in t.order)
    decreases |steps|
  {
    hide Do, Inv;
    if k == |steps| {
      assert steps[..k] == steps;
    } else {
      var n := |steps| - 1;
      assert steps[..n][..k] == steps[..k];
      StaysOrIsAdmitted(limit, maxWaiting, steps[..n], k, a);
      RunKeepsInv(limit, maxWaiting, steps[..n]);
      QueuedStaysOrIsAdmitted(Run(Init(limit, maxWaiting), steps[..n]), steps[n], a);
    }
  }
}
