// The concurrency gate: a permit counter with a queue of waiters and direct
// hand-over, shared by threads and coroutines.
//
// Every block that the code runs under the gate's lock is one operation here:
// a function on the bookkeeping, and a method of class Gate that carries it
// out on the fields. GateProtocol lets any number of callers interleave them.
module Gate {
  import opened Wrappers

  // Waiters are numbered by arrival.
  type Ticket = nat

  datatype Book = Book(
    limit: nat, maxWaiting: nat,
    available: nat, queue: seq<Ticket>, inFlight: int,
    peakInFlight: int, peakWaiting: nat, admitted: nat, rejected: nat)

  datatype Answer = Admitted | MustWait | Refused

  function Max(a: int, b: int): int {
    if a < b then b else a
  }

  function EnterBook(b: Book): Book {
    b.(inFlight := b.inFlight + 1, admitted := b.admitted + 1,
       peakInFlight := Max(b.peakInFlight, b.inFlight + 1))
  }

  function TryTakeBook(b: Book, w: Ticket): (Book, Answer) {
    if b.available > 0 then
      (EnterBook(b.(available := b.available - 1)), Admitted)
    else if b.maxWaiting > 0 && |b.queue| >= b.maxWaiting then
      (b.(rejected := b.rejected + 1), Refused)
    else
      (b.(queue := b.queue + [w], peakWaiting := Max(b.peakWaiting, |b.queue| + 1)), MustWait)
  }

  // The queue without the first occurrence of `w`.
  function Without(queue: seq<Ticket>, w: Ticket): seq<Ticket> {
    if |queue| == 0 then []
    else if queue[0] == w then queue[1..]
    else [queue[0]] + Without(queue[1..], w)
  }

  lemma {:induction false} WithoutFrom(queue: seq<Ticket>, w: Ticket, i: nat)
    requires i <= |queue| && w !in queue[..i] && (i < |queue| ==> queue[i] == w)
    ensures Without(queue, w) == if i < |queue| then queue[..i] + queue[i + 1..] else queue
  {
    if i > 0 {
      assert queue[..i][0] == queue[0];
      assert queue[..i][1..] == queue[1..][..i - 1];
      WithoutFrom(queue[1..], w, i - 1);
    }
  }

  // Give up waiting; the answer says whether a permit was already handed over.
  function AbandonBook(b: Book, w: Ticket, rejected: bool): (Book, bool) {
    var counted := if rejected then b.(rejected := b.rejected + 1) else b;
    if w in b.queue then (counted.(queue := Without(b.queue, w)), false) else (counted, true)
  }

  // How many waiters at the front can no longer be woken.
  function DeadPrefix(queue: seq<Ticket>, dead: set<Ticket>): (n: nat)
    ensures n <= |queue|
    ensures forall i :: 0 <= i < n ==> queue[i] in dead
    ensures n < |queue| ==> queue[n] !in dead
  {
    if |queue| == 0 || queue[0] !in dead then 0 else 1 + DeadPrefix(queue[1..], dead)
  }

  // Give a permit back: it goes to the first waiter that can be woken, else to the pool.
  function ReleaseBook(b: Book, dead: set<Ticket>): (Book, Option<Ticket>) {
    var n := DeadPrefix(b.queue, dead);
    if n < |b.queue| then
      (EnterBook(b.(inFlight := b.inFlight - 1, queue := b.queue[n + 1..])), Some(b.queue[n]))
    else
      (b.(inFlight := b.inFlight - 1, queue := [], available := b.available + 1), None)
  }

  class Gate {
    const limit: nat
    const maxWaiting: nat
    var available: nat
    var queue: seq<Ticket>
    var inFlight: int
    var peakInFlight: int
    var peakWaiting: nat
    var admitted: nat
    var rejected: nat

    ghost function View(): Book
      reads this
    {
      Book(limit, maxWaiting, available, queue, inFlight, peakInFlight, peakWaiting, admitted, rejected)
    }

    constructor (limit: nat, maxWaiting: nat)
      requires limit > 0
      ensures View() == Book(limit, maxWaiting, limit, [], 0, 0, 0, 0, 0)
    {
      this.limit, this.maxWaiting := limit, maxWaiting;
      available, queue, inFlight, peakInFlight := limit, [], 0, 0;
      peakWaiting, admitted, rejected := 0, 0, 0;
    }

    method EnterLocked()
      modifies this
      ensures View() == EnterBook(old(View()))
    {
      inFlight := inFlight + 1;
      admitted := admitted + 1;
      peakInFlight := Max(peakInFlight, inFlight);
    }

    method TryTake(w: Ticket) returns (answer: Answer)
      modifies this
      ensures (View(), answer) == TryTakeBook(old(View()), w)
    {
      if available > 0 {
        available := available - 1;
        EnterLocked();
        return Admitted;
      }
      if maxWaiting > 0 && |queue| >= maxWaiting {
        rejected := rejected + 1;
        return Refused;
      }
      queue := queue + [w];
      peakWaiting := Max(peakWaiting, |queue|);
      return MustWait;
    }

    method Abandon(w: Ticket, isRejected: bool) returns (granted: bool)
      modifies this
      ensures (View(), granted) == AbandonBook(old(View()), w, isRejected)
    {
      if isRejected {
        rejected := rejected + 1;
      }
      var i := 0;
      while i < |queue| && queue[i] != w
        invariant 0 <= i <= |queue|
        invariant w !in queue[..i]
      {
        assert queue[..i + 1] == queue[..i] + [queue[i]];
        i := i + 1;
      }
      WithoutFrom(queue, w, i);
      hide Without;
      if i == |queue| {
        assert queue[..i] == queue;
        return true;
      }
      queue := queue[..i] + queue[i + 1..];
      return false;
    }

    // `dead` are the waiters whose event loop is closed: waking them raises.
    method Release(dead: set<Ticket>) returns (woken: Option<Ticket>)
      modifies this
      ensures (View(), woken) == ReleaseBook(old(View()), dead)
    {
      inFlight := inFlight - 1;
      ghost var popped := 0;
      while queue != []
        invariant View() == old(View()).(inFlight := old(inFlight) - 1, queue := queue)
        invariant 0 <= popped <= |old(queue)| && queue == old(queue)[popped..]
        invariant DeadPrefix(old(queue), dead) == popped + DeadPrefix(queue, dead)
        decreases |queue|
      {
        var waiter := queue[0];
        queue := queue[1..];
        popped := popped + 1;
        if waiter in dead {
          continue;
        }
        EnterLocked();
        return Some(waiter);
      }
      available := available + 1;
      return None;
    }
  }
}
