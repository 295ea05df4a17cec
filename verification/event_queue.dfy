/**
 * The per-category event FIFOs (kaptivate/event_queue.cpp). Each of the four
 * queues holds event pointers; enqueue pushes at the tail and dequeue pops
 * the head or yields NULL when the queue is empty. Nothing is checked on
 * enqueue, so a NULL pointer may itself be queued.
 */
module EventQueues {
  import opened Events

  /** One `front()`/`pop()` step: the value handed back and the remaining queue. */
  function Pop<T>(q: seq<Pointer<T>>): (Pointer<T>, seq<Pointer<T>>)
  {
    if q == [] then (Null, q) else (q[0], q[1..])
  }

  /** The values handed back by `n` consecutive dequeues. */
  function Drain<T>(q: seq<Pointer<T>>, n: nat): seq<Pointer<T>>
  {
    if n == 0 then [] else [Pop(q).0] + Drain(Pop(q).1, n - 1)
  }

  /** `n` NULL pointers. */
  function Nulls<T>(n: nat): (r: seq<Pointer<T>>)
    ensures |r| == n && forall i :: 0 <= i < n ==> r[i] == Null
  {
    if n == 0 then [] else [Null] + Nulls(n - 1)
  }

  /**
   * Dequeuing `n` times returns the queued pointers front to back, and then
   * NULL for every dequeue made on the emptied queue.
   */
  lemma {:induction false} DrainInOrder<T>(q: seq<Pointer<T>>, n: nat)
    ensures n <= |q| ==> Drain(q, n) == q[..n]
    ensures n > |q| ==> Drain(q, n) == q + Nulls(n - |q|)
  {
    if n == 0 {
    } else if q == [] {
      DrainInOrder(q, n - 1);
      assert Drain(q, n) == [Null] + Nulls(n - 1);
    } else {
      DrainInOrder(q[1..], n - 1);
      if n <= |q| {
        assert q[..n] == [q[0]] + q[1..][..n - 1];
      } else {
        assert q == [q[0]] + q[1..];
      }
    }
  }

  /** A NULL result is returned both by an empty queue and by a queued NULL. */
  lemma NullResultIsAmbiguous<T>(q: seq<Pointer<T>>)
    ensures Pop(q).0 == Null <==> q == [] || q[0] == Null
    ensures Pop([Null] + q) == (Null, q) && Pop<T>([]) == (Null, [])
  {
    assert ([Null] + q)[1..] == q;
  }

  /** One operation on a single category's queue. */
  datatype QueueOp<T> = Enqueue(event: Pointer<T>) | Dequeue

  /** The pointers pushed by a sequence of operations, in order. */
  function Enqueued<T>(ops: seq<QueueOp<T>>): seq<Pointer<T>>
  {
    if ops == [] then []
    else (if ops[0].Enqueue? then [ops[0].event] else []) + Enqueued(ops[1..])
  }

  /**
   * Runs `ops` from queue `q`: the pointers removed by dequeues (a dequeue on
   * an empty queue removes nothing and yields NULL), and the final queue.
   * RunSteps shows each step is the one the class's methods state.
   */
  function Run<T>(q: seq<Pointer<T>>, ops: seq<QueueOp<T>>): (seq<Pointer<T>>, seq<Pointer<T>>)
    decreases |ops|
  {
    if ops == [] then ([], q)
    else match ops[0]
      case Enqueue(e) => Run(q + [e], ops[1..])
      case Dequeue =>
        if q == [] then Run(q, ops[1..])
        else var (taken, rest) := Run(q[1..], ops[1..]); ([q[0]] + taken, rest)
  }

  /**
   * Each step of Run is the step the class's methods state: an enqueue
   * appends at the tail, and a dequeue is Pop, whose pointer counts as
   * removed unless the queue was empty.
   */
  lemma RunSteps<T>(q: seq<Pointer<T>>, ops: seq<QueueOp<T>>)
    requires ops != []
    ensures ops[0].Enqueue? ==> Run(q, ops) == Run(q + [ops[0].event], ops[1..])
    ensures ops[0].Dequeue? ==>
              var next := Run(Pop(q).1, ops[1..]);
              Run(q, ops) == (if q == [] then next.0 else [Pop(q).0] + next.0, next.1)
  {
  }

  /**
   * FIFO under any interleaving: what the dequeues removed, followed by what
   * is still queued, is exactly the initial queue followed by every enqueued
   * pointer in enqueue order. Nothing is lost, duplicated or reordered.
   */
  lemma {:induction false} RunIsFifo<T>(q: seq<Pointer<T>>, ops: seq<QueueOp<T>>)
    ensures Run(q, ops).0 + Run(q, ops).1 == q + Enqueued(ops)
    decreases |ops|
  {
    if ops != [] {
      match ops[0]
      case Enqueue(e) =>
        RunIsFifo(q + [e], ops[1..]);
      case Dequeue =>
        assert Enqueued(ops) == Enqueued(ops[1..]);
        if q == [] {
          RunIsFifo(q, ops[1..]);
        } else {
          RunIsFifo(q[1..], ops[1..]);
          var (taken, rest) := Run(q[1..], ops[1..]);
          assert Run(q, ops) == ([q[0]] + taken, rest);
          assert ([q[0]] + taken) + rest == [q[0]] + (taken + rest);
          assert q == [q[0]] + q[1..];
        }
    }
  }

  /** The four queues as one value. */
  datatype Queues = Queues(
    keyboard: seq<Pointer<KeyboardEvent>>,
    mouseButton: seq<Pointer<MouseButtonEvent>>,
    mouseWheel: seq<Pointer<MouseWheelEvent>>,
    mouseMove: seq<Pointer<MouseMoveEvent>>)

  /** EventQueue: four independent FIFOs, mutated in place. */
  class EventQueue {
    var kbEventQueue: seq<Pointer<KeyboardEvent>>
    var mbEventQueue: seq<Pointer<MouseButtonEvent>>
    var mwEventQueue: seq<Pointer<MouseWheelEvent>>
    var mmEventQueue: seq<Pointer<MouseMoveEvent>>

    function State(): Queues
      reads this
    {
      Queues(kbEventQueue, mbEventQueue, mwEventQueue, mmEventQueue)
    }

    constructor ()
      ensures State() == Queues([], [], [], [])
    {
      kbEventQueue, mbEventQueue, mwEventQueue, mmEventQueue := [], [], [], [];
    }

    method EnqueueKeyboardEvent(kbdEvent: Pointer<KeyboardEvent>)
      modifies this
      ensures State() == old(State()).(keyboard := old(kbEventQueue) + [kbdEvent])
      ensures |kbEventQueue| == |old(kbEventQueue)| + 1
    {
      kbEventQueue := kbEventQueue + [kbdEvent];
    }

    method DequeueKeyboardEvent() returns (evt: Pointer<KeyboardEvent>)
      modifies this
      ensures (evt, kbEventQueue) == Pop(old(kbEventQueue))
      ensures old(kbEventQueue) == [] ==> evt == Null && State() == old(State())
      ensures old(kbEventQueue) != [] ==> evt == old(kbEventQueue)[0] && kbEventQueue == old(kbEventQueue)[1..]
      ensures State() == old(State()).(keyboard := kbEventQueue)
    {
      if kbEventQueue == [] {
        return Null;
      }
      evt := kbEventQueue[0];
      kbEventQueue := kbEventQueue[1..];
    }

    method EnqueueMouseButtonEvent(mbEvent: Pointer<MouseButtonEvent>)
      modifies this
      ensures State() == old(State()).(mouseButton := old(mbEventQueue) + [mbEvent])
      ensures |mbEventQueue| == |old(mbEventQueue)| + 1
    {
      mbEventQueue := mbEventQueue + [mbEvent];
    }

    method DequeueMouseButtonEvent() returns (evt: Pointer<MouseButtonEvent>)
      modifies this
      ensures (evt, mbEventQueue) == Pop(old(mbEventQueue))
      ensures old(mbEventQueue) == [] ==> evt == Null && State() == old(State())
      ensures old(mbEventQueue) != [] ==> evt == old(mbEventQueue)[0] && mbEventQueue == old(mbEventQueue)[1..]
      ensures State() == old(State()).(mouseButton := mbEventQueue)
    {
      if mbEventQueue == [] {
        return Null;
      }
      evt := mbEventQueue[0];
      mbEventQueue := mbEventQueue[1..];
    }

    method EnqueueMouseWheelEvent(mwEvent: Pointer<MouseWheelEvent>)
      modifies this
      ensures State() == old(State()).(mouseWheel := old(mwEventQueue) + [mwEvent])
      ensures |mwEventQueue| == |old(mwEventQueue)| + 1
    {
      mwEventQueue := mwEventQueue + [mwEvent];
    }

    method DequeueMouseWheelEvent() returns (evt: Pointer<MouseWheelEvent>)
      modifies this
      ensures (evt, mwEventQueue) == Pop(old(mwEventQueue))
      ensures old(mwEventQueue) == [] ==> evt == Null && State() == old(State())
      ensures old(mwEventQueue) != [] ==> evt == old(mwEventQueue)[0] && mwEventQueue == old(mwEventQueue)[1..]
      ensures State() == old(State()).(mouseWheel := mwEventQueue)
    {
      if mwEventQueue == [] {
        return Null;
      }
      evt := mwEventQueue[0];
      mwEventQueue := mwEventQueue[1..];
    }

    method EnqueueMouseMoveEvent(mmEvent: Pointer<MouseMoveEvent>)
      modifies this
      ensures State() == old(State()).(mouseMove := old(mmEventQueue) + [mmEvent])
      ensures |mmEventQueue| == |old(mmEventQueue)| + 1
    {
      mmEventQueue := mmEventQueue + [mmEvent];
    }

    method DequeueMouseMoveEvent() returns (evt: Pointer<MouseMoveEvent>)
      modifies this
      ensures (evt, mmEventQueue) == Pop(old(mmEventQueue))
      ensures old(mmEventQueue) == [] ==> evt == Null && State() == old(State())
      ensures old(mmEventQueue) != [] ==> evt == old(mmEventQueue)[0] && mmEventQueue == old(mmEventQueue)[1..]
      ensures State() == old(State()).(mouseMove := mmEventQueue)
    {
      if mmEventQueue == [] {
        return Null;
      }
      evt := mmEventQueue[0];
      mmEventQueue := mmEventQueue[1..];
    }
  }

  /**
   * A client of the class: keyboard pointers pushed in order come back in
   * the same order, the mouse queues are untouched throughout, and a further
   * dequeue on the emptied queue yields NULL.
   */
  method KeyboardFifoClient(queue: EventQueue, a: Pointer<KeyboardEvent>, b: Pointer<KeyboardEvent>)
    returns (first: Pointer<KeyboardEvent>, second: Pointer<KeyboardEvent>, third: Pointer<KeyboardEvent>)
    requires queue.kbEventQueue == []
    modifies queue
    ensures first == a && second == b && third == Null
    ensures queue.State() == old(queue.State())
  {
    queue.EnqueueKeyboardEvent(a);
    queue.EnqueueKeyboardEvent(b);
    first := queue.DequeueKeyboardEvent();
    second := queue.DequeueKeyboardEvent();
    third := queue.DequeueKeyboardEvent();
  }
}
