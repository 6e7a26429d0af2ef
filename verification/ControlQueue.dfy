/** The bounded event queue of control_queue.cpp and its consumer: the ring in place,
    and every interleaving of the atomic steps of producers and consumer. */
module ControlQueue {
  import opened Bytes
  import opened LiveModel
  import opened ControlTypes
  import LiveControl
  import Cues

  // ---- the ring ----------------------------------------------------------

  /** Where entry `i` from `head` on lies in a ring of `size`. */
  function Slot(size: nat, head: nat, i: nat): (k: nat)
    requires head < size && i < size
    ensures k < size && k == (head + i) % size
  {
    if head + i < size then head + i
    else
      Wrapped(size, head + i);
      head + i - size
  }

  lemma Wrapped(size: nat, k: nat)
    requires 0 < size <= k < 2 * size
    ensures k % size == k - size
  {
  }

  lemma SlotsDiffer(size: nat, head: nat, i: nat, j: nat)
    requires head < size && i < size && j < size && i != j
    ensures Slot(size, head, i) != Slot(size, head, j)
  {
  }

  class Ring {
    const buffer: array<ControlEvent>
    var head: nat
    var tail: nat
    var count: nat
    var dropped: nat

    ghost predicate Valid()
      reads this
    {
      0 < buffer.Length && head < buffer.Length && tail < buffer.Length && count <= buffer.Length &&
      tail == (head + count) % buffer.Length
    }

    /** The queued events, oldest first. */
    ghost function Contents(): (s: seq<ControlEvent>)
      requires Valid()
      reads this, buffer
      ensures |s| == count
    {
      seq(count, i requires 0 <= i < count reads this, buffer requires Valid() => buffer[Slot(buffer.Length, head, i)])
    }

    /** A capacity of zero becomes one. */
    constructor (capacity: nat)
      ensures Valid() && Contents() == [] && dropped == 0
      ensures buffer.Length == (if capacity > 0 then capacity else 1) && fresh(buffer)
    {
      buffer := new ControlEvent[if capacity > 0 then capacity else 1](_ => ControlEvent(Button, 0, 0, false, 0.0));
      head, tail, count, dropped := 0, 0, 0, 0;
    }

    /** Rejects the newest event when full. */
    method Push(ev: ControlEvent) returns (ok: bool)
      requires Valid()
      modifies this, buffer
      ensures Valid() && ok == (|old(Contents())| < buffer.Length)
      ensures Contents() == if ok then old(Contents()) + [ev] else old(Contents())
      ensures dropped == if ok then old(dropped) else old(dropped) + 1
    {
      if count >= buffer.Length {
        dropped := dropped + 1;
        return false;
      }
      ghost var before := Contents();
      TailIsSlot(buffer.Length, head, count);
      buffer[tail] := ev;
      Advance(buffer.Length, head, count);
      tail := (tail + 1) % buffer.Length;
      count := count + 1;
      forall i | 0 <= i < count ensures Contents()[i] == (before + [ev])[i] {
        if i < count - 1 { SlotsDiffer(buffer.Length, head, i, count - 1); }
      }
      return true;
    }

    method Pop() returns (r: Option<ControlEvent>)
      requires Valid()
      modifies this
      ensures Valid() && dropped == old(dropped)
      ensures if old(Contents()) == [] then r == None && Contents() == []
              else r == Some(old(Contents())[0]) && Contents() == old(Contents())[1..]
    {
      if count == 0 { return None; }
      ghost var before := Contents();
      r := Some(buffer[head]);
      assert before[0] == buffer[Slot(buffer.Length, head, 0)];
      HeadMoves(buffer.Length, head, count);
      head := (head + 1) % buffer.Length;
      count := count - 1;
      forall i | 0 <= i < count ensures Contents()[i] == before[i + 1] {
        SlotMoves(buffer.Length, old(head), i);
      }
    }
  }

  lemma TailIsSlot(size: nat, head: nat, count: nat)
    requires head < size && count < size
    ensures Slot(size, head, count) == (head + count) % size
  {
  }

  lemma Advance(size: nat, head: nat, count: nat)
    requires head < size && count < size
    ensures ((head + count) % size + 1) % size == (head + (count + 1)) % size
  {
    StepMod(size, head + count);
  }

  lemma StepMod(size: nat, n: nat)
    requires size > 0
    ensures (n % size + 1) % size == (n + 1) % size
  {
    var q, r := n / size, n % size;
    assert n == q * size + r;
    if r + 1 < size {
      ModIs(n + 1, size, q, r + 1);
      ModIs(r + 1, size, 0, r + 1);
    } else {
      assert (q + 1) * size == q * size + size;
      ModIs(n + 1, size, q + 1, 0);
      ModIs(r + 1, size, 1, 0);
    }
  }

  lemma ModIs(n: nat, size: nat, q: nat, r: nat)
    requires size > 0 && n == q * size + r && r < size
    ensures n % size == r
  {
    var d := n / size - q;
    assert d * size == (n / size) * size - q * size;
    assert d * size == r - n % size;
    MultipleIsFar(d, size);
  }

  lemma MultipleIsFar(d: int, size: nat)
    ensures d > 0 ==> d * size >= size
    ensures d < 0 ==> d * size + size <= 0
  {
  }

  lemma HeadMoves(size: nat, head: nat, count: nat)
    requires head < size && 0 < count <= size
    ensures ((head + 1) % size + (count - 1)) % size == (head + count) % size
  {
    if head + 1 == size {
      ModIs(size, size, 1, 0);
      Shift(size, count - 1);
    } else {
      ModIs(head + 1, size, 0, head + 1);
    }
  }

  lemma Shift(size: nat, n: nat)
    requires size > 0
    ensures (size + n) % size == n % size
  {
    var q, r := n / size, n % size;
    assert (q + 1) * size == q * size + size;
    ModIs(size + n, size, q + 1, r);
  }

  lemma SlotMoves(size: nat, head: nat, i: nat)
    requires head < size && i + 1 < size
    ensures (head + 1) % size < size && Slot(size, (head + 1) % size, i) == Slot(size, head, i + 1)
  {
    if head + 1 == size {
      ModIs(size, size, 1, 0);
    } else {
      ModIs(head + 1, size, 0, head + 1);
    }
  }

  // ---- the pump ----------------------------------------------------------

  /** The bindings and the show after handling the events in order at time `t`. */
  function HandledAll(live: Live, show: Cues.State, events: seq<ControlEvent>, t: real): (Live, Cues.State) {
    if events == [] then (live, show)
    else
      var (l, s) := HandledAll(live, show, events[..|events| - 1], t);
      var o := Handled(l, events[|events| - 1]);
      (o.live, Obeyed(s, o.command, t))
  }

  /** Drains at most `maxPerFrame` events, oldest first. */
  method PumpControlEvents(q: Ring, live: LiveControl.Control, t: real, maxPerFrame: int) returns (dispatched: nat)
    requires q.Valid()
    modifies q, live, live.show
    ensures q.Valid() && q.dropped == old(q.dropped)
    ensures dispatched == Least(|old(q.Contents())|, if maxPerFrame < 0 then 0 else maxPerFrame)
    ensures q.Contents() == old(q.Contents())[dispatched..]
    ensures (live.State(), live.show.St())
            == HandledAll(old(live.State()), old(live.show.St()), old(q.Contents())[..dispatched], t)
  {
    dispatched := 0;
    ghost var all := q.Contents();
    while dispatched < maxPerFrame
      invariant q.Valid() && q.dropped == old(q.dropped)
      invariant dispatched <= |all| && (dispatched <= maxPerFrame || dispatched == 0)
      invariant q.Contents() == all[dispatched..]
      invariant (live.State(), live.show.St())
                == HandledAll(old(live.State()), old(live.show.St()), all[..dispatched], t)
    {
      var ev := q.Pop();
      if ev.None? { break; }
      assert all[..dispatched + 1][..dispatched] == all[..dispatched];
      live.HandleEvent(ev.value, t);
      dispatched := dispatched + 1;
    }
  }

  // ---- interleavings -----------------------------------------------------

  /** The atomic steps: a producer's push; the consumer starting a pump, popping and
      handling one event in it, and finishing it. */
  datatype Step = Push(ev: ControlEvent) | Begin(maxPerFrame: int) | PopOne | Finish

  datatype Pump = Pump(maxPerFrame: int, dispatched: nat)

  datatype System = System(
    capacity: nat, queue: seq<ControlEvent>, dropped: nat, pump: Option<Pump>,
    handled: seq<ControlEvent>, handledBefore: nat)

  function Start(capacity: nat): System {
    System(capacity, [], 0, None, [], 0)
  }

  /** A step that is not enabled leaves the system as it is. */
  function Taken(s: System, step: Step): System {
    match step
    case Push(ev) =>
      if |s.queue| >= s.capacity then s.(dropped := s.dropped + 1) else s.(queue := s.queue + [ev])
    case Begin(max) =>
      if s.pump.Some? then s else s.(pump := Some(Pump(max, 0)), handledBefore := |s.handled|)
    case PopOne =>
      if s.pump.None? || s.pump.value.dispatched >= s.pump.value.maxPerFrame || s.queue == [] then s
      else
        s.(queue := s.queue[1..], handled := s.handled + [s.queue[0]],
           pump := Some(s.pump.value.(dispatched := s.pump.value.dispatched + 1)))
    case Finish =>
      s.(pump := None)
  }

  function Run(capacity: nat, steps: seq<Step>): System {
    if steps == [] then Start(capacity) else Taken(Run(capacity, steps[..|steps| - 1]), steps[|steps| - 1])
  }

  /** What the producers were told: whether the push at step `i` was accepted. */
  predicate Accepts(capacity: nat, steps: seq<Step>, i: nat)
    requires i < |steps|
  {
    steps[i].Push? && |Run(capacity, steps[..i]).queue| < capacity
  }

  /** The events of the accepted pushes among the first `n` steps, in order. */
  function Accepted(capacity: nat, steps: seq<Step>, n: nat): seq<ControlEvent>
    requires n <= |steps|
  {
    if n == 0 then []
    else if Accepts(capacity, steps, n - 1) then Accepted(capacity, steps, n - 1) + [steps[n - 1].ev]
    else Accepted(capacity, steps, n - 1)
  }

  /** How many pushes among the first `n` steps were refused. */
  function Refused(capacity: nat, steps: seq<Step>, n: nat): nat
    requires n <= |steps|
  {
    if n == 0 then 0
    else if steps[n - 1].Push? && !Accepts(capacity, steps, n - 1) then Refused(capacity, steps, n - 1) + 1
    else Refused(capacity, steps, n - 1)
  }

  predicate WithinLimit(s: System) {
    s.pump.Some? ==>
      s.pump.value.dispatched <= (if s.pump.value.maxPerFrame < 0 then 0 else s.pump.value.maxPerFrame) &&
      |s.handled| == s.handledBefore + s.pump.value.dispatched
  }

  lemma StepConserves(s: System, step: Step)
    requires |s.queue| <= s.capacity && WithinLimit(s)
    ensures var t := Taken(s, step);
            t.capacity == s.capacity && |t.queue| <= t.capacity && WithinLimit(t) &&
            t.handled + t.queue
            == if step.Push? && |s.queue| < s.capacity then (s.handled + s.queue) + [step.ev] else s.handled + s.queue
  {
    match step
    case Push(ev) =>
      assert s.handled + (s.queue + [ev]) == (s.handled + s.queue) + [ev];
    case PopOne =>
      if s.queue != [] { assert (s.handled + [s.queue[0]]) + s.queue[1..] == s.handled + s.queue; }
    case _ =>
  }

  /** For every interleaving: the events handled so far followed by those queued are
      the accepted pushes in order, the refused pushes are what `dropped` counts,
      the queue keeps to its capacity and no pump handles more than its limit. */
  lemma {:induction false} NothingLost(capacity: nat, steps: seq<Step>, n: nat)
    requires n <= |steps|
    ensures var s := Run(capacity, steps[..n]);
            s.capacity == capacity && |s.queue| <= capacity && WithinLimit(s) &&
            s.handled + s.queue == Accepted(capacity, steps, n) && s.dropped == Refused(capacity, steps, n)
  {
    if n == 0 {
    } else {
      NothingLost(capacity, steps, n - 1);
      assert steps[..n][..n - 1] == steps[..n - 1];
      StepConserves(Run(capacity, steps[..n - 1]), steps[n - 1]);
    }
  }
}
