/** Frame_Queue: a ring buffer shared by one producer and one consumer, a mutex and two condition
    variables. Each method is one critical section: the part of push or pop between taking the mutex
    and releasing it, either by returning or by waiting on a condition variable. */
module FrameQueues {

  /** The identity of a Usb_Frame. */
  type Frame = nat

  /** The producer inside push: not there; waiting on full_cond with its frame; or signalled and
      about to take the mutex again. */
  datatype Producer = Outside | WaitFull(frame: Frame) | WokenFull(frame: Frame)

  /** The consumer inside pop, likewise with empty_cond. */
  datatype Consumer = Away | WaitEmpty | WokenEmpty

  /** The queue as its callers see it: the frames in order, the most there can be, and the callers. */
  datatype Queue = Queue(items: seq<Frame>, size: nat, blockOnEmpty: bool, blockOnFull: bool,
                         producer: Producer, consumer: Consumer)

  datatype PushResult = Pushed(count: int) | PushRefused | PushWaits

  datatype PopResult = Popped(frame: Frame, count: int) | NothingToPop | PopWaits

  /** A waiter that has not been signalled is right to wait; one that has been finds what it waited for. */
  ghost predicate Inv(q: Queue) {
    && 1 <= q.size && |q.items| <= q.size
    && (q.producer.WaitFull? ==> q.blockOnFull && |q.items| == q.size)
    && (q.producer.WokenFull? ==> q.blockOnFull && |q.items| < q.size)
    && (q.consumer.WaitEmpty? ==> q.blockOnEmpty && q.items == [])
    && (q.consumer.WokenEmpty? ==> q.blockOnEmpty && q.items != [])
  }

  // ----- The bounded FIFO -----

  /** The frame goes to the end; a consumer waiting for one is signalled. */
  function Append(q: Queue, f: Frame): Queue {
    q.(items := q.items + [f], producer := Outside,
       consumer := if q.blockOnEmpty && q.items == [] && q.consumer.WaitEmpty? then WokenEmpty else q.consumer)
  }

  /** The first frame is taken; a producer waiting for room is signalled. */
  function Take(q: Queue): Queue
    requires q.items != []
  {
    q.(items := q.items[1..], consumer := Away,
       producer := if q.blockOnFull && |q.items| == q.size && q.producer.WaitFull?
                   then WokenFull(q.producer.frame) else q.producer)
  }

  /** The first critical section of push. */
  function PushStep(q: Queue, f: Frame): (Queue, PushResult)
    requires q.producer.Outside?
  {
    if |q.items| < q.size then (Append(q, f), Pushed(|q.items| + 1))
    else if q.blockOnFull then (q.(producer := WaitFull(f)), PushWaits)
    else (q, PushRefused)
  }

  /** The second, after the signal. */
  function PushWake(q: Queue): (Queue, PushResult)
    requires q.producer.WokenFull?
  {
    (Append(q, q.producer.frame), Pushed(|q.items| + 1))
  }

  /** The first critical section of pop. */
  function PopStep(q: Queue): (Queue, PopResult)
    requires q.consumer.Away?
  {
    if q.items != [] then (Take(q), Popped(q.items[0], |q.items| - 1))
    else if q.blockOnEmpty then (q.(consumer := WaitEmpty), PopWaits)
    else (q, NothingToPop)
  }

  /** The second, after the signal. */
  function PopWake(q: Queue): (Queue, PopResult)
    requires q.consumer.WokenEmpty? && q.items != []
  {
    (Take(q), Popped(q.items[0], |q.items| - 1))
  }

  lemma TakeKeepsInv(q: Queue)
    requires Inv(q) && q.items != []
    ensures Inv(Take(q))
  {
  }

  // ----- The ring -----

  const MAX_QUEUE_SIZE := 32

  /** Slot index after i in a ring of size + 1 slots. */
  function Next(i: nat, size: nat): nat {
    if i + 1 == size + 1 then 0 else i + 1
  }

  /** The live slots, from head up to but not including tail, around the ring. */
  ghost function Ring(ptr: seq<Frame>, head: nat, tail: nat, size: nat): seq<Frame>
    requires head <= size && tail <= size && size + 1 <= |ptr|
  {
    if head <= tail then ptr[head..tail] else ptr[head..size + 1] + ptr[..tail]
  }

  /** The slot at tail is never live: writing it changes nothing. */
  lemma TailSlotIsFree(ptr: seq<Frame>, head: nat, tail: nat, size: nat, f: Frame)
    requires head <= size && tail <= size && size + 1 <= |ptr|
    ensures Ring(ptr[tail := f], head, tail, size) == Ring(ptr, head, tail, size)
  {
  }

  /** Advancing tail over a slot that holds f appends f, unless the ring is full. */
  lemma RingAppend(ptr: seq<Frame>, head: nat, tail: nat, size: nat)
    requires head <= size && tail <= size && size + 1 <= |ptr| && head != Next(tail, size)
    ensures Ring(ptr, head, Next(tail, size), size) == Ring(ptr, head, tail, size) + [ptr[tail]]
  {
  }

  lemma RingTake(ptr: seq<Frame>, head: nat, tail: nat, size: nat)
    requires head <= size && tail <= size && size + 1 <= |ptr| && head != tail
    ensures Ring(ptr, head, tail, size) == [ptr[head]] + Ring(ptr, Next(head, size), tail, size)
  {
  }

  lemma RingLength(ptr: seq<Frame>, head: nat, tail: nat, size: nat)
    requires head <= size && tail <= size && size + 1 <= |ptr|
    ensures |Ring(ptr, head, tail, size)| == if tail - head < 0 then tail - head + size + 1 else tail - head
    ensures head == Next(tail, size) <==> |Ring(ptr, head, tail, size)| == size
    ensures head == tail <==> Ring(ptr, head, tail, size) == []
  {
  }

  /** Why the waits, which test with `if` and not `while`, rely on signals alone: a producer that
      woke up on a full queue without one would advance tail onto head, and every frame in the queue
      would be gone. */
  lemma WakingOnFullEmptiesTheRing(ptr: seq<Frame>, head: nat, tail: nat, size: nat)
    requires head <= size && tail <= size && size + 1 <= |ptr|
    ensures |Ring(ptr, head, tail, size)| == size <==> Ring(ptr, head, Next(tail, size), size) == []
  {
  }

  /** Likewise a consumer that woke up on an empty queue without a signal would advance head past tail:
      the queue would seem full. */
  lemma WakingOnEmptyFillsTheRing(ptr: seq<Frame>, head: nat, tail: nat, size: nat)
    requires head <= size && tail <= size && size + 1 <= |ptr|
    ensures Ring(ptr, head, tail, size) == [] <==> |Ring(ptr, Next(head, size), tail, size)| == size
  {
  }

  class FrameQueue {
    const blockOnEmpty: bool
    const blockOnFull: bool
    const size: nat
    const ptr: array<Frame>
    var head: nat
    var tail: nat
    /** Who is inside push and pop: the threads the two condition variables hold. */
    var producer: Producer
    var consumer: Consumer

    ghost predicate Shape()
      reads this
    {
      1 <= size <= MAX_QUEUE_SIZE && ptr.Length == MAX_QUEUE_SIZE + 1 && head <= size && tail <= size
    }

    ghost function View(): Queue
      requires Shape()
      reads this, ptr
    {
      Queue(Ring(ptr[..], head, tail, size), size, blockOnEmpty, blockOnFull, producer, consumer)
    }

    /** The invariant, and: a producer inside push has already stored its frame in the slot at tail. */
    ghost predicate Valid()
      reads this, ptr
    {
      Shape() && Inv(View()) && (!producer.Outside? ==> ptr[tail] == producer.frame)
    }

    constructor (maxSize: int, doBlockOnEmpty: bool, doBlockOnFull: bool)
      ensures Valid() && fresh(ptr)
      ensures size == if maxSize < 1 then 1 else if maxSize >= MAX_QUEUE_SIZE then MAX_QUEUE_SIZE else maxSize
      ensures View() == Queue([], size, doBlockOnEmpty, doBlockOnFull, Outside, Away)
    {
      blockOnEmpty := doBlockOnEmpty;
      blockOnFull := doBlockOnFull;
      size := if maxSize < 1 then 1 else if maxSize >= MAX_QUEUE_SIZE then MAX_QUEUE_SIZE else maxSize;
      ptr := new Frame[MAX_QUEUE_SIZE + 1];
      head := 0;
      tail := 0;
      producer := Outside;
      consumer := Away;
    }

    /** get_item_count */
    method GetItemCount() returns (count: int)
      requires Shape()
      ensures count == |View().items|
    {
      RingLength(ptr[..], head, tail, size);
      count := tail - head;
      if count < 0 { count := count + size + 1; }
    }

    /** The end of push: signal, advance tail, count. */
    method FinishPush(newTail: nat) returns (count: int)
      requires Shape() && newTail == Next(tail, size) && |View().items| < size
      modifies this
      ensures Shape() && View() == Append(old(View()), old(ptr[tail])) && count == |old(View()).items| + 1
    {
      RingLength(ptr[..], head, tail, size);
      RingAppend(ptr[..], head, tail, size);
      if blockOnEmpty && head == tail {
        if consumer.WaitEmpty? { consumer := WokenEmpty; }
      }
      producer := Outside;
      tail := newTail;
      count := GetItemCount();
    }

    /** push, up to returning or waiting on full_cond. */
    method Push(frame: Frame) returns (r: PushResult)
      requires Valid() && producer.Outside?
      modifies this, ptr
      ensures Valid() && (View(), r) == PushStep(old(View()), frame)
    {
      RingLength(ptr[..], head, tail, size);
      TailSlotIsFree(ptr[..], head, tail, size, frame);
      ghost var before := View();
      ptr[tail] := frame;
      assert View() == before;
      var newTail := tail + 1;
      if newTail == size + 1 { newTail := 0; }
      if head == newTail {
        if blockOnFull {
          producer := WaitFull(frame);
          return PushWaits;
        } else {
          return PushRefused;
        }
      }
      var count := FinishPush(newTail);
      r := Pushed(count);
    }

    /** push, once signalled and holding the mutex again. */
    method ResumePush() returns (r: PushResult)
      requires Valid() && producer.WokenFull?
      modifies this
      ensures Valid() && (View(), r) == PushWake(old(View()))
    {
      var newTail := tail + 1;
      if newTail == size + 1 { newTail := 0; }
      var count := FinishPush(newTail);
      r := Pushed(count);
    }

    /** The end of pop: count, signal, advance head. */
    method FinishPop() returns (frame: Frame, count: int)
      requires Valid() && View().items != []
      modifies this
      ensures Valid() && View() == Take(old(View()))
      ensures frame == old(View()).items[0] && count == |old(View()).items| - 1
    {
      hide Inv, Ring;
      ghost var before := View();
      RingLength(ptr[..], head, tail, size);
      RingTake(ptr[..], head, tail, size);
      TakeKeepsInv(before);
      count := GetItemCount();
      if blockOnFull && count == size {
        if producer.WaitFull? { producer := WokenFull(producer.frame); }
      }
      consumer := Away;
      frame := ptr[head];
      head := head + 1;
      if head == size + 1 { head := 0; }
      assert View() == Take(before);
      count := count - 1;
    }

    /** pop, up to returning or waiting on empty_cond. */
    method Pop() returns (r: PopResult)
      requires Valid() && consumer.Away?
      modifies this
      ensures Valid() && (View(), r) == PopStep(old(View()))
    {
      RingLength(ptr[..], head, tail, size);
      if head == tail {
        if blockOnEmpty {
          consumer := WaitEmpty;
          return PopWaits;
        } else {
          return NothingToPop;
        }
      }
      var frame, count := FinishPop();
      r := Popped(frame, count);
    }

    /** pop, once signalled and holding the mutex again. */
    method ResumePop() returns (r: PopResult)
      requires Valid() && consumer.WokenEmpty?
      modifies this
      ensures Valid() && (View(), r) == PopWake(old(View()))
    {
      var frame, count := FinishPop();
      r := Popped(frame, count);
    }
  }

  // ----- Every interleaving -----

  datatype Event = DoPush(frame: Frame) | DoResumePush | DoPop | DoResumePop

  predicate Enabled(q: Queue, e: Event) {
    match e
    case DoPush(_) => q.producer.Outside?
    case DoResumePush => q.producer.WokenFull?
    case DoPop => q.consumer.Away?
    case DoResumePop => q.consumer.WokenEmpty? && q.items != []
  }

  function After(q: Queue, e: Event): Queue
    requires Enabled(q, e)
  {
    match e
    case DoPush(f) => PushStep(q, f).0
    case DoResumePush => PushWake(q).0
    case DoPop => PopStep(q).0
    case DoResumePop => PopWake(q).0
  }

  /** The frame an event puts into the queue, if it does. */
  function Put(q: Queue, e: Event): seq<Frame>
    requires Enabled(q, e)
  {
    match e
    case DoPush(f) => if PushStep(q, f).1.Pushed? then [f] else []
    case DoResumePush => [q.producer.frame]
    case _ => []
  }

  /** The frame an event hands to the consumer, if it does. */
  function Got(q: Queue, e: Event): seq<Frame>
    requires Enabled(q, e)
  {
    match e
    case DoPop => if PopStep(q).1.Popped? then [PopStep(q).1.frame] else []
    case DoResumePop => [PopWake(q).1.frame]
    case _ => []
  }

  ghost predicate IsRun(q: Queue, es: seq<Event>)
    decreases |es|
  {
    es == [] || (Enabled(q, es[0]) && IsRun(After(q, es[0]), es[1..]))
  }

  ghost function Final(q: Queue, es: seq<Event>): Queue
    requires IsRun(q, es)
    decreases |es|
  {
    if es == [] then q else Final(After(q, es[0]), es[1..])
  }

  ghost function AllPut(q: Queue, es: seq<Event>): seq<Frame>
    requires IsRun(q, es)
    decreases |es|
  {
    if es == [] then [] else Put(q, es[0]) + AllPut(After(q, es[0]), es[1..])
  }

  ghost function AllGot(q: Queue, es: seq<Event>): seq<Frame>
    requires IsRun(q, es)
    decreases |es|
  {
    if es == [] then [] else Got(q, es[0]) + AllGot(After(q, es[0]), es[1..])
  }

  lemma StepKeepsInv(q: Queue, e: Event)
    requires Inv(q) && Enabled(q, e)
    ensures Inv(After(q, e))
    ensures q.items + Put(q, e) == Got(q, e) + After(q, e).items
  {
  }

  lemma Regroup(a: seq<Frame>, b: seq<Frame>, c: seq<Frame>, d: seq<Frame>, e: seq<Frame>, f: seq<Frame>, g: seq<Frame>)
    requires a + b == d + e && e + c == f + g
    ensures a + (b + c) == (d + f) + g
  {
    assert a + (b + c) == (a + b) + c;
    assert (d + e) + c == d + (e + c);
    assert d + (f + g) == (d + f) + g;
  }

  /** In every interleaving frames come out in the order they were put in, none lost or repeated,
      and a waiter is signalled exactly when what it waits for is there. */
  lemma {:induction false} RunIsFifo(q: Queue, es: seq<Event>)
    requires Inv(q) && IsRun(q, es)
    ensures Inv(Final(q, es))
    ensures q.items + AllPut(q, es) == AllGot(q, es) + Final(q, es).items
    decreases |es|
  {
    if es != [] {
      var next := After(q, es[0]);
      StepKeepsInv(q, es[0]);
      hide Inv, After, Put, Got, Enabled;
      RunIsFifo(next, es[1..]);
      assert AllPut(q, es) == Put(q, es[0]) + AllPut(next, es[1..]);
      assert AllGot(q, es) == Got(q, es[0]) + AllGot(next, es[1..]);
      Regroup(q.items, Put(q, es[0]), AllPut(next, es[1..]), Got(q, es[0]), next.items,
              AllGot(next, es[1..]), Final(q, es).items);
    }
  }

  // ----- What was handed over -----

  /** The frame of a push that has not been put into the queue yet. */
  ghost function InHand(q: Queue): seq<Frame> {
    match q.producer
    case Outside => []
    case WaitFull(f) => [f]
    case WokenFull(f) => [f]
  }

  /** The arguments of the pushes that were not refused, in order. */
  ghost function Given(q: Queue, es: seq<Event>): seq<Frame>
    requires IsRun(q, es)
    decreases |es|
  {
    if es == [] then []
    else Brought(q, es[0]) + Given(After(q, es[0]), es[1..])
  }

  /** The arguments of all pushes. */
  ghost function Arguments(es: seq<Event>): seq<Frame> {
    if es == [] then [] else (if es[0].DoPush? then [es[0].frame] else []) + Arguments(es[1..])
  }

  /** The frame an event brings in, unless it is refused. */
  function Brought(q: Queue, e: Event): seq<Frame>
    requires Enabled(q, e)
  {
    if e.DoPush? && !PushStep(q, e.frame).1.PushRefused? then [e.frame] else []
  }

  lemma StepHandsOver(q: Queue, e: Event)
    requires Enabled(q, e)
    ensures q.items + InHand(q) + Brought(q, e) == Got(q, e) + (After(q, e).items + InHand(After(q, e)))
  {
    var t := After(q, e);
    match e {
      case DoPush(f) =>
        assert Got(q, e) == [] && q.items + Brought(q, e) == t.items + InHand(t);
      case DoResumePush =>
        assert Got(q, e) == [] && t.items == q.items + InHand(q);
      case DoPop =>
        assert InHand(t) == InHand(q) && Got(q, e) + t.items == q.items;
      case DoResumePop =>
        assert InHand(t) == InHand(q) && Got(q, e) + t.items == q.items;
    }
  }

  /** In every interleaving the frames that push was called with come out in that order: nothing is lost,
      repeated or replaced, and what has not come out is in the queue or with a producer that waits. */
  lemma {:induction false} RunHandsOver(q: Queue, es: seq<Event>)
    requires IsRun(q, es)
    ensures q.items + InHand(q) + Given(q, es) == AllGot(q, es) + (Final(q, es).items + InHand(Final(q, es)))
    decreases |es|
  {
    hide After, Got, Enabled, PushStep, InHand, Brought;
    if es != [] {
      var next := After(q, es[0]);
      StepHandsOver(q, es[0]);
      RunHandsOver(next, es[1..]);
      assert Given(q, es) == Brought(q, es[0]) + Given(next, es[1..]);
      assert AllGot(q, es) == Got(q, es[0]) + AllGot(next, es[1..]);
      Regroup(q.items + InHand(q), Brought(q, es[0]), Given(next, es[1..]), Got(q, es[0]),
              next.items + InHand(next), AllGot(next, es[1..]), Final(q, es).items + InHand(Final(q, es)));
    } else {
      Nothing(q.items + InHand(q));
    }
  }

  lemma Nothing(s: seq<Frame>)
    ensures s + [] == [] + s
  {
  }

  /** A queue that blocks on full refuses nothing. */
  lemma {:induction false} BlockingTakesAll(q: Queue, es: seq<Event>)
    requires q.blockOnFull && IsRun(q, es)
    ensures Given(q, es) == Arguments(es)
    decreases |es|
  {
    if es != [] { BlockingTakesAll(After(q, es[0]), es[1..]); }
  }

  /** What push answers: the number of frames now in the queue, if there was room; otherwise it waits with
      its frame or refuses it, as the flag says, and the frames stay as they are. */
  lemma PushAnswers(q: Queue, f: Frame)
    requires q.producer.Outside?
    ensures var (t, r) := PushStep(q, f);
            && (|q.items| < q.size <==> r.Pushed?) && (r.PushWaits? <==> |q.items| >= q.size && q.blockOnFull)
            && (r.Pushed? ==> r.count == |t.items| && t.items == q.items + [f] && t.producer == Outside)
            && (r.PushWaits? ==> t.items == q.items && t.producer == WaitFull(f) && t.consumer == q.consumer)
            && (r.PushRefused? ==> t == q)
  {
  }

  lemma ResumedPushAnswers(q: Queue)
    requires q.producer.WokenFull?
    ensures var (t, r) := PushWake(q); r == Pushed(|t.items|) && t.items == q.items + [q.producer.frame]
  {
  }

  /** What pop answers: the frame that was first and the number of frames left; otherwise it waits or
      finds nothing, as the flag says. */
  lemma PopAnswers(q: Queue)
    requires q.consumer.Away?
    ensures var (t, r) := PopStep(q);
            && (q.items != [] <==> r.Popped?) && (r.PopWaits? <==> q.items == [] && q.blockOnEmpty)
            && (r.Popped? ==> q.items == [r.frame] + t.items && r.count == |t.items| && t.consumer == Away)
            && (r.PopWaits? ==> t == q.(consumer := WaitEmpty))
            && (r.NothingToPop? ==> t == q)
  {
  }

  lemma ResumedPopAnswers(q: Queue)
    requires q.consumer.WokenEmpty? && q.items != []
    ensures var (t, r) := PopWake(q);
            r.Popped? && q.items == [r.frame] + t.items && r.count == |t.items| && t.consumer == Away
  {
  }

  /** Producer and consumer are never both stuck, and when one is, the other's next completed
      operation signals it: from any state some thread can go on, and no signal is lost. */
  lemma NeverBothStuck(q: Queue, es: seq<Event>)
    requires Inv(q) && IsRun(q, es)
    ensures var r := Final(q, es);
            && !(r.producer.WaitFull? && r.consumer.WaitEmpty?)
            && (r.producer.WaitFull? ==> Enabled(r, DoPop) || Enabled(r, DoResumePop))
            && (r.consumer.WaitEmpty? ==> Enabled(r, DoResumePush) || Enabled(r, DoPush(0)))
            && (forall e :: r.producer.WaitFull? && Enabled(r, e) && Got(r, e) != [] ==>
                  After(r, e).producer.WokenFull?)
            && (forall e :: r.consumer.WaitEmpty? && Enabled(r, e) && Put(r, e) != [] ==>
                  After(r, e).consumer.WokenEmpty?)
  {
    RunIsFifo(q, es);
  }
}
