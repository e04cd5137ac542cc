/** The camera pipeline: frames circulate from the camera's free list through the capture thread, a
    blocking queue and the display thread back to the free list, while the driver holds their buffers. */
module CamPipeline {
  import opened FrameQueues

  // ----- The camera -----

  const MAX_BUFS := 5

  /** What pop comes to: a frame, the buffer the driver returned for it and the number of free frames
      left; NULL, because select failed; or the exception for an empty free list. */
  datatype Capturing = Captured(frame: Frame, buffer: Frame, count: int) | NoCapture | NoFreeFrame

  /** Usb_Camera: its free list, and the driver as a FIFO of the buffers queued with VIDIOC_QBUF.
      Frame i owns buffer i. */
  class UsbCamera {
    var bufCount: nat
    var driver: seq<Frame>
    var freeList: FrameQueue?

    /** The free list never blocks, and the driver holds exactly the buffers of the free frames, in order. */
    ghost predicate Valid()
      reads this, freeList, if freeList == null then {} else {freeList.ptr}
    {
      freeList != null && freeList.Valid() && !freeList.blockOnEmpty && !freeList.blockOnFull &&
      freeList.View().producer.Outside? && freeList.View().consumer.Away? &&
      driver == freeList.View().items
    }

    constructor ()
      ensures driver == [] && freeList == null
    {
      bufCount := 0;
      driver := [];
      freeList := null;
    }

    /** init_mmap: granted is the number of buffers the driver grants, mapped how many of them can be
        mapped. All mapped frames end up free, in order, their buffers with the driver. */
    method InitMmap(granted: nat, mapped: nat)
      requires driver == [] && granted <= MAX_BUFS
      modifies this
      ensures Valid() && fresh(freeList) && fresh(freeList.ptr)
      ensures bufCount == if mapped < granted then mapped else granted
      ensures driver == Frames(bufCount)
      ensures freeList.size == if granted < 1 then 1 else granted
      ensures driver == Start(bufCount, freeList.size).driver && freeList.View() == Start(bufCount, freeList.size).free
    {
      hide Inv, Ring;
      bufCount := granted;
      freeList := new FrameQueue(granted, false, false);
      assert driver == Frames(0);
      var i := 0;
      while i < bufCount
        invariant i <= bufCount && bufCount == granted && i <= mapped
        invariant Valid() && fresh(freeList) && fresh(freeList.ptr)
        invariant driver == Frames(i) && freeList.size == if granted < 1 then 1 else granted
        decreases granted - i
      {
        if i == mapped {
          bufCount := i;
          break;
        }
        var count := Push(i);
        assert Frames(i) + [i] == Frames(i + 1);
        i := i + 1;
      }
    }

    /** push: the buffer goes to the driver, then the frame to the free list; -1 if the list is full. */
    method Push(frame: Frame) returns (count: int)
      requires Valid()
      modifies this`driver, freeList, freeList.ptr
      ensures driver == old(driver) + [frame]
      ensures freeList.Valid() && freeList.View() == PushStep(old(freeList.View()), frame).0
      ensures |old(driver)| < freeList.size ==> Valid() && count == |driver|
      ensures |old(driver)| >= freeList.size ==>
                count == -1 && freeList.Valid() && freeList.View() == old(freeList.View())
    {
      driver := driver + [frame];
      var r := freeList.Push(frame);
      match r {
        case Pushed(c) => count := c;
        case PushRefused => count := -1;
      }
    }

    /** pop: the first free frame, and the buffer the driver returns for it is the frame's own. A select
        that times out does not fail: it returns 0, and the code goes on. */
    method Pop(selected: bool) returns (r: Capturing)
      requires Valid()
      modifies this`driver, freeList
      ensures Valid()
      ensures r.NoCapture? <==> !selected
      ensures freeList.View() == if selected then PopStep(old(freeList.View())).0 else old(freeList.View())
      ensures r.NoFreeFrame? <==> selected && old(driver) == []
      ensures r.Captured? ==>
                r == Captured(old(driver)[0], old(driver)[0], |driver|) && driver == old(driver)[1..]
      ensures !r.Captured? ==> driver == old(driver)
    {
      if !selected { return NoCapture; }
      var popped := freeList.Pop();
      match popped {
        case Popped(f, c) =>
          r := Captured(f, driver[0], c);
          driver := driver[1..];
        case NothingToPop => r := NoFreeFrame;
      }
    }
  }

  // ----- The two threads -----

  /** Where the capture thread stands: about to pop a free frame; holding one whose buffer is still
      with the driver; holding a captured one; inside push on the queue; ended, by the empty-free-list
      exception or by following the NULL of a failed select. */
  datatype Capture = NeedFree | HasFree(f: Frame) | HasImage(f: Frame) | InPush(f: Frame) | Failed

  /** Where the display thread stands: about to pop; inside pop on the queue; holding a frame; holding
      one whose buffer is back with the driver. */
  datatype Display = NeedImage | InPop | Showing(f: Frame) | Requeued(f: Frame)

  datatype Pipe = Pipe(driver: seq<Frame>, free: Queue, q1: Queue, capture: Capture, display: Display)

  /** The frames in the order init_mmap frees them. */
  function Frames(n: nat): (s: seq<Frame>)
    ensures |s| == n
  {
    seq(n, i => i)
  }

  /** The state cam_thread starts the threads in; slots is the size of the free list. */
  function Start(n: nat, slots: nat): Pipe {
    var all := Frames(n);
    Pipe(all, Queue(all, slots, false, false, Outside, Away),
         Queue([], if n < 1 then 1 else n, true, true, Outside, Away), NeedFree, NeedImage)
  }

  /** The critical sections and driver calls of the two threads. */
  datatype Step =
    | CapPop | CapSelectFails | CapDequeue | CapPush | CapResume
    | DispPop | DispResume | DispEnqueue | DispPush

  predicate Can(p: Pipe, s: Step) {
    match s
    case CapPop => p.capture.NeedFree? && p.free.consumer.Away?
    case CapSelectFails => p.capture.NeedFree?
    case CapDequeue => p.capture.HasFree? && p.driver != []
    case CapPush => p.capture.HasImage? && p.q1.producer.Outside?
    case CapResume => p.capture.InPush? && p.q1.producer.WokenFull?
    case DispPop => p.display.NeedImage? && p.q1.consumer.Away?
    case DispResume => p.display.InPop? && p.q1.consumer.WokenEmpty? && p.q1.items != []
    case DispEnqueue => p.display.Showing?
    case DispPush => p.display.Requeued? && p.free.producer.Outside?
  }

  function Do(p: Pipe, s: Step): Pipe
    requires Can(p, s)
  {
    match s
    case CapPop =>
      var (q, r) := PopStep(p.free);
      p.(free := q, capture := match r case Popped(f, _) => HasFree(f) case _ => Failed)
    case CapSelectFails => p.(capture := Failed)
    case CapDequeue => p.(driver := p.driver[1..], capture := HasImage(p.capture.f))
    case CapPush =>
      var (q, r) := PushStep(p.q1, p.capture.f);
      p.(q1 := q, capture := match r case PushWaits => InPush(p.capture.f) case _ => NeedFree)
    case CapResume => p.(q1 := PushWake(p.q1).0, capture := NeedFree)
    case DispPop =>
      var (q, r) := PopStep(p.q1);
      p.(q1 := q, display := match r case Popped(f, _) => Showing(f) case _ => InPop)
    case DispResume =>
      var (q, r) := PopWake(p.q1);
      p.(q1 := q, display := Showing(r.frame))
    case DispEnqueue => p.(driver := p.driver + [p.display.f], display := Requeued(p.display.f))
    case DispPush => p.(free := PushStep(p.free, p.display.f).0, display := NeedImage)
  }

  function CaptureHand(p: Pipe): seq<Frame> {
    match p.capture
    case HasFree(f) => [f]
    case HasImage(f) => [f]
    case InPush(f) => [f]
    case _ => []
  }

  function DisplayHand(p: Pipe): seq<Frame> {
    match p.display
    case Showing(f) => [f]
    case Requeued(f) => [f]
    case _ => []
  }

  /** All frames, starting from the one handled longest ago. */
  function Cycle(p: Pipe): seq<Frame> {
    DisplayHand(p) + p.q1.items + CaptureHand(p) + p.free.items
  }

  ghost predicate IsRotation(s: seq<Frame>, t: seq<Frame>) {
    exists k :: 0 <= k <= |t| && s == t[k..] + t[..k]
  }

  /** The buffers with the driver are those of the frame being dequeued, the free frames, and the
      frame being requeued, in that order. */
  function Buffers(p: Pipe): seq<Frame> {
    (if p.capture.HasFree? then [p.capture.f] else []) + p.free.items +
    (if p.display.Requeued? then [p.display.f] else [])
  }

  ghost predicate PipeInv(p: Pipe, n: nat) {
    && IsRotation(Cycle(p), Frames(n))
    && p.driver == Buffers(p)
    && Inv(p.free) && Inv(p.q1) && n <= p.free.size && n <= p.q1.size
    && !p.free.blockOnEmpty && !p.free.blockOnFull && p.free.producer.Outside? && p.free.consumer.Away?
    && p.q1.blockOnEmpty && p.q1.blockOnFull && p.q1.producer.Outside? && !p.capture.InPush?
    && (p.display.InPop? <==> !p.q1.consumer.Away?)
  }

  lemma RotationSize(s: seq<Frame>, t: seq<Frame>)
    requires IsRotation(s, t)
    ensures |s| == |t| && multiset(s) == multiset(t)
  {
    var k :| 0 <= k <= |t| && s == t[k..] + t[..k];
    assert t == t[..k] + t[k..];
  }

  /** Moving the first element to the end of a rotation gives a rotation. */
  lemma RotateOnce(s: seq<Frame>, t: seq<Frame>)
    requires IsRotation(s, t) && s != []
    ensures IsRotation(s[1..] + [s[0]], t)
  {
    var k :| 0 <= k <= |t| && s == t[k..] + t[..k];
    var j := if k == |t| then 1 else k + 1;
    assert s[1..] + [s[0]] == t[j..] + t[..j];
  }

  lemma StartInv(n: nat, slots: nat)
    requires 1 <= slots && n <= slots
    ensures PipeInv(Start(n, slots), n)
  {
    var p, all := Start(n, slots), Frames(n);
    assert Cycle(p) == all[0..] + all[..0];
    assert Buffers(p) == all;
  }

  lemma CycleSize(p: Pipe, n: nat)
    requires PipeInv(p, n)
    ensures |DisplayHand(p)| + |p.q1.items| + |CaptureHand(p)| + |p.free.items| == n
  {
  }

  /** Popping a list no one waits for. */
  lemma FreeListGives(q: Queue)
    requires Inv(q) && !q.blockOnEmpty && !q.blockOnFull && q.producer.Outside? && q.consumer.Away?
    ensures Inv(PopStep(q).0)
    ensures q.items == [] ==> PopStep(q) == (q, NothingToPop)
    ensures q.items != [] ==> PopStep(q) == (q.(items := q.items[1..]), Popped(q.items[0], |q.items| - 1))
  {
  }

  lemma CapturePopKeepsPipe(p: Pipe, n: nat)
    requires PipeInv(p, n) && Can(p, CapPop)
    ensures PipeInv(Do(p, CapPop), n)
  {
    hide IsRotation, Frames, Inv, PopStep;
    FreeListGives(p.free);
    var t := Do(p, CapPop);
    assert p.free.items == CaptureHand(t) + t.free.items;
    assert Cycle(t) == Cycle(p) && Buffers(t) == Buffers(p);
  }

  lemma CaptureDequeueKeepsPipe(p: Pipe, n: nat)
    requires PipeInv(p, n) && Can(p, CapDequeue)
    ensures PipeInv(Do(p, CapDequeue), n)
  {
    hide IsRotation, Frames, Inv;
    var t := Do(p, CapDequeue);
    assert Cycle(t) == Cycle(p) && Buffers(p)[1..] == Buffers(t);
  }

  lemma CapturePushKeepsPipe(p: Pipe, n: nat)
    requires PipeInv(p, n) && Can(p, CapPush)
    ensures PipeInv(Do(p, CapPush), n)
  {
    hide IsRotation, Frames;
    var t := Do(p, CapPush);
    CycleSize(p, n);
    assert p.q1.items + CaptureHand(p) == t.q1.items;
    assert Cycle(t) == Cycle(p) && Buffers(t) == Buffers(p);
  }

  /** The consumer of a queue whose producer is not waiting takes the first item, or waits. */
  lemma DisplayGets(q: Queue)
    requires Inv(q) && q.blockOnEmpty && q.producer.Outside?
    ensures q.consumer.Away? ==>
              Inv(PopStep(q).0) && PopStep(q) ==
              if q.items != [] then (q.(items := q.items[1..]), Popped(q.items[0], |q.items| - 1))
              else (q.(consumer := WaitEmpty), PopWaits)
    ensures q.consumer.WokenEmpty? && q.items != [] ==>
              Inv(PopWake(q).0) &&
              PopWake(q) == (q.(items := q.items[1..], consumer := Away), Popped(q.items[0], |q.items| - 1))
  {
  }

  lemma DisplayPopKeepsPipe(p: Pipe, n: nat)
    requires PipeInv(p, n) && Can(p, DispPop)
    ensures PipeInv(Do(p, DispPop), n)
  {
    hide IsRotation, Frames, Inv, PopStep;
    DisplayGets(p.q1);
    var t := Do(p, DispPop);
    assert p.q1.items == DisplayHand(t) + t.q1.items;
    assert Cycle(t) == Cycle(p) && Buffers(t) == Buffers(p);
  }

  lemma DisplayResumeKeepsPipe(p: Pipe, n: nat)
    requires PipeInv(p, n) && Can(p, DispResume)
    ensures PipeInv(Do(p, DispResume), n)
  {
    hide IsRotation, Frames, Inv, PopWake;
    DisplayGets(p.q1);
    var t := Do(p, DispResume);
    assert p.q1.items == DisplayHand(t) + t.q1.items;
    assert Cycle(t) == Cycle(p) && Buffers(t) == Buffers(p);
  }

  lemma DisplayEnqueueKeepsPipe(p: Pipe, n: nat)
    requires PipeInv(p, n) && Can(p, DispEnqueue)
    ensures PipeInv(Do(p, DispEnqueue), n)
  {
    hide IsRotation, Frames, Inv;
    var t := Do(p, DispEnqueue);
    assert Buffers(t) == Buffers(p) + [p.display.f];
    assert Cycle(t) == Cycle(p);
  }

  lemma FreeListTakes(q: Queue, f: Frame)
    requires Inv(q) && q.producer.Outside? && q.consumer.Away? && |q.items| < q.size
    ensures PushStep(q, f).0 == q.(items := q.items + [f]) && Inv(PushStep(q, f).0)
  {
  }

  lemma HandToEnd(f: Frame, a: seq<Frame>, b: seq<Frame>, c: seq<Frame>)
    ensures var s := [f] + a + b + c; s[1..] + [s[0]] == a + b + (c + [f])
  {
    var s := [f] + a + b + c;
    assert s[1..] == a + b + c;
  }

  lemma DisplayPushKeepsPipe(p: Pipe, n: nat)
    requires PipeInv(p, n) && Can(p, DispPush)
    ensures PipeInv(Do(p, DispPush), n)
  {
    hide IsRotation, Frames, Inv, PushStep;
    CycleSize(p, n);
    FreeListTakes(p.free, p.display.f);
    HandToEnd(p.display.f, p.q1.items, CaptureHand(p), p.free.items);
    RotateOnce(Cycle(p), Frames(n));
    var t := Do(p, DispPush);
    assert Cycle(t) == [] + p.q1.items + CaptureHand(p) + (p.free.items + [p.display.f]);
    assert [] + p.q1.items == p.q1.items;
  }

  /** Every step of either thread keeps the invariant. */
  lemma StepKeepsPipe(p: Pipe, s: Step, n: nat)
    requires PipeInv(p, n) && Can(p, s)
    ensures PipeInv(Do(p, s), n)
  {
    match s {
      case CapPop => CapturePopKeepsPipe(p, n);
      case CapSelectFails =>
        assert Cycle(Do(p, s)) == Cycle(p);
      case CapDequeue => CaptureDequeueKeepsPipe(p, n);
      case CapPush => CapturePushKeepsPipe(p, n);
      case CapResume =>
      case DispPop => DisplayPopKeepsPipe(p, n);
      case DispResume => DisplayResumeKeepsPipe(p, n);
      case DispEnqueue => DisplayEnqueueKeepsPipe(p, n);
      case DispPush => DisplayPushKeepsPipe(p, n);
    }
  }

  ghost predicate IsPipeRun(p: Pipe, ss: seq<Step>)
    decreases |ss|
  {
    ss == [] || (Can(p, ss[0]) && IsPipeRun(Do(p, ss[0]), ss[1..]))
  }

  ghost function Finish(p: Pipe, ss: seq<Step>): Pipe
    requires IsPipeRun(p, ss)
    decreases |ss|
  {
    if ss == [] then p else Finish(Do(p, ss[0]), ss[1..])
  }

  lemma {:induction false} RunKeepsPipe(p: Pipe, ss: seq<Step>, n: nat)
    requires PipeInv(p, n) && IsPipeRun(p, ss)
    ensures PipeInv(Finish(p, ss), n)
    decreases |ss|
  {
    if ss != [] {
      StepKeepsPipe(p, ss[0], n);
      RunKeepsPipe(Do(p, ss[0]), ss[1..], n);
    }
  }

  /** What holds whenever the mutexes are free: the frames in circulation are a rotation of the
      original order, so none is lost or duplicated; the capture thread does not block on the queue;
      the display thread's push does not return -1; and the buffer the driver hands back is that of
      the frame just popped. */
  ghost predicate Circulating(p: Pipe, n: nat) {
    && IsRotation(Cycle(p), Frames(n)) && multiset(Cycle(p)) == multiset(Frames(n))
    && !p.capture.InPush? && (Can(p, CapPush) ==> PushStep(p.q1, p.capture.f).1.Pushed?)
    && (Can(p, DispPush) ==> PushStep(p.free, p.display.f).1.Pushed?)
    && (p.capture.HasFree? ==> Can(p, CapDequeue) && p.driver[0] == p.capture.f)
  }

  /** The capture thread can go on until it ends; the exception awaits it exactly when the display
      thread and the queue hold all n frames. A display thread that waits is not the cause: all
      frames are then with the capture thread or free. Otherwise it can go on too. */
  ghost predicate Progressing(p: Pipe, n: nat) {
    && (!p.capture.Failed? ==> Can(p, CapPop) || Can(p, CapDequeue) || Can(p, CapPush))
    && (Can(p, CapPop) ==> (Do(p, CapPop).capture.Failed? <==> |DisplayHand(p) + p.q1.items| == n))
    && (p.q1.consumer.WaitEmpty? ==> CaptureHand(p) + p.free.items == Cycle(p))
    && (p.q1.consumer.WaitEmpty? ||
        Can(p, DispPop) || Can(p, DispResume) || Can(p, DispEnqueue) || Can(p, DispPush))
  }

  /** A queue with room takes a frame at once. */
  lemma RoomMeansPushed(q: Queue, f: Frame)
    requires q.producer.Outside? && |q.items| < q.size
    ensures PushStep(q, f).1.Pushed?
  {
  }

  /** A frame in hand leaves room for it. */
  lemma HandsLeaveRoom(p: Pipe, n: nat)
    requires PipeInv(p, n)
    ensures p.capture.HasImage? ==> |p.q1.items| < p.q1.size
    ensures p.display.Requeued? ==> |p.free.items| < p.free.size
  {
    hide IsRotation, Cycle, Frames, Inv;
    CycleSize(p, n);
  }

  lemma FirstBuffer(p: Pipe, n: nat)
    requires PipeInv(p, n) && p.capture.HasFree?
    ensures p.driver != [] && p.driver[0] == p.capture.f
  {
    hide IsRotation, Cycle, Frames, Inv;
  }

  lemma InvCirculates(p: Pipe, n: nat)
    requires PipeInv(p, n)
    ensures Circulating(p, n)
  {
    hide IsRotation, Cycle, Frames, Inv, PushStep, Buffers;
    RotationSize(Cycle(p), Frames(n));
    HandsLeaveRoom(p, n);
    if p.capture.HasFree? { FirstBuffer(p, n); }
    if Can(p, CapPush) { RoomMeansPushed(p.q1, p.capture.f); }
    if Can(p, DispPush) { RoomMeansPushed(p.free, p.display.f); }
  }

  lemma InvProgresses(p: Pipe, n: nat)
    requires PipeInv(p, n)
    ensures Progressing(p, n)
  {
    hide IsRotation, Frames;
    CycleSize(p, n);
    if p.q1.consumer.WaitEmpty? {
      assert DisplayHand(p) == [] && p.q1.items == [];
      assert Cycle(p) == CaptureHand(p) + p.free.items;
    }
  }

  /** Every interleaving of the two threads, from the state cam_thread sets up. */
  lemma FramesCirculate(n: nat, slots: nat, ss: seq<Step>)
    requires 1 <= slots && n <= slots && IsPipeRun(Start(n, slots), ss)
    ensures Circulating(Finish(Start(n, slots), ss), n)
    ensures Progressing(Finish(Start(n, slots), ss), n)
  {
    hide *;
    StartInv(n, slots);
    RunKeepsPipe(Start(n, slots), ss, n);
    InvCirculates(Finish(Start(n, slots), ss), n);
    InvProgresses(Finish(Start(n, slots), ss), n);
  }
}
