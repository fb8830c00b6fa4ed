/** The object-bound dispatcher: any number of worker threads submit jobs to any
    number of objects, and a counter per object elects the one thread that runs
    them. A state is stepped by one access to shared memory of one thread at a
    time; each object carries the real queue of module JobQueue. */
module Dispatcher {
  import opened Option
  import JQ = JobQueue

  type Obj = nat
  type Tid = nat

  /** Where a thread is inside DoTask. `first` remembers that fetch_add returned 0. */
  datatype TaskPc =
    | Announce
    | PushExchange(first: bool)
    | PushLink(first: bool)
    | TakeRef
    | Claim
    | Drain
    | Unref(d: Obj)
    | Release

  /** Where a thread is inside Flush. */
  datatype FlushPc = Popping | Exec(job: nat) | Deleting(job: nat) | Count

  /** The activations on a thread's stack that belong to the dispatcher.
      TimerDone is the rest of a timer dispatch: the ReleaseRefForThis after DoTask. */
  datatype Frame =
    | Task(obj: Obj, pc: TaskPc)
    | Flush(obj: Obj, fpc: FlushPc)
    | TimerDone(obj: Obj)

  /** The stack, innermost activation last, and the thread's LExecuterList,
      LCurrentExecuterOccupyingThisThread and the owners in its timer queue. */
  datatype Thread = Thread(stack: seq<Frame>, executers: seq<Obj>, current: Option<Obj>, timers: seq<Obj>)

  /** mRemainTaskCount, mRefCount, mJobQueue and the jobs executed so far. */
  datatype Object = Object(count: int, ref: int, queue: JQ.Queue, done: seq<nat>)

  /** `holders` are the references held outside the dispatcher and the timers:
      a live I/O context, or the one taken when a session is issued. */
  datatype State = State(objects: seq<Object>, threads: seq<Thread>, holders: map<nat, Obj>)

  datatype Step =
    | Call(t: Tid, o: Obj)         // DoTask(task) from outside or from a running job
    | SetTimer(t: Tid, o: Obj)     // PushTimerJob
    | Fire(t: Tid, i: nat)         // DoTimerJob dispatches the i-th timer entry
    | Run(t: Tid, addr: nat)       // the innermost activation makes its next access
    | Hold(c: nat, o: Obj)         // AddRef by a new context or by issuing a session
    | Drop(c: nat)                 // ReleaseRef by its holder

  function Top(th: Thread): Option<Frame> {
    if th.stack == [] then None else Some(th.stack[|th.stack|-1])
  }

  predicate MayCall(th: Thread) {
    match Top(th)
    case None => true
    case Some(Flush(_, Exec(_))) => true
    case _ => false
  }

  /** The allocator gives a new job entry an address no live entry has. */
  predicate FreshAddr(s: State, addr: nat) {
    forall o :: 0 <= o < |s.objects| ==> JQ.Entry(addr) !in s.objects[o].queue.next
  }

  predicate Enabled(s: State, step: Step) {
    match step
    case Call(t, o) => t < |s.threads| && o < |s.objects| && MayCall(s.threads[t])
    case SetTimer(t, o) => t < |s.threads| && o < |s.objects| && MayCall(s.threads[t])
    case Fire(t, i) => t < |s.threads| && s.threads[t].stack == [] && i < |s.threads[t].timers|
    case Run(t, addr) => t < |s.threads| && s.threads[t].stack != [] && FreshAddr(s, addr)
    case Hold(c, o) => c !in s.holders && o < |s.objects|
    case Drop(c) => c in s.holders
  }

  /** A queue access; one the queue does not allow at this point raises its fault flag. */
  function QueueStep(q: JQ.Queue, step: JQ.Step): JQ.Queue {
    if JQ.Enabled(q, step) then JQ.Apply(q, step) else q.(fault := true)
  }

  function ReplaceTop(th: Thread, f: Frame): Thread
    requires th.stack != []
  {
    th.(stack := th.stack[..|th.stack|-1] + [f])
  }

  function Return(th: Thread): Thread
    requires th.stack != []
  {
    th.(stack := th.stack[..|th.stack|-1])
  }

  function Enter(th: Thread, f: Frame): Thread {
    th.(stack := th.stack + [f])
  }

  /** What one access leaves: the thread, and the one object it touched. */
  datatype Effect = Effect(thread: Thread, obj: Obj, object: Object)

  /** The next object whose memory the innermost activation accesses. */
  function Target(th: Thread): Obj
    requires th.stack != []
  {
    match th.stack[|th.stack|-1]
    case Task(o, Drain) => if th.executers == [] then o else th.executers[0]
    case Task(_, Unref(d)) => d
    case f => f.obj
  }

  function TaskStep(th: Thread, t: Tid, o: Obj, pc: TaskPc, ob: Object, addr: nat): (Thread, Object)
    requires th.stack != []
  {
    match pc
    case Announce =>
      (ReplaceTop(th, Task(o, PushExchange(ob.count == 0))), ob.(count := ob.count + 1))
    case PushExchange(first) =>
      (ReplaceTop(th, Task(o, PushLink(first))), ob.(queue := QueueStep(ob.queue, JQ.Exchange(t, addr))))
    case PushLink(first) =>
      (if first then ReplaceTop(th, Task(o, TakeRef)) else Return(th),
       ob.(queue := QueueStep(ob.queue, JQ.Finish(t))))
    case TakeRef =>
      (ReplaceTop(th, Task(o, Claim)), ob.(ref := ob.ref + 1))
    case Claim =>
      if th.current.Some? then (Return(th).(executers := th.executers + [o]), ob)
      else
        (Enter(ReplaceTop(th, Task(o, Drain)).(current := Some(o)), Flush(o, Popping)),
         ob.(queue := QueueStep(ob.queue, JQ.Begin(t))))
    case Drain =>
      if th.executers == [] then (ReplaceTop(th, Task(o, Release)).(current := None), ob)
      else
        var d := th.executers[0];
        (Enter(ReplaceTop(th, Task(o, Unref(d))).(executers := th.executers[1..]), Flush(d, Popping)),
         ob.(queue := QueueStep(ob.queue, JQ.Begin(t))))
    case Unref(_) => (ReplaceTop(th, Task(o, Drain)), ob.(ref := ob.ref - 1))
    case Release => (Return(th), ob.(ref := ob.ref - 1))
  }

  function FlushStep(th: Thread, t: Tid, o: Obj, pc: FlushPc, ob: Object): (Thread, Object)
    requires th.stack != []
  {
    match pc
    case Popping =>
      var q' := QueueStep(ob.queue, JQ.Pop(t));
      (if t !in q'.pops && |q'.popped| > 0 then ReplaceTop(th, Flush(o, Exec(q'.popped[|q'.popped|-1]))) else th,
       ob.(queue := q'))
    case Exec(job) => (ReplaceTop(th, Flush(o, Deleting(job))), ob.(done := ob.done + [job]))
    case Deleting(job) =>
      (ReplaceTop(th, Flush(o, Count)), ob.(queue := QueueStep(ob.queue, JQ.Delete(job))))
    case Count =>
      if ob.count == 1 then (Return(th), ob.(count := ob.count - 1))
      else
        (ReplaceTop(th, Flush(o, Popping)),
         ob.(count := ob.count - 1, queue := QueueStep(ob.queue, JQ.Begin(t))))
  }

  /** The next access of the innermost activation, given the object it targets. */
  function RunTop(th: Thread, t: Tid, ob: Object, addr: nat): (Thread, Object)
    requires th.stack != []
  {
    match th.stack[|th.stack|-1]
    case Task(o, pc) => TaskStep(th, t, o, pc, ob, addr)
    case Flush(o, pc) => FlushStep(th, t, o, pc, ob)
    case TimerDone(o) => (Return(th), ob.(ref := ob.ref - 1))
  }

  function Update(s: State, t: Tid, th: Thread, o: Obj, ob: Object): State
    requires t < |s.threads| && o < |s.objects|
  {
    s.(threads := s.threads[t := th], objects := s.objects[o := ob])
  }

  function Remove(timers: seq<Obj>, i: nat): seq<Obj>
    requires i < |timers|
  {
    timers[..i] + timers[i+1..]
  }

  function AddRef(ob: Object, n: int): Object {
    ob.(ref := ob.ref + n)
  }

  predicate Targets(s: State, step: Step)
    requires Enabled(s, step)
  {
    match step
    case Fire(t, i) => s.threads[t].timers[i] < |s.objects|
    case Run(t, _) => Target(s.threads[t]) < |s.objects|
    case Drop(c) => s.holders[c] < |s.objects|
    case _ => true
  }

  function Apply(s: State, step: Step): State
    requires Enabled(s, step) && Targets(s, step)
  {
    match step
    case Call(t, o) => Update(s, t, Enter(s.threads[t], Task(o, Announce)), o, s.objects[o])
    case SetTimer(t, o) =>
      var th := s.threads[t];
      Update(s, t, th.(timers := th.timers + [o]), o, AddRef(s.objects[o], 1))
    case Fire(t, i) =>
      var th := s.threads[t];
      var o := th.timers[i];
      var th' := Enter(Enter(th, TimerDone(o)), Task(o, Announce)).(timers := Remove(th.timers, i));
      Update(s, t, th', o, s.objects[o])
    case Run(t, addr) =>
      var o := Target(s.threads[t]);
      var (th', ob') := RunTop(s.threads[t], t, s.objects[o], addr);
      Update(s, t, th', o, ob')
    case Hold(c, o) =>
      s.(holders := s.holders[c := o], objects := s.objects[o := AddRef(s.objects[o], 1)])
    case Drop(c) =>
      var o := s.holders[c];
      s.(holders := s.holders - {c}, objects := s.objects[o := AddRef(s.objects[o], -1)])
  }

  // ---- Counting activations ----

  /** What is counted, per object, over all threads: jobs announced and not yet
      exchanged in, jobs between Pop and fetch_sub, activations of Flush, claims
      on the object that have not reached Flush yet, and references. */
  datatype Kind = Announced | Running | Flushing | Waiting | Ref

  function B(b: bool): nat { if b then 1 else 0 }

  function FrameWeight(k: Kind, f: Frame, o: Obj): nat {
    match (k, f)
    case (Announced, Task(x, pc)) => B(x == o && pc.PushExchange?)
    case (Running, Flush(x, pc)) => B(x == o && !pc.Popping?)
    case (Flushing, Flush(x, _)) => B(x == o)
    case (Waiting, Task(x, pc)) =>
      B(x == o && (pc.TakeRef? || pc.Claim? || (pc.PushExchange? && pc.first) || (pc.PushLink? && pc.first)))
    case (Ref, Task(x, pc)) =>
      B(x == o && (pc.Claim? || pc.Drain? || pc.Unref? || pc.Release?)) + B(pc == Unref(o))
    case (Ref, TimerDone(x)) => B(x == o)
    case _ => 0
  }

  function StackWeight(k: Kind, fs: seq<Frame>, o: Obj): nat {
    if fs == [] then 0 else StackWeight(k, fs[..|fs|-1], o) + FrameWeight(k, fs[|fs|-1], o)
  }

  function Occurs(xs: seq<Obj>, o: Obj): nat {
    multiset(xs)[o]
  }

  function ThreadWeight(k: Kind, th: Thread, o: Obj): nat {
    StackWeight(k, th.stack, o)
    + (if k.Waiting? || k.Ref? then Occurs(th.executers, o) else 0)
    + (if k.Ref? then Occurs(th.timers, o) else 0)
  }

  function Sum(k: Kind, ths: seq<Thread>, o: Obj): nat {
    if ths == [] then 0 else Sum(k, ths[..|ths|-1], o) + ThreadWeight(k, ths[|ths|-1], o)
  }

  lemma {:induction false} SumUpdate(k: Kind, ths: seq<Thread>, t: nat, th: Thread, o: Obj)
    requires t < |ths|
    ensures Sum(k, ths[t := th], o) == Sum(k, ths, o) - ThreadWeight(k, ths[t], o) + ThreadWeight(k, th, o)
    ensures Sum(k, ths, o) >= ThreadWeight(k, ths[t], o)
  {
    var n := |ths| - 1;
    if t == n {
      assert ths[t := th][..n] == ths[..n];
    } else {
      SumUpdate(k, ths[..n], t, th, o);
      assert ths[t := th][..n] == ths[..n][t := th];
    }
  }

  /** Two different threads cannot both have weight if the sum is at most one. */
  lemma {:induction false} SumOfTwo(k: Kind, ths: seq<Thread>, t: nat, u: nat, o: Obj)
    requires t < |ths| && u < |ths| && t != u
    ensures Sum(k, ths, o) >= ThreadWeight(k, ths[t], o) + ThreadWeight(k, ths[u], o)
  {
    var blank := Thread([], [], None, []);
    SumUpdate(k, ths, t, blank, o);
    SumUpdate(k, ths[t := blank], u, blank, o);
  }

  lemma {:induction false} StackWeightAt(k: Kind, fs: seq<Frame>, i: nat, o: Obj)
    requires i < |fs|
    ensures StackWeight(k, fs, o) >= FrameWeight(k, fs[i], o)
  {
    if i < |fs| - 1 { StackWeightAt(k, fs[..|fs|-1], i, o); }
  }

  lemma StackWeightAppend(k: Kind, fs: seq<Frame>, f: Frame, o: Obj)
    ensures StackWeight(k, fs + [f], o) == StackWeight(k, fs, o) + FrameWeight(k, f, o)
  {
    assert (fs + [f])[..|fs|] == fs;
  }

  // ---- The invariant ----

  ghost predicate Early(pc: TaskPc) {
    pc.Announce? || pc.PushExchange? || pc.PushLink? || pc.TakeRef? || pc.Claim?
  }

  ghost predicate Draining(pc: TaskPc) {
    pc.Drain? || pc.Unref?
  }

  /** The only stacks a worker can have, apart from a timer dispatch at the
      bottom: at most one activation of Flush, and at most one nested DoTask. */
  ghost predicate StackOk(th: Thread) {
    var fs := th.stack;
    var b := if fs != [] && fs[0].TimerDone? then 1 else 0;
    var busy := th.current.Some?;
    && (th.executers != [] ==> busy)
    && (match |fs| - b
        case 0 => !busy
        case 1 => fs[b].Task? && (busy <==> Draining(fs[b].pc))
        case 2 => busy && fs[b].Task? && Draining(fs[b].pc) && fs[b+1].Flush?
        case 3 =>
          && busy && fs[b].Task? && Draining(fs[b].pc)
          && fs[b+1].Flush? && fs[b+1].fpc.Exec?
          && fs[b+2].Task? && Early(fs[b+2].pc)
        case _ => false)
  }

  ghost predicate ObjectsExist(th: Thread, n: nat) {
    && (forall i :: 0 <= i < |th.stack| ==>
          th.stack[i].obj < n && (th.stack[i].Task? && th.stack[i].pc.Unref? ==> th.stack[i].pc.d < n))
    && (forall o :: o in th.executers ==> o < n)
    && (forall o :: o in th.timers ==> o < n)
  }

  /** mRemainTaskCount counts the jobs announced, queued or being run; it is
      positive exactly when the object has one owner: an activation of Flush or
      a claim on its way to one. */
  ghost predicate CountOk(ob: Object, ths: seq<Thread>, o: Obj) {
    && ob.count == Sum(Announced, ths, o) + |ob.queue.pushed| - |ob.queue.popped| + Sum(Running, ths, o)
    && Sum(Flushing, ths, o) + Sum(Waiting, ths, o) == B(ob.count > 0)
  }

  function HoldersOf(holders: map<nat, Obj>, o: Obj): set<nat> {
    set c | c in holders && holders[c] == o
  }

  ghost predicate RefOk(ob: Object, holders: map<nat, Obj>, ths: seq<Thread>, o: Obj) {
    ob.ref == |HoldersOf(holders, o)| + Sum(Ref, ths, o)
  }

  /** Inside Push after the exchange. */
  ghost predicate Linking(top: Option<Frame>, o: Obj) {
    top.Some? && top.value.Task? && top.value.obj == o && top.value.pc.PushLink?
  }

  /** The queue's view of thread t agrees with t's innermost activation. */
  ghost predicate Placed(q: JQ.Queue, o: Obj, t: Tid, top: Option<Frame>) {
    && (t in q.pops <==> top == Some(Flush(o, Popping)))
    && (t in q.links ==> Linking(top, o) || (t in q.pops && q.pops[t].LinkStub?))
    && (Linking(top, o) ==> t in q.links)
  }

  function TopOf(ths: seq<Thread>, t: Tid): Option<Frame> {
    if t < |ths| then Top(ths[t]) else None
  }

  ghost predicate QueueOk(q: JQ.Queue, ths: seq<Thread>, o: Obj) {
    JQ.Inv(q) && forall t :: Placed(q, o, t, TopOf(ths, t))
  }

  /** Every job returned by Pop has been executed and deleted. */
  ghost predicate Idle(ob: Object) {
    ob.queue.popped == ob.done && ob.queue.out == {}
  }

  ghost predicate FlushOk(ob: Object, pc: FlushPc) {
    match pc
    case Exec(job) => ob.queue.popped == ob.done + [job] && ob.queue.out == {job}
    case Deleting(job) => ob.queue.popped == ob.done && ob.queue.out == {job}
    case _ => Idle(ob)
  }

  ghost predicate FramesOk(ob: Object, fs: seq<Frame>, o: Obj) {
    forall i :: 0 <= i < |fs| && fs[i].Flush? && fs[i].obj == o ==> FlushOk(ob, fs[i].fpc)
  }

  ghost predicate WorkOk(ob: Object, ths: seq<Thread>, o: Obj) {
    && (Sum(Flushing, ths, o) == 0 ==> Idle(ob))
    && forall t :: 0 <= t < |ths| ==> FramesOk(ob, ths[t].stack, o)
  }

  ghost predicate ObjectOk(s: State, o: Obj)
    requires o < |s.objects|
  {
    var ob := s.objects[o];
    && CountOk(ob, s.threads, o) && RefOk(ob, s.holders, s.threads, o)
    && QueueOk(ob.queue, s.threads, o) && WorkOk(ob, s.threads, o)
  }

  ghost predicate Inv(s: State) {
    && (forall o :: 0 <= o < |s.objects| ==> ObjectOk(s, o))
    && (forall t :: 0 <= t < |s.threads| ==> StackOk(s.threads[t]) && ObjectsExist(s.threads[t], |s.objects|))
    && (forall c :: c in s.holders ==> s.holders[c] < |s.objects|)
  }

  // ---- One thread and one object change at a time ----

  lemma ThreadWeights(k: Kind, th: Thread, f: Frame, o: Obj)
    ensures ThreadWeight(k, Enter(th, f), o) == ThreadWeight(k, th, o) + FrameWeight(k, f, o)
    ensures th.stack != [] ==>
      var top := th.stack[|th.stack|-1];
      && ThreadWeight(k, Return(th), o) == ThreadWeight(k, th, o) - FrameWeight(k, top, o)
      && ThreadWeight(k, ReplaceTop(th, f), o) ==
         ThreadWeight(k, th, o) - FrameWeight(k, top, o) + FrameWeight(k, f, o)
  {
    StackWeightAppend(k, th.stack, f, o);
    if th.stack != [] {
      StackWeightAppend(k, th.stack[..|th.stack|-1], f, o);
    }
  }

  /** A thread with a claim or a Flush on the object. */
  ghost predicate Owns(th: Thread, o: Obj) {
    ThreadWeight(Flushing, th, o) + ThreadWeight(Waiting, th, o) >= 1
  }

  ghost predicate SameWork(ob: Object, ob': Object) {
    ob'.queue.popped == ob.queue.popped && ob'.done == ob.done && ob'.queue.out == ob.queue.out
  }

  /** What has to be checked about one step of thread t on object o, locally. */
  ghost predicate LocalCounts(th: Thread, th': Thread, ob: Object, ob': Object, o: Obj) {
    && ob'.count - ob.count ==
         ThreadWeight(Announced, th', o) - ThreadWeight(Announced, th, o)
         + ThreadWeight(Running, th', o) - ThreadWeight(Running, th, o)
         + |ob'.queue.pushed| - |ob'.queue.popped| - |ob.queue.pushed| + |ob.queue.popped|
    && ThreadWeight(Flushing, th', o) + ThreadWeight(Waiting, th', o) + B(ob.count > 0) ==
         ThreadWeight(Flushing, th, o) + ThreadWeight(Waiting, th, o) + B(ob'.count > 0)
    && ob'.ref - ob.ref == ThreadWeight(Ref, th', o) - ThreadWeight(Ref, th, o)
  }

  ghost predicate LocalQueue(th': Thread, q: JQ.Queue, q': JQ.Queue, t: Tid, o: Obj) {
    JQ.Inv(q') && JQ.OnlyThread(q, q', t) && Placed(q', o, t, Top(th'))
  }

  ghost predicate LocalWork(th: Thread, th': Thread, ob: Object, ob': Object, o: Obj) {
    && FramesOk(ob', th'.stack, o)
    && (SameWork(ob, ob') || Owns(th, o))
    && (ThreadWeight(Flushing, th', o) == 0 ==>
          Idle(ob') || (SameWork(ob, ob') && ThreadWeight(Flushing, th, o) == 0))
  }

  /** For this object the two threads look the same. */
  ghost predicate SameAt(th: Thread, th': Thread, x: Obj) {
    && (forall k :: ThreadWeight(k, th', x) == ThreadWeight(k, th, x))
    && (forall i :: 0 <= i < |th'.stack| && th'.stack[i].Flush? && th'.stack[i].obj == x ==>
          exists j :: 0 <= j < |th.stack| && th.stack[j] == th'.stack[i])
    && (Top(th') == Some(Flush(x, Popping)) <==> Top(th) == Some(Flush(x, Popping)))
    && (Linking(Top(th'), x) <==> Linking(Top(th), x))
  }

  ghost predicate ElsewhereSame(th: Thread, th': Thread, o: Obj) {
    forall x: Obj :: x != o ==> SameAt(th, th', x)
  }

  ghost predicate Local(th: Thread, th': Thread, ob: Object, ob': Object, t: Tid, o: Obj, n: nat) {
    && LocalCounts(th, th', ob, ob', o) && LocalQueue(th', ob.queue, ob'.queue, t, o)
    && LocalWork(th, th', ob, ob', o) && ElsewhereSame(th, th', o)
    && StackOk(th') && ObjectsExist(th', n)
  }

  lemma CountKept(ths: seq<Thread>, t: Tid, th': Thread, o: Obj, ob: Object, ob': Object, holders: map<nat, Obj>)
    requires t < |ths| && CountOk(ob, ths, o) && RefOk(ob, holders, ths, o)
    requires LocalCounts(ths[t], th', ob, ob', o)
    ensures CountOk(ob', ths[t := th'], o) && RefOk(ob', holders, ths[t := th'], o)
  {
    SumUpdate(Announced, ths, t, th', o);
    SumUpdate(Running, ths, t, th', o);
    SumUpdate(Flushing, ths, t, th', o);
    SumUpdate(Waiting, ths, t, th', o);
    SumUpdate(Ref, ths, t, th', o);
  }

  lemma QueueKept(ths: seq<Thread>, t: Tid, th': Thread, o: Obj, q: JQ.Queue, q': JQ.Queue)
    requires t < |ths| && QueueOk(q, ths, o) && LocalQueue(th', q, q', t, o)
    ensures QueueOk(q', ths[t := th'], o)
  {
    var ths' := ths[t := th'];
    forall u: Tid ensures Placed(q', o, u, TopOf(ths', u)) {
      assert Placed(q, o, u, TopOf(ths, u));
    }
  }

  lemma WorkKept(ths: seq<Thread>, t: Tid, th': Thread, o: Obj, ob: Object, ob': Object)
    requires t < |ths| && CountOk(ob, ths, o) && WorkOk(ob, ths, o) && LocalWork(ths[t], th', ob, ob', o)
    ensures WorkOk(ob', ths[t := th'], o)
  {
    var ths' := ths[t := th'];
    forall u | 0 <= u < |ths'| ensures FramesOk(ob', ths'[u].stack, o) {
      assert FramesOk(ob, ths[u].stack, o);
      if u != t && Owns(ths[t], o) {
        OthersHaveNoFlush(ob, ths, t, u, o);
      }
    }
    SumUpdate(Flushing, ths, t, th', o);
    SumUpdate(Flushing, ths[t := th'], t, th', o);
  }

  lemma ObjectKept(s: State, t: Tid, th': Thread, o: Obj, ob': Object)
    requires Inv(s) && t < |s.threads| && o < |s.objects|
    requires LocalCounts(s.threads[t], th', s.objects[o], ob', o)
    requires LocalQueue(th', s.objects[o].queue, ob'.queue, t, o)
    requires LocalWork(s.threads[t], th', s.objects[o], ob', o)
    ensures ObjectOk(Update(s, t, th', o, ob'), o)
  {
    assert ObjectOk(s, o);
    CountKept(s.threads, t, th', o, s.objects[o], ob', s.holders);
    QueueKept(s.threads, t, th', o, s.objects[o].queue, ob'.queue);
    WorkKept(s.threads, t, th', o, s.objects[o], ob');
  }

  lemma OthersHaveNoFlush(ob: Object, ths: seq<Thread>, t: Tid, u: Tid, o: Obj)
    requires t < |ths| && u < |ths| && t != u
    requires CountOk(ob, ths, o) && Owns(ths[t], o)
    ensures forall i :: 0 <= i < |ths[u].stack| ==> !(ths[u].stack[i].Flush? && ths[u].stack[i].obj == o)
  {
    SumOfTwo(Flushing, ths, t, u, o);
    SumOfTwo(Waiting, ths, t, u, o);
    forall i | 0 <= i < |ths[u].stack| && ths[u].stack[i].Flush? && ths[u].stack[i].obj == o
      ensures false
    {
      StackWeightAt(Flushing, ths[u].stack, i, o);
    }
  }

  lemma OtherObjectKept(s: State, t: Tid, th': Thread, o: Obj, ob': Object, x: Obj)
    requires Inv(s) && t < |s.threads| && o < |s.objects| && x < |s.objects| && x != o
    requires ElsewhereSame(s.threads[t], th', o)
    ensures ObjectOk(Update(s, t, th', o, ob'), x)
  {
    hide JQ.Inv;
    hide FlushOk;
    hide Idle;
    hide ThreadWeight;
    var s' := Update(s, t, th', o, ob');
    var ob := s.objects[x];
    assert ObjectOk(s, x);
    assert SameAt(s.threads[t], th', x);
    forall k ensures Sum(k, s'.threads, x) == Sum(k, s.threads, x) {
      SumUpdate(k, s.threads, t, th', x);
      assert SameAt(s.threads[t], th', x);
    }
    assert QueueOk(ob.queue, s'.threads, x) by {
      forall u: Tid ensures Placed(ob.queue, x, u, TopOf(s'.threads, u)) {
        assert Placed(ob.queue, x, u, TopOf(s.threads, u));
      }
    }
    forall u | 0 <= u < |s'.threads| ensures FramesOk(ob, s'.threads[u].stack, x) {
      assert FramesOk(ob, s.threads[u].stack, x);
    }
  }

  lemma LocalStepKeeps(s: State, t: Tid, th': Thread, o: Obj, ob': Object)
    requires Inv(s) && t < |s.threads| && o < |s.objects|
    requires Local(s.threads[t], th', s.objects[o], ob', t, o, |s.objects|)
    ensures Inv(Update(s, t, th', o, ob'))
  {
    var s' := Update(s, t, th', o, ob');
    forall x | 0 <= x < |s'.objects| ensures ObjectOk(s', x) {
      if x == o { ObjectKept(s, t, th', o, ob'); } else { OtherObjectKept(s, t, th', o, ob', x); }
    }
  }

  // ---- Every step keeps the invariant ----

  ghost predicate PlainFrame(f: Frame, o: Obj) {
    f.obj == o && !(f.Task? && f.pc.Unref?)
  }

  lemma ReplaceTopElsewhere(th: Thread, f: Frame, o: Obj)
    requires th.stack != [] && PlainFrame(th.stack[|th.stack|-1], o) && PlainFrame(f, o)
    ensures ElsewhereSame(th, ReplaceTop(th, f), o)
  {
    hide ThreadWeight;
    forall x: Obj | x != o ensures SameAt(th, ReplaceTop(th, f), x) {
      forall k ensures ThreadWeight(k, ReplaceTop(th, f), x) == ThreadWeight(k, th, x) {
        ThreadWeights(k, th, f, x);
      }
    }
  }

  lemma BeneathTop(th: Thread)
    requires th.stack != [] && StackOk(th)
    ensures var top := Top(Return(th));
      || top.None? || top.value.TimerDone? || (top.value.Task? && Draining(top.value.pc))
      || (top.value.Flush? && top.value.fpc.Exec?)
  {
  }

  lemma ReturnElsewhere(th: Thread, o: Obj)
    requires th.stack != [] && PlainFrame(th.stack[|th.stack|-1], o) && StackOk(th)
    requires MayReturn(th.stack[|th.stack|-1])
    ensures ElsewhereSame(th, Return(th), o)
  {
    BeneathTop(th);
    hide StackOk;
    hide ThreadWeight;
    forall x: Obj | x != o ensures SameAt(th, Return(th), x) {
      forall k ensures ThreadWeight(k, Return(th), x) == ThreadWeight(k, th, x) {
        ThreadWeights(k, th, th.stack[|th.stack|-1], x);
      }
    }
  }

  ghost predicate MayReturn(f: Frame) {
    !(f.Flush? && f.fpc.Popping?)
  }

  /** A frame's weight, or nothing for a frame that is gone. */
  function Weight(k: Kind, f: Option<Frame>, o: Obj): nat {
    match f
    case None => 0
    case Some(g) => FrameWeight(k, g, o)
  }

  /** LocalCounts, for a step that replaces the top frame f by g. */
  ghost predicate FrameCounts(f: Frame, g: Option<Frame>, ob: Object, ob': Object, o: Obj) {
    && ob'.count - ob.count ==
         Weight(Announced, g, o) - FrameWeight(Announced, f, o) + Weight(Running, g, o) - FrameWeight(Running, f, o)
         + |ob'.queue.pushed| - |ob'.queue.popped| - |ob.queue.pushed| + |ob.queue.popped|
    && Weight(Flushing, g, o) + Weight(Waiting, g, o) + B(ob.count > 0) ==
         FrameWeight(Flushing, f, o) + FrameWeight(Waiting, f, o) + B(ob'.count > 0)
    && ob'.ref - ob.ref == Weight(Ref, g, o) - FrameWeight(Ref, f, o)
  }

  function Change(th: Thread, g: Option<Frame>): Thread
    requires th.stack != []
  {
    match g
    case None => Return(th)
    case Some(f) => ReplaceTop(th, f)
  }

  lemma ChangeCounts(th: Thread, g: Option<Frame>, ob: Object, ob': Object, o: Obj)
    requires th.stack != [] && FrameCounts(th.stack[|th.stack|-1], g, ob, ob', o)
    ensures LocalCounts(th, Change(th, g), ob, ob', o)
  {
    var top := th.stack[|th.stack|-1];
    var f := if g.Some? then g.value else top;
    ThreadWeights(Announced, th, f, o);
    ThreadWeights(Running, th, f, o);
    ThreadWeights(Flushing, th, f, o);
    ThreadWeights(Waiting, th, f, o);
    ThreadWeights(Ref, th, f, o);
  }

  /** LocalWork, for a step that replaces the top frame f by g. */
  ghost predicate FrameWork(f: Frame, g: Option<Frame>, ob: Object, ob': Object) {
    if f.Flush? then if g.Some? then g.value.Flush? && FlushOk(ob', g.value.fpc) else Idle(ob')
    else SameWork(ob, ob') && (g.Some? ==> !g.value.Flush?)
  }

  lemma ChangeWork(th: Thread, g: Option<Frame>, ob: Object, ob': Object, o: Obj)
    requires th.stack != [] && StackOk(th) && FramesOk(ob, th.stack, o)
    requires th.stack[|th.stack|-1].obj == o && (g.Some? ==> g.value.obj == o)
    requires FrameWork(th.stack[|th.stack|-1], g, ob, ob')
    ensures LocalWork(th, Change(th, g), ob, ob', o)
  {
    if th.stack[|th.stack|-1].Flush? { ChangeFlushWork(th, g, ob, ob', o); } else { ChangeTaskWork(th, g, ob, ob', o); }
  }

  lemma ChangeFlushWork(th: Thread, g: Option<Frame>, ob: Object, ob': Object, o: Obj)
    requires th.stack != [] && StackOk(th) && th.stack[|th.stack|-1].Flush?
    requires th.stack[|th.stack|-1].obj == o && (g.Some? ==> g.value.obj == o)
    requires FrameWork(th.stack[|th.stack|-1], g, ob, ob')
    ensures LocalWork(th, Change(th, g), ob, ob', o)
  {
    hide FlushOk;
    hide Idle;
    var n := |th.stack| - 1;
    var th' := Change(th, g);
    assert forall i :: 0 <= i < n ==> !th.stack[i].Flush?;
    StackWeightAt(Flushing, th.stack, n, o);
    if g.Some? { StackWeightAt(Flushing, th'.stack, n, o); }
    hide StackOk;
    hide StackWeight;
  }

  lemma ChangeTaskWork(th: Thread, g: Option<Frame>, ob: Object, ob': Object, o: Obj)
    requires th.stack != [] && FramesOk(ob, th.stack, o) && !th.stack[|th.stack|-1].Flush?
    requires FrameWork(th.stack[|th.stack|-1], g, ob, ob')
    ensures LocalWork(th, Change(th, g), ob, ob', o)
  {
    ThreadWeights(Flushing, th, if g.Some? then g.value else th.stack[|th.stack|-1], o);
    hide ThreadWeight;
  }

  lemma ChangeElsewhere(th: Thread, g: Option<Frame>, o: Obj)
    requires th.stack != [] && StackOk(th) && PlainFrame(th.stack[|th.stack|-1], o)
    requires if g.Some? then PlainFrame(g.value, o) else MayReturn(th.stack[|th.stack|-1])
    ensures ElsewhereSame(th, Change(th, g), o)
  {
    if g.Some? { ReplaceTopElsewhere(th, g.value, o); } else { ReturnElsewhere(th, o); }
  }

  /** What the invariant says about one thread and the object it is about to touch. */
  ghost predicate Ready(th: Thread, ob: Object, t: Tid, o: Obj, n: nat) {
    && StackOk(th) && ObjectsExist(th, n) && o < n
    && JQ.Inv(ob.queue) && Placed(ob.queue, o, t, Top(th)) && FramesOk(ob, th.stack, o)
    && ob.count >= 0 && (Owns(th, o) ==> ob.count > 0)
    && (ThreadWeight(Waiting, th, o) > 0 ==> Idle(ob))
    && (Owns(th, o) && Top(th) != Some(Flush(o, Popping)) ==> ob.queue.pops == map[])
  }

  /** A step that replaces or removes the innermost frame and touches its object. */
  lemma ChangeLocal(th: Thread, g: Option<Frame>, ob: Object, ob': Object, t: Tid, o: Obj, n: nat)
    requires Ready(th, ob, t, o, n) && th.stack != []
    requires PlainFrame(th.stack[|th.stack|-1], o)
    requires if g.Some? then PlainFrame(g.value, o) else MayReturn(th.stack[|th.stack|-1])
    requires FrameCounts(th.stack[|th.stack|-1], g, ob, ob', o)
    requires FrameWork(th.stack[|th.stack|-1], g, ob, ob')
    requires StackOk(Change(th, g)) && LocalQueue(Change(th, g), ob.queue, ob'.queue, t, o)
    ensures Local(th, Change(th, g), ob, ob', t, o, n)
  {
    hide JQ.Inv;
    ChangeCounts(th, g, ob, ob', o);
    ChangeWork(th, g, ob, ob', o);
    ChangeElsewhere(th, g, o);
  }

  /** The same for a step that does not touch the queue. */
  lemma CounterLocal(th: Thread, g: Option<Frame>, ob: Object, ob': Object, t: Tid, o: Obj, n: nat)
    requires Ready(th, ob, t, o, n) && th.stack != []
    requires PlainFrame(th.stack[|th.stack|-1], o)
    requires if g.Some? then PlainFrame(g.value, o) else MayReturn(th.stack[|th.stack|-1])
    requires FrameCounts(th.stack[|th.stack|-1], g, ob, ob', o)
    requires FrameWork(th.stack[|th.stack|-1], g, ob, ob')
    requires StackOk(Change(th, g)) && ob'.queue == ob.queue
    requires Top(th) != Some(Flush(o, Popping)) && !Linking(Top(th), o)
    requires var f := Top(Change(th, g)); f != Some(Flush(o, Popping)) && !Linking(f, o)
    ensures Local(th, Change(th, g), ob, ob', t, o, n)
  {
    hide JQ.Inv;
    ChangeLocal(th, g, ob, ob', t, o, n);
  }

  // ---- The queue steps ----

  lemma ExchangeQueue(th: Thread, q: JQ.Queue, t: Tid, o: Obj, first: bool, addr: nat)
    requires JQ.Inv(q) && Placed(q, o, t, Top(th)) && JQ.Entry(addr) !in q.next
    requires Top(th) == Some(Task(o, PushExchange(first)))
    ensures var q' := QueueStep(q, JQ.Exchange(t, addr));
      && LocalQueue(ReplaceTop(th, Task(o, PushLink(first))), q, q', t, o)
      && q'.pushed == q.pushed + [addr] && q'.popped == q.popped && q'.out == q.out
  {
    JQ.StepKeeps(q, JQ.Exchange(t, addr));
    JQ.StepIsOwn(q, JQ.Exchange(t, addr), t);
  }

  lemma FinishQueue(th: Thread, th': Thread, q: JQ.Queue, t: Tid, o: Obj, first: bool)
    requires JQ.Inv(q) && Placed(q, o, t, Top(th)) && Top(th) == Some(Task(o, PushLink(first)))
    requires Top(th') != Some(Flush(o, Popping)) && !Linking(Top(th'), o)
    ensures var q' := QueueStep(q, JQ.Finish(t));
      && LocalQueue(th', q, q', t, o)
      && q'.pushed == q.pushed && q'.popped == q.popped && q'.out == q.out
  {
    JQ.StepKeeps(q, JQ.Finish(t));
    JQ.StepIsOwn(q, JQ.Finish(t), t);
  }

  lemma BeginQueue(th: Thread, th': Thread, q: JQ.Queue, t: Tid, o: Obj)
    requires JQ.Inv(q) && Placed(q, o, t, Top(th)) && q.pops == map[] && !Linking(Top(th), o)
    requires Top(th') == Some(Flush(o, Popping))
    ensures var q' := QueueStep(q, JQ.Begin(t));
      && LocalQueue(th', q, q', t, o)
      && q'.pushed == q.pushed && q'.popped == q.popped && q'.out == q.out
  {
    JQ.StepKeeps(q, JQ.Begin(t));
    JQ.StepIsOwn(q, JQ.Begin(t), t);
  }

  lemma DeleteQueue(th: Thread, q: JQ.Queue, t: Tid, o: Obj, job: nat)
    requires JQ.Inv(q) && Placed(q, o, t, Top(th)) && job in q.out
    requires Top(th) == Some(Flush(o, Deleting(job)))
    ensures var q' := QueueStep(q, JQ.Delete(job));
      && LocalQueue(ReplaceTop(th, Flush(o, Count)), q, q', t, o)
      && q'.pushed == q.pushed && q'.popped == q.popped && q'.out == q.out - {job}
  {
    JQ.StepKeeps(q, JQ.Delete(job));
    JQ.StepIsOwn(q, JQ.Delete(job), t);
  }

  /** One access of Pop: the thread is still inside, or it has returned a job. */
  lemma PopQueue(th: Thread, q: JQ.Queue, t: Tid, o: Obj)
    requires JQ.Inv(q) && Placed(q, o, t, Top(th)) && Top(th) == Some(Flush(o, Popping))
    ensures JQ.Enabled(q, JQ.Pop(t))
    ensures var q' := QueueStep(q, JQ.Pop(t));
      && JQ.Inv(q') && JQ.OnlyThread(q, q', t) && q'.pushed == q.pushed
      && (t in q'.links ==> t in q'.pops && q'.pops[t].LinkStub?)
      && if t in q'.pops then q'.popped == q.popped && q'.out == q.out
         else exists a :: q'.popped == q.popped + [a] && q'.out == q.out + {a}
  {
    assert JQ.PopOk(q, t, q.pops[t]);
    JQ.StepKeeps(q, JQ.Pop(t));
    JQ.StepIsOwn(q, JQ.Pop(t), t);
    JQ.PopHistory(q, t);
  }

  // ---- The steps of DoTask and Flush, one by one ----

  lemma AnnounceLocal(th: Thread, ob: Object, t: Tid, o: Obj, n: nat)
    requires Ready(th, ob, t, o, n) && Top(th) == Some(Task(o, Announce))
    ensures var th' := ReplaceTop(th, Task(o, PushExchange(ob.count == 0)));
      Local(th, th', ob, ob.(count := ob.count + 1), t, o, n)
  {
    hide JQ.Inv;
    CounterLocal(th, Some(Task(o, PushExchange(ob.count == 0))), ob, ob.(count := ob.count + 1), t, o, n);
  }

  lemma ExchangeLocal(th: Thread, ob: Object, t: Tid, o: Obj, n: nat, first: bool, addr: nat)
    requires Ready(th, ob, t, o, n) && Top(th) == Some(Task(o, PushExchange(first))) && JQ.Entry(addr) !in ob.queue.next
    ensures var th' := ReplaceTop(th, Task(o, PushLink(first)));
      Local(th, th', ob, ob.(queue := QueueStep(ob.queue, JQ.Exchange(t, addr))), t, o, n)
  {
    hide JQ.Apply;
    hide JQ.Inv;
    ExchangeQueue(th, ob.queue, t, o, first, addr);
    ChangeLocal(th, Some(Task(o, PushLink(first))), ob, ob.(queue := QueueStep(ob.queue, JQ.Exchange(t, addr))), t, o, n);
  }

  lemma LinkFrame(th: Thread, ob: Object, t: Tid, o: Obj, n: nat, first: bool)
    requires Ready(th, ob, t, o, n) && Top(th) == Some(Task(o, PushLink(first)))
    ensures var ob' := ob.(queue := QueueStep(ob.queue, JQ.Finish(t)));
      var f, g := Task(o, PushLink(first)), if first then Some(Task(o, TakeRef)) else None;
      && FrameCounts(f, g, ob, ob', o) && FrameWork(f, g, ob, ob')
      && StackOk(Change(th, g)) && LocalQueue(Change(th, g), ob.queue, ob'.queue, t, o)
  {
    hide JQ.Inv;
    hide QueueStep;
    hide ObjectsExist;
    hide ThreadWeight;
    LinkEffects(ob, t);
    LinkStack(th, o, first);
    FinishQueue(th, Change(th, if first then Some(Task(o, TakeRef)) else None), ob.queue, t, o, first);
    hide StackOk;
    hide LocalQueue;
  }

  lemma LinkLocal(th: Thread, ob: Object, t: Tid, o: Obj, n: nat, first: bool)
    requires Ready(th, ob, t, o, n) && Top(th) == Some(Task(o, PushLink(first)))
    ensures var th' := if first then ReplaceTop(th, Task(o, TakeRef)) else Return(th);
      Local(th, th', ob, ob.(queue := QueueStep(ob.queue, JQ.Finish(t))), t, o, n)
  {
    hide Ready;
    hide StackOk;
    hide QueueStep;
    hide FrameCounts;
    hide FrameWork;
    hide LocalQueue;
    hide Local;
    LinkFrame(th, ob, t, o, n, first);
    var g := if first then Some(Task(o, TakeRef)) else None;
    ChangeLocal(th, g, ob, ob.(queue := QueueStep(ob.queue, JQ.Finish(t))), t, o, n);
  }

  lemma LinkEffects(ob: Object, t: Tid)
    ensures var q' := QueueStep(ob.queue, JQ.Finish(t));
      q'.pushed == ob.queue.pushed && q'.popped == ob.queue.popped && q'.out == ob.queue.out
  {
  }

  lemma LinkStack(th: Thread, o: Obj, first: bool)
    requires StackOk(th) && Top(th) == Some(Task(o, PushLink(first)))
    ensures StackOk(Change(th, if first then Some(Task(o, TakeRef)) else None))
    ensures !first ==> Top(Return(th)) != Some(Flush(o, Popping)) && !Linking(Top(Return(th)), o)
  {
    BeneathTop(th);
  }

  lemma TakeRefLocal(th: Thread, ob: Object, t: Tid, o: Obj, n: nat)
    requires Ready(th, ob, t, o, n) && Top(th) == Some(Task(o, TakeRef))
    ensures Local(th, ReplaceTop(th, Task(o, Claim)), ob, ob.(ref := ob.ref + 1), t, o, n)
  {
    hide JQ.Inv;
    CounterLocal(th, Some(Task(o, Claim)), ob, ob.(ref := ob.ref + 1), t, o, n);
  }

  lemma ReleaseLocal(th: Thread, ob: Object, t: Tid, o: Obj, n: nat)
    requires Ready(th, ob, t, o, n) && (Top(th) == Some(Task(o, Release)) || Top(th) == Some(TimerDone(o)))
    ensures Local(th, Return(th), ob, ob.(ref := ob.ref - 1), t, o, n)
  {
    hide JQ.Inv;
    BeneathTop(th);
    CounterLocal(th, None, ob, ob.(ref := ob.ref - 1), t, o, n);
  }

  lemma ExecLocal(th: Thread, ob: Object, t: Tid, o: Obj, n: nat, job: nat)
    requires Ready(th, ob, t, o, n) && Top(th) == Some(Flush(o, Exec(job)))
    ensures Local(th, ReplaceTop(th, Flush(o, Deleting(job))), ob, ob.(done := ob.done + [job]), t, o, n)
  {
    hide JQ.Inv;
    CounterLocal(th, Some(Flush(o, Deleting(job))), ob, ob.(done := ob.done + [job]), t, o, n);
  }

  lemma DeletingLocal(th: Thread, ob: Object, t: Tid, o: Obj, n: nat, job: nat)
    requires Ready(th, ob, t, o, n) && Top(th) == Some(Flush(o, Deleting(job)))
    ensures var th' := ReplaceTop(th, Flush(o, Count));
      Local(th, th', ob, ob.(queue := QueueStep(ob.queue, JQ.Delete(job))), t, o, n)
  {
    hide JQ.Apply;
    hide JQ.Inv;
    DeleteQueue(th, ob.queue, t, o, job);
    ChangeLocal(th, Some(Flush(o, Count)), ob, ob.(queue := QueueStep(ob.queue, JQ.Delete(job))), t, o, n);
  }

  lemma TopFlushOwns(th: Thread, o: Obj)
    requires Top(th).Some? && Top(th).value.Flush? && Top(th).value.obj == o
    ensures ThreadWeight(Flushing, th, o) >= 1
  {
    StackWeightAt(Flushing, th.stack, |th.stack| - 1, o);
  }

  lemma CountLocal(th: Thread, ob: Object, t: Tid, o: Obj, n: nat)
    requires Ready(th, ob, t, o, n) && Top(th) == Some(Flush(o, Count))
    ensures if ob.count == 1 then Local(th, Return(th), ob, ob.(count := ob.count - 1), t, o, n)
      else Local(th, ReplaceTop(th, Flush(o, Popping)), ob,
                 ob.(count := ob.count - 1, queue := QueueStep(ob.queue, JQ.Begin(t))), t, o, n)
  {
    hide JQ.Apply;
    hide JQ.Inv;
    TopFlushOwns(th, o);
    if ob.count == 1 {
      BeneathTop(th);
      CounterLocal(th, None, ob, ob.(count := ob.count - 1), t, o, n);
    } else {
      BeginQueue(th, ReplaceTop(th, Flush(o, Popping)), ob.queue, t, o);
      ChangeLocal(th, Some(Flush(o, Popping)), ob,
                  ob.(count := ob.count - 1, queue := QueueStep(ob.queue, JQ.Begin(t))), t, o, n);
    }
  }

  lemma FlushStack(th: Thread, o: Obj, pc: FlushPc)
    requires StackOk(th) && Top(th) == Some(Flush(o, Popping))
    ensures StackOk(Change(th, Some(Flush(o, pc))))
  {
  }

  lemma PopFrame(th: Thread, ob: Object, t: Tid, o: Obj, n: nat) returns (g: Frame)
    requires Ready(th, ob, t, o, n) && Top(th) == Some(Flush(o, Popping))
    ensures var (th', ob') := FlushStep(th, t, o, Popping, ob);
      && th' == Change(th, Some(g)) && PlainFrame(g, o)
      && FrameCounts(Flush(o, Popping), Some(g), ob, ob', o) && FrameWork(Flush(o, Popping), Some(g), ob, ob')
      && StackOk(th') && LocalQueue(th', ob.queue, ob'.queue, t, o)
  {
    hide JQ.Apply;
    hide JQ.Inv;
    hide ObjectsExist;
    hide ThreadWeight;
    var (_, ob') := FlushStep(th, t, o, Popping, ob);
    PopQueue(th, ob.queue, t, o);
    g := Flush(o, if t in ob'.queue.pops then Popping else Exec(ob'.queue.popped[|ob'.queue.popped|-1]));
    FlushStack(th, o, g.fpc);
    assert FramesOk(ob, th.stack, o) && FlushOk(ob, Popping);
    hide StackOk;
    hide FramesOk;
  }

  lemma PopLocal(th: Thread, ob: Object, t: Tid, o: Obj, n: nat)
    requires Ready(th, ob, t, o, n) && Top(th) == Some(Flush(o, Popping))
    ensures var (th', ob') := FlushStep(th, t, o, Popping, ob); Local(th, th', ob, ob', t, o, n)
  {
    hide Ready;
    hide StackOk;
    hide FlushStep;
    hide FrameCounts;
    hide FrameWork;
    hide LocalQueue;
    hide Local;
    hide Change;
    var g := PopFrame(th, ob, t, o, n);
    ChangeLocal(th, Some(g), ob, FlushStep(th, t, o, Popping, ob).1, t, o, n);
  }

  // ---- Steps that move an object between frames and lists ----

  lemma OccursAppend(xs: seq<Obj>, o: Obj, x: Obj)
    ensures Occurs(xs + [o], x) == Occurs(xs, x) + B(x == o)
  {
  }

  lemma OccursFirst(xs: seq<Obj>, x: Obj)
    requires xs != []
    ensures Occurs(xs[1..], x) == Occurs(xs, x) - B(x == xs[0]) && Occurs(xs, xs[0]) >= 1
  {
    assert xs == [xs[0]] + xs[1..];
  }

  lemma OccursRemove(xs: seq<Obj>, i: nat, x: Obj)
    requires i < |xs|
    ensures Occurs(Remove(xs, i), x) == Occurs(xs, x) - B(x == xs[i]) && Occurs(xs, xs[i]) >= 1
    ensures forall y :: y in Remove(xs, i) ==> y in xs
  {
    assert xs == xs[..i] + [xs[i]] + xs[i+1..];
  }

  /** push_back: the claim moves from the activation of DoTask to LExecuterList. */
  function PushBack(th: Thread, o: Obj): Thread
    requires th.stack != []
  {
    Return(th).(executers := th.executers + [o])
  }

  lemma PushBackWeights(th: Thread, o: Obj, k: Kind, x: Obj)
    requires Top(th) == Some(Task(o, Claim))
    ensures ThreadWeight(k, PushBack(th, o), x) == ThreadWeight(k, th, x)
  {
    ThreadWeights(k, th, Task(o, Claim), x);
    OccursAppend(th.executers, o, x);
  }

  lemma PushBackLocal(th: Thread, ob: Object, t: Tid, o: Obj, n: nat)
    requires Ready(th, ob, t, o, n) && Top(th) == Some(Task(o, Claim)) && th.current.Some?
    ensures Local(th, PushBack(th, o), ob, ob, t, o, n)
  {
    hide JQ.Inv;
    var th' := PushBack(th, o);
    BeneathTop(th);
    forall k, x ensures ThreadWeight(k, th', x) == ThreadWeight(k, th, x) {
      PushBackWeights(th, o, k, x);
    }
    assert ElsewhereSame(th, th', o) by {
      forall x: Obj ensures SameAt(th, th', x) {}
    }
  }

  /** The thread becomes the object's flusher and enters Flush. */
  function Occupy(th: Thread, o: Obj): Thread
    requires th.stack != []
  {
    Enter(ReplaceTop(th, Task(o, Drain)).(current := Some(o)), Flush(o, Popping))
  }

  lemma OccupyWeights(th: Thread, o: Obj, k: Kind, x: Obj)
    requires Top(th) == Some(Task(o, Claim))
    ensures ThreadWeight(k, Occupy(th, o), x) ==
      ThreadWeight(k, th, x) - FrameWeight(k, Task(o, Claim), x)
      + FrameWeight(k, Task(o, Drain), x) + FrameWeight(k, Flush(o, Popping), x)
    ensures ThreadWeight(k, th, x) >= FrameWeight(k, Task(o, Claim), x)
  {
    var mid := ReplaceTop(th, Task(o, Drain)).(current := Some(o));
    ThreadWeights(k, th, Task(o, Drain), x);
    ThreadWeights(k, mid, Flush(o, Popping), x);
    StackWeightAt(k, th.stack, |th.stack| - 1, x);
  }

  lemma OccupyLocal(th: Thread, ob: Object, t: Tid, o: Obj, n: nat)
    requires Ready(th, ob, t, o, n) && Top(th) == Some(Task(o, Claim)) && th.current.None?
    ensures Local(th, Occupy(th, o), ob, ob.(queue := QueueStep(ob.queue, JQ.Begin(t))), t, o, n)
  {
    hide ThreadWeight;
    hide JQ.Inv;
    hide JQ.Apply;
    var th' := Occupy(th, o);
    OccupyWeights(th, o, Announced, o);
    OccupyWeights(th, o, Running, o);
    OccupyWeights(th, o, Flushing, o);
    OccupyWeights(th, o, Waiting, o);
    OccupyWeights(th, o, Ref, o);
    BeginQueue(th, th', ob.queue, t, o);
    forall x: Obj | x != o ensures SameAt(th, th', x) {
      forall k ensures ThreadWeight(k, th', x) == ThreadWeight(k, th, x) { OccupyWeights(th, o, k, x); }
    }
  }

  /** pop_front: the claim moves from LExecuterList to an activation of Flush. */
  function PopFront(th: Thread, o: Obj): Thread
    requires th.stack != [] && th.executers != []
  {
    var d := th.executers[0];
    Enter(ReplaceTop(th, Task(o, Unref(d))).(executers := th.executers[1..]), Flush(d, Popping))
  }

  lemma ShorterListWeights(th: Thread, k: Kind, x: Obj)
    requires th.executers != []
    ensures var d := th.executers[0];
      && ThreadWeight(k, th.(executers := th.executers[1..]), x) ==
           ThreadWeight(k, th, x) - B((k.Waiting? || k.Ref?) && x == d)
      && (k.Waiting? ==> ThreadWeight(k, th, d) >= 1)
  {
    OccursFirst(th.executers, x);
  }

  /** Only the claim on d turns into an activation of Flush. */
  lemma PopFrontWeights(th: Thread, o: Obj, k: Kind, x: Obj)
    requires Top(th) == Some(Task(o, Drain)) && th.executers != []
    ensures var d := th.executers[0];
      && ThreadWeight(k, PopFront(th, o), x) ==
           ThreadWeight(k, th, x) - B(k.Waiting? && x == d) + B(k.Flushing? && x == d)
      && (k.Waiting? ==> ThreadWeight(k, th, d) >= 1)
  {
    hide ThreadWeight;
    var d := th.executers[0];
    var mid := ReplaceTop(th, Task(o, Unref(d)));
    ThreadWeights(k, th, Task(o, Unref(d)), x);
    ShorterListWeights(th, k, x);
    ShorterListWeights(mid, k, x);
    ThreadWeights(k, mid.(executers := th.executers[1..]), Flush(d, Popping), x);
  }

  lemma PopFrontLocal(th: Thread, ob: Object, t: Tid, o: Obj, d: Obj, n: nat)
    requires th.executers != [] && d == th.executers[0]
    requires Ready(th, ob, t, d, n) && Top(th) == Some(Task(o, Drain))
    ensures Local(th, PopFront(th, o), ob, ob.(queue := QueueStep(ob.queue, JQ.Begin(t))), t, d, n)
  {
    hide ThreadWeight;
    hide JQ.Inv;
    hide JQ.Apply;
    var th' := PopFront(th, o);
    PopFrontWeights(th, o, Announced, d);
    PopFrontWeights(th, o, Running, d);
    PopFrontWeights(th, o, Flushing, d);
    PopFrontWeights(th, o, Waiting, d);
    PopFrontWeights(th, o, Ref, d);
    assert forall e :: e in th'.executers ==> e in th.executers;
    BeginQueue(th, th', ob.queue, t, d);
    forall x: Obj | x != d ensures SameAt(th, th', x) {
      forall k ensures ThreadWeight(k, th', x) == ThreadWeight(k, th, x) { PopFrontWeights(th, o, k, x); }
    }
  }

  lemma CurrentWeights(th: Thread, c: Option<Obj>, k: Kind, x: Obj)
    ensures ThreadWeight(k, th.(current := c), x) == ThreadWeight(k, th, x)
  {
  }

  /** The list is empty: the thread is free again. */
  lemma VacateLocal(th: Thread, ob: Object, t: Tid, o: Obj, n: nat)
    requires Ready(th, ob, t, o, n) && Top(th) == Some(Task(o, Drain)) && th.executers == []
    ensures Local(th, ReplaceTop(th, Task(o, Release)).(current := None), ob, ob, t, o, n)
  {
    hide ThreadWeight;
    hide JQ.Inv;
    var th' := ReplaceTop(th, Task(o, Release)).(current := None);
    forall k, x ensures ThreadWeight(k, th', x) == ThreadWeight(k, th, x) {
      ThreadWeights(k, th, Task(o, Release), x);
      CurrentWeights(ReplaceTop(th, Task(o, Release)), None, k, x);
    }
    forall x: Obj ensures SameAt(th, th', x) {}
  }

  lemma UnrefLocal(th: Thread, ob: Object, t: Tid, o: Obj, d: Obj, n: nat)
    requires Ready(th, ob, t, d, n) && Top(th) == Some(Task(o, Unref(d)))
    ensures Local(th, ReplaceTop(th, Task(o, Drain)), ob, ob.(ref := ob.ref - 1), t, d, n)
  {
    hide ThreadWeight;
    hide JQ.Inv;
    var th' := ReplaceTop(th, Task(o, Drain));
    forall k, x ensures ThreadWeight(k, th', x) == ThreadWeight(k, th, x) - B(k.Ref? && x == d) {
      ThreadWeights(k, th, Task(o, Drain), x);
    }
    forall x: Obj | x != d ensures SameAt(th, th', x) {}
  }

  /** Every access an activation can make fits. */
  lemma RunLocal(th: Thread, ob: Object, t: Tid, n: nat, addr: nat)
    requires th.stack != [] && Ready(th, ob, t, Target(th), n) && JQ.Entry(addr) !in ob.queue.next
    ensures var (th', ob') := RunTop(th, t, ob, addr); Local(th, th', ob, ob', t, Target(th), n)
  {
    hide Ready;
    hide Local;
    match th.stack[|th.stack|-1] {
    case TimerDone(o) => ReleaseLocal(th, ob, t, o, n);
    case Flush(o, pc) =>
      match pc {
       case Popping => PopLocal(th, ob, t, o, n);
       case Exec(job) => ExecLocal(th, ob, t, o, n, job);
       case Deleting(job) => DeletingLocal(th, ob, t, o, n, job);
       case Count => CountLocal(th, ob, t, o, n);
      }
    case Task(o, pc) =>
      match pc {
       case Announce => AnnounceLocal(th, ob, t, o, n);
       case PushExchange(first) => ExchangeLocal(th, ob, t, o, n, first, addr);
       case PushLink(first) => LinkLocal(th, ob, t, o, n, first);
       case TakeRef => TakeRefLocal(th, ob, t, o, n);
       case Claim => if th.current.Some? { PushBackLocal(th, ob, t, o, n); } else { OccupyLocal(th, ob, t, o, n); }
       case Drain =>
         if th.executers == [] {
           VacateLocal(th, ob, t, o, n);
         } else {
           PopFrontLocal(th, ob, t, o, th.executers[0], n);
         }
       case Unref(d) => UnrefLocal(th, ob, t, o, d, n);
       case Release => ReleaseLocal(th, ob, t, o, n);
      }
    }
  }

  // ---- Steps of the whole system ----

  lemma WaitingMeansIdle(s: State, t: Tid, o: Obj)
    requires t < |s.threads| && o < |s.objects| && ObjectOk(s, o)
    ensures Owns(s.threads[t], o) ==> s.objects[o].count > 0
    ensures ThreadWeight(Waiting, s.threads[t], o) > 0 ==> Idle(s.objects[o])
    ensures s.objects[o].count >= 0
  {
    JQ.PoppedWerePushed(s.objects[o].queue);
    hide JQ.Inv;
    var blank := Thread([], [], None, []);
    SumUpdate(Flushing, s.threads, t, blank, o);
    SumUpdate(Waiting, s.threads, t, blank, o);
  }

  /** Nobody is inside Pop while the only activation of Flush, if any, is this thread's and is not in Pop. */
  lemma NobodyPops(s: State, t: Tid, o: Obj)
    requires t < |s.threads| && o < |s.objects| && ObjectOk(s, o)
    requires Top(s.threads[t]) != Some(Flush(o, Popping)) && Owns(s.threads[t], o)
    ensures s.objects[o].queue.pops == map[]
  {
    hide JQ.Inv;
    var q := s.objects[o].queue;
    forall u | u in q.pops ensures false {
      assert Placed(q, o, u, TopOf(s.threads, u));
      TopFlushOwns(s.threads[u], o);
      SumUpdate(Flushing, s.threads, u, s.threads[u], o);
      SumUpdate(Waiting, s.threads, t, s.threads[t], o);
      SumOfTwo(Flushing, s.threads, t, u, o);
    }
  }

  lemma ReadyFromInv(s: State, t: Tid, o: Obj)
    requires Inv(s) && t < |s.threads| && o < |s.objects|
    ensures Ready(s.threads[t], s.objects[o], t, o, |s.objects|)
  {
    assert ObjectOk(s, o);
    WaitingMeansIdle(s, t, o);
    if Owns(s.threads[t], o) && Top(s.threads[t]) != Some(Flush(o, Popping)) { NobodyPops(s, t, o); }
    hide JQ.Inv;
    assert Placed(s.objects[o].queue, o, t, TopOf(s.threads, t));
    assert FramesOk(s.objects[o], s.threads[t].stack, o);
  }

  lemma TargetExists(s: State, step: Step)
    requires Inv(s) && Enabled(s, step)
    ensures Targets(s, step)
  {
    hide ObjectOk;
    match step
    case Fire(t, i) => assert s.threads[t].timers[i] in s.threads[t].timers;
    case Run(t, _) =>
      var th := s.threads[t];
      assert ObjectsExist(th, |s.objects|);
      if th.executers != [] { assert th.executers[0] in th.executers; }
    case _ =>
  }

  lemma RunKeeps(s: State, t: Tid, addr: nat)
    requires Inv(s) && Enabled(s, Run(t, addr)) && Targets(s, Run(t, addr))
    ensures Inv(Apply(s, Run(t, addr)))
  {
    hide Local;
    hide Ready;
    hide RunTop;
    var th := s.threads[t];
    var o := Target(th);
    ReadyFromInv(s, t, o);
    RunLocal(th, s.objects[o], t, |s.objects|, addr);
    var (th', ob') := RunTop(th, t, s.objects[o], addr);
    LocalStepKeeps(s, t, th', o, ob');
  }

  // ---- Steps outside an activation ----

  /** A thread that gets new frames and timer entries, with no effect on counters and queues. */
  lemma NewFramesLocal(th: Thread, th': Thread, ob: Object, ob': Object, t: Tid, o: Obj, n: nat)
    requires Ready(th, ob, t, o, n) && MayCall(th) && ob' == ob.(ref := ob'.ref)
    requires forall k: Kind, x: Obj | !k.Ref? :: ThreadWeight(k, th', x) == ThreadWeight(k, th, x)
    requires forall x | x != o :: ThreadWeight(Ref, th', x) == ThreadWeight(Ref, th, x)
    requires ob'.ref - ob.ref == ThreadWeight(Ref, th', o) - ThreadWeight(Ref, th, o)
    requires forall i :: 0 <= i < |th'.stack| && th'.stack[i].Flush? ==> i < |th.stack| && th'.stack[i] == th.stack[i]
    requires Top(th') == Top(th) || Top(th') == Some(Task(o, Announce))
    requires StackOk(th') && ObjectsExist(th', n)
    ensures Local(th, th', ob, ob', t, o, n)
  {
    hide ThreadWeight;
    hide JQ.Inv;
    forall x: Obj | x != o ensures SameAt(th, th', x) {}
  }

  lemma CallStack(th: Thread, o: Obj, n: nat)
    requires StackOk(th) && MayCall(th) && ObjectsExist(th, n) && o < n
    ensures StackOk(Enter(th, Task(o, Announce))) && ObjectsExist(Enter(th, Task(o, Announce)), n)
  {
  }

  lemma CallLocal(th: Thread, ob: Object, t: Tid, o: Obj, n: nat)
    requires Ready(th, ob, t, o, n) && MayCall(th)
    ensures Local(th, Enter(th, Task(o, Announce)), ob, ob, t, o, n)
  {
    var th' := Enter(th, Task(o, Announce));
    CallStack(th, o, n);
    hide Ready;
    hide ThreadWeight;
    hide StackOk;
    hide ObjectsExist;
    hide Local;
    forall k, x ensures ThreadWeight(k, th', x) == ThreadWeight(k, th, x) { ThreadWeights(k, th, Task(o, Announce), x); }
    NewFramesLocal(th, th', ob, ob, t, o, n);
  }

  lemma CallKeeps(s: State, t: Tid, o: Obj)
    requires Inv(s) && Enabled(s, Call(t, o))
    ensures Inv(Apply(s, Call(t, o)))
  {
    ReadyFromInv(s, t, o);
    hide Inv;
    hide Ready;
    hide Local;
    CallLocal(s.threads[t], s.objects[o], t, o, |s.objects|);
    LocalStepKeeps(s, t, Enter(s.threads[t], Task(o, Announce)), o, s.objects[o]);
  }

  lemma SetTimerKeeps(s: State, t: Tid, o: Obj)
    requires Inv(s) && Enabled(s, SetTimer(t, o))
    ensures Inv(Apply(s, SetTimer(t, o)))
  {
    var th := s.threads[t];
    var th' := th.(timers := th.timers + [o]);
    ReadyFromInv(s, t, o);
    hide Inv;
    hide JQ.Inv;
    forall k, x ensures ThreadWeight(k, th', x) == ThreadWeight(k, th, x) + B(k.Ref? && x == o) {
      OccursAppend(th.timers, o, x);
    }
    NewFramesLocal(th, th', s.objects[o], AddRef(s.objects[o], 1), t, o, |s.objects|);
    LocalStepKeeps(s, t, th', o, AddRef(s.objects[o], 1));
  }

  function Fired(th: Thread, i: nat): Thread
    requires i < |th.timers|
  {
    var o := th.timers[i];
    Enter(Enter(th, TimerDone(o)), Task(o, Announce)).(timers := Remove(th.timers, i))
  }

  /** The timer entry's reference becomes the one released after DoTask. */
  lemma FiredWeights(th: Thread, i: nat, k: Kind, x: Obj)
    requires i < |th.timers|
    ensures ThreadWeight(k, Fired(th, i), x) == ThreadWeight(k, th, x)
  {
    var o := th.timers[i];
    ThreadWeights(k, th, TimerDone(o), x);
    ThreadWeights(k, Enter(th, TimerDone(o)), Task(o, Announce), x);
    OccursRemove(th.timers, i, x);
  }

  lemma FireKeeps(s: State, t: Tid, i: nat)
    requires Inv(s) && Enabled(s, Fire(t, i)) && Targets(s, Fire(t, i))
    ensures Inv(Apply(s, Fire(t, i)))
  {
    var th := s.threads[t];
    var o := th.timers[i];
    var th' := Fired(th, i);
    ReadyFromInv(s, t, o);
    hide Inv;
    hide JQ.Inv;
    forall k, x ensures ThreadWeight(k, th', x) == ThreadWeight(k, th, x) { FiredWeights(th, i, k, x); }
    OccursRemove(th.timers, i, o);
    NewFramesLocal(th, th', s.objects[o], s.objects[o], t, o, |s.objects|);
    LocalStepKeeps(s, t, th', o, s.objects[o]);
  }

  lemma HoldersChange(holders: map<nat, Obj>, c: nat, o: Obj, x: Obj)
    requires c !in holders
    ensures |HoldersOf(holders[c := o], x)| == |HoldersOf(holders, x)| + B(x == o)
  {
    assert HoldersOf(holders[c := o], x) == HoldersOf(holders, x) + (if x == o then {c} else {});
  }

  lemma RefStepKeeps(s: State, s': State, o: Obj, d: int)
    requires Inv(s) && o < |s.objects|
    requires s' == s.(holders := s'.holders, objects := s.objects[o := AddRef(s.objects[o], d)])
    requires forall x :: |HoldersOf(s'.holders, x)| == |HoldersOf(s.holders, x)| + if x == o then d else 0
    requires forall c :: c in s'.holders ==> s'.holders[c] < |s.objects|
    ensures Inv(s')
  {
    hide JQ.Inv;
    forall x | 0 <= x < |s'.objects| ensures ObjectOk(s', x) {
      assert ObjectOk(s, x);
      forall u | 0 <= u < |s.threads| ensures FramesOk(s'.objects[x], s.threads[u].stack, x) {
        assert FramesOk(s.objects[x], s.threads[u].stack, x);
      }
    }
  }

  /** Every step of every thread keeps the invariant. */
  lemma StepKeeps(s: State, step: Step)
    requires Inv(s) && Enabled(s, step)
    ensures Targets(s, step) && Inv(Apply(s, step))
  {
    TargetExists(s, step);
    match step
    case Call(t, o) => CallKeeps(s, t, o);
    case SetTimer(t, o) => SetTimerKeeps(s, t, o);
    case Fire(t, i) => FireKeeps(s, t, i);
    case Run(t, addr) => RunKeeps(s, t, addr);
    case Hold(c, o) =>
      forall x ensures |HoldersOf(s.holders[c := o], x)| == |HoldersOf(s.holders, x)| + B(x == o) {
        HoldersChange(s.holders, c, o, x);
      }
      RefStepKeeps(s, Apply(s, step), o, 1);
    case Drop(c) =>
      var o := s.holders[c];
      var rest := s.holders - {c};
      assert rest[c := o] == s.holders;
      forall x ensures |HoldersOf(s.holders, x)| == |HoldersOf(rest, x)| + B(x == o) {
        HoldersChange(rest, c, o, x);
      }
      RefStepKeeps(s, Apply(s, step), o, -1);
  }

  // ---- The counter protocol discharges the queue's single-consumer assumption ----

  /** Every step does to its object's queue what the queue allows: nothing, or
      one step, and a thread enters Pop only while no other thread is inside. */
  lemma RunRefinesQueue(th: Thread, ob: Object, t: Tid, n: nat, addr: nat)
    requires th.stack != [] && Ready(th, ob, t, Target(th), n) && JQ.Entry(addr) !in ob.queue.next
    ensures var q' := RunTop(th, t, ob, addr).1.queue; q' == ob.queue || JQ.Next(ob.queue, q')
  {
    hide JQ.Inv;
    hide JQ.Apply;
    var q := ob.queue;
    var o := Target(th);
    var top := th.stack[|th.stack|-1];
    var step :=
      match top
      case Task(_, PushExchange(_)) => Some(JQ.Exchange(t, addr))
      case Task(_, PushLink(_)) => Some(JQ.Finish(t))
      case Task(_, Claim) => Some(JQ.Begin(t))
      case Task(_, Drain) => Some(JQ.Begin(t))
      case Flush(_, Popping) => Some(JQ.Pop(t))
      case Flush(_, Deleting(job)) => Some(JQ.Delete(job))
      case Flush(_, Count) => Some(JQ.Begin(t))
      case _ => None;
    if top == Flush(o, Popping) { PopQueue(th, q, t, o); }
    OwnerBeginsAlone(th, ob, t, n);
    var q' := RunTop(th, t, ob, addr).1.queue;
    assert q' == q || (step.Some? && JQ.Enabled(q, step.value) && (step.value.Begin? ==> q.pops == map[])
                       && q' == JQ.Apply(q, step.value));
  }

  /** The thread's next access may be the first of a Pop on its target. */
  ghost predicate AboutToPop(th: Thread)
    requires th.stack != []
  {
    var top := th.stack[|th.stack|-1];
    (top.Task? && (top.pc.Claim? || (top.pc.Drain? && th.executers != []))) || (top.Flush? && top.fpc.Count?)
  }

  /** Whoever is about to call Pop owns the object. */
  lemma OwnerBeginsAlone(th: Thread, ob: Object, t: Tid, n: nat)
    requires th.stack != [] && Ready(th, ob, t, Target(th), n)
    ensures AboutToPop(th) ==> ob.queue.pops == map[]
  {
    hide JQ.Inv;
    var o := Target(th);
    StackWeightAt(Flushing, th.stack, |th.stack| - 1, o);
    StackWeightAt(Waiting, th.stack, |th.stack| - 1, o);
    if th.executers != [] { OccursFirst(th.executers, o); }
  }

  lemma StepRefinesQueue(s: State, step: Step, o: Obj)
    requires Inv(s) && Enabled(s, step) && Targets(s, step) && o < |s.objects|
    ensures var q, q' := s.objects[o].queue, Apply(s, step).objects[o].queue; q' == q || JQ.Next(q, q')
  {
    if step.Run? {
      var th := s.threads[step.t];
      ReadyFromInv(s, step.t, Target(th));
      hide Inv;
      hide Ready;
      hide RunTop;
      RunRefinesQueue(th, s.objects[Target(th)], step.t, |s.objects|, step.addr);
    }
  }

  // ---- Runs ----

  ghost predicate Init(s: State) {
    && s.holders == map[]
    && (forall o :: 0 <= o < |s.objects| ==> s.objects[o] == Object(0, 0, JQ.EMPTY, []))
    && (forall t :: 0 <= t < |s.threads| ==> s.threads[t] == Thread([], [], None, []))
  }

  ghost predicate Next(s: State, s': State) {
    exists step :: Enabled(s, step) && Targets(s, step) && s' == Apply(s, step)
  }

  ghost predicate NextAt(run: seq<State>, k: int) {
    0 <= k < |run| - 1 ==> Next(run[k], run[k+1])
  }

  ghost predicate IsRun(run: seq<State>) {
    |run| > 0 && Init(run[0]) && forall k :: NextAt(run, k)
  }

  lemma {:induction false} IdleThreadsWeighNothing(k: Kind, ths: seq<Thread>, o: Obj)
    requires forall t :: 0 <= t < |ths| ==> ths[t].stack == [] && ths[t].executers == []
    requires k.Ref? ==> forall t :: 0 <= t < |ths| ==> o !in ths[t].timers
    ensures Sum(k, ths, o) == 0
  {
    if ths != [] { IdleThreadsWeighNothing(k, ths[..|ths|-1], o); }
  }

  lemma InitInv(s: State)
    requires Init(s)
    ensures Inv(s)
  {
    JQ.EmptyInv();
    forall o | 0 <= o < |s.objects| ensures ObjectOk(s, o) {
      forall k ensures Sum(k, s.threads, o) == 0 { IdleThreadsWeighNothing(k, s.threads, o); }
    }
  }

  lemma {:induction false} RunInv(run: seq<State>, k: nat)
    requires IsRun(run) && k < |run|
    ensures Inv(run[k])
    ensures |run[k].objects| == |run[0].objects| && |run[k].threads| == |run[0].threads|
  {
    if k == 0 {
      InitInv(run[0]);
    } else {
      RunInv(run, k - 1);
      assert NextAt(run, k - 1);
      var step :| Enabled(run[k-1], step) && Targets(run[k-1], step) && run[k] == Apply(run[k-1], step);
      StepKeeps(run[k-1], step);
    }
  }

  lemma StepOfQueue(s: State, s': State, o: Obj)
    requires Inv(s) && Next(s, s') && o < |s.objects|
    ensures |s'.objects| == |s.objects|
    ensures var q, q' := s.objects[o].queue, s'.objects[o].queue; q' == q || JQ.Next(q, q')
    ensures s.objects[o].done <= s'.objects[o].done
  {
    var step :| Enabled(s, step) && Targets(s, step) && s' == Apply(s, step);
    hide JQ.Next;
    StepRefinesQueue(s, step, o);
    DoneGrows(s, step, o);
    hide Inv;
    hide RunTop;
  }

  function QueueOf(run: seq<State>, o: Obj): seq<JQ.Queue>
    requires forall k :: 0 <= k < |run| ==> o < |run[k].objects|
  {
    seq(|run|, k requires 0 <= k < |run| => run[k].objects[o].queue)
  }

  /** What a run of the dispatcher does to the queue of an object is a run of
      that queue with a single consumer at a time, so all that is proved about
      such runs holds here. */
  lemma RunOfQueue(run: seq<State>, o: Obj)
    requires IsRun(run) && o < |run[0].objects|
    ensures forall k :: 0 <= k < |run| ==> o < |run[k].objects|
    ensures JQ.IsRun(QueueOf(run, o))
  {
    hide JQ.Next;
    hide Next;
    hide Inv;
    forall k | 0 <= k < |run| ensures o < |run[k].objects| { RunInv(run, k); }
    var qs := QueueOf(run, o);
    forall k ensures JQ.NextAt(qs, k) {
      if 0 <= k < |qs| - 1 {
        RunInv(run, k);
        assert NextAt(run, k);
        StepOfQueue(run[k], run[k+1], o);
      }
    }
  }

  // ---- What holds on every run ----

  ghost predicate FlushAt(s: State, t: Tid, i: nat, o: Obj) {
    t < |s.threads| && i < |s.threads[t].stack| && s.threads[t].stack[i].Flush? && s.threads[t].stack[i].obj == o
  }

  /** mRemainTaskCount is the number of jobs announced but not yet exchanged in,
      queued, or being run, and it is positive exactly when the object has an
      owner, of which there is never more than one. */
  lemma CounterIsExact(run: seq<State>, k: nat, o: Obj)
    requires IsRun(run) && k < |run| && o < |run[k].objects|
    ensures var s := run[k]; var ob := s.objects[o]; var q := ob.queue;
      && ob.count == Sum(Announced, s.threads, o) + |JQ.Jobs(q.chain)| + Sum(Running, s.threads, o)
      && Sum(Flushing, s.threads, o) + Sum(Waiting, s.threads, o) == B(ob.count > 0)
      && Sum(Running, s.threads, o) <= Sum(Flushing, s.threads, o)
  {
    RunInv(run, k);
    assert ObjectOk(run[k], o);
    JQ.PoppedWerePushed(run[k].objects[o].queue);
    RunningIsFlushing(run[k].threads, o);
  }

  lemma {:induction false} RunningIsFlushing(ths: seq<Thread>, o: Obj)
    ensures Sum(Running, ths, o) <= Sum(Flushing, ths, o)
  {
    if ths != [] {
      RunningIsFlushing(ths[..|ths|-1], o);
      RunningStack(ths[|ths|-1].stack, o);
    }
  }

  lemma {:induction false} RunningStack(fs: seq<Frame>, o: Obj)
    ensures StackWeight(Running, fs, o) <= StackWeight(Flushing, fs, o)
  {
    if fs != [] { RunningStack(fs[..|fs|-1], o); }
  }

  /** At most one activation of Flush on an object exists in the whole system,
      and at most one thread is inside its Pop. */
  lemma OneFlusher(run: seq<State>, k: nat, o: Obj, t: Tid, i: nat, u: Tid, j: nat)
    requires IsRun(run) && k < |run| && o < |run[k].objects|
    requires FlushAt(run[k], t, i, o) && FlushAt(run[k], u, j, o)
    ensures t == u && i == j
    ensures JQ.SingleConsumer(run[k].objects[o].queue)
  {
    hide StackWeight;
    hide ObjectsExist;
    hide CountOk;
    hide RefOk;
    hide WorkOk;
    hide Placed;
    RunInv(run, k);
    var s := run[k];
    assert ObjectOk(s, o);
    QueueIsSingle(s.objects[o].queue);
    assert StackOk(s.threads[t]) && CountOk(s.objects[o], s.threads, o);
    hide Inv;
    hide ObjectOk;
    hide JQ.Inv;
    StackWeightAt(Flushing, s.threads[t].stack, i, o);
    if t != u { OthersHaveNoFlush(s.objects[o], s.threads, t, u, o); }
  }

  lemma QueueIsSingle(q: JQ.Queue)
    requires JQ.Inv(q)
    ensures JQ.SingleConsumer(q)
  {
  }

  /** A thread about to call Pop finds no other thread inside it. */
  lemma BeginsAlone(run: seq<State>, k: nat, t: Tid)
    requires IsRun(run) && k < |run| && t < |run[k].threads| && run[k].threads[t].stack != []
    requires AboutToPop(run[k].threads[t])
    ensures var o := Target(run[k].threads[t]); o < |run[k].objects| && run[k].objects[o].queue.pops == map[]
  {
    RunInv(run, k);
    hide Inv;
    hide Ready;
    hide AboutToPop;
    var s := run[k];
    var addr := FreshAddrExists(s, |s.objects|);
    TargetExists(s, Run(t, addr));
    ReadyFromInv(s, t, Target(s.threads[t]));
    OwnerBeginsAlone(s.threads[t], s.objects[Target(s.threads[t])], t, |s.objects|);
  }

  /** The jobs of one object run one at a time and in the order in which their
      exchanges on mHead happened: the jobs finished are a prefix of the jobs
      exchanged in, and a job being run is the next one. */
  lemma JobsRunInOrder(run: seq<State>, k: nat, o: Obj)
    requires IsRun(run) && k < |run| && o < |run[k].objects|
    ensures var ob := run[k].objects[o];
      && ob.done <= ob.queue.pushed
      && forall t: Tid, i: nat :: FlushAt(run[k], t, i, o) ==> RunsNextJob(ob, run[k].threads[t].stack[i].fpc)
  {
    RunInv(run, k);
    assert ObjectOk(run[k], o);
    hide Inv;
    InOrder(run[k], o);
  }

  ghost predicate RunsNextJob(ob: Object, pc: FlushPc) {
    pc.Exec? ==> |ob.done| < |ob.queue.pushed| && pc.job == ob.queue.pushed[|ob.done|]
  }

  lemma InOrder(s: State, o: Obj)
    requires o < |s.objects| && ObjectOk(s, o)
    ensures var ob := s.objects[o];
      && ob.done <= ob.queue.pushed
      && forall t: Tid, i: nat :: FlushAt(s, t, i, o) ==> RunsNextJob(ob, s.threads[t].stack[i].fpc)
  {
    var ob := s.objects[o];
    JQ.PoppedWerePushed(ob.queue);
    hide JQ.Inv;
    forall t: Tid, i: nat | FlushAt(s, t, i, o) ensures RunsNextJob(ob, s.threads[t].stack[i].fpc) {
      assert FramesOk(ob, s.threads[t].stack, o);
      var pc := s.threads[t].stack[i].fpc;
      if pc.Exec? { assert ob.queue.popped[|ob.done|] == pc.job; }
    }
    DoneWerePopped(s, o);
  }

  lemma DoneWerePopped(s: State, o: Obj)
    requires o < |s.objects| && ObjectOk(s, o)
    ensures s.objects[o].done <= s.objects[o].queue.popped
  {
    hide JQ.Inv;
    if Sum(Flushing, s.threads, o) > 0 {
      var t, i := FindFlush(s.threads, o);
      assert FramesOk(s.objects[o], s.threads[t].stack, o);
    }
  }

  lemma {:induction false} FindFlush(ths: seq<Thread>, o: Obj) returns (t: Tid, i: nat)
    requires Sum(Flushing, ths, o) > 0
    ensures t < |ths| && i < |ths[t].stack| && ths[t].stack[i].Flush? && ths[t].stack[i].obj == o
  {
    var n := |ths| - 1;
    if Sum(Flushing, ths[..n], o) > 0 {
      t, i := FindFlush(ths[..n], o);
    } else {
      t := n;
      i := FindFrame(ths[n].stack, o);
    }
  }

  lemma {:induction false} FindFrame(fs: seq<Frame>, o: Obj) returns (i: nat)
    requires StackWeight(Flushing, fs, o) > 0
    ensures i < |fs| && fs[i].Flush? && fs[i].obj == o
  {
    if FrameWeight(Flushing, fs[|fs|-1], o) > 0 { i := |fs| - 1; } else { i := FindFrame(fs[..|fs|-1], o); }
  }

  lemma DoneGrows(s: State, step: Step, o: Obj)
    requires Enabled(s, step) && Targets(s, step) && o < |s.objects|
    ensures s.objects[o].done <= Apply(s, step).objects[o].done
  {
    hide JQ.Apply;
  }

  lemma ObjectHistoryGrows(s: State, s': State, o: Obj)
    requires Inv(s) && Next(s, s') && o < |s.objects|
    ensures |s'.objects| == |s.objects|
    ensures s.objects[o].queue.pushed <= s'.objects[o].queue.pushed && s.objects[o].done <= s'.objects[o].done
  {
    assert ObjectOk(s, o) && JQ.Inv(s.objects[o].queue);
    hide Inv;
    hide ObjectOk;
    hide Next;
    hide JQ.Inv;
    hide JQ.Next;
    StepOfQueue(s, s', o);
    JQ.HistoryGrows(s.objects[o].queue, s'.objects[o].queue);
  }

  /** The order of the exchanges is never revised, and no finished job is forgotten. */
  lemma {:induction false} OrderIsStable(run: seq<State>, k: nat, l: nat, o: Obj)
    requires IsRun(run) && k <= l < |run| && o < |run[0].objects|
    ensures o < |run[k].objects| && o < |run[l].objects|
    ensures run[k].objects[o].queue.pushed <= run[l].objects[o].queue.pushed
    ensures run[k].objects[o].done <= run[l].objects[o].done
  {
    hide Inv;
    hide Next;
    RunInv(run, k);
    if k < l {
      OrderIsStable(run, k, l - 1, o);
      RunInv(run, l - 1);
      assert NextAt(run, l - 1);
      ObjectHistoryGrows(run[l-1], run[l], o);
    }
  }

  /** Flush never nests: a thread has at most one activation of Flush, with at
      most the DoTask that entered it below and one DoTask of its job above. */
  lemma FlushesNeverNest(run: seq<State>, k: nat, t: Tid)
    requires IsRun(run) && k < |run| && t < |run[k].threads|
    ensures var fs := run[k].threads[t].stack;
      && |fs| <= 4
      && forall i, j :: 0 <= i < j < |fs| ==> !(fs[i].Flush? && fs[j].Flush?)
  {
    RunInv(run, k);
  }

  /** No work is lost: once every thread has returned from its outermost
      DoTask, every counter is 0, every job exchanged in has been executed and
      deleted, every queue holds only its stub, and the thread-locals are clear. */
  lemma QuiescentMeansDone(run: seq<State>, k: nat)
    requires IsRun(run) && k < |run|
    requires forall t :: 0 <= t < |run[k].threads| ==> run[k].threads[t].stack == []
    ensures forall t :: 0 <= t < |run[k].threads| ==>
      run[k].threads[t].executers == [] && run[k].threads[t].current == None
    ensures forall o :: 0 <= o < |run[k].objects| ==> var ob := run[k].objects[o];
      && ob.count == 0 && ob.done == ob.queue.pushed
      && ob.queue.chain == [JQ.Stub] && ob.queue.next.Keys == {JQ.Stub}
  {
    RunInv(run, k);
    var s := run[k];
    forall t | 0 <= t < |s.threads| ensures s.threads[t].executers == [] && s.threads[t].current == None {
      assert StackOk(s.threads[t]);
    }
    forall o | 0 <= o < |s.objects|
      ensures var ob := s.objects[o];
        && ob.count == 0 && ob.done == ob.queue.pushed
        && ob.queue.chain == [JQ.Stub] && ob.queue.next.Keys == {JQ.Stub}
    {
      assert ObjectOk(s, o);
      IdleThreadsWeighNothing(Announced, s.threads, o);
      IdleThreadsWeighNothing(Running, s.threads, o);
      IdleThreadsWeighNothing(Flushing, s.threads, o);
      IdleThreadsWeighNothing(Waiting, s.threads, o);
      JQ.PoppedWerePushed(s.objects[o].queue);
      JQ.NoJobsMeansStub(s.objects[o].queue);
    }
  }

  /** While a counter is positive, some thread inside DoTask is responsible for the object. */
  lemma WorkHasAnOwner(run: seq<State>, k: nat, o: Obj)
    requires IsRun(run) && k < |run| && o < |run[k].objects| && run[k].objects[o].count > 0
    ensures exists t :: 0 <= t < |run[k].threads| && run[k].threads[t].stack != [] && Owns(run[k].threads[t], o)
  {
    RunInv(run, k);
    var s := run[k];
    assert ObjectOk(s, o);
    var t := FindOwner(s.threads, o);
    assert StackOk(s.threads[t]);
  }

  lemma {:induction false} FindOwner(ths: seq<Thread>, o: Obj) returns (t: Tid)
    requires Sum(Flushing, ths, o) + Sum(Waiting, ths, o) > 0
    ensures t < |ths| && Owns(ths[t], o)
  {
    var n := |ths| - 1;
    if Owns(ths[n], o) { t := n; } else { t := FindOwner(ths[..n], o); }
  }

  // ---- Why Flush may have to come round again ----

  /** Some thread has announced a job for the object and not finished pushing it. */
  ghost predicate PushUnderWay(s: State, o: Obj) {
    exists t: Tid, i: nat :: PushAt(s.threads, t, i, o)
  }

  ghost predicate PushAt(ths: seq<Thread>, t: Tid, i: nat, o: Obj) {
    && t < |ths| && i < |ths[t].stack| && ths[t].stack[i].Task? && ths[t].stack[i].obj == o
    && (ths[t].stack[i].pc.PushExchange? || ths[t].stack[i].pc.PushLink?)
  }

  lemma {:induction false} AnnouncedStack(fs: seq<Frame>, o: Obj) returns (i: nat)
    requires StackWeight(Announced, fs, o) > 0
    ensures i < |fs| && fs[i].Task? && fs[i].obj == o && fs[i].pc.PushExchange?
  {
    if FrameWeight(Announced, fs[|fs|-1], o) > 0 { i := |fs| - 1; } else { i := AnnouncedStack(fs[..|fs|-1], o); }
  }

  lemma {:induction false} AnnouncedIsPushing(ths: seq<Thread>, o: Obj) returns (t: Tid, i: nat)
    requires Sum(Announced, ths, o) > 0
    ensures PushAt(ths, t, i, o)
  {
    var n := |ths| - 1;
    if Sum(Announced, ths[..n], o) > 0 {
      t, i := AnnouncedIsPushing(ths[..n], o);
    } else {
      t := n;
      i := AnnouncedStack(ths[n].stack, o);
    }
  }

  /** While no push is under way, a thread inside Pop has a job to find. */
  lemma FlushFindsWork(run: seq<State>, k: nat, o: Obj, t: Tid)
    requires IsRun(run) && k < |run| && o < |run[k].objects| && t in run[k].objects[o].queue.pops
    requires !PushUnderWay(run[k], o)
    ensures JQ.Jobs(run[k].objects[o].queue.chain) != []
  {
    CounterIsExact(run, k, o);
    PopperFlushes(run, k, o, t);
    var ths := run[k].threads;
    if Sum(Announced, ths, o) > 0 {
      var u, i := AnnouncedIsPushing(ths, o);
    }
    hide Inv;
    PoppingIsNotRunning(run, k, o, t);
  }

  lemma PopperFlushes(run: seq<State>, k: nat, o: Obj, t: Tid)
    requires IsRun(run) && k < |run| && o < |run[k].objects| && t in run[k].objects[o].queue.pops
    ensures t < |run[k].threads| && Top(run[k].threads[t]) == Some(Flush(o, Popping))
  {
    RunInv(run, k);
    assert ObjectOk(run[k], o);
    hide JQ.Inv;
    assert Placed(run[k].objects[o].queue, o, t, TopOf(run[k].threads, t));
  }

  lemma PoppingIsNotRunning(run: seq<State>, k: nat, o: Obj, t: Tid)
    requires IsRun(run) && k < |run| && o < |run[k].objects| && t in run[k].objects[o].queue.pops
    ensures Sum(Running, run[k].threads, o) == 0 && run[k].objects[o].count > 0
  {
    PopperFlushes(run, k, o, t);
    CounterIsExact(run, k, o);
    RunInv(run, k);
    var ths := run[k].threads;
    assert StackOk(ths[t]);
    hide Inv;
    StackWeightAt(Flushing, ths[t].stack, |ths[t].stack| - 1, o);
    SumUpdate(Flushing, ths, t, ths[t], o);
    var blank := Thread([], [], None, []);
    SumUpdate(Flushing, ths, t, blank, o);
    SumUpdate(Running, ths, t, blank, o);
    RunningIsFlushing(ths[t := blank], o);
    PoppingStack(ths[t].stack, o);
  }

  /** A stack whose one Flush is popping weighs nothing as running. */
  lemma {:induction false} PoppingStack(fs: seq<Frame>, o: Obj)
    requires forall i :: 0 <= i < |fs| && fs[i].Flush? ==> fs[i].fpc == Popping
    ensures StackWeight(Running, fs, o) == 0
  {
    if fs != [] { PoppingStack(fs[..|fs|-1], o); }
  }

  /** Pop returns nothing to a Flush only if a push was under way during the
      call; so the loop of Flush waits for nothing but other threads' pushes. */
  lemma FlushWaitsOnlyForPushes(run: seq<State>, o: Obj, t: Tid, i: nat, j: nat)
    requires IsRun(run) && o < |run[0].objects|
    requires forall k :: 0 <= k < |run| ==> o < |run[k].objects|
    requires JQ.IsCall(QueueOf(run, o), t, i, j)
    requires JQ.Returns(QueueOf(run, o)[j-1], QueueOf(run, o)[j], t, None)
    ensures exists k :: i <= k <= j && PushUnderWay(run[k], o)
  {
    var qs := QueueOf(run, o);
    RunOfQueue(run, o);
    if forall k :: i <= k <= j ==> !PushUnderWay(run[k], o) {
      FlushFindsWork(run, i, o, t);
      forall k | i <= k <= j ensures JQ.Undisturbed(qs[k], t) {
        assert k == i || k == j || JQ.InCall(qs[k], t);
        OnlyPushesDisturb(run, k, o, t);
      }
      assert JQ.UndisturbedCall(qs, t, i, j);
      JQ.UndisturbedPopReturnsOldest(qs, t, i, j);
    }
  }

  lemma OnlyPushesDisturb(run: seq<State>, k: nat, o: Obj, t: Tid)
    requires IsRun(run) && k < |run| && o < |run[k].objects| && t in run[k].objects[o].queue.pops
    requires !PushUnderWay(run[k], o)
    ensures JQ.Undisturbed(run[k].objects[o].queue, t)
  {
    RunInv(run, k);
    var s := run[k];
    assert ObjectOk(s, o);
    var q := s.objects[o].queue;
    assert JQ.SingleConsumer(q);
    hide JQ.Inv;
    hide Inv;
    forall u | u in q.links ensures u == t {
      assert Placed(q, o, u, TopOf(s.threads, u));
      if u < |s.threads| && s.threads[u].stack != [] { assert !PushAt(s.threads, u, |s.threads[u].stack| - 1, o); }
    }
  }

  /** The reference count is exactly the outside holders, the timer entries and
      the references of dispatches under way; every release gives back one of
      them, so the value it finds is positive. */
  lemma RefCountIsExact(run: seq<State>, k: nat, o: Obj)
    requires IsRun(run) && k < |run| && o < |run[k].objects|
    ensures var s := run[k];
      && s.objects[o].ref == |HoldersOf(s.holders, o)| + Sum(Ref, s.threads, o)
      && (forall t :: 0 <= t < |s.threads| && Releases(s.threads[t], o) ==> s.objects[o].ref > 0)
      && ((exists c :: c in s.holders && s.holders[c] == o) ==> s.objects[o].ref > 0)
  {
    RunInv(run, k);
    var s := run[k];
    assert ObjectOk(s, o);
    hide Inv;
    hide ObjectOk;
    forall t: Tid | t < |s.threads| && Releases(s.threads[t], o) ensures Sum(Ref, s.threads, o) > 0 {
      ReleaseIsCounted(s.threads, t, o);
    }
    hide Sum;
    hide Releases;
    if c :| c in s.holders && s.holders[c] == o {
      assert c in HoldersOf(s.holders, o);
    }
  }

  lemma ReleaseIsCounted(ths: seq<Thread>, t: Tid, o: Obj)
    requires t < |ths| && Releases(ths[t], o)
    ensures Sum(Ref, ths, o) > 0
  {
    StackWeightAt(Ref, ths[t].stack, |ths[t].stack| - 1, o);
    SumUpdate(Ref, ths, t, ths[t], o);
  }

  /** The thread's next access is a ReleaseRefForThis on the object. */
  ghost predicate Releases(th: Thread, o: Obj) {
    Top(th) == Some(Task(o, Release)) || Top(th) == Some(TimerDone(o))
    || (Top(th).Some? && Top(th).value.Task? && Top(th).value.pc == Unref(o))
  }

  /** No queue ever touches a node that is not live, and no guard of a queue
      step ever blocks or misses: a thread inside DoTask can always go on. */
  lemma ThreadsNeverStick(run: seq<State>, k: nat, t: Tid)
    requires IsRun(run) && k < |run| && t < |run[k].threads| && run[k].threads[t].stack != []
    ensures exists addr :: Enabled(run[k], Run(t, addr)) && Targets(run[k], Run(t, addr))
    ensures forall o :: 0 <= o < |run[k].objects| ==> !run[k].objects[o].queue.fault
  {
    RunInv(run, k);
    var addr := FreshAddrExists(run[k], |run[k].objects|);
    TargetExists(run[k], Run(t, addr));
    forall o | 0 <= o < |run[k].objects| ensures !run[k].objects[o].queue.fault {
      assert ObjectOk(run[k], o);
    }
  }

  lemma {:induction false} Bound(nodes: set<JQ.Node>) returns (b: nat)
    ensures forall a: nat :: JQ.Entry(a) in nodes ==> a < b
  {
    if nodes == {} { b := 0; } else {
      var n :| n in nodes;
      b := Bound(nodes - {n});
      if n.Entry? && b <= n.addr { b := n.addr + 1; }
    }
  }

  lemma {:induction false} FreshAddrExists(s: State, n: nat) returns (addr: nat)
    requires n <= |s.objects|
    ensures forall o: nat, a: nat :: o < n && addr <= a ==> JQ.Entry(a) !in s.objects[o].queue.next
  {
    if n == 0 { addr := 0; } else {
      addr := FreshAddrExists(s, n - 1);
      var b := Bound(s.objects[n-1].queue.next.Keys);
      if addr < b { addr := b; }
    }
  }
}
