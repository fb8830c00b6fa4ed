/** What runs of the dispatcher do with the work submitted to it: nothing is
    dropped and nothing counted twice, and a thread that runs alone comes home. */
module DispatcherRuns {
  import opened Option
  import JQ = JobQueue
  import opened Dispatcher

  // ---- Runs together with their steps ----

  ghost predicate StepAt(run: seq<State>, steps: seq<Step>, k: int)
    requires |run| == |steps| + 1
  {
    0 <= k < |steps| ==>
      Enabled(run[k], steps[k]) && Targets(run[k], steps[k]) && run[k+1] == Apply(run[k], steps[k])
  }

  ghost predicate IsTrace(run: seq<State>, steps: seq<Step>) {
    |run| == |steps| + 1 && Init(run[0]) && forall k :: StepAt(run, steps, k)
  }

  lemma TraceIsRun(run: seq<State>, steps: seq<Step>)
    requires IsTrace(run, steps)
    ensures IsRun(run)
  {
    forall k ensures NextAt(run, k) { assert StepAt(run, steps, k); }
  }

  lemma OneMoreStep(run: seq<State>, steps: seq<Step>, step: Step)
    requires IsTrace(run, steps) && Enabled(run[|steps|], step) && Targets(run[|steps|], step)
    ensures IsTrace(run + [Apply(run[|steps|], step)], steps + [step])
  {
    hide Enabled;
    hide Targets;
    hide Apply;
    hide Init;
    forall k ensures StepAt(run + [Apply(run[|steps|], step)], steps + [step], k) { assert StepAt(run, steps, k); }
  }

  // ---- Nothing is dropped ----

  /** What is counted along a run, per object: calls of DoTask, from outside and
      by timer dispatches; timers set and dispatched; references taken and given back outside. */
  datatype Event = Submitted | TimerSet | TimerFired | Held | Dropped

  predicate Is(e: Event, s: State, step: Step, o: Obj)
    requires Enabled(s, step)
  {
    match (e, step)
    case (Submitted, Call(_, x)) => x == o
    case (Submitted, Fire(t, i)) => s.threads[t].timers[i] == o
    case (TimerSet, SetTimer(_, x)) => x == o
    case (TimerFired, Fire(t, i)) => s.threads[t].timers[i] == o
    case (Held, Hold(_, x)) => x == o
    case (Dropped, Drop(c)) => s.holders[c] == o
    case _ => false
  }

  /** How often it happened in the first k steps. */
  ghost function Times(e: Event, run: seq<State>, steps: seq<Step>, o: Obj, k: nat): nat
    requires |run| == |steps| + 1 && k <= |steps| && forall i :: StepAt(run, steps, i)
  {
    if k == 0 then 0
    else
      assert StepAt(run, steps, k - 1);
      Times(e, run, steps, o, k - 1) + B(Is(e, run[k-1], steps[k-1], o))
  }

  /** Inside DoTask on the object, before the exchange of its push. */
  ghost predicate IsSubmitting(top: Option<Frame>, o: Obj) {
    top.Some? && top.value.Task? && top.value.obj == o && (top.value.pc.Announce? || top.value.pc.PushExchange?)
  }

  ghost function Submitting(ths: seq<Thread>, o: Obj): set<Tid> {
    set t: Tid | t < |ths| && IsSubmitting(Top(ths[t]), o)
  }

  lemma SubmittingUpdate(ths: seq<Thread>, t: Tid, th: Thread, o: Obj)
    requires t < |ths|
    ensures |Submitting(ths[t := th], o)| ==
      |Submitting(ths, o)| - B(IsSubmitting(Top(ths[t]), o)) + B(IsSubmitting(Top(th), o))
  {
    hide IsSubmitting;
    hide Top;
    var rest := Submitting(ths, o) - {t};
    assert Submitting(ths, o) == rest + (if IsSubmitting(Top(ths[t]), o) then {t} else {});
    assert Submitting(ths[t := th], o) == rest + (if IsSubmitting(Top(th), o) then {t} else {});
  }

  /** The timer entries of all threads for the object. */
  ghost function Timers(ths: seq<Thread>, o: Obj): nat {
    if ths == [] then 0 else Timers(ths[..|ths|-1], o) + Occurs(ths[|ths|-1].timers, o)
  }

  lemma {:induction false} TimersUpdate(ths: seq<Thread>, t: Tid, th: Thread, o: Obj)
    requires t < |ths|
    ensures Timers(ths[t := th], o) == Timers(ths, o) - Occurs(ths[t].timers, o) + Occurs(th.timers, o)
  {
    var n := |ths| - 1;
    if t == n {
      assert ths[t := th][..n] == ths[..n];
    } else {
      TimersUpdate(ths[..n], t, th, o);
      assert ths[t := th][..n] == ths[..n][t := th];
    }
  }

  ghost predicate IsExchange(f: Frame) {
    f.Task? && f.pc.PushExchange?
  }

  /** Only the exchange of a push enters a job. */
  lemma RunPushes(th: Thread, ob: Object, t: Tid, n: nat, addr: nat)
    requires th.stack != [] && Ready(th, ob, t, Target(th), n) && JQ.Entry(addr) !in ob.queue.next
    ensures RunTop(th, t, ob, addr).1.queue.pushed ==
      ob.queue.pushed + (if IsExchange(th.stack[|th.stack|-1]) then [addr] else [])
  {
    hide JQ.Inv;
    hide JQ.Apply;
    hide ObjectsExist;
    hide FramesOk;
    hide StackOk;
    hide QueueStep;
    hide LocalQueue;
    match th.stack[|th.stack|-1] {
      case Flush(o, Popping) => PopQueue(th, ob.queue, t, o);
      case Task(o, PushExchange(first)) => ExchangeQueue(th, ob.queue, t, o, first, addr);
      case Task(o, PushLink(_)) => LinkEffects(ob, t);
      case _ => QueueStepsPushNothing(ob.queue, t);
    }
  }

  lemma RunTops(th: Thread, ob: Object, t: Tid, addr: nat, x: Obj)
    requires th.stack != [] && StackOk(th)
    ensures var th' := RunTop(th, t, ob, addr).0;
      var f := th.stack[|th.stack|-1];
      && th'.timers == th.timers
      && B(IsSubmitting(Top(th'), x)) == B(IsSubmitting(Top(th), x)) - B(IsExchange(f) && f.obj == x)
  {
    BeneathTop(th);
    hide StackOk;
    hide QueueStep;
    match th.stack[|th.stack|-1] {
      case Task(o, pc) => TaskTops(th, t, o, pc, ob, addr, x);
      case Flush(o, pc) => FlushTops(th, t, o, pc, ob, x);
      case TimerDone(_) =>
    }
  }

  lemma TaskTops(th: Thread, t: Tid, o: Obj, pc: TaskPc, ob: Object, addr: nat, x: Obj)
    requires Top(th) == Some(Task(o, pc)) && !IsSubmitting(Top(Return(th)), x)
    ensures var th' := TaskStep(th, t, o, pc, ob, addr).0;
      && th'.timers == th.timers
      && B(IsSubmitting(Top(th'), x)) == B(IsSubmitting(Top(th), x)) - B(pc.PushExchange? && o == x)
  {
    hide QueueStep;
  }

  lemma FlushTops(th: Thread, t: Tid, o: Obj, pc: FlushPc, ob: Object, x: Obj)
    requires Top(th) == Some(Flush(o, pc)) && !IsSubmitting(Top(Return(th)), x)
    ensures var th' := FlushStep(th, t, o, pc, ob).0;
      th'.timers == th.timers && !IsSubmitting(Top(th'), x)
  {
    hide QueueStep;
  }

  lemma QueueStepsPushNothing(q: JQ.Queue, t: Tid)
    ensures QueueStep(q, JQ.Begin(t)).pushed == q.pushed
    ensures forall a :: QueueStep(q, JQ.Delete(a)).pushed == q.pushed
  {
  }

  /** One step changes what is submitted, set and held by exactly what it does. */
  ghost predicate StepAccounts(s: State, step: Step, s': State, o: Obj)
    requires Enabled(s, step) && o < |s.objects| == |s'.objects|
  {
    && |Submitting(s'.threads, o)| + |s'.objects[o].queue.pushed| ==
         |Submitting(s.threads, o)| + |s.objects[o].queue.pushed| + B(Is(Submitted, s, step, o))
    && Timers(s'.threads, o) + B(Is(TimerFired, s, step, o)) == Timers(s.threads, o) + B(Is(TimerSet, s, step, o))
    && |HoldersOf(s'.holders, o)| + B(Is(Dropped, s, step, o)) == |HoldersOf(s.holders, o)| + B(Is(Held, s, step, o))
  }

  lemma RunAccounts(s: State, t: Tid, addr: nat, o: Obj)
    requires Inv(s) && Enabled(s, Run(t, addr)) && Targets(s, Run(t, addr)) && o < |s.objects|
    ensures StepAccounts(s, Run(t, addr), Apply(s, Run(t, addr)), o)
  {
    hide Ready;
    hide StackOk;
    hide Target;
    hide RunTop;
    hide IsSubmitting;
    hide HoldersOf;
    hide Submitting;
    hide Timers;
    hide ObjectOk;
    hide ObjectsExist;
    var th := s.threads[t];
    var x := Target(th);
    ReadyFromInv(s, t, x);
    assert StackOk(th);
    hide Inv;
    RunPushes(th, s.objects[x], t, |s.objects|, addr);
    RunTops(th, s.objects[x], t, addr, o);
    var th' := RunTop(th, t, s.objects[x], addr).0;
    SubmittingUpdate(s.threads, t, th', o);
    TimersUpdate(s.threads, t, th', o);
    ExchangeTargetsItsObject(th);
  }

  lemma ExchangeTargetsItsObject(th: Thread)
    requires th.stack != []
    ensures var f := th.stack[|th.stack|-1]; IsExchange(f) ==> Target(th) == f.obj
  {
  }

  lemma CallAccounts(s: State, t: Tid, x: Obj, o: Obj)
    requires Enabled(s, Call(t, x)) && o < |s.objects|
    ensures StepAccounts(s, Call(t, x), Apply(s, Call(t, x)), o)
  {
    hide HoldersOf;
    hide Submitting;
    hide Timers;
    var th' := Enter(s.threads[t], Task(x, Announce));
    SubmittingUpdate(s.threads, t, th', o);
    TimersUpdate(s.threads, t, th', o);
  }

  lemma SetTimerAccounts(s: State, t: Tid, x: Obj, o: Obj)
    requires Enabled(s, SetTimer(t, x)) && o < |s.objects|
    ensures StepAccounts(s, SetTimer(t, x), Apply(s, SetTimer(t, x)), o)
  {
    hide HoldersOf;
    hide Submitting;
    hide Timers;
    var th := s.threads[t];
    var th' := th.(timers := th.timers + [x]);
    SubmittingUpdate(s.threads, t, th', o);
    TimersUpdate(s.threads, t, th', o);
    OccursAppend(th.timers, x, o);
    hide Occurs;
  }

  lemma FireAccounts(s: State, t: Tid, i: nat, o: Obj)
    requires Enabled(s, Fire(t, i)) && Targets(s, Fire(t, i)) && o < |s.objects|
    ensures StepAccounts(s, Fire(t, i), Apply(s, Fire(t, i)), o)
  {
    hide HoldersOf;
    hide Submitting;
    hide Timers;
    var th := s.threads[t];
    var th' := Fired(th, i);
    SubmittingUpdate(s.threads, t, th', o);
    TimersUpdate(s.threads, t, th', o);
    OccursRemove(th.timers, i, o);
    hide Occurs;
  }

  lemma HolderAccounts(s: State, step: Step, o: Obj)
    requires Enabled(s, step) && Targets(s, step) && o < |s.objects| && (step.Hold? || step.Drop?)
    ensures StepAccounts(s, step, Apply(s, step), o)
  {
    match step {
      case Hold(c, x) => HoldersChange(s.holders, c, x, o);
      case Drop(c) =>
        var rest := s.holders - {c};
        assert rest[c := s.holders[c]] == s.holders;
        HoldersChange(rest, c, s.holders[c], o);
    }
  }

  lemma StepIsAccounted(s: State, step: Step, o: Obj)
    requires Inv(s) && Enabled(s, step) && Targets(s, step) && o < |s.objects|
    ensures |Apply(s, step).objects| == |s.objects| && StepAccounts(s, step, Apply(s, step), o)
  {
    hide Inv;
    hide StepAccounts;
    match step {
      case Run(t, addr) => RunAccounts(s, t, addr, o);
      case Hold(_, _) => HolderAccounts(s, step, o);
      case Drop(_) => HolderAccounts(s, step, o);
      case Call(t, x) => CallAccounts(s, t, x, o);
      case SetTimer(t, x) => SetTimerAccounts(s, t, x, o);
      case Fire(t, i) => FireAccounts(s, t, i, o);
    }
  }

  /** On every run, the calls of DoTask and the timer dispatches for an object
      are those that have not made their exchange yet and the jobs exchanged
      in; the timers set are those dispatched and those still in a queue; and the
      outside references are those taken and not given back. */
  lemma {:induction false} NothingIsDropped(run: seq<State>, steps: seq<Step>, k: nat, o: Obj)
    requires IsTrace(run, steps) && k <= |steps| && o < |run[0].objects|
    ensures o < |run[k].objects|
    ensures var s := run[k];
      && Times(Submitted, run, steps, o, k) == |Submitting(s.threads, o)| + |s.objects[o].queue.pushed|
      && Times(TimerSet, run, steps, o, k) == Times(TimerFired, run, steps, o, k) + Timers(s.threads, o)
      && Times(Held, run, steps, o, k) == Times(Dropped, run, steps, o, k) + |HoldersOf(s.holders, o)|
  {
    TraceIsRun(run, steps);
    if k == 0 {
      NothingAtFirst(run[0], o);
    } else {
      NothingIsDropped(run, steps, k - 1, o);
      RunInv(run, k - 1);
      assert StepAt(run, steps, k - 1);
      hide Inv;
      hide Submitting;
      hide HoldersOf;
      StepIsAccounted(run[k-1], steps[k-1], o);
    }
  }

  lemma NothingAtFirst(s: State, o: Obj)
    requires Init(s) && o < |s.objects|
    ensures Submitting(s.threads, o) == {} && s.objects[o].queue.pushed == []
    ensures Timers(s.threads, o) == 0 && HoldersOf(s.holders, o) == {}
  {
    NoTimers(s.threads, o);
  }

  lemma {:induction false} NoTimers(ths: seq<Thread>, o: Obj)
    requires forall t :: 0 <= t < |ths| ==> ths[t].timers == []
    ensures Timers(ths, o) == 0
  {
    if ths != [] { NoTimers(ths[..|ths|-1], o); }
  }

  ghost predicate AtHome(s: State, t: Tid) {
    t < |s.threads| && s.threads[t].stack == []
  }

  ghost predicate AllAtHome(s: State) {
    forall t: Tid :: t < |s.threads| ==> AtHome(s, t)
  }

  /** Once every thread has come home, each object has run as many jobs as
      there were calls of DoTask and timer dispatches for it. */
  lemma AtRestAllIsDone(run: seq<State>, steps: seq<Step>, k: nat, o: Obj)
    requires IsTrace(run, steps) && k <= |steps| && o < |run[0].objects|
    requires AllAtHome(run[k])
    ensures o < |run[k].objects| && |run[k].objects[o].done| == Times(Submitted, run, steps, o, k)
  {
    TraceIsRun(run, steps);
    NothingIsDropped(run, steps, k, o);
    forall t: Tid | t < |run[k].threads| ensures run[k].threads[t].stack == [] { assert AtHome(run[k], t); }
    QuiescentMeansDone(run, k);
    hide IsRun;
    assert Submitting(run[k].threads, o) == {};
  }

  // ---- A thread that runs alone comes home ----

  /** What an activation still has to do, apart from the jobs and the objects that wait for it. */
  function FrameRank(f: Frame): nat {
    match f
    case TimerDone(_) => 1
    case Flush(_, Count) => 1
    case Flush(_, Deleting(_)) => 2
    case Flush(_, _) => 3
    case Task(_, Release) => 1
    case Task(_, Drain) => 2
    case Task(_, Unref(_)) => 3
    case Task(_, Claim) => 17
    case Task(_, TakeRef) => 18
    case Task(_, PushLink(_)) => 19
    case Task(_, PushExchange(_)) => 20
    case Task(_, Announce) => 41
  }

  function StackRank(fs: seq<Frame>): nat {
    if fs == [] then 0 else StackRank(fs[..|fs|-1]) + FrameRank(fs[|fs|-1])
  }

  function PopRank(top: Option<Frame>, q: JQ.Queue, t: Tid): nat {
    if top.Some? && top.value.Flush? && top.value.fpc.Popping? && t in q.pops then JQ.AccessesLeft(q, q.pops[t]) else 0
  }

  function ThreadRank(th: Thread, q: JQ.Queue, t: Tid): nat {
    StackRank(th.stack) + 15 * |th.executers| + PopRank(Top(th), q, t)
  }

  /** The jobs of all objects. */
  function Total(obs: seq<Object>): int {
    if obs == [] then 0 else Total(obs[..|obs|-1]) + obs[|obs|-1].count
  }

  /** A bound on the accesses a thread makes alone before it comes home. */
  function Ahead(s: State, t: Tid): int
    requires t < |s.threads|
  {
    var th := s.threads[t];
    var o := if th.stack == [] then 0 else Target(th);
    20 * Total(s.objects) + ThreadRank(th, if o < |s.objects| then s.objects[o].queue else JQ.EMPTY, t)
  }

  lemma {:induction false} TotalUpdate(obs: seq<Object>, o: Obj, ob: Object)
    requires o < |obs|
    ensures Total(obs[o := ob]) == Total(obs) - obs[o].count + ob.count
  {
    var n := |obs| - 1;
    if o == n {
      assert obs[o := ob][..n] == obs[..n];
    } else {
      TotalUpdate(obs[..n], o, ob);
      assert obs[o := ob][..n] == obs[..n][o := ob];
    }
  }

  lemma StackRanks(th: Thread, f: Frame)
    ensures StackRank(Enter(th, f).stack) == StackRank(th.stack) + FrameRank(f)
    ensures th.stack != [] ==>
      var top := th.stack[|th.stack|-1];
      && StackRank(Return(th).stack) == StackRank(th.stack) - FrameRank(top)
      && StackRank(ReplaceTop(th, f).stack) == StackRank(th.stack) - FrameRank(top) + FrameRank(f)
  {
    assert Enter(th, f).stack[..|th.stack|] == th.stack;
    if th.stack != [] {
      var rest := th.stack[..|th.stack|-1];
      assert ReplaceTop(th, f).stack[..|rest|] == rest;
    }
  }

  /** Whoever enters the loop of Pop has the whole of it ahead. */
  lemma BeginRank(q: JQ.Queue, t: Tid, o: Obj)
    requires t !in q.pops && t !in q.links
    ensures PopRank(Some(Flush(o, Popping)), QueueStep(q, JQ.Begin(t)), t) == 10
  {
  }

  ghost predicate IsPopping(f: Option<Frame>) {
    f.Some? && f.value.Flush? && f.value.fpc.Popping?
  }

  /** What replacing or removing the innermost frame changes, when it was not inside Pop. */
  lemma ChangeRank(th: Thread, g: Option<Frame>, q: JQ.Queue, q': JQ.Queue, t: Tid)
    requires th.stack != [] && StackOk(th) && !IsPopping(Top(th))
    ensures ThreadRank(Change(th, g), q', t) == ThreadRank(th, q, t) - FrameRank(th.stack[|th.stack|-1])
      + (if g.Some? then FrameRank(g.value) + PopRank(g, q', t) else 0)
  {
    BeneathTop(th);
    StackRanks(th, if g.Some? then g.value else th.stack[|th.stack|-1]);
    hide StackRank;
    hide FrameRank;
    hide StackOk;
    hide JQ.AccessesLeft;
  }

  /** The same when the thread moves on and enters Flush. */
  lemma EnterRank(th: Thread, f: Frame, o: Obj, q: JQ.Queue, t: Tid)
    requires th.stack != [] && !IsPopping(Top(th)) && t !in q.pops && t !in q.links
    ensures ThreadRank(Enter(ReplaceTop(th, f), Flush(o, Popping)), QueueStep(q, JQ.Begin(t)), t) ==
      ThreadRank(th, q, t) - FrameRank(th.stack[|th.stack|-1]) + FrameRank(f) + 13
  {
    BeginRank(q, t, o);
    StackRanks(th, f);
    StackRanks(ReplaceTop(th, f), Flush(o, Popping));
    hide StackRank;
    hide QueueStep;
    hide JQ.AccessesLeft;
  }

  lemma OtherFieldsRank(th: Thread, current: Option<Obj>, executers: seq<Obj>, q: JQ.Queue, t: Tid)
    ensures ThreadRank(th.(current := current, executers := executers), q, t) ==
      ThreadRank(th, q, t) + 15 * (|executers| - |th.executers|)
  {
    hide PopRank;
    hide StackRank;
  }

  lemma ClaimRank(th: Thread, t: Tid, o: Obj, ob: Object, addr: nat)
    requires Top(th) == Some(Task(o, Claim)) && StackOk(th) && t !in ob.queue.pops && t !in ob.queue.links
    ensures var (th', ob') := TaskStep(th, t, o, Claim, ob, addr);
      ob'.count == ob.count && ThreadRank(th', ob'.queue, t) < ThreadRank(th, ob.queue, t)
  {
    hide StackOk;
    hide ThreadRank;
    hide QueueStep;
    if th.current.Some? {
      ChangeRank(th, None, ob.queue, ob.queue, t);
      OtherFieldsRank(Return(th), th.current, th.executers + [o], ob.queue, t);
    } else {
      EnterRank(th, Task(o, Drain), o, ob.queue, t);
      OtherFieldsRank(Enter(ReplaceTop(th, Task(o, Drain)), Flush(o, Popping)), Some(o), th.executers,
                      QueueStep(ob.queue, JQ.Begin(t)), t);
    }
    hide ThreadRank;
  }

  lemma DrainRank(th: Thread, t: Tid, o: Obj, ob: Object, addr: nat)
    requires Top(th) == Some(Task(o, Drain)) && StackOk(th)
    requires th.executers != [] ==> t !in ob.queue.pops && t !in ob.queue.links
    ensures var (th', ob') := TaskStep(th, t, o, Drain, ob, addr);
      ob'.count == ob.count && ThreadRank(th', ob'.queue, t) < ThreadRank(th, ob.queue, t)
  {
    hide StackOk;
    hide ThreadRank;
    hide QueueStep;
    if th.executers == [] {
      ChangeRank(th, Some(Task(o, Release)), ob.queue, ob.queue, t);
      OtherFieldsRank(ReplaceTop(th, Task(o, Release)), None, th.executers, ob.queue, t);
    } else {
      var d := th.executers[0];
      EnterRank(th, Task(o, Unref(d)), d, ob.queue, t);
      OtherFieldsRank(Enter(ReplaceTop(th, Task(o, Unref(d))), Flush(d, Popping)), th.current, th.executers[1..],
                      QueueStep(ob.queue, JQ.Begin(t)), t);
    }
    hide ThreadRank;
  }

  /** The frame that takes the place of this one, for the accesses of DoTask that enter no Flush. */
  function AfterTask(o: Obj, pc: TaskPc, count: int): Option<Frame> {
    match pc
    case Announce => Some(Task(o, PushExchange(count == 0)))
    case PushExchange(first) => Some(Task(o, PushLink(first)))
    case PushLink(first) => if first then Some(Task(o, TakeRef)) else None
    case TakeRef => Some(Task(o, Claim))
    case Unref(_) => Some(Task(o, Drain))
    case _ => None
  }

  lemma AfterTaskIs(th: Thread, t: Tid, o: Obj, pc: TaskPc, ob: Object, addr: nat)
    requires Top(th) == Some(Task(o, pc)) && !pc.Claim? && !pc.Drain?
    ensures var (th', ob') := TaskStep(th, t, o, pc, ob, addr);
      && th' == Change(th, AfterTask(o, pc, ob.count)) && ob'.count == ob.count + B(pc.Announce?)
  {
    hide QueueStep;
  }

  lemma TaskRank(th: Thread, t: Tid, o: Obj, pc: TaskPc, ob: Object, addr: nat)
    requires Top(th) == Some(Task(o, pc)) && StackOk(th)
    requires AboutToPop(th) ==> t !in ob.queue.pops && t !in ob.queue.links
    ensures var (th', ob') := TaskStep(th, t, o, pc, ob, addr);
      20 * ob'.count + ThreadRank(th', ob'.queue, t) < 20 * ob.count + ThreadRank(th, ob.queue, t)
  {
    hide StackOk;
    hide ThreadRank;
    hide QueueStep;
    if pc.Claim? {
      ClaimRank(th, t, o, ob, addr);
    } else if pc.Drain? {
      DrainRank(th, t, o, ob, addr);
    } else {
      AfterTaskIs(th, t, o, pc, ob, addr);
      ChangeRank(th, AfterTask(o, pc, ob.count), ob.queue, TaskStep(th, t, o, pc, ob, addr).1.queue, t);
      hide TaskStep;
    }
  }

  lemma CountRank(th: Thread, t: Tid, o: Obj, ob: Object)
    requires Top(th) == Some(Flush(o, Count)) && StackOk(th) && Placed(ob.queue, o, t, Top(th))
    ensures var (th', ob') := FlushStep(th, t, o, Count, ob);
      20 * ob'.count + ThreadRank(th', ob'.queue, t) < 20 * ob.count + ThreadRank(th, ob.queue, t)
  {
    hide StackOk;
    hide ThreadRank;
    hide QueueStep;
    BeginRank(ob.queue, t, o);
    if ob.count == 1 {
      ChangeRank(th, None, ob.queue, ob.queue, t);
    } else {
      ChangeRank(th, Some(Flush(o, Popping)), ob.queue, QueueStep(ob.queue, JQ.Begin(t)), t);
    }
  }

  /** Once round the loop of Flush finishes a job, if its Pop has one to find. */
  lemma FlushRank(th: Thread, t: Tid, o: Obj, pc: FlushPc, ob: Object)
    requires Top(th) == Some(Flush(o, pc)) && StackOk(th) && Placed(ob.queue, o, t, Top(th)) && JQ.Inv(ob.queue)
    requires pc.Popping? ==> JQ.Undisturbed(ob.queue, t) && JQ.Jobs(ob.queue.chain) != []
    ensures var (th', ob') := FlushStep(th, t, o, pc, ob);
      20 * ob'.count + ThreadRank(th', ob'.queue, t) < 20 * ob.count + ThreadRank(th, ob.queue, t)
  {
    hide JQ.Inv;
    hide StackOk;
    hide ThreadRank;
    hide QueueStep;
    match pc {
      case Popping => PoppingRank(th, t, o, ob);
      case Exec(job) => ChangeRank(th, Some(Flush(o, Deleting(job))), ob.queue, ob.queue, t);
      case Deleting(job) => ChangeRank(th, Some(Flush(o, Count)), ob.queue, QueueStep(ob.queue, JQ.Delete(job)), t);
      case Count => CountRank(th, t, o, ob);
    }
  }

  lemma PoppingRank(th: Thread, t: Tid, o: Obj, ob: Object)
    requires Top(th) == Some(Flush(o, Popping)) && Placed(ob.queue, o, t, Top(th)) && JQ.Inv(ob.queue)
    requires JQ.Undisturbed(ob.queue, t) && JQ.Jobs(ob.queue.chain) != []
    ensures var (th', ob') := FlushStep(th, t, o, Popping, ob);
      ob'.count == ob.count && ThreadRank(th', ob'.queue, t) < ThreadRank(th, ob.queue, t)
  {
    hide JQ.Inv;
    hide JQ.PopStep;
    hide JQ.AccessesLeft;
    hide StackRank;
    PopQueue(th, ob.queue, t, o);
    JQ.PopComesToAnEnd(ob.queue, t);
    var q' := JQ.PopStep(ob.queue, t);
    if t !in q'.pops { StackRanks(th, Flush(o, Exec(q'.popped[|q'.popped|-1]))); }
    hide StackRank;
  }

  lemma RunRank(th: Thread, t: Tid, ob: Object, n: nat, addr: nat)
    requires th.stack != [] && Ready(th, ob, t, Target(th), n)
    requires IsPopping(Top(th)) ==> JQ.Undisturbed(ob.queue, t) && JQ.Jobs(ob.queue.chain) != []
    ensures var (th', ob') := RunTop(th, t, ob, addr);
      20 * ob'.count + ThreadRank(th', ob'.queue, t) < 20 * ob.count + ThreadRank(th, ob.queue, t)
  {
    hide JQ.Inv;
    hide FramesOk;
    hide ObjectsExist;
    hide ThreadWeight;
    hide StackOk;
    hide TaskStep;
    hide FlushStep;
    hide ThreadRank;
    match th.stack[|th.stack|-1] {
      case Task(o, pc) =>
        assert AboutToPop(th) ==> t !in ob.queue.pops && t !in ob.queue.links;
        TaskRank(th, t, o, pc, ob, addr);
      case Flush(o, pc) => FlushRank(th, t, o, pc, ob);
      case TimerDone(_) => ChangeRank(th, None, ob.queue, ob.queue, t);
    }
    hide ThreadRank;
  }

  /** No other thread is between announcing a job and finishing its push. */
  ghost predicate NoOtherPush(ths: seq<Thread>, t: Tid) {
    forall u: Tid, i: nat, o: Obj :: PushAt(ths, u, i, o) ==> u == t
  }

  lemma NotPoppingRank(th: Thread, q: JQ.Queue, q': JQ.Queue, t: Tid)
    requires !IsPopping(Top(th))
    ensures ThreadRank(th, q, t) == ThreadRank(th, q', t)
  {
  }

  lemma PoppingIsAtTarget(th: Thread, t: Tid, ob: Object, addr: nat)
    requires th.stack != [] && StackOk(th)
    ensures var th' := RunTop(th, t, ob, addr).0; IsPopping(Top(th')) ==> Target(th') == Target(th)
  {
    BeneathTop(th);
    hide StackOk;
    hide QueueStep;
  }

  lemma PopperHasWork(run: seq<State>, t: Tid)
    requires IsRun(run) && t < |run[|run|-1].threads| && NoOtherPush(run[|run|-1].threads, t)
    requires IsPopping(Top(run[|run|-1].threads[t]))
    ensures var s := run[|run|-1];
      var o := Target(s.threads[t]);
      && o < |s.objects| && JQ.Undisturbed(s.objects[o].queue, t) && JQ.Jobs(s.objects[o].queue.chain) != []
  {
    var k := |run| - 1;
    var s := run[k];
    var o := Target(s.threads[t]);
    RunInv(run, k);
    assert StackOk(s.threads[t]);
    assert ObjectsExist(s.threads[t], |s.objects|);
    assert ObjectOk(s, o);
    hide JQ.Inv;
    assert Placed(s.objects[o].queue, o, t, TopOf(s.threads, t));
    assert !PushUnderWay(s, o);
    hide Inv;
    FlushFindsWork(run, k, o, t);
    OnlyPushesDisturb(run, k, o, t);
  }

  /** Each access of a thread brings it nearer to the end of its outermost
      call, while no other thread is in the middle of a push. */
  lemma RunComesNearer(run: seq<State>, t: Tid, addr: nat)
    requires IsRun(run) && NoOtherPush(run[|run|-1].threads, t) && Enabled(run[|run|-1], Run(t, addr))
    ensures var s := run[|run|-1];
      && Targets(s, Run(t, addr))
      && var s' := Apply(s, Run(t, addr));
        && |s'.threads| == |s.threads| && NoOtherPush(s'.threads, t) && Ahead(s', t) < Ahead(s, t)
        && forall u :: 0 <= u < |s.threads| && u != t ==> s'.threads[u] == s.threads[u]
  {
    hide StackOk;
    hide Ready;
    hide RunTop;
    hide ThreadRank;
    hide Total;
    hide ObjectOk;
    hide ObjectsExist;
    var s := run[|run|-1];
    var th := s.threads[t];
    var o := Target(th);
    RunInv(run, |run| - 1);
    TargetExists(s, Run(t, addr));
    ReadyFromInv(s, t, o);
    assert StackOk(th);
    hide Inv;
    if IsPopping(Top(th)) { PopperHasWork(run, t); }
    RunRank(th, t, s.objects[o], |s.objects|, addr);
    var (th', ob') := RunTop(th, t, s.objects[o], addr);
    TotalUpdate(s.objects, o, ob');
    PoppingIsAtTarget(th, t, s.objects[o], addr);
    var s' := Apply(s, Run(t, addr));
    if !IsPopping(Top(th')) {
      forall q ensures ThreadRank(th', q, t) == ThreadRank(th', ob'.queue, t) { NotPoppingRank(th', q, ob'.queue, t); }
    }
    forall u: Tid, i: nat, x: Obj ensures PushAt(s'.threads, u, i, x) ==> u == t {
      assert u != t ==> (PushAt(s'.threads, u, i, x) <==> PushAt(s.threads, u, i, x));
    }
  }

  lemma {:induction false} TotalIsNat(obs: seq<Object>)
    requires forall o :: 0 <= o < |obs| ==> obs[o].count >= 0
    ensures Total(obs) >= 0
  {
    if obs != [] { TotalIsNat(obs[..|obs|-1]); }
  }

  lemma AheadIsNat(run: seq<State>, t: Tid)
    requires IsRun(run) && t < |run[|run|-1].threads|
    ensures Ahead(run[|run|-1], t) >= 0
  {
    var s := run[|run|-1];
    forall o | 0 <= o < |s.objects| ensures s.objects[o].count >= 0 { CounterIsExact(run, |run| - 1, o); }
    TotalIsNat(s.objects);
  }

  // ---- Solo runs ----

  /** From the given step on, only thread t makes accesses, inside its outermost call. */
  ghost predicate IsSolo(steps: seq<Step>, from: nat, t: Tid) {
    forall k :: from <= k < |steps| ==> steps[k].Run? && steps[k].t == t
  }

  /** A thread that runs alone, while no other is in the middle of a push, makes
      at most so many accesses. */
  lemma {:induction false} SoloRunsAreBounded(run: seq<State>, steps: seq<Step>, from: nat, k: nat, t: Tid)
    requires IsTrace(run, steps) && from <= k <= |steps| && IsSolo(steps, from, t)
    requires t < |run[from].threads| && NoOtherPush(run[from].threads, t)
    ensures |run[k].threads| == |run[from].threads| && NoOtherPush(run[k].threads, t)
    ensures Ahead(run[k], t) + (k - from) <= Ahead(run[from], t)
    ensures forall u :: 0 <= u < |run[from].threads| && u != t ==> run[k].threads[u] == run[from].threads[u]
    decreases k
  {
    if k > from {
      hide Ahead;
      SoloRunsAreBounded(run, steps, from, k - 1, t);
      TraceIsRun(run, steps);
      hide Inv;
      var before := run[..k];
      assert IsRun(before) by { forall i ensures NextAt(before, i) { assert NextAt(run, i); } }
      assert StepAt(run, steps, k - 1);
      RunComesNearer(before, t, steps[k-1].addr);
    }
  }

  /** Such a thread does come home. */
  lemma {:induction false} ComesHome(run: seq<State>, steps: seq<Step>, t: Tid)
      returns (run': seq<State>, steps': seq<Step>)
    requires IsTrace(run, steps) && t < |run[|steps|].threads| && NoOtherPush(run[|steps|].threads, t)
    ensures IsTrace(run', steps') && run <= run' && steps <= steps' && IsSolo(steps', |steps|, t)
    ensures AtHome(run'[|steps'|], t)
    ensures |run'[|steps'|].threads| == |run[|steps|].threads|
    ensures forall u :: 0 <= u < |run[|steps|].threads| && u != t ==> run'[|steps'|].threads[u] == run[|steps|].threads[u]
    decreases Ahead(run[|steps|], t)
  {
    var s := run[|steps|];
    if s.threads[t].stack == [] {
      run', steps' := run, steps;
    } else {
      TraceIsRun(run, steps);
      AheadIsNat(run, t);
      ThreadsNeverStick(run, |steps|, t);
      var addr :| Enabled(s, Run(t, addr)) && Targets(s, Run(t, addr));
      RunComesNearer(run, t, addr);
      var s' := Apply(s, Run(t, addr));
      OneMoreStep(run, steps, Run(t, addr));
      hide Apply;
      hide Ahead;
      hide IsRun;
      hide IsTrace;
      run', steps' := ComesHome(run + [s'], steps + [Run(t, addr)], t);
    }
  }

  // ---- A task is carried out ----

  lemma {:induction false} RunsSubmitNothing(run: seq<State>, steps: seq<Step>, from: nat, k: nat, o: Obj)
    requires IsTrace(run, steps) && from <= k <= |steps| && forall i :: from <= i < k ==> steps[i].Run?
    ensures Times(Submitted, run, steps, o, k) == Times(Submitted, run, steps, o, from)
    decreases k
  {
    if k > from {
      RunsSubmitNothing(run, steps, from, k - 1, o);
      assert StepAt(run, steps, k - 1);
    }
  }

  lemma {:induction false} TimesOfPrefix(e: Event, run: seq<State>, steps: seq<Step>, run': seq<State>, steps': seq<Step>,
                                         o: Obj, k: nat)
    requires IsTrace(run, steps) && IsTrace(run', steps') && run <= run' && steps <= steps' && k <= |steps|
    ensures Times(e, run', steps', o, k) == Times(e, run, steps, o, k)
    decreases k
  {
    if k > 0 {
      TimesOfPrefix(e, run, steps, run', steps', o, k - 1);
      assert StepAt(run, steps, k - 1);
    }
  }

  /** Submitting a job from rest, by a call of DoTask or by a timer dispatch,
      and letting that thread go on, ends at rest with exactly one more job of
      that object done, and none of any other. */
  lemma TaskIsCarriedOut(run: seq<State>, steps: seq<Step>, step: Step, o: Obj)
      returns (run': seq<State>, steps': seq<Step>)
    requires IsTrace(run, steps) && AllAtHome(run[|steps|]) && o < |run[0].objects|
    requires Enabled(run[|steps|], step) && Is(Submitted, run[|steps|], step, o)
    ensures IsTrace(run', steps') && run <= run' && steps + [step] <= steps'
    ensures IsSolo(steps', |steps| + 1, step.t) && AllAtHome(run'[|steps'|])
    ensures |run'[|steps'|].objects| == |run[|steps|].objects| == |run[0].objects|
    ensures forall x :: 0 <= x < |run[0].objects| ==>
      var was, now := run[|steps|].objects[x], run'[|steps'|].objects[x];
      was.done <= now.done && |now.done| == |was.done| + B(x == o)
  {
    TraceIsRun(run, steps);
    RunInv(run, |steps|);
    var s := run[|steps|];
    TargetExists(s, step);
    OneMoreStep(run, steps, step);
    var run1, steps1 := run + [Apply(s, step)], steps + [step];
    SubmissionStarts(s, step, o);
    run', steps' := ComesHome(run1, steps1, step.t);
    CarriedOut(run, steps, step, run', steps', o);
  }

  lemma SubmissionStarts(s: State, step: Step, o: Obj)
    requires AllAtHome(s) && Enabled(s, step) && Targets(s, step) && Is(Submitted, s, step, o)
    ensures var s' := Apply(s, step);
      && step.t < |s'.threads| == |s.threads| && NoOtherPush(s'.threads, step.t)
      && forall u :: 0 <= u < |s.threads| && u != step.t ==> s'.threads[u] == s.threads[u]
  {
    forall u: Tid | u < |s.threads| ensures s.threads[u].stack == [] { assert AtHome(s, u); }
  }

  lemma CarriedOut(run: seq<State>, steps: seq<Step>, step: Step, run': seq<State>, steps': seq<Step>, o: Obj)
    requires IsTrace(run, steps) && AllAtHome(run[|steps|]) && o < |run[0].objects|
    requires Enabled(run[|steps|], step) && Is(Submitted, run[|steps|], step, o)
    requires IsTrace(run', steps') && run <= run' && steps + [step] <= steps'
    requires IsSolo(steps', |steps| + 1, step.t)
    requires AtHome(run'[|steps'|], step.t) && |run'[|steps'|].threads| == |run[|steps|].threads|
    requires forall u: Tid :: u < |run[|steps|].threads| && u != step.t ==>
      run'[|steps'|].threads[u] == run[|steps|].threads[u]
    ensures AllAtHome(run'[|steps'|])
    ensures |run'[|steps'|].objects| == |run[|steps|].objects| == |run[0].objects|
    ensures forall x :: 0 <= x < |run[0].objects| ==>
      var was, now := run[|steps|].objects[x], run'[|steps'|].objects[x];
      was.done <= now.done && |now.done| == |was.done| + B(x == o)
  {
    TraceIsRun(run, steps);
    TraceIsRun(run', steps');
    var k, l := |steps|, |steps'|;
    assert run'[k] == run[k] && run'[0] == run[0] && steps'[k] == step;
    RunInv(run, k);
    RunInv(run', l);
    hide Inv;
    forall t: Tid | t < |run'[l].threads| ensures AtHome(run'[l], t) { assert AtHome(run[k], t); }
    assert StepAt(run', steps', k);
    forall x | 0 <= x < |run[0].objects|
      ensures var was, now := run[k].objects[x], run'[l].objects[x];
        was.done <= now.done && |now.done| == |was.done| + B(x == o)
    {
      AtRestAllIsDone(run, steps, k, x);
      AtRestAllIsDone(run', steps', l, x);
      RunsSubmitNothing(run', steps', k + 1, l, x);
      TimesOfPrefix(Submitted, run, steps, run', steps', x, k);
      OrderIsStable(run', k, l, x);
      assert Is(Submitted, run[k], step, x) <==> x == o;
    }
  }

  // ---- Jobs submit jobs ----

  lemma DoneAtExec(s: State, step: Step, o: Obj)
    requires Enabled(s, step) && Targets(s, step) && o < |s.objects|
    requires Apply(s, step).objects[o].done != s.objects[o].done
    ensures step.Run? && MayCall(s.threads[step.t]) && s.threads[step.t].stack != []
    ensures Top(s.threads[step.t]).value.obj == o
  {
    hide JQ.Apply;
    hide QueueStep;
  }

  lemma {:induction false} WhereDoneGrows(run: seq<State>, steps: seq<Step>, from: nat, o: Obj, k: nat) returns (i: nat)
    requires IsTrace(run, steps) && from <= k <= |steps| && o < |run[0].objects|
    requires forall j :: 0 <= j < |run| ==> |run[j].objects| == |run[0].objects|
    requires run[k].objects[o].done != run[from].objects[o].done
    ensures from <= i < k && run[i+1].objects[o].done != run[i].objects[o].done
    decreases k
  {
    hide StepAt;
    hide Init;
    i := k - 1;
    if run[k-1].objects[o].done == run[k].objects[o].done { i := WhereDoneGrows(run, steps, from, o, k - 1); }
  }

  lemma PrefixIsTrace(run: seq<State>, steps: seq<Step>, k: nat)
    requires IsTrace(run, steps) && k <= |steps|
    ensures IsTrace(run[..k+1], steps[..k])
  {
    hide Enabled;
    hide Targets;
    hide Apply;
    hide Init;
    var run', steps' := run[..k+1], steps[..k];
    forall i ensures StepAt(run', steps', i) { assert StepAt(run, steps, i); }
  }

  /** Thread t, run alone from rest with a job for this object, comes to where it is inside that job. */
  lemma ReachesJob(run: seq<State>, steps: seq<Step>, t: Tid, o: Obj) returns (run': seq<State>, steps': seq<Step>)
    requires IsTrace(run, steps) && AllAtHome(run[|steps|]) && o < |run[0].objects| && t < |run[0].threads|
    ensures IsTrace(run', steps') && run <= run' && steps + [Call(t, o)] <= steps'
    ensures IsSolo(steps', |steps| + 1, t)
    ensures InsideJob(run'[|steps'|], t, o) && NoOtherPush(run'[|steps'|].threads, t)
    ensures |run'[|steps'|].threads| == |run[|steps|].threads|
    ensures forall u: Tid :: u < |run[|steps|].threads| && u != t ==> run'[|steps'|].threads[u] == run[|steps|].threads[u]
  {
    TraceIsRun(run, steps);
    RunInv(run, |steps|);
    hide Inv;
    var s := run[|steps|];
    assert AtHome(s, t);
    var step := Call(t, o);
    var far, farSteps := TaskIsCarriedOut(run, steps, step, o);
    TraceIsRun(far, farSteps);
    assert far[|steps|] == s && farSteps[|steps|] == step;
    forall j | 0 <= j < |far| ensures |far[j].objects| == |far[0].objects| { RunInv(far, j); }
    var i := WhereDoneGrows(far, farSteps, |steps|, o, |farSteps|);
    assert StepAt(far, farSteps, i) && StepAt(far, farSteps, |steps|);
    DoneAtExec(far[i], farSteps[i], o);
    assert i > |steps|;
    SubmissionStarts(s, step, o);
    SoloRunsAreBounded(far, farSteps, |steps| + 1, i, t);
    PrefixIsTrace(far, farSteps, i);
    run', steps' := far[..i+1], farSteps[..i];
  }

  ghost predicate InsideJob(s: State, t: Tid, o: Obj) {
    t < |s.threads| && s.threads[t].stack != [] && MayCall(s.threads[t]) && Top(s.threads[t]).value.obj == o
  }

  /** A job may submit a job, for its own object or for another: from rest, the
      two are carried out by the one thread, each exactly once. */
  lemma JobsSubmitJobs(run: seq<State>, steps: seq<Step>, t: Tid, o: Obj, x: Obj)
      returns (run': seq<State>, steps': seq<Step>, k: nat)
    requires IsTrace(run, steps) && AllAtHome(run[|steps|])
    requires o < |run[0].objects| && x < |run[0].objects| && t < |run[0].threads|
    ensures IsTrace(run', steps') && run <= run' && steps + [Call(t, o)] <= steps'
    ensures |steps| < k < |steps'| && steps'[k] == Call(t, x) && InsideJob(run'[k], t, o)
    ensures AllAtHome(run'[|steps'|])
    ensures |run'[|steps'|].objects| == |run[|steps|].objects| == |run[0].objects|
    ensures forall y :: 0 <= y < |run[0].objects| ==>
      |run'[|steps'|].objects[y].done| == |run[|steps|].objects[y].done| + B(y == o) + B(y == x)
  {
    var in1, steps1 := ReachesJob(run, steps, t, o);
    k := |steps1|;
    var s := in1[k];
    TraceIsRun(in1, steps1);
    RunInv(in1, k);
    hide Inv;
    TargetExists(s, Call(t, x));
    OneMoreStep(in1, steps1, Call(t, x));
    NestedCallPushesNothing(s, t, x);
    run', steps' := ComesHome(in1 + [Apply(s, Call(t, x))], steps1 + [Call(t, x)], t);
    assert steps'[k] == Call(t, x) && run'[k] == s;
    NestedHome(run, steps, run', steps', t);
    NestedCounts(run, steps, run', steps', t, o, x, k);
  }

  lemma NestedCallPushesNothing(s: State, t: Tid, x: Obj)
    requires Enabled(s, Call(t, x)) && Targets(s, Call(t, x)) && NoOtherPush(s.threads, t)
    ensures var s' := Apply(s, Call(t, x));
      && |s'.threads| == |s.threads| && NoOtherPush(s'.threads, t)
      && forall u: Tid :: u < |s.threads| && u != t ==> s'.threads[u] == s.threads[u]
  {
    var s' := Apply(s, Call(t, x));
    forall u: Tid, i: nat, o: Obj ensures PushAt(s'.threads, u, i, o) ==> u == t {
      assert u != t ==> (PushAt(s'.threads, u, i, o) <==> PushAt(s.threads, u, i, o));
    }
  }

  lemma NestedHome(run: seq<State>, steps: seq<Step>, run': seq<State>, steps': seq<Step>, t: Tid)
    requires IsTrace(run, steps) && AllAtHome(run[|steps|]) && IsTrace(run', steps')
    requires AtHome(run'[|steps'|], t) && |run'[|steps'|].threads| == |run[|steps|].threads|
    requires forall u: Tid :: u < |run[|steps|].threads| && u != t ==>
      run'[|steps'|].threads[u] == run[|steps|].threads[u]
    ensures AllAtHome(run'[|steps'|])
  {
    forall u: Tid | u < |run'[|steps'|].threads| ensures AtHome(run'[|steps'|], u) { assert AtHome(run[|steps|], u); }
  }

  lemma NestedCounts(run: seq<State>, steps: seq<Step>, run': seq<State>, steps': seq<Step>,
                     t: Tid, o: Obj, x: Obj, k: nat)
    requires IsTrace(run, steps) && AllAtHome(run[|steps|]) && IsTrace(run', steps') && AllAtHome(run'[|steps'|])
    requires run <= run' && steps + [Call(t, o)] <= steps' && o < |run[0].objects|
    requires |steps| < k < |steps'| && steps'[k] == Call(t, x)
    requires forall i :: |steps| < i < |steps'| && i != k ==> steps'[i].Run? && steps'[i].t == t
    ensures |run'[|steps'|].objects| == |run[|steps|].objects| == |run[0].objects|
    ensures forall y :: 0 <= y < |run[0].objects| ==>
      |run'[|steps'|].objects[y].done| == |run[|steps|].objects[y].done| + B(y == o) + B(y == x)
  {
    var n, l := |steps|, |steps'|;
    TraceIsRun(run, steps);
    TraceIsRun(run', steps');
    assert run'[n] == run[n] && run'[0] == run[0] && steps'[n] == Call(t, o);
    RunInv(run, n);
    RunInv(run', l);
    hide Inv;
    forall y | 0 <= y < |run[0].objects|
      ensures |run'[l].objects[y].done| == |run[n].objects[y].done| + B(y == o) + B(y == x)
    {
      AtRestAllIsDone(run, steps, n, y);
      AtRestAllIsDone(run', steps', l, y);
      TimesOfPrefix(Submitted, run, steps, run', steps', y, n);
      RunsSubmitNothing(run', steps', n + 1, k, y);
      RunsSubmitNothing(run', steps', k + 1, l, y);
      assert StepAt(run', steps', n) && StepAt(run', steps', k);
    }
  }
}
