/** What runs of a server session do with the events that reach it: which of
    them end the connection, and where every byte offered, sent and received goes. */
module SessionRuns {
  import opened Option
  import R = Ring
  import opened ServerSession

  // ---- Runs together with their steps ----

  ghost predicate StepAt(run: seq<State>, steps: seq<Step>, k: nat)
    requires |run| == |steps| + 1 && k < |steps|
  {
    Enabled(run[k], steps[k]) && Sane(run[k], steps[k]) && run[k+1] == Apply(run[k], steps[k])
  }

  ghost predicate IsTrace(run: seq<State>, steps: seq<Step>) {
    |run| == |steps| + 1 && Init(run[0]) && forall k: nat :: k < |steps| ==> StepAt(run, steps, k)
  }

  lemma TraceIsRun(run: seq<State>, steps: seq<Step>)
    requires IsTrace(run, steps)
    ensures IsRun(run)
  {
    hide Init;
    forall k: nat | k + 1 < |run| ensures NextAt(run, k) { assert StepAt(run, steps, k); }
  }

  lemma TraceInv(run: seq<State>, steps: seq<Step>, k: nat)
    requires IsTrace(run, steps) && k <= |steps|
    ensures Inv(run[k])
    ensures k < |steps| ==> StepAt(run, steps, k)
  {
    TraceIsRun(run, steps);
    RunInv(run, k);
  }

  // ---- What ends a connection ----

  /** A call of Disconnect from outside; a receive or send that failed or
      transferred nothing; a send of which only a part was transferred; a post
      that failed; a receive buffer with no room. */
  predicate Cause(s: State, step: Step)
    requires Enabled(s, step)
  {
    match step
    case Cut(_) => true
    case Dequeue(_, c, ok, data) =>
      var op := s.live[c].op;
      (!op.kind.RecvZero? && (!ok || data == [])) || (op.kind.Send? && |data| < op.len)
    case Go(t, ok, _) =>
      var th := s.threads[t];
      || (!ok && (th.call.PostSend? || th.io.PostRecv? || th.io.PostPre?))
      || (th.io.Space? && R.Window(s.recv.ring).1 == 0)
    case _ => false
  }

  /** On the way to a Disconnect. */
  predicate Doomed(th: Thread) {
    || th.io.Failed? || th.io.DropRecv? || th.io.DropPre? || (th.io.Finish? && !th.io.ok)
    || (th.io.SendDone? && |th.io.wire| != th.io.len)
    || th.call.DropSend? || th.call.SendDisconnect?
  }

  /** What a step of a thread means for the connection. */
  ghost predicate Fateful(s: State, s': State, t: Tid, cause: bool)
    requires t < |s.threads| == |s'.threads|
  {
    var th, th' := s.threads[t], s'.threads[t];
    && (s'.connected ==> s.connected)
    && (cause || Doomed(th) ==> Doomed(th') || !s'.connected)
    && (s.connected && (Doomed(th') || !s'.connected) ==> cause || Doomed(th))
    && forall u :: 0 <= u < |s.threads| && u != t ==> s'.threads[u] == s.threads[u]
  }

  lemma PostRecvIsFateful(s: State, t: Tid, ok: bool, addr: Ctx)
    requires Enabled(s, Go(t, ok, addr)) && s.threads[t].call.NoCall? && InPostRecv(s.threads[t].io)
    ensures Fateful(s, PostRecvStep(s, t, ok, addr), t, Cause(s, Go(t, ok, addr)))
  {
    hide R.Window;
    hide R.WriteOffset;
  }

  lemma PreRecvIsFateful(s: State, t: Tid, ok: bool, addr: Ctx)
    requires Enabled(s, Go(t, ok, addr)) && s.threads[t].call.NoCall? && InPreRecv(s.threads[t].io)
    ensures Fateful(s, PreRecvStep(s, t, ok, addr), t, Cause(s, Go(t, ok, addr)))
  {
    hide R.Window;
  }

  lemma JobIsFateful(s: State, t: Tid, ok: bool, addr: Ctx)
    requires Enabled(s, Go(t, ok, addr)) && s.threads[t].call.NoCall?
    requires !InPostRecv(s.threads[t].io) && !InPreRecv(s.threads[t].io)
    ensures Fateful(s, JobStep(s, t), t, Cause(s, Go(t, ok, addr)))
  {
    hide R.Window;
    hide R.Commit;
  }

  lemma FlushIsFateful(s: State, t: Tid, ok: bool, addr: Ctx)
    requires Enabled(s, Go(t, ok, addr)) && InFlush(s.threads[t].call) && LockLink(s.lock, s.threads[t], t)
    ensures Fateful(s, FlushStep(s, t, ok, addr), t, Cause(s, Go(t, ok, addr)))
  {
    hide R.Window;
    hide FrontSpan;
  }

  lemma CallIsFateful(s: State, t: Tid, ok: bool, addr: Ctx)
    requires Enabled(s, Go(t, ok, addr)) && R.Valid(s.send.ring) && LockLink(s.lock, s.threads[t], t)
    requires !s.threads[t].call.NoCall? && !InFlush(s.threads[t].call)
    ensures Fateful(s, CallStep(s, t), t, Cause(s, Go(t, ok, addr)))
  {
    hide R.Window;
    hide R.Valid;
    hide Appended;
    hide Completed;
    hide R.Contiguous;
  }

  lemma DequeueIsFateful(s: State, t: Tid, c: Ctx, ok: bool, data: seq<byte>)
    requires Enabled(s, Dequeue(t, c, ok, data)) && Sane(s, Dequeue(t, c, ok, data))
    ensures Fateful(s, Completion(s, t, c, ok, data), t, Cause(s, Dequeue(t, c, ok, data)))
  {
    hide R.Valid;
    hide Stored;
  }

  lemma StepIsFateful(s: State, step: Step)
    requires Inv(s) && Enabled(s, step) && Sane(s, step)
    ensures |Apply(s, step).threads| == |s.threads| && Fateful(s, Apply(s, step), step.t, Cause(s, step))
  {
    hide R.Valid;
    hide R.Window;
    hide R.Remove;
    hide R.Contents;
    hide PostRecvStep;
    hide PreRecvStep;
    hide JobStep;
    hide FlushStep;
    hide CallStep;
    hide Completion;
    hide OwnersOk;
    hide SendOk;
    hide RecvOk;
    hide HeardOk;
    hide LockLink;
    hide Cause;
    hide Has;
    StepHas(s, step);
    assert OnlyThread(s, Apply(s, step), step.t) by { HasOnlyThread(s, step); }
    assert LockLink(s.lock, s.threads[step.t], step.t);
    match step {
      case Dequeue(t, c, ok, data) => DequeueIsFateful(s, t, c, ok, data);
      case Go(t, ok, addr) =>
        var th := s.threads[t];
        if InFlush(th.call) {
          FlushIsFateful(s, t, ok, addr);
        } else if !th.call.NoCall? {
          CallIsFateful(s, t, ok, addr);
        } else if InPostRecv(th.io) {
          PostRecvIsFateful(s, t, ok, addr);
        } else if InPreRecv(th.io) {
          PreRecvIsFateful(s, t, ok, addr);
        } else {
          JobIsFateful(s, t, ok, addr);
        }
      case _ => OtherIsFateful(s, step);
    }
  }

  lemma HasOnlyThread(s: State, step: Step)
    requires Enabled(s, step) && Sane(s, step) && Has(s, Apply(s, step), step.t, EffectOf(s, step))
    ensures OnlyThread(s, Apply(s, step), step.t)
  {
    hide Apply;
    hide EffectOf;
  }

  lemma OtherIsFateful(s: State, step: Step)
    requires Enabled(s, step) && Sane(s, step) && !step.Go? && !step.Dequeue?
    ensures |Apply(s, step).threads| == |s.threads| && Fateful(s, Apply(s, step), step.t, Cause(s, step))
  {
    hide R.Valid;
    hide R.Remove;
    hide R.Contents;
  }

  ghost predicate CauseAt(run: seq<State>, steps: seq<Step>, j: nat, t: Tid)
    requires |run| == |steps| + 1
  {
    j < |steps| && Enabled(run[j], steps[j]) && steps[j].t == t && Cause(run[j], steps[j])
  }

  ghost predicate NoDequeue(steps: seq<Step>, i: nat, k: nat, t: Tid) {
    forall m: nat :: i < m < k && m < |steps| && steps[m].t == t ==> !steps[m].Dequeue?
  }

  /** A thread on the way to a Disconnect has met its cause since it last dequeued a completion. */
  lemma {:induction false} DoomHasACause(run: seq<State>, steps: seq<Step>, k: nat, t: Tid) returns (j: nat)
    requires IsTrace(run, steps) && k <= |steps| && run[k].connected
    requires t < |run[k].threads| && Doomed(run[k].threads[t])
    ensures j < k && CauseAt(run, steps, j, t) && NoDequeue(steps, j, k, t)
    decreases k
  {
    hide Inv;
    hide Apply;
    hide Sane;
    hide Doomed;
    hide Cause;
    if k == 0 {
      NobodyIsDoomed(run[0]);
    } else {
      TraceInv(run, steps, k - 1);
      StepIsFateful(run[k-1], steps[k-1]);
      if steps[k-1].t == t && Cause(run[k-1], steps[k-1]) {
        j := k - 1;
      } else {
        j := DoomHasACause(run, steps, k - 1, t);
        DoomedDequeuesNothing(run[k-1], steps[k-1], t);
      }
    }
  }

  lemma NobodyIsDoomed(s: State)
    requires Init(s)
    ensures forall t :: 0 <= t < |s.threads| ==> !Doomed(s.threads[t])
  {
  }

  lemma DoomedDequeuesNothing(s: State, step: Step, t: Tid)
    requires Enabled(s, step) && t < |s.threads| && Doomed(s.threads[t])
    ensures step.t == t ==> !step.Dequeue?
  {
  }

  /** Nothing but these causes ends a connection: the thread whose step ends it
      has met one since it last dequeued a completion. */
  lemma DisconnectHasACause(run: seq<State>, steps: seq<Step>, k: nat)
    requires IsTrace(run, steps) && k < |steps| && run[k].connected && !run[k+1].connected
    ensures exists j: nat :: j <= k && CauseAt(run, steps, j, steps[k].t) && NoDequeue(steps, j, k, steps[k].t)
  {
    hide Inv;
    hide Apply;
    hide Sane;
    hide Doomed;
    hide Cause;
    TraceInv(run, steps, k);
    StepIsFateful(run[k], steps[k]);
    if Cause(run[k], steps[k]) {
      assert CauseAt(run, steps, k, steps[k].t) && NoDequeue(steps, k, k, steps[k].t);
    } else {
      var j := DoomHasACause(run, steps, k, steps[k].t);
    }
  }

  /** Whatever the cause, the connection has ended once the thread that met it is done. */
  lemma {:induction false} CauseEndsConnection(run: seq<State>, steps: seq<Step>, j: nat, k: nat, t: Tid)
    requires IsTrace(run, steps) && j < k <= |steps| && CauseAt(run, steps, j, t)
    ensures t < |run[k].threads|
    ensures Doomed(run[k].threads[t]) || !run[k].connected
    decreases k
  {
    hide Inv;
    hide Apply;
    hide Sane;
    hide Doomed;
    hide Cause;
    TraceInv(run, steps, k - 1);
    StepIsFateful(run[k-1], steps[k-1]);
    if j < k - 1 { CauseEndsConnection(run, steps, j, k - 1, t); }
  }

  ghost predicate AtRest(s: State) {
    forall t :: 0 <= t < |s.threads| ==> s.threads[t] == Thread(Idle, NoCall)
  }

  /** With every thread back in its loop, the session has been disconnected
      exactly if one of these causes has occurred. */
  lemma DisconnectedIff(run: seq<State>, steps: seq<Step>, k: nat)
    requires IsTrace(run, steps) && k <= |steps| && AtRest(run[k])
    ensures !run[k].connected <==> exists j: nat, t: Tid :: j < k && CauseAt(run, steps, j, t)
  {
    hide StepAt;
    hide Init;
    hide CauseAt;
    if !run[k].connected {
      var j := FirstCut(run, steps, k);
      DisconnectHasACause(run, steps, j);
    }
    forall j: nat, t: Tid | j < k && CauseAt(run, steps, j, t) ensures !run[k].connected {
      CauseEndsConnection(run, steps, j, k, t);
    }
  }

  lemma {:induction false} FirstCut(run: seq<State>, steps: seq<Step>, k: nat) returns (j: nat)
    requires IsTrace(run, steps) && k <= |steps| && !run[k].connected
    ensures j < k && run[j].connected && !run[j+1].connected
    decreases k
  {
    hide StepAt;
    assert run[0].connected;
    j := k - 1;
    if !run[j].connected { j := FirstCut(run, steps, j); }
  }

  // ---- Completed sends ----

  /** How a thread goes on that handles the completion of this send. */
  predicate SendsOut(th: Thread, c: Ctx, all: bool) {
    || (th.io.SendDone? && th.io.c == c && (|th.io.wire| == th.io.len <==> all))
    || th == Thread(Finish(Some(c), all), NoCall)
    || th == Thread(Dispose(c), NoCall)
    || th == Thread(Idle, NoCall)
  }

  lemma SendGoesOn(s: State, step: Step, c: Ctx, all: bool)
    requires Inv(s) && Enabled(s, step) && Sane(s, step) && SendsOut(s.threads[step.t], c, all)
    requires s.threads[step.t] != Thread(Idle, NoCall)
    ensures step.t < |Apply(s, step).threads| && SendsOut(Apply(s, step).threads[step.t], c, all)
  {
    assert LockLink(s.lock, s.threads[step.t], step.t);
    hide Inv;
    hide R.Valid;
    hide Appended;
    hide Completed;
    hide FrontSpan;
    hide R.Contiguous;
    hide R.Commit;
    hide PostRecvStep;
    hide PreRecvStep;
  }

  /** Thread t has been busy with this completion from step j up to state k. */
  ghost predicate BusySince(run: seq<State>, j: nat, k: nat, t: Tid)
    requires k < |run|
  {
    forall m: nat :: j < m <= k ==> t < |run[m].threads| && !run[m].threads[t].io.Idle?
  }

  ghost predicate SendCompletes(run: seq<State>, steps: seq<Step>, j: nat)
    requires |run| == |steps| + 1
  {
    && j < |steps| && steps[j].Dequeue? && Enabled(run[j], steps[j])
    && run[j].live[steps[j].c].op.kind.Send? && steps[j].ok && steps[j].data != []
  }

  lemma {:induction false} SendIsOnItsWay(run: seq<State>, steps: seq<Step>, j: nat, k: nat)
    requires IsTrace(run, steps) && j < k <= |steps| && SendCompletes(run, steps, j) && BusySince(run, j, k, steps[j].t)
    ensures SendsOut(run[k].threads[steps[j].t], steps[j].c, |steps[j].data| == run[j].live[steps[j].c].op.len)
    decreases k
  {
    hide Inv;
    hide SendsOut;
    var t := steps[j].t;
    TraceInv(run, steps, k - 1);
    if k == j + 1 {
      SendSetsOut(run[j], steps[j]);
    } else {
      SendIsOnItsWay(run, steps, j, k - 1);
      hide Apply;
      hide Sane;
      hide Doomed;
      hide Cause;
      assert !run[k-1].threads[t].io.Idle?;
      if steps[k-1].t == t {
        SendGoesOn(run[k-1], steps[k-1], steps[j].c, |steps[j].data| == run[j].live[steps[j].c].op.len);
      } else {
        StepIsFateful(run[k-1], steps[k-1]);
      }
    }
  }

  lemma SendSetsOut(s: State, step: Step)
    requires Enabled(s, step) && Sane(s, step) && step.Dequeue?
    requires s.live[step.c].op.kind.Send? && step.ok && step.data != []
    ensures var s' := Apply(s, step);
      && step.t < |s'.threads|
      && SendsOut(s'.threads[step.t], step.c, |step.data| == s.live[step.c].op.len)
  {
    hide R.Valid;
    hide Stored;
  }

  /** When a thread has dealt with the completion of a send, that ends the
      connection exactly if fewer bytes were transferred than were posted. */
  lemma PartialSendsEndIt(run: seq<State>, steps: seq<Step>, j: nat, k: nat)
    requires IsTrace(run, steps) && j < k < |steps| && SendCompletes(run, steps, j) && BusySince(run, j, k, steps[j].t)
    requires steps[k].t == steps[j].t && run[k].threads[steps[j].t].io.Finish?
    ensures run[k+1].connected == (run[k].connected && |steps[j].data| == run[j].live[steps[j].c].op.len)
  {
    hide Inv;
    SendIsOnItsWay(run, steps, j, k);
    assert StepAt(run, steps, k);
    hide R.Valid;
    hide PostRecvStep;
    hide PreRecvStep;
    hide FlushStep;
    hide CallStep;
    hide Completion;
  }

  // ---- Threads come back to their loops ----

  /** A bound on the accesses a thread still makes before it is back in its loop or in OnRead. */
  function Rank(th: Thread): nat {
    if th.io.SendDone? && th.call.NoCall? then 20 else IoRank(th.io) + CallRank(th.call)
  }

  function IoRank(io: Io): nat {
    match io
    case Idle => 0
    case Dispose(_) => 1
    case Failed(_, _) => 2
    case Finish(_, _) => 2
    case DropRecv(_, _) => 3
    case DropPre(_, _) => 3
    case SendDone(_, _, _) => 3
    case PostRecv(_, _, _, _) => 4
    case PostPre(_, _) => 4
    case NewRecv(_) => 5
    case NewPre(_) => 5
    case Space(_) => 6
    case CheckPre(_) => 6
    case CheckRecv(_) => 7
    case Reading(_) => 7
    case RecvDone(_, _) => 8
  }

  function CallRank(call: Call): nat {
    match call
    case NoCall => 0
    case Unlock => 1
    case SendDisconnect => 2
    case DropSend(_) => 3
    case Increment => 3
    case PostSend(_, _, _) => 4
    case NewSend => 5
    case Append(_) => 6
    case Complete => 6
    case Acquire(_) => 7
    case AcquireDone => 7
    case Check(_) => 8
  }

  lemma FlushComesNearer(s: State, t: Tid, ok: bool, addr: Ctx)
    requires t < |s.threads| && InFlush(s.threads[t].call)
    ensures Rank(FlushStep(s, t, ok, addr).threads[t]) < Rank(s.threads[t])
  {
    hide FrontSpan;
    hide IoRank;
  }

  lemma CallComesNearer(s: State, t: Tid)
    requires t < |s.threads| && R.Valid(s.send.ring) && LockLink(s.lock, s.threads[t], t)
    requires !InFlush(s.threads[t].call) && !s.threads[t].call.NoCall?
    ensures Rank(CallStep(s, t).threads[t]) < Rank(s.threads[t])
  {
    hide R.Valid;
    hide Appended;
    hide Completed;
    hide R.Contiguous;
  }

  lemma PostRecvComesNearer(s: State, t: Tid, ok: bool, addr: Ctx)
    requires t < |s.threads| && s.threads[t].call.NoCall? && InPostRecv(s.threads[t].io)
    ensures Rank(PostRecvStep(s, t, ok, addr).threads[t]) < Rank(s.threads[t])
  {
    hide R.Window;
    hide R.WriteOffset;
  }

  lemma PreRecvComesNearer(s: State, t: Tid, ok: bool, addr: Ctx)
    requires t < |s.threads| && s.threads[t].call.NoCall? && InPreRecv(s.threads[t].io)
    ensures Rank(PreRecvStep(s, t, ok, addr).threads[t]) < Rank(s.threads[t])
  {
  }

  lemma JobComesNearer(s: State, t: Tid)
    requires t < |s.threads| && s.threads[t].call.NoCall? && !MayCall(s.threads[t])
    requires !InPostRecv(s.threads[t].io) && !InPreRecv(s.threads[t].io)
    ensures Rank(JobStep(s, t).threads[t]) < Rank(s.threads[t])
  {
    hide R.Commit;
  }

  predicate IsOwnStep(step: Step) {
    step.Go? || step.EndRead?
  }

  /** Every access brings the thread that makes it nearer to its loop, and leaves the others where they are. */
  lemma StepComesNearer(s: State, step: Step)
    requires Inv(s) && Enabled(s, step) && Sane(s, step) && IsOwnStep(step)
    ensures var s' := Apply(s, step);
      && |s'.threads| == |s.threads| && Rank(s'.threads[step.t]) < Rank(s.threads[step.t])
      && s'.threads == s.threads[step.t := s'.threads[step.t]]
  {
    hide OwnersOk;
    hide SendOk;
    hide RecvOk;
    hide HeardOk;
    hide R.Valid;
    hide R.Window;
    hide PostRecvStep;
    hide PreRecvStep;
    hide JobStep;
    hide FlushStep;
    hide CallStep;
    hide LockLink;
    hide Has;
    assert LockLink(s.lock, s.threads[step.t], step.t);
    StepHas(s, step);
    HasOnlyThread(s, step);
    if step.Go? {
      if s.threads[step.t].call.NoCall? {
        if InPostRecv(s.threads[step.t].io) {
          PostRecvComesNearer(s, step.t, step.ok, step.addr);
        } else if InPreRecv(s.threads[step.t].io) {
          PreRecvComesNearer(s, step.t, step.ok, step.addr);
        } else {
          JobComesNearer(s, step.t);
        }
      } else {
        if InFlush(s.threads[step.t].call) {
          FlushComesNearer(s, step.t, step.ok, step.addr);
        } else {
          CallComesNearer(s, step.t);
        }
      }
    }
  }

  function Ranks(ths: seq<Thread>): nat {
    if ths == [] then 0 else Ranks(ths[..|ths|-1]) + Rank(ths[|ths|-1])
  }

  lemma {:induction false} RanksUpdate(ths: seq<Thread>, t: Tid, th: Thread)
    requires t < |ths|
    ensures Ranks(ths[t := th]) == Ranks(ths) - Rank(ths[t]) + Rank(th)
  {
    var n := |ths| - 1;
    if t == n {
      assert ths[t := th][..n] == ths[..n];
    } else {
      RanksUpdate(ths[..n], t, th);
      assert ths[t := th][..n] == ths[..n][t := th];
    }
  }

  lemma {:induction false} FreshCtx(cs: set<Ctx>) returns (c: Ctx)
    ensures forall d :: d in cs ==> d < c
  {
    if cs == {} { c := 0; } else {
      var d :| d in cs;
      var rest := cs - {d};
      c := FreshCtx(rest);
      assert forall e :: e in cs ==> e == d || e in rest;
      if c <= d { c := d + 1; }
    }
  }

  /** While some thread is not back in its loop, some thread can go on: the one
      in the lock, or any other if the lock is free. */
  lemma SomeThreadGoesOn(s: State, ok: bool) returns (step: Step)
    requires Inv(s) && !AtRest(s)
    ensures IsOwnStep(step) && (step.Go? ==> step.ok == ok) && Enabled(s, step) && Sane(s, step)
  {
    hide OwnersOk;
    hide SendOk;
    hide RecvOk;
    hide HeardOk;
    var addr := FreshCtx(s.live.Keys);
    if s.lock.Some? {
      var t := s.lock.value;
      assert LockLink(s.lock, s.threads[t], t);
      step := Go(t, ok, addr);
    } else {
      var t: Tid :| t < |s.threads| && s.threads[t] != Thread(Idle, NoCall);
      step := if MayCall(s.threads[t]) then EndRead(t) else Go(t, ok, addr);
    }
    StepsAreSane(s, step);
  }

  lemma OneMoreStep(run: seq<State>, steps: seq<Step>, step: Step)
    requires IsTrace(run, steps) && Enabled(run[|steps|], step) && Sane(run[|steps|], step)
    ensures IsTrace(run + [Apply(run[|steps|], step)], steps + [step])
  {
    hide Enabled;
    hide Sane;
    hide Apply;
    hide Init;
    forall k: nat | k < |steps| + 1 ensures StepAt(run + [Apply(run[|steps|], step)], steps + [step], k) {
      assert k < |steps| ==> StepAt(run, steps, k);
    }
  }

  ghost predicate OnlyOwnSteps(steps: seq<Step>, from: nat, ok: bool) {
    forall k: nat :: from <= k < |steps| ==> IsOwnStep(steps[k]) && (steps[k].Go? ==> steps[k].ok == ok)
  }

  /** From every reachable state the threads come back to their loops by their
      own accesses, without another completion, and whether posts succeed or not. */
  lemma {:induction false} ComesToRest(run: seq<State>, steps: seq<Step>, ok: bool)
      returns (run': seq<State>, steps': seq<Step>)
    requires IsTrace(run, steps)
    ensures IsTrace(run', steps') && run <= run' && steps <= steps' && OnlyOwnSteps(steps', |steps|, ok)
    ensures AtRest(run'[|steps'|]) && |steps'| - |steps| <= Ranks(run[|steps|].threads)
    decreases Ranks(run[|steps|].threads)
  {
    hide Inv;
    var s := run[|steps|];
    if AtRest(s) {
      run', steps' := run, steps;
    } else {
      TraceInv(run, steps, |steps|);
      var step := SomeThreadGoesOn(s, ok);
      StepComesNearer(s, step);
      var s' := Apply(s, step);
      RanksUpdate(s.threads, step.t, s'.threads[step.t]);
      OneMoreStep(run, steps, step);
      hide Apply;
      hide Sane;
      hide IsTrace;
      hide AtRest;
      hide Ranks;
      run', steps' := ComesToRest(run + [s'], steps + [step], ok);
    }
  }

  // ---- Where the bytes go ----

  /** The bytes of the send buffer a completion reports as transferred. */
  function WireOf(s: State, step: Step): seq<byte>
    requires Enabled(s, step) && Sane(s, step)
  {
    if step.Dequeue? && s.live[step.c].op.kind.Send? && step.ok && step.data != [] then
      var off := s.live[step.c].op.off;
      s.send.ring.mem[off..off + |step.data|]
    else []
  }

  /** The bytes a completion reports as received. */
  function ArrivalOf(s: State, step: Step): seq<byte>
    requires Enabled(s, step)
  {
    if step.Dequeue? && s.live[step.c].op.kind.Recv? && step.ok then step.data else []
  }

  function EatenBy(step: Step): nat {
    if step.Consume? then step.n else 0
  }

  /** The bytes of a completed send that is still to be accounted for. */
  function InWire(s: State): seq<byte> {
    if s.send.sender.SendThread? && s.send.sender.t < |s.threads| then Wire(s.threads[s.send.sender.t].io) else []
  }

  function Arrival(io: Io): seq<byte> {
    if io.RecvDone? then io.data else []
  }

  /** The bytes of a completed receive that is still to be committed. */
  function InArrival(s: State): seq<byte> {
    if s.recv.token.TokenThread? && s.recv.token.t < |s.threads| then Arrival(s.threads[s.recv.token.t].io) else []
  }

  ghost predicate WireKept(s: State, step: Step, s': State)
    requires Enabled(s, step) && Sane(s, step)
  {
    s'.send.sent + InWire(s') == s.send.sent + InWire(s) + WireOf(s, step)
  }

  ghost predicate ArrivalKept(s: State, step: Step, s': State)
    requires Enabled(s, step)
  {
    && s'.recv.delivered + InArrival(s') == s.recv.delivered + InArrival(s) + ArrivalOf(s, step)
    && |s'.recv.consumed| == |s.recv.consumed| + EatenBy(step)
  }

  /** A step by which nothing is transferred. */
  lemma SameWire(s: State, s': State, t: Tid)
    requires OnlyThread(s, s', t) && s'.send.sent == s.send.sent
    requires s'.send.sender == s.send.sender || (InWire(s) == [] && InWire(s') == [])
    requires s.send.sender == SendThread(t) ==> Wire(s'.threads[t].io) == Wire(s.threads[t].io)
    ensures s'.send.sent + InWire(s') == s.send.sent + InWire(s)
  {
  }

  lemma FlushKeepsWire(s: State, t: Tid, ok: bool, addr: Ctx)
    requires Inv(s) && Enabled(s, Go(t, ok, addr)) && Sane(s, Go(t, ok, addr)) && InFlush(s.threads[t].call)
    ensures WireKept(s, Go(t, ok, addr), FlushStep(s, t, ok, addr))
  {
    assert LockLink(s.lock, s.threads[t], t) && OutOk(s.send, Phase(s), s.connected);
    hide Inv;
    hide R.Valid;
    hide R.Contents;
    hide FrontSpan;
    hide OnFront;
    SameWire(s, FlushStep(s, t, ok, addr), t);
  }

  lemma CallKeepsWire(s: State, t: Tid, ok: bool, addr: Ctx)
    requires Inv(s) && Enabled(s, Go(t, ok, addr)) && Sane(s, Go(t, ok, addr))
    requires !InFlush(s.threads[t].call) && !s.threads[t].call.NoCall?
    ensures WireKept(s, Go(t, ok, addr), CallStep(s, t))
  {
    assert LockLink(s.lock, s.threads[t], t) && SendLink(s.send, s.threads[t], t);
    hide Inv;
    hide R.Valid;
    hide R.Contents;
    hide R.Contiguous;
    hide R.Write;
    hide R.Remove;
    var s' := CallStep(s, t);
    if s.threads[t].call.Complete? {
      assert InWire(s) == Wire(s.threads[t].io) && InWire(s') == [];
    } else {
      SameWire(s, s', t);
    }
  }

  lemma RecvKeepsWire(s: State, t: Tid, ok: bool, addr: Ctx)
    requires Inv(s) && Enabled(s, Go(t, ok, addr)) && Sane(s, Go(t, ok, addr)) && s.threads[t].call.NoCall?
    ensures WireKept(s, Go(t, ok, addr), Apply(s, Go(t, ok, addr)))
  {
    assert SendLink(s.send, s.threads[t], t);
    hide Inv;
    hide R.Valid;
    hide R.Window;
    hide R.WriteOffset;
    hide R.Commit;
    if InPostRecv(s.threads[t].io) {
      PostRecvIsRecvOnly(s, t, ok, addr);
      hide PostRecvStep;
      SameWire(s, PostRecvStep(s, t, ok, addr), t);
    } else if InPreRecv(s.threads[t].io) {
      PreRecvIsRecvOnly(s, t, ok, addr);
      hide PreRecvStep;
      SameWire(s, PreRecvStep(s, t, ok, addr), t);
    } else {
      SameWire(s, JobStep(s, t), t);
    }
  }

  lemma DequeueKeepsWire(s: State, step: Step)
    requires Inv(s) && Enabled(s, step) && Sane(s, step) && step.Dequeue?
    ensures WireKept(s, step, Apply(s, step))
  {
    assert SendLink(s.send, s.threads[step.t], step.t) && SendOpLink(s.send, s.live, step.c);
    hide Inv;
    hide R.Valid;
    hide Stored;
    hide OnFront;
    var s' := Apply(s, step);
    if s.live[step.c].op.kind.Send? {
      assert InWire(s) == [] && InWire(s') == WireOf(s, step);
    } else {
      SameWire(s, s', step.t);
    }
  }

  lemma StepKeepsWire(s: State, step: Step)
    requires Inv(s) && Enabled(s, step) && Sane(s, step)
    ensures WireKept(s, step, Apply(s, step))
  {
    hide Inv;
    hide R.Valid;
    match step {
      case Dequeue(_, _, _, _) =>
        hide WireKept;
        DequeueKeepsWire(s, step);
      case Go(t, ok, addr) =>
        hide WireKept;
        hide FlushStep;
        hide CallStep;
        if InFlush(s.threads[t].call) {
          FlushKeepsWire(s, t, ok, addr);
        } else if !s.threads[t].call.NoCall? {
          CallKeepsWire(s, t, ok, addr);
        } else {
          RecvKeepsWire(s, t, ok, addr);
        }
      case _ =>
        hide R.Remove;
        hide R.Contents;
        SameWire(s, Apply(s, step), step.t);
    }
  }

  /** A step by which nothing is received. */
  lemma SameArrival(s: State, s': State, t: Tid)
    requires OnlyThread(s, s', t)
    requires s'.recv.delivered == s.recv.delivered && s'.recv.consumed == s.recv.consumed
    requires s'.recv.token == s.recv.token || (InArrival(s) == [] && InArrival(s') == [])
    requires s.recv.token == TokenThread(t) ==> Arrival(s'.threads[t].io) == Arrival(s.threads[t].io)
    ensures s'.recv.delivered + InArrival(s') == s.recv.delivered + InArrival(s)
  {
  }

  lemma SendKeepsArrival(s: State, t: Tid, ok: bool, addr: Ctx)
    requires Inv(s) && Enabled(s, Go(t, ok, addr)) && Sane(s, Go(t, ok, addr)) && !s.threads[t].call.NoCall?
    ensures ArrivalKept(s, Go(t, ok, addr), Apply(s, Go(t, ok, addr)))
  {
    hide Inv;
    hide R.Valid;
    hide FlushStep;
    hide CallStep;
    if InFlush(s.threads[t].call) {
      FlushIsSendOnly(s, t, ok, addr);
    } else {
      CallIsSendOnly(s, t);
    }
    SameArrival(s, Apply(s, Go(t, ok, addr)), t);
  }

  lemma PostRecvKeepsArrival(s: State, t: Tid, ok: bool, addr: Ctx)
    requires Inv(s) && t < |s.threads| && InPostRecv(s.threads[t].io)
    ensures SameArrivals(s, PostRecvStep(s, t, ok, addr))
  {
    assert RecvLink(s.recv, s.threads[t], t);
    hide Inv;
    hide R.Window;
    hide R.WriteOffset;
    hide SpanOk;
  }

  lemma PreRecvKeepsArrival(s: State, t: Tid, ok: bool, addr: Ctx)
    requires Inv(s) && t < |s.threads| && InPreRecv(s.threads[t].io)
    ensures SameArrivals(s, PreRecvStep(s, t, ok, addr))
  {
    assert RecvLink(s.recv, s.threads[t], t);
    hide Inv;
    hide SpanOk;
  }

  ghost predicate SameArrivals(s: State, s': State) {
    && s'.recv.delivered + InArrival(s') == s.recv.delivered + InArrival(s)
    && s'.recv.consumed == s.recv.consumed
  }

  lemma JobKeepsArrival(s: State, t: Tid)
    requires Inv(s) && t < |s.threads| && !InPostRecv(s.threads[t].io) && !InPreRecv(s.threads[t].io)
    ensures SameArrivals(s, JobStep(s, t))
  {
    assert RecvLink(s.recv, s.threads[t], t);
    hide Inv;
    hide SpanOk;
    hide R.Commit;
    if !s.threads[t].io.RecvDone? { SameArrival(s, JobStep(s, t), t); }
  }

  lemma GoKeepsArrival(s: State, t: Tid, ok: bool, addr: Ctx)
    requires Inv(s) && Enabled(s, Go(t, ok, addr)) && Sane(s, Go(t, ok, addr)) && s.threads[t].call.NoCall?
    ensures ArrivalKept(s, Go(t, ok, addr), Apply(s, Go(t, ok, addr)))
  {
    hide Inv;
    hide R.Valid;
    hide PostRecvStep;
    hide PreRecvStep;
    hide JobStep;
    if InPostRecv(s.threads[t].io) {
      PostRecvKeepsArrival(s, t, ok, addr);
    } else if InPreRecv(s.threads[t].io) {
      PreRecvKeepsArrival(s, t, ok, addr);
    } else {
      JobKeepsArrival(s, t);
    }
  }

  lemma DequeueKeepsArrival(s: State, step: Step)
    requires Inv(s) && Enabled(s, step) && Sane(s, step) && step.Dequeue?
    ensures ArrivalKept(s, step, Apply(s, step))
  {
    assert RecvLink(s.recv, s.threads[step.t], step.t) && RecvOpLink(s.recv, s.live, step.c);
    hide Inv;
    hide R.Valid;
    hide Stored;
    hide ReadySpan;
    var s' := Apply(s, step);
    if s.live[step.c].op.kind.Send? {
      SameArrival(s, s', step.t);
    } else {
      assert InArrival(s) == [] && InArrival(s') == ArrivalOf(s, step);
    }
  }

  lemma OtherKeepsArrival(s: State, step: Step)
    requires Inv(s) && Enabled(s, step) && Sane(s, step) && !step.Go? && !step.Dequeue?
    ensures ArrivalKept(s, step, Apply(s, step))
  {
    assert RecvLink(s.recv, s.threads[step.t], step.t);
    hide Inv;
    hide R.Valid;
    hide SpanOk;
    hide R.Remove;
    if step.Consume? { R.ReadTakesPrefix(s.recv.ring, step.n); }
    hide R.Contents;
    SameArrivalOfOthers(s, step);
  }

  lemma SameArrivalOfOthers(s: State, step: Step)
    requires Enabled(s, step) && Sane(s, step) && !step.Go? && !step.Dequeue?
    ensures InArrival(Apply(s, step)) == InArrival(s) && Apply(s, step).recv.delivered == s.recv.delivered
  {
    hide R.Valid;
    hide R.Remove;
    hide R.Contents;
  }

  lemma StepKeepsArrival(s: State, step: Step)
    requires Inv(s) && Enabled(s, step) && Sane(s, step)
    ensures ArrivalKept(s, step, Apply(s, step))
  {
    hide Inv;
    hide R.Valid;
    hide ArrivalKept;
    hide Apply;
    if step.Dequeue? {
      DequeueKeepsArrival(s, step);
    } else if !step.Go? {
      OtherKeepsArrival(s, step);
    } else if s.threads[step.t].call.NoCall? {
      GoKeepsArrival(s, step.t, step.ok, step.addr);
    } else {
      SendKeepsArrival(s, step.t, step.ok, step.addr);
    }
  }

  // ---- All bytes of a run ----

  ghost predicate StepsUpTo(run: seq<State>, steps: seq<Step>, k: nat) {
    |run| == |steps| + 1 && k <= |steps| && forall i: nat :: i < |steps| ==> StepAt(run, steps, i)
  }

  /** The bytes transferred by the sends completed in the first k steps. */
  ghost function Wired(run: seq<State>, steps: seq<Step>, k: nat): seq<byte>
    requires StepsUpTo(run, steps, k)
  {
    if k == 0 then [] else
      assert StepAt(run, steps, k - 1);
      Wired(run, steps, k - 1) + WireOf(run[k-1], steps[k-1])
  }

  /** The bytes the kernel delivered. */
  ghost function Arrived(run: seq<State>, steps: seq<Step>, k: nat): seq<byte>
    requires StepsUpTo(run, steps, k)
  {
    if k == 0 then [] else
      assert StepAt(run, steps, k - 1);
      Arrived(run, steps, k - 1) + ArrivalOf(run[k-1], steps[k-1])
  }

  /** How many bytes OnRead took out. */
  function Eaten(steps: seq<Step>, k: nat): nat
    requires k <= |steps|
  {
    if k == 0 then 0 else Eaten(steps, k - 1) + EatenBy(steps[k-1])
  }

  /** On every run the bytes of completed sends are those taken from the send
      buffer and those of the one completion in hand; the bytes of completed
      receives are those committed and those of the one completion in hand; and
      exactly as many were consumed as OnRead read. With BytesAreConserved:
      what goes out is what was accepted, once and in order, and what is read is what came in. */
  lemma {:induction false} TransfersAreAccounted(run: seq<State>, steps: seq<Step>, k: nat)
    requires IsTrace(run, steps) && k <= |steps|
    ensures StepsUpTo(run, steps, k)
    ensures Wired(run, steps, k) == run[k].send.sent + InWire(run[k])
    ensures Arrived(run, steps, k) == run[k].recv.delivered + InArrival(run[k])
    ensures |run[k].recv.consumed| == Eaten(steps, k)
  {
    hide Inv;
    hide Apply;
    hide Sane;
    hide WireOf;
    hide InWire;
    hide InArrival;
    if k == 0 {
      NothingTransferred(run[0]);
    } else {
      TransfersAreAccounted(run, steps, k - 1);
      TraceInv(run, steps, k - 1);
      StepKeepsWire(run[k-1], steps[k-1]);
      StepKeepsArrival(run[k-1], steps[k-1]);
    }
  }

  lemma NothingTransferred(s: State)
    requires Init(s)
    ensures s.send.sent + InWire(s) == [] && s.recv.delivered + InArrival(s) == [] && s.recv.consumed == []
  {
  }

  lemma WireIsFront(s: State)
    requires Inv(s)
    ensures R.Valid(s.send.ring) && InWire(s) <= R.Contents(s.send.ring)
  {
    if InWire(s) != [] {
      var t := s.send.sender.t;
      assert SendLink(s.send, s.threads[t], t);
      hide R.Valid;
      R.RemoveTakesFront(s.send.ring, |InWire(s)|);
      hide R.Contents;
      hide R.Remove;
    }
  }

  /** What the kernel has sent, on every run, is a prefix of what PostSend
      accepted; what OnRead has read is a prefix of what the kernel received. */
  lemma StreamsArePrefixes(run: seq<State>, steps: seq<Step>, k: nat)
    requires IsTrace(run, steps) && k <= |steps|
    ensures StepsUpTo(run, steps, k)
    ensures Wired(run, steps, k) <= run[k].send.accepted
    ensures Eaten(steps, k) <= |Arrived(run, steps, k)|
    ensures run[k].recv.consumed == Arrived(run, steps, k)[..Eaten(steps, k)]
  {
    TransfersAreAccounted(run, steps, k);
    TraceInv(run, steps, k);
    TraceIsRun(run, steps);
    BytesAreConserved(run, k);
    WireIsFront(run[k]);
    hide Inv;
    hide InWire;
    hide InArrival;
    hide R.Contents;
    hide R.Valid;
  }

  // ---- Posts ask for all there is ----

  /** A post asks for everything contiguous in the send buffer, for the whole
      free window of the receive buffer, or, to wait for data, for no bytes. */
  ghost predicate AsksForAll(s: State, op: Op) {
    match op.kind
    case Send => (op.off, op.len) == FrontSpan(s.send.ring)
    case Recv => op.off == R.WriteOffset(s.recv.ring) && op.len == R.Window(s.recv.ring).1 > 0
    case RecvZero => op.len == 0
  }

  /** The step posts this context with this request. */
  ghost predicate Posts(s: State, s': State, c: Ctx) {
    c in s'.live && s'.live[c].Kernel? && !(c in s.live && s.live[c].Kernel?)
  }

  lemma PostAsksForAll(s: State, step: Step, c: Ctx)
    requires Inv(s) && Enabled(s, step) && Sane(s, step) && Posts(s, Apply(s, step), c)
    ensures AsksForAll(s, Apply(s, step).live[c].op)
  {
    var t := step.t;
    assert OutOk(s.send, Phase(s), s.connected) && LockLink(s.lock, s.threads[t], t) && RecvLink(s.recv, s.threads[t], t);
    StepHas(s, step);
    hide Inv;
    hide R.Valid;
    hide Apply;
    hide Allowed;
    hide FrontSpan;
    hide R.Window;
    hide R.WriteOffset;
    hide ClaimsOf;
  }

  /** On every run each request posted asks for all there is. */
  lemma PostsAskForAll(run: seq<State>, steps: seq<Step>, k: nat, c: Ctx)
    requires IsTrace(run, steps) && k < |steps| && Posts(run[k], run[k+1], c)
    ensures AsksForAll(run[k], run[k+1].live[c].op)
  {
    hide Inv;
    hide Apply;
    hide AsksForAll;
    hide Posts;
    TraceInv(run, steps, k);
    PostAsksForAll(run[k], steps[k], c);
  }

  // ---- After a disconnection ----

  /** Not past the test of IsConnected in a receive or in PostSend. */
  predicate BeforeTest(th: Thread) {
    && !(InPostRecv(th.io) && !th.io.CheckRecv?) && !(InPreRecv(th.io) && !th.io.CheckPre?)
    && !th.call.Acquire? && !th.call.Append?
  }

  ghost predicate Ended(s: State) {
    !s.connected && forall t :: 0 <= t < |s.threads| ==> BeforeTest(s.threads[t])
  }

  lemma EndedStays(s: State, step: Step)
    requires Inv(s) && Enabled(s, step) && Sane(s, step) && Ended(s)
    ensures var s' := Apply(s, step);
      && Ended(s') && s'.send.accepted == s.send.accepted
      && forall c :: IsRecvOp(s', c) ==> IsRecvOp(s, c)
  {
    hide Inv;
    hide Apply;
    hide Allowed;
    hide ClaimsOf;
    hide R.Valid;
    StepHas(s, step);
    HasOnlyThread(s, step);
    EndedThread(s, step);
    PostsNoReceive(s, step);
    hide BeforeTest;
  }

  lemma PostsNoReceive(s: State, step: Step)
    requires Enabled(s, step) && Sane(s, step) && BeforeTest(s.threads[step.t])
    ensures forall c :: IsRecvOp(Apply(s, step), c) ==> IsRecvOp(s, c)
  {
    hide Apply;
    hide Allowed;
    hide ClaimsOf;
    hide R.Valid;
    StepHas(s, step);
  }

  ghost predicate ThreadEnded(s: State, s': State, t: Tid) {
    t < |s'.threads| && BeforeTest(s'.threads[t]) && !s'.connected && s'.send.accepted == s.send.accepted
  }

  lemma EndedSend(s: State, t: Tid, ok: bool, addr: Ctx)
    requires t < |s.threads| && BeforeTest(s.threads[t]) && !s.connected && R.Valid(s.send.ring)
    requires LockLink(s.lock, s.threads[t], t) && !s.threads[t].call.NoCall?
    ensures InFlush(s.threads[t].call) ==> ThreadEnded(s, FlushStep(s, t, ok, addr), t)
    ensures !InFlush(s.threads[t].call) ==> ThreadEnded(s, CallStep(s, t), t)
  {
    hide R.Valid;
    hide R.Contiguous;
    hide R.Remove;
    hide FrontSpan;
  }

  lemma EndedReceive(s: State, t: Tid, ok: bool, addr: Ctx)
    requires t < |s.threads| && BeforeTest(s.threads[t]) && !s.connected && s.threads[t].call.NoCall?
    ensures InPostRecv(s.threads[t].io) ==> ThreadEnded(s, PostRecvStep(s, t, ok, addr), t)
    ensures InPreRecv(s.threads[t].io) ==> ThreadEnded(s, PreRecvStep(s, t, ok, addr), t)
    ensures !InPostRecv(s.threads[t].io) && !InPreRecv(s.threads[t].io) ==> ThreadEnded(s, JobStep(s, t), t)
  {
    hide R.Window;
    hide R.WriteOffset;
    hide R.Commit;
  }

  lemma EndedOther(s: State, step: Step)
    requires Enabled(s, step) && Sane(s, step) && BeforeTest(s.threads[step.t]) && !s.connected && !step.Go?
    ensures ThreadEnded(s, Apply(s, step), step.t)
  {
    hide R.Valid;
    hide R.Remove;
    hide R.Contents;
    hide Stored;
  }

  lemma EndedThread(s: State, step: Step)
    requires Inv(s) && Enabled(s, step) && Sane(s, step) && BeforeTest(s.threads[step.t]) && !s.connected
    ensures ThreadEnded(s, Apply(s, step), step.t)
  {
    hide R.Valid;
    hide ThreadEnded;
    hide BeforeTest;
    hide FlushStep;
    hide CallStep;
    hide PostRecvStep;
    hide PreRecvStep;
    hide JobStep;
    hide LockLink;
    assert LockLink(s.lock, s.threads[step.t], step.t);
    hide Inv;
    if !step.Go? {
      EndedOther(s, step);
    } else if s.threads[step.t].call.NoCall? {
      EndedReceive(s, step.t, step.ok, step.addr);
    } else {
      EndedSend(s, step.t, step.ok, step.addr);
    }
  }

  /** Once the session is disconnected and no thread is between a test of
      IsConnected and what it guards, no run accepts another byte to send or posts another receive. */
  lemma {:induction false} NothingAfterTheEnd(run: seq<State>, steps: seq<Step>, j: nat, k: nat)
    requires IsTrace(run, steps) && j <= k <= |steps| && Ended(run[j])
    ensures Ended(run[k]) && run[k].send.accepted == run[j].send.accepted
    ensures forall c :: IsRecvOp(run[k], c) ==> IsRecvOp(run[j], c)
    decreases k
  {
    hide Inv;
    hide Apply;
    hide Sane;
    hide Ended;
    hide IsRecvOp;
    if j < k {
      NothingAfterTheEnd(run, steps, j, k - 1);
      TraceInv(run, steps, k - 1);
      EndedStays(run[k-1], steps[k-1]);
    }
  }

  // ---- Every offer is taken once, or refused ----

  /** PostSend has not written its bytes yet. */
  predicate Offering(call: Call, data: seq<byte>) {
    call == Check(data) || call == Acquire(data) || call == Append(data)
  }

  predicate PastWrite(call: Call) {
    call.NoCall? || call.Unlock? || InFlush(call)
  }

  /** The step, inside the lock, appends these bytes exactly if they fit the free window. */
  ghost predicate Takes(s: State, t: Tid, s': State, data: seq<byte>) {
    && s.lock == Some(t)
    && s'.send.accepted == s.send.accepted + if |data| <= R.Window(s.send.ring).1 then data else []
  }

  /** What an access of thread t means for the offer it is dealing with. */
  ghost predicate OfferMoves(s: State, t: Tid, s': State)
    requires t < |s.threads| == |s'.threads|
  {
    var call' := s'.threads[t].call;
    match s.threads[t].call
    case Check(data) => call' == (if s.connected then Acquire(data) else NoCall) && s'.send.accepted == s.send.accepted
    case Acquire(data) => call' == Append(data) && s'.send.accepted == s.send.accepted
    case Append(data) => PastWrite(call') && Takes(s, t, s', data)
    case call =>
      && s'.send.accepted == s.send.accepted && (PastWrite(call) ==> PastWrite(call'))
      && !call'.Check? && !call'.Acquire? && !call'.Append?
  }

  lemma AppendTakes(s: State, t: Tid)
    requires t < |s.threads| && R.Valid(s.send.ring) && s.threads[t].call.Append? && s.lock == Some(t)
    ensures OfferMoves(s, t, CallStep(s, t))
  {
    hide R.Valid;
    hide R.Write;
    hide R.Contents;
    hide R.Window;
    R.WriteAppends(s.send.ring, s.threads[t].call.data);
  }

  lemma CallMoves(s: State, t: Tid)
    requires t < |s.threads| && R.Valid(s.send.ring) && LockLink(s.lock, s.threads[t], t)
    requires !InFlush(s.threads[t].call) && !s.threads[t].call.NoCall? && !s.threads[t].call.Append?
    ensures OfferMoves(s, t, CallStep(s, t))
  {
    hide R.Valid;
    hide R.Remove;
    hide R.Contiguous;
    hide R.Window;
  }

  lemma FlushMoves(s: State, t: Tid, ok: bool, addr: Ctx)
    requires t < |s.threads| && InFlush(s.threads[t].call)
    ensures OfferMoves(s, t, FlushStep(s, t, ok, addr))
  {
    hide R.Window;
    hide FrontSpan;
  }

  lemma CallGoesOn(s: State, step: Step)
    requires Inv(s) && Enabled(s, step) && Sane(s, step) && !s.threads[step.t].call.NoCall?
    ensures |Apply(s, step).threads| == |s.threads| && OfferMoves(s, step.t, Apply(s, step))
  {
    hide OwnersOk;
    hide SendOk;
    hide RecvOk;
    hide HeardOk;
    hide LockLink;
    hide R.Valid;
    hide FlushStep;
    hide CallStep;
    hide OfferMoves;
    assert LockLink(s.lock, s.threads[step.t], step.t);
    var t := step.t;
    assert step.Go?;
    if InFlush(s.threads[t].call) {
      FlushMoves(s, t, step.ok, step.addr);
    } else if s.threads[t].call.Append? {
      HasLock(s, t);
      AppendTakes(s, t);
    } else {
      CallMoves(s, t);
    }
    StepHas(s, step);
    HasOnlyThread(s, step);
  }

  lemma HasLock(s: State, t: Tid)
    requires t < |s.threads| && LockLink(s.lock, s.threads[t], t) && s.threads[t].call.Append?
    ensures s.lock == Some(t)
  {
  }

  lemma StartOffers(s: State, step: Step)
    requires Enabled(s, step) && Sane(s, step) && step.StartSend?
    ensures var s' := Apply(s, step);
      |s'.threads| == |s.threads| && s'.threads[step.t].call == Check(step.data)
  {
    hide R.Valid;
  }

  /** From the state after step j up to state k, thread t is inside the call that step began. */
  ghost predicate InCallSince(run: seq<State>, j: nat, k: nat, t: Tid)
    requires k < |run|
  {
    forall m: nat :: j < m <= k ==> t < |run[m].threads| && !run[m].threads[t].call.NoCall?
  }

  ghost predicate TakesAt(run: seq<State>, steps: seq<Step>, i: nat, t: Tid, data: seq<byte>)
    requires |run| == |steps| + 1
  {
    i < |steps| && steps[i].t == t && Takes(run[i], t, run[i+1], data)
  }

  /** No step of t after j and before k, other than step i, changes what is accepted. */
  ghost predicate TakesNoMore(run: seq<State>, steps: seq<Step>, j: nat, k: nat, i: nat, t: Tid)
    requires |run| == |steps| + 1
  {
    forall m: nat :: j < m < k && m < |steps| && m != i && steps[m].t == t ==>
      run[m+1].send.accepted == run[m].send.accepted
  }

  /** What has become of the offer of step j: not yet written; or written by
      one step, the i-th; or given up, because the i-th state was disconnected. */
  ghost predicate OfferAt(run: seq<State>, steps: seq<Step>, j: nat, k: nat, t: Tid, data: seq<byte>, i: nat)
    requires |run| == |steps| + 1 && k <= |steps|
  {
    && t < |run[k].threads|
    && var call := run[k].threads[t].call;
      || (Offering(call, data) && i == j && TakesNoMore(run, steps, j, k, i, t))
      || (PastWrite(call) && j < i < k && TakesAt(run, steps, i, t, data) && TakesNoMore(run, steps, j, k, i, t))
      || (call.NoCall? && j < i < k && !run[i].connected && TakesNoMore(run, steps, j, k, j, t))
  }

  lemma {:induction false} OfferGoesOn(run: seq<State>, steps: seq<Step>, j: nat, k: nat) returns (i: nat)
    requires IsTrace(run, steps) && j < k <= |steps| && steps[j].StartSend? && InCallSince(run, j, k - 1, steps[j].t)
    ensures OfferAt(run, steps, j, k, steps[j].t, steps[j].data, i)
    decreases k
  {
    hide Inv;
    hide Apply;
    hide Sane;
    hide Doomed;
    hide Cause;
    hide R.Window;
    var t, data := steps[j].t, steps[j].data;
    TraceInv(run, steps, k - 1);
    StepIsFateful(run[k-1], steps[k-1]);
    if k == j + 1 {
      i := j;
      StartOffers(run[j], steps[j]);
    } else {
      i := OfferGoesOn(run, steps, j, k - 1);
      assert !run[k-1].threads[t].call.NoCall?;
      if steps[k-1].t == t {
        CallGoesOn(run[k-1], steps[k-1]);
        if run[k-1].threads[t].call.Append? || (run[k-1].threads[t].call.Check? && !run[k-1].connected) { i := k - 1; }
      }
    }
  }

  /** Whatever other threads do, a call of PostSend either finds the session
      disconnected, or appends its bytes in one step inside the lock, exactly if
      they fit; and it accepts nothing else. */
  lemma OfferIsTakenOnce(run: seq<State>, steps: seq<Step>, j: nat, k: nat)
    requires IsTrace(run, steps) && j < k <= |steps| && steps[j].StartSend? && InCallSince(run, j, k - 1, steps[j].t)
    requires steps[j].t < |run[k].threads| && run[k].threads[steps[j].t].call.NoCall?
    ensures
      || (exists i: nat :: j < i < k && TakesAt(run, steps, i, steps[j].t, steps[j].data) &&
                           TakesNoMore(run, steps, j, k, i, steps[j].t))
      || (TakesNoMore(run, steps, j, k, j, steps[j].t) && exists i: nat :: j < i < k && !run[i].connected)
  {
    var i := OfferGoesOn(run, steps, j, k);
  }

  /** A thread that is offering bytes was called with them. */
  lemma {:induction false} OfferWasMade(run: seq<State>, steps: seq<Step>, k: nat, t: Tid, data: seq<byte>)
      returns (j: nat)
    requires IsTrace(run, steps) && k <= |steps| && t < |run[k].threads| && Offering(run[k].threads[t].call, data)
    ensures j < k && steps[j] == StartSend(t, data) && InCallSince(run, j, k, t)
    decreases k
  {
    hide Inv;
    hide Apply;
    hide Sane;
    hide Doomed;
    hide Cause;
    if k == 0 {
      NobodyOffers(run[0], t, data);
    } else {
      TraceInv(run, steps, k - 1);
      StepIsFateful(run[k-1], steps[k-1]);
      if steps[k-1] == StartSend(t, data) {
        j := k - 1;
      } else {
        OfferCameFrom(run[k-1], steps[k-1], t, data);
        j := OfferWasMade(run, steps, k - 1, t, data);
      }
    }
  }

  lemma NobodyOffers(s: State, t: Tid, data: seq<byte>)
    requires Init(s) && t < |s.threads|
    ensures !Offering(s.threads[t].call, data)
  {
  }

  lemma OfferCameFrom(s: State, step: Step, t: Tid, data: seq<byte>)
    requires Inv(s) && Enabled(s, step) && Sane(s, step) && t < |s.threads| && t < |Apply(s, step).threads|
    requires Offering(Apply(s, step).threads[t].call, data) && step != StartSend(t, data)
    ensures Offering(s.threads[t].call, data)
  {
    hide Inv;
    hide R.Valid;
    if step.t == t && !s.threads[t].call.NoCall? {
      CallGoesOn(s, step);
      hide Apply;
    } else if step.t == t {
      NothingIsOffered(s, step);
    } else {
      hide Doomed;
      hide Cause;
      StepIsFateful(s, step);
      hide Apply;
    }
  }

  /** Outside PostSend and SendCompletion nothing is offered or accepted, except by StartSend. */
  ghost predicate NoOffer(s: State, s': State, t: Tid) {
    && t < |s'.threads| && s'.send.accepted == s.send.accepted
    && var call := s'.threads[t].call; !call.Check? && !call.Acquire? && !call.Append?
  }

  lemma JobOffersNothing(s: State, t: Tid)
    requires t < |s.threads| && s.threads[t].call.NoCall?
    ensures NoOffer(s, JobStep(s, t), t)
  {
    hide R.Commit;
  }

  lemma OtherOffersNothing(s: State, step: Step)
    requires Enabled(s, step) && Sane(s, step) && !step.Go? && !step.StartSend? && s.threads[step.t].call.NoCall?
    ensures NoOffer(s, Apply(s, step), step.t)
  {
    hide R.Valid;
    hide R.Remove;
    hide R.Contents;
    hide Stored;
  }

  lemma NothingIsOffered(s: State, step: Step)
    requires Enabled(s, step) && Sane(s, step) && s.threads[step.t].call.NoCall? && !step.StartSend?
    ensures NoOffer(s, Apply(s, step), step.t)
  {
    hide R.Valid;
    hide PostRecvStep;
    hide PreRecvStep;
    hide JobStep;
    if !step.Go? {
      OtherOffersNothing(s, step);
    } else if InPostRecv(s.threads[step.t].io) {
      PostRecvIsRecvOnly(s, step.t, step.ok, step.addr);
    } else if InPreRecv(s.threads[step.t].io) {
      PreRecvIsRecvOnly(s, step.t, step.ok, step.addr);
    } else {
      JobOffersNothing(s, step.t);
    }
  }

  /** Step j began the call of PostSend with these bytes that the thread of step k is in. */
  ghost predicate IsOfferOf(run: seq<State>, steps: seq<Step>, j: nat, k: nat, data: seq<byte>)
    requires |run| == |steps| + 1 && k < |steps|
  {
    j < k && steps[j] == StartSend(steps[k].t, data) && InCallSince(run, j, k, steps[k].t)
  }

  /** Nothing is accepted but what a call of PostSend that is still under way offered, inside the lock. */
  lemma AcceptedWasOffered(run: seq<State>, steps: seq<Step>, k: nat)
    requires IsTrace(run, steps) && k < |steps| && run[k+1].send.accepted != run[k].send.accepted
    ensures exists j: nat, data :: IsOfferOf(run, steps, j, k, data) && TakesAt(run, steps, k, steps[k].t, data)
  {
    hide Inv;
    hide Takes;
    hide R.Valid;
    TraceInv(run, steps, k);
    var s, step := run[k], steps[k];
    OnlyAppendAccepts(s, step);
    CallGoesOn(s, step);
    hide Apply;
    hide Enabled;
    var data := s.threads[step.t].call.data;
    var j := OfferWasMade(run, steps, k, step.t, data);
    assert IsOfferOf(run, steps, j, k, data) && TakesAt(run, steps, k, step.t, data);
  }

  lemma OnlyAppendAccepts(s: State, step: Step)
    requires Inv(s) && Enabled(s, step) && Sane(s, step) && Apply(s, step).send.accepted != s.send.accepted
    ensures s.threads[step.t].call.Append?
  {
    hide Inv;
    hide R.Valid;
    if !s.threads[step.t].call.NoCall? {
      CallGoesOn(s, step);
      hide Apply;
    } else if !step.StartSend? {
      NothingIsOffered(s, step);
      hide Apply;
    }
  }

  // ---- The flags tell the truth ----

  /** An access that an assertion forbids. */
  predicate Forbidden(s: State, th: Thread) {
    (th.call.Complete? && s.send.pending != 1) || (th.call.Increment? && s.send.pending != 0)
  }

  /** A deletion of a context that is not live. */
  predicate DeletesTwice(s: State, th: Thread) {
    || (th.call.DropSend? && th.call.c2 !in s.live)
    || (th.call.NoCall? && (th.io.DropRecv? || th.io.DropPre?) && th.io.c2 !in s.live)
    || (th.call.NoCall? && th.io.Dispose? && th.io.c !in s.live)
  }

  lemma SendFlags(s: State, t: Tid, ok: bool, addr: Ctx)
    requires t < |s.threads| && R.Valid(s.send.ring)
    ensures FlushStep(s, t, ok, addr).send.crashed <==>
      s.send.crashed || (s.threads[t].call.Increment? && s.send.pending != 0)
    ensures FlushStep(s, t, ok, addr).fault <==>
      s.fault || (s.threads[t].call.DropSend? && s.threads[t].call.c2 !in s.live)
    ensures CallStep(s, t).send.crashed <==> s.send.crashed || (s.threads[t].call.Complete? && s.send.pending != 1)
    ensures CallStep(s, t).fault == s.fault
  {
    hide R.Valid;
    hide R.Remove;
    hide R.Write;
    hide R.Contiguous;
    hide FrontSpan;
  }

  lemma PostRecvFlags(s: State, t: Tid, ok: bool, addr: Ctx)
    requires t < |s.threads|
    ensures PostRecvStep(s, t, ok, addr).fault <==>
      s.fault || (s.threads[t].io.DropRecv? && s.threads[t].io.c2 !in s.live)
    ensures PostRecvStep(s, t, ok, addr).send.crashed == s.send.crashed
  {
    hide R.Window;
    hide R.WriteOffset;
  }

  lemma OtherFlags(s: State, t: Tid, ok: bool, addr: Ctx)
    requires t < |s.threads|
    ensures PreRecvStep(s, t, ok, addr).fault <==>
      s.fault || (s.threads[t].io.DropPre? && s.threads[t].io.c2 !in s.live)
    ensures JobStep(s, t).fault <==> s.fault || (s.threads[t].io.Dispose? && s.threads[t].io.c !in s.live)
    ensures PreRecvStep(s, t, ok, addr).send.crashed == s.send.crashed == JobStep(s, t).send.crashed
  {
    hide R.Commit;
  }

  /** In any state whatever, reachable or not, the flags record exactly the
      assertions that fail and the contexts deleted twice. */
  lemma FlagsAreTrue(s: State, step: Step)
    requires Enabled(s, step) && Sane(s, step)
    ensures Apply(s, step).send.crashed <==> s.send.crashed || (step.Go? && Forbidden(s, s.threads[step.t]))
    ensures Apply(s, step).fault <==> s.fault || (step.Go? && DeletesTwice(s, s.threads[step.t]))
  {
    hide R.Valid;
    hide R.Remove;
    hide R.Contents;
    hide Stored;
    hide FlushStep;
    hide CallStep;
    hide PostRecvStep;
    hide PreRecvStep;
    hide JobStep;
    if step.Go? {
      SendFlags(s, step.t, step.ok, step.addr);
      PostRecvFlags(s, step.t, step.ok, step.addr);
      OtherFlags(s, step.t, step.ok, step.addr);
    }
  }
}
