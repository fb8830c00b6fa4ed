/** One client session, counted over both its lives at once: as an object of
    the dispatcher, referenced by timer entries and dispatches, and as a
    connection, referenced by its contexts and by its being issued. One
    mRefCount serves all of them; each step is a step of one of the two. */
module SessionReferences {
  import opened Option
  import JQ = JobQueue
  import D = Dispatcher
  import C = ClientLife

  /** The dispatcher, whose object o is the session, and the connection. The
      count is the object's; the one in c, and c.borrowed, are not used. */
  datatype State = State(d: D.State, c: C.State)

  /** The connection as it sees the count: everything of the dispatcher's is borrowed. */
  function View(s: State, o: D.Obj): C.State
    requires o < |s.d.objects|
  {
    s.c.(ref := s.d.objects[o].ref, borrowed := D.Sum(D.Ref, s.d.threads, o))
  }

  datatype Step =
    | Dispatch(dispatch: D.Step)  // any step of the dispatcher but an AddRef or ReleaseRef of the session
    | Connection(access: C.Step)

  predicate OfSession(d: D.State, step: D.Step, o: D.Obj) {
    (step.Hold? && step.o == o) || (step.Drop? && step.c in d.holders && d.holders[step.c] == o)
  }

  /** AddRef and ReleaseRef of the session. Which holder it was is bookkeeping;
      a release that no holder accounts for is possible too. */
  ghost predicate Counts(d: D.State, d': D.State, o: D.Obj, change: int)
    requires o < |d.objects|
  {
    if change == 0 then d' == d
    else if change > 0 then exists id :: id !in d.holders && d' == D.Apply(d, D.Hold(id, o))
    else if exists id :: id in d.holders && d.holders[id] == o then
      exists id :: id in d.holders && d.holders[id] == o && d' == D.Apply(d, D.Drop(id))
    else
      var objects := d.objects[o := D.AddRef(d.objects[o], -1)];
      d' == d.(objects := objects)
  }

  ghost predicate IsStep(s: State, s': State, o: D.Obj, step: Step)
    requires o < |s.d.objects|
  {
    match step
    case Dispatch(st) =>
      && D.Enabled(s.d, st) && D.Targets(s.d, st) && !OfSession(s.d, st, o)
      && s' == State(D.Apply(s.d, st), s.c)
    case Connection(st) =>
      && !st.Borrow? && !st.Return? && C.Enabled(View(s, o), st)
      && s'.c == C.Apply(View(s, o), st)
      && Counts(s.d, s'.d, o, s'.c.ref - s.d.objects[o].ref)
  }

  ghost predicate Inv(s: State, o: D.Obj) {
    D.Inv(s.d) && o < |s.d.objects| && C.Inv(View(s, o))
  }

  // ---- Steps of the dispatcher ----

  lemma OtherHoldersKept(d: D.State, step: D.Step, o: D.Obj)
    requires D.Enabled(d, step) && D.Targets(d, step) && !OfSession(d, step, o)
    ensures D.HoldersOf(D.Apply(d, step).holders, o) == D.HoldersOf(d.holders, o)
    ensures |D.Apply(d, step).objects| == |d.objects|
  {
    hide D.RunTop;
  }

  lemma RefOkOf(d: D.State, o: D.Obj)
    requires D.Inv(d) && o < |d.objects|
    ensures d.objects[o].ref == |D.HoldersOf(d.holders, o)| + D.Sum(D.Ref, d.threads, o)
  {
    assert D.ObjectOk(d, o);
  }

  /** A dispatcher step changes the count and what it borrows by the same amount. */
  lemma DispatchKeeps(s: State, s': State, o: D.Obj, step: D.Step)
    requires Inv(s, o) && IsStep(s, s', o, Dispatch(step))
    ensures Inv(s', o)
  {
    RefOkOf(s.d, o);
    OtherHoldersKept(s.d, step, o);
    D.StepKeeps(s.d, step);
    hide D.Inv;
    hide D.Apply;
    RefOkOf(s'.d, o);
    hide D.HoldersOf;
    hide D.Sum;
    assert C.AllContexts(View(s', o)) == C.AllContexts(View(s, o)) && C.AllWays(View(s', o)) == C.AllWays(View(s, o));
  }

  // ---- Steps of the connection ----

  lemma ChangesByOne(c: C.State, step: C.Step)
    requires C.Enabled(c, step) && !step.Borrow? && !step.Return?
    ensures var c' := C.Apply(c, step); -1 <= c'.ref - c.ref <= 1 && c'.borrowed == c.borrowed
  {
  }

  lemma HoldCounts(d: D.State, id: nat, o: D.Obj)
    requires D.Inv(d) && o < |d.objects| && id !in d.holders
    ensures var d' := D.Apply(d, D.Hold(id, o));
      && D.Inv(d') && d'.threads == d.threads && |d'.objects| == |d.objects|
      && d'.objects[o].ref == d.objects[o].ref + 1
  {
    D.StepKeeps(d, D.Hold(id, o));
    hide D.Inv;
  }

  lemma DropCounts(d: D.State, id: nat, o: D.Obj)
    requires D.Inv(d) && o < |d.objects| && id in d.holders && d.holders[id] == o
    ensures var d' := D.Apply(d, D.Drop(id));
      && D.Inv(d') && d'.threads == d.threads && |d'.objects| == |d.objects|
      && d'.objects[o].ref == d.objects[o].ref - 1
  {
    D.StepKeeps(d, D.Drop(id));
    hide D.Inv;
  }

  lemma SomeHolder(d: D.State, o: D.Obj)
    requires D.Inv(d) && o < |d.objects| && d.objects[o].ref > D.Sum(D.Ref, d.threads, o)
    ensures exists id :: id in d.holders && d.holders[id] == o
  {
    RefOkOf(d, o);
    hide D.Inv;
    var holders := D.HoldersOf(d.holders, o);
    assert |holders| > 0;
    var id :| id in holders;
  }

  lemma CountsKeeps(d: D.State, d': D.State, o: D.Obj, change: int)
    requires D.Inv(d) && o < |d.objects| && -1 <= change <= 1 && Counts(d, d', o, change)
    requires change < 0 ==> d.objects[o].ref > D.Sum(D.Ref, d.threads, o)
    ensures D.Inv(d') && d'.threads == d.threads && |d'.objects| == |d.objects|
    ensures d'.objects[o].ref == d.objects[o].ref + change
  {
    hide D.Inv;
    if change > 0 {
      var id :| id !in d.holders && d' == D.Apply(d, D.Hold(id, o));
      HoldCounts(d, id, o);
    } else if change < 0 {
      SomeHolder(d, o);
      var id :| id in d.holders && d.holders[id] == o && d' == D.Apply(d, D.Drop(id));
      DropCounts(d, id, o);
    }
    hide D.Apply;
  }

  /** A connection step takes or gives back a reference that is its own: after
      it there are still as many as the dispatcher borrows. */
  lemma ConnectionKeeps(s: State, s': State, o: D.Obj, step: C.Step)
    requires Inv(s, o) && IsStep(s, s', o, Connection(step))
    ensures Inv(s', o)
  {
    var v := View(s, o);
    C.StepKeeps(v, step);
    ChangesByOne(v, step);
    assert s'.c.ref >= s'.c.borrowed;
    hide D.Inv;
    hide Counts;
    hide C.Apply;
    hide C.Enabled;
    CountsKeeps(s.d, s'.d, o, s'.c.ref - s.d.objects[o].ref);
    assert View(s', o) == s'.c;
  }

  // ---- Runs ----

  ghost predicate Next(s: State, s': State, o: D.Obj)
    requires o < |s.d.objects|
  {
    exists step :: IsStep(s, s', o, step)
  }

  ghost predicate NextAt(run: seq<State>, o: D.Obj, k: int) {
    0 <= k < |run| - 1 ==> o < |run[k].d.objects| && Next(run[k], run[k+1], o)
  }

  ghost predicate IsRun(run: seq<State>, o: D.Obj) {
    && |run| > 0 && D.Init(run[0].d) && o < |run[0].d.objects| && C.Init(View(run[0], o))
    && forall k :: NextAt(run, o, k)
  }

  lemma InitInv(s: State, o: D.Obj)
    requires D.Init(s.d) && o < |s.d.objects| && C.Init(View(s, o))
    ensures Inv(s, o)
  {
    D.InitInv(s.d);
    C.InitInv(View(s, o));
  }

  lemma {:induction false} RunInv(run: seq<State>, o: D.Obj, k: nat)
    requires IsRun(run, o) && k < |run|
    ensures Inv(run[k], o)
  {
    hide Inv;
    hide IsStep;
    if k == 0 {
      InitInv(run[0], o);
    } else {
      RunInv(run, o, k - 1);
      assert NextAt(run, o, k - 1);
      var step :| IsStep(run[k - 1], run[k], o, step);
      match step {
        case Dispatch(st) => DispatchKeeps(run[k - 1], run[k], o, st);
        case Connection(st) => ConnectionKeeps(run[k - 1], run[k], o, st);
      }
    }
  }

  // ---- The count ----

  /** Undispatched timer entries of the session. */
  function TimerEntries(ths: seq<D.Thread>, o: D.Obj): nat {
    if ths == [] then 0 else TimerEntries(ths[..|ths| - 1], o) + D.Occurs(ths[|ths| - 1].timers, o)
  }

  /** Dispatches that hold it: on a stack after their AddRef, or put off in a thread's list. */
  function Dispatches(ths: seq<D.Thread>, o: D.Obj): nat {
    if ths == [] then 0
    else
      var th := ths[|ths| - 1];
      Dispatches(ths[..|ths| - 1], o) + D.StackWeight(D.Ref, th.stack, o) + D.Occurs(th.executers, o)
  }

  lemma {:induction false} BorrowedParts(ths: seq<D.Thread>, o: D.Obj)
    ensures D.Sum(D.Ref, ths, o) == TimerEntries(ths, o) + Dispatches(ths, o)
  {
    if ths != [] { BorrowedParts(ths[..|ths| - 1], o); }
  }

  /** In every reachable state of the two together mRefCount is the reference of
      issuing plus the contexts plus the timer entries plus the dispatches, and
      the assertion of ReleaseRef never fails; nor would it where the dispatcher
      or a timer gives a reference back. */
  lemma RefCountIsExact(run: seq<State>, o: D.Obj, k: nat)
    requires IsRun(run, o) && k < |run|
    ensures var s := run[k];
      && o < |s.d.objects| && !s.c.crashed
      && s.d.objects[o].ref ==
           s.c.issue + C.AllContexts(View(s, o)) + TimerEntries(s.d.threads, o) + Dispatches(s.d.threads, o)
      && forall t: D.Tid :: t < |s.d.threads| && D.Releases(s.d.threads[t], o) ==> s.d.objects[o].ref > 0
  {
    RunInv(run, o, k);
    BorrowedParts(run[k].d.threads, o);
    hide D.Inv;
    RefOkOf(run[k].d, o);
    hide D.HoldersOf;
    forall t: D.Tid | t < |run[k].d.threads| && D.Releases(run[k].d.threads[t], o)
      ensures D.Sum(D.Ref, run[k].d.threads, o) > 0
    {
      D.ReleaseIsCounted(run[k].d.threads, t, o);
    }
    hide D.Releases;
  }

  // ---- Nothing is shut out ----

  lemma {:induction false} FreshHolder(ids: set<nat>) returns (id: nat)
    ensures forall x :: x in ids ==> x < id
  {
    if ids == {} { id := 0; } else {
      var x :| x in ids;
      var rest := ids - {x};
      id := FreshHolder(rest);
      assert forall y :: y in ids ==> y == x || y in rest;
      if id <= x { id := x + 1; }
    }
  }

  lemma CountsIsPossible(d: D.State, o: D.Obj, change: int) returns (d': D.State)
    requires o < |d.objects| && -1 <= change <= 1
    ensures Counts(d, d', o, change)
  {
    if change == 0 {
      d' := d;
    } else if change > 0 {
      var id := FreshHolder(d.holders.Keys);
      assert id !in d.holders;
      d' := D.Apply(d, D.Hold(id, o));
    } else if id :| id in d.holders && d.holders[id] == o {
      d' := D.Apply(d, D.Drop(id));
    } else {
      var objects := d.objects[o := D.AddRef(d.objects[o], -1)];
      d' := d.(objects := objects);
    }
  }

  /** Counting both lives at once shuts out no step of either: whatever the
      dispatcher or the connection can do next, the two together can. */
  lemma StepsArePossible(s: State, o: D.Obj, step: Step)
    requires Inv(s, o)
    requires match step
      case Dispatch(st) => D.Enabled(s.d, st) && !OfSession(s.d, st, o)
      case Connection(st) => !st.Borrow? && !st.Return? && C.Enabled(View(s, o), st)
    ensures exists s' :: IsStep(s, s', o, step)
  {
    match step {
      case Dispatch(st) =>
        D.TargetExists(s.d, st);
        assert IsStep(s, State(D.Apply(s.d, st), s.c), o, step);
      case Connection(st) =>
        var v := View(s, o);
        ChangesByOne(v, st);
        hide D.Inv;
        var c' := C.Apply(v, st);
        var d' := CountsIsPossible(s.d, o, c'.ref - s.d.objects[o].ref);
        hide Counts;
        hide C.Apply;
        hide C.Enabled;
        assert IsStep(s, State(d', c'), o, step);
    }
  }
}
