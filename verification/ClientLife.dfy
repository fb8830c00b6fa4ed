/** The life of one session of the dummy client: the reference taken when it is
    issued is given back by the completion of its disconnection. Any number of
    threads, stepped by one access to shared memory at a time. */
module ClientLife {

  type Tid = nat

  /** What a thread is doing for the session, apart from disconnecting it. */
  datatype Phase =
    | Idle
    | Issued          // ConnectPlayerSessions: AddRef done, ConnectRequest next
    | ConnectMade     // ConnectRequest: context made, ConnectEx next
    | ConnectFailed   // ConnectRequest: DeleteIoContext
    | Connecting      // IO_CONNECT completed: ConnectCompletion
    | FirstPreRecv    // ConnectCompletion: mConnected set, PreRecv next
    | Handling        // a send or receive completed, or ConnectCompletion went on to StartTest
    | Disconnected    // IO_DISCONNECT completed: DisconnectCompletion
    | Delete          // DeleteIoContext of the completed context

  /** Where it is in DisconnectRequest: it won the exchange, has made the
      context, or is deleting it after DisconnectEx failed. */
  datatype Cut = NoCut | Won | Made | CutFailed

  /** spare: a send or receive context is made and not posted yet. */
  datatype Thread = Thread(phase: Phase, cut: Cut, spare: bool)

  /** mConnected and mRefCount; the reference of issuing, while it is held;
      whether the session was ever issued; the requests the kernel has;
      references held by timers and dispatches; how often the way to
      DisconnectCompletion was lost; whether an assertion on the reference count
      or on mConnected failed; whether the process was stopped by the assertion
      behind a failed socket option. */
  datatype State = State(
    connected: bool, ref: int, issue: int, issued: bool,
    connects: nat, disconnects: nat, transfers: nat, borrowed: nat,
    lost: nat, crashed: bool, halted: bool, threads: seq<Thread>)

  /** How the socket options of ConnectCompletion come out: all set, or
      SO_UPDATE_CONNECT_CONTEXT refused, or TCP_NODELAY or SO_RCVBUF refused, which is asserted not to happen. */
  datatype Options = Accepted | NotConnected | Refused

  datatype Step =
    | Issue(t: Tid)                    // AddRef in ConnectPlayerSessions
    | MakeConnect(t: Tid)              // the test of mConnected and the new context
    | PostConnect(t: Tid, ok: bool)    // ConnectEx
    | DropConnect(t: Tid)
    | TakeConnect(t: Tid)              // GetQueuedCompletionStatus
    | TakeTransfer(t: Tid)
    | TakeDisconnect(t: Tid)
    | Connect(t: Tid, options: Options)  // the socket options and the exchange of mConnected with 1
    | PreRecv(t: Tid, ok: bool)        // the first PreRecv; if it failed, the exchange with 0
    | MakeTransfer(t: Tid)             // PreRecv, PostRecv or FlushSend makes a context
    | PostTransfer(t: Tid, ok: bool)   // WSARecv or WSASend; DeleteIoContext if it failed
    | Exchange(t: Tid)                 // DisconnectRequest: the exchange of mConnected with 0
    | MakeCut(t: Tid)
    | PostCut(t: Tid, ok: bool)        // DisconnectEx
    | DropCut(t: Tid)
    | GiveBack(t: Tid)                 // ReleaseRef in DisconnectCompletion
    | EndHandling(t: Tid)              // the rest of DoIocpJob before DeleteIoContext
    | DeleteContext(t: Tid)            // ReleaseRef in DeleteIoContext
    | Borrow                           // AddRefForThis of a timer entry or a dispatch
    | Return                           // and its ReleaseRefForThis

  predicate Free(th: Thread) {
    th.cut.NoCut? && !th.spare
  }

  /** A thread calls DisconnectRequest from outside or while it handles a completion. */
  predicate MayCut(th: Thread) {
    (th.phase.Idle? || th.phase.Handling?) && th.cut.NoCut?
  }

  predicate ThreadMay(th: Thread, step: Step) {
    match step
    case Issue(_) => th.phase.Idle? && Free(th)
    case MakeConnect(_) => th.phase.Issued?
    case PostConnect(_, _) => th.phase.ConnectMade?
    case DropConnect(_) => th.phase.ConnectFailed?
    case TakeConnect(_) => th.phase.Idle? && Free(th)
    case TakeTransfer(_) => th.phase.Idle? && Free(th)
    case TakeDisconnect(_) => th.phase.Idle? && Free(th)
    case Connect(_, _) => th.phase.Connecting?
    case PreRecv(_, _) => th.phase.FirstPreRecv? && Free(th)
    case MakeTransfer(_) => (MayCut(th) || th.phase.FirstPreRecv?) && !th.spare
    case PostTransfer(_, _) => th.spare && th.cut.NoCut?
    case Exchange(_) => MayCut(th)
    case MakeCut(_) => th.cut.Won?
    case PostCut(_, _) => th.cut.Made?
    case DropCut(_) => th.cut.CutFailed?
    case GiveBack(_) => th.phase.Disconnected?
    case EndHandling(_) => th.phase.Handling? && Free(th)
    case DeleteContext(_) => th.phase.Delete?
    case _ => true
  }

  predicate Enabled(s: State, step: Step) {
    if step.Borrow? then !s.halted
    else if step.Return? then !s.halted && s.borrowed > 0
    else
      && !s.halted && step.t < |s.threads| && ThreadMay(s.threads[step.t], step)
      && (step.Issue? ==> !s.issued)
      && (step.TakeConnect? ==> s.connects > 0)
      && (step.TakeTransfer? ==> s.transfers > 0)
      && (step.TakeDisconnect? ==> s.disconnects > 0)
  }

  function ThreadAfter(th: Thread, step: Step, connected: bool): Thread {
    match step
    case Issue(_) => th.(phase := Issued)
    case MakeConnect(_) => th.(phase := ConnectMade)
    case PostConnect(_, ok) => th.(phase := if ok then Idle else ConnectFailed)
    case DropConnect(_) => th.(phase := Idle)
    case TakeConnect(_) => th.(phase := Connecting)
    case TakeTransfer(_) => th.(phase := Handling)
    case TakeDisconnect(_) => th.(phase := Disconnected)
    case Connect(_, options) =>
      (match options
       case Accepted => th.(phase := FirstPreRecv)
       case NotConnected => th.(phase := Delete)
       case Refused => th)
    case PreRecv(_, ok) => th.(phase := if ok then Handling else Delete)
    case MakeTransfer(_) => th.(spare := true)
    case PostTransfer(_, _) => th.(spare := false)
    case Exchange(_) => if connected then th.(cut := Won) else th
    case MakeCut(_) => th.(cut := Made)
    case PostCut(_, ok) => th.(cut := if ok then NoCut else CutFailed)
    case DropCut(_) => th.(cut := NoCut)
    case GiveBack(_) => th.(phase := Delete)
    case EndHandling(_) => th.(phase := Delete)
    case DeleteContext(_) => th.(phase := Idle)
    case _ => th
  }

  function AddRef(s: State): State {
    s.(ref := s.ref + 1)
  }

  /** ReleaseRef, whose assertion wants the value before to be positive. */
  function ReleaseRef(s: State): State {
    s.(ref := s.ref - 1, crashed := s.crashed || s.ref <= 0)
  }

  function B(b: bool): nat { if b then 1 else 0 }

  function SharedAfter(s: State, step: Step): State
    requires Enabled(s, step)
  {
    match step
    case Issue(_) => AddRef(s).(issue := s.issue + 1, issued := true)
    case MakeConnect(_) => AddRef(s).(crashed := s.crashed || s.connected)
    case PostConnect(_, ok) => if ok then s.(connects := s.connects + 1) else s.(lost := s.lost + 1)
    case DropConnect(_) => ReleaseRef(s)
    case TakeConnect(_) => s.(connects := s.connects - 1)
    case TakeTransfer(_) => s.(transfers := s.transfers - 1)
    case TakeDisconnect(_) => s.(disconnects := s.disconnects - 1)
    case Connect(_, options) =>
      (match options
       case Accepted => s.(connected := true, crashed := s.crashed || s.connected)
       case NotConnected => s.(lost := s.lost + 1)
       case Refused => s.(halted := true))
    case PreRecv(_, ok) => if ok then s else s.(connected := false, lost := s.lost + B(s.connected))
    case MakeTransfer(_) => AddRef(s)
    case PostTransfer(_, ok) => if ok then s.(transfers := s.transfers + 1) else ReleaseRef(s)
    case Exchange(_) => s.(connected := false)
    case MakeCut(_) => AddRef(s)
    case PostCut(_, ok) => if ok then s.(disconnects := s.disconnects + 1) else s.(lost := s.lost + 1)
    case DropCut(_) => ReleaseRef(s)
    case GiveBack(_) => ReleaseRef(s).(issue := s.issue - 1)
    case EndHandling(_) => s
    case DeleteContext(_) => ReleaseRef(s)
    case Borrow => AddRef(s).(borrowed := s.borrowed + 1)
    case Return => ReleaseRef(s).(borrowed := s.borrowed - 1)
  }

  function Apply(s: State, step: Step): State
    requires Enabled(s, step)
  {
    if step.Borrow? || step.Return? then SharedAfter(s, step)
    else
      var ths := s.threads[step.t := ThreadAfter(s.threads[step.t], step, s.connected)];
      SharedAfter(s, step).(threads := ths)
  }

  // ---- Counting ----

  /** The contexts a thread has in hand. */
  function Contexts(th: Thread): nat {
    B(th.phase.ConnectMade? || th.phase.ConnectFailed? || th.phase.Connecting? || th.phase.FirstPreRecv?
      || th.phase.Handling? || th.phase.Disconnected? || th.phase.Delete?)
    + B(th.spare) + B(th.cut.Made? || th.cut.CutFailed?)
  }

  /** Whether the thread has the session's way to DisconnectCompletion in hand. */
  function Ways(th: Thread): nat {
    B(th.phase.Issued? || th.phase.ConnectMade? || th.phase.Connecting? || th.phase.Disconnected?)
    + B(th.cut.Won? || th.cut.Made?)
  }

  function SumContexts(ths: seq<Thread>): nat {
    if ths == [] then 0 else SumContexts(ths[..|ths| - 1]) + Contexts(ths[|ths| - 1])
  }

  function SumWays(ths: seq<Thread>): nat {
    if ths == [] then 0 else SumWays(ths[..|ths| - 1]) + Ways(ths[|ths| - 1])
  }

  lemma {:induction false} SumsUpdate(ths: seq<Thread>, t: Tid, th: Thread)
    requires t < |ths|
    ensures SumContexts(ths[t := th]) == SumContexts(ths) - Contexts(ths[t]) + Contexts(th)
    ensures SumWays(ths[t := th]) == SumWays(ths) - Ways(ths[t]) + Ways(th)
    ensures SumContexts(ths) >= Contexts(ths[t]) && SumWays(ths) >= Ways(ths[t])
  {
    var n := |ths| - 1;
    if t == n {
      assert ths[t := th][..n] == ths[..n];
    } else {
      SumsUpdate(ths[..n], t, th);
      assert ths[t := th][..n] == ths[..n][t := th];
    }
  }

  /** Every context anywhere, in the kernel or in a thread's hand. */
  function AllContexts(s: State): nat {
    s.connects + s.disconnects + s.transfers + SumContexts(s.threads)
  }

  /** The ways on which the reference of issuing can still be given back. */
  function AllWays(s: State): nat {
    B(s.connected) + s.connects + s.disconnects + SumWays(s.threads)
  }

  ghost predicate Inv(s: State) {
    && s.ref == s.issue + AllContexts(s) + s.borrowed
    && s.issue == AllWays(s) + s.lost
    && s.issue <= B(s.issued) && !s.crashed
  }

  /** How many contexts more, and ways more, the thread has in hand after the step. */
  function ContextsGained(step: Step): int {
    match step
    case MakeConnect(_) => 1
    case PostConnect(_, ok) => if ok then -1 else 0
    case DropConnect(_) => -1
    case TakeConnect(_) => 1
    case TakeTransfer(_) => 1
    case TakeDisconnect(_) => 1
    case MakeTransfer(_) => 1
    case PostTransfer(_, _) => -1
    case MakeCut(_) => 1
    case PostCut(_, ok) => if ok then -1 else 0
    case DropCut(_) => -1
    case DeleteContext(_) => -1
    case _ => 0
  }

  function WaysGained(step: Step, connected: bool): int {
    match step
    case Issue(_) => 1
    case PostConnect(_, _) => -1
    case TakeConnect(_) => 1
    case TakeDisconnect(_) => 1
    case Connect(_, options) => if options.Refused? then 0 else -1
    case Exchange(_) => B(connected)
    case PostCut(_, _) => -1
    case GiveBack(_) => -1
    case _ => 0
  }

  lemma ThreadGains(th: Thread, step: Step, connected: bool)
    requires ThreadMay(th, step)
    ensures var th' := ThreadAfter(th, step, connected);
      Contexts(th') == Contexts(th) + ContextsGained(step) && Ways(th') == Ways(th) + WaysGained(step, connected)
  {
  }

  /** What the thread has in hand, the kernel and the shared fields account for together. */
  lemma SharedBalance(s: State, step: Step, contexts: int, ways: int)
    requires Enabled(s, step) && !s.crashed && s.issue <= B(s.issued)
    requires s.ref == s.issue + s.connects + s.disconnects + s.transfers + contexts + s.borrowed
    requires s.issue == B(s.connected) + s.connects + s.disconnects + ways + s.lost
    requires contexts >= 0 && contexts + ContextsGained(step) >= 0
    requires ways >= 0 && ways + WaysGained(step, s.connected) >= 0
    requires (step.MakeConnect? || step.Connect? || step.GiveBack?) ==> ways >= 1
    ensures var s' := SharedAfter(s, step);
      && !s'.crashed && s'.issue <= B(s'.issued) && s'.threads == s.threads
      && s'.ref == s'.issue + s'.connects + s'.disconnects + s'.transfers + (contexts + ContextsGained(step)) + s'.borrowed
      && s'.issue == B(s'.connected) + s'.connects + s'.disconnects + (ways + WaysGained(step, s.connected)) + s'.lost
  {
    hide ThreadMay;
  }

  lemma StepKeeps(s: State, step: Step)
    requires Enabled(s, step) && Inv(s)
    ensures Inv(Apply(s, step))
  {
    hide SumContexts;
    hide SumWays;
    hide SharedAfter;
    hide ThreadAfter;
    if !step.Borrow? && !step.Return? {
      var th := s.threads[step.t];
      ThreadGains(th, step, s.connected);
      SumsUpdate(s.threads, step.t, ThreadAfter(th, step, s.connected));
      if step.MakeConnect? || step.Connect? || step.GiveBack? { WayInHand(th, step); }
    }
    SharedBalance(s, step, SumContexts(s.threads), SumWays(s.threads));
    hide Contexts;
    hide Ways;
  }

  lemma WayInHand(th: Thread, step: Step)
    requires ThreadMay(th, step) && (step.MakeConnect? || step.Connect? || step.GiveBack?)
    ensures Ways(th) >= 1
  {
  }

  // ---- Runs ----

  predicate Init(s: State) {
    && !s.connected && s.ref == 0 && s.issue == 0 && !s.issued
    && s.connects == s.disconnects == s.transfers == s.borrowed == s.lost == 0 && !s.crashed && !s.halted
    && forall t :: 0 <= t < |s.threads| ==> s.threads[t] == Thread(Idle, NoCut, false)
  }

  ghost predicate NextAt(run: seq<State>, k: nat)
    requires k + 1 < |run|
  {
    exists step :: Enabled(run[k], step) && run[k + 1] == Apply(run[k], step)
  }

  ghost predicate IsRun(run: seq<State>) {
    |run| > 0 && Init(run[0]) && (forall k: nat :: k + 1 < |run| ==> NextAt(run, k))
  }

  lemma {:induction false} IdleThreadsCountNothing(ths: seq<Thread>)
    requires forall t :: 0 <= t < |ths| ==> ths[t] == Thread(Idle, NoCut, false)
    ensures SumContexts(ths) == 0 && SumWays(ths) == 0
  {
    if ths != [] { IdleThreadsCountNothing(ths[..|ths| - 1]); }
  }

  lemma InitInv(s: State)
    requires Init(s)
    ensures Inv(s)
  {
    IdleThreadsCountNothing(s.threads);
  }

  lemma {:induction false} RunInv(run: seq<State>, k: nat)
    requires IsRun(run) && k < |run|
    ensures Inv(run[k])
  {
    hide Inv;
    hide Apply;
    hide Enabled;
    if k == 0 {
      InitInv(run[0]);
    } else {
      RunInv(run, k - 1);
      assert NextAt(run, k - 1);
      var step :| Enabled(run[k - 1], step) && run[k] == Apply(run[k - 1], step);
      StepKeeps(run[k - 1], step);
    }
  }

  /** The thread's next access is a ReleaseRef. */
  predicate Releases(th: Thread) {
    th.phase.ConnectFailed? || th.phase.Disconnected? || th.phase.Delete? || th.cut.CutFailed? || th.spare
  }

  /** The assertions of ReleaseRef, of ConnectRequest and of the exchange in
      ConnectCompletion never fail; the count is the reference of issuing, the
      contexts, the timer entries and the dispatches. */
  lemma AssertionsHold(run: seq<State>, k: nat)
    requires IsRun(run) && k < |run|
    ensures var s := run[k];
      && !s.crashed && s.ref == s.issue + AllContexts(s) + s.borrowed
      && forall t :: 0 <= t < |s.threads| ==>
        var th := s.threads[t];
        (Releases(th) ==> s.ref > 0) && (th.phase.Issued? || th.phase.Connecting? ==> !s.connected)
  {
    RunInv(run, k);
    var s := run[k];
    forall t: nat | t < |s.threads|
      ensures var th := s.threads[t];
        (Releases(th) ==> s.ref > 0) && (th.phase.Issued? || th.phase.Connecting? ==> !s.connected)
    {
      SumsUpdate(s.threads, t, s.threads[t]);
    }
  }

  /** The reference of issuing is given back at most once, and only by a thread that still has it to give. */
  lemma GivenBackOnce(run: seq<State>, k: nat, t: Tid)
    requires IsRun(run) && k < |run| && t < |run[k].threads|
    ensures 0 <= run[k].issue <= 1
    ensures run[k].threads[t].phase.Disconnected? ==> run[k].issue == 1 && run[k].ref >= 2
    ensures forall u :: 0 <= u < |run[k].threads| && u != t && run[k].threads[t].phase.Disconnected? ==>
      !run[k].threads[u].phase.Disconnected? && !run[k].connected
  {
    RunInv(run, k);
    var s := run[k];
    SumsUpdate(s.threads, t, s.threads[t]);
    forall u | 0 <= u < |s.threads| && u != t && s.threads[t].phase.Disconnected?
      ensures !s.threads[u].phase.Disconnected?
    {
      var blank := Thread(Idle, NoCut, false);
      SumsUpdate(s.threads, t, blank);
      SumsUpdate(s.threads[t := blank], u, blank);
    }
  }

  /** When an issued session has come to rest, its reference is still held
      exactly when a way was lost: the connection or its first PreRecv failed,
      or DisconnectEx did. Otherwise nothing holds it any more. */
  lemma LeaksIffLost(run: seq<State>, k: nat)
    requires IsRun(run) && k < |run|
    requires var s := run[k];
      !s.connected && s.connects == s.disconnects == s.transfers == s.borrowed == 0
      && forall t :: 0 <= t < |s.threads| ==> s.threads[t] == Thread(Idle, NoCut, false)
    ensures run[k].ref == 0 <==> run[k].lost == 0
    ensures run[k].ref == run[k].lost <= 1
  {
    RunInv(run, k);
    IdleThreadsCountNothing(run[k].threads);
  }

  // ---- Runs together with their steps ----

  ghost predicate StepAt(run: seq<State>, steps: seq<Step>, k: nat)
    requires |run| == |steps| + 1 && k < |steps|
  {
    Enabled(run[k], steps[k]) && run[k+1] == Apply(run[k], steps[k])
  }

  ghost predicate IsTrace(run: seq<State>, steps: seq<Step>) {
    |run| == |steps| + 1 && Init(run[0]) && forall k: nat :: k < |steps| ==> StepAt(run, steps, k)
  }

  lemma TraceInv(run: seq<State>, steps: seq<Step>, k: nat)
    requires IsTrace(run, steps) && k <= |steps|
    ensures Inv(run[k])
    ensures k < |steps| ==> StepAt(run, steps, k)
  {
    hide Init;
    forall i: nat | i + 1 < |run| ensures NextAt(run, i) { assert StepAt(run, steps, i); }
    RunInv(run, k);
  }

  /** What is counted along a run. Losing is failing on the way to
      DisconnectCompletion: of ConnectEx, of the first socket option, of the
      first PreRecv unless another thread disconnects, or of DisconnectEx. */
  datatype Event =
    | Issuing | GivingBack | Borrowing | Returning
    | PostingConnect | TakingConnect | PostingTransfer | TakingTransfer | PostingCut | TakingCut | Losing

  predicate Is(e: Event, s: State, step: Step) {
    match e
    case Issuing => step.Issue?
    case GivingBack => step.GiveBack?
    case Borrowing => step.Borrow?
    case Returning => step.Return?
    case PostingConnect => step.PostConnect? && step.ok
    case TakingConnect => step.TakeConnect?
    case PostingTransfer => step.PostTransfer? && step.ok
    case TakingTransfer => step.TakeTransfer?
    case PostingCut => step.PostCut? && step.ok
    case TakingCut => step.TakeDisconnect?
    case Losing =>
      || ((step.PostConnect? || step.PostCut?) && !step.ok)
      || (step.Connect? && step.options.NotConnected?)
      || (step.PreRecv? && !step.ok && s.connected)
  }

  function Times(e: Event, run: seq<State>, steps: seq<Step>, k: nat): nat
    requires k <= |steps| && |run| == |steps| + 1
  {
    if k == 0 then 0 else Times(e, run, steps, k - 1) + B(Is(e, run[k-1], steps[k-1]))
  }

  lemma ReferencesAreCounted(s: State, step: Step)
    requires Enabled(s, step)
    ensures var s' := SharedAfter(s, step);
      && s'.issue == s.issue + B(Is(Issuing, s, step)) - B(Is(GivingBack, s, step))
      && (s'.issued <==> s.issued || Is(Issuing, s, step))
      && s'.borrowed == s.borrowed + B(Is(Borrowing, s, step)) - B(Is(Returning, s, step))
  {
    hide ThreadMay;
  }

  lemma ConnectsAreCounted(s: State, step: Step)
    requires Enabled(s, step)
    ensures var s' := SharedAfter(s, step);
      && s'.lost == s.lost + B(Is(Losing, s, step))
      && s'.connects == s.connects + B(Is(PostingConnect, s, step)) - B(Is(TakingConnect, s, step))
  {
    hide ThreadMay;
  }

  lemma RequestsAreCounted(s: State, step: Step)
    requires Enabled(s, step)
    ensures var s' := SharedAfter(s, step);
      && s'.transfers == s.transfers + B(Is(PostingTransfer, s, step)) - B(Is(TakingTransfer, s, step))
      && s'.disconnects == s.disconnects + B(Is(PostingCut, s, step)) - B(Is(TakingCut, s, step))
  {
    hide ThreadMay;
  }

  lemma StepIsCounted(s: State, step: Step)
    requires Enabled(s, step)
    ensures var s' := Apply(s, step);
      && s'.issue == s.issue + B(Is(Issuing, s, step)) - B(Is(GivingBack, s, step))
      && (s'.issued <==> s.issued || Is(Issuing, s, step))
      && s'.borrowed == s.borrowed + B(Is(Borrowing, s, step)) - B(Is(Returning, s, step))
      && s'.lost == s.lost + B(Is(Losing, s, step))
      && s'.connects == s.connects + B(Is(PostingConnect, s, step)) - B(Is(TakingConnect, s, step))
      && s'.transfers == s.transfers + B(Is(PostingTransfer, s, step)) - B(Is(TakingTransfer, s, step))
      && s'.disconnects == s.disconnects + B(Is(PostingCut, s, step)) - B(Is(TakingCut, s, step))
  {
    hide Is;
    hide SharedAfter;
    hide ThreadAfter;
    hide ThreadMay;
    ReferencesAreCounted(s, step);
    ConnectsAreCounted(s, step);
    RequestsAreCounted(s, step);
  }

  /** On every run, the session is issued and given back, its requests are
      posted and taken, and its way is lost, exactly as often as the steps say. */
  lemma {:induction false} EventsAreCounted(run: seq<State>, steps: seq<Step>, k: nat)
    requires IsTrace(run, steps) && k <= |steps|
    ensures var s := run[k];
      && s.issue == Times(Issuing, run, steps, k) - Times(GivingBack, run, steps, k)
      && (s.issued <==> Times(Issuing, run, steps, k) > 0)
      && s.borrowed == Times(Borrowing, run, steps, k) - Times(Returning, run, steps, k)
      && s.connects == Times(PostingConnect, run, steps, k) - Times(TakingConnect, run, steps, k)
      && s.transfers == Times(PostingTransfer, run, steps, k) - Times(TakingTransfer, run, steps, k)
      && s.disconnects == Times(PostingCut, run, steps, k) - Times(TakingCut, run, steps, k)
      && s.lost == Times(Losing, run, steps, k)
  {
    if k > 0 {
      EventsAreCounted(run, steps, k - 1);
      assert StepAt(run, steps, k - 1);
      hide Apply;
      hide Enabled;
      hide Is;
      StepIsCounted(run[k-1], steps[k-1]);
    }
  }

  predicate MakesContext(step: Step) {
    step.MakeConnect? || step.MakeTransfer? || step.MakeCut?
  }

  /** DeleteIoContext. */
  predicate DeletesContext(step: Step) {
    step.DropConnect? || step.DropCut? || step.DeleteContext? || (step.PostTransfer? && !step.ok)
  }

  function ContextsMade(steps: seq<Step>, k: nat): nat
    requires k <= |steps|
  {
    if k == 0 then 0 else ContextsMade(steps, k - 1) + B(MakesContext(steps[k-1]))
  }

  function ContextsDeleted(steps: seq<Step>, k: nat): nat
    requires k <= |steps|
  {
    if k == 0 then 0 else ContextsDeleted(steps, k - 1) + B(DeletesContext(steps[k-1]))
  }

  lemma ContextStep(s: State, step: Step)
    requires Enabled(s, step)
    ensures AllContexts(Apply(s, step)) == AllContexts(s) + B(MakesContext(step)) - B(DeletesContext(step))
  {
    hide SumContexts;
    hide SumWays;
    hide Contexts;
    hide Ways;
    hide SharedAfter;
    if !step.Borrow? && !step.Return? {
      var th := s.threads[step.t];
      ThreadGains(th, step, s.connected);
      SumsUpdate(s.threads, step.t, ThreadAfter(th, step, s.connected));
    }
    hide ThreadAfter;
    hide ThreadMay;
    SharedContexts(s, step);
    SharedLeavesThreads(s, step);
  }

  lemma SharedContexts(s: State, step: Step)
    requires Enabled(s, step)
    ensures var s' := SharedAfter(s, step);
      s'.connects + s'.disconnects + s'.transfers + ContextsGained(step) ==
      s.connects + s.disconnects + s.transfers + B(MakesContext(step)) - B(DeletesContext(step))
  {
    hide ThreadMay;
  }

  lemma SharedLeavesThreads(s: State, step: Step)
    requires Enabled(s, step)
    ensures SharedAfter(s, step).threads == s.threads
  {
    hide ThreadMay;
  }

  /** On every run, the contexts in the kernel and in the threads' hands are
      those made and not deleted, and each of them holds one reference. */
  lemma {:induction false} ContextsAreCounted(run: seq<State>, steps: seq<Step>, k: nat)
    requires IsTrace(run, steps) && k <= |steps|
    ensures AllContexts(run[k]) == ContextsMade(steps, k) - ContextsDeleted(steps, k)
    ensures run[k].ref == run[k].issue + run[k].borrowed + ContextsMade(steps, k) - ContextsDeleted(steps, k)
    decreases k
  {
    TraceInv(run, steps, k);
    hide Apply;
    hide Enabled;
    if k > 0 {
      ContextsAreCounted(run, steps, k - 1);
      assert StepAt(run, steps, k - 1);
      hide AllContexts;
      ContextStep(run[k-1], steps[k-1]);
    } else {
      IdleThreadsCountNothing(run[0].threads);
    }
  }

  // ---- The order of each thread's steps ----

  /** A step that begins the handling of a completion, or of the connection's request. */
  predicate Begins(step: Step) {
    step.Issue? || step.TakeConnect? || step.TakeTransfer? || step.TakeDisconnect?
  }

  /** A step of what the thread handles, and not of a transfer or disconnection on the side. */
  predicate IsMain(step: Step) {
    || Begins(step) || step.MakeConnect? || step.PostConnect? || step.DropConnect? || step.Connect? || step.PreRecv?
    || step.GiveBack? || step.EndHandling? || step.DeleteContext?
  }

  /** Which of these steps comes after which. */
  predicate Follows(a: Step, b: Step) {
    match a
    case Issue(_) => b.MakeConnect?
    case MakeConnect(_) => b.PostConnect?
    case PostConnect(_, ok) => if ok then Begins(b) else b.DropConnect?
    case TakeConnect(_) => b.Connect?
    case Connect(_, options) => (options.Accepted? && b.PreRecv?) || (options.NotConnected? && b.DeleteContext?)
    case PreRecv(_, ok) => if ok then b.EndHandling? else b.DeleteContext?
    case TakeTransfer(_) => b.EndHandling?
    case EndHandling(_) => b.DeleteContext?
    case TakeDisconnect(_) => b.GiveBack?
    case GiveBack(_) => b.DeleteContext?
    case _ => Begins(b)
  }

  /** The steps of a disconnection, of which the exchange that finds the session disconnected is none. */
  predicate IsCutting(s: State, step: Step) {
    (step.Exchange? && s.connected) || step.MakeCut? || step.PostCut? || step.DropCut?
  }

  predicate FollowsCut(a: Step, b: Step) {
    match a
    case Exchange(_) => b.MakeCut?
    case MakeCut(_) => b.PostCut?
    case PostCut(_, ok) => if ok then b.Exchange? else b.DropCut?
    case _ => b.Exchange?
  }

  predicate IsOf(step: Step, t: Tid) {
    !step.Borrow? && !step.Return? && step.t == t
  }

  lemma MainLeads(s: State, step: Step, th: Thread, b: Step)
    requires Enabled(s, step) && IsMain(step) && IsMain(b) && !Apply(s, step).halted
    requires th.phase == Apply(s, step).threads[step.t].phase && ThreadMay(th, b)
    ensures Follows(step, b)
  {
  }

  lemma CutLeads(s: State, step: Step, th: Thread, b: Step)
    requires Enabled(s, step) && IsCutting(s, step) && (b.Exchange? || b.MakeCut? || b.PostCut? || b.DropCut?)
    requires th.cut == Apply(s, step).threads[step.t].cut && ThreadMay(th, b)
    ensures FollowsCut(step, b)
  {
    hide SharedAfter;
  }

  lemma OthersLeave(s: State, step: Step, t: Tid)
    requires Enabled(s, step) && t < |s.threads|
    ensures var s' := Apply(s, step);
      && |s'.threads| == |s.threads|
      && (!(IsOf(step, t) && IsMain(step)) ==> s'.threads[t].phase == s.threads[t].phase)
      && (!(IsOf(step, t) && IsCutting(s, step)) ==> s'.threads[t].cut == s.threads[t].cut)
  {
    hide SharedAfter;
    SharedLeavesThreads(s, step);
  }

  ghost predicate NoMain(steps: seq<Step>, j: nat, k: nat, t: Tid)
    requires k <= |steps|
  {
    forall i :: j < i < k ==> !(IsOf(steps[i], t) && IsMain(steps[i]))
  }

  ghost predicate NoCutting(run: seq<State>, steps: seq<Step>, j: nat, k: nat, t: Tid)
    requires k <= |steps| < |run|
  {
    forall i :: j < i < k ==> !(IsOf(steps[i], t) && IsCutting(run[i], steps[i]))
  }

  lemma {:induction false} PlaceStays(run: seq<State>, steps: seq<Step>, j: nat, k: nat, t: Tid)
    requires IsTrace(run, steps) && j < k <= |steps| && t < |run[j+1].threads|
    ensures |run[k].threads| == |run[j+1].threads|
    ensures NoMain(steps, j, k, t) ==> run[k].threads[t].phase == run[j+1].threads[t].phase
    ensures NoCutting(run, steps, j, k, t) ==> run[k].threads[t].cut == run[j+1].threads[t].cut
    decreases k
  {
    hide Apply;
    hide Enabled;
    hide IsMain;
    hide IsCutting;
    if k > j + 1 {
      PlaceStays(run, steps, j, k - 1, t);
      assert StepAt(run, steps, k - 1);
      OthersLeave(run[k-1], steps[k-1], t);
    }
  }

  /** On every run each thread's steps come in the order of the code: of what it
      handles, and of a disconnection it has won. */
  lemma StepsFollow(run: seq<State>, steps: seq<Step>, j: nat, k: nat, t: Tid)
    requires IsTrace(run, steps) && j < k < |steps| && IsOf(steps[j], t) && IsOf(steps[k], t)
    ensures IsMain(steps[j]) && IsMain(steps[k]) && NoMain(steps, j, k, t) ==> Follows(steps[j], steps[k])
    ensures IsCutting(run[j], steps[j]) && IsCutting(run[k], steps[k]) && NoCutting(run, steps, j, k, t) ==>
      FollowsCut(steps[j], steps[k])
  {
    assert StepAt(run, steps, j) && StepAt(run, steps, k) && StepAt(run, steps, j + 1);
    PlaceStays(run, steps, j, k, t);
    if IsMain(steps[j]) && IsMain(steps[k]) && NoMain(steps, j, k, t) {
      MainLeads(run[j], steps[j], run[k].threads[t], steps[k]);
    }
    if IsCutting(run[j], steps[j]) && IsCutting(run[k], steps[k]) && NoCutting(run, steps, j, k, t) {
      CutLeads(run[j], steps[j], run[k].threads[t], steps[k]);
    }
  }

  // ---- When the session is connected ----

  predicate Connects(step: Step) {
    step.Connect? && step.options.Accepted?
  }

  /** DisconnectRequest, or the first PreRecv failing. */
  predicate Ends(step: Step) {
    step.Exchange? || (step.PreRecv? && !step.ok)
  }

  lemma StepConnects(s: State, step: Step)
    requires Enabled(s, step)
    ensures Apply(s, step).connected <==> Connects(step) || (s.connected && !Ends(step))
    ensures Apply(s, step).halted <==> step.Connect? && step.options.Refused?
  {
    hide ThreadAfter;
    hide ThreadMay;
  }

  /** The session is connected exactly from a ConnectCompletion whose options
      were all set until the next call of DisconnectRequest or failure of the first PreRecv. */
  lemma {:induction false} ConnectedIff(run: seq<State>, steps: seq<Step>, k: nat)
    requires IsTrace(run, steps) && k <= |steps|
    ensures run[k].connected <==>
      exists j: nat :: j < k && Connects(steps[j]) && forall i: nat :: j < i < k ==> !Ends(steps[i])
    decreases k
  {
    if k > 0 {
      ConnectedIff(run, steps, k - 1);
      assert StepAt(run, steps, k - 1);
      hide Apply;
      hide Enabled;
      StepConnects(run[k-1], steps[k-1]);
      if run[k-1].connected && run[k].connected {
        var j: nat :| j < k - 1 && Connects(steps[j]) && forall i: nat :: j < i < k - 1 ==> !Ends(steps[i]);
        assert forall i: nat :: j < i < k ==> !Ends(steps[i]);
      }
    }
  }

  // ---- Every session can be brought to its end ----

  /** What a thread still has to do, and what follows from it. */
  function Work(th: Thread): nat {
    PhaseWork(th.phase) + CutWork(th.cut) + (if th.spare then 4 else 0)
  }

  function PhaseWork(phase: Phase): nat {
    match phase
    case Idle => 0
    case Issued => 13
    case ConnectMade => 12
    case ConnectFailed => 1
    case Connecting => 10
    case FirstPreRecv => 3
    case Handling => 2
    case Disconnected => 2
    case Delete => 1
  }

  function CutWork(cut: Cut): nat {
    match cut case NoCut => 0 case Won => 5 case Made => 4 case CutFailed => 1
  }

  function SumWork(ths: seq<Thread>): nat {
    if ths == [] then 0 else SumWork(ths[..|ths| - 1]) + Work(ths[|ths| - 1])
  }

  lemma {:induction false} WorkUpdate(ths: seq<Thread>, t: Tid, th: Thread)
    requires t < |ths|
    ensures SumWork(ths[t := th]) == SumWork(ths) - Work(ths[t]) + Work(th)
  {
    var n := |ths| - 1;
    if t == n {
      assert ths[t := th][..n] == ths[..n];
    } else {
      WorkUpdate(ths[..n], t, th);
      assert ths[t := th][..n] == ths[..n][t := th];
    }
  }

  /** All that is left to do. */
  function Ahead(s: State): nat {
    SumWork(s.threads) + 11 * s.connects + 3 * s.transfers + 3 * s.disconnects + s.borrowed + 6 * B(s.connected)
  }

  /** Not a step that begins something new. */
  predicate Continues(s: State, step: Step) {
    && !step.Issue? && !step.MakeTransfer? && !step.Borrow? && (step.Exchange? ==> s.connected)
    && !(step.Connect? && step.options.Refused?)
  }

  lemma StepComesNearer(s: State, step: Step)
    requires Enabled(s, step) && Continues(s, step)
    ensures Ahead(Apply(s, step)) < Ahead(s)
  {
    hide SumWork;
    hide Work;
    if !step.Return? {
      var th := s.threads[step.t];
      var th' := ThreadAfter(th, step, s.connected);
      WorkUpdate(s.threads, step.t, th');
      ThreadComesNearer(th, step, s.connected);
      SharedComesNearer(s, step);
      hide ThreadAfter;
      hide ThreadMay;
      hide SharedAfter;
    }
  }

  /** How much of the thread's work the step hands to the kernel or to the session's state. */
  function HandedOn(step: Step, connected: bool): int {
    match step
    case PostConnect(_, ok) => 11 * B(ok)
    case TakeConnect(_) => -11
    case TakeTransfer(_) => -3
    case TakeDisconnect(_) => -3
    case Connect(_, options) => if options.Accepted? then 6 * (1 - B(connected)) else 0
    case PreRecv(_, ok) => if ok then 0 else -6 * B(connected)
    case PostTransfer(_, ok) => 3 * B(ok)
    case Exchange(_) => -6 * B(connected)
    case PostCut(_, ok) => 3 * B(ok)
    case _ => 0
  }

  lemma ThreadComesNearer(th: Thread, step: Step, connected: bool)
    requires ThreadMay(th, step) && !step.Issue? && !step.MakeTransfer? && !step.Borrow? && !step.Return?
    requires (step.Exchange? ==> connected) && !(step.Connect? && step.options.Refused?)
    ensures Work(ThreadAfter(th, step, connected)) + HandedOn(step, connected) < Work(th)
  {
  }

  lemma SharedComesNearer(s: State, step: Step)
    requires Enabled(s, step) && Continues(s, step) && !step.Return?
    ensures var s' := SharedAfter(s, step);
      11 * s'.connects + 3 * s'.transfers + 3 * s'.disconnects + s'.borrowed + 6 * B(s'.connected) ==
      11 * s.connects + 3 * s.transfers + 3 * s.disconnects + s.borrowed + 6 * B(s.connected) + HandedOn(step, s.connected)
  {
    hide ThreadMay;
  }

  ghost predicate AtRest(s: State) {
    && !s.connected && s.connects == s.disconnects == s.transfers == s.borrowed == 0
    && forall t :: 0 <= t < |s.threads| ==> s.threads[t] == Thread(Idle, NoCut, false)
  }

  /** The thread's own next step, with whatever it asks for granted. */
  function NextStep(th: Thread, t: Tid): Step {
    match th.cut
    case Won => MakeCut(t)
    case Made => PostCut(t, true)
    case CutFailed => DropCut(t)
    case NoCut =>
      if th.spare then PostTransfer(t, true)
      else
        match th.phase
        case Idle => Exchange(t)
        case Issued => MakeConnect(t)
        case ConnectMade => PostConnect(t, true)
        case ConnectFailed => DropConnect(t)
        case Connecting => Connect(t, Accepted)
        case FirstPreRecv => PreRecv(t, true)
        case Handling => EndHandling(t)
        case Disconnected => GiveBack(t)
        case Delete => DeleteContext(t)
  }

  lemma NextStepIsEnabled(s: State, t: Tid)
    requires t < |s.threads| && !s.halted && s.threads[t] != Thread(Idle, NoCut, false)
    ensures var step := NextStep(s.threads[t], t); Enabled(s, step) && Continues(s, step) && !Is(Losing, s, step)
  {
  }

  lemma SomeStep(s: State) returns (step: Step)
    requires !s.halted && |s.threads| > 0 && !AtRest(s)
    ensures Enabled(s, step) && Continues(s, step) && !Is(Losing, s, step)
  {
    if t: nat :| t < |s.threads| && s.threads[t] != Thread(Idle, NoCut, false) {
      step := NextStep(s.threads[t], t);
      NextStepIsEnabled(s, t);
    } else {
      assert s.threads[0] == Thread(Idle, NoCut, false);
      step := if s.connects > 0 then TakeConnect(0)
        else if s.transfers > 0 then TakeTransfer(0)
        else if s.disconnects > 0 then TakeDisconnect(0)
        else if s.borrowed > 0 then Return
        else Exchange(0);
    }
  }

  lemma OneMoreStep(run: seq<State>, steps: seq<Step>, step: Step)
    requires IsTrace(run, steps) && Enabled(run[|steps|], step)
    ensures IsTrace(run + [Apply(run[|steps|], step)], steps + [step])
  {
    hide Enabled;
    hide Apply;
    hide Init;
    forall k: nat | k < |steps| + 1 ensures StepAt(run + [Apply(run[|steps|], step)], steps + [step], k) {
      assert k < |steps| ==> StepAt(run, steps, k);
    }
  }

  /** From every reachable state the session can be brought to its end, losing
      nothing more on the way; nothing then holds it but what was lost before. */
  lemma {:induction false} CanBeEnded(run: seq<State>, steps: seq<Step>) returns (run': seq<State>, steps': seq<Step>)
    requires IsTrace(run, steps) && !run[|steps|].halted && |run[|steps|].threads| > 0
    ensures IsTrace(run', steps') && run <= run' && steps <= steps' && AtRest(run'[|steps'|])
    ensures run'[|steps'|].ref == run'[|steps'|].lost == run[|steps|].lost
    decreases Ahead(run[|steps|])
  {
    hide Inv;
    hide Ahead;
    var s := run[|steps|];
    if AtRest(s) {
      run', steps' := run, steps;
      RestIsExact(run, steps);
    } else {
      var step := SomeStep(s);
      StepComesNearer(s, step);
      StepIsCounted(s, step);
      StepConnects(s, step);
      OneMoreStep(run, steps, step);
      assert |Apply(s, step).threads| == |s.threads|;
      hide Apply;
      hide AtRest;
      hide IsTrace;
      hide Is;
      hide Enabled;
      run', steps' := CanBeEnded(run + [Apply(s, step)], steps + [step]);
    }
  }

  lemma RestIsExact(run: seq<State>, steps: seq<Step>)
    requires IsTrace(run, steps) && AtRest(run[|steps|])
    ensures run[|steps|].ref == run[|steps|].lost
  {
    TraceInv(run, steps, |steps|);
    IdleThreadsCountNothing(run[|steps|].threads);
  }

  /** A session issued, connected and disconnected without a failure: its reference is given back, once. */
  lemma FullLife(s: State) returns (run: seq<State>, steps: seq<Step>)
    requires Init(s) && |s.threads| > 0
    ensures IsTrace(run, steps) && run[0] == s && AtRest(run[|steps|])
    ensures run[|steps|].issued && run[|steps|].ref == 0
    ensures Times(GivingBack, run, steps, |steps|) == 1
  {
    assert IsTrace([s], []);
    assert ThreadMay(s.threads[0], Issue(0));
    OneMoreStep([s], [], Issue(0));
    var s1 := Apply(s, Issue(0));
    run, steps := CanBeEnded([s] + [s1], [] + [Issue(0)]);
    assert run[0] == s && run[1] == s1 && steps[0] == Issue(0);
    TraceInv(run, steps, |steps|);
    EventsAreCounted(run, steps, |steps|);
    OnlyOneIssue(run, steps, |steps|);
    IdleThreadsCountNothing(run[|steps|].threads);
  }

  lemma {:induction false} OnlyOneIssue(run: seq<State>, steps: seq<Step>, k: nat)
    requires IsTrace(run, steps) && 1 <= k <= |steps| && steps[0].Issue?
    ensures Times(Issuing, run, steps, k) == 1 && run[k].issued
  {
    assert StepAt(run, steps, k - 1);
    hide ThreadAfter;
    hide ThreadMay;
    if k > 1 { OnlyOneIssue(run, steps, k - 1); } else { assert Times(Issuing, run, steps, 0) == 0; }
    StepIsCounted(run[k-1], steps[k-1]);
  }

  // ---- The flag tells the truth ----

  /** The step is a ReleaseRef. */
  predicate IsRelease(step: Step) {
    || step.DropConnect? || step.DropCut? || step.GiveBack? || step.DeleteContext? || step.Return?
    || (step.PostTransfer? && !step.ok)
  }

  /** In any state whatever, the flag records exactly the assertions that fail:
      a ReleaseRef that finds no reference, and a connection begun or completed on a connected session. */
  lemma FlagIsTrue(s: State, step: Step)
    requires Enabled(s, step)
    ensures Apply(s, step).crashed <==>
      || s.crashed || (IsRelease(step) && s.ref <= 0)
      || ((step.MakeConnect? || (step.Connect? && step.options.Accepted?)) && s.connected)
  {
    hide ThreadAfter;
    hide ThreadMay;
  }

  // ---- Receiving goes on ----

  ghost predicate Leads(s: State, step: Step, s': State) {
    Enabled(s, step) && s' == Apply(s, step)
  }

  /** The session while thread t is at this point, having taken this many transfers and references more. */
  function While(s: State, t: Tid, phase: Phase, spare: bool, transfers: int, refs: int): State
    requires t < |s.threads| && s.transfers + transfers >= 0
  {
    var ths := s.threads[t := Thread(phase, NoCut, spare)];
    s.(transfers := s.transfers + transfers, ref := s.ref + refs, threads := ths)
  }

  lemma TakesAndMakes(s: State, t: Tid)
    requires Enabled(s, TakeTransfer(t))
    ensures Leads(s, TakeTransfer(t), While(s, t, Handling, false, -1, 0))
    ensures Leads(While(s, t, Handling, false, -1, 0), MakeTransfer(t), While(s, t, Handling, true, -1, 1))
  {
  }

  lemma PostsAndEnds(s: State, t: Tid)
    requires Enabled(s, TakeTransfer(t))
    ensures Leads(While(s, t, Handling, true, -1, 1), PostTransfer(t, true), While(s, t, Handling, false, 0, 1))
    ensures Leads(While(s, t, Handling, false, 0, 1), EndHandling(t), While(s, t, Delete, false, 0, 1))
  {
  }

  lemma DeletesLast(s: State, t: Tid)
    requires Enabled(s, TakeTransfer(t)) && !s.crashed && s.ref >= 0
    ensures Leads(While(s, t, Delete, false, 0, 1), DeleteContext(t), s)
  {
    assert s.threads[t] == Thread(Idle, NoCut, false);
    assert s.threads[t := Thread(Delete, NoCut, false)][t := Thread(Idle, NoCut, false)] == s.threads;
  }

  /** A completed transfer can be followed by the next: the thread that takes it
      makes and posts another and is idle again, and the session is exactly as it was. */
  lemma ReceivingGoesOn(s: State, t: Tid) returns (s1: State, s2: State, s3: State, s4: State)
    requires Inv(s) && Enabled(s, TakeTransfer(t))
    ensures Leads(s, TakeTransfer(t), s1) && Leads(s1, MakeTransfer(t), s2) && Leads(s2, PostTransfer(t, true), s3)
    ensures Leads(s3, EndHandling(t), s4) && Leads(s4, DeleteContext(t), s)
  {
    hide Leads;
    hide SumContexts;
    hide SumWays;
    s1 := While(s, t, Handling, false, -1, 0);
    s2 := While(s, t, Handling, true, -1, 1);
    s3 := While(s, t, Handling, false, 0, 1);
    s4 := While(s, t, Delete, false, 0, 1);
    TakesAndMakes(s, t);
    PostsAndEnds(s, t);
    DeletesLast(s, t);
  }
}
