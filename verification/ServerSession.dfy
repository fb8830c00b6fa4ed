/** One session of the server under overlapped I/O: any number of worker threads
    dequeue its completions and call PostSend and Disconnect on it, in any
    interleaving. The lock on the send buffer is a mutex here (module Spinlock
    shows that its write mode is one), and the kernel is any party that
    completes each posted request once, with at most the bytes requested. */
module ServerSession {
  import opened Option
  import R = Ring

  type byte = R.byte
  type Ctx = nat
  type Tid = nat

  datatype Kind = Send | Recv | RecvZero

  /** A posted request: mWsaBuf.buf as an offset into its buffer, and mWsaBuf.len. */
  datatype Op = Op(kind: Kind, off: nat, len: nat)

  /** A thread is responsible for the context of the completion it handles,
      and for one it has made but not yet posted, in PreRecv or PostRecv or in FlushSend. */
  datatype Role = Handling | RecvPosting | SendPosting

  /** Who is to delete a live context: the kernel has it until the request completes. */
  datatype Owner = Kernel(op: Op) | Held(t: Tid, role: Role)

  /** Where a worker is in DoIocpJob and the receive-side methods it calls.
      The context being handled is missing while OnConnect runs PreRecv. */
  datatype Io =
    | Idle
    | CheckRecv(c: Ctx)                              // PostRecv: IsConnected
    | Space(c: Ctx)                                  // 0 == GetFreeSpaceSize
    | NewRecv(c: Ctx)                                // new context, GetFreeSpaceSize, GetBuffer
    | PostRecv(c: Ctx, c2: Ctx, off: nat, len: nat)  // WSARecv
    | DropRecv(c: Ctx, c2: Ctx)                      // DeleteIoContext after a failed WSARecv
    | RecvDone(c: Ctx, data: seq<byte>)              // RecvCompletion: Commit
    | Reading(c: Ctx)                                // RecvCompletion: OnRead
    | CheckPre(h: Option<Ctx>)                       // PreRecv: IsConnected
    | NewPre(h: Option<Ctx>)                         // new context
    | PostPre(h: Option<Ctx>, c2: Ctx)               // WSARecv of zero bytes
    | DropPre(h: Option<Ctx>, c2: Ctx)
    | SendDone(c: Ctx, wire: seq<byte>, len: nat)    // SendCompletion
    | Finish(h: Option<Ctx>, ok: bool)               // if (!completionOk) Disconnect
    | Failed(c: Ctx, sending: bool)                  // Disconnect after a failed completion
    | Dispose(c: Ctx)                                // DeleteIoContext

  /** Where a worker is in PostSend, SendCompletion and FlushSend. */
  datatype Call =
    | NoCall
    | Check(data: seq<byte>)             // PostSend: IsConnected
    | Acquire(data: seq<byte>)
    | Append(data: seq<byte>)            // Write, then the test of mSendPendingCount
    | AcquireDone
    | Complete                           // SendCompletion under the lock
    | NewSend                            // FlushSend: new context, GetContiguiousBytes, GetBufferStart
    | PostSend(c2: Ctx, off: nat, len: nat)  // WSASend
    | Increment                          // mSendPendingCount++
    | DropSend(c2: Ctx)                  // DeleteIoContext after a failed WSASend
    | SendDisconnect
    | Unlock

  datatype Thread = Thread(io: Io, call: Call)

  /** Where the one send that mSendPendingCount stands for is. */
  datatype Sender = NoSender | SendKernel(c: Ctx) | SendThread(t: Tid) | Lost

  /** Where the right to touch the receive buffer is. */
  datatype Token = NoToken | TokenKernel(c: Ctx) | TokenThread(t: Tid)

  /** The send half: mSendPendingCount and mSendBuffer; where the send is; the
      bytes PostSend accepted and the bytes SendCompletion saw transferred;
      whether a CRASH_ASSERT failed. */
  datatype Outgoing = Outgoing(
    pending: int, ring: R.Ring, sender: Sender, accepted: seq<byte>, sent: seq<byte>, crashed: bool)

  /** The receive half: mRecvBuffer; where the token is; the bytes committed and
      the bytes OnRead took out. */
  datatype Incoming = Incoming(ring: R.Ring, token: Token, delivered: seq<byte>, consumed: seq<byte>)

  /** The session, the contexts not yet deleted, whether a dead one was deleted, and the threads. */
  datatype State = State(
    connected: bool, lock: Option<Tid>, send: Outgoing, recv: Incoming,
    live: map<Ctx, Owner>, fault: bool, threads: seq<Thread>)

  datatype Step =
    | Dequeue(t: Tid, c: Ctx, ok: bool, data: seq<byte>)  // GetQueuedCompletionStatus
    | Go(t: Tid, ok: bool, addr: Ctx)                     // the next access; whether a post succeeds; where a new context is
    | StartSend(t: Tid, data: seq<byte>)                  // PostSend, from outside or from OnRead
    | Cut(t: Tid)                                         // Disconnect, from outside or from OnRead
    | Consume(t: Tid, n: nat)                             // OnRead reads a packet
    | EndRead(t: Tid)                                     // OnRead returns

  predicate MayCall(th: Thread) {
    th.call.NoCall? && (th.io.Idle? || th.io.Reading?)
  }

  predicate Enabled(s: State, step: Step) {
    && step.t < |s.threads|
    && var th := s.threads[step.t];
      match step
      case Dequeue(_, c, _, data) =>
        th == Thread(Idle, NoCall) && c in s.live && s.live[c].Kernel? && |data| <= s.live[c].op.len
      case Go(t, _, addr) =>
        && addr !in s.live && !MayCall(th)
        && (th.call.Acquire? || th.call.AcquireDone? ==> s.lock == None)
      case StartSend(_, _) => MayCall(th)
      case Cut(_) => MayCall(th)
      case Consume(_, n) => th.call.NoCall? && th.io.Reading? && n <= R.StoredSize(s.recv.ring)
      case EndRead(_) => th.call.NoCall? && th.io.Reading?
  }

  // ---- Contexts ----

  function SetIo(s: State, t: Tid, io: Io): State
    requires t < |s.threads|
  {
    var ths := s.threads[t := s.threads[t].(io := io)];
    s.(threads := ths)
  }

  function SetCall(s: State, t: Tid, call: Call): State
    requires t < |s.threads|
  {
    var ths := s.threads[t := s.threads[t].(call := call)];
    s.(threads := ths)
  }

  function New(s: State, c: Ctx, owner: Owner): State {
    s.(live := s.live[c := owner])
  }

  /** DeleteIoContext. */
  function Free(s: State, c: Ctx): State {
    s.(live := s.live - {c}, fault := s.fault || c !in s.live)
  }

  // ---- The receive side ----

  function SetToken(s: State, token: Token): State {
    s.(recv := s.recv.(token := token))
  }

  function SetRecvRing(s: State, ring: R.Ring): State {
    s.(recv := s.recv.(ring := ring))
  }

  /** A thread that is in PostRecv, RecvCompletion or PreRecv. */
  predicate InRecv(io: Io) {
    !io.Idle? && !io.SendDone? && !io.Finish? && !io.Failed? && !io.Dispose?
  }

  predicate InPostRecv(io: Io) {
    io.CheckRecv? || io.Space? || io.NewRecv? || io.PostRecv? || io.DropRecv?
  }

  predicate InPreRecv(io: Io) {
    io.CheckPre? || io.NewPre? || io.PostPre? || io.DropPre?
  }

  function PostRecvStep(s: State, t: Tid, ok: bool, addr: Ctx): State
    requires t < |s.threads|
  {
    match s.threads[t].io
    case CheckRecv(c) =>
      if !s.connected then SetToken(SetIo(s, t, Finish(Some(c), false)), NoToken) else SetIo(s, t, Space(c))
    case Space(c) =>
      var (ring, size) := R.Window(s.recv.ring);
      if size == 0 then SetToken(SetRecvRing(SetIo(s, t, Finish(Some(c), false)), ring), NoToken)
      else SetRecvRing(SetIo(s, t, NewRecv(c)), ring)
    case NewRecv(c) =>
      var (ring, size) := R.Window(s.recv.ring);
      var len: nat := if size >= 0 then size else 0;
      SetRecvRing(SetIo(New(s, addr, Held(t, RecvPosting)), t, PostRecv(c, addr, R.WriteOffset(ring), len)), ring)
    case PostRecv(c, c2, off, len) =>
      if ok then
        SetToken(SetIo(New(s, c2, Kernel(Op(Recv, off, len))), t, Finish(Some(c), true)), TokenKernel(c2))
      else SetIo(s, t, DropRecv(c, c2))
    case DropRecv(c, c2) => SetToken(SetIo(Free(s, c2), t, Finish(Some(c), false)), NoToken)
    case _ => s
  }

  function PreRecvStep(s: State, t: Tid, ok: bool, addr: Ctx): State
    requires t < |s.threads|
  {
    match s.threads[t].io
    case CheckPre(h) =>
      if !s.connected then SetToken(SetIo(s, t, Finish(h, false)), NoToken) else SetIo(s, t, NewPre(h))
    case NewPre(h) => SetIo(New(s, addr, Held(t, RecvPosting)), t, PostPre(h, addr))
    case PostPre(h, c2) =>
      if ok then SetToken(SetIo(New(s, c2, Kernel(Op(RecvZero, 0, 0))), t, Finish(h, true)), TokenKernel(c2))
      else SetIo(s, t, DropPre(h, c2))
    case DropPre(h, c2) => SetToken(SetIo(Free(s, c2), t, Finish(h, false)), NoToken)
    case _ => s
  }

  /** The rest of DoIocpJob, with the first line of RecvCompletion. */
  function JobStep(s: State, t: Tid): State
    requires t < |s.threads|
  {
    match s.threads[t].io
    case RecvDone(c, data) =>
      SetIo(s, t, Reading(c))
        .(recv := s.recv.(ring := R.Commit(s.recv.ring, |data|), delivered := s.recv.delivered + data))
    case SendDone(_, _, _) => SetCall(s, t, AcquireDone)
    case Finish(h, done) =>
      SetIo(s.(connected := s.connected && done), t, if h.Some? then Dispose(h.value) else Idle)
    case Failed(c, sending) =>
      SetIo(s.(connected := false, send := if sending then s.send.(sender := Lost) else s.send), t, Dispose(c))
    case Dispose(c) => SetIo(Free(s, c), t, Idle)
    case _ => s
  }

  // ---- The send side ----

  /** Leaving the lock; SendCompletion is followed by the test of the transferred size. */
  function Leave(th: Thread): Thread {
    match th.io
    case SendDone(c, wire, len) => Thread(Finish(Some(c), |wire| == len), NoCall)
    case _ => th.(call := NoCall)
  }

  function Wire(io: Io): seq<byte> {
    match io case SendDone(_, wire, _) => wire case _ => []
  }

  function Appended(o: Outgoing, data: seq<byte>): (Outgoing, bool)
    requires R.Valid(o.ring)
  {
    var (ring, fits) := R.Write(o.ring, data);
    (o.(ring := ring, accepted := if fits then o.accepted + data else o.accepted), fits)
  }

  function Completed(o: Outgoing, wire: seq<byte>): Outgoing
    requires R.Valid(o.ring)
  {
    Outgoing(o.pending - 1, R.Remove(o.ring, |wire|), NoSender, o.accepted, o.sent + wire,
             o.crashed || o.pending != 1)
  }

  function FrontSpan(r: R.Ring): (nat, nat) {
    (match R.ReadOffset(r) case Some(p) => p case None => 0, R.Contiguous(r))
  }

  predicate InFlush(call: Call) {
    call.NewSend? || call.PostSend? || call.Increment? || call.DropSend? || call.SendDisconnect?
  }

  /** FlushSend, and what its caller does when it returns: leave the lock. */
  function FlushStep(s: State, t: Tid, ok: bool, addr: Ctx): State
    requires t < |s.threads|
  {
    match s.threads[t].call
    case NewSend =>
      var (off, len) := FrontSpan(s.send.ring);
      SetCall(New(s, addr, Held(t, SendPosting)), t, PostSend(addr, off, len))
    case PostSend(c2, off, len) =>
      if ok then
        SetCall(New(s, c2, Kernel(Op(Send, off, len))), t, Increment).(send := s.send.(sender := SendKernel(c2)))
      else SetCall(s, t, DropSend(c2))
    case Increment =>
      SetCall(s, t, Unlock)
        .(send := s.send.(pending := s.send.pending + 1, crashed := s.send.crashed || s.send.pending + 1 != 1))
    case DropSend(c2) => SetCall(Free(s, c2), t, SendDisconnect)
    case SendDisconnect => SetCall(s.(connected := false), t, Unlock)
    case _ => s
  }

  /** PostSend and SendCompletion, except for FlushSend. */
  function CallStep(s: State, t: Tid): State
    requires t < |s.threads| && R.Valid(s.send.ring)
  {
    match s.threads[t].call
    case Check(data) => SetCall(s, t, if s.connected then Acquire(data) else NoCall)
    case Acquire(data) => SetCall(s, t, Append(data)).(lock := Some(t))
    case Append(data) =>
      var (send', fits) := Appended(s.send, data);
      SetCall(s, t, if fits && s.send.pending <= 0 then NewSend else Unlock).(send := send')
    case AcquireDone => SetCall(s, t, Complete).(lock := Some(t))
    case Complete =>
      var send' := Completed(s.send, Wire(s.threads[t].io));
      SetCall(s, t, if R.Contiguous(send'.ring) > 0 then NewSend else Unlock).(send := send')
    case Unlock =>
      var ths := s.threads[t := Leave(s.threads[t])];
      s.(threads := ths, lock := None)
    case _ => s
  }

  /** A completed request lies inside its buffer. */
  predicate Lands(s: State, op: Op, data: seq<byte>) {
    && (op.kind.Send? && data != [] ==> op.off + |data| <= |s.send.ring.mem|)
    && (op.kind.Recv? ==> op.off + |data| <= |s.recv.ring.mem|)
  }

  function Stored(r: R.Ring, off: nat, data: seq<byte>): R.Ring
    requires off + |data| <= |r.mem|
  {
    r.(mem := R.Overwrite(r.mem, off, data))
  }

  /** The kernel completes a request: failed, or with nothing transferred, or
      with these bytes, which it read from the send buffer or stored in the
      receive buffer, at the offset it was given. */
  function Completion(s: State, t: Tid, c: Ctx, ok: bool, data: seq<byte>): State
    requires t < |s.threads| && c in s.live && s.live[c].Kernel? && Lands(s, s.live[c].op, data)
  {
    var op := s.live[c].op;
    var s1 := New(s, c, Held(t, Handling));
    match op.kind
    case RecvZero => SetToken(SetIo(s1, t, CheckRecv(c)), TokenThread(t))
    case Recv =>
      if !ok || data == [] then SetToken(SetIo(s1, t, Failed(c, false)), NoToken)
      else SetToken(SetRecvRing(SetIo(s1, t, RecvDone(c, data)), Stored(s.recv.ring, op.off, data)), TokenThread(t))
    case Send =>
      var s2 := s1.(send := s.send.(sender := SendThread(t)));
      if !ok || data == [] then SetIo(s2, t, Failed(c, true))
      else SetIo(s2, t, SendDone(c, s.send.ring.mem[op.off..op.off + |data|], op.len))
  }

  /** OnRead takes n bytes out. */
  function Consumed(i: Incoming, n: nat): Incoming
    requires R.Valid(i.ring) && n <= R.StoredSize(i.ring)
  {
    R.ReadTakesPrefix(i.ring, n);
    i.(ring := R.Remove(i.ring, n), consumed := i.consumed + R.Contents(i.ring)[..n])
  }

  predicate Sane(s: State, step: Step)
    requires Enabled(s, step)
  {
    && R.Valid(s.send.ring) && R.Valid(s.recv.ring)
    && (step.Dequeue? ==> Lands(s, s.live[step.c].op, step.data))
  }

  function Apply(s: State, step: Step): State
    requires Enabled(s, step) && Sane(s, step)
  {
    match step
    case Dequeue(t, c, ok, data) => Completion(s, t, c, ok, data)
    case Go(t, ok, addr) =>
      var th := s.threads[t];
      if InFlush(th.call) then FlushStep(s, t, ok, addr)
      else if !th.call.NoCall? then CallStep(s, t)
      else if InPostRecv(th.io) then PostRecvStep(s, t, ok, addr)
      else if InPreRecv(th.io) then PreRecvStep(s, t, ok, addr)
      else JobStep(s, t)
    case StartSend(t, data) => SetCall(s, t, Check(data))
    case Cut(_) => s.(connected := false)
    case Consume(t, n) => s.(recv := Consumed(s.recv, n))
    case EndRead(t) => SetIo(s, t, CheckPre(Some(s.threads[t].io.c)))
  }

  // ---- Ownership of the contexts ----

  function Handled(io: Io): Option<Ctx> {
    match io
    case Idle => None
    case CheckRecv(c) => Some(c)
    case Space(c) => Some(c)
    case NewRecv(c) => Some(c)
    case PostRecv(c, _, _, _) => Some(c)
    case DropRecv(c, _) => Some(c)
    case RecvDone(c, _) => Some(c)
    case Reading(c) => Some(c)
    case CheckPre(h) => h
    case NewPre(h) => h
    case PostPre(h, _) => h
    case DropPre(h, _) => h
    case SendDone(c, _, _) => Some(c)
    case Finish(h, _) => h
    case Failed(c, _) => Some(c)
    case Dispose(c) => Some(c)
  }

  function RecvPosted(io: Io): Option<Ctx> {
    match io
    case PostRecv(_, c2, _, _) => Some(c2)
    case DropRecv(_, c2) => Some(c2)
    case PostPre(_, c2) => Some(c2)
    case DropPre(_, c2) => Some(c2)
    case _ => None
  }

  function SendPosted(call: Call): Option<Ctx> {
    match call
    case PostSend(c2, _, _) => Some(c2)
    case DropSend(c2) => Some(c2)
    case _ => None
  }

  /** The contexts a thread has in hand, one for each role. */
  datatype Claims = Claims(handling: Option<Ctx>, recvPosting: Option<Ctx>, sendPosting: Option<Ctx>) {
    function Get(role: Role): Option<Ctx> {
      match role case Handling => handling case RecvPosting => recvPosting case SendPosting => sendPosting
    }

    function Set(role: Role, c: Option<Ctx>): Claims {
      match role
      case Handling => this.(handling := c)
      case RecvPosting => this.(recvPosting := c)
      case SendPosting => this.(sendPosting := c)
    }
  }

  function ClaimsOf(th: Thread): Claims {
    Claims(Handled(th.io), RecvPosted(th.io), SendPosted(th.call))
  }

  /** A thread has c in exactly the role its owner says, if in any. */
  ghost predicate Agrees(live: map<Ctx, Owner>, claims: Claims, t: Tid, c: Ctx) {
    forall role :: claims.Get(role) == Some(c) <==> c in live && live[c] == Held(t, role)
  }

  /** Every live context belongs to the kernel or is held by exactly one thread
      in exactly one role, and no thread holds anything else. */
  ghost predicate OwnersOk(s: State) {
    && (forall t, c :: 0 <= t < |s.threads| ==> Agrees(s.live, ClaimsOf(s.threads[t]), t, c))
    && (forall c :: c in s.live && s.live[c].Held? ==> s.live[c].t < |s.threads|)
    && !s.fault
  }

  /** What an access does to the contexts: nothing, or make one, give one to the
      kernel, delete one, or take one back from the kernel. */
  datatype Effect =
    | Keep
    | Make(role: Role, c: Ctx)
    | Post(role: Role, c: Ctx, op: Op)
    | Drop(role: Role, c: Ctx)
    | Take(c: Ctx)

  function Live(live: map<Ctx, Owner>, e: Effect, t: Tid): map<Ctx, Owner> {
    match e
    case Keep => live
    case Make(role, c) => live[c := Held(t, role)]
    case Post(_, c, op) => live[c := Kernel(op)]
    case Drop(_, c) => live - {c}
    case Take(c) => live[c := Held(t, Handling)]
  }

  function Moved(claims: Claims, e: Effect): Claims {
    match e
    case Keep => claims
    case Make(role, c) => claims.Set(role, Some(c))
    case Post(role, _, _) => claims.Set(role, None)
    case Drop(role, _) => claims.Set(role, None)
    case Take(c) => claims.Set(Handling, Some(c))
  }

  predicate Allowed(live: map<Ctx, Owner>, claims: Claims, e: Effect) {
    match e
    case Keep => true
    case Make(role, c) => c !in live && claims.Get(role) == None
    case Post(role, c, _) => claims.Get(role) == Some(c)
    case Drop(role, c) => claims.Get(role) == Some(c)
    case Take(c) => c in live && live[c].Kernel? && claims.handling == None
  }

  ghost predicate OnlyThread(s: State, s': State, t: Tid) {
    t < |s.threads| && |s'.threads| == |s.threads| && s'.threads == s.threads[t := s'.threads[t]]
  }

  /** The step has this effect, and a deletion faults if the context is dead. */
  ghost predicate Has(s: State, s': State, t: Tid, e: Effect) {
    && OnlyThread(s, s', t) && s'.live == Live(s.live, e, t)
    && ClaimsOf(s'.threads[t]) == Moved(ClaimsOf(s.threads[t]), e)
    && s'.fault == (s.fault || (e.Drop? && e.c !in s.live))
  }

  lemma MoverAgrees(live: map<Ctx, Owner>, claims: Claims, t: Tid, e: Effect, x: Ctx)
    requires Allowed(live, claims, e)
    requires Agrees(live, claims, t, x) && (!e.Keep? ==> Agrees(live, claims, t, e.c))
    ensures Agrees(Live(live, e, t), Moved(claims, e), t, x)
  {
    var live', claims' := Live(live, e, t), Moved(claims, e);
    forall role ensures claims'.Get(role) == Some(x) <==> x in live' && live'[x] == Held(t, role) {
      assert claims.Get(role) == Some(x) <==> x in live && live[x] == Held(t, role);
    }
  }

  lemma OthersAgree(live: map<Ctx, Owner>, mover: Claims, claims: Claims, t: Tid, u: Tid, e: Effect, x: Ctx)
    requires Allowed(live, mover, e) && u != t && Agrees(live, claims, u, x)
    requires !e.Keep? ==> Agrees(live, mover, t, e.c)
    ensures Agrees(Live(live, e, t), claims, u, x)
  {
    var live' := Live(live, e, t);
    forall role ensures claims.Get(role) == Some(x) <==> x in live' && live'[x] == Held(u, role) {
      assert claims.Get(role) == Some(x) <==> x in live && live[x] == Held(u, role);
    }
  }

  lemma EffectKeepsOwners(s: State, s': State, t: Tid, e: Effect)
    requires OwnersOk(s) && Has(s, s', t, e) && Allowed(s.live, ClaimsOf(s.threads[t]), e)
    ensures OwnersOk(s')
  {
    hide ClaimsOf;
    hide Agrees;
    assert !e.Keep? ==> Agrees(s.live, ClaimsOf(s.threads[t]), t, e.c);
    forall u, x | 0 <= u < |s'.threads| ensures Agrees(s'.live, ClaimsOf(s'.threads[u]), u, x) {
      assert Agrees(s.live, ClaimsOf(s.threads[u]), u, x);
      if u == t {
        MoverAgrees(s.live, ClaimsOf(s.threads[t]), t, e, x);
      } else {
        OthersAgree(s.live, ClaimsOf(s.threads[t]), ClaimsOf(s.threads[u]), t, u, e, x);
      }
    }
    assert !s'.fault by {
      if e.Drop? { ClaimIsLive(s.live, ClaimsOf(s.threads[t]), t, e); }
    }
  }

  lemma ClaimIsLive(live: map<Ctx, Owner>, claims: Claims, t: Tid, e: Effect)
    requires e.Drop? && claims.Get(e.role) == Some(e.c) && Agrees(live, claims, t, e.c)
    ensures e.c in live
  {
  }

  function RecvEffect(io: Io, ok: bool, addr: Ctx): Effect {
    match io
    case NewRecv(_) => Make(RecvPosting, addr)
    case PostRecv(_, c2, off, len) => if ok then Post(RecvPosting, c2, Op(Recv, off, len)) else Keep
    case DropRecv(_, c2) => Drop(RecvPosting, c2)
    case NewPre(_) => Make(RecvPosting, addr)
    case PostPre(_, c2) => if ok then Post(RecvPosting, c2, Op(RecvZero, 0, 0)) else Keep
    case DropPre(_, c2) => Drop(RecvPosting, c2)
    case Dispose(c) => Drop(Handling, c)
    case _ => Keep
  }

  function CallEffect(call: Call, ok: bool, addr: Ctx): Effect {
    match call
    case NewSend => Make(SendPosting, addr)
    case PostSend(c2, off, len) => if ok then Post(SendPosting, c2, Op(Send, off, len)) else Keep
    case DropSend(c2) => Drop(SendPosting, c2)
    case _ => Keep
  }

  function EffectOf(s: State, step: Step): Effect
    requires step.t < |s.threads|
  {
    match step
    case Dequeue(_, c, _, _) => Take(c)
    case Go(t, ok, addr) =>
      var th := s.threads[t];
      if th.call.NoCall? then RecvEffect(th.io, ok, addr) else CallEffect(th.call, ok, addr)
    case _ => Keep
  }

  lemma PostRecvStepHas(s: State, t: Tid, ok: bool, addr: Ctx)
    requires t < |s.threads| && InPostRecv(s.threads[t].io)
    ensures Has(s, PostRecvStep(s, t, ok, addr), t, RecvEffect(s.threads[t].io, ok, addr))
  {
    hide R.Window;
    hide R.WriteOffset;
  }

  lemma PreRecvStepHas(s: State, t: Tid, ok: bool, addr: Ctx)
    requires t < |s.threads| && InPreRecv(s.threads[t].io)
    ensures Has(s, PreRecvStep(s, t, ok, addr), t, RecvEffect(s.threads[t].io, ok, addr))
  {
  }

  lemma JobStepHas(s: State, t: Tid, ok: bool, addr: Ctx)
    requires t < |s.threads| && !InPostRecv(s.threads[t].io) && !InPreRecv(s.threads[t].io) && s.threads[t].call.NoCall?
    ensures Has(s, JobStep(s, t), t, RecvEffect(s.threads[t].io, ok, addr))
  {
    hide R.Commit;
  }

  lemma FlushStepHas(s: State, t: Tid, ok: bool, addr: Ctx)
    requires t < |s.threads| && InFlush(s.threads[t].call)
    ensures Has(s, FlushStep(s, t, ok, addr), t, CallEffect(s.threads[t].call, ok, addr))
  {
    hide FrontSpan;
  }

  lemma CallStepHas(s: State, t: Tid, ok: bool, addr: Ctx)
    requires t < |s.threads| && R.Valid(s.send.ring) && !InFlush(s.threads[t].call)
    ensures Has(s, CallStep(s, t), t, CallEffect(s.threads[t].call, ok, addr))
  {
    hide R.Valid;
    hide Appended;
    hide Completed;
    hide R.Contiguous;
  }

  lemma OtherHas(s: State, step: Step)
    requires Enabled(s, step) && Sane(s, step) && !step.Go?
    ensures Has(s, Apply(s, step), step.t, EffectOf(s, step))
  {
    hide R.Valid;
    hide R.Remove;
    hide R.Contents;
    hide Stored;
  }

  lemma StepHas(s: State, step: Step)
    requires Enabled(s, step) && Sane(s, step)
    ensures Has(s, Apply(s, step), step.t, EffectOf(s, step))
    ensures Allowed(s.live, ClaimsOf(s.threads[step.t]), EffectOf(s, step))
  {
    hide R.Valid;
    hide PostRecvStep;
    hide PreRecvStep;
    hide JobStep;
    hide FlushStep;
    hide CallStep;
    hide Has;
    if step.Go? {
      var th := s.threads[step.t];
      if InFlush(th.call) {
        FlushStepHas(s, step.t, step.ok, step.addr);
      } else if !th.call.NoCall? {
        CallStepHas(s, step.t, step.ok, step.addr);
      } else if InPostRecv(th.io) {
        PostRecvStepHas(s, step.t, step.ok, step.addr);
      } else if InPreRecv(th.io) {
        PreRecvStepHas(s, step.t, step.ok, step.addr);
      } else {
        JobStepHas(s, step.t, step.ok, step.addr);
      }
    } else {
      OtherHas(s, step);
    }
  }

  // ---- The lock ----

  predicate InLock(call: Call) {
    call.Append? || call.Complete? || call.Unlock? || InFlush(call)
  }

  /** A thread is between taking and leaving the lock exactly when it holds it;
      it calls the send side only from outside, from OnRead or for a completed send. */
  predicate LockLink(lock: Option<Tid>, th: Thread, t: Tid) {
    && (InLock(th.call) <==> lock == Some(t))
    && (th.call.NoCall? || th.io.Idle? || th.io.Reading? || th.io.SendDone?)
    && (th.call.Check? || th.call.Acquire? || th.call.Append? ==> !th.io.SendDone?)
    && (th.call.AcquireDone? || th.call.Complete? ==> th.io.SendDone?)
  }

  ghost predicate LockOk(s: State) {
    && (forall t :: 0 <= t < |s.threads| ==> LockLink(s.lock, s.threads[t], t))
    && (s.lock.Some? ==> s.lock.value < |s.threads|)
  }

  predicate LockMoves(lock: Option<Tid>, lock': Option<Tid>, t: Tid) {
    lock' == lock || ((lock == None || lock == Some(t)) && (lock' == None || lock' == Some(t)))
  }

  /** The receive side leaves the send side alone. */
  ghost predicate RecvOnly(s: State, s': State, t: Tid) {
    && OnlyThread(s, s', t) && s'.send == s.send && s'.lock == s.lock && s'.connected == s.connected
    && s'.threads[t].call == s.threads[t].call
    && !s'.threads[t].io.SendDone? && !s'.threads[t].io.Failed?
    && !s.threads[t].io.SendDone? && !s.threads[t].io.Failed?
  }

  /** The send side leaves the receive side alone. */
  ghost predicate SendOnly(s: State, s': State, t: Tid) {
    && OnlyThread(s, s', t) && s'.recv == s.recv
    && (s'.threads[t].io == s.threads[t].io || (s.threads[t].io.SendDone? && s'.threads[t].io.Finish?))
  }

  lemma PostRecvIsRecvOnly(s: State, t: Tid, ok: bool, addr: Ctx)
    requires t < |s.threads| && InPostRecv(s.threads[t].io)
    ensures RecvOnly(s, PostRecvStep(s, t, ok, addr), t)
  {
    hide R.Window;
    hide R.WriteOffset;
  }

  lemma PreRecvIsRecvOnly(s: State, t: Tid, ok: bool, addr: Ctx)
    requires t < |s.threads| && InPreRecv(s.threads[t].io)
    ensures RecvOnly(s, PreRecvStep(s, t, ok, addr), t)
  {
  }

  lemma FlushIsSendOnly(s: State, t: Tid, ok: bool, addr: Ctx)
    requires t < |s.threads| && InFlush(s.threads[t].call)
    ensures SendOnly(s, FlushStep(s, t, ok, addr), t)
    ensures var s' := FlushStep(s, t, ok, addr);
      && s'.lock == s.lock && s'.threads[t].io == s.threads[t].io
      && (InFlush(s'.threads[t].call) || s'.threads[t].call.Unlock?)
  {
    hide FrontSpan;
  }

  lemma CallIsSendOnly(s: State, t: Tid)
    requires t < |s.threads| && R.Valid(s.send.ring) && !InFlush(s.threads[t].call)
    ensures SendOnly(s, CallStep(s, t), t)
  {
    hide R.Valid;
    hide Appended;
    hide Completed;
    hide R.Contiguous;
  }

  lemma CallMovesLock(s: State, t: Tid)
    requires t < |s.threads| && R.Valid(s.send.ring) && !InFlush(s.threads[t].call)
    requires LockLink(s.lock, s.threads[t], t)
    requires s.threads[t].call.Acquire? || s.threads[t].call.AcquireDone? ==> s.lock == None
    ensures var s' := CallStep(s, t); LockLink(s'.lock, s'.threads[t], t) && LockMoves(s.lock, s'.lock, t)
  {
    hide R.Valid;
    hide Appended;
    hide Completed;
    hide R.Contiguous;
  }

  lemma StepMovesLock(s: State, step: Step)
    requires Enabled(s, step) && Sane(s, step) && LockLink(s.lock, s.threads[step.t], step.t)
    ensures var s' := Apply(s, step);
      OnlyThread(s, s', step.t) && LockLink(s'.lock, s'.threads[step.t], step.t) && LockMoves(s.lock, s'.lock, step.t)
  {
    hide R.Valid;
    hide PostRecvStep;
    hide PreRecvStep;
    hide FlushStep;
    hide CallStep;
    if step.Go? {
      var th := s.threads[step.t];
      if InFlush(th.call) {
        FlushIsSendOnly(s, step.t, step.ok, step.addr);
      } else if !th.call.NoCall? {
        CallMovesLock(s, step.t);
        CallIsSendOnly(s, step.t);
      } else if InPostRecv(th.io) {
        PostRecvIsRecvOnly(s, step.t, step.ok, step.addr);
      } else if InPreRecv(th.io) {
        PreRecvIsRecvOnly(s, step.t, step.ok, step.addr);
      }
    }
  }

  lemma StepKeepsLock(s: State, step: Step)
    requires Enabled(s, step) && Sane(s, step) && LockOk(s)
    ensures LockOk(Apply(s, step))
  {
    hide R.Valid;
    hide Apply;
    hide Sane;
    hide LockLink;
    var s' := Apply(s, step);
    StepMovesLock(s, step);
    forall u | 0 <= u < |s'.threads| ensures LockLink(s'.lock, s'.threads[u], u) {
      assert LockLink(s.lock, s.threads[u], u);
      if u != step.t { OthersKeepLock(s.lock, s'.lock, s.threads[u], step.t, u); }
    }
  }

  lemma OthersKeepLock(lock: Option<Tid>, lock': Option<Tid>, th: Thread, t: Tid, u: Tid)
    requires LockMoves(lock, lock', t) && u != t && LockLink(lock, th, u)
    ensures LockLink(lock', th, u)
  {
  }

  // ---- The send side ----

  /** The thread whose handling of a completed send is not yet accounted for. */
  predicate HasWire(th: Thread) {
    || (th.io.Failed? && th.io.sending)
    || (th.io.SendDone? && (th.call.NoCall? || th.call.AcquireDone? || th.call.Complete?))
  }

  /** What was sent is at the front of the send buffer. */
  predicate OnFront(r: R.Ring, off: nat, len: nat) {
    len <= r.aSize && (len > 0 ==> off == r.a)
  }

  predicate SendLink(o: Outgoing, th: Thread, t: Tid) {
    && (HasWire(th) <==> o.sender == SendThread(t))
    && (HasWire(th) && th.io.SendDone? ==>
          var wire := th.io.wire;
          && wire != [] && |wire| <= o.ring.aSize && o.ring.a + o.ring.aSize <= |o.ring.mem|
          && wire == o.ring.mem[o.ring.a..o.ring.a + |wire|])
  }

  predicate SendOpLink(o: Outgoing, live: map<Ctx, Owner>, c: Ctx) {
    && (c in live && live[c].Kernel? && live[c].op.kind.Send? <==> o.sender == SendKernel(c))
    && (o.sender == SendKernel(c) ==> OnFront(o.ring, live[c].op.off, live[c].op.len))
  }

  /** What the thread in the lock is doing. */
  function Phase(s: State): Call {
    if s.lock.Some? && s.lock.value < |s.threads| then s.threads[s.lock.value].call else NoCall
  }

  /** FlushSend is under way and has not posted its send. */
  predicate Flushing(call: Call) {
    InFlush(call) && !call.Increment?
  }

  ghost predicate OutOk(o: Outgoing, phase: Call, connected: bool) {
    && R.Valid(o.ring) && o.accepted == o.sent + R.Contents(o.ring) && !o.crashed
    && o.pending == (if o.sender.NoSender? || phase.Increment? then 0 else 1)
    && (Flushing(phase) ==> o.sender.NoSender?)
    && (phase.Increment? ==> !o.sender.NoSender?)
    && (phase.PostSend? ==> (phase.off, phase.len) == FrontSpan(o.ring))
    && (o.sender.Lost? ==> !connected)
    && (connected && R.Contents(o.ring) != [] && o.sender.NoSender? ==> Flushing(phase))
  }

  ghost predicate SendOk(s: State) {
    && OutOk(s.send, Phase(s), s.connected)
    && (forall t :: 0 <= t < |s.threads| ==> SendLink(s.send, s.threads[t], t))
    && (forall c :: SendOpLink(s.send, s.live, c))
    && (s.send.sender.SendThread? ==> s.send.sender.t < |s.threads|)
  }

  /** The bytes at the front stay where and as they are. */
  predicate FrontKept(r: R.Ring, r': R.Ring) {
    r' == r
    || (r.aSize > 0 && r.a + r.aSize <= |r.mem| ==>
          && r'.a == r.a && r'.aSize >= r.aSize && r'.a + r'.aSize <= |r'.mem| == |r.mem|
          && r'.mem[r.a..r.a + r.aSize] == r.mem[r.a..r.a + r.aSize])
  }

  /** The send is with nobody but this thread and this context. */
  predicate SenderIsMine(sender: Sender, t: Tid, c: Ctx) {
    sender.NoSender? || sender.Lost? || sender == SendThread(t) || sender == SendKernel(c)
  }

  predicate SendMoves(o: Outgoing, o': Outgoing, t: Tid, c: Ctx) {
    || (o'.sender == o.sender && FrontKept(o.ring, o'.ring))
    || (o'.sender != o.sender && SenderIsMine(o.sender, t, c) && SenderIsMine(o'.sender, t, c))
  }

  lemma OthersKeepSend(o: Outgoing, o': Outgoing, th: Thread, t: Tid, u: Tid, c: Ctx)
    requires R.Valid(o.ring) && SendMoves(o, o', t, c) && u != t && SendLink(o, th, u)
    ensures SendLink(o', th, u)
  {
    if HasWire(th) && th.io.SendDone? && o'.ring != o.ring {
      var r, r', n := o.ring, o'.ring, |th.io.wire|;
      R.SubSlice(r.mem, r.a, r.a + r.aSize, n);
      R.SubSlice(r'.mem, r.a, r.a + r.aSize, n);
    }
  }

  lemma OtherOpsKeepSend(o: Outgoing, o': Outgoing, live: map<Ctx, Owner>, live': map<Ctx, Owner>, t: Tid, c: Ctx, x: Ctx)
    requires R.Valid(o.ring) && SendMoves(o, o', t, c) && x != c && SendOpLink(o, live, x)
    requires (x in live' <==> x in live) && (x in live ==> live'[x] == live[x])
    ensures SendOpLink(o', live', x)
  {
  }

  lemma Regroup(x: seq<byte>, y: seq<byte>, z: seq<byte>)
    ensures x + (y + z) == (x + y) + z
  {
  }

  lemma AppendFront(o: Outgoing, data: seq<byte>)
    requires R.Valid(o.ring)
    ensures FrontKept(o.ring, Appended(o, data).0.ring)
  {
    if o.ring.aSize > 0 { R.WriteKeepsFront(o.ring, data); R.WriteAppends(o.ring, data); }
    hide R.Write;
    hide R.Window;
    hide R.Contents;
  }

  lemma AppendKeeps(o: Outgoing, data: seq<byte>, connected: bool)
    requires OutOk(o, Append(data), connected)
    ensures var (o', fits) := Appended(o, data);
      OutOk(o', if fits && o.pending <= 0 then NewSend else Unlock, connected) && FrontKept(o.ring, o'.ring)
  {
    R.WriteAppends(o.ring, data);
    Regroup(o.sent, R.Contents(o.ring), data);
    AppendFront(o, data);
    hide R.Write;
    hide R.Window;
    hide R.Contents;
    hide R.Valid;
    hide FrontKept;
  }

  lemma CompleteKeeps(o: Outgoing, wire: seq<byte>, connected: bool)
    requires OutOk(o, Complete, connected) && o.sender.SendThread?
    requires wire != [] && |wire| <= o.ring.aSize && wire == o.ring.mem[o.ring.a..o.ring.a + |wire|]
    ensures var o' := Completed(o, wire);
      OutOk(o', if R.Contiguous(o'.ring) > 0 then NewSend else Unlock, connected)
  {
    R.RemoveTakesFront(o.ring, |wire|);
    Regroup(o.sent, wire, R.Contents(R.Remove(o.ring, |wire|)));
    hide R.Valid;
    hide R.Remove;
    hide R.Contents;
    hide R.Contiguous;
  }

  lemma FrontSpanIsFront(r: R.Ring)
    requires R.Valid(r)
    ensures OnFront(r, FrontSpan(r).0, FrontSpan(r).1)
  {
  }

  function EffectCtx(e: Effect): Ctx {
    if e.Keep? then 0 else e.c
  }

  /** What a step of thread t finds on the send side, when c is the context it touches. */
  ghost predicate SendHere(s: State, t: Tid, c: Ctx) {
    && t < |s.threads| && OutOk(s.send, Phase(s), s.connected) && SendLink(s.send, s.threads[t], t)
    && SendOpLink(s.send, s.live, c) && LockLink(s.lock, s.threads[t], t)
  }

  /** What it leaves. */
  ghost predicate SendLeft(s: State, s': State, t: Tid, c: Ctx) {
    && t < |s'.threads| && OutOk(s'.send, Phase(s'), s'.connected) && SendLink(s'.send, s'.threads[t], t)
    && SendOpLink(s'.send, s'.live, c) && SendMoves(s.send, s'.send, t, c)
  }

  predicate NoSendEffect(e: Effect) {
    e.Keep? || (!e.Take? && !(e.Post? && e.op.kind.Send?))
  }

  lemma OpLinkKept(o: Outgoing, live: map<Ctx, Owner>, claims: Claims, t: Tid, e: Effect)
    requires NoSendEffect(e) && Allowed(live, claims, e) && (!e.Keep? ==> Agrees(live, claims, t, e.c))
    requires SendOpLink(o, live, EffectCtx(e))
    ensures SendOpLink(o, Live(live, e, t), EffectCtx(e))
  {
  }

  /** A step that is none of the send side's business, except that it may disconnect. */
  ghost predicate SendAside(s: State, s': State, t: Tid) {
    && OnlyThread(s, s', t) && s'.send == s.send && s'.lock == s.lock && (s'.connected ==> s.connected)
    && (s'.threads[t].call == s.threads[t].call || (!InLock(s.threads[t].call) && !InLock(s'.threads[t].call)))
    && HasWire(s'.threads[t]) == HasWire(s.threads[t])
    && (HasWire(s.threads[t]) ==> s'.threads[t].io == s.threads[t].io)
  }

  lemma CutKeepsOut(o: Outgoing, phase: Call, connected: bool)
    requires OutOk(o, phase, connected)
    ensures OutOk(o, phase, false)
    ensures o.sender.SendThread? ==> OutOk(o.(sender := Lost), phase, false)
  {
  }

  lemma PhaseKeepsOut(o: Outgoing, phase: Call, phase': Call, connected: bool)
    requires OutOk(o, phase, connected) && !InFlush(phase) && !InFlush(phase')
    ensures OutOk(o, phase', connected)
  {
  }

  lemma AsideSend(s: State, s': State, t: Tid, c: Ctx)
    requires SendHere(s, t, c) && SendAside(s, s', t) && SendOpLink(s'.send, s'.live, c)
    ensures SendLeft(s, s', t, c)
  {
    CutKeepsOut(s.send, Phase(s), s.connected);
    assert Phase(s') == Phase(s);
    hide OutOk;
    hide SendOpLink;
  }

  lemma JobAside(s: State, t: Tid)
    requires t < |s.threads| && s.threads[t].call.NoCall? && !s.threads[t].io.Failed?
    requires !InPostRecv(s.threads[t].io) && !InPreRecv(s.threads[t].io)
    ensures SendAside(s, JobStep(s, t), t)
  {
    hide R.Commit;
  }

  lemma FailSend(s: State, t: Tid, c: Ctx)
    requires SendHere(s, t, c) && s.threads[t].call.NoCall? && s.threads[t].io.Failed?
    ensures SendLeft(s, JobStep(s, t), t, c)
  {
    CutKeepsOut(s.send, Phase(s), s.connected);
    assert Phase(JobStep(s, t)) == Phase(s);
    hide OutOk;
  }

  lemma FlushSend(s: State, t: Tid, ok: bool, addr: Ctx, c: Ctx)
    requires SendHere(s, t, c) && InFlush(s.threads[t].call)
    requires c == EffectCtx(CallEffect(s.threads[t].call, ok, addr))
    requires NoSendEffect(CallEffect(s.threads[t].call, ok, addr)) ==> SendOpLink(s.send, FlushStep(s, t, ok, addr).live, c)
    ensures SendLeft(s, FlushStep(s, t, ok, addr), t, c)
  {
    FrontSpanIsFront(s.send.ring);
    hide R.Valid;
    hide R.Contents;
    hide FrontSpan;
  }

  lemma AppendSend(s: State, t: Tid, c: Ctx)
    requires SendHere(s, t, c) && s.threads[t].call.Append?
    ensures SendLeft(s, CallStep(s, t), t, c)
  {
    AppendKeeps(s.send, s.threads[t].call.data, s.connected);
    hide OutOk;
    hide R.Valid;
    hide R.Write;
  }

  lemma CompleteSend(s: State, t: Tid, c: Ctx)
    requires SendHere(s, t, c) && s.threads[t].call.Complete?
    ensures SendLeft(s, CallStep(s, t), t, c)
  {
    CompleteKeeps(s.send, Wire(s.threads[t].io), s.connected);
    hide OutOk;
    hide R.Valid;
    hide R.Remove;
    hide R.Contiguous;
  }

  /** Checking the connection, taking the lock and leaving it. */
  lemma GateSend(s: State, t: Tid, c: Ctx)
    requires SendHere(s, t, c) && R.Valid(s.send.ring)
    requires var call := s.threads[t].call; call.Check? || call.Acquire? || call.AcquireDone? || call.Unlock?
    requires s.threads[t].call.Acquire? || s.threads[t].call.AcquireDone? ==> s.lock == None
    ensures SendLeft(s, CallStep(s, t), t, c)
  {
    hide R.Valid;
    if s.threads[t].call.Check? {
      assert Phase(CallStep(s, t)) == Phase(s);
    } else {
      PhaseKeepsOut(s.send, Phase(s), Phase(CallStep(s, t)), s.connected);
    }
    hide OutOk;
    hide SendOpLink;
  }

  lemma HandOver(o: Outgoing, phase: Call, connected: bool, t: Tid)
    requires OutOk(o, phase, connected) && o.sender.SendKernel?
    ensures OutOk(o.(sender := SendThread(t)), phase, connected)
  {
  }

  lemma DequeueSent(s: State, t: Tid, c: Ctx, ok: bool, data: seq<byte>)
    requires Enabled(s, Dequeue(t, c, ok, data)) && Lands(s, s.live[c].op, data) && SendHere(s, t, c)
    requires s.live[c].op.kind.Send?
    ensures SendLeft(s, Completion(s, t, c, ok, data), t, c)
  {
    assert s.send.ring.a + s.send.ring.aSize <= |s.send.ring.mem|;
    HandOver(s.send, Phase(s), s.connected, t);
    assert Phase(Completion(s, t, c, ok, data)) == Phase(s);
    hide OutOk;
    hide R.Valid;
  }

  lemma DequeueReceived(s: State, t: Tid, c: Ctx, ok: bool, data: seq<byte>)
    requires Enabled(s, Dequeue(t, c, ok, data)) && Lands(s, s.live[c].op, data) && SendHere(s, t, c)
    requires !s.live[c].op.kind.Send?
    ensures SendLeft(s, Completion(s, t, c, ok, data), t, c)
  {
    hide OutOk;
    hide Stored;
    AsideSend(s, Completion(s, t, c, ok, data), t, c);
  }

  lemma OtherAside(s: State, step: Step)
    requires Enabled(s, step) && Sane(s, step) && !step.Go? && !step.Dequeue?
    ensures SendAside(s, Apply(s, step), step.t)
  {
    hide R.Valid;
    hide R.Remove;
    hide R.Contents;
  }

  lemma GoSend(s: State, step: Step)
    requires Enabled(s, step) && Sane(s, step) && step.Go? && SendHere(s, step.t, EffectCtx(EffectOf(s, step)))
    requires NoSendEffect(EffectOf(s, step)) ==>
      SendOpLink(s.send, Apply(s, step).live, EffectCtx(EffectOf(s, step)))
    ensures SendLeft(s, Apply(s, step), step.t, EffectCtx(EffectOf(s, step)))
  {
    hide R.Valid;
    hide OutOk;
    hide SendLink;
    hide SendOpLink;
    hide SendLeft;
    hide PostRecvStep;
    hide PreRecvStep;
    hide FlushStep;
    hide CallStep;
    hide JobStep;
    var e, t, ok, addr := EffectOf(s, step), step.t, step.ok, step.addr;
    var c, s', th := EffectCtx(e), Apply(s, step), s.threads[t];
    if InFlush(th.call) {
      FlushSend(s, t, ok, addr, c);
    } else if th.call.Append? {
      AppendSend(s, t, c);
    } else if th.call.Complete? {
      CompleteSend(s, t, c);
    } else if !th.call.NoCall? {
      GateSend(s, t, c);
    } else if InPostRecv(th.io) {
      PostRecvIsRecvOnly(s, t, ok, addr);
      AsideSend(s, s', t, c);
    } else if InPreRecv(th.io) {
      PreRecvIsRecvOnly(s, t, ok, addr);
      AsideSend(s, s', t, c);
    } else if th.io.Failed? {
      FailSend(s, t, c);
    } else {
      JobAside(s, t);
      AsideSend(s, s', t, c);
    }
  }

  lemma StepSend(s: State, step: Step)
    requires Enabled(s, step) && Sane(s, step) && SendHere(s, step.t, EffectCtx(EffectOf(s, step)))
    requires !EffectOf(s, step).Keep? ==> Agrees(s.live, ClaimsOf(s.threads[step.t]), step.t, EffectOf(s, step).c)
    ensures SendLeft(s, Apply(s, step), step.t, EffectCtx(EffectOf(s, step)))
  {
    hide R.Valid;
    hide SendLeft;
    hide Agrees;
    hide Allowed;
    hide OutOk;
    hide SendLink;
    hide SendOpLink;
    var e, s', t := EffectOf(s, step), Apply(s, step), step.t;
    assert NoSendEffect(e) ==> SendOpLink(s.send, s'.live, EffectCtx(e)) by {
      StepHas(s, step);
      if NoSendEffect(e) { OpLinkKept(s.send, s.live, ClaimsOf(s.threads[t]), t, e); }
      hide Live;
    }
    if step.Go? {
      GoSend(s, step);
    } else if step.Dequeue? {
      if s.live[step.c].op.kind.Send? {
        DequeueSent(s, t, step.c, step.ok, step.data);
      } else {
        DequeueReceived(s, t, step.c, step.ok, step.data);
      }
    } else {
      OtherAside(s, step);
      AsideSend(s, s', t, EffectCtx(e));
    }
  }

  lemma StepKeepsSend(s: State, step: Step)
    requires Enabled(s, step) && Sane(s, step) && LockOk(s) && OwnersOk(s) && SendOk(s)
    ensures SendOk(Apply(s, step))
  {
    var e, c, s', t := EffectOf(s, step), EffectCtx(EffectOf(s, step)), Apply(s, step), step.t;
    assert !e.Keep? ==> Agrees(s.live, ClaimsOf(s.threads[t]), t, e.c);
    hide Apply;
    hide EffectOf;
    hide R.Valid;
    hide Agrees;
    hide ClaimsOf;
    hide Sane;
    StepHas(s, step);
    StepSend(s, step);
    assert s'.send.sender.SendThread? ==> s'.send.sender.t < |s'.threads|;
    hide OutOk;
    hide SendLink;
    hide SendOpLink;
    hide SendMoves;
    forall u | 0 <= u < |s'.threads| ensures SendLink(s'.send, s'.threads[u], u) {
      assert SendLink(s.send, s.threads[u], u);
      if u != t { OthersKeepSend(s.send, s'.send, s.threads[u], t, u, c); }
    }
    forall x ensures SendOpLink(s'.send, s'.live, x) {
      assert SendOpLink(s.send, s.live, x);
      if x != c { OtherOpsKeepSend(s.send, s'.send, s.live, s'.live, t, c, x); }
    }
  }

  // ---- The receive side ----

  /** The span the kernel may fill: all of the free window of the receive buffer. */
  predicate ReadySpan(r: R.Ring, off: nat, len: nat) {
    R.Window(r).0 == r && off == R.WriteOffset(r) && 0 < len == R.Window(r).1
  }

  predicate SpanOk(r: R.Ring, io: Io) {
    match io
    case NewRecv(_) => R.Window(r).0 == r && R.Window(r).1 > 0
    case PostRecv(_, _, off, len) => ReadySpan(r, off, len)
    case RecvDone(_, data) =>
      && R.Window(r).0 == r && |data| <= R.Window(r).1
      && var at := R.WriteOffset(r); at + |data| <= |r.mem| && r.mem[at..at + |data|] == data
    case _ => true
  }

  predicate RecvLink(i: Incoming, th: Thread, t: Tid) {
    && (InRecv(th.io) <==> i.token == TokenThread(t))
    && (InRecv(th.io) ==> SpanOk(i.ring, th.io))
  }

  predicate RecvOpLink(i: Incoming, live: map<Ctx, Owner>, c: Ctx) {
    && (c in live && live[c].Kernel? && !live[c].op.kind.Send? <==> i.token == TokenKernel(c))
    && (i.token == TokenKernel(c) && live[c].op.kind.Recv? ==> ReadySpan(i.ring, live[c].op.off, live[c].op.len))
    && (i.token == TokenKernel(c) && live[c].op.kind.RecvZero? ==> live[c].op.len == 0)
  }

  ghost predicate InOk(i: Incoming) {
    R.Valid(i.ring) && i.delivered == i.consumed + R.Contents(i.ring)
  }

  ghost predicate RecvOk(s: State) {
    && InOk(s.recv)
    && (forall t :: 0 <= t < |s.threads| ==> RecvLink(s.recv, s.threads[t], t))
    && (forall c :: RecvOpLink(s.recv, s.live, c))
    && (s.recv.token.TokenThread? ==> s.recv.token.t < |s.threads|)
  }

  predicate TokenIsMine(token: Token, t: Tid, c: Ctx) {
    token.NoToken? || token == TokenThread(t) || token == TokenKernel(c)
  }

  predicate RecvMoves(i: Incoming, i': Incoming, t: Tid, c: Ctx) {
    || (i'.token == i.token && i'.ring == i.ring)
    || (TokenIsMine(i.token, t, c) && TokenIsMine(i'.token, t, c))
  }

  ghost predicate RecvHere(s: State, t: Tid, c: Ctx) {
    t < |s.threads| && InOk(s.recv) && RecvLink(s.recv, s.threads[t], t) && RecvOpLink(s.recv, s.live, c)
  }

  ghost predicate RecvLeft(s: State, s': State, t: Tid, c: Ctx) {
    && t < |s'.threads| && InOk(s'.recv) && RecvLink(s'.recv, s'.threads[t], t)
    && RecvOpLink(s'.recv, s'.live, c) && RecvMoves(s.recv, s'.recv, t, c)
  }

  lemma OthersKeepRecv(i: Incoming, i': Incoming, th: Thread, t: Tid, u: Tid, c: Ctx)
    requires RecvMoves(i, i', t, c) && u != t && RecvLink(i, th, u)
    ensures RecvLink(i', th, u)
  {
    hide SpanOk;
  }

  lemma OtherOpsKeepRecv(i: Incoming, i': Incoming, live: map<Ctx, Owner>, live': map<Ctx, Owner>, t: Tid, c: Ctx, x: Ctx)
    requires RecvMoves(i, i', t, c) && x != c && RecvOpLink(i, live, x)
    requires (x in live' <==> x in live) && (x in live ==> live'[x] == live[x])
    ensures RecvOpLink(i', live', x)
  {
    hide ReadySpan;
  }

  predicate NoRecvEffect(e: Effect) {
    e.Keep? || (!e.Take? && !(e.Post? && !e.op.kind.Send?))
  }

  lemma RecvOpLinkKept(i: Incoming, live: map<Ctx, Owner>, claims: Claims, t: Tid, e: Effect)
    requires NoRecvEffect(e) && Allowed(live, claims, e) && (!e.Keep? ==> Agrees(live, claims, t, e.c))
    requires RecvOpLink(i, live, EffectCtx(e))
    ensures RecvOpLink(i, Live(live, e, t), EffectCtx(e))
  {
    hide ReadySpan;
  }

  /** A step that is none of the receive side's business. */
  ghost predicate RecvAside(s: State, s': State, t: Tid) {
    && OnlyThread(s, s', t) && s'.recv == s.recv && InRecv(s'.threads[t].io) == InRecv(s.threads[t].io)
    && (s'.threads[t].io == s.threads[t].io || s'.threads[t].io.CheckPre? || !InRecv(s'.threads[t].io))
  }

  lemma AsideRecv(s: State, s': State, t: Tid, c: Ctx)
    requires RecvHere(s, t, c) && RecvAside(s, s', t) && RecvOpLink(s'.recv, s'.live, c)
    ensures RecvLeft(s, s', t, c)
  {
    hide InOk;
    hide RecvOpLink;
    hide ReadySpan;
    hide R.Window;
  }

  lemma OpenWindow(i: Incoming)
    requires InOk(i)
    ensures var (ring, size) := R.Window(i.ring);
      InOk(i.(ring := ring)) && size >= 0 && R.Window(ring) == (ring, size)
  {
    R.WindowInside(i.ring);
  }

  lemma PostRecvRecv(s: State, t: Tid, ok: bool, addr: Ctx, c: Ctx)
    requires RecvHere(s, t, c) && InPostRecv(s.threads[t].io)
    requires c == EffectCtx(RecvEffect(s.threads[t].io, ok, addr))
    requires NoRecvEffect(RecvEffect(s.threads[t].io, ok, addr)) ==>
      RecvOpLink(s.recv, PostRecvStep(s, t, ok, addr).live, c)
    ensures RecvLeft(s, PostRecvStep(s, t, ok, addr), t, c)
  {
    OpenWindow(s.recv);
    hide R.Window;
    hide R.WriteOffset;
    hide R.Valid;
    hide R.Contents;
  }

  lemma PreRecvRecv(s: State, t: Tid, ok: bool, addr: Ctx, c: Ctx)
    requires RecvHere(s, t, c) && InPreRecv(s.threads[t].io)
    requires c == EffectCtx(RecvEffect(s.threads[t].io, ok, addr))
    requires NoRecvEffect(RecvEffect(s.threads[t].io, ok, addr)) ==>
      RecvOpLink(s.recv, PreRecvStep(s, t, ok, addr).live, c)
    ensures RecvLeft(s, PreRecvStep(s, t, ok, addr), t, c)
  {
    hide R.Window;
    hide R.WriteOffset;
    hide R.Valid;
    hide R.Contents;
    hide ReadySpan;
  }

  lemma CommitRecv(s: State, t: Tid, c: Ctx)
    requires RecvHere(s, t, c) && s.threads[t].io.RecvDone?
    ensures RecvLeft(s, JobStep(s, t), t, c)
  {
    var data := s.threads[t].io.data;
    R.CommitAppends(s.recv.ring, |data|);
    Regroup(s.recv.consumed, R.Contents(s.recv.ring), data);
    hide R.Window;
    hide R.WriteOffset;
    hide R.Valid;
    hide R.Contents;
    hide R.Commit;
  }

  lemma JobRecvAside(s: State, t: Tid)
    requires t < |s.threads| && !InRecv(s.threads[t].io)
    ensures RecvAside(s, JobStep(s, t), t)
  {
  }

  lemma ConsumeKeeps(i: Incoming, n: nat)
    requires InOk(i) && n <= R.StoredSize(i.ring)
    ensures InOk(Consumed(i, n))
  {
    R.ReadTakesPrefix(i.ring, n);
    R.RemoveDrops(i.ring, n);
    hide R.Remove;
    hide R.Valid;
    var bytes := R.Contents(i.ring);
    hide R.Contents;
    Regroup(i.consumed, bytes[..n], bytes[n..]);
    assert bytes == bytes[..n] + bytes[n..];
  }

  lemma ConsumeRecv(s: State, t: Tid, n: nat, c: Ctx)
    requires Enabled(s, Consume(t, n)) && Sane(s, Consume(t, n)) && RecvHere(s, t, c)
    ensures RecvLeft(s, Apply(s, Consume(t, n)), t, c)
  {
    ConsumeKeeps(s.recv, n);
    hide InOk;
    hide R.Valid;
    hide R.Remove;
    hide R.Contents;
    hide R.Window;
  }

  lemma OtherRecvAside(s: State, step: Step)
    requires Enabled(s, step) && Sane(s, step) && !step.Go? && !step.Dequeue? && !step.Consume?
    ensures RecvAside(s, Apply(s, step), step.t)
  {
    hide R.Valid;
  }

  lemma DequeueSentRecv(s: State, t: Tid, c: Ctx, ok: bool, data: seq<byte>)
    requires Enabled(s, Dequeue(t, c, ok, data)) && Lands(s, s.live[c].op, data) && RecvHere(s, t, c)
    requires s.live[c].op.kind.Send?
    ensures RecvLeft(s, Completion(s, t, c, ok, data), t, c)
  {
    AsideRecv(s, Completion(s, t, c, ok, data), t, c);
  }

  lemma StoreKeeps(i: Incoming, off: nat, len: nat, data: seq<byte>)
    requires InOk(i) && ReadySpan(i.ring, off, len) && |data| <= len
    ensures off + |data| <= |i.ring.mem|
    ensures var i' := i.(ring := Stored(i.ring, off, data));
      InOk(i') && forall c :: SpanOk(i'.ring, RecvDone(c, data))
  {
    R.FillIsInvisible(i.ring, data);
    assert Stored(i.ring, off, data) == R.Fill(i.ring, data);
  }

  lemma DequeueReceivedRecv(s: State, t: Tid, c: Ctx, ok: bool, data: seq<byte>)
    requires Enabled(s, Dequeue(t, c, ok, data)) && Lands(s, s.live[c].op, data) && RecvHere(s, t, c)
    requires !s.live[c].op.kind.Send?
    ensures RecvLeft(s, Completion(s, t, c, ok, data), t, c)
  {
    if s.live[c].op.kind.Recv? && data != [] {
      StoreKeeps(s.recv, s.live[c].op.off, s.live[c].op.len, data);
    }
    hide Stored;
    hide InOk;
    hide R.Window;
    hide R.WriteOffset;
  }

  lemma GoRecv(s: State, step: Step)
    requires Enabled(s, step) && Sane(s, step) && step.Go? && RecvHere(s, step.t, EffectCtx(EffectOf(s, step)))
    requires NoRecvEffect(EffectOf(s, step)) ==>
      RecvOpLink(s.recv, Apply(s, step).live, EffectCtx(EffectOf(s, step)))
    ensures RecvLeft(s, Apply(s, step), step.t, EffectCtx(EffectOf(s, step)))
  {
    hide R.Valid;
    hide InOk;
    hide RecvOpLink;
    hide SpanOk;
    hide RecvLeft;
    hide PostRecvStep;
    hide PreRecvStep;
    hide FlushStep;
    hide CallStep;
    hide JobStep;
    var e, t, ok, addr := EffectOf(s, step), step.t, step.ok, step.addr;
    var c, s', th := EffectCtx(e), Apply(s, step), s.threads[t];
    if InFlush(th.call) {
      FlushIsSendOnly(s, t, ok, addr);
      AsideRecv(s, s', t, c);
    } else if !th.call.NoCall? {
      CallIsSendOnly(s, t);
      AsideRecv(s, s', t, c);
    } else if InPostRecv(th.io) {
      PostRecvRecv(s, t, ok, addr, c);
    } else if InPreRecv(th.io) {
      PreRecvRecv(s, t, ok, addr, c);
    } else if th.io.RecvDone? {
      CommitRecv(s, t, c);
    } else {
      JobRecvAside(s, t);
      AsideRecv(s, s', t, c);
    }
  }

  lemma StepRecv(s: State, step: Step)
    requires Enabled(s, step) && Sane(s, step) && RecvHere(s, step.t, EffectCtx(EffectOf(s, step)))
    requires !EffectOf(s, step).Keep? ==> Agrees(s.live, ClaimsOf(s.threads[step.t]), step.t, EffectOf(s, step).c)
    ensures RecvLeft(s, Apply(s, step), step.t, EffectCtx(EffectOf(s, step)))
  {
    hide R.Valid;
    hide RecvLeft;
    hide Agrees;
    hide Allowed;
    hide InOk;
    hide RecvLink;
    hide RecvOpLink;
    var e, s', t := EffectOf(s, step), Apply(s, step), step.t;
    assert NoRecvEffect(e) ==> RecvOpLink(s.recv, s'.live, EffectCtx(e)) by {
      StepHas(s, step);
      if NoRecvEffect(e) { RecvOpLinkKept(s.recv, s.live, ClaimsOf(s.threads[t]), t, e); }
      hide Live;
    }
    if step.Go? {
      GoRecv(s, step);
    } else if step.Dequeue? {
      if s.live[step.c].op.kind.Send? {
        DequeueSentRecv(s, t, step.c, step.ok, step.data);
      } else {
        DequeueReceivedRecv(s, t, step.c, step.ok, step.data);
      }
    } else if step.Consume? {
      ConsumeRecv(s, t, step.n, EffectCtx(e));
    } else {
      OtherRecvAside(s, step);
      AsideRecv(s, s', t, EffectCtx(e));
    }
  }

  lemma StepKeepsRecv(s: State, step: Step)
    requires Enabled(s, step) && Sane(s, step) && OwnersOk(s) && RecvOk(s)
    ensures RecvOk(Apply(s, step))
  {
    var e, c, s', t := EffectOf(s, step), EffectCtx(EffectOf(s, step)), Apply(s, step), step.t;
    assert !e.Keep? ==> Agrees(s.live, ClaimsOf(s.threads[t]), t, e.c);
    hide Apply;
    hide EffectOf;
    hide R.Valid;
    hide Agrees;
    hide ClaimsOf;
    hide Sane;
    StepHas(s, step);
    StepRecv(s, step);
    assert s'.recv.token.TokenThread? ==> s'.recv.token.t < |s'.threads|;
    hide InOk;
    hide RecvLink;
    hide RecvOpLink;
    hide RecvMoves;
    forall u | 0 <= u < |s'.threads| ensures RecvLink(s'.recv, s'.threads[u], u) {
      assert RecvLink(s.recv, s.threads[u], u);
      if u != t { OthersKeepRecv(s.recv, s'.recv, s.threads[u], t, u, c); }
    }
    forall x ensures RecvOpLink(s'.recv, s'.live, x) {
      assert RecvOpLink(s.recv, s.live, x);
      if x != c { OtherOpsKeepRecv(s.recv, s'.recv, s.live, s'.live, t, c, x); }
    }
  }

  // ---- Giving up the token means disconnecting ----

  /** The thread is on its way to Disconnect because something failed. */
  predicate Dooms(th: Thread) {
    (th.io.Finish? && !th.io.ok) || th.io.Failed?
  }

  /** A connected session has its token somewhere, or a thread about to disconnect it. */
  ghost predicate HeardOk(s: State) {
    s.connected && s.recv.token.NoToken? ==> exists t: nat :: t < |s.threads| && Dooms(s.threads[t])
  }

  /** A step connects nothing, gives the token up only on the way to Disconnect,
      and leaves that way only by disconnecting. */
  ghost predicate Honest(s: State, s': State, t: Tid) {
    && OnlyThread(s, s', t) && (s'.connected ==> s.connected)
    && (s'.recv.token.NoToken? ==> s.recv.token.NoToken? || Dooms(s'.threads[t]))
    && (Dooms(s.threads[t]) ==> Dooms(s'.threads[t]) || !s'.connected)
  }

  lemma HonestKeepsHeard(s: State, s': State, t: Tid)
    requires HeardOk(s) && Honest(s, s', t)
    ensures HeardOk(s')
  {
    if s'.connected && s'.recv.token.NoToken? {
      if s.recv.token.NoToken? {
        var u: nat :| u < |s.threads| && Dooms(s.threads[u]);
        assert Dooms(s'.threads[u]);
      } else {
        assert Dooms(s'.threads[t]);
      }
    }
  }

  lemma PostRecvIsHonest(s: State, t: Tid, ok: bool, addr: Ctx)
    requires t < |s.threads| && InPostRecv(s.threads[t].io)
    ensures Honest(s, PostRecvStep(s, t, ok, addr), t)
  {
    hide R.Window;
    hide R.WriteOffset;
  }

  lemma PreRecvIsHonest(s: State, t: Tid, ok: bool, addr: Ctx)
    requires t < |s.threads| && InPreRecv(s.threads[t].io)
    ensures Honest(s, PreRecvStep(s, t, ok, addr), t)
  {
  }

  lemma JobIsHonest(s: State, t: Tid)
    requires t < |s.threads| && !InPostRecv(s.threads[t].io) && !InPreRecv(s.threads[t].io)
    ensures Honest(s, JobStep(s, t), t)
  {
    hide R.Commit;
  }

  lemma SendIsHonest(s: State, step: Step)
    requires Enabled(s, step) && Sane(s, step) && step.Go? && LockLink(s.lock, s.threads[step.t], step.t)
    requires !s.threads[step.t].call.NoCall?
    ensures Honest(s, Apply(s, step), step.t)
  {
    hide R.Valid;
    hide Appended;
    hide Completed;
    hide FrontSpan;
    hide R.Contiguous;
    if InFlush(s.threads[step.t].call) {
      FlushIsSendOnly(s, step.t, step.ok, step.addr);
    } else {
      CallIsSendOnly(s, step.t);
    }
  }

  lemma OtherIsHonest(s: State, step: Step)
    requires Enabled(s, step) && Sane(s, step) && !step.Go?
    ensures Honest(s, Apply(s, step), step.t)
  {
    hide R.Valid;
    hide Stored;
    hide R.Remove;
    hide R.Contents;
  }

  lemma StepKeepsHeard(s: State, step: Step)
    requires Enabled(s, step) && Sane(s, step) && LockOk(s) && HeardOk(s)
    ensures HeardOk(Apply(s, step))
  {
    assert LockLink(s.lock, s.threads[step.t], step.t);
    hide LockOk;
    hide LockLink;
    hide HeardOk;
    hide Honest;
    hide R.Valid;
    hide PostRecvStep;
    hide PreRecvStep;
    hide FlushStep;
    hide CallStep;
    hide JobStep;
    if step.Go? {
      var th := s.threads[step.t];
      if !th.call.NoCall? {
        SendIsHonest(s, step);
      } else if InPostRecv(th.io) {
        PostRecvIsHonest(s, step.t, step.ok, step.addr);
      } else if InPreRecv(th.io) {
        PreRecvIsHonest(s, step.t, step.ok, step.addr);
      } else {
        JobIsHonest(s, step.t);
      }
    } else {
      OtherIsHonest(s, step);
    }
    HonestKeepsHeard(s, Apply(s, step), step.t);
  }

  // ---- Runs ----

  /** A session just connected: OnConnect, in thread 0, is about to call PreRecv. */
  predicate Init(s: State) {
    && s.connected && s.lock == None && s.live == map[] && !s.fault && |s.threads| > 0
    && s.send == Outgoing(0, R.Fresh(s.send.ring.mem), NoSender, [], [], false)
    && s.recv == Incoming(R.Fresh(s.recv.ring.mem), TokenThread(0), [], [])
    && s.threads[0] == Thread(CheckPre(None), NoCall)
    && (forall t :: 0 < t < |s.threads| ==> s.threads[t] == Thread(Idle, NoCall))
  }

  ghost predicate Next(s: State, s': State) {
    exists step :: Enabled(s, step) && Sane(s, step) && s' == Apply(s, step)
  }

  ghost predicate NextAt(run: seq<State>, k: nat)
    requires k + 1 < |run|
  {
    Next(run[k], run[k + 1])
  }

  ghost predicate IsRun(run: seq<State>) {
    |run| > 0 && Init(run[0]) && (forall k: nat :: k + 1 < |run| ==> NextAt(run, k))
  }

  ghost predicate Inv(s: State) {
    OwnersOk(s) && LockOk(s) && SendOk(s) && RecvOk(s) && HeardOk(s)
  }

  lemma InitInv(s: State)
    requires Init(s)
    ensures Inv(s)
  {
    assert RecvLink(s.recv, s.threads[0], 0);
  }

  lemma StepKeeps(s: State, step: Step)
    requires Enabled(s, step) && Sane(s, step) && Inv(s)
    ensures Inv(Apply(s, step))
  {
    hide R.Valid;
    hide Apply;
    hide Sane;
    hide OwnersOk;
    hide LockOk;
    hide SendOk;
    hide RecvOk;
    hide HeardOk;
    StepKeepsHeard(s, step);
    assert OwnersOk(Apply(s, step)) by {
      StepHas(s, step);
      EffectKeepsOwners(s, Apply(s, step), step.t, EffectOf(s, step));
    }
    StepKeepsLock(s, step);
    StepKeepsSend(s, step);
    StepKeepsRecv(s, step);
  }

  /** Sane shuts no step out: whatever the kernel completes lies inside its buffer. */
  lemma StepsAreSane(s: State, step: Step)
    requires Inv(s) && Enabled(s, step)
    ensures Sane(s, step)
  {
    hide R.Contents;
    if step.Dequeue? {
      assert SendOpLink(s.send, s.live, step.c) && RecvOpLink(s.recv, s.live, step.c);
      R.WindowInside(s.recv.ring);
    }
    hide OwnersOk;
    hide LockOk;
  }

  lemma {:induction false} RunInv(run: seq<State>, k: nat)
    requires IsRun(run) && k < |run|
    ensures Inv(run[k])
  {
    if k == 0 {
      InitInv(run[0]);
    } else {
      RunInv(run, k - 1);
      assert NextAt(run, k - 1);
      var step :| Enabled(run[k - 1], step) && Sane(run[k - 1], step) && run[k] == Apply(run[k - 1], step);
      StepKeeps(run[k - 1], step);
    }
    hide Inv;
  }

  // ---- Main results ----

  /** Where the code asserts something, or deletes a context, it is so. */
  ghost predicate AsAsserted(s: State, th: Thread) {
    && (th.call.Complete? ==> s.send.pending == 1)
    && (th.call.Increment? ==> s.send.pending == 0)
    && (th.io.Dispose? ==> th.io.c in s.live)
    && (th.io.DropRecv? || th.io.DropPre? ==> th.io.c2 in s.live)
    && (th.call.DropSend? ==> th.call.c2 in s.live)
  }

  lemma AssertedIsSo(s: State, t: Tid)
    requires Inv(s) && t < |s.threads|
    ensures AsAsserted(s, s.threads[t])
  {
    var th := s.threads[t];
    assert LockLink(s.lock, th, t) && SendLink(s.send, th, t) && OutOk(s.send, Phase(s), s.connected);
    DisposedIsLive(s, t);
    hide Inv;
    hide R.Valid;
    hide R.Contents;
  }

  lemma DisposedIsLive(s: State, t: Tid)
    requires OwnersOk(s) && t < |s.threads|
    ensures var th := s.threads[t];
      && (th.io.Dispose? ==> th.io.c in s.live)
      && (th.io.DropRecv? || th.io.DropPre? ==> th.io.c2 in s.live)
      && (th.call.DropSend? ==> th.call.c2 in s.live)
  {
    var claims := ClaimsOf(s.threads[t]);
    forall role | claims.Get(role).Some? ensures claims.Get(role).value in s.live {
      assert Agrees(s.live, claims, t, claims.Get(role).value);
    }
    var c, c2, c3 := claims.Get(Handling), claims.Get(RecvPosting), claims.Get(SendPosting);
    assert (c.Some? ==> c.value in s.live) && (c2.Some? ==> c2.value in s.live) && (c3.Some? ==> c3.value in s.live);
  }

  /** The three assertions of the send side never fire, and a dead context is
      never deleted; the pending count is one exactly while a posted send is
      not accounted for, save between WSASend and the increment. */
  lemma AssertionsHold(run: seq<State>, k: nat)
    requires IsRun(run) && k < |run|
    ensures var s := run[k];
      && !s.send.crashed && !s.fault && (s.send.pending == 0 || s.send.pending == 1)
      && (s.lock == None ==> (s.send.pending == 1 <==> !s.send.sender.NoSender?))
      && forall t :: 0 <= t < |s.threads| ==> AsAsserted(s, s.threads[t])
  {
    RunInv(run, k);
    forall t: nat | t < |run[k].threads| ensures AsAsserted(run[k], run[k].threads[t]) { AssertedIsSo(run[k], t); }
    hide AsAsserted;
  }

  /** No byte is lost, repeated or reordered on the way out or on the way in. */
  lemma BytesAreConserved(run: seq<State>, k: nat)
    requires IsRun(run) && k < |run|
    ensures R.Valid(run[k].send.ring) && R.Valid(run[k].recv.ring)
    ensures run[k].send.accepted == run[k].send.sent + R.Contents(run[k].send.ring)
    ensures run[k].recv.delivered == run[k].recv.consumed + R.Contents(run[k].recv.ring)
  {
    RunInv(run, k);
  }

  predicate IsRecvOp(s: State, c: Ctx) {
    c in s.live && s.live[c].Kernel? && !s.live[c].op.kind.Send?
  }

  predicate IsSendOp(s: State, c: Ctx) {
    c in s.live && s.live[c].Kernel? && s.live[c].op.kind.Send?
  }

  predicate IsReceiver(s: State, t: Tid) {
    t < |s.threads| && InRecv(s.threads[t].io)
  }

  /** A send is outstanding: the kernel has it, or the thread that dequeued its completion. */
  ghost predicate SendOutstanding(s: State) {
    || (exists c :: IsSendOp(s, c))
    || (exists t :: 0 <= t < |s.threads| && HasWire(s.threads[t]))
  }

  /** A connected session with bytes to send has a send outstanding whenever the lock is free. */
  lemma NothingStalls(run: seq<State>, k: nat)
    requires IsRun(run) && k < |run| && R.Valid(run[k].send.ring)
    requires run[k].connected && run[k].lock == None && R.Contents(run[k].send.ring) != []
    ensures SendOutstanding(run[k])
  {
    RunInv(run, k);
    var s := run[k];
    match s.send.sender {
      case SendKernel(c) => assert SendOpLink(s.send, s.live, c) && IsSendOp(s, c);
      case SendThread(t) => SenderExists(s, t);
      case _ =>
    }
  }

  /** A thread that has the send is one of the session's threads. */
  lemma SenderExists(s: State, t: Tid)
    requires Inv(s) && s.send.sender == SendThread(t)
    ensures t < |s.threads| && HasWire(s.threads[t])
  {
  }

  /** The receive buffer has one user at a time: at most one receive is with the
      kernel, or else at most one thread is between its completion and the next post. */
  lemma OneReceiver(run: seq<State>, k: nat)
    requires IsRun(run) && k < |run|
    ensures var s := run[k];
      && (forall c, d :: IsRecvOp(s, c) && IsRecvOp(s, d) ==> c == d)
      && (forall t, u :: IsReceiver(s, t) && IsReceiver(s, u) ==> t == u)
      && (forall c, t :: !(IsRecvOp(s, c) && IsReceiver(s, t)))
  {
    RunInv(run, k);
    forall c | IsRecvOp(run[k], c) ensures run[k].recv.token == TokenKernel(c) {
      assert RecvOpLink(run[k].recv, run[k].live, c);
    }
    forall t: nat | IsReceiver(run[k], t) ensures run[k].recv.token == TokenThread(t) {
      assert RecvLink(run[k].recv, run[k].threads[t], t);
    }
  }

  /** A session that stays connected is never deaf: with every thread back in
      its loop or outside, a receive is with the kernel. */
  lemma NeverDeaf(run: seq<State>, k: nat)
    requires IsRun(run) && k < |run| && run[k].connected
    requires forall t :: 0 <= t < |run[k].threads| ==> run[k].threads[t].io == Idle
    ensures exists c :: IsRecvOp(run[k], c)
  {
    RunInv(run, k);
    TokenIsSomewhere(run[k]);
  }

  lemma TokenIsSomewhere(s: State)
    requires RecvOk(s) && HeardOk(s) && s.connected
    requires forall t :: 0 <= t < |s.threads| ==> s.threads[t].io == Idle
    ensures exists c :: IsRecvOp(s, c)
  {
    forall t: nat | t < |s.threads| ensures s.recv.token != TokenThread(t) {
      assert RecvLink(s.recv, s.threads[t], t);
    }
    forall t: nat | t < |s.threads| ensures !Dooms(s.threads[t]) {}
    var c := s.recv.token.c;
    assert RecvOpLink(s.recv, s.live, c) && IsRecvOp(s, c);
  }

  /** A receive the kernel may complete writes only inside the buffer and over no unread byte. */
  lemma ReceivesLandInFreeSpace(run: seq<State>, k: nat, c: Ctx, data: seq<byte>)
    requires IsRun(run) && k < |run| && IsRecvOp(run[k], c)
    requires |data| <= run[k].live[c].op.len
    ensures var (op, r) := (run[k].live[c].op, run[k].recv.ring);
      op.kind.Recv? ==>
        && R.Valid(r) && op.off + |data| <= |r.mem|
        && R.Valid(Stored(r, op.off, data)) && R.Contents(Stored(r, op.off, data)) == R.Contents(r)
  {
    RunInv(run, k);
    var s := run[k];
    assert RecvOpLink(s.recv, s.live, c);
    if s.live[c].op.kind.Recv? {
      R.FillIsInvisible(s.recv.ring, data);
      assert Stored(s.recv.ring, s.live[c].op.off, data) == R.Fill(s.recv.ring, data);
    }
  }

  /** When every thread is back in its loop, the only contexts that are not
      deleted are the one send and the one receive the kernel still has. */
  lemma NothingLeaks(run: seq<State>, k: nat)
    requires IsRun(run) && k < |run|
    requires forall t :: 0 <= t < |run[k].threads| ==> run[k].threads[t] == Thread(Idle, NoCall)
    ensures forall c :: c in run[k].live ==> IsSendOp(run[k], c) || IsRecvOp(run[k], c)
    ensures forall c, d :: IsSendOp(run[k], c) && IsSendOp(run[k], d) ==> c == d
    ensures forall c, d :: IsRecvOp(run[k], c) && IsRecvOp(run[k], d) ==> c == d
  {
    RunInv(run, k);
    OneReceiver(run, k);
    var s := run[k];
    forall c | c in s.live ensures s.live[c].Kernel? {
      if s.live[c].Held? {
        assert Agrees(s.live, ClaimsOf(s.threads[s.live[c].t]), s.live[c].t, c);
        IdleClaimsNothing(s, c);
      }
    }
    forall c | IsSendOp(s, c) ensures s.send.sender == SendKernel(c) {
      assert SendOpLink(s.send, s.live, c);
    }
  }

  lemma IdleClaimsNothing(s: State, c: Ctx)
    requires c in s.live && s.live[c].Held? && s.live[c].t < |s.threads|
    requires Agrees(s.live, ClaimsOf(s.threads[s.live[c].t]), s.live[c].t, c)
    ensures s.threads[s.live[c].t] != Thread(Idle, NoCall)
  {
    assert ClaimsOf(s.threads[s.live[c].t]).Get(s.live[c].role) == Some(c);
  }

  /** The bytes a send was posted with. */
  function InFlight(s: State, c: Ctx): seq<byte>
    requires IsSendOp(s, c) && s.live[c].op.off + s.live[c].op.len <= |s.send.ring.mem|
  {
    s.send.ring.mem[s.live[c].op.off..s.live[c].op.off + s.live[c].op.len]
  }

  lemma FrontIsNext(s: State, c: Ctx)
    requires Inv(s) && IsSendOp(s, c) && s.live[c].op.len > 0
    ensures s.live[c].op.off + s.live[c].op.len <= |s.send.ring.mem|
    ensures s.send.sent + InFlight(s, c) <= s.send.accepted
  {
    assert SendOpLink(s.send, s.live, c);
    var r, n := s.send.ring, s.live[c].op.len;
    R.RemoveTakesFront(r, n);
    Regroup(s.send.sent, InFlight(s, c), R.Contents(R.Remove(r, n)));
  }

  /** The bytes of a posted send are inside the buffer, and they are the oldest accepted bytes not yet sent. */
  lemma InFlightIsNext(run: seq<State>, k: nat, c: Ctx)
    requires IsRun(run) && k < |run| && IsSendOp(run[k], c) && run[k].live[c].op.len > 0
    ensures run[k].live[c].op.off + run[k].live[c].op.len <= |run[k].send.ring.mem|
    ensures run[k].send.sent + InFlight(run[k], c) <= run[k].send.accepted
  {
    RunInv(run, k);
    FrontIsNext(run[k], c);
  }

  ghost predicate OutForSend(run: seq<State>, i: nat, j: nat, c: Ctx, op: Op)
    requires i <= j < |run|
  {
    op.kind.Send? && op.len > 0 && forall k :: i <= k <= j ==> c in run[k].live && run[k].live[c] == Kernel(op)
  }

  lemma FrontStays(s: State, step: Step)
    requires LockOk(s) && OwnersOk(s) && SendOk(s) && Enabled(s, step) && Sane(s, step)
    requires Apply(s, step).send.sender == s.send.sender
    ensures FrontKept(s.send.ring, Apply(s, step).send.ring)
  {
    var e := EffectOf(s, step);
    assert !e.Keep? ==> Agrees(s.live, ClaimsOf(s.threads[step.t]), step.t, e.c);
    hide Apply;
    hide EffectOf;
    hide R.Valid;
    hide Agrees;
    hide ClaimsOf;
    hide Sane;
    StepSend(s, step);
  }

  lemma SliceKept(r: R.Ring, r': R.Ring, off: nat, len: nat)
    requires r.a + r.aSize <= |r.mem| && OnFront(r, off, len) && len > 0 && FrontKept(r, r')
    ensures off + len <= |r.mem| == |r'.mem| && r'.mem[off..off + len] == r.mem[off..off + len]
  {
    R.SubSlice(r.mem, r.a, r.a + r.aSize, len);
    if r' != r { R.SubSlice(r'.mem, r.a, r.a + r.aSize, len); }
  }

  lemma StepKeepsInFlight(s: State, step: Step, c: Ctx)
    requires Inv(s) && Enabled(s, step) && Sane(s, step) && IsSendOp(s, c) && s.live[c].op.len > 0
    requires c in Apply(s, step).live && Apply(s, step).live[c] == s.live[c]
    ensures var s' := Apply(s, step); var op := s.live[c].op;
      op.off + op.len <= |s.send.ring.mem| == |s'.send.ring.mem| && InFlight(s', c) == InFlight(s, c)
  {
    hide Apply;
    hide R.Contents;
    hide LockOk;
    hide OwnersOk;
    hide RecvOk;
    assert SendOpLink(s.send, s.live, c);
    StepKeepsSend(s, step);
    assert SendOpLink(Apply(s, step).send, Apply(s, step).live, c);
    FrontStays(s, step);
    SliceKept(s.send.ring, Apply(s, step).send.ring, s.live[c].op.off, s.live[c].op.len);
  }

  /** While the kernel has a send, its bytes stay where and as they are, whatever
      PostSend appends meanwhile, so it does not matter when the kernel reads them. */
  lemma {:induction false} InFlightBytesStay(run: seq<State>, i: nat, j: nat, c: Ctx, op: Op)
    requires IsRun(run) && i <= j < |run| && OutForSend(run, i, j, c, op)
    ensures op.off + op.len <= |run[i].send.ring.mem| && op.off + op.len <= |run[j].send.ring.mem|
    ensures InFlight(run[j], c) == InFlight(run[i], c)
    decreases j - i
  {
    RunInv(run, i);
    hide Inv;
    if i == j {
      FrontIsNext(run[i], c);
    } else {
      assert NextAt(run, i);
      var step :| Enabled(run[i], step) && Sane(run[i], step) && run[i + 1] == Apply(run[i], step);
      StepKeepsInFlight(run[i], step, c);
      hide Apply;
      hide Enabled;
      hide Sane;
      InFlightBytesStay(run, i + 1, j, c, op);
    }
  }
}
