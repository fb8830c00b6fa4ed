/** The intrusive multi-producer, single-consumer queue of a dispatcher, as a
    step system: one step is one access to shared memory by one thread, and any
    number of threads interleave their steps in any order. */
module JobQueue {
  import opened Option

  type Tid = nat

  /** The queue's own stub, or the node inside the job entry at an address.
      An address may be used again once the entry that had it is deleted. */
  datatype Node = Stub | Entry(addr: nat)

  /** An exchange on mHead whose second half, prev->mNext = node, is still to come. */
  datatype Link = Link(prev: Node, node: Node)

  /** Where a thread is inside Pop, with the locals it still needs. */
  datatype PopPc =
    | ReadTail
    | ReadNext(tail: Node)
    | SkipStub(next: Node)
    | ReadNextAgain(tail: Node)
    | Advance(tail: Node, next: Node)
    | ReadHead(tail: Node)
    | ClearStub(tail: Node)
    | ExchangeStub(tail: Node)
    | LinkStub(tail: Node)
    | Recheck(tail: Node)

  /** mHead, mTail and the mNext field of every live node; what each thread is
      in the middle of; and the history: `chain` lists the nodes from mTail to
      mHead in exchange order, `pushed` and `popped` list the jobs in the order
      they were exchanged in and returned, `out` holds the jobs returned but
      not yet deleted. `fault` is raised by an access to a node that is not
      live, and by a Pop that returns the stub. */
  datatype Queue = Queue(
    head: Node,
    tail: Node,
    next: map<Node, Option<Node>>,
    links: map<Tid, Link>,
    pops: map<Tid, PopPc>,
    chain: seq<Node>,
    pushed: seq<nat>,
    popped: seq<nat>,
    out: set<nat>,
    fault: bool)

  const EMPTY: Queue :=
    Queue(Stub, Stub, map[Stub := None], map[], map[], [Stub], [], [], {}, false)

  datatype Step =
    | Exchange(t: Tid, addr: nat)  // first half of Push
    | Finish(t: Tid)               // second half of Push
    | Begin(t: Tid)                // a thread enters the loop that calls Pop
    | Pop(t: Tid)                  // one access of Pop
    | Delete(addr: nat)            // delete job

  predicate Enabled(q: Queue, step: Step) {
    match step
    // a new job entry is at an address no live entry of the queue has
    case Exchange(t, addr) => t !in q.links && t !in q.pops && Entry(addr) !in q.next
    case Finish(t) => t in q.links && t !in q.pops
    case Begin(t) => t !in q.pops && t !in q.links
    case Pop(t) => t in q.pops && (q.pops[t].LinkStub? ==> t in q.links) && (q.pops[t].ExchangeStub? ==> t !in q.links)
    case Delete(addr) => addr in q.out
  }

  // ---- Memory accesses ----

  /** Reads n->mNext. */
  function Load(q: Queue, n: Node): Option<Node> {
    if n in q.next then q.next[n] else None
  }

  function Touch(q: Queue, n: Node): Queue {
    q.(fault := q.fault || n !in q.next)
  }

  /** Writes n->mNext. */
  function Store(q: Queue, n: Node, v: Option<Node>): Queue {
    if n in q.next then q.(next := q.next[n := v]) else q.(fault := true)
  }

  /** Exchanges mHead for a node whose mNext is null. */
  function ExchangeHead(q: Queue, t: Tid, n: Node): Queue {
    q.(head := n, links := q.links[t := Link(q.head, n)], chain := q.chain + [n])
  }

  /** prev->mNext = node, for the exchange the thread made before. */
  function WriteLink(q: Queue, t: Tid): Queue
    requires t in q.links
  {
    Store(q, q.links[t].prev, Some(q.links[t].node)).(links := q.links - {t})
  }

  function MoveTail(q: Queue, n: Node): Queue {
    q.(tail := n, chain := if |q.chain| > 0 then q.chain[1..] else [])
  }

  // ---- Pop, access by access ----

  function Goto(q: Queue, t: Tid, pc: PopPc): Queue {
    q.(pops := q.pops[t := pc])
  }

  function PopStep(q: Queue, t: Tid): Queue
    requires Enabled(q, Pop(t))
  {
    match q.pops[t]
    case ReadTail => Goto(q, t, ReadNext(q.tail))
    case ReadNext(tail) =>
      var q' := Touch(q, tail);
      (match (tail, Load(q, tail))
       case (Stub, None) => Goto(q', t, ReadTail)
       case (Stub, Some(next)) => Goto(q', t, SkipStub(next))
       case (Entry(_), None) => Goto(q', t, ReadHead(tail))
       case (Entry(_), Some(next)) => Goto(q', t, Advance(tail, next)))
    case SkipStub(next) => Goto(MoveTail(q, next), t, ReadNextAgain(next))
    case ReadNextAgain(tail) =>
      var q' := Touch(q, tail);
      (match Load(q, tail)
       case None => Goto(q', t, ReadHead(tail))
       case Some(next) => Goto(q', t, Advance(tail, next)))
    case Advance(tail, next) =>
      var q' := MoveTail(q, next).(pops := q.pops - {t});
      (match tail
       case Stub => q'.(fault := true)
       case Entry(addr) => q'.(popped := q.popped + [addr], out := q.out + {addr}))
    case ReadHead(tail) => Goto(q, t, if tail != q.head then ReadTail else ClearStub(tail))
    case ClearStub(tail) => Goto(Store(q, Stub, None), t, ExchangeStub(tail))
    case ExchangeStub(tail) => Goto(ExchangeHead(q, t, Stub), t, LinkStub(tail))
    case LinkStub(tail) => Goto(WriteLink(q, t), t, Recheck(tail))
    case Recheck(tail) =>
      var q' := Touch(q, tail);
      (match Load(q, tail)
       case None => Goto(q', t, ReadTail)
       case Some(next) => Goto(q', t, Advance(tail, next)))
  }

  function Apply(q: Queue, step: Step): Queue
    requires Enabled(q, step)
  {
    match step
    case Exchange(t, addr) =>
      ExchangeHead(q, t, Entry(addr)).(next := q.next[Entry(addr) := None], pushed := q.pushed + [addr])
    case Finish(t) => WriteLink(q, t)
    case Begin(t) => Goto(q, t, ReadTail)
    case Pop(t) => PopStep(q, t)
    case Delete(addr) => q.(next := q.next - {Entry(addr)}, out := q.out - {addr})
  }

  // ---- A step of one thread leaves what the queue keeps for the others ----

  ghost predicate OnlyThread(q: Queue, q': Queue, t: Tid) {
    forall u :: u != t ==>
      && (u in q'.pops <==> u in q.pops) && (u in q.pops ==> q'.pops[u] == q.pops[u])
      && (u in q'.links <==> u in q.links)
  }

  lemma GotoIsOwn(q: Queue, q': Queue, t: Tid, pc: PopPc)
    requires q'.pops == q.pops && OnlyThread(q, q', t)
    ensures OnlyThread(q, Goto(q', t, pc), t)
  {
  }

  /** The reads of mNext only touch memory and go on. */
  lemma ReadGoesOn(q: Queue, t: Tid) returns (pc: PopPc)
    requires Enabled(q, Pop(t))
    requires q.pops[t].ReadNext? || q.pops[t].ReadNextAgain? || q.pops[t].Recheck?
    ensures PopStep(q, t) == Goto(Touch(q, q.pops[t].tail), t, pc)
  {
    pc := PopStep(q, t).pops[t];
  }

  lemma PopIsOwn(q: Queue, t: Tid)
    requires Enabled(q, Pop(t))
    ensures OnlyThread(q, PopStep(q, t), t)
  {
    match q.pops[t]
    case ReadNext(tail) => ReadIsOwn(q, t, tail);
    case ReadNextAgain(tail) => ReadIsOwn(q, t, tail);
    case Recheck(tail) => ReadIsOwn(q, t, tail);
    case _ =>
  }

  lemma ReadIsOwn(q: Queue, t: Tid, tail: Node)
    requires Enabled(q, Pop(t))
    requires q.pops[t] == ReadNext(tail) || q.pops[t] == ReadNextAgain(tail) || q.pops[t] == Recheck(tail)
    ensures OnlyThread(q, PopStep(q, t), t)
  {
    var pc := ReadGoesOn(q, t);
    hide PopStep;
    GotoIsOwn(q, Touch(q, tail), t, pc);
  }

  lemma StepIsOwn(q: Queue, step: Step, t: Tid)
    requires Enabled(q, step) && (step.Delete? || step.t == t)
    ensures OnlyThread(q, Apply(q, step), t)
  {
    if step.Pop? { PopIsOwn(q, t); }
  }

  // ---- The chain invariant ----

  /** The job entries of a list of nodes, in order. */
  function Jobs(ns: seq<Node>): seq<nat> {
    if ns == [] then []
    else Jobs(ns[..|ns|-1]) + (match ns[|ns|-1] case Stub => [] case Entry(a) => [a])
  }

  ghost predicate NoDup(ns: seq<Node>) {
    forall i, j :: 0 <= i < j < |ns| ==> ns[i] != ns[j]
  }

  ghost predicate AdjacentAt(ns: seq<Node>, i: int, p: Node, n: Node) {
    0 <= i < |ns| - 1 && ns[i] == p && ns[i+1] == n
  }

  ghost predicate Adjacent(ns: seq<Node>, p: Node, n: Node) {
    exists i :: AdjacentAt(ns, i, p, n)
  }

  /** Some half-done push will write p->mNext. */
  ghost predicate Owed(q: Queue, p: Node) {
    exists t :: t in q.links && q.links[t].prev == p
  }

  /** The i-th node of the chain points to the next one, or someone owes that link. */
  ghost predicate LinkedAt(q: Queue, i: int) {
    0 <= i < |q.chain| - 1 ==>
      Load(q, q.chain[i]) == Some(q.chain[i+1]) || (Load(q, q.chain[i]) == None && Owed(q, q.chain[i]))
  }

  /** The nodes from mTail to mHead form one duplicate-free chain. */
  ghost predicate ChainOk(q: Queue) {
    && |q.chain| > 0 && q.chain[0] == q.tail && q.chain[|q.chain|-1] == q.head
    && NoDup(q.chain)
    && Load(q, q.head) == None
    && forall i :: LinkedAt(q, i)
  }

  /** A half-done push is a hole between two neighbours of the chain, one per hole. */
  ghost predicate LinksOk(q: Queue) {
    && (forall t :: t in q.links ==>
          Adjacent(q.chain, q.links[t].prev, q.links[t].node) && Load(q, q.links[t].prev) == None)
    && (forall t, u :: t in q.links && u in q.links && t != u ==> q.links[t].prev != q.links[u].prev)
  }

  /** The live nodes are the stub, the chain and the jobs handed out, all different. */
  ghost predicate MemoryOk(q: Queue) {
    && Stub in q.next
    && (forall n :: n in q.chain ==> n in q.next)
    && (forall a :: a in q.out ==> Entry(a) in q.next && Entry(a) !in q.chain)
    && (forall n :: n in q.next ==> n == Stub || n in q.chain || n.addr in q.out)
    && !q.fault
  }

  /** What a consumer knows at each point of Pop. */
  ghost predicate PopOk(q: Queue, t: Tid, pc: PopPc) {
    match pc
    case ReadTail => t !in q.links
    case ReadNext(tail) => tail == q.tail && t !in q.links
    case SkipStub(next) => q.tail == Stub && Load(q, Stub) == Some(next) && t !in q.links
    case ReadNextAgain(tail) => tail == q.tail && tail != Stub && t !in q.links
    case Advance(tail, next) => tail == q.tail && tail != Stub && Load(q, tail) == Some(next) && t !in q.links
    case ReadHead(tail) => tail == q.tail && tail != Stub && t !in q.links
    case ClearStub(tail) => tail == q.tail && tail != Stub && Stub !in q.chain && t !in q.links
    case ExchangeStub(tail) =>
      tail == q.tail && tail != Stub && Stub !in q.chain && Load(q, Stub) == None && t !in q.links
    case LinkStub(tail) => tail == q.tail && tail != Stub && t in q.links && q.links[t].node == Stub
    case Recheck(tail) => tail == q.tail && tail != Stub && t !in q.links
  }

  ghost predicate PopsOk(q: Queue) {
    forall t :: t in q.pops ==> PopOk(q, t, q.pops[t])
  }

  /** At most one thread is inside Pop. */
  ghost predicate SingleConsumer(q: Queue) {
    forall t, u :: t in q.pops && u in q.pops ==> t == u
  }

  /** The jobs returned, followed by the jobs in the chain, are the jobs exchanged in. */
  ghost predicate FifoOk(q: Queue) {
    q.pushed == q.popped + Jobs(q.chain)
  }

  ghost predicate Inv(q: Queue) {
    ChainOk(q) && LinksOk(q) && MemoryOk(q) && PopsOk(q) && SingleConsumer(q) && FifoOk(q)
  }

  lemma EmptyInv()
    ensures Inv(EMPTY)
  {
    assert Jobs([Stub]) == Jobs([]) + [];
  }

  // ---- Every step keeps the invariant ----

  lemma JobsAppend(ns: seq<Node>, n: Node)
    ensures Jobs(ns + [n]) == Jobs(ns) + (match n case Stub => [] case Entry(a) => [a])
  {
    assert (ns + [n])[..|ns|] == ns;
  }

  lemma {:induction false} JobsFirst(ns: seq<Node>)
    requires |ns| > 0
    ensures Jobs(ns) == (match ns[0] case Stub => [] case Entry(a) => [a]) + Jobs(ns[1..])
  {
    if |ns| > 1 {
      var front := ns[..|ns|-1];
      JobsFirst(front);
      assert front[1..] == ns[1..][..|ns|-2];
    } else {
      assert ns[..0] == [] && ns[1..] == [];
    }
  }

  /** Appending a live node with a null mNext opens one new hole, owed by t. */
  lemma ExchangeHeadKeeps(q: Queue, q': Queue, t: Tid, n: Node)
    requires ChainOk(q) && LinksOk(q) && t !in q.links && n !in q.chain
    requires q'.head == n && q'.tail == q.tail && q'.chain == q.chain + [n]
    requires q'.links == q.links[t := Link(q.head, n)]
    requires Load(q', n) == None
    requires forall m :: m in q.chain ==> Load(q', m) == Load(q, m)
    ensures ChainOk(q') && LinksOk(q')
  {
    forall u | u in q.links
      ensures Adjacent(q'.chain, q.links[u].prev, q.links[u].node) && q.links[u].prev != q.head
      ensures q.links[u].prev in q.chain
    {
      var i :| AdjacentAt(q.chain, i, q.links[u].prev, q.links[u].node);
      assert AdjacentAt(q'.chain, i, q.links[u].prev, q.links[u].node);
    }
    assert AdjacentAt(q'.chain, |q.chain| - 1, q.head, n);
    assert NoDup(q'.chain);
    hide NoDup;
    hide Adjacent;
    ExchangeHeadLinks(q, q', t, n);
    hide LinkedAt;
  }

  lemma ExchangeHeadLinks(q: Queue, q': Queue, t: Tid, n: Node)
    requires ChainOk(q) && t !in q.links
    requires q'.chain == q.chain + [n] && q'.links == q.links[t := Link(q.head, n)]
    requires forall m :: m in q.chain ==> Load(q', m) == Load(q, m)
    ensures forall i :: LinkedAt(q', i)
  {
    hide NoDup;
    var k := |q.chain| - 1;
    assert t in q'.links && q'.links[t].prev == q.head;
    forall i ensures LinkedAt(q', i) {
      assert LinkedAt(q, i);
      if 0 <= i < k && Owed(q, q.chain[i]) {
        var u :| u in q.links && q.links[u].prev == q.chain[i];
        assert u in q'.links && q'.links[u].prev == q.chain[i];
      }
    }
  }

  /** Writing the owed link closes exactly one hole. */
  lemma WriteLinkKeeps(q: Queue, q': Queue, t: Tid)
    requires ChainOk(q) && LinksOk(q) && t in q.links && q.links[t].prev in q.next
    requires q' == WriteLink(q, t).(pops := q'.pops)
    ensures ChainOk(q') && LinksOk(q')
    ensures Load(q', q.links[t].prev) == Some(q.links[t].node)
    ensures forall m :: m != q.links[t].prev ==> Load(q', m) == Load(q, m)
  {
    WriteLinkCloses(q, q', t);
    assert q.head != q.links[t].prev by {
      var j :| AdjacentAt(q.chain, j, q.links[t].prev, q.links[t].node);
    }
    hide LinkedAt;
    hide Adjacent;
    hide NoDup;
  }

  lemma WriteLinkCloses(q: Queue, q': Queue, t: Tid)
    requires ChainOk(q) && LinksOk(q) && t in q.links && q.links[t].prev in q.next
    requires q' == WriteLink(q, t).(pops := q'.pops)
    ensures forall i :: LinkedAt(q', i)
  {
    var l := q.links[t];
    var j :| AdjacentAt(q.chain, j, l.prev, l.node);
    forall i ensures LinkedAt(q', i) {
      assert LinkedAt(q, i);
      if 0 <= i < |q.chain| - 1 && i != j && Owed(q, q.chain[i]) {
        var u :| u in q.links && q.links[u].prev == q.chain[i];
        assert u in q'.links && q'.links[u].prev == q.chain[i];
      }
    }
  }

  /** mTail moves over a closed link: the first node leaves the chain and no push still refers to it. */
  lemma MoveTailKeeps(q: Queue, q': Queue, next: Node)
    requires ChainOk(q) && LinksOk(q) && Load(q, q.tail) == Some(next)
    requires q'.head == q.head && q'.next == q.next && q'.links == q.links
    requires q'.tail == next && q'.chain == q.chain[1..]
    ensures ChainOk(q') && LinksOk(q')
    ensures q.tail !in q'.chain
    ensures forall t :: t in q.links ==> q.links[t].prev != q.tail && q.links[t].node != q.tail
  {
    assert |q.chain| > 1;
    assert LinkedAt(q, 0);
    forall i ensures LinkedAt(q', i) {
      assert LinkedAt(q, i + 1);
      if 0 <= i < |q'.chain| - 1 && Owed(q, q.chain[i+1]) {
        var u :| u in q.links && q.links[u].prev == q.chain[i+1];
        assert u in q'.links && q'.links[u].prev == q'.chain[i];
      }
    }
    forall t | t in q.links
      ensures Adjacent(q'.chain, q.links[t].prev, q.links[t].node)
      ensures q.links[t].prev != q.tail && q.links[t].node != q.tail
    {
      var i :| AdjacentAt(q.chain, i, q.links[t].prev, q.links[t].node);
      assert i != 0;
      assert AdjacentAt(q'.chain, i - 1, q.links[t].prev, q.links[t].node);
    }
  }

  lemma AdjacentInChain(ns: seq<Node>, p: Node, n: Node)
    requires Adjacent(ns, p, n)
    ensures p in ns && n in ns
  {
    var i :| AdjacentAt(ns, i, p, n);
    assert ns[i] == p && ns[i+1] == n;
  }

  lemma ExchangeKeeps(q: Queue, t: Tid, addr: nat)
    requires Inv(q) && Enabled(q, Exchange(t, addr))
    ensures Inv(Apply(q, Exchange(t, addr)))
  {
    var q' := Apply(q, Exchange(t, addr));
    assert Entry(addr) !in q.chain;
    assert ChainOk(q') && LinksOk(q') by { ExchangeHeadKeeps(q, q', t, Entry(addr)); }
    assert FifoOk(q') by { JobsAppend(q.chain, Entry(addr)); }
    assert MemoryOk(q');
    assert q.tail in q.chain;
    forall u | u in q.pops ensures PopOk(q', u, q.pops[u]) {
      assert PopOk(q, u, q.pops[u]) && u != t;
    }
  }

  lemma FinishKeeps(q: Queue, t: Tid)
    requires Inv(q) && Enabled(q, Finish(t))
    ensures Inv(Apply(q, Finish(t)))
  {
    hide Jobs;
    hide NoDup;
    hide Adjacent;
    var l := q.links[t];
    AdjacentInChain(q.chain, l.prev, l.node);
    WriteLinkKeeps(q, Apply(q, Finish(t)), t);
  }

  lemma BeginKeeps(q: Queue, t: Tid)
    requires Inv(q) && Enabled(q, Begin(t)) && q.pops == map[]
    ensures Inv(Apply(q, Begin(t)))
  {
    var q' := Apply(q, Begin(t));
    assert forall i :: LinkedAt(q, i) ==> LinkedAt(q', i);
  }

  lemma DeleteKeeps(q: Queue, addr: nat)
    requires Inv(q) && Enabled(q, Delete(addr))
    ensures Inv(Apply(q, Delete(addr)))
  {
    hide Jobs;
    hide NoDup;
    var q' := Apply(q, Delete(addr));
    assert forall n :: n in q.chain ==> Load(q', n) == Load(q, n);
    forall i ensures LinkedAt(q', i) {
      assert LinkedAt(q, i);
    }
    forall t | t in q.links ensures q.links[t].prev in q.chain {
      AdjacentInChain(q.chain, q.links[t].prev, q.links[t].node);
    }
  }

  /** Returning a job: it leaves the chain, no push still refers to it, and it stays live until deleted. */
  lemma AdvanceKeeps(q: Queue, t: Tid)
    requires Inv(q) && Enabled(q, Pop(t)) && q.pops[t].Advance?
    ensures Inv(PopStep(q, t))
    ensures q.tail.Entry? && PopStep(q, t).popped == q.popped + [q.tail.addr]
    ensures forall u :: u in q.links ==> q.links[u].prev != q.tail && q.links[u].node != q.tail
  {
    hide Jobs;
    hide Adjacent;
    var q' := PopStep(q, t);
    MoveTailKeeps(q, q', q.pops[t].next);
    JobsFirst(q.chain);
    assert q'.popped + Jobs(q'.chain) == q.popped + Jobs(q.chain);
    assert forall n :: n in q.chain ==> n == q.tail || n in q'.chain;
  }

  lemma SkipStubKeeps(q: Queue, t: Tid)
    requires Inv(q) && Enabled(q, Pop(t)) && q.pops[t].SkipStub?
    ensures Inv(PopStep(q, t))
  {
    hide Jobs;
    hide Adjacent;
    var q' := PopStep(q, t);
    MoveTailKeeps(q, q', q.pops[t].next);
    JobsFirst(q.chain);
    assert forall n :: n in q.chain ==> n == q.tail || n in q'.chain;
    assert q.chain[0] == Stub && q.chain[1] == q'.tail;
  }

  lemma ExchangeStubKeeps(q: Queue, t: Tid)
    requires Inv(q) && Enabled(q, Pop(t)) && q.pops[t].ExchangeStub?
    ensures Inv(PopStep(q, t))
  {
    var q' := PopStep(q, t);
    assert PopOk(q, t, q.pops[t]);
    ExchangeHeadKeeps(q, q', t, Stub);
    JobsAppend(q.chain, Stub);
    hide ChainOk;
    hide LinksOk;
    hide Jobs;
  }

  lemma LinkStubKeeps(q: Queue, t: Tid)
    requires Inv(q) && Enabled(q, Pop(t)) && q.pops[t].LinkStub?
    ensures Inv(PopStep(q, t))
  {
    var l := q.links[t];
    AdjacentInChain(q.chain, l.prev, l.node);
    WriteLinkKeeps(q, PopStep(q, t), t);
  }

  /** The links and the chain only depend on the nodes in the chain. */
  lemma SameChain(q: Queue, q': Queue)
    requires ChainOk(q) && LinksOk(q)
    requires q'.head == q.head && q'.tail == q.tail && q'.chain == q.chain && q'.links == q.links
    requires forall n :: n in q.chain ==> Load(q', n) == Load(q, n)
    ensures ChainOk(q') && LinksOk(q')
  {
    forall i ensures LinkedAt(q', i) {
      assert LinkedAt(q, i);
      if 0 <= i < |q.chain| - 1 && Owed(q, q.chain[i]) {
        var u :| u in q.links && q.links[u].prev == q.chain[i];
        assert u in q'.links && q'.links[u].prev == q'.chain[i];
      }
    }
    forall u | u in q.links ensures q.links[u].prev in q.chain {
      AdjacentInChain(q.chain, q.links[u].prev, q.links[u].node);
    }
  }

  ghost predicate QuietPc(pc: PopPc) {
    !pc.Advance? && !pc.SkipStub? && !pc.ExchangeStub? && !pc.LinkStub?
  }

  /** The other accesses of Pop change no link, no chain and no history, and touch live nodes only. */
  lemma QuietPopFrame(q: Queue, t: Tid)
    requires Inv(q) && Enabled(q, Pop(t)) && QuietPc(q.pops[t])
    ensures var q' := PopStep(q, t);
      && q' == q.(pops := q'.pops, next := q'.next)
      && t in q'.pops && q'.pops == q.pops[t := q'.pops[t]]
      && q'.next.Keys == q.next.Keys
      && forall n :: n in q.chain ==> Load(q', n) == Load(q, n)
  {
    assert PopOk(q, t, q.pops[t]);
    assert q.tail in q.chain;
  }

  lemma QuietPopMoves(q: Queue, t: Tid)
    requires Inv(q) && Enabled(q, Pop(t)) && QuietPc(q.pops[t])
    ensures var q' := PopStep(q, t); t in q'.pops && PopOk(q', t, q'.pops[t])
  {
    assert PopOk(q, t, q.pops[t]);
    if q.pops[t].ReadHead? && q.tail == q.head {
      assert |q.chain| == 1;
    }
  }

  lemma QuietPopKeeps(q: Queue, t: Tid)
    requires Inv(q) && Enabled(q, Pop(t)) && QuietPc(q.pops[t])
    ensures Inv(PopStep(q, t))
  {
    var q' := PopStep(q, t);
    QuietPopFrame(q, t);
    QuietPopMoves(q, t);
    SameChain(q, q');
    assert FifoOk(q');
    assert SingleConsumer(q');
  }

  /** Every step of every thread keeps the invariant, provided only one thread pops. */
  lemma StepKeeps(q: Queue, step: Step)
    requires Inv(q) && Enabled(q, step)
    requires step.Begin? ==> q.pops == map[]
    ensures Inv(Apply(q, step))
  {
    match step
    case Exchange(t, addr) => ExchangeKeeps(q, t, addr);
    case Finish(t) => FinishKeeps(q, t);
    case Begin(t) => BeginKeeps(q, t);
    case Delete(addr) => DeleteKeeps(q, addr);
    case Pop(t) =>
      match q.pops[t]
      case Advance(_, _) => AdvanceKeeps(q, t);
      case SkipStub(_) => SkipStubKeeps(q, t);
      case ExchangeStub(_) => ExchangeStubKeeps(q, t);
      case LinkStub(_) => LinkStubKeeps(q, t);
      case _ => QuietPopKeeps(q, t);
  }

  /** The history only ever grows. */
  lemma HistoryGrows(q: Queue, q': Queue)
    requires Inv(q) && (q' == q || Next(q, q'))
    ensures q.pushed <= q'.pushed && q.popped <= q'.popped
  {
    if q' != q {
      var step :| Enabled(q, step) && (step.Begin? ==> q.pops == map[]) && q' == Apply(q, step);
      if step.Pop? { PopHistory(q, step.t); }
      hide PopStep;
      hide Inv;
    }
  }

  lemma NoJobsMeansStub(q: Queue)
    requires Inv(q) && Jobs(q.chain) == [] && q.out == {}
    ensures q.chain == [Stub] && q.next.Keys == {Stub}
  {
    forall n | n in q.chain ensures n == Stub { OnlyStubs(q.chain, n); }
    assert forall i :: 0 <= i < |q.chain| ==> q.chain[i] in q.chain;
  }

  lemma {:induction false} OnlyStubs(ns: seq<Node>, n: Node)
    requires Jobs(ns) == [] && n in ns
    ensures n == Stub
  {
    var front, last := ns[..|ns|-1], ns[|ns|-1];
    assert ns == front + [last];
    if n != last { OnlyStubs(front, n); }
  }

  lemma PoppedWerePushed(q: Queue)
    requires Inv(q)
    ensures |q.pushed| - |q.popped| == |Jobs(q.chain)| && q.popped <= q.pushed
  {
  }

  /** Pop changes the history only by the step that returns a job. */
  lemma PopHistory(q: Queue, t: Tid)
    requires Inv(q) && Enabled(q, Pop(t))
    ensures var q' := PopStep(q, t);
      && q'.pushed == q.pushed
      && (t in q'.links ==> t in q'.pops && q'.pops[t].LinkStub?)
      && if t in q'.pops then q'.popped == q.popped && q'.out == q.out
         else exists a :: q'.popped == q.popped + [a] && q'.out == q.out + {a}
  {
    assert PopOk(q, t, q.pops[t]);
  }

  // ---- Runs ----

  /** One step by any thread, where a thread enters Pop only if no other thread is inside it. */
  ghost predicate Next(q: Queue, q': Queue) {
    exists step :: Enabled(q, step) && (step.Begin? ==> q.pops == map[]) && q' == Apply(q, step)
  }

  /** A step of the queue, or one elsewhere that does not touch it. */
  ghost predicate NextAt(run: seq<Queue>, k: int) {
    0 <= k < |run| - 1 ==> run[k+1] == run[k] || Next(run[k], run[k+1])
  }

  ghost predicate IsRun(run: seq<Queue>) {
    |run| > 0 && run[0] == EMPTY && forall k :: NextAt(run, k)
  }

  lemma NextKeeps(q: Queue, q': Queue)
    requires Inv(q) && Next(q, q')
    ensures Inv(q')
  {
    var step :| Enabled(q, step) && (step.Begin? ==> q.pops == map[]) && q' == Apply(q, step);
    StepKeeps(q, step);
  }

  lemma {:induction false} RunInv(run: seq<Queue>, k: nat)
    requires IsRun(run) && k < |run|
    ensures Inv(run[k])
  {
    if k == 0 {
      EmptyInv();
    } else {
      RunInv(run, k - 1);
      assert NextAt(run, k - 1);
      if run[k] != run[k-1] { NextKeeps(run[k-1], run[k]); }
    }
  }

  lemma {:induction false} JobsOfPrefix(ns: seq<Node>)
    requires NoDup(ns)
    ensures forall a :: a in Jobs(ns) <==> Entry(a) in ns
    ensures forall i, j :: 0 <= i < j < |Jobs(ns)| ==> Jobs(ns)[i] != Jobs(ns)[j]
  {
    if ns != [] {
      var front := ns[..|ns|-1];
      JobsOfPrefix(front);
      assert ns == front + [ns[|ns|-1]];
      assert ns[|ns|-1] !in front;
    }
  }

  /** On every run the queue is a FIFO: the jobs returned are a prefix of the
      jobs exchanged in, the rest are in the chain, each once, and no dead node
      is ever touched and the stub never returned. */
  lemma RunIsFifo(run: seq<Queue>, k: nat)
    requires IsRun(run) && k < |run|
    ensures var q := run[k];
      && q.popped <= q.pushed
      && q.pushed[|q.popped|..] == Jobs(q.chain)
      && (forall a :: a in q.pushed[|q.popped|..] <==> Entry(a) in q.chain)
      && !q.fault
  {
    RunInv(run, k);
    JobsOfPrefix(run[k].chain);
    var q := run[k];
    assert q.pushed[..|q.popped|] == q.popped;
  }

  // ---- A Pop that no push overlaps ----

  /** No half-done push except the popping thread's own re-insertion of the stub. */
  ghost predicate Undisturbed(q: Queue, t: Tid) {
    forall u :: u in q.links ==> u == t
  }

  /** What thread t's Pop knows while nothing has disturbed it since it started with these jobs queued. */
  ghost predicate Calm(q: Queue, t: Tid, jobs: seq<nat>) {
    && t in q.pops && Jobs(q.chain) == jobs
    && match q.pops[t]
       case ReadHead(tail) => q.chain == [tail]
       case ClearStub(tail) => q.chain == [tail]
       case ExchangeStub(tail) => q.chain == [tail]
       case LinkStub(tail) => q.chain == [tail, Stub] && t in q.links && q.links[t].prev == tail
       case Recheck(tail) => q.chain == [tail, Stub]
       case _ => true
  }

  /** Thread t's call of Pop has returned by the step from q to q', with this job if any. */
  ghost predicate Returns(q: Queue, q': Queue, t: Tid, job: Option<nat>) {
    && t in q.pops && q.pops[t] != ReadTail
    && match job
       case None => t in q'.pops && q'.pops[t] == ReadTail && q'.popped == q.popped
       case Some(a) => t !in q'.pops && q'.popped == q.popped + [a]
  }

  ghost predicate InCall(q: Queue, t: Tid) {
    t in q.pops && q.pops[t] != ReadTail
  }

  lemma LinkedWhenQuiet(q: Queue)
    requires Inv(q) && q.links == map[]
    ensures Load(q, q.tail) == if |q.chain| == 1 then None else Some(q.chain[1])
  {
    assert LinkedAt(q, 0);
  }

  lemma UndisturbedLinks(q: Queue, t: Tid)
    requires Inv(q) && Undisturbed(q, t) && t !in q.links
    ensures q.links == map[]
  {
  }

  ghost predicate CalmlyOn(q: Queue, t: Tid, jobs: seq<nat>)
    requires Enabled(q, Pop(t))
  {
    var q' := PopStep(q, t);
    if InCall(q', t) then Calm(q', t, jobs) && q'.popped == q.popped
    else Returns(q, q', t, if jobs == [] then None else Some(jobs[0]))
  }

  /** The reads of mNext: a null can only mean that the node is the last one. */
  lemma CalmRead(q: Queue, t: Tid, jobs: seq<nat>)
    requires Inv(q) && Enabled(q, Pop(t)) && Undisturbed(q, t) && Calm(q, t, jobs)
    requires q.pops[t].ReadNext?
    ensures CalmlyOn(q, t, jobs)
  {
    hide LinksOk;
    hide MemoryOk;
    hide Adjacent;
    hide NoDup;
    assert PopOk(q, t, q.pops[t]);
    UndisturbedLinks(q, t);
    LinkedWhenQuiet(q);
    JobsFirst(q.chain);
    if q.tail == Stub && |q.chain| > 1 { SecondIsJob(q); }
    hide Jobs;
  }

  lemma CalmReadAgain(q: Queue, t: Tid, jobs: seq<nat>)
    requires Inv(q) && Enabled(q, Pop(t)) && Undisturbed(q, t) && Calm(q, t, jobs)
    requires q.pops[t].ReadNextAgain? || q.pops[t].Recheck?
    ensures CalmlyOn(q, t, jobs)
  {
    hide LinksOk;
    hide MemoryOk;
    hide Adjacent;
    hide NoDup;
    assert PopOk(q, t, q.pops[t]);
    UndisturbedLinks(q, t);
    LinkedWhenQuiet(q);
    JobsFirst(q.chain);
    hide Jobs;
  }

  /** The write that returns the oldest job. */
  lemma CalmAdvance(q: Queue, t: Tid, jobs: seq<nat>)
    requires Inv(q) && Enabled(q, Pop(t)) && Calm(q, t, jobs) && q.pops[t].Advance?
    ensures CalmlyOn(q, t, jobs)
  {
    hide LinksOk;
    hide MemoryOk;
    hide Adjacent;
    assert PopOk(q, t, q.pops[t]);
    JobsFirst(q.chain);
  }

  /** Putting the stub back behind the last job. */
  lemma CalmStub(q: Queue, t: Tid, jobs: seq<nat>)
    requires Inv(q) && Enabled(q, Pop(t)) && Calm(q, t, jobs)
    requires q.pops[t].ExchangeStub? || q.pops[t].LinkStub?
    ensures CalmlyOn(q, t, jobs)
  {
    hide LinksOk;
    hide MemoryOk;
    hide Adjacent;
    assert PopOk(q, t, q.pops[t]);
    JobsAppend(q.chain, Stub);
  }

  /** The other accesses: none of them changes which jobs are queued. */
  lemma CalmOn(q: Queue, t: Tid, jobs: seq<nat>)
    requires Inv(q) && Enabled(q, Pop(t)) && Calm(q, t, jobs)
    requires var pc := q.pops[t]; pc.ReadTail? || pc.SkipStub? || pc.ReadHead? || pc.ClearStub?
    ensures CalmlyOn(q, t, jobs)
  {
    hide LinksOk;
    hide MemoryOk;
    hide Adjacent;
    assert PopOk(q, t, q.pops[t]);
    JobsFirst(q.chain);
  }

  /** One access of an undisturbed Pop either goes on calmly or returns the
      oldest job, or null if there is none. */
  lemma CalmPop(q: Queue, t: Tid, jobs: seq<nat>)
    requires Inv(q) && Enabled(q, Pop(t)) && Undisturbed(q, t) && Calm(q, t, jobs)
    ensures CalmlyOn(q, t, jobs)
  {
    hide CalmlyOn;
    hide Calm;
    hide Inv;
    var pc := q.pops[t];
    if pc.ReadNext? {
      CalmRead(q, t, jobs);
    } else if pc.ReadNextAgain? || pc.Recheck? {
      CalmReadAgain(q, t, jobs);
    } else if pc.Advance? {
      CalmAdvance(q, t, jobs);
    } else if pc.ExchangeStub? || pc.LinkStub? {
      CalmStub(q, t, jobs);
    } else {
      CalmOn(q, t, jobs);
    }
  }

  lemma SecondIsJob(q: Queue)
    requires Inv(q) && |q.chain| > 1 && q.tail == Stub
    ensures Jobs(q.chain) != []
  {
    JobsFirst(q.chain);
    JobsFirst(q.chain[1..]);
    assert q.chain[1] != Stub;
  }

  lemma ExchangeIsSeen(q: Queue, t: Tid, addr: nat)
    requires Enabled(q, Exchange(t, addr))
    ensures t in Apply(q, Exchange(t, addr)).links
  {
  }

  /** While nothing disturbs t's Pop, the only other steps are deletions. */
  lemma CalmOther(q: Queue, step: Step, t: Tid, jobs: seq<nat>)
    requires Inv(q) && Enabled(q, step) && (step.Begin? ==> q.pops == map[]) && step != Pop(t)
    requires Undisturbed(q, t) && Undisturbed(Apply(q, step), t) && Calm(q, t, jobs)
    ensures Calm(Apply(q, step), t, jobs)
    ensures var q' := Apply(q, step); q'.pops == q.pops && q'.popped == q.popped
  {
    var q' := Apply(q, step);
    if step.Exchange? { ExchangeIsSeen(q, step.t, step.addr); }
  }

  /** Thread t's call of Pop starts right after state i and has returned in state j. */
  ghost predicate IsCall(run: seq<Queue>, t: Tid, i: nat, j: nat) {
    && i + 1 < j < |run|
    && t in run[i].pops && run[i].pops[t] == ReadTail
    && (forall k :: i < k < j ==> InCall(run[k], t))
    && !InCall(run[j], t)
  }

  ghost predicate UndisturbedCall(run: seq<Queue>, t: Tid, i: nat, j: nat)
    requires j < |run|
  {
    forall k :: i <= k <= j ==> Undisturbed(run[k], t)
  }

  lemma CalmNext(q: Queue, q': Queue, t: Tid, jobs: seq<nat>)
    requires Inv(q) && Next(q, q') && Calm(q, t, jobs) && Undisturbed(q, t) && Undisturbed(q', t)
    ensures InCall(q', t) ==> Calm(q', t, jobs) && q'.popped == q.popped
    ensures InCall(q, t) && !InCall(q', t) ==> Returns(q, q', t, if jobs == [] then None else Some(jobs[0]))
  {
    var step :| Enabled(q, step) && (step.Begin? ==> q.pops == map[]) && q' == Apply(q, step);
    if step == Pop(t) { CalmPop(q, t, jobs); } else { CalmOther(q, step, t, jobs); }
  }

  lemma {:induction false} CallStaysCalm(run: seq<Queue>, t: Tid, i: nat, j: nat, k: nat)
    requires IsRun(run) && IsCall(run, t, i, j) && UndisturbedCall(run, t, i, j) && i <= k < j
    ensures Calm(run[k], t, Jobs(run[i].chain)) && run[k].popped == run[i].popped
  {
    hide Inv;
    hide Next;
    if k > i {
      CallStaysCalm(run, t, i, j, k - 1);
      RunInv(run, k - 1);
      assert NextAt(run, k - 1);
      assert InCall(run[k], t);
      if run[k] != run[k-1] { CalmNext(run[k-1], run[k], t, Jobs(run[i].chain)); }
    }
  }

  /** A Pop that no push overlaps returns the oldest job in the queue, or null exactly when there is none. */
  lemma UndisturbedPopReturnsOldest(run: seq<Queue>, t: Tid, i: nat, j: nat)
    requires IsRun(run) && IsCall(run, t, i, j) && UndisturbedCall(run, t, i, j)
    ensures run[j-1].popped == run[i].popped
    ensures var jobs := Jobs(run[i].chain);
      Returns(run[j-1], run[j], t, if jobs == [] then None else Some(jobs[0]))
  {
    hide Inv;
    hide Calm;
    hide Next;
    CallStaysCalm(run, t, i, j, j - 1);
    RunInv(run, j - 1);
    assert NextAt(run, j - 1);
    assert InCall(run[j-1], t);
    CalmNext(run[j-1], run[j], t, Jobs(run[i].chain));
  }

  /** Pop returns null only if the queue was empty when it started or a push overlapped it. */
  lemma NullMeansEmptyOrOverlap(run: seq<Queue>, t: Tid, i: nat, j: nat)
    requires IsRun(run) && IsCall(run, t, i, j) && Returns(run[j-1], run[j], t, None)
    ensures Jobs(run[i].chain) == [] || exists k :: i <= k <= j && !Undisturbed(run[k], t)
  {
    if UndisturbedCall(run, t, i, j) {
      UndisturbedPopReturnsOldest(run, t, i, j);
    }
  }

  /** A returned job can be deleted: in the state after the return no half-done
      push will write to it, and it is live until the delete. */
  lemma ReturnedJobIsSafeToDelete(run: seq<Queue>, k: nat, addr: nat)
    requires IsRun(run) && k < |run| && addr in run[k].out
    ensures Entry(addr) in run[k].next
    ensures forall u :: u in run[k].links ==> run[k].links[u].prev != Entry(addr) && run[k].links[u].node != Entry(addr)
  {
    RunInv(run, k);
    var q := run[k];
    forall u | u in q.links
      ensures q.links[u].prev != Entry(addr) && q.links[u].node != Entry(addr)
    {
      AdjacentInChain(q.chain, q.links[u].prev, q.links[u].node);
    }
  }

  // ---- How long an undisturbed Pop takes ----

  /** How many accesses a Pop still makes while nothing disturbs it and there is
      a job; one whose reads a push has overtaken starts again once. */
  function AccessesLeft(q: Queue, pc: PopPc): nat {
    match pc
    case ReadTail => 10
    case ReadNext(_) => 9
    case SkipStub(_) => 8
    case ReadNextAgain(_) => 7
    case ReadHead(tail) => if tail == q.head then 6 else 11
    case ClearStub(_) => 5
    case ExchangeStub(_) => 4
    case LinkStub(_) => 3
    case Recheck(tail) => if Load(q, tail).Some? then 2 else 11
    case Advance(_, _) => 1
  }

  /** While no push of another thread is half done and there is a job, every
      access of a Pop brings the return of the oldest job nearer. */
  lemma PopComesToAnEnd(q: Queue, t: Tid)
    requires Inv(q) && Enabled(q, Pop(t)) && Undisturbed(q, t) && Jobs(q.chain) != []
    ensures var q' := PopStep(q, t);
      && Undisturbed(q', t)
      && if t in q'.pops then
           q'.popped == q.popped && Jobs(q'.chain) == Jobs(q.chain)
           && AccessesLeft(q', q'.pops[t]) < AccessesLeft(q, q.pops[t])
         else q'.popped == q.popped + [Jobs(q.chain)[0]] && AccessesLeft(q, q.pops[t]) == 1
  {
    hide Inv;
    hide PopStep;
    hide AccessesLeft;
    hide Undisturbed;
    hide Jobs;
    var pc := q.pops[t];
    if pc.ReadNext? || pc.ReadNextAgain? || pc.Recheck? {
      ReadComesOn(q, t);
    } else if pc.LinkStub? {
      LinkComesOn(q, t);
    } else if pc.Advance? {
      AdvanceComesOn(q, t);
    } else {
      OthersComeOn(q, t);
    }
  }

  lemma AdvanceComesOn(q: Queue, t: Tid)
    requires Inv(q) && Enabled(q, Pop(t)) && Undisturbed(q, t) && q.pops[t].Advance?
    ensures var q' := PopStep(q, t);
      && Undisturbed(q', t) && t !in q'.pops && Jobs(q.chain) != []
      && q'.popped == q.popped + [Jobs(q.chain)[0]] && AccessesLeft(q, q.pops[t]) == 1
  {
    assert PopOk(q, t, q.pops[t]);
    JobsFirst(q.chain);
    hide LinksOk;
    hide MemoryOk;
  }

  lemma OthersComeOn(q: Queue, t: Tid)
    requires Inv(q) && Enabled(q, Pop(t)) && Undisturbed(q, t)
    requires var pc := q.pops[t]; pc.ReadTail? || pc.SkipStub? || pc.ReadHead? || pc.ClearStub? || pc.ExchangeStub?
    ensures var q' := PopStep(q, t);
      && Undisturbed(q', t) && t in q'.pops && q'.popped == q.popped && Jobs(q'.chain) == Jobs(q.chain)
      && AccessesLeft(q', q'.pops[t]) < AccessesLeft(q, q.pops[t])
  {
    hide LinksOk;
    hide MemoryOk;
    hide LinkedAt;
    hide NoDup;
    hide FifoOk;
    hide SingleConsumer;
    hide Jobs;
    assert PopOk(q, t, q.pops[t]);
    if q.pops[t].SkipStub? {
      JobsFirst(q.chain);
    } else if q.pops[t].ExchangeStub? {
      JobsAppend(q.chain, Stub);
    }
  }

  lemma ReadComesOn(q: Queue, t: Tid)
    requires Inv(q) && Enabled(q, Pop(t)) && Undisturbed(q, t) && Jobs(q.chain) != []
    requires var pc := q.pops[t]; pc.ReadNext? || pc.ReadNextAgain? || pc.Recheck?
    ensures var q' := PopStep(q, t);
      && Undisturbed(q', t) && t in q'.pops && q'.popped == q.popped && q'.chain == q.chain
      && AccessesLeft(q', q'.pops[t]) < AccessesLeft(q, q.pops[t])
  {
    hide LinksOk;
    hide MemoryOk;
    hide Adjacent;
    hide NoDup;
    assert PopOk(q, t, q.pops[t]);
    UndisturbedLinks(q, t);
    LinkedWhenQuiet(q);
    JobsFirst(q.chain);
    hide Jobs;
  }

  lemma LinkComesOn(q: Queue, t: Tid)
    requires Inv(q) && Enabled(q, Pop(t)) && Undisturbed(q, t) && q.pops[t].LinkStub?
    ensures var q' := PopStep(q, t);
      && Undisturbed(q', t) && t in q'.pops && q'.popped == q.popped && q'.chain == q.chain
      && AccessesLeft(q', q'.pops[t]) < AccessesLeft(q, q.pops[t])
  {
    var q' := PopStep(q, t);
    assert PopOk(q, t, q.pops[t]);
    var i :| AdjacentAt(q.chain, i, q.links[t].prev, q.links[t].node);
    StepKeeps(q, Pop(t));
    UndisturbedLinks(q', t);
    LinkedWhenQuiet(q');
  }

  /** The node whose mNext a thread accesses next: the one it read as mTail, the
      stub it clears, or the one it links from. */
  function Accessed(q: Queue, t: Tid): Option<Node> {
    if t in q.pops then
      match q.pops[t]
      case ReadNext(tail) => Some(tail)
      case ReadNextAgain(tail) => Some(tail)
      case Recheck(tail) => Some(tail)
      case ClearStub(_) => Some(Stub)
      case LinkStub(_) => if t in q.links then Some(q.links[t].prev) else None
      case _ => None
    else if t in q.links then Some(q.links[t].prev)
    else None
  }

  /** On every run the node that a thread accesses next is the stub or the entry
      of a job that nobody has deleted, and a Pop about to return returns a job's entry. */
  lemma AccessesAreLive(run: seq<Queue>, k: nat, t: Tid)
    requires IsRun(run) && k < |run|
    ensures var q := run[k];
      && (Accessed(q, t).Some? ==> Accessed(q, t).value in q.next)
      && (t in q.pops && q.pops[t].Advance? ==> q.pops[t].tail.Entry? && q.pops[t].tail in q.next)
  {
    RunInv(run, k);
    var q := run[k];
    if t in q.pops { assert PopOk(q, t, q.pops[t]); }
    if t in q.links { AdjacentInChain(q.chain, q.links[t].prev, q.links[t].node); }
    hide LinkedAt;
    hide NoDup;
    hide FifoOk;
  }

  lemma PopFlag(q: Queue, t: Tid)
    requires Enabled(q, Pop(t)) && Stub in q.next
    ensures PopStep(q, t).fault <==>
      q.fault || (Accessed(q, t).Some? && Accessed(q, t).value !in q.next) || (q.pops[t].Advance? && q.pops[t].tail.Stub?)
  {
  }

  /** In any state whatever, the flag records exactly the accesses to nodes that
      are not live and the Pops that return the stub. */
  lemma FlagIsTrue(q: Queue, step: Step)
    requires Enabled(q, step) && Stub in q.next
    ensures Apply(q, step).fault <==>
      || q.fault
      || ((step.Finish? || step.Pop?) && Accessed(q, step.t).Some? && Accessed(q, step.t).value !in q.next)
      || (step.Pop? && q.pops[step.t].Advance? && q.pops[step.t].tail.Stub?)
  {
    if step.Pop? { PopFlag(q, step.t); }
    hide PopStep;
  }

  // ---- How many consumers ----

  /** One step by any thread, where a thread enters Pop only if fewer than c threads are inside it. */
  ghost predicate NextWith(q: Queue, q': Queue, c: nat) {
    exists step :: Enabled(q, step) && (step.Begin? ==> |q.pops| < c) && q' == Apply(q, step)
  }

  ghost predicate NextWithAt(run: seq<Queue>, k: int, c: nat) {
    0 <= k < |run| - 1 ==> NextWith(run[k], run[k+1], c)
  }

  /** Some run with at most c threads inside Pop at once ends in this state. */
  ghost predicate Reachable(q: Queue, c: nat) {
    exists run :: IsRunWith(run, c) && run[|run|-1] == q
  }

  ghost predicate IsRunWith(run: seq<Queue>, c: nat) {
    |run| > 0 && run[0] == EMPTY && forall k :: NextWithAt(run, k, c)
  }

  /** Jobs are returned in the order of their exchange, none twice. */
  ghost predicate Fifo(q: Queue) {
    q.popped <= q.pushed
  }

  lemma StepReachable(q: Queue, step: Step, c: nat)
    requires Reachable(q, c) && Enabled(q, step) && (step.Begin? ==> |q.pops| < c)
    ensures Reachable(Apply(q, step), c)
  {
    var run :| IsRunWith(run, c) && run[|run|-1] == q;
    var q' := Apply(q, step);
    var run' := run + [q'];
    assert NextWith(q, q', c);
    hide NextWith;
    hide Apply;
    hide Enabled;
    forall k ensures NextWithAt(run', k, c) { assert NextWithAt(run, k, c); }
    assert IsRunWith(run', c) && run'[|run'|-1] == q';
  }

  lemma OneConsumerIsNext(q: Queue, q': Queue, c: nat)
    requires NextWith(q, q', c) && c <= 1
    ensures Next(q, q')
  {
    hide Apply;
    var step :| Enabled(q, step) && (step.Begin? ==> |q.pops| < c) && q' == Apply(q, step);
    assert step.Begin? ==> q.pops == map[];
  }

  lemma OneConsumerIsFifo(q: Queue, c: nat)
    requires Reachable(q, c) && c <= 1
    ensures Fifo(q)
  {
    hide Next;
    hide NextWith;
    var run :| IsRunWith(run, c) && run[|run|-1] == q;
    forall k ensures NextAt(run, k) {
      assert NextWithAt(run, k, c);
      if 0 <= k < |run| - 1 { OneConsumerIsNext(run[k], run[k+1], c); }
    }
    RunIsFifo(run, |run| - 1);
  }

  /** Two pushes done, nothing popped. */
  function TwoJobs(): Queue {
    EMPTY.(head := Entry(2), next := map[Stub := Some(Entry(1)), Entry(1) := Some(Entry(2)), Entry(2) := None],
           chain := [Stub, Entry(1), Entry(2)], pushed := [1, 2])
  }

  lemma TwoJobsReachable(c: nat)
    ensures Reachable(TwoJobs(), c)
  {
    OneJobReachable(c);
    hide Reachable;
    var q := OneJob();
    StepReachable(q, Exchange(0, 2), c);
    q := Apply(q, Exchange(0, 2));
    StepReachable(q, Finish(0), c);
    q := Apply(q, Finish(0));
    assert q.next == TwoJobs().next && q.links == TwoJobs().links && q.chain == TwoJobs().chain;
    assert q == TwoJobs();
  }

  function OneJob(): Queue {
    EMPTY.(head := Entry(1), next := map[Stub := Some(Entry(1)), Entry(1) := None],
           chain := [Stub, Entry(1)], pushed := [1])
  }

  lemma OneJobReachable(c: nat)
    ensures Reachable(OneJob(), c)
  {
    assert IsRunWith([EMPTY], c) && Reachable(EMPTY, c);
    hide Reachable;
    var q := EMPTY;
    StepReachable(q, Exchange(0, 1), c);
    q := Apply(q, Exchange(0, 1));
    StepReachable(q, Finish(0), c);
    q := Apply(q, Finish(0));
    assert q.next == OneJob().next && q.links == OneJob().links && q.chain == OneJob().chain;
    assert q == OneJob();
  }

  /** Two pushes done, and the stub skipped by thread 0, which reads on. */
  function StubSkipped(): Queue {
    TwoJobs().(tail := Entry(1), chain := [Entry(1), Entry(2)], pops := map[0 := ReadNextAgain(Entry(1))])
  }

  lemma StubSkippedReachable(c: nat)
    requires c >= 1
    ensures Reachable(StubSkipped(), c)
  {
    TwoJobsReachable(c);
    hide Reachable;
    var q := TwoJobs();
    StepReachable(q, Begin(0), c);
    q := Apply(q, Begin(0));
    StepReachable(q, Pop(0), c);
    q := PopStep(q, 0);
    StepReachable(q, Pop(0), c);
    q := PopStep(q, 0);
    StepReachable(q, Pop(0), c);
    q := PopStep(q, 0);
    assert q.pops == StubSkipped().pops && q.chain == StubSkipped().chain;
    assert q == StubSkipped();
  }

  /** Thread 0, and thread 1 after it, have read that the second entry follows
      the first, and are both about to return the first. */
  function BothAdvance(): Queue {
    StubSkipped().(pops := map[0 := Advance(Entry(1), Entry(2)), 1 := Advance(Entry(1), Entry(2))])
  }

  lemma BothAdvanceReachable(c: nat)
    requires c >= 2
    ensures Reachable(BothAdvance(), c)
  {
    StubSkippedReachable(c);
    hide Reachable;
    var q := StubSkipped();
    StepReachable(q, Pop(0), c);
    q := PopStep(q, 0);
    assert q.pops == map[0 := Advance(Entry(1), Entry(2))];
    StepReachable(q, Begin(1), c);
    q := Apply(q, Begin(1));
    StepReachable(q, Pop(1), c);
    q := PopStep(q, 1);
    StepReachable(q, Pop(1), c);
    q := PopStep(q, 1);
    assert q.pops == BothAdvance().pops;
    assert q == BothAdvance();
  }

  /** With two threads inside Pop, both can return the same job. */
  lemma TwoConsumersReturnOneJobTwice(c: nat) returns (q: Queue)
    requires c >= 2
    ensures Reachable(q, c) && q.pushed == [1, 2] && q.popped == [1, 1]
  {
    BothAdvanceReachable(c);
    hide Reachable;
    q := BothAdvance();
    StepReachable(q, Pop(0), c);
    q := PopStep(q, 0);
    StepReachable(q, Pop(1), c);
    q := PopStep(q, 1);
  }

  /** The queue is a FIFO in every reachable state if and only if at most one thread may be inside Pop at once. */
  lemma FifoIffOneConsumer(c: nat)
    ensures (forall q :: Reachable(q, c) ==> Fifo(q)) <==> c <= 1
  {
    hide Reachable;
    if c <= 1 {
      forall q | Reachable(q, c) ensures Fifo(q) { OneConsumerIsFifo(q, c); }
    } else {
      var q := TwoConsumersReturnOneJobTwice(c);
      assert q.popped[1] != q.pushed[1];
    }
  }
}
