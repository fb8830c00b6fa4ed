/** The object pool: a ring of slots that new and delete exchange blocks with,
    each picking its slot with a counter of its own. Any number of threads, and
    each atomic access is one step. */
module Pool {
  import opened Option

  type Block = nat
  type Tid = nat

  const WIDTH := 0x1_0000_0000_0000_0000

  /** Where a thread is in operator new and operator delete. */
  datatype Phase =
    | Outside
    | Popping(pos: nat)              // new: mHeadPos taken
    | Allocating                     // new: the slot was empty
    | Pushing(obj: Block, pos: nat)  // delete: mTailPos taken
    | Freeing(prev: Block)           // delete: the slot was occupied

  /** The slots and counters; the blocks obtained from the system allocator and
      not given back; the blocks that are live objects; the threads; whether a
      block was given back that the allocator does not know. */
  datatype State = State(
    slots: seq<Option<Block>>, head: nat, tail: nat, heap: set<Block>, live: set<Block>,
    threads: seq<Phase>, fault: bool)

  datatype Step =
    | BeginNew(t: Tid)                // fetch_add on mHeadPos
    | Pop(t: Tid)                     // exchange with null; a block found is the new object
    | Allocate(t: Tid, b: Block)      // _aligned_malloc
    | BeginDelete(t: Tid, b: Block)   // fetch_add on mTailPos
    | Push(t: Tid)                    // exchange with the object
    | Free(t: Tid)                    // _aligned_free

  /** x & y, bit by bit. */
  function And(x: nat, y: nat): (r: nat)
    ensures r <= y
  {
    if x == 0 || y == 0 then 0 else 2 * And(x / 2, y / 2) + (x % 2) * (y % 2)
  }

  /** pos & POOL_SIZE_MASK. */
  function Slot(s: State, pos: nat): (k: nat)
    requires |s.slots| > 0
    ensures k < |s.slots|
  {
    And(pos, |s.slots| - 1)
  }

  /** The program deletes only live objects; the allocator returns only blocks not in use. */
  predicate Enabled(s: State, step: Step) {
    && step.t < |s.threads| && |s.slots| > 0
    && var phase := s.threads[step.t];
      match step
      case BeginNew(_) => phase.Outside?
      case Pop(_) => phase.Popping?
      case Allocate(_, b) => phase.Allocating? && b !in s.heap
      case BeginDelete(_, b) => phase.Outside? && b in s.live
      case Push(_) => phase.Pushing?
      case Free(_) => phase.Freeing?
  }

  function Go(s: State, t: Tid, phase: Phase): State
    requires t < |s.threads|
  {
    var ths := s.threads[t := phase];
    s.(threads := ths)
  }

  function Apply(s: State, step: Step): State
    requires Enabled(s, step)
  {
    var t := step.t;
    match step
    case BeginNew(_) => Go(s, t, Popping(s.head)).(head := (s.head + 1) % WIDTH)
    case Pop(_) =>
      var k := Slot(s, s.threads[t].pos);
      var slots' := s.slots[k := None];
      if s.slots[k].Some? then Go(s, t, Outside).(slots := slots', live := s.live + {s.slots[k].value})
      else Go(s, t, Allocating).(slots := slots')
    case Allocate(_, b) => Go(s, t, Outside).(heap := s.heap + {b}, live := s.live + {b})
    case BeginDelete(_, b) => Go(s, t, Pushing(b, s.tail)).(tail := (s.tail + 1) % WIDTH, live := s.live - {b})
    case Push(_) =>
      var k := Slot(s, s.threads[t].pos);
      var slots' := s.slots[k := Some(s.threads[t].obj)];
      Go(s, t, if s.slots[k].Some? then Freeing(s.slots[k].value) else Outside).(slots := slots')
    case Free(_) =>
      var b := s.threads[t].prev;
      Go(s, t, Outside).(heap := s.heap - {b}, fault := s.fault || b !in s.heap)
  }

  // ---- Conservation ----

  function Hand(phase: Phase): Option<Block> {
    match phase case Pushing(b, _) => Some(b) case Freeing(b) => Some(b) case _ => None
  }

  datatype Place = InSlot(k: nat) | InHand(t: Tid) | IsLive

  predicate IsAt(s: State, b: Block, place: Place) {
    match place
    case InSlot(k) => k < |s.slots| && s.slots[k] == Some(b)
    case InHand(t) => t < |s.threads| && Hand(s.threads[t]) == Some(b)
    case IsLive => b in s.live
  }

  /** A block is nowhere twice; it is somewhere exactly when the allocator has given it out. */
  ghost predicate Conserved(s: State, b: Block) {
    && (forall p, q :: IsAt(s, b, p) && IsAt(s, b, q) ==> p == q)
    && (b in s.heap <==> exists p :: IsAt(s, b, p))
  }

  ghost predicate Inv(s: State) {
    |s.slots| > 0 && !s.fault && forall b :: Conserved(s, b)
  }

  /** Where a block goes when it is moved from one place to another. */
  ghost predicate MovesTo(s: State, s': State, b: Block, from: Place, to: Place) {
    && from != to && IsAt(s, b, from) && (b in s'.heap <==> b in s.heap)
    && forall p :: IsAt(s', b, p) <==> p != from && (p == to || IsAt(s, b, p))
  }

  ghost predicate Stays(s: State, s': State, b: Block) {
    (b in s'.heap <==> b in s.heap) && forall p :: IsAt(s', b, p) <==> IsAt(s, b, p)
  }

  lemma MoveConserves(s: State, s': State, b: Block, from: Place, to: Place)
    requires Conserved(s, b) && MovesTo(s, s', b, from, to)
    ensures Conserved(s', b)
  {
    hide IsAt;
    assert IsAt(s', b, to);
  }

  lemma StayConserves(s: State, s': State, b: Block)
    requires Conserved(s, b) && Stays(s, s', b)
    ensures Conserved(s', b)
  {
    hide IsAt;
    if b in s'.heap {
      var p :| IsAt(s, b, p);
      assert IsAt(s', b, p);
    }
    if p :| IsAt(s', b, p) { assert IsAt(s, b, p); }
  }

  lemma BeginNewConserves(s: State, t: Tid, x: Block)
    requires Enabled(s, BeginNew(t)) && Conserved(s, x)
    ensures Conserved(Apply(s, BeginNew(t)), x)
  {
    assert Stays(s, Apply(s, BeginNew(t)), x);
    StayConserves(s, Apply(s, BeginNew(t)), x);
  }

  lemma PopConserves(s: State, t: Tid, x: Block)
    requires Enabled(s, Pop(t)) && Conserved(s, x)
    ensures Conserved(Apply(s, Pop(t)), x)
  {
    var s', k := Apply(s, Pop(t)), Slot(s, s.threads[t].pos);
    if s.slots[k] == Some(x) {
      assert IsAt(s, x, InSlot(k));
      assert MovesTo(s, s', x, InSlot(k), IsLive);
      MoveConserves(s, s', x, InSlot(k), IsLive);
    } else {
      assert Stays(s, s', x);
      StayConserves(s, s', x);
    }
  }

  lemma AllocateConserves(s: State, t: Tid, b: Block, x: Block)
    requires Enabled(s, Allocate(t, b)) && Conserved(s, x)
    ensures Conserved(Apply(s, Allocate(t, b)), x)
  {
    var s' := Apply(s, Allocate(t, b));
    if x == b {
      assert IsAt(s', b, IsLive);
      assert forall p :: IsAt(s', b, p) ==> p == IsLive || IsAt(s, b, p);
    } else {
      assert Stays(s, s', x);
      StayConserves(s, s', x);
    }
  }

  lemma BeginDeleteConserves(s: State, t: Tid, b: Block, x: Block)
    requires Enabled(s, BeginDelete(t, b)) && Conserved(s, x)
    ensures Conserved(Apply(s, BeginDelete(t, b)), x)
  {
    var s' := Apply(s, BeginDelete(t, b));
    if x == b {
      assert IsAt(s, b, IsLive);
      assert MovesTo(s, s', b, IsLive, InHand(t));
      MoveConserves(s, s', b, IsLive, InHand(t));
    } else {
      assert Stays(s, s', x);
      StayConserves(s, s', x);
    }
  }

  lemma PushConserves(s: State, t: Tid, x: Block)
    requires Enabled(s, Push(t)) && Conserved(s, x)
    ensures Conserved(Apply(s, Push(t)), x)
  {
    var s', k := Apply(s, Push(t)), Slot(s, s.threads[t].pos);
    if s.threads[t].obj == x {
      assert IsAt(s, x, InHand(t));
      assert s.slots[k] == Some(x) ==> IsAt(s, x, InSlot(k));
      assert MovesTo(s, s', x, InHand(t), InSlot(k));
      MoveConserves(s, s', x, InHand(t), InSlot(k));
    } else if s.slots[k] == Some(x) {
      assert IsAt(s, x, InSlot(k));
      assert MovesTo(s, s', x, InSlot(k), InHand(t));
      MoveConserves(s, s', x, InSlot(k), InHand(t));
    } else {
      assert Stays(s, s', x);
      StayConserves(s, s', x);
    }
  }

  lemma FreeConserves(s: State, t: Tid, x: Block)
    requires Enabled(s, Free(t)) && Conserved(s, x)
    ensures Conserved(Apply(s, Free(t)), x)
  {
    var s' := Apply(s, Free(t));
    if s.threads[t].prev == x {
      assert IsAt(s, x, InHand(t));
      assert forall p :: IsAt(s', x, p) ==> IsAt(s, x, p) && p != InHand(t);
    } else {
      assert Stays(s, s', x);
      StayConserves(s, s', x);
    }
  }

  lemma StepKeeps(s: State, step: Step)
    requires Enabled(s, step) && Inv(s)
    ensures Inv(Apply(s, step))
  {
    var s' := Apply(s, step);
    if step.Free? {
      var b := s.threads[step.t].prev;
      assert Conserved(s, b) && IsAt(s, b, InHand(step.t));
    }
    hide Apply;
    hide Conserved;
    assert |s'.slots| > 0 && !s'.fault;
    forall x ensures Conserved(s', x) {
      assert Conserved(s, x);
      match step {
        case BeginNew(t) => BeginNewConserves(s, t, x);
        case Pop(t) => PopConserves(s, t, x);
        case Allocate(t, b) => AllocateConserves(s, t, b, x);
        case BeginDelete(t, b) => BeginDeleteConserves(s, t, b, x);
        case Push(t) => PushConserves(s, t, x);
        case Free(t) => FreeConserves(s, t, x);
      }
    }
  }

  // ---- Runs ----

  predicate Init(s: State) {
    && |s.slots| > 0 && (forall k :: 0 <= k < |s.slots| ==> s.slots[k] == None)
    && s.head == 0 && s.tail == 0 && s.heap == {} && s.live == {} && !s.fault
    && (forall t :: 0 <= t < |s.threads| ==> s.threads[t] == Outside)
  }

  /** PrepareAllocation, run by itself: every slot is overwritten by a block from the allocator. */
  function Prepared(s: State, blocks: seq<Block>): State
    requires |blocks| == |s.slots|
  {
    s.(slots := seq(|blocks|, k requires 0 <= k < |blocks| => Some(blocks[k])),
       heap := s.heap + (set b | b in blocks), tail := (s.tail + |s.slots|) % WIDTH)
  }

  /** Different blocks, none of them given out already. */
  ghost predicate FromAllocator(s: State, blocks: seq<Block>) {
    && |blocks| == |s.slots|
    && (forall i, j :: 0 <= i < j < |blocks| ==> blocks[i] != blocks[j])
    && (forall b :: b in blocks ==> b !in s.heap)
  }

  lemma OldBlockIfPrepared(s: State, blocks: seq<Block>, b: Block)
    requires Conserved(s, b) && FromAllocator(s, blocks) && b !in blocks
    ensures Conserved(Prepared(s, blocks), b) <==> forall k :: 0 <= k < |s.slots| ==> s.slots[k] != Some(b)
  {
    var s' := Prepared(s, blocks);
    assert forall p :: IsAt(s', b, p) <==> IsAt(s, b, p) && !p.InSlot?;
    if k :| 0 <= k < |s.slots| && s.slots[k] == Some(b) {
      assert IsAt(s, b, InSlot(k));
    } else {
      assert forall p :: IsAt(s, b, p) ==> !p.InSlot?;
      assert Stays(s, s', b);
      StayConserves(s, s', b);
    }
  }

  lemma NewBlockIsPrepared(s: State, blocks: seq<Block>, b: Block)
    requires Conserved(s, b) && FromAllocator(s, blocks) && b in blocks
    ensures Conserved(Prepared(s, blocks), b)
  {
    var s' := Prepared(s, blocks);
    var k :| 0 <= k < |blocks| && blocks[k] == b;
    assert forall p :: !IsAt(s, b, p);
    assert IsAt(s', b, InSlot(k));
    forall p | IsAt(s', b, p) ensures p == InSlot(k) {
      assert !IsAt(s, b, p);
    }
  }

  /** PrepareAllocation loses no block exactly when every slot was empty: it frees nothing it overwrites. */
  lemma PrepareConservesIff(s: State, blocks: seq<Block>)
    requires Inv(s) && FromAllocator(s, blocks)
    ensures Inv(Prepared(s, blocks)) <==> forall k :: 0 <= k < |s.slots| ==> s.slots[k] == None
  {
    var s' := Prepared(s, blocks);
    forall b ensures b in blocks || (forall k :: 0 <= k < |s.slots| ==> s.slots[k] != Some(b)) <==> Conserved(s', b) {
      assert Conserved(s, b);
      if b in blocks { NewBlockIsPrepared(s, blocks, b); } else { OldBlockIfPrepared(s, blocks, b); }
    }
    if k :| 0 <= k < |s.slots| && s.slots[k].Some? {
      var b := s.slots[k].value;
      assert Conserved(s, b) && IsAt(s, b, InSlot(k));
      assert !Conserved(s', b);
    }
  }

  /** A pool starts empty, or prepared when it was empty. */
  ghost predicate Starts(s: State) {
    Init(s) || exists s0, blocks :: Init(s0) && FromAllocator(s0, blocks) && s == Prepared(s0, blocks)
  }

  ghost predicate NextAt(run: seq<State>, k: nat)
    requires k + 1 < |run|
  {
    exists step :: Enabled(run[k], step) && run[k + 1] == Apply(run[k], step)
  }

  ghost predicate IsRun(run: seq<State>) {
    |run| > 0 && Starts(run[0]) && (forall k: nat :: k + 1 < |run| ==> NextAt(run, k))
  }

  lemma InitInv(s: State)
    requires Init(s)
    ensures Inv(s)
  {
    forall b ensures Conserved(s, b) {
      assert forall p :: !IsAt(s, b, p);
    }
  }

  lemma StartInv(s: State)
    requires Starts(s)
    ensures Inv(s)
  {
    if Init(s) {
      InitInv(s);
    } else {
      var s0, blocks :| Init(s0) && FromAllocator(s0, blocks) && s == Prepared(s0, blocks);
      InitInv(s0);
      PrepareConservesIff(s0, blocks);
    }
  }

  /** In every reachable state each block the allocator has given out is in
      exactly one place, a slot, one thread's hand or a live object, nothing else
      is anywhere, and no block was given back twice. */
  lemma {:induction false} RunConserves(run: seq<State>, k: nat)
    requires IsRun(run) && k < |run|
    ensures Inv(run[k])
  {
    if k == 0 {
      StartInv(run[0]);
    } else {
      RunConserves(run, k - 1);
      assert NextAt(run, k - 1);
      var step :| Enabled(run[k - 1], step) && run[k] == Apply(run[k - 1], step);
      StepKeeps(run[k - 1], step);
    }
  }

  /** The object that new returns is nobody else's: no live object, no slot and no hand had it,
      except the slot it came from, and none has it afterwards. */
  lemma NewIsExclusive(s: State, step: Step, b: Block)
    requires Inv(s) && Enabled(s, step) && b in Apply(s, step).live && b !in s.live
    ensures step.Pop? || step.Allocate?
    ensures var s' := Apply(s, step);
      && s'.threads[step.t].Outside?
      && (forall k :: 0 <= k < |s'.slots| ==> s'.slots[k] != Some(b))
      && (forall t :: 0 <= t < |s'.threads| ==> Hand(s'.threads[t]) != Some(b))
      && (forall c :: c in s'.live ==> c in s.live || c == b)
  {
    var s' := Apply(s, step);
    StepKeeps(s, step);
    assert Conserved(s', b);
    assert IsAt(s', b, IsLive);
    forall k: nat | k < |s'.slots| ensures s'.slots[k] != Some(b) {
      assert !IsAt(s', b, InSlot(k));
    }
    forall t: nat | t < |s'.threads| ensures Hand(s'.threads[t]) != Some(b) {
      assert !IsAt(s', b, InHand(t));
    }
  }

  /** What delete gives back to the allocator was given out, is given back once, and is no object. */
  lemma FreedIsNobodys(s: State, t: Tid)
    requires Inv(s) && Enabled(s, Free(t))
    ensures var b := s.threads[t].prev;
      && b in s.heap && b !in s.live && Apply(s, Free(t)).heap == s.heap - {b}
      && (forall k :: 0 <= k < |s.slots| ==> s.slots[k] != Some(b))
      && (forall u :: 0 <= u < |s.threads| && u != t ==> Hand(s.threads[u]) != Some(b))
  {
    var b := s.threads[t].prev;
    assert Conserved(s, b) && IsAt(s, b, InHand(t));
    assert b in s.live ==> IsAt(s, b, IsLive);
    forall k: nat | k < |s.slots| ensures s.slots[k] != Some(b) {
      assert s.slots[k] == Some(b) ==> IsAt(s, b, InSlot(k));
    }
    forall u: nat | u < |s.threads| && u != t ensures Hand(s.threads[u]) != Some(b) {
      assert Hand(s.threads[u]) == Some(b) ==> IsAt(s, b, InHand(u));
    }
  }

  function Pooled(s: State): set<Block> {
    set k | 0 <= k < |s.slots| && s.slots[k].Some? :: s.slots[k].value
  }

  /** With no thread inside new or delete, what the allocator has given out is what is live and what is pooled. */
  lemma NothingLeaks(run: seq<State>, k: nat)
    requires IsRun(run) && k < |run| && forall t :: 0 <= t < |run[k].threads| ==> run[k].threads[t].Outside?
    ensures run[k].heap == run[k].live + Pooled(run[k]) && run[k].live !! Pooled(run[k])
  {
    RunConserves(run, k);
    var s := run[k];
    forall b ensures b in s.heap <==> b in s.live || b in Pooled(s) {
      assert Conserved(s, b);
      if b in s.live { assert IsAt(s, b, IsLive); }
      if j: nat :| j < |s.slots| && s.slots[j] == Some(b) { assert IsAt(s, b, InSlot(j)); }
      if b in s.heap {
        var p :| IsAt(s, b, p);
      }
    }
    forall b | b in s.live && b in Pooled(s) ensures false {
      assert Conserved(s, b) && IsAt(s, b, IsLive);
      var j: nat :| j < |s.slots| && s.slots[j] == Some(b);
      assert IsAt(s, b, InSlot(j));
    }
  }

  // ---- Which slot ----

  function Pow2(k: nat): (p: nat)
    ensures p > 0
  {
    if k == 0 then 1 else 2 * Pow2(k - 1)
  }

  lemma Remainder(q: nat, m: nat, r: nat)
    requires r < m
    ensures (q * m + r) % m == r
  {
    var x := q * m + r;
    var d: int := x / m - q;
    assert x == m * (x / m) + x % m;
    assert d * m == m * (x / m) - q * m;
    Multiple(d, m);
  }

  lemma Multiple(d: int, m: nat)
    ensures d >= 1 ==> d * m >= m
    ensures d <= -1 ==> d * m + m <= 0
  {
  }

  /** The mask is the remainder, for every power of two. */
  lemma {:induction false} MaskIsRemainder(x: nat, k: nat)
    ensures And(x, Pow2(k) - 1) == x % Pow2(k)
  {
    if k > 0 {
      var p := Pow2(k - 1);
      MaskIsRemainder(x / 2, k - 1);
      assert (2 * p - 1) / 2 == p - 1 && (2 * p - 1) % 2 == 1;
      Halves(x, p);
      assert x == 0 || p == 1 || And(x, 2 * p - 1) == 2 * And(x / 2, p - 1) + x % 2;
    }
  }

  lemma Halves(x: nat, p: nat)
    requires p > 0
    ensures x % (2 * p) == 2 * ((x / 2) % p) + x % 2
  {
    var q, r := x / 2 / p, (x / 2) % p;
    assert x / 2 == q * p + r;
    assert q * (2 * p) == 2 * (q * p);
    Remainder(q, 2 * p, 2 * r + x % 2);
  }

  lemma {:induction false} AndItself(x: nat)
    ensures And(x, x) == x
  {
    if x > 0 { AndItself(x / 2); }
  }

  /** What the compile-time check of the size makes sure of. */
  lemma {:induction false} CheckedIsPowerOfTwo(n: nat) returns (k: nat)
    requires n > 0 && And(n, n - 1) == 0
    ensures n == Pow2(k)
  {
    k := 0;
    if n > 1 {
      if n % 2 == 1 {
        AndItself(n / 2);
        assert false;
      }
      k := CheckedIsPowerOfTwo(n / 2);
      k := k + 1;
    }
  }

  /** For both sizes the repository uses, the mask is the remainder, so it is a
      slot for every counter value, and the slots go round even where the counter wraps. */
  lemma MaskPicksSlot(pos: bv64)
    ensures pos & 4095 == pos % 4096 && pos & 4095 < 4096
    ensures pos & 1023 == pos % 1024 && pos & 1023 < 1024
    ensures (pos + 1) & 4095 == if pos & 4095 == 4095 then 0 else (pos & 4095) + 1
    ensures (pos + 1) & 1023 == if pos & 1023 == 1023 then 0 else (pos & 1023) + 1
  {
  }

  lemma {:induction false} PowersDivide(k: nat, l: nat)
    requires k <= l
    ensures Pow2(l) == Pow2(l - k) * Pow2(k)
  {
    if k > 0 {
      PowersDivide(k - 1, l - 1);
      Associate(Pow2(l - k), 2, Pow2(k - 1));
      Associate(2, Pow2(l - k), Pow2(k - 1));
    }
  }

  lemma {:induction false} WidthIsPower()
    ensures Pow2(64) == WIDTH
  {
    assert Pow2(4) == 16;
    PowersDivide(4, 8);
    PowersDivide(8, 16);
    PowersDivide(16, 32);
    PowersDivide(32, 64);
  }

  lemma {:induction false} PowersGrow(k: nat, l: nat)
    requires k < l
    ensures Pow2(k) < Pow2(l)
  {
    if k + 1 < l { PowersGrow(k, l - 1); }
  }

  /** The size of a pool: a power of two the counters have room for. */
  predicate SizeOk(n: nat) {
    0 < n <= WIDTH && And(n, n - 1) == 0
  }

  /** The n-th call, counted from 0, gets the slot n modulo the size, even where the counter has wrapped around. */
  lemma SlotOfCall(s: State, n: nat)
    requires SizeOk(|s.slots|)
    ensures Slot(s, n % WIDTH) == n % |s.slots|
    ensures Slot(s, (n + |s.slots|) % WIDTH) == n % |s.slots|
  {
    hide Pow2;
    hide And;
    var size := |s.slots|;
    var k := CheckedIsPowerOfTwo(size);
    WidthIsPower();
    if k > 64 { PowersGrow(64, k); }
    PowersDivide(k, 64);
    RemainderOfRemainder(n, Pow2(64 - k), size);
    RemainderOfRemainder(n + size, Pow2(64 - k), size);
    MaskIsRemainder(n % WIDTH, k);
    MaskIsRemainder((n + size) % WIDTH, k);
    OnceMore(n, size);
  }

  lemma Divide(x: nat, m: nat) returns (q: nat, r: nat)
    requires m > 0
    ensures x == q * m + r && r < m && r == x % m
  {
    q, r := x / m, x % m;
  }

  lemma Distribute(a: nat, b: nat, m: nat)
    ensures (a + b) * m == a * m + b * m
  {
  }

  lemma Associate(a: nat, b: nat, c: nat)
    ensures a * (b * c) == (a * b) * c
  {
  }

  lemma OnceMore(x: nat, m: nat)
    requires m > 0
    ensures (x + m) % m == x % m
  {
    var q, r := Divide(x, m);
    Distribute(q, 1, m);
    Remainder(q + 1, m, r);
  }

  lemma RemainderOfRemainder(x: nat, c: nat, m: nat)
    requires m > 0 && c * m > 0
    ensures (x % (c * m)) % m == x % m
  {
    var q, r := Divide(x, c * m);
    var p, t := Divide(r, m);
    Associate(q, c, m);
    Distribute(q * c, p, m);
    Remainder(q * c + p, m, t);
  }

  // ---- Runs together with their steps ----

  ghost predicate StepAt(run: seq<State>, steps: seq<Step>, k: nat)
    requires |run| == |steps| + 1 && k < |steps|
  {
    Enabled(run[k], steps[k]) && run[k+1] == Apply(run[k], steps[k])
  }

  ghost predicate IsTrace(run: seq<State>, steps: seq<Step>) {
    |run| == |steps| + 1 && Starts(run[0]) && forall k: nat :: k < |steps| ==> StepAt(run, steps, k)
  }

  function Count(b: bool): nat { if b then 1 else 0 }

  /** How often new, and delete, was called in the first k steps. */
  function News(steps: seq<Step>, k: nat): nat
    requires k <= |steps|
  {
    if k == 0 then 0 else News(steps, k - 1) + Count(steps[k-1].BeginNew?)
  }

  function Deletes(steps: seq<Step>, k: nat): nat
    requires k <= |steps|
  {
    if k == 0 then 0 else Deletes(steps, k - 1) + Count(steps[k-1].BeginDelete?)
  }

  /** Thread t made step j and none between it and state k. */
  ghost predicate LastStep(steps: seq<Step>, j: nat, k: nat, t: Tid) {
    j < k <= |steps| && steps[j].t == t && forall m: nat :: j < m < k ==> steps[m].t != t
  }

  /** The n-th of all calls takes position n, counted on from the start, and keeps it. */
  ghost predicate PlaceOk(steps: seq<Step>, j: nat, k: nat, t: Tid, phase: Phase, first: nat) {
    && LastStep(steps, j, k, t)
    && match phase
       case Popping(pos) => steps[j] == BeginNew(t) && pos == News(steps, j) % WIDTH
       case Pushing(b, pos) => steps[j] == BeginDelete(t, b) && pos == (Deletes(steps, j) + first) % WIDTH
       case _ => false
  }

  predicate IsPlaced(phase: Phase) {
    phase.Popping? || phase.Pushing?
  }

  lemma {:induction false} CountersCount(run: seq<State>, steps: seq<Step>, k: nat)
    requires IsTrace(run, steps) && k <= |steps|
    ensures run[k].head == News(steps, k) % WIDTH
    ensures run[k].tail == (Deletes(steps, k) + run[0].tail) % WIDTH
    ensures |run[k].slots| == |run[0].slots| && |run[k].threads| == |run[0].threads|
    decreases k
  {
    if k == 0 {
      CountersStart(run[0]);
    } else {
      CountersCount(run, steps, k - 1);
      assert StepAt(run, steps, k - 1);
      CountersWrap(News(steps, k - 1));
      CountersWrap(Deletes(steps, k - 1) + run[0].tail);
    }
  }

  lemma CountersWrap(n: nat)
    ensures (n + 1) % WIDTH == (n % WIDTH + 1) % WIDTH
  {
  }

  lemma CountersStart(s: State)
    requires Starts(s)
    ensures s.head == 0 && s.tail < WIDTH && (s.tail == 0 || s.tail == |s.slots| % WIDTH)
  {
  }

  lemma {:induction false} PlacesAreKept(run: seq<State>, steps: seq<Step>, k: nat, t: Tid) returns (j: nat)
    requires IsTrace(run, steps) && k <= |steps| && t < |run[k].threads| && IsPlaced(run[k].threads[t])
    ensures PlaceOk(steps, j, k, t, run[k].threads[t], run[0].tail)
    decreases k
  {
    if k == 0 {
      NobodyIsPlaced(run[0]);
    } else {
      CountersCount(run, steps, k - 1);
      assert StepAt(run, steps, k - 1);
      if steps[k-1].t == t { j := k - 1; } else { j := PlacesAreKept(run, steps, k - 1, t); }
    }
  }

  lemma NobodyIsPlaced(s: State)
    requires Starts(s)
    ensures forall t :: 0 <= t < |s.threads| ==> s.threads[t].Outside?
  {
  }

  // ---- Which block new returns, and where delete puts it ----

  /** A call of new looks into slot n: a block there is the new object, and the
      slot is empty afterwards; the allocator is asked only if there is none. */
  ghost predicate TakesFrom(s: State, s': State, t: Tid, n: nat)
    requires n < |s.slots|
  {
    && s'.slots == s.slots[n := None] && s'.heap == s.heap
    && t < |s'.threads|
    && match s.slots[n]
       case Some(b) => s'.threads[t].Outside? && s'.live == s.live + {b}
       case None => s'.threads[t].Allocating? && s'.live == s.live
  }

  /** A call of delete leaves its block in slot n; a block that was there goes back to the allocator. */
  ghost predicate PutsInto(s: State, s': State, t: Tid, n: nat, b: Block)
    requires n < |s.slots|
  {
    && s'.slots == s.slots[n := Some(b)] && s'.heap == s.heap && s'.live == s.live
    && t < |s'.threads|
    && match s.slots[n]
       case Some(prev) => s'.threads[t] == Freeing(prev)
       case None => s'.threads[t].Outside?
  }

  /** The n-th call of new takes from slot n modulo the size, the n-th call of
      delete puts into slot n modulo the size, whatever the interleaving and even
      after a counter has wrapped around. */
  lemma SlotsGoRound(run: seq<State>, steps: seq<Step>, k: nat)
    requires IsTrace(run, steps) && k < |steps| && SizeOk(|run[0].slots|)
    ensures |run[k].slots| == |run[0].slots|
    ensures steps[k].Pop? ==>
      exists j: nat :: LastStep(steps, j, k, steps[k].t) && steps[j].BeginNew? &&
                       TakesFrom(run[k], run[k+1], steps[k].t, News(steps, j) % |run[k].slots|)
    ensures steps[k].Push? ==>
      exists j: nat :: LastStep(steps, j, k, steps[k].t) && steps[j].BeginDelete? &&
                       PutsInto(run[k], run[k+1], steps[k].t, Deletes(steps, j) % |run[k].slots|, steps[j].b)
  {
    CountersCount(run, steps, k);
    CountersStart(run[0]);
    assert StepAt(run, steps, k);
    var s, t := run[k], steps[k].t;
    if IsPlaced(s.threads[t]) {
      var j := PlacesAreKept(run, steps, k, t);
      hide And;
      SlotOfCall(s, News(steps, j));
      SlotOfCall(s, Deletes(steps, j));
      SmallSize(|s.slots|, Deletes(steps, j));
      hide SizeOk;
      assert steps[k].Pop? ==> TakesFrom(s, run[k+1], t, News(steps, j) % |s.slots|);
      assert steps[k].Push? ==> PutsInto(s, run[k+1], t, Deletes(steps, j) % |s.slots|, steps[j].b);
    }
  }

  lemma SmallSize(n: nat, x: nat)
    requires 0 < n <= WIDTH
    ensures (x + n % WIDTH) % WIDTH == (x + n) % WIDTH
  {
  }

  // ---- Calls end, and every new makes one object ----

  /** The accesses a call still makes. */
  function AccessesLeft(phase: Phase): nat {
    match phase
    case Outside => 0
    case Popping(_) => 2
    case Allocating => 1
    case Pushing(_, _) => 2
    case Freeing(_) => 1
  }

  predicate InNew(phase: Phase) {
    phase.Popping? || phase.Allocating?
  }

  ghost function Creating(ths: seq<Phase>): set<Tid> {
    set t: Tid | t < |ths| && InNew(ths[t])
  }

  lemma CreatingUpdate(ths: seq<Phase>, t: Tid, phase: Phase)
    requires t < |ths|
    ensures |Creating(ths[t := phase])| == |Creating(ths)| - Count(InNew(ths[t])) + Count(InNew(phase))
  {
    hide InNew;
    var rest := Creating(ths) - {t};
    assert Creating(ths) == rest + (if InNew(ths[t]) then {t} else {});
    assert Creating(ths[t := phase]) == rest + (if InNew(phase) then {t} else {});
  }

  /** Every call ends after at most two more accesses and no other thread's
      steps can hold it up; each new makes one object and each delete ends one. */
  lemma StepCounts(s: State, step: Step)
    requires Inv(s) && Enabled(s, step)
    ensures var s' := Apply(s, step);
      && (!step.BeginNew? && !step.BeginDelete? ==>
            AccessesLeft(s'.threads[step.t]) < AccessesLeft(s.threads[step.t]))
      && s'.threads == s.threads[step.t := s'.threads[step.t]]
      && |s'.live| + |Creating(s'.threads)| + Count(step.BeginDelete?) ==
         |s.live| + |Creating(s.threads)| + Count(step.BeginNew?)
  {
    var s', t := Apply(s, step), step.t;
    CreatingUpdate(s.threads, t, s'.threads[t]);
    match step {
      case Pop(_) =>
        var k := Slot(s, s.threads[t].pos);
        if s.slots[k].Some? { InSlotIsNotLive(s, k); }
      case Allocate(_, b) =>
        assert Conserved(s, b);
        assert b in s.live ==> IsAt(s, b, IsLive);
      case _ =>
    }
  }

  lemma InSlotIsNotLive(s: State, k: nat)
    requires Inv(s) && k < |s.slots| && s.slots[k].Some?
    ensures s.slots[k].value !in s.live
  {
    var b := s.slots[k].value;
    assert Conserved(s, b) && IsAt(s, b, InSlot(k));
    assert b in s.live ==> IsAt(s, b, IsLive);
  }

  lemma {:induction false} TraceInv(run: seq<State>, steps: seq<Step>, k: nat)
    requires IsTrace(run, steps) && k <= |steps|
    ensures Inv(run[k])
    decreases k
  {
    if k == 0 {
      StartInv(run[0]);
    } else {
      TraceInv(run, steps, k - 1);
      assert StepAt(run, steps, k - 1);
      StepKeeps(run[k-1], steps[k-1]);
    }
  }

  /** On every run there are as many live objects as calls of new that are over minus calls of delete. */
  lemma {:induction false} ObjectsAreCounted(run: seq<State>, steps: seq<Step>, k: nat)
    requires IsTrace(run, steps) && k <= |steps|
    ensures |run[k].live| + |Creating(run[k].threads)| + Deletes(steps, k) == News(steps, k)
    decreases k
  {
    if k == 0 {
      NobodyIsPlaced(run[0]);
      assert Creating(run[0].threads) == {};
    } else {
      ObjectsAreCounted(run, steps, k - 1);
      TraceInv(run, steps, k - 1);
      assert StepAt(run, steps, k - 1);
      StepCounts(run[k-1], steps[k-1]);
      hide Inv;
      hide Apply;
      hide Creating;
    }
  }

  /** In any state whatever, the flag records exactly the blocks given back that the allocator does not know. */
  lemma FlagIsTrue(s: State, step: Step)
    requires Enabled(s, step)
    ensures Apply(s, step).fault <==> s.fault || (step.Free? && s.threads[step.t].prev !in s.heap)
  {
    hide And;
  }
}
