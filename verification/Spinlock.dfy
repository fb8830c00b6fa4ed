/** The reader/writer spinlock kept in one 32-bit word, for any number of
    threads: one step is one access to the word by one thread. The word is the
    number whose 32 bits mLockFlag holds; adding and subtracting wrap around. */
module Spinlock {
  const WORD: int := 0x1_0000_0000
  const WRITE_FLAG: int := 0x0010_0000
  const WRITE_LIMIT: int := 0x800

  /** The largest number of threads for which the lock excludes. */
  const MAX_THREADS: nat := 2048

  /** mLockFlag & LF_WRITE_MASK, in units of LF_WRITE_FLAG. */
  function WriteField(word: int): int {
    word / WRITE_FLAG % WRITE_LIMIT
  }

  /** mLockFlag & LF_READ_MASK. */
  function ReadField(word: int): int {
    word % WRITE_FLAG
  }

  /** On 32-bit words the two masks of the source select these fields. */
  lemma MasksSelectFields(word: bv32)
    ensures word & 0x7FF00000 == ((word / 0x00100000) % 0x800) * 0x00100000
    ensures word & 0x000FFFFF == word % 0x00100000
    ensures word & 0x7FF00000 == 0x00100000 <==> (word / 0x00100000) % 0x800 == 1
    ensures word & 0x7FF00000 == 0 <==> (word / 0x00100000) % 0x800 == 0
  {
  }

  function Add(word: int, n: int): int {
    (word + n) % WORD
  }

  /** Where a thread is in EnterWriteLock, LeaveWriteLock, EnterReadLock and LeaveReadLock. */
  datatype Pc =
    | Outside
    | SpinWrite     // while (mLockFlag & LF_WRITE_MASK)
    | AddWrite      // InterlockedAdd(LF_WRITE_FLAG)
    | Drain         // while (mLockFlag & LF_READ_MASK)
    | Writing
    | BackOutWrite  // InterlockedAdd(-LF_WRITE_FLAG) after a lost race
    | SpinRead
    | AddRead       // InterlockedIncrement
    | Reading
    | BackOutRead   // InterlockedDecrement after a lost race

  datatype State = State(word: int, pcs: seq<Pc>)

  /** One access by a thread at this point; `exclusive` says which lock a thread outside asks for. */
  function Access(word: int, pc: Pc, exclusive: bool): (int, Pc) {
    match pc
    case Outside => (word, if exclusive then SpinWrite else SpinRead)
    case SpinWrite => (word, if WriteField(word) != 0 then SpinWrite else AddWrite)
    case AddWrite =>
      var word' := Add(word, WRITE_FLAG);
      (word', if WriteField(word') == 1 then Drain else BackOutWrite)
    case Drain => (word, if ReadField(word) != 0 then Drain else Writing)
    case Writing => (Add(word, -WRITE_FLAG), Outside)
    case BackOutWrite => (Add(word, -WRITE_FLAG), SpinWrite)
    case SpinRead => (word, if WriteField(word) != 0 then SpinRead else AddRead)
    case AddRead =>
      var word' := Add(word, 1);
      (word', if WriteField(word') == 0 then Reading else BackOutRead)
    case Reading => (Add(word, -1), Outside)
    case BackOutRead => (Add(word, -1), SpinRead)
  }

  function Apply(s: State, t: nat, exclusive: bool): State
    requires t < |s.pcs|
  {
    var (word', pc') := Access(s.word, s.pcs[t], exclusive);
    State(word', s.pcs[t := pc'])
  }

  ghost predicate Next(s: State, s': State) {
    exists t: nat, exclusive :: t < |s.pcs| && s' == Apply(s, t, exclusive)
  }

  ghost predicate NextAt(run: seq<State>, k: int) {
    0 <= k < |run| - 1 ==> Next(run[k], run[k+1])
  }

  function Start(n: nat): State {
    State(0, seq(n, _ => Outside))
  }

  /** A run of n threads, all outside at first. */
  ghost predicate IsRun(run: seq<State>, n: nat) {
    |run| > 0 && run[0] == Start(n) && forall k :: NextAt(run, k)
  }

  /** At most one writer holds the lock, and then no reader does. */
  ghost predicate Exclusive(s: State) {
    forall t, u :: 0 <= t < |s.pcs| && 0 <= u < |s.pcs| && t != u && s.pcs[t] == Writing ==>
      s.pcs[u] != Writing && s.pcs[u] != Reading
  }

  // ---- Exact accounting of the word ----

  /** The word for this many write claims and read claims. */
  function Encode(w: nat, r: nat): int {
    (w * WRITE_FLAG + r) % WORD
  }

  /** The two fields do not carry into each other. */
  lemma FieldsAreSeparate(w: nat, r: nat)
    requires w < 2 * MAX_THREADS && r < 2 * MAX_THREADS
    ensures WriteField(Encode(w, r)) == w % WRITE_LIMIT && ReadField(Encode(w, r)) == r
  {
    assert w * WRITE_FLAG + r < WORD;
    assert (w * WRITE_FLAG + r) / WRITE_FLAG == w;
  }

  /** Claims held, draining or being backed off; and the claims that won the race. */
  datatype Claim = WriteClaim | ReadClaim | Winner

  predicate Has(pc: Pc, c: Claim) {
    match c
    case WriteClaim => pc.Drain? || pc.Writing? || pc.BackOutWrite?
    case ReadClaim => pc.Reading? || pc.BackOutRead?
    case Winner => pc.Drain? || pc.Writing?
  }

  function Count(pcs: seq<Pc>, c: Claim): nat {
    if pcs == [] then 0 else Count(pcs[..|pcs|-1], c) + if Has(pcs[|pcs|-1], c) then 1 else 0
  }

  lemma {:induction false} CountUpdate(pcs: seq<Pc>, t: nat, pc: Pc, c: Claim)
    requires t < |pcs|
    ensures Count(pcs[t := pc], c) ==
      Count(pcs, c) - (if Has(pcs[t], c) then 1 else 0) + (if Has(pc, c) then 1 else 0)
    ensures Has(pcs[t], c) ==> Count(pcs, c) >= 1
  {
    var n := |pcs| - 1;
    if t == n {
      assert pcs[t := pc][..n] == pcs[..n];
    } else {
      CountUpdate(pcs[..n], t, pc, c);
      assert pcs[t := pc][..n] == pcs[..n][t := pc];
    }
  }

  lemma {:induction false} CountBounded(pcs: seq<Pc>, c: Claim)
    ensures Count(pcs, c) <= |pcs|
  {
    if pcs != [] { CountBounded(pcs[..|pcs|-1], c); }
  }

  lemma {:induction false} WinnersClaim(pcs: seq<Pc>)
    ensures Count(pcs, Winner) <= Count(pcs, WriteClaim)
  {
    if pcs != [] { WinnersClaim(pcs[..|pcs|-1]); }
  }

  lemma CountPositive(pcs: seq<Pc>, c: Claim, t: nat)
    requires t < |pcs| && Has(pcs[t], c)
    ensures Count(pcs, c) >= 1
  {
    CountUpdate(pcs, t, pcs[t], c);
  }

  lemma TwoWinners(pcs: seq<Pc>, t: nat, u: nat)
    requires t < |pcs| && u < |pcs| && t != u && Has(pcs[t], Winner) && Has(pcs[u], Winner)
    ensures Count(pcs, Winner) >= 2
  {
    CountUpdate(pcs, t, Outside, Winner);
    CountPositive(pcs[t := Outside], Winner, u);
  }

  lemma {:induction false} OutsideCounts(n: nat, c: Claim)
    ensures Count(seq(n, _ => Outside), c) == 0
  {
    if n > 0 {
      OutsideCounts(n - 1, c);
      assert seq(n, _ => Outside)[..n-1] == seq(n - 1, _ => Outside);
    }
  }

  /** The word is the write claims times LF_WRITE_FLAG plus the read claims. */
  ghost predicate Accounted(s: State) {
    s.word == Encode(Count(s.pcs, WriteClaim), Count(s.pcs, ReadClaim))
  }

  lemma EncodeSteps(w: nat, r: nat)
    ensures Encode(w + 1, r) == Add(Encode(w, r), WRITE_FLAG) && Add(Encode(w + 1, r), -WRITE_FLAG) == Encode(w, r)
    ensures Encode(w, r + 1) == Add(Encode(w, r), 1) && Add(Encode(w, r + 1), -1) == Encode(w, r)
  {
    AddUp(w * WRITE_FLAG + r, WRITE_FLAG);
    AddUp(w * WRITE_FLAG + r, 1);
  }

  /** Adding to the wrapped value and wrapping the sum are the same, and subtracting undoes it. */
  lemma AddUp(x: int, n: int)
    requires 0 <= n <= WRITE_FLAG && 0 <= x
    ensures (x + n) % WORD == Add(x % WORD, n) && Add((x + n) % WORD, -n) == x % WORD
  {
  }

  /** The accounting holds whatever the number of threads. */
  lemma AccountingKept(s: State, t: nat, exclusive: bool)
    requires t < |s.pcs| && Accounted(s)
    ensures Accounted(Apply(s, t, exclusive))
  {
    hide Encode;
    hide Add;
    hide Count;
    hide WriteField;
    hide ReadField;
    var pc' := Apply(s, t, exclusive).pcs[t];
    CountUpdate(s.pcs, t, pc', WriteClaim);
    CountUpdate(s.pcs, t, pc', ReadClaim);
    var w, r := Count(s.pcs, WriteClaim), Count(s.pcs, ReadClaim);
    EncodeSteps(w, r);
    if w > 0 { EncodeSteps(w - 1, r); }
    if r > 0 { EncodeSteps(w, r - 1); }
  }

  /** On every run, with any number of threads, the word is exactly accounted
      for; when all threads are outside it is 0. */
  lemma {:induction false} WordIsExact(run: seq<State>, n: nat, k: nat)
    requires IsRun(run, n) && k < |run|
    ensures Accounted(run[k]) && |run[k].pcs| == n
    ensures (forall t :: 0 <= t < n ==> run[k].pcs[t] == Outside) ==> run[k].word == 0
  {
    OutsideCounts(n, WriteClaim);
    OutsideCounts(n, ReadClaim);
    if k > 0 {
      WordIsExact(run, n, k - 1);
      assert NextAt(run, k - 1);
      var t: nat, exclusive :| t < |run[k-1].pcs| && run[k] == Apply(run[k-1], t, exclusive);
      AccountingKept(run[k-1], t, exclusive);
    }
    if forall t :: 0 <= t < n ==> run[k].pcs[t] == Outside {
      assert run[k].pcs == seq(n, _ => Outside);
    }
  }

  // ---- Exclusion ----

  ghost predicate NoReaderUnderWriter(s: State) {
    forall t, u :: 0 <= t < |s.pcs| && 0 <= u < |s.pcs| && s.pcs[t] == Writing ==> s.pcs[u] != Reading
  }

  ghost predicate Inv(s: State) {
    Accounted(s) && Count(s.pcs, Winner) <= 1 && NoReaderUnderWriter(s)
  }

  /** With at most MAX_THREADS threads, what a thread reads off the word is the truth about the claims. */
  lemma ReadingsAreTrue(s: State, t: nat)
    requires t < |s.pcs| <= MAX_THREADS && Accounted(s)
    ensures ReadField(s.word) == 0 <==> Count(s.pcs, ReadClaim) == 0
    ensures !Has(s.pcs[t], WriteClaim) ==> (WriteField(s.word) == 0 <==> Count(s.pcs, WriteClaim) == 0)
    ensures s.pcs[t] == AddWrite ==> (WriteField(Add(s.word, WRITE_FLAG)) == 1 <==> Count(s.pcs, WriteClaim) == 0)
    ensures s.pcs[t] == AddRead ==> (WriteField(Add(s.word, 1)) == 0 <==> Count(s.pcs, WriteClaim) == 0)
  {
    hide Encode;
    hide WriteField;
    hide ReadField;
    hide Add;
    hide Count;
    var w, r := Count(s.pcs, WriteClaim), Count(s.pcs, ReadClaim);
    CountBounded(s.pcs, WriteClaim);
    CountBounded(s.pcs, ReadClaim);
    FieldsAreSeparate(w, r);
    EncodeSteps(w, r);
    // t itself has no claim yet, so at most MAX_THREADS - 1 others have one
    CountUpdate(s.pcs, t, Drain, WriteClaim);
    CountBounded(s.pcs[t := Drain], WriteClaim);
    FieldsAreSeparate(w + 1, r);
    FieldsAreSeparate(w, r + 1);
  }

  lemma StepKeeps(s: State, t: nat, exclusive: bool)
    requires t < |s.pcs| <= MAX_THREADS && Inv(s)
    ensures Inv(Apply(s, t, exclusive))
  {
    hide Encode;
    hide Count;
    hide WriteField;
    hide ReadField;
    hide Add;
    var s' := Apply(s, t, exclusive);
    AccountingKept(s, t, exclusive);
    ReadingsAreTrue(s, t);
    WinnersClaim(s.pcs);
    CountUpdate(s.pcs, t, s'.pcs[t], Winner);
    forall a: nat, b: nat | a < |s.pcs| && b < |s.pcs| && s'.pcs[a] == Writing
      ensures s'.pcs[b] != Reading
    {
      if a != t { CountPositive(s.pcs, WriteClaim, a); }
      if b != t && s'.pcs[b] == Reading { CountPositive(s.pcs, ReadClaim, b); }
    }
  }

  lemma {:induction false} RunInv(run: seq<State>, n: nat, k: nat)
    requires IsRun(run, n) && n <= MAX_THREADS && k < |run|
    ensures Inv(run[k]) && |run[k].pcs| == n
  {
    if k == 0 {
      OutsideCounts(n, WriteClaim);
      OutsideCounts(n, ReadClaim);
      OutsideCounts(n, Winner);
    } else {
      RunInv(run, n, k - 1);
      assert NextAt(run, k - 1);
      var t: nat, exclusive :| t < |run[k-1].pcs| && run[k] == Apply(run[k-1], t, exclusive);
      StepKeeps(run[k-1], t, exclusive);
    }
  }

  /** Mutual exclusion on every run of at most MAX_THREADS threads: at most one
      thread is draining readers or holds the write lock, and while one holds
      it no thread holds the read lock. */
  lemma RunIsExclusive(run: seq<State>, n: nat, k: nat)
    requires IsRun(run, n) && n <= MAX_THREADS && k < |run|
    ensures Exclusive(run[k]) && |run[k].pcs| == n
    ensures forall t: nat, u: nat :: t < n && u < n && t != u && Has(run[k].pcs[t], Winner) ==> !Has(run[k].pcs[u], Winner)
  {
    RunInv(run, n, k);
    var pcs := run[k].pcs;
    forall t: nat, u: nat | t < n && u < n && t != u && Has(pcs[t], Winner) ensures !Has(pcs[u], Winner) {
      if Has(pcs[u], Winner) { TwoWinners(pcs, t, u); }
    }
    forall t: nat, u: nat | t < n && u < n && t != u && pcs[t] == Writing ensures pcs[u] != Writing && pcs[u] != Reading {
      assert Has(pcs[t], Winner);
    }
  }

  // ---- What the lock grants ----

  /** Where an access should take a thread, by the claims there are before it: it
      is kept waiting or turned back only by the claims of others. */
  function Expected(pc: Pc, writeClaims: nat, readClaims: nat, exclusive: bool): Pc {
    match pc
    case Outside => if exclusive then SpinWrite else SpinRead
    case SpinWrite => if writeClaims == 0 then AddWrite else SpinWrite
    case AddWrite => if writeClaims == 0 then Drain else BackOutWrite
    case Drain => if readClaims == 0 then Writing else Drain
    case Writing => Outside
    case BackOutWrite => SpinWrite
    case SpinRead => if writeClaims == 0 then AddRead else SpinRead
    case AddRead => if writeClaims == 0 then Reading else BackOutRead
    case Reading => Outside
    case BackOutRead => SpinRead
  }

  /** With at most MAX_THREADS threads every access of every thread goes where
      the claims alone say, and moves nobody else. */
  lemma AccessIsExpected(run: seq<State>, n: nat, k: nat, t: nat, exclusive: bool)
    requires IsRun(run, n) && n <= MAX_THREADS && k < |run| && t < n
    ensures |run[k].pcs| == n
    ensures var s := run[k];
      Apply(s, t, exclusive).pcs ==
      s.pcs[t := Expected(s.pcs[t], Count(s.pcs, WriteClaim), Count(s.pcs, ReadClaim), exclusive)]
  {
    RunInv(run, n, k);
    StepIsExpected(run[k], t, exclusive);
  }

  lemma StepIsExpected(s: State, t: nat, exclusive: bool)
    requires t < |s.pcs| <= MAX_THREADS && Accounted(s)
    ensures Apply(s, t, exclusive).pcs ==
      s.pcs[t := Expected(s.pcs[t], Count(s.pcs, WriteClaim), Count(s.pcs, ReadClaim), exclusive)]
  {
    ReadingsAreTrue(s, t);
    hide Encode;
    hide Count;
    hide WriteField;
    hide ReadField;
    hide Add;
  }

  /** n accesses by one thread while no other runs. */
  function Alone(s: State, t: nat, n: nat, exclusive: bool): (r: State)
    requires t < |s.pcs|
    ensures |r.pcs| == |s.pcs|
  {
    if n == 0 then s else Apply(Alone(s, t, n - 1, exclusive), t, exclusive)
  }

  /** A reader that runs while there is no write claim has the lock after two accesses. */
  lemma ReaderGetsIn(run: seq<State>, n: nat, k: nat, t: nat, exclusive: bool)
    requires IsRun(run, n) && n <= MAX_THREADS && k < |run| && t < n
    ensures |run[k].pcs| == n
    ensures run[k].pcs[t] == SpinRead && Count(run[k].pcs, WriteClaim) == 0 ==>
      Alone(run[k], t, 2, exclusive).pcs == run[k].pcs[t := Reading]
  {
    RunInv(run, n, k);
    var s := run[k];
    if s.pcs[t] == SpinRead && Count(s.pcs, WriteClaim) == 0 {
      var s1 := Alone(s, t, 1, exclusive);
      assert Alone(s, t, 0, exclusive) == s && s1 == Apply(s, t, exclusive);
      AccountingKept(s, t, exclusive);
      hide Apply;
      hide Accounted;
      hide Count;
      StepIsExpected(s, t, exclusive);
      CountUpdate(s.pcs, t, AddRead, WriteClaim);
      StepIsExpected(s1, t, exclusive);
      assert Alone(s, t, 2, exclusive) == Apply(s1, t, exclusive);
    }
  }

  /** A writer that runs while there is no claim at all has the lock after three. */
  lemma WriterGetsIn(run: seq<State>, n: nat, k: nat, t: nat, exclusive: bool)
    requires IsRun(run, n) && n <= MAX_THREADS && k < |run| && t < n
    ensures |run[k].pcs| == n
    ensures run[k].pcs[t] == SpinWrite && Count(run[k].pcs, WriteClaim) == 0 == Count(run[k].pcs, ReadClaim) ==>
      Alone(run[k], t, 3, exclusive).pcs == run[k].pcs[t := Writing]
  {
    RunInv(run, n, k);
    var s := run[k];
    if s.pcs[t] == SpinWrite && Count(s.pcs, WriteClaim) == 0 == Count(s.pcs, ReadClaim) {
      var s1, s2 := Alone(s, t, 1, exclusive), Alone(s, t, 2, exclusive);
      assert Alone(s, t, 0, exclusive) == s && s1 == Apply(s, t, exclusive) && s2 == Apply(s1, t, exclusive);
      assert Alone(s, t, 3, exclusive) == Apply(s2, t, exclusive);
      AccountingKept(s, t, exclusive);
      AccountingKept(s1, t, exclusive);
      hide Apply;
      hide Alone;
      hide Accounted;
      hide Count;
      StepIsExpected(s, t, exclusive);
      CountUpdate(s.pcs, t, AddWrite, WriteClaim);
      CountUpdate(s.pcs, t, AddWrite, ReadClaim);
      StepIsExpected(s1, t, exclusive);
      CountUpdate(s1.pcs, t, Drain, ReadClaim);
      StepIsExpected(s2, t, exclusive);
    }
  }

  // ---- One thread too many ----

  /** Some run of n threads ends in this state. */
  ghost predicate Reachable(n: nat, s: State) {
    exists run :: IsRun(run, n) && run[|run|-1] == s
  }

  lemma StartReachable(n: nat)
    ensures Reachable(n, Start(n))
  {
    assert IsRun([Start(n)], n);
  }

  lemma StepReachable(n: nat, s: State, t: nat, exclusive: bool)
    requires Reachable(n, s) && t < |s.pcs|
    ensures Reachable(n, Apply(s, t, exclusive))
  {
    var run :| IsRun(run, n) && run[|run|-1] == s;
    var run' := run + [Apply(s, t, exclusive)];
    forall k ensures NextAt(run', k) { assert NextAt(run, k); }
    assert IsRun(run', n);
  }

  /** Readers share: two threads can hold the read lock at once. */
  lemma ReadersShare(n: nat) returns (s: State)
    requires 2 <= n <= MAX_THREADS
    ensures Reachable(n, s) && |s.pcs| == n && s.pcs[0] == Reading && s.pcs[1] == Reading
  {
    StartReachable(n);
    s := Start(n);
    StepReachable(n, s, 0, false);
    s := Apply(s, 0, false);
    StepReachable(n, s, 0, false);
    s := Apply(s, 0, false);
    StepReachable(n, s, 0, false);
    s := Apply(s, 0, false);
    StepReachable(n, s, 1, false);
    s := Apply(s, 1, false);
    StepReachable(n, s, 1, false);
    s := Apply(s, 1, false);
    StepReachable(n, s, 1, false);
    s := Apply(s, 1, false);
    hide Reachable;
  }

  /** The first k threads have all seen the lock free and are about to add their write claim. */
  function Gathered(n: nat, k: nat): State {
    State(0, seq(n, i => if i < k then AddWrite else Outside))
  }

  lemma {:induction false} GatheredReachable(n: nat, k: nat)
    requires k <= n
    ensures Reachable(n, Gathered(n, k))
  {
    StartReachable(n);
    if k == 0 {
      assert Gathered(n, 0) == Start(n);
    } else {
      GatheredReachable(n, k - 1);
      var s := Gathered(n, k - 1);
      StepReachable(n, s, k - 1, true);
      StepReachable(n, Apply(s, k - 1, true), k - 1, true);
      assert Apply(Apply(s, k - 1, true), k - 1, true) == Gathered(n, k);
    }
  }

  /** Thread 0 holds the write lock and threads 1 to k - 1 have lost the race and not backed out yet. */
  function Piled(n: nat, k: nat): State {
    State(k * WRITE_FLAG, seq(n, i => if i == 0 then Writing else if i < k then BackOutWrite else AddWrite))
  }

  lemma {:induction false} PiledReachable(n: nat, k: nat)
    requires 1 <= k <= MAX_THREADS < n
    ensures Reachable(n, Piled(n, k))
  {
    if k == 1 {
      GatheredReachable(n, n);
      var s := Gathered(n, n);
      StepReachable(n, s, 0, true);
      StepReachable(n, Apply(s, 0, true), 0, true);
      assert Apply(Apply(s, 0, true), 0, true) == Piled(n, 1);
    } else {
      PiledReachable(n, k - 1);
      var s := Piled(n, k - 1);
      StepReachable(n, s, k - 1, true);
      FieldsAreSeparate(k, 0);
      assert Add(s.word, WRITE_FLAG) == Encode(k, 0) == k * WRITE_FLAG;
      assert Apply(s, k - 1, true) == Piled(n, k);
    }
  }

  /** With more threads the write claims can overflow their field: after
      MAX_THREADS claims the field reads 0, and one more writer gets in. */
  lemma TooManyThreadsBreakExclusion(n: nat) returns (s: State)
    requires n > MAX_THREADS
    ensures Reachable(n, s) && !Exclusive(s)
  {
    PiledReachable(n, MAX_THREADS);
    var full := Piled(n, MAX_THREADS);
    var t := MAX_THREADS;
    StepReachable(n, full, t, true);
    var won := Apply(full, t, true);
    FieldsAreSeparate(MAX_THREADS + 1, 0);
    assert won.word == Encode(MAX_THREADS + 1, 0);
    StepReachable(n, won, t, true);
    s := Apply(won, t, true);
    assert s.pcs[0] == Writing && s.pcs[t] == Writing;
  }

  /** The lock excludes on every run exactly when there are at most MAX_THREADS threads. */
  lemma ExclusionIffFewThreads(n: nat)
    ensures (forall s :: Reachable(n, s) ==> Exclusive(s)) <==> n <= MAX_THREADS
  {
    if n <= MAX_THREADS {
      forall s | Reachable(n, s) ensures Exclusive(s) {
        var run :| IsRun(run, n) && run[|run|-1] == s;
        RunIsExclusive(run, n, |run| - 1);
      }
    } else {
      var s := TooManyThreadsBreakExclusion(n);
    }
  }
}
