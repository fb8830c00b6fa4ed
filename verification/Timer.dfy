/** The timer: a binary heap of due times in an array, filled by sift-up, whose
    loop dispatches the top element, lets its job push further elements into
    the same heap, and only then pops. */
module Timer {

  /** A TimerJobElement: whose job, which job, and when it is due. */
  datatype Element = Element(owner: nat, task: nat, due: int)

  /** A call of PushTimerJob made by a job. */
  datatype Push = Push(owner: nat, task: nat, after: nat)

  function Stamp(p: Push, tick: int): Element {
    Element(p.owner, p.task, tick + p.after)
  }

  // ---- Heaps ----

  function Parent(k: nat): nat
    requires k > 0
  {
    (k - 1) / 2
  }

  /** Element k is not due before its parent. */
  predicate OrderedAt(h: seq<Element>, k: nat)
    requires 0 < k < |h|
  {
    h[Parent(k)].due <= h[k].due
  }

  ghost predicate IsHeap(h: seq<Element>) {
    forall k: nat :: 0 < k < |h| ==> OrderedAt(h, k)
  }

  /** A heap except that element i may be due before its parent. */
  ghost predicate HeapButAt(h: seq<Element>, i: nat)
    requires i < |h|
  {
    && (forall k: nat :: 0 < k < |h| && k != i ==> OrderedAt(h, k))
    && (forall k: nat :: 0 < k < |h| && Parent(k) == i && i > 0 ==> h[Parent(i)].due <= h[k].due)
  }

  /** A heap except that element i may be due after its children. */
  ghost predicate HeapButBelow(h: seq<Element>, i: nat)
    requires i <= |h|
  {
    && (forall k: nat :: 0 < k < |h| && Parent(k) != i ==> OrderedAt(h, k))
    && (forall k: nat :: 0 < k < |h| && Parent(k) == i && i > 0 ==> h[Parent(i)].due <= h[k].due)
  }

  /** The top of a heap is due first. */
  lemma {:induction false} TopIsFirst(h: seq<Element>, k: nat)
    requires IsHeap(h) && k < |h|
    ensures h[0].due <= h[k].due
  {
    if k > 0 {
      assert OrderedAt(h, k);
      TopIsFirst(h, Parent(k));
    }
  }

  ghost predicate NothingBefore(h: seq<Element>, due: int) {
    forall e :: e in multiset(h) ==> due <= e.due
  }

  lemma NothingBeforeTop(h: seq<Element>)
    requires IsHeap(h) && h != []
    ensures NothingBefore(h, h[0].due)
  {
    forall e | e in multiset(h) ensures h[0].due <= e.due {
      var k :| 0 <= k < |h| && h[k] == e;
      TopIsFirst(h, k);
    }
  }

  function Swap(h: seq<Element>, i: nat, j: nat): (r: seq<Element>)
    requires i < |h| && j < |h|
    ensures |r| == |h| && multiset(r) == multiset(h)
  {
    h[i := h[j]][j := h[i]]
  }

  lemma SwapUp(h: seq<Element>, i: nat)
    requires 0 < i < |h| && HeapButAt(h, i) && h[i].due < h[Parent(i)].due
    ensures HeapButAt(Swap(h, i, Parent(i)), Parent(i))
  {
    var p, h' := Parent(i), Swap(h, i, Parent(i));
    forall k: nat | 0 < k < |h| && k != p ensures OrderedAt(h', k) {
      if k != i { assert OrderedAt(h, k); }
    }
    forall k: nat | 0 < k < |h| && Parent(k) == p && p > 0 ensures h'[Parent(p)].due <= h'[k].due {
      assert OrderedAt(h, p);
      if k != i { assert OrderedAt(h, k); }
    }
  }

  lemma SwapDown(h: seq<Element>, i: nat, c: nat)
    requires i < c < |h| && HeapButBelow(h, i) && Parent(c) == i && h[c].due < h[i].due
    requires forall k: nat :: 0 < k < |h| && Parent(k) == i ==> h[c].due <= h[k].due
    ensures HeapButBelow(Swap(h, i, c), c)
  {
    var h' := Swap(h, i, c);
    forall k: nat | 0 < k < |h| && Parent(k) != c ensures OrderedAt(h', k) {
      if Parent(k) != i && k != i { assert OrderedAt(h, k); }
    }
    forall k: nat | 0 < k < |h| && Parent(k) == c ensures h'[Parent(c)].due <= h'[k].due {
      assert OrderedAt(h, k);
    }
  }

  lemma LastToTop(h: seq<Element>)
    requires IsHeap(h) && h != []
    ensures var n := |h| - 1;
      if n == 0 then multiset(h) == multiset{h[0]}
      else HeapButBelow(h[..n][0 := h[n]], 0) && multiset(h[..n][0 := h[n]]) == multiset(h) - multiset{h[0]}
  {
    var n := |h| - 1;
    assert h == h[..n] + [h[n]];
    if n > 0 {
      var h' := h[..n][0 := h[n]];
      forall k: nat | 0 < k < |h'| && Parent(k) != 0 ensures OrderedAt(h', k) {
        assert OrderedAt(h, k);
      }
    }
  }

  /** The child that is due first. */
  function EarlierChild(h: seq<Element>, i: nat): (c: nat)
    requires 2 * i + 1 < |h|
    ensures i < c < |h| && Parent(c) == i
    ensures forall k: nat :: 0 < k < |h| && Parent(k) == i ==> h[c].due <= h[k].due
  {
    if 2 * i + 2 < |h| && h[2 * i + 2].due < h[2 * i + 1].due then 2 * i + 2 else 2 * i + 1
  }

  // ---- push and pop ----

  /** Sift-up: the element at i changes places with its parent while it is due before it. */
  function SiftUp(h: seq<Element>, i: nat): seq<Element>
    requires i < |h|
    decreases i
  {
    if i > 0 && h[i].due < h[Parent(i)].due then SiftUp(Swap(h, i, Parent(i)), Parent(i)) else h
  }

  /** Sift-down: it changes places with the child due first while that is due before it. */
  function SiftDown(h: seq<Element>, i: nat): seq<Element>
    requires i < |h|
    decreases |h| - i
  {
    if 2 * i + 1 < |h| && h[EarlierChild(h, i)].due < h[i].due then
      SiftDown(Swap(h, i, EarlierChild(h, i)), EarlierChild(h, i))
    else h
  }

  function Pushed(h: seq<Element>, e: Element): seq<Element> {
    SiftUp(h + [e], |h|)
  }

  function Popped(h: seq<Element>): seq<Element> {
    var n := |h| - 1;
    if n <= 0 then [] else SiftDown(h[..n][0 := h[n]], 0)
  }

  lemma {:induction false} SiftUpKeeps(h: seq<Element>, i: nat)
    requires i < |h| && HeapButAt(h, i)
    ensures IsHeap(SiftUp(h, i)) && multiset(SiftUp(h, i)) == multiset(h)
    ensures |h| > 0 && (i == 0 || h[0].due <= h[i].due) ==> SiftUp(h, i)[..1] == h[..1]
    decreases i
  {
    if i > 0 && h[i].due < h[Parent(i)].due {
      SwapUp(h, i);
      SiftUpKeeps(Swap(h, i, Parent(i)), Parent(i));
    }
  }

  lemma {:induction false} SiftDownKeeps(h: seq<Element>, i: nat)
    requires i < |h| && HeapButBelow(h, i)
    ensures IsHeap(SiftDown(h, i)) && multiset(SiftDown(h, i)) == multiset(h)
    decreases |h| - i
  {
    if 2 * i + 1 < |h| && h[EarlierChild(h, i)].due < h[i].due {
      SwapDown(h, i, EarlierChild(h, i));
      SiftDownKeeps(Swap(h, i, EarlierChild(h, i)), EarlierChild(h, i));
    } else {
      forall k: nat | 0 < k < |h| ensures OrderedAt(h, k) {
        if Parent(k) == i { assert h[EarlierChild(h, i)].due <= h[k].due; }
      }
    }
  }

  /** push adds the element, and a top that is not due after it stays the top. */
  lemma PushKeeps(h: seq<Element>, e: Element)
    requires IsHeap(h)
    ensures IsHeap(Pushed(h, e)) && multiset(Pushed(h, e)) == multiset(h) + multiset{e}
    ensures Pushed(h, e) != [] && (h != [] && h[0].due <= e.due ==> Pushed(h, e)[0] == h[0])
  {
    var g := h + [e];
    forall k: nat | 0 < k < |g| && k != |h| ensures OrderedAt(g, k) { assert OrderedAt(h, k); }
    SiftUpKeeps(g, |h|);
    assert |multiset(Pushed(h, e))| == |g|;
    if h != [] && h[0].due <= e.due { assert Pushed(h, e)[..1][0] == g[..1][0] == h[0]; }
  }

  /** pop removes the top. */
  lemma PopKeeps(h: seq<Element>)
    requires IsHeap(h) && h != []
    ensures IsHeap(Popped(h)) && multiset(Popped(h)) + multiset{h[0]} == multiset(h)
  {
    LastToTop(h);
    if |h| > 1 { SiftDownKeeps(h[..|h| - 1][0 := h[|h| - 1]], 0); }
  }

  // ---- One turn of the loop ----

  function Stamps(pushes: seq<Push>, tick: int): seq<Element> {
    if pushes == [] then []
    else Stamps(pushes[..|pushes| - 1], tick) + [Stamp(pushes[|pushes| - 1], tick)]
  }

  /** The calls of PushTimerJob made by one job, in order. */
  function PushedAll(h: seq<Element>, pushes: seq<Push>, tick: int): seq<Element> {
    if pushes == [] then h
    else Pushed(PushedAll(h, pushes[..|pushes| - 1], tick), Stamp(pushes[|pushes| - 1], tick))
  }

  predicate DueTop(h: seq<Element>, now: int) {
    h != [] && h[0].due <= now
  }

  /** The job of the top runs and makes these calls, and then the top is popped. */
  function Turn(h: seq<Element>, pushes: seq<Push>, now: int): seq<Element> {
    Popped(PushedAll(h, pushes, now))
  }

  lemma {:induction false} StampsAreLater(pushes: seq<Push>, tick: int, e: Element)
    requires e in multiset(Stamps(pushes, tick))
    ensures tick <= e.due
  {
    var n := |pushes| - 1;
    if e != Stamp(pushes[n], tick) { StampsAreLater(pushes[..n], tick, e); }
  }

  /** Whatever the job pushes, the dispatched element is still the top. */
  lemma {:induction false} PushAllKeeps(h: seq<Element>, pushes: seq<Push>, now: int)
    requires IsHeap(h) && DueTop(h, now)
    ensures var g := PushedAll(h, pushes, now);
      IsHeap(g) && g != [] && g[0] == h[0] && multiset(g) == multiset(h) + multiset(Stamps(pushes, now))
  {
    if pushes != [] {
      var front := pushes[..|pushes| - 1];
      PushAllKeeps(h, front, now);
      PushKeeps(PushedAll(h, front, now), Stamp(pushes[|pushes| - 1], now));
    }
  }

  /** A turn removes exactly the element it dispatched, even among ties. */
  lemma TurnKeeps(h: seq<Element>, pushes: seq<Push>, now: int)
    requires IsHeap(h) && DueTop(h, now)
    ensures var h' := Turn(h, pushes, now);
      && IsHeap(h') && multiset(h') + multiset{h[0]} == multiset(h) + multiset(Stamps(pushes, now))
      && NothingBefore(h', h[0].due)
  {
    PushAllKeeps(h, pushes, now);
    PopKeeps(PushedAll(h, pushes, now));
    NothingBeforeTop(h);
    var h' := Turn(h, pushes, now);
    forall e: Element | e in multiset(h') ensures h[0].due <= e.due {
      assert e in multiset(h') + multiset{h[0]};
      if e !in multiset(h) { StampsAreLater(pushes, now, e); }
    }
  }

  // ---- Passes ----

  /** The calls made by the jobs of a pass, in the order of their dispatch, without end. */
  type Script = nat -> seq<Push>

  /** The heap after n turns, or after fewer if the loop has ended by then. */
  function AfterTurns(first: seq<Element>, script: Script, now: int, n: nat): seq<Element> {
    if n == 0 then first
    else
      var h := AfterTurns(first, script, now, n - 1);
      if DueTop(h, now) then Turn(h, script(n - 1), now) else h
  }

  /** The elements dispatched in them. */
  function Dispatched(first: seq<Element>, script: Script, now: int, n: nat): seq<Element> {
    if n == 0 then []
    else
      var h := AfterTurns(first, script, now, n - 1);
      Dispatched(first, script, now, n - 1) + if DueTop(h, now) then [h[0]] else []
  }

  /** The loop is still going after n turns. */
  predicate GoesOn(first: seq<Element>, script: Script, now: int, n: nat) {
    DueTop(AfterTurns(first, script, now, n), now)
  }

  /** What the first n dispatched jobs push. */
  function AllStamps(script: Script, n: nat, tick: int): seq<Element> {
    if n == 0 then [] else AllStamps(script, n - 1, tick) + Stamps(script(n - 1), tick)
  }

  ghost predicate NoneEarly(s: seq<Element>, now: int) {
    forall i :: 0 <= i < |s| ==> s[i].due <= now
  }

  ghost predicate InDueOrder(s: seq<Element>) {
    forall i, j :: 0 <= i < j < |s| ==> s[i].due <= s[j].due
  }

  /** Where a pass over the heap first, now left as h, is when it has dispatched
      ds: none was early, they came in due order, and every element ever in the
      heap was dispatched once or is still there. */
  ghost predicate PassSoFar(first: seq<Element>, h: seq<Element>, ds: seq<Element>, script: Script, now: int) {
    && NoneEarly(ds, now) && InDueOrder(ds) && (ds != [] ==> NothingBefore(h, ds[|ds| - 1].due))
    && multiset(h) + multiset(ds) == multiset(first) + multiset(AllStamps(script, |ds|, now))
  }

  lemma PassGoesOn(first: seq<Element>, h: seq<Element>, ds: seq<Element>, script: Script, now: int)
    requires IsHeap(h) && DueTop(h, now) && PassSoFar(first, h, ds, script, now)
    ensures PassSoFar(first, Turn(h, script(|ds|), now), ds + [h[0]], script, now)
  {
    TurnKeeps(h, script(|ds|), now);
    OrderGoesOn(h, ds, now);
    CountsGoOn(multiset(first), multiset(h), multiset(Turn(h, script(|ds|), now)), ds, script, now, h[0]);
    hide Turn;
    hide AllStamps;
    hide Stamps;
    hide NoneEarly;
    hide InDueOrder;
    hide NothingBefore;
    hide IsHeap;
  }

  lemma CountsGoOn(first: multiset<Element>, before: multiset<Element>, after: multiset<Element>, ds: seq<Element>,
                   script: Script, now: int, top: Element)
    requires before + multiset(ds) == first + multiset(AllStamps(script, |ds|, now))
    requires after + multiset{top} == before + multiset(Stamps(script(|ds|), now))
    ensures after + multiset(ds + [top]) == first + multiset(AllStamps(script, |ds + [top]|, now))
  {
    var old', stamps := AllStamps(script, |ds|, now), Stamps(script(|ds|), now);
    assert AllStamps(script, |ds + [top]|, now) == old' + stamps;
    hide AllStamps;
    hide Stamps;
    Balance(after, before, first, multiset(ds), multiset(old'), multiset(stamps), top);
    Sums(ds, [top]);
    Sums(old', stamps);
  }

  lemma Sums(a: seq<Element>, b: seq<Element>)
    ensures multiset(a + b) == multiset(a) + multiset(b)
  {
  }

  lemma OrderGoesOn(before: seq<Element>, ds: seq<Element>, now: int)
    requires before != [] && before[0].due <= now && NoneEarly(ds, now) && InDueOrder(ds)
    requires ds != [] ==> NothingBefore(before, ds[|ds| - 1].due)
    ensures InDueOrder(ds + [before[0]]) && NoneEarly(ds + [before[0]], now)
  {
    assert before[0] in multiset(before);
  }

  lemma Balance(after: multiset<Element>, before: multiset<Element>, first: multiset<Element>, ds: multiset<Element>,
                pushed: multiset<Element>, stamps: multiset<Element>, top: Element)
    requires after + multiset{top} == before + stamps && before + ds == first + pushed
    ensures after + (ds + multiset{top}) == first + (pushed + stamps)
  {
    forall e ensures (after + (ds + multiset{top}))[e] == (first + (pushed + stamps))[e] {
      assert (after + multiset{top})[e] == (before + stamps)[e] && (before + ds)[e] == (first + pushed)[e];
    }
  }

  /** Once the loop has ended it stays ended. */
  lemma {:induction false} EndedStays(first: seq<Element>, script: Script, now: int, m: nat, n: nat)
    requires m <= n && !GoesOn(first, script, now, m)
    ensures AfterTurns(first, script, now, n) == AfterTurns(first, script, now, m)
    ensures Dispatched(first, script, now, n) == Dispatched(first, script, now, m)
    decreases n
  {
    if m < n { EndedStays(first, script, now, m, n - 1); }
  }

  lemma WentOn(first: seq<Element>, script: Script, now: int, m: nat, n: nat)
    requires m <= n && GoesOn(first, script, now, n)
    ensures GoesOn(first, script, now, m)
  {
    if !GoesOn(first, script, now, m) { EndedStays(first, script, now, m, n); }
  }

  /** The loop has made |ds| turns, dispatched ds and left h. */
  ghost predicate TurnsMade(first: seq<Element>, script: Script, now: int, h: seq<Element>, ds: seq<Element>) {
    && h == AfterTurns(first, script, now, |ds|) && ds == Dispatched(first, script, now, |ds|)
    && (ds != [] ==> GoesOn(first, script, now, |ds| - 1))
  }

  lemma OneTurnMore(first: seq<Element>, script: Script, now: int, h: seq<Element>, ds: seq<Element>)
    requires TurnsMade(first, script, now, h, ds) && DueTop(h, now)
    ensures TurnsMade(first, script, now, Turn(h, script(|ds|), now), ds + [h[0]])
  {
    hide Turn;
  }

  lemma NoTurnMore(first: seq<Element>, script: Script, now: int, h: seq<Element>, ds: seq<Element>, n: nat)
    requires TurnsMade(first, script, now, h, ds) && |ds| <= n && (|ds| < n ==> !DueTop(h, now))
    ensures h == AfterTurns(first, script, now, n) && ds == Dispatched(first, script, now, n)
  {
    if |ds| < n { EndedStays(first, script, now, |ds|, n); }
  }

  // ---- How long a pass lasts ----

  /** The due elements of a heap, and how many there are. */
  function DueOf(h: seq<Element>, now: int): seq<Element> {
    if h == [] then []
    else DueOf(h[..|h| - 1], now) + if h[|h| - 1].due <= now then [h[|h| - 1]] else []
  }

  function DueCount(h: seq<Element>, now: int): nat {
    |DueOf(h, now)|
  }

  function ZeroDelays(pushes: seq<Push>): nat {
    if pushes == [] then 0
    else ZeroDelays(pushes[..|pushes| - 1]) + if pushes[|pushes| - 1].after == 0 then 1 else 0
  }

  /** The calls without delay among those of the first n dispatched jobs. */
  function AllZeroDelays(script: Script, n: nat): nat {
    if n == 0 then 0 else AllZeroDelays(script, n - 1) + ZeroDelays(script(n - 1))
  }

  lemma {:induction false} DueOfJoined(a: seq<Element>, b: seq<Element>, now: int)
    ensures DueOf(a + b, now) == DueOf(a, now) + DueOf(b, now)
  {
    if b == [] {
      assert a + [] == a;
    } else {
      DueOfJoined(a, b[..|b| - 1], now);
      assert (a + b)[..|a + b| - 1] == a + b[..|b| - 1];
    }
  }

  lemma {:induction false} DueOfCounts(h: seq<Element>, now: int, e: Element)
    ensures multiset(DueOf(h, now))[e] == if e.due <= now then multiset(h)[e] else 0
  {
    if h != [] {
      DueOfCounts(h[..|h| - 1], now, e);
      assert h == h[..|h| - 1] + [h[|h| - 1]];
    }
  }

  lemma SameElementsSameDue(a: seq<Element>, b: seq<Element>, now: int)
    requires multiset(a) == multiset(b)
    ensures multiset(DueOf(a, now)) == multiset(DueOf(b, now)) && DueCount(a, now) == DueCount(b, now)
  {
    var x, y := DueOf(a, now), DueOf(b, now);
    forall e ensures multiset(x)[e] == multiset(y)[e] {
      DueOfCounts(a, now, e);
      DueOfCounts(b, now, e);
    }
    hide DueOf;
    assert |multiset(x)| == |x| && |multiset(y)| == |y|;
  }

  /** A stamp is due at once exactly if its delay is zero. */
  lemma {:induction false} StampsDue(pushes: seq<Push>, now: int)
    ensures DueCount(Stamps(pushes, now), now) == ZeroDelays(pushes)
  {
    if pushes != [] {
      var front := pushes[..|pushes| - 1];
      StampsDue(front, now);
      var last := [Stamp(pushes[|pushes| - 1], now)];
      DueOfJoined(Stamps(front, now), last, now);
      assert last[..0] == [];
    }
  }

  lemma DueTopIff(h: seq<Element>, now: int)
    requires IsHeap(h)
    ensures DueTop(h, now) <==> DueCount(h, now) > 0
  {
    if h != [] {
      DueOfCounts(h, now, h[0]);
      if DueCount(h, now) > 0 {
        var e := DueOf(h, now)[0];
        assert e in multiset(DueOf(h, now));
        DueOfCounts(h, now, e);
        NothingBeforeTop(h);
      }
    }
  }

  /** A turn takes one due element away and adds its job's calls without delay. */
  lemma TurnCounts(h: seq<Element>, pushes: seq<Push>, now: int)
    requires IsHeap(h) && DueTop(h, now)
    ensures DueCount(Turn(h, pushes, now), now) == DueCount(h, now) + ZeroDelays(pushes) - 1
  {
    var h', stamps := Turn(h, pushes, now), Stamps(pushes, now);
    TurnKeeps(h, pushes, now);
    StampsDue(pushes, now);
    hide Turn;
    hide Stamps;
    hide ZeroDelays;
    SameElementsSameDue(h' + [h[0]], h + stamps, now);
    DueOfJoined(h', [h[0]], now);
    DueOfJoined(h, stamps, now);
    assert [h[0]][..0] == [];
  }

  /** While the loop goes on, n turns have dispatched n elements as they should,
      and the due elements left are those at first, plus the calls without delay, less n. */
  lemma {:induction false} TurnsKeep(first: seq<Element>, script: Script, now: int, n: nat)
    requires IsHeap(first) && (n > 0 ==> GoesOn(first, script, now, n - 1))
    ensures var h, ds := AfterTurns(first, script, now, n), Dispatched(first, script, now, n);
      && IsHeap(h) && |ds| == n && PassSoFar(first, h, ds, script, now)
      && DueCount(h, now) == DueCount(first, now) + AllZeroDelays(script, n) - n
  {
    if n > 0 {
      if n > 1 { WentOn(first, script, now, n - 2, n - 1); }
      TurnsKeep(first, script, now, n - 1);
      var h, ds := AfterTurns(first, script, now, n - 1), Dispatched(first, script, now, n - 1);
      TurnKeeps(h, script(n - 1), now);
      TurnCounts(h, script(n - 1), now);
      PassGoesOn(first, h, ds, script, now);
      hide PassSoFar;
      hide IsHeap;
      hide Turn;
      hide DueCount;
    }
  }

  /** More elements were or became due than m turns could dispatch. */
  predicate MoreThan(first: seq<Element>, script: Script, now: int, m: nat) {
    DueCount(first, now) + AllZeroDelays(script, m) > m
  }

  /** m turns could dispatch exactly what was due or became due. */
  predicate CaughtUp(first: seq<Element>, script: Script, now: int, m: nat) {
    DueCount(first, now) + AllZeroDelays(script, m) == m
  }

  /** After n turns the loop still has a due top exactly when no m up to n has caught up with what was due. */
  lemma {:induction false} GoesOnIff(first: seq<Element>, script: Script, now: int, n: nat)
    requires IsHeap(first)
    ensures GoesOn(first, script, now, n) <==> forall m: nat :: m <= n ==> MoreThan(first, script, now, m)
  {
    if n > 0 {
      GoesOnIff(first, script, now, n - 1);
      if !GoesOn(first, script, now, n - 1) { EndedStays(first, script, now, n - 1, n); }
    }
    if n == 0 || GoesOn(first, script, now, n - 1) { GoesOnAt(first, script, now, n); }
    hide MoreThan;
    hide AfterTurns;
    hide IsHeap;
  }

  lemma GoesOnAt(first: seq<Element>, script: Script, now: int, n: nat)
    requires IsHeap(first) && (n > 0 ==> GoesOn(first, script, now, n - 1))
    ensures GoesOn(first, script, now, n) <==> MoreThan(first, script, now, n)
  {
    TurnsKeep(first, script, now, n);
    DueTopIff(AfterTurns(first, script, now, n), now);
    hide AfterTurns;
  }

  lemma NotCaughtUp(first: seq<Element>, script: Script, now: int, h: seq<Element>, ds: seq<Element>, last: nat)
    requires IsHeap(first) && TurnsMade(first, script, now, h, ds) && DueTop(h, now)
    requires CaughtUp(first, script, now, last)
    ensures |ds| < last
  {
    GoesOnIff(first, script, now, |ds|);
    assert !MoreThan(first, script, now, last);
  }

  /** n dispatches catch up with what was due, and no fewer do. */
  ghost predicate IsLength(first: seq<Element>, script: Script, now: int, n: nat) {
    CaughtUp(first, script, now, n) && forall m: nat :: m < n ==> !CaughtUp(first, script, now, m)
  }

  /** The dispatches cannot overtake what is due. */
  lemma {:induction false} NoOvertaking(first: seq<Element>, script: Script, now: int, n: nat)
    requires forall m: nat :: m < n ==> !CaughtUp(first, script, now, m)
    ensures DueCount(first, now) + AllZeroDelays(script, n) >= n
    ensures forall m: nat :: m < n ==> MoreThan(first, script, now, m)
  {
    if n > 0 {
      NoOvertaking(first, script, now, n - 1);
      assert !CaughtUp(first, script, now, n - 1);
      assert MoreThan(first, script, now, n - 1);
    }
  }

  /** A pass ends after exactly n dispatches if and only if n is the least number
      of dispatches that catches up with what was due. */
  lemma EndsAfterIff(first: seq<Element>, script: Script, now: int, n: nat)
    requires IsHeap(first)
    ensures IsLength(first, script, now, n) <==>
      !GoesOn(first, script, now, n) && forall m: nat :: m < n ==> GoesOn(first, script, now, m)
  {
    forall m: nat | m <= n
      ensures GoesOn(first, script, now, m) <==> forall j: nat :: j <= m ==> MoreThan(first, script, now, j)
    {
      GoesOnIff(first, script, now, m);
    }
    if IsLength(first, script, now, n) {
      NoOvertaking(first, script, now, n);
      assert !MoreThan(first, script, now, n);
    }
    if !GoesOn(first, script, now, n) && forall m: nat :: m < n ==> GoesOn(first, script, now, m) {
      forall m: nat | m < n ensures MoreThan(first, script, now, m) && !CaughtUp(first, script, now, m) {
        assert GoesOn(first, script, now, m);
      }
      NoOvertaking(first, script, now, n);
      assert !MoreThan(first, script, now, n);
    }
  }

  /** A pass ends if and only if some number of dispatches catches up with what
      was due at first and what their jobs made due; otherwise it has a due top
      after any number of dispatches. */
  lemma PassEndsIff(first: seq<Element>, script: Script, now: int)
    requires IsHeap(first)
    ensures (exists n: nat :: !GoesOn(first, script, now, n)) <==>
      exists n: nat :: CaughtUp(first, script, now, n)
  {
    if n: nat :| !GoesOn(first, script, now, n) {
      GoesOnIff(first, script, now, n);
      var m: nat :| m <= n && !MoreThan(first, script, now, m);
      CatchesUp(first, script, now, m);
    }
    if n: nat :| CaughtUp(first, script, now, n) {
      GoesOnIff(first, script, now, n);
      assert !MoreThan(first, script, now, n);
    }
  }

  lemma CatchesUp(first: seq<Element>, script: Script, now: int, m: nat)
    requires !MoreThan(first, script, now, m)
    ensures exists n: nat :: CaughtUp(first, script, now, n)
  {
    if forall j: nat :: j < m ==> !CaughtUp(first, script, now, j) {
      NoOvertaking(first, script, now, m);
      assert CaughtUp(first, script, now, m);
    }
  }

  // ---- Delays of at least one tick, and of none ----

  /** Every re-push asks for at least one tick of delay. */
  ghost predicate NoZeroDelay(script: Script) {
    forall i: nat, j: nat :: j < |script(i)| ==> script(i)[j].after >= 1
  }

  lemma {:induction false} DelayedAreNotZero(pushes: seq<Push>)
    requires forall j: nat :: j < |pushes| ==> pushes[j].after >= 1
    ensures ZeroDelays(pushes) == 0
  {
    if pushes != [] { DelayedAreNotZero(pushes[..|pushes| - 1]); }
  }

  lemma {:induction false} NoneAtOnce(script: Script, n: nat)
    requires NoZeroDelay(script)
    ensures AllZeroDelays(script, n) == 0
  {
    if n > 0 {
      NoneAtOnce(script, n - 1);
      DelayedAreNotZero(script(n - 1));
    }
  }

  lemma {:induction false} NoneDueAtOnce(script: Script, n: nat, now: int)
    ensures DueCount(AllStamps(script, n, now), now) == AllZeroDelays(script, n)
  {
    if n > 0 {
      NoneDueAtOnce(script, n - 1, now);
      StampsDue(script(n - 1), now);
      DueOfJoined(AllStamps(script, n - 1, now), Stamps(script(n - 1), now), now);
    }
  }

  /** When every re-push asks for at least one tick, however many there are, a
      pass dispatches exactly the elements that were due when it began, and ends. */
  lemma DelayedPassIsExact(first: seq<Element>, script: Script, now: int)
    requires IsHeap(first) && NoZeroDelay(script)
    ensures var n := DueCount(first, now);
      && IsLength(first, script, now, n) && !GoesOn(first, script, now, n)
      && multiset(Dispatched(first, script, now, n)) == multiset(DueOf(first, now))
  {
    var n := DueCount(first, now);
    forall m: nat ensures AllZeroDelays(script, m) == 0 { NoneAtOnce(script, m); }
    assert IsLength(first, script, now, n);
    EndsAfterIff(first, script, now, n);
    TurnsKeep(first, script, now, n);
    NoneDueAtOnce(script, n, now);
    var h, ds, stamps := AfterTurns(first, script, now, n), Dispatched(first, script, now, n), AllStamps(script, n, now);
    DueTopIff(h, now);
    hide AfterTurns;
    hide Dispatched;
    hide AllStamps;
    hide GoesOn;
    hide IsLength;
    DispatchedIsDue(first, h, ds, stamps, now);
  }

  lemma DispatchedIsDue(first: seq<Element>, h: seq<Element>, ds: seq<Element>, stamps: seq<Element>, now: int)
    requires NoneEarly(ds, now) && DueCount(h, now) == 0 && DueCount(stamps, now) == 0
    requires multiset(h) + multiset(ds) == multiset(first) + multiset(stamps)
    ensures multiset(ds) == multiset(DueOf(first, now))
  {
    forall e ensures multiset(ds)[e] == multiset(DueOf(first, now))[e] {
      DueOfCounts(h, now, e);
      DueOfCounts(stamps, now, e);
      DueOfCounts(first, now, e);
      assert (multiset(h) + multiset(ds))[e] == (multiset(first) + multiset(stamps))[e];
      assert e in multiset(ds) ==> e.due <= now;
    }
  }

  /** A pass over the heap first that dispatched ds and left h: none was early,
      none due is left, they came in due order, every element ever in the heap
      was dispatched once or is still there, without calls that ask for no delay
      exactly those due at first were dispatched, and of those in the heap at
      first all that were due and no others. */
  ghost predicate PassDone(first: seq<Element>, h: seq<Element>, ds: seq<Element>, script: Script, now: int) {
    && NoneEarly(ds, now) && (forall e: Element :: e in multiset(h) ==> now < e.due) && InDueOrder(ds)
    && multiset(h) + multiset(ds) == multiset(first) + multiset(AllStamps(script, |ds|, now))
    && (NoZeroDelay(script) ==> multiset(ds) == multiset(DueOf(first, now)))
    && (forall e: Element :: e in multiset(first) ==> (e in multiset(ds) <==> e.due <= now))
  }

  /** What holds when the loop ends. */
  lemma PassIsOver(first: seq<Element>, script: Script, now: int, h: seq<Element>, ds: seq<Element>)
    requires IsHeap(first) && TurnsMade(first, script, now, h, ds) && !DueTop(h, now)
    ensures IsLength(first, script, now, |ds|) && PassDone(first, h, ds, script, now)
  {
    LengthOfPass(first, script, now, |ds|);
    TurnsKeep(first, script, now, |ds|);
    if NoZeroDelay(script) {
      DelayedPassIsExact(first, script, now);
      SameLength(first, script, now, |ds|, DueCount(first, now));
    }
    hide AfterTurns;
    hide Dispatched;
    hide IsLength;
    hide NoZeroDelay;
    hide DueOf;
    hide PassSoFar;
    hide PassDone;
    hide IsHeap;
    NothingMoreIsDue(first, h, ds, script, now);
  }

  lemma NothingMoreIsDue(first: seq<Element>, h: seq<Element>, ds: seq<Element>, script: Script, now: int)
    requires IsHeap(h) && !DueTop(h, now) && PassSoFar(first, h, ds, script, now)
    requires NoZeroDelay(script) ==> multiset(ds) == multiset(DueOf(first, now))
    ensures PassDone(first, h, ds, script, now)
  {
    NothingDueIsLeft(h, now);
    hide IsHeap;
    hide NoZeroDelay;
    hide DueOf;
    hide AllStamps;
    FirstOnesDispatched(first, h, ds, AllStamps(script, |ds|, now), now);
    hide NoneEarly;
    hide InDueOrder;
  }

  lemma FirstOnesDispatched(first: seq<Element>, h: seq<Element>, ds: seq<Element>, stamps: seq<Element>, now: int)
    requires NoneEarly(ds, now) && (forall e: Element :: e in multiset(h) ==> now < e.due)
    requires multiset(h) + multiset(ds) == multiset(first) + multiset(stamps)
    ensures forall e: Element :: e in multiset(first) ==> (e in multiset(ds) <==> e.due <= now)
  {
    forall e: Element | e in multiset(first) ensures e in multiset(ds) <==> e.due <= now {
      assert e in multiset(first) + multiset(stamps);
      assert e in multiset(h) || e in multiset(ds);
    }
  }

  /** A timer pushed at tick T with a delay is dispatched by a later pass that
      ends at tick now exactly if the delay is over by then. */
  lemma PushedIsDispatchedIff(h: seq<Element>, p: Push, T: int, script: Script, now: int,
                              left: seq<Element>, ds: seq<Element>)
    requires IsHeap(h)
    requires TurnsMade(Pushed(h, Stamp(p, T)), script, now, left, ds) && !DueTop(left, now)
    ensures Element(p.owner, p.task, T + p.after) in multiset(ds) <==> T + p.after <= now
  {
    PushKeeps(h, Stamp(p, T));
    PassIsOver(Pushed(h, Stamp(p, T)), script, now, left, ds);
    assert Element(p.owner, p.task, T + p.after) in multiset(Pushed(h, Stamp(p, T)));
    hide IsHeap;
    hide TurnsMade;
    hide Pushed;
    hide AllStamps;
  }

  lemma NothingDueIsLeft(h: seq<Element>, now: int)
    requires IsHeap(h) && !DueTop(h, now)
    ensures forall e: Element :: e in multiset(h) ==> now < e.due
  {
    if h != [] { NothingBeforeTop(h); }
  }

  lemma LengthOfPass(first: seq<Element>, script: Script, now: int, n: nat)
    requires IsHeap(first) && !GoesOn(first, script, now, n) && (n > 0 ==> GoesOn(first, script, now, n - 1))
    ensures IsLength(first, script, now, n)
  {
    forall m: nat | m < n ensures GoesOn(first, script, now, m) { WentOn(first, script, now, m, n - 1); }
    EndsAfterIff(first, script, now, n);
  }

  lemma SameLength(first: seq<Element>, script: Script, now: int, m: nat, n: nat)
    requires IsLength(first, script, now, m) && IsLength(first, script, now, n)
    ensures m == n
  {
  }

  lemma {:induction false} KeptBusy(script: Script, n: nat)
    requires forall i: nat :: ZeroDelays(script(i)) >= 1
    ensures AllZeroDelays(script, n) >= n
  {
    if n > 0 { KeptBusy(script, n - 1); }
  }

  /** When every job pushes something without delay, itself for instance, a pass
      that begins at all never ends. */
  lemma ZeroDelayNeverEnds(first: seq<Element>, script: Script, now: int, n: nat)
    requires IsHeap(first) && DueTop(first, now)
    requires forall i: nat :: ZeroDelays(script(i)) >= 1
    ensures GoesOn(first, script, now, n) && |Dispatched(first, script, now, n)| == n
  {
    DueTopIff(first, now);
    forall m: nat ensures MoreThan(first, script, now, m) { KeptBusy(script, m); }
    GoesOnIff(first, script, now, n);
    if n > 0 { GoesOnIff(first, script, now, n - 1); }
    TurnsKeep(first, script, now, n);
  }

  /** The job dispatched in turn i pushes itself again without delay. */
  ghost predicate RepushesItself(first: seq<Element>, script: Script, now: int, i: nat) {
    GoesOn(first, script, now, i) ==>
      var e := AfterTurns(first, script, now, i)[0];
      script(i) == [Push(e.owner, e.task, 0)]
  }

  /** A pass whose jobs push themselves again without delay never ends. */
  lemma {:induction false} SelfRepushNeverEnds(first: seq<Element>, script: Script, now: int, n: nat)
    requires IsHeap(first) && DueTop(first, now)
    requires forall i: nat :: RepushesItself(first, script, now, i)
    ensures GoesOn(first, script, now, n) && !CaughtUp(first, script, now, n)
  {
    if n == 0 {
      GoesOnAt(first, script, now, 0);
    } else {
      SelfRepushNeverEnds(first, script, now, n - 1);
      assert RepushesItself(first, script, now, n - 1);
      GoesOnIff(first, script, now, n - 1);
      assert MoreThan(first, script, now, n - 1);
      OneZero(script(n - 1));
      GoesOnAt(first, script, now, n);
      hide GoesOn;
      hide DueCount;
      hide ZeroDelays;
    }
  }

  lemma OneZero(pushes: seq<Push>)
    requires |pushes| == 1 && pushes[0].after == 0
    ensures ZeroDelays(pushes) == 1
  {
    assert pushes[..0] == [];
  }

  /** Knowing only that the queue is some heap of the same elements, top() is
      sure to return the element returned before exactly when nothing else is
      due at the same tick. With ties, the pop after the dispatch is right only
      because sift-up leaves the top in its place. */
  lemma TopIsForcedIffNoTie(h: seq<Element>)
    requires IsHeap(h) && h != []
    ensures (forall g: seq<Element> :: IsHeap(g) && multiset(g) == multiset(h) && g != [] ==> g[0] == h[0])
      <==> (forall k :: 0 <= k < |h| && h[k] != h[0] ==> h[0].due < h[k].due)
  {
    NothingBeforeTop(h);
    if k: nat :| k < |h| && h[k] != h[0] && h[k].due <= h[0].due {
      var g := Swap(h, 0, k);
      TopIsFirst(h, k);
      forall i: nat | 0 < i < |g| ensures OrderedAt(g, i) { assert OrderedAt(h, i); }
      assert IsHeap(g) && g[0] != h[0];
    } else {
      forall g: seq<Element> | IsHeap(g) && multiset(g) == multiset(h) && g != [] ensures g[0] == h[0] {
        NothingBeforeTop(g);
        assert g[0] in multiset(h) && h[0] in multiset(g);
        var k :| 0 <= k < |h| && h[k] == g[0];
      }
    }
  }

  class Timer {
    var mTimerJobQueue: seq<Element>
    var tick: int

    ghost predicate Valid()
      reads this
    {
      IsHeap(mTimerJobQueue)
    }

    constructor (now: int)
      ensures Valid() && mTimerJobQueue == [] && tick == now
    {
      mTimerJobQueue, tick := [], now;
    }

    /** Appends and sifts up. */
    method PushTimerJob(p: Push)
      requires Valid()
      modifies this`mTimerJobQueue
      ensures Valid() && mTimerJobQueue == Pushed(old(mTimerJobQueue), Stamp(p, tick))
      ensures multiset(mTimerJobQueue) ==
        multiset(old(mTimerJobQueue)) + multiset{Element(p.owner, p.task, tick + p.after)}
      ensures old(mTimerJobQueue) != [] && old(mTimerJobQueue)[0].due <= tick + p.after ==>
        mTimerJobQueue != [] && mTimerJobQueue[0] == old(mTimerJobQueue)[0]
    {
      PushKeeps(mTimerJobQueue, Stamp(p, tick));
      var h := mTimerJobQueue + [Stamp(p, tick)];
      var i := |h| - 1;
      while i > 0 && h[i].due < h[Parent(i)].due
        invariant 0 <= i < |h| && SiftUp(h, i) == Pushed(mTimerJobQueue, Stamp(p, tick))
      {
        h, i := Swap(h, i, Parent(i)), Parent(i);
      }
      mTimerJobQueue := h;
    }

    /** Moves the last element to the top and sifts it down. */
    method Pop()
      requires Valid() && mTimerJobQueue != []
      modifies this`mTimerJobQueue
      ensures Valid() && mTimerJobQueue == Popped(old(mTimerJobQueue))
      ensures multiset(mTimerJobQueue) + multiset{old(mTimerJobQueue)[0]} == multiset(old(mTimerJobQueue))
    {
      PopKeeps(mTimerJobQueue);
      var n := |mTimerJobQueue| - 1;
      if n == 0 {
        mTimerJobQueue := [];
        return;
      }
      var h := mTimerJobQueue[..n][0 := mTimerJobQueue[n]];
      var i := 0;
      while 2 * i + 1 < |h| && h[EarlierChild(h, i)].due < h[i].due
        invariant 0 <= i < |h| && SiftDown(h, i) == Popped(mTimerJobQueue)
        decreases |h| - i
      {
        h, i := Swap(h, i, EarlierChild(h, i)), EarlierChild(h, i);
      }
      mTimerJobQueue := h;
    }

    /** One turn of the loop: the job of the top makes these calls, then the top is popped. */
    method DispatchTop(pushes: seq<Push>)
      requires Valid() && DueTop(mTimerJobQueue, tick)
      modifies this`mTimerJobQueue
      ensures Valid() && mTimerJobQueue == Turn(old(mTimerJobQueue), pushes, tick)
    {
      ghost var h := mTimerJobQueue;
      TurnKeeps(h, pushes, tick);
      PushAllKeeps(h, pushes, tick);
      for i := 0 to |pushes|
        invariant Valid() && mTimerJobQueue == PushedAll(h, pushes[..i], tick)
      {
        assert pushes[..i + 1][..i] == pushes[..i];
        PushTimerJob(pushes[i]);
      }
      assert pushes[..|pushes|] == pushes;
      Pop();
    }

    /** The first turns of the loop, at most n, whatever its jobs push. */
    method DoTurns(now: int, script: Script, n: nat) returns (ds: seq<Element>)
      requires Valid()
      modifies this
      ensures Valid() && tick == now
      ensures mTimerJobQueue == AfterTurns(old(mTimerJobQueue), script, now, n)
      ensures ds == Dispatched(old(mTimerJobQueue), script, now, n)
    {
      ghost var first := mTimerJobQueue;
      tick := now;
      ds := [];
      assert TurnsMade(first, script, now, mTimerJobQueue, ds);
      hide TurnsMade;
      hide AfterTurns;
      hide Dispatched;
      hide Turn;
      hide IsHeap;
      while |ds| < n && DueTop(mTimerJobQueue, tick)
        invariant Valid() && tick == now && |ds| <= n && TurnsMade(first, script, now, mTimerJobQueue, ds)
        decreases n - |ds|
      {
        OneTurnMore(first, script, now, mTimerJobQueue, ds);
        var top := mTimerJobQueue[0];
        DispatchTop(script(|ds|));
        ds := ds + [top];
      }
      NoTurnMore(first, script, now, mTimerJobQueue, ds, n);
    }

    /** One pass of the loop at tick now, when its jobs push what the script
        says, without end. It is given that the pass ends, which PassEndsIff
        decides; one that does not is described by DoTurns. */
    method DoTimerJob(now: int, script: Script) returns (ds: seq<Element>)
      requires Valid()
      requires exists n: nat :: CaughtUp(mTimerJobQueue, script, now, n)
      modifies this
      ensures Valid() && tick == now
      ensures IsLength(old(mTimerJobQueue), script, now, |ds|)
      ensures TurnsMade(old(mTimerJobQueue), script, now, mTimerJobQueue, ds)
      ensures PassDone(old(mTimerJobQueue), mTimerJobQueue, ds, script, now)
    {
      ghost var first := mTimerJobQueue;
      ghost var last: nat :| CaughtUp(first, script, now, last);
      tick := now;
      ds := [];
      assert TurnsMade(first, script, now, mTimerJobQueue, ds);
      hide CaughtUp;
      hide TurnsMade;
      hide PassDone;
      hide IsLength;
      hide Turn;
      hide IsHeap;
      while DueTop(mTimerJobQueue, tick)
        invariant Valid() && tick == now && |ds| <= last && TurnsMade(first, script, now, mTimerJobQueue, ds)
        decreases last - |ds|
      {
        NotCaughtUp(first, script, now, mTimerJobQueue, ds, last);
        OneTurnMore(first, script, now, mTimerJobQueue, ds);
        var top := mTimerJobQueue[0];
        DispatchTop(script(|ds|));
        ds := ds + [top];
      }
      PassIsOver(first, script, now, mTimerJobQueue, ds);
    }
  }
}
