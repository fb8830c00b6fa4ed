/** What the two-region byte buffer does, as functions on values: the older
    bytes are in region A, newer ones may be in region B before it. Offsets
    stand for the source's pointers into mBuffer. */
module Ring {
  import opened Option

  newtype byte = x: int | 0 <= x < 256

  datatype Ring = Ring(mem: seq<byte>, a: nat, aSize: nat, b: Option<nat>, bSize: nat)

  function Fresh(mem: seq<byte>): Ring {
    Ring(mem, 0, 0, None, 0)
  }

  predicate Valid(r: Ring) {
    && r.a + r.aSize <= |r.mem|
    && (r.aSize == 0 ==> r.a == 0 && r.b == None)
    && (match r.b
        case None => r.bSize == 0
        // B starts at the front, ends before A, and was opened because it had more room than the end
        case Some(p) => p == 0 && r.bSize <= r.a && AFree(r) < r.a)
  }

  /** The unread bytes, oldest first. */
  function Contents(r: Ring): seq<byte>
    requires Valid(r)
  {
    r.mem[r.a..r.a + r.aSize] + r.mem[..r.bSize]
  }

  function StoredSize(r: Ring): nat { r.aSize + r.bSize }

  function AFree(r: Ring): int { |r.mem| - r.a - r.aSize }

  function BFree(r: Ring): int {
    match r.b
    case None => 0
    case Some(p) => r.a - p - r.bSize
  }

  /** GetFreeSpaceSize, which may open region B. */
  function Window(r: Ring): (Ring, int) {
    if r.b.Some? then (r, BFree(r))
    else if AFree(r) < r.a then var r' := r.(b := Some(0)); (r', BFree(r'))
    else (r, AFree(r))
  }

  /** GetBuffer: where the next byte is written. */
  function WriteOffset(r: Ring): nat {
    match r.b
    case None => r.a + r.aSize
    case Some(p) => p + r.bSize
  }

  /** GetContiguiousBytes and GetBufferStart. */
  function Contiguous(r: Ring): nat { if r.aSize > 0 then r.aSize else r.bSize }

  function ReadOffset(r: Ring): Option<nat> { if r.aSize > 0 then Some(r.a) else r.b }

  function Commit(r: Ring, n: nat): Ring {
    if r.b.Some? then r.(bSize := r.bSize + n) else r.(aSize := r.aSize + n)
  }

  function Overwrite(mem: seq<byte>, at: nat, data: seq<byte>): seq<byte>
    requires at + |data| <= |mem|
  {
    mem[..at] + data + mem[at + |data|..]
  }

  /** Someone, the program or the kernel, stores bytes at GetBuffer. */
  function Fill(r: Ring, data: seq<byte>): Ring
    requires WriteOffset(r) + |data| <= |r.mem|
  {
    r.(mem := Overwrite(r.mem, WriteOffset(r), data))
  }

  /** Write: opens region B like GetFreeSpaceSize, then appends if the bytes fit. */
  function Write(r: Ring, data: seq<byte>): (Ring, bool)
    requires Valid(r)
  {
    var (r', size) := Window(r);
    WindowInside(r);
    if size < |data| then (r', false) else (Commit(Fill(r', data), |data|), true)
  }

  /** Taking bytes out of A and then out of B. */
  function Take(r: Ring, n: nat): Ring {
    var fromA := if n > r.aSize then r.aSize else n;
    var rest := n - fromA;
    var fromB := if rest > r.bSize then r.bSize else rest;
    r.(a := r.a + fromA, aSize := r.aSize - fromA,
       b := if fromB > 0 && r.b.Some? then Some(r.b.value + fromB) else r.b, bSize := r.bSize - fromB)
  }

  /** When A is used up, B is moved to the front and becomes A. */
  function Settle(r: Ring): Ring
    requires r.b.Some? ==> r.b.value + r.bSize <= |r.mem|
  {
    if r.aSize > 0 then r
    else if r.bSize > 0 && r.b.Some? then
      Ring(Overwrite(r.mem, 0, r.mem[r.b.value..r.b.value + r.bSize]), 0, r.bSize, None, 0)
    else r.(a := 0, aSize := 0, b := None, bSize := 0)
  }

  function Remove(r: Ring, n: nat): Ring
    requires Valid(r)
  {
    Settle(Take(r, n))
  }

  function Peek(r: Ring, n: nat): Option<seq<byte>>
    requires Valid(r)
  {
    if StoredSize(r) < n then None
    else if n <= r.aSize then Some(r.mem[r.a..r.a + n])
    else Some(r.mem[r.a..r.a + r.aSize] + r.mem[..n - r.aSize])
  }

  function Read(r: Ring, n: nat): (Ring, Option<seq<byte>>)
    requires Valid(r)
  {
    if StoredSize(r) < n then (r, None) else (Remove(r, n), Peek(r, n))
  }

  // ---- Slices ----

  lemma OverwriteKeeps(mem: seq<byte>, at: nat, data: seq<byte>, lo: nat, hi: nat)
    requires at + |data| <= |mem| && lo <= hi <= |mem|
    requires hi <= at || at + |data| <= lo
    ensures Overwrite(mem, at, data)[lo..hi] == mem[lo..hi]
  {
  }

  lemma OverwriteStores(mem: seq<byte>, at: nat, data: seq<byte>)
    requires at + |data| <= |mem|
    ensures Overwrite(mem, at, data)[at..at + |data|] == data
  {
  }

  lemma OverwriteNothing(mem: seq<byte>, at: nat)
    requires at <= |mem|
    ensures Overwrite(mem, at, []) == mem
  {
  }

  lemma OverwriteTwice(mem: seq<byte>, x: seq<byte>, y: seq<byte>)
    requires |x| + |y| <= |mem|
    ensures Overwrite(Overwrite(mem, 0, x), |x|, y) == x + y + mem[|x| + |y|..]
  {
    OverwriteStores(mem, 0, x);
  }

  lemma Join(mem: seq<byte>, lo: nat, mid: nat, hi: nat)
    requires lo <= mid <= hi <= |mem|
    ensures mem[lo..mid] + mem[mid..hi] == mem[lo..hi]
  {
  }

  lemma Split(x: seq<byte>, y: seq<byte>, n: nat)
    requires n <= |x| + |y|
    ensures (x + y)[..n] == if n <= |x| then x[..n] else x + y[..n - |x|]
    ensures (x + y)[n..] == if n <= |x| then x[n..] + y else y[n - |x|..]
  {
  }

  lemma SubSlice(mem: seq<byte>, lo: nat, hi: nat, n: nat)
    requires lo <= hi <= |mem| && n <= hi - lo
    ensures mem[lo..hi][..n] == mem[lo..lo + n] && mem[lo..hi][n..] == mem[lo + n..hi]
  {
  }

  // ---- The receive window ----

  /** The span of GetFreeSpaceSize bytes from GetBuffer lies inside the array,
      holds no unread byte, and is the same on a second call; opening it
      changes neither the unread bytes nor the memory. */
  lemma WindowInside(r: Ring)
    requires Valid(r)
    ensures var (r', size) := Window(r);
      && Valid(r') && Contents(r') == Contents(r) && r'.mem == r.mem
      && 0 <= size && WriteOffset(r') + size <= |r.mem|
      && (WriteOffset(r') + size <= r'.a || r'.a + r'.aSize <= WriteOffset(r'))
      && r'.bSize <= WriteOffset(r')
      && Window(r') == (r', size)
  {
  }

  /** The window takes at least half of the free bytes when no B region was open before. */
  lemma WindowIsLarge(r: Ring)
    requires Valid(r) && r.b == None
    ensures 2 * Window(r).1 >= |r.mem| - StoredSize(r)
  {
  }

  /** The window cannot be made longer: it ends where the array or the free space
      ends; and when no B region was open it is the longer of the two free stretches. */
  lemma WindowIsMaximal(r: Ring)
    requires Valid(r)
    ensures var (r', size) := Window(r);
      && (WriteOffset(r') + size == |r.mem| || WriteOffset(r') + size == r.a)
      && (r.b == None ==> size >= |r.mem| - (r.a + r.aSize) && size >= r.a)
  {
    WindowInside(r);
  }

  /** The window is empty exactly when the buffer is full or region B has reached A. */
  lemma WindowEmptyIff(r: Ring)
    requires Valid(r)
    ensures Window(r).1 == 0 <==> StoredSize(r) == |r.mem| || (r.b.Some? && r.bSize == r.a)
  {
  }

  /** A buffer of three packets never stalls: while less than one packet is unread there is room for more. */
  lemma NeverStalls(r: Ring, packet: nat)
    requires Valid(r) && StoredSize(r) < packet && 3 * packet <= |r.mem|
    ensures Window(r).1 > 0
  {
    WindowEmptyIff(r);
  }

  /** Asking for the write position before the window is the same exactly when
      the window does not open region B; when it does, the position and size do
      not belong together and run past the end of the array. */
  lemma PositionBeforeWindow(r: Ring)
    requires Valid(r)
    ensures WriteOffset(r) == WriteOffset(Window(r).0) <==> r.b.Some? || AFree(r) >= r.a
    ensures WriteOffset(r) + Window(r).1 <= |r.mem| <==> r.b.Some? || AFree(r) >= r.a
  {
    WindowInside(r);
  }

  lemma FillKeeps(r: Ring, data: seq<byte>)
    requires Valid(r) && Window(r).0 == r && |data| <= Window(r).1
    ensures var at := WriteOffset(r); at + |data| <= |r.mem|
    ensures var at := WriteOffset(r); var mem' := Fill(r, data).mem;
      && |mem'| == |r.mem|
      && mem'[r.a..r.a + r.aSize] == r.mem[r.a..r.a + r.aSize] && mem'[..r.bSize] == r.mem[..r.bSize]
      && mem'[at..at + |data|] == data
  {
    WindowInside(r);
    var at := WriteOffset(r);
    OverwriteKeeps(r.mem, at, data, r.a, r.a + r.aSize);
    OverwriteKeeps(r.mem, at, data, 0, r.bSize);
    OverwriteStores(r.mem, at, data);
  }

  lemma CommitToA(r: Ring, mem: seq<byte>, data: seq<byte>)
    requires Valid(r) && r.b.None? && r.a + r.aSize + |data| <= |r.mem| == |mem|
    requires data != [] ==> AFree(r) >= r.a
    requires mem[r.a..r.a + r.aSize] == r.mem[r.a..r.a + r.aSize]
    requires mem[r.a + r.aSize..r.a + r.aSize + |data|] == data
    ensures var r' := r.(mem := mem, aSize := r.aSize + |data|);
      Valid(r') && Contents(r') == Contents(r) + data
  {
    Join(mem, r.a, r.a + r.aSize, r.a + r.aSize + |data|);
    assert mem[..0] == [];
  }

  lemma CommitToB(r: Ring, mem: seq<byte>, data: seq<byte>)
    requires Valid(r) && r.b.Some? && r.bSize + |data| <= r.a && |r.mem| == |mem|
    requires mem[r.a..r.a + r.aSize] == r.mem[r.a..r.a + r.aSize] && mem[..r.bSize] == r.mem[..r.bSize]
    requires mem[r.bSize..r.bSize + |data|] == data
    ensures var r' := r.(mem := mem, bSize := r.bSize + |data|);
      Valid(r') && Contents(r') == Contents(r) + data
  {
    Join(mem, 0, r.bSize, r.bSize + |data|);
  }

  /** The bytes found in the window when it is committed are appended to the
      unread bytes, exactly those bytes and in order. */
  lemma CommitAppends(r: Ring, n: nat)
    requires Valid(r) && Window(r).0 == r && n <= Window(r).1
    ensures var at := WriteOffset(r); at + n <= |r.mem|
    ensures var at := WriteOffset(r); var r' := Commit(r, n);
      Valid(r') && Contents(r') == Contents(r) + r.mem[at..at + n]
  {
    WindowInside(r);
    var at := WriteOffset(r);
    if r.b.Some? { CommitToB(r, r.mem, r.mem[at..at + n]); } else { CommitToA(r, r.mem, r.mem[at..at + n]); }
  }

  /** Storing bytes in the window changes no unread byte. */
  lemma FillIsInvisible(r: Ring, data: seq<byte>)
    requires Valid(r) && Window(r).0 == r && |data| <= Window(r).1
    ensures WriteOffset(r) + |data| <= |r.mem|
    ensures var r' := Fill(r, data);
      && Valid(r') && Contents(r') == Contents(r) && Window(r') == (r', Window(r).1)
      && WriteOffset(r') == WriteOffset(r) && r'.mem[WriteOffset(r)..WriteOffset(r) + |data|] == data
  {
    FillKeeps(r, data);
    hide Overwrite;
  }

  // ---- Writing and reading ----

  /** Write succeeds exactly when the bytes fit the window, and then appends
      them; a failed Write loses nothing. */
  lemma WriteAppends(r: Ring, data: seq<byte>)
    requires Valid(r)
    ensures var (r', ok) := Write(r, data);
      && Valid(r') && |r'.mem| == |r.mem|
      && (ok <==> |data| <= Window(r).1)
      && Contents(r') == (if ok then Contents(r) + data else Contents(r))
  {
    WindowInside(r);
    var (w, size) := Window(r);
    if |data| <= size {
      FillIsInvisible(w, data);
      hide Fill;
      hide Contents;
      hide Valid;
      CommitAppends(Fill(w, data), |data|);
    }
  }

  /** What was contiguous at the front before a Write stays where it is and as
      it is, so a send under way on those bytes is not disturbed. */
  lemma WriteKeepsFront(r: Ring, data: seq<byte>)
    requires Valid(r) && r.aSize > 0
    ensures var r' := Write(r, data).0;
      && r'.a == r.a && r'.aSize >= r.aSize && |r'.mem| == |r.mem|
      && r'.mem[r.a..r.a + r.aSize] == r.mem[r.a..r.a + r.aSize]
  {
    WindowInside(r);
    var (w, size) := Window(r);
    if |data| <= size {
      FillKeeps(w, data);
      hide Overwrite;
    }
  }

  /** Remove drops the oldest bytes, as many as there are at most. */
  lemma RemoveDrops(r: Ring, n: nat)
    requires Valid(r)
    ensures var r' := Remove(r, n);
      && Valid(r') && |r'.mem| == |r.mem|
      && Contents(r') == Contents(r)[if n < StoredSize(r) then n else StoredSize(r)..]
  {
    if n < r.aSize {
      RemoveFromA(r, n);
    } else if n < StoredSize(r) {
      RemoveFromB(r, n);
    }
  }

  lemma RemoveFromA(r: Ring, n: nat)
    requires Valid(r) && n < r.aSize
    ensures Valid(Remove(r, n)) && Remove(r, n).mem == r.mem && Contents(Remove(r, n)) == Contents(r)[n..]
  {
    SubSlice(r.mem, r.a, r.a + r.aSize, n);
    Split(r.mem[r.a..r.a + r.aSize], r.mem[..r.bSize], n);
  }

  lemma RemoveFromB(r: Ring, n: nat)
    requires Valid(r) && r.aSize <= n < StoredSize(r)
    ensures var r' := Remove(r, n);
      Valid(r') && |r'.mem| == |r.mem| && Contents(r') == Contents(r)[n..]
  {
    var k := n - r.aSize;
    var rest := r.mem[k..r.bSize];
    var r' := Ring(Overwrite(r.mem, 0, rest), 0, |rest|, None, 0);
    assert Remove(r, n) == r';
    hide Remove;
    assert Contents(r)[n..] == rest by {
      hide Overwrite;
      SubSlice(r.mem, 0, r.bSize, k);
      Split(r.mem[r.a..r.a + r.aSize], r.mem[..r.bSize], n);
    }
    assert Contents(r') == rest by { OverwriteStores(r.mem, 0, rest); }
  }

  lemma PeekIsPrefix(r: Ring, n: nat)
    requires Valid(r)
    ensures |Contents(r)| == StoredSize(r)
    ensures Peek(r, n) == if n <= |Contents(r)| then Some(Contents(r)[..n]) else None
  {
    if n <= StoredSize(r) {
      Split(r.mem[r.a..r.a + r.aSize], r.mem[..r.bSize], n);
      if n <= r.aSize { SubSlice(r.mem, r.a, r.a + r.aSize, n); } else { SubSlice(r.mem, 0, r.bSize, n - r.aSize); }
    }
  }

  /** Peek and Read return the oldest bytes, exactly when that many are stored; Read also drops them. */
  lemma ReadTakesPrefix(r: Ring, n: nat)
    requires Valid(r)
    ensures |Contents(r)| == StoredSize(r)
    ensures Peek(r, n) == if n <= |Contents(r)| then Some(Contents(r)[..n]) else None
    ensures var (r', got) := Read(r, n);
      && Valid(r') && |r'.mem| == |r.mem| && got == Peek(r, n)
      && Contents(r') == (if got.Some? then Contents(r)[n..] else Contents(r))
  {
    PeekIsPrefix(r, n);
    RemoveDrops(r, n);
    hide Remove;
    hide Contents;
    hide Valid;
  }

  /** The bytes at GetBufferStart are the oldest unread ones, and there are some
      exactly when any are unread; they are all but those that have wrapped around. */
  lemma ContiguousIsFront(r: Ring)
    requires Valid(r)
    ensures Contiguous(r) > 0 <==> Contents(r) != []
    ensures Contiguous(r) <= |Contents(r)|
    ensures Contiguous(r) == |Contents(r)| <==> r.aSize == 0 || r.bSize == 0
    ensures r.aSize > 0 ==> Contents(r)[Contiguous(r)..] == r.mem[..r.bSize]
    ensures Contiguous(r) > 0 ==> ReadOffset(r).Some? && ReadOffset(r).value + Contiguous(r) <= |r.mem|
    ensures Contiguous(r) > 0 ==>
      r.mem[ReadOffset(r).value..ReadOffset(r).value + Contiguous(r)] == Contents(r)[..Contiguous(r)]
  {
  }

  /** Taking bytes that were sent from the front: they were the oldest, and the
      rest is contiguous at the front exactly when there is a rest. */
  lemma RemoveTakesFront(r: Ring, n: nat)
    requires Valid(r) && n <= r.aSize
    ensures var r' := Remove(r, n);
      && Valid(r') && Contents(r) == r.mem[r.a..r.a + n] + Contents(r')
      && (Contiguous(r') > 0 <==> Contents(r') != [])
  {
    hide Remove;
    hide Contiguous;
    hide Contents;
    RemoveDrops(r, n);
    ContiguousIsFront(Remove(r, n));
    PeekIsPrefix(r, n);
  }
}
