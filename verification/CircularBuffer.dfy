/** The two-region byte buffer in place: an array and four fields, each method
    proved against its function in module Ring and against the unread bytes. */
module CircularBuffer {
  import opened Option
  import R = Ring

  type byte = R.byte

  class CircularBuffer {
    const mBuffer: array<byte>
    var mARegionPointer: nat
    var mARegionSize: nat
    var mBRegionPointer: Option<nat>
    var mBRegionSize: nat

    function View(): R.Ring
      reads this, mBuffer
    {
      R.Ring(mBuffer[..], mARegionPointer, mARegionSize, mBRegionPointer, mBRegionSize)
    }

    ghost predicate Valid()
      reads this, mBuffer
    {
      R.Valid(View())
    }

    /** The unread bytes, oldest first. */
    ghost function Contents(): seq<byte>
      requires Valid()
      reads this, mBuffer
    {
      R.Contents(View())
    }

    constructor (capacity: nat)
      ensures Valid() && fresh(mBuffer) && mBuffer.Length == capacity && Contents() == []
    {
      mBuffer := new byte[capacity](_ => 0);
      mARegionPointer, mARegionSize := 0, 0;
      mBRegionPointer, mBRegionSize := None, 0;
    }

    function GetStoredSize(): nat
      reads this
    {
      mARegionSize + mBRegionSize
    }

    function GetBuffer(): nat
      reads this
    {
      match mBRegionPointer
      case Some(p) => p + mBRegionSize
      case None => mARegionPointer + mARegionSize
    }

    method AllocateB()
      modifies this`mBRegionPointer
      ensures mBRegionPointer == Some(0)
    {
      mBRegionPointer := Some(0);
    }

    /** The room for the next bytes; opens region B when there is more room before A than behind it. */
    method GetFreeSpaceSize() returns (size: nat)
      requires Valid()
      modifies this`mBRegionPointer
      ensures Valid() && (View(), size as int) == R.Window(old(View()))
      ensures Contents() == old(Contents())
      ensures GetBuffer() + size <= mBuffer.Length
    {
      R.WindowInside(View());
      if mBRegionPointer.Some? {
        size := mARegionPointer - mBRegionPointer.value - mBRegionSize;
      } else if mBuffer.Length - mARegionPointer - mARegionSize < mARegionPointer {
        AllocateB();
        size := mARegionPointer - mBRegionPointer.value - mBRegionSize;
      } else {
        size := mBuffer.Length - mARegionPointer - mARegionSize;
      }
    }

    /** Declares the n bytes stored at GetBuffer to be unread. */
    method Commit(n: nat)
      requires Valid() && R.Window(View()).0 == View() && n <= R.Window(View()).1
      requires GetBuffer() + n <= mBuffer.Length
      modifies this`mARegionSize, this`mBRegionSize
      ensures Valid() && View() == R.Commit(old(View()), n)
      ensures Contents() == old(Contents()) + old(mBuffer[GetBuffer()..GetBuffer() + n])
    {
      R.CommitAppends(View(), n);
      hide R.Valid;
      hide R.Window;
      hide R.Contents;
      Advance(n);
    }

    /** memcpy into the buffer. */
    method CopyIn(at: nat, data: array<byte>, n: nat)
      requires data != mBuffer && n <= data.Length && at + n <= mBuffer.Length
      modifies mBuffer
      ensures mBuffer[..] == R.Overwrite(old(mBuffer[..]), at, data[..n])
    {
      forall i | 0 <= i < n { mBuffer[at + i] := data[i]; }
    }

    /** memcpy out of the buffer. */
    method CopyOut(dest: array<byte>, to: nat, at: nat, n: nat)
      requires dest != mBuffer && to + n <= dest.Length && at + n <= mBuffer.Length
      modifies dest
      ensures dest[..] == R.Overwrite(old(dest[..]), to, mBuffer[at..at + n])
    {
      forall i | 0 <= i < n { dest[to + i] := mBuffer[at + i]; }
    }

    /** Appends the bytes if they fit the window, and says whether they did. */
    method Write(data: array<byte>, bytes: nat) returns (ok: bool)
      requires Valid() && data != mBuffer && bytes <= data.Length
      modifies this, mBuffer
      ensures Valid() && (View(), ok) == R.Write(old(View()), data[..bytes])
      ensures ok <==> bytes <= R.Window(old(View())).1
      ensures Contents() == if ok then old(Contents()) + data[..bytes] else old(Contents())
    {
      ghost var v := View();
      R.WriteAppends(v, data[..bytes]);
      R.WindowInside(v);
      var size := GetFreeSpaceSize();
      if size < bytes { return false; }
      hide R.Valid;
      hide R.Contents;
      hide R.Fill;
      Store(data, bytes);
      return true;
    }

    /** Stores bytes at GetBuffer, not yet to be read. */
    method Fill(data: array<byte>, n: nat)
      requires data != mBuffer && n <= data.Length && GetBuffer() + n <= mBuffer.Length
      modifies mBuffer
      ensures View() == R.Fill(old(View()), data[..n])
    {
      hide R.Overwrite;
      CopyIn(GetBuffer(), data, n);
    }

    /** Stores bytes at GetBuffer and makes them unread. */
    method Store(data: array<byte>, bytes: nat)
      requires data != mBuffer && bytes <= data.Length && GetBuffer() + bytes <= mBuffer.Length
      modifies this, mBuffer
      ensures View() == R.Commit(R.Fill(old(View()), data[..bytes]), bytes)
    {
      Fill(data, bytes);
      hide R.Fill;
      Advance(bytes);
    }

    method Advance(n: nat)
      modifies this`mARegionSize, this`mBRegionSize
      ensures View() == R.Commit(old(View()), n)
    {
      if mBRegionPointer.Some? { mBRegionSize := mBRegionSize + n; } else { mARegionSize := mARegionSize + n; }
    }

    /** Copies the oldest bytes to the front of dest: first those in A, then those in B. */
    method CopyFront(dest: array<byte>, bytes: nat)
      requires Valid() && dest != mBuffer && bytes <= dest.Length && bytes <= mARegionSize + mBRegionSize
      modifies dest
      ensures dest[..] == R.Peek(View(), bytes).value + old(dest[bytes..])
    {
      hide R.Overwrite;
      ghost var d := dest[..];
      var cnt := bytes;
      var aRead := 0;
      if mARegionSize > 0 {
        aRead := if cnt > mARegionSize then mARegionSize else cnt;
        CopyOut(dest, 0, mARegionPointer, aRead);
        cnt := cnt - aRead;
      } else {
        R.OverwriteNothing(d, 0);
      }
      ghost var x, y := mBuffer[mARegionPointer..mARegionPointer + aRead], mBuffer[..cnt];
      assert dest[..] == R.Overwrite(d, 0, x);
      if cnt > 0 && mBRegionSize > 0 {
        CopyOut(dest, aRead, mBRegionPointer.value, cnt);
      } else {
        R.OverwriteNothing(dest[..], aRead);
      }
      assert dest[..] == R.Overwrite(R.Overwrite(d, 0, x), aRead, y);
      R.OverwriteTwice(d, x, y);
      PeekInParts(View(), bytes, aRead, cnt);
    }

    static lemma PeekInParts(r: R.Ring, bytes: nat, aRead: nat, rest: nat)
      requires R.Valid(r) && bytes <= R.StoredSize(r) && aRead + rest == bytes && aRead <= r.aSize
      requires rest > 0 ==> aRead == r.aSize
      ensures rest <= |r.mem| && R.Peek(r, bytes) == Some(r.mem[r.a..r.a + aRead] + r.mem[..rest])
    {
      if rest == 0 { assert r.mem[r.a..r.a + aRead] + r.mem[..0] == r.mem[r.a..r.a + aRead]; }
    }

    /** Copies the oldest bytes to dest if that many are stored. */
    method Peek(dest: array<byte>, bytes: nat) returns (ok: bool)
      requires Valid() && dest != mBuffer && bytes <= dest.Length
      modifies dest
      ensures ok <==> bytes <= |Contents()|
      ensures dest[..] == if ok then Contents()[..bytes] + old(dest[bytes..]) else old(dest[..])
    {
      R.ReadTakesPrefix(View(), bytes);
      if mARegionSize + mBRegionSize < bytes { return false; }
      CopyFront(dest, bytes);
      return true;
    }

    /** memmove to the front, if not there already. */
    method MoveToFront(at: nat, n: nat)
      requires at + n <= mBuffer.Length
      modifies mBuffer
      ensures mBuffer[..] == R.Overwrite(old(mBuffer[..]), 0, old(mBuffer[at..at + n]))
    {
      if at != 0 {
        forall i | 0 <= i < n { mBuffer[i] := mBuffer[at + i]; }
      }
    }

    /** Moves region B to the front when A is used up. */
    method Settle()
      requires mBRegionPointer.Some? ==> mBRegionPointer.value + mBRegionSize <= mBuffer.Length
      requires mBRegionSize > 0 ==> mBRegionPointer.Some?
      modifies this, mBuffer
      ensures View() == R.Settle(old(View()))
    {
      hide R.Overwrite;
      if mARegionSize == 0 {
        if mBRegionSize > 0 {
          var at, n := mBRegionPointer.value, mBRegionSize;
          MoveToFront(at, n);
          mARegionPointer := 0;
          mARegionSize := mBRegionSize;
          mBRegionPointer := None;
          mBRegionSize := 0;
        } else {
          mBRegionPointer := None;
          mBRegionSize := 0;
          mARegionPointer := 0;
          mARegionSize := 0;
        }
      }
    }

    /** Takes the oldest bytes out of A and then out of B. */
    method Take(len: nat)
      requires Valid()
      modifies this
      ensures View() == R.Take(old(View()), len)
    {
      var cnt := len;
      if mARegionSize > 0 {
        var aRemove := if cnt > mARegionSize then mARegionSize else cnt;
        mARegionSize := mARegionSize - aRemove;
        mARegionPointer := mARegionPointer + aRemove;
        cnt := cnt - aRemove;
      }
      if cnt > 0 && mBRegionSize > 0 {
        var bRemove := if cnt > mBRegionSize then mBRegionSize else cnt;
        mBRegionSize := mBRegionSize - bRemove;
        mBRegionPointer := Some(mBRegionPointer.value + bRemove);
        cnt := cnt - bRemove;
      }
    }

    /** Drops the oldest bytes, as many as there are at most. */
    method Remove(len: nat)
      requires Valid()
      modifies this, mBuffer
      ensures Valid() && View() == R.Remove(old(View()), len)
      ensures Contents() == old(Contents())[if len < |old(Contents())| then len else |old(Contents())|..]
    {
      ghost var v := View();
      R.RemoveDrops(v, len);
      R.ReadTakesPrefix(v, len);
      Take(len);
      hide R.Settle;
      hide R.Contents;
      hide R.Valid;
      Settle();
    }

    /** Copies the oldest bytes to dest and drops them, if that many are stored. */
    method Read(dest: array<byte>, bytes: nat) returns (ok: bool)
      requires Valid() && dest != mBuffer && bytes <= dest.Length
      modifies this, mBuffer, dest
      ensures Valid()
      ensures ok <==> bytes <= |old(Contents())|
      ensures ok ==> dest[..] == old(Contents())[..bytes] + old(dest[bytes..]) && Contents() == old(Contents())[bytes..]
      ensures !ok ==> Contents() == old(Contents()) && dest[..] == old(dest[..])
    {
      ghost var v := View();
      R.ReadTakesPrefix(v, bytes);
      R.RemoveDrops(v, bytes);
      if mARegionSize + mBRegionSize < bytes { return false; }
      CopyFront(dest, bytes);
      hide R.Settle;
      hide R.Contents;
      hide R.Peek;
      Take(bytes);
      hide R.Valid;
      Settle();
      return true;
    }
  }
}
