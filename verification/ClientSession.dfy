/** The receiving half of a client session of the Linux server: the loops of
    OnReceive and DispatchPacket over its receive buffer. */
module ClientSession {
  import opened Option
  import R = Ring
  import F = Framing
  import B = CircularBuffer

  type byte = R.byte
  type bytes = seq<byte>

  /** What the next read of the socket finds: bytes, of which it returns as many
      as it was asked for at most; no more for now; or an error. */
  datatype Answer = Data(data: bytes) | NoMore | Error

  /** The bytes read before the socket has no more, or fails. */
  function Incoming(answers: seq<Answer>): bytes {
    if answers == [] || !answers[0].Data? then [] else answers[0].data + Incoming(answers[1..])
  }

  /** Whether it fails then. */
  predicate Fails(answers: seq<Answer>) {
    answers != [] && (answers[0].Error? || (answers[0].Data? && Fails(answers[1..])))
  }

  /** What is left after a read took k bytes of the first answer. */
  function Later(answers: seq<Answer>, k: nat): seq<Answer>
    requires answers != [] && answers[0].Data? && k <= |answers[0].data|
  {
    if k == |answers[0].data| then answers[1..] else [Data(answers[0].data[k..])] + answers[1..]
  }

  function Left(answers: seq<Answer>): nat {
    if answers == [] then 0
    else 1 + (if answers[0].Data? then |answers[0].data| else 0) + Left(answers[1..])
  }

  lemma Regroup(x: bytes, y: bytes, z: bytes)
    ensures (x + y) + z == x + (y + z)
  {
  }

  lemma LessIncoming(answers: seq<Answer>, k: nat)
    requires answers != [] && answers[0].Data? && k <= |answers[0].data| && (k == 0 ==> answers[0].data == [])
    ensures var later := Later(answers, k);
      && Incoming(answers) == answers[0].data[..k] + Incoming(later) && Fails(later) == Fails(answers)
      && Left(later) < Left(answers)
  {
    var data, later := answers[0].data, Later(answers, k);
    if k < |data| {
      FirstAnswer(Data(data[k..]), answers[1..]);
      var after := Incoming(answers[1..]);
      assert Incoming(answers) == data + after && Incoming(later) == data[k..] + after;
      hide Incoming;
      hide Fails;
      assert data == data[..k] + data[k..];
      Regroup(data[..k], data[k..], after);
    } else {
      assert data[..k] == data;
    }
  }

  lemma FirstAnswer(a: Answer, more: seq<Answer>)
    requires a.Data?
    ensures var answers := [a] + more;
      && answers[0] == a && Incoming(answers) == a.data + Incoming(more) && Fails(answers) == Fails(more)
      && Left(answers) == 1 + |a.data| + Left(more)
  {
    assert ([a] + more)[1..] == more;
  }

  lemma FeedOfNone(unread: bytes)
    ensures F.Feed(unread, []) == F.Waiting([], unread) && F.Concat([]) == []
  {
  }

  /** How OnReceive leaves its loop: the socket has no more data, or the read
      failed; or it never leaves it, because a dispatch does not return or
      because it asks the socket for no bytes. */
  datatype Exit = Again | Broken | Spins | Full

  /** What is unread and what the socket has are well-formed packets, and the buffer holds three of any. */
  ghost predicate IsServed(unread: bytes, incoming: bytes, capacity: nat) {
    F.WellFormed(unread + incoming) && F.Turn(unread) == F.Waits && 3 * F.LARGEST <= capacity
  }

  predicate IsExit(s: bytes) {
    |s| >= F.HEADER && F.TypeField(s) == F.PKT_CS_EXIT
  }

  /** mConnected, and how often the socket was asked to take the linger option. */
  datatype Link = Link(connected: bool, attempts: nat)

  /** What decides about a connection from outside: whether handling the i-th
      packet, other than an exit, ends in a disconnection (a login rejected, an
      answer that does not fit), and whether the socket takes the linger option
      when asked for the k-th time. */
  datatype World = World(rejects: nat -> bool, accepts: nat -> bool)

  /** Disconnect: nothing if disconnected already, or if the option is refused. */
  function Cut(w: World, l: Link): Link {
    if l.connected then Link(!w.accepts(l.attempts), l.attempts + 1) else l
  }

  /** The connection after these packets were handled, the first being the from-th. */
  function Fate(w: World, hs: seq<bytes>, from: nat, l: Link): Link {
    if hs == [] then l
    else
      var n := |hs| - 1;
      var before := Fate(w, hs[..n], from, l);
      if IsExit(hs[n]) || w.rejects(from + n) then Cut(w, before) else before
  }

  lemma {:induction false} FateInParts(w: World, hs: seq<bytes>, more: seq<bytes>, from: nat, l: Link)
    ensures Fate(w, hs + more, from, l) == Fate(w, more, from + |hs|, Fate(w, hs, from, l))
  {
    if more == [] {
      assert hs + [] == hs;
    } else {
      FateInParts(w, hs, more[..|more| - 1], from, l);
      assert (hs + more)[..|hs + more| - 1] == hs + more[..|more| - 1];
    }
  }

  lemma FateOfOne(w: World, s: bytes, from: nat, l: Link)
    ensures Fate(w, [s], from, l) == if IsExit(s) || w.rejects(from) then Cut(w, l) else l
  {
    assert [s][..0] == [];
  }

  /** Handling the i-th of these packets disconnects. */
  predicate AsksAt(w: World, hs: seq<bytes>, from: nat, i: nat)
    requires i < |hs|
  {
    IsExit(hs[i]) || w.rejects(from + i)
  }

  /** Nothing reconnects; if no packet asks for it nothing changes, and if one does the socket was asked. */
  lemma {:induction false} FateIsOneWay(w: World, hs: seq<bytes>, from: nat, l: Link)
    ensures var l' := Fate(w, hs, from, l);
      && (l'.connected ==> l.connected) && l.attempts <= l'.attempts
      && ((forall i: nat :: i < |hs| ==> !AsksAt(w, hs, from, i)) ==> l' == l)
      && ((exists i: nat :: i < |hs| && AsksAt(w, hs, from, i)) && l.connected ==> l'.attempts > l.attempts)
      && (l.connected && !l'.connected ==> l'.attempts > l.attempts)
  {
    if hs != [] {
      var n := |hs| - 1;
      FateIsOneWay(w, hs[..n], from, l);
      assert forall i: nat :: i < n ==> AsksAt(w, hs[..n], from, i) == AsksAt(w, hs, from, i);
      assert AsksAt(w, hs, from, n) == (IsExit(hs[n]) || w.rejects(from + n));
    }
  }

  lemma FateOfNone(w: World, from: nat, l: Link)
    ensures Fate(w, [], from, l) == l
  {
  }

  /** What one more read and dispatch do to the outcome and to the connection. */
  lemma FeedMore(w: World, first: bytes, chunks: seq<bytes>, chunk: bytes, from: nat, l: Link)
    requires !F.Feed(first, chunks).Spinning?
    ensures var o, o' := F.Feed(first, chunks), F.Feed(first, chunks + [chunk]);
      var d := F.Dispatch(o.rest + chunk);
      && o'.handled == o.handled + d.handled && (o'.Spinning? <==> d.Spinning?) && (o'.Closed? <==> d.Closed?)
      && (!d.Spinning? ==> o'.rest == d.rest) && (o.Closed? ==> d.Closed?)
      && Fate(w, o'.handled, from, l) == Fate(w, d.handled, from + |o.handled|, Fate(w, o.handled, from, l))
  {
    hide F.Dispatch;
    hide F.Feed;
    hide Fate;
    FeedMoreOutcome(first, chunks, chunk);
    var o := F.Feed(first, chunks);
    FateInParts(w, o.handled, F.Dispatch(o.rest + chunk).handled, from, l);
  }

  lemma FeedMoreOutcome(first: bytes, chunks: seq<bytes>, chunk: bytes)
    requires !F.Feed(first, chunks).Spinning?
    ensures var o, o' := F.Feed(first, chunks), F.Feed(first, chunks + [chunk]);
      var d := F.Dispatch(o.rest + chunk);
      && o'.handled == o.handled + d.handled && (o'.Spinning? <==> d.Spinning?) && (o'.Closed? <==> d.Closed?)
      && (!d.Spinning? ==> o'.rest == d.rest) && (o.Closed? ==> d.Closed?)
  {
    hide F.Dispatch;
    hide F.Feed;
    F.FeedOneMore(first, chunks, chunk);
    if F.Feed(first, chunks).Closed? { F.ClosedStaysClosed(first, chunks, chunk); }
  }

  /** Where the loop of OnReceive is: it has read these chunks, its handlers
      handled hs, and the socket has rest still to answer. */
  ghost predicate SoFar(w: World, first: bytes, answers: seq<Answer>, rest: seq<Answer>, chunks: seq<bytes>,
                        hs: seq<bytes>, unread: bytes, from: nat, was: Link, now: Link) {
    && F.Concat(chunks) + Incoming(rest) == Incoming(answers) && Fails(rest) == Fails(answers)
    && var o := F.Feed(first, chunks);
      && !o.Spinning? && hs == o.handled && unread == o.rest
      && (if o.Waiting? then now == Fate(w, hs, from, was) else now.attempts > 0)
      && (!now.connected ==> now.attempts > 0)
  }

  /** What a call of OnReceive has done: the outcome of feeding what it read,
      which is all the socket had unless the loop cannot go on; it gives up exactly
      if the socket fails then; and the connection is as the packets handled, and
      the failure, leave it. */
  ghost predicate Received(w: World, first: bytes, answers: seq<Answer>, exit: Exit, chunks: seq<bytes>,
                           hs: seq<bytes>, unread: bytes, from: nat, was: Link, now: Link) {
    && F.Concat(chunks) <= Incoming(answers)
    && (exit.Again? || exit.Broken? ==>
          F.Concat(chunks) == Incoming(answers) && (exit.Broken? <==> Fails(answers)))
    && var o := F.Feed(first, chunks);
      && hs == o.handled && (exit.Spins? <==> o.Spinning?) && (!exit.Spins? ==> unread == o.rest)
      && match o
         case Waiting(_, _) => now == if exit.Broken? then Cut(w, Fate(w, hs, from, was)) else Fate(w, hs, from, was)
         case Closed(_, _) => now.attempts > 0
         case Spinning(_) => true
  }

  /** A well-formed client is served all it sent, and less than a packet is left. */
  ghost predicate Serves(first: bytes, answers: seq<Answer>, exit: Exit, hs: seq<bytes>, unread: bytes) {
    && exit == (if Fails(answers) then Broken else Again) && |unread| < F.LARGEST
    && F.Dispatch(first + Incoming(answers)) == F.Waiting(hs, unread)
    && forall ps, tail :: F.IsStream(first + Incoming(answers), ps, tail) ==> hs == F.EncodeEach(ps) && unread == tail
  }

  lemma NothingSoFar(w: World, first: bytes, answers: seq<Answer>, from: nat, was: Link)
    requires was.connected
    ensures SoFar(w, first, answers, answers, [], [], first, from, was, was)
  {
    FeedOfNone(first);
    FateOfNone(w, from, was);
    assert [] + Incoming(answers) == Incoming(answers);
  }

  lemma ReceivedMore(w: World, first: bytes, answers: seq<Answer>, rest: seq<Answer>, chunks: seq<bytes>,
                     hs: seq<bytes>, unread: bytes, from: nat, was: Link, now: Link, k: nat, unread': bytes, now': Link)
    requires SoFar(w, first, answers, rest, chunks, hs, unread, from, was, now)
    requires rest != [] && rest[0].Data? && k <= |rest[0].data| && (k == 0 ==> rest[0].data == [])
    requires var d := F.Dispatch(unread + rest[0].data[..k]);
      && (!d.Spinning? ==> unread' == d.rest)
      && (d.Waiting? ==> now' == Fate(w, d.handled, from + |hs|, now))
      && (d.Closed? ==> now' == Cut(w, Fate(w, d.handled, from + |hs|, now)))
    ensures var d := F.Dispatch(unread + rest[0].data[..k]);
      var chunks' := chunks + [rest[0].data[..k]];
      if d.Spinning? then Received(w, first, answers, Spins, chunks', hs + d.handled, unread', from, was, now')
      else SoFar(w, first, answers, Later(rest, k), chunks', hs + d.handled, unread', from, was, now')
    ensures Left(Later(rest, k)) < Left(rest)
  {
    hide F.Concat;
    hide F.Dispatch;
    hide F.Feed;
    hide Incoming;
    hide Fails;
    hide Later;
    hide Left;
    hide Fate;
    hide Cut;
    var chunk := rest[0].data[..k];
    ReadMore(answers, rest, chunks, k);
    AfterMore(w, F.Dispatch(unread + chunk).handled, from + |hs|, now);
    FeedMore(w, first, chunks, chunk, from, was);
  }

  lemma AfterMore(w: World, hs: seq<bytes>, from: nat, now: Link)
    requires !now.connected ==> now.attempts > 0
    ensures var l := Fate(w, hs, from, now); (!l.connected ==> l.attempts > 0) && Cut(w, l).attempts > 0
  {
    FateIsOneWay(w, hs, from, now);
    hide Fate;
  }

  lemma ReadMore(answers: seq<Answer>, rest: seq<Answer>, chunks: seq<bytes>, k: nat)
    requires F.Concat(chunks) + Incoming(rest) == Incoming(answers) && Fails(rest) == Fails(answers)
    requires rest != [] && rest[0].Data? && k <= |rest[0].data| && (k == 0 ==> rest[0].data == [])
    ensures var chunks', later := chunks + [rest[0].data[..k]], Later(rest, k);
      && F.Concat(chunks') + Incoming(later) == Incoming(answers) && Fails(later) == Fails(answers)
      && F.Concat(chunks') <= Incoming(answers) && Left(later) < Left(rest)
  {
    var chunk, later := rest[0].data[..k], Later(rest, k);
    F.ConcatOneMore(chunks, chunk);
    LessIncoming(rest, k);
    Regroup(F.Concat(chunks), chunk, Incoming(later));
    hide F.Concat;
    hide Incoming;
    hide Fails;
    hide Later;
    hide Left;
  }

  lemma ReceivedAll(w: World, first: bytes, answers: seq<Answer>, rest: seq<Answer>, chunks: seq<bytes>,
                    hs: seq<bytes>, unread: bytes, from: nat, was: Link, now: Link)
    requires SoFar(w, first, answers, rest, chunks, hs, unread, from, was, now)
    ensures Received(w, first, answers, Full, chunks, hs, unread, from, was, now)
    ensures rest == [] || rest[0].NoMore? ==> Received(w, first, answers, Again, chunks, hs, unread, from, was, now)
    ensures rest != [] && rest[0].Error? ==>
      Received(w, first, answers, Broken, chunks, hs, unread, from, was, Cut(w, now))
  {
    hide F.Feed;
    hide F.Concat;
    hide Fate;
    assert F.Concat(chunks) + [] == F.Concat(chunks);
  }

  lemma ServedIf(w: World, first: bytes, answers: seq<Answer>, exit: Exit, chunks: seq<bytes>,
                 hs: seq<bytes>, unread: bytes, from: nat, was: Link, now: Link, capacity: nat)
    requires Received(w, first, answers, exit, chunks, hs, unread, from, was, now)
    requires exit.Full? ==> 3 * (|unread| + 1) > capacity
    ensures IsServed(first, Incoming(answers), capacity) ==> Serves(first, answers, exit, hs, unread)
    ensures F.Turn(first) == F.Waits && 3 * F.LARGEST <= capacity ==>
      forall ps, tail :: F.IsStream(first + Incoming(answers), ps, tail) ==> Serves(first, answers, exit, hs, unread)
  {
    F.StreamsAreServed(first + Incoming(answers));
    hide F.IsStream;
    hide F.Concat;
    hide F.Feed;
    hide F.Dispatch;
    hide F.WellFormed;
    hide Incoming;
    hide Fails;
    hide Fate;
    if IsServed(first, Incoming(answers), capacity) { F.WellFormedFeeds(first, chunks, Incoming(answers)); }
  }

  class ClientSession {
    const mRecvBuffer: B.CircularBuffer
    const world: World
    var mConnected: bool
    var attempts: nat
    var handled: seq<bytes>

    /** The session is connected exactly until the linger option is taken. */
    ghost predicate Valid()
      reads this, mRecvBuffer, mRecvBuffer.mBuffer
    {
      mRecvBuffer.Valid() && (mConnected <==> forall k: nat :: k < attempts ==> !world.accepts(k))
    }

    ghost function Unread(): bytes
      requires Valid()
      reads this, mRecvBuffer, mRecvBuffer.mBuffer
    {
      mRecvBuffer.Contents()
    }

    ghost function Connection(): Link
      reads this
    {
      Link(mConnected, attempts)
    }

    constructor (capacity: nat, w: World)
      ensures Valid() && fresh(mRecvBuffer) && fresh(mRecvBuffer.mBuffer) && mRecvBuffer.mBuffer.Length == capacity
      ensures world == w && Connection() == Link(true, 0) && handled == [] && Unread() == []
    {
      mRecvBuffer := new B.CircularBuffer(capacity);
      world, mConnected, attempts, handled := w, true, 0, [];
    }

    /** Marks the session disconnected, unless the socket refuses the linger option. */
    method Disconnect()
      requires Valid()
      modifies this`mConnected, this`attempts
      ensures Valid() && Connection() == Cut(world, old(Connection())) && Unread() == old(Unread())
    {
      if !mConnected { return; }
      var accepted := world.accepts(attempts);
      attempts := attempts + 1;
      if !accepted { return; }
      mConnected := false;
    }

    /** A handler: reads its struct, or consumes nothing. The default handler and
        that of an exit disconnect; those of the other types when the world says so. */
    method Handle(packetType: int) returns (consumed: bool)
      requires Valid() && F.PKT_NONE < packetType < F.PKT_MAX
      modifies this, mRecvBuffer, mRecvBuffer.mBuffer
      ensures Valid()
      ensures var size := F.StructSize(packetType);
        consumed <==> size.Some? && size.value <= |old(Unread())|
      ensures consumed ==>
        var n := F.StructSize(packetType).value;
        handled == old(handled) + [old(Unread())[..n]] && Unread() == old(Unread())[n..]
      ensures !consumed ==> handled == old(handled) && Unread() == old(Unread())
      ensures Connection() ==
        if consumed then
          if packetType == F.PKT_CS_EXIT || world.rejects(|old(handled)|) then Cut(world, old(Connection()))
          else old(Connection())
        else if F.StructSize(packetType).None? then Cut(world, old(Connection()))
        else old(Connection())
    {
      match F.StructSize(packetType) {
        case None =>
          Disconnect();
          return false;
        case Some(n) =>
          var pkt := new byte[n];
          hide R.Valid;
          hide R.Contents;
          consumed := mRecvBuffer.Read(pkt, n);
          if consumed {
            assert pkt[..] == old(Unread())[..n];
            var rejected := world.rejects(|handled|);
            handled := handled + [pkt[..]];
            if packetType == F.PKT_CS_EXIT || rejected { Disconnect(); }
          }
      }
    }

    /** The size and type of the packet at the front, if there is a header. */
    method PeekHeader() returns (header: Option<(int, int)>)
      requires Valid()
      ensures header == if |Unread()| < F.HEADER then None else Some((F.SizeField(Unread()), F.TypeField(Unread())))
    {
      hide R.Valid;
      hide R.Contents;
      var h := new byte[F.HEADER];
      var peeked := mRecvBuffer.Peek(h, F.HEADER);
      if !peeked { return None; }
      assert h[..] == Unread()[..4];
      assert h[..][0] == h[0] && h[..][1] == h[1] && h[..][2] == h[2] && h[..][3] == h[3];
      return Some((F.Short(h[0], h[1]), F.Short(h[2], h[3])));
    }

    /** Once round the loop. */
    method Turn() returns (verdict: F.Verdict)
      requires Valid()
      modifies this, mRecvBuffer, mRecvBuffer.mBuffer
      ensures Valid() && verdict == F.Turn(old(Unread()))
      ensures !verdict.Consumes? ==> handled == old(handled) && Unread() == old(Unread())
      ensures verdict.Consumes? ==>
        var s := old(Unread())[..verdict.n];
        && handled == old(handled) + [s] && Unread() == old(Unread())[verdict.n..]
        && Connection() == Fate(world, [s], |old(handled)|, old(Connection()))
      ensures verdict.Waits? ==> Connection() == old(Connection())
      ensures verdict.Closes? ==> Connection() == Cut(world, old(Connection()))
      ensures verdict.Spins? ==>
        Connection() == Cut(world, old(Connection())) || Connection() == old(Connection())
    {
      hide R.Valid;
      var header := PeekHeader();
      assert mRecvBuffer.GetStoredSize() == |Unread()| by { StoredIsUnread(); }
      hide R.Contents;
      if header.None? || header.value.0 < 0 || mRecvBuffer.GetStoredSize() < header.value.0 { return F.Waits; }
      var packetType := header.value.1;
      if packetType >= F.PKT_MAX || packetType <= F.PKT_NONE {
        Disconnect();
        return F.Closes;
      }
      var consumed := Handle(packetType);
      if consumed { FateOfOne(world, old(Unread())[..F.StructSize(packetType).value], |old(handled)|, old(Connection())); }
      return if consumed then F.Consumes(F.StructSize(packetType).value) else F.Spins;
    }

    lemma StoredIsUnread()
      requires Valid()
      ensures mRecvBuffer.GetStoredSize() == |Unread()|
    {
      R.ReadTakesPrefix(mRecvBuffer.View(), 0);
    }

    /** The loop over the unread bytes; it returns exactly when Dispatch does not
        spin. Where the source would come round for ever with nothing consumed, spins is set. */
    method DispatchPacket() returns (spins: bool)
      requires Valid()
      modifies this, mRecvBuffer, mRecvBuffer.mBuffer
      ensures Valid()
      ensures var o := F.Dispatch(old(Unread()));
        && handled == old(handled) + o.handled
        && (spins <==> o.Spinning?)
        && (!spins ==> Unread() == o.rest)
      ensures var o := F.Dispatch(old(Unread()));
        var after := Fate(world, o.handled, |old(handled)|, old(Connection()));
        && (o.Waiting? ==> Connection() == after)
        && (o.Closed? ==> Connection() == Cut(world, after))
        && (o.Spinning? ==> Connection() == after || Connection() == Cut(world, after))
    {
      hide R.Valid;
      hide R.Contents;
      hide F.Turn;
      hide Fate;
      hide Cut;
      ghost var all := Unread();
      ghost var hs: seq<bytes> := [];
      ghost var from, first := |handled|, Connection();
      F.AfterNothing(F.Dispatch(all));
      FateOfNone(world, from, first);
      while true
        invariant Valid() && handled == old(handled) + hs && Connection() == Fate(world, hs, from, first)
        invariant F.After(hs, F.Dispatch(Unread())) == F.Dispatch(all)
        decreases |Unread()|
      {
        ghost var s := Unread();
        F.DispatchOnce(s);
        var verdict := Turn();
        match verdict {
          case Consumes(n) =>
            F.AfterAfter(hs, [s[..n]], F.Dispatch(s[n..]));
            FateInParts(world, hs, [s[..n]], from, first);
            hs := hs + [s[..n]];
          case _ =>
            assert hs + [] == hs;
            return verdict.Spins?;
        }
      }
    }

    /** read(): the kernel stores these bytes at GetBuffer, where GetFreeSpaceSize found room for them. */
    method ReadSocket(chunk: bytes)
      requires Valid() && R.Window(mRecvBuffer.View()).0 == mRecvBuffer.View()
      requires |chunk| <= R.Window(mRecvBuffer.View()).1
      modifies mRecvBuffer, mRecvBuffer.mBuffer
      ensures Valid() && Unread() == old(Unread()) + chunk
    {
      hide R.Contents;
      hide R.Valid;
      hide R.Window;
      hide R.Fill;
      ghost var v := mRecvBuffer.View();
      R.FillIsInvisible(v, chunk);
      var data := new byte[|chunk|](i requires 0 <= i < |chunk| => chunk[i]);
      assert data[..] == chunk;
      mRecvBuffer.Fill(data, |chunk|);
      assert data[..|chunk|] == chunk;
      mRecvBuffer.Commit(|chunk|);
    }

    lemma FullIsCrowded()
      requires Valid()
      ensures R.Window(mRecvBuffer.View()).1 == 0 ==> 3 * (|Unread()| + 1) > mRecvBuffer.mBuffer.Length
    {
      StoredIsUnread();
      hide R.Contents;
      if 3 * (|Unread()| + 1) <= mRecvBuffer.mBuffer.Length { R.NeverStalls(mRecvBuffer.View(), |Unread()| + 1); }
    }

    /** One read, which asks the socket for as many bytes as there is room for,
        at least one, and returns the first of those it has. */
    method ReadSome(data: bytes, size: nat) returns (k: nat)
      requires Valid() && 0 < size && R.Window(mRecvBuffer.View()) == (mRecvBuffer.View(), size)
      modifies mRecvBuffer, mRecvBuffer.mBuffer
      ensures Valid() && k == (if |data| < size then |data| else size)
      ensures Unread() == old(Unread()) + data[..k]
    {
      k := if |data| < size then |data| else size;
      ReadSocket(data[..k]);
    }

    /** GetFreeSpaceSize: no room only in a crowded buffer. */
    method AskFor() returns (size: nat)
      requires Valid()
      modifies mRecvBuffer`mBRegionPointer
      ensures Valid() && Unread() == old(Unread()) && R.Window(mRecvBuffer.View()) == (mRecvBuffer.View(), size)
      ensures size == 0 ==> 3 * (|Unread()| + 1) > mRecvBuffer.mBuffer.Length
    {
      R.WindowInside(mRecvBuffer.View());
      FullIsCrowded();
      hide R.Valid;
      hide R.Contents;
      hide R.Window;
      size := mRecvBuffer.GetFreeSpaceSize();
    }

    /** The loop over reads, when the socket answers like this; chunks are what
        the reads returned. A client that sends well-formed packets is served
        exactly those, in order and whatever the reads, if the buffer has room
        for three of the largest. */
    method OnReceive(answers: seq<Answer>) returns (exit: Exit, ghost chunks: seq<bytes>)
      requires Valid() && mConnected
      modifies this, mRecvBuffer, mRecvBuffer.mBuffer
      ensures Valid() && old(handled) <= handled
      ensures Received(world, old(Unread()), answers, exit, chunks, handled[|old(handled)|..], Unread(),
                       |old(handled)|, old(Connection()), Connection())
      ensures exit.Full? ==> 3 * (|Unread()| + 1) > mRecvBuffer.mBuffer.Length
      ensures IsServed(old(Unread()), Incoming(answers), mRecvBuffer.mBuffer.Length) ==>
        Serves(old(Unread()), answers, exit, handled[|old(handled)|..], Unread())
      ensures F.Turn(old(Unread())) == F.Waits && 3 * F.LARGEST <= mRecvBuffer.mBuffer.Length ==>
        forall ps, tail :: F.IsStream(old(Unread()) + Incoming(answers), ps, tail) ==>
          Serves(old(Unread()), answers, exit, handled[|old(handled)|..], Unread())
    {
      hide R.Valid;
      hide R.Contents;
      hide R.Window;
      hide F.Dispatch;
      hide F.Turn;
      hide F.IsStream;
      hide Fate;
      hide SoFar;
      hide Received;
      hide Serves;
      hide IsServed;
      hide Incoming;
      hide Left;
      hide Later;
      ghost var first, from, was := Unread(), |handled|, Connection();
      ghost var hs: seq<bytes> := [];
      chunks := [];
      var rest := answers;
      NothingSoFar(world, first, answers, from, was);
      while true
        invariant Valid() && handled == old(handled) + hs
        invariant SoFar(world, first, answers, rest, chunks, hs, Unread(), from, was, Connection())
        decreases Left(rest)
      {
        var size := AskFor();
        ReceivedAll(world, first, answers, rest, chunks, hs, Unread(), from, was, Connection());
        if size == 0 {
          exit := Full;
          break;
        }
        if rest == [] || rest[0].NoMore? {
          exit := Again;
          break;
        }
        if rest[0].Error? {
          Disconnect();
          exit := Broken;
          break;
        }
        ghost var unread, now := Unread(), Connection();
        var k := ReadSome(rest[0].data, size);
        var spins := DispatchPacket();
        ReceivedMore(world, first, answers, rest, chunks, hs, unread, from, was, now, k, Unread(), Connection());
        hs := hs + F.Dispatch(unread + rest[0].data[..k]).handled;
        chunks, rest := chunks + [rest[0].data[..k]], Later(rest, k);
        if spins {
          exit := Spins;
          break;
        }
      }
      assert handled[|old(handled)|..] == hs;
      ServedIf(world, first, answers, exit, chunks, hs, Unread(), from, was, Connection(), mRecvBuffer.mBuffer.Length);
    }
  }
}
