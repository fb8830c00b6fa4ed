/** How DispatchPacket cuts the received bytes into packets, as a function of
    the bytes: it waits by the size field of the header, but its handlers
    consume the size of the struct that belongs to the type field. */
module Framing {
  import opened Option
  import R = Ring

  type byte = R.byte
  type bytes = seq<byte>

  const PKT_NONE := 0
  const PKT_CS_LOGIN := 1
  const PKT_CS_CHAT := 11
  const PKT_CS_MOVE := 21
  const PKT_CS_EXIT := 31
  const PKT_MAX := 1024

  const HEADER := 4

  /** A little-endian short. */
  function Short(lo: byte, hi: byte): int {
    var u := lo as int + 256 * hi as int;
    if u < 0x8000 then u else u - 0x1_0000
  }

  function SizeField(s: bytes): int
    requires |s| >= HEADER
  {
    Short(s[0], s[1])
  }

  function TypeField(s: bytes): int
    requires |s| >= HEADER
  {
    Short(s[2], s[3])
  }

  /** sizeof the packed struct a registered handler reads; no handler is registered for other types. */
  function StructSize(packetType: int): Option<nat> {
    if packetType == PKT_CS_LOGIN || packetType == PKT_CS_EXIT then Some(4 + 128)
    else if packetType == PKT_CS_CHAT then Some(4 + 128 + 128)
    else if packetType == PKT_CS_MOVE then Some(4 + 4 + 4 + 4)
    else None
  }

  /** One turn of the loop of DispatchPacket on these unread bytes: it returns to wait
      for more, returns after disconnecting, comes round again with nothing
      consumed, or hands the first n bytes to a handler. */
  datatype Verdict = Waits | Closes | Spins | Consumes(n: nat)

  function Turn(s: bytes): Verdict {
    if |s| < HEADER then Waits
    // a negative size converts to a huge unsigned one
    else if SizeField(s) < 0 || |s| < SizeField(s) then Waits
    else if TypeField(s) >= PKT_MAX || TypeField(s) <= PKT_NONE then Closes
    else match StructSize(TypeField(s))
         case None => Spins                             // DefaultHandler reads nothing
         case Some(n) => if |s| < n then Spins          // ParsePacket fails
                         else Consumes(n)
  }

  /** What a call of DispatchPacket does: the packets handled, in order, and
      then the bytes left to wait with or to disconnect with, or no return. */
  datatype Outcome =
    | Waiting(handled: seq<bytes>, rest: bytes)
    | Closed(handled: seq<bytes>, rest: bytes)
    | Spinning(handled: seq<bytes>)

  function After(handled: seq<bytes>, o: Outcome): Outcome {
    match o
    case Waiting(h, rest) => Waiting(handled + h, rest)
    case Closed(h, rest) => Closed(handled + h, rest)
    case Spinning(h) => Spinning(handled + h)
  }

  function Dispatch(s: bytes): Outcome
    decreases |s|
  {
    match Turn(s)
    case Waits => Waiting([], s)
    case Closes => Closed([], s)
    case Spins => Spinning([])
    case Consumes(n) => After([s[..n]], Dispatch(s[n..]))
  }

  /** OnReceive: one call of DispatchPacket after each read, on what the call
      before left and the bytes read; a disconnected session goes on reading. */
  function Feed(unread: bytes, chunks: seq<bytes>): Outcome
    decreases |chunks|
  {
    if chunks == [] then Waiting([], unread)
    else
      var o := Dispatch(unread + chunks[0]);
      match o
      case Spinning(_) => o
      case Waiting(h, rest) => After(h, Feed(rest, chunks[1..]))
      case Closed(h, rest) => if |chunks| == 1 then o else After(h, Feed(rest, chunks[1..]))
  }

  function Concat(chunks: seq<bytes>): bytes {
    if chunks == [] then [] else chunks[0] + Concat(chunks[1..])
  }

  // ---- Dispatching in pieces ----

  /** The loop stopped after h is taken up again when more bytes are there. */
  function Resume(o: Outcome, more: bytes): Outcome {
    match o
    case Waiting(h, rest) => After(h, Dispatch(rest + more))
    case Closed(h, rest) => After(h, Dispatch(rest + more))
    case Spinning(_) => o
  }

  function Max(x: int, y: int): int {
    if x >= y then x else y
  }

  /** How many bytes are sure to be there when the loop looks at this packet,
      given that it looked at the packets before. */
  function Present(s: bytes, ahead: int): int
    requires |s| >= HEADER
  {
    Max(ahead, Max(HEADER, SizeField(s)))
  }

  /** Whenever the loop can come to look at a packet that is handled when the
      whole of s is there, that packet's struct is there. */
  predicate NeverShort(s: bytes, ahead: int)
    decreases |s|
  {
    match Turn(s)
    case Consumes(n) => Present(s, ahead) >= n && NeverShort(s[n..], Present(s, ahead) - n)
    case _ => true
  }

  lemma TurnWithMore(s: bytes, more: bytes)
    ensures Turn(s).Closes? ==> Turn(s + more).Closes?
    ensures Turn(s).Consumes? ==> Turn(s + more) == Turn(s)
    ensures Turn(s).Spins? ==> Turn(s + more).Spins? || Turn(s + more).Consumes?
    ensures |s| >= HEADER ==> SizeField(s + more) == SizeField(s) && TypeField(s + more) == TypeField(s)
  {
  }

  lemma AfterAfter(h: seq<bytes>, h': seq<bytes>, o: Outcome)
    ensures After(h, After(h', o)) == After(h + h', o)
  {
    match o {
      case Waiting(g, _) => assert h + (h' + g) == (h + h') + g;
      case Closed(g, _) => assert h + (h' + g) == (h + h') + g;
      case Spinning(g) => assert h + (h' + g) == (h + h') + g;
    }
  }

  lemma ResumeAfter(h: seq<bytes>, o: Outcome, more: bytes)
    ensures Resume(After(h, o), more) == After(h, Resume(o, more))
  {
    match o {
      case Waiting(g, rest) => AfterAfter(h, g, Dispatch(rest + more));
      case Closed(g, rest) => AfterAfter(h, g, Dispatch(rest + more));
      case Spinning(_) =>
    }
  }

  /** A turn that consumes makes progress, and the rest is dispatched from there. */
  lemma DispatchOnce(s: bytes)
    ensures match Turn(s)
      case Waits => Dispatch(s) == Waiting([], s)
      case Closes => Dispatch(s) == Closed([], s)
      case Spins => Dispatch(s) == Spinning([])
      case Consumes(n) => 0 < n <= |s| && Dispatch(s) == After([s[..n]], Dispatch(s[n..]))
  {
  }

  lemma AfterNothing(o: Outcome)
    ensures After([], o) == o
  {
    match o {
      case Waiting(h, _) => assert [] + h == h;
      case Closed(h, _) => assert [] + h == h;
      case Spinning(h) => assert [] + h == h;
    }
  }

  /** Dispatching a first part and resuming with the rest is dispatching all. */
  lemma {:induction false} DispatchInParts(first: bytes, more: bytes, ahead: int) returns (ahead': int)
    requires NeverShort(first + more, ahead) && ahead <= |first|
    ensures Resume(Dispatch(first), more) == Dispatch(first + more)
    ensures !Dispatch(first).Spinning? ==>
      ahead' <= |Dispatch(first).rest| && NeverShort(Dispatch(first).rest + more, ahead')
    decreases |first|
  {
    ahead' := ahead;
    TurnWithMore(first, more);
    AfterNothing(Dispatch(first + more));
    match Turn(first) {
      case Consumes(n) =>
        assert (first + more)[n..] == first[n..] + more && (first + more)[..n] == first[..n];
        ahead' := DispatchInParts(first[n..], more, Present(first, ahead) - n);
        ResumeAfter([first[..n]], Dispatch(first[n..]), more);
      case _ =>
    }
  }

  lemma {:induction false} RestIsSettled(s: bytes)
    ensures Dispatch(s).Waiting? ==> Turn(Dispatch(s).rest).Waits?
    ensures Dispatch(s).Closed? ==> Turn(Dispatch(s).rest).Closes?
    decreases |s|
  {
    if Turn(s).Consumes? { RestIsSettled(s[Turn(s).n..]); }
  }

  lemma {:induction false} FeedIsDispatch(unread: bytes, chunks: seq<bytes>, ahead: int)
    requires !Turn(unread).Spins? && !Turn(unread).Consumes? && (chunks == [] ==> Turn(unread).Waits?)
    requires ahead <= |unread| && NeverShort(unread + Concat(chunks), ahead)
    ensures Feed(unread, chunks) == Dispatch(unread + Concat(chunks))
    decreases |chunks|
  {
    if chunks == [] {
      assert unread + [] == unread;
    } else {
      var x, later := unread + chunks[0], Concat(chunks[1..]);
      assert unread + Concat(chunks) == x + later;
      var ahead' := DispatchInParts(x, later, ahead);
      RestIsSettled(x);
      var o := Dispatch(x);
      if !o.Spinning? {
        if |chunks| == 1 && o.Closed? {
          assert later == [] && x + [] == x;
        } else {
          FeedIsDispatch(o.rest, chunks[1..], ahead');
        }
      }
    }
  }

  /** If some packet can be looked at too early, here is where to cut. */
  lemma {:induction false} ShortCut(s: bytes, ahead: int) returns (c: nat)
    requires !NeverShort(s, ahead)
    ensures ahead <= c <= |s| && Dispatch(s[..c]).Spinning?
    ensures |Dispatch(s[..c]).handled| < |Dispatch(s).handled|
    decreases |s|
  {
    var n, m := Turn(s).n, Present(s, ahead);
    DispatchOnce(s);
    if m < n {
      c := m;
      TurnOfPrefix(s, c);
    } else {
      var c' := ShortCut(s[n..], m - n);
      c := n + c';
      TurnOfPrefix(s, c);
      Slices(s, n, c);
      DispatchOnce(s[..c]);
      hide Turn;
      hide Dispatch;
      hide NeverShort;
    }
  }

  lemma Slices(s: bytes, n: nat, c: nat)
    requires n <= c <= |s|
    ensures s[..c][n..] == s[n..][..c - n] && s[..c][..n] == s[..n]
  {
  }

  /** The loop's view of a packet with only part of the bytes there. */
  lemma TurnOfPrefix(s: bytes, c: nat)
    requires Turn(s).Consumes? && HEADER <= c <= |s| && SizeField(s) <= c
    ensures Turn(s[..c]) == if c < Turn(s).n then Spins else Turn(s)
  {
  }

  lemma TwoChunks(s: bytes, c: nat)
    requires c <= |s| && Dispatch(s[..c]).Spinning?
    ensures Concat([s[..c], s[c..]]) == s && Feed([], [s[..c], s[c..]]) == Dispatch(s[..c])
  {
    hide Dispatch;
    hide Turn;
    var x, y := s[..c], s[c..];
    assert [x, y][1..] == [y] && [y][1..] == [];
    assert Concat([y]) == y + [] == y;
    assert [] + x == x && x + y == s;
  }

  ghost predicate ChunkingIsInvisible(s: bytes) {
    forall chunks :: Concat(chunks) == s && chunks != [] ==> Feed([], chunks) == Dispatch(s)
  }

  /** The outcome does not depend on how the bytes were split into reads exactly
      when no packet can be looked at before its struct is there. */
  lemma ChunkingIsInvisibleIff(s: bytes)
    ensures ChunkingIsInvisible(s) <==> NeverShort(s, 0)
  {
    if NeverShort(s, 0) {
      forall chunks | Concat(chunks) == s && chunks != [] ensures Feed([], chunks) == Dispatch(s) {
        assert [] + Concat(chunks) == s;
        FeedIsDispatch([], chunks, 0);
      }
    } else {
      var c := ShortCut(s, 0);
      TwoChunks(s, c);
      hide Dispatch;
      hide Feed;
      hide Concat;
    }
  }

  // ---- Well-formed packets ----

  /** A client's packet; the fields of a struct as the bytes they occupy. */
  datatype Packet =
    | Login(playerId: bytes)
    | Exit(playerId: bytes)
    | Chat(playerId: bytes, text: bytes)
    | Move(playerIdx: bytes, x: bytes, y: bytes)

  predicate Fits(p: Packet) {
    match p
    case Login(id) => |id| == 128
    case Exit(id) => |id| == 128
    case Chat(id, text) => |id| == 128 && |text| == 128
    case Move(idx, x, y) => |idx| == 4 && |x| == 4 && |y| == 4
  }

  function Header(size: nat, packetType: nat): bytes
    requires size < 0x8000 && packetType < 0x8000
  {
    [(size % 256) as byte, (size / 256) as byte, (packetType % 256) as byte, (packetType / 256) as byte]
  }

  function Encode(p: Packet): bytes {
    match p
    case Login(id) => Header(132, PKT_CS_LOGIN) + id
    case Exit(id) => Header(132, PKT_CS_EXIT) + id
    case Chat(id, text) => Header(260, PKT_CS_CHAT) + (id + text)
    case Move(idx, x, y) => Header(16, PKT_CS_MOVE) + (idx + x + y)
  }

  /** What the handler of its type reads out of the bytes it is given. */
  function Decode(s: bytes): (p: Packet)
    requires |s| >= HEADER && StructSize(TypeField(s)) == Some(|s|)
    ensures Fits(p)
  {
    if TypeField(s) == PKT_CS_LOGIN then Login(s[4..])
    else if TypeField(s) == PKT_CS_EXIT then Exit(s[4..])
    else if TypeField(s) == PKT_CS_CHAT then Chat(s[4..132], s[132..])
    else Move(s[4..8], s[8..12], s[12..])
  }

  function EncodeAll(ps: seq<Packet>): bytes {
    if ps == [] then [] else Encode(ps[0]) + EncodeAll(ps[1..])
  }

  function EncodeEach(ps: seq<Packet>): seq<bytes> {
    if ps == [] then [] else [Encode(ps[0])] + EncodeEach(ps[1..])
  }

  ghost predicate AllFit(ps: seq<Packet>) {
    forall p :: p in ps ==> Fits(p)
  }

  lemma HeaderReadsBack(size: nat, packetType: nat, s: bytes)
    requires size < 0x8000 && packetType < 0x8000 && Header(size, packetType) <= s
    ensures SizeField(s) == size && TypeField(s) == packetType
  {
    assert s[..4] == Header(size, packetType);
    assert s[0] == s[..4][0] && s[1] == s[..4][1] && s[2] == s[..4][2] && s[3] == s[..4][3];
  }

  /** A packet reads back as itself, and its size field is the size of its struct. */
  lemma PacketRoundTrip(p: Packet)
    requires Fits(p)
    ensures var s := Encode(p);
      && |s| >= HEADER && SizeField(s) == |s| && StructSize(TypeField(s)) == Some(|s|)
      && 0 < TypeField(s) < PKT_MAX && Decode(s) == p
  {
    var s := Encode(p);
    match p {
      case Login(id) =>
        HeaderReadsBack(132, PKT_CS_LOGIN, s);
        assert s[4..] == id;
      case Exit(id) =>
        HeaderReadsBack(132, PKT_CS_EXIT, s);
        assert s[4..] == id;
      case Chat(id, text) =>
        HeaderReadsBack(260, PKT_CS_CHAT, s);
        assert s[4..132] == id && s[132..] == text;
      case Move(idx, x, y) =>
        HeaderReadsBack(16, PKT_CS_MOVE, s);
        assert s[4..8] == idx && s[8..12] == x && s[12..] == y;
    }
  }

  /** What a packet looks like on the wire: its size and its type, each as a
      little-endian short, and then the fields one after the other. */
  lemma WireFormat(p: Packet)
    requires Fits(p)
    ensures var s := Encode(p);
      match p
      case Login(id) => |s| == 132 && s == [132, 0, 1, 0] + id
      case Exit(id) => |s| == 132 && s == [132, 0, 31, 0] + id
      case Chat(id, text) => |s| == 260 && s == [4, 1, 11, 0] + (id + text)
      case Move(idx, x, y) => |s| == 16 && s == [16, 0, 21, 0] + (idx + x + y)
  {
    assert 260 % 256 == 4 && 260 / 256 == 1;
  }

  /** A header is read as two signed shorts, low byte first. */
  lemma HeaderFields(s: bytes)
    requires |s| >= 4
    ensures -0x8000 <= SizeField(s) < 0x8000 && (SizeField(s) - s[0] as int - 256 * s[1] as int) % 0x1_0000 == 0
    ensures -0x8000 <= TypeField(s) < 0x8000 && (TypeField(s) - s[2] as int - 256 * s[3] as int) % 0x1_0000 == 0
  {
  }

  lemma TurnAtPacket(p: Packet, more: bytes)
    requires Fits(p)
    ensures Turn(Encode(p) + more) == Consumes(|Encode(p)|)
    ensures SizeField(Encode(p) + more) == |Encode(p)|
  {
    PacketRoundTrip(p);
    TurnWithMore(Encode(p), more);
  }

  /** A packet cut short, before or behind its header, is waited for. */
  lemma TurnAtTail(p: Packet, tail: bytes)
    requires Fits(p) && tail < Encode(p)
    ensures Turn(tail) == Waits
  {
    PacketRoundTrip(p);
    var s := Encode(p);
    if |tail| >= HEADER {
      assert s == tail + s[|tail|..];
      TurnWithMore(tail, s[|tail|..]);
    }
  }

  lemma PacketIsHandled(e: bytes, rest: bytes, ahead: int)
    requires |e| >= HEADER && Turn(e + rest) == Consumes(|e|) && SizeField(e + rest) == |e| && ahead <= 0
    ensures Dispatch(e + rest) == After([e], Dispatch(rest))
    ensures NeverShort(e + rest, ahead) <==> NeverShort(rest, 0)
  {
    hide Turn;
    assert (e + rest)[|e|..] == rest && (e + rest)[..|e|] == e;
  }

  lemma FirstPacket(ps: seq<Packet>, tail: bytes)
    requires ps != []
    ensures EncodeAll(ps) + tail == Encode(ps[0]) + (EncodeAll(ps[1..]) + tail)
  {
    hide Encode;
    var e, rest := Encode(ps[0]), EncodeAll(ps[1..]);
    assert (e + rest) + tail == e + (rest + tail);
  }

  lemma {:induction false} StreamDispatches(ps: seq<Packet>, tail: bytes, ahead: int)
    requires AllFit(ps) && Turn(tail) == Waits && ahead <= 0
    ensures Dispatch(EncodeAll(ps) + tail) == Waiting(EncodeEach(ps), tail)
    ensures NeverShort(EncodeAll(ps) + tail, ahead)
    decreases |ps|
  {
    if ps == [] {
      assert [] + tail == tail;
    } else {
      var rest := EncodeAll(ps[1..]) + tail;
      StreamDispatches(ps[1..], tail, 0);
      TurnAtPacket(ps[0], rest);
      PacketRoundTrip(ps[0]);
      FirstPacket(ps, tail);
      hide Encode;
      hide Turn;
      hide TypeField;
      PacketIsHandled(Encode(ps[0]), rest, ahead);
      hide Dispatch;
      hide NeverShort;
    }
  }

  /** Whatever packets a client sends, and however their bytes and those of an
      incomplete last one are split into reads, the handlers run on exactly
      those packets in order and the incomplete one stays buffered. */
  lemma StreamRoundTrip(ps: seq<Packet>, last: Packet, tail: bytes, chunks: seq<bytes>)
    requires AllFit(ps) && Fits(last) && tail < Encode(last)
    requires Concat(chunks) == EncodeAll(ps) + tail
    ensures Feed([], chunks) == Waiting(EncodeEach(ps), tail)
    ensures |EncodeEach(ps)| == |ps|
    ensures forall i :: 0 <= i < |ps| ==>
      var s := EncodeEach(ps)[i];
      |s| >= HEADER && StructSize(TypeField(s)) == Some(|s|) && Decode(s) == ps[i]
  {
    TurnAtTail(last, tail);
    StreamDispatches(ps, tail, 0);
    assert [] + Concat(chunks) == EncodeAll(ps) + tail;
    FeedIsDispatch([], chunks, 0);
    EachReadsBack(ps);
  }

  lemma {:induction false} EachReadsBack(ps: seq<Packet>)
    requires AllFit(ps)
    ensures |EncodeEach(ps)| == |ps|
    ensures forall i :: 0 <= i < |ps| ==>
      var s := EncodeEach(ps)[i];
      |s| >= HEADER && StructSize(TypeField(s)) == Some(|s|) && Decode(s) == ps[i]
  {
    if ps != [] {
      PacketRoundTrip(ps[0]);
      EachReadsBack(ps[1..]);
    }
  }

  // ---- Streams that are received whole ----

  const LARGEST := 260

  /** Packets whose size field is the size of their struct, and then at most a part of one. */
  predicate WellFormed(s: bytes)
    decreases |s|
  {
    if |s| < HEADER then true
    else
      && StructSize(TypeField(s)) == Some(SizeField(s))
      && (|s| >= SizeField(s) ==> WellFormed(s[SizeField(s)..]))
  }

  lemma {:induction false} PrefixIsWellFormed(s: bytes, c: nat)
    requires WellFormed(s) && c <= |s|
    ensures WellFormed(s[..c])
    decreases |s|
  {
    if c >= HEADER && c >= SizeField(s) {
      var n := SizeField(s);
      PrefixIsWellFormed(s[n..], c - n);
      assert s[..c][n..] == s[n..][..c - n];
    }
  }

  /** Such a stream is dispatched up to its incomplete end, in whatever pieces it comes. */
  lemma {:induction false} WellFormedDispatches(s: bytes, ahead: int)
    requires WellFormed(s) && ahead <= 0
    ensures Dispatch(s).Waiting? && |Dispatch(s).rest| < LARGEST && NeverShort(s, ahead)
    decreases |s|
  {
    if Turn(s).Consumes? { WellFormedDispatches(s[Turn(s).n..], 0); }
  }

  lemma PartIsWellFormed(e: bytes, tail: bytes)
    requires |e| >= HEADER && StructSize(TypeField(e)) == Some(SizeField(e)) && SizeField(e) == |e| && tail < e
    ensures WellFormed(tail)
  {
    assert tail + e[|tail|..] == e;
    TurnWithMore(tail, e[|tail|..]);
  }

  lemma PacketThenWellFormed(e: bytes, rest: bytes)
    requires |e| >= HEADER && StructSize(TypeField(e)) == Some(SizeField(e)) && SizeField(e) == |e| && WellFormed(rest)
    ensures WellFormed(e + rest)
  {
    TurnWithMore(e, rest);
    assert (e + rest)[|e|..] == rest;
  }

  lemma {:induction false} EncodedIsWellFormed(ps: seq<Packet>, last: Packet, tail: bytes)
    requires AllFit(ps) && Fits(last) && tail < Encode(last)
    ensures WellFormed(EncodeAll(ps) + tail)
    decreases |ps|
  {
    if ps == [] {
      assert [] + tail == tail;
      PacketRoundTrip(last);
      hide Encode;
      PartIsWellFormed(Encode(last), tail);
      hide WellFormed;
    } else {
      EncodedIsWellFormed(ps[1..], last, tail);
      PacketRoundTrip(ps[0]);
      FirstPacket(ps, tail);
      hide Encode;
      hide EncodeAll;
      PacketThenWellFormed(Encode(ps[0]), EncodeAll(ps[1..]) + tail);
      hide WellFormed;
    }
  }

  /** Bytes that are these packets and a part of one more, cut short before its end. */
  ghost predicate IsStream(s: bytes, ps: seq<Packet>, tail: bytes) {
    AllFit(ps) && s == EncodeAll(ps) + tail && exists last :: Fits(last) && tail < Encode(last)
  }

  /** Packets as a client encodes them are well-formed, and dispatched one by one. */
  lemma StreamsAreServed(s: bytes)
    ensures forall ps, tail :: IsStream(s, ps, tail) ==>
      WellFormed(s) && Dispatch(s) == Waiting(EncodeEach(ps), tail)
  {
    forall ps, tail | IsStream(s, ps, tail) ensures WellFormed(s) && Dispatch(s) == Waiting(EncodeEach(ps), tail) {
      var last :| Fits(last) && tail < Encode(last);
      hide Encode;
      hide Fits;
      hide WellFormed;
      hide Dispatch;
      EncodedIsWellFormed(ps, last, tail);
      TurnAtTail(last, tail);
      StreamDispatches(ps, tail, 0);
    }
  }

  /** One more read. */
  lemma {:induction false} FeedOneMore(unread: bytes, chunks: seq<bytes>, chunk: bytes)
    ensures var o := Feed(unread, chunks);
      Feed(unread, chunks + [chunk]) == if o.Spinning? then o else After(o.handled, Dispatch(o.rest + chunk))
    decreases |chunks|
  {
    if chunks == [] {
      var o := Dispatch(unread + chunk);
      assert [chunk][1..] == [] && [] + [chunk] == [chunk];
      AfterNothing(o);
      if o.Waiting? { assert o.handled + [] == o.handled; }
    } else {
      var o := Dispatch(unread + chunks[0]);
      assert (chunks + [chunk])[1..] == chunks[1..] + [chunk];
      if !o.Spinning? {
        FeedOneMore(o.rest, chunks[1..], chunk);
        var o' := Feed(o.rest, chunks[1..]);
        if !o'.Spinning? { AfterAfter(o.handled, o'.handled, Dispatch(o'.rest + chunk)); }
        if |chunks| == 1 {
          FeedOneMore(o.rest, [], chunk);
          AfterNothing(Dispatch(o.rest + chunk));
        }
      }
    }
  }

  /** A disconnected session stays so, and handles nothing more. */
  lemma ClosedStaysClosed(unread: bytes, chunks: seq<bytes>, chunk: bytes)
    requires Feed(unread, chunks).Closed?
    ensures Feed(unread, chunks + [chunk]).Closed?
    ensures Feed(unread, chunks + [chunk]).handled == Feed(unread, chunks).handled
  {
    var o := Feed(unread, chunks);
    FeedOneMore(unread, chunks, chunk);
    FeedIsSettled(unread, chunks);
    TurnWithMore(o.rest, chunk);
    hide Feed;
    assert o.handled + [] == o.handled;
  }

  lemma {:induction false} FeedIsSettled(unread: bytes, chunks: seq<bytes>)
    requires Feed(unread, chunks).Closed?
    ensures Turn(Feed(unread, chunks).rest).Closes?
    decreases |chunks|
  {
    var o := Dispatch(unread + chunks[0]);
    RestIsSettled(unread + chunks[0]);
    if !(o.Closed? && |chunks| == 1) { FeedIsSettled(o.rest, chunks[1..]); }
  }

  lemma {:induction false} ConcatOneMore(chunks: seq<bytes>, chunk: bytes)
    ensures Concat(chunks + [chunk]) == Concat(chunks) + chunk
  {
    if chunks == [] {
      assert [] + [chunk] == [chunk] && [chunk][1..] == [];
    } else {
      assert (chunks + [chunk])[1..] == chunks[1..] + [chunk];
      ConcatOneMore(chunks[1..], chunk);
    }
  }

  /** However a well-formed stream is read, each read leaves less than one packet. */
  lemma WellFormedFeeds(unread: bytes, chunks: seq<bytes>, incoming: bytes)
    requires WellFormed(unread + incoming) && Turn(unread) == Waits && Concat(chunks) <= incoming
    ensures var o := Feed(unread, chunks);
      o == Dispatch(unread + Concat(chunks)) && o.Waiting? && |o.rest| < LARGEST
  {
    var s := unread + Concat(chunks);
    assert s == (unread + incoming)[..|s|];
    PrefixIsWellFormed(unread + incoming, |s|);
    WellFormedDispatches(s, 0);
    FeedIsDispatch(unread, chunks, 0);
  }

  // ---- When the loop does not return ----

  /** The size field is satisfied by the bytes there, but the type has no
      handler, or has one whose struct is larger than what is there. */
  predicate StuckAt(s: bytes) {
    && |s| >= HEADER && 0 <= SizeField(s) <= |s| && PKT_NONE < TypeField(s) < PKT_MAX
    && match StructSize(TypeField(s))
       case None => true
       case Some(n) => |s| < n
  }

  /** A struct of its type, whose size field asks for no more than is there from it on. */
  predicate IsStruct(s: bytes, there: nat) {
    |s| >= HEADER && StructSize(TypeField(s)) == Some(|s|) && 0 <= SizeField(s) <= there
  }

  /** These structs one after the other, with this many bytes behind them. */
  ghost predicate AreStructs(structs: seq<bytes>, behind: nat) {
    forall i :: 0 <= i < |structs| ==> IsStruct(structs[i], |Concat(structs[i..])| + behind)
  }

  /** These structs and then the rest. */
  ghost predicate Splits(s: bytes, structs: seq<bytes>, rest: bytes) {
    s == Concat(structs) + rest && AreStructs(structs, |rest|)
  }

  /** Less than a header, or a size field that is negative or asks for more than is there. */
  predicate WaitsAt(s: bytes) {
    |s| < HEADER || SizeField(s) < 0 || |s| < SizeField(s)
  }

  /** The size field is satisfied, but the type is none a client may send. */
  predicate ClosesAt(s: bytes) {
    |s| >= HEADER && 0 <= SizeField(s) <= |s| && !(0 < TypeField(s) < 1024)
  }

  lemma TurnIs(s: bytes)
    ensures WaitsAt(s) <==> Turn(s).Waits?
    ensures ClosesAt(s) <==> Turn(s).Closes?
    ensures StuckAt(s) <==> Turn(s).Spins?
  {
  }

  lemma TurnAtStruct(s: bytes, more: bytes)
    requires IsStruct(s, |s| + |more|)
    ensures Turn(s + more) == Consumes(|s|) && (s + more)[..|s|] == s && (s + more)[|s|..] == more
  {
  }

  lemma LaterStructs(structs: seq<bytes>, behind: nat)
    requires AreStructs(structs, behind) && structs != []
    ensures AreStructs(structs[1..], behind) && IsStruct(structs[0], |Concat(structs)| + behind)
  {
    assert structs[0..] == structs;
    forall i | 0 <= i < |structs[1..]| ensures IsStruct(structs[1..][i], |Concat(structs[1..][i..])| + behind) {
      assert structs[1..][i] == structs[i + 1] && structs[1..][i..] == structs[i + 1..];
    }
  }

  lemma OneMoreStruct(s: bytes, structs: seq<bytes>, behind: nat)
    requires AreStructs(structs, behind) && IsStruct(s, |s| + |Concat(structs)| + behind)
    ensures Concat([s] + structs) == s + Concat(structs) && AreStructs([s] + structs, behind)
  {
    var all := [s] + structs;
    assert all[1..] == structs && all[0..] == all;
    forall i | 0 <= i < |all| ensures IsStruct(all[i], |Concat(all[i..])| + behind) {
      if i > 0 { assert all[i] == structs[i - 1] && all[i..] == structs[i - 1..]; }
    }
  }

  lemma SplitsBefore(s: bytes, more: bytes, structs: seq<bytes>, rest: bytes)
    requires Splits(more, structs, rest) && IsStruct(s, |s| + |more|)
    ensures Splits(s + more, [s] + structs, rest)
  {
    hide IsStruct;
    OneMoreStruct(s, structs, |rest|);
    assert s + (Concat(structs) + rest) == (s + Concat(structs)) + rest;
    hide AreStructs;
  }

  lemma FirstStruct(s: bytes, structs: seq<bytes>, rest: bytes) returns (more: bytes)
    requires Splits(s, structs, rest) && structs != []
    ensures s == structs[0] + more && IsStruct(structs[0], |s|) && Splits(more, structs[1..], rest)
  {
    hide IsStruct;
    LaterStructs(structs, |rest|);
    more := Concat(structs[1..]) + rest;
    assert (structs[0] + Concat(structs[1..])) + rest == structs[0] + more;
    hide AreStructs;
  }

  /** The loop handles structs one by one and then does what it does with the rest. */
  lemma {:induction false} StructsAreHandled(s: bytes, structs: seq<bytes>, rest: bytes)
    requires Splits(s, structs, rest)
    ensures Dispatch(s) == After(structs, Dispatch(rest))
    decreases |structs|
  {
    hide Dispatch;
    hide Turn;
    hide IsStruct;
    if structs == [] {
      assert s == rest;
      AfterNothing(Dispatch(s));
    } else {
      var more := FirstStruct(s, structs, rest);
      hide Splits;
      TurnAtStruct(structs[0], more);
      StructsAreHandled(more, structs[1..], rest);
      DispatchOnce(s);
      AfterAfter([structs[0]], structs[1..], Dispatch(rest));
      assert [structs[0]] + structs[1..] == structs;
    }
  }

  lemma ConsumedIsStruct(s: bytes)
    requires Turn(s).Consumes?
    ensures 0 < Turn(s).n <= |s| && IsStruct(s[..Turn(s).n], |s|)
  {
  }

  /** What is handled are structs, and the loop ends at the first place where there is none. */
  lemma {:induction false} HandledAreStructs(s: bytes) returns (rest: bytes)
    ensures Splits(s, Dispatch(s).handled, rest) && !Turn(rest).Consumes?
    ensures Dispatch(s) == After(Dispatch(s).handled, Dispatch(rest))
    decreases |s|
  {
    hide Dispatch;
    hide Turn;
    hide IsStruct;
    hide AreStructs;
    DispatchOnce(s);
    if Turn(s).Consumes? {
      var n := Turn(s).n;
      ConsumedIsStruct(s);
      rest := HandledAreStructs(s[n..]);
      HandledBefore(s, n, rest);
    } else {
      rest := s;
      AfterNothing(Dispatch(s));
      NoStructs(s);
    }
  }

  lemma NoStructs(s: bytes)
    ensures Splits(s, [], s)
  {
    assert Concat([]) + s == s;
  }

  lemma HandledBefore(s: bytes, n: nat, rest: bytes)
    requires 0 < n <= |s| && IsStruct(s[..n], |s|) && Dispatch(s) == After([s[..n]], Dispatch(s[n..]))
    requires Splits(s[n..], Dispatch(s[n..]).handled, rest)
    requires Dispatch(s[n..]) == After(Dispatch(s[n..]).handled, Dispatch(rest))
    ensures Splits(s, Dispatch(s).handled, rest)
    ensures Dispatch(s) == After(Dispatch(s).handled, Dispatch(rest))
  {
    hide Dispatch;
    hide IsStruct;
    hide Splits;
    var hs := Dispatch(s[n..]).handled;
    SplitsBefore(s[..n], s[n..], hs, rest);
    AfterAfter([s[..n]], hs, Dispatch(rest));
    assert s[..n] + s[n..] == s;
    assert Dispatch(s).handled == [s[..n]] + hs;
  }

  lemma EndOfDispatch(rest: bytes)
    requires !Turn(rest).Consumes?
    ensures WaitsAt(rest) ==> Dispatch(rest) == Waiting([], rest)
    ensures ClosesAt(rest) ==> Dispatch(rest) == Closed([], rest)
    ensures StuckAt(rest) ==> Dispatch(rest) == Spinning([])
    ensures WaitsAt(rest) || ClosesAt(rest) || StuckAt(rest)
  {
    TurnIs(rest);
    DispatchOnce(rest);
  }

  lemma AfterEnd(structs: seq<bytes>, rest: bytes)
    ensures After(structs, Waiting([], rest)) == Waiting(structs, rest)
    ensures After(structs, Closed([], rest)) == Closed(structs, rest)
    ensures After(structs, Spinning([])) == Spinning(structs)
  {
    assert structs + [] == structs;
  }

  lemma OutcomeOfParts(s: bytes, structs: seq<bytes>, rest: bytes)
    requires Splits(s, structs, rest)
    ensures WaitsAt(rest) ==> Dispatch(s) == Waiting(structs, rest)
    ensures ClosesAt(rest) ==> Dispatch(s) == Closed(structs, rest)
    ensures StuckAt(rest) ==> Dispatch(s) == Spinning(structs)
  {
    StructsAreHandled(s, structs, rest);
    TurnIs(rest);
    hide Dispatch;
    hide Splits;
    if !Turn(rest).Consumes? { EndOfDispatch(rest); }
    AfterEnd(structs, rest);
  }

  /** What a call of DispatchPacket does, for all bytes: it handles structs as
      long as they come, and then waits, disconnects or comes round for ever, by what follows them. */
  lemma OutcomeIff(s: bytes, structs: seq<bytes>, rest: bytes)
    ensures Dispatch(s) == Waiting(structs, rest) <==> Splits(s, structs, rest) && WaitsAt(rest)
    ensures Dispatch(s) == Closed(structs, rest) <==> Splits(s, structs, rest) && ClosesAt(rest)
    ensures Dispatch(s) == Spinning(structs) <==> exists r :: SticksAfter(s, structs, r)
  {
    hide Dispatch;
    hide Splits;
    var r := HandledAreStructs(s);
    EndOfDispatch(r);
    AfterEnd(Dispatch(s).handled, r);
    hide Turn;
    if Splits(s, structs, rest) { OutcomeOfParts(s, structs, rest); }
    forall x | SticksAfter(s, structs, x) ensures Dispatch(s) == Spinning(structs) { OutcomeOfParts(s, structs, x); }
    assert StuckAt(r) ==> SticksAfter(s, Dispatch(s).handled, r);
    hide WaitsAt;
    hide ClosesAt;
    hide StuckAt;
  }

  /** The loop comes round for ever after these packets. */
  ghost predicate SticksAfter(s: bytes, structs: seq<bytes>, rest: bytes) {
    Splits(s, structs, rest) && StuckAt(rest)
  }

  /** The loop never returns exactly on bytes that are structs whose size fields
      are satisfied and then a header whose size field is satisfied although its
      type has no handler or its struct is not all there; it handles those structs first. */
  lemma SpinsIff(s: bytes)
    ensures Dispatch(s).Spinning? <==> exists structs, rest :: SticksAfter(s, structs, rest)
    ensures forall structs, rest :: SticksAfter(s, structs, rest) ==> Dispatch(s) == Spinning(structs)
  {
    hide Dispatch;
    hide SticksAfter;
    if Dispatch(s).Spinning? { OutcomeIff(s, Dispatch(s).handled, []); }
    forall structs, rest | SticksAfter(s, structs, rest) ensures Dispatch(s) == Spinning(structs) {
      OutcomeIff(s, structs, []);
    }
  }
}
