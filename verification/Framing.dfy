/** Length-prefixed frames: a 4-byte big-endian length (network byte order, Appendix B of RFC 791)
    and the body. */
module Framing {

  type Byte = b: nat | b < 256

  const HEADER_LEN: nat := 4
  const MAX_FRAME_LEN: nat := 64 * 1024
  const TWO_32: nat := 0x1_0000_0000

  type Bytes = seq<Byte>

  /** `htonl` and `ntohl` on the four bytes of a length. */
  function BigEndian(n: nat): (s: Bytes)
    requires n < TWO_32
    ensures |s| == HEADER_LEN
  {
    [n / 0x100_0000, n / 0x1_0000 % 0x100, n / 0x100 % 0x100, n % 0x100]
  }

  function FromBigEndian(s: Bytes): nat
    requires |s| >= HEADER_LEN
  {
    (s[0] as int) * 0x100_0000 + (s[1] as int) * 0x1_0000 + (s[2] as int) * 0x100 + s[3]
  }

  lemma LengthReadsBack(n: nat, rest: Bytes)
    requires n < TWO_32
    ensures FromBigEndian(BigEndian(n) + rest) == n
  {
    var a, b, c := n / 0x100, n / 0x1_0000, n / 0x100_0000;
    assert b == a / 0x100 && c == b / 0x100;
    assert n == a * 0x100 + n % 0x100;
    assert a == b * 0x100 + a % 0x100;
    assert b == c * 0x100 + b % 0x100;
  }

  lemma BytesReadBack(s: Bytes)
    requires |s| >= HEADER_LEN
    ensures FromBigEndian(s) < TWO_32 && BigEndian(FromBigEndian(s)) == s[..HEADER_LEN]
  {
    FourDigits(s[0], s[1], s[2], s[3]);
  }

  lemma FourDigits(a: Byte, b: Byte, c: Byte, d: Byte)
    ensures var n: nat := (a as int) * 0x100_0000 + (b as int) * 0x1_0000 + (c as int) * 0x100 + d;
            && n / 0x100_0000 == a as int && n / 0x1_0000 % 0x100 == b as int
            && n / 0x100 % 0x100 == c as int && n % 0x100 == d as int
  {
    var n: nat := (a as int) * 0x100_0000 + (b as int) * 0x1_0000 + (c as int) * 0x100 + d;
    By16777216(a, (b as int) * 0x1_0000 + (c as int) * 0x100 + d);
    By65536((a as int) * 0x100 + b, (c as int) * 0x100 + d);
    By256((a as int) * 0x1_0000 + (b as int) * 0x100 + c, d);
    By256(a, b);
    By256((a as int) * 0x100 + b, c);
  }

  lemma By256(q: nat, r: nat)
    requires r < 0x100
    ensures (q * 0x100 + r) / 0x100 == q && (q * 0x100 + r) % 0x100 == r
  {
  }

  lemma By65536(q: nat, r: nat)
    requires r < 0x1_0000
    ensures (q * 0x1_0000 + r) / 0x1_0000 == q
  {
  }

  lemma By16777216(q: nat, r: nat)
    requires r < 0x100_0000
    ensures (q * 0x100_0000 + r) / 0x100_0000 == q
  {
  }

  /** What both senders build; the length is truncated to 32 bits. */
  function Frame(body: Bytes): Bytes {
    BigEndian(|body| % TWO_32) + body
  }

  predicate Legal(len: nat) {
    0 < len <= MAX_FRAME_LEN
  }

  datatype End = NeedMore | Illegal

  /** The bodies in front of a byte string, what is left behind them, and why decoding stopped. */
  datatype Decoded = Decoded(bodies: seq<Bytes>, rest: Bytes, end: End)

  function Decode(s: Bytes): Decoded {
    if |s| < HEADER_LEN then Decoded([], s, NeedMore)
    else
      var len := FromBigEndian(s);
      if !Legal(len) then Decoded([], s, Illegal)
      else if |s| < HEADER_LEN + len then Decoded([], s, NeedMore)
      else
        var d := Decode(s[HEADER_LEN + len..]);
        Decoded([s[HEADER_LEN..HEADER_LEN + len]] + d.bodies, d.rest, d.end)
  }

  /** A legal frame stands in front of the byte string. */
  predicate FrameInFront(s: Bytes) {
    |s| >= HEADER_LEN && Legal(FromBigEndian(s)) && |s| >= HEADER_LEN + FromBigEndian(s)
  }

  /** An illegal length stands in front of the byte string. */
  predicate BadHeader(s: Bytes) {
    |s| >= HEADER_LEN && !Legal(FromBigEndian(s))
  }

  function Front(s: Bytes): Bytes
    requires FrameInFront(s)
  {
    s[HEADER_LEN..HEADER_LEN + FromBigEndian(s)]
  }

  function Tail(s: Bytes): (r: Bytes)
    requires FrameInFront(s)
    ensures |r| < |s|
  {
    s[HEADER_LEN + FromBigEndian(s)..]
  }

  lemma DecodeStep(s: Bytes)
    ensures if FrameInFront(s) then
              var d := Decode(Tail(s)); Decode(s) == Decoded([Front(s)] + d.bodies, d.rest, d.end)
            else Decode(s) == Decoded([], s, if BadHeader(s) then Illegal else NeedMore)
  {
  }

  lemma FrontStays(a: Bytes, b: Bytes)
    requires FrameInFront(a)
    ensures FrameInFront(a + b) && Front(a + b) == Front(a) && Tail(a + b) == Tail(a) + b
  {
    assert FromBigEndian(a + b) == FromBigEndian(a);
  }

  /** Decoding can stop anywhere and go on when more bytes have come: nothing is lost, repeated or
      decided differently. */
  lemma {:induction false} DecodeResumes(a: Bytes, b: Bytes)
    ensures Decode(a + b) ==
            var d := Decode(a);
            var d' := Decode(d.rest + b);
            Decoded(d.bodies + d'.bodies, d'.rest, d'.end)
    decreases |a|
  {
    hide Decode, Front, Tail, FrameInFront;
    DecodeStep(a);
    if FrameInFront(a) {
      FrontStays(a, b);
      DecodeStep(a + b);
      DecodeResumes(Tail(a), b);
      var d1 := Decode(Tail(a));
      var d2 := Decode(d1.rest + b);
      assert [Front(a)] + (d1.bodies + d2.bodies) == ([Front(a)] + d1.bodies) + d2.bodies;
    } else {
      assert [] + Decode(a + b).bodies == Decode(a + b).bodies;
    }
  }

  lemma {:induction false} RestIsStuck(s: Bytes)
    ensures Decode(Decode(s).rest) == Decoded([], Decode(s).rest, Decode(s).end)
    decreases |s|
  {
    if |s| >= HEADER_LEN && Legal(FromBigEndian(s)) && |s| >= HEADER_LEN + FromBigEndian(s) {
      RestIsStuck(s[HEADER_LEN + FromBigEndian(s)..]);
    }
  }

  /** An illegal length is never consumed: whatever follows it, no further body is decoded. */
  lemma IllegalIsFinal(a: Bytes, b: Bytes)
    requires Decode(a).end.Illegal?
    ensures Decode(a + b) == Decoded(Decode(a).bodies, Decode(a).rest + b, Illegal)
  {
    DecodeResumes(a, b);
    RestIsStuck(a);
    var rest := Decode(a).rest;
    assert FromBigEndian(rest + b) == FromBigEndian(rest);
  }

  function Concat(chunks: seq<Bytes>): Bytes {
    if chunks == [] then [] else chunks[0] + Concat(chunks[1..])
  }

  lemma {:induction false} ConcatSnoc(chunks: seq<Bytes>, c: Bytes)
    ensures Concat(chunks + [c]) == Concat(chunks) + c
  {
    if chunks == [] {
      assert [c][1..] == [];
    } else {
      assert (chunks + [c])[1..] == chunks[1..] + [c];
      ConcatSnoc(chunks[1..], c);
    }
  }

  function Frames(bodies: seq<Bytes>): seq<Bytes> {
    seq(|bodies|, i requires 0 <= i < |bodies| => Frame(bodies[i]))
  }

  lemma FrameDecodes(body: Bytes, tail: Bytes)
    requires Legal(|body|)
    ensures FrameInFront(Frame(body) + tail) && Front(Frame(body) + tail) == body && Tail(Frame(body) + tail) == tail
  {
    var s := Frame(body) + tail;
    assert s == BigEndian(|body|) + (body + tail);
    LengthReadsBack(|body|, body + tail);
  }

  lemma NothingDecodes()
    ensures Decode([]) == Decoded([], [], NeedMore)
  {
  }

  lemma {:induction false} LegalFramesDecode(bodies: seq<Bytes>)
    requires forall i :: 0 <= i < |bodies| ==> Legal(|bodies[i]|)
    ensures Decode(Concat(Frames(bodies))) == Decoded(bodies, [], NeedMore)
  {
    hide Decode, Front, Tail, FrameInFront, Frame, Legal;
    if bodies == [] {
      NothingDecodes();
    } else {
      var tail := Concat(Frames(bodies[1..]));
      LegalFramesDecode(bodies[1..]);
      assert Frames(bodies)[1..] == Frames(bodies[1..]);
      assert Concat(Frames(bodies)) == Frame(bodies[0]) + tail;
      FrameDecodes(bodies[0], tail);
      DecodeStep(Frame(bodies[0]) + tail);
      assert bodies == [bodies[0]] + bodies[1..];
    }
  }

  lemma {:induction false} DecodedBodiesAreLegal(s: Bytes)
    ensures forall i :: 0 <= i < |Decode(s).bodies| ==> Legal(|Decode(s).bodies[i]|)
    decreases |s|
  {
    if |s| >= HEADER_LEN && Legal(FromBigEndian(s)) && |s| >= HEADER_LEN + FromBigEndian(s) {
      DecodedBodiesAreLegal(s[HEADER_LEN + FromBigEndian(s)..]);
    }
  }

  /** Round trip: a list of bodies survives encoding and decoding exactly when every body has between
      1 and 65536 bytes. Neither sender checks this. */
  lemma RoundTripExactly(bodies: seq<Bytes>)
    ensures Decode(Concat(Frames(bodies))) == Decoded(bodies, [], NeedMore)
            <==> forall i :: 0 <= i < |bodies| ==> 1 <= |bodies[i]| <= 65536
  {
    DecodedBodiesAreLegal(Concat(Frames(bodies)));
    if forall i :: 0 <= i < |bodies| ==> Legal(|bodies[i]|) {
      LegalFramesDecode(bodies);
    }
  }

  // ----- the server's incremental decoder

  /** What one readable event makes of the buffer: decoding stops behind the first body whose handling
      raises a json exception. */
  datatype Handled = Handled(bodies: seq<Bytes>, buffer: Bytes, closing: bool)

  function HandleBuffer(s: Bytes, raises: Bytes -> bool): Handled {
    if |s| < HEADER_LEN then Handled([], s, false)
    else
      var len := FromBigEndian(s);
      if !Legal(len) then Handled([], s, true)
      else if |s| < HEADER_LEN + len then Handled([], s, false)
      else
        var body := s[HEADER_LEN..HEADER_LEN + len];
        if raises(body) then Handled([body], s[HEADER_LEN + len..], true)
        else
          var h := HandleBuffer(s[HEADER_LEN + len..], raises);
          Handled([body] + h.bodies, h.buffer, h.closing)
  }

  /** Readable events one after the other, also after the server has begun to close. */
  function ServerRun(chunks: seq<Bytes>, raises: Bytes -> bool): Handled {
    if chunks == [] then Handled([], [], false)
    else
      var n := |chunks| - 1;
      var before := ServerRun(chunks[..n], raises);
      var h := HandleBuffer(before.buffer + chunks[n], raises);
      Handled(before.bodies + h.bodies, h.buffer, before.closing || h.closing)
  }

  lemma HandleStep(s: Bytes, raises: Bytes -> bool)
    ensures if !FrameInFront(s) then HandleBuffer(s, raises) == Handled([], s, BadHeader(s))
            else if raises(Front(s)) then HandleBuffer(s, raises) == Handled([Front(s)], Tail(s), true)
            else
              var h := HandleBuffer(Tail(s), raises);
              HandleBuffer(s, raises) == Handled([Front(s)] + h.bodies, h.buffer, h.closing)
  {
  }

  lemma PutBehind(x: seq<Bytes>, b: Bytes, y: seq<Bytes>)
    ensures x + ([b] + y) == (x + [b]) + y
  {
  }

  lemma PutInFront(b: Bytes, x: seq<Bytes>, y: seq<Bytes>)
    ensures [b] + (x + y) == ([b] + x) + y
    ensures b in [b] + x && forall c :: c in x ==> c in [b] + x
  {
  }

  lemma {:induction false} HandledThenRest(s: Bytes, raises: Bytes -> bool)
    ensures var h := HandleBuffer(s, raises);
            var d := Decode(h.buffer);
            Decode(s) == Decoded(h.bodies + d.bodies, d.rest, d.end)
    ensures (forall b :: b in Decode(s).bodies ==> !raises(b)) ==>
              HandleBuffer(s, raises) == Handled(Decode(s).bodies, Decode(s).rest, Decode(s).end.Illegal?)
    decreases |s|
  {
    hide Decode, HandleBuffer, FrameInFront, Front, Tail;
    DecodeStep(s);
    HandleStep(s, raises);
    if FrameInFront(s) {
      HandledThenRest(Tail(s), raises);
      var h := HandleBuffer(Tail(s), raises);
      PutInFront(Front(s), h.bodies, Decode(h.buffer).bodies);
      PutInFront(Front(s), Decode(Tail(s)).bodies, []);
    } else {
      assert [] + Decode(s).bodies == Decode(s).bodies;
    }
  }

  /** Whatever has been handled is followed by what can still be decoded from the buffer. */
  lemma {:induction false} NothingLostInBuffer(chunks: seq<Bytes>, raises: Bytes -> bool)
    ensures var h := ServerRun(chunks, raises);
            var d := Decode(h.buffer);
            Decode(Concat(chunks)) == Decoded(h.bodies + d.bodies, d.rest, d.end)
  {
    hide Decode, HandleBuffer;
    if chunks != [] {
      var n := |chunks| - 1;
      NothingLostInBuffer(chunks[..n], raises);
      var before := ServerRun(chunks[..n], raises);
      var s := before.buffer + chunks[n];
      assert chunks == chunks[..n] + [chunks[n]];
      ConcatSnoc(chunks[..n], chunks[n]);
      DecodeResumes(Concat(chunks[..n]), chunks[n]);
      DecodeResumes(before.buffer, chunks[n]);
      HandledThenRest(s, raises);
      SameBodies(before, Decode(before.buffer), Decode(Decode(before.buffer).rest + chunks[n]),
                 HandleBuffer(s, raises), Decode(HandleBuffer(s, raises).buffer));
    } else {
      NothingDecodes();
    }
  }

  lemma {:induction false} QuietRun(chunks: seq<Bytes>, raises: Bytes -> bool)
    requires forall b :: b in Decode(Concat(chunks)).bodies ==> !raises(b)
    ensures var d := Decode(Concat(chunks));
            ServerRun(chunks, raises) == Handled(d.bodies, d.rest, d.end.Illegal?)
  {
    hide Decode, HandleBuffer;
    if chunks != [] {
      var n := |chunks| - 1;
      var front, last := chunks[..n], chunks[n];
      assert chunks == front + [last];
      ConcatSnoc(front, last);
      DecodeResumes(Concat(front), last);
      QuietRun(front, raises);
      HandledThenRest(Decode(Concat(front)).rest + last, raises);
      if Decode(Concat(front)).end.Illegal? {
        IllegalIsFinal(Concat(front), last);
      }
    } else {
      NothingDecodes();
    }
  }

  /** Chunking does not matter: however the bytes are cut, the bodies handled so far followed by those
      still to be decoded from the buffer are the bodies of the whole stream; and when no handler raises,
      all of them have been handled, the buffer is what the whole stream leaves over, and the server
      closes the connection exactly when that starts with an illegal length. */
  lemma ServerIgnoresChunking(chunks: seq<Bytes>, raises: Bytes -> bool)
    ensures var h := ServerRun(chunks, raises);
            var d := Decode(h.buffer);
            Decode(Concat(chunks)) == Decoded(h.bodies + d.bodies, d.rest, d.end)
    ensures (forall b :: b in Decode(Concat(chunks)).bodies ==> !raises(b)) ==>
              var d := Decode(Concat(chunks));
              ServerRun(chunks, raises) == Handled(d.bodies, d.rest, d.end.Illegal?)
  {
    hide Decode, ServerRun, Concat;
    NothingLostInBuffer(chunks, raises);
    if forall b :: b in Decode(Concat(chunks)).bodies ==> !raises(b) {
      QuietRun(chunks, raises);
    }
  }

  /** Client to server: however the encoded bodies are cut into pieces, the server handles exactly these
      bodies, is left with an empty buffer and keeps the connection open, if and only if every body has
      between 1 and 65536 bytes. */
  lemma ServerReceivesExactly(chunks: seq<Bytes>, bodies: seq<Bytes>, raises: Bytes -> bool)
    requires Concat(chunks) == Concat(Frames(bodies))
    requires forall b :: b in Decode(Concat(chunks)).bodies ==> !raises(b)
    ensures ServerRun(chunks, raises) == Handled(bodies, [], false)
            <==> forall i :: 0 <= i < |bodies| ==> 1 <= |bodies[i]| <= 65536
  {
    ServerIgnoresChunking(chunks, raises);
    RoundTripExactly(bodies);
    hide Decode, ServerRun, Frames;
  }

  lemma SameBodies(before: Handled, d: Decoded, d': Decoded, h: Handled, d'': Decoded)
    requires d.bodies + d'.bodies == h.bodies + d''.bodies
    ensures (before.bodies + d.bodies) + d'.bodies == (before.bodies + h.bodies) + d''.bodies
  {
    assert (before.bodies + d.bodies) + d'.bodies == before.bodies + (d.bodies + d'.bodies);
    assert (before.bodies + h.bodies) + d''.bodies == before.bodies + (h.bodies + d''.bodies);
  }

  /** The checks of the decoding loops, one after the other. */
  lemma FrontIs(s: Bytes)
    ensures BadHeader(s) <==> |s| >= HEADER_LEN && !Legal(FromBigEndian(s))
    ensures FrameInFront(s) <==>
            |s| >= HEADER_LEN && Legal(FromBigEndian(s)) && |s| >= HEADER_LEN + FromBigEndian(s)
    ensures FrameInFront(s) ==>
              var len := FromBigEndian(s);
              Front(s) == s[HEADER_LEN..HEADER_LEN + len] && Tail(s) == s[HEADER_LEN + len..] && |Tail(s)| < |s|
  {
  }

  /** Handling `s` after `was` comes to the same as handling `buffer` after `handled`. */
  ghost predicate Reaches(was: seq<Bytes>, s: Bytes, handled: seq<Bytes>, buffer: Bytes, raises: Bytes -> bool) {
    var h, h' := HandleBuffer(s, raises), HandleBuffer(buffer, raises);
    was + h.bodies == handled + h'.bodies && h.buffer == h'.buffer && h.closing == h'.closing
  }

  lemma ReachesItself(was: seq<Bytes>, s: Bytes, raises: Bytes -> bool)
    ensures Reaches(was, s, was, s, raises)
  {
    hide HandleBuffer;
  }

  lemma ReachesNext(was: seq<Bytes>, s: Bytes, handled: seq<Bytes>, buffer: Bytes, raises: Bytes -> bool)
    requires Reaches(was, s, handled, buffer, raises) && FrameInFront(buffer)
    ensures if raises(Front(buffer)) then
              var h := HandleBuffer(s, raises);
              was + h.bodies == handled + [Front(buffer)] && h.buffer == Tail(buffer) && h.closing
            else Reaches(was, s, handled + [Front(buffer)], Tail(buffer), raises)
  {
    HandleStep(buffer, raises);
    hide HandleBuffer, FrameInFront, Front, Tail, Decode;
    PutBehind(handled, Front(buffer), HandleBuffer(Tail(buffer), raises).bodies);
  }

  lemma ReachesEnd(was: seq<Bytes>, s: Bytes, handled: seq<Bytes>, buffer: Bytes, raises: Bytes -> bool)
    requires Reaches(was, s, handled, buffer, raises) && !FrameInFront(buffer)
    ensures var h := HandleBuffer(s, raises);
            was + h.bodies == handled && h.buffer == buffer && (h.closing <==> BadHeader(buffer))
  {
    HandleStep(buffer, raises);
    hide HandleBuffer, FrameInFront, BadHeader, Decode;
    assert handled + [] == handled;
  }

  /** A connection as the server's `onMessage` sees it. */
  class ServerConnection {
    var buffer: Bytes
    var handled: seq<Bytes>
    var closing: bool

    ghost function View(): Handled
      reads this
    {
      Handled(handled, buffer, closing)
    }

    constructor ()
      ensures View() == Handled([], [], false)
    {
      buffer, handled, closing := [], [], false;
    }

    /** `ChatServer::onMessage` after `chunk` has been read into the buffer; `raises` tells for which
        bodies parsing or the handler throws a json exception. */
    method OnMessage(chunk: Bytes, raises: Bytes -> bool)
      modifies this
      ensures var h := HandleBuffer(old(buffer) + chunk, raises);
              View() == Handled(old(handled) + h.bodies, h.buffer, old(closing) || h.closing)
    {
      buffer := buffer + chunk;
      ghost var s, was := buffer, handled;
      hide Reaches, HandleBuffer, FrameInFront, BadHeader, Front, Tail, FromBigEndian;
      ReachesItself(was, s, raises);
      while |buffer| >= HEADER_LEN
        invariant Reaches(was, s, handled, buffer, raises) && closing == old(closing)
        decreases |buffer|
      {
        FrontIs(buffer);
        var bodyLen := FromBigEndian(buffer);
        if bodyLen == 0 || bodyLen > MAX_FRAME_LEN {
          ReachesEnd(was, s, handled, buffer, raises);
          closing := true;
          return;
        }
        if |buffer| < HEADER_LEN + bodyLen {
          break;
        }
        var body := buffer[HEADER_LEN..HEADER_LEN + bodyLen];
        ReachesNext(was, s, handled, buffer, raises);
        buffer := buffer[HEADER_LEN + bodyLen..];
        handled := handled + [body];
        if raises(body) {
          closing := true;
          return;
        }
      }
      FrontIs(buffer);
      ReachesEnd(was, s, handled, buffer, raises);
    }
  }

  // ----- sending

  /** One direction of a TCP connection. `script` holds what successive `send` calls will return. */
  class Wire {
    var bytes: Bytes
    var script: seq<int>

    constructor (script: seq<int>)
      ensures bytes == [] && this.script == script
    {
      bytes, this.script := [], script;
    }

    /** `send`: takes some of the bytes, or fails with a count that is not positive. */
    method Send(data: Bytes) returns (n: int)
      modifies this
      ensures n <= |data|
      ensures bytes == if n > 0 then old(bytes) + data[..n] else old(bytes)
    {
      n := if script == [] then -1 else script[0];
      if script != [] {
        script := script[1..];
      }
      if n > |data| {
        n := |data|;
      }
      if n > 0 {
        bytes := bytes + data[..n];
      }
    }

    /** `TcpConnection::send`, which buffers what the socket does not take. */
    method SendAll(data: Bytes)
      modifies this
      ensures bytes == old(bytes) + data
    {
      bytes := bytes + data;
    }
  }

  /** `sendFrame`: partial sends never lose, repeat or reorder bytes; on failure a strict prefix of the
      frame is on the wire. */
  method SendFrame(wire: Wire, body: Bytes) returns (ok: bool)
    modifies wire
    ensures ok ==> wire.bytes == old(wire.bytes) + Frame(body)
    ensures !ok ==> exists k :: 0 <= k < |Frame(body)| && wire.bytes == old(wire.bytes) + Frame(body)[..k]
  {
    var frame := BigEndian(|body| % TWO_32) + body;
    var sent: nat := 0;
    while sent < |frame|
      invariant sent <= |frame|
      invariant wire.bytes == old(wire.bytes) + frame[..sent]
    {
      var n := wire.Send(frame[sent..]);
      if n <= 0 {
        assert frame == Frame(body);
        return false;
      }
      assert frame[..sent] + frame[sent..][..n] == frame[..sent + n];
      sent := sent + n;
    }
    assert frame[..sent] == frame;
    return true;
  }

  /** `sendWithHeader`. */
  method SendWithHeader(wire: Wire, connected: bool, body: Bytes)
    modifies wire
    ensures wire.bytes == if connected then old(wire.bytes) + Frame(body) else old(wire.bytes)
  {
    if !connected {
      return;
    }
    var frame := BigEndian(|body| % TWO_32);
    frame := frame + body;
    wire.SendAll(frame);
  }

  // ----- the client's receiver

  /** The client's receive buffer and the pieces that successive `recv` calls will return. */
  class ClientConnection {
    var recvBuf: Bytes
    var incoming: seq<Bytes>

    constructor (incoming: seq<Bytes>)
      ensures recvBuf == [] && this.incoming == incoming
    {
      recvBuf, this.incoming := [], incoming;
    }

    /** All bytes that are still to be decoded. */
    ghost function Stream(): Bytes
      reads this
    {
      recvBuf + Concat(incoming)
    }

    /** `recvFrame`: succeeds exactly when a legal frame stands in front of the stream, however it is cut
        into pieces, and takes exactly that frame off it. After an illegal length the buffer is empty. */
    method RecvFrame() returns (ok: bool, body: Bytes)
      modifies this
      ensures ok <==> Decode(old(Stream())).bodies != []
      ensures ok ==> body == Decode(old(Stream())).bodies[0] &&
                     old(Stream()) == Frame(body) + Stream() &&
                     Decode(old(Stream())) ==
                       Decoded([body] + Decode(Stream()).bodies, Decode(Stream()).rest, Decode(Stream()).end)
      ensures !ok ==> (if Decode(old(Stream())).end.Illegal? then recvBuf == []
                       else incoming == [] && recvBuf == old(Stream()))
    {
      body := [];
      ghost var s := Stream();
      while true
        invariant Stream() == s
        decreases |incoming|
      {
        if |recvBuf| >= HEADER_LEN {
          var bodyLen := FromBigEndian(recvBuf);
          assert FromBigEndian(s) == bodyLen;
          if bodyLen == 0 || bodyLen > MAX_FRAME_LEN {
            recvBuf := [];
            return false, [];
          }
          if |recvBuf| >= HEADER_LEN + bodyLen {
            body := recvBuf[HEADER_LEN..HEADER_LEN + bodyLen];
            FrontFrame(s, bodyLen);
            recvBuf := recvBuf[HEADER_LEN + bodyLen..];
            assert Stream() == s[HEADER_LEN + bodyLen..];
            assert body == s[HEADER_LEN..HEADER_LEN + bodyLen];
            return true, body;
          }
        }
        if incoming == [] {
          assert s == recvBuf;
          return false, [];
        }
        assert recvBuf + Concat(incoming) == recvBuf + incoming[0] + Concat(incoming[1..]);
        recvBuf, incoming := recvBuf + incoming[0], incoming[1..];
      }
    }
  }

  /** The frame in front of a byte string is the encoding of its body. */
  lemma FrontFrame(s: Bytes, len: nat)
    requires |s| >= HEADER_LEN && FromBigEndian(s) == len && Legal(len) && |s| >= HEADER_LEN + len
    ensures s == Frame(s[HEADER_LEN..HEADER_LEN + len]) + s[HEADER_LEN + len..]
  {
    BytesReadBack(s);
    hide BigEndian, FromBigEndian;
    ThreeParts(s, HEADER_LEN, HEADER_LEN + len);
    assert |s[HEADER_LEN..HEADER_LEN + len]| == len && len % TWO_32 == len;
  }

  lemma ThreeParts(s: Bytes, i: nat, j: nat)
    requires i <= j <= |s|
    ensures s == s[..i] + s[i..j] + s[j..]
  {
  }
}
