/** What frames look like on the wire, and what becomes of every byte. */
module FrameLaws {
  import opened Messages
  import opened Framing

  /** The number in the first four bytes, the most significant one first. */
  function Header(s: Bytes): nat
    requires |s| >= 4
  {
    (s[0] as int) * 16777216 + (s[1] as int) * 65536 + (s[2] as int) * 256 + s[3]
  }

  lemma HeaderIs(n: nat, body: Bytes)
    requires n < TWO_32
    ensures Header(BigEndian(n) + body) == n
  {
    LengthReadsBack(n, body);
    hide BigEndian;
  }

  /** A frame is four bytes, which hold the length of the body cut to 32 bits with the most significant byte
      first, and the body. */
  lemma FrameOnTheWire(body: Bytes)
    ensures |Frame(body)| == 4 + |body| && Frame(body)[4..] == body
    ensures Header(Frame(body)) == |body| % 4294967296
    ensures |body| < 4294967296 ==> Header(Frame(body)) == |body|
  {
    HeaderIs(|body| % 4294967296, body);
    hide BigEndian, Header;
    assert |body| < 4294967296 ==> |body| % 4294967296 == |body|;
  }

  /** The byte string starts with a length that no body may have. */
  predicate Broken(s: Bytes) {
    |s| >= 4 && !(1 <= Header(s) <= 65536)
  }

  /** The byte string is too short for a header, or for the body that its header announces. */
  predicate Incomplete(s: Bytes) {
    |s| < 4 || (1 <= Header(s) <= 65536 && |s| < 4 + Header(s))
  }

  lemma FrontMeans(s: Bytes)
    ensures FrameInFront(s) <==> !Broken(s) && !Incomplete(s)
    ensures BadHeader(s) <==> Broken(s)
    ensures FrameInFront(s) ==> 1 <= |Front(s)| <= 65536 && s == Frame(Front(s)) + Tail(s)
  {
    if FrameInFront(s) {
      FrontFrame(s, FromBigEndian(s));
    }
    hide Frame;
  }

  lemma FramesCons(b: Bytes, bodies: seq<Bytes>)
    ensures Concat(Frames([b] + bodies)) == Frame(b) + Concat(Frames(bodies))
  {
    assert Frames([b] + bodies)[1..] == Frames(bodies);
    hide Frame;
  }

  /** Decoding loses no byte: the frames of the bodies found and the bytes left behind are the byte string,
      every body found has 1 to 65536 bytes, and decoding stops at a broken header or an incomplete frame. */
  lemma {:induction false} DecodeKeepsEveryByte(s: Bytes)
    ensures var d := Decode(s);
            && s == Concat(Frames(d.bodies)) + d.rest
            && (forall i :: 0 <= i < |d.bodies| ==> 1 <= |d.bodies[i]| <= 65536)
            && (d.end.Illegal? <==> Broken(d.rest)) && (d.end.NeedMore? <==> Incomplete(d.rest))
    decreases |s|
  {
    hide Decode, Frame, Front, Tail, FrameInFront, BadHeader, Broken, Incomplete;
    DecodeStep(s);
    FrontMeans(s);
    if FrameInFront(s) {
      DecodeKeepsEveryByte(Tail(s));
      var d := Decode(Tail(s));
      FramesCons(Front(s), d.bodies);
      Regroup(Frame(Front(s)), Concat(Frames(d.bodies)), d.rest);
    } else {
      NothingFramed(s);
      NotBoth(s);
    }
  }

  lemma NothingFramed(s: Bytes)
    ensures Concat(Frames([])) + s == s
  {
  }

  lemma NotBoth(s: Bytes)
    ensures !Broken(s) || !Incomplete(s)
  {
  }

  /** One readable event: only the last body handled may have raised; then the connection is to be closed.
      Otherwise no complete frame is left, and it is to be closed exactly if a broken header stands in front. */
  lemma {:induction false} HandlingStops(s: Bytes, raises: Bytes -> bool)
    ensures var h := HandleBuffer(s, raises);
            && (forall i :: 0 <= i < |h.bodies| - 1 ==> !raises(h.bodies[i]))
            && (if h.bodies != [] && raises(h.bodies[|h.bodies| - 1]) then h.closing
                else (h.closing <==> Broken(h.buffer)) && (Broken(h.buffer) || Incomplete(h.buffer)))
    decreases |s|
  {
    hide Decode, HandleBuffer, Frame, Front, Tail, FrameInFront, BadHeader, Broken, Incomplete;
    HandleStep(s, raises);
    FrontMeans(s);
    if FrameInFront(s) && !raises(Front(s)) {
      HandlingStops(Tail(s), raises);
      var h := HandleBuffer(Tail(s), raises);
      var bodies := [Front(s)] + h.bodies;
      assert h.bodies != [] ==> bodies[|bodies| - 1] == h.bodies[|h.bodies| - 1];
      assert forall i :: 1 <= i < |bodies| ==> bodies[i] == h.bodies[i - 1];
    }
  }

  /** Over any readable events: the connection is to be closed exactly if some handled body raised or the
      buffer starts with a broken header. */
  lemma {:induction false} ClosingExactly(chunks: seq<Bytes>, raises: Bytes -> bool)
    ensures var h := ServerRun(chunks, raises);
            h.closing <==> (exists b :: b in h.bodies && raises(b)) || Broken(h.buffer)
  {
    hide HandleBuffer, Broken, Incomplete;
    if chunks == [] {
      NothingBroken();
    } else {
      var n := |chunks| - 1;
      ClosingExactly(chunks[..n], raises);
      var before := ServerRun(chunks[..n], raises);
      var s := before.buffer + chunks[n];
      HandlingStops(s, raises);
      BrokenStays(before.buffer, chunks[n], raises);
      RaisedAmong(before.bodies, HandleBuffer(s, raises).bodies, raises);
      LastRaises(HandleBuffer(s, raises).bodies, raises);
    }
  }

  lemma NothingBroken()
    ensures !Broken([])
  {
  }

  lemma BrokenStays(s: Bytes, more: Bytes, raises: Bytes -> bool)
    ensures Broken(s) ==> HandleBuffer(s + more, raises).buffer == s + more && Broken(s + more)
  {
  }

  lemma RaisedAmong(x: seq<Bytes>, y: seq<Bytes>, raises: Bytes -> bool)
    ensures (exists b :: b in x + y && raises(b)) <==>
            (exists b :: b in x && raises(b)) || (exists b :: b in y && raises(b))
  {
    if b :| b in x && raises(b) {
      assert b in x + y;
    }
    if b :| b in y && raises(b) {
      assert b in x + y;
    }
  }

  lemma LastRaises(bodies: seq<Bytes>, raises: Bytes -> bool)
    requires forall i :: 0 <= i < |bodies| - 1 ==> !raises(bodies[i])
    ensures (exists b :: b in bodies && raises(b)) <==> bodies != [] && raises(bodies[|bodies| - 1])
  {
    if bodies != [] {
      assert bodies[|bodies| - 1] in bodies;
    }
  }
}
