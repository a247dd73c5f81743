/** From the cluster through the frames of a connection to what a client's receive thread displays. */
module Sessions {
  import opened Messages
  import opened Handlers
  import opened Cluster
  import opened Runs
  import opened Provenance
  import opened EndToEnd
  import opened ReadTasks
  import N = Numbering
  import Ch = Channels
  import Laws = ChannelLaws
  import Ord = Orderers
  import F = Framing
  import Reorderer

  // ----- frames on a connection that may break

  ghost predicate Prefix(a: seq<F.Bytes>, b: seq<F.Bytes>) {
    |a| <= |b| && a == b[..|a|]
  }

  lemma PrefixCons(x: F.Bytes, a: seq<F.Bytes>, b: seq<F.Bytes>)
    requires Prefix(a, b)
    ensures Prefix([x] + a, [x] + b)
  {
  }

  /** A frame of an illegal body stops the decoder, unless its length does not fit 32 bits. */
  lemma IllegalFrameStops(body: F.Bytes, tail: F.Bytes)
    requires !F.Legal(|body|) && |body| < F.TWO_32
    ensures F.Decode(F.Frame(body) + tail).bodies == []
  {
    var s := F.Frame(body) + tail;
    FrameHeader(body, tail);
    hide F.FromBigEndian, F.Frame;
    F.DecodeStep(s);
  }

  lemma FrameHeader(body: F.Bytes, tail: F.Bytes)
    requires |body| < F.TWO_32
    ensures |F.Frame(body) + tail| >= F.HEADER_LEN && F.FromBigEndian(F.Frame(body) + tail) == |body|
  {
    hide F.FromBigEndian, F.BigEndian;
    F.LengthReadsBack(|body|, body + tail);
    Regroup(F.BigEndian(|body|), body, tail);
  }

  /** Of any frames a decoder finds the bodies up to the first illegal one. */
  lemma {:induction false} FramesDecodeToPrefix(bodies: seq<F.Bytes>)
    requires forall i :: 0 <= i < |bodies| ==> |bodies[i]| < F.TWO_32
    ensures Prefix(F.Decode(F.Concat(F.Frames(bodies))).bodies, bodies)
  {
    hide F.Decode, F.Front, F.Tail, F.FrameInFront, F.Frame, F.Legal, Prefix;
    if bodies == [] {
      F.NothingDecodes();
      NothingIsPrefix([]);
    } else {
      var tail := F.Concat(F.Frames(bodies[1..]));
      FramesDecodeToPrefix(bodies[1..]);
      assert F.Frames(bodies)[1..] == F.Frames(bodies[1..]);
      assert F.Concat(F.Frames(bodies)) == F.Frame(bodies[0]) + tail;
      assert bodies == [bodies[0]] + bodies[1..];
      if F.Legal(|bodies[0]|) {
        F.FrameDecodes(bodies[0], tail);
        F.DecodeStep(F.Frame(bodies[0]) + tail);
        PrefixCons(bodies[0], F.Decode(tail).bodies, bodies[1..]);
      } else {
        IllegalFrameStops(bodies[0], tail);
        NothingIsPrefix(bodies);
      }
    }
  }

  lemma NothingIsPrefix(b: seq<F.Bytes>)
    ensures Prefix([], b)
  {
  }

  /** `stream` is what came through of the frames of `bodies`. */
  ghost predicate CameThrough(stream: F.Bytes, bodies: seq<F.Bytes>) {
    exists rest :: stream + rest == F.Concat(F.Frames(bodies))
  }

  lemma StreamDecodesToPrefix(stream: F.Bytes, bodies: seq<F.Bytes>)
    requires CameThrough(stream, bodies) && forall i :: 0 <= i < |bodies| ==> |bodies[i]| < F.TWO_32
    ensures Prefix(F.Decode(stream).bodies, bodies)
  {
    var rest :| stream + rest == F.Concat(F.Frames(bodies));
    F.DecodeResumes(stream, rest);
    FramesDecodeToPrefix(bodies);
    hide F.Decode, F.Concat, F.Frames;
    var a, b := F.Decode(stream).bodies, F.Decode(F.Decode(stream).rest + rest).bodies;
    assert (a + b)[..|a|] == a;
  }

  // ----- what the server puts on a connection

  /** `json::dump` and `json::parse`. */
  datatype Codec = Codec(dump: Message -> F.Bytes, parse: F.Bytes -> Parsed)

  /** One client: its reorderer went through `login` at login, its connection was sent the frames of `sent`,
      of which `stream` came through, its receive thread read the clock as `clock` says and left the
      reorderer in state `end`. */
  datatype Reader = Reader(timeout: int, login: seq<Ord.Input>, sent: seq<F.Bytes>, stream: F.Bytes,
                           clock: nat -> Timing, end: Ord.Orderer)

  /** Parsing undoes printing on the accepted messages. */
  ghost predicate ReadsBack(codec: Codec, w: World) {
    forall m :: m in w.accepted ==> codec.parse(codec.dump(m)) == Parsed.Chat(m)
  }

  /** Each body is a printed copy that the cluster pushed, or no chat message. */
  ghost predicate Sends(bodies: seq<F.Bytes>, w: World, codec: Codec) {
    forall i :: 0 <= i < |bodies| ==>
      |bodies[i]| < F.TWO_32 &&
      ((exists r :: r in w.pushed && bodies[i] == codec.dump(r.msg)) || !codec.parse(bodies[i]).Chat?)
  }

  ghost predicate Running(clock: nat -> Timing) {
    forall i, c :: i >= 0 ==> clock(i).tick > 0 && clock(i).reading(c) > 0 && clock(i).arrival > 0
  }

  /** What `login` (src/client/main.cpp) and the receive thread may have done when the cluster is in `w`. */
  ghost predicate Session(x: Reader, codec: Codec, w: World) {
    && ClientRun(x.timeout, x.login, w)
    && Sends(x.sent, w, codec) && CameThrough(x.stream, x.sent) && Running(x.clock)
    && Replays(Ord.Process(Ord.EMPTY, x.timeout, x.login), x.end, x.timeout, F.Decode(x.stream).bodies, codec.parse,
               x.clock)
  }

  ghost predicate HeardFrom(bodies: seq<F.Bytes>, parse: F.Bytes -> Parsed, c: string, origin: iset<Message>) {
    forall i :: 0 <= i < |bodies| && parse(bodies[i]).Chat? && InConversation(parse(bodies[i]).m, c) ==>
      parse(bodies[i]).m in origin
  }

  lemma {:induction false} HeardArrivesFrom(bodies: seq<F.Bytes>, parse: F.Bytes -> Parsed, clock: nat -> Timing,
                                            c: string, origin: iset<Message>)
    requires HeardFrom(bodies, parse, c, origin) && Running(clock)
    ensures Laws.ProperRun(Heard(bodies, parse, clock, c)) && ArriveFrom(Heard(bodies, parse, clock, c), origin)
  {
    if bodies != [] {
      HeardArrivesFrom(bodies[..|bodies| - 1], parse, clock, c, origin);
    }
  }

  lemma SentIsAccepted(s: System, bodies: seq<F.Bytes>, got: seq<F.Bytes>, codec: Codec, c: string)
    requires Traced(s) && Sends(bodies, s.w, codec) && ReadsBack(codec, s.w) && Prefix(got, bodies)
    ensures HeardFrom(got, codec.parse, c, AcceptedOf(s.w, c))
  {
    forall i | 0 <= i < |got| && codec.parse(got[i]).Chat? && InConversation(codec.parse(got[i]).m, c)
      ensures codec.parse(got[i]).m in AcceptedOf(s.w, c)
    {
      assert got[i] == bodies[i];
      var r :| r in s.w.pushed && bodies[i] == codec.dump(r.msg);
    }
  }

  /** What conversation `c` of a reader's session plays. */
  ghost function Played(x: Reader, codec: Codec, c: string): seq<Ch.Event> {
    Ord.View(x.login, c) + Heard(F.Decode(x.stream).bodies, codec.parse, x.clock, c)
  }

  lemma SessionEvents(s: System, x: Reader, codec: Codec, c: string)
    requires Traced(s) && ReadsBack(codec, s.w) && Session(x, codec, s.w)
    ensures Laws.ProperRun(Played(x, codec, c)) && ArriveFrom(Played(x, codec, c), AcceptedOf(s.w, c))
  {
    StreamDecodesToPrefix(x.stream, x.sent);
    SentIsAccepted(s, x.sent, F.Decode(x.stream).bodies, codec, c);
    HeardArrivesFrom(F.Decode(x.stream).bodies, codec.parse, x.clock, c, AcceptedOf(s.w, c));
    ClientView(s, x.timeout, x.login, c);
    hide *;
    JoinEvents(Ord.View(x.login, c), Heard(F.Decode(x.stream).bodies, codec.parse, x.clock, c), AcceptedOf(s.w, c));
  }

  lemma JoinEvents(a: seq<Ch.Event>, b: seq<Ch.Event>, origin: iset<Message>)
    requires Laws.ProperRun(a) && Laws.ProperRun(b) && ArriveFrom(a, origin) && ArriveFrom(b, origin)
    ensures Laws.ProperRun(a + b) && ArriveFrom(a + b, origin)
  {
  }

  /** A session displays of a conversation what one channel makes of the login batch followed by the bodies
      that came through. */
  lemma SessionDisplays(s: System, x: Reader, codec: Codec, c: string)
    requires Traced(s) && Session(x, codec, s.w)
    ensures Of(x.end.screen, c) == Ch.Play(Ch.FRESH, x.timeout, Played(x, codec, c)).out
  {
    ClientView(s, x.timeout, x.login, c);
    var start := Ord.Process(Ord.EMPTY, x.timeout, x.login);
    var (a, b) := (Ord.View(x.login, c), Heard(F.Decode(x.stream).bodies, codec.parse, x.clock, c));
    assert Ord.Projects(start, x.end, c, Ch.Play(Ord.Lookup(start, c), x.timeout, b));
    hide F.Decode, Ord.Process, Ch.Play, Ord.View, Heard, Traced, Session, ClientRun, Of, Ord.Owned, Ord.Lookup;
    Ch.PlayConcat(Ch.FRESH, x.timeout, a, b);
  }

  /** What a session displays of a conversation ascends, and consists of accepted messages. */
  lemma SessionInOrder(s: System, x: Reader, codec: Codec, c: string)
    requires Traced(s) && N.FallbackInRange(Numbers(s), c) && ReadsBack(codec, s.w) && Session(x, codec, s.w)
    ensures InOrder(Of(x.end.screen, c), s.w, c)
  {
    SessionEvents(s, x, codec, c);
    SessionDisplays(s, x, codec, c);
    hide Traced, Session, Played, Ch.Play, N.FallbackInRange;
    PlayedInOrder(s, x.timeout, Played(x, codec, c), c);
  }

  /** Order agreement down to the bytes: in any run of the cluster, two clients whose receive threads take
      whatever came through of the frames sent to them, in whatever pieces, display two messages of a
      conversation in the same order. */
  lemma ReadersAgreeOnOrder(s: System, ops: seq<Op>, codec: Codec, x: Reader, y: Reader, c: string,
                            i: nat, j: nat, i': nat, j': nat)
    requires Start(s) && N.FallbackInRange(Numbers(Run(s, ops)), c) && ReadsBack(codec, Run(s, ops).w)
    requires Session(x, codec, Run(s, ops).w) && Session(y, codec, Run(s, ops).w)
    requires BothShow(Of(x.end.screen, c), i, j, Of(y.end.screen, c), i', j')
    ensures i < j <==> i' < j'
    ensures i == j <==> i' == j'
  {
    RunTraced(s, ops);
    var z := Run(s, ops);
    hide Run, Traced, N.FallbackInRange, Session, Start, ReadsBack, Of, BothShow, Ascending;
    SessionInOrder(z, x, codec, c);
    SessionInOrder(z, y, codec, c);
    AscendingAgree(Of(x.end.screen, c), i, j, Of(y.end.screen, c), i', j');
  }

  /** And when all numbers of the conversation come from Redis, in the order of acceptance. */
  lemma ReaderFollowsAcceptance(s: System, ops: seq<Op>, codec: Codec, x: Reader, c: string,
                                i: nat, j: nat, p: nat, q: nat)
    requires Start(s) && N.FallbackInRange(Numbers(Run(s, ops)), c) && ReadsBack(codec, Run(s, ops).w)
    requires Session(x, codec, Run(s, ops).w) && OnRedis(Run(s, ops).w, c)
    requires ShownAs(Of(x.end.screen, c), i, j, Run(s, ops).w, p, q) && i < j
    ensures p < q
  {
    RunTraced(s, ops);
    var z := Run(s, ops);
    hide Run, Traced, N.FallbackInRange, Session, Start, ReadsBack, Of, OnRedis, ShownAs;
    SessionInOrder(z, x, codec, c);
    InOrderFollowsAcceptance(z, Of(x.end.screen, c), c, i, j, p, q);
  }

  // ----- the program that does this

  /** The inputs of a login: the offline batch and the release after it. */
  function LoginInputs(offline: seq<Message>, now: seq<nat>, order: seq<string>, reading: string -> nat): seq<Ord.Input>
    requires |now| == |offline|
  {
    Reorderer.Arrivals(offline, now) + [Ord.Sweep(Ord.BatchEnd, order, reading)]
  }

  lemma {:induction false} ArrivalsAreFeasible(timeout: int, inputs: seq<Ord.Input>)
    requires forall i :: 0 <= i < |inputs| ==> inputs[i].Receive?
    ensures Ord.FeasibleRun(Ord.EMPTY, timeout, inputs)
  {
  }

  lemma LoginIsFeasible(timeout: int, offline: seq<Message>, now: seq<nat>, order: seq<string>, reading: string -> nat)
    requires |now| == |offline|
    requires Ord.Listing(order, Ord.Process(Ord.EMPTY, timeout, Reorderer.Arrivals(offline, now)).channels.Keys)
    ensures var inputs := LoginInputs(offline, now, order, reading);
            && Ord.FeasibleRun(Ord.EMPTY, timeout, inputs)
            && Ord.Process(Ord.EMPTY, timeout, inputs) ==
               Ord.Swept(Ord.Process(Ord.EMPTY, timeout, Reorderer.Arrivals(offline, now)),
                         timeout, Ord.BatchEnd, order, reading)
            && Ord.Owned(Ord.Process(Ord.EMPTY, timeout, inputs))
  {
    var arrivals, last := Reorderer.Arrivals(offline, now), Ord.Sweep(Ord.BatchEnd, order, reading);
    hide Ord.Swept, Ord.Listing;
    ArrivalsAreFeasible(timeout, arrivals);
    Ord.FeasibleSnoc(Ord.EMPTY, timeout, arrivals, last);
    Ord.ProcessSnoc(Ord.EMPTY, timeout, arrivals, last);
    hide Ord.Process, Ord.FeasibleRun, Reorderer.Arrivals;
    Ord.ProcessView(Ord.EMPTY, timeout, LoginInputs(offline, now, order, reading), "");
  }

  /** The client after a successful login: the offline batch goes through the reorderer, then the receive
      thread runs until the connection ends. */
  method LoginAndRead(conn: F.ClientConnection, orderer: Reorderer.ConversationOrderer, offline: seq<Message>,
                      now: seq<nat>, reading: string -> nat, codec: Codec, clock: nat -> Timing)
    requires orderer.State() == Ord.EMPTY && |now| == |offline|
    modifies conn, orderer
    ensures exists order ::
              var login := LoginInputs(offline, now, order, reading);
              && Ord.FeasibleRun(Ord.EMPTY, orderer.gapTimeoutMs, login)
              && Replays(Ord.Process(Ord.EMPTY, orderer.gapTimeoutMs, login), orderer.State(), orderer.gapTimeoutMs,
                         F.Decode(old(conn.Stream())).bodies, codec.parse, clock)
  {
    orderer.OnOfflineBatch(offline, now, reading);
    ghost var timeout := orderer.gapTimeoutMs;
    ghost var arrived := Ord.Process(Ord.EMPTY, timeout, Reorderer.Arrivals(offline, now));
    ghost var order :| Ord.Listing(order, arrived.channels.Keys) &&
      orderer.State() == Ord.Swept(arrived, timeout, Ord.BatchEnd, order, reading);
    hide Ord.Process, Ord.Swept, Ord.Listing, Ord.FeasibleRun, Ord.Owned, Replays, F.Decode, Reorderer.Arrivals;
    LoginIsFeasible(timeout, offline, now, order, reading);
    ReadTaskHandler(conn, orderer, codec.parse, clock);
  }
}
