/** The client's receive thread: it takes frames off the connection, drives the timeout check before
    each of them and hands chat messages to the reorderer. */
module ReadTasks {
  import opened Messages
  import opened Channels
  import opened ChannelLaws
  import opened Orderers
  import opened Reorderer
  import opened BoundedRelease
  import opened ChannelBooks
  import F = Framing

  /** A body after `json::parse`: not JSON, a message whose `msgid` is one of the two chat ids, or anything else. */
  datatype Parsed = Invalid | Chat(m: Message) | Other

  /** The clock as it is read while one frame is handled. */
  datatype Timing = Timing(tick: nat, reading: string -> nat, arrival: nat)

  /** What conversation `c` hears of one frame: always the tick, and the message if it is its own. */
  function HeardOne(p: Parsed, t: Timing, c: string): seq<Event> {
    [Tick(t.tick, t.reading(c))] + if p.Chat? && InConversation(p.m, c) then [Arrive(p.m, t.arrival)] else []
  }

  /** What conversation `c` hears of a list of bodies; body `i` is handled at `clock(i)`. */
  function Heard(bodies: seq<F.Bytes>, parse: F.Bytes -> Parsed, clock: nat -> Timing, c: string): seq<Event> {
    if bodies == [] then []
    else
      var n := |bodies| - 1;
      Heard(bodies[..n], parse, clock, c) + HeardOne(parse(bodies[n]), clock(n), c)
  }

  /** In every conversation, going from `s` to `s'` is playing what that conversation heard. */
  ghost predicate Follows(s: Orderer, s': Orderer, timeout: int, heard: string -> seq<Event>) {
    forall c :: Projects(s, s', c, Play(Lookup(s, c), timeout, heard(c)))
  }

  lemma TickedView(s: Orderer, timeout: int, now: nat, order: seq<string>, reading: string -> nat, c: string)
    requires Owned(s) && Listing(order, s.channels.Keys)
    ensures Projects(s, Swept(s, timeout, Timer(now), order, reading), c,
                     Play(Lookup(s, c), timeout, [Tick(now, reading(c))]))
  {
    hide Accept, Release, Projects;
    SweptView(s, timeout, Timer(now), order, reading, c);
    PlayOne(Lookup(s, c), timeout, Tick(now, reading(c)));
  }

  lemma ThenView(s: Orderer, mid: Orderer, s': Orderer, timeout: int, c: string, a: seq<Event>, b: seq<Event>)
    requires Projects(s, mid, c, Play(Lookup(s, c), timeout, a)) &&
             Projects(mid, s', c, Play(Lookup(mid, c), timeout, b))
    ensures Projects(s, s', c, Play(Lookup(s, c), timeout, a + b))
  {
    hide Play, Of, Owned;
    PlayConcat(Lookup(s, c), timeout, a, b);
    Chain(s, mid, s', c, Play(Lookup(s, c), timeout, a), Play(Lookup(mid, c), timeout, b));
  }

  lemma TickFollows(s: Orderer, mid: Orderer, timeout: int, t: Timing, order: seq<string>)
    requires Owned(s) && Listing(order, s.channels.Keys) && mid == Swept(s, timeout, Timer(t.tick), order, t.reading)
    ensures Owned(mid) && Follows(s, mid, timeout, c => [Tick(t.tick, t.reading(c))])
  {
    hide Swept, Play, Projects, Owned, Listing;
    forall c ensures Projects(s, mid, c, Play(Lookup(s, c), timeout, [Tick(t.tick, t.reading(c))])) {
      TickedView(s, timeout, t.tick, order, t.reading, c);
    }
    OwnedOf(s, mid, "", timeout, [Tick(t.tick, t.reading(""))]);
  }

  lemma ChatFollows(s: Orderer, mid: Orderer, timeout: int, t: Timing, m: Message)
    requires Owned(mid) && Follows(s, mid, timeout, c => [Tick(t.tick, t.reading(c))])
    ensures Follows(s, Received(mid, m, t.arrival), timeout, c => HeardOne(Chat(m), t, c))
  {
    var end := Received(mid, m, t.arrival);
    hide Received, Play, Projects, Owned;
    forall c ensures Projects(s, end, c, Play(Lookup(s, c), timeout, HeardOne(Chat(m), t, c))) {
      ReceivedView(mid, m, t.arrival, timeout, c);
      ThenView(s, mid, end, timeout, c, [Tick(t.tick, t.reading(c))], Seen(Receive(m, t.arrival), c));
    }
  }

  lemma NoChatFollows(s: Orderer, mid: Orderer, timeout: int, t: Timing, p: Parsed)
    requires !p.Chat? && Follows(s, mid, timeout, c => [Tick(t.tick, t.reading(c))])
    ensures Follows(s, mid, timeout, c => HeardOne(p, t, c))
  {
    hide Play, Projects;
    forall c ensures HeardOne(p, t, c) == [Tick(t.tick, t.reading(c))] {
    }
  }

  /** One turn of the receive loop after a frame has been read. */
  method HandleBody(orderer: ConversationOrderer, body: F.Bytes, parse: F.Bytes -> Parsed, t: Timing)
    requires Owned(orderer.State())
    modifies orderer
    ensures Follows(old(orderer.State()), orderer.State(), orderer.gapTimeoutMs, c => HeardOne(parse(body), t, c))
  {
    ghost var s, timeout := orderer.State(), orderer.gapTimeoutMs;
    orderer.Tick(t.tick, t.reading);
    ghost var mid := orderer.State();
    ghost var order :| Listing(order, s.channels.Keys) && mid == Swept(s, timeout, Timer(t.tick), order, t.reading);
    hide Swept, Received, Follows, Owned, HeardOne, Listing;
    TickFollows(s, mid, timeout, t, order);
    var js := parse(body);
    if js.Chat? {
      orderer.OnMessage(js.m, t.arrival);
      ChatFollows(s, mid, timeout, t, js.m);
    } else {
      NoChatFollows(s, mid, timeout, t, js);
    }
  }

  lemma OwnedOf(s: Orderer, s': Orderer, c: string, timeout: int, es: seq<Event>)
    requires Projects(s, s', c, Play(Lookup(s, c), timeout, es))
    ensures Owned(s')
  {
    hide Play, Of, Owned;
  }

  /** In every conversation, going from `s` to `s'` is playing what the conversation heard of `bodies`. */
  ghost predicate Replays(s: Orderer, s': Orderer, timeout: int, bodies: seq<F.Bytes>, parse: F.Bytes -> Parsed,
                          clock: nat -> Timing) {
    Owned(s') && Follows(s, s', timeout, c => Heard(bodies, parse, clock, c))
  }

  lemma ReplaysNothing(s: Orderer, timeout: int, parse: F.Bytes -> Parsed, clock: nat -> Timing)
    requires Owned(s)
    ensures Replays(s, s, timeout, [], parse, clock)
  {
    forall c ensures Projects(s, s, c, Play(Lookup(s, c), timeout, Heard([], parse, clock, c))) {
      NothingHappens(s, c);
    }
  }

  lemma ReplaysOneMore(s: Orderer, mid: Orderer, s': Orderer, timeout: int, bodies: seq<F.Bytes>, body: F.Bytes,
                       parse: F.Bytes -> Parsed, clock: nat -> Timing)
    requires Replays(s, mid, timeout, bodies, parse, clock)
    requires Follows(mid, s', timeout, c => HeardOne(parse(body), clock(|bodies|), c))
    ensures Replays(s, s', timeout, bodies + [body], parse, clock)
  {
    hide Play, Projects, Owned;
    var all := bodies + [body];
    assert all[..|bodies|] == bodies;
    forall c ensures Projects(s, s', c, Play(Lookup(s, c), timeout, Heard(all, parse, clock, c))) {
      ThenView(s, mid, s', timeout, c, Heard(bodies, parse, clock, c), HeardOne(parse(body), clock(|bodies|), c));
    }
    OwnedOf(s, s', "", timeout, Heard(all, parse, clock, ""));
  }

  /** `readTaskHandler`, until the connection ends or a frame is illegal. Whatever pieces the bytes arrive
      in, every conversation plays exactly what the bodies of the whole stream say, one tick before each. */
  method ReadTaskHandler(conn: F.ClientConnection, orderer: ConversationOrderer, parse: F.Bytes -> Parsed,
                         clock: nat -> Timing)
    requires Owned(orderer.State())
    modifies conn, orderer
    ensures Replays(old(orderer.State()), orderer.State(), orderer.gapTimeoutMs, F.Decode(old(conn.Stream())).bodies,
                    parse, clock)
  {
    ghost var s := orderer.State();
    ghost var bodies := F.Decode(conn.Stream()).bodies;
    ReplaysNothing(s, orderer.gapTimeoutMs, parse, clock);
    hide F.Decode, F.Concat, F.Frame, Replays, Follows, Owned;
    var i := 0;
    NoneDone(bodies);
    while true
      invariant i <= |bodies| && F.Decode(conn.Stream()).bodies == bodies[i..]
      invariant Replays(s, orderer.State(), orderer.gapTimeoutMs, bodies[..i], parse, clock)
      decreases |bodies| - i
    {
      ghost var before := orderer.State();
      ReplaysOwned(s, before, orderer.gapTimeoutMs, bodies[..i], parse, clock);
      var ok, body := conn.RecvFrame();
      OneMoreDone(bodies, i, ok, body, F.Decode(conn.Stream()).bodies);
      if !ok {
        return;
      }
      HandleBody(orderer, body, parse, clock(i));
      ReplaysOneMore(s, before, orderer.State(), orderer.gapTimeoutMs, bodies[..i], body, parse, clock);
      i := i + 1;
    }
  }

  lemma NoneDone(bodies: seq<F.Bytes>)
    ensures bodies[..0] == [] && bodies[0..] == bodies
  {
  }

  lemma OneMoreDone(bodies: seq<F.Bytes>, i: nat, ok: bool, body: F.Bytes, rest: seq<F.Bytes>)
    requires i <= |bodies| && (if ok then bodies[i..] == [body] + rest else bodies[i..] == [])
    ensures ok ==> i < |bodies| && bodies[i + 1..] == rest && bodies[..i + 1] == bodies[..i] + [body]
    ensures !ok ==> bodies[..i] == bodies
  {
    if ok {
      assert bodies[i] == bodies[i..][0];
      assert bodies[i + 1..] == bodies[i..][1..];
    }
  }

  lemma ReplaysOwned(s: Orderer, s': Orderer, timeout: int, bodies: seq<F.Bytes>, parse: F.Bytes -> Parsed,
                     clock: nat -> Timing)
    requires Replays(s, s', timeout, bodies, parse, clock)
    ensures Owned(s')
  {
    hide Owned, Follows;
  }

  /** The clock is positive and chat messages of `c` are numbered below the largest number. */
  ghost predicate Ordinary(bodies: seq<F.Bytes>, parse: F.Bytes -> Parsed, clock: nat -> Timing, c: string) {
    forall i :: 0 <= i < |bodies| ==>
      && clock(i).tick > 0 && clock(i).reading(c) > 0 && clock(i).arrival > 0
      && (parse(bodies[i]).Chat? && InConversation(parse(bodies[i]).m, c) ==> Num(parse(bodies[i]).m) != LAST)
  }

  lemma {:induction false} HeardIsProper(bodies: seq<F.Bytes>, parse: F.Bytes -> Parsed, clock: nat -> Timing,
                                         c: string)
    requires Ordinary(bodies, parse, clock, c)
    ensures ProperRun(Heard(bodies, parse, clock, c)) && NoLastRun(Heard(bodies, parse, clock, c))
  {
    if bodies != [] {
      HeardIsProper(bodies[..|bodies| - 1], parse, clock, c);
    }
  }

  /** What the receive thread of a new client displays of a conversation strictly increases, and is
      determined by the bytes of the connection alone: neither how they were cut into pieces nor the
      order in which the hash map yields the channels can be seen. */
  lemma DisplayFollowsTheBytes(stream: F.Bytes, timeout: int, parse: F.Bytes -> Parsed, clock: nat -> Timing, c: string,
                               s: Orderer, s': Orderer)
    requires Replays(EMPTY, s, timeout, F.Decode(stream).bodies, parse, clock)
    requires Replays(EMPTY, s', timeout, F.Decode(stream).bodies, parse, clock)
    ensures Of(s.screen, c) == Of(s'.screen, c) && Lookup(s, c) == Lookup(s', c)
    ensures Ordinary(F.Decode(stream).bodies, parse, clock, c) ==> Ascending(Of(s.screen, c))
  {
    var bodies := F.Decode(stream).bodies;
    var st := Play(FRESH, timeout, Heard(bodies, parse, clock, c));
    assert Lookup(EMPTY, c) == FRESH;
    assert Projects(EMPTY, s, c, st) && Projects(EMPTY, s', c, st);
    assert Of(EMPTY.screen, c) + st.out == st.out;
    hide Play, F.Decode;
    if Ordinary(bodies, parse, clock, c) {
      HeardIsProper(bodies, parse, clock, c);
      PlayOrdered(FRESH, timeout, Heard(bodies, parse, clock, c));
    }
  }

  /** Frames that carry nothing for conversation `c`, a timeout apart from each other and the first from
      the start of the gap. */
  ghost predicate QuietAndPaced(bodies: seq<F.Bytes>, parse: F.Bytes -> Parsed, clock: nat -> Timing,
                                timeout: int, c: string, gapSince: nat) {
    && (forall i :: 0 <= i < |bodies| ==> parse(bodies[i]).Chat? ==> !InConversation(parse(bodies[i]).m, c))
    && (forall i :: 0 <= i < |bodies| ==> clock(i).tick > 0 && clock(i).reading(c) > 0)
    && (bodies != [] ==> Waited(clock(0).tick - gapSince, timeout))
    && (forall i :: 0 < i < |bodies| ==> Waited(clock(i).tick - clock(i - 1).reading(c), timeout))
  }

  lemma {:induction false} QuietFramesAreTicks(bodies: seq<F.Bytes>, parse: F.Bytes -> Parsed, clock: nat -> Timing,
                                               c: string)
    requires forall i :: 0 <= i < |bodies| ==> parse(bodies[i]).Chat? ==> !InConversation(parse(bodies[i]).m, c)
    ensures |Heard(bodies, parse, clock, c)| == |bodies|
    ensures forall i :: 0 <= i < |bodies| ==>
            Heard(bodies, parse, clock, c)[i] == Tick(clock(i).tick, clock(i).reading(c))
  {
    if bodies != [] {
      QuietFramesAreTicks(bodies[..|bodies| - 1], parse, clock, c);
    }
  }

  /** The timeout is only looked at when a frame comes in: a buffer of `k` runs is empty after `k` paced
      frames of other conversations, not before, and nothing in it was lost. */
  lemma QuietFramesEmptyTheBuffer(s: Orderer, s': Orderer, timeout: int, bodies: seq<F.Bytes>, parse: F.Bytes -> Parsed,
                                  clock: nat -> Timing, c: string)
    requires Replays(s, s', timeout, bodies, parse, clock)
    requires Inv(Lookup(s, c)) && Below(Lookup(s, c))
    requires QuietAndPaced(bodies, parse, clock, timeout, c, Lookup(s, c).gapSince)
    ensures Lookup(s', c).pending == map[] <==> |bodies| >= Runs(Lookup(s, c).pending.Keys)
    ensures exists shown ::
              && Of(s'.screen, c) == Of(s.screen, c) + shown
              && Ascending(shown)
              && Bag(Lookup(s, c).pending) == multiset(shown) + Bag(Lookup(s', c).pending)
  {
    hide Play, Runs, Bag, Inv, Below, Of, Owned, Heard, Ascending;
    var ch, ticks := Lookup(s, c), Heard(bodies, parse, clock, c);
    assert Projects(s, s', c, Play(ch, timeout, ticks));
    QuietTicksArePaced(ch, timeout, bodies, parse, clock, c);
    PacedTicksEmptyTheBuffer(ch, timeout, ticks);
    assert Of(s'.screen, c) == Of(s.screen, c) + Play(ch, timeout, ticks).out;
  }

  lemma QuietTicksArePaced(ch: Channel, timeout: int, bodies: seq<F.Bytes>, parse: F.Bytes -> Parsed,
                           clock: nat -> Timing, c: string)
    requires QuietAndPaced(bodies, parse, clock, timeout, c, ch.gapSince)
    ensures Paced(ch, timeout, Heard(bodies, parse, clock, c)) && |Heard(bodies, parse, clock, c)| == |bodies|
  {
    var ticks := Heard(bodies, parse, clock, c);
    QuietFramesAreTicks(bodies, parse, clock, c);
    hide Heard;
    TicksArePaced(ch, timeout, bodies, parse, clock, c, ticks);
  }

  lemma TicksArePaced(ch: Channel, timeout: int, bodies: seq<F.Bytes>, parse: F.Bytes -> Parsed, clock: nat -> Timing,
                      c: string, ticks: seq<Event>)
    requires QuietAndPaced(bodies, parse, clock, timeout, c, ch.gapSince) && |ticks| == |bodies|
    requires forall i :: 0 <= i < |bodies| ==> ticks[i] == Tick(clock(i).tick, clock(i).reading(c))
    ensures Paced(ch, timeout, ticks)
  {
    hide Waited;
  }
}
