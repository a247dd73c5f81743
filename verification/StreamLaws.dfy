/** What the receive thread makes of the bodies of its stream: every chat reaches its conversation, in the
    order of the stream, and the timeout is looked at before each body. */
module StreamLaws {
  import opened Messages
  import opened Channels
  import opened ChannelLaws
  import opened Orderers
  import opened ReadTasks
  import opened GapTimer
  import F = Framing

  /** The chat messages among the bodies, in order. */
  function ChatsOf(bodies: seq<F.Bytes>, parse: F.Bytes -> Parsed): seq<Message> {
    if bodies == [] then []
    else
      var last := parse(bodies[|bodies| - 1]);
      ChatsOf(bodies[..|bodies| - 1], parse) + if last.Chat? then [last.m] else []
  }

  ghost predicate RunningFor(bodies: seq<F.Bytes>, clock: nat -> Timing, c: string) {
    forall i :: 0 <= i < |bodies| ==> clock(i).tick > 0 && clock(i).reading(c) > 0 && clock(i).arrival > 0
  }

  /** A channel that has shown `shown`, numbered from `b` without a gap, and buffers nothing. */
  ghost predicate UpToDate(st: Step, shown: seq<Message>, b: nat) {
    && st.out == shown && Inv(st.ch) && Below(st.ch) && st.ch.pending == map[]
    && (if shown == [] then st.ch == FRESH else st.ch.initialized && st.ch.cursor == b + |shown|)
  }

  lemma TickIsIdle(ch: Channel, timeout: int, e: Event)
    requires e.Tick? && ch.pending == map[]
    ensures Next(ch, timeout, e) == Step(ch, [])
  {
  }

  lemma AwaitedIsShown(ch: Channel, m: Message, now: nat)
    requires Inv(ch) && Below(ch) && ch.pending == map[] && m.number.Some? && Num(m) < LAST && now > 0
    requires ch.initialized ==> ch.cursor == Num(m)
    ensures var st := Accept(ch, m, m.number.value, now);
            && st.out == [m] && st.ch.pending == map[] && st.ch.initialized && st.ch.cursor == Num(m) + 1
            && Inv(st.ch) && Below(st.ch)
  {
    var open := Opened(ch, m.number.value);
    AcceptCases(ch, m, m.number.value, now);
    AcceptOrdered(ch, m, now);
    EmptyDrain(Deliver(open, m.number.value), now);
    hide Drained, Accept;
    assert [m] + [] == [m];
  }

  lemma OneBody(st: Step, shown: seq<Message>, b: nat, timeout: int, p: Parsed, t: Timing, c: string)
    requires UpToDate(st, shown, b) && t.tick > 0 && t.reading(c) > 0 && t.arrival > 0
    requires p.Chat? && InConversation(p.m, c) ==> Num(p.m) == b + |shown| < LAST
    ensures var st' := Play(st.ch, timeout, HeardOne(p, t, c));
            UpToDate(Step(st'.ch, st.out + st'.out),
                     if p.Chat? && InConversation(p.m, c) then shown + [p.m] else shown, b)
  {
    var tick := Tick(t.tick, t.reading(c));
    TickIsIdle(st.ch, timeout, tick);
    PlayOne(st.ch, timeout, tick);
    if p.Chat? && InConversation(p.m, c) {
      AwaitedIsShown(st.ch, p.m, t.arrival);
      PlayOne(st.ch, timeout, Arrive(p.m, t.arrival));
      hide Play, Accept;
      PlayConcat(st.ch, timeout, [tick], [Arrive(p.m, t.arrival)]);
      assert [] + [p.m] == [p.m];
    } else {
      assert st.out + [] == st.out;
    }
  }

  lemma FrontConsecutive(a: seq<Message>, m: Message, b: nat)
    requires Consecutive(a + [m], b)
    ensures Consecutive(a, b) && m.number.Some? && m.number.value == b + |a|
  {
    var all := a + [m];
    assert all[|a|] == m;
    assert forall i :: 0 <= i < |a| ==> all[i] == a[i];
  }

  /** One body more, heard after `heard`. */
  lemma InOrderStep(timeout: int, heard: seq<Event>, front: seq<F.Bytes>, body: F.Bytes, parse: F.Bytes -> Parsed,
                    t: Timing, c: string, b: nat)
    requires UpToDate(Play(FRESH, timeout, heard), Of(ChatsOf(front, parse), c), b)
    requires t.tick > 0 && t.reading(c) > 0 && t.arrival > 0
    requires Consecutive(Of(ChatsOf(front + [body], parse), c), b)
    requires b + |Of(ChatsOf(front + [body], parse), c)| <= LAST
    ensures UpToDate(Play(FRESH, timeout, heard + HeardOne(parse(body), t, c)),
                     Of(ChatsOf(front + [body], parse), c), b)
  {
    hide Play, HeardOne, UpToDate, Consecutive, InConversation, Of, ChatsOf;
    var p, before := parse(body), Of(ChatsOf(front, parse), c);
    ChatsSnoc(front, body, parse, c);
    if p.Chat? && InConversation(p.m, c) {
      FrontConsecutive(before, p.m, b);
    }
    OneBody(Play(FRESH, timeout, heard), before, b, timeout, p, t, c);
    PlayConcat(FRESH, timeout, heard, HeardOne(p, t, c));
  }

  lemma FrontStays(front: seq<F.Bytes>, body: F.Bytes, parse: F.Bytes -> Parsed, clock: nat -> Timing, c: string,
                   b: nat)
    requires RunningFor(front + [body], clock, c) && Consecutive(Of(ChatsOf(front + [body], parse), c), b)
    ensures RunningFor(front, clock, c) && Consecutive(Of(ChatsOf(front, parse), c), b)
    ensures |Of(ChatsOf(front, parse), c)| <= |Of(ChatsOf(front + [body], parse), c)|
  {
    ChatsSnoc(front, body, parse, c);
    hide ChatsOf, Of, InConversation;
    var p := parse(body);
    if p.Chat? && InConversation(p.m, c) {
      FrontConsecutive(Of(ChatsOf(front, parse), c), p.m, b);
    }
  }

  lemma {:induction false} InOrderPlays(timeout: int, bodies: seq<F.Bytes>, parse: F.Bytes -> Parsed,
                                        clock: nat -> Timing, c: string, b: nat)
    requires RunningFor(bodies, clock, c) && Consecutive(Of(ChatsOf(bodies, parse), c), b)
    requires b + |Of(ChatsOf(bodies, parse), c)| <= LAST
    ensures UpToDate(Play(FRESH, timeout, Heard(bodies, parse, clock, c)), Of(ChatsOf(bodies, parse), c), b)
  {
    hide Play, HeardOne, UpToDate, Consecutive, Of, ChatsOf;
    if bodies == [] {
      NothingHeard(timeout, parse, clock, c, b);
    } else {
      var n := |bodies| - 1;
      var front := bodies[..n];
      assert bodies == front + [bodies[n]];
      FrontStays(front, bodies[n], parse, clock, c, b);
      InOrderPlays(timeout, front, parse, clock, c, b);
      InOrderStep(timeout, Heard(front, parse, clock, c), front, bodies[n], parse, clock(n), c, b);
    }
  }

  lemma ChatsSnoc(front: seq<F.Bytes>, body: F.Bytes, parse: F.Bytes -> Parsed, c: string)
    ensures var p := parse(body);
            Of(ChatsOf(front + [body], parse), c) ==
            if p.Chat? && InConversation(p.m, c) then Of(ChatsOf(front, parse), c) + [p.m]
            else Of(ChatsOf(front, parse), c)
  {
    assert (front + [body])[..|front|] == front;
    var p := parse(body);
    if p.Chat? {
      OfConcat(ChatsOf(front, parse), [p.m], c);
      if InConversation(p.m, c) { OfAll([p.m], c); } else { OfNone([p.m], c); }
    } else {
      assert ChatsOf(front, parse) + [] == ChatsOf(front, parse);
    }
  }

  lemma NothingHeard(timeout: int, parse: F.Bytes -> Parsed, clock: nat -> Timing, c: string, b: nat)
    ensures UpToDate(Play(FRESH, timeout, Heard([], parse, clock, c)), Of(ChatsOf([], parse), c), b)
  {
    FreshIsFine();
  }

  /** A new client whose stream carries the messages of a conversation in order and without a gap displays
      exactly these messages, each as soon as it comes, whatever else the stream carries. */
  lemma InOrderStreamIsDisplayed(stream: F.Bytes, end: Orderer, timeout: int, parse: F.Bytes -> Parsed,
                                 clock: nat -> Timing, c: string, b: nat)
    requires Replays(EMPTY, end, timeout, F.Decode(stream).bodies, parse, clock)
    requires RunningFor(F.Decode(stream).bodies, clock, c)
    requires Consecutive(Of(ChatsOf(F.Decode(stream).bodies, parse), c), b)
    requires b + |Of(ChatsOf(F.Decode(stream).bodies, parse), c)| <= LAST
    ensures Of(end.screen, c) == Of(ChatsOf(F.Decode(stream).bodies, parse), c)
    ensures Lookup(end, c).pending == map[]
  {
    var bodies := F.Decode(stream).bodies;
    InOrderPlays(timeout, bodies, parse, clock, c, b);
    var st := Play(FRESH, timeout, Heard(bodies, parse, clock, c));
    assert Lookup(EMPTY, c) == FRESH;
    assert Projects(EMPTY, end, c, st);
    assert Of(EMPTY.screen, c) + st.out == st.out;
  }

  /** The timeout is looked at first: an awaited message in a frame that comes when its gap is due is too late,
      the buffered messages behind it are shown without it. */
  lemma TickComesFirst(ch: Channel, timeout: int, p: Parsed, t: Timing, c: string)
    requires Inv(ch) && Below(ch) && ch.pending != map[] && Waited(t.tick - ch.gapSince, timeout)
    requires p.Chat? && InConversation(p.m, c) && Num(p.m) == ch.cursor
    requires t.tick > 0 && t.reading(c) > 0 && t.arrival > 0
    ensures var st := Play(ch, timeout, HeardOne(p, t, c));
            st.out != [] && forall m :: m in st.out ==> m.number.Some? && Num(m) > ch.cursor
  {
    var tick := Tick(t.tick, t.reading(c));
    var mid := Next(ch, timeout, tick);
    DueTickPassesCursor(ch, timeout, t.tick, t.reading(c));
    hide Next, Play, Waited;
    LateChangesNothing(mid.ch, timeout, p.m, t.arrival);
    PlayOne(ch, timeout, tick);
    PlayOne(mid.ch, timeout, Arrive(p.m, t.arrival));
    PlayConcat(ch, timeout, [tick], [Arrive(p.m, t.arrival)]);
    assert mid.out + [] == mid.out;
  }

  lemma LateChangesNothing(ch: Channel, timeout: int, m: Message, now: nat)
    requires Inv(ch) && Below(ch) && ch.initialized && m.number.Some? && Num(m) < ch.cursor && now > 0
    ensures Next(ch, timeout, Arrive(m, now)) == Step(ch, [])
  {
    AcceptCases(ch, m, m.number.value, now);
    hide Accept;
  }

  lemma DueTickPassesCursor(ch: Channel, timeout: int, now: nat, reading: nat)
    requires Inv(ch) && Below(ch) && ch.pending != map[] && Waited(now - ch.gapSince, timeout) && now > 0 && reading > 0
    ensures var st := Next(ch, timeout, Tick(now, reading));
            && Inv(st.ch) && Below(st.ch) && st.ch.initialized && st.out != [] && ch.cursor < st.ch.cursor
            && forall m :: m in st.out ==> m.number.Some? && Num(m) > ch.cursor
  {
    ExpiredMeans(ch, timeout, now);
    ReleaseFacts(ch, reading);
    var start := ch.(cursor := Least(ch.pending.Keys));
    ReleaseShows(ch, reading);
    ReleaseOrdered(ch, reading);
    DrainedFacts(start, reading);
    DrainedOrdered(start, reading);
    hide Drained, Release, Waited, Millis;
  }
}
