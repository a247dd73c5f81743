/** The client-side reorderer with its mutable channel map, proved against the machine of `Orderers`. */
module Reorderer {
  import opened Messages
  import opened Channels
  import opened Orderers
  import opened ChannelLaws

  /** The arrivals of a batch, message `i` at clock reading `clock[i]`. */
  function Arrivals(msgs: seq<Message>, clock: seq<nat>): seq<Input>
    requires |msgs| == |clock|
  {
    seq(|msgs|, i requires 0 <= i < |msgs| => Receive(msgs[i], clock[i]))
  }

  /** How far `drainPending` has come: `ch0` is the channel it started on, every number from its cursor
      up to `x` has been shown. */
  ghost predicate Draining(ch0: Channel, x: nat, ch: Channel) {
    && ch0.cursor <= x <= RunEnd(ch0.pending.Keys, ch0.cursor)
    && x <= WORD
    && ch == ch0.(cursor := x % WORD, pending := ch.pending,
                  delivered := RememberRange(ch0.delivered, ch0.cursor, x),
                  gapSince := if ch0.cursor < x then 0 else ch0.gapSince)
    && (forall k :: k in ch.pending ==> k in ch0.pending && ch.pending[k] == ch0.pending[k])
    && (forall k :: k in ch.pending && k < x ==> x == ch0.cursor)
    && (forall k :: k in ch0.pending && k >= x ==> k in ch.pending)
  }

  /** When nothing at the cursor is left, the drain has come to its end. */
  lemma DrainingDone(ch0: Channel, x: nat, ch: Channel)
    requires Draining(ch0, x, ch) && (forall k :: k in ch.pending ==> k > ch.cursor)
    ensures x <= WORD && x == RunEnd(ch0.pending.Keys, ch0.cursor) && ch == AfterRun(ch0, x)
  {
    assert x < RunEnd(ch0.pending.Keys, ch0.cursor) ==> x in ch0.pending.Keys;
    assert ch.pending == From(ch0.pending, x);
  }

  lemma DrainingStarts(ch0: Channel)
    ensures Draining(ch0, ch0.cursor, ch0)
    ensures HasRun(ch0.pending, ch0.cursor, ch0.cursor) && Run(ch0.pending, ch0.cursor, ch0.cursor) == []
  {
    RunEndInWord(ch0.pending.Keys, ch0.cursor);
  }

  lemma DrainedIs(ch0: Channel, e: nat, now: nat)
    requires e == RunEnd(ch0.pending.Keys, ch0.cursor) <= WORD
    ensures Drained(ch0, now) == Step(Restart(AfterRun(ch0, e), now), Run(ch0.pending, ch0.cursor, e))
  {
  }

  lemma DrainingDrops(ch0: Channel, x: nat, ch: Channel, first: Word)
    requires Draining(ch0, x, ch) && first in ch.pending && first < ch.cursor
    ensures Draining(ch0, x, ch.(pending := ch.pending - {first}))
  {
  }

  lemma DrainingAt(ch0: Channel, x: nat, ch: Channel)
    requires Draining(ch0, x, ch) && ch.cursor in ch.pending && (forall k :: k in ch.pending ==> k >= ch.cursor)
    ensures ch.cursor == x < WORD && x in ch0.pending && ch.pending[x] == ch0.pending[x]
    ensures x < RunEnd(ch0.pending.Keys, ch0.cursor)
  {
    var k := ch.cursor;
    assert x == WORD ==> k < x && x == ch0.cursor;
    assert x in ch0.pending.Keys;
  }

  lemma DrainingAdvances(ch0: Channel, x: nat, ch: Channel)
    requires Draining(ch0, x, ch) && ch.cursor == x < RunEnd(ch0.pending.Keys, ch0.cursor) && x < WORD
    requires forall k :: k in ch.pending ==> k >= x
    ensures Draining(ch0, x + 1, Deliver(ch.(pending := ch.pending - {ch.cursor}), ch.cursor))
  {
    assert RememberRange(ch0.delivered, ch0.cursor, x + 1) == Remember(RememberRange(ch0.delivered, ch0.cursor, x), x);
    hide RunEnd, RememberRange, Remember;
  }

  lemma RunExtends(pending: map<Word, Message>, lo: nat, x: nat)
    requires HasRun(pending, lo, x) && x in pending
    ensures HasRun(pending, lo, x + 1) && Run(pending, lo, x + 1) == Run(pending, lo, x) + [pending[x]]
  {
  }

  lemma DrainingShows(ch0: Channel, x: nat, ch: Channel)
    requires Draining(ch0, x, ch) && ch.cursor in ch.pending && (forall k :: k in ch.pending ==> k >= ch.cursor)
    requires HasRun(ch0.pending, ch0.cursor, x)
    ensures ch.cursor == x < WORD
    ensures Draining(ch0, x + 1, Deliver(ch.(pending := ch.pending - {ch.cursor}), ch.cursor))
    ensures Deliver(ch.(pending := ch.pending - {ch.cursor}), ch.cursor).pending == ch.pending - {ch.cursor}
    ensures HasRun(ch0.pending, ch0.cursor, x + 1) &&
            Run(ch0.pending, ch0.cursor, x + 1) == Run(ch0.pending, ch0.cursor, x) + [ch.pending[ch.cursor]]
  {
    DrainingAt(ch0, x, ch);
    hide Run, HasRun;
    DrainingAdvances(ch0, x, ch);
    RunExtends(ch0.pending, ch0.cursor, x);
  }

  lemma ListingSnoc(order: seq<string>, keys: set<string>, todo: set<string>, c: string)
    requires Listing(order, keys - todo) && todo <= keys && c in todo
    ensures Listing(order + [c], keys - (todo - {c}))
  {
    assert keys - (todo - {c}) == (keys - todo) + {c};
  }

  lemma KeysKept(channels: map<string, Channel>, c: string, ch: Channel)
    requires c in channels
    ensures channels[c := ch].Keys == channels.Keys
  {
  }

  /** The three ways of an arrival, as changes of the channel map; `open` is the channel as it finds it. */
  lemma ReceivedLate(s: Orderer, m: Message, now: nat, c: string, open: Channel)
    requires m.convid == Some(c) && m.number.Some? && open == Opened(Lookup(s, c), m.number.value)
    requires m.number.value < open.cursor || m.number.value in open.delivered
    ensures Received(s, m, now) == Orderer(s.channels[c := open], s.screen)
  {
  }

  lemma ReceivedDue(s: Orderer, m: Message, now: nat, c: string, open: Channel)
    requires m.convid == Some(c) && m.number == Some(open.cursor) && open == Opened(Lookup(s, c), m.number.value)
    requires open.cursor !in open.delivered
    ensures var d := Drained(Deliver(open, open.cursor), now);
            Received(s, m, now) == Orderer(s.channels[c := open][c := d.ch], s.screen + [m] + d.out)
  {
    hide Drained, Deliver;
    var d := Drained(Deliver(open, open.cursor), now);
    assert s.screen + [m] + d.out == s.screen + ([m] + d.out);
  }

  lemma ReceivedEarly(s: Orderer, m: Message, now: nat, c: string, open: Channel)
    requires m.convid == Some(c) && m.number.Some? && open == Opened(Lookup(s, c), m.number.value)
    requires m.number.value > open.cursor && m.number.value !in open.delivered
    ensures var held := open.(pending := open.pending[m.number.value := m]);
            Received(s, m, now) ==
            Orderer(s.channels[c := open][c := if held.gapSince == 0 then held.(gapSince := now) else held], s.screen)
  {
    assert m.number.value in open.pending[m.number.value := m];
  }

  lemma SweptSnoc(s: Orderer, timeout: int, cause: Cause, order: seq<string>, reading: string -> nat, c: string)
    ensures var before := Swept(s, timeout, cause, order, reading);
            var st := Next(Lookup(before, c), timeout, Visit(cause, reading, c));
            Swept(s, timeout, cause, order + [c], reading) == Put(before, c, st)
  {
    hide Next;
    assert (order + [c])[..|order|] == order;
  }

  class ConversationOrderer {
    const gapTimeoutMs: int
    var channels: map<string, Channel>
    /** Everything `_emit` has been called with. */
    var screen: seq<Message>

    ghost function State(): Orderer
      reads this
    {
      Orderer(channels, screen)
    }

    constructor (gapTimeoutMs: int)
      ensures this.gapTimeoutMs == gapTimeoutMs && State() == EMPTY
    {
      this.gapTimeoutMs := gapTimeoutMs;
      channels, screen := map[], [];
    }

    /** `onMessage`. */
    method OnMessage(m: Message, now: nat)
      modifies this
      ensures State() == Received(old(State()), m, now)
    {
      if m.convid.None? || m.number.None? {
        screen := screen + [m];
        return;
      }
      hide Drained, Deliver, Received;
      var c, s := m.convid.value, m.number.value;
      var ch := if c in channels then channels[c] else FRESH;
      if !ch.initialized {
        ch := ch.(initialized := true, cursor := s);
      }
      ghost var was, open := State(), ch;
      channels := channels[c := ch];
      if s < ch.cursor || s in ch.delivered {
        ReceivedLate(was, m, now, c, open);
        return;
      }
      if s == ch.cursor {
        ch := ShowNext(ch, m, s);
        ch := DrainPending(ch, now);
        channels := channels[c := ch];
        ReceivedDue(was, m, now, c, open);
        return;
      }
      ch := ch.(pending := ch.pending[s := m]);
      if ch.gapSince == 0 {
        ch := ch.(gapSince := now);
      }
      channels := channels[c := ch];
      ReceivedEarly(was, m, now, c, open);
    }

    /** `deliver`; the source's reference parameter is passed in and out. */
    method ShowNext(ch0: Channel, m: Message, s: Word) returns (ch: Channel)
      modifies this`screen
      ensures ch == Deliver(ch0, s) && screen == old(screen) + [m]
    {
      screen := screen + [m];
      ch := ch0.(delivered := ch0.delivered + {s}, cursor := (s + 1) % WORD, gapSince := 0);
      if |ch.delivered| > DEDUP_LIMIT {
        ch := ch.(delivered := {});
      }
    }

    static method FirstPending(pending: map<Word, Message>) returns (first: Word)
      requires pending != map[]
      ensures first in pending && forall k :: k in pending ==> first <= k
      ensures pending.Keys != {} && first == Least(pending.Keys)
    {
      assert pending.Keys != {};
      ghost var least := Least(pending.Keys);
      assert least in pending;
      first :| first in pending && forall k :: k in pending ==> first <= k;
    }

    /** `drainPending` computes the closed form `Drained`. */
    method DrainPending(ch0: Channel, now: nat) returns (ch: Channel)
      modifies this`screen
      ensures ch == Drained(ch0, now).ch && screen == old(screen) + Drained(ch0, now).out
    {
      ch := ch0;
      ghost var x: nat := ch0.cursor;
      DrainingStarts(ch0);
      hide Draining, Run, HasRun, Deliver, RunEnd, AfterRun, Drained;
      while ch.pending != map[]
        invariant Draining(ch0, x, ch) && HasRun(ch0.pending, ch0.cursor, x)
        invariant screen == old(screen) + Run(ch0.pending, ch0.cursor, x)
        decreases ch.pending.Keys
      {
        var first := FirstPending(ch.pending);
        if first < ch.cursor {
          DrainingDrops(ch0, x, ch, first);
          ch := ch.(pending := ch.pending - {first});
          continue;
        }
        if first != ch.cursor {
          break;
        }
        var m := ch.pending[first];
        DrainingShows(ch0, x, ch);
        ch := ch.(pending := ch.pending - {first});
        ch := ShowNext(ch, m, ch.cursor);
        x := x + 1;
      }
      DrainingDone(ch0, x, ch);
      DrainedIs(ch0, x, now);
      if ch.pending != map[] && ch.gapSince == 0 {
        ch := ch.(gapSince := now);
      }
    }

    /** The body of the loop in `tick`. */
    method ExpireGap(ch0: Channel, now: nat, reading: nat) returns (ch: Channel)
      modifies this`screen
      ensures var st := Next(ch0, gapTimeoutMs, Channels.Tick(now, reading));
              ch == st.ch && screen == old(screen) + st.out
    {
      ch := ch0;
      if ch.pending == map[] || ch.gapSince == 0 {
        return;
      }
      var waited := Millis(now - ch.gapSince);
      if waited < gapTimeoutMs {
        return;
      }
      hide Drained;
      var first := FirstPending(ch.pending);
      ch := DrainPending(ch.(cursor := first), reading);
    }

    /** The body of the second loop in `onOfflineBatch`. */
    method ReleaseRest(ch0: Channel, reading: nat) returns (ch: Channel)
      modifies this`screen
      ensures var st := Next(ch0, gapTimeoutMs, Flush(reading));
              ch == st.ch && screen == old(screen) + st.out
    {
      ch := ch0;
      hide Drained;
      if ch.pending != map[] {
        var first := FirstPending(ch.pending);
        ch := DrainPending(ch.(cursor := first), reading);
      }
    }

    /** `tick`: visits the channels in whatever order the hash map yields them. */
    method Tick(now: nat, reading: string -> nat)
      modifies this
      ensures exists order :: Listing(order, old(channels.Keys)) &&
                State() == Swept(old(State()), gapTimeoutMs, Timer(now), order, reading)
    {
      ghost var order: seq<string> := [];
      var todo := channels.Keys;
      assert Listing(order, channels.Keys - todo);
      assert State() == Swept(State(), gapTimeoutMs, Timer(now), order, reading);
      hide Next, Swept, Listing, Visit;
      while todo != {}
        invariant channels.Keys == old(channels.Keys)
        invariant todo <= old(channels.Keys)
        invariant Listing(order, old(channels.Keys) - todo)
        invariant State() == Swept(old(State()), gapTimeoutMs, Timer(now), order, reading)
      {
        var c :| c in todo;
        ListingSnoc(order, old(channels.Keys), todo, c);
        todo := todo - {c};
        SweptSnoc(old(State()), gapTimeoutMs, Timer(now), order, reading, c);
        var ch := ExpireGap(channels[c], now, reading(c));
        KeysKept(channels, c, ch);
        channels := channels[c := ch];
        order := order + [c];
      }
      assert channels.Keys - {} == channels.Keys;
      assert Listing(order, old(channels.Keys));
    }

    /** `onOfflineBatch`: the messages one by one, then one release of every channel that still holds some. */
    method OnOfflineBatch(msgs: seq<Message>, clock: seq<nat>, reading: string -> nat)
      requires |clock| == |msgs|
      modifies this
      ensures var arrived := Process(old(State()), gapTimeoutMs, Arrivals(msgs, clock));
              exists order :: Listing(order, arrived.channels.Keys) &&
                State() == Swept(arrived, gapTimeoutMs, BatchEnd, order, reading)
    {
      ghost var inputs := Arrivals(msgs, clock);
      for i := 0 to |msgs|
        invariant State() == Process(old(State()), gapTimeoutMs, inputs[..i])
      {
        OnMessage(msgs[i], clock[i]);
        assert inputs[..i + 1][..i] == inputs[..i];
      }
      assert inputs[..|msgs|] == inputs;
      ReleaseAll(reading);
    }

    /** The second loop of `onOfflineBatch`. */
    method ReleaseAll(reading: string -> nat)
      modifies this
      ensures exists order :: Listing(order, old(channels.Keys)) &&
                State() == Swept(old(State()), gapTimeoutMs, BatchEnd, order, reading)
    {
      ghost var order: seq<string> := [];
      var todo := channels.Keys;
      assert Listing(order, channels.Keys - todo);
      assert State() == Swept(State(), gapTimeoutMs, BatchEnd, order, reading);
      hide Next, Swept, Listing, Visit;
      while todo != {}
        invariant channels.Keys == old(channels.Keys)
        invariant todo <= old(channels.Keys)
        invariant Listing(order, old(channels.Keys) - todo)
        invariant State() == Swept(old(State()), gapTimeoutMs, BatchEnd, order, reading)
      {
        var c :| c in todo;
        ListingSnoc(order, old(channels.Keys), todo, c);
        todo := todo - {c};
        SweptSnoc(old(State()), gapTimeoutMs, BatchEnd, order, reading, c);
        var ch := ReleaseRest(channels[c], reading(c));
        KeysKept(channels, c, ch);
        channels := channels[c := ch];
        order := order + [c];
      }
      assert channels.Keys - {} == channels.Keys;
      assert Listing(order, old(channels.Keys));
    }
  }
}
