/** Nothing buffered waits for ever: how many steps until it is shown, and how many timeouts until
    the whole buffer is. */
module BoundedRelease {
  import opened Messages
  import opened Channels
  import opened ChannelLaws
  import opened ChannelBooks

  ghost predicate Shows(out: seq<Message>, s: Word) {
    exists m :: m in out && m.number == Some(s)
  }

  /** A step that must show something: a due tick, the end of a batch, or the awaited number. */
  predicate Progressing(ch: Channel, timeout: int, e: Event) {
    match e
    case Arrive(m, now) => ch.initialized && m.number == Some(ch.cursor)
    case Tick(now, reading) => ch.pending != map[] && Waited(now - ch.gapSince, timeout)
    case Flush(reading) => ch.pending != map[]
  }

  ghost function Progress(ch: Channel, timeout: int, es: seq<Event>): nat {
    if es == [] then 0
    else
      var n := |es| - 1;
      Progress(ch, timeout, es[..n]) +
      if Progressing(Play(ch, timeout, es[..n]).ch, timeout, es[n]) then 1 else 0
  }

  lemma DrainedKeepsOrShows(ch: Channel, now: nat, s: Word)
    requires Drainable(ch) && now > 0 && s in ch.pending
    ensures s in Drained(ch, now).ch.pending || Shows(Drained(ch, now).out, s)
  {
    DrainedFacts(ch, now);
    hide Drained;
    if s < End(ch) {
      assert Drained(ch, now).out[s - ch.cursor] in Drained(ch, now).out;
    }
  }

  /** A buffered number stays buffered or is shown, and a progressing step moves the cursor towards it. */
  lemma NextMovesOn(ch: Channel, timeout: int, e: Event, s: Word)
    requires Inv(ch) && Below(ch) && Proper(e) && NoLast(e) && s in ch.pending
    ensures var st := Next(ch, timeout, e);
            Shows(st.out, s) ||
            (s in st.ch.pending && ch.cursor + (if Progressing(ch, timeout, e) then 1 else 0) <= st.ch.cursor)
  {
    NextOrdered(ch, timeout, e);
    hide Drained, Accept;
    match e
    case Arrive(m, now) =>
      AcceptCases(ch, m, m.number.value, now);
      if m.number == Some(ch.cursor) {
        assert m in Accept(ch, m, m.number.value, now).out;
        DrainedKeepsOrShows(Deliver(ch, ch.cursor), now, s);
      }
    case Tick(now, reading) =>
      ExpiredMeans(ch, timeout, now);
      if Expired(ch, timeout, now) {
        ReleaseShowsSome(ch, reading, s);
      }
    case Flush(reading) => ReleaseShowsSome(ch, reading, s);
  }

  lemma ReleaseShowsSome(ch: Channel, reading: nat, s: Word)
    requires Inv(ch) && Below(ch) && reading > 0 && s in ch.pending
    ensures Shows(Release(ch, reading).out, s) || (s in Release(ch, reading).ch.pending &&
                                                  ch.cursor < Release(ch, reading).ch.cursor)
  {
    ReleaseFacts(ch, reading);
    var start := ch.(cursor := Least(ch.pending.Keys));
    hide Drained;
    DrainedKeepsOrShows(start, reading, s);
    DrainedOrdered(start, reading);
  }

  /** Bounded release: in any run a buffered number is shown, at the latest, by the time the run has
      made as many progressing steps as the number lies above the cursor; until then it is not lost. */
  lemma {:induction false} BufferedIsReleased(ch: Channel, timeout: int, es: seq<Event>, s: Word)
    requires Inv(ch) && Below(ch) && ProperRun(es) && NoLastRun(es) && s in ch.pending
    ensures var st := Play(ch, timeout, es);
            Shows(st.out, s) || (s in st.ch.pending && ch.cursor + Progress(ch, timeout, es) <= st.ch.cursor < s)
    ensures Progress(ch, timeout, es) >= s - ch.cursor ==> Shows(Play(ch, timeout, es).out, s)
  {
    hide Next, Progressing;
    if es != [] {
      var n := |es| - 1;
      var before := Play(ch, timeout, es[..n]);
      BufferedIsReleased(ch, timeout, es[..n], s);
      PlayOrdered(ch, timeout, es);
      PlayOrdered(ch, timeout, es[..n]);
      var after := Next(before.ch, timeout, es[n]);
      if Shows(before.out, s) {
        var m :| m in before.out && m.number == Some(s);
        assert m in before.out + after.out;
      } else {
        NextMovesOn(before.ch, timeout, es[n], s);
        if Shows(after.out, s) {
          var m :| m in after.out && m.number == Some(s);
          assert m in before.out + after.out;
        }
      }
    }
  }

  // ----- draining by timeouts alone

  predicate StartsRun(keys: set<Word>, k: Word) {
    k == 0 || k - 1 !in keys
  }

  ghost function Starts(keys: set<Word>): set<Word> {
    set k | k in keys && StartsRun(keys, k)
  }

  /** The number of maximal runs of consecutive numbers. */
  ghost function Runs(keys: set<Word>): nat {
    |Starts(keys)|
  }

  lemma NoRunsMeansEmpty(keys: set<Word>)
    ensures Runs(keys) == 0 <==> keys == {}
  {
    if keys != {} {
      var k := Least(keys);
      assert k in Starts(keys);
    }
  }

  lemma FirstRunGone(keys: set<Word>)
    requires keys != {}
    ensures Runs(Above(keys, RunEnd(keys, Least(keys)))) == Runs(keys) - 1
  {
    var l := Least(keys);
    var e: nat := RunEnd(keys, l);
    var rest := Above(keys, e);
    assert l in Starts(keys) && l !in rest;
    assert Starts(keys) == Starts(rest) + {l} by {
      forall k | k in Starts(keys) && k != l ensures k in Starts(rest) {
        assert l < k;
        assert k < e ==> k - 1 in keys;
      }
      forall k | k in Starts(rest) ensures k in Starts(keys) {
        assert k > e;
        assert k - 1 in keys ==> k - 1 in rest;
      }
    }
  }

  /** A due tick takes exactly the first run out of the buffer and restarts the timer at its own reading. */
  lemma DueTickReleasesOneRun(ch: Channel, timeout: int, now: nat, reading: nat)
    requires Inv(ch) && ch.pending != map[] && Waited(now - ch.gapSince, timeout) && reading > 0
    ensures var st := Next(ch, timeout, Tick(now, reading));
            && Runs(st.ch.pending.Keys) == Runs(ch.pending.Keys) - 1
            && (st.ch.pending != map[] ==> st.ch.gapSince == reading)
  {
    ExpiredMeans(ch, timeout, now);
    ReleaseFacts(ch, reading);
    var start := ch.(cursor := Least(ch.pending.Keys));
    DrainedFacts(start, reading);
    hide Drained, Waited, Millis;
    FirstRunGone(ch.pending.Keys);
    assert From(ch.pending, End(start)).Keys == Above(ch.pending.Keys, End(start));
  }

  /** Ticks a timeout apart, measured from the end of the previous drain. */
  ghost predicate Paced(ch: Channel, timeout: int, ticks: seq<Event>) {
    && ProperRun(ticks)
    && (forall i :: 0 <= i < |ticks| ==> ticks[i].Tick?)
    && (ticks != [] ==> Waited(ticks[0].now - ch.gapSince, timeout))
    && (forall i :: 0 < i < |ticks| ==> Waited(ticks[i].now - ticks[i - 1].reading, timeout))
  }

  /** The messages `all` are those in `out` and those in `rest`. */
  ghost predicate Splits(all: multiset<Message>, out: seq<Message>, rest: multiset<Message>) {
    all == multiset(out) + rest
  }

  /** What `ticks` paced ticks make of `ch`. */
  ghost predicate RunsGone(ch: Channel, ticks: seq<Event>, st: Step) {
    && Splits(Bag(ch.pending), st.out, Bag(st.ch.pending))
    && Runs(st.ch.pending.Keys) == (if |ticks| <= Runs(ch.pending.Keys) then Runs(ch.pending.Keys) - |ticks| else 0)
    && (ticks != [] && st.ch.pending != map[] ==>
          ticks[|ticks| - 1].Tick? && st.ch.gapSince == ticks[|ticks| - 1].reading)
  }

  /** What one paced tick does to the runs and the timer. */
  lemma PacedTick(ch: Channel, timeout: int, tick: Event)
    requires Inv(ch) && Below(ch) && Proper(tick) && tick.Tick?
    requires ch.pending != map[] ==> Waited(tick.now - ch.gapSince, timeout)
    ensures var st := Next(ch, timeout, tick);
            && Splits(Bag(ch.pending), st.out, Bag(st.ch.pending))
            && Runs(st.ch.pending.Keys) == (if Runs(ch.pending.Keys) > 0 then Runs(ch.pending.Keys) - 1 else 0)
            && (st.ch.pending != map[] ==> ch.pending != map[] && st.ch.gapSince == tick.reading)
  {
    NextBooks(ch, timeout, tick);
    TickBooks(ch, timeout, tick);
    NoRunsMeansEmpty(ch.pending.Keys);
    hide Bag, Runs, Below, Balanced;
    if ch.pending != map[] {
      DueTickReleasesOneRun(ch, timeout, tick.now, tick.reading);
    } else {
      IdleTick(ch, timeout, tick);
    }
    hide Next, Inv;
  }

  lemma OneMoreTick(ch: Channel, timeout: int, ticks: seq<Event>, before: Step, tick: Event)
    requires RunsGone(ch, ticks, before) && Inv(before.ch) && Below(before.ch) && Proper(tick) && tick.Tick?
    requires before.ch.pending != map[] ==> Waited(tick.now - before.ch.gapSince, timeout)
    ensures var after := Next(before.ch, timeout, tick);
            RunsGone(ch, ticks + [tick], Step(after.ch, before.out + after.out))
  {
    hide Next, Bag, Runs, Inv, Below, Splits, Waited, Proper;
    var after := Next(before.ch, timeout, tick);
    PacedTick(before.ch, timeout, tick);
    SplitsAgain(Bag(ch.pending), before.out, Bag(before.ch.pending), after.out, Bag(after.ch.pending));
    assert (ticks + [tick])[|ticks|] == tick;
  }

  lemma SplitsAgain(all: multiset<Message>, a: seq<Message>, mid: multiset<Message>, b: seq<Message>,
                    rest: multiset<Message>)
    requires Splits(all, a, mid) && Splits(mid, b, rest)
    ensures Splits(all, a + b, rest)
  {
  }

  lemma NoTicks(ch: Channel)
    ensures RunsGone(ch, [], Step(ch, []))
  {
    hide Bag, Runs;
  }

  lemma PacedLast(ch: Channel, timeout: int, earlier: seq<Event>, tick: Event, before: Step)
    requires Paced(ch, timeout, earlier + [tick]) && RunsGone(ch, earlier, before)
    requires earlier == [] ==> before.ch == ch
    ensures Proper(tick) && tick.Tick? && NoLastRun(earlier)
    ensures before.ch.pending != map[] ==> Waited(tick.now - before.ch.gapSince, timeout)
  {
    hide Bag, Runs, Splits, Waited, Proper;
    var ticks := earlier + [tick];
    assert ticks[|earlier|] == tick;
    assert forall i :: 0 <= i < |earlier| ==> ticks[i] == earlier[i];
  }

  lemma PlaySnoc(ch: Channel, timeout: int, es: seq<Event>, e: Event)
    ensures var before := Play(ch, timeout, es);
            var after := Next(before.ch, timeout, e);
            Play(ch, timeout, es + [e]) == Step(after.ch, before.out + after.out)
    ensures es == [] ==> Play(ch, timeout, es) == Step(ch, [])
  {
    hide Next;
    assert (es + [e])[..|es|] == es;
  }

  lemma {:induction false} PacedTicksRelease(ch: Channel, timeout: int, ticks: seq<Event>)
    requires Inv(ch) && Below(ch) && Paced(ch, timeout, ticks)
    ensures RunsGone(ch, ticks, Play(ch, timeout, ticks))
  {
    if ticks == [] {
      hide Inv, Below, Paced, RunsGone;
      NoTicks(ch);
    } else {
      hide Inv, Below, RunsGone, Play, Next, NoLastRun;
      var earlier, tick := ticks[..|ticks| - 1], ticks[|ticks| - 1];
      assert ticks == earlier + [tick];
      PacedPrefix(ch, timeout, earlier, tick);
      hide Paced;
      PacedTicksRelease(ch, timeout, earlier);
      PlaySnoc(ch, timeout, earlier, tick);
      PacedLast(ch, timeout, earlier, tick, Play(ch, timeout, earlier));
      PlayOrdered(ch, timeout, earlier);
      OneMoreTick(ch, timeout, earlier, Play(ch, timeout, earlier), tick);
    }
  }

  lemma PacedPrefix(ch: Channel, timeout: int, earlier: seq<Event>, tick: Event)
    requires Paced(ch, timeout, earlier + [tick])
    ensures Paced(ch, timeout, earlier) && ProperRun(earlier)
  {
    hide Waited, Proper;
    var ticks := earlier + [tick];
    assert forall i :: 0 <= i < |earlier| ==> ticks[i] == earlier[i];
  }

  /** With no new arrivals each paced tick empties one run: `k` of them show everything in a buffer of
      `k` runs, in order, and fewer leave a buffer with that many runs less. */
  lemma PacedTicksEmptyTheBuffer(ch: Channel, timeout: int, ticks: seq<Event>)
    requires Inv(ch) && Below(ch) && Paced(ch, timeout, ticks)
    ensures var st := Play(ch, timeout, ticks);
            && Ascending(st.out)
            && Bag(ch.pending) == multiset(st.out) + Bag(st.ch.pending)
            && (|ticks| <= Runs(ch.pending.Keys) ==> Runs(st.ch.pending.Keys) == Runs(ch.pending.Keys) - |ticks|)
            && (st.ch.pending == map[] <==> |ticks| >= Runs(ch.pending.Keys))
  {
    PlayOrdered(ch, timeout, ticks);
    PacedTicksRelease(ch, timeout, ticks);
    hide Runs, Bag, Next, Waited;
    NoRunsMeansEmpty(Play(ch, timeout, ticks).ch.pending.Keys);
  }

  lemma IdleTick(ch: Channel, timeout: int, tick: Event)
    requires tick.Tick? && ch.pending == map[]
    ensures Next(ch, timeout, tick) == Step(ch, [])
  {
  }

  lemma TickBooks(ch: Channel, timeout: int, tick: Event)
    requires tick.Tick? && Balanced(ch, tick, Next(ch, timeout, tick))
    ensures Bag(ch.pending) == multiset(Next(ch, timeout, tick).out) + Bag(Next(ch, timeout, tick).ch.pending)
  {
    hide Next, Bag;
    var st := Next(ch, timeout, tick);
    assert multiset(Arrived(tick)) + Bag(ch.pending) == Bag(ch.pending);
    assert multiset(st.out) + Bag(st.ch.pending) + multiset(Replaced(ch, tick)) + multiset(Discarded(ch, tick)) ==
           multiset(st.out) + Bag(st.ch.pending);
  }
}
