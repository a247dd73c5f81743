/** What every step and every run of one channel keeps: the channel invariant, strictly increasing
    output, the redundancy of the dedup set, and the books of what became of each arrival. */
module ChannelLaws {
  import opened Messages
  import opened Channels

  /** Everything buffered lies above the cursor under its own number, the dedup set is small and
      the gap timer runs exactly while something is buffered. */
  ghost predicate Inv(ch: Channel) {
    && (!ch.initialized ==> ch == FRESH)
    && (forall k :: k in ch.pending ==> ch.cursor < k && ch.pending[k].number == Some(k))
    && |ch.delivered| <= 4096
    && (ch.gapSince != 0 <==> ch.pending != map[])
  }

  /** The whole milliseconds in `nanos` nanoseconds, cut towards zero, are at least `timeout`. */
  predicate Waited(nanos: int, timeout: int) {
    if timeout > 0 then nanos >= timeout * 1_000_000 else nanos > (timeout - 1) * 1_000_000
  }

  lemma ExpiredMeans(ch: Channel, timeout: int, now: nat)
    ensures Expired(ch, timeout, now) <==>
            ch.pending != map[] && ch.gapSince != 0 && Waited(now - ch.gapSince, timeout)
  {
    MillisReach(now - ch.gapSince, timeout);
    hide Millis, Waited;
  }

  lemma MillisReach(nanos: int, timeout: int)
    ensures Millis(nanos) >= timeout <==> Waited(nanos, timeout)
  {
  }

  /** Holds as long as the largest 64-bit number has not arrived. */
  ghost predicate Below(ch: Channel) {
    && LAST !in ch.pending
    && (forall k :: k in ch.delivered ==> k < ch.cursor)
  }

  /** A channel whose buffer may start at the cursor: what `drainPending` is called on. */
  ghost predicate Drainable(ch: Channel) {
    && ch.initialized
    && (forall k :: k in ch.pending ==> ch.cursor <= k && ch.pending[k].number == Some(k))
    && |ch.delivered| <= DEDUP_LIMIT
    && (ch.gapSince != 0 ==> ch.pending != map[])
  }

  lemma {:induction false} RememberRangeFacts(delivered: set<Word>, lo: nat, hi: nat)
    requires lo <= hi <= WORD && |delivered| <= DEDUP_LIMIT
    ensures |RememberRange(delivered, lo, hi)| <= DEDUP_LIMIT
    ensures forall k :: k in RememberRange(delivered, lo, hi) ==> k in delivered || lo <= k < hi
    decreases hi
  {
    if lo < hi {
      RememberRangeFacts(delivered, lo, hi - 1);
    }
  }

  /** The end of the run that a drain of `ch` shows. */
  ghost function End(ch: Channel): (e: nat)
    ensures ch.cursor <= e <= WORD
  {
    RunEndInWord(ch.pending.Keys, ch.cursor);
    RunEnd(ch.pending.Keys, ch.cursor)
  }

  lemma DrainedChannel(ch: Channel, now: nat)
    requires Drainable(ch) && now > 0
    ensures Inv(Drained(ch, now).ch)
    ensures Drained(ch, now).ch.initialized
    ensures Drained(ch, now).ch.cursor == End(ch) % WORD
    ensures Drained(ch, now).ch.pending == From(ch.pending, End(ch))
    ensures forall k :: k in Drained(ch, now).ch.delivered ==> k in ch.delivered || ch.cursor <= k < End(ch)
    ensures Drained(ch, now).ch.pending != map[] && (ch.gapSince == 0 || End(ch) > ch.cursor) ==>
              Drained(ch, now).ch.gapSince == now
  {
    DrainedChannelIs(ch, now);
    AfterRunFacts(ch, End(ch));
    hide RunEnd, Drained, From, AfterRun;
  }

  lemma AfterRunFacts(ch: Channel, e: nat)
    requires Drainable(ch) && ch.cursor <= e <= WORD && e !in ch.pending.Keys
    ensures var st := AfterRun(ch, e);
            && st.initialized && st.cursor == e % WORD && st.pending == From(ch.pending, e)
            && (forall k :: k in st.pending ==> st.cursor < k && st.pending[k].number == Some(k))
            && |st.delivered| <= DEDUP_LIMIT
            && (forall k :: k in st.delivered ==> k in ch.delivered || ch.cursor <= k < e)
            && st.gapSince == (if ch.cursor < e then 0 else ch.gapSince)
            && (e == ch.cursor ==> st.pending == ch.pending)
  {
    RememberRangeFacts(ch.delivered, ch.cursor, e);
    hide RememberRange;
    assert e == ch.cursor ==> From(ch.pending, e) == ch.pending;
  }

  lemma DrainedChannelIs(ch: Channel, now: nat)
    ensures Drained(ch, now).ch == Restart(AfterRun(ch, End(ch)), now)
    ensures End(ch) !in ch.pending.Keys
  {
  }

  lemma DrainedOutput(ch: Channel, now: nat)
    requires Drainable(ch)
    ensures |Drained(ch, now).out| == End(ch) - ch.cursor
    ensures forall i :: 0 <= i < End(ch) - ch.cursor ==>
              ch.cursor + i in ch.pending && Drained(ch, now).out[i] == ch.pending[ch.cursor + i]
    ensures Consecutive(Drained(ch, now).out, ch.cursor)
  {
  }

  lemma ConsecutiveAscends(ms: seq<Message>, b: nat)
    requires Consecutive(ms, b)
    ensures Ascending(ms) && Within(ms, b, b + |ms|)
  {
  }

  /** A drain shows the numbers `cursor .. End - 1` in order, each with its buffered message, keeps
      what lies above and re-establishes the invariant: its expired-entry branch has no work. */
  lemma DrainedFacts(ch: Channel, now: nat)
    requires Drainable(ch) && now > 0
    ensures Inv(Drained(ch, now).ch)
    ensures Drained(ch, now).ch.initialized
    ensures Drained(ch, now).ch.cursor == End(ch) % WORD
    ensures Drained(ch, now).ch.pending == From(ch.pending, End(ch))
    ensures |Drained(ch, now).out| == End(ch) - ch.cursor
    ensures forall i :: 0 <= i < End(ch) - ch.cursor ==>
              ch.cursor + i in ch.pending && Drained(ch, now).out[i] == ch.pending[ch.cursor + i]
    ensures Consecutive(Drained(ch, now).out, ch.cursor)
    ensures Ascending(Drained(ch, now).out) && Within(Drained(ch, now).out, ch.cursor, End(ch))
    ensures forall k :: k in Drained(ch, now).ch.delivered ==> k in ch.delivered || ch.cursor <= k < End(ch)
    ensures Drained(ch, now).ch.pending != map[] && (ch.gapSince == 0 || End(ch) > ch.cursor) ==>
              Drained(ch, now).ch.gapSince == now
  {
    hide Drained;
    DrainedChannel(ch, now);
    DrainedOutput(ch, now);
    ConsecutiveAscends(Drained(ch, now).out, ch.cursor);
  }

  lemma ReleaseFacts(ch: Channel, reading: nat)
    requires Inv(ch) && ch.pending != map[] && reading > 0
    ensures ch.pending.Keys != {}
    ensures var start := ch.(cursor := Least(ch.pending.Keys));
            Drainable(start) && Release(ch, reading) == Drained(start, reading) &&
            start.cursor < End(start)
  {
    assert ch.pending.Keys != {};
    var start := ch.(cursor := Least(ch.pending.Keys));
    assert End(start) != start.cursor;
  }

  /** The channel as the arrival of number `s` finds it. */
  function Opened(ch: Channel, s: Word): Channel {
    if ch.initialized then ch else ch.(initialized := true, cursor := s)
  }

  lemma DeliverDrainable(ch: Channel, s: Word)
    requires ch.initialized && s == ch.cursor && |ch.delivered| <= DEDUP_LIMIT
    requires forall k :: k in ch.pending ==> ch.cursor < k && ch.pending[k].number == Some(k)
    ensures Drainable(Deliver(ch, s))
  {
    RememberRangeFacts(ch.delivered, 0, 0);
  }

  lemma BufferingKeepsInv(ch: Channel, m: Message, s: Word, now: nat)
    requires Inv(ch) && ch.initialized && s > ch.cursor && m.number == Some(s) && now > 0
    ensures Inv(Restart(ch.(pending := ch.pending[s := m]), now))
  {
    assert s in ch.pending[s := m];
  }

  lemma AcceptKeepsInv(ch: Channel, m: Message, s: Word, now: nat)
    requires Inv(ch) && m.number == Some(s) && now > 0
    ensures Inv(Accept(ch, m, s, now).ch)
  {
    var open := Opened(ch, s);
    assert Inv(open);
    hide Drained, Deliver, Restart, Drainable;
    if s < open.cursor || s in open.delivered {
    } else if s == open.cursor {
      DeliverDrainable(open, s);
      DrainedChannel(Deliver(open, s), now);
    } else {
      BufferingKeepsInv(open, m, s, now);
    }
  }

  /** Every step keeps the invariant, whatever number arrives. */
  lemma NextKeepsInv(ch: Channel, timeout: int, e: Event)
    requires Inv(ch) && Proper(e)
    ensures Inv(Next(ch, timeout, e).ch)
  {
    hide Drained, Accept;
    match e
    case Arrive(m, now) => AcceptKeepsInv(ch, m, m.number.value, now);
    case Tick(now, reading) => if Expired(ch, timeout, now) {
      ReleaseFacts(ch, reading);
      DrainedChannel(ch.(cursor := Least(ch.pending.Keys)), reading);
    }
    case Flush(reading) => if ch.pending != map[] {
      ReleaseFacts(ch, reading);
      DrainedChannel(ch.(cursor := Least(ch.pending.Keys)), reading);
    }
  }

  lemma FreshIsFine()
    ensures Inv(FRESH) && Below(FRESH)
  {
  }

  /** A drain from at least `lo` keeps its output between `lo` and the new cursor. */
  lemma DrainedOrdered(ch: Channel, now: nat)
    requires Drainable(ch) && now > 0 && LAST !in ch.pending
    ensures ch.cursor <= Drained(ch, now).ch.cursor
    ensures LAST !in Drained(ch, now).ch.pending
    ensures Within(Drained(ch, now).out, ch.cursor, Drained(ch, now).ch.cursor)
  {
    DrainedFacts(ch, now);
    assert End(ch) == WORD ==> End(ch) == ch.cursor || LAST in ch.pending;
  }

  /** What `NextOrdered` says of one step. */
  ghost predicate Ordered(ch: Channel, st: Step) {
    && Inv(st.ch) && Below(st.ch)
    && ch.cursor <= st.ch.cursor
    && Ascending(st.out)
    && Within(st.out, ch.cursor, st.ch.cursor)
  }

  lemma DeliverOrdered(ch: Channel, m: Message, now: nat)
    requires Inv(ch) && Below(ch) && ch.initialized && m.number == Some(ch.cursor) && ch.cursor != LAST && now > 0
    ensures Ordered(ch, Step(Drained(Deliver(ch, ch.cursor), now).ch, [m] + Drained(Deliver(ch, ch.cursor), now).out))
  {
    hide Drained;
    var ch1 := Deliver(ch, ch.cursor);
    assert ch1.cursor == ch.cursor + 1;
    DrainedFacts(ch1, now);
    DrainedOrdered(ch1, now);
    AscendingConcat([m], Drained(ch1, now).out, ch.cursor, ch1.cursor, Drained(ch1, now).ch.cursor);
  }

  lemma AcceptOrdered(ch: Channel, m: Message, now: nat)
    requires Inv(ch) && Below(ch) && m.number.Some? && Num(m) != LAST && now > 0
    ensures Ordered(ch, Accept(ch, m, Num(m), now))
  {
    hide Drained;
    var s := m.number.value;
    if !ch.initialized {
      var open := ch.(initialized := true, cursor := s);
      DeliverOrdered(open, m, now);
    } else if s == ch.cursor {
      DeliverOrdered(ch, m, now);
    }
  }

  lemma ReleaseOrdered(ch: Channel, reading: nat)
    requires Inv(ch) && Below(ch) && ch.pending != map[] && reading > 0
    ensures Ordered(ch, Release(ch, reading))
  {
    hide Drained;
    ReleaseFacts(ch, reading);
    var start := ch.(cursor := Least(ch.pending.Keys));
    DrainedFacts(start, reading);
    DrainedOrdered(start, reading);
  }

  /** One step shows increasing numbers that start no lower than the old cursor and end below the
      new one, so the cursor never goes back. */
  lemma NextOrdered(ch: Channel, timeout: int, e: Event)
    requires Inv(ch) && Below(ch) && Proper(e) && NoLast(e)
    ensures Ordered(ch, Next(ch, timeout, e))
  {
    hide Accept, Release, Ordered;
    match e
    case Arrive(m, now) => AcceptOrdered(ch, m, now);
    case Tick(now, reading) =>
      if Expired(ch, timeout, now) {
        ReleaseOrdered(ch, reading);
      } else {
        IdleOrdered(ch);
      }
    case Flush(reading) =>
      if ch.pending != map[] {
        ReleaseOrdered(ch, reading);
      } else {
        IdleOrdered(ch);
      }
  }

  lemma IdleOrdered(ch: Channel)
    requires Inv(ch) && Below(ch)
    ensures Ordered(ch, Step(ch, []))
  {
  }

  /** The three cases of an arrival: late, on time and early. */
  lemma AcceptCases(ch: Channel, m: Message, s: Word, now: nat)
    requires Inv(ch) && Below(ch) && m.number == Some(s) && now > 0
    ensures var st := Accept(ch, m, s, now);
            var open := Opened(ch, s);
            && (s < open.cursor ==> st == Step(ch, []))
            && (s == open.cursor ==>
                  st == Step(Drained(Deliver(open, s), now).ch, [m] + Drained(Deliver(open, s), now).out))
            && (s > open.cursor ==>
                  st.out == [] && st.ch == ch.(pending := ch.pending[s := m], gapSince := st.ch.gapSince))
    ensures s == Opened(ch, s).cursor ==> Drainable(Deliver(Opened(ch, s), s)) && s !in ch.pending
  {
    hide Drained;
    RememberRangeFacts(Opened(ch, s).delivered, 0, 0);
  }

  ghost predicate ProperRun(es: seq<Event>) {
    forall i :: 0 <= i < |es| ==> Proper(es[i])
  }

  ghost predicate NoLastRun(es: seq<Event>) {
    forall i :: 0 <= i < |es| ==> NoLast(es[i])
  }

  lemma {:induction false} PlayKeepsInv(ch: Channel, timeout: int, es: seq<Event>)
    requires Inv(ch) && ProperRun(es)
    ensures Inv(Play(ch, timeout, es).ch)
  {
    hide Next;
    if es != [] {
      var n := |es| - 1;
      PlayKeepsInv(ch, timeout, es[..n]);
      NextKeepsInv(Play(ch, timeout, es[..n]).ch, timeout, es[n]);
    }
  }

  /** Strict order over whole runs: under any interleaving of messages, ticks and batch ends the
      numbers shown strictly increase, so nothing is shown twice, and all lie below the cursor. */
  lemma {:induction false} PlayOrdered(ch: Channel, timeout: int, es: seq<Event>)
    requires Inv(ch) && Below(ch) && ProperRun(es) && NoLastRun(es)
    ensures Ordered(ch, Play(ch, timeout, es))
  {
    hide Next;
    if es != [] {
      var n := |es| - 1;
      var before := Play(ch, timeout, es[..n]);
      PlayOrdered(ch, timeout, es[..n]);
      NextOrdered(before.ch, timeout, es[n]);
      var after := Next(before.ch, timeout, es[n]);
      AscendingConcat(before.out, after.out, ch.cursor, before.ch.cursor, after.ch.cursor);
    }
  }

  // ----- the dedup set

  function Forget(ch: Channel): Channel {
    ch.(delivered := {})
  }

  /** The reorderer without its dedup set: no step ever finds anything in it. */
  ghost function NextPlain(ch: Channel, timeout: int, e: Event): Step {
    var st := Next(Forget(ch), timeout, e);
    Step(Forget(st.ch), st.out)
  }

  ghost function PlayPlain(ch: Channel, timeout: int, es: seq<Event>): Step {
    if es == [] then Step(Forget(ch), [])
    else
      var before := PlayPlain(ch, timeout, es[..|es| - 1]);
      var after := NextPlain(before.ch, timeout, es[|es| - 1]);
      Step(after.ch, before.out + after.out)
  }

  lemma DrainedPlain(a: Channel, b: Channel, now: nat)
    requires Forget(a) == Forget(b)
    ensures Forget(Drained(a, now).ch) == Forget(Drained(b, now).ch)
    ensures Drained(a, now).out == Drained(b, now).out
  {
  }

  lemma AcceptPlain(ch: Channel, m: Message, s: Word, now: nat)
    requires Inv(ch) && Below(ch)
    ensures Forget(Accept(Forget(ch), m, s, now).ch) == Forget(Accept(ch, m, s, now).ch)
    ensures Accept(Forget(ch), m, s, now).out == Accept(ch, m, s, now).out
  {
    hide Drained;
    var open := Opened(ch, s);
    DrainedPlain(Deliver(open, s), Deliver(Forget(open), s), now);
  }

  lemma ReleasePlain(ch: Channel, reading: nat)
    requires ch.pending != map[]
    ensures Forget(Release(Forget(ch), reading).ch) == Forget(Release(ch, reading).ch)
    ensures Release(Forget(ch), reading).out == Release(ch, reading).out
  {
    hide Drained;
    assert ch.pending.Keys != {};
    var start := ch.(cursor := Least(ch.pending.Keys));
    DrainedPlain(start, Forget(start), reading);
  }

  lemma NextIgnoresDelivered(ch: Channel, timeout: int, e: Event)
    requires Inv(ch) && Below(ch)
    ensures NextPlain(Forget(ch), timeout, e) ==
            Step(Forget(Next(ch, timeout, e).ch), Next(ch, timeout, e).out)
  {
    hide Accept, Release, Inv, Below;
    assert Forget(Forget(ch)) == Forget(ch);
    match e
    case Arrive(m, now) => if m.number.Some? {
      AcceptPlain(ch, m, m.number.value, now);
    }
    case Tick(now, reading) => if Expired(ch, timeout, now) {
      ReleasePlain(ch, reading);
    }
    case Flush(reading) => if ch.pending != map[] {
      ReleasePlain(ch, reading);
    }
  }

  /** The dedup set is redundant: without it every run shows the same messages and leaves the same
      cursor, buffer and timer. */
  lemma {:induction false} DedupSetIsRedundant(timeout: int, es: seq<Event>)
    requires ProperRun(es) && NoLastRun(es)
    ensures PlayPlain(FRESH, timeout, es) ==
            Step(Forget(Play(FRESH, timeout, es).ch), Play(FRESH, timeout, es).out)
  {
    hide Next, NextPlain;
    if es != [] {
      var n := |es| - 1;
      DedupSetIsRedundant(timeout, es[..n]);
      PlayOrdered(FRESH, timeout, es[..n]);
      NextIgnoresDelivered(Play(FRESH, timeout, es[..n]).ch, timeout, es[n]);
    }
  }
}
