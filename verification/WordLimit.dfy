/** `expect = seq + 1` wraps at the top of the 64-bit range. Exactly which arrivals that harms. */
module WordLimit {
  import opened Messages
  import opened Channels
  import opened ChannelLaws

  /** All arrivals of the run carry numbers from `numbers`. */
  ghost predicate Over(es: seq<Event>, numbers: iset<Word>) {
    forall i :: 0 <= i < |es| && es[i].Arrive? ==> es[i].m.number.Some? && es[i].m.number.value in numbers
  }

  ghost predicate AlwaysAscending(timeout: int, numbers: iset<Word>) {
    forall es :: ProperRun(es) && Over(es, numbers) ==> Ascending(Play(FRESH, timeout, es).out)
  }

  ghost predicate DedupNeverMatters(timeout: int, numbers: iset<Word>) {
    forall es :: ProperRun(es) && Over(es, numbers) ==>
      PlayPlain(FRESH, timeout, es).out == Play(FRESH, timeout, es).out
  }

  function At(s: Word): Message { Message(None, Some(s), "") }

  const WRAPPED: Channel := Channel(true, 0, map[], {LAST}, 0)

  /** Showing the largest number sends the cursor to 0. */
  lemma FirstLast(timeout: int, m: Message, now: nat)
    requires m.number == Some(LAST)
    ensures Next(FRESH, timeout, Arrive(m, now)) == Step(WRAPPED, [m])
  {
    var open := Channel(true, LAST, map[], {}, 0);
    assert {} + {LAST} == {LAST as Word};
    EmptyDrain(Deliver(open, LAST), now);
  }

  const HOLDING_TIME: nat := 1

  function Holding(k: Word): Channel { WRAPPED.(pending := map[k := At(k)], gapSince := HOLDING_TIME) }

  lemma AfterWrap(timeout: int, k: Word)
    requires k < LAST
    ensures k == 0 ==> Next(WRAPPED, timeout, Arrive(At(0), 1)) == Step(Deliver(WRAPPED, 0), [At(0)])
    ensures k > 0 ==> Next(WRAPPED, timeout, Arrive(At(k), 1)) == Step(Holding(k), [])
  {
    if k == 0 {
      EmptyDrain(Deliver(WRAPPED, 0), 1);
    } else {
      var held := WRAPPED.pending[k := At(k)];
      assert k in held && held == Holding(k).pending;
    }
  }

  lemma FlushHolding(timeout: int, k: Word)
    requires 0 < k < LAST
    ensures Next(Holding(k), timeout, Flush(HOLDING_TIME)).out == [At(k)]
  {
    var held := Holding(k);
    assert held.pending.Keys == {k};
    assert Least(held.pending.Keys) == k;
    var start := held.(cursor := k);
    RunEndIs(start.pending.Keys, k, k + 1);
    assert Run(start.pending, k, k + 1) == [At(k)];
  }

  lemma PlayThree(timeout: int, a: Event, b: Event, c: Event)
    ensures var x := Next(FRESH, timeout, a);
            var y := Next(x.ch, timeout, b);
            var z := Next(y.ch, timeout, c);
            Play(FRESH, timeout, [a, b, c]) == Step(z.ch, x.out + y.out + z.out)
  {
    hide Next;
    assert [a][..0] == [] && [a, b][..1] == [a] && [a, b, c][..2] == [a, b];
    assert Play(FRESH, timeout, [a]).out == Next(FRESH, timeout, a).out;
    assert Play(FRESH, timeout, [a, b]) == Step(Next(Next(FRESH, timeout, a).ch, timeout, b).ch,
        Next(FRESH, timeout, a).out + Next(Next(FRESH, timeout, a).ch, timeout, b).out);
  }

  function Harm(k: Word): seq<Event> {
    [Arrive(At(LAST), 1), Arrive(At(k), 1), Flush(1)]
  }

  /** After the wrap an older number is shown behind the largest one. */
  lemma WrapReorders(timeout: int, k: Word)
    requires k < LAST
    ensures Play(FRESH, timeout, Harm(k)).out == [At(LAST), At(k)]
  {
    FirstLast(timeout, At(LAST), 1);
    AfterWrap(timeout, k);
    hide Next;
    PlayThree(timeout, Arrive(At(LAST), 1), Arrive(At(k), 1), Flush(1));
    if k == 0 {
      IdleFlush(timeout, Deliver(WRAPPED, 0));
    } else {
      FlushHolding(timeout, k);
    }
  }

  lemma IdleFlush(timeout: int, ch: Channel)
    requires ch.pending == map[]
    ensures Next(ch, timeout, Flush(1)) == Step(ch, [])
  {
  }

  /** A channel that has seen nothing but the largest number. */
  ghost predicate OnlyLast(st: Step) {
    (st.ch == FRESH && st.out == []) ||
    (st.ch == WRAPPED && |st.out| == 1 && st.out[0].number.Some?)
  }

  lemma {:induction false} OnlyLastPlay(timeout: int, es: seq<Event>)
    requires ProperRun(es) && Over(es, iset{LAST})
    ensures OnlyLast(Play(FRESH, timeout, es))
  {
    if es != [] {
      var n := |es| - 1;
      OnlyLastPlay(timeout, es[..n]);
      var ch := Play(FRESH, timeout, es[..n]).ch;
      if es[n].Arrive? {
        OnlyLastArrives(timeout, ch, es[n].m, es[n].now);
      }
      assert Next(ch, timeout, es[n]).out == [] || (ch == FRESH && es[n].Arrive?);
    }
  }

  lemma OnlyLastArrives(timeout: int, ch: Channel, m: Message, now: nat)
    requires m.number == Some(LAST) && (ch == FRESH || ch == WRAPPED)
    ensures Next(ch, timeout, Arrive(m, now)) == if ch == FRESH then Step(WRAPPED, [m]) else Step(WRAPPED, [])
  {
    if ch == FRESH {
      FirstLast(timeout, m, now);
    }
  }

  /** The channel shows every run over a set of numbers in strictly increasing order exactly when
      the set lacks the largest 64-bit number or holds nothing else. */
  lemma StrictOrderExactly(timeout: int, numbers: iset<Word>)
    ensures AlwaysAscending(timeout, numbers) <==>
            0xFFFF_FFFF_FFFF_FFFF !in numbers || numbers == iset{0xFFFF_FFFF_FFFF_FFFF}
  {
    hide Next, Play;
    if LAST !in numbers {
      forall es | ProperRun(es) && Over(es, numbers) ensures Ascending(Play(FRESH, timeout, es).out) {
        PlayOrdered(FRESH, timeout, es);
      }
    } else if numbers == iset{LAST} {
      forall es | ProperRun(es) && Over(es, numbers) ensures Ascending(Play(FRESH, timeout, es).out) {
        OnlyLastPlay(timeout, es);
      }
    } else {
      var k :| k in numbers && k != LAST;
      WrapReorders(timeout, k);
      assert ProperRun(Harm(k)) && Over(Harm(k), numbers);
      var shown := [At(LAST), At(k)];
      assert Num(shown[0]) > Num(shown[1]);
    }
  }

  /** Without the dedup set a repeated largest number would be shown twice. */
  lemma WrapNeedsDedup(timeout: int)
    ensures Play(FRESH, timeout, Harm(LAST)).out == [At(LAST)]
    ensures PlayPlain(FRESH, timeout, Harm(LAST)).out == [At(LAST), At(LAST)]
  {
    FirstLast(timeout, At(LAST), 1);
    OnlyLastArrives(timeout, WRAPPED, At(LAST), 1);
    IdleFlush(timeout, WRAPPED);
    PlainAfterWrap(timeout);
    hide Next;
    PlayThree(timeout, Arrive(At(LAST), 1), Arrive(At(LAST), 1), Flush(1));
    PlainThree(timeout, Arrive(At(LAST), 1), Arrive(At(LAST), 1), Flush(1));
  }

  lemma PlainAfterWrap(timeout: int)
    ensures NextPlain(Forget(WRAPPED), timeout, Arrive(At(LAST), 1)) == Step(Forget(Holding(LAST)), [])
    ensures NextPlain(Forget(Holding(LAST)), timeout, Flush(1)).out == [At(LAST)]
  {
    assert WRAPPED.pending[LAST := At(LAST)] == Holding(LAST).pending;
    var held := Forget(Holding(LAST));
    assert held.pending.Keys == {LAST};
    assert Least(held.pending.Keys) == LAST;
    RunEndIs(held.pending.Keys, LAST, LAST + 1);
    assert Run(held.pending, LAST, LAST + 1) == [At(LAST)];
  }

  lemma PlainThree(timeout: int, a: Event, b: Event, c: Event)
    ensures var x := NextPlain(FRESH, timeout, a);
            var y := NextPlain(x.ch, timeout, b);
            var z := NextPlain(y.ch, timeout, c);
            PlayPlain(FRESH, timeout, [a, b, c]) == Step(z.ch, x.out + y.out + z.out)
  {
    hide NextPlain;
    assert Forget(FRESH) == FRESH;
    assert [a][..0] == [] && [a, b][..1] == [a] && [a, b, c][..2] == [a, b];
    assert PlayPlain(FRESH, timeout, [a]).out == NextPlain(FRESH, timeout, a).out;
    assert PlayPlain(FRESH, timeout, [a, b]).out ==
      NextPlain(FRESH, timeout, a).out + NextPlain(NextPlain(FRESH, timeout, a).ch, timeout, b).out;
  }

  /** The dedup set changes nothing on the runs over a set of numbers exactly when the set lacks the
      largest 64-bit number. */
  lemma DedupSetMattersExactly(timeout: int, numbers: iset<Word>)
    ensures DedupNeverMatters(timeout, numbers) <==> 0xFFFF_FFFF_FFFF_FFFF !in numbers
  {
    hide Next, Play, NextPlain, PlayPlain;
    if LAST !in numbers {
      forall es | ProperRun(es) && Over(es, numbers)
        ensures PlayPlain(FRESH, timeout, es).out == Play(FRESH, timeout, es).out
      {
        DedupSetIsRedundant(timeout, es);
      }
    } else {
      WrapNeedsDedup(timeout);
      assert ProperRun(Harm(LAST)) && Over(Harm(LAST), numbers);
    }
  }
}
