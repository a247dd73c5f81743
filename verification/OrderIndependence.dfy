/** The closed form of what a channel shows when messages only arrive: it depends on the first number
    and the set of numbers, not on the order or the multiplicity of the rest. */
module OrderIndependence {
  import opened Messages
  import opened Channels
  import opened ChannelLaws
  import opened Provenance

  ghost predicate ArrivalsOnly(es: seq<Event>) {
    ProperRun(es) && NoLastRun(es) && forall i :: 0 <= i < |es| ==> es[i].Arrive?
  }

  ghost function Received(es: seq<Event>): set<Word> {
    set i | 0 <= i < |es| && es[i].Arrive? && es[i].m.number.Some? :: es[i].m.number.value
  }

  /** The cursor is the first number missing from `received` at or above `b`, all numbers from `b` up to it
      have been shown in order and exactly the received numbers beyond it are buffered. */
  ghost predicate ClosedForm(st: Step, b: Word, received: set<Word>) {
    var e := RunEnd(received, b);
    && st.ch.initialized
    && st.ch.cursor == e
    && st.ch.pending.Keys == (set s | s in received && s > e)
    && |st.out| == e - b
    && Consecutive(st.out, b)
  }

  lemma OpeningForm(m: Message, now: nat)
    requires m.number.Some? && Num(m) != LAST && now > 0
    ensures ClosedForm(Accept(FRESH, m, m.number.value, now), m.number.value, {m.number.value})
  {
    var s := m.number.value;
    hide Drained;
    RunEndIs({s}, s, s + 1);
    EmptyDrain(Deliver(FRESH.(initialized := true, cursor := s), s), now);
  }

  /** Filling the gap at `s` moves the end of the run to the end of the run buffered behind it. */
  lemma RunEndJoins(received: set<Word>, b: Word, s: Word, beyond: set<Word>)
    requires RunEnd(received, b) == s < LAST && LAST !in received
    requires beyond == set k | k in received && k > s
    ensures RunEnd(received + {s}, b) == RunEnd(beyond, s + 1) < WORD
  {
    var e: nat := RunEnd(beyond, s + 1);
    assert e >= WORD ==> LAST in beyond;
    forall k | b <= k < e ensures k in received + {s} {
      if s < k { assert k in beyond; }
    }
    RunEndIs(received + {s}, b, e);
  }

  lemma OnTimeEnd(st: Step, b: Word, received: set<Word>)
    requires ClosedForm(st, b, received) && LAST !in received && st.ch.cursor != LAST
    ensures var ch1 := Deliver(st.ch, st.ch.cursor);
            var e := RunEnd(received + {st.ch.cursor}, b);
            && End(ch1) == e && ch1.cursor == st.ch.cursor + 1 <= e < WORD && ch1.pending == st.ch.pending
            && e !in st.ch.pending && ch1.initialized
  {
    RunEndJoins(received, b, st.ch.cursor, st.ch.pending.Keys);
    hide Remember, Consecutive, RunEnd;
    var e: nat := RunEnd(st.ch.pending.Keys, st.ch.cursor + 1);
    assert e !in st.ch.pending.Keys;
  }

  /** The drain behind an awaited number ends where the run now ends. */
  lemma OnTimeDrain(st: Step, b: Word, received: set<Word>, now: nat)
    requires ClosedForm(st, b, received) && LAST !in received
    requires st.ch.cursor != LAST && now > 0 && Drainable(Deliver(st.ch, st.ch.cursor))
    ensures var s, d := st.ch.cursor, Drained(Deliver(st.ch, st.ch.cursor), now);
            var e := RunEnd(received + {s}, b);
            && s < e < WORD && d.ch.initialized && d.ch.cursor == e && d.ch.pending == From(st.ch.pending, e)
            && e !in st.ch.pending && |d.out| == e - s - 1 && Consecutive(d.out, s + 1)
  {
    hide Drained, Deliver, Consecutive, From, Drainable, Inv, ClosedForm, RunEnd, End;
    OnTimeEnd(st, b, received);
    DrainedChannel(Deliver(st.ch, st.ch.cursor), now);
    DrainedOutput(Deliver(st.ch, st.ch.cursor), now);
  }

  lemma OnTimeKeepsForm(st: Step, b: Word, received: set<Word>, m: Message, now: nat)
    requires ClosedForm(st, b, received) && LAST !in received
    requires m.number == Some(st.ch.cursor) && st.ch.cursor != LAST && now > 0
    requires Drainable(Deliver(st.ch, st.ch.cursor))
    ensures var d := Drained(Deliver(st.ch, st.ch.cursor), now);
            ClosedForm(Step(d.ch, st.out + ([m] + d.out)), b, received + {st.ch.cursor})
  {
    OnTimeDrain(st, b, received, now);
    hide Drained, Deliver, RunEnd, Drainable;
    var s, d := st.ch.cursor, Drained(Deliver(st.ch, st.ch.cursor), now);
    ConsecutiveJoins(st.out, m, d.out, b);
    hide Consecutive, From;
    BufferJoins(received, s, st.ch.pending, RunEnd(received + {s}, b));
  }

  lemma ConsecutiveJoins(x: seq<Message>, m: Message, y: seq<Message>, b: nat)
    requires Consecutive(x, b) && m.number.Some? && m.number.value == b + |x| && Consecutive(y, b + |x| + 1)
    ensures Consecutive(x + ([m] + y), b)
  {
    ConsecutiveConcat([m], y, b + |x|);
    ConsecutiveConcat(x, [m] + y, b);
  }

  lemma BufferJoins(received: set<Word>, s: Word, pending: map<Word, Message>, e: nat)
    requires pending.Keys == (set k | k in received && k > s)
    requires s < e && e !in pending
    ensures From(pending, e).Keys == set k | k in received + {s} && k > e
  {
  }

  lemma ArrivalKeepsForm(st: Step, b: Word, received: set<Word>, m: Message, now: nat)
    requires ClosedForm(st, b, received) && Inv(st.ch) && Below(st.ch) && b in received && LAST !in received
    requires m.number.Some? && Num(m) != LAST && now > 0
    ensures var a := Accept(st.ch, m, m.number.value, now);
            ClosedForm(Step(a.ch, st.out + a.out), b, received + {m.number.value})
  {
    var s := m.number.value;
    hide Drained, Accept;
    AcceptCases(st.ch, m, s, now);
    if s == st.ch.cursor {
      OnTimeKeepsForm(st, b, received, m, now);
    } else {
      RunEndIs(received + {s}, b, st.ch.cursor);
    }
  }

  /** Any history of arrivals, in any order and with any repetition, ends in the closed form. */
  lemma {:induction false} ArrivalsClosedForm(timeout: int, es: seq<Event>)
    requires ArrivalsOnly(es) && es != []
    ensures ClosedForm(Play(FRESH, timeout, es), es[0].m.number.value, Received(es))
  {
    hide Accept, ClosedForm, Inv, Below;
    var n := |es| - 1;
    FreshIsFine();
    PlayOrdered(FRESH, timeout, es[..n]);
    if n == 0 {
      assert es[..n] == [];
      OpeningForm(es[0].m, es[0].now);
      var opening := Accept(FRESH, es[0].m, es[0].m.number.value, es[0].now);
      assert [] + opening.out == opening.out;
      assert Received(es) == {es[0].m.number.value};
    } else {
      ArrivalsClosedForm(timeout, es[..n]);
      ArrivalKeepsForm(Play(FRESH, timeout, es[..n]), es[0].m.number.value, Received(es[..n]), es[n].m, es[n].now);
      assert Received(es) == Received(es[..n]) + {es[n].m.number.value};
    }
  }

  // ----- payloads

  /** Every message is the copy of its number. */
  ghost predicate Copies(st: Step, copy: Word -> Message) {
    && (forall m :: m in st.out ==> m.number.Some? && m == copy(m.number.value))
    && (forall k :: k in st.ch.pending ==> st.ch.pending[k] == copy(k))
  }

  ghost predicate ArriveAsCopies(es: seq<Event>, copy: Word -> Message) {
    forall i :: 0 <= i < |es| && es[i].Arrive? && es[i].m.number.Some? ==> es[i].m == copy(es[i].m.number.value)
  }

  lemma {:induction false} PlayCopies(timeout: int, es: seq<Event>, copy: Word -> Message)
    requires ProperRun(es) && ArriveAsCopies(es, copy)
    ensures Copies(Play(FRESH, timeout, es), copy)
  {
    var origin := iset m: Message | m.number.Some? && m == copy(m.number.value);
    hide Play;
    PlayInside(timeout, es, origin);
    PlayKeepsInv(FRESH, timeout, es);
  }

  /** Order independence: two histories that open with the same number and receive the same set of
      numbers, all copies of a number being equal, show the same messages and buffer the same ones. */
  lemma ArrivalOrderIsIrrelevant(timeout: int, es: seq<Event>, es': seq<Event>, copy: Word -> Message)
    requires ArrivalsOnly(es) && ArrivalsOnly(es') && es != [] && es' != []
    requires es[0].m.number == es'[0].m.number && Received(es) == Received(es')
    requires ArriveAsCopies(es, copy) && ArriveAsCopies(es', copy)
    ensures Play(FRESH, timeout, es).out == Play(FRESH, timeout, es').out
    ensures Play(FRESH, timeout, es).ch.cursor == Play(FRESH, timeout, es').ch.cursor
    ensures Play(FRESH, timeout, es).ch.pending == Play(FRESH, timeout, es').ch.pending
  {
    hide Next;
    ArrivalsClosedForm(timeout, es);
    ArrivalsClosedForm(timeout, es');
    PlayCopies(timeout, es, copy);
    PlayCopies(timeout, es', copy);
    var st, st' := Play(FRESH, timeout, es), Play(FRESH, timeout, es');
    forall i | 0 <= i < |st.out| ensures st.out[i] == st'.out[i] {
      assert st.out[i].number == st'.out[i].number;
      assert st.out[i] in st.out && st'.out[i] in st'.out;
    }
  }
}
