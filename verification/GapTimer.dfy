/** When the gap timer releases: not before the timeout, and at the timeout whatever arrives meanwhile. */
module GapTimer {
  import opened Messages
  import opened Channels
  import opened ChannelLaws

  /** A tick shows something exactly when a gap has been open for the timeout; otherwise it does nothing. */
  lemma TickReleasesExactly(ch: Channel, timeout: int, now: nat, reading: nat)
    requires Inv(ch) && reading > 0
    ensures var st := Next(ch, timeout, Tick(now, reading));
            && (st.out != [] <==> ch.pending != map[] && Waited(now - ch.gapSince, timeout))
            && (timeout > 0 ==>
                  (st.out != [] <==> ch.pending != map[] && now - ch.gapSince >= timeout * 1_000_000))
            && (st.out == [] ==> st == Step(ch, []))
  {
    assert timeout > 0 ==> (Waited(now - ch.gapSince, timeout) <==> now - ch.gapSince >= timeout * 1_000_000);
    ExpiredMeans(ch, timeout, now);
    hide Release, Waited, Millis;
    if ch.pending != map[] && Waited(now - ch.gapSince, timeout) {
      ReleaseShows(ch, reading);
    }
  }

  lemma ReleaseShows(ch: Channel, reading: nat)
    requires Inv(ch) && ch.pending != map[] && reading > 0
    ensures Release(ch, reading).out != []
  {
    ReleaseFacts(ch, reading);
    DrainedOutput(ch.(cursor := Least(ch.pending.Keys)), reading);
    hide Drained;
  }

  /** Where the timer stands after a step: it starts at the arrival that opens a gap, starts again when
      messages were shown and others stay buffered, and otherwise keeps running or stays off. */
  ghost predicate TimerMoves(ch: Channel, e: Event, st: Step) {
    if st.ch.pending == map[] then st.ch.gapSince == 0
    else if st.out == [] && ch.pending != map[] then st.ch.gapSince == ch.gapSince
    else match e
      case Arrive(_, now) => st.ch.gapSince == now
      case Tick(_, reading) => st.ch.gapSince == reading
      case Flush(reading) => st.ch.gapSince == reading
  }

  lemma ArrivalMovesTimer(ch: Channel, m: Message, now: nat)
    requires Inv(ch) && Below(ch) && m.number.Some? && now > 0
    ensures TimerMoves(ch, Arrive(m, now), Accept(ch, m, m.number.value, now))
  {
    hide Drained;
    var s := m.number.value;
    AcceptCases(ch, m, s, now);
    AcceptKeepsInv(ch, m, s, now);
    if s == Opened(ch, s).cursor {
      DrainedChannel(Deliver(Opened(ch, s), s), now);
    }
  }

  lemma NextMovesTimer(ch: Channel, timeout: int, e: Event)
    requires Inv(ch) && Below(ch) && Proper(e)
    ensures TimerMoves(ch, e, Next(ch, timeout, e))
  {
    hide Drained, Accept, Release;
    match e
    case Arrive(m, now) => ArrivalMovesTimer(ch, m, now);
    case Tick(now, reading) => if Expired(ch, timeout, now) { ReleaseMovesTimer(ch, reading); }
    case Flush(reading) => if ch.pending != map[] { ReleaseMovesTimer(ch, reading); }
  }

  lemma ReleaseMovesTimer(ch: Channel, reading: nat)
    requires Inv(ch) && ch.pending != map[] && reading > 0
    ensures var st := Release(ch, reading);
            st.out != [] && st.ch.gapSince == if st.ch.pending == map[] then 0 else reading
  {
    ReleaseFacts(ch, reading);
    var start := ch.(cursor := Least(ch.pending.Keys));
    DrainedChannel(start, reading);
    DrainedOutput(start, reading);
    hide Drained;
  }

  lemma QuietStepKeepsBuffer(ch: Channel, timeout: int, e: Event)
    requires Inv(ch) && Below(ch) && Proper(e) && ch.pending != map[] && Next(ch, timeout, e).out == []
    ensures Next(ch, timeout, e).ch.pending != map[] && Next(ch, timeout, e).ch.gapSince == ch.gapSince
  {
    hide Drained, Accept, Release;
    NextMovesTimer(ch, timeout, e);
    match e
    case Arrive(m, now) =>
      AcceptCases(ch, m, m.number.value, now);
      var after := ch.pending[m.number.value := m];
      assert m.number.value in after;
    case Tick(now, reading) => if Expired(ch, timeout, now) { ReleaseMovesTimer(ch, reading); }
    case Flush(reading) => ReleaseMovesTimer(ch, reading);
  }

  /** As long as nothing is shown, an open gap keeps its start: further arrivals do not postpone it. */
  lemma {:induction false} GapKeepsItsStart(ch: Channel, timeout: int, es: seq<Event>)
    requires Inv(ch) && Below(ch) && ch.pending != map[] && ProperRun(es) && NoLastRun(es)
    requires Play(ch, timeout, es).out == []
    ensures Play(ch, timeout, es).ch.pending != map[] && Play(ch, timeout, es).ch.gapSince == ch.gapSince
  {
    hide Next;
    if es != [] {
      var n := |es| - 1;
      GapKeepsItsStart(ch, timeout, es[..n]);
      PlayOrdered(ch, timeout, es[..n]);
      QuietStepKeepsBuffer(Play(ch, timeout, es[..n]).ch, timeout, es[n]);
    }
  }

  lemma PlayLonger(ch: Channel, timeout: int, es: seq<Event>)
    requires es != []
    ensures var before := Play(ch, timeout, es[..|es| - 1]);
            Play(ch, timeout, es).out != [] <==>
            before.out != [] || Next(before.ch, timeout, es[|es| - 1]).out != []
  {
    hide Next;
  }

  lemma {:induction false} ShownStaysShown(ch: Channel, timeout: int, es: seq<Event>, k: nat)
    requires k <= |es| && Play(ch, timeout, es[..k]).out != []
    ensures Play(ch, timeout, es).out != []
  {
    hide Play;
    if k == |es| {
      assert es[..k] == es;
    } else {
      var n := |es| - 1;
      assert es[..n][..k] == es[..k];
      ShownStaysShown(ch, timeout, es[..n], k);
      PlayLonger(ch, timeout, es);
    }
  }

  lemma DueTickEndsGap(ch: Channel, timeout: int, es: seq<Event>, tick: Event)
    requires Inv(ch) && Below(ch) && ch.pending != map[] && ProperRun(es) && NoLastRun(es)
    requires tick.Tick? && Proper(tick) && Waited(tick.now - ch.gapSince, timeout)
    ensures Play(ch, timeout, es + [tick]).out != []
  {
    hide Play, Waited, Below;
    PlayLonger(ch, timeout, es + [tick]);
    assert (es + [tick])[..|es|] == es;
    if Play(ch, timeout, es).out == [] {
      GapKeepsItsStart(ch, timeout, es);
      PlayKeepsInv(ch, timeout, es);
      hide Next, Inv;
      TickReleasesExactly(Play(ch, timeout, es).ch, timeout, tick.now, tick.reading);
    }
  }

  /** Whatever arrives in between, a run that contains a tick a timeout after the start of an open gap
      shows something. */
  lemma OpenGapIsReleased(ch: Channel, timeout: int, es: seq<Event>, i: nat)
    requires Inv(ch) && Below(ch) && ch.pending != map[] && ProperRun(es) && NoLastRun(es)
    requires i < |es| && es[i].Tick?
    requires if timeout > 0 then es[i].now - ch.gapSince >= timeout * 1_000_000
             else es[i].now - ch.gapSince > (timeout - 1) * 1_000_000
    ensures Play(ch, timeout, es).out != []
  {
    assert Waited(es[i].now - ch.gapSince, timeout);
    hide Play, Inv, Below, Waited;
    DueTickEndsGap(ch, timeout, es[..i], es[i]);
    assert es[..i + 1] == es[..i] + [es[i]];
    ShownStaysShown(ch, timeout, es, i + 1);
  }
}
