/** What the dedup set holds: the numbers shown since it was last cleared, at most 4096 of them. */
module DedupWindow {
  import opened Messages
  import opened Channels
  import opened ChannelLaws

  function NumbersIn(ms: seq<Message>): set<nat> {
    set i | 0 <= i < |ms| :: Num(ms[i])
  }

  /** The numbers of the last `n` messages shown, all different. */
  ghost predicate Recent(delivered: set<Word>, shown: seq<Message>, n: nat) {
    n <= |shown| && |delivered| == n && delivered == NumbersIn(shown[|shown| - n..])
  }

  /** After every 4097th message the set is empty; it holds the numbers of the messages shown since. */
  ghost predicate Window(delivered: set<Word>, shown: seq<Message>) {
    Recent(delivered, shown, |shown| % 4097)
  }

  lemma RecentSnoc(delivered: set<Word>, shown: seq<Message>, n: nat, m: Message)
    requires Recent(delivered, shown, n) && n <= 4096 && m.number.Some? && m.number.value !in delivered
    ensures Recent(Remember(delivered, m.number.value), shown + [m], if n == 4096 then 0 else n + 1)
  {
    var recent := shown[|shown| - n..];
    assert (shown + [m])[|shown| - n..] == recent + [m];
    NumbersSnoc(recent, m);
    assert |delivered + {m.number.value}| == n + 1;
    assert (shown + [m])[|shown + [m]|..] == [];
  }

  lemma NextRemainder(len: nat)
    ensures (len + 1) % 4097 == if len % 4097 == 4096 then 0 else len % 4097 + 1
  {
  }

  lemma WindowSnoc(delivered: set<Word>, shown: seq<Message>, m: Message)
    requires Window(delivered, shown) && m.number.Some? && m.number.value !in delivered
    ensures Window(Remember(delivered, m.number.value), shown + [m])
  {
    NextRemainder(|shown|);
    assert |shown| % 4097 <= 4096;
    RecentSnoc(delivered, shown, |shown| % 4097, m);
    hide Recent, Remember;
  }

  lemma NumbersSnoc(ms: seq<Message>, m: Message)
    ensures NumbersIn(ms + [m]) == NumbersIn(ms) + {Num(m)}
  {
    var all := ms + [m];
    assert all[|ms|] == m;
    forall k | k in NumbersIn(ms) ensures k in NumbersIn(all) {
      var i :| 0 <= i < |ms| && Num(ms[i]) == k;
      assert all[i] == ms[i];
    }
  }

  lemma {:induction false} WindowRange(ch: Channel, shown: seq<Message>, hi: nat)
    requires HasRun(ch.pending, ch.cursor, hi) && Window(ch.delivered, shown)
    requires forall k :: k in ch.pending ==> ch.pending[k].number == Some(k)
    requires forall k :: k in ch.delivered ==> k < ch.cursor
    ensures Window(RememberRange(ch.delivered, ch.cursor, hi), shown + Run(ch.pending, ch.cursor, hi))
    ensures forall k :: k in RememberRange(ch.delivered, ch.cursor, hi) ==> k < hi
    decreases hi
  {
    hide Window;
    if ch.cursor == hi {
      assert shown + Run(ch.pending, ch.cursor, hi) == shown;
    } else {
      WindowRange(ch, shown, hi - 1);
      var before := shown + Run(ch.pending, ch.cursor, hi - 1);
      assert shown + Run(ch.pending, ch.cursor, hi) == before + [ch.pending[hi - 1]];
      WindowSnoc(RememberRange(ch.delivered, ch.cursor, hi - 1), before, ch.pending[hi - 1]);
    }
  }

  lemma DrainedWindow(ch: Channel, now: nat, shown: seq<Message>)
    requires Drainable(ch) && Window(ch.delivered, shown) && now > 0
    requires forall k :: k in ch.delivered ==> k < ch.cursor
    ensures Window(Drained(ch, now).ch.delivered, shown + Drained(ch, now).out)
  {
    RunEndInWord(ch.pending.Keys, ch.cursor);
    WindowRange(ch, shown, RunEnd(ch.pending.Keys, ch.cursor));
    hide Window, RememberRange, Run;
  }

  lemma DeliveredWindow(open: Channel, m: Message, now: nat, shown: seq<Message>)
    requires Inv(open) && Below(open) && Window(open.delivered, shown) && now > 0
    requires m.number == Some(open.cursor) && open.cursor != LAST && Drainable(Deliver(open, open.cursor))
    ensures var d := Drained(Deliver(open, open.cursor), now);
            Window(d.ch.delivered, shown + ([m] + d.out))
  {
    hide Window, Drained, Drainable, Remember;
    WindowSnoc(open.delivered, shown, m);
    var ch1 := Deliver(open, open.cursor);
    BelowAfterDeliver(open);
    DrainedWindow(ch1, now, shown + [m]);
    Regroup(shown, [m], Drained(ch1, now).out);
  }

  lemma BelowAfterDeliver(open: Channel)
    requires Below(open) && open.cursor != LAST
    ensures forall k :: k in Deliver(open, open.cursor).delivered ==> k < Deliver(open, open.cursor).cursor
  {
  }

  lemma AcceptWindow(ch: Channel, m: Message, now: nat, shown: seq<Message>)
    requires Inv(ch) && Below(ch) && Window(ch.delivered, shown) && m.number.Some? && Num(m) != LAST && now > 0
    ensures var st := Accept(ch, m, m.number.value, now); Window(st.ch.delivered, shown + st.out)
  {
    var open := Opened(ch, m.number.value);
    AcceptCases(ch, m, m.number.value, now);
    assert shown + [] == shown && Inv(open) && Below(open) && open.delivered == ch.delivered;
    hide Window, Drained, Accept, Inv, Below;
    if m.number.value == open.cursor {
      DeliveredWindow(open, m, now, shown);
    }
  }

  lemma ReleaseWindow(ch: Channel, reading: nat, shown: seq<Message>)
    requires Inv(ch) && Below(ch) && Window(ch.delivered, shown) && ch.pending != map[] && reading > 0
    ensures Window(Release(ch, reading).ch.delivered, shown + Release(ch, reading).out)
  {
    ReleaseFacts(ch, reading);
    var start := ch.(cursor := Least(ch.pending.Keys));
    assert ch.cursor < start.cursor;
    hide Window, Drained;
    DrainedWindow(start, reading, shown);
  }

  lemma NextWindow(ch: Channel, timeout: int, e: Event, shown: seq<Message>)
    requires Inv(ch) && Below(ch) && Window(ch.delivered, shown) && Proper(e) && NoLast(e)
    ensures var st := Next(ch, timeout, e); Window(st.ch.delivered, shown + st.out)
  {
    hide Window, Accept, Release, Inv, Below;
    assert shown + [] == shown;
    match e
    case Arrive(m, now) => AcceptWindow(ch, m, now, shown);
    case Tick(now, reading) => if Expired(ch, timeout, now) { ReleaseWindow(ch, reading, shown); }
    case Flush(reading) => if ch.pending != map[] { ReleaseWindow(ch, reading, shown); }
  }

  lemma FreshWindow()
    ensures Window(FRESH.delivered, [])
  {
  }

  /** After any run the dedup set holds exactly the numbers of the last n messages shown, where n is the
      number of messages shown modulo 4097. */
  lemma {:induction false} DedupSetIsAWindow(timeout: int, es: seq<Event>)
    requires ProperRun(es) && NoLastRun(es)
    ensures var st := Play(FRESH, timeout, es); Window(st.ch.delivered, st.out)
  {
    hide Next, Window;
    if es == [] {
      FreshWindow();
    } else {
      var n := |es| - 1;
      DedupSetIsAWindow(timeout, es[..n]);
      PlayOrdered(FRESH, timeout, es[..n]);
      var st := Play(FRESH, timeout, es[..n]);
      NextWindow(st.ch, timeout, es[n], st.out);
    }
  }
}
