/** The books of one channel: every arrival is shown, buffered, replaced in the buffer by a later copy
    of its number, or discarded because its number lay below the cursor; exactly one of these. */
module ChannelBooks {
  import opened Messages
  import opened Channels
  import opened ChannelLaws

  function Arrived(e: Event): seq<Message> {
    if e.Arrive? then [e.m] else []
  }

  /** The arrival, if its number lies below the cursor of an open channel. */
  ghost function Discarded(ch: Channel, e: Event): seq<Message> {
    if e.Arrive? && ch.initialized && Num(e.m) < ch.cursor then [e.m] else []
  }

  /** The buffered message, if the arrival carries its number. */
  ghost function Replaced(ch: Channel, e: Event): seq<Message> {
    if e.Arrive? && e.m.number.Some? && e.m.number.value in ch.pending then [ch.pending[e.m.number.value]] else []
  }

  ghost function Bag(pending: map<Word, Message>): multiset<Message> {
    multiset(pending.Values)
  }

  ghost predicate UnderOwnNumbers(pending: map<Word, Message>) {
    forall k :: k in pending ==> pending[k].number == Some(k)
  }

  lemma BagAdd(pending: map<Word, Message>, s: Word, m: Message)
    requires UnderOwnNumbers(pending) && m.number == Some(s) && s !in pending
    ensures Bag(pending[s := m]) == Bag(pending) + multiset{m}
  {
    var after := pending[s := m];
    assert after.Values == pending.Values + {m} by {
      assert after[s] == m;
      forall v | v in pending.Values ensures v in after.Values {
        var k :| k in pending && pending[k] == v;
        assert k in after && after[k] == v;
      }
    }
    assert m !in pending.Values;
  }

  lemma BagReplace(pending: map<Word, Message>, s: Word, m: Message)
    requires UnderOwnNumbers(pending) && m.number == Some(s) && s in pending
    ensures Bag(pending[s := m]) + multiset{pending[s]} == Bag(pending) + multiset{m}
  {
    var rest := pending - {s};
    assert pending[s := m] == rest[s := m];
    assert pending == rest[s := pending[s]];
    BagAdd(rest, s, m);
    BagAdd(rest, s, pending[s]);
    hide Bag;
  }

  lemma FromStep(pending: map<Word, Message>, k: Word)
    requires k in pending && UnderOwnNumbers(pending)
    ensures Bag(From(pending, k)) == Bag(From(pending, k + 1)) + multiset{pending[k]}
  {
    var above := From(pending, k + 1);
    assert From(pending, k) == above[k := pending[k]];
    BagAdd(above, k, pending[k]);
  }

  lemma MoveOne(all: multiset<Message>, run: seq<Message>, x: Message, above: multiset<Message>)
    requires all == multiset(run) + (above + multiset{x})
    ensures all == multiset(run + [x]) + above
  {
  }

  lemma {:induction false} BagOfRun(pending: map<Word, Message>, lo: nat, hi: nat)
    requires HasRun(pending, lo, hi) && UnderOwnNumbers(pending)
    ensures Bag(From(pending, lo)) == multiset(Run(pending, lo, hi)) + Bag(From(pending, hi))
    decreases hi - lo
  {
    hide Bag, From;
    if lo < hi {
      BagOfRun(pending, lo, hi - 1);
      FromStep(pending, hi - 1);
      assert Run(pending, lo, hi) == Run(pending, lo, hi - 1) + [pending[hi - 1]];
      MoveOne(Bag(From(pending, lo)), Run(pending, lo, hi - 1), pending[hi - 1], Bag(From(pending, hi)));
    } else {
      assert Run(pending, lo, hi) == [];
    }
  }

  lemma DrainedBooks(ch: Channel, now: nat)
    requires Drainable(ch) && now > 0
    ensures Bag(ch.pending) == multiset(Drained(ch, now).out) + Bag(Drained(ch, now).ch.pending)
  {
    DrainedFacts(ch, now);
    assert From(ch.pending, ch.cursor) == ch.pending;
    BagOfRun(ch.pending, ch.cursor, End(ch));
  }

  /** The books of one step balance. */
  ghost predicate Balanced(ch: Channel, e: Event, st: Step) {
    multiset(Arrived(e)) + Bag(ch.pending) ==
    multiset(st.out) + Bag(st.ch.pending) + multiset(Replaced(ch, e)) + multiset(Discarded(ch, e))
  }

  lemma AcceptBooks(ch: Channel, m: Message, now: nat)
    requires Inv(ch) && Below(ch) && m.number.Some? && now > 0
    ensures Balanced(ch, Arrive(m, now), Accept(ch, m, m.number.value, now))
  {
    hide Drained, Accept;
    var s := m.number.value;
    AcceptCases(ch, m, s, now);
    var open := Opened(ch, s);
    if s == open.cursor {
      OnTimeBooks(open, m, now);
    } else if s > open.cursor {
      if s in ch.pending { BagReplace(ch.pending, s, m); } else { BagAdd(ch.pending, s, m); }
      EarlyBooks(ch, m, now, Accept(ch, m, s, now));
    } else {
      assert s !in ch.pending;
    }
  }

  lemma EarlyBooks(ch: Channel, m: Message, now: nat, st: Step)
    requires m.number.Some? && m.number.value > ch.cursor
    requires st.out == [] && st.ch.pending == ch.pending[m.number.value := m]
    requires Bag(st.ch.pending) +
             (if m.number.value in ch.pending then multiset{ch.pending[m.number.value]} else multiset{}) ==
             Bag(ch.pending) + multiset{m}
    ensures Balanced(ch, Arrive(m, now), st)
  {
    var e := Arrive(m, now);
    var replaced := multiset(Replaced(ch, e));
    assert replaced == if m.number.value in ch.pending then multiset{ch.pending[m.number.value]} else multiset{};
    assert multiset(Arrived(e)) + Bag(ch.pending) == Bag(st.ch.pending) + replaced;
    assert multiset(st.out) + Bag(st.ch.pending) + replaced + multiset(Discarded(ch, e)) ==
           Bag(st.ch.pending) + replaced;
  }

  lemma OnTimeBooks(open: Channel, m: Message, now: nat)
    requires m.number == Some(open.cursor) && Drainable(Deliver(open, open.cursor)) && now > 0
    ensures var d := Drained(Deliver(open, open.cursor), now);
            multiset{m} + Bag(open.pending) == multiset([m] + d.out) + Bag(d.ch.pending)
  {
    hide Drained;
    DrainedBooks(Deliver(open, open.cursor), now);
    var out := Drained(Deliver(open, open.cursor), now).out;
    assert multiset([m] + out) == multiset{m} + multiset(out);
  }

  lemma NextBooks(ch: Channel, timeout: int, e: Event)
    requires Inv(ch) && Below(ch) && Proper(e)
    ensures Balanced(ch, e, Next(ch, timeout, e))
  {
    hide Drained, Accept;
    match e
    case Arrive(m, now) => AcceptBooks(ch, m, now);
    case Tick(now, reading) => if Expired(ch, timeout, now) {
      ReleaseFacts(ch, reading);
      DrainedBooks(ch.(cursor := Least(ch.pending.Keys)), reading);
    }
    case Flush(reading) => if ch.pending != map[] {
      ReleaseFacts(ch, reading);
      DrainedBooks(ch.(cursor := Least(ch.pending.Keys)), reading);
    }
  }

  datatype Books = Books(arrived: seq<Message>, replaced: seq<Message>, discarded: seq<Message>)

  /** What a run received, replaced and discarded, read off the state before each step. */
  ghost function BooksOf(timeout: int, es: seq<Event>): Books {
    if es == [] then Books([], [], [])
    else
      var n := |es| - 1;
      var b := BooksOf(timeout, es[..n]);
      var ch := Play(FRESH, timeout, es[..n]).ch;
      Books(b.arrived + Arrived(es[n]), b.replaced + Replaced(ch, es[n]), b.discarded + Discarded(ch, es[n]))
  }

  lemma BooksStep(arrived: multiset<Message>, shown: multiset<Message>, held: multiset<Message>,
                  replaced: multiset<Message>, discarded: multiset<Message>,
                  a: multiset<Message>, o: multiset<Message>, held': multiset<Message>,
                  r: multiset<Message>, d: multiset<Message>)
    requires arrived == shown + held + replaced + discarded
    requires a + held == o + held' + r + d
    ensures arrived + a == (shown + o) + held' + (replaced + r) + (discarded + d)
  {
    assert arrived + a == shown + replaced + discarded + (a + held);
  }

  /** Arrival accounting: counted with multiplicity, what arrived is what was shown plus what is
      buffered plus what was replaced plus what was discarded. In particular everything shown or
      buffered had arrived, with its own payload, conversation and number. */
  lemma {:induction false} EveryArrivalAccountedFor(timeout: int, es: seq<Event>)
    requires ProperRun(es) && NoLastRun(es)
    ensures var b := BooksOf(timeout, es);
            var st := Play(FRESH, timeout, es);
            multiset(b.arrived) ==
            multiset(st.out) + Bag(st.ch.pending) + multiset(b.replaced) + multiset(b.discarded)
  {
    hide Next;
    if es != [] {
      var n := |es| - 1;
      EveryArrivalAccountedFor(timeout, es[..n]);
      var b := BooksOf(timeout, es[..n]);
      var st := Play(FRESH, timeout, es[..n]);
      PlayOrdered(FRESH, timeout, es[..n]);
      NextBooks(st.ch, timeout, es[n]);
      var st' := Next(st.ch, timeout, es[n]);
      BooksStep(multiset(b.arrived), multiset(st.out), Bag(st.ch.pending), multiset(b.replaced), multiset(b.discarded),
                multiset(Arrived(es[n])), multiset(st'.out), Bag(st'.ch.pending),
                multiset(Replaced(st.ch, es[n])), multiset(Discarded(st.ch, es[n])));
    }
  }
}
