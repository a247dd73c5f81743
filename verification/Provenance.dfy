/** Nothing is shown or buffered that had not arrived. */
module Provenance {
  import opened Messages
  import opened Channels
  import opened ChannelLaws
  import opened Orderers

  /** Everything a step shows or leaves buffered comes from `origin`. */
  ghost predicate Inside(st: Step, origin: iset<Message>) {
    && (forall m :: m in st.out ==> m in origin)
    && (forall k :: k in st.ch.pending ==> st.ch.pending[k] in origin)
  }

  ghost predicate ArriveFrom(es: seq<Event>, origin: iset<Message>) {
    forall i :: 0 <= i < |es| && es[i].Arrive? ==> es[i].m in origin
  }

  lemma DrainedInside(ch: Channel, now: nat, origin: iset<Message>)
    requires Inside(Step(ch, []), origin)
    ensures Inside(Drained(ch, now), origin)
  {
  }

  lemma AcceptInside(ch: Channel, m: Message, s: Word, now: nat, origin: iset<Message>)
    requires Inside(Step(ch, []), origin) && m in origin
    ensures Inside(Accept(ch, m, s, now), origin)
  {
    DrainedInside(Deliver(Opened(ch, s), s), now, origin);
    hide Drained;
  }

  lemma ReleaseInside(ch: Channel, reading: nat, origin: iset<Message>)
    requires Inside(Step(ch, []), origin) && ch.pending != map[]
    ensures Inside(Release(ch, reading), origin)
  {
    assert ch.pending.Keys != {};
    DrainedInside(ch.(cursor := Least(ch.pending.Keys)), reading, origin);
    hide Drained;
  }

  lemma NextInside(ch: Channel, timeout: int, e: Event, origin: iset<Message>)
    requires Inside(Step(ch, []), origin) && (e.Arrive? ==> e.m in origin)
    ensures Inside(Next(ch, timeout, e), origin)
  {
    hide Accept, Release;
    match e
    case Arrive(m, now) => if m.number.Some? { AcceptInside(ch, m, m.number.value, now, origin); }
    case Tick(now, reading) => if Expired(ch, timeout, now) { ReleaseInside(ch, reading, origin); }
    case Flush(reading) => if ch.pending != map[] { ReleaseInside(ch, reading, origin); }
  }

  /** In every run, whatever numbers arrive, all that is shown or buffered is one of the arrivals. */
  lemma {:induction false} PlayInside(timeout: int, es: seq<Event>, origin: iset<Message>)
    requires ArriveFrom(es, origin)
    ensures Inside(Play(FRESH, timeout, es), origin)
  {
    hide Next;
    if es != [] {
      var n := |es| - 1;
      PlayInside(timeout, es[..n], origin);
      NextInside(Play(FRESH, timeout, es[..n]).ch, timeout, es[n], origin);
    }
  }

  /** The messages received in a run of the reorderer that belong to conversation `c`. */
  ghost function ReceivedOf(inputs: seq<Input>, c: string): iset<Message> {
    iset i | 0 <= i < |inputs| && inputs[i].Receive? && InConversation(inputs[i].m, c) :: inputs[i].m
  }

  lemma {:induction false} ViewArrivesFrom(inputs: seq<Input>, c: string, origin: iset<Message>)
    requires ReceivedOf(inputs, c) <= origin
    ensures ArriveFrom(View(inputs, c), origin)
  {
    if inputs != [] {
      var n := |inputs| - 1;
      forall m | m in ReceivedOf(inputs[..n], c) ensures m in ReceivedOf(inputs, c) {
        var i :| 0 <= i < n && inputs[..n][i].Receive? && InConversation(inputs[..n][i].m, c) && inputs[..n][i].m == m;
        assert inputs[i].m == m;
      }
      ViewArrivesFrom(inputs[..n], c, origin);
      assert inputs[n].Receive? && InConversation(inputs[n].m, c) ==> inputs[n].m in ReceivedOf(inputs, c);
    }
  }
}
