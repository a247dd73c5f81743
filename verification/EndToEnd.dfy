/** What the clients make of what the cluster hands them. */
module EndToEnd {
  import opened Messages
  import opened Handlers
  import opened Cluster
  import opened Runs
  import opened Provenance
  import N = Numbering
  import Ch = Channels
  import Laws = ChannelLaws
  import Ord = Orderers

  /** Everything the client received had been pushed to a connection or handed over at login; any
      subset, in any order, any number of times. */
  ghost predicate FedBy(inputs: seq<Ord.Input>, w: World) {
    forall i :: 0 <= i < |inputs| && inputs[i].Receive? ==>
      exists r: Row :: (r in w.pushed || r in w.batched) && r.msg == inputs[i].m
  }

  /** A run of a client's reorderer that the cluster state `w` can have caused. */
  ghost predicate ClientRun(timeout: int, inputs: seq<Ord.Input>, w: World) {
    Ord.FeasibleRun(Ord.EMPTY, timeout, inputs) && Ord.ProperInputs(inputs) && FedBy(inputs, w)
  }

  /** What the client displays of conversation `c`. */
  ghost function Displayed(timeout: int, inputs: seq<Ord.Input>, c: string): seq<Message> {
    Of(Ord.Process(Ord.EMPTY, timeout, inputs).screen, c)
  }

  lemma AcceptedBelowLast(s: System, m: Message)
    requires Traced(s) && m in s.w.accepted && m.convid.Some? && N.FallbackInRange(Numbers(s), m.convid.value)
    ensures m.number.Some? && Num(m) < LAST
  {
    var i :| 0 <= i < |s.w.accepted| && s.w.accepted[i] == m;
    var t := Numbers(s).log[i];
    assert N.Backed(Numbers(s), t);
    hide Numbers;
    N.TicketBelowLast(Numbers(s), t);
  }

  /** The accepted messages of conversation `c`. */
  ghost function AcceptedOf(w: World, c: string): iset<Message> {
    iset m | m in w.accepted && InConversation(m, c)
  }

  /** A display of conversation `c` that no fault on the way can spoil. */
  ghost predicate InOrder(shown: seq<Message>, w: World, c: string) {
    Ascending(shown) && forall m :: m in shown ==> m in w.accepted && InConversation(m, c)
  }

  /** Events whose arrivals are accepted messages of `c` are shown in the order of their numbers. */
  lemma PlayedInOrder(s: System, timeout: int, es: seq<Ch.Event>, c: string)
    requires Traced(s) && N.FallbackInRange(Numbers(s), c)
    requires Laws.ProperRun(es) && ArriveFrom(es, AcceptedOf(s.w, c))
    ensures InOrder(Ch.Play(Ch.FRESH, timeout, es).out, s.w, c)
  {
    hide Traced, N.FallbackInRange, Ch.Play;
    forall i | 0 <= i < |es| ensures Ch.NoLast(es[i]) {
      if es[i].Arrive? {
        AcceptedBelowLast(s, es[i].m);
      }
    }
    Laws.PlayOrdered(Ch.FRESH, timeout, es);
    PlayInside(timeout, es, AcceptedOf(s.w, c));
  }

  lemma FedIsAccepted(s: System, inputs: seq<Ord.Input>, c: string)
    requires Traced(s) && FedBy(inputs, s.w)
    ensures ReceivedOf(inputs, c) <= AcceptedOf(s.w, c)
  {
    forall m | m in ReceivedOf(inputs, c) ensures m in AcceptedOf(s.w, c) {
      var i :| 0 <= i < |inputs| && inputs[i].Receive? && InConversation(inputs[i].m, c) && inputs[i].m == m;
      var r: Row :| (r in s.w.pushed || r in s.w.batched) && r.msg == inputs[i].m;
    }
  }

  /** What conversation `c` sees of a client's run. */
  lemma ClientView(s: System, timeout: int, inputs: seq<Ord.Input>, c: string)
    requires Traced(s) && ClientRun(timeout, inputs, s.w)
    ensures var es := Ord.View(inputs, c);
            && Laws.ProperRun(es) && ArriveFrom(es, AcceptedOf(s.w, c))
            && Displayed(timeout, inputs, c) == Ch.Play(Ch.FRESH, timeout, es).out
            && Ord.Lookup(Ord.Process(Ord.EMPTY, timeout, inputs), c) == Ch.Play(Ch.FRESH, timeout, es).ch
            && Ord.Owned(Ord.Process(Ord.EMPTY, timeout, inputs))
  {
    FedIsAccepted(s, inputs, c);
    Ord.ViewIsProper(inputs, c);
    ViewArrivesFrom(inputs, c, AcceptedOf(s.w, c));
    Ord.ProcessView(Ord.EMPTY, timeout, inputs, c);
    hide Ord.Process, Ord.View, Traced, Ch.Play, ReceivedOf;
    var out := Ch.Play(Ch.FRESH, timeout, Ord.View(inputs, c)).out;
    assert Of(Ord.EMPTY.screen, c) + out == out;
  }

  /** What a client displays of a conversation ascends, and consists of accepted messages. */
  lemma DisplayedFacts(s: System, timeout: int, inputs: seq<Ord.Input>, c: string)
    requires Traced(s) && N.FallbackInRange(Numbers(s), c) && ClientRun(timeout, inputs, s.w)
    ensures Ascending(Displayed(timeout, inputs, c))
    ensures forall m :: m in Displayed(timeout, inputs, c) ==> m in s.w.accepted && InConversation(m, c)
  {
    hide Ord.Process, Traced, N.FallbackInRange, ClientRun, Ch.Play, Displayed;
    ClientView(s, timeout, inputs, c);
    PlayedInOrder(s, timeout, Ord.View(inputs, c), c);
  }

  /** Two clients show messages `x` and `y` at these places. */
  ghost predicate BothShow(a: seq<Message>, i: nat, j: nat, b: seq<Message>, i': nat, j': nat) {
    i < |a| && j < |a| && i' < |b| && j' < |b| && a[i] == b[i'] && a[j] == b[j']
  }

  /** End-to-end order agreement: in any run of any number of nodes, with any loss, duplication and
      reordering on the way, two clients that both display two messages of a conversation display them
      in the same order. Neither presence nor how the numbers were drawn matters, only that no fallback
      number of the conversation has reached the largest 64-bit value. */
  lemma ClientsAgreeOnOrder(s: System, ops: seq<Op>, t: int, inputs: seq<Ord.Input>, t': int, inputs': seq<Ord.Input>,
                            c: string, i: nat, j: nat, i': nat, j': nat)
    requires Start(s) && N.FallbackInRange(Numbers(Run(s, ops)), c)
    requires ClientRun(t, inputs, Run(s, ops).w) && ClientRun(t', inputs', Run(s, ops).w)
    requires BothShow(Displayed(t, inputs, c), i, j, Displayed(t', inputs', c), i', j')
    ensures i < j <==> i' < j'
    ensures i == j <==> i' == j'
  {
    RunTraced(s, ops);
    var z := Run(s, ops);
    hide Run, Displayed, Traced, N.FallbackInRange, ClientRun, Start, Ascending, BothShow;
    DisplayedFacts(z, t, inputs, c);
    DisplayedFacts(z, t', inputs', c);
    AscendingAgree(Displayed(t, inputs, c), i, j, Displayed(t', inputs', c), i', j');
  }

  lemma AscendingAgree(a: seq<Message>, i: nat, j: nat, b: seq<Message>, i': nat, j': nat)
    requires Ascending(a) && Ascending(b) && BothShow(a, i, j, b, i', j')
    ensures i < j <==> i' < j'
    ensures i == j <==> i' == j'
  {
  }

  /** All numbers of conversation `c` came from Redis. */
  ghost predicate OnRedis(w: World, c: string) {
    forall i :: 0 <= i < |w.log| && w.log[i].conv == c ==> w.log[i].source.FromRedis?
  }

  /** The messages at places `i` and `j` of a display are the `p`-th and the `q`-th accepted ones. */
  ghost predicate ShownAs(shown: seq<Message>, i: nat, j: nat, w: World, p: nat, q: nat) {
    i < |shown| && j < |shown| && p < |w.accepted| && q < |w.accepted| &&
    shown[i] == w.accepted[p] && shown[j] == w.accepted[q]
  }

  /** When all numbers of a conversation come from Redis, every client displays its messages in the
      order in which the servers accepted them. */
  lemma DisplayFollowsAcceptance(s: System, ops: seq<Op>, t: int, inputs: seq<Ord.Input>, c: string,
                                 i: nat, j: nat, p: nat, q: nat)
    requires Start(s) && N.FallbackInRange(Numbers(Run(s, ops)), c)
    requires ClientRun(t, inputs, Run(s, ops).w) && OnRedis(Run(s, ops).w, c)
    requires ShownAs(Displayed(t, inputs, c), i, j, Run(s, ops).w, p, q) && i < j
    ensures p < q
  {
    RunTraced(s, ops);
    var z := Run(s, ops);
    hide Run, Displayed, Traced, N.FallbackInRange, ClientRun, Start, OnRedis;
    DisplayedFacts(z, t, inputs, c);
    InOrderFollowsAcceptance(z, Displayed(t, inputs, c), c, i, j, p, q);
  }

  lemma InOrderFollowsAcceptance(s: System, shown: seq<Message>, c: string, i: nat, j: nat, p: nat, q: nat)
    requires Traced(s) && OnRedis(s.w, c) && InOrder(shown, s.w, c) && ShownAs(shown, i, j, s.w, p, q) && i < j
    ensures p < q
  {
    assert shown[i] in shown && shown[j] in shown;
    assert s.w.log[p].conv == c && s.w.log[q].conv == c;
    hide N.Inv;
    if q < p {
      N.LogInOrder(Numbers(s), q, p);
    }
  }

  /** Unless two nodes have fallen back in the conversation, a number identifies the message: two
      clients that show the same number show the same message. */
  lemma SameNumberSameMessage(s: System, ops: seq<Op>, t: int, inputs: seq<Ord.Input>, t': int, inputs': seq<Ord.Input>,
                              c: string, i: nat, j: nat)
    requires Start(s) && N.InRange(Numbers(Run(s, ops)), c) && N.OneFallbackNode(Numbers(Run(s, ops)), c)
    requires ClientRun(t, inputs, Run(s, ops).w) && ClientRun(t', inputs', Run(s, ops).w)
    requires i < |Displayed(t, inputs, c)| && j < |Displayed(t', inputs', c)|
    requires Displayed(t, inputs, c)[i].number == Displayed(t', inputs', c)[j].number
    ensures Displayed(t, inputs, c)[i] == Displayed(t', inputs', c)[j]
  {
    RunTraced(s, ops);
    var z := Run(s, ops);
    assert N.FallbackInRange(Numbers(z), c);
    hide Run, Displayed, N.InRange, N.FallbackInRange, N.OneFallbackNode, ClientRun, Start, N.Inv, Sourced;
    DisplayedFacts(z, t, inputs, c);
    DisplayedFacts(z, t', inputs', c);
    N.UniqueExactly(Numbers(z), c);
    var a, b := Displayed(t, inputs, c), Displayed(t', inputs', c);
    assert a[i] in a && b[j] in b;
    NumberIdentifies(z, a[i], b[j], c);
  }

  lemma NumberIdentifies(s: System, x: Message, y: Message, c: string)
    requires Stamped(s.w) && N.Unique(s.w.log, c) && x in s.w.accepted && y in s.w.accepted
    requires InConversation(x, c) && InConversation(y, c) && x.number == y.number
    ensures x == y
  {
    var p :| 0 <= p < |s.w.accepted| && s.w.accepted[p] == x;
    var q :| 0 <= q < |s.w.accepted| && s.w.accepted[q] == y;
    assert s.w.log[p].conv == c && s.w.log[q].conv == c && s.w.log[p].number == s.w.log[q].number;
    assert p == q;
  }
}
