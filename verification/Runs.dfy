/** Whole runs of the cluster: what holds of every run, and what holds when its steps are rightful. */
module Runs {
  import opened Messages
  import opened Handlers
  import opened Cluster
  import opened Ledger
  import D = Delivery
  import N = Numbering
  import ConversationIds

  /** Nobody connected, nothing drawn, nothing stored; Redis counters and users may be anything. */
  ghost predicate Start(s: System) {
    && |s.w.subs| == |s.nodes|
    && (forall n :: 0 <= n < |s.nodes| ==>
          s.nodes[n].conns == map[] && s.nodes[n].client.localSeq == map[] && s.w.subs[n] == {})
    && s.w.online == {} && s.w.flight == [] && s.w.offline == []
    && s.w.log == [] && s.w.accepted == [] && s.w.owed == [] && s.w.doubled == []
    && s.w.pushed == [] && s.w.batched == [] && s.w.lost == [] && s.w.mail == []
  }

  /** A run; a step that is not enabled changes nothing. */
  ghost function Run(s: System, ops: seq<Op>): System {
    if ops == [] then s
    else
      var before := Run(s, ops[..|ops| - 1]);
      if Shaped(before) && Enabled(before, ops[|ops| - 1]) then Do(before, ops[|ops| - 1]) else before
  }

  /** Every logout request is rightful. */
  ghost predicate RightfulRun(s: System, ops: seq<Op>) {
    forall i :: 0 <= i < |ops| ==> Rightful(Run(s, ops[..i]), ops[i])
  }

  /** The numbering system inside the cluster. */
  function Numbers(s: System): N.Sequencer {
    N.Sequencer(seq(|s.nodes|, i requires 0 <= i < |s.nodes| => s.nodes[i].client), s.counters, s.w.log)
  }

  /** The i-th accepted message carries the conversation and the number of the i-th ticket; every copy
      owed is a copy of an accepted message. */
  ghost predicate Stamped(w: World) {
    && |w.accepted| == |w.log|
    && (forall i :: 0 <= i < |w.log| ==>
          w.accepted[i].convid == Some(w.log[i].conv) && w.accepted[i].number == Some(w.log[i].number))
    && (forall r :: r in w.owed ==> r.msg in w.accepted)
    && (forall r :: r in w.doubled ==> r in w.owed)
  }

  /** Every copy anywhere is a copy of an accepted message. */
  ghost predicate Sourced(w: World) {
    && (forall r :: r in w.pushed || r in w.offline || r in w.batched ==> r.msg in w.accepted)
    && (forall i :: 0 <= i < |w.flight| ==> w.flight[i].row.msg in w.accepted)
  }

  /** What every run keeps, whatever its steps. */
  ghost predicate Traced(s: System) {
    Shaped(s) && Sourced(s.w) && N.Inv(Numbers(s)) && Stamped(s.w)
  }

  /** What every run of rightful steps keeps. */
  ghost predicate Good(s: System) {
    Presence(s) && Balanced(s.w) && Traced(s)
  }

  lemma StartIsGood(s: System)
    requires Start(s)
    ensures Good(s)
  {
    assert forall n, u :: !Holds(s, n, u);
    assert InFlight(s.w.flight) == [];
  }

  /** A step that only routes copies of `msg`. */
  ghost predicate Routed(w: World, w': World, msg: Message) {
    && w'.log == w.log && w'.accepted == w.accepted
    && (forall r :: r in w'.owed ==> r in w.owed || r.msg == msg)
    && (forall r :: r in w.owed ==> r in w'.owed)
    && (forall r :: r in w'.doubled ==> r in w.doubled || r in w'.owed)
  }

  lemma RouteRoutes(node: Node, w: World, row: Row, outcome: Outcome)
    ensures Routed(w, Route(node, w, row, outcome), row.msg)
  {
    hide Copies;
  }

  lemma {:induction false} RouteAllRoutes(node: Node, w: World, rows: seq<Row>, outcome: nat -> Outcome, msg: Message)
    requires forall i :: 0 <= i < |rows| ==> rows[i].msg == msg
    ensures Routed(w, RouteAll(node, w, rows, outcome), msg)
  {
    if rows != [] {
      var n := |rows| - 1;
      RouteAllRoutes(node, w, rows[..n], outcome, msg);
      RouteRoutes(node, RouteAll(node, w, rows[..n], outcome), rows[n], outcome(n));
      hide Route;
    }
  }

  lemma RoutedStamped(w: World, w': World, t: N.Ticket, msg: Message)
    requires Stamped(w) && msg.convid == Some(t.conv) && msg.number == Some(t.number)
    requires Routed(w.(log := w.log + [t], accepted := w.accepted + [msg]), w', msg)
    ensures Stamped(w')
  {
  }

  function RequestOf(op: Op): N.Request
    requires op.Chat? || op.GroupChat?
  {
    N.Request(op.n, if op.Chat? then ConversationIds.P2p(op.fromId, op.toId) else ConversationIds.Group(op.groupId),
              op.reply)
  }

  lemma ChatStamps(s: System, op: Op)
    requires Shaped(s) && Enabled(s, op) && (op.Chat? || op.GroupChat?) && Stamped(s.w)
    ensures Stamped(Do(s, op).w)
    ensures Numbers(Do(s, op)) == N.Serve(Numbers(s), RequestOf(op))
  {
    var l := At(s, op.n);
    var r := RequestOf(op);
    var (l1, msg) := Accepted(l, op.n, r.conv, op.m, op.reply);
    var d := N.Draw(l.node.client, l.counters, r.conv, op.reply);
    var t := N.Ticket(op.n, r.conv, d.number, d.source);
    hide N.Draw, ConversationIds.P2p, ConversationIds.Group;
    hide Route, RouteAll, Here, Elsewhere, Others, Stamped;
    if op.Chat? {
      RouteRoutes(l1.node, l1.w, Row(op.toId, msg), op.outcome);
    } else {
      var ids := Others(op.members, op.fromId);
      RouteAllRoutes(l1.node, l1.w, RowsFor(Here(ids, l1.node.conns) + Elsewhere(ids, l1.node.conns), msg),
                     op.outcomes, msg);
    }
    assert Routed(s.w.(log := s.w.log + [t], accepted := s.w.accepted + [msg]), Do(s, op).w, msg);
    RoutedStamped(s.w, Do(s, op).w, t, msg);
    assert Numbers(Do(s, op)).clients == N.Serve(Numbers(s), r).clients;
  }

  lemma OtherStepsKeepNumbers(s: System, op: Op)
    requires Shaped(s) && Enabled(s, op) && !op.Chat? && !op.GroupChat? && Stamped(s.w)
    ensures Numbers(Do(s, op)) == Numbers(s) && Stamped(Do(s, op).w)
  {
    hide Batch, NotMine;
    assert Numbers(Do(s, op)).clients == Numbers(s).clients;
  }

  // ----- every copy comes from an accepted message

  lemma RouteSourced(node: Node, w: World, row: Row, outcome: Outcome)
    requires Sourced(w) && row.msg in w.accepted
    ensures Sourced(Route(node, w, row, outcome)) && Route(node, w, row, outcome).accepted == w.accepted
  {
    CopiesFacts(w.subs, row);
    hide Copies;
  }

  lemma {:induction false} RouteAllSourced(node: Node, w: World, rows: seq<Row>, outcome: nat -> Outcome)
    requires Sourced(w) && forall i :: 0 <= i < |rows| ==> rows[i].msg in w.accepted
    ensures Sourced(RouteAll(node, w, rows, outcome)) && RouteAll(node, w, rows, outcome).accepted == w.accepted
  {
    if rows != [] {
      var n := |rows| - 1;
      RouteAllSourced(node, w, rows[..n], outcome);
      RouteSourced(node, RouteAll(node, w, rows[..n], outcome), rows[n], outcome(n));
      hide Route, Sourced;
    }
  }

  lemma EnteredSourced(s: System, op: Op)
    requires Sourced(s.w) && Shaped(s) && Enabled(s, op) && (op.Chat? || op.GroupChat?)
    ensures var (l, msg) := D.Entered(s, op);
            Sourced(l.w) && msg in l.w.accepted && forall r :: r in D.Rows(s, op, msg) ==> r.msg == msg
  {
    D.ChatIsRouting(s, op);
    hide D.Entered, Do, Route, RouteAll;
  }

  lemma ChatSourced(s: System, op: Op)
    requires Sourced(s.w) && Shaped(s) && Enabled(s, op) && (op.Chat? || op.GroupChat?)
    ensures Sourced(Do(s, op).w)
  {
    var (l, msg) := D.Entered(s, op);
    D.ChatIsRouting(s, op);
    EnteredSourced(s, op);
    hide D.Entered, D.Rows, Do, Sourced;
    if op.Chat? {
      RouteSourced(l.node, l.w, Row(op.toId, msg), op.outcome);
    } else {
      RouteAllSourced(l.node, l.w, D.Rows(s, op, msg), op.outcomes);
    }
  }

  lemma {:induction false} SomeOf(rows: seq<Row>, u: int)
    ensures forall r :: r in Mine(rows, u) || r in NotMine(rows, u) ==> r in rows
  {
    if rows != [] {
      var n := |rows| - 1;
      SomeOf(rows[..n], u);
      assert rows == rows[..n] + [rows[n]];
      assert forall r :: r in Mine(rows, u) ==> r in Mine(rows[..n], u) || r == rows[n];
      assert forall r :: r in NotMine(rows, u) ==> r in NotMine(rows[..n], u) || r == rows[n];
    }
  }

  lemma LoginSourced(node: Node, w: World, n: nat, conn: nat, name: string, ok: bool)
    requires Sourced(w) && n < |w.subs|
    ensures Sourced(LoginAt(node, w, n, conn, name, ok).1)
  {
    if name in w.users {
      var u := w.users[name];
      SomeOf(w.offline, u);
      BatchIsMine(w.offline, u);
      hide Batch, Mine, NotMine;
      forall r | r in Batch(w.offline, u) ensures r in w.offline {
        assert r in multiset(Batch(w.offline, u));
      }
    }
  }

  lemma ArrivalSourced(node: Node, w: World, i: nat, userid: int)
    requires Sourced(w) && i < |w.flight|
    ensures Sourced(ArriveAt(node, w.(flight := Without(w.flight, i)), Row(userid, w.flight[i].row.msg)))
    ensures Sourced(w.(flight := Without(w.flight, i), lost := w.lost + [w.flight[i].row]))
  {
    var rest := Without(w.flight, i);
    forall j | 0 <= j < |rest| ensures rest[j].row.msg in w.accepted {
      assert rest[j] == w.flight[if j < i then j else j + 1];
    }
    hide Without;
  }

  lemma DoSourced(s: System, op: Op)
    requires Sourced(s.w) && Shaped(s) && Enabled(s, op)
    ensures Sourced(Do(s, op).w)
  {
    match op
    case Login(n, conn, name, ok) => LoginSourced(s.nodes[n], s.w, n, conn, name, ok);
    case Chat(n, a, b, m, r, o) => ChatSourced(s, op);
    case GroupChat(n, a, g, ms, m, r, o) => ChatSourced(s, op);
    case Arrive(i, userid) => ArrivalSourced(s.nodes[s.w.flight[i].node], s.w, i, userid);
    case Drop(i) => ArrivalSourced(s.nodes[s.w.flight[i].node], s.w, i, 0);
    case _ =>
  }

  lemma ChatShaped(s: System, op: Op)
    requires Shaped(s) && Enabled(s, op) && (op.Chat? || op.GroupChat?)
    ensures Shaped(Do(s, op))
  {
    var (l, msg) := D.Entered(s, op);
    D.ChatIsRouting(s, op);
    assert |Do(s, op).nodes| == |s.nodes|;
    hide D.Entered, D.Rows, Do;
    if op.Chat? {
      RouteBase(l.node, l.w, Row(op.toId, msg), op.outcome);
    } else {
      RouteAllBase(l.node, l.w, D.Rows(s, op, msg), op.outcomes);
    }
    hide Route, RouteAll;
  }

  lemma DoShaped(s: System, op: Op)
    requires Shaped(s) && Enabled(s, op)
    ensures Shaped(Do(s, op))
  {
    hide Batch, NotMine;
    match op
    case Chat(n, a, b, m, r, o) => ChatShaped(s, op);
    case GroupChat(n, a, g, ms, m, r, o) => ChatShaped(s, op);
    case _ =>
  }

  lemma DoTraced(s: System, op: Op)
    requires Traced(s) && Enabled(s, op)
    ensures Traced(Do(s, op))
  {
    DoShaped(s, op);
    DoSourced(s, op);
    hide Do, Sourced;
    if op.Chat? || op.GroupChat? {
      ChatStamps(s, op);
      N.ServeKeepsInv(Numbers(s), RequestOf(op));
    } else {
      OtherStepsKeepNumbers(s, op);
    }
  }

  /** In every run, with logouts for anybody, packets handled for any user and everybody marked offline
      at any time: every copy is of an accepted message, which carries the number of its ticket. */
  lemma {:induction false} RunTraced(s: System, ops: seq<Op>)
    requires Start(s)
    ensures Traced(Run(s, ops))
  {
    if ops == [] {
      StartIsGood(s);
    } else {
      var n := |ops| - 1;
      RunTraced(s, ops[..n]);
      hide Do, Enabled;
      if Enabled(Run(s, ops[..n]), ops[n]) {
        DoTraced(Run(s, ops[..n]), ops[n]);
      }
    }
  }

  // ----- rightful runs

  lemma RightfulPrefix(s: System, ops: seq<Op>)
    requires RightfulRun(s, ops) && ops != []
    ensures RightfulRun(s, ops[..|ops| - 1]) && Rightful(Run(s, ops[..|ops| - 1]), ops[|ops| - 1])
  {
    hide Rightful, Run;
    var n := |ops| - 1;
    forall i | 0 <= i < n ensures Rightful(Run(s, ops[..n][..i]), ops[..n][i]) {
      assert ops[..n][..i] == ops[..i];
    }
  }

  /** Over any run of rightful steps: presence, the ledger of copies, the numbering invariant and
      the link between messages and tickets all hold. */
  lemma {:induction false} RunKeepsGood(s: System, ops: seq<Op>)
    requires Start(s) && RightfulRun(s, ops)
    ensures Good(Run(s, ops))
  {
    if ops == [] {
      StartIsGood(s);
    } else {
      var n := |ops| - 1;
      RightfulPrefix(s, ops);
      RunKeepsGood(s, ops[..n]);
      var before := Run(s, ops[..n]);
      hide Rightful, Do, Enabled, RightfulRun, Start, Traced, Balanced;
      if Enabled(before, ops[n]) {
        DoKeepsPresence(before, ops[n]);
        DoBalances(before, ops[n]);
        DoTraced(before, ops[n]);
      }
    }
  }

  // ----- the debt of a run

  /** How many copies of message `m` user `u` is owed by the chats accepted in a run. */
  ghost function DueTo(s: System, ops: seq<Op>, r: Row): nat {
    if ops == [] then 0
    else
      var before, op := Run(s, ops[..|ops| - 1]), ops[|ops| - 1];
      DueTo(s, ops[..|ops| - 1], r) +
      if Shaped(before) && Enabled(before, op) && (op.Chat? || op.GroupChat?) && D.Entered(before, op).1 == r.msg
      then D.Due(op, r.user) else 0
  }

  lemma OtherStepsOweNothing(s: System, op: Op)
    requires Shaped(s) && Enabled(s, op) && !op.Chat? && !op.GroupChat?
    ensures Do(s, op).w.owed == s.w.owed
  {
    hide Batch, NotMine;
  }

  lemma ChatOwes(s: System, op: Op, r: Row)
    requires Shaped(s) && Enabled(s, op) && (op.Chat? || op.GroupChat?)
    ensures multiset(Do(s, op).w.owed)[r] ==
            multiset(s.w.owed)[r] + if D.Entered(s, op).1 == r.msg then D.Due(op, r.user) else 0
  {
    D.OwedExactly(s, op, r);
    EnteredIsAccepted(s, op);
    hide Do, D.Entered, D.Due;
  }

  lemma EnteredIsAccepted(s: System, op: Op)
    requires Shaped(s) && Enabled(s, op) && (op.Chat? || op.GroupChat?)
    ensures Do(s, op).w.accepted == s.w.accepted + [D.Entered(s, op).1]
  {
    var (l, msg) := D.Entered(s, op);
    D.ChatIsRouting(s, op);
    hide Do, D.Entered, D.Rows;
    if op.Chat? {
      D.RouteOwes(l.node, l.w, Row(op.toId, msg), op.outcome);
    } else {
      D.RouteAllOwes(l.node, l.w, D.Rows(s, op, msg), op.outcomes);
    }
    hide Route, RouteAll;
  }

  /** In every run the copies owed are those due to the readers of the accepted chats. */
  lemma {:induction false} OwedIsDue(s: System, ops: seq<Op>, r: Row)
    requires Start(s)
    ensures multiset(Run(s, ops).w.owed)[r] == DueTo(s, ops, r)
  {
    if ops != [] {
      var n := |ops| - 1;
      OwedIsDue(s, ops[..n], r);
      var before, op := Run(s, ops[..n]), ops[n];
      hide Do, Enabled, Shaped, Start, D.Entered, D.Due;
      if Shaped(before) && Enabled(before, op) {
        if op.Chat? || op.GroupChat? {
          ChatOwes(before, op, r);
        } else {
          OtherStepsOweNothing(before, op);
        }
      }
    }
  }

  /** The copies of one message for one user that exist or are known to be lost. */
  function CopiesOf(w: World, r: Row): nat {
    multiset(w.pushed)[r] + multiset(InFlight(w.flight))[r] + multiset(w.offline)[r] +
    multiset(w.batched)[r] + multiset(w.lost)[r]
  }

  /** Message ledger: for every user and message the copies number exactly what the accepted chats owe,
      that is one for the addressee and one for each member row of another user, plus one for every
      publication that was repeated into the offline store; and every copy anywhere is, payload and
      number included, an accepted message. */
  lemma EveryCopyAccountedFor(s: System, ops: seq<Op>, r: Row)
    requires Start(s) && RightfulRun(s, ops)
    ensures var w := Run(s, ops).w;
            CopiesOf(w, r) == DueTo(s, ops, r) + multiset(w.doubled)[r] &&
            (CopiesOf(w, r) > 0 ==> r.msg in w.accepted)
  {
    RunKeepsGood(s, ops);
    OwedIsDue(s, ops, r);
    var w := Run(s, ops).w;
    hide Run, InFlight, DueTo;
    assert (multiset(w.owed) + multiset(w.doubled))[r] == CopiesOf(w, r);
    if CopiesOf(w, r) > 0 {
      assert r in w.owed || r in w.doubled;
    }
  }
}
