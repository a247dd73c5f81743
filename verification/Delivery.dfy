/** Who is admitted, who is owed a copy, and where a copy goes. */
module Delivery {
  import opened Messages
  import opened Numbering
  import opened Handlers
  import opened Cluster
  import opened Ledger
  import ConversationIds

  /** A login connects a user exactly when the name is known, the password is right and the user is not
      online; it is then this connection that holds the user, whose offline rows are gone. */
  lemma LoginAdmitsExactly(s: System, n: nat, conn: nat, name: string, ok: bool)
    requires Presence(s) && n < |s.nodes|
    ensures var s' := Do(s, Login(n, conn, name, ok));
            var admitted := name in s.w.users && s.w.users[name] != NO_USER && ok && s.w.users[name] !in s.w.online;
            if admitted then
              var u := s.w.users[name];
              && s'.nodes[n].conns == s.nodes[n].conns[u := conn] && !Holds(s, n, u)
              && Mine(s'.w.offline, u) == []
            else s' == s
  {
    if name in s.w.users && s.w.users[name] !in s.w.online {
      assert !Holds(s, n, s.w.users[name]);
      NoneOfNotMine(s.w.offline, s.w.users[name]);
    }
    hide Batch, Mine, NotMine;
  }

  lemma {:induction false} NoneOfNotMine(rows: seq<Row>, u: int)
    ensures Mine(NotMine(rows, u), u) == []
  {
    if rows != [] {
      var n := |rows| - 1;
      NoneOfNotMine(rows[..n], u);
      var rest := NotMine(rows[..n], u);
      assert rest + [] == rest && (rest + [rows[n]])[..|rest|] == rest;
    }
  }

  // ----- who is owed a copy

  function Counted(ids: seq<int>, u: int): nat {
    if ids == [] then 0 else Counted(ids[..|ids| - 1], u) + if ids[|ids| - 1] == u then 1 else 0
  }

  lemma {:induction false} CountedConcat(a: seq<int>, b: seq<int>, u: int)
    ensures Counted(a + b, u) == Counted(a, u) + Counted(b, u)
  {
    if b == [] {
      assert a + b == a;
    } else {
      var n := |b| - 1;
      assert (a + b)[..|a + b| - 1] == a + b[..n];
      CountedConcat(a, b[..n], u);
    }
  }

  lemma CountedOne(x: int, u: int)
    ensures Counted([x], u) == if x == u then 1 else 0
    ensures Counted([], u) == 0
  {
    assert [x][..0] == [];
  }

  lemma {:induction false} OthersCounted(members: seq<int>, sender: int, u: int)
    ensures Counted(Others(members, sender), u) == if u == sender then 0 else Counted(members, u)
  {
    if members != [] {
      var n := |members| - 1;
      OthersCounted(members[..n], sender, u);
      CountedOne(members[n], u);
      CountedConcat(Others(members[..n], sender), if members[n] != sender then [members[n]] else [], u);
    }
  }

  lemma {:induction false} PartitionCounted(ids: seq<int>, conns: map<int, nat>, u: int)
    ensures Counted(Here(ids, conns) + Elsewhere(ids, conns), u) == Counted(ids, u)
  {
    CountedConcat(Here(ids, conns), Elsewhere(ids, conns), u);
    if ids != [] {
      var n := |ids| - 1;
      PartitionCounted(ids[..n], conns, u);
      CountedConcat(Here(ids[..n], conns), Elsewhere(ids[..n], conns), u);
      CountedOne(ids[n], u);
      CountedConcat(Here(ids[..n], conns), if ids[n] in conns then [ids[n]] else [], u);
      CountedConcat(Elsewhere(ids[..n], conns), if ids[n] in conns then [] else [ids[n]], u);
    }
  }

  lemma {:induction false} RowsCounted(ids: seq<int>, msg: Message, r: Row)
    ensures multiset(RowsFor(ids, msg))[r] == if r.msg == msg then Counted(ids, r.user) else 0
  {
    if ids == [] {
      assert RowsFor(ids, msg) == [];
    } else {
      var n := |ids| - 1;
      RowsCounted(ids[..n], msg, r);
      assert RowsFor(ids, msg) == RowsFor(ids[..n], msg) + [Row(ids[n], msg)];
      Snoc(RowsFor(ids[..n], msg), Row(ids[n], msg));
    }
  }

  lemma RouteOwes(node: Node, w: World, row: Row, outcome: Outcome)
    ensures Route(node, w, row, outcome).owed == w.owed + [row]
    ensures Route(node, w, row, outcome).accepted == w.accepted
  {
    hide Copies;
  }

  lemma {:induction false} RouteAllOwes(node: Node, w: World, rows: seq<Row>, outcome: nat -> Outcome)
    ensures RouteAll(node, w, rows, outcome).owed == w.owed + rows
    ensures RouteAll(node, w, rows, outcome).accepted == w.accepted
  {
    if rows != [] {
      var n := |rows| - 1;
      RouteAllOwes(node, w, rows[..n], outcome);
      RouteOwes(node, RouteAll(node, w, rows[..n], outcome), rows[n], outcome(n));
      hide Route;
      assert rows == rows[..n] + [rows[n]];
    }
  }

  /** How many copies of an accepted message user `u` is owed. */
  function Due(op: Op, u: int): nat
    requires op.Chat? || op.GroupChat?
  {
    if op.Chat? then if u == op.toId then 1 else 0
    else if u == op.fromId then 0 else Counted(op.members, u)
  }

  ghost function Rows(s: System, op: Op, msg: Message): seq<Row>
    requires (op.Chat? || op.GroupChat?) && op.n < |s.nodes|
  {
    if op.Chat? then [Row(op.toId, msg)]
    else
      var ids := Others(op.members, op.fromId);
      RowsFor(Here(ids, s.nodes[op.n].conns) + Elsewhere(ids, s.nodes[op.n].conns), msg)
  }

  lemma RowsAreDue(s: System, op: Op, msg: Message, r: Row)
    requires (op.Chat? || op.GroupChat?) && op.n < |s.nodes|
    ensures multiset(Rows(s, op, msg))[r] == if r.msg == msg then Due(op, r.user) else 0
  {
    if op.GroupChat? {
      var ids := Others(op.members, op.fromId);
      var conns := s.nodes[op.n].conns;
      RowsCounted(Here(ids, conns) + Elsewhere(ids, conns), msg, r);
      PartitionCounted(ids, conns, r.user);
      OthersCounted(op.members, op.fromId, r.user);
    }
  }

  /** The world once the message has been accepted and before it is routed, and the message. */
  ghost function Entered(s: System, op: Op): (Local, Message)
    requires (op.Chat? || op.GroupChat?) && op.n < |s.nodes|
  {
    var c := if op.Chat? then ConversationIds.P2p(op.fromId, op.toId) else ConversationIds.Group(op.groupId);
    Accepted(At(s, op.n), op.n, c, op.m, op.reply)
  }

  lemma ChatIsRouting(s: System, op: Op)
    requires Shaped(s) && Enabled(s, op) && (op.Chat? || op.GroupChat?)
    ensures var (l, msg) := Entered(s, op);
            && l.node.conns == s.nodes[op.n].conns && SameBase(s.w, l.w)
            && l.w == s.w.(log := l.w.log, accepted := s.w.accepted + [msg])
            && Do(s, op).w == if op.Chat? then Route(l.node, l.w, Row(op.toId, msg), op.outcome)
                              else RouteAll(l.node, l.w, Rows(s, op, msg), op.outcomes)
  {
    hide Route, RouteAll, Draw, ConversationIds.P2p, ConversationIds.Group, Here, Elsewhere, Others, RowsFor;
  }

  /** An accepted chat is owed to exactly its readers: the addressee once, or each member row of another
      user once; the message is the sent one with its conversation and number. */
  lemma OwedExactly(s: System, op: Op, r: Row)
    requires Shaped(s) && Enabled(s, op) && (op.Chat? || op.GroupChat?)
    ensures var (w, w') := (s.w, Do(s, op).w);
            |w'.accepted| == |w.accepted| + 1 && w'.accepted[..|w.accepted|] == w.accepted &&
            var msg := w'.accepted[|w.accepted|];
            msg.text == op.m.text &&
            multiset(w'.owed)[r] == multiset(w.owed)[r] + if r.msg == msg then Due(op, r.user) else 0
  {
    var (l, msg) := Entered(s, op);
    ChatIsRouting(s, op);
    RowsAreDue(s, op, msg, r);
    if op.Chat? {
      RouteOwes(l.node, l.w, Row(op.toId, msg), op.outcome);
    } else {
      RouteAllOwes(l.node, l.w, Rows(s, op, msg), op.outcomes);
    }
    Append(s.w.owed, Rows(s, op, msg));
    hide Route, RouteAll, Rows, Due, Do;
  }

  // ----- where a copy goes

  /** Copies of `r` handed to a connection, open or closed. */
  function Handed(w: World, r: Row): nat {
    multiset(w.pushed)[r] + multiset(w.lost)[r]
  }

  function Flying(w: World, r: Row): nat {
    multiset(InFlight(w.flight))[r]
  }

  function Stored(w: World, r: Row): nat {
    multiset(w.offline)[r]
  }

  function Doubled(w: World, r: Row): nat {
    multiset(w.doubled)[r]
  }

  /** From `w` to `w'`, `k` copies of `r` went where `r.user` is: to this node's connection, towards the
      subscribed node, or into the store; a failed publication goes into the store. */
  ghost predicate Lands(node: Node, w: World, w': World, r: Row, k: nat, sent: bool) {
    if r.user in node.conns then
      Handed(w', r) == Handed(w, r) + k && Flying(w', r) == Flying(w, r) && Stored(w', r) == Stored(w, r)
    else if r.user in w.online then
      && Handed(w', r) == Handed(w, r)
      && Flying(w', r) + Stored(w', r) + Doubled(w, r) == Flying(w, r) + Stored(w, r) + k + Doubled(w', r)
      && (sent ==> Stored(w', r) == Stored(w, r) && Doubled(w', r) == Doubled(w, r))
    else
      Handed(w', r) == Handed(w, r) && Flying(w', r) == Flying(w, r) && Stored(w', r) == Stored(w, r) + k
  }

  lemma CountSnoc(rows: seq<Row>, x: Row, r: Row)
    ensures multiset(rows + [x])[r] == multiset(rows)[r] + if r == x then 1 else 0
  {
  }

  lemma PublishedLands(w: World, row: Row, r: Row)
    requires HeldByOne(w.subs, row.user)
    ensures var w' := Published(w, row);
            Flying(w', r) == Flying(w, r) + (if r == row then 1 else 0) && w' == w.(flight := w'.flight)
  {
    PublishedOne(w, row);
    var k :| Published(w, row) == w.(flight := w.flight + [Packet(k, row)]);
    hide Published;
    assert InFlight(w.flight + [Packet(k, row)]) == InFlight(w.flight) + [row];
    CountSnoc(InFlight(w.flight), row, r);
    hide InFlight;
  }

  lemma RouteLands(node: Node, w: World, row: Row, outcome: Outcome, r: Row)
    requires Reachable(node, w, row.user)
    ensures Lands(node, w, Route(node, w, row, outcome), r, if r == row then 1 else 0, outcome.Sent?)
  {
    CountSnoc(w.doubled, row, r);
    CountSnoc(w.pushed, row, r);
    CountSnoc(w.offline, row, r);
    CountSnoc(w.lost, row, r);
    if row.user !in node.conns && row.user in w.online {
      PublishedLands(w.(owed := w.owed + [row]), row, r);
    }
    hide InFlight, Published;
  }

  lemma LandsThen(node: Node, w: World, mid: World, w': World, r: Row, k: nat, k': nat, sent: bool, sent': bool)
    requires mid.online == w.online && Lands(node, w, mid, r, k, sent) && Lands(node, mid, w', r, k', sent')
    ensures Lands(node, w, w', r, k + k', sent && sent')
  {
    hide Handed, Flying, Stored, Doubled;
  }

  ghost predicate SentUpTo(outcome: nat -> Outcome, n: nat) {
    forall i :: 0 <= i < n ==> outcome(i).Sent?
  }

  lemma ReachableKept(node: Node, w: World, w': World, u: int)
    requires Reachable(node, w, u) && SameBase(w, w')
    ensures Reachable(node, w', u)
  {
  }

  lemma SentSnoc(outcome: nat -> Outcome, n: nat)
    ensures SentUpTo(outcome, n + 1) == (SentUpTo(outcome, n) && outcome(n).Sent?)
  {
  }

  lemma LandsNothing(node: Node, w: World, r: Row, sent: bool)
    ensures Lands(node, w, w, r, 0, sent)
  {
  }

  lemma {:induction false} RouteAllLands(node: Node, w: World, rows: seq<Row>, outcome: nat -> Outcome, r: Row)
    requires forall i :: 0 <= i < |rows| ==> Reachable(node, w, rows[i].user)
    ensures Lands(node, w, RouteAll(node, w, rows, outcome), r, multiset(rows)[r], SentUpTo(outcome, |rows|))
  {
    hide Route, Lands, Reachable, SentUpTo;
    if rows == [] {
      LandsNothing(node, w, r, SentUpTo(outcome, 0));
    } else {
      var n := |rows| - 1;
      var front, mid := rows[..n], RouteAll(node, w, rows[..n], outcome);
      RouteAllLands(node, w, front, outcome, r);
      RouteAllBase(node, w, front, outcome);
      ReachableKept(node, w, mid, rows[n].user);
      RouteLands(node, mid, rows[n], outcome(n), r);
      assert rows == front + [rows[n]];
      CountSnoc(front, rows[n], r);
      SentSnoc(outcome, n);
      LandsThen(node, w, mid, Route(node, mid, rows[n], outcome(n)), r,
                multiset(front)[r], if r == rows[n] then 1 else 0,
                SentUpTo(outcome, n), outcome(n).Sent?);
    }
  }

  /** Every publication for this chat is answered. */
  ghost predicate AllSent(op: Op)
    requires op.Chat? || op.GroupChat?
  {
    if op.Chat? then op.outcome.Sent? else forall n :: SentUpTo(op.outcomes, n)
  }

  lemma EnteredLands(s: System, op: Op, w': World, r: Row, k: nat, sent: bool)
    requires Shaped(s) && Enabled(s, op) && (op.Chat? || op.GroupChat?)
    requires Lands(Entered(s, op).0.node, Entered(s, op).0.w, w', r, k, sent) && (AllSent(op) ==> sent)
    ensures Lands(s.nodes[op.n], s.w, w', r, k, AllSent(op))
  {
    ChatIsRouting(s, op);
    hide Entered, AllSent, Do, Route, RouteAll, Rows, Lands;
    LandsFrom(Entered(s, op).0.node, s.nodes[op.n], Entered(s, op).0.w, s.w, w', r, k, sent, AllSent(op));
  }

  lemma LandsFrom(node0: Node, node: Node, w0: World, w: World, w': World, r: Row, k: nat, sent: bool, all: bool)
    requires Lands(node0, w0, w', r, k, sent) && (all ==> sent)
    requires node0.conns == node.conns && w0 == w.(log := w0.log, accepted := w0.accepted)
    ensures Lands(node, w, w', r, k, all)
  {
    hide InFlight;
  }

  lemma EnteredReaches(s: System, op: Op, u: int)
    requires Presence(s) && Enabled(s, op) && (op.Chat? || op.GroupChat?)
    ensures Reachable(Entered(s, op).0.node, Entered(s, op).0.w, u)
  {
    ChatIsRouting(s, op);
    PresenceReaches(s, op.n, u);
    hide Entered, Do, Route, RouteAll, Rows, Presence, Enabled;
  }

  lemma ChatLands(s: System, op: Op, r: Row)
    requires Presence(s) && Enabled(s, op) && (op.Chat? || op.GroupChat?)
    ensures Lands(s.nodes[op.n], s.w, Do(s, op).w, r,
                  if r.msg == Entered(s, op).1 then Due(op, r.user) else 0, AllSent(op))
  {
    var (l, msg) := Entered(s, op);
    ChatIsRouting(s, op);
    RowsAreDue(s, op, msg, r);
    hide Reachable, Do, Entered, Route, RouteAll, Rows, Presence, Lands;
    if op.Chat? {
      EnteredReaches(s, op, op.toId);
      RouteLands(l.node, l.w, Row(op.toId, msg), op.outcome, r);
      EnteredLands(s, op, Do(s, op).w, r, if r == Row(op.toId, msg) then 1 else 0, op.outcome.Sent?);
    } else {
      forall u ensures Reachable(l.node, l.w, u) { EnteredReaches(s, op, u); }
      var rows := Rows(s, op, msg);
      RouteAllLands(l.node, l.w, rows, op.outcomes, r);
      EnteredLands(s, op, Do(s, op).w, r, multiset(rows)[r], SentUpTo(op.outcomes, |rows|));
    }
  }

  /** Every copy a chat owes goes where its reader is: handed to the connection on this node; sent to
      the node that holds the reader, or stored if that fails; stored if nobody holds the reader. */
  lemma ChatsGoToTheirReaders(s: System, op: Op, r: Row)
    requires Presence(s) && Enabled(s, op) && (op.Chat? || op.GroupChat?)
    ensures var (w, w') := (s.w, Do(s, op).w);
            var k := if r.msg == Entered(s, op).1 then Due(op, r.user) else 0;
            if Holds(s, op.n, r.user) then
              Handed(w', r) == Handed(w, r) + k && Flying(w', r) == Flying(w, r) && Stored(w', r) == Stored(w, r)
            else if exists n :: Holds(s, n, r.user) then
              && Handed(w', r) == Handed(w, r)
              && Flying(w', r) + Stored(w', r) + Doubled(w, r) == Flying(w, r) + Stored(w, r) + k + Doubled(w', r)
              && (AllSent(op) ==> Stored(w', r) == Stored(w, r) && Doubled(w', r) == Doubled(w, r))
            else
              Handed(w', r) == Handed(w, r) && Flying(w', r) == Flying(w, r) && Stored(w', r) == Stored(w, r) + k
  {
    ChatLands(s, op, r);
    hide Do, Entered, Due, Handed, Flying, Stored, Doubled, AllSent;
    assert Holds(s, op.n, r.user) <==> r.user in s.nodes[op.n].conns;
  }
}
