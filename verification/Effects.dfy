/** What each handler call does, field by field of the node and of the shared state: who is held where,
    what was put on which connection, what is in flight, stored and lost. */
module Effects {
  import opened Messages
  import opened Numbering
  import opened Handlers
  import opened Cluster
  import opened Ledger
  import D = Delivery
  import ConversationIds

  /** Nodes and counters are those of `s`. */
  ghost predicate SameNodes(s: System, s': System) {
    s'.nodes == s.nodes && s'.counters == s.counters
  }

  // ----- a packet from Redis

  /** A packet handled for user `u` goes to the connection of `u` on this node if it is open, is lost if that
      connection is closed, and is stored if this node does not hold `u`; nothing else changes. */
  lemma ArrivalExactly(s: System, i: nat, u: int)
    requires Shaped(s) && i < |s.w.flight|
    ensures var w, s' := s.w, Do(s, Arrive(i, u));
            var conns, row := s.nodes[w.flight[i].node].conns, Row(u, w.flight[i].row.msg);
            var rest := w.(flight := w.flight[..i] + w.flight[i + 1..]);
            && SameNodes(s, s')
            && (u in conns && conns[u] !in w.down ==>
                  s'.w == rest.(pushed := w.pushed + [row], mail := w.mail + [Envelope(conns[u], row)]))
            && (u in conns && conns[u] in w.down ==> s'.w == rest.(lost := w.lost + [row]))
            && (u !in conns ==> s'.w == rest.(offline := w.offline + [row]))
  {
  }

  /** A packet for a user whom its node holds on an open connection is put on that connection. */
  lemma PacketReachesItsReader(s: System, i: nat, conn: nat)
    requires Presence(s) && i < |s.w.flight| && conn !in s.w.down
    requires Holds(s, s.w.flight[i].node, s.w.flight[i].row.user)
    requires s.nodes[s.w.flight[i].node].conns[s.w.flight[i].row.user] == conn
    ensures Do(s, Arrive(i, s.w.flight[i].row.user)).w.mail == s.w.mail + [Envelope(conn, s.w.flight[i].row)]
  {
    ArrivalExactly(s, i, s.w.flight[i].row.user);
    hide Do;
  }

  /** A dropped packet is lost; a connection that goes away is closed, so that a packet then handled for a user
      held on it is lost; `reset` marks everybody offline. Nothing else changes. */
  lemma EnvironmentExactly(s: System, i: nat, u: int, conn: nat)
    requires Shaped(s) && i < |s.w.flight|
    ensures var w, s' := s.w, Do(s, Drop(i));
            && SameNodes(s, s')
            && s'.w == w.(flight := w.flight[..i] + w.flight[i + 1..], lost := w.lost + [w.flight[i].row])
    ensures var s' := Do(s, Disconnect(conn));
            var conns, row := s.nodes[s.w.flight[i].node].conns, Row(u, s.w.flight[i].row.msg);
            && SameNodes(s, s') && s'.w == s.w.(down := s.w.down + {conn})
            && (u in conns && conns[u] == conn ==>
                  Do(s', Arrive(i, u)).w.lost == s.w.lost + [row] && Do(s', Arrive(i, u)).w.mail == s.w.mail)
    ensures SameNodes(s, Do(s, Reset)) && Do(s, Reset).w == s.w.(online := {})
  {
    ArrivalExactly(Do(s, Disconnect(conn)), i, u);
  }

  // ----- leaving

  /** User `u` has left node `n`, and nothing else has changed. */
  ghost predicate Left(s: System, s': System, n: nat, u: int)
    requires n < |s.nodes| && |s.w.subs| == |s.nodes|
  {
    && s'.counters == s.counters && |s'.nodes| == |s.nodes|
    && (forall k :: 0 <= k < |s.nodes| && k != n ==> s'.nodes[k] == s.nodes[k])
    && s'.nodes[n].client == s.nodes[n].client && s'.nodes[n].conns == s.nodes[n].conns - {u}
    && s'.w == s.w.(subs := s.w.subs[n := s.w.subs[n] - {u}], online := s.w.online - {u})
  }

  /** A logout takes exactly the named user off the node, its subscriptions and the online users. */
  lemma LogoutExactly(s: System, n: nat, u: int)
    requires Shaped(s) && n < |s.nodes|
    ensures Left(s, Do(s, Logout(n, u)), n, u)
  {
  }

  /** A closed connection does the same with the user found on it; a user without a row keeps its place
      among the online users, and id -1 stands for no user at all. */
  lemma CloseExactly(s: System, n: nat, conn: nat, u: int)
    requires Shaped(s) && Enabled(s, Close(n, conn, u))
    ensures var s' := Do(s, Close(n, conn, u));
            && (u in s.w.users.Values && u != -1 ==> Left(s, s', n, u))
            && (u !in s.w.users.Values && u != -1 ==>
                  Left(s, s'.(w := s'.w.(online := s.w.online - {u})), n, u) && s'.w.online == s.w.online)
            && (u == -1 ==> s'.w == s.w && s'.nodes[n].conns == s.nodes[n].conns - {u})
  {
  }

  /** In terms of who is held where: only `u` on node `n` has gone, and `u` can log in again anywhere. */
  lemma LeftIsGone(s: System, s': System, n: nat, u: int)
    requires Presence(s) && Holds(s, n, u) && Left(s, s', n, u)
    ensures Presence(s') && u !in s'.w.online && u !in s'.w.subs[n]
    ensures forall k, v :: Holds(s', k, v) <==> Holds(s, k, v) && v != u
    ensures forall v :: v != u ==> (v in s'.w.online <==> v in s.w.online)
  {
    assert forall k, v :: Holds(s', k, v) <==> Holds(s, k, v) && !(k == n && v == u);
    assert forall k :: Holds(s, k, u) ==> k == n;
  }

  lemma LoginAgain(s: System, n: nat, conn: nat, name: string)
    requires Presence(s) && n < |s.nodes| && name in s.w.users
    requires s.w.users[name] !in s.w.online && Known(s.w, s.w.users[name])
    ensures var s' := Do(s, Login(n, conn, name, true));
            Holds(s', n, s.w.users[name]) && s'.nodes[n].conns[s.w.users[name]] == conn
  {
    D.LoginAdmitsExactly(s, n, conn, name, true);
    hide Do;
    assert |Do(s, Login(n, conn, name, true)).nodes| == |s.nodes| by { LoginKeepsSize(s, n, conn, name, true); }
  }

  lemma LoginKeepsSize(s: System, n: nat, conn: nat, name: string, ok: bool)
    requires Shaped(s) && n < |s.nodes|
    ensures |Do(s, Login(n, conn, name, ok)).nodes| == |s.nodes|
  {
    hide Batch, NotMine;
  }

  /** After a connection has closed, its user is nowhere held, online or subscribed, everybody else is where
      they were, and the user is admitted again on any node with any connection. */
  lemma ClosedUserCanReturn(s: System, n: nat, conn: nat, u: int, k: nat, conn': nat, name: string)
    requires Presence(s) && Enabled(s, Close(n, conn, u))
    requires k < |s.nodes| && name in s.w.users && s.w.users[name] == u
    ensures var s' := Do(s, Close(n, conn, u));
            && Left(s, s', n, u) && !Holds(s', n, u) && u !in s'.w.online && u !in s'.w.subs[n]
            && (forall k, v :: Holds(s', k, v) <==> Holds(s, k, v) && v != u)
            && var s'' := Do(s', Login(k, conn', name, true));
               Holds(s'', k, u) && s''.nodes[k].conns[u] == conn'
  {
    assert Holds(s, n, u);
    CloseExactly(s, n, conn, u);
    assert Known(s.w, u);
    var s' := Do(s, Close(n, conn, u));
    hide Do;
    LeftIsGone(s, s', n, u);
    LoginAgain(s', k, conn', name);
  }

  // ----- one recipient

  /** The route of one recipient row: pushed to this node's connection, lost with a closed one, published to
      the one node that holds the reader, stored if that is refused or nobody holds the reader. */
  ghost predicate Routed(node: Node, w: World, w': World, row: Row, outcome: Outcome) {
    var base := w.(owed := w.owed + [row]);
    if row.user in node.conns then
      var conn := node.conns[row.user];
      if conn in w.down then w' == base.(lost := w.lost + [row])
      else w' == base.(pushed := w.pushed + [row], mail := w.mail + [Envelope(conn, row)])
    else if row.user in w.online then
      exists k: nat :: OnlyHolder(w.subs, row.user, k) &&
        w' == match outcome
              case Sent => base.(flight := w.flight + [Packet(k, row)])
              case Refused => base.(offline := w.offline + [row])
              case RefusedAfterSending =>
                base.(flight := w.flight + [Packet(k, row)], offline := w.offline + [row], doubled := w.doubled + [row])
    else w' == base.(offline := w.offline + [row])
  }

  /** The nodes subscribed to the channel of `u`, in ascending order. */
  ghost predicate Subscribers(ks: seq<nat>, subs: seq<set<int>>, u: int) {
    && (forall i, j :: 0 <= i < j < |ks| ==> ks[i] < ks[j])
    && (forall k: nat :: k in ks <==> k < |subs| && u in subs[k])
  }

  function PacketsTo(ks: seq<nat>, row: Row): seq<Packet> {
    seq(|ks|, i requires 0 <= i < |ks| => Packet(ks[i], row))
  }

  lemma SubscribersSnoc(ks: seq<nat>, subs: seq<set<int>>, u: int)
    requires subs != [] && Subscribers(ks, subs[..|subs| - 1], u)
    ensures Subscribers(if u in subs[|subs| - 1] then ks + [|subs| - 1] else ks, subs, u)
  {
    var n: nat := |subs| - 1;
    forall i | 0 <= i < |ks| ensures ks[i] < n {
      assert ks[i] in ks;
    }
    var more := ks + [n];
    assert forall k: nat :: k in more <==> k in ks || k == n;
    assert forall k: nat :: k in ks <==> k < n && u in subs[k];
  }

  lemma PacketsToSnoc(ks: seq<nat>, row: Row, n: nat)
    ensures PacketsTo(ks + [n], row) == PacketsTo(ks, row) + [Packet(n, row)]
    ensures PacketsTo(ks, row) + [] == PacketsTo(ks, row)
  {
  }

  lemma {:induction false} CopiesAre(subs: seq<set<int>>, row: Row) returns (ks: seq<nat>)
    ensures Subscribers(ks, subs, row.user) && Copies(subs, row) == PacketsTo(ks, row)
  {
    if subs == [] {
      ks := [];
    } else {
      var n: nat := |subs| - 1;
      ks := CopiesAre(subs[..n], row);
      SubscribersSnoc(ks, subs, row.user);
      PacketsToSnoc(ks, row, n);
      hide Subscribers, PacketsTo;
      ks := if row.user in subs[n] then ks + [n] else ks;
    }
  }

  /** A publication makes one packet for each subscribed node; without any the copy is lost. */
  lemma PublicationExactly(w: World, row: Row)
    ensures exists ks :: Subscribers(ks, w.subs, row.user) &&
              Published(w, row) == if ks == [] then w.(lost := w.lost + [row])
                                   else w.(flight := w.flight + PacketsTo(ks, row))
  {
    var ks := CopiesAre(w.subs, row);
    hide Copies, Subscribers;
    assert ks == [] <==> Copies(w.subs, row) == [];
  }

  lemma PublishedExactly(w: World, row: Row, k: nat)
    requires OnlyHolder(w.subs, row.user, k)
    ensures Published(w, row) == w.(flight := w.flight + [Packet(k, row)])
  {
    OneCopy(w.subs, row, k);
  }

  lemma RouteExactly(node: Node, w: World, row: Row, outcome: Outcome)
    requires Reachable(node, w, row.user)
    ensures Routed(node, w, Route(node, w, row, outcome), row, outcome)
  {
    if row.user !in node.conns && row.user in w.online {
      var k: nat :| OnlyHolder(w.subs, row.user, k);
      PublishedExactly(w.(owed := w.owed + [row]), row, k);
      hide Published;
    }
  }

  /** A direct chat: numbered and stamped, then routed to the addressee. */
  lemma ChatExactly(s: System, op: Op)
    requires Presence(s) && Enabled(s, op) && op.Chat?
    ensures var (l, msg) := D.Entered(s, op);
            && l.w == s.w.(log := l.w.log, accepted := s.w.accepted + [msg]) && l.node.conns == s.nodes[op.n].conns
            && Routed(l.node, l.w, Do(s, op).w, Row(op.toId, msg), op.outcome)
  {
    var (l, msg) := D.Entered(s, op);
    D.ChatIsRouting(s, op);
    D.EnteredReaches(s, op, op.toId);
    hide D.Entered, Do, Routed, Route, Presence, Reachable;
    RouteExactly(l.node, l.w, Row(op.toId, msg), op.outcome);
  }

  // ----- a group

  /** The reader is on this node with an open connection. */
  function ToOpen(node: Node, w: World): (nat, Row) -> bool {
    (i: nat, row: Row) => row.user in node.conns && node.conns[row.user] !in w.down
  }

  /** With a closed one. */
  function ToClosed(node: Node, w: World): (nat, Row) -> bool {
    (i: nat, row: Row) => row.user in node.conns && node.conns[row.user] in w.down
  }

  /** The reader is on another node, and the publication goes out. */
  function Abroad(node: Node, w: World, outcome: nat -> Outcome): (nat, Row) -> bool {
    (i: nat, row: Row) => row.user !in node.conns && row.user in w.online && !outcome(i).Refused?
  }

  /** The reader is nowhere, or on another node and the publication is not answered. */
  function ToStore(node: Node, w: World, outcome: nat -> Outcome): (nat, Row) -> bool {
    (i: nat, row: Row) => row.user !in node.conns && (row.user in w.online ==> !outcome(i).Sent?)
  }

  function Twice(node: Node, w: World, outcome: nat -> Outcome): (nat, Row) -> bool {
    (i: nat, row: Row) => row.user !in node.conns && row.user in w.online && outcome(i).RefusedAfterSending?
  }

  /** The rows on the connections that this node has for their readers. */
  function Addressed(node: Node, rows: seq<Row>): seq<Envelope> {
    seq(|rows|, i requires 0 <= i < |rows| =>
      Envelope(if rows[i].user in node.conns then node.conns[rows[i].user] else 0, rows[i]))
  }

  /** From `w` to `w'` the rows went, in order, each where its reader is; row `i` with reply `outcome(i)`. */
  ghost predicate AllRouted(node: Node, w: World, w': World, rows: seq<Row>, outcome: nat -> Outcome) {
    && w' == w.(owed := w.owed + rows, pushed := w'.pushed, mail := w'.mail, lost := w'.lost, flight := w'.flight,
                offline := w'.offline, doubled := w'.doubled)
    && w'.pushed == w.pushed + Select(rows, ToOpen(node, w))
    && w'.mail == w.mail + Addressed(node, Select(rows, ToOpen(node, w)))
    && w'.lost == w.lost + Select(rows, ToClosed(node, w))
    && InFlight(w'.flight) == InFlight(w.flight) + Select(rows, Abroad(node, w, outcome))
    && w'.offline == w.offline + Select(rows, ToStore(node, w, outcome))
    && w'.doubled == w.doubled + Select(rows, Twice(node, w, outcome))
  }

  lemma NoneRouted(node: Node, w: World, outcome: nat -> Outcome)
    ensures AllRouted(node, w, w, [], outcome)
  {
  }

  lemma SelectAllSnoc(node: Node, w: World, rows: seq<Row>, row: Row, outcome: nat -> Outcome)
    ensures Select(rows + [row], ToOpen(node, w)) ==
            if row.user in node.conns && node.conns[row.user] !in w.down then Select(rows, ToOpen(node, w)) + [row]
            else Select(rows, ToOpen(node, w))
    ensures Select(rows + [row], ToClosed(node, w)) ==
            if row.user in node.conns && node.conns[row.user] in w.down then Select(rows, ToClosed(node, w)) + [row]
            else Select(rows, ToClosed(node, w))
    ensures Select(rows + [row], Abroad(node, w, outcome)) ==
            if row.user !in node.conns && row.user in w.online && !outcome(|rows|).Refused?
            then Select(rows, Abroad(node, w, outcome)) + [row] else Select(rows, Abroad(node, w, outcome))
    ensures Select(rows + [row], ToStore(node, w, outcome)) ==
            if row.user !in node.conns && (row.user in w.online ==> !outcome(|rows|).Sent?)
            then Select(rows, ToStore(node, w, outcome)) + [row] else Select(rows, ToStore(node, w, outcome))
    ensures Select(rows + [row], Twice(node, w, outcome)) ==
            if row.user !in node.conns && row.user in w.online && outcome(|rows|).RefusedAfterSending?
            then Select(rows, Twice(node, w, outcome)) + [row] else Select(rows, Twice(node, w, outcome))
  {
    SelectSnoc(rows, row, ToOpen(node, w));
    SelectSnoc(rows, row, ToClosed(node, w));
    SelectSnoc(rows, row, Abroad(node, w, outcome));
    SelectSnoc(rows, row, ToStore(node, w, outcome));
    SelectSnoc(rows, row, Twice(node, w, outcome));
    hide Select;
  }

  lemma AddressedSnoc(node: Node, rows: seq<Row>, row: Row)
    requires row.user in node.conns
    ensures Addressed(node, rows + [row]) == Addressed(node, rows) + [Envelope(node.conns[row.user], row)]
  {
  }

  lemma InFlightAppend(flight: seq<Packet>, p: Packet)
    ensures InFlight(flight + [p]) == InFlight(flight) + [p.row]
  {
  }

  lemma OneMoreHere(node: Node, w: World, mid: World, w': World, rows: seq<Row>, row: Row, outcome: nat -> Outcome)
    requires AllRouted(node, w, mid, rows, outcome) && Routed(node, mid, w', row, outcome(|rows|))
    requires row.user in node.conns
    ensures AllRouted(node, w, w', rows + [row], outcome)
  {
    SelectAllSnoc(node, w, rows, row, outcome);
    hide Select, InFlight, ToOpen, ToClosed, Abroad, ToStore, Twice;
    AddressedSnoc(node, Select(rows, ToOpen(node, w)), row);
    hide Addressed;
  }

  lemma OneMoreAbroad(node: Node, w: World, mid: World, w': World, rows: seq<Row>, row: Row, outcome: nat -> Outcome)
    requires AllRouted(node, w, mid, rows, outcome) && Routed(node, mid, w', row, outcome(|rows|))
    requires row.user !in node.conns && row.user in w.online
    ensures AllRouted(node, w, w', rows + [row], outcome)
  {
    SelectAllSnoc(node, w, rows, row, outcome);
    hide Select, InFlight, ToOpen, ToClosed, Abroad, ToStore, Twice, Addressed;
    forall k: nat ensures InFlight(mid.flight + [Packet(k, row)]) == InFlight(mid.flight) + [row] {
      InFlightAppend(mid.flight, Packet(k, row));
    }
  }

  lemma OneMoreNowhere(node: Node, w: World, mid: World, w': World, rows: seq<Row>, row: Row, outcome: nat -> Outcome)
    requires AllRouted(node, w, mid, rows, outcome) && Routed(node, mid, w', row, outcome(|rows|))
    requires row.user !in node.conns && row.user !in w.online
    ensures AllRouted(node, w, w', rows + [row], outcome)
  {
    SelectAllSnoc(node, w, rows, row, outcome);
    hide Select, InFlight, ToOpen, ToClosed, Abroad, ToStore, Twice, Addressed;
  }

  lemma OneMoreRouted(node: Node, w: World, mid: World, w': World, rows: seq<Row>, row: Row, outcome: nat -> Outcome)
    requires AllRouted(node, w, mid, rows, outcome) && Routed(node, mid, w', row, outcome(|rows|))
    ensures AllRouted(node, w, w', rows + [row], outcome)
  {
    hide AllRouted, Routed;
    if row.user in node.conns {
      OneMoreHere(node, w, mid, w', rows, row, outcome);
    } else if row.user in w.online {
      OneMoreAbroad(node, w, mid, w', rows, row, outcome);
    } else {
      OneMoreNowhere(node, w, mid, w', rows, row, outcome);
    }
  }

  lemma {:induction false} RouteAllExactly(node: Node, w: World, rows: seq<Row>, outcome: nat -> Outcome)
    requires forall i :: 0 <= i < |rows| ==> Reachable(node, w, rows[i].user)
    ensures AllRouted(node, w, RouteAll(node, w, rows, outcome), rows, outcome)
  {
    hide AllRouted, Routed, Route, Reachable;
    if rows == [] {
      NoneRouted(node, w, outcome);
    } else {
      var front, row := rows[..|rows| - 1], rows[|rows| - 1];
      assert rows == front + [row];
      var mid := RouteAll(node, w, front, outcome);
      RouteAllExactly(node, w, front, outcome);
      RouteAllBase(node, w, front, outcome);
      D.ReachableKept(node, w, mid, row.user);
      RouteExactly(node, mid, row, outcome(|front|));
      OneMoreRouted(node, w, mid, Route(node, mid, row, outcome(|front|)), front, row, outcome);
    }
  }

  /** A group chat: numbered and stamped, then every member row of another user, connected members first,
      goes where its reader is. */
  lemma GroupChatExactly(s: System, op: Op)
    requires Presence(s) && Enabled(s, op) && op.GroupChat?
    ensures var (l, msg) := D.Entered(s, op);
            && l.w == s.w.(log := l.w.log, accepted := s.w.accepted + [msg]) && l.node.conns == s.nodes[op.n].conns
            && AllRouted(l.node, l.w, Do(s, op).w, D.Rows(s, op, msg), op.outcomes)
  {
    var (l, msg) := D.Entered(s, op);
    D.ChatIsRouting(s, op);
    forall u ensures Reachable(l.node, l.w, u) { D.EnteredReaches(s, op, u); }
    hide D.Entered, Do, AllRouted, RouteAll, Presence, Reachable, D.Rows;
    RouteAllExactly(l.node, l.w, D.Rows(s, op, msg), op.outcomes);
  }

  lemma {:induction false} OthersAre(members: seq<int>, sender: int)
    ensures Others(members, sender) == Select(members, (i: nat, u: int) => u != sender)
  {
    if members != [] {
      OthersAre(members[..|members| - 1], sender);
    }
  }

  lemma {:induction false} HereAndElsewhereAre(ids: seq<int>, conns: map<int, nat>)
    ensures Here(ids, conns) == Select(ids, (i: nat, u: int) => u in conns)
    ensures Elsewhere(ids, conns) == Select(ids, (i: nat, u: int) => u !in conns)
  {
    if ids != [] {
      HereAndElsewhereAre(ids[..|ids| - 1], conns);
    }
  }

  /** Whose rows these are, in which order. */
  lemma GroupRowsExactly(s: System, op: Op, msg: Message)
    requires op.GroupChat? && op.n < |s.nodes|
    ensures var conns := s.nodes[op.n].conns;
            var ids := Select(op.members, (i: nat, u: int) => u != op.fromId);
            var order := Select(ids, (i: nat, u: int) => u in conns) + Select(ids, (i: nat, u: int) => u !in conns);
            var rows := D.Rows(s, op, msg);
            |rows| == |order| && forall i :: 0 <= i < |rows| ==> rows[i] == Row(order[i], msg)
  {
    OthersAre(op.members, op.fromId);
    HereAndElsewhereAre(Others(op.members, op.fromId), s.nodes[op.n].conns);
    hide Select, Others, Here, Elsewhere;
  }

  // ----- whose connection

  /** Every envelope of `later` that `earlier` does not have is on the connection that some node has for its
      reader. */
  ghost predicate WellAddressed(s: System, earlier: seq<Envelope>, later: seq<Envelope>) {
    && |earlier| <= |later| && later[..|earlier|] == earlier
    && forall i :: |earlier| <= i < |later| ==>
         exists n: nat :: Holds(s, n, later[i].row.user) && s.nodes[n].conns[later[i].row.user] == later[i].conn
  }

  /** Some place satisfies `p` for `row`. */
  ghost predicate Picked(p: (nat, Row) -> bool, row: Row) {
    exists j: nat :: p(j, row)
  }

  lemma {:induction false} SelectedHold(rows: seq<Row>, p: (nat, Row) -> bool)
    ensures forall r :: r in Select(rows, p) ==> Picked(p, r)
  {
    if rows != [] {
      var n: nat := |rows| - 1;
      SelectedHold(rows[..n], p);
      assert p(n, rows[n]) ==> Picked(p, rows[n]);
    }
  }

  lemma RoutedWell(s: System, n: nat, node: Node, w: World, w': World, rows: seq<Row>, outcome: nat -> Outcome)
    requires n < |s.nodes| && s.nodes[n].conns == node.conns && AllRouted(node, w, w', rows, outcome)
    ensures WellAddressed(s, w.mail, w'.mail)
  {
    var open := Select(rows, ToOpen(node, w));
    SelectedHold(rows, ToOpen(node, w));
    var added := Addressed(node, open);
    assert w'.mail == w.mail + added;
    forall i | |w.mail| <= i < |w'.mail|
      ensures exists n: nat ::
        Holds(s, n, w'.mail[i].row.user) && s.nodes[n].conns[w'.mail[i].row.user] == w'.mail[i].conn
    {
      assert w'.mail[i] == added[i - |w.mail|];
      var row := open[i - |w.mail|];
      assert row in open && Picked(ToOpen(node, w), row);
      assert Holds(s, n, row.user);
    }
  }

  lemma OneRoutedWell(s: System, n: nat, node: Node, w: World, w': World, row: Row, outcome: Outcome)
    requires n < |s.nodes| && s.nodes[n].conns == node.conns && Routed(node, w, w', row, outcome)
    ensures WellAddressed(s, w.mail, w'.mail)
  {
    assert row.user in node.conns ==> Holds(s, n, row.user);
  }

  lemma ChatKeepsConns(s: System, op: Op)
    requires Shaped(s) && Enabled(s, op) && (op.Chat? || op.GroupChat?)
    ensures |Do(s, op).nodes| == |s.nodes| && Do(s, op).nodes[op.n].conns == s.nodes[op.n].conns
  {
  }

  /** Whatever a chat puts on a connection is for the user whom the node holds on it. */
  lemma ChatWell(s: System, op: Op)
    requires Presence(s) && Enabled(s, op) && (op.Chat? || op.GroupChat?)
    ensures WellAddressed(Do(s, op), s.w.mail, Do(s, op).w.mail)
  {
    var (l, msg) := D.Entered(s, op);
    ChatKeepsConns(s, op);
    if op.GroupChat? {
      GroupChatExactly(s, op);
      hide D.Entered, Do, AllRouted, Presence, WellAddressed, D.Rows;
      RoutedWell(Do(s, op), op.n, l.node, l.w, Do(s, op).w, D.Rows(s, op, msg), op.outcomes);
    } else {
      ChatExactly(s, op);
      hide D.Entered, Do, Routed, Presence, WellAddressed;
      OneRoutedWell(Do(s, op), op.n, l.node, l.w, Do(s, op).w, Row(op.toId, msg), op.outcome);
    }
  }
}
