/** Any number of nodes sharing one database and one Redis: a transition system whose steps are whole
    handler calls. */
module Cluster {
  import opened Messages
  import opened Numbering
  import opened Handlers
  import ConversationIds

  datatype System = System(nodes: seq<Node>, counters: map<string, nat>, w: World)

  datatype Op =
    | Login(n: nat, conn: nat, name: string, passwordOk: bool)
    | Logout(n: nat, user: int)
    | Close(n: nat, conn: nat, user: int)
    | Chat(n: nat, fromId: int, toId: int, m: Message, reply: Reply, outcome: Outcome)
    | GroupChat(n: nat, fromId: int, groupId: int, members: seq<int>, m: Message, reply: Reply,
                outcomes: nat -> Outcome)
    | Arrive(i: nat, userid: int)
    | Drop(i: nat)
    | Disconnect(conn: nat)
    | Reset

  ghost predicate Shaped(s: System) {
    && |s.w.subs| == |s.nodes|
    && forall i :: 0 <= i < |s.w.flight| ==> s.w.flight[i].node < |s.nodes|
  }

  /** A step the environment can take: the node exists, a closing connection is looked up with its
      user, and a packet in flight is dropped or handled, for whatever user the handler is called with. */
  ghost predicate Enabled(s: System, op: Op) {
    match op
    case Login(n, conn, name, ok) => n < |s.nodes|
    case Logout(n, u) => n < |s.nodes|
    case Close(n, conn, u) => n < |s.nodes| && u in s.nodes[n].conns && s.nodes[n].conns[u] == conn
    case Chat(n, a, b, m, r, o) => n < |s.nodes|
    case GroupChat(n, a, g, ms, m, r, o) => n < |s.nodes|
    case Arrive(i, userid) => i < |s.w.flight|
    case Drop(i) => i < |s.w.flight|
    case Disconnect(conn) => true
    case Reset => true
  }

  function At(s: System, n: nat): Local
    requires n < |s.nodes|
  {
    Local(s.nodes[n], s.counters, s.w)
  }

  function Back(s: System, n: nat, l: Local): System
    requires n < |s.nodes|
  {
    System(s.nodes[n := l.node], l.counters, l.w)
  }

  function Without<T>(s: seq<T>, i: nat): seq<T>
    requires i < |s|
  {
    s[..i] + s[i + 1..]
  }

  ghost function Do(s: System, op: Op): System
    requires Shaped(s) && Enabled(s, op)
  {
    match op
    case Login(n, conn, name, ok) =>
      var (node, w) := LoginAt(s.nodes[n], s.w, n, conn, name, ok);
      Back(s, n, Local(node, s.counters, w))
    case Logout(n, u) =>
      var (node, w) := LogoutAt(s.nodes[n], s.w, n, u);
      Back(s, n, Local(node, s.counters, w))
    case Close(n, conn, u) =>
      var (node, w) := CloseAt(s.nodes[n], s.w, n, u);
      Back(s, n, Local(node, s.counters, w))
    case Chat(n, a, b, m, r, o) => Back(s, n, ChatAt(At(s, n), n, a, b, m, r, o))
    case GroupChat(n, a, g, ms, m, r, o) => Back(s, n, GroupChatAt(At(s, n), n, a, g, ms, m, r, o))
    case Arrive(i, userid) =>
      var p := s.w.flight[i];
      s.(w := ArriveAt(s.nodes[p.node], s.w.(flight := Without(s.w.flight, i)), Row(userid, p.row.msg)))
    case Drop(i) =>
      s.(w := s.w.(flight := Without(s.w.flight, i), lost := s.w.lost + [s.w.flight[i].row]))
    case Disconnect(conn) => s.(w := s.w.(down := s.w.down + {conn}))
    case Reset => s.(w := s.w.(online := {}))
  }

  // ----- presence

  ghost predicate Holds(s: System, n: nat, u: int) {
    n < |s.nodes| && u in s.nodes[n].conns
  }

  /** Each user is on at most one node, is online exactly when some node holds it, and each node
      subscribes to exactly the users it holds, all of them known. */
  ghost predicate Presence(s: System) {
    && Shaped(s)
    && (forall n :: 0 <= n < |s.nodes| ==> s.w.subs[n] == s.nodes[n].conns.Keys)
    && (forall n, n', u :: Holds(s, n, u) && Holds(s, n', u) ==> n == n')
    && (forall u :: u in s.w.online <==> exists n :: Holds(s, n, u))
    && (forall n, u :: Holds(s, n, u) ==> Known(s.w, u))
  }

  /** A logout request is for a user of this node, or of none; a packet is handled for the user whose
      channel it came on; everybody is marked offline only when nobody is connected. */
  ghost predicate Rightful(s: System, op: Op) {
    match op
    case Logout(n, u) => Holds(s, n, u) || forall k :: !Holds(s, k, u)
    case Arrive(i, userid) => i < |s.w.flight| ==> userid == s.w.flight[i].row.user
    case Reset => forall n, u :: !Holds(s, n, u)
    case _ => true
  }

  /** Presence only looks at connections, subscriptions, the user table and the online set. */
  lemma PresenceFrame(s: System, s': System)
    requires Presence(s) && Shaped(s')
    requires |s'.nodes| == |s.nodes| && forall n :: 0 <= n < |s.nodes| ==> s'.nodes[n].conns == s.nodes[n].conns
    requires s'.w.subs == s.w.subs && s'.w.online == s.w.online && s'.w.users == s.w.users
    ensures Presence(s')
  {
    assert forall n, u :: Holds(s', n, u) <==> Holds(s, n, u);
  }

  /** The parts of the world that chats leave alone. */
  ghost predicate SameBase(w: World, w': World) {
    w'.subs == w.subs && w'.online == w.online && w'.users == w.users && w'.down == w.down
  }

  lemma {:induction false} CopiesFacts(subs: seq<set<int>>, row: Row)
    ensures forall i :: 0 <= i < |Copies(subs, row)| ==>
              Copies(subs, row)[i].node < |subs| && Copies(subs, row)[i].row == row
  {
    if subs != [] {
      CopiesFacts(subs[..|subs| - 1], row);
    }
  }

  lemma RouteBase(node: Node, w: World, row: Row, outcome: Outcome)
    ensures SameBase(w, Route(node, w, row, outcome))
    ensures (forall i :: 0 <= i < |w.flight| ==> w.flight[i].node < |w.subs|) ==>
              forall i :: 0 <= i < |Route(node, w, row, outcome).flight| ==>
                Route(node, w, row, outcome).flight[i].node < |w.subs|
  {
    CopiesFacts(w.subs, row);
  }

  lemma {:induction false} RouteAllBase(node: Node, w: World, rows: seq<Row>, outcome: nat -> Outcome)
    ensures SameBase(w, RouteAll(node, w, rows, outcome))
    ensures (forall i :: 0 <= i < |w.flight| ==> w.flight[i].node < |w.subs|) ==>
              forall i :: 0 <= i < |RouteAll(node, w, rows, outcome).flight| ==>
                RouteAll(node, w, rows, outcome).flight[i].node < |w.subs|
  {
    if rows != [] {
      var n := |rows| - 1;
      RouteAllBase(node, w, rows[..n], outcome);
      RouteBase(node, RouteAll(node, w, rows[..n], outcome), rows[n], outcome(n));
      hide Route;
    }
  }

  /** Putting a known offline user on node `n`. */
  lemma NewHolder(s: System, s': System, n: nat, u: int)
    requires Presence(s) && Shaped(s') && n < |s.nodes| == |s'.nodes| && u !in s.w.online && Known(s.w, u)
    requires forall k :: 0 <= k < |s.nodes| && k != n ==> s'.nodes[k].conns == s.nodes[k].conns
    requires s'.nodes[n].conns.Keys == s.nodes[n].conns.Keys + {u}
    requires s'.w.subs == s.w.subs[n := s.w.subs[n] + {u}]
    requires s'.w.online == s.w.online + {u} && s'.w.users == s.w.users
    ensures Presence(s')
  {
    assert forall k, v :: Holds(s', k, v) <==> Holds(s, k, v) || (k == n && v == u);
    assert forall k :: !Holds(s, k, u);
    assert Holds(s', n, u);
  }

  lemma LoginRefused(s: System, n: nat, conn: nat, name: string, ok: bool)
    requires Shaped(s) && n < |s.nodes|
    requires name !in s.w.users || s.w.users[name] == NO_USER || !ok || s.w.users[name] in s.w.online
    ensures Do(s, Login(n, conn, name, ok)) == s
  {
    assert s.nodes[n := s.nodes[n]] == s.nodes;
  }

  lemma LoginGranted(s: System, n: nat, conn: nat, name: string, ok: bool)
    requires Shaped(s) && n < |s.nodes|
    requires name in s.w.users && s.w.users[name] != NO_USER && ok && s.w.users[name] !in s.w.online
    ensures var s', u := Do(s, Login(n, conn, name, ok)), s.w.users[name];
            && Shaped(s') && |s'.nodes| == |s.nodes|
            && (forall k :: 0 <= k < |s.nodes| && k != n ==> s'.nodes[k].conns == s.nodes[k].conns)
            && s'.nodes[n].conns.Keys == s.nodes[n].conns.Keys + {u}
            && s'.w.subs == s.w.subs[n := s.w.subs[n] + {u}]
            && s'.w.online == s.w.online + {u} && s'.w.users == s.w.users
  {
    hide Batch, NotMine;
  }

  lemma LoginKeepsPresence(s: System, n: nat, conn: nat, name: string, ok: bool)
    requires Presence(s) && n < |s.nodes|
    ensures Presence(Do(s, Login(n, conn, name, ok)))
  {
    assert Shaped(s);
    hide Presence;
    if name !in s.w.users || s.w.users[name] == NO_USER || !ok || s.w.users[name] in s.w.online {
      LoginRefused(s, n, conn, name, ok);
    } else {
      var u := s.w.users[name];
      assert Known(s.w, u) by { assert u in s.w.users.Values; }
      LoginGranted(s, n, conn, name, ok);
      hide Do, Known;
      NewHolder(s, Do(s, Login(n, conn, name, ok)), n, u);
    }
  }

  /** Logging out keeps the invariant exactly when the user is on this node or on none. */
  lemma LogoutKeepsPresenceExactly(s: System, n: nat, u: int)
    requires Presence(s) && n < |s.nodes|
    ensures Presence(Do(s, Logout(n, u))) <==> Rightful(s, Logout(n, u))
  {
    var s' := Do(s, Logout(n, u));
    assert forall k, v :: Holds(s', k, v) <==> Holds(s, k, v) && !(k == n && v == u);
    if Rightful(s, Logout(n, u)) {
      assert forall k :: !Holds(s', k, u);
    } else {
      var k :| Holds(s, k, u) && k != n;
      assert Holds(s', k, u) && u !in s'.w.online;
    }
  }

  lemma CloseKeepsPresence(s: System, n: nat, conn: nat, u: int)
    requires Presence(s) && Enabled(s, Close(n, conn, u))
    ensures Presence(Do(s, Close(n, conn, u)))
  {
    var s' := Do(s, Close(n, conn, u));
    assert Holds(s, n, u);
    assert forall k, v :: Holds(s', k, v) <==> Holds(s, k, v) && !(k == n && v == u);
  }

  lemma ChatKeepsPresence(s: System, op: Op)
    requires Presence(s) && Enabled(s, op) && (op.Chat? || op.GroupChat?)
    ensures Presence(Do(s, op))
  {
    var l := At(s, op.n);
    if op.Chat? {
      var (l1, msg) := Accepted(l, op.n, ConversationIds.P2p(op.fromId, op.toId), op.m, op.reply);
      RouteBase(l1.node, l1.w, Row(op.toId, msg), op.outcome);
    } else {
      var (l1, msg) := Accepted(l, op.n, ConversationIds.Group(op.groupId), op.m, op.reply);
      var ids := Others(op.members, op.fromId);
      RouteAllBase(l1.node, l1.w, RowsFor(Here(ids, l1.node.conns) + Elsewhere(ids, l1.node.conns), msg), op.outcomes);
    }
    hide Route, RouteAll, Draw, Copies;
    PresenceFrame(s, Do(s, op));
  }

  /** `reset` marks everybody offline without touching the nodes: it keeps the invariant exactly when
      no node holds anybody. */
  lemma ResetKeepsPresenceExactly(s: System)
    requires Presence(s)
    ensures Presence(Do(s, Reset)) <==> Rightful(s, Reset)
  {
    var s' := Do(s, Reset);
    assert forall n, u :: Holds(s', n, u) <==> Holds(s, n, u);
    if n, u :| Holds(s, n, u) {
      assert Holds(s', n, u) && u !in s'.w.online;
    }
  }

  lemma FlightKeepsPresence(s: System, op: Op)
    requires Presence(s) && Enabled(s, op) && (op.Arrive? || op.Drop? || op.Disconnect?)
    ensures Presence(Do(s, op))
  {
    assert Shaped(s);
    hide Presence;
    PresenceFrame(s, Do(s, op));
  }

  /** Presence is kept by every step that is rightful. */
  lemma DoKeepsPresence(s: System, op: Op)
    requires Presence(s) && Enabled(s, op) && Rightful(s, op)
    ensures Presence(Do(s, op))
  {
    hide Do, Presence;
    match op
    case Login(n, conn, name, ok) => LoginKeepsPresence(s, n, conn, name, ok);
    case Logout(n, u) => LogoutKeepsPresenceExactly(s, n, u);
    case Close(n, conn, u) => CloseKeepsPresence(s, n, conn, u);
    case Chat(n, a, b, m, r, o) => ChatKeepsPresence(s, op);
    case GroupChat(n, a, g, ms, m, r, o) => ChatKeepsPresence(s, op);
    case Arrive(i, userid) => FlightKeepsPresence(s, op);
    case Drop(i) => FlightKeepsPresence(s, op);
    case Disconnect(conn) => FlightKeepsPresence(s, op);
    case Reset => ResetKeepsPresenceExactly(s);
  }
}
