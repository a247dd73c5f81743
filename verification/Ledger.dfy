/** Conservation of message copies over whole runs of the cluster. */
module Ledger {
  import opened Messages
  import opened Numbering
  import opened Handlers
  import opened Cluster
  import OfflineSort
  import ConversationIds

  function InFlight(flight: seq<Packet>): seq<Row> {
    seq(|flight|, i requires 0 <= i < |flight| => flight[i].row)
  }

  /** Counted with multiplicity, the copies owed to recipients, plus those made twice, are the copies
      pushed to a connection, in flight, stored offline, handed over at login, or lost. */
  ghost predicate Balanced(w: World) {
    multiset(w.owed) + multiset(w.doubled) ==
    multiset(w.pushed) + multiset(InFlight(w.flight)) + multiset(w.offline) + multiset(w.batched) + multiset(w.lost)
  }

  lemma Snoc<T>(s: seq<T>, x: T)
    ensures multiset(s + [x]) == multiset(s) + multiset{x}
  {
  }

  lemma Append<T>(a: seq<T>, b: seq<T>)
    ensures multiset(a + b) == multiset(a) + multiset(b)
  {
  }

  lemma InFlightSnoc(flight: seq<Packet>, p: Packet)
    ensures multiset(InFlight(flight + [p])) == multiset(InFlight(flight)) + multiset{p.row}
  {
    assert InFlight(flight + [p]) == InFlight(flight) + [p.row];
    Snoc(InFlight(flight), p.row);
  }

  lemma InFlightWithout(flight: seq<Packet>, i: nat)
    requires i < |flight|
    ensures multiset(InFlight(flight)) == multiset(InFlight(Without(flight, i))) + multiset{flight[i].row}
  {
    var a, b := InFlight(flight[..i]), InFlight(flight[i + 1..]);
    assert InFlight(flight) == a + [flight[i].row] + b;
    assert InFlight(Without(flight, i)) == a + b;
  }

  // ----- publishing

  lemma {:induction false} NoCopy(subs: seq<set<int>>, row: Row)
    requires forall j :: 0 <= j < |subs| ==> row.user !in subs[j]
    ensures Copies(subs, row) == []
  {
    if subs != [] {
      NoCopy(subs[..|subs| - 1], row);
    }
  }

  lemma {:induction false} OneCopy(subs: seq<set<int>>, row: Row, k: nat)
    requires k < |subs| && row.user in subs[k]
    requires forall j :: 0 <= j < |subs| && j != k ==> row.user !in subs[j]
    ensures Copies(subs, row) == [Packet(k, row)]
  {
    var n := |subs| - 1;
    if k == n {
      NoCopy(subs[..n], row);
    } else {
      OneCopy(subs[..n], row, k);
    }
  }

  ghost predicate OnlyHolder(subs: seq<set<int>>, u: int, k: nat) {
    k < |subs| && u in subs[k] && forall j :: 0 <= j < |subs| && j != k ==> u !in subs[j]
  }

  ghost predicate HeldByOne(subs: seq<set<int>>, u: int) {
    exists k: nat :: OnlyHolder(subs, u, k)
  }

  /** Exactly one node subscribes to the channel of a user who is online elsewhere. */
  ghost predicate Reachable(node: Node, w: World, u: int) {
    u !in node.conns && u in w.online ==> HeldByOne(w.subs, u)
  }

  lemma PresenceReaches(s: System, n: nat, u: int)
    requires Presence(s) && n < |s.nodes|
    ensures Reachable(s.nodes[n], s.w, u)
  {
    if u in s.w.online {
      var k: nat :| Holds(s, k, u);
      assert u in s.w.subs[k];
      forall j | 0 <= j < |s.w.subs| && j != k ensures u !in s.w.subs[j] {
        assert !Holds(s, j, u);
      }
      assert OnlyHolder(s.w.subs, u, k);
    }
  }

  lemma PublishedOne(w: World, row: Row)
    requires HeldByOne(w.subs, row.user)
    ensures exists k :: Published(w, row) == w.(flight := w.flight + [Packet(k, row)])
  {
    var k :| OnlyHolder(w.subs, row.user, k);
    OneCopy(w.subs, row, k);
  }

  /** The four places and the debt, as bags. */
  lemma Bags(owed: multiset<Row>, doubled: multiset<Row>, pushed: multiset<Row>, flight: multiset<Row>,
             offline: multiset<Row>, batched: multiset<Row>, lost: multiset<Row>, x: multiset<Row>)
    requires owed + doubled == pushed + flight + offline + batched + lost
    ensures (owed + x) + doubled == (pushed + x) + flight + offline + batched + lost
    ensures (owed + x) + doubled == pushed + (flight + x) + offline + batched + lost
    ensures (owed + x) + doubled == pushed + flight + (offline + x) + batched + lost
    ensures (owed + x) + doubled == pushed + flight + offline + batched + (lost + x)
    ensures (owed + x) + (doubled + x) == pushed + (flight + x) + (offline + x) + batched + lost
  {
    var all := pushed + flight + offline + batched + lost;
    assert (owed + x) + doubled == all + x;
    assert (owed + x) + (doubled + x) == all + x + x;
  }

  lemma RouteBalances(node: Node, w: World, row: Row, outcome: Outcome)
    requires Balanced(w) && Reachable(node, w, row.user)
    ensures Balanced(Route(node, w, row, outcome))
  {
    Bags(multiset(w.owed), multiset(w.doubled), multiset(w.pushed), multiset(InFlight(w.flight)),
         multiset(w.offline), multiset(w.batched), multiset(w.lost), multiset{row});
    Snoc(w.owed, row); Snoc(w.doubled, row); Snoc(w.pushed, row); Snoc(w.offline, row); Snoc(w.lost, row);
    if row.user !in node.conns && row.user in w.online {
      var w1 := w.(owed := w.owed + [row]);
      PublishedOne(w1, row);
      var k :| Published(w1, row) == w1.(flight := w1.flight + [Packet(k, row)]);
      InFlightSnoc(w.flight, Packet(k, row));
    }
    hide InFlight, Copies;
  }

  lemma {:induction false} RouteAllBalances(node: Node, w: World, rows: seq<Row>, outcome: nat -> Outcome)
    requires Balanced(w) && forall i :: 0 <= i < |rows| ==> Reachable(node, w, rows[i].user)
    ensures Balanced(RouteAll(node, w, rows, outcome))
  {
    if rows != [] {
      var n := |rows| - 1;
      RouteAllBalances(node, w, rows[..n], outcome);
      RouteAllBase(node, w, rows[..n], outcome);
      RouteBalances(node, RouteAll(node, w, rows[..n], outcome), rows[n], outcome(n));
      hide Route, Balanced;
    }
  }

  // ----- the login batch

  lemma {:induction false} MineAndNotMine(rows: seq<Row>, u: int)
    ensures multiset(rows) == multiset(Mine(rows, u)) + multiset(NotMine(rows, u))
  {
    if rows != [] {
      var n := |rows| - 1;
      assert rows == rows[..n] + [rows[n]];
      MineAndNotMine(rows[..n], u);
    }
  }

  lemma RemoveAt<T>(b: seq<T>, i: nat)
    requires i < |b|
    ensures multiset(b) == multiset(Without(b, i)) + multiset{b[i]}
  {
    assert b == b[..i] + [b[i]] + b[i + 1..];
  }

  lemma RemoveAtFromStored(u: int, b: seq<OfflineSort.Stored>, i: nat)
    requires i < |b|
    ensures multiset(FromStored(u, b)) ==
            multiset(FromStored(u, Without(b, i))) + multiset(FromStored(u, [b[i]]))
  {
    var rows := FromStored(u, b);
    RemoveAt(rows, i);
    assert FromStored(u, Without(b, i)) == Without(rows, i);
    assert FromStored(u, [b[i]]) == [rows[i]];
  }

  lemma Cancel<T>(a: multiset<T>, b: multiset<T>, x: T)
    requires a + multiset{x} == b + multiset{x}
    ensures a == b
  {
    assert a + multiset{x} - multiset{x} == a;
    assert b + multiset{x} - multiset{x} == b;
  }

  /** Equal bags of stored messages are equal bags of rows. */
  lemma {:induction false} FromStoredBag(u: int, a: seq<OfflineSort.Stored>, b: seq<OfflineSort.Stored>)
    requires multiset(a) == multiset(b)
    ensures multiset(FromStored(u, a)) == multiset(FromStored(u, b))
  {
    if a == [] {
      assert |multiset(b)| == 0;
      assert b == [];
    } else {
      assert a[0] in multiset(b);
      var i :| 0 <= i < |b| && b[i] == a[0];
      RemoveAt(a, 0);
      RemoveAt(b, i);
      Cancel(multiset(Without(a, 0)), multiset(Without(b, i)), a[0]);
      FromStoredBag(u, Without(a, 0), Without(b, i));
      RemoveAtFromStored(u, a, 0);
      RemoveAtFromStored(u, b, i);
      hide FromStored, Without;
    }
  }

  /** Sorting a login batch neither adds, drops nor changes a message. */
  lemma BatchIsMine(rows: seq<Row>, u: int)
    ensures multiset(Batch(rows, u)) == multiset(Mine(rows, u))
  {
    var mine := Mine(rows, u);
    OfflineSort.SortedIsPermutation(ToStored(mine));
    FromStoredBag(u, OfflineSort.Sorted(ToStored(mine)), ToStored(mine));
    assert FromStored(u, ToStored(mine)) == mine;
  }

  lemma LoginBalances(node: Node, w: World, n: nat, conn: nat, name: string, ok: bool)
    requires Balanced(w) && n < |w.subs|
    ensures Balanced(LoginAt(node, w, n, conn, name, ok).1)
  {
    if name in w.users {
      var u := w.users[name];
      MineAndNotMine(w.offline, u);
      BatchIsMine(w.offline, u);
      Append(w.batched, Batch(w.offline, u));
      Append(w.lost, Batch(w.offline, u));
      MoveBag(multiset(w.owed) + multiset(w.doubled), multiset(w.pushed), multiset(InFlight(w.flight)),
              multiset(w.offline), multiset(NotMine(w.offline, u)), multiset(Batch(w.offline, u)),
              multiset(w.batched), multiset(w.lost));
      hide InFlight, Batch, Mine, NotMine;
    }
  }

  lemma MoveBag(debt: multiset<Row>, pushed: multiset<Row>, flight: multiset<Row>, offline: multiset<Row>,
                rest: multiset<Row>, x: multiset<Row>, batched: multiset<Row>, lost: multiset<Row>)
    requires debt == pushed + flight + offline + batched + lost && offline == x + rest
    ensures debt == pushed + flight + rest + (batched + x) + lost
    ensures debt == pushed + flight + rest + batched + (lost + x)
  {
  }

  lemma ArriveBalances(node: Node, w: World, i: nat)
    requires Balanced(w) && i < |w.flight|
    ensures Balanced(ArriveAt(node, w.(flight := Without(w.flight, i)), w.flight[i].row))
    ensures Balanced(w.(flight := Without(w.flight, i), lost := w.lost + [w.flight[i].row]))
  {
    var row := w.flight[i].row;
    InFlightWithout(w.flight, i);
    Snoc(w.pushed, row); Snoc(w.offline, row); Snoc(w.lost, row);
    LandBag(multiset(w.owed) + multiset(w.doubled), multiset(w.pushed), multiset(InFlight(w.flight)),
            multiset(InFlight(Without(w.flight, i))), multiset{row}, multiset(w.offline),
            multiset(w.batched), multiset(w.lost));
    hide InFlight, Without;
  }

  lemma LandBag(debt: multiset<Row>, pushed: multiset<Row>, flight: multiset<Row>, rest: multiset<Row>,
                x: multiset<Row>,
                offline: multiset<Row>, batched: multiset<Row>, lost: multiset<Row>)
    requires debt == pushed + flight + offline + batched + lost && flight == rest + x
    ensures debt == (pushed + x) + rest + offline + batched + lost
    ensures debt == pushed + rest + (offline + x) + batched + lost
    ensures debt == pushed + rest + offline + batched + (lost + x)
  {
  }

  lemma WrongUserUnbalances(node: Node, w: World, i: nat, userid: int)
    requires Balanced(w) && i < |w.flight| && userid != w.flight[i].row.user
    ensures !Balanced(ArriveAt(node, w.(flight := Without(w.flight, i)), Row(userid, w.flight[i].row.msg)))
  {
    var row := w.flight[i].row;
    InFlightWithout(w.flight, i);
    Snoc(w.pushed, Row(userid, row.msg));
    Snoc(w.offline, Row(userid, row.msg));
    Snoc(w.lost, Row(userid, row.msg));
    OneShort(multiset(w.owed) + multiset(w.doubled), multiset(w.pushed), multiset(InFlight(w.flight)),
             multiset(InFlight(Without(w.flight, i))), row, Row(userid, row.msg),
             multiset(w.offline), multiset(w.batched), multiset(w.lost));
    hide InFlight, Without;
  }

  /** A packet keeps the books balanced exactly when the handler is called with the user whose channel
      it came on. */
  lemma ArrivalNeedsItsUserExactly(s: System, i: nat, userid: int)
    requires Shaped(s) && Balanced(s.w) && i < |s.w.flight|
    ensures Balanced(Do(s, Arrive(i, userid)).w) <==> userid == s.w.flight[i].row.user
  {
    hide Balanced, ArriveAt, Without;
    var node := s.nodes[s.w.flight[i].node];
    if userid == s.w.flight[i].row.user {
      ArriveBalances(node, s.w, i);
    } else {
      WrongUserUnbalances(node, s.w, i, userid);
    }
  }

  lemma OneShort(debt: multiset<Row>, pushed: multiset<Row>, flight: multiset<Row>, rest: multiset<Row>, x: Row, y: Row,
                 offline: multiset<Row>, batched: multiset<Row>, lost: multiset<Row>)
    requires debt == pushed + flight + offline + batched + lost && flight == rest + multiset{x} && x != y
    ensures debt != (pushed + multiset{y}) + rest + offline + batched + lost
    ensures debt != pushed + rest + (offline + multiset{y}) + batched + lost
    ensures debt != pushed + rest + offline + batched + (lost + multiset{y})
  {
    var left := pushed[x] + rest[x] + offline[x] + batched[x] + lost[x];
    assert debt[x] == left + 1;
    assert ((pushed + multiset{y}) + rest + offline + batched + lost)[x] == left;
    assert (pushed + rest + (offline + multiset{y}) + batched + lost)[x] == left;
    assert (pushed + rest + offline + batched + (lost + multiset{y}))[x] == left;
  }

  lemma ChatBalances(s: System, op: Op)
    requires Presence(s) && Balanced(s.w) && Enabled(s, op) && (op.Chat? || op.GroupChat?)
    ensures Balanced(Do(s, op).w)
  {
    var l := At(s, op.n);
    forall u ensures Reachable(l.node, l.w, u) { PresenceReaches(s, op.n, u); }
    if op.Chat? {
      var (l1, msg) := Accepted(l, op.n, ConversationIds.P2p(op.fromId, op.toId), op.m, op.reply);
      assert forall u :: Reachable(l.node, l.w, u) ==> Reachable(l1.node, l1.w, u);
      hide Reachable;
      RouteBalances(l1.node, l1.w, Row(op.toId, msg), op.outcome);
    } else {
      var (l1, msg) := Accepted(l, op.n, ConversationIds.Group(op.groupId), op.m, op.reply);
      assert forall u :: Reachable(l.node, l.w, u) ==> Reachable(l1.node, l1.w, u);
      hide Reachable;
      var ids := Others(op.members, op.fromId);
      RouteAllBalances(l1.node, l1.w, RowsFor(Here(ids, l1.node.conns) + Elsewhere(ids, l1.node.conns), msg),
                       op.outcomes);
    }
  }

  /** Every rightful step keeps the books balanced. */
  lemma DoBalances(s: System, op: Op)
    requires Presence(s) && Balanced(s.w) && Enabled(s, op) && Rightful(s, op)
    ensures Balanced(Do(s, op).w)
  {
    match op
    case Login(n, conn, name, ok) => LoginBalances(s.nodes[n], s.w, n, conn, name, ok);
    case Chat(n, a, b, m, r, o) => ChatBalances(s, op);
    case GroupChat(n, a, g, ms, m, r, o) => ChatBalances(s, op);
    case Arrive(i, userid) => ArriveBalances(s.nodes[s.w.flight[i].node], s.w, i);
    case Drop(i) => ArriveBalances(s.nodes[s.w.flight[i].node], s.w, i);
    case _ =>
  }
}
