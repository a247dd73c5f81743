/** What one handler call does to its own node and to the database and Redis shared by all nodes. */
module Handlers {
  import opened Messages
  import opened Numbering
  import opened ConversationIds
  import OfflineSort

  /** A copy of a message for one recipient. */
  datatype Row = Row(user: int, msg: Message)

  /** A copy that Redis is about to hand to a subscribed node. */
  datatype Packet = Packet(node: nat, row: Row)

  /** A copy put on a connection. */
  datatype Envelope = Envelope(conn: nat, row: Row)

  /** One node: `_userConnMap` (user to connection) and its `redis` object. */
  datatype Node = Node(conns: map<int, nat>, client: Client)

  /** What all nodes share. `subs[n]` are the channels node `n` is subscribed to, `down` the closed
      connections. The last two lines are history: the numbers drawn, the messages accepted, the copies
      owed to recipients, pushed to a connection, handed over at login, lost, made twice because
      Redis executed a `PUBLISH` whose reply was lost, and all that was put on connections. */
  datatype World = World(
    users: map<string, int>, online: set<int>, subs: seq<set<int>>,
    flight: seq<Packet>, offline: seq<Row>, down: set<nat>,
    log: seq<Ticket>, accepted: seq<Message>, owed: seq<Row>,
    pushed: seq<Row>, batched: seq<Row>, lost: seq<Row>, doubled: seq<Row>, mail: seq<Envelope>)

  /** What comes back from `PUBLISH`. */
  datatype Outcome = Sent | Refused | RefusedAfterSending

  /** `sendWithHeader`: a closed connection swallows the message. */
  function Push(w: World, conn: nat, row: Row): World {
    if conn in w.down then w.(lost := w.lost + [row])
    else w.(pushed := w.pushed + [row], mail := w.mail + [Envelope(conn, row)])
  }

  function Envelopes(conn: nat, rows: seq<Row>): seq<Envelope> {
    seq(|rows|, i requires 0 <= i < |rows| => Envelope(conn, rows[i]))
  }

  function Store(w: World, row: Row): World {
    w.(offline := w.offline + [row])
  }

  /** One packet for every node subscribed to the recipient's channel. */
  function Copies(subs: seq<set<int>>, row: Row): seq<Packet> {
    if subs == [] then []
    else
      var n := |subs| - 1;
      Copies(subs[..n], row) + if row.user in subs[n] then [Packet(n, row)] else []
  }

  function Published(w: World, row: Row): World {
    var packets := Copies(w.subs, row);
    if packets == [] then w.(lost := w.lost + [row]) else w.(flight := w.flight + packets)
  }

  /** Forwarding to another node, with the offline store as fallback. */
  function Forward(w: World, row: Row, outcome: Outcome): World {
    match outcome
    case Sent => Published(w, row)
    case Refused => Store(w, row)
    case RefusedAfterSending => Store(Published(w, row), row).(doubled := w.doubled + [row])
  }

  /** The three delivery paths: this node's connection, another node, the offline store. */
  function Route(node: Node, w: World, row: Row, outcome: Outcome): World {
    var w1 := w.(owed := w.owed + [row]);
    if row.user in node.conns then Push(w1, node.conns[row.user], row)
    else if row.user in w.online then Forward(w1, row, outcome)
    else Store(w1, row)
  }

  function RouteAll(node: Node, w: World, rows: seq<Row>, outcome: nat -> Outcome): World {
    if rows == [] then w
    else
      var n := |rows| - 1;
      Route(node, RouteAll(node, w, rows[..n], outcome), rows[n], outcome(n))
  }

  function Stamp(m: Message, c: string, number: Word): Message {
    m.(convid := Some(c), number := Some(number))
  }

  /** A node, the Redis counters and the rest of the shared state. */
  datatype Local = Local(node: Node, counters: map<string, nat>, w: World)

  /** Drawing a number and stamping the message, the first thing both chat handlers do. */
  function Accepted(l: Local, n: nat, c: string, m: Message, reply: Reply): (Local, Message) {
    var d := Draw(l.node.client, l.counters, c, reply);
    var msg := Stamp(m, c, d.number);
    (Local(l.node.(client := d.client), d.counters,
           l.w.(log := l.w.log + [Ticket(n, c, d.number, d.source)], accepted := l.w.accepted + [msg])),
     msg)
  }

  /** `onechat`. */
  function ChatAt(l: Local, n: nat, fromId: int, toId: int, m: Message, reply: Reply, outcome: Outcome): Local {
    var (l1, msg) := Accepted(l, n, P2p(fromId, toId), m, reply);
    l1.(w := Route(l1.node, l1.w, Row(toId, msg), outcome))
  }

  /** The member rows of a group without the sender; a user may be listed more than once. */
  function Others(members: seq<int>, sender: int): seq<int> {
    if members == [] then []
    else
      var n := |members| - 1;
      Others(members[..n], sender) + if members[n] != sender then [members[n]] else []
  }

  function Here(ids: seq<int>, conns: map<int, nat>): seq<int> {
    if ids == [] then []
    else Here(ids[..|ids| - 1], conns) + if ids[|ids| - 1] in conns then [ids[|ids| - 1]] else []
  }

  function Elsewhere(ids: seq<int>, conns: map<int, nat>): seq<int> {
    if ids == [] then []
    else Elsewhere(ids[..|ids| - 1], conns) + if ids[|ids| - 1] in conns then [] else [ids[|ids| - 1]]
  }

  function RowsFor(ids: seq<int>, msg: Message): seq<Row> {
    seq(|ids|, i requires 0 <= i < |ids| => Row(ids[i], msg))
  }

  /** `groupchat`: connected members first, then the others; `outcome(i)` is the reply to the i-th copy. */
  function GroupChatAt(l: Local, n: nat, fromId: int, groupId: int, members: seq<int>, m: Message,
                       reply: Reply, outcome: nat -> Outcome): Local {
    var (l1, msg) := Accepted(l, n, Group(groupId), m, reply);
    var ids := Others(members, fromId);
    var rows := RowsFor(Here(ids, l1.node.conns) + Elsewhere(ids, l1.node.conns), msg);
    l1.(w := RouteAll(l1.node, l1.w, rows, outcome))
  }

  /** `handleredissubscribemessage`. */
  function ArriveAt(node: Node, w: World, row: Row): World {
    if row.user in node.conns then Push(w, node.conns[row.user], row) else Store(w, row)
  }

  /** The offline rows of one user, and the others. */
  function Mine(rows: seq<Row>, u: int): (r: seq<Row>)
    ensures forall i :: 0 <= i < |r| ==> r[i].user == u
  {
    if rows == [] then []
    else Mine(rows[..|rows| - 1], u) + if rows[|rows| - 1].user == u then [rows[|rows| - 1]] else []
  }

  function NotMine(rows: seq<Row>, u: int): seq<Row> {
    if rows == [] then []
    else NotMine(rows[..|rows| - 1], u) + if rows[|rows| - 1].user == u then [] else [rows[|rows| - 1]]
  }

  function ToStored(rows: seq<Row>): seq<OfflineSort.Stored> {
    seq(|rows|, i requires 0 <= i < |rows| => OfflineSort.Stored(rows[i].msg.text, Some(rows[i].msg)))
  }

  function FromStored(u: int, batch: seq<OfflineSort.Stored>): seq<Row> {
    seq(|batch|, i requires 0 <= i < |batch| =>
      Row(u, if batch[i].json.Some? then batch[i].json.value else Message(None, None, batch[i].text)))
  }

  /** The batch handed over at login: the user's offline rows, sorted. */
  function Batch(rows: seq<Row>, u: int): seq<Row> {
    FromStored(u, OfflineSort.Sorted(ToStored(Mine(rows, u))))
  }

  /** The id of a default-constructed `User`, which stands for "not found". */
  const NO_USER: int := -1

  /** `_userModel.query(u)` finds a row. */
  predicate Known(w: World, u: int) {
    u in w.users.Values && u != NO_USER
  }

  /** `login` with a name and the verdict on the password. */
  function LoginAt(node: Node, w: World, n: nat, conn: nat, name: string, passwordOk: bool): (Node, World)
    requires n < |w.subs|
  {
    if name !in w.users || w.users[name] == NO_USER || !passwordOk || w.users[name] in w.online then (node, w)
    else
      var u := w.users[name];
      var batch := Batch(w.offline, u);
      var w1 := w.(subs := w.subs[n := w.subs[n] + {u}], online := w.online + {u}, offline := NotMine(w.offline, u));
      (node.(conns := if u in node.conns then node.conns else node.conns[u := conn]),
       if conn in w.down then w1.(lost := w.lost + batch)
       else w1.(batched := w.batched + batch, mail := w.mail + Envelopes(conn, batch)))
  }

  /** `loginout`. */
  function LogoutAt(node: Node, w: World, n: nat, u: int): (Node, World)
    requires n < |w.subs|
  {
    (node.(conns := node.conns - {u}), w.(subs := w.subs[n := w.subs[n] - {u}], online := w.online - {u}))
  }

  /** `clientCloseException` for a connection that `u` is found on. */
  function CloseAt(node: Node, w: World, n: nat, u: int): (Node, World)
    requires n < |w.subs|
  {
    (node.(conns := node.conns - {u}),
     if u == NO_USER then w
     else w.(subs := w.subs[n := w.subs[n] - {u}], online := if Known(w, u) then w.online - {u} else w.online))
  }
}
