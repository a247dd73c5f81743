/** The handlers of one node, changing its connection table and the shared state step by step. */
module ChatServices {
  import opened Messages
  import opened Numbering
  import opened Handlers
  import opened ConversationIds
  import OfflineSort
  import RedisClients

  /** The database, the Redis channels and the connections, seen through the calls the handlers make. */
  class Backend {
    var world: World

    constructor (world: World)
      ensures this.world == world
    {
      this.world := world;
    }

    /** `ChatServer::sendWithHeader` with one copy of a message. */
    method Send(conn: nat, row: Row)
      modifies this
      ensures world == Push(old(world), conn, row)
    {
      if conn in world.down {
        world := world.(lost := world.lost + [row]);
      } else {
        world := world.(pushed := world.pushed + [row], mail := world.mail + [Envelope(conn, row)]);
      }
    }

    /** The login response with the offline batch. */
    method SendBatch(conn: nat, batch: seq<Row>)
      modifies this
      ensures world == if conn in old(world.down) then old(world).(lost := old(world.lost) + batch)
                       else old(world).(batched := old(world.batched) + batch,
                                        mail := old(world.mail) + Envelopes(conn, batch))
    {
      if conn in world.down {
        world := world.(lost := world.lost + batch);
      } else {
        world := world.(batched := world.batched + batch, mail := world.mail + Envelopes(conn, batch));
      }
    }

    /** `redis::publish`; `outcome` says whether the reply came back. */
    method Publish(row: Row, outcome: Outcome) returns (ok: bool)
      modifies this
      ensures ok == outcome.Sent?
      ensures world == match outcome
                       case Sent => Published(old(world), row)
                       case Refused => old(world)
                       case RefusedAfterSending => Published(old(world), row).(doubled := old(world.doubled) + [row])
    {
      ok := outcome.Sent?;
      if !outcome.Refused? {
        world := Published(world, row);
      }
      if outcome.RefusedAfterSending? {
        world := world.(doubled := world.doubled + [row]);
      }
    }

    method InsertOffline(row: Row)
      modifies this
      ensures world == Store(old(world), row)
    {
      world := world.(offline := world.offline + [row]);
    }

    /** History: a recipient row of an accepted chat. */
    method Owe(row: Row)
      modifies this
      ensures world == old(world).(owed := old(world.owed) + [row])
    {
      world := world.(owed := world.owed + [row]);
    }

    /** History: an accepted message with the ticket of its number. */
    method Accept(t: Ticket, msg: Message)
      modifies this
      ensures world == old(world).(log := old(world.log) + [t], accepted := old(world.accepted) + [msg])
    {
      world := world.(log := world.log + [t], accepted := world.accepted + [msg]);
    }
  }

  lemma {:induction false} NothingMine(rows: seq<Row>, u: int)
    ensures Mine(rows, u) == [] ==> NotMine(rows, u) == rows
  {
    if rows != [] {
      NothingMine(rows[..|rows| - 1], u);
      assert rows == rows[..|rows| - 1] + [rows[|rows| - 1]];
    }
  }

  lemma RouteAllSnoc(node: Node, w: World, rows: seq<Row>, i: nat, outcome: nat -> Outcome)
    requires i < |rows|
    ensures RouteAll(node, w, rows[..i + 1], outcome) ==
            Route(node, RouteAll(node, w, rows[..i], outcome), rows[i], outcome(i))
  {
    hide Route;
    assert rows[..i + 1][..i] == rows[..i];
  }

  lemma RowsForConcat(here: seq<int>, remote: seq<int>, msg: Message)
    ensures |RowsFor(here + remote, msg)| == |here| + |remote|
    ensures RowsFor(here + remote, msg)[..|here|] == RowsFor(here, msg)
    ensures forall i :: 0 <= i < |remote| ==> RowsFor(here + remote, msg)[|here| + i] == Row(remote[i], msg)
  {
  }

  lemma Member<T>(xs: set<T>) returns (x: T)
    requires xs != {}
    ensures x in xs
  {
    x :| x in xs;
  }

  lemma SortedNothing()
    ensures OfflineSort.Sorted([]) == []
  {
  }

  class ChatService {
    const index: nat
    const backend: Backend
    const server: RedisClients.RedisServer
    const redis: RedisClients.Redis
    var userConnMap: map<int, nat>

    ghost function View(): Node
      reads this, redis
    {
      Node(userConnMap, redis.View())
    }

    /** This node, the counters and the shared state. */
    ghost function State(): Local
      reads this, redis, server, backend
    {
      Local(View(), server.counters, backend.world)
    }

    constructor (index: nat, backend: Backend, server: RedisClients.RedisServer, redis: RedisClients.Redis)
      ensures this.index == index && this.backend == backend && this.server == server && this.redis == redis
      ensures userConnMap == map[]
    {
      this.index, this.backend, this.server, this.redis := index, backend, server, redis;
      userConnMap := map[];
    }

    /** `login`. */
    method Login(conn: nat, name: string, passwordOk: bool)
      requires index < |backend.world.subs|
      modifies this, backend
      ensures (View(), backend.world) == LoginAt(old(View()), old(backend.world), index, conn, name, passwordOk)
    {
      var id := if name in backend.world.users then backend.world.users[name] else NO_USER;
      if id == NO_USER || !passwordOk {
        return;
      }
      if id in backend.world.online {
        return;
      }
      if id !in userConnMap {
        userConnMap := userConnMap[id := conn];
      }
      var w := backend.world;
      backend.world := w.(subs := w.subs[index := w.subs[index] + {id}]);
      backend.world := backend.world.(online := backend.world.online + {id});
      var rows := Mine(backend.world.offline, id);
      var batch: seq<Row> := [];
      NothingMine(w.offline, id);
      SortedNothing();
      if rows != [] {
        var vec := new OfflineSort.Stored[|rows|](i requires 0 <= i < |rows| =>
          OfflineSort.Stored(rows[i].msg.text, Some(rows[i].msg)));
        assert vec[..] == ToStored(rows);
        OfflineSort.SortOfflineMessages(vec);
        batch := FromStored(id, vec[..]);
        backend.world := backend.world.(offline := NotMine(backend.world.offline, id));
      } else {
        assert ToStored(rows) == [] && FromStored(id, []) == [];
      }
      assert batch == Batch(w.offline, id);
      backend.SendBatch(conn, batch);
    }

    /** `loginout`. */
    method Loginout(user: int)
      requires index < |backend.world.subs|
      modifies this, backend
      ensures (View(), backend.world) == LogoutAt(old(View()), old(backend.world), index, user)
    {
      assert user !in userConnMap ==> userConnMap - {user} == userConnMap;
      if user in userConnMap {
        userConnMap := userConnMap - {user};
      }
      var w := backend.world;
      backend.world := w.(subs := w.subs[index := w.subs[index] - {user}]);
      backend.world := backend.world.(online := backend.world.online - {user});
    }

    /** `clientCloseException`: looks for a user on the closed connection. */
    method ClientCloseException(conn: nat)
      requires index < |backend.world.subs|
      modifies this, backend
      ensures if exists u :: u in old(userConnMap) && old(userConnMap)[u] == conn then
                exists u :: u in old(userConnMap) && old(userConnMap)[u] == conn &&
                  (View(), backend.world) == CloseAt(old(View()), old(backend.world), index, u)
              else View() == old(View()) && backend.world == old(backend.world)
    {
      var user := NO_USER;
      var found := false;
      var todo := userConnMap.Keys;
      while todo != {}
        invariant todo <= userConnMap.Keys && userConnMap == old(userConnMap) && !found
        invariant backend.world == old(backend.world) && redis.View() == old(redis.View())
        invariant forall u :: u in userConnMap && userConnMap[u] == conn ==> u in todo
      {
        ghost var some := Member(todo);
        var u :| u in todo;
        todo := todo - {u};
        if userConnMap[u] == conn {
          user, found := u, true;
          userConnMap := userConnMap - {u};
          break;
        }
      }
      if user == NO_USER {
        return;
      }
      var w := backend.world;
      if Known(w, user) {
        backend.world := backend.world.(online := w.online - {user});
      }
      backend.world := backend.world.(subs := w.subs[index := w.subs[index] - {user}]);
    }

    /** `onechat`. */
    method Onechat(fromId: int, toId: int, m: Message, reply: Reply, outcome: Outcome)
      modifies this, backend, server, redis
      ensures State() == ChatAt(old(State()), index, fromId, toId, m, reply, outcome)
    {
      var convId := P2p(fromId, toId);
      var number, source := redis.IncrSeq(server, convId, reply);
      var msg := m.(convid := Some(convId), number := Some(number));
      backend.Accept(Ticket(index, convId, number, source), msg);
      var row := Row(toId, msg);
      backend.Owe(row);
      if toId in userConnMap {
        backend.Send(userConnMap[toId], row);
        return;
      }
      if toId in backend.world.online {
        var ok := backend.Publish(row, outcome);
        if !ok {
          backend.InsertOffline(row);
        }
        return;
      }
      backend.InsertOffline(row);
    }

    /** `groupchat`: partitions the other members, then pushes, then forwards or stores. */
    method Groupchat(fromId: int, groupId: int, members: seq<int>, m: Message, reply: Reply, outcome: nat -> Outcome)
      modifies this, backend, server, redis
      ensures State() == GroupChatAt(old(State()), index, fromId, groupId, members, m, reply, outcome)
    {
      var convId := Group(groupId);
      var number, source := redis.IncrSeq(server, convId, reply);
      var msg := m.(convid := Some(convId), number := Some(number));
      backend.Accept(Ticket(index, convId, number, source), msg);
      var ids := Others(members, fromId);
      var here, localConns, remote := Partition(ids);
      ghost var w1 := backend.world;
      PushAll(here, localConns, msg, outcome);
      ForwardAll(here, remote, |here|, msg, outcome, w1);
    }

    /** The loop of `groupchat` that looks the members up. */
    method Partition(ids: seq<int>) returns (here: seq<int>, localConns: seq<nat>, remote: seq<int>)
      ensures here == Here(ids, userConnMap) && remote == Elsewhere(ids, userConnMap)
      ensures |localConns| == |here| && forall k :: 0 <= k < |remote| ==> remote[k] !in userConnMap
      ensures forall k :: 0 <= k < |here| ==> here[k] in userConnMap && localConns[k] == userConnMap[here[k]]
    {
      here, localConns, remote := [], [], [];
      for i := 0 to |ids|
        invariant here == Here(ids[..i], userConnMap) && remote == Elsewhere(ids[..i], userConnMap)
        invariant |localConns| == |here| && forall k :: 0 <= k < |remote| ==> remote[k] !in userConnMap
        invariant forall k :: 0 <= k < |here| ==> here[k] in userConnMap && localConns[k] == userConnMap[here[k]]
      {
        assert ids[..i + 1][..i] == ids[..i];
        if ids[i] in userConnMap {
          here, localConns := here + [ids[i]], localConns + [userConnMap[ids[i]]];
        } else {
          remote := remote + [ids[i]];
        }
      }
      assert ids[..|ids|] == ids;
    }

    /** The loop of `groupchat` over connected members. */
    method PushAll(here: seq<int>, localConns: seq<nat>, msg: Message, ghost outcome: nat -> Outcome)
      requires |localConns| == |here|
      requires forall k :: 0 <= k < |here| ==> here[k] in userConnMap && localConns[k] == userConnMap[here[k]]
      modifies backend
      ensures backend.world == RouteAll(View(), old(backend.world), RowsFor(here, msg), outcome)
    {
      ghost var rows := RowsFor(here, msg);
      for i := 0 to |here|
        invariant backend.world == RouteAll(View(), old(backend.world), rows[..i], outcome)
      {
        var row := Row(here[i], msg);
        RouteAllSnoc(View(), old(backend.world), rows, i, outcome);
        backend.Owe(row);
        backend.Send(localConns[i], row);
      }
      assert rows[..|here|] == rows;
    }

    /** One member who is not connected here. */
    method ForwardOne(row: Row, outcome: Outcome)
      requires row.user !in userConnMap
      modifies backend
      ensures backend.world == Route(View(), old(backend.world), row, outcome)
    {
      backend.Owe(row);
      if row.user in backend.world.online {
        var ok := backend.Publish(row, outcome);
        if !ok {
          backend.InsertOffline(row);
        }
      } else {
        backend.InsertOffline(row);
      }
    }

    /** The loop of `groupchat` over the other members. */
    method ForwardAll(ghost here: seq<int>, remote: seq<int>, h: nat, msg: Message, outcome: nat -> Outcome,
                      ghost w0: World)
      requires h == |here| && forall k :: 0 <= k < |remote| ==> remote[k] !in userConnMap
      requires backend.world == RouteAll(View(), w0, RowsFor(here, msg), outcome)
      modifies backend
      ensures backend.world == RouteAll(View(), w0, RowsFor(here + remote, msg), outcome)
    {
      ghost var rows := RowsFor(here + remote, msg);
      ghost var node := View();
      RowsForConcat(here, remote, msg);
      hide Route, RouteAll, RowsFor;
      for i := 0 to |remote|
        invariant View() == node && backend.world == RouteAll(node, w0, rows[..h + i], outcome)
      {
        RouteAllSnoc(node, w0, rows, h + i, outcome);
        ForwardOne(Row(remote[i], msg), outcome(h + i));
      }
      assert h + |remote| == |rows| && rows[..|rows|] == rows;
    }

    /** `handleredissubscribemessage`. */
    method HandleRedisSubscribeMessage(row: Row)
      modifies backend
      ensures backend.world == ArriveAt(View(), old(backend.world), row)
    {
      if row.user in userConnMap {
        backend.Send(userConnMap[row.user], row);
        return;
      }
      backend.InsertOffline(row);
    }
  }
}
