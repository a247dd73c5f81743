/** Conversation numbers: Redis counters shared by all nodes, with a local fallback on each node. */
module Numbering {
  import opened Messages

  /** `kFallbackBase`, that is 2^40. */
  const FALLBACK_BASE: nat := 0x100_0000_0000

  /** The largest counter value Redis can hold. */
  const REDIS_MAX: nat := 0x7FFF_FFFF_FFFF_FFFF

  /** One node's `redis` object: `command_context != nullptr`, `_redisAvailable`, `_localSeq`. */
  datatype Client = Client(connected: bool, available: bool, localSeq: map<string, nat>)

  /** What comes back from `INCR`: an integer; nothing, though the server may have executed the
      command; or a reply of another type. */
  datatype Reply = Answered | NoReply(executed: bool) | OtherType

  datatype Source = FromRedis | FromFallback(local: nat)

  /** A number drawn: for which conversation, by which node and where it came from. */
  datatype Ticket = Ticket(node: nat, conv: string, number: Word, source: Source)

  datatype Sequencer = Sequencer(clients: seq<Client>, counters: map<string, nat>, log: seq<Ticket>)

  function Count(m: map<string, nat>, c: string): nat {
    if c in m then m[c] else 0
  }

  /** The result of drawing one number. */
  datatype Drawn = Drawn(client: Client, counters: map<string, nat>, number: Word, source: Source)

  /** `localFallbackSeq`. */
  function Fallback(client: Client, counters: map<string, nat>, c: string): Drawn {
    var v := Count(client.localSeq, c) + 1;
    Drawn(client.(localSeq := client.localSeq[c := v]), counters, (FALLBACK_BASE + v) % WORD, FromFallback(v))
  }

  function Bump(counters: map<string, nat>, c: string): map<string, nat> {
    if Count(counters, c) < REDIS_MAX then counters[c := Count(counters, c) + 1] else counters
  }

  /** `incrSeq`. An `INCR` past the largest value gets an error reply. */
  function Draw(client: Client, counters: map<string, nat>, c: string, reply: Reply): Drawn {
    if !client.connected || !client.available then Fallback(client, counters, c)
    else
      match reply
      case NoReply(executed) =>
        Fallback(client.(available := false), if executed then Bump(counters, c) else counters, c)
      case OtherType => Fallback(client, counters, c)
      case Answered =>
        if Count(counters, c) >= REDIS_MAX then Fallback(client, counters, c)
        else Drawn(client, Bump(counters, c), Count(counters, c) + 1, FromRedis)
  }

  /** A node on Redis gets the counter's next value exactly while that fits a signed 64-bit number; past it
      the counter stays and the node's own next number above 2^40 is drawn. */
  lemma CounterLimitExactly(client: Client, counters: map<string, nat>, c: string)
    requires client.connected && client.available
    ensures var d := Draw(client, counters, c, Answered);
            && (d.source.FromRedis? <==> Count(counters, c) < 0x7FFF_FFFF_FFFF_FFFF)
            && (d.source.FromRedis? ==>
                  d.number == Count(counters, c) + 1 == Count(d.counters, c) && d.client == client)
            && (d.source.FromFallback? ==>
                  && d.counters == counters && d.client.available
                  && d.number == (0x100_0000_0000 + Count(d.client.localSeq, c)) % 0x1_0000_0000_0000_0000
                  && Count(d.client.localSeq, c) == Count(client.localSeq, c) + 1)
  {
  }

  datatype Request = Request(node: nat, conv: string, reply: Reply)

  function Serve(s: Sequencer, r: Request): Sequencer
    requires r.node < |s.clients|
  {
    var d := Draw(s.clients[r.node], s.counters, r.conv, r.reply);
    Sequencer(s.clients[r.node := d.client], d.counters, s.log + [Ticket(r.node, r.conv, d.number, d.source)])
  }

  ghost predicate NodesExist(s: Sequencer, rs: seq<Request>) {
    forall i :: 0 <= i < |rs| ==> rs[i].node < |s.clients|
  }

  /** Any interleaving of calls from all nodes, each call atomic. */
  function ServeAll(s: Sequencer, rs: seq<Request>): (r: Sequencer)
    requires NodesExist(s, rs)
    ensures |r.clients| == |s.clients|
  {
    if rs == [] then s else Serve(ServeAll(s, rs[..|rs| - 1]), rs[|rs| - 1])
  }

  /** Nothing drawn yet; the Redis counters may hold anything. */
  ghost predicate Initial(s: Sequencer) {
    s.log == [] && forall n :: 0 <= n < |s.clients| ==> s.clients[n].localSeq == map[]
  }

  /** A ticket agrees with the counter it was drawn from. */
  ghost predicate Backed(s: Sequencer, t: Ticket) {
    && t.node < |s.clients|
    && match t.source
       case FromRedis => 1 <= t.number <= Count(s.counters, t.conv) && t.number <= 0x7FFF_FFFF_FFFF_FFFF
       case FromFallback(local) =>
         && 1 <= local <= Count(s.clients[t.node].localSeq, t.conv)
         && t.number == (0x100_0000_0000 + local) % 0x1_0000_0000_0000_0000
  }

  /** Two tickets of one conversation, in the order drawn, from Redis or from one node's fallback. */
  ghost predicate InOrder(t: Ticket, u: Ticket) {
    t.conv == u.conv ==>
      && (t.source.FromRedis? && u.source.FromRedis? ==> t.number < u.number)
      && (t.source.FromFallback? && u.source.FromFallback? && t.node == u.node ==> t.source.local < u.source.local)
  }

  function FirstFallback(n: nat, c: string): Ticket {
    Ticket(n, c, (FALLBACK_BASE + 1) % WORD, FromFallback(1))
  }

  ghost predicate Inv(s: Sequencer) {
    && (forall i :: 0 <= i < |s.log| ==> Backed(s, s.log[i]))
    && (forall i, j :: 0 <= i < j < |s.log| ==> InOrder(s.log[i], s.log[j]))
    && (forall n, c :: 0 <= n < |s.clients| && Count(s.clients[n].localSeq, c) > 0 ==> FirstFallback(n, c) in s.log)
  }

  lemma LogInOrder(s: Sequencer, i: nat, j: nat)
    requires Inv(s) && i < j < |s.log|
    ensures InOrder(s.log[i], s.log[j])
  {
  }

  function NewTicket(s: Sequencer, r: Request): Ticket
    requires r.node < |s.clients|
  {
    var d := Draw(s.clients[r.node], s.counters, r.conv, r.reply);
    Ticket(r.node, r.conv, d.number, d.source)
  }

  lemma CountsGrow(s: Sequencer, r: Request, n: nat, c: string)
    requires r.node < |s.clients| && n < |s.clients|
    ensures Count(s.counters, c) <= Count(Serve(s, r).counters, c)
    ensures Count(s.clients[n].localSeq, c) <= Count(Serve(s, r).clients[n].localSeq, c)
    ensures Count(Serve(s, r).clients[n].localSeq, c) > Count(s.clients[n].localSeq, c) ==>
              n == r.node && c == r.conv && NewTicket(s, r).source == FromFallback(Count(s.clients[n].localSeq, c) + 1)
  {
  }

  lemma NewTicketFits(s: Sequencer, r: Request, t: Ticket)
    requires r.node < |s.clients|
    ensures Backed(Serve(s, r), NewTicket(s, r))
    ensures Backed(s, t) ==> InOrder(t, NewTicket(s, r)) && Backed(Serve(s, r), t)
  {
    if t.node < |s.clients| {
      CountsGrow(s, r, t.node, t.conv);
    }
  }

  lemma ServeKeepsInv(s: Sequencer, r: Request)
    requires Inv(s) && r.node < |s.clients|
    ensures Inv(Serve(s, r))
  {
    var after := Serve(s, r);
    assert after.log == s.log + [NewTicket(s, r)];
    forall i | 0 <= i < |s.log| ensures InOrder(s.log[i], NewTicket(s, r)) && Backed(after, s.log[i]) {
      NewTicketFits(s, r, s.log[i]);
    }
    NewTicketFits(s, r, NewTicket(s, r));
    forall n, c | 0 <= n < |after.clients| && Count(after.clients[n].localSeq, c) > 0
      ensures FirstFallback(n, c) in after.log
    {
      NewFirstFallback(s, r, n, c);
    }
    hide Serve, Backed, InOrder, NewTicket;
  }

  lemma NewFirstFallback(s: Sequencer, r: Request, n: nat, c: string)
    requires r.node < |s.clients| && n < |s.clients| && Count(Serve(s, r).clients[n].localSeq, c) > 0
    ensures Count(s.clients[n].localSeq, c) > 0 || NewTicket(s, r) == FirstFallback(n, c)
  {
  }

  /** Whatever the interleaving, Redis numbers of a conversation strictly increase in the order they are
      drawn, and each node's fallback numbers count up from the base. */
  lemma {:induction false} ServeAllKeepsInv(s: Sequencer, rs: seq<Request>)
    requires Initial(s) && NodesExist(s, rs)
    ensures Inv(ServeAll(s, rs))
  {
    hide Serve;
    if rs != [] {
      ServeAllKeepsInv(s, rs[..|rs| - 1]);
      ServeKeepsInv(ServeAll(s, rs[..|rs| - 1]), rs[|rs| - 1]);
    } else {
      hide Count;
    }
  }

  /** No fallback number of conversation `c` has reached the largest 64-bit value. */
  ghost predicate FallbackInRange(s: Sequencer, c: string) {
    forall n :: 0 <= n < |s.clients| ==> Count(s.clients[n].localSeq, c) < LAST - FALLBACK_BASE
  }

  /** Moreover its Redis counter has not passed 2^40. */
  ghost predicate InRange(s: Sequencer, c: string) {
    Count(s.counters, c) <= 0x100_0000_0000 && FallbackInRange(s, c)
  }

  ghost predicate AllInRange(s: Sequencer) {
    forall c :: InRange(s, c)
  }

  /** Whatever Redis has counted, no number drawn is the largest one. */
  lemma TicketBelowLast(s: Sequencer, t: Ticket)
    requires Backed(s, t) && FallbackInRange(s, t.conv)
    ensures t.number < LAST
  {
    assert Count(s.clients[t.node].localSeq, t.conv) < LAST - FALLBACK_BASE;
  }

  ghost predicate Unique(log: seq<Ticket>, c: string) {
    forall i, j :: 0 <= i < j < |log| && log[i].conv == log[j].conv == c ==> log[i].number != log[j].number
  }

  ghost predicate OneFallbackNode(s: Sequencer, c: string) {
    forall n, n' :: 0 <= n < n' < |s.clients| ==>
      Count(s.clients[n].localSeq, c) == 0 || Count(s.clients[n'].localSeq, c) == 0
  }

  /** The numbers of a conversation are unique exactly when no two nodes have drawn fallback numbers
      in it. */
  lemma UniqueExactly(s: Sequencer, c: string)
    requires Inv(s) && InRange(s, c)
    ensures Unique(s.log, c) <==> OneFallbackNode(s, c)
  {
    if !OneFallbackNode(s, c) {
      var n, n' :| 0 <= n < n' < |s.clients| &&
        Count(s.clients[n].localSeq, c) > 0 && Count(s.clients[n'].localSeq, c) > 0;
      TwoFallbackNodesCollide(s, c, n, n');
    } else {
      forall i, j | 0 <= i < j < |s.log| && s.log[i].conv == s.log[j].conv == c
        ensures s.log[i].number != s.log[j].number
      {
        TicketsDiffer(s, s.log[i], s.log[j]);
      }
    }
  }

  /** In range, a ticket's number tells its source. */
  lemma NumberRanges(s: Sequencer, t: Ticket)
    requires Backed(s, t) && InRange(s, t.conv)
    ensures match t.source
            case FromRedis => 1 <= t.number <= 0x100_0000_0000
            case FromFallback(local) => t.number == 0x100_0000_0000 + local && t.number > 0x100_0000_0000
  {
    assert Count(s.clients[t.node].localSeq, t.conv) < LAST - FALLBACK_BASE;
  }

  lemma TicketsDiffer(s: Sequencer, t: Ticket, u: Ticket)
    requires Backed(s, t) && Backed(s, u) && InOrder(t, u) && t.conv == u.conv
    requires InRange(s, t.conv) && OneFallbackNode(s, t.conv)
    ensures t.number != u.number
  {
    NumberRanges(s, t);
    NumberRanges(s, u);
  }

  lemma TwoFallbackNodesCollide(s: Sequencer, c: string, n: nat, n': nat)
    requires Inv(s) && n < n' < |s.clients|
    requires Count(s.clients[n].localSeq, c) > 0 && Count(s.clients[n'].localSeq, c) > 0
    ensures !Unique(s.log, c)
  {
    var t, t' := FirstFallback(n, c), FirstFallback(n', c);
    assert t in s.log && t' in s.log;
    hide Inv, Count;
    SameNumberTwice(s.log, c, t, t');
  }

  lemma SameNumberTwice(log: seq<Ticket>, c: string, t: Ticket, t': Ticket)
    requires t in log && t' in log && t != t' && t.conv == t'.conv == c && t.number == t'.number
    ensures !Unique(log, c)
  {
    var i :| 0 <= i < |log| && log[i] == t;
    var j :| 0 <= j < |log| && log[j] == t';
    if i < j { assert log[i].number == log[j].number; } else { assert log[j].number == log[i].number; }
  }

  /** The number drawn for `r` exceeds every earlier number of the same node in the same conversation. */
  ghost predicate ExceedsOwn(s: Sequencer, r: Request)
    requires r.node < |s.clients|
  {
    forall i :: 0 <= i < |s.log| && s.log[i].node == r.node && s.log[i].conv == r.conv ==>
      s.log[i].number < NewTicket(s, r).number
  }

  /** The node is on Redis, gets an integer, but has already drawn a fallback number in this conversation. */
  predicate GoesBack(s: Sequencer, r: Request)
    requires r.node < |s.clients|
  {
    var l := s.clients[r.node];
    l.connected && l.available && r.reply.Answered? && Count(l.localSeq, r.conv) > 0
  }

  lemma NewTicketExceeds(s: Sequencer, r: Request, t: Ticket)
    requires r.node < |s.clients| && Backed(s, t) && t.node == r.node && t.conv == r.conv
    requires InRange(Serve(s, r), r.conv)
    requires !GoesBack(s, r)
    ensures t.number < NewTicket(s, r).number
  {
    NewTicketFits(s, r, t);
    NumberRanges(Serve(s, r), t);
    NumberRanges(Serve(s, r), NewTicket(s, r));
    hide InRange;
  }

  lemma RedisAfterFallback(s: Sequencer, r: Request)
    requires r.node < |s.clients| && GoesBack(s, r) && InRange(Serve(s, r), r.conv)
    requires Backed(s, FirstFallback(r.node, r.conv))
    ensures FirstFallback(r.node, r.conv).number > NewTicket(s, r).number
  {
    var t := FirstFallback(r.node, r.conv);
    assert Count(s.counters, r.conv) <= Count(Serve(s, r).counters, r.conv) <= FALLBACK_BASE;
    NewTicketFits(s, r, t);
    NumberRanges(Serve(s, r), t);
    NumberRanges(Serve(s, r), NewTicket(s, r));
    hide InRange, Backed;
  }

  /** The next number of a node exceeds all its earlier ones in that conversation exactly when the node is
      on the fallback, gets no integer, or has drawn no fallback number there yet. */
  lemma NextNumberExceedsExactly(s: Sequencer, r: Request)
    requires Inv(s) && r.node < |s.clients| && InRange(Serve(s, r), r.conv)
    ensures ExceedsOwn(s, r) <==>
            !s.clients[r.node].connected || !s.clients[r.node].available || !r.reply.Answered? ||
            Count(s.clients[r.node].localSeq, r.conv) == 0
  {
    if !GoesBack(s, r) {
      forall i | 0 <= i < |s.log| && s.log[i].node == r.node && s.log[i].conv == r.conv
        ensures s.log[i].number < NewTicket(s, r).number
      {
        NewTicketExceeds(s, r, s.log[i]);
      }
    } else {
      var t := FirstFallback(r.node, r.conv);
      var i :| 0 <= i < |s.log| && s.log[i] == t;
      RedisAfterFallback(s, r);
    }
  }

  /** One more number can be drawn without leaving the range. */
  ghost predicate HasRoom(s: Sequencer, n: nat, c: string)
    requires n < |s.clients|
  {
    Count(s.counters, c) < FALLBACK_BASE && FallbackInRange(s, c) &&
    Count(s.clients[n].localSeq, c) < LAST - FALLBACK_BASE - 1
  }

  lemma RoomSuffices(s: Sequencer, r: Request)
    requires r.node < |s.clients| && HasRoom(s, r.node, r.conv)
    ensures InRange(Serve(s, r), r.conv)
  {
    var t := Serve(s, r);
    forall n | 0 <= n < |t.clients| ensures Count(t.clients[n].localSeq, r.conv) < LAST - FALLBACK_BASE {
      assert Count(s.clients[n].localSeq, r.conv) < LAST - FALLBACK_BASE;
    }
  }

  /** Before the call: whatever Redis is going to answer, the next number will exceed the node's earlier
      ones exactly when the node is on the fallback or has drawn no fallback number there yet. */
  lemma AnyReplyExceedsExactly(s: Sequencer, n: nat, c: string)
    requires Inv(s) && n < |s.clients| && HasRoom(s, n, c)
    ensures (forall reply :: ExceedsOwn(s, Request(n, c, reply))) <==>
            !s.clients[n].connected || !s.clients[n].available || Count(s.clients[n].localSeq, c) == 0
  {
    hide Inv, HasRoom, InRange, ExceedsOwn;
    forall reply ensures InRange(Serve(s, Request(n, c, reply)), c) {
      RoomSuffices(s, Request(n, c, reply));
    }
    forall reply ensures ExceedsOwn(s, Request(n, c, reply)) <==>
      !s.clients[n].connected || !s.clients[n].available || !reply.Answered? || Count(s.clients[n].localSeq, c) == 0
    {
      NextNumberExceedsExactly(s, Request(n, c, reply));
    }
    assert ExceedsOwn(s, Request(n, c, Answered)) || !ExceedsOwn(s, Request(n, c, Answered));
  }

  /** A number drawn after a reply of another type may fall behind the node's own fallback number. */
  lemma OtherTypeGoesBack()
    ensures var s := Sequencer([Client(true, true, map[])], map[], []);
            var t := ServeAll(s, [Request(0, "g1", OtherType), Request(0, "g1", Answered)]);
            t.log[1].number < t.log[0].number
  {
    var s := Sequencer([Client(true, true, map[])], map[], []);
    var a, b := Request(0, "g1", OtherType), Request(0, "g1", Answered);
    assert [a, b][..1] == [a] && [a][..0] == [];
    assert ServeAll(s, [a]) == Serve(s, a);
  }

  ghost predicate NodeAscends(log: seq<Ticket>) {
    forall i, j :: 0 <= i < j < |log| && log[i].node == log[j].node && log[i].conv == log[j].conv ==>
      log[i].number < log[j].number
  }

  /** Node `n` of the initial state `s` has not lost Redis in these requests. */
  ghost predicate OnRedis(s: Sequencer, rs: seq<Request>, n: nat)
    requires n < |s.clients|
  {
    s.clients[n].connected && s.clients[n].available &&
    forall i :: 0 <= i < |rs| && rs[i].node == n ==> !rs[i].reply.NoReply?
  }

  ghost predicate HadOtherType(rs: seq<Request>, n: nat, c: string) {
    exists i :: 0 <= i < |rs| && rs[i].node == n && rs[i].conv == c && rs[i].reply.OtherType?
  }

  lemma RangeShrinks(s: Sequencer, r: Request)
    requires r.node < |s.clients| && AllInRange(Serve(s, r))
    ensures AllInRange(s)
  {
    var t := Serve(s, r);
    forall c ensures InRange(s, c) {
      assert InRange(t, c);
      forall n | 0 <= n < |s.clients| ensures Count(s.clients[n].localSeq, c) < LAST - FALLBACK_BASE {
        CountsGrow(s, r, n, c);
        assert Count(t.clients[n].localSeq, c) < LAST - FALLBACK_BASE;
      }
      assert Count(s.counters, c) <= Count(t.counters, c);
    }
  }

  /** What the requests so far tell about a node: whether it is on Redis and, if so, in which conversations
      it has drawn fallback numbers. */
  ghost predicate Told(s: Sequencer, rs: seq<Request>, now: Sequencer, n: nat, c: string)
    requires n < |s.clients| == |now.clients|
  {
    && (now.clients[n].connected && now.clients[n].available <==> OnRedis(s, rs, n))
    && (OnRedis(s, rs, n) ==> (Count(now.clients[n].localSeq, c) > 0 <==> HadOtherType(rs, n, c)))
  }

  lemma ServeTells(s: Sequencer, rs: seq<Request>, r: Request, now: Sequencer, n: nat, c: string)
    requires n < |s.clients| == |now.clients| && r.node < |s.clients| && Told(s, rs, now, n, c)
    requires Count(now.counters, r.conv) < REDIS_MAX
    ensures Told(s, rs + [r], Serve(now, r), n, c)
  {
    var longer := rs + [r];
    assert longer[|rs|] == r;
    assert forall i :: 0 <= i < |rs| ==> longer[i] == rs[i];
    assert HadOtherType(rs, n, c) ==> HadOtherType(longer, n, c);
    assert r.node == n && r.conv == c && r.reply.OtherType? ==> HadOtherType(longer, n, c);
    hide HadOtherType;
    assert HadOtherType(longer, n, c) <==>
        HadOtherType(rs, n, c) || (r.node == n && r.conv == c && r.reply.OtherType?) by {
      OtherTypeSnoc(rs, r, n, c);
    }
  }

  lemma OtherTypeSnoc(rs: seq<Request>, r: Request, n: nat, c: string)
    ensures HadOtherType(rs + [r], n, c) <==>
            HadOtherType(rs, n, c) || (r.node == n && r.conv == c && r.reply.OtherType?)
  {
    var longer := rs + [r];
    assert longer[|rs|] == r;
    if i :| 0 <= i < |rs| && rs[i].node == n && rs[i].conv == c && rs[i].reply.OtherType? {
      assert longer[i] == rs[i];
    }
  }

  lemma {:induction false} ServeAllTells(s: Sequencer, rs: seq<Request>, n: nat, c: string)
    requires Initial(s) && NodesExist(s, rs) && n < |s.clients| && AllInRange(ServeAll(s, rs))
    ensures Told(s, rs, ServeAll(s, rs), n, c)
  {
    if rs != [] {
      var k := |rs| - 1;
      var before := ServeAll(s, rs[..k]);
      RangeShrinks(before, rs[k]);
      ServeAllTells(s, rs[..k], n, c);
      assert InRange(before, rs[k].conv);
      assert rs == rs[..k] + [rs[k]];
      ServeTells(s, rs[..k], rs[k], before, n, c);
    }
  }

  /** Request `j` is answered with an integer by a Redis the node never lost, after an earlier reply of
      another type to the same node in the same conversation. */
  ghost predicate FallsBehind(s: Sequencer, rs: seq<Request>, j: nat)
    requires j < |rs| && rs[j].node < |s.clients|
  {
    rs[j].reply.Answered? && OnRedis(s, rs[..j], rs[j].node) && HadOtherType(rs[..j], rs[j].node, rs[j].conv)
  }

  lemma AscendsSnoc(log: seq<Ticket>, t: Ticket)
    ensures NodeAscends(log + [t]) <==>
            NodeAscends(log) &&
            forall i :: 0 <= i < |log| && log[i].node == t.node && log[i].conv == t.conv ==> log[i].number < t.number
  {
    var longer := log + [t];
    assert forall i :: 0 <= i < |log| ==> longer[i] == log[i];
    assert longer[|log|] == t;
  }

  lemma FallsBehindGoesBack(s: Sequencer, rs: seq<Request>)
    requires Initial(s) && rs != [] && NodesExist(s, rs) && AllInRange(ServeAll(s, rs[..|rs| - 1]))
    ensures FallsBehind(s, rs, |rs| - 1) <==> GoesBack(ServeAll(s, rs[..|rs| - 1]), rs[|rs| - 1])
  {
    var n := |rs| - 1;
    ServeAllTells(s, rs[..n], rs[n].node, rs[n].conv);
    hide ServeAll, AllInRange, OnRedis, HadOtherType;
  }

  ghost predicate NoneFallsBehind(s: Sequencer, rs: seq<Request>)
    requires NodesExist(s, rs)
  {
    forall j :: 0 <= j < |rs| ==> !FallsBehind(s, rs, j)
  }

  lemma NoneFallsBehindStep(s: Sequencer, rs: seq<Request>)
    requires NodesExist(s, rs) && rs != []
    ensures NoneFallsBehind(s, rs) <==>
            NoneFallsBehind(s, rs[..|rs| - 1]) && !FallsBehind(s, rs, |rs| - 1)
  {
    hide OnRedis, HadOtherType;
    var n := |rs| - 1;
    forall j | 0 <= j < n ensures FallsBehind(s, rs, j) <==> FallsBehind(s, rs[..n], j) {
      assert rs[..n][..j] == rs[..j];
    }
  }

  lemma ServeAscends(s: Sequencer, r: Request)
    requires Inv(s) && r.node < |s.clients| && InRange(Serve(s, r), r.conv)
    ensures NodeAscends(Serve(s, r).log) <==> NodeAscends(s.log) && !GoesBack(s, r)
  {
    hide Inv, InRange, Draw;
    NextNumberExceedsExactly(s, r);
    AscendsSnoc(s.log, NewTicket(s, r));
  }

  /** Each node's own numbers of a conversation strictly increase, also across its switch to the fallback,
      exactly when no request falls behind. */
  lemma {:induction false} NodeNumbersIncreaseExactly(s: Sequencer, rs: seq<Request>)
    requires Initial(s) && NodesExist(s, rs) && AllInRange(ServeAll(s, rs))
    ensures NodeAscends(ServeAll(s, rs).log) <==> NoneFallsBehind(s, rs)
  {
    if rs != [] {
      var n := |rs| - 1;
      var before := ServeAll(s, rs[..n]);
      assert ServeAll(s, rs) == Serve(before, rs[n]);
      hide Serve, Inv, AllInRange, FallsBehind, NodeAscends, GoesBack, Initial, ServeAll, NoneFallsBehind;
      RangeShrinks(before, rs[n]);
      NodeNumbersIncreaseExactly(s, rs[..n]);
      ServeAllKeepsInv(s, rs[..n]);
      InRangeOf(Serve(before, rs[n]), rs[n].conv);
      ServeAscends(before, rs[n]);
      FallsBehindGoesBack(s, rs);
      NoneFallsBehindStep(s, rs);
    }
  }

  lemma InRangeOf(s: Sequencer, c: string)
    requires AllInRange(s)
    ensures InRange(s, c)
  {
  }

  /** In particular when every reply to `INCR` is an integer or missing. */
  lemma NodeNumbersIncrease(s: Sequencer, rs: seq<Request>)
    requires Initial(s) && NodesExist(s, rs) && AllInRange(ServeAll(s, rs))
    requires forall i :: 0 <= i < |rs| ==> !rs[i].reply.OtherType?
    ensures NodeAscends(ServeAll(s, rs).log)
    ensures forall n, c :: 0 <= n < |s.clients| && OnRedis(s, rs, n) ==>
              Count(ServeAll(s, rs).clients[n].localSeq, c) == 0
  {
    NodeNumbersIncreaseExactly(s, rs);
    forall n, c | 0 <= n < |s.clients| && OnRedis(s, rs, n)
      ensures Count(ServeAll(s, rs).clients[n].localSeq, c) == 0
    {
      ServeAllTells(s, rs, n, c);
    }
  }

  // ----- no number is skipped

  /** The Redis numbers of conversation `c`, in the order drawn. */
  function RedisNumbers(log: seq<Ticket>, c: string): seq<nat> {
    if log == [] then []
    else
      var t := log[|log| - 1];
      RedisNumbers(log[..|log| - 1], c) + if t.source.FromRedis? && t.conv == c then [t.number as nat] else []
  }

  /** The numbers `lo + 1` .. `hi`. */
  function Upto(lo: nat, hi: nat): seq<nat>
    requires lo <= hi
  {
    seq(hi - lo, i requires 0 <= i < hi - lo => lo + i + 1)
  }

  lemma UptoSnoc(lo: nat, hi: nat)
    requires lo <= hi
    ensures Upto(lo, hi + 1) == Upto(lo, hi) + [hi + 1]
    ensures Upto(lo, lo) == []
  {
  }

  /** Redis executes the `INCR`, the reply is lost and the node falls back: the number is never issued. */
  predicate Loses(s: Sequencer, r: Request)
    requires r.node < |s.clients|
  {
    s.clients[r.node].connected && s.clients[r.node].available && r.reply == NoReply(true) &&
    Count(s.counters, r.conv) < REDIS_MAX
  }

  function LostIncrs(s: Sequencer, rs: seq<Request>, c: string): nat
    requires NodesExist(s, rs)
  {
    if rs == [] then 0
    else
      var r := rs[|rs| - 1];
      LostIncrs(s, rs[..|rs| - 1], c) + if r.conv == c && Loses(ServeAll(s, rs[..|rs| - 1]), r) then 1 else 0
  }

  lemma RedisNumbersServe(s: Sequencer, r: Request, c: string)
    requires r.node < |s.clients|
    ensures var issued := NewTicket(s, r).source.FromRedis? && r.conv == c;
            var lost := r.conv == c && Loses(s, r);
            && RedisNumbers(Serve(s, r).log, c) ==
               RedisNumbers(s.log, c) + (if issued then [Count(s.counters, c) + 1] else [])
            && Count(Serve(s, r).counters, c) == Count(s.counters, c) + (if issued || lost then 1 else 0)
            && !(issued && lost)
  {
    var after := Serve(s, r);
    assert after.log[..|after.log| - 1] == s.log;
  }

  /** The Redis numbers of `c` so far lie above `lo`, in order, and `lost` of those above `lo` are missing. */
  ghost predicate Tally(s: Sequencer, c: string, lo: nat, lost: nat) {
    var numbers := RedisNumbers(s.log, c);
    && lo <= Count(s.counters, c)
    && |numbers| + lost == Count(s.counters, c) - lo
    && (forall i, j :: 0 <= i < j < |numbers| ==> numbers[i] < numbers[j])
    && (forall i :: 0 <= i < |numbers| ==> lo < numbers[i] <= Count(s.counters, c))
    && (lost == 0 ==> numbers == Upto(lo, Count(s.counters, c)))
  }

  lemma ServeKeepsTally(s: Sequencer, r: Request, c: string, lo: nat, lost: nat)
    requires Tally(s, c, lo, lost) && r.node < |s.clients|
    ensures Tally(Serve(s, r), c, lo, lost + if r.conv == c && Loses(s, r) then 1 else 0)
  {
    RedisNumbersServe(s, r, c);
    UptoSnoc(lo, Count(s.counters, c));
    hide Serve, NewTicket, RedisNumbers, Count, Loses, Upto;
  }

  lemma {:induction false} ServeAllKeepsTally(s: Sequencer, rs: seq<Request>, c: string, lo: nat)
    requires Tally(s, c, lo, 0) && NodesExist(s, rs)
    ensures Tally(ServeAll(s, rs), c, lo, LostIncrs(s, rs, c))
  {
    hide Serve, Tally, Loses;
    if rs != [] {
      var n := |rs| - 1;
      ServeAllKeepsTally(s, rs[..n], c, lo);
      ServeKeepsTally(ServeAll(s, rs[..n]), rs[n], c, lo, LostIncrs(s, rs[..n], c));
    }
  }

  /** Redis issues numbers above its starting value, each once and in order; as many are missing as
      executed `INCR`s lost their reply, so that it skips nothing exactly when none did. */
  lemma RedisSkipsExactly(s: Sequencer, rs: seq<Request>, c: string)
    requires Initial(s) && NodesExist(s, rs)
    ensures var lo, hi := Count(s.counters, c), Count(ServeAll(s, rs).counters, c);
            var numbers := RedisNumbers(ServeAll(s, rs).log, c);
            && lo <= hi && |numbers| + LostIncrs(s, rs, c) == hi - lo
            && (forall i, j :: 0 <= i < j < |numbers| ==> numbers[i] < numbers[j])
            && (forall i :: 0 <= i < |numbers| ==> lo < numbers[i] <= hi)
            && (numbers == Upto(lo, hi) <==> LostIncrs(s, rs, c) == 0)
  {
    UptoSnoc(Count(s.counters, c), Count(s.counters, c));
    ServeAllKeepsTally(s, rs, c, Count(s.counters, c));
    hide ServeAll, Count, LostIncrs, RedisNumbers;
  }

  const TWO_NODES: Sequencer := Sequencer([Client(true, true, map[]), Client(true, true, map[])], map[], [])
  const LOSING: Request := Request(0, "g1", NoReply(true))
  const DRAWING: Request := Request(1, "g1", Answered)

  lemma AfterLosing()
    ensures var one := Serve(TWO_NODES, LOSING);
            && Loses(TWO_NODES, LOSING) && one.clients[1] == Client(true, true, map[]) && Count(one.counters, "g1") == 1
            && RedisNumbers(one.log, "g1") == []
  {
    RedisNumbersServe(TWO_NODES, LOSING, "g1");
  }

  lemma AfterDrawing(one: Sequencer)
    requires |one.clients| == 2 && one.clients[1] == Client(true, true, map[]) && Count(one.counters, "g1") == 1
    requires RedisNumbers(one.log, "g1") == []
    ensures RedisNumbers(Serve(one, DRAWING).log, "g1") == [2] && !Loses(one, DRAWING)
  {
    RedisNumbersServe(one, DRAWING, "g1");
    hide Serve, RedisNumbers, Count;
    assert [] + [1 + 1] == [2];
  }

  /** One lost reply: node 0 falls back, node 1 gets number 2, number 1 is never issued. */
  lemma LostReplySkips()
    ensures RedisNumbers(ServeAll(TWO_NODES, [LOSING, DRAWING]).log, "g1") == [2]
    ensures LostIncrs(TWO_NODES, [LOSING, DRAWING], "g1") == 1
  {
    AfterLosing();
    AfterDrawing(Serve(TWO_NODES, LOSING));
    hide Serve, RedisNumbers, Loses, Count;
    assert [LOSING, DRAWING][..1] == [LOSING] && [LOSING][..0] == [];
    assert ServeAll(TWO_NODES, [LOSING][..0]) == TWO_NODES;
    assert ServeAll(TWO_NODES, [LOSING]) == Serve(TWO_NODES, LOSING);
    assert LostIncrs(TWO_NODES, [LOSING][..0], "g1") == 0;
    assert LostIncrs(TWO_NODES, [LOSING], "g1") == 1;
  }
}
