/** What a login hands over: the user's stored messages, sorted, on the connection of the login; and what a
    new client shows of it. */
module LoginBatch {
  import opened Messages
  import opened Handlers
  import opened Cluster
  import opened Ledger
  import opened OfflineSort
  import opened Effects
  import D = Delivery
  import Replay
  import Ch = Channels
  import Ord = Orderers

  /** The stored rows of user `u`, and the others, in stored order. */
  function StoredFor(offline: seq<Row>, u: int): seq<Row> {
    Select(offline, (i: nat, row: Row) => row.user == u)
  }

  function StoredForOthers(offline: seq<Row>, u: int): seq<Row> {
    Select(offline, (i: nat, row: Row) => row.user != u)
  }

  lemma {:induction false} MineIs(offline: seq<Row>, u: int)
    ensures Mine(offline, u) == StoredFor(offline, u) && NotMine(offline, u) == StoredForOthers(offline, u)
  {
    if offline != [] {
      MineIs(offline[..|offline| - 1], u);
    }
  }

  // ----- sorted by conversation and number

  function ConvOfMessage(m: Message): string {
    if m.convid.Some? then m.convid.value else ""
  }

  /** Numbered rows come first, grouped by conversation, in the order of their numbers. */
  ghost predicate InSequence(b: seq<Row>) {
    forall i, j :: 0 <= i < j < |b| && b[j].msg.number.Some? ==>
      && b[i].msg.number.Some?
      && (ConvOfMessage(b[i].msg) == ConvOfMessage(b[j].msg) ==> b[i].msg.number.value <= b[j].msg.number.value)
      && (ConvOfMessage(b[i].msg) != ConvOfMessage(b[j].msg) ==>
          TextLess(ConvOfMessage(b[i].msg), ConvOfMessage(b[j].msg)))
  }

  /** The rows without a number, and those of one conversation with one number. */
  function Unnumbered(): (nat, Row) -> bool {
    (i: nat, row: Row) => row.msg.number.None?
  }

  function Numbered(c: string, k: Word): (nat, Row) -> bool {
    (i: nat, row: Row) => row.msg.number == Some(k) && ConvOfMessage(row.msg) == c
  }

  /** Sorting keeps the order of rows that have no number, and of rows of one conversation with one number. */
  ghost predicate KeepsOrder(b: seq<Row>, rows: seq<Row>) {
    && Select(b, Unnumbered()) == Select(rows, Unnumbered())
    && forall c: string, k: Word :: Select(b, Numbered(c, k)) == Select(rows, Numbered(c, k))
  }

  /** Every item is that of a stored message. */
  ghost predicate Genuine(items: seq<Item>) {
    forall i :: 0 <= i < |items| ==> items[i].raw.json.Some? && items[i] == Entry(items[i].raw)
  }

  /** `p` picks the rows whose items tie with `key`. */
  ghost predicate PicksTies(u: int, items: seq<Item>, key: Item, p: (nat, Row) -> bool) {
    forall i, j: nat :: 0 <= i < |items| && items[i].raw.json.Some? ==>
      (p(j, Row(u, items[i].raw.json.value)) <==> Ties(items[i], key))
  }

  function RowsOf(u: int, items: seq<Item>): seq<Row> {
    FromStored(u, Raws(items))
  }

  lemma RowsOfSnoc(u: int, items: seq<Item>, x: Item)
    requires x.raw.json.Some?
    ensures RowsOf(u, items + [x]) == RowsOf(u, items) + [Row(u, x.raw.json.value)]
  {
  }

  lemma {:induction false} TiedRows(u: int, items: seq<Item>, key: Item, p: (nat, Row) -> bool)
    requires Genuine(items) && PicksTies(u, items, key, p)
    ensures Select(RowsOf(u, items), p) == RowsOf(u, Tied(items, key))
  {
    if items == [] {
      assert RowsOf(u, items) == [];
    } else {
      var n := |items| - 1;
      var front, x := items[..n], items[n];
      assert items == front + [x];
      TiedRows(u, front, key, p);
      RowsOfSnoc(u, front, x);
      SelectSnoc(RowsOf(u, front), Row(u, x.raw.json.value), p);
      RowsOfSnoc(u, Tied(front, key), x);
      assert p(|RowsOf(u, front)|, Row(u, x.raw.json.value)) <==> Ties(x, key);
      hide RowsOf, Ties, Select;
      assert Tied(front, key) + [] == Tied(front, key);
    }
  }

  lemma TiesUnnumbered(st: Stored)
    requires st.json.Some?
    ensures Ties(Entry(st), Item(st, "", 0, false)) <==> st.json.value.number.None?
  {
  }

  lemma TiesNumbered(st: Stored, c: string, k: Word)
    requires st.json.Some?
    ensures Ties(Entry(st), Item(st, c, k, true)) <==>
            st.json.value.number == Some(k) && ConvOfMessage(st.json.value) == c
  {
    TextTrichotomy(ConvOfMessage(st.json.value), c);
  }

  lemma TiesIgnoreRaw(a: Item, key: Item, raw: Stored)
    ensures Ties(a, key) <==> Ties(a, key.(raw := raw))
  {
  }

  lemma SortedIsGenuine(rows: seq<Row>)
    ensures Genuine(Entries(ToStored(rows))) && Genuine(StableSorted(Entries(ToStored(rows))))
  {
    var items, sorted := Entries(ToStored(rows)), StableSorted(Entries(ToStored(rows)));
    assert Genuine(items);
    forall i | 0 <= i < |sorted| ensures sorted[i].raw.json.Some? && sorted[i] == Entry(sorted[i].raw) {
      assert sorted[i] in multiset(items);
    }
  }

  lemma PicksUnnumbered(u: int, items: seq<Item>, key: Item)
    requires Genuine(items) && key.conv == "" && key.number == 0 && !key.ok
    ensures PicksTies(u, items, key, Unnumbered())
  {
    forall i | 0 <= i < |items| ensures Ties(items[i], key) <==> items[i].raw.json.value.number.None? {
      TiesUnnumbered(items[i].raw);
      TiesIgnoreRaw(items[i], key, items[i].raw);
    }
    hide Ties;
  }

  lemma PicksNumbered(u: int, items: seq<Item>, key: Item)
    requires Genuine(items) && key.ok
    ensures PicksTies(u, items, key, Numbered(key.conv, key.number))
  {
    forall i | 0 <= i < |items|
      ensures Ties(items[i], key) <==>
        items[i].raw.json.value.number == Some(key.number) && ConvOfMessage(items[i].raw.json.value) == key.conv
    {
      TiesNumbered(items[i].raw, key.conv, key.number);
      TiesIgnoreRaw(items[i], key, items[i].raw);
    }
    hide Ties, ConvOfMessage;
  }

  /** Picking tied rows out of the sorted batch or out of the stored rows gives the same. */
  lemma StableRows(u: int, rows: seq<Row>, key: Item, p: (nat, Row) -> bool)
    requires PicksTies(u, Entries(ToStored(rows)), key, p)
    requires PicksTies(u, StableSorted(Entries(ToStored(rows))), key, p)
    ensures Select(RowsOf(u, StableSorted(Entries(ToStored(rows)))), p) == Select(RowsOf(u, Entries(ToStored(rows))), p)
  {
    SortedIsGenuine(rows);
    hide Ties, StableSorted, Tied, Entries, RowsOf, Select, ToStored;
    TiedRows(u, Entries(ToStored(rows)), key, p);
    TiedRows(u, StableSorted(Entries(ToStored(rows))), key, p);
    StableSortedIsStable(Entries(ToStored(rows)), key);
  }

  lemma RowsComeBack(u: int, rows: seq<Row>)
    requires forall i :: 0 <= i < |rows| ==> rows[i].user == u
    ensures RowsOf(u, Entries(ToStored(rows))) == rows
  {
  }

  lemma BatchRows(offline: seq<Row>, u: int)
    ensures Batch(offline, u) == RowsOf(u, StableSorted(Entries(ToStored(Mine(offline, u)))))
  {
    hide StableSorted, Entries, FromStored, ToStored;
  }

  lemma BatchKeepsOrder(offline: seq<Row>, u: int)
    ensures KeepsOrder(Batch(offline, u), StoredFor(offline, u))
  {
    MineIs(offline, u);
    BatchRows(offline, u);
    var rows := Mine(offline, u);
    RowsComeBack(u, rows);
    SortedIsGenuine(rows);
    var items := Entries(ToStored(rows));
    var plain := Item(Stored("", None), "", 0, false);
    hide Batch, StableSorted, Entries, ToStored, Select, RowsOf, StoredFor, Genuine, PicksTies;
    PicksUnnumbered(u, items, plain);
    PicksUnnumbered(u, StableSorted(items), plain);
    StableRows(u, rows, plain, Unnumbered());
    forall c: string, k: Word
      ensures Select(Batch(offline, u), Numbered(c, k)) == Select(StoredFor(offline, u), Numbered(c, k))
    {
      var key := Item(Stored("", None), c, k, true);
      PicksNumbered(u, items, key);
      PicksNumbered(u, StableSorted(items), key);
      StableRows(u, rows, key, Numbered(c, k));
    }
  }

  lemma BatchInSequence(offline: seq<Row>, u: int)
    ensures InSequence(Batch(offline, u))
  {
    var stored := ToStored(Mine(offline, u));
    SortedIsGrouped(stored);
    SortedIsPermutation(stored);
    var sorted := Sorted(stored);
    hide Sorted, Grouped;
    forall i | 0 <= i < |sorted| ensures sorted[i].json.Some? {
      assert sorted[i] in multiset(stored);
    }
    GroupedRows(u, sorted);
  }

  lemma GroupedRows(u: int, sorted: seq<Stored>)
    requires Grouped(sorted) && forall i :: 0 <= i < |sorted| ==> sorted[i].json.Some?
    ensures InSequence(FromStored(u, sorted))
  {
    var b := FromStored(u, sorted);
    assert forall i :: 0 <= i < |b| ==> b[i].msg == sorted[i].json.value;
    assert forall i :: 0 <= i < |b| && b[i].msg.number.Some? ==> ConvOf(sorted[i]) == ConvOfMessage(b[i].msg);
  }

  /** `b` is what a login of `u` hands over of the store. */
  ghost predicate SortedBatch(b: seq<Row>, offline: seq<Row>, u: int) {
    multiset(b) == multiset(StoredFor(offline, u)) && InSequence(b) && KeepsOrder(b, StoredFor(offline, u))
  }

  lemma BatchIsSorted(offline: seq<Row>, u: int)
    ensures SortedBatch(Batch(offline, u), offline, u)
    ensures forall i :: 0 <= i < |Batch(offline, u)| ==> Batch(offline, u)[i].user == u
  {
    BatchIsMine(offline, u);
    MineIs(offline, u);
    BatchKeepsOrder(offline, u);
    BatchInSequence(offline, u);
    hide StoredFor, KeepsOrder, InSequence, Mine;
  }

  /** The node has user `u` on connection `conn`, or still on the one that it had already. */
  ghost predicate Connected(s: System, s': System, n: nat, conn: nat, u: int)
    requires n < |s.nodes|
  {
    var conns := s.nodes[n].conns;
    s'.nodes == s.nodes[n := s.nodes[n].(conns := if u in conns then conns else conns[u := conn])]
  }

  /** A login that is admitted: the user is held on this connection, subscribed and online; the user's stored
      rows leave the store, the others stay in place; sorted, they are put on the connection, or are lost
      with it if it is closed; nothing else changes. */
  ghost predicate LoggedIn(s: System, s': System, n: nat, conn: nat, u: int, b: seq<Row>)
    requires n < |s.nodes| && |s.w.subs| == |s.nodes|
  {
    var base := s.w.(subs := s.w.subs[n := s.w.subs[n] + {u}], online := s.w.online + {u},
                     offline := StoredForOthers(s.w.offline, u));
    && SortedBatch(b, s.w.offline, u)
    && s'.counters == s.counters && Connected(s, s', n, conn, u)
    && s'.w == if conn in s.w.down then base.(lost := s.w.lost + b)
               else base.(batched := s.w.batched + b,
                          mail := s.w.mail + seq(|b|, i requires 0 <= i < |b| => Envelope(conn, b[i])))
  }

  lemma Admitted(s: System, n: nat, conn: nat, name: string)
    requires Shaped(s) && n < |s.nodes| && name in s.w.users && s.w.users[name] != -1
    requires s.w.users[name] !in s.w.online
    ensures var u := s.w.users[name];
            var s', b := Do(s, Login(n, conn, name, true)), Batch(s.w.offline, u);
            var base := s.w.(subs := s.w.subs[n := s.w.subs[n] + {u}], online := s.w.online + {u},
                             offline := NotMine(s.w.offline, u));
            && s'.counters == s.counters && Connected(s, s', n, conn, u)
            && s'.w == if conn in s.w.down then base.(lost := s.w.lost + b)
                       else base.(batched := s.w.batched + b, mail := s.w.mail + Envelopes(conn, b))
  {
    hide Batch, NotMine, Envelopes;
  }

  lemma BatchLogsIn(s: System, s': System, n: nat, conn: nat, u: int, b: seq<Row>)
    requires n < |s.nodes| && |s.w.subs| == |s.nodes| && SortedBatch(b, s.w.offline, u)
    requires s'.counters == s.counters && Connected(s, s', n, conn, u)
    requires var base := s.w.(subs := s.w.subs[n := s.w.subs[n] + {u}], online := s.w.online + {u},
                              offline := StoredForOthers(s.w.offline, u));
             s'.w == if conn in s.w.down then base.(lost := s.w.lost + b)
                     else base.(batched := s.w.batched + b, mail := s.w.mail + Envelopes(conn, b))
    ensures LoggedIn(s, s', n, conn, u, b)
  {
    hide SortedBatch, StoredForOthers, Connected;
    assert Envelopes(conn, b) == seq(|b|, i requires 0 <= i < |b| => Envelope(conn, b[i]));
  }

  lemma LoginExactly(s: System, n: nat, conn: nat, name: string, ok: bool)
    requires Shaped(s) && n < |s.nodes|
    ensures var s' := Do(s, Login(n, conn, name, ok));
            if name in s.w.users && s.w.users[name] != -1 && ok && s.w.users[name] !in s.w.online then
              exists b :: LoggedIn(s, s', n, conn, s.w.users[name], b)
            else s' == s
  {
    if name in s.w.users && s.w.users[name] != -1 && ok && s.w.users[name] !in s.w.online {
      var u := s.w.users[name];
      hide Do, Batch, NotMine, StoredForOthers, SortedBatch, Envelopes, LoggedIn, Connected;
      Admitted(s, n, conn, name);
      BatchIsSorted(s.w.offline, u);
      MineIs(s.w.offline, u);
      BatchLogsIn(s, Do(s, Login(n, conn, name, true)), n, conn, u, Batch(s.w.offline, u));
    } else {
      LoginRefused(s, n, conn, name, ok);
    }
  }

  // ----- what a new client makes of it

  function MessagesOf(b: seq<Row>): seq<Message> {
    seq(|b|, i requires 0 <= i < |b| => b[i].msg)
  }

  /** The numbers stored for user `u` in conversation `c`. */
  ghost function StoredNumbers(offline: seq<Row>, u: int, c: string): set<Word> {
    set r | r in offline && r.user == u && InConversation(r.msg, c) :: r.msg.number.value
  }

  lemma {:induction false} SelectedFrom<T>(xs: seq<T>, p: (nat, T) -> bool, q: T -> bool)
    requires forall i: nat, x :: x in xs ==> (p(i, x) <==> q(x))
    ensures forall x :: x in Select(xs, p) <==> x in xs && q(x)
  {
    if xs != [] {
      var n := |xs| - 1;
      assert xs == xs[..n] + [xs[n]];
      SelectedFrom(xs[..n], p, q);
    }
  }

  lemma BatchMembers(b: seq<Row>, offline: seq<Row>, u: int)
    requires SortedBatch(b, offline, u)
    ensures forall r :: r in b <==> r in offline && r.user == u
  {
    SelectedFrom(offline, (i: nat, row: Row) => row.user == u, (row: Row) => row.user == u);
    hide InSequence, KeepsOrder, Select;
    assert forall r :: r in b <==> r in multiset(b);
    assert forall r :: r in StoredFor(offline, u) <==> r in multiset(StoredFor(offline, u));
  }

  lemma SameNumbers(b: seq<Row>, offline: seq<Row>, u: int, c: string)
    requires forall r :: r in b <==> r in offline && r.user == u
    ensures Replay.NumsIn(MessagesOf(b), c) == StoredNumbers(offline, u, c)
  {
    var msgs := MessagesOf(b);
    forall k | k in Replay.NumsIn(msgs, c) ensures k in StoredNumbers(offline, u, c) {
      var m :| m in msgs && InConversation(m, c) && m.number.value == k;
      var i :| 0 <= i < |msgs| && msgs[i] == m;
      assert b[i] in b;
    }
    forall k | k in StoredNumbers(offline, u, c) ensures k in Replay.NumsIn(msgs, c) {
      var r :| r in offline && r.user == u && InConversation(r.msg, c) && r.msg.number.value == k;
      var i :| 0 <= i < |b| && b[i] == r;
      assert msgs[i] in msgs;
    }
  }

  lemma BatchNumbers(b: seq<Row>, offline: seq<Row>, u: int, c: string)
    requires SortedBatch(b, offline, u)
    ensures Replay.NumsIn(MessagesOf(b), c) == StoredNumbers(offline, u, c)
    ensures Replay.NondecreasingIn(MessagesOf(b), c)
  {
    BatchMembers(b, offline, u);
    hide KeepsOrder, StoredFor;
    var msgs := MessagesOf(b);
    SameNumbers(b, offline, u, c);
    hide Replay.NumsIn, StoredNumbers;
    forall i, j | 0 <= i < j < |msgs| && InConversation(msgs[i], c) && InConversation(msgs[j], c)
      ensures Num(msgs[i]) <= Num(msgs[j])
    {
      assert b[j].msg.number.Some? && ConvOfMessage(b[i].msg) == c == ConvOfMessage(b[j].msg);
    }
  }

  /** A new client that is handed the batch of its login shows, of each conversation, exactly the first two
      maximal runs of the numbers stored for its user, in order, and buffers exactly the rest. */
  lemma HandedBatchIsShown(s: System, s': System, n: nat, conn: nat, u: int, b: seq<Row>, timeout: int,
                           clock: seq<nat>, order: seq<string>, reading: string -> nat, c: string)
    requires n < |s.nodes| && |s.w.subs| == |s.nodes| && LoggedIn(s, s', n, conn, u, b)
    requires |clock| == |b| && (forall i :: 0 <= i < |clock| ==> clock[i] > 0) && reading(c) > 0
    requires Ord.FeasibleRun(Ord.EMPTY, timeout, Replay.BatchInputs(MessagesOf(b), clock, order, reading))
    requires StoredNumbers(s.w.offline, u, c) != {} && LAST !in StoredNumbers(s.w.offline, u, c)
    ensures var z := Ord.Process(Ord.EMPTY, timeout, Replay.BatchInputs(MessagesOf(b), clock, order, reading));
            Replay.TwoRunsShown(MessagesOf(b), StoredNumbers(s.w.offline, u, c), c, Of(z.screen, c),
                                Ord.Lookup(z, c).pending)
  {
    assert SortedBatch(b, s.w.offline, u);
    BatchNumbers(b, s.w.offline, u, c);
    hide SortedBatch, LoggedIn, Ord.Process, Ord.FeasibleRun, Replay.BatchInputs, StoredNumbers, Replay.NumsIn,
         Replay.NondecreasingIn, Replay.TwoRunsShown;
    Replay.OrderedReplay(timeout, MessagesOf(b), clock, order, reading, c);
  }

  // ----- whose connection

  /** Whatever a step puts on a connection is for the user whom a node now holds on it: nobody is handed
      somebody else's messages, whatever user a packet is handled for. */
  lemma MailIsWellAddressed(s: System, op: Op)
    requires Presence(s) && Enabled(s, op)
    ensures WellAddressed(Do(s, op), s.w.mail, Do(s, op).w.mail)
  {
    match op
    case Login(n, conn, name, ok) => LoginWell(s, n, conn, name, ok);
    case Chat(n, a, t, m, r, o) => ChatWell(s, op);
    case GroupChat(n, a, g, ms, m, r, o) => ChatWell(s, op);
    case Arrive(i, u) =>
      ArrivalExactly(s, i, u);
      assert u in s.nodes[s.w.flight[i].node].conns ==> Holds(Do(s, op), s.w.flight[i].node, u);
    case _ =>
      assert Do(s, op).w.mail == s.w.mail;
  }

  lemma LoggedInWell(s: System, s': System, n: nat, conn: nat, u: int, b: seq<Row>)
    requires n < |s.nodes| && |s.w.subs| == |s.nodes| && LoggedIn(s, s', n, conn, u, b)
    requires (forall r :: r in b ==> r.user == u) && u !in s.nodes[n].conns
    ensures WellAddressed(s', s.w.mail, s'.w.mail)
  {
    hide SortedBatch, StoredForOthers;
    assert Holds(s', n, u) && s'.nodes[n].conns[u] == conn;
    forall i | |s.w.mail| <= i < |s'.w.mail| ensures s'.w.mail[i].conn == conn && s'.w.mail[i].row.user == u {
      assert b[i - |s.w.mail|] in b;
    }
  }

  lemma LoginWell(s: System, n: nat, conn: nat, name: string, ok: bool)
    requires Presence(s) && n < |s.nodes|
    ensures WellAddressed(Do(s, Login(n, conn, name, ok)), s.w.mail, Do(s, Login(n, conn, name, ok)).w.mail)
  {
    LoginExactly(s, n, conn, name, ok);
    var s' := Do(s, Login(n, conn, name, ok));
    if s' != s {
      var u := s.w.users[name];
      var b :| LoggedIn(s, s', n, conn, u, b);
      assert SortedBatch(b, s.w.offline, u);
      assert !Holds(s, n, u);
      hide Do, SortedBatch, LoggedIn, WellAddressed, Presence;
      BatchMembers(b, s.w.offline, u);
      LoggedInWell(s, s', n, conn, u, b);
    }
  }
}
