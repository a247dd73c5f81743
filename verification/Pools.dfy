/** The pool of database connections: what its threads do to it, one critical section at a time, and
    what every interleaving of them keeps. */
module Pools {
  import opened Messages

  /** Configured sizes; `maxIdleTime` is in seconds. */
  datatype Sizes = Sizes(initSize: int, maxSize: int, maxIdleTime: int)

  /** A connection waiting in the queue, and when it was last used. */
  datatype Idle<C> = Idle(conn: C, alive: int)

  /** `_connQueue`, the connections that borrowers hold, and `_connCount`. */
  datatype Pool<C(==)> = Pool(queue: seq<Idle<C>>, leased: set<C>, count: int)

  const CLOCKS_PER_SEC: int := 1_000_000

  /** Integer division as C++ does it. */
  function Seconds(ticks: int): int {
    if ticks >= 0 then ticks / CLOCKS_PER_SEC else -((-ticks) / CLOCKS_PER_SEC)
  }

  predicate Overdue<C>(i: Idle<C>, z: Sizes, now: int) {
    Seconds(now - i.alive) >= z.maxIdleTime
  }

  // ----- the critical sections

  /** `produceConnection`, woken up: `connected` tells whether the new connection `c` could be opened. */
  function Produced<C>(p: Pool<C>, z: Sizes, c: C, connected: bool, now: int): Pool<C> {
    if (p.queue == [] || p.count >= z.maxSize) && p.count < z.maxSize && connected then
      p.(queue := p.queue + [Idle(c, now)], count := p.count + 1)
    else p
  }

  /** `getConnection`; on an empty queue the wait has timed out. */
  function Borrowed<C>(p: Pool<C>): (Pool<C>, Option<C>) {
    if p.queue == [] then (p, None)
    else (p.(queue := p.queue[1..], leased := p.leased + {p.queue[0].conn}), Some(p.queue[0].conn))
  }

  /** The deleter of a lent connection. */
  function Returned<C>(p: Pool<C>, c: C, now: int): Pool<C> {
    p.(queue := p.queue + [Idle(c, now)], leased := p.leased - {c})
  }

  /** `scanIdleConnection`, once awake: the i-th look at the clock reads `clock[i]`. */
  function Scanned<C>(p: Pool<C>, z: Sizes, clock: seq<int>): (q: Pool<C>)
    requires |clock| >= |p.queue|
    ensures |q.queue| <= |p.queue|
    decreases |p.queue|
  {
    if p.count > z.initSize && p.queue != [] && Overdue(p.queue[0], z, clock[0]) then
      Scanned(p.(queue := p.queue[1..], count := p.count - 1), z, clock[1..])
    else p
  }

  datatype Op<C> =
    | Produce(c: C, connected: bool, now: int)
    | Borrow
    | GiveBack(c: C, now: int)
    | Scan(clock: seq<int>)

  predicate Queued<C(==)>(p: Pool<C>, c: C) {
    exists i :: 0 <= i < |p.queue| && p.queue[i].conn == c
  }

  /** A produced connection is a new object, only a borrower gives back, and the clock can be read as
      often as the scan needs it. */
  predicate Enabled<C>(p: Pool<C>, op: Op<C>) {
    match op
    case Produce(c, _, _) => !Queued(p, c) && c !in p.leased
    case Borrow => true
    case GiveBack(c, _) => c in p.leased
    case Scan(clock) => |clock| >= |p.queue|
  }

  function Do<C>(p: Pool<C>, z: Sizes, op: Op<C>): Pool<C>
    requires Enabled(p, op)
  {
    match op
    case Produce(c, connected, now) => Produced(p, z, c, connected, now)
    case Borrow => Borrowed(p).0
    case GiveBack(c, now) => Returned(p, c, now)
    case Scan(clock) => Scanned(p, z, clock)
  }

  // ----- invariants

  function Max(a: int, b: int): int {
    if a > b then a else b
  }

  /** Every connection is in one place and counted. */
  ghost predicate Accounted<C>(p: Pool<C>) {
    && p.count == |p.queue| + |p.leased|
    && (forall i, j :: 0 <= i < j < |p.queue| ==> p.queue[i].conn != p.queue[j].conn)
    && (forall i :: 0 <= i < |p.queue| ==> p.queue[i].conn !in p.leased)
  }

  /** Between the initial and the maximal size. */
  predicate Sized<C>(p: Pool<C>, z: Sizes) {
    Max(0, z.initSize) <= p.count <= Max(Max(0, z.initSize), z.maxSize)
  }

  /** The longer a connection has been waiting, the nearer it is to the front. */
  ghost predicate ByAge<C>(queue: seq<Idle<C>>, last: int) {
    && (forall i, j :: 0 <= i <= j < |queue| ==> queue[i].alive <= queue[j].alive)
    && (forall i :: 0 <= i < |queue| ==> queue[i].alive <= last)
  }

  ghost predicate Inv<C>(p: Pool<C>, z: Sizes, last: int) {
    Accounted(p) && Sized(p, z) && ByAge(p.queue, last)
  }

  lemma ProduceKeepsInv<C>(p: Pool<C>, z: Sizes, c: C, connected: bool, now: int, last: int)
    requires Inv(p, z, last) && last <= now && !Queued(p, c) && c !in p.leased
    ensures Inv(Produced(p, z, c, connected, now), z, now)
  {
  }

  lemma BorrowKeepsInv<C>(p: Pool<C>, z: Sizes, last: int)
    requires Inv(p, z, last)
    ensures Inv(Borrowed(p).0, z, last)
  {
    if p.queue != [] {
      assert |p.leased + {p.queue[0].conn}| == |p.leased| + 1;
    }
  }

  lemma GiveBackKeepsInv<C>(p: Pool<C>, z: Sizes, c: C, now: int, last: int)
    requires Inv(p, z, last) && last <= now && c in p.leased
    ensures Inv(Returned(p, c, now), z, now)
  {
    assert |p.leased - {c}| == |p.leased| - 1;
  }

  /** Unused for `seconds` whole seconds, on a clock of a million ticks a second. */
  predicate Unused<C>(i: Idle<C>, seconds: int, now: int) {
    if seconds > 0 then now - i.alive >= seconds * 1_000_000 else now - i.alive > (seconds - 1) * 1_000_000
  }

  lemma OverdueMeans<C>(i: Idle<C>, z: Sizes, now: int)
    ensures Overdue(i, z, now) <==> Unused(i, z.maxIdleTime, now)
  {
  }

  /** The first `k` connections are overdue when looked at, with more than the initial number left each
      time; the next one is not. */
  ghost predicate Front<C>(p: Pool<C>, z: Sizes, clock: seq<int>, k: nat) {
    && k <= |p.queue| <= |clock|
    && (forall i :: 0 <= i < k ==> Unused(p.queue[i], z.maxIdleTime, clock[i]) && p.count - i > z.initSize)
    && (k < |p.queue| && p.count - k > z.initSize ==> !Unused(p.queue[k], z.maxIdleTime, clock[k]))
  }

  lemma LongerFront<C>(p: Pool<C>, rest: Pool<C>, z: Sizes, clock: seq<int>, k: nat)
    requires p.queue != [] && rest.queue == p.queue[1..] && rest.count == p.count - 1 && clock != []
    requires Unused(p.queue[0], z.maxIdleTime, clock[0]) && p.count > z.initSize && Front(rest, z, clock[1..], k)
    ensures Front(p, z, clock, k + 1) && rest.queue[k..] == p.queue[k + 1..]
  {
    hide Unused;
    DropTwice(p.queue, k);
    forall i | 0 <= i < k + 1 ensures Unused(p.queue[i], z.maxIdleTime, clock[i]) && p.count - i > z.initSize {
      if i > 0 {
        Shifted(p.queue, clock, i - 1);
        assert Unused(rest.queue[i - 1], z.maxIdleTime, clock[1..][i - 1]) && rest.count - (i - 1) > z.initSize;
      }
    }
    if k < |rest.queue| {
      Shifted(p.queue, clock, k);
      assert rest.count - k > z.initSize ==> !Unused(rest.queue[k], z.maxIdleTime, clock[1..][k]);
    }
  }

  lemma Shifted<S, T>(queue: seq<S>, clock: seq<T>, i: nat)
    requires i + 1 < |queue| <= |clock|
    ensures queue[1..][i] == queue[i + 1] && clock[1..][i] == clock[i + 1]
  {
  }

  lemma DropTwice<T>(s: seq<T>, k: nat)
    requires k < |s|
    ensures |s[1..]| == |s| - 1 && s[1..][k..] == s[k + 1..]
  {
  }

  /** A scan closes the connections at the front of the queue, as many as it may, and touches nothing else. */
  lemma {:induction false} ScanTakesFront<C>(p: Pool<C>, z: Sizes, clock: seq<int>)
    requires |clock| >= |p.queue|
    ensures var q := Scanned(p, z, clock);
            var k := |p.queue| - |q.queue|;
            k >= 0 && Front(p, z, clock, k) && q == p.(queue := p.queue[k..], count := p.count - k)
    decreases |p.queue|
  {
    if p.queue != [] {
      OverdueMeans(p.queue[0], z, clock[0]);
    }
    hide Overdue, Unused, Front;
    if p.count > z.initSize && p.queue != [] && Overdue(p.queue[0], z, clock[0]) {
      var rest := p.(queue := p.queue[1..], count := p.count - 1);
      ScanTakesFront(rest, z, clock[1..]);
      LongerFront(p, rest, z, clock, |rest.queue| - |Scanned(rest, z, clock[1..]).queue|);
    } else {
      NoFront(p, z, clock);
    }
  }

  lemma NoFront<C>(p: Pool<C>, z: Sizes, clock: seq<int>)
    requires |clock| >= |p.queue|
    requires !(p.count > z.initSize && p.queue != [] && Unused(p.queue[0], z.maxIdleTime, clock[0]))
    ensures Front(p, z, clock, 0) && p.queue[0..] == p.queue
  {
    hide Unused;
  }

  lemma ScanKeepsInv<C>(p: Pool<C>, z: Sizes, clock: seq<int>, last: int)
    requires Inv(p, z, last) && |clock| >= |p.queue|
    ensures Inv(Scanned(p, z, clock), z, last)
  {
    ScanTakesFront(p, z, clock);
    hide Scanned, Unused, Inv;
    var k := |p.queue| - |Scanned(p, z, clock).queue|;
    if k > 0 {
      assert Unused(p.queue[k - 1], z.maxIdleTime, clock[k - 1]) && p.count - (k - 1) > z.initSize;
    }
    TakenKeepsInv(p, z, k, last);
  }

  lemma TakenKeepsInv<C>(p: Pool<C>, z: Sizes, k: nat, last: int)
    requires Inv(p, z, last) && k <= |p.queue| && (k > 0 ==> p.count - k >= z.initSize)
    ensures Inv(p.(queue := p.queue[k..], count := p.count - k), z, last)
  {
  }

  // ----- runs

  /** The clock readings of an operation, given that `last` was the latest before it. */
  ghost predicate Timely<C>(last: int, op: Op<C>) {
    match op
    case Produce(_, _, now) => last <= now
    case Borrow => true
    case GiveBack(_, now) => last <= now
    case Scan(clock) => (forall i :: 0 <= i < |clock| ==> last <= clock[i]) &&
                        (forall i, j :: 0 <= i <= j < |clock| ==> clock[i] <= clock[j])
  }

  function After<C>(last: int, op: Op<C>): int {
    match op
    case Produce(_, _, now) => now
    case Borrow => last
    case GiveBack(_, now) => now
    case Scan(clock) => if clock == [] then last else clock[|clock| - 1]
  }

  /** The pool and the latest clock reading after a run; a step that is not enabled changes nothing. */
  function Run<C>(p: Pool<C>, z: Sizes, last: int, ops: seq<Op<C>>): (Pool<C>, int) {
    if ops == [] then (p, last)
    else
      var (before, t) := Run(p, z, last, ops[..|ops| - 1]);
      var op := ops[|ops| - 1];
      if Enabled(before, op) then (Do(before, z, op), After(t, op)) else (before, t)
  }

  ghost predicate TimelyRun<C>(p: Pool<C>, z: Sizes, last: int, ops: seq<Op<C>>) {
    forall n :: 0 <= n < |ops| ==> Timely(Run(p, z, last, ops[..n]).1, ops[n])
  }

  lemma LaterIsFine<C>(p: Pool<C>, z: Sizes, last: int, later: int)
    requires Inv(p, z, last) && last <= later
    ensures Inv(p, z, later)
  {
  }

  lemma DoKeepsInv<C>(p: Pool<C>, z: Sizes, last: int, op: Op<C>)
    requires Inv(p, z, last) && Enabled(p, op) && Timely(last, op)
    ensures Inv(Do(p, z, op), z, After(last, op))
  {
    hide Inv;
    match op
    case Produce(c, connected, now) => ProduceKeepsInv(p, z, c, connected, now, last);
    case Borrow => BorrowKeepsInv(p, z, last);
    case GiveBack(c, now) => GiveBackKeepsInv(p, z, c, now, last);
    case Scan(clock) =>
      ScanKeepsInv(p, z, clock, last);
      LaterIsFine(Scanned(p, z, clock), z, last, After(last, op));
  }

  /** What the constructor leaves behind: the initial connections, all of them idle. */
  ghost predicate Opened<C>(p: Pool<C>, z: Sizes, clock: seq<int>) {
    && |clock| == |p.queue| == p.count == Max(0, z.initSize) && p.leased == {}
    && (forall i :: 0 <= i < |clock| ==> p.queue[i].alive == clock[i])
    && (forall i, j :: 0 <= i < j < |p.queue| ==> p.queue[i].conn != p.queue[j].conn)
  }

  ghost predicate Rising(clock: seq<int>, last: int) {
    && (forall i, j :: 0 <= i <= j < |clock| ==> clock[i] <= clock[j])
    && (forall i :: 0 <= i < |clock| ==> clock[i] <= last)
  }

  lemma OpenedIsFine<C>(p: Pool<C>, z: Sizes, clock: seq<int>, last: int)
    requires Opened(p, z, clock) && Rising(clock, last)
    ensures Inv(p, z, last)
  {
  }

  lemma TimelyPrefix<C>(p: Pool<C>, z: Sizes, last: int, ops: seq<Op<C>>)
    requires TimelyRun(p, z, last, ops) && ops != []
    ensures TimelyRun(p, z, last, ops[..|ops| - 1])
    ensures Timely(Run(p, z, last, ops[..|ops| - 1]).1, ops[|ops| - 1])
  {
    hide Timely, Run;
    var n := |ops| - 1;
    forall i | 0 <= i < n ensures Timely(Run(p, z, last, ops[..n][..i]).1, ops[..n][i]) {
      assert ops[..n][..i] == ops[..i];
    }
  }

  lemma {:induction false} RunFrom<C>(p: Pool<C>, z: Sizes, last: int, ops: seq<Op<C>>)
    requires Inv(p, z, last) && TimelyRun(p, z, last, ops)
    ensures var (q, t) := Run(p, z, last, ops); Inv(q, z, t)
  {
    hide Do, Timely, TimelyRun, Enabled, Inv;
    if ops != [] {
      var n := |ops| - 1;
      TimelyPrefix(p, z, last, ops);
      RunFrom(p, z, last, ops[..n]);
      var (before, t) := Run(p, z, last, ops[..n]);
      if Enabled(before, ops[n]) {
        DoKeepsInv(before, z, t, ops[n]);
      }
    }
  }

  /** Pool accounting: under any interleaving, every connection is queued or lent and counted once, the
      count stays between the initial and the maximal size, and the queue stays ordered by age. */
  lemma RunKeepsInv<C>(p: Pool<C>, z: Sizes, clock: seq<int>, last: int, ops: seq<Op<C>>)
    requires Opened(p, z, clock) && Rising(clock, last) && TimelyRun(p, z, last, ops)
    ensures var (q, t) := Run(p, z, last, ops);
            Inv(q, z, t) && (0 <= z.initSize <= z.maxSize ==> z.initSize <= |q.queue| + |q.leased| <= z.maxSize)
  {
    OpenedIsFine(p, z, clock, last);
    RunFrom(p, z, last, ops);
    hide Run, TimelyRun, Opened, Rising;
  }

  // ----- the idle scan

  lemma YoungerIsUsed<C>(a: Idle<C>, b: Idle<C>, seconds: int, now: int)
    requires a.alive <= b.alive && !Unused(a, seconds, now)
    ensures !Unused(b, seconds, now)
  {
  }

  /** Nothing more could have been closed at clock reading `now`. */
  ghost predicate Swept<C>(q: Pool<C>, z: Sizes, now: int) {
    q.count <= z.initSize || forall i :: 0 <= i < |q.queue| ==> !Unused(q.queue[i], z.maxIdleTime, now)
  }

  /** The scan misses nothing although it stops at the first connection that is not overdue: at its last
      look at the clock no connection in the queue was, unless the pool is down to its initial size. */
  lemma ScanIsComplete<C>(p: Pool<C>, z: Sizes, clock: seq<int>, last: int)
    requires ByAge(p.queue, last) && |clock| >= |p.queue|
    ensures var q := Scanned(p, z, clock);
            q.queue != [] ==> Swept(q, z, clock[|p.queue| - |q.queue|])
  {
    ScanTakesFront(p, z, clock);
    var q := Scanned(p, z, clock);
    var k := |p.queue| - |q.queue|;
    hide Scanned, Unused;
    if q.queue != [] && q.count > z.initSize {
      forall i | 0 <= i < |q.queue| ensures !Unused(q.queue[i], z.maxIdleTime, clock[k]) {
        YoungerIsUsed(p.queue[k], p.queue[k + i], z.maxIdleTime, clock[k]);
      }
    }
  }

  /** The order of the queue is what makes this so: behind a younger connection an overdue one is missed. */
  lemma EarlyExitNeedsOrder(z: Sizes, a: int, b: int, now: int)
    requires a != b && z.maxIdleTime > 0 && z.initSize == 0 && now >= 0
    ensures var stale := Idle(b, now - 1_000_000 * z.maxIdleTime);
            var p := Pool([Idle(a, now), stale], {}, 2);
            Scanned(p, z, [now, now]) == p && Unused(stale, z.maxIdleTime, now) && !Swept(p, z, now)
  {
    var stale := Idle(b, now - 1_000_000 * z.maxIdleTime);
    var p := Pool([Idle(a, now), stale], {}, 2);
    assert p.queue[1] == stale;
    OverdueMeans(p.queue[0], z, now);
    hide Overdue;
  }

  // ----- borrowing

  /** A borrower goes away empty-handed exactly when every connection is lent; otherwise it gets the one
      that has been waiting longest. */
  lemma BorrowFailsExactly<C>(p: Pool<C>, z: Sizes, last: int)
    requires Inv(p, z, last)
    ensures Borrowed(p).1.None? <==> |p.leased| == p.count
    ensures Borrowed(p).1.Some? ==>
              exists i :: 0 <= i < |p.queue| && p.queue[i].conn == Borrowed(p).1.value &&
                forall j :: 0 <= j < |p.queue| ==> p.queue[i].alive <= p.queue[j].alive
  {
  }

  /** A borrower gets the front of the queue, which had not been lent, is lent now and has left the queue. */
  lemma BorrowExactly<C>(p: Pool<C>)
    requires Accounted(p)
    ensures var (q, r) := Borrowed(p);
            if p.queue == [] then q == p && r == None
            else
              var c := p.queue[0].conn;
              && r == Some(c) && c !in p.leased && q.leased == p.leased + {c}
              && q.queue == p.queue[1..] && !Queued(q, c) && q.count == p.count
  {
  }

  /** A returned connection is no longer lent and goes to the end of the queue, with the time of its return. */
  lemma ReturnExactly<C>(p: Pool<C>, c: C, now: int)
    requires Accounted(p) && c in p.leased
    ensures var q := Returned(p, c, now);
            && !Queued(p, c) && c !in q.leased && q.leased + {c} == p.leased
            && |q.queue| == |p.queue| + 1 && q.queue[..|p.queue|] == p.queue && q.queue[|p.queue|] == Idle(c, now)
            && q.count == p.count
  {
  }

  /** The pool grows exactly when the queue is empty, the maximal size is not reached and the connection
      opens; the next borrower then gets it. */
  lemma ProduceExactly<C>(p: Pool<C>, z: Sizes, c: C, connected: bool, now: int)
    ensures var q := Produced(p, z, c, connected, now);
            if p.queue == [] && p.count < z.maxSize && connected then
              q.queue == [Idle(c, now)] && q.leased == p.leased && q.count == p.count + 1 && Borrowed(q).1 == Some(c)
            else q == p
  {
  }

  lemma ScanKeepsAccounted<C>(p: Pool<C>, z: Sizes, clock: seq<int>)
    requires Accounted(p) && |clock| >= |p.queue|
    ensures Accounted(Scanned(p, z, clock)) && Scanned(p, z, clock).leased == p.leased
  {
    ScanTakesFront(p, z, clock);
    hide Scanned, Front;
  }

  lemma DoKeepsAccounted<C>(p: Pool<C>, z: Sizes, op: Op<C>)
    requires Accounted(p) && Enabled(p, op)
    ensures Accounted(Do(p, z, op))
  {
    match op
    case Produce(c, connected, now) =>
    case Borrow =>
      if p.queue != [] {
        assert |p.leased + {p.queue[0].conn}| == |p.leased| + 1;
      }
    case GiveBack(c, now) => assert |p.leased - {c}| == |p.leased| - 1;
    case Scan(clock) => ScanKeepsAccounted(p, z, clock);
  }

  lemma {:induction false} RunKeepsAccounted<C>(p: Pool<C>, z: Sizes, last: int, ops: seq<Op<C>>)
    requires Accounted(p)
    ensures Accounted(Run(p, z, last, ops).0)
  {
    hide Accounted, Do, Enabled;
    if ops != [] {
      var n := |ops| - 1;
      RunKeepsAccounted(p, z, last, ops[..n]);
      var before := Run(p, z, last, ops[..n]).0;
      if Enabled(before, ops[n]) {
        DoKeepsAccounted(before, z, ops[n]);
      }
    }
  }

  lemma StaysLent<C>(p: Pool<C>, z: Sizes, op: Op<C>, c: C)
    requires Accounted(p) && Enabled(p, op) && c in p.leased && !(op.GiveBack? && op.c == c)
    ensures c in Do(p, z, op).leased
  {
    if op.Scan? {
      ScanKeepsAccounted(p, z, op.clock);
    }
    hide Scanned;
  }

  /** A lent connection stays lent until it is given back. */
  lemma {:induction false} LentUntilReturned<C>(p: Pool<C>, z: Sizes, last: int, ops: seq<Op<C>>, c: C)
    requires Accounted(p) && c in p.leased
    requires forall i :: 0 <= i < |ops| ==> !(ops[i].GiveBack? && ops[i].c == c)
    ensures c in Run(p, z, last, ops).0.leased
  {
    hide Accounted, Do, Enabled;
    if ops != [] {
      var n := |ops| - 1;
      LentUntilReturned(p, z, last, ops[..n], c);
      RunKeepsAccounted(p, z, last, ops[..n]);
      var before := Run(p, z, last, ops[..n]).0;
      if Enabled(before, ops[n]) {
        StaysLent(before, z, ops[n], c);
      }
    }
  }

  lemma {:induction false} RunConcat<C>(p: Pool<C>, z: Sizes, last: int, a: seq<Op<C>>, b: seq<Op<C>>)
    ensures Run(p, z, last, a + b) == var (q, t) := Run(p, z, last, a); Run(q, z, t, b)
  {
    hide Do, Enabled;
    if b == [] {
      assert a + b == a;
    } else {
      var n := |b| - 1;
      assert (a + b)[..|a + b| - 1] == a + b[..n];
      RunConcat(p, z, last, a, b[..n]);
    }
  }

  /** The borrow at place `i` of a run hands out `c`. */
  ghost predicate Lends<C>(p: Pool<C>, z: Sizes, last: int, ops: seq<Op<C>>, i: nat, c: C) {
    i < |ops| && ops[i].Borrow? && Borrowed(Run(p, z, last, ops[..i]).0).1 == Some(c)
  }

  lemma LendsMeans<C>(p: Pool<C>, z: Sizes, last: int, ops: seq<Op<C>>, i: nat, c: C)
    requires Accounted(p) && Lends(p, z, last, ops, i, c)
    ensures c !in Run(p, z, last, ops[..i]).0.leased && c in Run(p, z, last, ops[..i + 1]).0.leased
  {
    RunKeepsAccounted(p, z, last, ops[..i]);
    BorrowExactly(Run(p, z, last, ops[..i]).0);
    assert ops[..i + 1][..i] == ops[..i];
    hide Accounted;
  }

  /** No double lending: between two borrows that hand out the same connection it was given back. */
  lemma NoDoubleLending<C>(p: Pool<C>, z: Sizes, last: int, ops: seq<Op<C>>, i: nat, j: nat, c: C)
    requires Accounted(p) && Lends(p, z, last, ops, i, c) && Lends(p, z, last, ops, j, c) && i < j
    ensures exists k :: i < k < j && ops[k].GiveBack? && ops[k].c == c
  {
    LendsMeans(p, z, last, ops, i, c);
    LendsMeans(p, z, last, ops, j, c);
    hide Run, Accounted, Lends;
    var a, b := ops[..i + 1], ops[i + 1..j];
    assert ops[..j] == a + b;
    if forall k :: 0 <= k < |b| ==> !(b[k].GiveBack? && b[k].c == c) {
      LentAlong(p, z, last, a, b, c);
    } else {
      var k :| 0 <= k < |b| && b[k].GiveBack? && b[k].c == c;
      assert ops[i + 1 + k] == b[k];
    }
  }

  lemma LentAlong<C>(p: Pool<C>, z: Sizes, last: int, a: seq<Op<C>>, b: seq<Op<C>>, c: C)
    requires Accounted(p) && c in Run(p, z, last, a).0.leased
    requires forall k :: 0 <= k < |b| ==> !(b[k].GiveBack? && b[k].c == c)
    ensures c in Run(p, z, last, a + b).0.leased
  {
    hide Run, Accounted;
    RunConcat(p, z, last, a, b);
    RunKeepsAccounted(p, z, last, a);
    var (q, t) := Run(p, z, last, a);
    LentUntilReturned(q, z, t, b, c);
  }

  /** Once the pool is exhausted at its maximal size, nothing but a return changes it: no run without
      one lets any borrower succeed. */
  lemma {:induction false} ExhaustedUntilReturn<C>(p: Pool<C>, z: Sizes, last: int, ops: seq<Op<C>>)
    requires p.queue == [] && p.count >= z.maxSize
    requires forall i :: 0 <= i < |ops| ==> !ops[i].GiveBack?
    ensures Run(p, z, last, ops).0 == p && Borrowed(Run(p, z, last, ops).0).1 == None
  {
    if ops != [] {
      ExhaustedUntilReturn(p, z, last, ops[..|ops| - 1]);
    }
  }

  // ----- the pool itself

  class Connection {
    var aliveTime: int

    constructor ()
    {
      aliveTime := 0;
    }

    method RefreshAliveTime(now: int)
      modifies this
      ensures aliveTime == now
    {
      aliveTime := now;
    }
  }

  class ConnectionPool {
    const sizes: Sizes
    var connQueue: seq<Connection>
    var connCount: int
    /** The connections whose deleter has not run yet. */
    ghost var leased: set<Connection>

    ghost function View(): Pool<Connection>
      reads this, connQueue
    {
      Pool(seq(|connQueue|, i requires 0 <= i < |connQueue| reads this, connQueue =>
                            Idle(connQueue[i], connQueue[i].aliveTime)),
           leased, connCount)
    }

    /** The i-th initial connection is opened at `clock[i]`; a failure to open one ends the program. */
    constructor (sizes: Sizes, clock: seq<int>)
      requires |clock| == Max(0, sizes.initSize)
      ensures this.sizes == sizes && Opened(View(), sizes, clock)
    {
      this.sizes := sizes;
      connQueue, connCount, leased := [], 0, {};
      new;
      var i := 0;
      while i < sizes.initSize
        invariant 0 <= i <= |clock| && connCount == i == |connQueue| && leased == {}
        invariant forall j :: 0 <= j < i ==> fresh(connQueue[j]) && connQueue[j].aliveTime == clock[j]
        invariant forall j, k :: 0 <= j < k < i ==> connQueue[j] != connQueue[k]
      {
        var c := new Connection();
        c.RefreshAliveTime(clock[i]);
        connQueue := connQueue + [c];
        connCount := connCount + 1;
        i := i + 1;
      }
    }

    /** `produceConnection`, one turn of its loop. */
    method ProduceConnection(connected: bool, now: int) returns (made: Option<Connection>)
      modifies this
      ensures made.Some? <==> old(connQueue) == [] && old(connCount) < sizes.maxSize && connected
      ensures made.Some? ==> fresh(made.value) && View() == Produced(old(View()), sizes, made.value, connected, now)
      ensures made.None? ==> View() == old(View()) && forall c :: Produced(View(), sizes, c, connected, now) == View()
    {
      made := None;
      if !(connQueue == [] || connCount >= sizes.maxSize) {
        return;
      }
      if connCount < sizes.maxSize {
        var c := new Connection();
        if connected {
          c.RefreshAliveTime(now);
          connQueue := connQueue + [c];
          connCount := connCount + 1;
          made := Some(c);
        }
      }
    }

    /** `getConnection`, after the wait. */
    method GetConnection() returns (r: Option<Connection>)
      modifies this
      ensures (View(), r) == Borrowed(old(View()))
    {
      if connQueue == [] {
        return None;
      }
      var c := connQueue[0];
      ghost var p := View();
      connQueue := connQueue[1..];
      leased := leased + {c};
      r := Some(c);
      assert View().queue == p.queue[1..];
    }

    /** The deleter that `getConnection` hands out. */
    method GiveBack(c: Connection, now: int)
      requires Accounted(View()) && c in leased
      modifies this, c
      ensures View() == Returned(old(View()), c, now)
    {
      assert forall i :: 0 <= i < |connQueue| ==> View().queue[i].conn == connQueue[i];
      c.RefreshAliveTime(now);
      connQueue := connQueue + [c];
      leased := leased - {c};
    }

    /** `scanIdleConnection`, one turn of its outer loop. */
    method ScanIdleConnection(clock: seq<int>)
      requires |clock| >= |connQueue|
      modifies this
      ensures View() == Scanned(old(View()), sizes, clock)
    {
      var readings := clock;
      while connCount > sizes.initSize && connQueue != []
        invariant |readings| >= |connQueue|
        invariant Scanned(View(), sizes, readings) == Scanned(old(View()), sizes, clock)
        decreases |connQueue|
      {
        var c := connQueue[0];
        if Seconds(readings[0] - c.aliveTime) >= sizes.maxIdleTime {
          ghost var p := View();
          connQueue := connQueue[1..];
          connCount := connCount - 1;
          assert View() == p.(queue := p.queue[1..], count := p.count - 1);
          readings := readings[1..];
        } else {
          break;
        }
      }
    }
  }
}
