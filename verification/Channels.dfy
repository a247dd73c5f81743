/** One conversation's channel in the client-side reorderer: what each entry point does to it,
    with the draining loop in closed form. */
module Channels {
  import opened Messages

  const DEDUP_LIMIT: nat := 4096
  const NANOS_PER_MILLI: int := 1_000_000

  /** `struct Channel`; `cursor` is its field `expect`. Clock readings are positive nanoseconds; 0 in `gapSince` means
      "no gap". */
  datatype Channel = Channel(
    initialized: bool,
    cursor: Word,
    pending: map<Word, Message>,
    delivered: set<Word>,
    gapSince: nat)

  const FRESH: Channel := Channel(false, 0, map[], {}, 0)

  /** A channel after a step and what the step showed. */
  datatype Step = Step(ch: Channel, out: seq<Message>)

  // ----- sets of numbers

  ghost function Above(keys: set<Word>, lo: nat): set<Word> {
    set k | k in keys && lo <= k
  }

  lemma AboveShrinks(keys: set<Word>, lo: nat)
    requires lo in keys
    ensures |Above(keys, lo + 1)| < |Above(keys, lo)|
  {
    assert Above(keys, lo) == Above(keys, lo + 1) + {lo};
  }

  /** The least number from `lo` on that is not a key. */
  ghost function RunEnd(keys: set<Word>, lo: nat): (e: nat)
    ensures lo <= e && e !in keys
    ensures forall k :: lo <= k < e ==> k in keys
    decreases |Above(keys, lo)|
  {
    if lo in keys then
      AboveShrinks(keys, lo);
      RunEnd(keys, lo + 1)
    else lo
  }

  lemma RunEndIs(keys: set<Word>, lo: nat, e: nat)
    requires lo <= e && e !in keys
    requires forall k :: lo <= k < e ==> k in keys
    ensures RunEnd(keys, lo) == e
  {
    var r := RunEnd(keys, lo);
    assert r < e ==> r in keys;
    assert e < r ==> e in keys;
  }

  lemma RunEndInWord(keys: set<Word>, lo: nat)
    requires lo <= WORD
    ensures RunEnd(keys, lo) <= WORD
  {
    var e := RunEnd(keys, lo);
    assert e > WORD ==> e - 1 in keys;
  }

  lemma {:induction false} LeastExists(keys: set<Word>, x: Word)
    requires x in keys
    ensures exists k :: k in keys && forall j :: j in keys ==> k <= j
    decreases x
  {
    if y :| y in keys && y < x {
      LeastExists(keys, y);
    } else {
      assert x in keys && forall j :: j in keys ==> x <= j;
    }
  }

  ghost function Least(keys: set<Word>): (k: Word)
    requires keys != {}
    ensures k in keys && forall j :: j in keys ==> k <= j
  {
    var x :| x in keys;
    LeastExists(keys, x);
    var k :| k in keys && forall j :: j in keys ==> k <= j;
    k
  }

  // ----- delivery

  /** The dedup set after showing number `s`. */
  function Remember(delivered: set<Word>, s: Word): set<Word> {
    var d := delivered + {s};
    if |d| > DEDUP_LIMIT then {} else d
  }

  function RememberRange(delivered: set<Word>, lo: nat, hi: nat): set<Word>
    requires lo <= hi <= WORD
    decreases hi
  {
    if lo == hi then delivered else Remember(RememberRange(delivered, lo, hi - 1), hi - 1)
  }

  function Deliver(ch: Channel, s: Word): Channel {
    ch.(delivered := Remember(ch.delivered, s), cursor := (s + 1) % WORD, gapSince := 0)
  }

  ghost predicate HasRun(pending: map<Word, Message>, lo: nat, hi: nat) {
    lo <= hi <= WORD && forall k :: lo <= k < hi ==> k in pending
  }

  /** The buffered messages numbered `lo` .. `hi - 1`. */
  ghost function Run(pending: map<Word, Message>, lo: nat, hi: nat): seq<Message>
    requires HasRun(pending, lo, hi)
  {
    seq(hi - lo, i requires 0 <= i < hi - lo => pending[lo + i])
  }

  ghost function From(pending: map<Word, Message>, lo: nat): map<Word, Message> {
    map k | k in pending && lo <= k :: pending[k]
  }

  /** The channel once every number in `cursor .. e - 1` has been taken out of the buffer and shown. */
  ghost function AfterRun(ch: Channel, e: nat): Channel
    requires ch.cursor <= e <= WORD
  {
    ch.(cursor := e % WORD,
        pending := From(ch.pending, e),
        delivered := RememberRange(ch.delivered, ch.cursor, e),
        gapSince := if ch.cursor < e then 0 else ch.gapSince)
  }

  function Restart(ch: Channel, now: nat): Channel {
    if ch.pending != map[] && ch.gapSince == 0 then ch.(gapSince := now) else ch
  }

  /** `drainPending`: shows the run that starts at `cursor`, forgets what lies below it and
      restarts the gap timer when something stays buffered. */
  ghost function Drained(ch: Channel, now: nat): Step {
    RunEndInWord(ch.pending.Keys, ch.cursor);
    var e := RunEnd(ch.pending.Keys, ch.cursor);
    Step(Restart(AfterRun(ch, e), now), Run(ch.pending, ch.cursor, e))
  }

  lemma EmptyDrain(ch: Channel, now: nat)
    requires ch.pending == map[]
    ensures Drained(ch, now) == Step(ch, [])
  {
    RunEndIs({}, ch.cursor, ch.cursor);
    assert From(ch.pending, ch.cursor) == map[];
  }

  // ----- entry points

  /** `onMessage` for a message numbered `s` of this conversation, at clock reading `now`. */
  ghost function Accept(ch: Channel, m: Message, s: Word, now: nat): Step {
    var open := if ch.initialized then ch else ch.(initialized := true, cursor := s);
    if s < open.cursor || s in open.delivered then
      Step(open, [])
    else if s == open.cursor then
      var d := Drained(Deliver(open, s), now);
      Step(d.ch, [m] + d.out)
    else
      Step(Restart(open.(pending := open.pending[s := m]), now), [])
  }

  /** The release shared by `tick` and `onOfflineBatch`: jump to the least buffered number, drain. */
  ghost function Release(ch: Channel, reading: nat): Step
    requires ch.pending != map[]
  {
    assert ch.pending.Keys != {};
    Drained(ch.(cursor := Least(ch.pending.Keys)), reading)
  }

  /** `duration_cast<milliseconds>`, which truncates towards zero. */
  function Millis(nanos: int): int {
    if nanos >= 0 then nanos / NANOS_PER_MILLI else -((-nanos) / NANOS_PER_MILLI)
  }

  predicate Expired(ch: Channel, timeout: int, now: nat) {
    ch.pending != map[] && ch.gapSince != 0 && Millis(now - ch.gapSince) >= timeout
  }

  /** What can happen to a channel. `reading` is the clock as `drainPending` reads it. */
  datatype Event =
    | Arrive(m: Message, now: nat)
    | Tick(now: nat, reading: nat)
    | Flush(reading: nat)

  ghost function Next(ch: Channel, timeout: int, e: Event): Step {
    match e
    case Arrive(m, now) => if m.number.Some? then Accept(ch, m, m.number.value, now) else Step(ch, [])
    case Tick(now, reading) => if Expired(ch, timeout, now) then Release(ch, reading) else Step(ch, [])
    case Flush(reading) => if ch.pending != map[] then Release(ch, reading) else Step(ch, [])
  }

  /** A whole run from channel `ch`. */
  ghost function Play(ch: Channel, timeout: int, es: seq<Event>): Step {
    if es == [] then Step(ch, [])
    else
      var before := Play(ch, timeout, es[..|es| - 1]);
      var after := Next(before.ch, timeout, es[|es| - 1]);
      Step(after.ch, before.out + after.out)
  }

  lemma {:induction false} PlayConcat(ch: Channel, timeout: int, a: seq<Event>, b: seq<Event>)
    ensures Play(ch, timeout, a + b) ==
            var p := Play(ch, timeout, a);
            var q := Play(p.ch, timeout, b);
            Step(q.ch, p.out + q.out)
  {
    hide Next;
    if b == [] {
      assert a + b == a;
    } else {
      var n := |b| - 1;
      assert (a + b)[..|a + b| - 1] == a + b[..n];
      assert (a + b)[|a + b| - 1] == b[n];
      PlayConcat(ch, timeout, a, b[..n]);
      var p := Play(ch, timeout, a);
      var q := Play(p.ch, timeout, b[..n]);
      var last := Next(q.ch, timeout, b[n]);
      assert p.out + q.out + last.out == p.out + (q.out + last.out);
    }
  }

  /** Clock readings are positive, arrivals are numbered. */
  predicate Proper(e: Event) {
    match e
    case Arrive(m, now) => m.number.Some? && now > 0
    case Tick(now, reading) => now > 0 && reading > 0
    case Flush(reading) => reading > 0
  }

  /** No arrival carries the largest 64-bit number. */
  predicate NoLast(e: Event) {
    e.Arrive? ==> Num(e.m) != LAST
  }
}
