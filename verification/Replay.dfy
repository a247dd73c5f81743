/** Login replay: the server's sorted offline batch fed to a client that has seen nothing yet. */
module Replay {
  import opened Messages
  import opened Channels
  import opened ChannelLaws
  import opened BoundedRelease
  import opened Orderers
  import opened Provenance
  import opened OfflineSort
  import O = OrderIndependence
  import R = Reorderer

  /** The messages of a batch that the client can parse; it skips the rest. */
  function Parsed(batch: seq<Stored>): (msgs: seq<Message>)
    ensures forall m :: m in msgs <==> exists st :: st in batch && st.json == Some(m)
  {
    if batch == [] then []
    else
      var n := |batch| - 1;
      assert batch == batch[..n] + [batch[n]];
      Parsed(batch[..n]) + if batch[n].json.Some? then [batch[n].json.value] else []
  }

  /** The numbers stored for conversation `c`. */
  ghost function NumbersOf(batch: seq<Stored>, c: string): set<Word> {
    set st | st in batch && st.json.Some? && InConversation(st.json.value, c) :: st.json.value.number.value
  }

  /** The messages of conversation `c` come in nondecreasing order of their numbers. */
  ghost predicate NondecreasingIn(msgs: seq<Message>, c: string) {
    forall i, j :: 0 <= i < j < |msgs| && InConversation(msgs[i], c) && InConversation(msgs[j], c) ==>
      Num(msgs[i]) <= Num(msgs[j])
  }

  lemma {:induction false} GroupedParses(batch: seq<Stored>, c: string)
    requires Grouped(batch)
    ensures NondecreasingIn(Parsed(batch), c)
  {
    if batch != [] {
      var n := |batch| - 1;
      GroupedParses(batch[..n], c);
      var front := Parsed(batch[..n]);
      forall i | 0 <= i < |front| && InConversation(front[i], c) && batch[n].json.Some? &&
          InConversation(batch[n].json.value, c)
        ensures Num(front[i]) <= Num(batch[n].json.value)
      {
        assert front[i] in front;
        var st :| st in batch[..n] && st.json == Some(front[i]);
      }
    }
  }

  /** The numbers of conversation `c` among the messages. */
  function NumsIn(msgs: seq<Message>, c: string): (r: set<Word>)
    ensures forall k :: k in r <==> exists m :: m in msgs && InConversation(m, c) && m.number.value == k
  {
    if msgs == [] then {}
    else
      var n := |msgs| - 1;
      assert msgs == msgs[..n] + [msgs[n]];
      NumsIn(msgs[..n], c) + if InConversation(msgs[n], c) then {msgs[n].number.value} else {}
  }

  ghost predicate GoodBatch(msgs: seq<Message>, clock: seq<nat>, c: string) {
    |msgs| == |clock| &&
    forall i :: 0 <= i < |msgs| ==> clock[i] > 0 && (InConversation(msgs[i], c) ==> Num(msgs[i]) != LAST)
  }

  lemma ArrivalsSnoc(msgs: seq<Message>, clock: seq<nat>, c: string)
    requires |msgs| == |clock| && msgs != []
    ensures var n := |msgs| - 1;
            View(R.Arrivals(msgs, clock), c) ==
            View(R.Arrivals(msgs[..n], clock[..n]), c) + Seen(Receive(msgs[n], clock[n]), c)
  {
    var n := |msgs| - 1;
    assert R.Arrivals(msgs, clock)[..n] == R.Arrivals(msgs[..n], clock[..n]);
  }

  /** What conversation `c` sees of the arrivals of a batch. */
  lemma {:induction false} ArrivalsView(msgs: seq<Message>, clock: seq<nat>, c: string)
    requires GoodBatch(msgs, clock, c)
    ensures var v := View(R.Arrivals(msgs, clock), c);
            O.ArrivalsOnly(v) && O.Received(v) == NumsIn(msgs, c)
  {
    if msgs != [] {
      var n := |msgs| - 1;
      ArrivalsView(msgs[..n], clock[..n], c);
      ArrivalsSnoc(msgs, clock, c);
      assert NumsIn(msgs, c) == NumsIn(msgs[..n], c) +
          if InConversation(msgs[n], c) then {msgs[n].number.value} else {};
      var v := View(R.Arrivals(msgs[..n], clock[..n]), c);
      hide View, NumsIn;
      if InConversation(msgs[n], c) {
        ArrivalsOnlySnoc(v, Arrive(msgs[n], clock[n]));
      } else {
        assert v + [] == v;
      }
    }
  }

  lemma ArrivalsOnlySnoc(v: seq<Event>, e: Event)
    requires O.ArrivalsOnly(v) && e.Arrive? && Proper(e) && NoLast(e)
    ensures O.ArrivalsOnly(v + [e]) && O.Received(v + [e]) == O.Received(v) + {e.m.number.value}
  {
    ReceivedSnoc(v, e);
  }

  ghost predicate FirstOf(msgs: seq<Message>, c: string, i: int) {
    0 <= i < |msgs| && InConversation(msgs[i], c) && forall j :: 0 <= j < i ==> !InConversation(msgs[j], c)
  }

  lemma {:induction false} HeadOfView(msgs: seq<Message>, clock: seq<nat>, c: string) returns (i: int)
    requires |msgs| == |clock|
    ensures var v := View(R.Arrivals(msgs, clock), c);
            if v == [] then forall j :: 0 <= j < |msgs| ==> !InConversation(msgs[j], c)
            else FirstOf(msgs, c, i) && v[0].Arrive? && v[0].m == msgs[i]
  {
    i := 0;
    if msgs != [] {
      var n := |msgs| - 1;
      ArrivalsSnoc(msgs, clock, c);
      i := HeadOfView(msgs[..n], clock[..n], c);
      if View(R.Arrivals(msgs[..n], clock[..n]), c) == [] {
        i := n;
      }
    }
  }

  lemma LeastArrivesFirst(msgs: seq<Message>, clock: seq<nat>, c: string)
    requires |msgs| == |clock| && NondecreasingIn(msgs, c) && NumsIn(msgs, c) != {}
    ensures var v := View(R.Arrivals(msgs, clock), c);
            v != [] && v[0].Arrive? && forall k :: k in NumsIn(msgs, c) ==> Num(v[0].m) <= k
  {
    var i := HeadOfView(msgs, clock, c);
    hide View, R.Arrivals;
    forall k | k in NumsIn(msgs, c)
      ensures exists j :: 0 <= j < |msgs| && InConversation(msgs[j], c) && Num(msgs[j]) == k
    {
      var m :| m in msgs && InConversation(m, c) && m.number.value == k;
      var j :| 0 <= j < |msgs| && msgs[j] == m;
    }
    hide NumsIn, InConversation;
    var k0 :| k0 in NumsIn(msgs, c);
  }

  lemma ReceivedSnoc(v: seq<Event>, e: Event)
    requires e.Arrive? && e.m.number.Some?
    ensures O.Received(v + [e]) == O.Received(v) + {e.m.number.value}
  {
    var w := v + [e];
    assert w[|v|] == e;
    forall k | k in O.Received(v) ensures k in O.Received(w) {
      var i :| 0 <= i < |v| && v[i].Arrive? && v[i].m.number.Some? && v[i].m.number.value == k;
      assert w[i] == v[i];
    }
  }

  /** The first and the second maximal run of a set of numbers, as the output of one conversation. */
  ghost predicate FirstTwoRuns(numbers: set<Word>, shown: seq<Message>, rest: set<Word>)
    requires numbers != {}
  {
    var b := Least(numbers);
    var e: nat := RunEnd(numbers, b);
    var later := Above(numbers, e);
    if later == {} then
      Consecutive(shown, b) && |shown| == e - b && rest == {}
    else
      var b2 := Least(later);
      var e2: nat := RunEnd(later, b2);
      && |shown| == (e - b) + (e2 - b2)
      && Consecutive(shown[..e - b], b)
      && Consecutive(shown[e - b..], b2)
      && rest == Above(later, e2)
  }

  lemma LeastIs(keys: set<Word>, k: Word)
    requires k in keys && forall j :: j in keys ==> k <= j
    ensures Least(keys) == k
  {
  }

  lemma ReleaseSecondRun(numbers: set<Word>, st: Step, reading: nat)
    requires numbers != {} && reading > 0 && Inv(st.ch) && Consecutive(st.out, Least(numbers))
    requires |st.out| == RunEnd(numbers, Least(numbers)) - Least(numbers)
    requires st.ch.pending.Keys == Above(numbers, RunEnd(numbers, Least(numbers))) && st.ch.pending != map[]
    ensures FirstTwoRuns(numbers, st.out + Release(st.ch, reading).out, Release(st.ch, reading).ch.pending.Keys)
  {
    ReleaseFacts(st.ch, reading);
    var start := st.ch.(cursor := Least(st.ch.pending.Keys));
    DrainedChannel(start, reading);
    DrainedOutput(start, reading);
    hide Drained, Release, Consecutive;
    var out := st.out + Drained(start, reading).out;
    assert out[..|st.out|] == st.out && out[|st.out|..] == Drained(start, reading).out;
    assert From(start.pending, End(start)).Keys == Above(start.pending.Keys, End(start));
  }

  lemma ReplayOneConversation(timeout: int, v: seq<Event>, reading: nat)
    requires O.ArrivalsOnly(v) && v != [] && reading > 0
    requires forall k :: k in O.Received(v) ==> Num(v[0].m) <= k
    ensures O.Received(v) != {}
    ensures var st := Play(FRESH, timeout, v + [Flush(reading)]);
            FirstTwoRuns(O.Received(v), st.out, st.ch.pending.Keys)
  {
    var numbers := O.Received(v);
    var b := v[0].m.number.value;
    assert b in numbers;
    LeastIs(numbers, b);
    O.ArrivalsClosedForm(timeout, v);
    PlayFlush(timeout, v, reading);
    var st := Play(FRESH, timeout, v);
    assert Inv(st.ch) by {
      FreshIsFine();
      PlayOrdered(FRESH, timeout, v);
    }
    hide Play, Release, O.Received, O.ArrivalsOnly, Inv, RunEnd;
    OneOrTwoRuns(numbers, st, reading);
  }

  lemma OneOrTwoRuns(numbers: set<Word>, st: Step, reading: nat)
    requires numbers != {} && reading > 0 && Inv(st.ch) && O.ClosedForm(st, Least(numbers), numbers)
    ensures if st.ch.pending == map[] then FirstTwoRuns(numbers, st.out + [], st.ch.pending.Keys)
            else FirstTwoRuns(numbers, st.out + Release(st.ch, reading).out, Release(st.ch, reading).ch.pending.Keys)
  {
    var e: nat := RunEnd(numbers, Least(numbers));
    assert st.ch.pending.Keys == Above(numbers, e);
    if st.ch.pending == map[] {
      assert st.ch.pending.Keys == {};
      assert st.out + [] == st.out;
    } else {
      ReleaseSecondRun(numbers, st, reading);
    }
  }

  lemma PlayFlush(timeout: int, v: seq<Event>, reading: nat)
    ensures var st := Play(FRESH, timeout, v);
            Play(FRESH, timeout, v + [Flush(reading)]) ==
            if st.ch.pending == map[] then Step(st.ch, st.out + [])
            else Step(Release(st.ch, reading).ch, st.out + Release(st.ch, reading).out)
  {
    hide Release;
    assert (v + [Flush(reading)])[..|v|] == v;
  }

  /** The rest is empty exactly when there are at most two runs, that is at most one gap. */
  lemma TwoRunsSuffice(numbers: set<Word>, shown: seq<Message>, rest: set<Word>)
    requires numbers != {} && FirstTwoRuns(numbers, shown, rest)
    ensures rest == {} <==> Runs(numbers) <= 2
  {
    var e: nat := RunEnd(numbers, Least(numbers));
    var later := Above(numbers, e);
    FirstRunGone(numbers);
    NoRunsMeansEmpty(later);
    if later != {} {
      FirstRunGone(later);
      NoRunsMeansEmpty(rest);
    }
  }

  /** A batch of messages and the release after it. */
  function BatchInputs(msgs: seq<Message>, clock: seq<nat>, order: seq<string>, reading: string -> nat): seq<Input>
    requires |clock| == |msgs|
  {
    R.Arrivals(msgs, clock) + [Sweep(BatchEnd, order, reading)]
  }

  lemma SortedSameNumbers(stored: seq<Stored>, c: string)
    ensures NumbersOf(Sorted(stored), c) == NumbersOf(stored, c)
  {
    SortedIsPermutation(stored);
    assert forall st :: st in stored <==> st in multiset(stored);
    assert forall st :: st in Sorted(stored) <==> st in multiset(Sorted(stored));
  }

  lemma ParsedNumbers(batch: seq<Stored>, c: string)
    ensures NumsIn(Parsed(batch), c) == NumbersOf(batch, c)
  {
    forall k | k in NumsIn(Parsed(batch), c) ensures k in NumbersOf(batch, c) {
      var m :| m in Parsed(batch) && InConversation(m, c) && m.number.value == k;
      var st :| st in batch && st.json == Some(m);
    }
    forall k | k in NumbersOf(batch, c) ensures k in NumsIn(Parsed(batch), c) {
      var st :| st in batch && st.json.Some? && InConversation(st.json.value, c) && st.json.value.number.value == k;
      assert st.json.value in Parsed(batch);
    }
  }

  lemma ReplayView(timeout: int, msgs: seq<Message>, clock: seq<nat>, order: seq<string>, reading: string -> nat,
                   c: string)
    requires |clock| == |msgs| && View(R.Arrivals(msgs, clock), c) != []
    requires FeasibleRun(EMPTY, timeout, BatchInputs(msgs, clock, order, reading))
    ensures View(BatchInputs(msgs, clock, order, reading), c) == View(R.Arrivals(msgs, clock), c) + [Flush(reading(c))]
  {
    var arrivals := R.Arrivals(msgs, clock);
    var inputs := arrivals + [Sweep(BatchEnd, order, reading)];
    assert inputs[..|arrivals|] == arrivals;
    SeenChannel(timeout, arrivals, c);
    assert Feasible(Process(EMPTY, timeout, inputs[..|arrivals|]), inputs[|arrivals|]);
  }

  lemma ReplayInside(timeout: int, msgs: seq<Message>, clock: seq<nat>, order: seq<string>, reading: string -> nat,
                     c: string)
    requires |clock| == |msgs|
    ensures Inside(Play(FRESH, timeout, View(BatchInputs(msgs, clock, order, reading), c)), iset m | m in msgs)
  {
    var inputs := BatchInputs(msgs, clock, order, reading);
    hide Play, View;
    forall m | m in ReceivedOf(inputs, c) ensures m in msgs {
      var i :| 0 <= i < |inputs| && inputs[i].Receive? && InConversation(inputs[i].m, c) && inputs[i].m == m;
      assert m == msgs[i];
    }
    ViewArrivesFrom(inputs, c, iset m | m in msgs);
    PlayInside(timeout, View(inputs, c), iset m | m in msgs);
  }

  /** What a new client shows and keeps of a conversation with these numbers, given these messages. */
  ghost predicate TwoRunsShown(msgs: seq<Message>, numbers: set<Word>, c: string, shown: seq<Message>,
                               rest: map<Word, Message>)
    requires numbers != {}
  {
    && FirstTwoRuns(numbers, shown, rest.Keys)
    && (rest.Keys == {} <==> Runs(numbers) <= 2)
    && (forall m :: m in shown ==> InConversation(m, c) && m in msgs)
    && (forall k :: k in rest ==> rest[k].number == Some(k) && InConversation(rest[k], c) && rest[k] in msgs)
  }

  /** A batch in which conversation `c` comes in the order of its numbers. */
  lemma OrderedReplay(timeout: int, msgs: seq<Message>, clock: seq<nat>, order: seq<string>, reading: string -> nat,
                      c: string)
    requires |clock| == |msgs| && FeasibleRun(EMPTY, timeout, BatchInputs(msgs, clock, order, reading))
    requires (forall i :: 0 <= i < |clock| ==> clock[i] > 0) && reading(c) > 0
    requires NondecreasingIn(msgs, c) && NumsIn(msgs, c) != {} && LAST !in NumsIn(msgs, c)
    ensures var s := Process(EMPTY, timeout, BatchInputs(msgs, clock, order, reading));
            TwoRunsShown(msgs, NumsIn(msgs, c), c, Of(s.screen, c), Lookup(s, c).pending)
  {
    var inputs := BatchInputs(msgs, clock, order, reading);
    ReplayedView(timeout, msgs, clock, order, reading, c);
    ReplayInside(timeout, msgs, clock, order, reading, c);
    hide FirstTwoRuns, Process, View, Play, BatchInputs, Runs, NumsIn, NondecreasingIn, FeasibleRun, Lookup;
    ChannelOf(timeout, inputs, c);
    hide Inside, TwoRunsShown, Of;
    ShownFrom(msgs, NumsIn(msgs, c), c, Play(FRESH, timeout, View(inputs, c)));
  }

  lemma ShownFrom(msgs: seq<Message>, numbers: set<Word>, c: string, st: Step)
    requires numbers != {} && FirstTwoRuns(numbers, st.out, st.ch.pending.Keys)
    requires st.ch.pending.Keys == {} <==> Runs(numbers) <= 2
    requires forall k :: k in st.ch.pending ==> st.ch.pending[k].number == Some(k)
    requires Inside(st, iset m | m in msgs) && (forall m :: m in st.out ==> InConversation(m, c))
    requires forall k :: k in st.ch.pending ==> InConversation(st.ch.pending[k], c)
    ensures TwoRunsShown(msgs, numbers, c, st.out, st.ch.pending)
  {
    hide FirstTwoRuns, Runs;
  }

  /** In a run from the start a conversation shows and keeps what its channel makes of what it sees. */
  lemma ChannelOf(timeout: int, inputs: seq<Input>, c: string)
    requires FeasibleRun(EMPTY, timeout, inputs)
    ensures var s, st := Process(EMPTY, timeout, inputs), Play(FRESH, timeout, View(inputs, c));
            && Of(s.screen, c) == st.out && Lookup(s, c) == st.ch
            && (forall m :: m in st.out ==> InConversation(m, c))
            && forall k :: k in st.ch.pending ==> InConversation(st.ch.pending[k], c)
  {
    hide Process, View, Play, FeasibleRun;
    ProcessView(EMPTY, timeout, inputs, c);
    NothingYet(c, Play(FRESH, timeout, View(inputs, c)).out);
  }

  /** What the channel of `c` makes of the replay. */
  lemma ReplayedView(timeout: int, msgs: seq<Message>, clock: seq<nat>, order: seq<string>, reading: string -> nat,
                     c: string)
    requires |clock| == |msgs| && FeasibleRun(EMPTY, timeout, BatchInputs(msgs, clock, order, reading))
    requires (forall i :: 0 <= i < |clock| ==> clock[i] > 0) && reading(c) > 0
    requires NondecreasingIn(msgs, c) && NumsIn(msgs, c) != {} && LAST !in NumsIn(msgs, c)
    ensures var st := Play(FRESH, timeout, View(BatchInputs(msgs, clock, order, reading), c));
            && FirstTwoRuns(NumsIn(msgs, c), st.out, st.ch.pending.Keys)
            && (st.ch.pending.Keys == {} <==> Runs(NumsIn(msgs, c)) <= 2)
            && forall k :: k in st.ch.pending ==> st.ch.pending[k].number == Some(k)
  {
    forall i | 0 <= i < |msgs| && InConversation(msgs[i], c) ensures Num(msgs[i]) != LAST {
      assert msgs[i] in msgs;
      assert msgs[i].number.value in NumsIn(msgs, c);
    }
    ArrivalsView(msgs, clock, c);
    LeastArrivesFirst(msgs, clock, c);
    var v := View(R.Arrivals(msgs, clock), c);
    hide FirstTwoRuns, Process, View, Runs, Play, NumsIn, NondecreasingIn, BatchInputs, FeasibleRun;
    ReplayView(timeout, msgs, clock, order, reading, c);
    ReplayedChannel(timeout, v, reading(c), NumsIn(msgs, c));
  }

  /** Sorted replay: of each conversation in a login batch a new client shows exactly the first two
      maximal runs of its numbers, in order, and keeps exactly the later runs buffered, so that only
      repeated numbers are dropped; each message shown or buffered is a stored one, payload included;
      everything is shown if and only if there is at most one gap. */
  lemma SortedReplay(timeout: int, stored: seq<Stored>, clock: seq<nat>, order: seq<string>, reading: string -> nat,
                     c: string)
    requires |clock| == |Parsed(Sorted(stored))|
    requires FeasibleRun(EMPTY, timeout, BatchInputs(Parsed(Sorted(stored)), clock, order, reading))
    requires (forall i :: 0 <= i < |clock| ==> clock[i] > 0) && reading(c) > 0
    requires NumbersOf(stored, c) != {} && LAST !in NumbersOf(stored, c)
    ensures var s := Process(EMPTY, timeout, BatchInputs(Parsed(Sorted(stored)), clock, order, reading));
            TwoRunsShown(Parsed(stored), NumbersOf(stored, c), c, Of(s.screen, c), Lookup(s, c).pending)
  {
    var msgs := Parsed(Sorted(stored));
    SortedSameNumbers(stored, c);
    ParsedNumbers(Sorted(stored), c);
    SortedIsGrouped(stored);
    GroupedParses(Sorted(stored), c);
    SortedSameTexts(stored);
    hide Sorted, Parsed, NumbersOf, TwoRunsShown, Process, BatchInputs, NondecreasingIn, Grouped, NumsIn, FeasibleRun;
    OrderedReplay(timeout, msgs, clock, order, reading, c);
    var s := Process(EMPTY, timeout, BatchInputs(msgs, clock, order, reading));
    ShownAmongMore(msgs, Parsed(stored), NumbersOf(stored, c), c, Of(s.screen, c), Lookup(s, c).pending);
  }

  lemma ShownAmongMore(msgs: seq<Message>, more: seq<Message>, numbers: set<Word>, c: string, shown: seq<Message>,
                       rest: map<Word, Message>)
    requires numbers != {} && TwoRunsShown(msgs, numbers, c, shown, rest)
    requires forall m :: m in msgs ==> m in more
    ensures TwoRunsShown(more, numbers, c, shown, rest)
  {
    hide FirstTwoRuns, Runs;
  }

  lemma SortedSameTexts(stored: seq<Stored>)
    ensures forall m :: m in Parsed(Sorted(stored)) ==> m in Parsed(stored)
  {
    SortedIsPermutation(stored);
    assert forall st :: st in Sorted(stored) <==> st in multiset(Sorted(stored));
    assert forall st :: st in stored <==> st in multiset(stored);
    hide Sorted;
    forall m | m in Parsed(Sorted(stored)) ensures m in Parsed(stored) {
      var st :| st in Sorted(stored) && st.json == Some(m);
      assert st in stored;
    }
  }

  lemma NothingYet(c: string, out: seq<Message>)
    ensures Of(EMPTY.screen, c) + out == out && Lookup(EMPTY, c) == FRESH
  {
  }

  lemma ReplayedChannel(timeout: int, v: seq<Event>, reading: nat, numbers: set<Word>)
    requires O.ArrivalsOnly(v) && v != [] && reading > 0 && O.Received(v) == numbers != {}
    requires forall k :: k in numbers ==> Num(v[0].m) <= k
    ensures var st := Play(FRESH, timeout, v + [Flush(reading)]);
            && FirstTwoRuns(numbers, st.out, st.ch.pending.Keys)
            && (st.ch.pending.Keys == {} <==> Runs(numbers) <= 2)
            && forall k :: k in st.ch.pending ==> st.ch.pending[k].number == Some(k)
  {
    ReplayOneConversation(timeout, v, reading);
    var st := Play(FRESH, timeout, v + [Flush(reading)]);
    TwoRunsSuffice(numbers, st.out, st.ch.pending.Keys);
    hide Play, FirstTwoRuns;
    PlayKeepsInv(FRESH, timeout, v + [Flush(reading)]);
  }

  /** A conversation that has seen an arrival has a channel. */
  lemma {:induction false} SeenChannel(timeout: int, inputs: seq<Input>, c: string)
    requires View(inputs, c) != [] && forall i :: 0 <= i < |inputs| ==> inputs[i].Receive?
    ensures c in Process(EMPTY, timeout, inputs).channels
  {
    hide Accept;
    var n := |inputs| - 1;
    if View(inputs[..n], c) != [] {
      SeenChannel(timeout, inputs[..n], c);
    }
  }
}
