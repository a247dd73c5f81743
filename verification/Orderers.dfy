/** The reorderer as a whole: a map of channels swept in any order, and what one conversation sees of it. */
module Orderers {
  import opened Messages
  import opened Channels
  import opened ChannelLaws

  /** `_channels` and everything `_emit` has rendered. */
  datatype Orderer = Orderer(channels: map<string, Channel>, screen: seq<Message>)

  const EMPTY: Orderer := Orderer(map[], [])

  /** A conversation without an entry is as good as a fresh channel: `_channels[conv]` creates one. */
  function Lookup(s: Orderer, c: string): Channel {
    if c in s.channels then s.channels[c] else FRESH
  }

  function Put(s: Orderer, c: string, st: Step): Orderer {
    Orderer(s.channels[c := st.ch], s.screen + st.out)
  }

  /** Why all channels are visited: `tick`, or the end of an offline batch. */
  datatype Cause = Timer(now: nat) | BatchEnd

  /** A sweep visits the channels in `order`; `reading(c)` is the clock as the drain of `c` reads it. */
  datatype Input =
    | Receive(m: Message, now: nat)
    | Sweep(cause: Cause, order: seq<string>, reading: string -> nat)

  function Visit(cause: Cause, reading: string -> nat, c: string): Event {
    match cause
    case Timer(now) => Tick(now, reading(c))
    case BatchEnd => Flush(reading(c))
  }

  ghost function Received(s: Orderer, m: Message, now: nat): Orderer {
    if !Sequenced(m) then Orderer(s.channels, s.screen + [m])
    else Put(s, m.convid.value, Accept(Lookup(s, m.convid.value), m, m.number.value, now))
  }

  ghost function Swept(s: Orderer, timeout: int, cause: Cause, order: seq<string>, reading: string -> nat): Orderer {
    if order == [] then s
    else
      var n := |order| - 1;
      var before := Swept(s, timeout, cause, order[..n], reading);
      var c := order[n];
      Put(before, c, Next(Lookup(before, c), timeout, Visit(cause, reading, c)))
  }

  ghost function Handle(s: Orderer, timeout: int, i: Input): Orderer {
    match i
    case Receive(m, now) => Received(s, m, now)
    case Sweep(cause, order, reading) => Swept(s, timeout, cause, order, reading)
  }

  ghost function Process(s: Orderer, timeout: int, inputs: seq<Input>): Orderer {
    if inputs == [] then s
    else
      var n := |inputs| - 1;
      Handle(Process(s, timeout, inputs[..n]), timeout, inputs[n])
  }

  /** `order` lists each key once. */
  ghost predicate Listing(order: seq<string>, keys: set<string>) {
    && (forall c :: c in keys <==> c in order)
    && (forall i, j :: 0 <= i < j < |order| ==> order[i] != order[j])
  }

  ghost predicate Feasible(s: Orderer, i: Input) {
    i.Sweep? ==> Listing(i.order, s.channels.Keys)
  }

  /** Every sweep visits exactly the channels that exist at that point, in some order. */
  ghost predicate FeasibleRun(s: Orderer, timeout: int, inputs: seq<Input>) {
    forall n :: 0 <= n < |inputs| ==> Feasible(Process(s, timeout, inputs[..n]), inputs[n])
  }

  predicate ProperInput(i: Input) {
    match i
    case Receive(m, now) => now > 0
    case Sweep(cause, order, reading) =>
      (cause.Timer? ==> cause.now > 0) && forall n :: 0 <= n < |order| ==> reading(order[n]) > 0
  }

  ghost predicate ProperInputs(inputs: seq<Input>) {
    forall n :: 0 <= n < |inputs| ==> ProperInput(inputs[n])
  }

  /** Every channel holds only messages of its own conversation. */
  ghost predicate Owned(s: Orderer) {
    forall c, k :: c in s.channels && k in s.channels[c].pending ==>
      InConversation(s.channels[c].pending[k], c)
  }

  // ----- one conversation's view

  /** What conversation `c` sees of an input. */
  function Seen(i: Input, c: string): seq<Event> {
    match i
    case Receive(m, now) => if InConversation(m, c) then [Arrive(m, now)] else []
    case Sweep(cause, order, reading) => if c in order then [Visit(cause, reading, c)] else []
  }

  function View(inputs: seq<Input>, c: string): seq<Event> {
    if inputs == [] then [] else View(inputs[..|inputs| - 1], c) + Seen(inputs[|inputs| - 1], c)
  }

  /** A step of channel `c` shows and keeps only messages of `c`. */
  ghost predicate Own(c: string, st: Step) {
    && (forall i :: 0 <= i < |st.out| ==> InConversation(st.out[i], c))
    && (forall k :: k in st.ch.pending ==> InConversation(st.ch.pending[k], c))
  }

  lemma DrainedOwn(c: string, ch: Channel, now: nat)
    requires forall k :: k in ch.pending ==> InConversation(ch.pending[k], c)
    ensures Own(c, Drained(ch, now))
  {
  }

  lemma AcceptOwn(c: string, ch: Channel, m: Message, now: nat)
    requires InConversation(m, c)
    requires forall k :: k in ch.pending ==> InConversation(ch.pending[k], c)
    ensures Own(c, Accept(ch, m, m.number.value, now))
  {
    hide Drained;
    DrainedOwn(c, Deliver(Opened(ch, m.number.value), m.number.value), now);
  }

  lemma NextOwn(c: string, ch: Channel, timeout: int, e: Event)
    requires e.Arrive? ==> InConversation(e.m, c)
    requires forall k :: k in ch.pending ==> InConversation(ch.pending[k], c)
    ensures Own(c, Next(ch, timeout, e))
  {
    hide Drained, Accept;
    if e.Arrive? {
      AcceptOwn(c, ch, e.m, e.now);
    } else if ch.pending != map[] {
      assert ch.pending.Keys != {};
      DrainedOwn(c, ch.(cursor := Least(ch.pending.Keys)), e.reading);
    }
  }

  /** From `s` to `s'`, conversation `c` went through the step `st`. */
  ghost predicate Projects(s: Orderer, s': Orderer, c: string, st: Step) {
    Owned(s') && Lookup(s', c) == st.ch && Of(s'.screen, c) == Of(s.screen, c) + st.out
  }

  lemma Chain(s: Orderer, mid: Orderer, s': Orderer, c: string, a: Step, b: Step)
    requires Projects(s, mid, c, a) && Projects(mid, s', c, b)
    ensures Projects(s, s', c, Step(b.ch, a.out + b.out))
  {
  }

  lemma NothingHappens(s: Orderer, c: string)
    requires Owned(s)
    ensures Projects(s, s, c, Step(Lookup(s, c), []))
  {
    assert Of(s.screen, c) + [] == Of(s.screen, c);
  }

  lemma PutOwn(s: Orderer, d: string, st: Step, c: string)
    requires Owned(s) && Own(d, st)
    ensures Projects(s, Put(s, d, st), c, if c == d then st else Step(Lookup(s, c), []))
  {
    OfConcat(s.screen, st.out, c);
    if c == d { OfAll(st.out, c); } else { OfNone(st.out, c); }
  }

  lemma {:induction false} SweptKeys(s: Orderer, timeout: int, cause: Cause, order: seq<string>, reading: string -> nat)
    ensures Swept(s, timeout, cause, order, reading).channels.Keys == s.channels.Keys + (set c | c in order)
  {
    hide Next;
    if order != [] {
      SweptKeys(s, timeout, cause, order[..|order| - 1], reading);
    }
  }

  ghost predicate Distinct(order: seq<string>) {
    forall i, j :: 0 <= i < j < |order| ==> order[i] != order[j]
  }

  ghost function SweepStep(s: Orderer, timeout: int, cause: Cause, order: seq<string>, reading: string -> nat,
                           c: string): Step {
    if c in order then Next(Lookup(s, c), timeout, Visit(cause, reading, c)) else Step(Lookup(s, c), [])
  }

  /** A sweep in any order does to conversation `c` what visiting it alone does. */
  lemma {:induction false} SweptView(s: Orderer, timeout: int, cause: Cause, order: seq<string>,
                                     reading: string -> nat, c: string)
    requires Owned(s) && Distinct(order)
    ensures Projects(s, Swept(s, timeout, cause, order, reading), c, SweepStep(s, timeout, cause, order, reading, c))
  {
    if order == [] {
      NothingHappens(s, c);
    } else {
      var n := |order| - 1;
      var earlier, d := order[..n], order[n];
      assert d !in earlier;
      assert order == earlier + [d];
      SweptView(s, timeout, cause, earlier, reading, c);
      SweptView(s, timeout, cause, earlier, reading, d);
      hide Projects, Owned, Lookup, Next;
      OneMoreVisit(s, Swept(s, timeout, cause, earlier, reading), timeout, Visit(cause, reading, d), d, c,
                   SweepStep(s, timeout, cause, earlier, reading, c));
    }
  }

  /** Visiting `d`, which the sweep has not touched yet, as conversation `c` sees it. */
  lemma OneMoreVisit(s: Orderer, before: Orderer, timeout: int, e: Event, d: string, c: string, st: Step)
    requires Projects(s, before, c, st) && Projects(s, before, d, Step(Lookup(s, d), []))
    requires c == d ==> st == Step(Lookup(s, d), [])
    requires !e.Arrive?
    ensures Projects(s, Put(before, d, Next(Lookup(before, d), timeout, e)), c,
                     if c == d then Next(Lookup(s, d), timeout, e) else st)
  {
    PutIsOwned(before, d, timeout, e, c);
    hide Next, Of, Own, Put, Owned;
    var step := Next(Lookup(before, d), timeout, e);
    if c == d {
      Chain(s, before, Put(before, d, step), c, st, step);
      assert [] + step.out == step.out;
    } else {
      Chain(s, before, Put(before, d, step), c, st, Step(Lookup(before, c), []));
      assert st.out + [] == st.out;
    }
  }

  lemma PutIsOwned(s: Orderer, d: string, timeout: int, e: Event, c: string)
    requires Owned(s) && (e.Arrive? ==> InConversation(e.m, d))
    ensures var st := Next(Lookup(s, d), timeout, e);
            Own(d, st) && Projects(s, Put(s, d, st), c, if c == d then st else Step(Lookup(s, c), []))
  {
    hide Next;
    NextOwn(d, Lookup(s, d), timeout, e);
    PutOwn(s, d, Next(Lookup(s, d), timeout, e), c);
  }

  lemma ReceivedView(s: Orderer, m: Message, now: nat, timeout: int, c: string)
    requires Owned(s)
    ensures Projects(s, Received(s, m, now), c, Play(Lookup(s, c), timeout, Seen(Receive(m, now), c)))
  {
    hide Accept;
    if !Sequenced(m) {
      OfConcat(s.screen, [m], c);
      OfNone([m], c);
    } else {
      var d := m.convid.value;
      AcceptOwn(d, Lookup(s, d), m, now);
      PutOwn(s, d, Accept(Lookup(s, d), m, m.number.value, now), c);
      if c == d {
        PlayOne(Lookup(s, c), timeout, Arrive(m, now));
      }
    }
  }

  lemma PlayOne(ch: Channel, timeout: int, e: Event)
    ensures Play(ch, timeout, [e]) == Next(ch, timeout, e)
  {
    hide Next;
    assert [e][..0] == [];
    assert [] + Next(ch, timeout, e).out == Next(ch, timeout, e).out;
  }

  lemma HandleView(s: Orderer, timeout: int, i: Input, c: string)
    requires Owned(s) && Feasible(s, i)
    ensures Projects(s, Handle(s, timeout, i), c, Play(Lookup(s, c), timeout, Seen(i, c)))
  {
    hide Next, Accept;
    match i
    case Receive(m, now) => ReceivedView(s, m, now, timeout, c);
    case Sweep(cause, order, reading) =>
      SweptView(s, timeout, cause, order, reading, c);
      if c in order {
        PlayOne(Lookup(s, c), timeout, Visit(cause, reading, c));
      }
  }

  /** Projection: in any run, what conversation `c` shows and keeps is what its own channel would show
      and keep if it were alone with its own messages, ticks and batch ends. */
  lemma {:induction false} ProcessView(s: Orderer, timeout: int, inputs: seq<Input>, c: string)
    requires Owned(s) && FeasibleRun(s, timeout, inputs)
    ensures Projects(s, Process(s, timeout, inputs), c, Play(Lookup(s, c), timeout, View(inputs, c)))
  {
    if inputs == [] {
      NothingHappens(s, c);
    } else {
      var n := |inputs| - 1;
      FeasiblePrefix(s, timeout, inputs);
      ProcessView(s, timeout, inputs[..n], c);
      var before := Process(s, timeout, inputs[..n]);
      var st := Play(Lookup(s, c), timeout, View(inputs[..n], c));
      assert Owned(before) && Lookup(before, c) == st.ch;
      hide Handle, Owned, Lookup, Of, Projects, Next, Feasible;
      HandleView(before, timeout, inputs[n], c);
      PlayConcat(Lookup(s, c), timeout, View(inputs[..n], c), Seen(inputs[n], c));
      Chain(s, before, Handle(before, timeout, inputs[n]), c, st, Play(st.ch, timeout, Seen(inputs[n], c)));
    }
  }

  lemma FeasiblePrefix(s: Orderer, timeout: int, inputs: seq<Input>)
    requires FeasibleRun(s, timeout, inputs) && inputs != []
    ensures FeasibleRun(s, timeout, inputs[..|inputs| - 1])
  {
    var shorter := inputs[..|inputs| - 1];
    forall n | 0 <= n < |shorter| ensures Feasible(Process(s, timeout, shorter[..n]), shorter[n]) {
      assert shorter[..n] == inputs[..n];
    }
  }

  lemma {:induction false} ViewIsProper(inputs: seq<Input>, c: string)
    requires ProperInputs(inputs)
    ensures ProperRun(View(inputs, c))
    ensures (forall n :: 0 <= n < |inputs| && inputs[n].Receive? && InConversation(inputs[n].m, c) ==>
             Num(inputs[n].m) != LAST) ==>
              NoLastRun(View(inputs, c))
  {
    if inputs != [] {
      ViewIsProper(inputs[..|inputs| - 1], c);
    }
  }

  /** Strict order: whatever arrives, in whatever order the channels are swept, the numbers shown in
      a conversation strictly increase. */
  lemma EveryConversationAscends(timeout: int, inputs: seq<Input>, c: string)
    requires FeasibleRun(EMPTY, timeout, inputs) && ProperInputs(inputs)
    requires forall n :: 0 <= n < |inputs| && inputs[n].Receive? && InConversation(inputs[n].m, c) ==>
             Num(inputs[n].m) != LAST
    ensures Ascending(Of(Process(EMPTY, timeout, inputs).screen, c))
  {
    ProcessView(EMPTY, timeout, inputs, c);
    ViewIsProper(inputs, c);
    PlayOrdered(FRESH, timeout, View(inputs, c));
  }

  // ----- isolation

  function Keep(i: Input, c: string): seq<Input> {
    match i
    case Receive(m, now) => if InConversation(m, c) then [i] else []
    case Sweep(cause, order, reading) => [Sweep(cause, if c in order then [c] else [], reading)]
  }

  /** The inputs of an orderer that is fed only the messages of `c`, with the same ticks and batch ends. */
  function Only(inputs: seq<Input>, c: string): seq<Input> {
    if inputs == [] then [] else Only(inputs[..|inputs| - 1], c) + Keep(inputs[|inputs| - 1], c)
  }

  lemma ViewSnoc(inputs: seq<Input>, i: Input, c: string)
    ensures View(inputs + [i], c) == View(inputs, c) + Seen(i, c)
  {
    hide Seen;
    assert (inputs + [i])[..|inputs|] == inputs;
  }

  lemma {:induction false} ViewConcat(a: seq<Input>, b: seq<Input>, c: string)
    ensures View(a + b, c) == View(a, c) + View(b, c)
  {
    if b == [] {
      assert a + b == a;
    } else {
      var front, last := b[..|b| - 1], b[|b| - 1];
      hide View, Seen;
      assert b == front + [last];
      ViewConcat(a, front, c);
      Regroup(a, front, [last]);
      ViewSnoc(a + front, last, c);
      ViewSnoc(front, last, c);
      Regroup(View(a, c), View(front, c), Seen(last, c));
    }
  }

  lemma {:induction false} OnlyHasSameView(inputs: seq<Input>, c: string)
    ensures View(Only(inputs, c), c) == View(inputs, c)
  {
    if inputs != [] {
      var n := |inputs| - 1;
      OnlyHasSameView(inputs[..n], c);
      ViewConcat(Only(inputs[..n], c), Keep(inputs[n], c), c);
      KeptView(inputs[n], c);
    }
  }

  lemma KeptView(i: Input, c: string)
    ensures View(Keep(i, c), c) == Seen(i, c)
  {
    var kept := Keep(i, c);
    if kept != [] {
      assert kept[..0] == [];
      assert View(kept, c) == View([], c) + Seen(kept[0], c);
    }
  }

  lemma ProcessSnoc(s: Orderer, timeout: int, inputs: seq<Input>, i: Input)
    ensures Process(s, timeout, inputs + [i]) == Handle(Process(s, timeout, inputs), timeout, i)
  {
    hide Handle;
    assert (inputs + [i])[..|inputs|] == inputs;
  }

  lemma FeasibleSnoc(s: Orderer, timeout: int, inputs: seq<Input>, i: Input)
    requires FeasibleRun(s, timeout, inputs) && Feasible(Process(s, timeout, inputs), i)
    ensures FeasibleRun(s, timeout, inputs + [i])
  {
    hide Feasible;
    var longer := inputs + [i];
    forall n | 0 <= n < |longer| ensures Feasible(Process(s, timeout, longer[..n]), longer[n]) {
      assert longer[..n] == if n < |inputs| then inputs[..n] else inputs;
    }
  }

  /** What `alone`, an orderer fed only `c`, has in common with the full orderer `s`. */
  ghost predicate Mirrors(s: Orderer, alone: Orderer, c: string) {
    && alone.channels.Keys == s.channels.Keys * {c}
    && Owned(alone)
    && forall i :: 0 <= i < |alone.screen| ==> InConversation(alone.screen[i], c)
  }

  lemma MirrorReceive(s: Orderer, alone: Orderer, c: string, m: Message, now: nat)
    requires Mirrors(s, alone, c)
    ensures Mirrors(Received(s, m, now), if InConversation(m, c) then Received(alone, m, now) else alone, c)
  {
    hide Accept;
    if InConversation(m, c) {
      AcceptOwn(c, Lookup(alone, c), m, now);
    }
  }

  lemma SweepKeepsKeys(s: Orderer, timeout: int, cause: Cause, order: seq<string>, reading: string -> nat)
    requires Listing(order, s.channels.Keys)
    ensures Swept(s, timeout, cause, order, reading).channels.Keys == s.channels.Keys
  {
    SweptKeys(s, timeout, cause, order, reading);
    hide Swept;
  }

  lemma MirrorPut(s: Orderer, s': Orderer, alone: Orderer, c: string, st: Step)
    requires Mirrors(s, alone, c) && s'.channels.Keys == s.channels.Keys
    ensures Mirrors(s', alone, c)
    ensures c in s.channels && Own(c, st) ==> Mirrors(s', Put(alone, c, st), c)
  {
  }

  lemma MirrorListing(s: Orderer, alone: Orderer, c: string, order: seq<string>)
    requires Mirrors(s, alone, c) && Listing(order, s.channels.Keys)
    ensures Listing(if c in order then [c] else [], alone.channels.Keys) && (c in order <==> c in s.channels)
    ensures forall k :: k in Lookup(alone, c).pending ==> InConversation(Lookup(alone, c).pending[k], c)
  {
  }

  lemma MirrorSweep(s: Orderer, alone: Orderer, timeout: int, c: string, cause: Cause, order: seq<string>,
                    reading: string -> nat)
    requires Mirrors(s, alone, c) && Listing(order, s.channels.Keys)
    ensures var order' := if c in order then [c] else [];
            Listing(order', alone.channels.Keys) &&
            Mirrors(Swept(s, timeout, cause, order, reading), Swept(alone, timeout, cause, order', reading), c)
  {
    MirrorListing(s, alone, c, order);
    SweepKeepsKeys(s, timeout, cause, order, reading);
    assert Swept(alone, timeout, cause, [], reading) == alone;
    hide Next, Swept, Mirrors, Listing, Own, Put, Lookup;
    var st := Next(Lookup(alone, c), timeout, Visit(cause, reading, c));
    if c in order {
      SweptOne(alone, timeout, cause, c, reading);
      NextOwn(c, Lookup(alone, c), timeout, Visit(cause, reading, c));
    }
    MirrorPut(s, Swept(s, timeout, cause, order, reading), alone, c, st);
  }

  lemma SweptOne(s: Orderer, timeout: int, cause: Cause, c: string, reading: string -> nat)
    ensures Swept(s, timeout, cause, [c], reading) == Put(s, c, Next(Lookup(s, c), timeout, Visit(cause, reading, c)))
  {
    hide Next;
    assert [c][..0] == [];
  }

  lemma {:induction false} OnlyIsFeasible(timeout: int, inputs: seq<Input>, c: string)
    requires FeasibleRun(EMPTY, timeout, inputs)
    ensures FeasibleRun(EMPTY, timeout, Only(inputs, c))
    ensures Mirrors(Process(EMPTY, timeout, inputs), Process(EMPTY, timeout, Only(inputs, c)), c)
  {
    if inputs != [] {
      var n := |inputs| - 1;
      FeasiblePrefix(EMPTY, timeout, inputs);
      OnlyIsFeasible(timeout, inputs[..n], c);
      var before := Process(EMPTY, timeout, inputs[..n]);
      assert Feasible(before, inputs[n]);
      hide Handle, Mirrors, Feasible, FeasibleRun, Keep;
      OneMoreMirrored(timeout, before, Only(inputs[..n], c), inputs[n], c);
    }
  }

  lemma OneMoreMirrored(timeout: int, before: Orderer, only: seq<Input>, i: Input, c: string)
    requires FeasibleRun(EMPTY, timeout, only) && Feasible(before, i)
    requires Mirrors(before, Process(EMPTY, timeout, only), c)
    ensures FeasibleRun(EMPTY, timeout, only + Keep(i, c))
    ensures Mirrors(Handle(before, timeout, i), Process(EMPTY, timeout, only + Keep(i, c)), c)
  {
    var alone := Process(EMPTY, timeout, only);
    hide Swept, Received, Mirrors, Listing, FeasibleRun, Process;
    if Keep(i, c) == [] {
      assert only + [] == only;
      MirrorReceive(before, alone, c, i.m, i.now);
    } else {
      var kept := Keep(i, c)[0];
      if i.Receive? {
        MirrorReceive(before, alone, c, i.m, i.now);
      } else {
        MirrorSweep(before, alone, timeout, c, i.cause, i.order, i.reading);
      }
      FeasibleSnoc(EMPTY, timeout, only, kept);
      ProcessSnoc(EMPTY, timeout, only, kept);
    }
  }

  /** Conversation isolation: what the orderer shows of `c` is, message for message, what an orderer
      fed only `c` shows, however the other conversations interleave and the channels are swept. */
  lemma ConversationsAreIsolated(timeout: int, inputs: seq<Input>, c: string)
    requires FeasibleRun(EMPTY, timeout, inputs)
    ensures FeasibleRun(EMPTY, timeout, Only(inputs, c))
    ensures Of(Process(EMPTY, timeout, inputs).screen, c) == Process(EMPTY, timeout, Only(inputs, c)).screen
    ensures Lookup(Process(EMPTY, timeout, inputs), c) == Lookup(Process(EMPTY, timeout, Only(inputs, c)), c)
  {
    OnlyIsFeasible(timeout, inputs, c);
    OnlyHasSameView(inputs, c);
    ProcessView(EMPTY, timeout, inputs, c);
    ProcessView(EMPTY, timeout, Only(inputs, c), c);
    OfAll(Process(EMPTY, timeout, Only(inputs, c)).screen, c);
  }
}
