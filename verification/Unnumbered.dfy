/** Messages without a conversation or a number: system notices and old records. */
module Unnumbered {
  import opened Messages
  import opened Channels
  import opened Orderers

  /** The messages that lack a conversation or a number, in order. */
  function Plain(ms: seq<Message>): seq<Message> {
    if ms == [] then []
    else Plain(ms[..|ms| - 1]) + if Sequenced(ms[|ms| - 1]) then [] else [ms[|ms| - 1]]
  }

  /** Those among the received messages. */
  function PlainInputs(inputs: seq<Input>): seq<Message> {
    if inputs == [] then []
    else
      var i := inputs[|inputs| - 1];
      PlainInputs(inputs[..|inputs| - 1]) + if i.Receive? && !Sequenced(i.m) then [i.m] else []
  }

  lemma {:induction false} PlainConcat(a: seq<Message>, b: seq<Message>)
    ensures Plain(a + b) == Plain(a) + Plain(b)
  {
    if b == [] {
      assert a + b == a;
    } else {
      var n := |b| - 1;
      assert (a + b)[..|a + b| - 1] == a + b[..n];
      PlainConcat(a, b[..n]);
    }
  }

  lemma {:induction false} PlainNone(ms: seq<Message>, c: string)
    requires forall i :: 0 <= i < |ms| ==> InConversation(ms[i], c)
    ensures Plain(ms) == []
  {
    if ms != [] {
      PlainNone(ms[..|ms| - 1], c);
    }
  }

  lemma PutPlain(s: Orderer, c: string, st: Step)
    requires Own(c, st)
    ensures Plain(Put(s, c, st).screen) == Plain(s.screen)
  {
    PlainConcat(s.screen, st.out);
    PlainNone(st.out, c);
  }

  lemma {:induction false} SweptPlain(s: Orderer, timeout: int, cause: Cause, order: seq<string>,
                                      reading: string -> nat)
    requires Owned(s) && Distinct(order)
    ensures Plain(Swept(s, timeout, cause, order, reading).screen) == Plain(s.screen)
  {
    hide Next, Plain;
    if order != [] {
      var n := |order| - 1;
      var before, c := Swept(s, timeout, cause, order[..n], reading), order[n];
      SweptPlain(s, timeout, cause, order[..n], reading);
      SweptView(s, timeout, cause, order[..n], reading, c);
      PutIsOwned(before, c, timeout, Visit(cause, reading, c), c);
      PutPlain(before, c, Next(Lookup(before, c), timeout, Visit(cause, reading, c)));
    }
  }

  lemma ReceivedPlain(s: Orderer, m: Message, now: nat)
    requires Owned(s)
    ensures Plain(Received(s, m, now).screen) == Plain(s.screen) + if Sequenced(m) then [] else [m]
  {
    hide Accept;
    if Sequenced(m) {
      var c := m.convid.value;
      AcceptOwn(c, Lookup(s, c), m, now);
      PutPlain(s, c, Accept(Lookup(s, c), m, m.number.value, now));
    } else {
      assert [m][..0] == [];
      PlainConcat(s.screen, [m]);
    }
  }

  /** Unnumbered messages are shown at once, each exactly once, in the order received, whatever else
      happens; nothing buffers, drops or repeats them. */
  lemma {:induction false} PlainPassesThrough(timeout: int, inputs: seq<Input>)
    requires FeasibleRun(EMPTY, timeout, inputs)
    ensures Plain(Process(EMPTY, timeout, inputs).screen) == PlainInputs(inputs)
  {
    hide Swept, Received;
    if inputs != [] {
      var n := |inputs| - 1;
      FeasiblePrefix(EMPTY, timeout, inputs);
      PlainPassesThrough(timeout, inputs[..n]);
      ProcessView(EMPTY, timeout, inputs[..n], "");
      var before := Process(EMPTY, timeout, inputs[..n]);
      assert Feasible(before, inputs[n]);
      match inputs[n]
      case Receive(m, now) => ReceivedPlain(before, m, now);
      case Sweep(cause, order, reading) => SweptPlain(before, timeout, cause, order, reading);
    }
  }

  lemma {:induction false} SplitScreen(ms: seq<Message>, m: Message)
    ensures multiset(ms)[m] == if Sequenced(m) then multiset(Of(ms, m.convid.value))[m] else multiset(Plain(ms))[m]
  {
    if ms != [] {
      var n := |ms| - 1;
      assert ms == ms[..n] + [ms[n]];
      SplitScreen(ms[..n], m);
    }
  }

  /** The screen consists of the unnumbered messages received and of what each conversation shows on
      its own, and of nothing else. */
  lemma ScreenIsComplete(timeout: int, inputs: seq<Input>, m: Message)
    requires FeasibleRun(EMPTY, timeout, inputs)
    ensures multiset(Process(EMPTY, timeout, inputs).screen)[m] ==
            if Sequenced(m) then multiset(Play(FRESH, timeout, View(inputs, m.convid.value)).out)[m]
            else multiset(PlainInputs(inputs))[m]
  {
    hide Process, Play, View, PlainInputs, Plain, Of;
    SplitScreen(Process(EMPTY, timeout, inputs).screen, m);
    if Sequenced(m) {
      ProcessView(EMPTY, timeout, inputs, m.convid.value);
      NothingYet(m.convid.value);
      var out := Play(FRESH, timeout, View(inputs, m.convid.value)).out;
      assert [] + out == out;
    } else {
      PlainPassesThrough(timeout, inputs);
    }
  }

  lemma NothingYet(c: string)
    ensures Of(EMPTY.screen, c) == [] && Lookup(EMPTY, c) == FRESH
  {
  }
}
