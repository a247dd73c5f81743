/** A small run in which the assumptions of the end-to-end theorems all hold. */
module Example {
  import opened Messages
  import opened Handlers
  import opened Cluster
  import opened Runs
  import opened EndToEnd
  import N = Numbering
  import ConversationIds
  import Ch = Channels
  import Ord = Orderers

  const USERS: map<string, int> := map["bob" := 2]
  const BOB: int := 2
  const PHONE: nat := 7

  const WORLD: World := World(USERS, {}, [{}], [], [], {}, [], [], [], [], [], [], [], [])
  const START: System := System([Node(map[], N.Client(true, true, map[]))], map[], WORLD)

  function Hello(text: string): Message { Message(None, None, text) }

  /** Bob logs in and user 1 writes to him twice. */
  const OPS: seq<Op> := [
    Login(0, PHONE, "bob", true),
    Chat(0, 1, BOB, Hello("a"), N.Answered, Sent),
    Chat(0, 1, BOB, Hello("b"), N.Answered, Sent)]

  const CONV: string := ConversationIds.P2p(1, BOB)

  function Nth(text: string, k: Word): Message { Message(Some(CONV), Some(k), text) }

  const LOGGED_IN: System :=
    System([Node(map[BOB := PHONE], N.Client(true, true, map[]))], map[], WORLD.(subs := [{BOB}], online := {BOB}))

  function Written(s: System, text: string, k: Word): System {
    var m := Nth(text, k);
    s.(counters := s.counters[CONV := k],
       w := s.w.(log := s.w.log + [N.Ticket(0, CONV, k, N.FromRedis)], accepted := s.w.accepted + [m],
                 owed := s.w.owed + [Row(BOB, m)], pushed := s.w.pushed + [Row(BOB, m)],
                 mail := s.w.mail + [Envelope(PHONE, Row(BOB, m))]))
  }

  lemma LoginRuns()
    ensures Do(START, OPS[0]) == LOGGED_IN
  {
    assert Mine([], BOB) == [] && NotMine([], BOB) == [];
    assert Batch([], BOB) == [] by { Ledger.BatchIsMine([], BOB); assert |multiset(Batch([], BOB))| == 0; }
    var w := LoginAt(START.nodes[0], WORLD, 0, PHONE, "bob", true).1;
    assert WORLD.batched + [] == [] && Envelopes(PHONE, []) == [] && WORLD.mail + [] == [];
    assert {} + {BOB} == {BOB};
    hide Batch;
    assert w.subs == [{BOB}];
  }

  lemma ChatRuns(s: System, text: string, k: Word)
    requires s.nodes == LOGGED_IN.nodes && |s.w.subs| == 1 && s.w.down == {} && s.w.flight == []
    requires N.Count(s.counters, CONV) == k < N.REDIS_MAX
    ensures Do(s, Chat(0, 1, BOB, Hello(text), N.Answered, Sent)) == Written(s, text, k + 1)
  {
    hide ConversationIds.P2p;
  }

  lemma StartsWell()
    ensures Start(START) && RightfulRun(START, OPS)
  {
    hide Run;
    assert forall z, i :: 0 <= i < |OPS| ==> Rightful(z, OPS[i]);
  }

  lemma OneMoreOp(s: System, ops: seq<Op>, op: Op)
    requires Shaped(Run(s, ops)) && Enabled(Run(s, ops), op)
    ensures Run(s, ops + [op]) == Do(Run(s, ops), op)
  {
    hide Do, Enabled, Shaped;
    assert (ops + [op])[..|ops|] == ops;
  }

  lemma RunsToTheEnd()
    ensures Run(START, OPS) == Written(Written(LOGGED_IN, "a", 1), "b", 2)
  {
    hide Do, ConversationIds.P2p;
    LoginRuns();
    OneMoreOp(START, [], OPS[0]);
    ChatRuns(LOGGED_IN, "a", 0);
    OneMoreOp(START, [] + [OPS[0]], OPS[1]);
    ChatRuns(Written(LOGGED_IN, "a", 1), "b", 1);
    OneMoreOp(START, [] + [OPS[0]] + [OPS[1]], OPS[2]);
    assert OPS == [] + [OPS[0]] + [OPS[1]] + [OPS[2]];
  }

  /** Bob's client receives both messages. */
  const INPUTS: seq<Ord.Input> := [Ord.Receive(Nth("a", 1), 1), Ord.Receive(Nth("b", 2), 2)]

  const AFTER_ONE: Ch.Channel := Ch.Channel(true, 2, map[], {1}, 0)
  const AFTER_TWO: Ch.Channel := Ch.Channel(true, 3, map[], {1, 2}, 0)

  lemma BothAreShown()
    ensures Ch.Accept(Ch.FRESH, Nth("a", 1), 1, 1) == Ch.Step(AFTER_ONE, [Nth("a", 1)])
    ensures Ch.Accept(AFTER_ONE, Nth("b", 2), 2, 2) == Ch.Step(AFTER_TWO, [Nth("b", 2)])
  {
    hide ConversationIds.P2p;
    assert {1 as Word} + {2} == {1, 2};
    Ch.EmptyDrain(AFTER_ONE, 1);
    Ch.EmptyDrain(AFTER_TWO, 2);
  }

  lemma ScreenFills(timeout: int)
    ensures Ord.Process(Ord.EMPTY, timeout, INPUTS).screen == [Nth("a", 1), Nth("b", 2)]
  {
    BothAreShown();
    hide ConversationIds.P2p, Ch.Accept;
    assert INPUTS == [] + [INPUTS[0]] + [INPUTS[1]];
    Ord.ProcessSnoc(Ord.EMPTY, timeout, [], INPUTS[0]);
    Ord.ProcessSnoc(Ord.EMPTY, timeout, [] + [INPUTS[0]], INPUTS[1]);
    var one := Ord.Process(Ord.EMPTY, timeout, [] + [INPUTS[0]]);
    assert one.channels == map[CONV := AFTER_ONE];
  }

  const END: System := Written(Written(LOGGED_IN, "a", 1), "b", 2)

  lemma NumbersAreFine()
    ensures N.InRange(Numbers(END), CONV) && N.OneFallbackNode(Numbers(END), CONV) && OnRedis(END.w, CONV)
  {
    hide ConversationIds.P2p;
  }

  lemma InputsArePossible(timeout: int)
    ensures ClientRun(timeout, INPUTS, END.w)
  {
    hide ConversationIds.P2p, Ord.Process;
    var (a, b) := (Row(BOB, Nth("a", 1)), Row(BOB, Nth("b", 2)));
    assert END.w.pushed == [a, b];
    assert a in END.w.pushed && b in END.w.pushed;
  }

  /** The end-to-end theorems are about something: in this run Bob's client displays two messages, and
      every assumption of the theorems holds. */
  lemma TheoremsApply(timeout: int)
    ensures var s := Run(START, OPS);
            && Start(START) && RightfulRun(START, OPS)
            && N.InRange(Numbers(s), CONV) && N.OneFallbackNode(Numbers(s), CONV)
            && OnRedis(s.w, CONV) && ClientRun(timeout, INPUTS, s.w)
            && BothShow(Displayed(timeout, INPUTS, CONV), 0, 1, s.w.accepted, 0, 1)
  {
    StartsWell();
    RunsToTheEnd();
    ScreenFills(timeout);
    NumbersAreFine();
    InputsArePossible(timeout);
    hide Run, ConversationIds.P2p, Start, RightfulRun, N.InRange, N.OneFallbackNode, OnRedis, ClientRun, Ord.Process;
    assert END.w.accepted == [Nth("a", 1), Nth("b", 2)];
    OfAll(END.w.accepted, CONV);
  }
}
