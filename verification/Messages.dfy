/** Chat messages as the ordering code sees them, and the sequences of them that it shows. */
module Messages {

  datatype Option<+T> = None | Some(value: T)

  const WORD: nat := 0x1_0000_0000_0000_0000

  /** The largest value of a 64-bit unsigned number. */
  const LAST: nat := WORD - 1

  /** `uint64_t`. */
  type Word = n: nat | n < WORD

  /** A parsed JSON message. `number` is the `seq` field: None when it is absent or is not an unsigned number:
      no code tells the two apart. `text` stands for all other fields. */
  datatype Message = Message(convid: Option<string>, number: Option<Word>, text: string)

  predicate Sequenced(m: Message) {
    m.convid.Some? && m.number.Some?
  }

  function Num(m: Message): nat {
    if m.number.Some? then m.number.value else 0
  }

  /** Every message carries a number and the numbers strictly increase. */
  ghost predicate Ascending(ms: seq<Message>) {
    && (forall i :: 0 <= i < |ms| ==> ms[i].number.Some?)
    && (forall i, j :: 0 <= i < j < |ms| ==> Num(ms[i]) < Num(ms[j]))
  }

  predicate InConversation(m: Message, c: string) {
    m.convid == Some(c) && m.number.Some?
  }

  /** The numbered messages of conversation `c`, in order. */
  function Of(ms: seq<Message>, c: string): (r: seq<Message>)
    ensures forall m :: m in r <==> m in ms && InConversation(m, c)
  {
    if ms == [] then []
    else
      var rest := Of(ms[..|ms| - 1], c);
      if InConversation(ms[|ms| - 1], c) then rest + [ms[|ms| - 1]] else rest
  }

  lemma {:induction false} OfConcat(a: seq<Message>, b: seq<Message>, c: string)
    ensures Of(a + b, c) == Of(a, c) + Of(b, c)
  {
    if b == [] {
      assert a + b == a;
    } else {
      var n := |b| - 1;
      assert (a + b)[..|a + b| - 1] == a + b[..n];
      OfConcat(a, b[..n], c);
    }
  }

  lemma {:induction false} OfAll(ms: seq<Message>, c: string)
    requires forall i :: 0 <= i < |ms| ==> InConversation(ms[i], c)
    ensures Of(ms, c) == ms
  {
    if ms != [] {
      OfAll(ms[..|ms| - 1], c);
      assert ms == ms[..|ms| - 1] + [ms[|ms| - 1]];
    }
  }

  lemma {:induction false} OfNone(ms: seq<Message>, c: string)
    requires forall i :: 0 <= i < |ms| ==> !InConversation(ms[i], c)
    ensures Of(ms, c) == []
  {
    if ms != [] {
      OfNone(ms[..|ms| - 1], c);
    }
  }

  /** The elements that `p` picks, in order; it is asked with the place of each. */
  function Select<T>(xs: seq<T>, p: (nat, T) -> bool): seq<T> {
    if xs == [] then []
    else Select(xs[..|xs| - 1], p) + if p(|xs| - 1, xs[|xs| - 1]) then [xs[|xs| - 1]] else []
  }

  lemma SelectSnoc<T>(xs: seq<T>, x: T, p: (nat, T) -> bool)
    ensures Select(xs + [x], p) == if p(|xs|, x) then Select(xs, p) + [x] else Select(xs, p)
  {
    assert (xs + [x])[..|xs|] == xs;
  }

  lemma Regroup<T>(a: seq<T>, b: seq<T>, c: seq<T>)
    ensures (a + b) + c == a + (b + c)
  {
  }

  /** The messages are numbered `b`, `b + 1`, and so on. */
  ghost predicate Consecutive(ms: seq<Message>, b: nat) {
    forall i :: 0 <= i < |ms| ==> ms[i].number.Some? && ms[i].number.value == b + i
  }

  lemma ConsecutiveConcat(x: seq<Message>, y: seq<Message>, b: nat)
    requires Consecutive(x, b) && Consecutive(y, b + |x|)
    ensures Consecutive(x + y, b)
  {
  }

  ghost predicate Within(ms: seq<Message>, lo: nat, hi: nat) {
    forall m :: m in ms ==> m.number.Some? && lo <= m.number.value < hi
  }

  lemma AscendingConcat(a: seq<Message>, b: seq<Message>, lo: nat, mid: nat, hi: nat)
    requires Ascending(a) && Ascending(b) && lo <= mid <= hi
    requires Within(a, lo, mid) && Within(b, mid, hi)
    ensures Ascending(a + b) && Within(a + b, lo, hi)
  {
    forall i, j | 0 <= i < j < |a + b| ensures Num((a + b)[i]) < Num((a + b)[j]) {
      if i < |a| <= j { assert a[i] in a && b[j - |a|] in b; }
    }
  }
}
