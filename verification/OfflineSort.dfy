/** Sorting of stored offline messages before they are handed over at login. */
module OfflineSort {
  import opened Messages

  /** A stored text with what `json::parse` makes of it; None when it is not legal JSON. */
  datatype Stored = Stored(text: string, json: Option<Message>)

  /** `struct Item`. */
  datatype Item = Item(raw: Stored, conv: string, number: Word, ok: bool)

  function Entry(st: Stored): Item {
    if st.json.Some? && st.json.value.number.Some? then
      Item(st, if st.json.value.convid.Some? then st.json.value.convid.value else "", st.json.value.number.value, true)
    else Item(st, "", 0, false)
  }

  /** `operator<` of `std::string`: lexicographic on characters. */
  predicate TextLess(a: string, b: string) {
    if b == "" then false
    else if a == "" then true
    else if a[0] != b[0] then a[0] < b[0]
    else TextLess(a[1..], b[1..])
  }

  /** The comparator handed to `stable_sort`. */
  predicate Less(a: Item, b: Item) {
    if a.ok != b.ok then a.ok
    else if !a.ok && !b.ok then false
    else if a.conv != b.conv then TextLess(a.conv, b.conv)
    else a.number < b.number
  }

  lemma {:induction false} TextTrichotomy(a: string, b: string)
    ensures a != b ==> TextLess(a, b) != TextLess(b, a)
    ensures !TextLess(a, a)
  {
    if a != "" {
      TextTrichotomy(a[1..], if b != "" then b[1..] else "");
    }
    if a != "" && b != "" && a[0] == b[0] {
      assert a == [a[0]] + a[1..] && b == [b[0]] + b[1..];
    }
  }

  /** The texts agree before `i`, and there the first ends or has the smaller character. */
  ghost predicate LessAt(a: string, b: string, i: nat) {
    i <= |a| && i < |b| && a[..i] == b[..i] && (i < |a| ==> a[i] < b[i])
  }

  lemma LessAtSkip(a: string, b: string, i: nat)
    requires a != "" && b != "" && a[0] == b[0]
    ensures LessAt(a[1..], b[1..], i) <==> LessAt(a, b, i + 1)
  {
    if i < |a| && i < |b| {
      assert a[..i + 1] == [a[0]] + a[1..][..i] && b[..i + 1] == [b[0]] + b[1..][..i];
      assert a[1..][..i] == a[..i + 1][1..] && b[1..][..i] == b[..i + 1][1..];
    }
  }

  lemma LaterAgrees(a: string, b: string, i: nat)
    requires LessAt(a, b, i)
    ensures i > 0 ==> a != "" && b != "" && a[0] == b[0]
  {
    if i > 0 {
      assert a[..i][0] == b[..i][0];
    }
  }

  /** A text is less than another exactly when it is a proper beginning of it or has the smaller character
      at the first place where they differ. */
  lemma {:induction false} TextLessMeans(a: string, b: string)
    ensures TextLess(a, b) <==> exists i: nat :: LessAt(a, b, i)
  {
    if a == "" || b == "" || a[0] != b[0] {
      assert TextLess(a, b) ==> LessAt(a, b, 0);
      forall i: nat | LessAt(a, b, i) ensures i == 0 {
        LaterAgrees(a, b, i);
      }
    } else {
      var c, d := a[1..], b[1..];
      TextLessMeans(c, d);
      if i: nat :| LessAt(c, d, i) { LessAtSkip(a, b, i); }
      if j: nat :| LessAt(a, b, j) && j > 0 { LessAtSkip(a, b, j - 1); }
      assert !LessAt(a, b, 0);
    }
  }

  lemma {:induction false} TextTransitive(a: string, b: string, c: string)
    requires TextLess(a, b) && TextLess(b, c)
    ensures TextLess(a, c)
  {
    if a != "" && a[0] == b[0] == c[0] {
      TextTransitive(a[1..], b[1..], c[1..]);
    }
  }

  /** The comparator is a strict weak order, as `stable_sort` demands: it is irreflexive and
      asymmetric, and "not less" is transitive. */
  lemma ComparatorIsStrictWeakOrder(a: Item, b: Item, c: Item)
    ensures !Less(a, a)
    ensures Less(a, b) ==> !Less(b, a)
    ensures Less(a, b) && Less(b, c) ==> Less(a, c)
    ensures !Less(b, a) && !Less(c, b) ==> !Less(c, a)
  {
    TextTrichotomy(a.conv, b.conv);
    TextTrichotomy(b.conv, c.conv);
    TextTrichotomy(a.conv, c.conv);
    if TextLess(a.conv, b.conv) && TextLess(b.conv, c.conv) { TextTransitive(a.conv, b.conv, c.conv); }
    if TextLess(c.conv, a.conv) && TextLess(a.conv, b.conv) { TextTransitive(c.conv, a.conv, b.conv); }
    if TextLess(b.conv, c.conv) && TextLess(c.conv, a.conv) { TextTransitive(b.conv, c.conv, a.conv); }
  }

  ghost predicate Ordered(items: seq<Item>) {
    forall i, j :: 0 <= i < j < |items| ==> !Less(items[j], items[i])
  }

  /** Behind every element that is not greater. */
  function Insert(items: seq<Item>, x: Item): (r: seq<Item>)
    ensures multiset(r) == multiset(items) + multiset{x}
  {
    if items == [] || !Less(x, items[|items| - 1]) then items + [x]
    else
      var n := |items| - 1;
      assert items == items[..n] + [items[n]];
      Insert(items[..n], x) + [items[n]]
  }

  /** `std::stable_sort` with this comparator. */
  function StableSorted(items: seq<Item>): (r: seq<Item>)
    ensures multiset(r) == multiset(items)
  {
    if items == [] then []
    else
      var n := |items| - 1;
      assert items == items[..n] + [items[n]];
      Insert(StableSorted(items[..n]), items[n])
  }

  lemma {:induction false} InsertOrders(items: seq<Item>, x: Item)
    requires Ordered(items)
    ensures Ordered(Insert(items, x))
  {
    if items != [] {
      var n := |items| - 1;
      var last := items[n];
      if Less(x, last) {
        InsertOrders(items[..n], x);
        var r := Insert(items[..n], x);
        forall i | 0 <= i < |r| ensures !Less(last, r[i]) {
          assert r[i] in multiset(items[..n]) + multiset{x};
          ComparatorIsStrictWeakOrder(x, last, last);
        }
      } else {
        forall i | 0 <= i < |items| ensures !Less(x, items[i]) {
          ComparatorIsStrictWeakOrder(items[i], last, x);
        }
      }
    }
  }

  lemma {:induction false} StableSortedIsOrdered(items: seq<Item>)
    ensures Ordered(StableSorted(items))
  {
    if items != [] {
      var n := |items| - 1;
      StableSortedIsOrdered(items[..n]);
      InsertOrders(StableSorted(items[..n]), items[n]);
    }
  }

  predicate Ties(a: Item, k: Item) {
    !Less(a, k) && !Less(k, a)
  }

  /** The elements equivalent to `k`, in order. */
  function Tied(items: seq<Item>, k: Item): seq<Item> {
    if items == [] then []
    else
      var n := |items| - 1;
      Tied(items[..n], k) + if Ties(items[n], k) then [items[n]] else []
  }

  lemma NotBothTie(x: Item, last: Item, k: Item)
    requires Less(x, last)
    ensures !Ties(x, k) || !Ties(last, k)
  {
    ComparatorIsStrictWeakOrder(x, k, last);
    ComparatorIsStrictWeakOrder(last, k, x);
  }

  lemma TiedSnoc(items: seq<Item>, x: Item, k: Item)
    ensures Tied(items + [x], k) == Tied(items, k) + if Ties(x, k) then [x] else []
  {
    assert (items + [x])[..|items|] == items;
  }

  lemma {:induction false} InsertIsStable(items: seq<Item>, x: Item, k: Item)
    ensures Tied(Insert(items, x), k) == Tied(items + [x], k)
  {
    hide Less, Ties, Tied;
    if items != [] && Less(x, items[|items| - 1]) {
      var n := |items| - 1;
      var front, last := items[..n], items[n];
      InsertIsStable(front, x, k);
      TiedSnoc(front, x, k);
      TiedSnoc(Insert(front, x), last, k);
      TiedSnoc(items, x, k);
      TiedSnoc(front, last, k);
      assert items == front + [last];
      NotBothTie(x, last, k);
    }
  }

  /** The sort is stable: equivalent items keep their relative order. */
  lemma {:induction false} StableSortedIsStable(items: seq<Item>, k: Item)
    ensures Tied(StableSorted(items), k) == Tied(items, k)
  {
    if items != [] {
      var n := |items| - 1;
      StableSortedIsStable(items[..n], k);
      var sorted := StableSorted(items[..n]);
      InsertIsStable(sorted, items[n], k);
      TiedSnoc(sorted, items[n], k);
    }
  }

  function Entries(msgs: seq<Stored>): seq<Item> {
    seq(|msgs|, i requires 0 <= i < |msgs| => Entry(msgs[i]))
  }

  function Raws(items: seq<Item>): seq<Stored> {
    seq(|items|, i requires 0 <= i < |items| => items[i].raw)
  }

  /** What `sortOfflineMessages` makes of a list. */
  function Sorted(msgs: seq<Stored>): seq<Stored> {
    Raws(StableSorted(Entries(msgs)))
  }

  /** `sortOfflineMessages`, in place on the caller's vector. */
  method SortOfflineMessages(msgs: array<Stored>)
    modifies msgs
    ensures msgs[..] == Sorted(old(msgs[..]))
  {
    hide Insert, StableSorted;
    ghost var was := msgs[..];
    var items: seq<Item> := [];
    for i := 0 to msgs.Length
      invariant msgs[..] == was && items == Entries(was[..i])
    {
      var st := msgs[i];
      var item := Item(st, "", 0, false);
      if st.json.Some? && st.json.value.number.Some? {
        var conv := if st.json.value.convid.Some? then st.json.value.convid.value else "";
        item := Item(st, conv, st.json.value.number.value, true);
      }
      EntriesSnoc(was[..i], st);
      assert was[..i + 1] == was[..i] + [st];
      items := items + [item];
    }
    SortedLength(items);
    assert was[..msgs.Length] == was;
    items := StableSorted(items);
    for i := 0 to msgs.Length
      invariant forall k :: 0 <= k < i ==> msgs[k] == items[k].raw
    {
      msgs[i] := items[i].raw;
    }
    assert msgs[..] == Raws(items);
  }

  lemma SortedLength(items: seq<Item>)
    ensures |StableSorted(items)| == |items|
  {
    assert |multiset(StableSorted(items))| == |multiset(items)|;
  }

  lemma EntriesSnoc(msgs: seq<Stored>, st: Stored)
    ensures Entries(msgs + [st]) == Entries(msgs) + [Entry(st)]
  {
  }

  // ----- what the sorted list promises

  lemma RawsSnoc(items: seq<Item>, x: Item)
    ensures Raws(items + [x]) == Raws(items) + [x.raw]
  {
  }

  lemma {:induction false} InsertKeepsRaws(items: seq<Item>, x: Item)
    ensures multiset(Raws(Insert(items, x))) == multiset(Raws(items)) + multiset{x.raw}
  {
    RawsSnoc(items, x);
    if items != [] && Less(x, items[|items| - 1]) {
      var n := |items| - 1;
      InsertKeepsRaws(items[..n], x);
      RawsSnoc(Insert(items[..n], x), items[n]);
      RawsSnoc(items[..n], items[n]);
      assert items == items[..n] + [items[n]];
    }
  }

  lemma SnocBag(a: seq<Stored>, x: Stored)
    ensures multiset(a + [x]) == multiset(a) + multiset{x}
  {
  }

  lemma {:induction false} StableSortedKeepsRaws(items: seq<Item>)
    ensures multiset(Raws(StableSorted(items))) == multiset(Raws(items))
  {
    if items != [] {
      var n := |items| - 1;
      var front, x := items[..n], items[n];
      assert Raws(items) == Raws(front + [x]) by { assert items == front + [x]; }
      StableSortedKeepsRaws(front);
      InsertKeepsRaws(StableSorted(front), x);
      RawsSnoc(front, x);
      SnocBag(Raws(front), x.raw);
      hide Raws;
    }
  }

  /** The sorted list is a permutation of the stored messages. */
  lemma SortedIsPermutation(msgs: seq<Stored>)
    ensures multiset(Sorted(msgs)) == multiset(msgs)
  {
    StableSortedKeepsRaws(Entries(msgs));
    assert Raws(Entries(msgs)) == msgs;
  }

  predicate Numbered(st: Stored) {
    st.json.Some? && st.json.value.number.Some?
  }

  function ConvOf(st: Stored): string
    requires Numbered(st)
  {
    if st.json.value.convid.Some? then st.json.value.convid.value else ""
  }

  /** Numbered messages come first, grouped by conversation, in the order of their numbers. */
  ghost predicate Grouped(msgs: seq<Stored>) {
    forall i, j :: 0 <= i < j < |msgs| && Numbered(msgs[j]) ==>
      Numbered(msgs[i]) &&
      (ConvOf(msgs[i]) == ConvOf(msgs[j]) ==> msgs[i].json.value.number.value <= msgs[j].json.value.number.value) &&
      (ConvOf(msgs[i]) != ConvOf(msgs[j]) ==> TextLess(ConvOf(msgs[i]), ConvOf(msgs[j])))
  }

  lemma SortedIsGrouped(msgs: seq<Stored>)
    ensures Grouped(Sorted(msgs))
  {
    var items := StableSorted(Entries(msgs));
    StableSortedIsOrdered(Entries(msgs));
    var r := Raws(items);
    forall i | 0 <= i < |items| ensures items[i] == Entry(r[i]) {
      assert items[i] in multiset(Entries(msgs));
    }
    forall i, j | 0 <= i < j < |r| && Numbered(r[j])
      ensures Numbered(r[i])
      ensures ConvOf(r[i]) == ConvOf(r[j]) ==> r[i].json.value.number.value <= r[j].json.value.number.value
      ensures ConvOf(r[i]) != ConvOf(r[j]) ==> TextLess(ConvOf(r[i]), ConvOf(r[j]))
    {
      assert !Less(items[j], items[i]);
      TextTrichotomy(items[i].conv, items[j].conv);
    }
  }
}
