/** Conversation ids, shared by server and client. */
module ConversationIds {

  const DIGITS: string := "0123456789"

  function Digits(n: nat): (s: string)
    ensures s != "" && forall i :: 0 <= i < |s| ==> s[i] in DIGITS
  {
    if n < 10 then [DIGITS[n]] else Digits(n / 10) + [DIGITS[n % 10]]
  }

  /** `to_string`. */
  function ToString(n: int): string {
    if n < 0 then "-" + Digits(-n) else Digits(n)
  }

  function Min(a: int, b: int): int { if b < a then b else a }
  function Max(a: int, b: int): int { if a < b then b else a }

  /** `conv::p2p`. */
  function P2p(userA: int, userB: int): string {
    "p" + ToString(Min(userA, userB)) + "_" + ToString(Max(userA, userB))
  }

  /** `conv::group`. */
  function Group(groupid: int): string {
    "g" + ToString(groupid)
  }

  function DigitValue(c: char): nat
    requires c in DIGITS
  {
    c as nat - '0' as nat
  }

  ghost predicate AllDigits(s: string) {
    forall i :: 0 <= i < |s| ==> s[i] in DIGITS
  }

  function Value(s: string): nat
    requires AllDigits(s)
  {
    if s == "" then 0 else 10 * Value(s[..|s| - 1]) + DigitValue(s[|s| - 1])
  }

  lemma {:induction false} DigitsReadBack(n: nat)
    ensures Value(Digits(n)) == n
  {
    assert forall d :: 0 <= d < 10 ==> DigitValue(DIGITS[d]) == d;
    if n >= 10 {
      DigitsReadBack(n / 10);
      var s := Digits(n);
      assert s[..|s| - 1] == Digits(n / 10);
    } else {
      assert Digits(n)[..0] == "";
    }
  }

  lemma SignIsReadable(n: int)
    ensures ToString(n) != ""
    ensures if n < 0 then ToString(n)[0] == '-' && ToString(n)[1..] == Digits(-n)
            else ToString(n)[0] in DIGITS && ToString(n) == Digits(n)
  {
  }

  lemma NoSeparator(n: int)
    ensures '_' !in ToString(n)
  {
    assert '_' !in DIGITS;
  }

  lemma ToStringInjective(m: int, n: int)
    ensures ToString(m) == ToString(n) ==> m == n
    ensures '_' !in ToString(n)
  {
    NoSeparator(n);
    assert '-' !in DIGITS;
    SignIsReadable(m);
    SignIsReadable(n);
    DigitsReadBack(if m < 0 then -m else m);
    DigitsReadBack(if n < 0 then -n else n);
    hide ToString, Digits, Value;
  }

  lemma SplitAtSeparator(x: string, y: string, x': string, y': string)
    requires '_' !in x && '_' !in x'
    requires x + "_" + y == x' + "_" + y'
    ensures x == x' && y == y'
  {
    var s := x + "_" + y;
    assert s[|x|] == '_' && s[|x'|] == '_';
    assert s[..|x|] == x && s[..|x'|] == x';
    assert s[|x| + 1..] == y && s[|x'| + 1..] == y';
  }

  lemma PairsAreInjective(lo: int, hi: int, lo': int, hi': int)
    requires "p" + ToString(lo) + "_" + ToString(hi) == "p" + ToString(lo') + "_" + ToString(hi')
    ensures lo == lo' && hi == hi'
  {
    ToStringInjective(lo', lo);
    ToStringInjective(lo, lo');
    ToStringInjective(hi, hi');
    var x, y, x', y' := ToString(lo), ToString(hi), ToString(lo'), ToString(hi');
    hide ToString;
    assert ("p" + x + "_" + y)[1..] == x + "_" + y;
    assert ("p" + x' + "_" + y')[1..] == x' + "_" + y';
    SplitAtSeparator(x, y, x', y');
  }

  /** A direct conversation has the same id in both directions, and no other pair of users has that
      id; user ids may be negative. */
  lemma DirectIdsAreInjective(a: int, b: int, c: int, d: int)
    ensures P2p(a, b) == P2p(c, d) <==> {a, b} == {c, d}
  {
    hide ToString;
    if P2p(a, b) == P2p(c, d) {
      PairsAreInjective(Min(a, b), Max(a, b), Min(c, d), Max(c, d));
    }
    if {a, b} == {c, d} {
      assert a in {c, d} && b in {c, d} && c in {a, b} && d in {a, b};
    }
  }

  /** Different groups have different ids, and no group shares one with a pair of users. */
  lemma GroupIdsAreInjective(g: int, h: int, a: int, b: int)
    ensures Group(g) == Group(h) <==> g == h
    ensures Group(g) != P2p(a, b)
  {
    ToStringInjective(g, h);
    hide ToString;
    assert P2p(a, b)[0] == 'p' && Group(g)[0] == 'g';
    assert Group(g)[1..] == ToString(g) && Group(h)[1..] == ToString(h);
  }

  lemma {:induction false} NoLeadingZero(n: nat)
    ensures n > 0 ==> Digits(n)[0] != '0'
  {
    if n >= 10 {
      NoLeadingZero(n / 10);
      assert Digits(n)[0] == Digits(n / 10)[0];
    }
  }

  /** The text reads back as a decimal number: a minus sign in front of negative ones, no leading zero. */
  lemma ToStringIsDecimal(n: int)
    ensures var s := ToString(n);
            if n < 0 then s[..1] == "-" && AllDigits(s[1..]) && s[1..][..1] != "0" && Value(s[1..]) == -n
            else AllDigits(s) && (s[..1] == "0" <==> n == 0) && Value(s) == n
  {
    SignIsReadable(n);
    NoLeadingZero(if n < 0 then -n else n);
    DigitsReadBack(if n < 0 then -n else n);
    assert DIGITS[0] == '0';
    hide Digits, Value;
  }

  lemma SmallNumbers()
    ensures ToString(1) == "1" && ToString(2) == "2" && ToString(7) == "7" && ToString(-3) == "-3"
    ensures ToString(10) == "10"
  {
    assert Digits(1) == "1";
    assert Digits(10) == Digits(1) + "0";
  }

  /** The smaller id comes first, whichever way the message goes; ids are written in decimal. */
  lemma IdsReadAs()
    ensures P2p(2, 1) == P2p(1, 2) == "p1_2"
    ensures P2p(10, -3) == "p-3_10"
    ensures Group(7) == "g7"
  {
    SmallNumbers();
    hide ToString;
  }
}
