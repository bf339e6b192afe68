/**
 UID generation (src/state/uid.rs): a server's SID followed by six base-36 digits of a 64-bit counter.

 `UidAt(sid, k)` is the UID that the k-th call returns; the counter starts at 2 and wraps at 2^64.
 */
module Uid {
  import opened Arithmetic

  const CHARS: string := "ABCDEFGHIJKLMNOPQRSTUVWXYZ0123456789"

  const COUNTER_START: nat := 2

  const TWO64: nat := 0x1_0000_0000_0000_0000

  /** 36 to the sixth: the number of different client ids. */
  const IDS: nat := 2176782336

  type u64 = n: int | 0 <= n < 0x1_0000_0000_0000_0000

  // ---------- Base 36 ----------

  function Pow36(w: nat): (r: nat)
    ensures r >= 1
  {
    if w == 0 then 1 else 36 * Pow36(w - 1)
  }

  /** The low `w` base-36 digits of `n`. */
  function Digits(n: nat, w: nat): (r: string)
    ensures |r| == w
  {
    if w == 0 then "" else Digits(n / 36, w - 1) + [CHARS[n % 36]]
  }

  function CharValue(c: char): nat {
    if 'A' <= c <= 'Z' then c as int - 'A' as int else if '0' <= c <= '9' then c as int - '0' as int + 26 else 0
  }

  function Value(s: string): nat {
    if s == [] then 0 else 36 * Value(s[..|s| - 1]) + CharValue(s[|s| - 1])
  }

  lemma CharRoundTrip(d: nat)
    requires d < 36
    ensures CharValue(CHARS[d]) == d
    ensures CHARS[d] as int == if d < 26 then 65 + d else 48 + (d - 26)
  {
    if d < 26 {
      assert CHARS[d] == ('A' as int + d) as char;
    } else {
      assert CHARS[d] == ('0' as int + (d - 26)) as char;
    }
  }

  lemma ModStep(n: nat, m: nat)
    requires m >= 1
    ensures n % (36 * m) == 36 * ((n / 36) % m) + n % 36
  {
    var q, r := n / 36, n % 36;
    var k, s := q / m, q % m;
    assert n == 36 * q + r && q == m * k + s;
    assert n == (36 * m) * k + (36 * s + r);
    assert 36 * s + r < 36 * m;
    DivModUnique(n, 36 * m, k, 36 * s + r);
  }

  /** The digits are those of the number modulo 36^w. */
  lemma {:induction false} DigitsValue(n: nat, w: nat)
    ensures Value(Digits(n, w)) == n % Pow36(w)
  {
    if w > 0 {
      DigitsValue(n / 36, w - 1);
      assert Digits(n, w)[..w - 1] == Digits(n / 36, w - 1);
      CharRoundTrip(n % 36);
      ModStep(n, Pow36(w - 1));
    }
  }

  lemma SameParts(a: nat, b: nat, m: nat)
    requires m >= 1 && a % (36 * m) == b % (36 * m)
    ensures a % 36 == b % 36 && (a / 36) % m == (b / 36) % m
  {
    ModStep(a, m);
    ModStep(b, m);
  }

  /** Equal remainders give equal digits. */
  lemma {:induction false} DigitsMod(a: nat, b: nat, w: nat)
    requires a % Pow36(w) == b % Pow36(w)
    ensures Digits(a, w) == Digits(b, w)
  {
    if w > 0 {
      SameParts(a, b, Pow36(w - 1));
      DigitsMod(a / 36, b / 36, w - 1);
      DigitsStep(a, w);
      DigitsStep(b, w);
    }
  }

  lemma EncodingsEqualIff(a: nat, b: nat)
    ensures Digits(a, 6) == Digits(b, 6) <==> a % IDS == b % IDS
  {
    assert Pow36(3) == 46656;
    assert Pow36(6) == IDS;
    DigitsValue(a, 6);
    DigitsValue(b, 6);
    if a % IDS == b % IDS {
      DigitsMod(a, b, 6);
    }
  }

  /** Fills the six places from the right. */
  method Base36Encode6(number: u64) returns (text: string)
    ensures text == Digits(number, 6)
  {
    var result := new char[6](_ => 'A');
    var n: nat := number;
    var i := 6;
    while i > 0
      invariant 0 <= i <= 6
      invariant Digits(n, i) + result[i..] == Digits(number, 6)
    {
      i := i - 1;
      ghost var done := result[i + 1..];
      result[i] := CHARS[n % 36];
      assert result[i..] == [CHARS[n % 36]] + done;
      assert Digits(n, i + 1) + done == Digits(n / 36, i) + ([CHARS[n % 36]] + done);
      n := n / 36;
    }
    assert result[0..] == result[..];
    text := result[..];
  }

  // ---------- The generator ----------

  function CounterAt(k: nat): u64 {
    (COUNTER_START + k) % TWO64
  }

  function UidAt(sid: string, k: nat): string {
    sid + Digits(CounterAt(k), 6)
  }

  class UidGenerator {
    const sid: string
    var counter: u64
    ghost var calls: nat

    ghost predicate Valid()
      reads this
    {
      counter == CounterAt(calls)
    }

    constructor (sid: string)
      ensures Valid() && this.sid == sid && calls == 0
    {
      this.sid := sid;
      counter := COUNTER_START;
      calls := 0;
    }

    method Next() returns (uid: string)
      requires Valid()
      modifies this
      ensures Valid() && calls == old(calls) + 1
      ensures uid == UidAt(sid, old(calls))
    {
      var n := counter;
      counter := (counter + 1) % TWO64;
      calls := calls + 1;
      NextCounter(calls - 1);
      var digits := Base36Encode6(n);
      uid := sid + digits;
    }
  }

  lemma NextCounter(k: nat)
    ensures (CounterAt(k) + 1) % TWO64 == CounterAt(k + 1)
  {
  }

  // ---------- Uniqueness ----------

  lemma UidsEqualIff(sid: string, j: nat, k: nat)
    ensures UidAt(sid, j) == UidAt(sid, k) <==> CounterAt(j) % IDS == CounterAt(k) % IDS
  {
    EncodingsEqualIff(CounterAt(j), CounterAt(k));
    SamePrefix(sid, Digits(CounterAt(j), 6), Digits(CounterAt(k), 6));
  }

  lemma SamePrefix(p: string, a: string, b: string)
    ensures p + a == p + b <==> a == b
  {
    assert (p + a)[|p|..] == a && (p + b)[|p|..] == b;
  }

  /** The counter wraps between the two calls. */
  predicate WrapsBetween(j: nat, k: nat) {
    (COUNTER_START + j) / TWO64 != (COUNTER_START + k) / TWO64
  }

  lemma SameRemainder(x: nat, y: nat, d: nat)
    requires y == x + d
    ensures x % IDS == y % IDS <==> d % IDS == 0
  {
    var q, r := x / IDS, x % IDS;
    if d % IDS == 0 {
      DivModUnique(y, IDS, q + d / IDS, r);
    }
    if y % IDS == r {
      DivModUnique(d, IDS, y / IDS - q, 0);
    }
  }

  /**
   Two calls fewer than 2^64 apart return the same UID exactly when their distance is a multiple of 36^6 - or, if the
   counter wraps in between, when 2^64 less their distance is.
   */
  lemma CollisionIff(sid: string, j: nat, k: nat)
    requires j < k && k - j < TWO64
    ensures UidAt(sid, j) == UidAt(sid, k)
        <==> (if WrapsBetween(j, k) then (TWO64 - (k - j)) % IDS == 0 else (k - j) % IDS == 0)
  {
    UidsEqualIff(sid, j, k);
    if WrapsBetween(j, k) {
      CounterWraps(j, k);
      SameRemainder(CounterAt(k), CounterAt(j), TWO64 - (k - j));
    } else {
      CounterGoesOn(j, k);
      SameRemainder(CounterAt(j), CounterAt(k), k - j);
    }
  }

  lemma CounterWraps(j: nat, k: nat)
    requires j < k && k - j < TWO64 && WrapsBetween(j, k)
    ensures CounterAt(j) == CounterAt(k) + (TWO64 - (k - j))
  {
    var q := (COUNTER_START + j) / TWO64;
    assert (COUNTER_START + k) / TWO64 == q + 1;
  }

  lemma CounterGoesOn(j: nat, k: nat)
    requires j < k && !WrapsBetween(j, k)
    ensures CounterAt(k) == CounterAt(j) + (k - j)
  {
  }

  /** While the 64-bit counter has not wrapped, any two calls fewer than 36^6 apart return different UIDs. */
  lemma UniqueWithinWindow(sid: string, j: nat, k: nat)
    requires j < k && k - j < IDS && !WrapsBetween(j, k)
    ensures UidAt(sid, j) != UidAt(sid, k)
  {
    assert (k - j) % IDS == k - j;
    CollisionIff(sid, j, k);
  }

  lemma AcrossTheWrap()
    ensures WrapsBetween(18446744073338707966, 18446744073709551614)
    ensures (TWO64 - (18446744073709551614 - 18446744073338707966)) % IDS == 0
  {
    DivModUnique(COUNTER_START + 18446744073338707966, TWO64, 0, COUNTER_START + 18446744073338707966);
    DivModUnique(COUNTER_START + 18446744073709551614, TWO64, 1, 0);
    DivModUnique(TWO64 - 370843648, IDS, 8474317238, 0);
  }

  /** Across the wrap the window is smaller, 2^64 not being a multiple of 36^6. */
  lemma WrapCollides(sid: string)
    ensures var j, k := 18446744073338707966, 18446744073709551614;
            j < k < j + IDS && UidAt(sid, j) == UidAt(sid, k)
  {
    AcrossTheWrap();
    CollisionIff(sid, 18446744073338707966, 18446744073709551614);
  }

  /** The service UIDs are first issued again by the calls numbered 36^6 - 2 and 36^6 - 1. */
  lemma ReservedIff(sid: string, k: nat)
    requires k < IDS
    ensures UidAt(sid, k) == sid + "AAAAAA" <==> k == IDS - 2
    ensures UidAt(sid, k) == sid + "AAAAAB" <==> k == IDS - 1
  {
    SixDigits(0);
    SixDigits(1);
    EncodingsEqualIff(CounterAt(k), 0);
    EncodingsEqualIff(CounterAt(k), 1);
    SamePrefix(sid, Digits(CounterAt(k), 6), "AAAAAA");
    SamePrefix(sid, Digits(CounterAt(k), 6), "AAAAAB");
    EarlyCounter(k);
  }

  lemma EarlyCounter(k: nat)
    requires k < IDS
    ensures CounterAt(k) == COUNTER_START + k
    ensures CounterAt(k) % IDS == 0 <==> k == IDS - 2
    ensures CounterAt(k) % IDS == 1 <==> k == IDS - 1
  {
  }

  lemma SixDigits(d: nat)
    requires d < 2
    ensures Digits(d, 6) == if d == 0 then "AAAAAA" else "AAAAAB"
  {
    LeadingZero(1);
    LeadingZero(2);
    LeadingZero(3);
    LeadingZero(4);
    LeadingZero(5);
    LowDigit(d);
  }

  lemma LeadingZero(w: nat)
    requires w > 0
    ensures Digits(0, w) == Digits(0, w - 1) + "A"
  {
  }

  lemma LowDigit(d: nat)
    requires d < 36
    ensures Digits(d, 6) == Digits(0, 5) + [CHARS[d]]
  {
    assert d / 36 == 0 && d % 36 == d;
    DigitsStep(d, 6);
  }

  lemma DigitsStep(n: nat, w: nat)
    requires w > 0
    ensures Digits(n, w) == Digits(n / 36, w - 1) + [CHARS[n % 36]]
  {
  }

  /**
   The first three characters of a UID name the server that issued it, and UIDs of different servers differ. Nothing but
   the length of a SID matters, which the configuration fixes at three (src/config/validation.rs).
   */
  lemma UidNamesServer(a: string, b: string, j: nat, k: nat)
    requires |a| == 3 && |b| == 3
    ensures |UidAt(a, j)| == 9 && UidAt(a, j)[..3] == a
    ensures UidAt(a, j) == UidAt(b, k) ==> a == b
  {
    assert UidAt(a, j)[..3] == a && UidAt(b, k)[..3] == b;
  }
}
