/**
 The string keys of the history table (`make_key`, src/history/redb.rs): folded target, NUL, timestamp padded to twenty
 characters, NUL, message id. The byte order of the keys is the order of the records they stand for.
 */
module HistoryKeys {
  import opened Common
  import opened Order
  import opened Casemap
  import Utf8

  const I64_MAX: int := 9223372036854775807
  const I64_MIN: int := -9223372036854775808

  type I64 = t: int | I64_MIN <= t <= I64_MAX

  /** A stored row: the folded target it belongs to, its time in nanoseconds, and its id. */
  datatype Rec = Rec(target: string, time: I64, id: string)

  // ---------- Decimal numbers ----------

  function Pow10(w: nat): nat {
    if w == 0 then 1 else 10 * Pow10(w - 1)
  }

  function DigitChar(d: nat): char
    requires d < 10
  {
    ('0' as int + d) as char
  }

  predicate AllDigits(s: string) {
    forall i :: 0 <= i < |s| ==> '0' <= s[i] <= '9'
  }

  /** The low `w` decimal digits of `n`, zero-padded. */
  function Digits(n: nat, w: nat): (r: string)
    ensures |r| == w && AllDigits(r)
  {
    if w == 0 then "" else Digits(n / 10, w - 1) + [DigitChar(n % 10)]
  }

  function DigitsValue(s: string): nat
    requires AllDigits(s)
  {
    if s == [] then 0 else 10 * DigitsValue(s[..|s| - 1]) + (s[|s| - 1] as int - '0' as int)
  }

  /** Plain decimal, no padding. */
  function Decimal(n: nat): (r: string)
    ensures AllDigits(r) && r != []
  {
    (if n < 10 then "" else Decimal(n / 10)) + [DigitChar(n % 10)]
  }

  lemma DivLess(n: nat, w: nat)
    requires w > 0 && n < Pow10(w)
    ensures n / 10 < Pow10(w - 1)
  {
  }

  lemma {:induction false} DigitsOrder(a: nat, b: nat, w: nat)
    requires a < Pow10(w) && b < Pow10(w)
    ensures Less(Digits(a, w), Digits(b, w)) <==> a < b
    ensures Digits(a, w) == Digits(b, w) ==> a == b
  {
    if w > 0 {
      DivLess(a, w);
      DivLess(b, w);
      DigitsOrder(a / 10, b / 10, w - 1);
      var p, q := Digits(a / 10, w - 1), Digits(b / 10, w - 1);
      var x, y := [DigitChar(a % 10)], [DigitChar(b % 10)];
      assert (p + x)[..w - 1] == p && (q + y)[..w - 1] == q;
      assert (p + x)[w - 1] == x[0] && (q + y)[w - 1] == y[0];
      if p == q {
        LessSamePrefix(p, x, y);
        assert x[1..] == y[1..] == [];
      } else {
        LessPrefixDecides(p, q, x, y);
      }
    }
  }

  lemma {:induction false} DigitsRoundTrip(n: nat, w: nat)
    requires n < Pow10(w)
    ensures DigitsValue(Digits(n, w)) == n
  {
    if w > 0 {
      DivLess(n, w);
      DigitsRoundTrip(n / 10, w - 1);
      assert Digits(n, w)[..w - 1] == Digits(n / 10, w - 1);
    }
  }

  lemma {:induction false} DecimalRoundTrip(n: nat)
    ensures DigitsValue(Decimal(n)) == n
  {
    if n >= 10 {
      DecimalRoundTrip(n / 10);
      assert Decimal(n)[..|Decimal(n)| - 1] == Decimal(n / 10);
    } else {
      assert Decimal(n)[..0] == "";
    }
  }

  // ---------- Timestamps ----------

  function Abs(t: I64): nat {
    if t >= 0 then t as int else -(t as int)
  }

  /** `{:020}`: a sign takes one of the twenty places. */
  function Pad20(t: I64): (r: string)
    ensures |r| == 20 && NulFree(r)
    ensures '-' <= r[0] <= '9'
  {
    if t >= 0 then Digits(t, 20) else "-" + Digits(Abs(t), 19)
  }

  function ShowI64(t: I64): (r: string)
    ensures NulFree(r)
  {
    if t >= 0 then Decimal(t) else "-" + Decimal(Abs(t))
  }

  /** `str::parse::<i64>`: an optional sign, at least one digit, and a value in range. */
  function ParseI64(s: string): Option<I64> {
    var signed := s != [] && (s[0] == '-' || s[0] == '+');
    var body := if signed then s[1..] else s;
    if body == [] || !AllDigits(body) then None
    else
      var v: int := if signed && s[0] == '-' then -(DigitsValue(body) as int) else DigitsValue(body);
      if I64_MIN <= v <= I64_MAX then Some(v) else None
  }

  predicate IsNumeral(s: string) {
    s != "" && forall i :: 0 <= i < |s| ==> 48 <= s[i] as int <= 57
  }

  lemma NumeralIff(s: string)
    ensures IsNumeral(s) <==> s != "" && AllDigits(s)
  {
  }

  lemma ParseUnsigned(s: string, v: I64)
    requires s == "" || (s[0] != '+' && s[0] != '-')
    ensures ParseI64(s) == Some(v) <==> IsNumeral(s) && v == DigitsValue(s)
  {
    NumeralIff(s);
  }

  lemma ParseSigned(s: string, body: string, v: I64)
    requires s != "" && (s[0] == '+' || s[0] == '-') && body == s[1..]
    ensures ParseI64(s) == Some(v) <==> IsNumeral(body) && v as int == (if s[0] == '-' then 0 - DigitsValue(body) else DigitsValue(body))
  {
    NumeralIff(body);
  }

  /** What parses: digits, with or without a sign, for a number in range. */
  lemma ParseIff(s: string, v: I64)
    ensures ParseI64(s) == Some(v) <==>
              if s != "" && s[0] == '-' then IsNumeral(s[1..]) && v + DigitsValue(s[1..]) == 0
              else if s != "" && s[0] == '+' then IsNumeral(s[1..]) && v == DigitsValue(s[1..])
              else IsNumeral(s) && v == DigitsValue(s)
  {
    if s != "" && (s[0] == '+' || s[0] == '-') {
      ParseSigned(s, s[1..], v);
    } else {
      ParseUnsigned(s, v);
    }
  }

  /** How the padded forms sort: negative times come first, and among themselves in reverse. */
  predicate TimeBefore(a: I64, b: I64) {
    if a < 0 then b >= 0 || b < a else b >= 0 && a < b
  }

  lemma Pow10Bounds()
    ensures Pow10(19) == 10000000000000000000
    ensures Pow10(20) == 100000000000000000000
  {
    assert Pow10(5) == 100000;
    assert Pow10(10) == 10000000000;
    assert Pow10(15) == 1000000000000000;
  }

  lemma Pad20Order(a: I64, b: I64)
    ensures Less(Pad20(a), Pad20(b)) <==> TimeBefore(a, b)
    ensures Pad20(a) == Pad20(b) ==> a == b
  {
    Pow10Bounds();
    if a >= 0 && b >= 0 {
      DigitsOrder(a, b, 20);
    } else if a < 0 && b < 0 {
      DigitsOrder(Abs(a), Abs(b), 19);
      LessSamePrefix("-", Digits(Abs(a), 19), Digits(Abs(b), 19));
      assert Pad20(a)[1..] == Digits(Abs(a), 19) && Pad20(b)[1..] == Digits(Abs(b), 19);
    } else {
      assert Pad20(a)[0] == '-' <==> a < 0;
      assert Pad20(b)[0] == '-' <==> b < 0;
    }
  }

  lemma ParseDigits(s: string, t: I64)
    requires AllDigits(s) && s != [] && DigitsValue(s) == Abs(t)
    ensures t >= 0 ==> ParseI64(s) == Some(t)
    ensures t < 0 ==> ParseI64("-" + s) == Some(t)
  {
    assert ("-" + s)[1..] == s;
  }

  /** Both ways of writing a time are read back to it. */
  lemma TimesRoundTrip(t: I64)
    ensures ParseI64(Pad20(t)) == Some(t)
    ensures ParseI64(ShowI64(t)) == Some(t)
  {
    Pow10Bounds();
    var w := if t >= 0 then 20 else 19;
    DigitsRoundTrip(Abs(t), w);
    ParseDigits(Digits(Abs(t), w), t);
    DecimalRoundTrip(Abs(t));
    ParseDigits(Decimal(Abs(t)), t);
  }

  // ---------- Keys ----------

  function Key(r: Rec): string {
    r.target + "\0" + Pad20(r.time) + "\0" + r.id
  }

  function MakeKey(target: string, time: I64, id: string): string {
    Key(Rec(ToLower(target), time, id))
  }

  predicate RecLess(a: Rec, b: Rec) {
    || Less(a.target, b.target)
    || (a.target == b.target && (TimeBefore(a.time, b.time) || (a.time == b.time && Less(a.id, b.id))))
  }

  lemma RecLessStrictTotal()
    ensures StrictTotal(RecLess)
  {
    LessStrictTotal();
  }

  lemma LowerNulFree(s: string)
    requires NulFree(s)
    ensures NulFree(ToLower(s))
  {
  }

  lemma KeyLess(a: Rec, b: Rec)
    requires NulFree(a.target) && NulFree(b.target)
    ensures Less(Key(a), Key(b)) <==> RecLess(a, b)
  {
    var x, y := Pad20(a.time) + "\0" + a.id, Pad20(b.time) + "\0" + b.id;
    assert Key(a) == a.target + "\0" + x && Key(b) == b.target + "\0" + y;
    if a.target != b.target {
      LessNulTerminated(a.target, b.target, x, y);
    } else {
      LessSamePrefix(a.target + "\0", x, y);
      TailOrder(a, b);
      LessIrreflexive(a.target);
    }
  }

  /** The key encoding is an order embedding, for NUL-free targets, all times and all ids. */
  lemma KeyOrder(a: Rec, b: Rec)
    requires NulFree(a.target) && NulFree(b.target)
    ensures Less(Key(a), Key(b)) <==> RecLess(a, b)
    ensures Key(a) == Key(b) <==> a == b
  {
    KeyLess(a, b);
    KeyLess(b, a);
    RecLessStrictTotal();
    assert a == b || RecLess(a, b) || RecLess(b, a);
    LessIrreflexive(Key(a));
  }

  /** The engine compares encoded keys; that is the order of the records too. */
  lemma KeyByteOrder(a: Rec, b: Rec)
    requires NulFree(a.target) && NulFree(b.target)
    ensures Less(Utf8.Encode(Key(a)), Utf8.Encode(Key(b))) <==> RecLess(a, b)
  {
    Utf8.EncodeOrder(Key(a), Key(b));
    KeyLess(a, b);
  }

  /** For the times that clocks produce, the order within a target is by time and then by id. */
  lemma RecLessInTime(a: Rec, b: Rec)
    requires a.target == b.target && a.time >= 0 && b.time >= 0
    ensures RecLess(a, b) <==> a.time < b.time || (a.time == b.time && Less(a.id, b.id))
  {
    LessIrreflexive(a.target);
  }

  /** Within one target the timestamp decides, then the id. */
  lemma TailOrder(a: Rec, b: Rec)
    ensures Less(Pad20(a.time) + "\0" + a.id, Pad20(b.time) + "\0" + b.id)
        <==> TimeBefore(a.time, b.time) || (a.time == b.time && Less(a.id, b.id))
  {
    var p, q := Pad20(a.time) + "\0", Pad20(b.time) + "\0";
    Pad20Order(a.time, b.time);
    if a.time == b.time {
      LessSamePrefix(p, a.id, b.id);
    } else {
      assert p[..20] == Pad20(a.time) && q[..20] == Pad20(b.time);
      LessPrefixDecides(p, q, a.id, b.id);
      LessPrefixDecides(Pad20(a.time), Pad20(b.time), "\0", "\0");
    }
  }

  // ---------- Taking keys apart ----------

  /** `str::split`: the pieces between separators, at least one. */
  function Split(s: string, sep: char): (r: seq<string>)
    ensures |r| >= 1
  {
    if s == [] then [""]
    else if s[0] == sep then [""] + Split(s[1..], sep)
    else
      var rest := Split(s[1..], sep);
      [[s[0]] + rest[0]] + rest[1..]
  }

  /** The piece before the first separator comes off whole. */
  lemma {:induction false} SplitFirst(p: string, rest: string, sep: char)
    requires sep !in p
    ensures Split(p + [sep] + rest, sep) == [p] + Split(rest, sep)
  {
    var s := p + [sep] + rest;
    if p == [] {
      assert s[0] == sep && s[1..] == rest;
    } else {
      assert s[0] == p[0] && s[1..] == p[1..] + [sep] + rest;
      SplitFirst(p[1..], rest, sep);
      assert [p[0]] + p[1..] == p;
    }
  }

  lemma {:induction false} SplitWhole(s: string, sep: char)
    requires sep !in s
    ensures Split(s, sep) == [s]
  {
    if s != [] {
      SplitWhole(s[1..], sep);
      assert [s[0]] + s[1..] == s;
    }
  }

  /** Splitting loses nothing: the first piece, the separator and the rest make up the string again. */
  lemma {:induction false} SplitBack(s: string, sep: char) returns (rest: string)
    ensures sep !in Split(s, sep)[0]
    ensures |Split(s, sep)| == 1 ==> Split(s, sep)[0] == s
    ensures |Split(s, sep)| > 1 ==> s == Split(s, sep)[0] + [sep] + rest && Split(s, sep)[1..] == Split(rest, sep)
  {
    rest := "";
    if s != [] {
      if s[0] == sep {
        rest := s[1..];
        assert s == "" + [sep] + rest;
      } else {
        rest := SplitBack(s[1..], sep);
        assert s == [s[0]] + s[1..];
      }
    }
  }

  /** The second piece of a split key or index value, read as a timestamp. */
  function TimeField(s: string): Option<I64> {
    var parts := Split(s, '\0');
    if |parts| >= 2 then ParseI64(parts[1]) else None
  }

  function TargetField(s: string): string {
    Split(s, '\0')[0]
  }

  /** Splitting a key at its NULs recovers target and time, whatever the id holds. */
  lemma KeyFields(r: Rec)
    requires NulFree(r.target)
    ensures TargetField(Key(r)) == r.target
    ensures TimeField(Key(r)) == Some(r.time)
  {
    var rest := Pad20(r.time) + "\0" + r.id;
    assert Key(r) == r.target + "\0" + rest;
    SplitFirst(r.target, rest, '\0');
    SplitFirst(Pad20(r.time), r.id, '\0');
    TimesRoundTrip(r.time);
  }

  function IndexValue(target: string, time: I64): string {
    target + "\0" + ShowI64(time)
  }

  lemma IndexValueField(target: string, time: I64)
    requires NulFree(target)
    ensures TimeField(IndexValue(target, time)) == Some(time)
  {
    SplitFirst(target, ShowI64(time), '\0');
    SplitWhole(ShowI64(time), '\0');
    TimesRoundTrip(time);
  }
}
