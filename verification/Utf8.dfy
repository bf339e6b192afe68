/**
 UTF-8 (section 3 of RFC 3629) keeps the order of strings: the tables of the history store compare encoded keys byte by
 byte, and that is the order by code point used for keys everywhere else here. A byte is a character below 256.
 */
module Utf8 {
  import opened Order
  import opened Casemap

  function Byte(n: nat): char
    requires n < 256
  {
    n as char
  }

  function EncodeChar(c: char): (r: string)
    ensures |r| == Utf8Len(c)
  {
    var n := c as int;
    if n < 0x80 then [Byte(n)]
    else if n < 0x800 then [Byte(0xC0 + n / 0x40), Byte(0x80 + n % 0x40)]
    else if n < 0x10000 then [Byte(0xE0 + n / 0x1000), Byte(0x80 + n / 0x40 % 0x40), Byte(0x80 + n % 0x40)]
    else [Byte(0xF0 + n / 0x40000), Byte(0x80 + n / 0x1000 % 0x40), Byte(0x80 + n / 0x40 % 0x40), Byte(0x80 + n % 0x40)]
  }

  function Encode(s: string): (r: string)
    ensures |r| == ByteLen(s)
  {
    if s == [] then [] else EncodeChar(s[0]) + Encode(s[1..])
  }

  /** The first bytes, or else the bytes after them, order two different characters. */
  lemma EncodeCharOrder(c: char, d: char, x: string, y: string)
    requires c < d
    ensures Less(EncodeChar(c) + x, EncodeChar(d) + y)
  {
    var p, q := EncodeChar(c), EncodeChar(d);
    if p[0] < q[0] {
      assert (p + x)[0] == p[0] && (q + y)[0] == q[0];
    } else {
      SameLead(c, d);
      LessPrefixDecides(p, q, x, y);
    }
  }

  /** Characters with the same first byte have encodings of the same length, in the order of the characters. */
  lemma SameLead(c: char, d: char)
    requires c < d && !(EncodeChar(c)[0] < EncodeChar(d)[0])
    ensures |EncodeChar(c)| == |EncodeChar(d)| && EncodeChar(c) != EncodeChar(d) && Less(EncodeChar(c), EncodeChar(d))
  {
    SameLeadSameLength(c, d);
    if d as int < 0x800 {
      TwoBytesOrder(c, d);
    } else if d as int < 0x10000 {
      ThreeBytesOrder(c, d);
    } else {
      FourBytesOrder(c, d);
    }
    LessIrreflexive(EncodeChar(c));
  }

  lemma SameLeadSameLength(c: char, d: char)
    requires c < d && !(EncodeChar(c)[0] < EncodeChar(d)[0])
    ensures EncodeChar(c)[0] == EncodeChar(d)[0] && Utf8Len(c) == Utf8Len(d) >= 2
  {
  }

  lemma TwoBytesOrder(c: char, d: char)
    requires c < d && Utf8Len(c) == Utf8Len(d) == 2 && EncodeChar(c)[0] == EncodeChar(d)[0]
    ensures Less(EncodeChar(c), EncodeChar(d))
  {
    LessAt(EncodeChar(c), EncodeChar(d), 1);
  }

  lemma ThreeBytesOrder(c: char, d: char)
    requires c < d && Utf8Len(c) == Utf8Len(d) == 3 && EncodeChar(c)[0] == EncodeChar(d)[0]
    ensures Less(EncodeChar(c), EncodeChar(d))
  {
    var p, q := EncodeChar(c), EncodeChar(d);
    SameLeadThree(c as int, d as int);
    LessAt(p, q, if p[1] < q[1] then 1 else 2);
  }

  lemma FourBytesOrder(c: char, d: char)
    requires c < d && Utf8Len(c) == Utf8Len(d) == 4 && EncodeChar(c)[0] == EncodeChar(d)[0]
    ensures Less(EncodeChar(c), EncodeChar(d))
  {
    var p, q := EncodeChar(c), EncodeChar(d);
    SameLeadFour(c as int, d as int);
    LessAt(p, q, if p[1] < q[1] then 1 else if p[2] < q[2] then 2 else 3);
  }

  lemma SameLeadThree(m: nat, n: nat)
    requires m < n && m / 0x1000 == n / 0x1000
    ensures m / 0x40 % 0x40 < n / 0x40 % 0x40 || (m / 0x40 % 0x40 == n / 0x40 % 0x40 && m % 0x40 < n % 0x40)
  {
    var a, b := m / 0x40, n / 0x40;
    DivTwice(m);
    DivTwice(n);
    assert a <= b && a / 0x40 == b / 0x40;
    assert a == b ==> m % 0x40 < n % 0x40;
  }

  lemma SameLeadFour(m: nat, n: nat)
    requires m < n && m / 0x40000 == n / 0x40000
    ensures m / 0x1000 % 0x40 <= n / 0x1000 % 0x40
    ensures m / 0x1000 % 0x40 == n / 0x1000 % 0x40 ==>
              m / 0x40 % 0x40 < n / 0x40 % 0x40 || (m / 0x40 % 0x40 == n / 0x40 % 0x40 && m % 0x40 < n % 0x40)
  {
    var a, b := m / 0x1000, n / 0x1000;
    DivTwice(m);
    DivTwice(n);
    assert a <= b && a / 0x40 == b / 0x40;
    if a % 0x40 == b % 0x40 {
      SameLeadThree(m, n);
    }
  }

  lemma DivTwice(m: nat)
    ensures m / 0x1000 == m / 0x40 / 0x40
    ensures m / 0x40000 == m / 0x1000 / 0x40
  {
  }

  /** Strings that agree up to a position are ordered by the characters there. */
  lemma {:induction false} LessAt(p: string, q: string, i: nat)
    requires i < |p| && i < |q| && p[i] < q[i] && forall j :: 0 <= j < i ==> p[j] == q[j]
    ensures Less(p, q)
    decreases i
  {
    if i > 0 {
      LessAt(p[1..], q[1..], i - 1);
    }
  }

  /** The byte order of encodings is the order of the strings. */
  lemma {:induction false} EncodeOrder(a: string, b: string)
    ensures Less(Encode(a), Encode(b)) <==> Less(a, b)
  {
    if a != [] && b != [] {
      if a[0] < b[0] {
        EncodeCharOrder(a[0], b[0], Encode(a[1..]), Encode(b[1..]));
      } else if b[0] < a[0] {
        EncodeCharOrder(b[0], a[0], Encode(b[1..]), Encode(a[1..]));
        LessStrictTotal();
        assert !Less(Encode(a), Encode(b));
      } else {
        EncodeOrder(a[1..], b[1..]);
        LessSamePrefix(EncodeChar(a[0]), Encode(a[1..]), Encode(b[1..]));
      }
    }
  }
}
