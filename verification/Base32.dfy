/**
 The base32 encoder of host cloaking (`base32_encode`, src/security/cloaking.rs): section 6 of RFC 4648, lowercase and
 without padding, computed with a 32-bit accumulator that overflows on longer inputs.
 */
module Base32 {
  import opened Arithmetic

  type byte = b: int | 0 <= b < 256

  /** An unsigned 32-bit value; shifting left drops the bits above. */
  type u32 = b: int | 0 <= b < 0x1_0000_0000

  type Bit = b: int | 0 <= b < 2

  const ALPHABET: string := "abcdefghijklmnopqrstuvwxyz234567"

  // ---------- Bit strings ----------

  function Pow2(n: nat): (r: nat)
    ensures r >= 1
  {
    if n == 0 then 1 else 2 * Pow2(n - 1)
  }

  /** The low `w` bits of `n`, most significant first. */
  function ToBits(n: nat, w: nat): (r: seq<Bit>)
    ensures |r| == w
  {
    if w == 0 then [] else ToBits(n / 2, w - 1) + [n % 2]
  }

  function Val(bits: seq<Bit>): nat {
    if bits == [] then 0 else 2 * Val(bits[..|bits| - 1]) + bits[|bits| - 1]
  }

  function Bits(data: seq<byte>): (r: seq<Bit>)
    ensures |r| == 8 * |data|
  {
    if data == [] then [] else ToBits(data[0], 8) + Bits(data[1..])
  }

  lemma {:induction false} ValConcat(a: seq<Bit>, b: seq<Bit>)
    ensures Val(a + b) == Val(a) * Pow2(|b|) + Val(b)
  {
    if b == [] {
      assert a + b == a;
    } else {
      var c := b[..|b| - 1];
      ValConcat(a, c);
      assert (a + b)[..|a + b| - 1] == a + c;
      assert Val(a) * Pow2(|b|) == 2 * (Val(a) * Pow2(|c|));
    }
  }

  lemma {:induction false} ValBound(bits: seq<Bit>)
    ensures Val(bits) < Pow2(|bits|)
  {
    if bits != [] {
      ValBound(bits[..|bits| - 1]);
    }
  }

  lemma {:induction false} ValToBits(n: nat, w: nat)
    requires n < Pow2(w)
    ensures Val(ToBits(n, w)) == n
  {
    if w > 0 {
      ValToBits(n / 2, w - 1);
      assert ToBits(n, w)[..w - 1] == ToBits(n / 2, w - 1);
    }
  }

  lemma {:induction false} ToBitsVal(bits: seq<Bit>)
    ensures ToBits(Val(bits), |bits|) == bits
  {
    if bits != [] {
      ToBitsVal(bits[..|bits| - 1]);
      assert bits == bits[..|bits| - 1] + [bits[|bits| - 1]];
    }
  }

  // ---------- The encoding of RFC 4648 ----------

  function Zeros(n: nat): (r: seq<Bit>)
    ensures |r| == n
  {
    if n == 0 then [] else Zeros(n - 1) + [0]
  }

  function Symbol(group: seq<Bit>): char
    requires |group| == 5
  {
    ValBound(group);
    assert Pow2(5) == 32;
    ALPHABET[Val(group)]
  }

  /** Groups of five bits from the left, the last one filled up with zero bits. */
  function Groups(bits: seq<Bit>): (r: string)
    ensures |r| == (|bits| + 4) / 5
  {
    if bits == [] then ""
    else if |bits| < 5 then [Symbol(bits + Zeros(5 - |bits|))]
    else [Symbol(bits[..5])] + Groups(bits[5..])
  }

  function Base32(data: seq<byte>): (r: string)
    ensures |r| == (8 * |data| + 4) / 5
  {
    Groups(Bits(data))
  }

  // ---------- Decoding ----------

  function IndexOf(c: char): nat {
    if 'a' <= c <= 'z' then c as int - 'a' as int else if '2' <= c <= '7' then c as int - '2' as int + 26 else 0
  }

  function SymbolBits(s: string): (r: seq<Bit>)
    ensures |r| == 5 * |s|
  {
    if s == [] then [] else ToBits(IndexOf(s[0]), 5) + SymbolBits(s[1..])
  }

  /** The first `n` bytes held by a bit string. */
  function ToBytes(bits: seq<Bit>, n: nat): (r: seq<byte>)
    requires |bits| >= 8 * n
    ensures |r| == n
    decreases n
  {
    if n == 0 then []
    else
      ValBound(bits[..8]);
      assert Pow2(8) == 256;
      [Val(bits[..8])] + ToBytes(bits[8..], n - 1)
  }

  function Decode(s: string, n: nat): seq<byte>
    requires 5 * |s| >= 8 * n
  {
    ToBytes(SymbolBits(s), n)
  }

  lemma SymbolRoundTrip(group: seq<Bit>)
    requires |group| == 5
    ensures ToBits(IndexOf(Symbol(group)), 5) == group
  {
    ValBound(group);
    assert Pow2(5) == 32;
    IndexOfSymbol(Val(group));
    ToBitsVal(group);
  }

  lemma IndexOfSymbol(i: nat)
    requires i < 32
    ensures IndexOf(ALPHABET[i]) == i
    ensures ALPHABET[i] as int == if i < 26 then 97 + i else 50 + (i - 26)
  {
    if i < 26 {
      assert ALPHABET[i] == ('a' as int + i) as char;
    } else {
      assert ALPHABET[i] == ('2' as int + (i - 26)) as char;
    }
  }

  lemma {:induction false} GroupsRoundTrip(bits: seq<Bit>)
    ensures SymbolBits(Groups(bits))[..|bits|] == bits
  {
    if bits == [] {
    } else if |bits| < 5 {
      SymbolRoundTrip(bits + Zeros(5 - |bits|));
      assert Groups(bits)[1..] == [];
    } else {
      SymbolRoundTrip(bits[..5]);
      GroupsRoundTrip(bits[5..]);
      assert Groups(bits)[1..] == Groups(bits[5..]);
      assert bits == bits[..5] + bits[5..];
    }
  }

  lemma {:induction false} BytesRoundTrip(data: seq<byte>, more: seq<Bit>)
    ensures ToBytes(Bits(data) + more, |data|) == data
  {
    if data != [] {
      var all := Bits(data) + more;
      assert all[..8] == ToBits(data[0], 8) && all[8..] == Bits(data[1..]) + more;
      assert Pow2(8) == 256;
      ValToBits(data[0], 8);
      BytesRoundTrip(data[1..], more);
    }
  }

  // ---------- As numbers ----------

  /** The bytes as one number, most significant first. */
  function Number(data: seq<byte>): nat {
    if data == [] then 0 else 256 * Number(data[..|data| - 1]) + data[|data| - 1]
  }

  /** The symbols as one number in base 32, most significant first. */
  function SymbolNumber(s: string): nat {
    if s == [] then 0 else 32 * SymbolNumber(s[..|s| - 1]) + IndexOf(s[|s| - 1])
  }

  lemma {:induction false} BitsAppend(data: seq<byte>, b: byte)
    ensures Bits(data + [b]) == Bits(data) + ToBits(b, 8)
  {
    if data == [] {
      assert [] + [b] == [b] && [b][1..] == [];
    } else {
      assert (data + [b])[1..] == data[1..] + [b];
      BitsAppend(data[1..], b);
    }
  }

  lemma {:induction false} ValOfBits(data: seq<byte>)
    ensures Val(Bits(data)) == Number(data)
  {
    if data != [] {
      var init, b := data[..|data| - 1], data[|data| - 1];
      assert data == init + [b];
      BitsAppend(init, b);
      ValConcat(Bits(init), ToBits(b, 8));
      assert Pow2(8) == 256;
      ValToBits(b, 8);
      ValOfBits(init);
    }
  }

  lemma Times32(x: nat, y: nat, n: nat)
    ensures 32 * (x * Pow2(n) + y) == x * Pow2(n + 5) + 32 * y
  {
    Pow2Add(n, 5);
    assert Pow2(5) == 32;
    assert x * (Pow2(n) * 32) == 32 * (x * Pow2(n));
  }

  lemma {:induction false} SymbolNumberConcat(s: string, t: string)
    ensures SymbolNumber(s + t) == SymbolNumber(s) * Pow2(5 * |t|) + SymbolNumber(t)
  {
    if t == [] {
      assert s + t == s;
      assert SymbolNumber(s) * 1 == SymbolNumber(s);
    } else {
      var u, n := t[..|t| - 1], 5 * (|t| - 1);
      SymbolNumberConcat(s, u);
      assert (s + t)[..|s + t| - 1] == s + u;
      Times32(SymbolNumber(s), SymbolNumber(u), n);
      assert n + 5 == 5 * |t|;
    }
  }

  lemma SymbolIsNumber(group: seq<Bit>)
    requires |group| == 5
    ensures SymbolNumber([Symbol(group)]) == Val(group)
  {
    ValBound(group);
    assert Pow2(5) == 32;
    IndexOfSymbol(Val(group));
    assert [Symbol(group)][..0] == [];
  }

  /** Filling up a number of |bits| bits to whole groups of five. */
  function Filled(bits: seq<Bit>): nat {
    Val(bits) * Pow2(5 * ((|bits| + 4) / 5) - |bits|)
  }

  lemma FilledStep(bits: seq<Bit>)
    requires |bits| >= 5
    ensures Filled(bits) == Val(bits[..5]) * Pow2(5 * ((|bits[5..]| + 4) / 5)) + Filled(bits[5..])
  {
    var rest := bits[5..];
    var m := |rest|;
    var n := 5 * ((m + 4) / 5) - m;
    assert bits == bits[..5] + rest;
    ValConcat(bits[..5], rest);
    assert 5 * ((|bits| + 4) / 5) - |bits| == n;
    ScaleUp(Val(bits[..5]), Val(rest), m, n);
  }

  lemma ScaleUp(a: nat, b: nat, m: nat, n: nat)
    ensures (a * Pow2(m) + b) * Pow2(n) == a * Pow2(m + n) + b * Pow2(n)
  {
    Pow2Add(m, n);
    Scaled(a, b, Pow2(m), Pow2(n));
  }

  lemma Scaled(a: nat, b: nat, p: nat, q: nat)
    ensures (a * p + b) * q == a * (p * q) + b * q
  {
  }

  lemma {:induction false} GroupsAreNumber(bits: seq<Bit>)
    ensures SymbolNumber(Groups(bits)) == Filled(bits)
  {
    if bits == [] {
      assert Val(bits) * Pow2(0) == 0;
    } else if |bits| < 5 {
      SymbolIsNumber(bits + Zeros(5 - |bits|));
      ValWithZeros(bits, 5 - |bits|);
    } else {
      GroupsAreNumber(bits[5..]);
      SymbolIsNumber(bits[..5]);
      SymbolNumberConcat([Symbol(bits[..5])], Groups(bits[5..]));
      FilledStep(bits);
    }
  }

  /** The symbols are the base-32 digits of the bytes, read as one number, with fewer than five zero bits after them. */
  lemma EncodingIsNumber(data: seq<byte>) returns (k: nat)
    ensures k < 5 && 5 * |Base32(data)| == 8 * |data| + k
    ensures SymbolNumber(Base32(data)) == Number(data) * Pow2(k)
  {
    var bits := Bits(data);
    k := 5 * ((|bits| + 4) / 5) - |bits|;
    GroupsAreNumber(bits);
    ValOfBits(data);
    FilledIs(bits, Number(data), k);
  }

  lemma FilledIs(bits: seq<Bit>, n: nat, k: nat)
    requires Val(bits) == n && k == 5 * ((|bits| + 4) / 5) - |bits|
    ensures Filled(bits) == n * Pow2(k)
  {
  }

  /** Decoding an encoding, with the original length known, gives the original back. */
  lemma DecodeEncode(data: seq<byte>)
    ensures 5 * |Base32(data)| >= 8 * |data| && Decode(Base32(data), |data|) == data
  {
    var all := SymbolBits(Base32(data));
    GroupsRoundTrip(Bits(data));
    assert all == Bits(data) + all[8 * |data|..];
    BytesRoundTrip(data, all[8 * |data|..]);
  }

  /** Different inputs of one length have different encodings. */
  lemma EncodingIsInjective(a: seq<byte>, b: seq<byte>)
    requires |a| == |b| && Base32(a) == Base32(b)
    ensures a == b
  {
    DecodeEncode(a);
    DecodeEncode(b);
  }

  // ---------- The accumulator ----------

  lemma {:induction false} Pow2Add(m: nat, n: nat)
    ensures Pow2(m + n) == Pow2(m) * Pow2(n)
  {
    if n > 0 {
      Pow2Add(m, n - 1);
      assert Pow2(m + n) == 2 * Pow2(m + (n - 1));
    } else {
      assert Pow2(m + n) == Pow2(m);
    }
  }

  lemma Pow2Is32()
    ensures Pow2(32) == 0x1_0000_0000
  {
    assert Pow2(8) == 0x100;
    Pow2Add(8, 8);
    Pow2Add(16, 16);
  }

  function ShiftLeft(b: u32, n: nat): u32 {
    (b * Pow2(n)) % 0x1_0000_0000
  }

  function ShiftRight(b: u32, n: nat): int {
    b / Pow2(n)
  }

  /** Reducing to 32 bits does not change the low `n` bits. */
  lemma LowBits(x: nat, n: nat)
    requires n <= 32
    ensures (x % 0x1_0000_0000) % Pow2(n) == x % Pow2(n)
  {
    Pow2Is32();
    Pow2Add(n, 32 - n);
    ModOfMod(x, Pow2(n), Pow2(32 - n));
  }

  lemma ScaledMod(b: nat, d: nat, e: nat)
    requires d >= 1 && e >= 1
    ensures d * e >= 1 && (b * e) % (d * e) == (b % d) * e
  {
    MulAtLeast(d, e);
    var q, r := b / d, b % d;
    MulAtLeast(e, d - r);
    Regroup(d, q, r, e);
    DivModUnique(b * e, d * e, q, r * e);
  }

  lemma Regroup(d: int, q: int, r: int, e: int)
    ensures (d * q + r) * e == (d * e) * q + r * e
    ensures e * (d - r) == d * e - r * e
  {
  }

  /** The low bits of a left shift are the low bits, shifted. */
  lemma ShiftLeftLow(b: u32, k: nat, n: nat)
    requires k + n <= 32
    ensures ShiftLeft(b, n) % Pow2(k + n) == (b % Pow2(k)) * Pow2(n)
  {
    LowBits(b * Pow2(n), k + n);
    Pow2Add(k, n);
    ScaledMod(b, Pow2(k), Pow2(n));
  }

  /** Shifting in a byte keeps the pending bits: what overflows lies above them. */
  lemma ShiftInByte(b: u32, y: byte, k: nat)
    requires k <= 4
    ensures ShiftLeft(b, 8) % 256 == 0 && ShiftLeft(b, 8) + y < 0x1_0000_0000
    ensures (ShiftLeft(b, 8) + y) % Pow2(k + 8) == (b % Pow2(k)) * 256 + y
  {
    assert Pow2(8) == 256;
    ShiftLeftLow(b, 0, 8);
    ShiftLeftLow(b, k, 8);
    var s := ShiftLeft(b, 8);
    Pow2Add(k, 8);
    var low := (b % Pow2(k)) * 256;
    assert (Pow2(k) - b % Pow2(k)) * 256 >= 256;
    var q := s / Pow2(k + 8);
    assert s == Pow2(k + 8) * q + low;
    DivModUnique(s + y, Pow2(k + 8), q, low + y);
  }

  /** The top five of the pending bits, and the rest of them. */
  lemma TakeFive(b: u32, k: nat)
    ensures ShiftRight(b, k) % 32 == (b % Pow2(k + 5)) / Pow2(k)
    ensures b % Pow2(k) == (b % Pow2(k + 5)) % Pow2(k)
  {
    assert Pow2(5) == 32;
    Pow2Add(k, 5);
    ModOfMod(b, Pow2(k), 32);
  }

  /** The pending bits are the low bits of the accumulator. */
  ghost predicate Holds(b: u32, pending: seq<Bit>) {
    b % Pow2(|pending|) == Val(pending)
  }

  lemma HoldsByte(b: u32, pending: seq<Bit>, y: byte)
    requires Holds(b, pending) && |pending| <= 4
    ensures ShiftLeft(b, 8) + y < 0x1_0000_0000 && Holds(ShiftLeft(b, 8) + y, pending + ToBits(y, 8))
  {
    ShiftInByte(b, y, |pending|);
    assert Pow2(8) == 256;
    ValToBits(y, 8);
    ValConcat(pending, ToBits(y, 8));
  }

  lemma HoldsFive(b: u32, pending: seq<Bit>)
    requires Holds(b, pending) && |pending| >= 5
    ensures ShiftRight(b, |pending| - 5) % 32 == Val(pending[..5])
    ensures Holds(b, pending[5..])
  {
    var k := |pending| - 5;
    var top, rest := pending[..5], pending[5..];
    assert pending == top + rest;
    ValConcat(top, rest);
    ValBound(rest);
    TakeFive(b, k);
    DivModUnique(Val(pending), Pow2(k), Val(top), Val(rest));
  }

  lemma {:induction false} ValZeros(n: nat)
    ensures Val(Zeros(n)) == 0
  {
    if n > 0 {
      ValZeros(n - 1);
      assert Zeros(n)[..n - 1] == Zeros(n - 1);
    }
  }

  lemma ShiftToFive(b: u32, k: nat, z: nat, v: nat)
    requires k + z == 5 && b % Pow2(k) == v
    ensures ShiftLeft(b, z) % 32 == v * Pow2(z)
  {
    ShiftLeftLow(b, k, z);
    assert Pow2(5) == 32;
  }

  lemma HoldsLast(b: u32, pending: seq<Bit>)
    requires Holds(b, pending) && 1 <= |pending| <= 4
    ensures ShiftLeft(b, 5 - |pending|) % 32 == Val(pending + Zeros(5 - |pending|))
  {
    var k, z, v := |pending|, 5 - |pending|, Val(pending);
    calc {
      ShiftLeft(b, z) % 32;
    == { ShiftToFive(b, k, z, v); }
      v * Pow2(z);
    == { ValWithZeros(pending, z); }
      Val(pending + Zeros(z));
    }
  }

  lemma ValWithZeros(bits: seq<Bit>, n: nat)
    ensures Val(bits + Zeros(n)) == Val(bits) * Pow2(n)
  {
    ValZeros(n);
    ValConcat(bits, Zeros(n));
  }

  /** The inner loop: takes groups of five bits off the accumulator until fewer than five are pending. */
  method TakeGroups(bits: u32, count: nat, taken: string, ghost held: seq<Bit>, ghost rest: seq<Bit>)
    returns (result: string, bitCount: nat, ghost pending: seq<Bit>)
    requires |held| == count <= 12 && Holds(bits, held)
    ensures |pending| == bitCount <= 4 && Holds(bits, pending)
    ensures result + Groups(pending + rest) == taken + Groups(held + rest)
  {
    result, bitCount, pending := taken, count, held;
    while bitCount >= 5
      invariant |pending| == bitCount && Holds(bits, pending)
      invariant result + Groups(pending + rest) == taken + Groups(held + rest)
    {
      HoldsFive(bits, pending);
      PeelGroup(pending, rest);
      bitCount := bitCount - 5;
      var index := ShiftRight(bits, bitCount) % 32;
      result := result + [ALPHABET[index]];
      pending := pending[5..];
    }
  }

  /** The bits left over at the end, as one more symbol. */
  method Flush(bits: u32, bitCount: nat, ghost pending: seq<Bit>) returns (tail: string)
    requires |pending| == bitCount <= 4 && Holds(bits, pending)
    ensures tail == Groups(pending)
  {
    tail := "";
    if bitCount > 0 {
      HoldsLast(bits, pending);
      var index := ShiftLeft(bits, 5 - bitCount) % 32;
      tail := [ALPHABET[index]];
    }
  }

  /**
   The encoder: a byte is shifted in at the bottom (adding is or-ing, the low bits being zero) and groups of five are
   taken off the top of the pending bits. At most twelve bits are ever pending, so those that overflow are spent.
   */
  method Base32Encode(data: seq<byte>) returns (result: string)
    ensures result == Base32(data)
  {
    result := "";
    var bits: u32 := 0;
    var bitCount: nat := 0;
    ghost var pending: seq<Bit> := [];
    var i := 0;
    assert data[0..] == data && pending + Bits(data) == Bits(data);
    while i < |data|
      invariant 0 <= i <= |data|
      invariant |pending| == bitCount <= 4 && Holds(bits, pending)
      invariant result + Groups(pending + Bits(data[i..])) == Base32(data)
    {
      HoldsByte(bits, pending, data[i]);
      NextByte(data, i, pending);
      bits := ShiftLeft(bits, 8) + data[i];
      pending := pending + ToBits(data[i], 8);
      result, bitCount, pending := TakeGroups(bits, bitCount + 8, result, pending, Bits(data[i + 1..]));
      i := i + 1;
    }
    assert data[i..] == [] && pending + Bits([]) == pending;
    var flushed := Flush(bits, bitCount, pending);
    result := result + flushed;
  }

  lemma NextByte(data: seq<byte>, i: nat, pending: seq<Bit>)
    requires i < |data|
    ensures pending + Bits(data[i..]) == (pending + ToBits(data[i], 8)) + Bits(data[i + 1..])
  {
    assert data[i..][1..] == data[i + 1..];
  }

  lemma PeelGroup(pending: seq<Bit>, rest: seq<Bit>)
    requires |pending| >= 5
    ensures Groups(pending + rest) == [Symbol(pending[..5])] + Groups(pending[5..] + rest)
  {
    assert (pending + rest)[..5] == pending[..5] && (pending + rest)[5..] == pending[5..] + rest;
  }
}
