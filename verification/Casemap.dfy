/** IRC case folding, the RFC 1459 mapping (crates/slirc-proto/src/casemap.rs; section 2.2 of RFC 2812). */
module Casemap {
  function LowerChar(c: char): char {
    match c
    case '[' => '{'
    case ']' => '}'
    case '\\' => '|'
    case '~' => '^'
    case _ => if 'A' <= c <= 'Z' then (c as int + 32) as char else c
  }

  /** A capital and its small letter, or a bracket and its brace; the pairs that section 2.2 of RFC 2812 makes equivalent. */
  predicate IsPair(upper: char, lower: char) {
    || (65 <= upper as int <= 90 && lower as int == upper as int + 32)
    || (upper == '[' && lower == '{') || (upper == ']' && lower == '}')
    || (upper == '\\' && lower == '|') || (upper == '~' && lower == '^')
  }

  /** The same letter, up to case. */
  predicate SameLetter(c: char, d: char) {
    c == d || IsPair(c, d) || IsPair(d, c)
  }

  /** Folding identifies exactly the letters that differ in case, and leaves none that could be folded further. */
  lemma LowerCharIff(c: char, d: char)
    ensures LowerChar(c) == LowerChar(d) <==> SameLetter(c, d)
    ensures LowerChar(c) == d <==> IsPair(c, d) || (c == d && forall l :: !IsPair(c, l))
    ensures LowerChar(LowerChar(c)) == LowerChar(c)
    ensures forall l :: !IsPair(LowerChar(c), l)
  {
    if 'A' <= c <= 'Z' {
      assert IsPair(c, (c as int + 32) as char);
    } else if c == '[' || c == ']' || c == '\\' || c == '~' {
      assert IsPair(c, LowerChar(c));
    }
  }

  function ToLower(s: string): (r: string)
    ensures |r| == |s|
    ensures forall i :: 0 <= i < |s| ==> r[i] == LowerChar(s[i])
  {
    if s == [] then [] else [LowerChar(s[0])] + ToLower(s[1..])
  }

  /** The number of bytes that UTF-8 uses for a character (section 3 of RFC 3629). */
  function Utf8Len(c: char): nat {
    if c as int < 0x80 then 1 else if c as int < 0x800 then 2 else if c as int < 0x10000 then 3 else 4
  }

  function ByteLen(s: string): nat {
    if s == [] then 0 else Utf8Len(s[0]) + ByteLen(s[1..])
  }

  /** Pairs up characters and stops at the end of the shorter string. */
  predicate ZipAll(a: string, b: string) {
    a == [] || b == [] || (LowerChar(a[0]) == LowerChar(b[0]) && ZipAll(a[1..], b[1..]))
  }

  predicate IrcEq(a: string, b: string) {
    ByteLen(a) == ByteLen(b) && ZipAll(a, b)
  }

  lemma LowerKeepsUtf8Len(a: char, b: char)
    requires LowerChar(a) == LowerChar(b)
    ensures Utf8Len(a) == Utf8Len(b)
  {
  }

  /**
   Comparing byte lengths first is enough for the truncating character-by-character comparison to mean equality of the
   folded strings, even where byte and character counts differ.
   */
  lemma {:induction false} IrcEqIsFoldedEquality(a: string, b: string)
    ensures IrcEq(a, b) <==> ToLower(a) == ToLower(b)
    ensures IrcEq(a, b) <==> SameLetters(a, b)
  {
    FoldedEquality(a, b);
    if a != [] && b != [] {
      IrcEqIsFoldedEquality(a[1..], b[1..]);
      if LowerChar(a[0]) == LowerChar(b[0]) {
        LowerKeepsUtf8Len(a[0], b[0]);
      }
      assert ToLower(a)[0] == LowerChar(a[0]) && ToLower(b)[0] == LowerChar(b[0]);
      assert ToLower(a)[1..] == ToLower(a[1..]) && ToLower(b)[1..] == ToLower(b[1..]);
    } else {
      assert (a == [] && b == []) || |ToLower(a)| != |ToLower(b)|;
      if a != [] { assert Utf8Len(a[0]) > 0; }
      if b != [] { assert Utf8Len(b[0]) > 0; }
    }
  }

  lemma SameLetterIff(c: char, d: char)
    ensures LowerChar(c) == LowerChar(d) <==> SameLetter(c, d)
  {
    LowerCharIff(c, d);
  }

  /** The same letters, up to case. */
  predicate SameLetters(a: string, b: string) {
    |a| == |b| && forall i :: 0 <= i < |a| ==> SameLetter(a[i], b[i])
  }

  lemma {:induction false} FoldedEquality(a: string, b: string)
    ensures ToLower(a) == ToLower(b) <==> SameLetters(a, b)
  {
    if a != [] && b != [] {
      FoldedEquality(a[1..], b[1..]);
      SameLetterIff(a[0], b[0]);
      FirstAndRest(a, b);
      assert ToLower(a) == [LowerChar(a[0])] + ToLower(a[1..]) && ToLower(b) == [LowerChar(b[0])] + ToLower(b[1..]);
    }
  }

  lemma FirstAndRest(a: string, b: string)
    requires a != [] && b != []
    ensures SameLetters(a, b) <==> SameLetter(a[0], b[0]) && SameLetters(a[1..], b[1..])
  {
    if SameLetter(a[0], b[0]) && SameLetters(a[1..], b[1..]) {
      forall i | 0 <= i < |a|
        ensures SameLetter(a[i], b[i])
      {
        assert i > 0 ==> a[i] == a[1..][i - 1] && b[i] == b[1..][i - 1];
      }
    }
  }

  /** Folding twice is folding once. */
  lemma FoldedOnce(s: string)
    ensures ToLower(ToLower(s)) == ToLower(s)
  {
    forall i | 0 <= i < |s|
      ensures ToLower(ToLower(s))[i] == ToLower(s)[i]
    {
      LowerCharIff(s[i], s[i]);
    }
  }
}
