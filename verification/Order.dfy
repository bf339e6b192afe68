/** Strict total orders, ascending sequences, and the lexicographic order of strings. */
module Order {
  import opened Common

  ghost predicate StrictTotal<T(!new)>(lt: (T, T) -> bool) {
    && (forall a :: !lt(a, a))
    && (forall a, b, c :: lt(a, b) && lt(b, c) ==> lt(a, c))
    && (forall a, b :: a == b || lt(a, b) || lt(b, a))
  }

  ghost predicate Ascending<T>(lt: (T, T) -> bool, s: seq<T>) {
    forall i, j :: 0 <= i < j < |s| ==> lt(s[i], s[j])
  }

  ghost predicate IsLeast<T>(lt: (T, T) -> bool, s: set<T>, m: T) {
    m in s && forall x :: x in s ==> x == m || lt(m, x)
  }

  /** What is taken off a set in order, least first, comes in order. */
  lemma AppendLeast<T>(lt: (T, T) -> bool, taken: seq<T>, rest: set<T>, m: T)
    requires Ascending(lt, taken) && IsLeast(lt, rest, m)
    requires forall i, x :: 0 <= i < |taken| && x in rest ==> lt(taken[i], x)
    ensures Ascending(lt, taken + [m]) && Elements(taken + [m]) == Elements(taken) + {m}
    ensures forall i, x :: 0 <= i < |taken + [m]| && x in rest - {m} ==> lt((taken + [m])[i], x)
  {
  }

  lemma {:induction false} LeastExists<T(!new)>(lt: (T, T) -> bool, s: set<T>)
    requires StrictTotal(lt) && s != {}
    ensures exists m :: IsLeast(lt, s, m)
  {
    var x :| x in s;
    if s == {x} {
      assert IsLeast(lt, s, x);
    } else {
      LeastExists(lt, s - {x});
      var m :| IsLeast(lt, s - {x}, m);
      assert forall y :: y in s ==> y == x || y in s - {x};
      if lt(x, m) {
        assert IsLeast(lt, s, x);
      } else {
        assert IsLeast(lt, s, m);
      }
    }
  }

  /** The members of a set in order. */
  ghost function Enumerate<T(!new)>(lt: (T, T) -> bool, s: set<T>): (r: seq<T>)
    requires StrictTotal(lt)
    ensures Ascending(lt, r) && Elements(r) == s && |r| == |s|
  {
    if s == {} then []
    else
      LeastExists(lt, s);
      var m :| IsLeast(lt, s, m);
      var rest := Enumerate(lt, s - {m});
      LeastFirst(lt, s, m, rest);
      [m] + rest
  }

  lemma LeastFirst<T(!new)>(lt: (T, T) -> bool, s: set<T>, m: T, rest: seq<T>)
    requires IsLeast(lt, s, m) && Ascending(lt, rest) && Elements(rest) == s - {m} && |rest| == |s - {m}|
    ensures Ascending(lt, [m] + rest) && Elements([m] + rest) == s && |[m] + rest| == |s|
  {
    assert forall i :: 0 <= i < |rest| ==> rest[i] in Elements(rest);
    forall x
      ensures x in Elements([m] + rest) <==> x == m || x in Elements(rest)
    {
    }
  }

  lemma AscendingTail<T(!new)>(lt: (T, T) -> bool, s: seq<T>)
    requires StrictTotal(lt) && Ascending(lt, s) && s != []
    ensures Ascending(lt, s[1..])
    ensures Elements(s[1..]) == Elements(s) - {s[0]}
    ensures IsLeast(lt, Elements(s), s[0])
  {
    forall x | x in s[1..]
      ensures x in s && lt(s[0], x)
    {
      var i :| 0 <= i < |s[1..]| && s[1..][i] == x;
      assert s[i + 1] == x;
    }
    forall x | x in s && x != s[0]
      ensures x in s[1..]
    {
      var i :| 0 <= i < |s| && s[i] == x;
      assert s[1..][i - 1] == x;
    }
  }

  lemma LastIsGreatest<T>(lt: (T, T) -> bool, s: seq<T>, x: T)
    requires Ascending(lt, s) && x in Elements(s)
    ensures s != [] && s[|s| - 1] in Elements(s) && (x == s[|s| - 1] || lt(x, s[|s| - 1]))
  {
    var i :| 0 <= i < |s| && s[i] == x;
  }

  /** What stands before an element of an ascending sequence is what is less than it. */
  lemma AscendingPrefix<T(!new)>(lt: (T, T) -> bool, s: seq<T>, n: nat)
    requires StrictTotal(lt) && Ascending(lt, s) && n < |s|
    ensures Ascending(lt, s[..n])
    ensures Elements(s[..n]) == set x | x in Elements(s) && lt(x, s[n])
  {
    forall x | x in s && lt(x, s[n])
      ensures x in s[..n]
    {
      var i :| 0 <= i < |s| && s[i] == x;
      assert i < n;
      assert s[..n][i] == x;
    }
    forall x | x in s[..n]
      ensures x in s && lt(x, s[n])
    {
      var i :| 0 <= i < n && s[..n][i] == x;
      assert s[i] == x;
    }
  }

  /** A set has only one ascending enumeration. */
  lemma {:induction false} AscendingUnique<T(!new)>(lt: (T, T) -> bool, a: seq<T>, b: seq<T>)
    requires StrictTotal(lt) && Ascending(lt, a) && Ascending(lt, b) && Elements(a) == Elements(b)
    ensures a == b
  {
    assert |b| > 0 ==> b[0] in Elements(a);
    assert |a| > 0 ==> a[0] in Elements(b);
    if |a| > 0 {
      AscendingTail(lt, a);
      AscendingTail(lt, b);
      assert a[0] == b[0];
      AscendingUnique(lt, a[1..], b[1..]);
      assert a == [a[0]] + a[1..] && b == [b[0]] + b[1..];
    }
  }

  function Reverse<T>(s: seq<T>): (r: seq<T>)
    ensures |r| == |s|
    ensures forall i :: 0 <= i < |s| ==> r[i] == s[|s| - 1 - i]
  {
    seq(|s|, i requires 0 <= i < |s| => s[|s| - 1 - i])
  }

  lemma ReverseConcat<T>(a: seq<T>, b: seq<T>)
    ensures Reverse(a + b) == Reverse(b) + Reverse(a)
  {
    forall i | 0 <= i < |a + b|
      ensures Reverse(a + b)[i] == (Reverse(b) + Reverse(a))[i]
    {
      assert Reverse(a + b)[i] == (a + b)[|a + b| - 1 - i];
    }
  }

  // ---------- Strings ----------

  /** Lexicographic order by code point; module Utf8 shows that it is the byte order of the encodings. */
  predicate Less(a: string, b: string) {
    b != [] && (a == [] || a[0] < b[0] || (a[0] == b[0] && Less(a[1..], b[1..])))
  }

  lemma {:induction false} LessIrreflexive(a: string)
    ensures !Less(a, a)
  {
    if a != [] {
      LessIrreflexive(a[1..]);
    }
  }

  lemma {:induction false} LessTransitive(a: string, b: string, c: string)
    requires Less(a, b) && Less(b, c)
    ensures Less(a, c)
  {
    if a != [] && a[0] == b[0] && b[0] == c[0] {
      LessTransitive(a[1..], b[1..], c[1..]);
    }
  }

  lemma {:induction false} LessTotal(a: string, b: string)
    ensures a == b || Less(a, b) || Less(b, a)
  {
    if a != [] && b != [] && a[0] == b[0] {
      LessTotal(a[1..], b[1..]);
      assert a[1..] == b[1..] ==> [a[0]] + a[1..] == [b[0]] + b[1..];
      assert a == [a[0]] + a[1..] && b == [b[0]] + b[1..];
    }
  }

  lemma LessStrictTotal()
    ensures StrictTotal(Less)
  {
    forall a: string ensures !Less(a, a) { LessIrreflexive(a); }
    forall a: string, b: string, c: string | Less(a, b) && Less(b, c) ensures Less(a, c) { LessTransitive(a, b, c); }
    forall a: string, b: string ensures a == b || Less(a, b) || Less(b, a) { LessTotal(a, b); }
  }

  lemma LessTails(a: string, b: string, c: string, d: string)
    requires a != [] && b != [] && a[0] == b[0] && c == a[1..] && d == b[1..]
    ensures Less(a, b) <==> Less(c, d)
  {
  }

  lemma LessPrefixStep(p: string, a: string, b: string)
    requires p != []
    ensures Less(p + a, p + b) <==> Less(p[1..] + a, p[1..] + b)
  {
    LessTails(p + a, p + b, p[1..] + a, p[1..] + b);
  }

  /** Equal prefixes do not affect the order. */
  lemma {:induction false} LessSamePrefix(p: string, a: string, b: string)
    ensures Less(p + a, p + b) <==> Less(a, b)
  {
    if p == [] {
      assert p + a == a && p + b == b;
    } else {
      LessSamePrefix(p[1..], a, b);
      LessPrefixStep(p, a, b);
    }
  }

  /** Different prefixes of the same length decide the order. */
  lemma {:induction false} LessPrefixDecides(p: string, q: string, a: string, b: string)
    requires |p| == |q| && p != q
    ensures Less(p + a, q + b) <==> Less(p, q)
  {
    assert (p + a)[0] == p[0] && (q + b)[0] == q[0];
    if p[0] == q[0] {
      assert (p + a)[1..] == p[1..] + a && (q + b)[1..] == q[1..] + b;
      assert p == [p[0]] + p[1..] && q == [q[0]] + q[1..];
      LessPrefixDecides(p[1..], q[1..], a, b);
    }
  }

  ghost predicate NulFree(s: string) {
    forall i :: 0 <= i < |s| ==> s[i] != '\0'
  }

  /** A NUL after a NUL-free name separates it from every other such name, also when one is a prefix of the other. */
  lemma {:induction false} LessNulTerminated(s: string, t: string, a: string, b: string)
    requires NulFree(s) && NulFree(t) && s != t
    ensures Less(s + "\0" + a, t + "\0" + b) <==> Less(s, t)
  {
    var x, y := s + "\0" + a, t + "\0" + b;
    if s == [] {
      assert x[0] == '\0' && y[0] == t[0];
    } else if t == [] {
      assert y[0] == '\0' && x[0] == s[0];
    } else {
      assert x[0] == s[0] && y[0] == t[0];
      if s[0] == t[0] {
        assert x[1..] == s[1..] + "\0" + a && y[1..] == t[1..] + "\0" + b;
        assert s == [s[0]] + s[1..] && t == [t[0]] + t[1..];
        LessNulTerminated(s[1..], t[1..], a, b);
      }
    }
  }
}
