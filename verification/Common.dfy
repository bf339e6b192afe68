/** Optional values and results, used in place of Rust's `Option` and `Result`, identifiers, and lists. */
module Common {
  datatype Option<+T> = None | Some(value: T)

  datatype Result<+T, +E> = Ok(value: T) | Err(error: E)

  /** A server id. */
  type Sid = string

  /** A user id: the SID of the user's server and six more characters. */
  type Uid = string

  function Min(a: nat, b: nat): (r: nat)
    ensures r == a || r == b
    ensures r <= a && r <= b
  {
    if a <= b then a else b
  }

  ghost predicate Distinct<T>(xs: seq<T>) {
    forall i, j :: 0 <= i < j < |xs| ==> xs[i] != xs[j]
  }

  ghost function Elements<T>(xs: seq<T>): set<T> {
    set x | x in xs
  }

  lemma {:induction false} DistinctCount<T>(xs: seq<T>)
    requires Distinct(xs)
    ensures |Elements(xs)| == |xs|
  {
    if xs == [] {
      assert Elements(xs) == {};
    } else {
      DistinctCount(xs[..|xs| - 1]);
      ElementsLast(xs);
      assert xs[|xs| - 1] !in xs[..|xs| - 1];
    }
  }

  lemma ElementsLast<T>(xs: seq<T>)
    requires xs != []
    ensures Elements(xs) == Elements(xs[..|xs| - 1]) + {xs[|xs| - 1]}
  {
    assert xs == xs[..|xs| - 1] + [xs[|xs| - 1]];
  }

  lemma {:induction false} SubsetCount<T>(a: set<T>, b: set<T>)
    requires a <= b
    ensures |a| <= |b|
    ensures |a| == |b| ==> a == b
  {
    if a != {} {
      var x :| x in a;
      SubsetCount(a - {x}, b - {x});
    }
  }
}
