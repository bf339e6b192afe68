/**
 The nick index: folded nicks, each with the UIDs that bear it or have claimed it, against the plain map from UIDs to
 folded nicks. The same edits occur wherever a nick changes hands (src/handlers/connection/nick.rs,
 src/services/effect.rs, src/handlers/admin.rs, src/state/matrix.rs, src/state/managers/user.rs).
 */
module NickIndex {
  import opened Common

  type Index = map<string, seq<Uid>>

  /** The folded nick of every UID that has one. */
  type Names = map<Uid, string>

  predicate Lists(nicks: Index, n: string, u: Uid) {
    n in nicks && u in nicks[n]
  }

  /** The index is exactly the inverse of the names, and holds no empty list. */
  ghost predicate Agrees(names: Names, nicks: Index) {
    && (forall n :: n in nicks ==> nicks[n] != [])
    && (forall n, u :: Lists(nicks, n, u) ==> u in names && names[u] == n)
    && (forall u :: u in names ==> Lists(nicks, names[u], u))
  }

  /** No list names a UID twice. */
  ghost predicate NoRepeats(nicks: Index) {
    forall n :: n in nicks ==> Distinct(nicks[n])
  }

  // ---------- The edits ----------

  /** `Vec::retain` with everything but `u`: all copies go. */
  function Without(xs: seq<Uid>, u: Uid): (r: seq<Uid>)
    ensures forall x :: x in r <==> x in xs && x != u
    ensures Distinct(xs) ==> Distinct(r)
    ensures u !in xs ==> r == xs
  {
    if xs == [] then []
    else
      var rest := Without(xs[1..], u);
      assert forall x :: x in xs <==> x == xs[0] || x in xs[1..];
      assert Distinct(xs) ==> Distinct(xs[1..]) && xs[0] !in xs[1..];
      if xs[0] == u then rest else [xs[0]] + rest
  }

  function DropNick(nicks: Index, key: string, u: Uid): Index {
    if key !in nicks then nicks
    else
      var kept := Without(nicks[key], u);
      if kept == [] then nicks - {key} else nicks[key := kept]
  }

  function PushNick(nicks: Index, key: string, u: Uid): Index {
    nicks[key := (if key in nicks then nicks[key] else []) + [u]]
  }

  /** The claim of the NICK command: a UID that is listed already is not entered again. */
  function ClaimNick(nicks: Index, key: string, u: Uid): Index {
    if Lists(nicks, key, u) then nicks else PushNick(nicks, key, u)
  }

  // ---------- What they do to the lists ----------

  lemma ListsAfterDrop(nicks: Index, key: string, u: Uid, n: string, x: Uid)
    ensures Lists(DropNick(nicks, key, u), n, x) <==> Lists(nicks, n, x) && !(n == key && x == u)
  {
  }

  lemma ListsAfterPush(nicks: Index, key: string, u: Uid, n: string, x: Uid)
    ensures Lists(PushNick(nicks, key, u), n, x) <==> Lists(nicks, n, x) || (n == key && x == u)
  {
    if n == key {
      assert x in PushNick(nicks, key, u)[n] <==> (key in nicks && x in nicks[key]) || x == u;
    }
  }

  lemma DropUnlisted(nicks: Index, key: string, u: Uid)
    requires !Lists(nicks, key, u) && forall n :: n in nicks ==> nicks[n] != []
    ensures DropNick(nicks, key, u) == nicks
  {
  }

  lemma DropAgrees(names: Names, nicks: Index, u: Uid)
    requires Agrees(names, nicks) && u in names
    ensures Agrees(names - {u}, DropNick(nicks, names[u], u))
  {
    var after := DropNick(nicks, names[u], u);
    forall n, x
      ensures Lists(after, n, x) <==> Lists(nicks, n, x) && !(n == names[u] && x == u)
    {
      ListsAfterDrop(nicks, names[u], u, n, x);
    }
  }

  /** A UID may be pushed onto the list it is on already: the list then repeats it, but the index still agrees. */
  lemma PushAgrees(names: Names, nicks: Index, u: Uid, key: string)
    requires Agrees(names, nicks) && (u in names ==> names[u] == key)
    ensures Agrees(names[u := key], PushNick(nicks, key, u))
  {
    var after := PushNick(nicks, key, u);
    forall n, x
      ensures Lists(after, n, x) <==> Lists(nicks, n, x) || (n == key && x == u)
    {
      ListsAfterPush(nicks, key, u, n, x);
    }
  }

  lemma ClaimAgrees(names: Names, nicks: Index, u: Uid, key: string)
    requires Agrees(names, nicks) && (u in names ==> names[u] == key)
    ensures Agrees(names[u := key], ClaimNick(nicks, key, u))
  {
    if Lists(nicks, key, u) {
      assert names[u := key] == names;
    } else {
      PushAgrees(names, nicks, u, key);
    }
  }

  lemma MoveAgrees(names: Names, nicks: Index, u: Uid, key: string)
    requires Agrees(names, nicks) && u in names
    ensures Agrees(names[u := key], PushNick(DropNick(nicks, names[u], u), key, u))
  {
    DropAgrees(names, nicks, u);
    PushAgrees(names - {u}, DropNick(nicks, names[u], u), u, key);
    assert (names - {u})[u := key] == names[u := key];
  }

  /** A UID on two lists cannot be right, whatever its nick is. */
  lemma ListedTwice(names: Names, nicks: Index, u: Uid, m: string, n: string)
    requires Lists(nicks, m, u) && Lists(nicks, n, u) && m != n
    ensures !Agrees(names, nicks)
  {
  }

  lemma ListsAfterClaim(nicks: Index, key: string, u: Uid, n: string, x: Uid)
    ensures Lists(ClaimNick(nicks, key, u), n, x) <==> Lists(nicks, n, x) || (n == key && x == u)
  {
    ListsAfterPush(nicks, key, u, n, x);
  }

  lemma ClaimAloneAgreesIff(names: Names, nicks: Index, u: Uid, key: string)
    requires Agrees(names, nicks) && u in names
    ensures Agrees(names[u := key], ClaimNick(nicks, key, u)) <==> names[u] == key
  {
    if names[u] == key {
      ClaimAgrees(names, nicks, u, key);
    } else {
      ListsAfterClaim(nicks, key, u, key, u);
      ListsAfterClaim(nicks, key, u, names[u], u);
      ListedTwice(names[u := key], ClaimNick(nicks, key, u), u, key, names[u]);
    }
  }

  /** Claiming the new nick and then giving up the old one. */
  lemma ClaimThenDropAgrees(names: Names, nicks: Index, u: Uid, key: string)
    requires Agrees(names, nicks) && u in names && names[u] != key
    ensures Agrees(names[u := key], DropNick(ClaimNick(nicks, key, u), names[u], u))
  {
    var claimed := ClaimNick(nicks, key, u);
    var after := DropNick(claimed, names[u], u);
    forall n, x
      ensures Lists(after, n, x) <==> (Lists(nicks, n, x) && x != u) || (n == key && x == u)
    {
      ListsAfterClaim(nicks, key, u, n, x);
      ListsAfterDrop(claimed, names[u], u, n, x);
    }
  }

  /** If it is another nick that is given up, the index agrees only when the claimed one is the one that `u` had. */
  lemma ClaimThenDropAgreesIff(names: Names, nicks: Index, u: Uid, given: string, key: string)
    requires Agrees(names, nicks) && u in names && given != key
    ensures Agrees(names[u := key], DropNick(ClaimNick(nicks, key, u), given, u)) <==> names[u] == key || names[u] == given
  {
    var claimed := ClaimNick(nicks, key, u);
    if names[u] == given {
      ClaimThenDropAgrees(names, nicks, u, key);
    } else {
      ListsAfterClaim(nicks, key, u, given, u);
      ClaimAloneAgreesIff(names, nicks, u, key);
      assert forall n :: n in claimed ==> claimed[n] != [];
      DropUnlisted(claimed, given, u);
    }
  }

  /** Dropping the wrong key leaves the old entry behind, beside the new one if that is another. */
  lemma StaleMoveAgreesIff(names: Names, nicks: Index, u: Uid, wrong: string, key: string)
    requires Agrees(names, nicks) && u in names && wrong != names[u]
    ensures Agrees(names[u := key], PushNick(DropNick(nicks, wrong, u), key, u)) <==> names[u] == key
  {
    DropUnlisted(nicks, wrong, u);
    if names[u] == key {
      PushAgrees(names, nicks, u, key);
    } else {
      ListsAfterPush(nicks, key, u, names[u], u);
      ListsAfterPush(nicks, key, u, key, u);
      ListedTwice(names[u := key], PushNick(nicks, key, u), u, names[u], key);
    }
  }

  /** Dropping removes all copies, so a push before it makes no difference. */
  lemma PushThenDrop(nicks: Index, key: string, u: Uid)
    ensures DropNick(PushNick(nicks, key, u), key, u) == DropNick(nicks, key, u)
  {
    if key in nicks {
      WithoutLast(nicks[key], u);
    } else {
      assert Without([u], u) == [];
    }
  }

  lemma {:induction false} WithoutLast(xs: seq<Uid>, u: Uid)
    ensures Without(xs + [u], u) == Without(xs, u)
  {
    if xs != [] {
      WithoutLast(xs[1..], u);
      assert (xs + [u])[1..] == xs[1..] + [u];
    }
  }

  lemma DropNoRepeats(nicks: Index, key: string, u: Uid)
    requires NoRepeats(nicks)
    ensures NoRepeats(DropNick(nicks, key, u))
  {
  }

  /** Pushing repeats a UID exactly when it is on the list already. */
  lemma PushNoRepeatsIff(nicks: Index, key: string, u: Uid)
    requires NoRepeats(nicks)
    ensures NoRepeats(PushNick(nicks, key, u)) <==> !Lists(nicks, key, u)
  {
    var after := PushNick(nicks, key, u);
    if Lists(nicks, key, u) {
      var i :| 0 <= i < |nicks[key]| && nicks[key][i] == u;
      assert after[key][i] == after[key][|nicks[key]|] == u;
      assert !Distinct(after[key]);
    } else {
      assert Distinct(after[key]);
    }
  }
}
