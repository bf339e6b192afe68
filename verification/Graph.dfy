/**
 Finite link graphs between servers: walks, what a link separates, and trees.

 A link stands in both directions, as two arcs. A link is a bridge when its ends are not connected without it, and a
 graph is acyclic when every link is one.
 */
module Graph {
  import opened Common

  type Arc = (Sid, Sid)

  type Links = set<Arc>

  ghost predicate Symmetric(links: Links) {
    forall a, b :: (a, b) in links ==> (b, a) in links
  }

  /** There is a walk of n steps from x to y. */
  ghost predicate Reach(links: Links, x: Sid, y: Sid, n: nat)
    decreases n
  {
    if n == 0 then x == y else exists z :: Reach(links, x, z, n - 1) && (z, y) in links
  }

  ghost predicate Connected(links: Links, x: Sid, y: Sid) {
    exists n: nat :: Reach(links, x, y, n)
  }

  /** The links but the one between a and b. */
  ghost function Cut(links: Links, a: Sid, b: Sid): Links {
    links - {(a, b), (b, a)}
  }

  /** The links that do not end at b. */
  ghost function Avoiding(links: Links, b: Sid): Links {
    set l | l in links && l.0 != b && l.1 != b
  }

  ghost predicate Bridge(links: Links, a: Sid, b: Sid) {
    !Connected(Cut(links, a, b), a, b)
  }

  ghost predicate Acyclic(links: Links) {
    forall a, b :: (a, b) in links ==> Bridge(links, a, b)
  }

  function Joined(links: Links, a: Sid, b: Sid): Links {
    links + {(a, b), (b, a)}
  }

  // ---------- Walks ----------

  lemma Stay(links: Links, x: Sid)
    ensures Connected(links, x, x)
  {
    assert Reach(links, x, x, 0);
  }

  lemma OneStep(links: Links, x: Sid, y: Sid)
    requires (x, y) in links
    ensures Reach(links, x, y, 1) && Connected(links, x, y)
  {
    assert Reach(links, x, x, 0);
  }

  lemma StepOn(links: Links, x: Sid, y: Sid, z: Sid)
    requires Connected(links, x, y) && (y, z) in links
    ensures Connected(links, x, z)
  {
    var n: nat :| Reach(links, x, y, n);
    assert Reach(links, x, z, n + 1);
  }

  lemma {:induction false} ReachOn(links: Links, x: Sid, y: Sid, z: Sid, n: nat)
    requires Connected(links, x, y) && Reach(links, y, z, n)
    ensures Connected(links, x, z)
    decreases n
  {
    if n > 0 {
      var w :| Reach(links, y, w, n - 1) && (w, z) in links;
      ReachOn(links, x, y, w, n - 1);
      StepOn(links, x, w, z);
    }
  }

  lemma Transitive(links: Links, x: Sid, y: Sid, z: Sid)
    requires Connected(links, x, y) && Connected(links, y, z)
    ensures Connected(links, x, z)
  {
    var n: nat :| Reach(links, y, z, n);
    ReachOn(links, x, y, z, n);
  }

  lemma {:induction false} ReachBack(links: Links, x: Sid, y: Sid, n: nat)
    requires Symmetric(links) && Reach(links, x, y, n)
    ensures Connected(links, y, x)
    decreases n
  {
    if n == 0 {
      Stay(links, x);
    } else {
      var z :| Reach(links, x, z, n - 1) && (z, y) in links;
      ReachBack(links, x, z, n - 1);
      OneStep(links, y, z);
      Transitive(links, y, z, x);
    }
  }

  lemma Reverse(links: Links, x: Sid, y: Sid)
    requires Symmetric(links) && Connected(links, x, y)
    ensures Connected(links, y, x)
  {
    var n: nat :| Reach(links, x, y, n);
    ReachBack(links, x, y, n);
  }

  lemma {:induction false} ReachMore(links: Links, more: Links, x: Sid, y: Sid, n: nat)
    requires links <= more && Reach(links, x, y, n)
    ensures Reach(more, x, y, n)
    decreases n
  {
    if n > 0 {
      var z :| Reach(links, x, z, n - 1) && (z, y) in links;
      ReachMore(links, more, x, z, n - 1);
    }
  }

  lemma More(links: Links, more: Links, x: Sid, y: Sid)
    requires links <= more && Connected(links, x, y)
    ensures Connected(more, x, y)
  {
    var n: nat :| Reach(links, x, y, n);
    ReachMore(links, more, x, y, n);
  }

  lemma CutSymmetric(links: Links, a: Sid, b: Sid)
    requires Symmetric(links)
    ensures Symmetric(Cut(links, a, b)) && Cut(links, a, b) == Cut(links, b, a)
  {
  }

  lemma BridgeBothWays(links: Links, a: Sid, b: Sid)
    requires Symmetric(links) && Bridge(links, a, b)
    ensures Bridge(links, b, a)
  {
    CutSymmetric(links, a, b);
    if Connected(Cut(links, b, a), b, a) {
      Reverse(Cut(links, a, b), b, a);
    }
  }

  /** A set that a walk starts in and that no link leaves holds the end of the walk. */
  lemma {:induction false} ClosedHolds(links: Links, closed: set<Sid>, x: Sid, y: Sid, n: nat)
    requires x in closed && (forall a, b :: (a, b) in links && a in closed ==> b in closed) && Reach(links, x, y, n)
    ensures y in closed
    decreases n
  {
    if n > 0 {
      var z :| Reach(links, x, z, n - 1) && (z, y) in links;
      ClosedHolds(links, closed, x, z, n - 1);
    }
  }

  lemma FewerStayAcyclic(links: Links, more: Links)
    requires links <= more && Acyclic(more)
    ensures Acyclic(links)
  {
    forall a, b | (a, b) in links
      ensures Bridge(links, a, b)
    {
      assert Bridge(more, a, b);
      if Connected(Cut(links, a, b), a, b) {
        More(Cut(links, a, b), Cut(more, a, b), a, b);
      }
    }
  }

  // ---------- Adding a link ----------

  /** From x to y without the link between a and b, or across it one way or the other. */
  ghost predicate Crosses(links: Links, a: Sid, b: Sid, x: Sid, y: Sid) {
    || Connected(links, x, y)
    || (Connected(links, x, a) && Connected(links, b, y))
    || (Connected(links, x, b) && Connected(links, a, y))
  }

  /** A walk that may use a new link either does not need it or crosses it. */
  lemma {:induction false} ReachJoined(links: Links, a: Sid, b: Sid, x: Sid, y: Sid, n: nat)
    requires Reach(Joined(links, a, b), x, y, n)
    ensures Crosses(links, a, b, x, y)
    decreases n
  {
    if n == 0 {
      Stay(links, x);
    } else {
      var z :| Reach(Joined(links, a, b), x, z, n - 1) && (z, y) in Joined(links, a, b);
      ReachJoined(links, a, b, x, z, n - 1);
      if (z, y) in links {
        OneStep(links, z, y);
        CrossOn(links, a, b, x, z, y);
      } else {
        CrossNew(links, a, b, x, z, y);
      }
    }
  }

  lemma CrossOn(links: Links, a: Sid, b: Sid, x: Sid, z: Sid, y: Sid)
    requires Crosses(links, a, b, x, z) && (z, y) in links
    ensures Crosses(links, a, b, x, y)
  {
    if Connected(links, x, z) {
      StepOn(links, x, z, y);
    } else if Connected(links, b, z) && Connected(links, x, a) {
      StepOn(links, b, z, y);
    } else {
      StepOn(links, a, z, y);
    }
  }

  lemma CrossNew(links: Links, a: Sid, b: Sid, x: Sid, z: Sid, y: Sid)
    requires Crosses(links, a, b, x, z) && ((z == a && y == b) || (z == b && y == a))
    ensures Crosses(links, a, b, x, y)
  {
    Stay(links, a);
    Stay(links, b);
  }

  /** A new link keeps a graph acyclic exactly when it joins servers that were not connected. */
  lemma JoinKeepsAcyclicIff(links: Links, a: Sid, b: Sid)
    requires Symmetric(links) && Acyclic(links) && (a, b) !in links
    ensures Acyclic(Joined(links, a, b)) <==> !Connected(links, a, b)
  {
    var more := Joined(links, a, b);
    assert Cut(more, a, b) == links && Cut(more, b, a) == links by {
      assert (b, a) !in links;
    }
    if Connected(links, a, b) {
      assert (a, b) in more && !Bridge(more, a, b);
    } else {
      forall c, d | (c, d) in more
        ensures Bridge(more, c, d)
      {
        if (c, d) in links {
          OldBridge(links, a, b, c, d);
        } else if c == b && Connected(links, b, a) {
          Reverse(links, b, a);
        }
      }
    }
  }

  lemma OldBridge(links: Links, a: Sid, b: Sid, c: Sid, d: Sid)
    requires Symmetric(links) && Acyclic(links) && (c, d) in links && (a, b) !in links && !Connected(links, a, b)
    ensures Bridge(Joined(links, a, b), c, d)
  {
    var cut := Cut(links, c, d);
    assert (b, a) !in links;
    assert Cut(Joined(links, a, b), c, d) == Joined(cut, a, b);
    if Connected(Joined(cut, a, b), c, d) {
      var n: nat :| Reach(Joined(cut, a, b), c, d, n);
      ReachJoined(cut, a, b, c, d, n);
      assert Bridge(links, c, d);
      RoundTheLink(links, a, b, c, d);
    }
  }

  /** If the ends of a link lie on the two sides of a and b, then a and b are connected over that link. */
  lemma RoundTheLink(links: Links, a: Sid, b: Sid, c: Sid, d: Sid)
    requires Symmetric(links) && (c, d) in links
    requires var cut := Cut(links, c, d);
             || (Connected(cut, c, a) && Connected(cut, b, d))
             || (Connected(cut, c, b) && Connected(cut, a, d))
    ensures Connected(links, a, b)
  {
    var cut := Cut(links, c, d);
    OneStep(links, c, d);
    Reverse(links, c, d);
    if Connected(cut, c, a) && Connected(cut, b, d) {
      More(cut, links, c, a);
      More(cut, links, b, d);
      Reverse(links, c, a);
      Reverse(links, b, d);
      Transitive(links, a, c, d);
      Transitive(links, a, d, b);
    } else {
      More(cut, links, c, b);
      More(cut, links, a, d);
      Transitive(links, a, d, c);
      Transitive(links, a, c, b);
    }
  }

  // ---------- Trees ----------

  /** Servers and the links between them. */
  datatype Web = Web(nodes: set<Sid>, links: Links)

  ghost predicate Wellformed(w: Web) {
    Symmetric(w.links) && forall a, b :: (a, b) in w.links ==> a in w.nodes && b in w.nodes && a != b
  }

  ghost predicate AllConnected(w: Web) {
    forall x, y :: x in w.nodes && y in w.nodes ==> Connected(w.links, x, y)
  }

  ghost predicate IsTree(w: Web) {
    Wellformed(w) && AllConnected(w) && Acyclic(w.links)
  }

  /** The servers that `x` has a direct link to. */
  ghost function Peers(w: Web, x: Sid): set<Sid> {
    set y | y in w.nodes && (x, y) in w.links
  }

  /** The servers on b's side of the link between a and b. */
  ghost function Side(w: Web, a: Sid, b: Sid): set<Sid> {
    set x | x in w.nodes && Connected(Cut(w.links, a, b), b, x)
  }

  /** A server is not on the far side of its own links. */
  lemma SideExcludesNear(w: Web, a: Sid, b: Sid)
    requires IsTree(w) && (a, b) in w.links
    ensures a in w.nodes && b in w.nodes && a !in Side(w, a, b) && b in Side(w, a, b)
  {
    Stay(Cut(w.links, a, b), b);
    BridgeBothWays(w.links, a, b);
    CutSymmetric(w.links, a, b);
  }

  /** Without the link to b, a walk from c never comes to b, so it uses none of b's links. */
  lemma {:induction false} ReachAvoids(links: Links, b: Sid, c: Sid, x: Sid, n: nat)
    requires !Connected(Cut(links, b, c), c, b) && Reach(Cut(links, b, c), c, x, n)
    ensures x != b && Connected(Avoiding(links, b), c, x)
    decreases n
  {
    var cut := Cut(links, b, c);
    assert Connected(cut, c, x);
    if n == 0 {
      Stay(Avoiding(links, b), c);
    } else {
      var z :| Reach(cut, c, z, n - 1) && (z, x) in cut;
      ReachAvoids(links, b, c, z, n - 1);
      StepOn(Avoiding(links, b), c, z, x);
    }
  }

  lemma SideAvoids(w: Web, b: Sid, c: Sid, x: Sid)
    requires IsTree(w) && (b, c) in w.links && x in Side(w, b, c)
    ensures x != b && Connected(Avoiding(w.links, b), c, x)
  {
    var n: nat :| Reach(Cut(w.links, b, c), c, x, n);
    assert Bridge(w.links, b, c);
    BridgeBothWays(w.links, b, c);
    CutSymmetric(w.links, b, c);
    ReachAvoids(w.links, b, c, x, n);
  }

  /** The far sides of two different links of `b` do not meet. */
  lemma SidesDisjoint(w: Web, b: Sid, c: Sid, d: Sid, x: Sid)
    requires IsTree(w) && (b, c) in w.links && (b, d) in w.links && c != d && x in Side(w, b, c)
    ensures x !in Side(w, b, d)
  {
    if x in Side(w, b, d) {
      var rest, cut := Avoiding(w.links, b), Cut(w.links, b, c);
      SideAvoids(w, b, c, x);
      SideAvoids(w, b, d, x);
      assert Symmetric(rest);
      Reverse(rest, d, x);
      Transitive(rest, c, x, d);
      More(rest, cut, c, d);
      StepOn(cut, c, d, b);
      BridgeBothWays(w.links, b, c);
      CutSymmetric(w.links, b, c);
    }
  }

  lemma {:induction false} ReachCover(w: Web, b: Sid, x: Sid, n: nat)
    requires Wellformed(w) && Reach(w.links, b, x, n) && x != b
    ensures exists c :: (b, c) in w.links && Connected(Avoiding(w.links, b), c, x)
    decreases n
  {
    var z :| Reach(w.links, b, z, n - 1) && (z, x) in w.links;
    if z == b {
      Stay(Avoiding(w.links, b), x);
    } else {
      ReachCover(w, b, z, n - 1);
      var c :| (b, c) in w.links && Connected(Avoiding(w.links, b), c, z);
      StepOn(Avoiding(w.links, b), c, z, x);
    }
  }

  /** Every server other than `b` is on the far side of one of b's links. */
  lemma SidesCover(w: Web, b: Sid, x: Sid)
    requires IsTree(w) && b in w.nodes && x in w.nodes && x != b
    ensures exists c :: c in Peers(w, b) && x in Side(w, b, c)
  {
    assert Connected(w.links, b, x);
    var n: nat :| Reach(w.links, b, x, n);
    ReachCover(w, b, x, n);
    var c :| (b, c) in w.links && Connected(Avoiding(w.links, b), c, x);
    More(Avoiding(w.links, b), Cut(w.links, b, c), c, x);
    assert c in Peers(w, b) && x in Side(w, b, c);
  }

  /** The two sides of a link do not meet. */
  lemma SidesApart(w: Web, a: Sid, b: Sid, x: Sid)
    requires IsTree(w) && (a, b) in w.links && x in Side(w, b, a)
    ensures x !in Side(w, a, b)
  {
    if x in Side(w, a, b) {
      var cut := Cut(w.links, a, b);
      CutSymmetric(w.links, a, b);
      Reverse(cut, b, x);
      Transitive(cut, a, x, b);
    }
  }

  lemma SideHoldsBeyond(w: Web, a: Sid, b: Sid, c: Sid, x: Sid)
    requires IsTree(w) && (a, b) in w.links && c in Peers(w, b) - {a} && x in Side(w, b, c)
    ensures x in Side(w, a, b)
  {
    var cut := Cut(w.links, a, b);
    SideAvoids(w, b, c, x);
    More(Avoiding(w.links, b), cut, c, x);
    OneStep(cut, b, c);
    Transitive(cut, b, c, x);
  }

  /** b's side of the link from `a` is `b` together with the far sides of its other links. */
  lemma SideDivides(w: Web, a: Sid, b: Sid, x: Sid)
    requires IsTree(w) && (a, b) in w.links && x in w.nodes
    ensures x in Side(w, a, b) <==> x == b || exists c :: c in Peers(w, b) - {a} && x in Side(w, b, c)
  {
    SideExcludesNear(w, a, b);
    if x != b {
      SidesCover(w, b, x);
      var c :| c in Peers(w, b) && x in Side(w, b, c);
      if c == a {
        SidesApart(w, a, b, x);
        forall d | d in Peers(w, b) - {a}
          ensures x !in Side(w, b, d)
        {
          SidesDisjoint(w, b, a, d, x);
        }
      } else {
        SideHoldsBeyond(w, a, b, c, x);
      }
    }
  }
}
