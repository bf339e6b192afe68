/**
 Whole runs of servers that link up: exactly when every server reaches all that it knows, exactly when every topology is a
 spanning tree, and five servers on which both fail.
 */
module MeshRuns {
  import opened Common
  import opened Topology
  import opened Graph
  import opened MeshRoutes
  import SpanningTree
  import Mesh

  // ---------- Routes ----------

  /** The attempt is refused, or the two ends share no server that is a peer of neither. */
  ghost predicate Calm(st: State, p: Mesh.Attempt) {
    Refused(st, p.0, p.1) || forall x :: !Stranger(st, p.0, p.1, x)
  }

  ghost predicate AlwaysCalm(names: Names, attempts: seq<Mesh.Attempt>) {
    attempts != [] ==>
      var init := attempts[..|attempts| - 1];
      AlwaysCalm(names, init) && Calm(Run(names, init), attempts[|attempts| - 1])
  }

  /** All routes work after the run, and did after every prefix of it. */
  ghost predicate AlwaysRoutable(names: Names, attempts: seq<Mesh.Attempt>) {
    && Routable(Run(names, attempts))
    && (attempts != [] ==> AlwaysRoutable(names, attempts[..|attempts| - 1]))
  }

  /** All routes work at every point of a run, exactly if no accepted link had a stranger that both ends knew. */
  lemma {:induction false} RunsRouteIff(names: Names, attempts: seq<Mesh.Attempt>)
    ensures AlwaysRoutable(names, attempts) <==> AlwaysCalm(names, attempts)
  {
    if attempts != [] {
      var init, last := attempts[..|attempts| - 1], attempts[|attempts| - 1];
      RunsRouteIff(names, init);
      if AlwaysRoutable(names, init) && !Refused(Run(names, init), last.0, last.1) {
        RunsRefine(names, init);
        LinkKeepsRoutesIff(Run(names, init), names, last.0, last.1);
      }
    }
  }

  // ---------- Spanning trees ----------

  /** Peers hang directly off the server. */
  ghost predicate Direct(net: Net) {
    forall y :: y in net.links && y in net.servers ==> net.servers[y].via == Some(net.local)
  }

  lemma InvIffDirect(net: Net)
    requires AllUplinked(net) && net.peers == net.links
    ensures SpanningTree.Inv(net) <==> Direct(net)
  {
    forall s | s in net.servers
      ensures net.servers[s].via != Some(s)
    {
      assert Uplinked(net, s);
    }
    if Direct(net) {
      forall s | s in net.servers
        ensures SpanningTree.Grounded(net.servers, net.local, s)
      {
        DirectIsGrounded(net, s);
      }
    }
  }

  lemma DirectIsGrounded(net: Net, s: Sid)
    requires AllUplinked(net) && Direct(net) && s in net.servers
    ensures SpanningTree.Grounded(net.servers, net.local, s)
  {
    var servers := net.servers;
    assert Uplinked(net, s);
    var p := servers[s].via.value;
    assert Hop(servers, s, 0) == Some(s);
    assert Hop(servers, s, 1) == Some(p);
    if p in net.links {
      assert Hop(servers, s, 2) == Some(net.local);
    }
  }

  lemma DirectAfter(net: Net, peer: Net, names: Names)
    requires AllUplinked(net) && AllUplinked(peer) && net.local != peer.local && peer.local !in net.servers
    requires net.local !in peer.servers
    ensures Direct(Peered(net, peer, names)) <==> Direct(net) && forall y :: y in net.links ==> y !in peer.servers
  {
    var after := Peered(net, peer, names);
    EntryAfter(net, peer, names, peer.local);
    forall y | y in net.links
      ensures y in after.links && y in after.servers && y != peer.local
      ensures after.servers[y].via == if y in peer.servers then Some(peer.local) else net.servers[y].via
    {
      EntryAfter(net, peer, names, y);
    }
    assert after.links == net.links + {peer.local};
  }

  /** A server that both ends know and that is a peer of one of them. */
  ghost predicate SharedPeer(st: State, a: Sid, b: Sid, x: Sid) {
    x in Entries(st, a) && x in Entries(st, b) && ((a, x) in st.links || (b, x) in st.links)
  }

  ghost predicate Tidy(st: State, p: Mesh.Attempt) {
    Refused(st, p.0, p.1) || forall x :: !SharedPeer(st, p.0, p.1, x)
  }

  ghost predicate AllDirect(st: State) {
    forall s :: Direct(NetOf(st, s))
  }

  lemma NoSharedPeerIff(st: State, a: Sid, b: Sid)
    requires Shaped(st)
    ensures (forall x :: !SharedPeer(st, a, b, x)) <==>
              && (forall y :: y in NetOf(st, a).links ==> y !in Entries(st, b))
              && (forall y :: y in NetOf(st, b).links ==> y !in Entries(st, a))
  {
    assert AllUplinked(NetOf(st, a)) && LocatedAt(NetOf(st, a), st.links, a);
    assert AllUplinked(NetOf(st, b)) && LocatedAt(NetOf(st, b), st.links, b);
    forall y | y in NetOf(st, a).links && y in Entries(st, b)
      ensures SharedPeer(st, a, b, y)
    {
    }
    forall y | y in NetOf(st, b).links && y in Entries(st, a)
      ensures SharedPeer(st, a, b, y)
    {
    }
  }

  lemma EndDirectIff(st: State, names: Names, a: Sid, b: Sid)
    requires a != b && Shaped(st) && !Refused(st, a, b)
    ensures Direct(NetOf(Link(st, names, a, b), a))
        <==> Direct(NetOf(st, a)) && forall y :: y in NetOf(st, a).links ==> y !in Entries(st, b)
  {
    NetAfter(st, names, a, b, a);
    assert AllUplinked(NetOf(st, a)) && LocatedAt(NetOf(st, a), st.links, a);
    assert AllUplinked(NetOf(st, b)) && LocatedAt(NetOf(st, b), st.links, b);
    DirectAfter(NetOf(st, a), NetOf(st, b), names);
  }

  lemma AllDirectIff(st: State, after: State, a: Sid, b: Sid, keepsA: bool, keepsB: bool)
    requires forall s :: s != a && s != b ==> NetOf(after, s) == NetOf(st, s)
    requires Direct(NetOf(after, a)) <==> Direct(NetOf(st, a)) && keepsA
    requires Direct(NetOf(after, b)) <==> Direct(NetOf(st, b)) && keepsB
    ensures AllDirect(after) <==> AllDirect(st) && keepsA && keepsB
  {
    if AllDirect(after) {
      forall s
        ensures Direct(NetOf(st, s))
      {
        assert Direct(NetOf(after, s)) && Direct(NetOf(after, a)) && Direct(NetOf(after, b));
      }
    }
  }

  /** An accepted link keeps every topology a tree, exactly if the ends share no server that is a peer of one of them. */
  lemma LinkKeepsDirectIff(st: State, names: Names, a: Sid, b: Sid)
    requires a != b && Shaped(st) && !Refused(st, a, b)
    ensures AllDirect(Link(st, names, a, b)) <==> AllDirect(st) && forall x :: !SharedPeer(st, a, b, x)
  {
    EndDirectIff(st, names, a, b);
    LinkSwaps(st, names, a, b);
    EndDirectIff(st, names, b, a);
    forall s | s != a && s != b
      ensures NetOf(Link(st, names, a, b), s) == NetOf(st, s)
    {
      NetAfter(st, names, a, b, s);
    }
    AllDirectIff(st, Link(st, names, a, b), a, b, forall y :: y in NetOf(st, a).links ==> y !in Entries(st, b),
                 forall y :: y in NetOf(st, b).links ==> y !in Entries(st, a));
    NoSharedPeerIff(st, a, b);
  }

  ghost predicate AlwaysTidy(names: Names, attempts: seq<Mesh.Attempt>) {
    attempts != [] ==>
      var init := attempts[..|attempts| - 1];
      AlwaysTidy(names, init) && Tidy(Run(names, init), attempts[|attempts| - 1])
  }

  lemma {:induction false} RunsStayDirectIff(names: Names, attempts: seq<Mesh.Attempt>)
    ensures AllDirect(Run(names, attempts)) <==> AlwaysTidy(names, attempts)
  {
    if attempts != [] {
      var init, last := attempts[..|attempts| - 1], attempts[|attempts| - 1];
      RunsStayDirectIff(names, init);
      RunsRefine(names, init);
      if !Refused(Run(names, init), last.0, last.1) {
        LinkKeepsDirectIff(Run(names, init), names, last.0, last.1);
      }
    }
  }

  /** After a run every topology is a spanning tree, exactly if no accepted link had a peer of one end that both knew. */
  lemma RunsKeepTreesIff(names: Names, attempts: seq<Mesh.Attempt>)
    ensures (forall s :: SpanningTree.Inv(NetOf(Run(names, attempts), s))) <==> AlwaysTidy(names, attempts)
  {
    var st := Run(names, attempts);
    RunsRefine(names, attempts);
    RunsStayDirectIff(names, attempts);
    forall s
      ensures SpanningTree.Inv(NetOf(st, s)) <==> Direct(NetOf(st, s))
    {
      assert AllUplinked(NetOf(st, s)) && LocatedAt(NetOf(st, s), st.links, s);
      InvIffDirect(NetOf(st, s));
    }
  }

  // ---------- Runs that close no cycle ----------

  lemma SharedMeansConnected(m: Mesh.State, a: Sid, b: Sid, x: Sid)
    requires Symmetric(m.links) && Mesh.PeersKnown(m) && Mesh.KnownConnected(m)
    requires x in Mesh.Known(m, a) && x in Mesh.Known(m, b)
    ensures Connected(Mesh.Knows(m), a, b)
  {
    Reverse(m.links, b, x);
    Transitive(m.links, a, x, b);
    Mesh.KnowledgeClosure(m, a, b);
  }

  lemma SharersAreConnected(attempts: seq<Mesh.Attempt>, a: Sid, b: Sid, x: Sid)
    requires x in Mesh.Known(Mesh.Run(attempts), a) && x in Mesh.Known(Mesh.Run(attempts), b)
    ensures Connected(Mesh.Knows(Mesh.Run(attempts)), a, b)
  {
    Mesh.RunsAreSymmetric(attempts);
    Mesh.RunsKeepPeersKnown(attempts);
    Mesh.RunsKeepKnownConnected(attempts);
    SharedMeansConnected(Mesh.Run(attempts), a, b, x);
  }

  ghost predicate ShareNobody(m: Mesh.State, a: Sid, b: Sid) {
    forall x :: x !in Mesh.Known(m, a) || x !in Mesh.Known(m, b)
  }

  /** Servers that are not connected know nobody in common. */
  lemma HarmlessShareNobody(attempts: seq<Mesh.Attempt>, p: Mesh.Attempt)
    requires Mesh.Harmless(Mesh.Run(attempts), p) && !Mesh.Refused(Mesh.Run(attempts), p.0, p.1)
    ensures ShareNobody(Mesh.Run(attempts), p.0, p.1)
  {
    if x :| x in Mesh.Known(Mesh.Run(attempts), p.0) && x in Mesh.Known(Mesh.Run(attempts), p.1) {
      SharersAreConnected(attempts, p.0, p.1, x);
    }
  }

  lemma UnsharedIsCalmAndTidy(st: State, m: Mesh.State, p: Mesh.Attempt)
    requires Refines(st, m) && (Mesh.Refused(m, p.0, p.1) || ShareNobody(m, p.0, p.1))
    ensures Calm(st, p) && Tidy(st, p)
  {
    assert Entries(st, p.0).Keys == Mesh.Known(m, p.0) && Entries(st, p.1).Keys == Mesh.Known(m, p.1);
  }

  lemma HarmlessLast(names: Names, attempts: seq<Mesh.Attempt>, p: Mesh.Attempt)
    requires Mesh.Harmless(Mesh.Run(attempts), p)
    ensures Calm(Run(names, attempts), p) && Tidy(Run(names, attempts), p)
  {
    if !Mesh.Refused(Mesh.Run(attempts), p.0, p.1) {
      HarmlessShareNobody(attempts, p);
    }
    RunsRefine(names, attempts);
    UnsharedIsCalmAndTidy(Run(names, attempts), Mesh.Run(attempts), p);
  }

  lemma {:induction false} ApartIsCalmAndTidy(names: Names, attempts: seq<Mesh.Attempt>)
    requires Mesh.JoinsApart(attempts)
    ensures AlwaysCalm(names, attempts) && AlwaysTidy(names, attempts)
  {
    if attempts != [] {
      Mesh.JoinsApartLast(attempts);
      ApartIsCalmAndTidy(names, attempts[..|attempts| - 1]);
      HarmlessLast(names, attempts[..|attempts| - 1], attempts[|attempts| - 1]);
    }
  }

  /**
   Where every accepted link joins servers that were apart, every topology is a spanning tree, and following next hops
   from any server reaches all that it knows.
   */
  lemma ApartRunsRoute(names: Names, attempts: seq<Mesh.Attempt>)
    requires Mesh.JoinsApart(attempts)
    ensures forall s :: SpanningTree.Inv(NetOf(Run(names, attempts), s))
    ensures Routable(Run(names, attempts))
  {
    ApartIsCalmAndTidy(names, attempts);
    RunsRouteIff(names, attempts);
    RunsKeepTreesIff(names, attempts);
  }

  // ---------- Five servers ----------

  const A: Sid := "00A"
  const B: Sid := "00B"
  const C: Sid := "00C"
  const D: Sid := "00D"
  const E: Sid := "00E"

  lemma FiveNames()
    ensures Distinct([A, B, C, D, E])
    ensures A != B && A != C && A != D && A != E && B != C && B != D && B != E && C != D && C != E && D != E
  {
    assert A[2] == 'A' && B[2] == 'B' && C[2] == 'C' && D[2] == 'D' && E[2] == 'E';
  }

  /** A chain of five, linked up from the middle outwards: each end has heard of the middle. */
  function Chain(): seq<Mesh.Attempt> {
    FiveNames();
    var none: seq<Mesh.Attempt> := [];
    none + [(B, C)] + [(A, B)] + [(C, D)] + [(D, E)]
  }

  /** A newcomer knows nobody, so its link is always calm. */
  lemma NewcomerIsCalm(names: Names, attempts: seq<Mesh.Attempt>, p: Mesh.Attempt)
    requires AlwaysCalm(names, attempts)
    requires Mesh.Known(Mesh.Run(attempts), p.0) == {} || Mesh.Known(Mesh.Run(attempts), p.1) == {}
    ensures AlwaysCalm(names, attempts + [p])
  {
    RunsRefine(names, attempts);
    assert (attempts + [p])[..|attempts|] == attempts;
    forall x
      ensures !Stranger(Run(names, attempts), p.0, p.1, x)
    {
    }
  }

  function Halfway(): Mesh.State {
    Mesh.State(map[A := {B, C}, B := {C, A}, C := {B}], {(B, C), (C, B), (A, B), (B, A)})
  }

  lemma FirstTwo()
    ensures Mesh.Link(Mesh.Link(Mesh.Run([]), B, C), A, B) == Halfway()
  {
    FiveNames();
    var m := Mesh.Link(Mesh.Run([]), B, C);
    assert Mesh.Learnt(Mesh.Run([]), B, C) == {C} && Mesh.Learnt(Mesh.Run([]), C, B) == {B};
    assert m == Mesh.State(map[B := {C}, C := {B}], {(B, C), (C, B)});
    assert Mesh.Learnt(m, A, B) == {B, C} && Mesh.Learnt(m, B, A) == {C, A};
  }

  lemma Third()
    ensures Mesh.Link(Halfway(), C, D).known == map[A := {B, C}, B := {C, A}, C := {B, D}, D := {C, B}]
    ensures (A, C) !in Mesh.Link(Halfway(), C, D).links && (E, C) !in Mesh.Link(Halfway(), C, D).links
  {
    FiveNames();
    assert Mesh.Learnt(Halfway(), C, D) == {B, D} && Mesh.Learnt(Halfway(), D, C) == {C, B};
  }

  /** The ends of the chain have both heard of C, and neither is linked to it or knows the other. */
  ghost predicate MiddleShared(m: Mesh.State) {
    && Mesh.Known(m, A) == {B, C} && Mesh.Known(m, E) == {D, C, B}
    && (A, C) !in m.links && (E, C) !in m.links
  }

  lemma Fourth(m: Mesh.State)
    requires m.known == map[A := {B, C}, B := {C, A}, C := {B, D}, D := {C, B}]
    requires (A, C) !in m.links && (E, C) !in m.links
    ensures MiddleShared(Mesh.Link(m, D, E))
  {
    FiveNames();
    assert Mesh.Learnt(m, E, D) == {D, C, B};
  }

  lemma FirstHalf(names: Names, none: seq<Mesh.Attempt>)
    requires none == [] && B != C && A != B
    ensures var two := none + [(B, C)] + [(A, B)];
            AlwaysCalm(names, two) && Mesh.Run(two) == Halfway()
  {
    var one := none + [(B, C)];
    FiveNames();
    FirstTwo();
    Mesh.RunAppend(none, (B, C));
    NewcomerIsCalm(names, none, (B, C));
    Mesh.RunAppend(one, (A, B));
    NewcomerIsCalm(names, one, (A, B));
  }

  lemma ThirdLink(names: Names, two: seq<Mesh.Attempt>)
    requires AlwaysCalm(names, two) && Mesh.Run(two) == Halfway() && C != D
    ensures AlwaysCalm(names, two + [(C, D)]) && Mesh.Run(two + [(C, D)]) == Mesh.Link(Halfway(), C, D)
  {
    FiveNames();
    Mesh.RunAppend(two, (C, D));
    NewcomerIsCalm(names, two, (C, D));
  }

  lemma FourthLink(names: Names, three: seq<Mesh.Attempt>, m: Mesh.State)
    requires AlwaysCalm(names, three) && Mesh.Run(three) == m && D != E
    requires m.known == map[A := {B, C}, B := {C, A}, C := {B, D}, D := {C, B}]
    requires (A, C) !in m.links && (E, C) !in m.links
    ensures AlwaysCalm(names, three + [(D, E)]) && MiddleShared(Mesh.Run(three + [(D, E)]))
  {
    FiveNames();
    Mesh.RunAppend(three, (D, E));
    NewcomerIsCalm(names, three, (D, E));
    Fourth(m);
  }

  lemma OuterLinks(names: Names, two: seq<Mesh.Attempt>)
    requires AlwaysCalm(names, two) && Mesh.Run(two) == Halfway() && C != D && D != E
    ensures var four := two + [(C, D)] + [(D, E)];
            AlwaysCalm(names, four) && MiddleShared(Mesh.Run(four))
  {
    ThirdLink(names, two);
    Third();
    FourthLink(names, two + [(C, D)], Mesh.Link(Halfway(), C, D));
  }

  lemma ChainIsCalm(names: Names)
    ensures AlwaysCalm(names, Chain()) && MiddleShared(Mesh.Run(Chain()))
  {
    FiveNames();
    var none: seq<Mesh.Attempt> := [];
    FirstHalf(names, none);
    OuterLinks(names, none + [(B, C)] + [(A, B)]);
  }

  lemma EndsLoseTheMiddle(names: Names, chain: seq<Mesh.Attempt>)
    requires AlwaysCalm(names, chain) && MiddleShared(Mesh.Run(chain))
    ensures Routable(Run(names, chain)) && !Refused(Run(names, chain), A, E)
    ensures var after := Link(Run(names, chain), names, A, E);
            && Next(after, A, C) == Some(E) && Next(after, E, C) == Some(A)
            && !Routes(after, A, C) && !Routes(after, E, C)
  {
    FiveNames();
    RunsRefine(names, chain);
    RunsRouteIff(names, chain);
    StrangerIsLost(Run(names, chain), names, A, E, C);
  }

  /**
   All routes of the chain work. The link between its ends passes loop detection, and from then on each of the two sends
   whatever is for C to the other.
   */
  lemma FiveServersLoseOne(names: Names)
    ensures Routable(Run(names, Chain())) && !Refused(Run(names, Chain()), A, E)
    ensures var after := Link(Run(names, Chain()), names, A, E);
            && Next(after, A, C) == Some(E) && Next(after, E, C) == Some(A)
            && !Routes(after, A, C) && !Routes(after, E, C)
  {
    ChainIsCalm(names);
    EndsLoseTheMiddle(names, Chain());
  }
}
