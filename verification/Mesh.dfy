/**
 Several servers that link up: what loop detection knows, what it lets through, and when the links stay a tree.

 Each server keeps the SIDs in its topology. A handshake goes ahead when neither end has the other's SID there; each end
 then sends the SIDs it knows in its burst and enters the other (src/sync/network.rs). Nobody else is told: a new link is
 announced to no existing peer, and the handler of SID commands relays nothing (src/handlers/server/sid.rs).
 */
module Mesh {
  import opened Common
  import opened Graph
  import Flood

  /** What each server has in its topology, and the links that exist. */
  datatype State = State(known: map<Sid, set<Sid>>, links: Links)

  function Known(m: State, s: Sid): set<Sid> {
    if s in m.known then m.known[s] else {}
  }

  /** Loop detection on both ends. */
  predicate Refused(m: State, a: Sid, b: Sid) {
    b in Known(m, a) || a in Known(m, b)
  }

  /** What `s` has in its topology after linking to `peer` and taking in its burst. */
  function Learnt(m: State, s: Sid, peer: Sid): set<Sid> {
    Known(m, s) + {peer} + (Known(m, peer) - {peer})
  }

  function Link(m: State, a: Sid, b: Sid): State {
    if Refused(m, a, b) then m
    else State(m.known[a := Learnt(m, a, b)][b := Learnt(m, b, a)], Joined(m.links, a, b))
  }

  /** Attempts to link two different servers. */
  type Attempt = p: (Sid, Sid) | p.0 != p.1 witness ("", "0")

  function Run(attempts: seq<Attempt>): State {
    if attempts == [] then State(map[], {})
    else
      var last := attempts[|attempts| - 1];
      Link(Run(attempts[..|attempts| - 1]), last.0, last.1)
  }

  // ---------- What the servers know ----------

  ghost predicate PeersKnown(m: State) {
    forall x, y :: (x, y) in m.links ==> x != y && y in Known(m, x)
  }

  ghost predicate KnownConnected(m: State) {
    forall x, y :: y in Known(m, x) ==> x != y && Connected(m.links, x, y)
  }

  /** Of two peers of a server, one knows the other. */
  ghost predicate PeersOfPeersKnown(m: State) {
    forall x, y, z :: (x, y) in m.links && (y, z) in m.links && x != z ==> z in Known(m, x) || x in Known(m, z)
  }

  lemma KnownAfter(m: State, a: Sid, b: Sid, x: Sid)
    requires a != b && !Refused(m, a, b)
    ensures Known(m, x) <= Known(Link(m, a, b), x)
    ensures x == a ==> Known(Link(m, a, b), x) == Learnt(m, a, b)
    ensures x == b ==> Known(Link(m, a, b), x) == Learnt(m, b, a)
    ensures x != a && x != b ==> Known(Link(m, a, b), x) == Known(m, x)
  {
  }

  lemma PeersKnow(m: State, a: Sid, b: Sid, x: Sid, y: Sid)
    requires PeersKnown(m) && a != b && !Refused(m, a, b) && (x, y) in Link(m, a, b).links
    ensures x != y && y in Known(Link(m, a, b), x)
  {
    KnownAfter(m, a, b, x);
  }

  lemma KnownAreConnected(m: State, a: Sid, b: Sid, x: Sid, y: Sid)
    requires KnownConnected(m) && a != b && !Refused(m, a, b) && y in Known(Link(m, a, b), x)
    ensures x != y && Connected(Link(m, a, b).links, x, y)
  {
    var more := Link(m, a, b).links;
    KnownAfter(m, a, b, x);
    if y in Known(m, x) {
      More(m.links, more, x, y);
    } else {
      var peer := if x == a then b else a;
      OneStep(more, x, peer);
      if y != peer {
        More(m.links, more, peer, y);
        Transitive(more, x, peer, y);
      }
    }
  }

  lemma PeersOfPeers(m: State, a: Sid, b: Sid, x: Sid, y: Sid, z: Sid)
    requires Symmetric(m.links) && PeersKnown(m) && PeersOfPeersKnown(m) && a != b && !Refused(m, a, b)
    requires (x, y) in Link(m, a, b).links && (y, z) in Link(m, a, b).links && x != z
    ensures z in Known(Link(m, a, b), x) || x in Known(Link(m, a, b), z)
  {
    KnownAfter(m, a, b, x);
    KnownAfter(m, a, b, z);
    if (x, y) in m.links && (y, z) !in m.links {
      assert (y, x) in m.links;
      assert x in Known(m, y);
    } else if (x, y) !in m.links && (y, z) in m.links {
      assert z in Known(m, y);
    }
  }

  lemma LinkKeepsPeersKnown(m: State, a: Sid, b: Sid)
    requires PeersKnown(m) && a != b && !Refused(m, a, b)
    ensures PeersKnown(Link(m, a, b))
  {
    forall x, y | (x, y) in Link(m, a, b).links
      ensures x != y && y in Known(Link(m, a, b), x)
    {
      PeersKnow(m, a, b, x, y);
    }
  }

  lemma LinkKeepsKnownConnected(m: State, a: Sid, b: Sid)
    requires KnownConnected(m) && a != b && !Refused(m, a, b)
    ensures KnownConnected(Link(m, a, b))
  {
    forall x, y | y in Known(Link(m, a, b), x)
      ensures x != y && Connected(Link(m, a, b).links, x, y)
    {
      KnownAreConnected(m, a, b, x, y);
    }
  }

  lemma LinkKeepsPeersOfPeersKnown(m: State, a: Sid, b: Sid)
    requires Symmetric(m.links) && PeersKnown(m) && PeersOfPeersKnown(m) && a != b && !Refused(m, a, b)
    ensures PeersOfPeersKnown(Link(m, a, b))
  {
    forall x, y, z | (x, y) in Link(m, a, b).links && (y, z) in Link(m, a, b).links && x != z
      ensures z in Known(Link(m, a, b), x) || x in Known(Link(m, a, b), z)
    {
      PeersOfPeers(m, a, b, x, y, z);
    }
  }

  lemma {:induction false} RunsAreSymmetric(attempts: seq<Attempt>)
    ensures Symmetric(Run(attempts).links)
  {
    if attempts != [] {
      RunsAreSymmetric(attempts[..|attempts| - 1]);
    }
  }

  /** In every run peers know each other. */
  lemma {:induction false} RunsKeepPeersKnown(attempts: seq<Attempt>)
    ensures PeersKnown(Run(attempts))
  {
    if attempts != [] {
      var m, last := Run(attempts[..|attempts| - 1]), attempts[|attempts| - 1];
      RunsKeepPeersKnown(attempts[..|attempts| - 1]);
      if !Refused(m, last.0, last.1) {
        LinkKeepsPeersKnown(m, last.0, last.1);
      }
    }
  }

  /** In every run a server is connected to all that it has in its topology. */
  lemma {:induction false} RunsKeepKnownConnected(attempts: seq<Attempt>)
    ensures KnownConnected(Run(attempts))
  {
    if attempts != [] {
      var m, last := Run(attempts[..|attempts| - 1]), attempts[|attempts| - 1];
      RunsKeepKnownConnected(attempts[..|attempts| - 1]);
      if !Refused(m, last.0, last.1) {
        LinkKeepsKnownConnected(m, last.0, last.1);
      }
    }
  }

  /** In every run, of two peers of a server one has the other in its topology. */
  lemma {:induction false} RunsKeepPeersOfPeersKnown(attempts: seq<Attempt>)
    ensures PeersOfPeersKnown(Run(attempts))
  {
    if attempts != [] {
      var m, last := Run(attempts[..|attempts| - 1]), attempts[|attempts| - 1];
      RunsKeepPeersOfPeersKnown(attempts[..|attempts| - 1]);
      if !Refused(m, last.0, last.1) {
        RunsAreSymmetric(attempts[..|attempts| - 1]);
        RunsKeepPeersKnown(attempts[..|attempts| - 1]);
        LinkKeepsPeersOfPeersKnown(m, last.0, last.1);
      }
    }
  }

  // ---------- Loop detection ----------

  /** Loop detection never turns away a link that would be harmless: the two servers were connected already. */
  lemma RefusedWereConnected(attempts: seq<Attempt>, a: Sid, b: Sid)
    requires Refused(Run(attempts), a, b)
    ensures Connected(Run(attempts).links, a, b)
  {
    RunsAreSymmetric(attempts);
    RunsKeepKnownConnected(attempts);
    if b !in Known(Run(attempts), a) {
      Reverse(Run(attempts).links, b, a);
    }
  }

  /** A cycle that loop detection misses has at least four servers on it: a and b are three or more links apart. */
  lemma MissedCyclesAreLong(attempts: seq<Attempt>, a: Sid, b: Sid, n: nat)
    requires a != b && !Refused(Run(attempts), a, b) && Reach(Run(attempts).links, a, b, n)
    ensures n >= 3
  {
    RunsKeepPeersKnown(attempts);
    RunsKeepPeersOfPeersKnown(attempts);
    NearAreRefused(Run(attempts), a, b);
  }

  lemma NearAreRefused(m: State, a: Sid, b: Sid)
    requires PeersKnown(m) && PeersOfPeersKnown(m) && a != b && !Refused(m, a, b)
    ensures !Reach(m.links, a, b, 1) && !Reach(m.links, a, b, 2)
  {
    OneStepIff(m.links, a, b);
    TwoStepsIff(m.links, a, b);
  }

  lemma OneStepIff(links: Links, x: Sid, y: Sid)
    ensures Reach(links, x, y, 1) <==> (x, y) in links
  {
    assert Reach(links, x, x, 0);
  }

  lemma TwoStepsIff(links: Links, x: Sid, y: Sid)
    ensures Reach(links, x, y, 2) <==> exists z :: (x, z) in links && (z, y) in links
  {
    forall z
      ensures Reach(links, x, z, 1) <==> (x, z) in links
    {
      OneStepIff(links, x, z);
    }
    if z :| (x, z) in links && (z, y) in links {
      assert Reach(links, x, z, 1);
    }
  }

  /** Who has whom in its topology, as a graph. */
  ghost function Knows(m: State): Links {
    set x, y | x in m.known && y in m.known[x] :: (x, y)
  }

  lemma {:induction false} KnowledgeIsConnection(m: State, x: Sid, y: Sid, n: nat)
    requires KnownConnected(m) && Reach(Knows(m), x, y, n)
    ensures Connected(m.links, x, y)
    decreases n
  {
    if n == 0 {
      Stay(m.links, x);
    } else {
      var z :| Reach(Knows(m), x, z, n - 1) && (z, y) in Knows(m);
      KnowledgeIsConnection(m, x, z, n - 1);
      assert y in Known(m, z);
      Transitive(m.links, x, z, y);
    }
  }

  /** Following topologies from server to server finds exactly the servers that are connected. */
  lemma KnowledgeClosure(m: State, a: Sid, b: Sid)
    requires PeersKnown(m) && KnownConnected(m)
    ensures Connected(m.links, a, b) <==> Connected(Knows(m), a, b)
  {
    if Connected(Knows(m), a, b) {
      var n: nat :| Reach(Knows(m), a, b, n);
      KnowledgeIsConnection(m, a, b, n);
    }
    if Connected(m.links, a, b) {
      PeersAreKnown(m);
      More(m.links, Knows(m), a, b);
    }
  }

  lemma PeersAreKnown(m: State)
    requires PeersKnown(m)
    ensures m.links <= Knows(m)
  {
    forall l | l in m.links
      ensures l in Knows(m)
    {
      assert (l.0, l.1) in m.links;
      assert l.1 in Known(m, l.0);
    }
  }

  /**
   An accepted link keeps an acyclic mesh acyclic exactly when the other end cannot be found by following topologies from
   server to server. Loop detection follows them for one step only.
   */
  lemma AcceptedLinkKeepsAcyclicIff(attempts: seq<Attempt>, a: Sid, b: Sid)
    requires a != b && !Refused(Run(attempts), a, b) && Acyclic(Run(attempts).links)
    ensures Acyclic(Link(Run(attempts), a, b).links) <==> !Connected(Knows(Run(attempts)), a, b)
  {
    var m := Run(attempts);
    RunsAreSymmetric(attempts);
    RunsKeepPeersKnown(attempts);
    RunsKeepKnownConnected(attempts);
    KnowledgeClosure(m, a, b);
    JoinKeepsAcyclicIff(m.links, a, b);
  }

  /** Every attempt that is accepted joins servers that were not connected. */
  ghost predicate JoinsApart(attempts: seq<Attempt>) {
    forall i :: 0 <= i < |attempts| ==> Harmless(Run(attempts[..i]), attempts[i])
  }

  ghost predicate Harmless(m: State, p: Attempt) {
    Refused(m, p.0, p.1) || !Connected(Knows(m), p.0, p.1)
  }

  /** The links of a run are acyclic exactly when every accepted link joined servers that were apart. */
  lemma {:induction false} RunsStayAcyclicIff(attempts: seq<Attempt>)
    ensures Acyclic(Run(attempts).links) <==> JoinsApart(attempts)
  {
    if attempts != [] {
      var init, last := attempts[..|attempts| - 1], attempts[|attempts| - 1];
      RunsStayAcyclicIff(init);
      JoinsApartLast(attempts);
      if Acyclic(Run(attempts).links) {
        FewerStayAcyclic(Run(init).links, Run(attempts).links);
      }
      if Acyclic(Run(init).links) && !Refused(Run(init), last.0, last.1) {
        AcceptedLinkKeepsAcyclicIff(init, last.0, last.1);
      }
    }
  }

  lemma JoinsApartLast(attempts: seq<Attempt>)
    requires attempts != []
    ensures var init, last := attempts[..|attempts| - 1], attempts[|attempts| - 1];
            JoinsApart(attempts) <==> JoinsApart(init) && Harmless(Run(init), last)
  {
    var init := attempts[..|attempts| - 1];
    assert forall i :: 0 <= i < |init| ==> init[..i] == attempts[..i] && init[i] == attempts[i];
  }

  /** On such a run, flooding among servers that are all connected is orderly. */
  lemma FloodsAreOrderly(attempts: seq<Attempt>, w: Web, origin: Sid, schedule: seq<Arc>)
    requires JoinsApart(attempts) && w.links == Run(attempts).links && origin in w.nodes && AllConnected(w)
    requires forall a, b :: (a, b) in w.links ==> a in w.nodes && b in w.nodes
    ensures Flood.Orderly(w, origin, Flood.After(w, Flood.SplitHorizon, origin, schedule))
  {
    RunsStayAcyclicIff(attempts);
    RunsAreSymmetric(attempts);
    RunsKeepPeersKnown(attempts);
    Flood.FloodDeliversExactlyOnce(w, origin, schedule);
  }

  // ---------- Loop detection is not enough ----------

  const A: Sid := "00A"
  const B: Sid := "00B"
  const C: Sid := "00C"
  const D: Sid := "00D"

  lemma FourNames()
    ensures A != B && A != C && A != D && B != C && B != D && C != D
  {
    assert A[2] == 'A' && B[2] == 'B' && C[2] == 'C' && D[2] == 'D';
  }

  /** Four servers in two pairs, then a link between the pairs: the outer two do not know of each other. */
  function Chain(): seq<Attempt> {
    FourNames();
    [(A, B), (C, D), (B, C)]
  }

  function TwoPairs(): State {
    State(map[A := {B}, B := {A}, C := {D}, D := {C}], {(A, B), (B, A), (C, D), (D, C)})
  }

  lemma TwoPairsAre()
    ensures Link(Link(Run([]), A, B), C, D) == TwoPairs()
  {
    FourNames();
    var m := Link(Run([]), A, B);
    assert Learnt(Run([]), A, B) == {B} && Learnt(Run([]), B, A) == {A};
    assert m == State(map[A := {B}, B := {A}], {(A, B), (B, A)});
    assert Learnt(m, C, D) == {D} && Learnt(m, D, C) == {C};
  }

  lemma PairsLinked()
    ensures Link(TwoPairs(), B, C)
         == State(map[A := {B}, B := {A, C, D}, C := {D, B, A}, D := {C}],
                  {(A, B), (B, A), (C, D), (D, C), (B, C), (C, B)})
  {
    FourNames();
    assert Learnt(TwoPairs(), B, C) == {A, C, D} && Learnt(TwoPairs(), C, B) == {D, B, A};
  }

  lemma ChainIs()
    ensures Run(Chain()).known == map[A := {B}, B := {A, C, D}, C := {D, B, A}, D := {C}]
    ensures Run(Chain()).links == {(A, B), (B, A), (C, D), (D, C), (B, C), (C, B)}
  {
    FourNames();
    var none: seq<Attempt> := [];
    RunAppend(none, (A, B));
    RunAppend(none + [(A, B)], (C, D));
    RunAppend(none + [(A, B)] + [(C, D)], (B, C));
    assert Chain() == none + [(A, B)] + [(C, D)] + [(B, C)];
    TwoPairsAre();
    PairsLinked();
  }

  lemma RunAppend(attempts: seq<Attempt>, p: Attempt)
    ensures Run(attempts + [p]) == Link(Run(attempts), p.0, p.1)
  {
    assert (attempts + [p])[..|attempts|] == attempts;
  }

  /** The fourth link passes loop detection on both ends and closes a cycle. */
  lemma FourServersCloseACycle()
    ensures !Refused(Run(Chain()), A, D) && Connected(Run(Chain()).links, A, D)
    ensures !Acyclic(Link(Run(Chain()), A, D).links)
  {
    var m := Run(Chain());
    FourNames();
    ChainIs();
    OneStep(m.links, A, B);
    StepOn(m.links, A, B, C);
    StepOn(m.links, A, C, D);
    var more := Link(m, A, D).links;
    assert (A, D) !in m.links && (D, A) !in m.links;
    assert Cut(more, A, D) == m.links;
    assert (A, D) in more && !Bridge(more, A, D);
  }
}
