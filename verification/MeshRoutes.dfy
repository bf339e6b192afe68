/**
 Several servers that link up, each with the parent pointers of its own topology: when following next hops from server to
 server arrives, and when every topology stays a spanning tree.

 As in module Mesh, two servers link when neither end has the other's SID. Each end enters the other below itself and
 then every SID of the other's burst below the other (src/sync/network.rs, src/handlers/server/sid.rs); the commands of a
 burst carry no prefix, so the sending peer is recorded as the uplink. An entry that exists is overwritten.
 */
module MeshRoutes {
  import opened Common
  import opened Topology
  import opened Routing
  import opened Graph
  import SpanningTree
  import Mesh

  type Net = SpanningTree.Net

  /** The name and the description that a server gives in its handshake. */
  type Names = Sid -> (string, string)

  datatype State = State(nets: map<Sid, Net>, links: Links)

  function NetOf(st: State, s: Sid): Net {
    if s in st.nets then st.nets[s] else SpanningTree.Net(s, map[], {}, {}, {})
  }

  /** What `s` has in its topology. */
  function Entries(st: State, s: Sid): Servers {
    NetOf(st, s).servers
  }

  // ---------- Linking ----------

  /** The SID command for x in the burst of a peer, as the receiver takes it. */
  function BurstStep(peer: Net, x: Sid): SpanningTree.Step
    requires x in peer.servers
  {
    SpanningTree.LearnServer(x, peer.servers[x].name, peer.servers[x].hopcount + 1, peer.servers[x].info, peer.local)
  }

  function BurstEntry(peer: Net, x: Sid): ServerInfo
    requires x in peer.servers
  {
    ServerInfo(x, peer.servers[x].name, peer.servers[x].info, peer.servers[x].hopcount + 1, Some(peer.local))
  }

  /** The topology after the SID commands for `sids` have been taken in. */
  function Taken(servers: Servers, peer: Net, sids: set<Sid>): Servers
    requires sids <= peer.servers.Keys
  {
    map x | x in servers.Keys + sids :: if x in sids then BurstEntry(peer, x) else servers[x]
  }

  /** A burst leaves out the server that sends it. */
  function BurstSids(peer: Net): set<Sid> {
    peer.servers.Keys - {peer.local}
  }

  ghost function Peered(net: Net, peer: Net, names: Names): Net {
    var shaken := SpanningTree.Apply(net, SpanningTree.Handshake(peer.local, names(peer.local).0, names(peer.local).1));
    shaken.(servers := Taken(shaken.servers, peer, BurstSids(peer)))
  }

  predicate Refused(st: State, a: Sid, b: Sid) {
    b in Entries(st, a) || a in Entries(st, b)
  }

  ghost function Link(st: State, names: Names, a: Sid, b: Sid): State {
    if Refused(st, a, b) then st
    else
      State(st.nets[a := Peered(NetOf(st, a), NetOf(st, b), names)][b := Peered(NetOf(st, b), NetOf(st, a), names)],
            Joined(st.links, a, b))
  }

  ghost function Run(names: Names, attempts: seq<Mesh.Attempt>): State {
    if attempts == [] then State(map[], {})
    else
      var last := attempts[|attempts| - 1];
      Link(Run(names, attempts[..|attempts| - 1]), names, last.0, last.1)
  }

  /** The commands of a burst, taken in one by one. */
  ghost function TakeAll(net: Net, peer: Net, xs: seq<Sid>): Net
    requires forall x :: x in xs ==> x in peer.servers
  {
    if xs == [] then net
    else SpanningTree.Apply(TakeAll(net, peer, xs[..|xs| - 1]), BurstStep(peer, xs[|xs| - 1]))
  }

  lemma TakenNone(servers: Servers, peer: Net)
    ensures Taken(servers, peer, {}) == servers
  {
  }

  lemma TakenMore(servers: Servers, peer: Net, sids: set<Sid>, x: Sid)
    requires sids <= peer.servers.Keys && x in peer.servers
    ensures Taken(servers, peer, sids)[x := BurstEntry(peer, x)] == Taken(servers, peer, sids + {x})
  {
  }

  /** Whatever the order in which its commands come, a burst makes the same entries. */
  lemma {:induction false} BurstInAnyOrder(net: Net, peer: Net, xs: seq<Sid>)
    requires Elements(xs) <= peer.servers.Keys
    ensures forall x :: x in xs ==> x in Elements(xs)
    ensures TakeAll(net, peer, xs) == net.(servers := Taken(net.servers, peer, Elements(xs)))
  {
    if xs == [] {
      TakenNone(net.servers, peer);
    } else {
      var init, last := xs[..|xs| - 1], xs[|xs| - 1];
      ElementsLast(xs);
      BurstInAnyOrder(net, peer, init);
      TakenMore(net.servers, peer, Elements(init), last);
    }
  }

  // ---------- What every run keeps ----------

  /** The SIDs and the links are those of the plain mesh. */
  ghost predicate Refines(st: State, m: Mesh.State) {
    st.links == m.links && forall s :: Entries(st, s).Keys == Mesh.Known(m, s)
  }

  /** Each topology belongs to its server, which is linked to those that the mesh links it to. */
  ghost predicate Located(st: State) {
    forall s :: LocatedAt(NetOf(st, s), st.links, s)
  }

  ghost predicate LocatedAt(net: Net, links: Links, s: Sid) {
    net.local == s && net.peers == net.links && forall y :: y in net.links <==> (s, y) in links
  }

  /** The uplink of an entry is a peer, or, for the entry of a peer, perhaps the local server. */
  ghost predicate Uplinked(net: Net, x: Sid)
    requires x in net.servers
  {
    var via := net.servers[x].via;
    && via.Some? && via.value != x
    && (via.value in net.links || (via.value == net.local && x in net.links))
  }

  ghost predicate AllUplinked(net: Net) {
    && net.local !in net.servers && net.links <= net.servers.Keys
    && forall x :: x in net.servers ==> Uplinked(net, x)
  }

  ghost predicate Shaped(st: State) {
    Located(st) && forall s :: AllUplinked(NetOf(st, s))
  }

  lemma NetAfter(st: State, names: Names, a: Sid, b: Sid, s: Sid)
    requires a != b && !Refused(st, a, b) && Located(st)
    ensures NetOf(Link(st, names, a, b), s)
         == if s == a then Peered(NetOf(st, a), NetOf(st, b), names)
            else if s == b then Peered(NetOf(st, b), NetOf(st, a), names)
            else NetOf(st, s)
  {
  }

  /** The entry for x at a server s that has just linked to `peer`. */
  lemma EntryAfter(net: Net, peer: Net, names: Names, x: Sid)
    requires peer.local !in peer.servers
    ensures Peered(net, peer, names).servers.Keys == net.servers.Keys + {peer.local} + peer.servers.Keys
    ensures x in peer.servers ==> Peered(net, peer, names).servers[x].via == Some(peer.local)
    ensures x == peer.local ==> Peered(net, peer, names).servers[x].via == Some(net.local)
    ensures x in net.servers && x != peer.local && x !in peer.servers ==>
              Peered(net, peer, names).servers[x] == net.servers[x]
  {
  }

  /** What it says of the server: for the peer what its handshake said, for the others what the burst said. */
  lemma EntrySays(net: Net, peer: Net, names: Names, x: Sid)
    requires peer.local !in peer.servers
    ensures var after := Peered(net, peer, names).servers;
            && peer.local in after && after[peer.local].name == names(peer.local).0
            && after[peer.local].info == names(peer.local).1 && after[peer.local].hopcount == 1
            && (x in peer.servers ==>
                  && x in after && after[x].sid == x && after[x].name == peer.servers[x].name
                  && after[x].info == peer.servers[x].info && after[x].hopcount == peer.servers[x].hopcount + 1)
  {
  }

  // ---------- Every run is shaped and refines the plain mesh ----------

  lemma PeeredKnows(st: State, m: Mesh.State, names: Names, s: Sid, peer: Sid)
    requires Refines(st, m) && Shaped(st)
    ensures Peered(NetOf(st, s), NetOf(st, peer), names).servers.Keys == Mesh.Learnt(m, s, peer)
  {
    EntryAfter(NetOf(st, s), NetOf(st, peer), names, peer);
  }

  lemma LinkRefines(st: State, m: Mesh.State, names: Names, a: Sid, b: Sid)
    requires a != b && Refines(st, m) && Shaped(st)
    ensures Refines(Link(st, names, a, b), Mesh.Link(m, a, b))
  {
    if !Refused(st, a, b) {
      forall s
        ensures Entries(Link(st, names, a, b), s).Keys == Mesh.Known(Mesh.Link(m, a, b), s)
      {
        NetAfter(st, names, a, b, s);
        Mesh.KnownAfter(m, a, b, s);
        PeeredKnows(st, m, names, a, b);
        PeeredKnows(st, m, names, b, a);
      }
    }
  }

  lemma PeeredLocated(net: Net, peer: Net, names: Names, links: Links, s: Sid)
    requires LocatedAt(net, links, s) && peer.local != s
    ensures LocatedAt(Peered(net, peer, names), Joined(links, s, peer.local), s)
    ensures LocatedAt(Peered(net, peer, names), Joined(links, peer.local, s), s)
  {
  }

  lemma LinkLocated(st: State, names: Names, a: Sid, b: Sid)
    requires a != b && Located(st)
    ensures Located(Link(st, names, a, b))
  {
    if !Refused(st, a, b) {
      forall s
        ensures LocatedAt(NetOf(Link(st, names, a, b), s), Joined(st.links, a, b), s)
      {
        NetAfter(st, names, a, b, s);
        if s == a {
          PeeredLocated(NetOf(st, a), NetOf(st, b), names, st.links, a);
        } else if s == b {
          PeeredLocated(NetOf(st, b), NetOf(st, a), names, st.links, b);
        } else {
          assert forall y :: (s, y) in Joined(st.links, a, b) <==> (s, y) in st.links;
        }
      }
    }
  }

  lemma PeeredUplinked(net: Net, peer: Net, names: Names)
    requires AllUplinked(net) && AllUplinked(peer)
    requires net.local != peer.local && peer.local !in net.servers && net.local !in peer.servers
    ensures AllUplinked(Peered(net, peer, names))
  {
    var after := Peered(net, peer, names);
    EntryAfter(net, peer, names, net.local);
    forall x | x in after.servers
      ensures Uplinked(after, x)
    {
      EntryAfter(net, peer, names, x);
      assert x in net.servers ==> Uplinked(net, x);
    }
  }

  lemma LinkShaped(st: State, names: Names, a: Sid, b: Sid)
    requires a != b && Shaped(st)
    ensures Shaped(Link(st, names, a, b))
  {
    LinkLocated(st, names, a, b);
    if !Refused(st, a, b) {
      forall s
        ensures AllUplinked(NetOf(Link(st, names, a, b), s))
      {
        NetAfter(st, names, a, b, s);
        PeeredUplinked(NetOf(st, a), NetOf(st, b), names);
        PeeredUplinked(NetOf(st, b), NetOf(st, a), names);
      }
    }
  }

  lemma {:induction false} RunsRefine(names: Names, attempts: seq<Mesh.Attempt>)
    ensures Refines(Run(names, attempts), Mesh.Run(attempts)) && Shaped(Run(names, attempts))
  {
    if attempts != [] {
      var init, last := attempts[..|attempts| - 1], attempts[|attempts| - 1];
      RunsRefine(names, init);
      LinkRefines(Run(names, init), Mesh.Run(init), names, last.0, last.1);
      LinkShaped(Run(names, init), names, last.0, last.1);
    }
  }

  // ---------- Next hops ----------

  ghost function Next(st: State, s: Sid, x: Sid): Option<Sid> {
    NextHop(NetOf(st, s).servers, NetOf(st, s).links, x)
  }

  lemma NextToLink(servers: Servers, links: set<Sid>, x: Sid)
    requires x in links
    ensures NextHop(servers, links, x) == Some(x)
  {
    NextHopMeaning(servers, links, x);
    assert Hop(servers, x, 0) == Some(x);
    assert FirstLinkedAt(servers, links, x, 0);
  }

  lemma NextToUplink(servers: Servers, links: set<Sid>, x: Sid, p: Sid)
    requires x !in links && Route(servers, x) == Some(p) && p in links
    ensures NextHop(servers, links, x) == Some(p)
  {
    NextHopMeaning(servers, links, x);
    assert Hop(servers, x, 0) == Some(x);
    assert Hop(servers, x, 1) == Some(p);
    assert FirstLinkedAt(servers, links, x, 1);
  }

  /** In every run, the next hop to a known server is that server if it is a peer, and otherwise its uplink. */
  lemma NextIs(st: State, s: Sid, x: Sid)
    requires Shaped(st) && x in Entries(st, s)
    ensures Next(st, s, x) == if (s, x) in st.links then Some(x) else Entries(st, s)[x].via
  {
    var net := NetOf(st, s);
    assert AllUplinked(net) && LocatedAt(net, st.links, s);
    assert Uplinked(net, x);
    if (s, x) in st.links {
      NextToLink(net.servers, net.links, x);
    } else {
      NextToUplink(net.servers, net.links, x, net.servers[x].via.value);
    }
  }

  /** Following next hops from server to server, x is reached from s in n hops. */
  ghost predicate Arrives(st: State, s: Sid, x: Sid, n: nat)
    decreases n
  {
    if n == 0 then s == x
    else s != x && x in Entries(st, s) && Next(st, s, x).Some? && Arrives(st, Next(st, s, x).value, x, n - 1)
  }

  ghost predicate Routes(st: State, s: Sid, x: Sid) {
    exists n: nat :: Arrives(st, s, x, n)
  }

  /** Every server reaches all that it has in its topology. */
  ghost predicate Routable(st: State) {
    forall s, x :: x in Entries(st, s) ==> Routes(st, s, x)
  }

  lemma {:induction false} ArrivesOnce(st: State, s: Sid, x: Sid, m: nat, n: nat)
    requires Arrives(st, s, x, m) && Arrives(st, s, x, n)
    ensures m == n
    decreases n
  {
    if m > 0 && n > 0 {
      ArrivesOnce(st, Next(st, s, x).value, x, m - 1, n - 1);
    }
  }

  lemma FartherIsOther(st: State, u: Sid, v: Sid, x: Sid, m: nat, n: nat)
    requires Arrives(st, u, x, m) && Arrives(st, v, x, n) && m != n
    ensures u != v
  {
    if u == v {
      ArrivesOnce(st, u, x, m, n);
    }
  }

  lemma NextIsLinked(st: State, s: Sid, x: Sid)
    requires Located(st) && Next(st, s, x).Some?
    ensures (s, Next(st, s, x).value) in st.links
  {
    NextHopMeaning(NetOf(st, s).servers, NetOf(st, s).links, x);
    assert LocatedAt(NetOf(st, s), st.links, s);
  }

  /** The servers on the way are each the next hop of the one before. */
  ghost predicate Follows(st: State, x: Sid, trail: seq<Sid>) {
    forall i :: 0 <= i < |trail| - 1 ==> Next(st, trail[i], x) == Some(trail[i + 1])
  }

  /** Each server on the way is one hop nearer than the one before. */
  ghost predicate Nears(st: State, x: Sid, trail: seq<Sid>) {
    forall i :: 0 <= i < |trail| ==> Arrives(st, trail[i], x, |trail| - 1 - i)
  }

  lemma NearsAlso(st: State, s: Sid, x: Sid, rest: seq<Sid>)
    requires rest != [] && Nears(st, x, rest) && Arrives(st, s, x, |rest|)
    ensures Nears(st, x, [s] + rest)
  {
    var trail := [s] + rest;
    forall i | 0 <= i < |trail|
      ensures Arrives(st, trail[i], x, |trail| - 1 - i)
    {
      assert i > 0 ==> trail[i] == rest[i - 1];
    }
  }

  lemma {:induction false} TrailOf(st: State, s: Sid, x: Sid, n: nat) returns (trail: seq<Sid>)
    requires Arrives(st, s, x, n)
    ensures |trail| == n + 1 && trail[0] == s && trail[n] == x
    ensures Nears(st, x, trail) && Follows(st, x, trail)
    decreases n
  {
    if n == 0 {
      trail := [s];
    } else {
      var rest := TrailOf(st, Next(st, s, x).value, x, n - 1);
      NearsAlso(st, s, x, rest);
      trail := [s] + rest;
    }
  }

  lemma NearsIsDistinct(st: State, x: Sid, trail: seq<Sid>)
    requires Nears(st, x, trail)
    ensures Distinct(trail)
  {
    forall i, j | 0 <= i < j < |trail|
      ensures trail[i] != trail[j]
    {
      FartherIsOther(st, trail[i], trail[j], x, |trail| - 1 - i, |trail| - 1 - j);
    }
  }

  /** Where next hops arrive at all, the way goes over links and passes no server twice. */
  lemma RouteIsPath(st: State, s: Sid, x: Sid) returns (trail: seq<Sid>)
    requires Located(st) && Routes(st, s, x)
    ensures trail != [] && trail[0] == s && trail[|trail| - 1] == x && Distinct(trail) && Follows(st, x, trail)
    ensures forall i :: 0 <= i < |trail| - 1 ==> (trail[i], trail[i + 1]) in st.links
  {
    var n: nat :| Arrives(st, s, x, n);
    trail := TrailOf(st, s, x, n);
    NearsIsDistinct(st, x, trail);
    forall i | 0 <= i < |trail| - 1
      ensures (trail[i], trail[i + 1]) in st.links
    {
      NextIsLinked(st, trail[i], x);
    }
  }

  lemma RoutesOn(st: State, s: Sid, x: Sid, p: Sid)
    requires s != x && x in Entries(st, s) && Next(st, s, x) == Some(p) && Routes(st, p, x)
    ensures Routes(st, s, x)
  {
    var n: nat :| Arrives(st, p, x, n);
    assert Arrives(st, s, x, n + 1);
  }

  lemma RoutesToPeer(st: State, s: Sid, x: Sid)
    requires Shaped(st) && s != x && x in Entries(st, s) && (s, x) in st.links
    ensures Routes(st, s, x)
  {
    NextIs(st, s, x);
    assert Arrives(st, x, x, 0);
    RoutesOn(st, s, x, x);
  }

  // ---------- When a link keeps the routes ----------

  /** A server that both ends know and neither is linked to. */
  ghost predicate Stranger(st: State, a: Sid, b: Sid, x: Sid) {
    x in Entries(st, a) && x in Entries(st, b) && (a, x) !in st.links && (b, x) !in st.links
  }

  lemma LinkSwaps(st: State, names: Names, a: Sid, b: Sid)
    requires a != b
    ensures Link(st, names, a, b) == Link(st, names, b, a)
  {
  }

  lemma NextAfter(st: State, names: Names, a: Sid, b: Sid, x: Sid)
    requires a != b && Shaped(st) && !Refused(st, a, b) && x in Entries(Link(st, names, a, b), a)
    ensures Next(Link(st, names, a, b), a, x)
         == if x == b || (a, x) in st.links then Some(x)
            else if x in Entries(st, b) then Some(b)
            else Next(st, a, x)
    ensures x == b || x in Entries(st, a) || x in Entries(st, b)
  {
    LinkShaped(st, names, a, b);
    NextIs(Link(st, names, a, b), a, x);
    NetAfter(st, names, a, b, a);
    EntryAfter(NetOf(st, a), NetOf(st, b), names, x);
    if x in Entries(st, a) {
      NextIs(st, a, x);
    }
  }

  lemma KnowsMore(st: State, names: Names, a: Sid, b: Sid, s: Sid)
    requires a != b && Shaped(st)
    ensures Entries(st, s).Keys <= Entries(Link(st, names, a, b), s).Keys
  {
    if !Refused(st, a, b) {
      NetAfter(st, names, a, b, s);
      EntryAfter(NetOf(st, a), NetOf(st, b), names, s);
      EntryAfter(NetOf(st, b), NetOf(st, a), names, s);
    }
  }

  /** Whatever `s` does with messages for x, it goes on doing. */
  ghost predicate SameNext(st: State, after: State, s: Sid, x: Sid) {
    x in Entries(st, s) ==> x in Entries(after, s) && Next(after, s, x) == Next(st, s, x)
  }

  lemma {:induction false} SameWay(st: State, after: State, s: Sid, x: Sid, n: nat)
    requires Arrives(st, s, x, n) && forall v :: SameNext(st, after, v, x)
    ensures Arrives(after, s, x, n)
    decreases n
  {
    if n > 0 {
      SameWay(st, after, Next(st, s, x).value, x, n - 1);
      assert SameNext(st, after, s, x);
    }
  }

  lemma NextElsewhere(st: State, names: Names, a: Sid, b: Sid, s: Sid, x: Sid)
    requires a != b && Shaped(st) && !Refused(st, a, b) && s != a && s != b
    ensures SameNext(st, Link(st, names, a, b), s, x)
  {
    NetAfter(st, names, a, b, s);
  }

  lemma NextToUnshared(st: State, names: Names, a: Sid, b: Sid, x: Sid)
    requires a != b && Shaped(st) && !Refused(st, a, b) && x !in Entries(st, b) && x != b
    ensures SameNext(st, Link(st, names, a, b), a, x)
  {
    if x in Entries(st, a) {
      KnowsMore(st, names, a, b, a);
      NextAfter(st, names, a, b, x);
      NextIs(st, a, x);
    }
  }

  /** The way to a server that b does not know stays as it is. */
  lemma OneSided(st: State, names: Names, a: Sid, b: Sid, s: Sid, x: Sid, n: nat)
    requires a != b && Shaped(st) && !Refused(st, a, b) && x !in Entries(st, b) && x != b && Arrives(st, s, x, n)
    ensures Arrives(Link(st, names, a, b), s, x, n)
  {
    var after := Link(st, names, a, b);
    forall v
      ensures SameNext(st, after, v, x)
    {
      if v == a {
        NextToUnshared(st, names, a, b, x);
      } else if v != b {
        NextElsewhere(st, names, a, b, v, x);
      }
    }
    SameWay(st, after, s, x, n);
  }

  lemma EndRoutes(st: State, names: Names, a: Sid, b: Sid, x: Sid)
    requires a != b && Shaped(st) && !Refused(st, a, b) && Routable(st) && !Stranger(st, a, b, x)
    requires x in Entries(Link(st, names, a, b), a)
    ensures Routes(Link(st, names, a, b), a, x)
  {
    var after := Link(st, names, a, b);
    LinkShaped(st, names, a, b);
    assert AllUplinked(NetOf(after, a)) && LocatedAt(NetOf(after, a), after.links, a);
    NextAfter(st, names, a, b, x);
    if x == b || (a, x) in st.links {
      RoutesToPeer(after, a, x);
    } else if x in Entries(st, b) {
      OtherEndRoutes(st, names, a, b, x);
      RoutesOn(after, a, x, b);
    } else {
      var n: nat :| Arrives(st, a, x, n);
      OneSided(st, names, a, b, a, x, n);
    }
  }

  lemma OtherEndRoutes(st: State, names: Names, a: Sid, b: Sid, x: Sid)
    requires a != b && Shaped(st) && !Refused(st, a, b) && Routable(st)
    requires x in Entries(st, b) && ((b, x) in st.links || x !in Entries(st, a))
    ensures Routes(Link(st, names, a, b), b, x)
  {
    LinkSwaps(st, names, a, b);
    if (b, x) in st.links {
      LinkShaped(st, names, a, b);
      KnowsMore(st, names, a, b, b);
      assert AllUplinked(NetOf(st, b)) && LocatedAt(NetOf(st, b), st.links, b);
      RoutesToPeer(Link(st, names, a, b), b, x);
    } else {
      var n: nat :| Arrives(st, b, x, n);
      OneSided(st, names, b, a, b, x, n);
    }
  }

  /** From elsewhere the way is the old one up to the first of the `ends` that it meets. */
  lemma {:induction false} ElsewhereRoutes(st: State, after: State, ends: set<Sid>, s: Sid, x: Sid, n: nat)
    requires Arrives(st, s, x, n)
    requires forall v :: v !in ends ==> SameNext(st, after, v, x)
    requires forall e :: e in ends && x in Entries(st, e) ==> Routes(after, e, x)
    ensures Routes(after, s, x)
    decreases n
  {
    if n == 0 {
      assert Arrives(after, s, x, 0);
    } else if s !in ends {
      ElsewhereRoutes(st, after, ends, Next(st, s, x).value, x, n - 1);
      assert SameNext(st, after, s, x);
      RoutesOn(after, s, x, Next(st, s, x).value);
    }
  }

  /** Each end sends what is for the stranger to the other. */
  lemma {:induction false} SentBackAndForth(st: State, a: Sid, b: Sid, x: Sid, n: nat)
    requires Next(st, a, x) == Some(b) && Next(st, b, x) == Some(a) && a != x && b != x
    ensures !Arrives(st, a, x, n) && !Arrives(st, b, x, n)
  {
    if n > 0 {
      SentBackAndForth(st, a, b, x, n - 1);
    }
  }

  lemma StrangerIsLost(st: State, names: Names, a: Sid, b: Sid, x: Sid)
    requires a != b && Shaped(st) && !Refused(st, a, b) && Stranger(st, a, b, x)
    ensures var after := Link(st, names, a, b);
            && x in Entries(after, a) && x in Entries(after, b)
            && Next(after, a, x) == Some(b) && Next(after, b, x) == Some(a)
            && !Routes(after, a, x) && !Routes(after, b, x)
  {
    var after := Link(st, names, a, b);
    KnowsMore(st, names, a, b, a);
    KnowsMore(st, names, a, b, b);
    NextAfter(st, names, a, b, x);
    LinkSwaps(st, names, a, b);
    NextAfter(st, names, b, a, x);
    assert AllUplinked(NetOf(st, a)) && AllUplinked(NetOf(st, b));
    assert LocatedAt(NetOf(st, a), st.links, a) && LocatedAt(NetOf(st, b), st.links, b);
    forall n: nat
      ensures !Arrives(after, a, x, n) && !Arrives(after, b, x, n)
    {
      SentBackAndForth(after, a, b, x, n);
    }
  }

  lemma BothEndsRoute(st: State, names: Names, a: Sid, b: Sid, e: Sid, x: Sid)
    requires a != b && Shaped(st) && !Refused(st, a, b) && Routable(st) && !Stranger(st, a, b, x)
    requires e in {a, b} && x in Entries(Link(st, names, a, b), e)
    ensures Routes(Link(st, names, a, b), e, x)
  {
    if e == a {
      EndRoutes(st, names, a, b, x);
    } else {
      LinkSwaps(st, names, a, b);
      EndRoutes(st, names, b, a, x);
    }
  }

  lemma ElsewhereSame(st: State, names: Names, a: Sid, b: Sid, x: Sid)
    requires a != b && Shaped(st) && !Refused(st, a, b)
    ensures forall v :: v !in {a, b} ==> SameNext(st, Link(st, names, a, b), v, x)
  {
    forall v | v !in {a, b}
      ensures SameNext(st, Link(st, names, a, b), v, x)
    {
      NextElsewhere(st, names, a, b, v, x);
    }
  }

  lemma EndsStillRoute(st: State, names: Names, a: Sid, b: Sid, x: Sid)
    requires a != b && Shaped(st) && !Refused(st, a, b) && Routable(st) && !Stranger(st, a, b, x)
    ensures forall e :: e in {a, b} && x in Entries(st, e) ==> Routes(Link(st, names, a, b), e, x)
  {
    forall e | e in {a, b} && x in Entries(st, e)
      ensures Routes(Link(st, names, a, b), e, x)
    {
      KnowsMore(st, names, a, b, e);
      BothEndsRoute(st, names, a, b, e, x);
    }
  }

  lemma OthersRoute(st: State, names: Names, a: Sid, b: Sid, s: Sid, x: Sid)
    requires a != b && Shaped(st) && !Refused(st, a, b) && Routable(st) && !Stranger(st, a, b, x)
    requires s !in {a, b} && x in Entries(st, s)
    ensures Routes(Link(st, names, a, b), s, x)
  {
    EndsStillRoute(st, names, a, b, x);
    ElsewhereSame(st, names, a, b, x);
    var n: nat :| Arrives(st, s, x, n);
    ElsewhereRoutes(st, Link(st, names, a, b), {a, b}, s, x, n);
  }

  lemma CalmLinkRoutes(st: State, names: Names, a: Sid, b: Sid, s: Sid, x: Sid)
    requires a != b && Shaped(st) && !Refused(st, a, b) && Routable(st) && !Stranger(st, a, b, x)
    requires x in Entries(Link(st, names, a, b), s)
    ensures Routes(Link(st, names, a, b), s, x)
  {
    if s in {a, b} {
      BothEndsRoute(st, names, a, b, s, x);
    } else {
      NetAfter(st, names, a, b, s);
      OthersRoute(st, names, a, b, s, x);
    }
  }

  /** An accepted link keeps all routes, exactly when the ends share no server that is a peer of neither. */
  lemma LinkKeepsRoutesIff(st: State, names: Names, a: Sid, b: Sid)
    requires a != b && Shaped(st) && !Refused(st, a, b) && Routable(st)
    ensures Routable(Link(st, names, a, b)) <==> forall x :: !Stranger(st, a, b, x)
  {
    if x :| Stranger(st, a, b, x) {
      StrangerIsLost(st, names, a, b, x);
    } else {
      forall s, x | x in Entries(Link(st, names, a, b), s)
        ensures Routes(Link(st, names, a, b), s, x)
      {
        CalmLinkRoutes(st, names, a, b, s, x);
      }
    }
  }
}
