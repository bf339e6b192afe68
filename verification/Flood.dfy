/**
 Flooding a message over the links between servers, under every delivery order.

 KILL and ENCAP are handed to all peers except the one they came from (`broadcast`, src/sync/manager.rs, as called from
 src/handlers/server). The observer hooks for user and channel updates send local changes to the direct peers and relay
 nothing that came from a peer (src/sync/observer.rs). `Relay` selects between the two rules. QUIT, which follows a
 third, is the subject of module Quit; SERVER is passed on like KILL, but only for a SID that was not known
 (`PropagateServer` in module Sync).
 */
module Flood {
  import opened Common
  import opened Graph

  type Hop = Arc  // a message on the wire, from the first server to the second

  datatype Relay = SplitHorizon | LocalOnly

  /** The peers that a server sends to, given the peer that the message came from (none for a local change). */
  function Forward(relay: Relay, peers: set<Sid>, source: Option<Sid>): set<Sid> {
    match source
    case None => peers
    case Some(src) => if relay.SplitHorizon? then peers - {src} else {}
  }

  // ---------- Runs ----------

  /** Who has been handed the message, in order, and what is still on the wire. */
  datatype State = State(delivered: seq<Sid>, flying: multiset<Hop>)

  ghost function Sent(from: Sid, to: set<Sid>): multiset<Hop> {
    multiset(set c | c in to :: (from, c))
  }

  ghost function Start(t: Web, relay: Relay, origin: Sid): State {
    State([], Sent(origin, Forward(relay, Peers(t, origin), None)))
  }

  /**
   One delivery: the receiver takes the message off the wire and forwards it. A hop that is not on the wire delivers
   nothing, so every sequence of hops is a schedule.
   */
  ghost function Deliver(t: Web, relay: Relay, st: State, h: Hop): State {
    if h !in st.flying then st
    else
      State(st.delivered + [h.1], st.flying - multiset{h} + Sent(h.1, Forward(relay, Peers(t, h.1), Some(h.0))))
  }

  ghost function After(t: Web, relay: Relay, origin: Sid, schedule: seq<Hop>): State {
    if schedule == [] then Start(t, relay, origin)
    else Deliver(t, relay, After(t, relay, origin, schedule[..|schedule| - 1]), schedule[|schedule| - 1])
  }

  lemma SentMembers(from: Sid, to: set<Sid>)
    ensures forall h :: h in Sent(from, to) <==> h.0 == from && h.1 in to
    ensures forall h :: Sent(from, to)[h] <= 1
  {
  }

  // ---------- Split horizon ----------

  ghost predicate Informed(origin: Sid, st: State, x: Sid) {
    x == origin || x in st.delivered
  }

  /** The message on the wire at `h` is headed for the part of the tree that holds `x`. */
  ghost predicate Aimed(t: Web, st: State, h: Hop, x: Sid)
    requires IsTree(t)
  {
    h in st.flying && h in t.links && x in Side(t, h.0, h.1)
  }

  ghost predicate Log(t: Web, origin: Sid, st: State) {
    Distinct(st.delivered) && origin !in st.delivered && forall x :: x in st.delivered ==> x in t.nodes
  }

  /** Each message on the wire is there once and follows a link. */
  ghost predicate Wired(t: Web, st: State) {
    forall h :: h in st.flying ==> st.flying[h] == 1 && h in t.links
  }

  /** Messages on the wire lead away from the informed servers, into separate parts that together hold all the others. */
  ghost predicate Frontier(t: Web, origin: Sid, st: State)
    requires IsTree(t)
  {
    && (forall h, x :: Aimed(t, st, h, x) ==> !Informed(origin, st, x))
    && (forall x :: x in t.nodes && !Informed(origin, st, x) ==> exists h :: Aimed(t, st, h, x))
    && (forall g, h, x :: Aimed(t, st, g, x) && Aimed(t, st, h, x) ==> g == h)
  }

  lemma StartAway(t: Web, origin: Sid, h: Hop, x: Sid)
    requires IsTree(t) && origin in t.nodes && Aimed(t, Start(t, SplitHorizon, origin), h, x)
    ensures h.0 == origin && h.1 in Peers(t, origin) && x != origin
  {
    SentMembers(origin, Peers(t, origin));
    SideExcludesNear(t, h.0, h.1);
  }

  lemma StartCovers(t: Web, origin: Sid, x: Sid)
    requires IsTree(t) && origin in t.nodes && x in t.nodes && x != origin
    ensures exists h :: Aimed(t, Start(t, SplitHorizon, origin), h, x)
  {
    SentMembers(origin, Peers(t, origin));
    SidesCover(t, origin, x);
    var c :| c in Peers(t, origin) && x in Side(t, origin, c);
    assert Aimed(t, Start(t, SplitHorizon, origin), (origin, c), x);
  }

  lemma StartSeparate(t: Web, origin: Sid, g: Hop, h: Hop, x: Sid)
    requires IsTree(t) && origin in t.nodes
    requires Aimed(t, Start(t, SplitHorizon, origin), g, x) && Aimed(t, Start(t, SplitHorizon, origin), h, x)
    ensures g == h
  {
    StartAway(t, origin, g, x);
    StartAway(t, origin, h, x);
    if g.1 != h.1 {
      SidesDisjoint(t, origin, g.1, h.1, x);
    }
  }

  lemma FrontierStart(t: Web, origin: Sid)
    requires IsTree(t) && origin in t.nodes
    ensures Frontier(t, origin, Start(t, SplitHorizon, origin))
  {
    var st := Start(t, SplitHorizon, origin);
    forall h, x | Aimed(t, st, h, x)
      ensures x != origin
    {
      StartAway(t, origin, h, x);
    }
    forall x | x in t.nodes && x != origin
      ensures exists h :: Aimed(t, st, h, x)
    {
      StartCovers(t, origin, x);
    }
    forall g, h, x | Aimed(t, st, g, x) && Aimed(t, st, h, x)
      ensures g == h
    {
      StartSeparate(t, origin, g, h, x);
    }
  }

  /** What is on the wire after a delivery: the rest of what was, and what the receiver sends on. */
  lemma WireAfter(t: Web, st: State, h: Hop, g: Hop)
    requires IsTree(t) && Wired(t, st) && h in st.flying
    ensures g in Deliver(t, SplitHorizon, st, h).flying
        <==> (g in st.flying && g != h) || (g.0 == h.1 && g.1 in Peers(t, h.1) - {h.0})
  {
    SentMembers(h.1, Peers(t, h.1) - {h.0});
  }

  /** Delivering divides what the delivered message was headed for, and leaves every other aim alone. */
  lemma AimAfter(t: Web, st: State, h: Hop, g: Hop, x: Sid)
    requires IsTree(t) && Wired(t, st) && h in st.flying
    ensures Aimed(t, Deliver(t, SplitHorizon, st, h), g, x)
        <==> (Aimed(t, st, g, x) && g != h) || (g.0 == h.1 && g.1 in Peers(t, h.1) - {h.0} && x in Side(t, g.0, g.1))
  {
    WireAfter(t, st, h, g);
  }

  /** What the receiver sends on is headed only for servers the delivered message was headed for. */
  lemma SentOnIsAimed(t: Web, st: State, h: Hop, g: Hop, x: Sid)
    requires IsTree(t) && h in st.flying && h in t.links
    requires g.0 == h.1 && g.1 in Peers(t, h.1) - {h.0} && x in Side(t, g.0, g.1)
    ensures Aimed(t, st, h, x) && x != h.1
  {
    SideDivides(t, h.0, h.1, x);
    SideExcludesNear(t, g.0, g.1);
  }

  lemma FrontierAway(t: Web, origin: Sid, st: State, h: Hop, g: Hop, x: Sid)
    requires IsTree(t) && Wired(t, st) && Frontier(t, origin, st) && h in st.flying
    requires Aimed(t, Deliver(t, SplitHorizon, st, h), g, x)
    ensures !Informed(origin, Deliver(t, SplitHorizon, st, h), x)
  {
    AimAfter(t, st, h, g, x);
    SideExcludesNear(t, h.0, h.1);
    if Aimed(t, st, g, x) && g != h {
      assert x != h.1 by {
        assert Aimed(t, st, h, h.1);
      }
    } else {
      SentOnIsAimed(t, st, h, g, x);
    }
  }

  lemma FrontierCovers(t: Web, origin: Sid, st: State, h: Hop, x: Sid)
    requires IsTree(t) && Wired(t, st) && Frontier(t, origin, st) && h in st.flying
    requires x in t.nodes && !Informed(origin, Deliver(t, SplitHorizon, st, h), x)
    ensures exists g :: Aimed(t, Deliver(t, SplitHorizon, st, h), g, x)
  {
    assert h.1 in Deliver(t, SplitHorizon, st, h).delivered;
    var g :| Aimed(t, st, g, x);
    if g == h {
      SideDivides(t, h.0, h.1, x);
      var c :| c in Peers(t, h.1) - {h.0} && x in Side(t, h.1, c);
      AimAfter(t, st, h, (h.1, c), x);
    } else {
      AimAfter(t, st, h, g, x);
    }
  }

  lemma FrontierSeparate(t: Web, origin: Sid, st: State, h: Hop, f: Hop, g: Hop, x: Sid)
    requires IsTree(t) && Wired(t, st) && Frontier(t, origin, st) && h in st.flying
    requires Aimed(t, Deliver(t, SplitHorizon, st, h), f, x)
    requires Aimed(t, Deliver(t, SplitHorizon, st, h), g, x)
    ensures f == g
  {
    AimAfter(t, st, h, f, x);
    AimAfter(t, st, h, g, x);
    var fOld := Aimed(t, st, f, x) && f != h;
    var gOld := Aimed(t, st, g, x) && g != h;
    if !fOld { SentOnIsAimed(t, st, h, f, x); }
    if !gOld { SentOnIsAimed(t, st, h, g, x); }
    if !fOld && !gOld && f.1 != g.1 {
      SidesDisjoint(t, h.1, f.1, g.1, x);
    }
  }

  lemma FrontierStep(t: Web, origin: Sid, st: State, h: Hop)
    requires IsTree(t) && Wired(t, st) && Frontier(t, origin, st) && h in st.flying
    ensures Frontier(t, origin, Deliver(t, SplitHorizon, st, h))
  {
    var next := Deliver(t, SplitHorizon, st, h);
    forall g, x | Aimed(t, next, g, x)
      ensures !Informed(origin, next, x)
    {
      FrontierAway(t, origin, st, h, g, x);
    }
    forall x | x in t.nodes && !Informed(origin, next, x)
      ensures exists g :: Aimed(t, next, g, x)
    {
      FrontierCovers(t, origin, st, h, x);
    }
    forall f, g, x | Aimed(t, next, f, x) && Aimed(t, next, g, x)
      ensures f == g
    {
      FrontierSeparate(t, origin, st, h, f, g, x);
    }
  }

  /** The receiver has not been handed the message before, and what it sends on is not on the wire already. */
  lemma LogStep(t: Web, origin: Sid, st: State, h: Hop)
    requires IsTree(t) && Wired(t, st) && Frontier(t, origin, st) && Log(t, origin, st) && h in st.flying
    ensures Log(t, origin, Deliver(t, SplitHorizon, st, h))
    ensures Wired(t, Deliver(t, SplitHorizon, st, h))
  {
    SideExcludesNear(t, h.0, h.1);
    assert Aimed(t, st, h, h.1);
    var onward := Sent(h.1, Peers(t, h.1) - {h.0});
    SentMembers(h.1, Peers(t, h.1) - {h.0});
    forall g | g in onward
      ensures g !in st.flying || g == h
    {
      if g in st.flying && g != h {
        SideExcludesNear(t, g.0, g.1);
        SentOnIsAimed(t, st, h, g, g.1);
        assert Aimed(t, st, g, g.1);
      }
    }
  }

  lemma {:induction false} RunInvariant(t: Web, origin: Sid, schedule: seq<Hop>)
    requires IsTree(t) && origin in t.nodes
    ensures var st := After(t, SplitHorizon, origin, schedule);
            Log(t, origin, st) && Wired(t, st) && Frontier(t, origin, st)
  {
    if schedule == [] {
      FrontierStart(t, origin);
      SentMembers(origin, Peers(t, origin));
    } else {
      var h := schedule[|schedule| - 1];
      var st := After(t, SplitHorizon, origin, schedule[..|schedule| - 1]);
      RunInvariant(t, origin, schedule[..|schedule| - 1]);
      if h in st.flying {
        FrontierStep(t, origin, st, h);
        LogStep(t, origin, st, h);
      }
    }
  }

  lemma SilentIffAllInformed(t: Web, origin: Sid, st: State)
    requires IsTree(t) && origin in t.nodes && Log(t, origin, st) && Wired(t, st) && Frontier(t, origin, st)
    ensures Elements(st.delivered) <= t.nodes - {origin}
    ensures st.flying == multiset{} <==> Elements(st.delivered) == t.nodes - {origin}
  {
    if st.flying == multiset{} {
      forall x | x in t.nodes - {origin}
        ensures x in st.delivered
      {
        assert forall h :: !Aimed(t, st, h, x);
      }
    } else {
      var h :| h in st.flying;
      SideExcludesNear(t, h.0, h.1);
      assert Aimed(t, st, h, h.1);
      assert h.1 in t.nodes - {origin} && h.1 !in Elements(st.delivered);
    }
  }

  /**
   No server has been handed the message twice and the origin has not got it back; there were at most n - 1 deliveries;
   and the wire is silent exactly after n - 1 of them, when every server but the origin has been handed the message.
   */
  ghost predicate Orderly(t: Web, origin: Sid, st: State) {
    && Distinct(st.delivered)
    && origin !in st.delivered
    && |st.delivered| <= |t.nodes| - 1
    && (st.flying == multiset{} <==> |st.delivered| == |t.nodes| - 1)
    && (st.flying == multiset{} <==> Elements(st.delivered) == t.nodes - {origin})
  }

  /** Flooding with split horizon over a tree is orderly in every delivery order. */
  lemma FloodDeliversExactlyOnce(t: Web, origin: Sid, schedule: seq<Hop>)
    requires IsTree(t) && origin in t.nodes
    ensures Orderly(t, origin, After(t, SplitHorizon, origin, schedule))
  {
    var st := After(t, SplitHorizon, origin, schedule);
    RunInvariant(t, origin, schedule);
    SilentIffAllInformed(t, origin, st);
    DistinctCount(st.delivered);
    SubsetCount(Elements(st.delivered), t.nodes - {origin});
  }

  // ---------- Cycles ----------

  /** The shortest walk from x to y has n steps. */
  ghost predicate Distance(links: Links, x: Sid, y: Sid, n: nat) {
    Reach(links, x, y, n) && forall m: nat :: m < n ==> !Reach(links, x, y, m)
  }

  lemma {:induction false} DistanceExists(links: Links, x: Sid, y: Sid, n: nat)
    requires Reach(links, x, y, n)
    ensures exists m: nat :: Distance(links, x, y, m)
    decreases n
  {
    if m: nat :| m < n && Reach(links, x, y, m) {
      DistanceExists(links, x, y, m);
    } else {
      assert Distance(links, x, y, n);
    }
  }

  /** After the schedule, y has been handed the message by x and is about to hand it to all its other peers. */
  ghost predicate HandedBy(t: Web, origin: Sid, schedule: seq<Hop>, x: Sid, y: Sid) {
    var st := After(t, SplitHorizon, origin, schedule);
    y in st.delivered && forall z :: z in Peers(t, y) - {x} ==> (y, z) in st.flying
  }

  lemma HandOn(t: Web, origin: Sid, schedule: seq<Hop>, x: Sid, y: Sid)
    requires (x, y) in After(t, SplitHorizon, origin, schedule).flying
    ensures HandedBy(t, origin, schedule + [(x, y)], x, y)
  {
    assert (schedule + [(x, y)])[..|schedule|] == schedule;
    SentMembers(y, Peers(t, y) - {x});
  }

  /** On a shortest walk without the link from a to b, the message can be handed on from b at every step. */
  lemma {:induction false} FollowWalk(t: Web, a: Sid, b: Sid, y: Sid, n: nat) returns (schedule: seq<Hop>, x: Sid)
    requires Wellformed(t) && (a, b) in t.links && Distance(Cut(t.links, a, b), b, y, n)
    ensures HandedBy(t, a, schedule, x, y)
    ensures if n == 0 then x == a else Distance(Cut(t.links, a, b), b, x, n - 1)
    decreases n
  {
    var cut := Cut(t.links, a, b);
    if n == 0 {
      SentMembers(a, Peers(t, a));
      HandOn(t, a, [], a, b);
      schedule, x := [] + [(a, b)], a;
    } else {
      var z :| Reach(cut, b, z, n - 1) && (z, y) in cut;
      forall m: nat | m < n - 1
        ensures !Reach(cut, b, z, m)
      {
        if Reach(cut, b, z, m) {
          assert Reach(cut, b, y, m + 1);
        }
      }
      var before, w := FollowWalk(t, a, b, z, n - 1);
      assert y != w;
      HandOn(t, a, before, z, y);
      schedule, x := before + [(z, y)], z;
    }
  }

  /** A link that is not a bridge lies on a cycle, and on a cycle the message can come back to where it started. */
  lemma CycleComesBack(t: Web, a: Sid, b: Sid) returns (schedule: seq<Hop>)
    requires Wellformed(t) && (a, b) in t.links && !Bridge(t.links, a, b)
    ensures a in After(t, SplitHorizon, a, schedule).delivered
  {
    var cut := Cut(t.links, a, b);
    CutSymmetric(t.links, a, b);
    Reverse(cut, a, b);
    var n: nat :| Reach(cut, b, a, n);
    DistanceExists(cut, b, a, n);
    var m: nat :| Distance(cut, b, a, m);
    var x;
    schedule, x := FollowWalk(t, a, b, a, m);
  }

  /** Flooding over connected servers is orderly, from every origin and in every order, exactly when they form a tree. */
  lemma FloodIsOrderlyIff(t: Web)
    requires Wellformed(t) && AllConnected(t)
    ensures (forall origin, schedule :: origin in t.nodes ==> Orderly(t, origin, After(t, SplitHorizon, origin, schedule)))
        <==> IsTree(t)
  {
    if IsTree(t) {
      forall origin, schedule | origin in t.nodes
        ensures Orderly(t, origin, After(t, SplitHorizon, origin, schedule))
      {
        FloodDeliversExactlyOnce(t, origin, schedule);
      }
    } else {
      var a, b :| (a, b) in t.links && !Bridge(t.links, a, b);
      var schedule := CycleComesBack(t, a, b);
      assert !Orderly(t, a, After(t, SplitHorizon, a, schedule));
    }
  }

  // ---------- Hooks that do not relay ----------

  /** With hooks that never relay, exactly the direct peers of the origin are handed the message, whatever the order. */
  lemma {:induction false} LocalOnlyReachesPeers(t: Web, origin: Sid, schedule: seq<Hop>)
    requires IsTree(t) && origin in t.nodes
    ensures var st := After(t, LocalOnly, origin, schedule);
            && (forall x :: st.flying[(origin, x)] + multiset(st.delivered)[x] == if x in Peers(t, origin) then 1 else 0)
            && (forall h :: h in st.flying ==> h.0 == origin)
  {
    if schedule == [] {
      SentMembers(origin, Peers(t, origin));
    } else {
      var h := schedule[|schedule| - 1];
      var st := After(t, LocalOnly, origin, schedule[..|schedule| - 1]);
      LocalOnlyReachesPeers(t, origin, schedule[..|schedule| - 1]);
      if h in st.flying {
        assert Sent(h.1, {}) == multiset{};
        assert After(t, LocalOnly, origin, schedule).flying == st.flying - multiset{h};
      }
    }
  }

  /** A change announced without relaying reaches every server exactly when every other server is a direct peer. */
  lemma LocalOnlyReachesAllIff(t: Web, origin: Sid, schedule: seq<Hop>)
    requires IsTree(t) && origin in t.nodes
    requires After(t, LocalOnly, origin, schedule).flying == multiset{}
    ensures Elements(After(t, LocalOnly, origin, schedule).delivered) == t.nodes - {origin}
        <==> Peers(t, origin) == t.nodes - {origin}
  {
    var st := After(t, LocalOnly, origin, schedule);
    LocalOnlyReachesPeers(t, origin, schedule);
    forall x
      ensures x in Elements(st.delivered) <==> x in Peers(t, origin)
    {
      assert st.flying[(origin, x)] == 0;
      assert x in st.delivered <==> x in multiset(st.delivered);
    }
  }
}
