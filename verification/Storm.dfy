/**
 Split horizon on a network that is not a tree: the wire never falls silent.

 A server that relays a KILL keeps no record of having seen it (src/handlers/server/kill.rs), so a message that gets onto
 a cycle goes round for ever. What keeps it going is that a hop with a cycle ahead of it is always followed by another.
 */
module Storm {
  import opened Common
  import opened Graph
  import opened Flood

  /** A link that lies on a cycle, with one end connected to b. */
  ghost predicate CycleFrom(links: Links, rest: Links, b: Sid, c: Sid, d: Sid) {
    (c, d) in links && !Bridge(links, c, d) && Connected(rest, b, c)
  }

  /** A message from a to b has a cycle ahead: the link is on one, or one can be got to without going back over it. */
  ghost predicate Alive(links: Links, a: Sid, b: Sid) {
    && (a, b) in links
    && (!Bridge(links, a, b) || exists c, d :: CycleFrom(links, Cut(links, a, b), b, c, d))
  }

  lemma CutWellformed(w: Web, a: Sid, b: Sid)
    requires Wellformed(w)
    ensures Wellformed(Web(w.nodes, Cut(w.links, a, b)))
  {
    CutSymmetric(w.links, a, b);
  }

  /** The way round the cycle leads from b over another peer back to a. */
  lemma GoesRound(w: Web, a: Sid, b: Sid) returns (x: Sid)
    requires Wellformed(w) && (a, b) in w.links && !Bridge(w.links, a, b)
    ensures x != a && (b, x) in w.links && !Bridge(w.links, b, x)
  {
    var cut := Cut(w.links, a, b);
    CutWellformed(w, a, b);
    Reverse(cut, a, b);
    var n: nat :| Reach(cut, b, a, n);
    ReachCover(Web(w.nodes, cut), b, a, n);
    x :| (b, x) in cut && Connected(Avoiding(cut, b), x, a);
    var rest := Cut(w.links, b, x);
    More(Avoiding(cut, b), rest, x, a);
    StepOn(rest, x, a, b);
    CutSymmetric(w.links, b, x);
    Reverse(rest, x, b);
  }

  /** One step nearer to a cycle that is not behind. */
  lemma GoesNearer(w: Web, links: Links, b: Sid, c: Sid, d: Sid) returns (x: Sid)
    requires Wellformed(w) && Wellformed(Web(w.nodes, links)) && links <= w.links
    requires CycleFrom(w.links, links, b, c, d) && c != b
    ensures (b, x) in links && Alive(w.links, b, x)
  {
    var n: nat :| Reach(links, b, c, n);
    ReachCover(Web(w.nodes, links), b, c, n);
    x :| (b, x) in links && Connected(Avoiding(links, b), x, c);
    More(Avoiding(links, b), Cut(w.links, b, x), x, c);
    assert CycleFrom(w.links, Cut(w.links, b, x), x, c, d);
  }

  /** A hop with a cycle ahead is followed by another that has one ahead. */
  lemma StaysAlive(w: Web, a: Sid, b: Sid) returns (x: Sid)
    requires Wellformed(w) && Alive(w.links, a, b)
    ensures x in Peers(w, b) - {a} && Alive(w.links, b, x)
  {
    if !Bridge(w.links, a, b) {
      x := GoesRound(w, a, b);
    } else {
      var c, d :| CycleFrom(w.links, Cut(w.links, a, b), b, c, d);
      BridgeBothWays(w.links, a, b);
      if c == b {
        x := d;
      } else {
        CutWellformed(w, a, b);
        x := GoesNearer(w, Cut(w.links, a, b), b, c, d);
      }
    }
  }

  lemma StartsAlive(w: Web, origin: Sid, c: Sid, d: Sid) returns (x: Sid)
    requires Wellformed(w) && CycleFrom(w.links, w.links, origin, c, d)
    ensures x in Peers(w, origin) && Alive(w.links, origin, x)
  {
    if c == origin {
      x := d;
    } else {
      x := GoesNearer(w, w.links, origin, c, d);
    }
  }

  lemma {:induction false} KeepsAlive(w: Web, origin: Sid, c: Sid, d: Sid, schedule: seq<Hop>) returns (h: Hop)
    requires Wellformed(w) && CycleFrom(w.links, w.links, origin, c, d)
    ensures h in After(w, SplitHorizon, origin, schedule).flying && Alive(w.links, h.0, h.1)
  {
    if schedule == [] {
      var x := StartsAlive(w, origin, c, d);
      SentMembers(origin, Peers(w, origin));
      h := (origin, x);
    } else {
      var last := schedule[|schedule| - 1];
      h := KeepsAlive(w, origin, c, d, schedule[..|schedule| - 1]);
      if last == h {
        var x := StaysAlive(w, h.0, h.1);
        SentMembers(h.1, Peers(w, h.1) - {h.0});
        h := (h.1, x);
      }
    }
  }

  /** From every origin that is connected to a cycle, and in every order, something is always on the wire. */
  lemma NeverSilent(w: Web, origin: Sid, c: Sid, d: Sid, schedule: seq<Hop>)
    requires Wellformed(w) && (c, d) in w.links && !Bridge(w.links, c, d) && Connected(w.links, origin, c)
    ensures After(w, SplitHorizon, origin, schedule).flying != multiset{}
  {
    assert CycleFrom(w.links, w.links, origin, c, d);
    var h := KeepsAlive(w, origin, c, d, schedule);
  }

  /** On a tree, delivering whatever is on the wire comes to an end. */
  lemma SilentSchedule(w: Web, origin: Sid) returns (schedule: seq<Hop>)
    requires IsTree(w) && origin in w.nodes
    ensures After(w, SplitHorizon, origin, schedule).flying == multiset{}
  {
    schedule := [];
    FloodDeliversExactlyOnce(w, origin, schedule);
    while After(w, SplitHorizon, origin, schedule).flying != multiset{}
      invariant |After(w, SplitHorizon, origin, schedule).delivered| <= |w.nodes| - 1
      decreases |w.nodes| - |After(w, SplitHorizon, origin, schedule).delivered|
    {
      var h :| h in After(w, SplitHorizon, origin, schedule).flying;
      assert (schedule + [h])[..|schedule|] == schedule;
      schedule := schedule + [h];
      FloodDeliversExactlyOnce(w, origin, schedule);
    }
  }

  /** A flood over connected servers can come to an end exactly when they form a tree. */
  lemma FallsSilentIff(w: Web, origin: Sid)
    requires Wellformed(w) && AllConnected(w) && origin in w.nodes
    ensures (exists schedule :: After(w, SplitHorizon, origin, schedule).flying == multiset{}) <==> IsTree(w)
  {
    if IsTree(w) {
      var schedule := SilentSchedule(w, origin);
    } else {
      var c, d :| (c, d) in w.links && !Bridge(w.links, c, d);
      forall schedule
        ensures After(w, SplitHorizon, origin, schedule).flying != multiset{}
      {
        NeverSilent(w, origin, c, d, schedule);
      }
    }
  }
}
