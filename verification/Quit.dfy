/**
 How a QUIT spreads. A server that gets one for a user it still holds removes the user and tells all its peers, the
 sender of the QUIT included; otherwise it ignores it (src/handlers/connection/quit.rs, `kill_user` in
 src/state/managers/user.rs, which never names a source to the observer). The links may form any graph.
 */
module Quit {
  import opened Common
  import opened Graph
  import opened Flood

  /** Who has removed the user, in order; which hops have been delivered, in order; and what is still on the wire. */
  datatype Spread = Spread(removed: seq<Sid>, log: seq<Hop>, flying: multiset<Hop>)

  /** The origin has removed the user and tells its peers. */
  ghost function Begin(w: Web, origin: Sid): Spread {
    Spread([origin], [], Sent(origin, Peers(w, origin)))
  }

  /** One delivery. A hop that is not on the wire delivers nothing, so every sequence of hops is a schedule. */
  ghost function Receive(w: Web, holders: set<Sid>, st: Spread, h: Hop): Spread {
    if h !in st.flying then st
    else if h.1 in holders && h.1 !in st.removed then
      Spread(st.removed + [h.1], st.log + [h], st.flying - multiset{h} + Sent(h.1, Peers(w, h.1)))
    else Spread(st.removed, st.log + [h], st.flying - multiset{h})
  }

  ghost function Later(w: Web, holders: set<Sid>, origin: Sid, schedule: seq<Hop>): Spread {
    if schedule == [] then Begin(w, origin)
    else Receive(w, holders, Later(w, holders, origin, schedule[..|schedule| - 1]), schedule[|schedule| - 1])
  }

  /** The links between servers that hold the user. */
  ghost function Among(w: Web, holders: set<Sid>): Links {
    set l | l in w.links && l.0 in holders && l.1 in holders
  }

  /** Every hop from a server that has removed the user is on the wire or delivered, once, and there are no others. */
  ghost predicate Accounted(w: Web, st: Spread) {
    forall h :: st.flying[h] + multiset(st.log)[h] == if h in w.links && h.0 in st.removed then 1 else 0
  }

  ghost predicate RemovedOnce(w: Web, holders: set<Sid>, origin: Sid, st: Spread) {
    && Distinct(st.removed) && origin in st.removed
    && (forall x :: x in st.removed ==> x in holders && Connected(Among(w, holders), origin, x))
    && (forall h :: h in st.log ==> h.1 in st.removed || h.1 !in holders)
  }

  lemma SentCount(w: Web, x: Sid, h: Hop)
    requires Wellformed(w)
    ensures Sent(x, Peers(w, x))[h] == if h in w.links && h.0 == x then 1 else 0
  {
    SentMembers(x, Peers(w, x));
  }

  lemma AccountedStep(w: Web, holders: set<Sid>, st: Spread, h: Hop)
    requires Wellformed(w) && Accounted(w, st) && h in st.flying
    ensures Accounted(w, Receive(w, holders, st, h))
  {
    var next := Receive(w, holders, st, h);
    assert multiset(next.log) == multiset(st.log) + multiset{h};
    forall g
      ensures next.flying[g] + multiset(next.log)[g] == if g in w.links && g.0 in next.removed then 1 else 0
    {
      assert st.flying[g] + multiset(st.log)[g] == if g in w.links && g.0 in st.removed then 1 else 0;
      SentCount(w, h.1, g);
    }
  }

  lemma RemovedStep(w: Web, holders: set<Sid>, origin: Sid, st: Spread, h: Hop)
    requires Wellformed(w) && Accounted(w, st) && RemovedOnce(w, holders, origin, st) && h in st.flying
    ensures RemovedOnce(w, holders, origin, Receive(w, holders, st, h))
  {
    var next := Receive(w, holders, st, h);
    assert h in w.links && h.0 in st.removed by {
      assert st.flying[h] + multiset(st.log)[h] > 0;
    }
    if h.1 in holders && h.1 !in st.removed {
      assert (h.0, h.1) in Among(w, holders);
      StepOn(Among(w, holders), origin, h.0, h.1);
    }
    assert forall x :: x in st.removed ==> x in next.removed;
    assert h.1 in next.removed || h.1 !in holders;
  }

  lemma {:induction false} SpreadInvariant(w: Web, holders: set<Sid>, origin: Sid, schedule: seq<Hop>)
    requires Wellformed(w) && origin in holders
    ensures var st := Later(w, holders, origin, schedule);
            Accounted(w, st) && RemovedOnce(w, holders, origin, st)
  {
    if schedule == [] {
      forall h
        ensures Sent(origin, Peers(w, origin))[h] == if h in w.links && h.0 == origin then 1 else 0
      {
        SentCount(w, origin, h);
      }
      Stay(Among(w, holders), origin);
    } else {
      var st := Later(w, holders, origin, schedule[..|schedule| - 1]);
      var h := schedule[|schedule| - 1];
      SpreadInvariant(w, holders, origin, schedule[..|schedule| - 1]);
      if h in st.flying {
        AccountedStep(w, holders, st, h);
        RemovedStep(w, holders, origin, st, h);
      }
    }
  }

  lemma SilentIsClosed(w: Web, holders: set<Sid>, origin: Sid, st: Spread, a: Sid, b: Sid)
    requires Accounted(w, st) && RemovedOnce(w, holders, origin, st) && st.flying == multiset{}
    requires (a, b) in Among(w, holders) && a in st.removed
    ensures b in st.removed
  {
    var h := (a, b);
    assert st.flying[h] + multiset(st.log)[h] == 1;
    assert h in multiset(st.log);
    assert h in st.log;
  }

  /**
   On every graph and in every order: no server removes the user twice; only holders that are linked to the origin
   through holders remove them; and when the wire is silent all of those have.
   */
  lemma QuitReachesHolders(w: Web, holders: set<Sid>, origin: Sid, schedule: seq<Hop>, x: Sid)
    requires Wellformed(w) && origin in holders
    ensures var st := Later(w, holders, origin, schedule);
            && Distinct(st.removed)
            && (x in st.removed ==> Connected(Among(w, holders), origin, x))
            && (st.flying == multiset{} ==> (x in st.removed <==> Connected(Among(w, holders), origin, x)))
  {
    var st := Later(w, holders, origin, schedule);
    SpreadInvariant(w, holders, origin, schedule);
    if st.flying == multiset{} && Connected(Among(w, holders), origin, x) {
      forall a, b | (a, b) in Among(w, holders) && a in Elements(st.removed)
        ensures b in Elements(st.removed)
      {
        SilentIsClosed(w, holders, origin, st, a, b);
      }
      var n: nat :| Reach(Among(w, holders), origin, x, n);
      ClosedHolds(Among(w, holders), Elements(st.removed), origin, x, n);
    }
  }

  // ---------- Connected servers that all hold the user ----------

  /** Each link once, in one of its directions. */
  ghost predicate OneWay(cables: set<Arc>) {
    forall a, b :: (a, b) in cables ==> (b, a) !in cables
  }

  ghost function BothWays(cables: set<Arc>): Links {
    cables + Back(cables)
  }

  ghost function Back(cables: set<Arc>): set<Arc> {
    set c | c in cables :: (c.1, c.0)
  }

  lemma {:induction false} BackCount(cables: set<Arc>)
    ensures |Back(cables)| == |cables|
  {
    if cables != {} {
      var c :| c in cables;
      BackCount(cables - {c});
      forall d
        ensures d in Back(cables) <==> d in Back(cables - {c}) + {(c.1, c.0)}
      {
        if d in Back(cables) {
          var e :| e in cables && d == (e.1, e.0);
        }
      }
      assert Back(cables) == Back(cables - {c}) + {(c.1, c.0)};
      assert (c.1, c.0) !in Back(cables - {c});
    }
  }

  lemma BothWaysCount(cables: set<Arc>)
    requires OneWay(cables)
    ensures |BothWays(cables)| == 2 * |cables|
  {
    BackCount(cables);
    assert cables !! Back(cables) by {
      forall d | d in Back(cables)
        ensures d !in cables
      {
        var e :| e in cables && d == (e.1, e.0);
        assert (e.0, e.1) in cables;
      }
    }
  }

  lemma RepeatCounts(xs: seq<Hop>, i: nat, j: nat)
    requires i < j < |xs| && xs[i] == xs[j]
    ensures multiset(xs)[xs[i]] >= 2
  {
    var front, back := xs[..i + 1], xs[i + 1..];
    assert xs == front + back;
    assert front[i] == xs[i] && back[j - i - 1] == xs[i];
    assert xs[i] in multiset(front) && xs[i] in multiset(back);
  }

  /** Each hop is delivered at most once, and only over links. */
  lemma LogIsDistinct(w: Web, st: Spread)
    requires Accounted(w, st)
    ensures Distinct(st.log) && Elements(st.log) <= w.links
  {
    forall i, j | 0 <= i < j < |st.log|
      ensures st.log[i] != st.log[j]
    {
      assert st.flying[st.log[i]] + multiset(st.log)[st.log[i]] <= 1;
      if st.log[i] == st.log[j] {
        RepeatCounts(st.log, i, j);
      }
    }
    forall h | h in Elements(st.log)
      ensures h in w.links
    {
      assert h in multiset(st.log);
    }
  }

  lemma SilentMeansAllRemoved(w: Web, origin: Sid, st: Spread, x: Sid)
    requires Wellformed(w) && Connected(w.links, origin, x)
    requires Accounted(w, st) && RemovedOnce(w, w.nodes, origin, st) && st.flying == multiset{}
    ensures x in st.removed
  {
    assert Among(w, w.nodes) == w.links;
    forall a, b | (a, b) in w.links && a in Elements(st.removed)
      ensures b in Elements(st.removed)
    {
      SilentIsClosed(w, w.nodes, origin, st, a, b);
    }
    var n: nat :| Reach(w.links, origin, x, n);
    ClosedHolds(w.links, Elements(st.removed), origin, x, n);
  }

  lemma SilentMeansAllDelivered(w: Web, origin: Sid, st: Spread, h: Hop)
    requires Wellformed(w) && AllConnected(w) && origin in w.nodes && h in w.links
    requires Accounted(w, st) && RemovedOnce(w, w.nodes, origin, st) && st.flying == multiset{}
    ensures h in Elements(st.log)
  {
    assert (h.0, h.1) in w.links;
    SilentMeansAllRemoved(w, origin, st, h.0);
    assert st.flying[h] + multiset(st.log)[h] == 1;
    assert h in multiset(st.log);
  }

  lemma FlyingIsUndelivered(w: Web, st: Spread, h: Hop)
    requires Accounted(w, st) && h in st.flying
    ensures h in w.links && h !in Elements(st.log)
  {
    assert st.flying[h] + multiset(st.log)[h] <= 1;
    assert h !in multiset(st.log);
  }

  /**
   On every connected graph of servers that all hold the user, cycles included, and in every order: the QUIT is delivered
   at most twice per link, once each way; the wire is silent exactly after 2 * |links| deliveries, and by then every
   server has removed the user, once.
   */
  lemma QuitCrossesEachLinkTwice(w: Web, cables: set<Arc>, origin: Sid, schedule: seq<Hop>)
    requires OneWay(cables) && w.links == BothWays(cables) && Wellformed(w) && AllConnected(w) && origin in w.nodes
    ensures var st := Later(w, w.nodes, origin, schedule);
            && Distinct(st.removed) && Distinct(st.log)
            && |st.log| <= 2 * |cables|
            && (st.flying == multiset{} <==> |st.log| == 2 * |cables|)
            && (st.flying == multiset{} ==> Elements(st.removed) == w.nodes)
  {
    var st := Later(w, w.nodes, origin, schedule);
    SpreadInvariant(w, w.nodes, origin, schedule);
    LogIsDistinct(w, st);
    if st.flying == multiset{} {
      forall x | x in w.nodes
        ensures x in Elements(st.removed)
      {
        SilentMeansAllRemoved(w, origin, st, x);
      }
      forall h | h in w.links
        ensures h in Elements(st.log)
      {
        SilentMeansAllDelivered(w, origin, st, h);
      }
      assert Elements(st.log) == w.links;
    } else {
      var h :| h in st.flying;
      FlyingIsUndelivered(w, st, h);
    }
    BothWaysCount(cables);
    DistinctCount(st.log);
    SubsetCount(Elements(st.log), w.links);
  }
}
