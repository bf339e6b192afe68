/**
 The topology graph of one server (src/sync/topology.rs).

 Every known server carries a parent pointer `via`. The meaning of the graph is its parent chains: `Hop(servers, s, n)`
 is the n-th server met when following `via` from `s`. Nothing in this module assumes that the graph is a tree: the
 results hold for dangling and for cyclic pointers too.
 */
module Topology {
  import opened Common

  datatype ServerInfo = ServerInfo(sid: Sid, name: string, info: string, hopcount: nat, via: Option<Sid>)

  type Servers = map<Sid, ServerInfo>

  /** Every entry is filed under its own SID; `AddServer` never files it elsewhere. */
  ghost predicate KeyedBySid(servers: Servers) {
    forall s :: s in servers ==> servers[s].sid == s
  }

  function Route(servers: Servers, target: Sid): Option<Sid> {
    if target in servers then servers[target].via else None
  }

  // ---------- Parent chains ----------

  ghost function Hop(servers: Servers, s: Sid, n: nat): Option<Sid> {
    if n == 0 then Some(s)
    else
      match Hop(servers, s, n - 1)
      case None => None
      case Some(p) => Route(servers, p)
  }

  /** The parent chain of `s` meets `t`. */
  ghost predicate OnChain(servers: Servers, s: Sid, t: Sid) {
    exists n: nat :: Hop(servers, s, n) == Some(t)
  }

  /** `t` and every known server that routes through it. */
  ghost function Downstream(servers: Servers, t: Sid): set<Sid> {
    set s | s in servers.Keys + {t} && OnChain(servers, s, t)
  }

  /** Walking m + n steps is walking m steps and then n more. */
  lemma {:induction false} HopSplit(servers: Servers, s: Sid, m: nat, n: nat)
    ensures Hop(servers, s, m).None? ==> Hop(servers, s, m + n).None?
    ensures Hop(servers, s, m).Some? ==> Hop(servers, s, m + n) == Hop(servers, Hop(servers, s, m).value, n)
  {
    if n > 0 {
      HopSplit(servers, s, m, n - 1);
      assert m + n - 1 == m + (n - 1);
    }
  }

  lemma OnChainStep(servers: Servers, s: Sid, p: Sid, t: Sid)
    requires Route(servers, s) == Some(p)
    ensures OnChain(servers, p, t) ==> OnChain(servers, s, t)
    ensures OnChain(servers, s, t) && s != t ==> OnChain(servers, p, t)
  {
    assert Hop(servers, s, 0) == Some(s);
    assert Hop(servers, s, 1) == Some(p);
    if OnChain(servers, p, t) {
      var n: nat :| Hop(servers, p, n) == Some(t);
      HopSplit(servers, s, 1, n);
    }
    if OnChain(servers, s, t) && s != t {
      var n: nat :| Hop(servers, s, n) == Some(t);
      HopSplit(servers, s, 1, n - 1);
      assert Hop(servers, p, n - 1) == Some(t);
    }
  }

  lemma OnChainTransitive(servers: Servers, s: Sid, t: Sid, u: Sid)
    requires OnChain(servers, s, t) && OnChain(servers, t, u)
    ensures OnChain(servers, s, u)
  {
    var m: nat :| Hop(servers, s, m) == Some(t);
    var n: nat :| Hop(servers, t, n) == Some(u);
    HopSplit(servers, s, m, n);
  }

  /** A chain that goes beyond `s` starts from an entry for `s`. */
  lemma {:induction false} OnChainKnown(servers: Servers, s: Sid, n: nat)
    requires Hop(servers, s, n).Some? && n > 0
    ensures s in servers
  {
    if n > 1 {
      OnChainKnown(servers, s, n - 1);
    }
  }

  /** Two graphs that agree along the chain of `s` give `s` the same chain. */
  lemma {:induction false} HopAgrees(before: Servers, after: Servers, s: Sid, n: nat)
    requires forall k: nat :: k < n && Hop(before, s, k).Some?
                              ==> Route(after, Hop(before, s, k).value) == Route(before, Hop(before, s, k).value)
    ensures Hop(after, s, n) == Hop(before, s, n)
  {
    if n > 0 {
      HopAgrees(before, after, s, n - 1);
    }
  }

  /** A set that holds `t` and is closed under "is the parent of" holds everything downstream of `t`. */
  lemma {:induction false} ClosedSetContains(servers: Servers, t: Sid, closed: set<Sid>, s: Sid, n: nat)
    requires t in closed
    requires forall c :: c in servers && servers[c].via.Some? && servers[c].via.value in closed ==> c in closed
    requires Hop(servers, s, n) == Some(t)
    ensures s in closed
    decreases n
  {
    if n > 0 {
      HopSplit(servers, s, 1, n - 1);
      var p := Hop(servers, s, 1);
      assert p == Route(servers, s) by {
        assert Hop(servers, s, 0) == Some(s);
      }
      ClosedSetContains(servers, t, closed, p.value, n - 1);
    }
  }

  lemma AppendNew(xs: seq<Sid>, x: Sid)
    requires Distinct(xs) && x !in Elements(xs)
    ensures Distinct(xs + [x])
    ensures Elements(xs + [x]) == Elements(xs) + {x}
  {
    assert forall i :: 0 <= i < |xs| ==> xs[i] in Elements(xs);
  }

  // ---------- The worklist search ----------

  /** All that the search holds is downstream of `target`, and it holds every child of what it has processed. */
  ghost predicate Explored(servers: Servers, target: Sid, processed: set<Sid>, toProcess: seq<Sid>) {
    && processed <= Downstream(servers, target)
    && (forall s :: s in toProcess ==> s in Downstream(servers, target))
    && (target in processed || target in toProcess)
    && (forall c :: c in servers && servers[c].via.Some? && servers[c].via.value in processed
                    ==> c in processed || c in toProcess)
  }

  /** Processing a new server leaves strictly less of the downstream set to be processed. */
  lemma ExploredShrinks(servers: Servers, target: Sid, processed: set<Sid>, current: Sid, rest: seq<Sid>)
    requires Explored(servers, target, processed, rest + [current])
    requires current !in processed
    ensures |Downstream(servers, target) - (processed + {current})| < |Downstream(servers, target) - processed|
  {
    assert current in rest + [current];
    var left := Downstream(servers, target) - processed;
    assert Downstream(servers, target) - (processed + {current}) == left - {current};
  }

  lemma ExploredSkip(servers: Servers, target: Sid, processed: set<Sid>, current: Sid, rest: seq<Sid>)
    requires Explored(servers, target, processed, rest + [current]) && current in processed
    ensures Explored(servers, target, processed, rest)
  {
    assert forall s :: s in rest ==> s in rest + [current];
  }

  /** An empty worklist means that everything downstream has been processed. */
  lemma ExploredComplete(servers: Servers, target: Sid, processed: set<Sid>)
    requires Explored(servers, target, processed, [])
    ensures processed == Downstream(servers, target)
  {
    forall s | s in Downstream(servers, target)
      ensures s in processed
    {
      var n: nat :| Hop(servers, s, n) == Some(target);
      ClosedSetContains(servers, target, processed, s, n);
    }
  }

  // ---------- The graph object ----------

  class TopologyGraph {
    var servers: Servers

    ghost predicate Valid()
      reads this
    {
      KeyedBySid(servers)
    }

    constructor ()
      ensures Valid() && servers == map[]
    {
      servers := map[];
    }

    method AddServer(sid: Sid, name: string, info: string, hopcount: nat, via: Option<Sid>)
      requires Valid()
      modifies this
      ensures Valid()
      ensures servers == old(servers)[sid := ServerInfo(sid, name, info, hopcount, via)]
    {
      servers := servers[sid := ServerInfo(sid, name, info, hopcount, via)];
    }

    method GetRoute(target: Sid) returns (via: Option<Sid>)
      ensures via == Hop(servers, target, 1)
    {
      assert Hop(servers, target, 0) == Some(target);
      via := Route(servers, target);
    }

    /**
     The worklist search behind netsplit cleanup. Entries are visited in an arbitrary order, as a hash map's iterator
     may yield them, and the worklist may hold the same SID more than once.
     */
    method GetDownstreamSids(target: Sid) returns (result: seq<Sid>)
      requires Valid()
      ensures Distinct(result)
      ensures Elements(result) == Downstream(servers, target)
    {
      result := [];
      var toProcess := [target];
      var processed: set<Sid> := {};
      assert Hop(servers, target, 0) == Some(target);
      while toProcess != []
        invariant Elements(result) == processed
        invariant Distinct(result)
        invariant Explored(servers, target, processed, toProcess)
        decreases |Downstream(servers, target) - processed|, |toProcess|
      {
        var current := toProcess[|toProcess| - 1];
        assert toProcess == toProcess[..|toProcess| - 1] + [current];
        toProcess := toProcess[..|toProcess| - 1];
        if current in processed {
          ExploredSkip(servers, target, processed, current, toProcess);
          continue;
        }
        ExploredShrinks(servers, target, processed, current, toProcess);
        AppendNew(result, current);
        toProcess := PushChildren(target, current, processed, processed + {current}, toProcess);
        processed := processed + {current};
        result := result + [current];
      }
      ExploredComplete(servers, target, processed);
    }

    /** The inner scan: push every unprocessed entry whose parent is `current`. */
    method PushChildren(ghost target: Sid, current: Sid, ghost before: set<Sid>, processed: set<Sid>, toProcess: seq<Sid>)
      returns (pushed: seq<Sid>)
      requires Valid() && processed == before + {current}
      requires Explored(servers, target, before, toProcess + [current])
      ensures Explored(servers, target, processed, pushed)
    {
      assert forall s :: s in toProcess ==> s in toProcess + [current];
      assert current in toProcess + [current];
      assert current in Downstream(servers, target);
      pushed := toProcess;
      var rest := servers.Keys;
      while rest != {}
        invariant rest <= servers.Keys
        invariant forall s :: s in toProcess ==> s in pushed
        invariant forall s :: s in pushed ==> s in Downstream(servers, target)
        invariant forall c :: c in servers && c !in rest && servers[c].via == Some(current)
                              ==> c in processed || c in pushed
        invariant OnChain(servers, current, target)
        decreases rest
      {
        var entry :| entry in rest;
        rest := rest - {entry};
        var info := servers[entry];
        if info.via == Some(current) && info.sid !in processed {
          OnChainStep(servers, entry, current, target);
          assert info.sid in Downstream(servers, target);
          pushed := pushed + [info.sid];
        }
      }
    }

    method RemoveServers(sids: seq<Sid>)
      requires Valid()
      modifies this
      ensures Valid()
      ensures servers == old(servers) - Elements(sids)
    {
      var i := 0;
      while i < |sids|
        invariant 0 <= i <= |sids|
        invariant Valid()
        invariant servers == old(servers) - Elements(sids[..i])
      {
        assert sids[..i + 1] == sids[..i] + [sids[i]];
        servers := servers - {sids[i]};
        i := i + 1;
      }
      assert sids[..i] == sids;
    }
  }
}
