/**
 Next-hop routing over the topology graph (`get_next_hop`, src/sync/manager.rs) as a function of the parent chain: the
 first server on the chain of the target that is directly linked.
 */
module Routing {
  import opened Common
  import opened Topology

  ghost predicate LinkedAt(servers: Servers, links: set<Sid>, s: Sid, n: nat) {
    Hop(servers, s, n).Some? && Hop(servers, s, n).value in links
  }

  ghost predicate FirstLinkedAt(servers: Servers, links: set<Sid>, s: Sid, n: nat) {
    && LinkedAt(servers, links, s, n)
    && forall m: nat :: m < n ==> !LinkedAt(servers, links, s, m)
  }

  ghost function NextHop(servers: Servers, links: set<Sid>, s: Sid): Option<Sid> {
    if exists n: nat :: FirstLinkedAt(servers, links, s, n) then
      var n: nat :| FirstLinkedAt(servers, links, s, n);
      Hop(servers, s, n)
    else
      None
  }

  lemma {:induction false} FirstLinkedExists(servers: Servers, links: set<Sid>, s: Sid, n: nat)
    requires LinkedAt(servers, links, s, n)
    ensures exists m: nat :: m <= n && FirstLinkedAt(servers, links, s, m)
  {
    if m: nat :| m < n && LinkedAt(servers, links, s, m) {
      FirstLinkedExists(servers, links, s, m);
    } else {
      assert FirstLinkedAt(servers, links, s, n);
    }
  }

  /** The next hop is the first linked server of the chain, and there is none exactly when the chain has no link. */
  lemma NextHopMeaning(servers: Servers, links: set<Sid>, s: Sid)
    ensures NextHop(servers, links, s).None? <==> forall n: nat :: !LinkedAt(servers, links, s, n)
    ensures forall n: nat :: FirstLinkedAt(servers, links, s, n) ==> NextHop(servers, links, s) == Hop(servers, s, n)
    ensures NextHop(servers, links, s).Some? ==> NextHop(servers, links, s).value in links
  {
    forall n: nat | LinkedAt(servers, links, s, n)
      ensures exists m: nat :: FirstLinkedAt(servers, links, s, m)
    {
      FirstLinkedExists(servers, links, s, n);
    }
    forall m: nat, n: nat | FirstLinkedAt(servers, links, s, m) && FirstLinkedAt(servers, links, s, n)
      ensures m == n
    {
    }
  }

  /** Whatever is routed through a link is cut off with it. */
  lemma NextHopDownstream(servers: Servers, links: set<Sid>, s: Sid, link: Sid)
    requires NextHop(servers, links, s) == Some(link)
    ensures s in Downstream(servers, link)
  {
    var n: nat :| FirstLinkedAt(servers, links, s, n) && Hop(servers, s, n) == Some(link);
    if n > 0 {
      OnChainKnown(servers, s, n);
    }
  }

  /** A chain that comes back to an earlier server never leaves the servers met before that. */
  lemma {:induction false} ChainRepeats(servers: Servers, s: Sid, i: nat, k: nat, n: nat)
    requires i < k && Hop(servers, s, i).Some? && Hop(servers, s, i) == Hop(servers, s, k)
    ensures exists j: nat :: j < k && Hop(servers, s, j) == Hop(servers, s, n)
  {
    if n >= k {
      ChainRepeats(servers, s, i, k, n - 1);
      var j: nat :| j < k && Hop(servers, s, j) == Hop(servers, s, n - 1);
      assert Hop(servers, s, j + 1) == Hop(servers, s, n);
    }
  }

  /** Two networks in which `s` has the same chain and the chain meets the same links give `s` the same next hop. */
  lemma NextHopAgrees(before: Servers, oldLinks: set<Sid>, after: Servers, newLinks: set<Sid>, s: Sid)
    requires forall n: nat :: Hop(after, s, n) == Hop(before, s, n)
    requires forall n: nat :: LinkedAt(after, newLinks, s, n) <==> LinkedAt(before, oldLinks, s, n)
    ensures NextHop(after, newLinks, s) == NextHop(before, oldLinks, s)
  {
    NextHopMeaning(before, oldLinks, s);
    NextHopMeaning(after, newLinks, s);
    if n: nat :| LinkedAt(before, oldLinks, s, n) {
      FirstLinkedExists(before, oldLinks, s, n);
      var m: nat :| FirstLinkedAt(before, oldLinks, s, m);
      assert FirstLinkedAt(after, newLinks, s, m);
    }
  }
}
