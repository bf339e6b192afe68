/**
 The link-level state machine of one server: which steps keep the topology a spanning tree, and what a netsplit leaves.

 Steps follow src/sync/network.rs (loop detection and link registration), src/sync/manager.rs (`register_peer`,
 `remove_peer`, the heartbeat drop), src/handlers/server/sid.rs (learning a remote server) and src/sync/split.rs
 (netsplit cleanup). The local server itself is never entered in its own topology by these paths.
 */
module SpanningTree {
  import opened Common
  import opened Topology
  import opened Routing

  /** `peers` are the servers that were registered as direct peers and have not been split off since. */
  datatype Net = Net(local: Sid, servers: Servers, links: set<Sid>, peers: set<Sid>, users: set<Uid>)

  // ---------- The invariant ----------

  /** A chain may stop at the local server or at a peer that was registered as its own uplink. */
  ghost predicate Root(servers: Servers, local: Sid, s: Sid) {
    s == local || Route(servers, s) == Some(s)
  }

  ghost predicate Grounded(servers: Servers, local: Sid, s: Sid) {
    exists n: nat :: Hop(servers, s, n).Some? && Root(servers, local, Hop(servers, s, n).value)
  }

  ghost predicate IsTree(servers: Servers, local: Sid) {
    && local !in servers
    && forall s :: s in servers ==> Grounded(servers, local, s)
  }

  /** Every live link is a known server attached directly to us. */
  ghost predicate DirectLinks(servers: Servers, local: Sid, links: set<Sid>) {
    forall l :: l in links ==> l in servers && (servers[l].via == Some(local) || servers[l].via == Some(l))
  }

  /** Only registered peers are linked or are their own uplink. */
  ghost predicate PeersOnly(servers: Servers, links: set<Sid>, peers: set<Sid>) {
    links <= peers && forall s :: s in servers && servers[s].via == Some(s) ==> s in peers
  }

  ghost predicate Inv(net: Net) {
    && IsTree(net.servers, net.local)
    && DirectLinks(net.servers, net.local, net.links)
    && PeersOnly(net.servers, net.links, net.peers)
  }

  // ---------- The steps ----------

  datatype Step =
    | Handshake(sid: Sid, name: string, info: string)
    | RegisterPeer(sid: Sid, name: string, hopcount: nat, info: string)
    | LearnServer(sid: Sid, name: string, hopcount: nat, info: string, via: Sid)
    | DropLink(sid: Sid)
    | Netsplit(dead: Sid)

  /** Loop detection: a handshake goes ahead only for a SID that is not in the topology. */
  predicate Enabled(net: Net, step: Step) {
    step.Handshake? ==> step.sid !in net.servers
  }

  ghost predicate UserSurvives(servers: Servers, dead: Sid, uid: Uid) {
    |uid| < 3 || uid[..3] !in Downstream(servers, dead)
  }

  ghost function Apply(net: Net, step: Step): Net {
    match step
    case Handshake(sid, name, info) =>
      net.(servers := net.servers[sid := ServerInfo(sid, name, info, 1, Some(net.local))], links := net.links + {sid},
           peers := net.peers + {sid})
    case RegisterPeer(sid, name, hopcount, info) =>
      net.(servers := net.servers[sid := ServerInfo(sid, name, info, hopcount, Some(sid))], links := net.links + {sid},
           peers := net.peers + {sid})
    case LearnServer(sid, name, hopcount, info, via) =>
      net.(servers := net.servers[sid := ServerInfo(sid, name, info, hopcount, Some(via))])
    case DropLink(sid) =>
      net.(links := net.links - {sid})
    case Netsplit(dead) =>
      Net(net.local, net.servers - Downstream(net.servers, dead), net.links - {dead},
          net.peers - Downstream(net.servers, dead), set u | u in net.users && UserSurvives(net.servers, dead, u))
  }

  /** What a caller can check beforehand to know that a step keeps the invariant. */
  ghost predicate Sound(net: Net, step: Step) {
    match step
    case Handshake(sid, _, _) => sid != net.local
    case RegisterPeer(sid, _, _, _) => sid != net.local
    case LearnServer(sid, _, _, _, via) =>
      && sid != net.local
      && (|| via == net.local
          || (via == sid && sid in net.peers)
          || (via in net.servers && via !in Downstream(net.servers, sid) && sid !in net.links))
    case DropLink(_) => true
    case Netsplit(dead) => dead == net.local ==> forall l :: l in net.links ==> Route(net.servers, l) == Some(l)
  }

  /** The steps that enter a server: what they write down, and that all other servers stay as they were. */
  lemma StepEnters(net: Net, step: Step)
    requires step.Handshake? || step.RegisterPeer? || step.LearnServer?
    ensures var after := Apply(net, step);
            && step.sid in after.servers
            && (var entry := after.servers[step.sid];
                && entry.sid == step.sid && entry.name == step.name && entry.info == step.info
                && (step.Handshake? ==> entry.hopcount == 1 && entry.via == Some(net.local))
                && (step.RegisterPeer? ==> entry.hopcount == step.hopcount && entry.via == Some(step.sid))
                && (step.LearnServer? ==> entry.hopcount == step.hopcount && entry.via == Some(step.via)))
            && (forall x :: x != step.sid ==>
                  (x in after.servers <==> x in net.servers) && (x in net.servers ==> after.servers[x] == net.servers[x]))
            && (forall x :: x in after.links <==> x in net.links || (x == step.sid && !step.LearnServer?))
            && after.users == net.users && after.local == net.local
  {
  }

  // ---------- Adding a server ----------

  lemma {:induction false} SelfRouted(servers: Servers, s: Sid, n: nat)
    requires Route(servers, s) == Some(s)
    ensures Hop(servers, s, n) == Some(s)
  {
    if n > 0 {
      SelfRouted(servers, s, n - 1);
    }
  }

  /** A chain that avoids `sid` is not affected by a new entry for `sid`. */
  lemma HopAfterAdd(servers: Servers, sid: Sid, entry: ServerInfo, s: Sid, n: nat)
    requires !OnChain(servers, s, sid)
    ensures Hop(servers[sid := entry], s, n) == Hop(servers, s, n)
  {
    HopAgrees(servers, servers[sid := entry], s, n);
  }

  lemma GroundedStep(servers: Servers, local: Sid, s: Sid, p: Sid)
    requires OnChain(servers, s, p) && Grounded(servers, local, p)
    ensures Grounded(servers, local, s)
  {
    var m: nat :| Hop(servers, s, m) == Some(p);
    var n: nat :| Hop(servers, p, n).Some? && Root(servers, local, Hop(servers, p, n).value);
    HopSplit(servers, s, m, n);
  }

  /** Up to the point where it meets `sid`, a chain is the same before and after `sid` gets a new entry. */
  lemma {:induction false} OnChainAfterAdd(servers: Servers, sid: Sid, entry: ServerInfo, s: Sid, n: nat)
    requires Hop(servers, s, n) == Some(sid)
    ensures OnChain(servers[sid := entry], s, sid)
    decreases n
  {
    var after := servers[sid := entry];
    assert Hop(after, s, 0) == Some(s);
    if s != sid {
      HopSplit(servers, s, 1, n - 1);
      assert Hop(servers, s, 0) == Some(s);
      var p := Route(servers, s).value;
      OnChainAfterAdd(servers, sid, entry, p, n - 1);
      OnChainStep(after, s, p, sid);
    }
  }

  /** Giving `sid` a parent that is grounded without it keeps every server grounded. */
  lemma AddKeepsTree(servers: Servers, local: Sid, sid: Sid, entry: ServerInfo)
    requires IsTree(servers, local) && sid != local && entry.via.Some?
    requires entry.via.value == local || entry.via.value == sid
          || (entry.via.value in servers && entry.via.value !in Downstream(servers, sid))
    ensures IsTree(servers[sid := entry], local)
  {
    var after := servers[sid := entry];
    var via := entry.via.value;
    assert Grounded(after, local, sid) by {
      assert Hop(after, sid, 0) == Some(sid);
      assert Hop(after, sid, 1) == Some(via);
      if via != local && via != sid {
        var n: nat :| Hop(servers, via, n).Some? && Root(servers, local, Hop(servers, via, n).value);
        HopAfterAdd(servers, sid, entry, via, n);
        assert Root(after, local, Hop(after, via, n).value);
        GroundedStep(after, local, sid, via);
      }
    }
    forall s | s in servers
      ensures Grounded(after, local, s)
    {
      if OnChain(servers, s, sid) {
        var n: nat :| Hop(servers, s, n) == Some(sid);
        OnChainAfterAdd(servers, sid, entry, s, n);
        GroundedStep(after, local, s, sid);
      } else {
        var n: nat :| Hop(servers, s, n).Some? && Root(servers, local, Hop(servers, s, n).value);
        HopAfterAdd(servers, sid, entry, s, n);
      }
    }
  }

  /** `x` lies between `via` and `sid` on the old chain; after `sid` is attached below `via` these servers form a loop. */
  ghost predicate Between(servers: Servers, via: Sid, sid: Sid, x: Sid) {
    OnChain(servers, via, x) && OnChain(servers, x, sid)
  }

  lemma LoopStep(servers: Servers, local: Sid, sid: Sid, entry: ServerInfo, x: Sid)
    requires IsTree(servers, local) && sid != local && entry.via.Some? && entry.via.value != sid
    requires OnChain(servers, entry.via.value, sid)
    requires Between(servers, entry.via.value, sid, x)
    ensures !Root(servers[sid := entry], local, x)
    ensures Route(servers[sid := entry], x).Some?
    ensures Between(servers, entry.via.value, sid, Route(servers[sid := entry], x).value)
  {
    var via := entry.via.value;
    if x == sid {
      assert Hop(servers, via, 0) == Some(via);
    } else {
      var n: nat :| Hop(servers, x, n) == Some(sid);
      OnChainKnown(servers, x, n);
      HopSplit(servers, x, 1, n - 1);
      assert Hop(servers, x, 0) == Some(x);
      var p := Route(servers, x).value;
      if p == x {
        SelfRouted(servers, x, n);
      }
      OnChainStep(servers, x, p, sid);
      assert Hop(servers, x, 1) == Some(p);
      OnChainTransitive(servers, via, x, p);
    }
  }

  lemma {:induction false} LoopNeverGrounds(servers: Servers, local: Sid, sid: Sid, entry: ServerInfo, n: nat)
    requires IsTree(servers, local) && sid != local && entry.via.Some? && entry.via.value != sid
    requires OnChain(servers, entry.via.value, sid)
    ensures Hop(servers[sid := entry], sid, n).Some?
    ensures Between(servers, entry.via.value, sid, Hop(servers[sid := entry], sid, n).value)
  {
    if n == 0 {
      assert Hop(servers, sid, 0) == Some(sid);
    } else {
      LoopNeverGrounds(servers, local, sid, entry, n - 1);
      LoopStep(servers, local, sid, entry, Hop(servers[sid := entry], sid, n - 1).value);
    }
  }

  /**
   Exactly which insertions keep a spanning tree: the new SID is not ours, and its parent is us, itself, or a known
   server that does not already route through the new SID.
   */
  lemma AddServerKeepsTreeIff(servers: Servers, local: Sid, sid: Sid, entry: ServerInfo)
    requires IsTree(servers, local) && entry.via.Some?
    ensures IsTree(servers[sid := entry], local)
        <==> && sid != local
             && (|| entry.via.value == local
                 || entry.via.value == sid
                 || (entry.via.value in servers && entry.via.value !in Downstream(servers, sid)))
  {
    var after := servers[sid := entry];
    var via := entry.via.value;
    if sid != local && via != local && via != sid {
      if via in servers && via !in Downstream(servers, sid) {
        AddKeepsTree(servers, local, sid, entry);
      } else {
        forall n: nat | Hop(after, sid, n).Some?
          ensures !Root(after, local, Hop(after, sid, n).value)
        {
          if via in servers {
            LoopNeverGrounds(servers, local, sid, entry, n);
            LoopStep(servers, local, sid, entry, Hop(after, sid, n).value);
          } else {
            DanglingNeverGrounds(after, sid, via, n);
          }
        }
        assert !Grounded(after, local, sid);
      }
    } else if sid != local {
      AddKeepsTree(servers, local, sid, entry);
    }
  }

  lemma {:induction false} DanglingNeverGrounds(servers: Servers, sid: Sid, via: Sid, n: nat)
    requires Route(servers, sid) == Some(via) && via !in servers
    ensures n == 0 ==> Hop(servers, sid, n) == Some(sid)
    ensures n == 1 ==> Hop(servers, sid, n) == Some(via)
    ensures n > 1 ==> Hop(servers, sid, n).None?
  {
    if n > 0 {
      DanglingNeverGrounds(servers, sid, via, n - 1);
    }
  }

  // ---------- Cutting a subtree ----------

  /** Nothing on the chain of a server outside the cut is inside it. */
  lemma ChainOutsideCut(servers: Servers, dead: Sid, s: Sid, n: nat)
    requires s !in Downstream(servers, dead) && Hop(servers, s, n).Some?
    ensures Hop(servers, s, n).value !in Downstream(servers, dead)
  {
    var x := Hop(servers, s, n).value;
    if x in Downstream(servers, dead) {
      OnChainTransitive(servers, s, x, dead);
      if n > 0 {
        OnChainKnown(servers, s, n);
      }
    }
  }

  lemma HopAfterCut(servers: Servers, dead: Sid, s: Sid, n: nat)
    requires s !in Downstream(servers, dead)
    ensures Hop(servers - Downstream(servers, dead), s, n) == Hop(servers, s, n)
  {
    forall k: nat | k < n && Hop(servers, s, k).Some?
      ensures Hop(servers, s, k).value !in Downstream(servers, dead)
    {
      ChainOutsideCut(servers, dead, s, k);
    }
    HopAgrees(servers, servers - Downstream(servers, dead), s, n);
  }

  lemma CutKeepsTree(servers: Servers, local: Sid, dead: Sid)
    requires IsTree(servers, local)
    ensures IsTree(servers - Downstream(servers, dead), local)
  {
    var after := servers - Downstream(servers, dead);
    forall s | s in after
      ensures Grounded(after, local, s)
    {
      var n: nat :| Hop(servers, s, n).Some? && Root(servers, local, Hop(servers, s, n).value);
      HopAfterCut(servers, dead, s, n);
      ChainOutsideCut(servers, dead, s, n);
    }
  }

  /** A netsplit changes the next hop of no server outside the cut subtree, on any graph. */
  lemma NetsplitKeepsRoutes(net: Net, dead: Sid, s: Sid)
    requires s !in Downstream(net.servers, dead)
    ensures var after := Apply(net, Netsplit(dead));
            NextHop(after.servers, after.links, s) == NextHop(net.servers, net.links, s)
  {
    var after := Apply(net, Netsplit(dead));
    forall n: nat
      ensures Hop(after.servers, s, n) == Hop(net.servers, s, n)
      ensures LinkedAt(after.servers, after.links, s, n) <==> LinkedAt(net.servers, net.links, s, n)
    {
      HopAfterCut(net.servers, dead, s, n);
      assert Hop(net.servers, dead, 0) == Some(dead);
      if Hop(net.servers, s, n).Some? {
        ChainOutsideCut(net.servers, dead, s, n);
      }
    }
    NextHopAgrees(net.servers, net.links, after.servers, after.links, s);
  }

  /** A directly attached server is downstream only of itself and of the local server. */
  lemma DirectChain(servers: Servers, local: Sid, l: Sid, n: nat)
    requires local !in servers && l in servers
    requires servers[l].via == Some(local) || servers[l].via == Some(l)
    requires Hop(servers, l, n).Some?
    ensures Hop(servers, l, n).value == l || (Hop(servers, l, n).value == local && servers[l].via == Some(local))
  {
    if n > 0 {
      DirectChain(servers, local, l, n - 1);
    }
  }

  lemma OtherLinksOutsideCut(net: Net, dead: Sid, l: Sid)
    requires Inv(net) && l in net.links && l != dead
    ensures l in Downstream(net.servers, dead) <==> dead == net.local && net.servers[l].via == Some(net.local)
  {
    if l in Downstream(net.servers, dead) {
      var n: nat :| Hop(net.servers, l, n) == Some(dead);
      DirectChain(net.servers, net.local, l, n);
    }
    if dead == net.local && net.servers[l].via == Some(net.local) {
      assert Hop(net.servers, l, 0) == Some(l);
      assert Hop(net.servers, l, 1) == Some(dead);
    }
  }

  /** What a netsplit with a peer removes becomes unroutable, and nothing that stays points into it. */
  lemma NetsplitCutsOff(net: Net, dead: Sid)
    requires Inv(net) && dead != net.local
    ensures var after := Apply(net, Netsplit(dead));
            && (forall s :: s in Downstream(net.servers, dead) ==> NextHop(after.servers, after.links, s).None?)
            && (forall s :: s in after.servers && after.servers[s].via.Some?
                            ==> after.servers[s].via.value !in Downstream(net.servers, dead))
            && (forall u :: u in after.users <==>
                            u in net.users && (|u| < 3 || u[..3] !in Downstream(net.servers, dead)))
  {
    var after := Apply(net, Netsplit(dead));
    var cut := Downstream(net.servers, dead);
    forall s | s in cut
      ensures NextHop(after.servers, after.links, s).None?
    {
      forall n: nat
        ensures !LinkedAt(after.servers, after.links, s, n)
      {
        assert Hop(after.servers, s, 0) == Some(s);
        if n == 0 {
          if s in after.links {
            OtherLinksOutsideCut(net, dead, s);
          }
        } else if Hop(after.servers, s, n).Some? {
          OnChainKnown(after.servers, s, n);
        }
      }
      NextHopMeaning(after.servers, after.links, s);
    }
    forall s | s in after.servers && after.servers[s].via.Some?
      ensures after.servers[s].via.value !in cut
    {
      assert Hop(net.servers, s, 0) == Some(s);
      assert Hop(net.servers, s, 1) == net.servers[s].via;
      ChainOutsideCut(net.servers, dead, s, 1);
    }
  }

  // ---------- Steps and runs ----------

  lemma NetsplitKeepsInvIff(net: Net, dead: Sid)
    requires Inv(net)
    ensures Inv(Apply(net, Netsplit(dead))) <==> Sound(net, Netsplit(dead))
  {
    CutKeepsTree(net.servers, net.local, dead);
    forall l | l in net.links && l != dead
      ensures l in Downstream(net.servers, dead) <==> dead == net.local && net.servers[l].via == Some(net.local)
    {
      OtherLinksOutsideCut(net, dead, l);
    }
  }

  lemma LinksAfterAdd(servers: Servers, local: Sid, links: set<Sid>, peers: set<Sid>, sid: Sid, entry: ServerInfo)
    requires DirectLinks(servers, local, links) && PeersOnly(servers, links, peers)
    ensures DirectLinks(servers[sid := entry], local, links)
        <==> (sid in links ==> entry.via == Some(local) || entry.via == Some(sid))
    ensures PeersOnly(servers[sid := entry], links, peers) <==> (entry.via == Some(sid) ==> sid in peers)
  {
    if sid in links && entry.via != Some(local) && entry.via != Some(sid) {
      assert servers[sid := entry][sid] == entry;
    }
    if entry.via == Some(sid) && sid !in peers {
      assert servers[sid := entry][sid] == entry;
    }
  }

  lemma PeersAfterAdd(servers: Servers, local: Sid, links: set<Sid>, peers: set<Sid>, sid: Sid, entry: ServerInfo)
    requires DirectLinks(servers, local, links) && PeersOnly(servers, links, peers)
    requires entry.via == Some(local) || entry.via == Some(sid)
    ensures DirectLinks(servers[sid := entry], local, links + {sid})
    ensures PeersOnly(servers[sid := entry], links + {sid}, peers + {sid})
  {
  }

  lemma AttachKeepsInvIff(net: Net, step: Step)
    requires Inv(net) && (step.Handshake? || step.RegisterPeer?)
    ensures Inv(Apply(net, step)) <==> Sound(net, step)
  {
    var entry := Apply(net, step).servers[step.sid];
    PeersAfterAdd(net.servers, net.local, net.links, net.peers, step.sid, entry);
    AddServerKeepsTreeIff(net.servers, net.local, step.sid, entry);
  }

  lemma LearnKeepsInvIff(net: Net, step: Step)
    requires Inv(net) && step.LearnServer?
    ensures Inv(Apply(net, step)) <==> Sound(net, step)
  {
    var entry := ServerInfo(step.sid, step.name, step.info, step.hopcount, Some(step.via));
    assert step.sid in Downstream(net.servers, step.sid) || step.sid !in net.servers by {
      assert Hop(net.servers, step.sid, 0) == Some(step.sid);
    }
    LinksAfterAdd(net.servers, net.local, net.links, net.peers, step.sid, entry);
    AddServerKeepsTreeIff(net.servers, net.local, step.sid, entry);
  }

  /** A step keeps the invariant exactly when it is sound. */
  lemma StepKeepsInvIff(net: Net, step: Step)
    requires Inv(net)
    ensures Inv(Apply(net, step)) <==> Sound(net, step)
  {
    match step
    case Handshake(_, _, _) => AttachKeepsInvIff(net, step);
    case RegisterPeer(_, _, _, _) => AttachKeepsInvIff(net, step);
    case LearnServer(_, _, _, _, _) => LearnKeepsInvIff(net, step);
    case DropLink(_) =>
    case Netsplit(dead) => NetsplitKeepsInvIff(net, dead);
  }

  ghost function Run(net: Net, steps: seq<Step>): Net {
    if steps == [] then net else Apply(Run(net, steps[..|steps| - 1]), steps[|steps| - 1])
  }

  lemma RunAppend(net: Net, steps: seq<Step>, step: Step)
    ensures Run(net, []) == net && Run(net, steps + [step]) == Apply(Run(net, steps), step)
  {
    assert (steps + [step])[..|steps|] == steps;
  }

  ghost predicate SoundRun(net: Net, steps: seq<Step>) {
    forall i :: 0 <= i < |steps| ==> Sound(Run(net, steps[..i]), steps[i])
  }

  /** Along every sound run from an empty topology, every server stays reachable through a chain that ends at a root. */
  lemma {:induction false} RunsStayTrees(local: Sid, users: set<Uid>, steps: seq<Step>)
    requires SoundRun(Net(local, map[], {}, {}, users), steps)
    ensures Inv(Run(Net(local, map[], {}, {}, users), steps))
  {
    if steps != [] {
      var start := Net(local, map[], {}, {}, users);
      var prefix := steps[..|steps| - 1];
      assert forall i :: 0 <= i <= |prefix| ==> prefix[..i] == steps[..i];
      RunsStayTrees(local, users, prefix);
      StepKeepsInvIff(Run(start, prefix), steps[|steps| - 1]);
    }
  }

  /** The chain of `s` ends at us, or at a registered peer that is its own uplink. */
  ghost predicate EndsAtPeer(net: Net, s: Sid) {
    exists n: nat :: Hop(net.servers, s, n).Some?
                     && (var x := Hop(net.servers, s, n).value;
                         x == net.local || (x in net.peers && Route(net.servers, x) == Some(x)))
  }

  lemma ChainsEndAtPeers(net: Net, s: Sid)
    requires Inv(net) && s in net.servers
    ensures EndsAtPeer(net, s)
  {
    var n: nat :| Hop(net.servers, s, n).Some? && Root(net.servers, net.local, Hop(net.servers, s, n).value);
  }

  /** Along every sound run, every chain ends at us or at a registered peer. */
  lemma RunsEndAtPeers(local: Sid, users: set<Uid>, steps: seq<Step>, s: Sid)
    requires SoundRun(Net(local, map[], {}, {}, users), steps)
    requires s in Run(Net(local, map[], {}, {}, users), steps).servers
    ensures EndsAtPeer(Run(Net(local, map[], {}, {}, users), steps), s)
  {
    RunsStayTrees(local, users, steps);
    ChainsEndAtPeers(Run(Net(local, map[], {}, {}, users), steps), s);
  }

  // ---------- Routing is complete while links fall only in netsplits ----------

  /** Every server attached directly to us has a live link. */
  ghost predicate AttachedAreLinked(net: Net) {
    forall s :: s in net.servers && (Route(net.servers, s) == Some(net.local) || Route(net.servers, s) == Some(s))
                ==> s in net.links
  }

  /** Links go down only together with their subtree, and SID never introduces a server as attached to us. */
  ghost predicate KeepsAttached(net: Net, step: Step) {
    && !step.DropLink?
    && (step.LearnServer? ==> step.via != net.local && step.via != step.sid)
  }

  /** The last server before the chain of `s` reaches a root hangs directly off us. */
  lemma {:induction false} ChainMeetsAttached(net: Net, s: Sid, n: nat)
    requires Inv(net) && s in net.servers
    requires Hop(net.servers, s, n).Some? && Root(net.servers, net.local, Hop(net.servers, s, n).value)
    ensures exists m: nat :: m <= n && Hop(net.servers, s, m).Some? && Hop(net.servers, s, m).value in net.servers
                             && (var x := Route(net.servers, Hop(net.servers, s, m).value);
                                 x == Some(net.local) || x == Hop(net.servers, s, m))
  {
    if Hop(net.servers, s, n).value == net.local {
      assert Hop(net.servers, s, 0) == Some(s);
      assert Route(net.servers, Hop(net.servers, s, n - 1).value) == Some(net.local);
    }
  }

  /** The last server on the chain of `s` before us is one of our links. */
  ghost predicate EndsAtLink(net: Net, s: Sid) {
    exists n: nat :: LinkedAt(net.servers, net.links, s, n)
                     && (var x := Route(net.servers, Hop(net.servers, s, n).value);
                         x == Some(net.local) || x == Hop(net.servers, s, n))
  }

  lemma ChainsEndAtLinks(net: Net, s: Sid)
    requires Inv(net) && AttachedAreLinked(net) && s in net.servers
    ensures EndsAtLink(net, s)
  {
    var n: nat :| Hop(net.servers, s, n).Some? && Root(net.servers, net.local, Hop(net.servers, s, n).value);
    ChainMeetsAttached(net, s, n);
    var m: nat :| m <= n && Hop(net.servers, s, m).Some? && Hop(net.servers, s, m).value in net.servers
                  && (var x := Route(net.servers, Hop(net.servers, s, m).value);
                      x == Some(net.local) || x == Hop(net.servers, s, m));
    assert LinkedAt(net.servers, net.links, s, m);
  }

  /** With a link for every attached server, every known server can be routed to. */
  lemma EveryServerRoutable(net: Net, s: Sid)
    requires Inv(net) && AttachedAreLinked(net) && s in net.servers
    ensures NextHop(net.servers, net.links, s).Some?
  {
    ChainsEndAtLinks(net, s);
    var n: nat :| LinkedAt(net.servers, net.links, s, n);
    NextHopMeaning(net.servers, net.links, s);
  }

  /** Along every sound run whose links fall only in netsplits, no known server ever becomes unroutable. */
  lemma {:induction false} RunsStayRoutable(local: Sid, users: set<Uid>, steps: seq<Step>, s: Sid)
    requires SoundRun(Net(local, map[], {}, {}, users), steps)
    requires forall i :: 0 <= i < |steps| ==> KeepsAttached(Run(Net(local, map[], {}, {}, users), steps[..i]), steps[i])
    requires s in Run(Net(local, map[], {}, {}, users), steps).servers
    ensures NextHop(Run(Net(local, map[], {}, {}, users), steps).servers,
                    Run(Net(local, map[], {}, {}, users), steps).links, s).Some?
  {
    RunsStayTrees(local, users, steps);
    RunsStayAttached(local, users, steps);
    EveryServerRoutable(Run(Net(local, map[], {}, {}, users), steps), s);
  }

  /** Along every such run, the last server of every chain is a live link. */
  lemma RunsEndAtLinks(local: Sid, users: set<Uid>, steps: seq<Step>, s: Sid)
    requires SoundRun(Net(local, map[], {}, {}, users), steps)
    requires forall i :: 0 <= i < |steps| ==> KeepsAttached(Run(Net(local, map[], {}, {}, users), steps[..i]), steps[i])
    requires s in Run(Net(local, map[], {}, {}, users), steps).servers
    ensures EndsAtLink(Run(Net(local, map[], {}, {}, users), steps), s)
  {
    RunsStayTrees(local, users, steps);
    RunsStayAttached(local, users, steps);
    ChainsEndAtLinks(Run(Net(local, map[], {}, {}, users), steps), s);
  }

  lemma {:induction false} RunsStayAttached(local: Sid, users: set<Uid>, steps: seq<Step>)
    requires forall i :: 0 <= i < |steps| ==> KeepsAttached(Run(Net(local, map[], {}, {}, users), steps[..i]), steps[i])
    ensures AttachedAreLinked(Run(Net(local, map[], {}, {}, users), steps))
    ensures Run(Net(local, map[], {}, {}, users), steps).local == local
  {
    if steps != [] {
      var start := Net(local, map[], {}, {}, users);
      var prefix := steps[..|steps| - 1];
      assert forall i :: 0 <= i <= |prefix| ==> prefix[..i] == steps[..i];
      RunsStayAttached(local, users, prefix);
      var net := Run(start, prefix);
      if steps[|steps| - 1].Netsplit? {
        assert Hop(net.servers, steps[|steps| - 1].dead, 0) == Some(steps[|steps| - 1].dead);
      }
    }
  }

  // ---------- Links that fall without a netsplit ----------

  /** Two links never lie on one chain: each hangs directly off us. */
  lemma {:induction false} OneLinkPerChain(net: Net, s: Sid, l: Sid, m: nat, n: nat)
    requires net.local !in net.servers && DirectLinks(net.servers, net.local, net.links)
    requires l in net.links && Hop(net.servers, s, m) == Some(l) && LinkedAt(net.servers, net.links, s, n)
    ensures Hop(net.servers, s, n) == Some(l)
  {
    var x := Hop(net.servers, s, n).value;
    if m <= n {
      HopSplit(net.servers, s, m, n - m);
      DirectChain(net.servers, net.local, l, n - m);
    } else {
      HopSplit(net.servers, s, n, m - n);
      DirectChain(net.servers, net.local, x, m - n);
    }
  }

  /**
   A link that is dropped without a netsplit strands exactly the servers behind it: they stay in the topology without a
   next hop, everything else keeps its own, and loop detection turns the peer away until a netsplit has removed it.
   */
  lemma {:induction false} DropLinkStrands(net: Net, l: Sid, s: Sid, name: string, info: string)
    requires Inv(net) && l in net.links
    ensures var after := Apply(net, DropLink(l));
            && after.servers == net.servers && !Enabled(after, Handshake(l, name, info))
            && NextHop(after.servers, after.links, s)
               == if s in Downstream(net.servers, l) then None else NextHop(net.servers, net.links, s)
  {
    var after := Apply(net, DropLink(l));
    if s in Downstream(net.servers, l) {
      var m: nat :| Hop(net.servers, s, m) == Some(l);
      forall n: nat
        ensures !LinkedAt(after.servers, after.links, s, n)
      {
        if LinkedAt(after.servers, after.links, s, n) {
          OneLinkPerChain(net, s, l, m, n);
        }
      }
      NextHopMeaning(after.servers, after.links, s);
    } else {
      forall n: nat
        ensures Hop(net.servers, s, n) != Some(l)
      {
        if Hop(net.servers, s, n) == Some(l) && n > 0 {
          OnChainKnown(net.servers, s, n);
        }
      }
      NextHopAgrees(net.servers, net.links, after.servers, after.links, s);
    }
  }

  /**
   Loop detection does not compare the peer's SID with our own, so a handshake that names the local SID is let through
   and puts the local server below itself.
   */
  lemma OwnSidPassesLoopDetection(local: Sid, users: set<Uid>)
    ensures var net := Net(local, map[], {}, {}, users);
            Inv(net) && Enabled(net, Handshake(local, "", "")) && !Inv(Apply(net, Handshake(local, "", "")))
  {
    StepKeepsInvIff(Net(local, map[], {}, {}, users), Handshake(local, "", ""));
  }
}
