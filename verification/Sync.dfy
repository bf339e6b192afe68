/**
 The S2S manager object: direct links, routing and broadcasting (src/sync/manager.rs), link registration
 (src/sync/network.rs) and learning remote servers (src/handlers/server/sid.rs, src/handlers/server/base.rs).

 A link's outgoing channel is the sequence of messages handed to it.
 */
module Sync {
  import opened Common
  import opened Topology
  import opened Routing
  import Flood
  import SpanningTree

  /** The messages that the server makes up itself, and those it only passes on. */
  datatype Message =
    | Ping(origin: Sid)
    | Quit(uid: Uid, reason: string)
    | Server(name: string, hopcount: nat, sid: Sid, info: string)
    | Other(text: string)

  const PEER_TIMEOUT: int := 90

  datatype Link = Link(name: string, sent: seq<Message>, lastPong: int)

  /** The links after `msg` has been handed to every peer in `to`. */
  ghost function Handed(links: map<Sid, Link>, msg: Message, to: set<Sid>): map<Sid, Link> {
    map p | p in links :: if p in to then links[p].(sent := links[p].sent + [msg]) else links[p]
  }

  /** The links after each of the messages has been handed to every peer. */
  ghost function HandedAll(links: map<Sid, Link>, msgs: seq<Message>): map<Sid, Link> {
    map p | p in links :: links[p].(sent := links[p].sent + msgs)
  }

  /** Exactly the peers named get the message, after all they had; nothing else about the links changes. */
  lemma HandedIs(links: map<Sid, Link>, msg: Message, to: set<Sid>, p: Sid)
    ensures p in Handed(links, msg, to) <==> p in links
    ensures p in links ==>
              var after := Handed(links, msg, to)[p];
              && after.name == links[p].name && after.lastPong == links[p].lastPong
              && |after.sent| == |links[p].sent| + (if p in to then 1 else 0) && links[p].sent <= after.sent
              && (p in to ==> after.sent[|after.sent| - 1] == msg)
  {
  }

  /** Every peer gets all the messages, in order, after all it had. */
  lemma HandedAllIs(links: map<Sid, Link>, msgs: seq<Message>, p: Sid)
    ensures p in HandedAll(links, msgs) <==> p in links
    ensures p in links ==>
              var after := HandedAll(links, msgs)[p];
              && after.name == links[p].name && after.lastPong == links[p].lastPong
              && links[p].sent <= after.sent && after.sent[|links[p].sent|..] == msgs
  {
  }

  class SyncManager {
    const localId: Sid
    const topology: TopologyGraph
    var links: map<Sid, Link>
    ghost var peers: set<Sid>

    constructor (localId: Sid)
      ensures this.localId == localId && links == map[] && peers == {}
      ensures fresh(topology) && topology.Valid() && topology.servers == map[]
    {
      this.localId := localId;
      topology := new TopologyGraph();
      links := map[];
      peers := {};
    }

    /** What the link-level state machine sees of this object. */
    ghost function Net(users: set<Uid>): SpanningTree.Net
      reads this, topology
    {
      SpanningTree.Net(localId, topology.servers, links.Keys, peers, users)
    }

    // ---------- Links ----------

    /** A finished handshake; refused when loop detection finds the SID in the topology. */
    method AcceptPeer(sid: Sid, name: string, info: string, now: int, ghost users: set<Uid>) returns (accepted: bool)
      requires topology.Valid()
      modifies this, topology
      ensures topology.Valid()
      ensures accepted <==> SpanningTree.Enabled(old(Net(users)), SpanningTree.Handshake(sid, name, info))
      ensures Net(users) == if accepted then SpanningTree.Apply(old(Net(users)), SpanningTree.Handshake(sid, name, info))
                            else old(Net(users))
      ensures accepted ==> links == old(links)[sid := Link(name, [], now)]
    {
      accepted := sid !in topology.servers;
      if accepted {
        links := links[sid := Link(name, [], now)];
        peers := peers + {sid};
        topology.AddServer(sid, name, info, 1, Some(localId));
      }
    }

    method RegisterPeer(sid: Sid, name: string, hopcount: nat, info: string, now: int, ghost users: set<Uid>)
      requires topology.Valid()
      modifies this, topology
      ensures topology.Valid()
      ensures Net(users) == SpanningTree.Apply(old(Net(users)), SpanningTree.RegisterPeer(sid, name, hopcount, info))
      ensures links == old(links)[sid := Link(name, [], now)]
    {
      links := links[sid := Link(name, [], now)];
      peers := peers + {sid};
      topology.AddServer(sid, name, info, hopcount, Some(sid));
    }

    /** A SID command: recorded under its introducer without any check. */
    method LearnServer(sid: Sid, name: string, hopcount: nat, info: string, source: Option<Sid>, peer: Sid,
                       ghost users: set<Uid>)
      requires topology.Valid()
      modifies topology
      ensures topology.Valid()
      ensures Net(users) == SpanningTree.Apply(old(Net(users)),
                SpanningTree.LearnServer(sid, name, hopcount, info, if source.Some? then source.value else peer))
    {
      topology.AddServer(sid, name, info, hopcount, Some(if source.Some? then source.value else peer));
    }

    /** A SERVER command from a peer: recorded if the SID is new, and then announced to the others, one hop farther. */
    method PropagateServer(sid: Sid, name: string, hopcount: nat, info: string, source: Option<Sid>, peer: Sid,
                           ghost users: set<Uid>)
      returns (learnt: bool)
      requires topology.Valid()
      modifies this`links, topology
      ensures topology.Valid()
      ensures learnt <==> sid !in old(topology.servers)
      ensures Net(users) == if learnt then SpanningTree.Apply(old(Net(users)), SpanningTree.LearnServer(sid, name, hopcount,
                              info, if source.Some? then source.value else peer))
                            else old(Net(users))
      ensures links == if learnt then Handed(old(links), Server(name, hopcount + 1, sid, info),
                                             Flood.Forward(Flood.SplitHorizon, old(links.Keys), Some(peer)))
                       else old(links)
    {
      learnt := sid !in topology.servers;
      if learnt {
        topology.AddServer(sid, name, info, hopcount, Some(if source.Some? then source.value else peer));
        Send(Server(name, hopcount + 1, sid, info), Some(peer));
      }
    }

    method RemovePeer(sid: Sid, ghost users: set<Uid>)
      modifies this`links
      ensures links == old(links) - {sid}
      ensures Net(users) == SpanningTree.Apply(old(Net(users)), SpanningTree.DropLink(sid))
    {
      links := links - {sid};
    }

    /** One heartbeat: links silent for longer than the timeout are dropped, the others are kept and pinged. */
    method Heartbeat(now: int)
      modifies this`links
      ensures links.Keys == set p | p in old(links) && now - old(links)[p].lastPong <= 90
      ensures forall p :: p in links ==> links[p] == old(links)[p].(sent := old(links)[p].sent + [Ping(localId)])
    {
      var rest := links.Keys;
      var toDrop: set<Sid> := {};
      while rest != {}
        invariant rest <= links.Keys && links == old(links)
        invariant toDrop == set p | p in links && p !in rest && now - links[p].lastPong > PEER_TIMEOUT
        decreases rest
      {
        var sid :| sid in rest;
        rest := rest - {sid};
        if now - links[sid].lastPong > PEER_TIMEOUT {
          toDrop := toDrop + {sid};
        }
      }
      links := links - toDrop;
      Send(Ping(localId), None);
    }

    // ---------- Sending ----------

    /** Hands the message to every link except the one it came from, in whatever order the links are listed. */
    method Send(msg: Message, source: Option<Sid>)
      modifies this`links
      ensures links == Handed(old(links), msg, Flood.Forward(Flood.SplitHorizon, old(links.Keys), source))
    {
      var rest := links.Keys;
      while rest != {}
        invariant rest <= old(links.Keys)
        invariant links == Handed(old(links), msg,
                    Flood.Forward(Flood.SplitHorizon, old(links.Keys), source) - rest)
        decreases rest
      {
        var peer :| peer in rest;
        rest := rest - {peer};
        if source == Some(peer) {
          continue;
        }
        links := links[peer := links[peer].(sent := links[peer].sent + [msg])];
      }
    }

    /** Observer hooks for user and channel updates: changes that came from a peer are not sent on. */
    method Notify(msg: Message, source: Option<Sid>)
      modifies this`links
      ensures links == Handed(old(links), msg, Flood.Forward(Flood.LocalOnly, old(links.Keys), source))
    {
      if source.Some? {
        return;
      }
      Send(msg, None);
    }

    // ---------- Routing ----------

    /** Walks the parent chain of the target until it meets a link, runs out, or comes back to a server already seen. */
    method GetNextHop(target: Sid) returns (hop: Option<Sid>)
      ensures hop == NextHop(topology.servers, links.Keys, target)
    {
      var current := target;
      var visited: set<Sid> := {};
      ghost var k: nat := 0;
      NextHopMeaning(topology.servers, links.Keys, target);
      while true
        invariant Hop(topology.servers, target, k) == Some(current)
        invariant visited <= topology.servers.Keys
        invariant forall v :: v in visited ==> MetBefore(topology.servers, target, k, v)
        invariant forall i: nat :: i < k ==> !LinkedAt(topology.servers, links.Keys, target, i)
        decreases topology.servers.Keys - visited
      {
        if current in links {
          assert FirstLinkedAt(topology.servers, links.Keys, target, k);
          return Some(current);
        }
        if current in visited {
          NoLinkOnLoop(topology.servers, links.Keys, target, current, k);
          return None;
        }
        var parent := topology.GetRoute(current);
        assert Hop(topology.servers, target, k + 1) == parent by {
          assert Hop(topology.servers, current, 0) == Some(current);
        }
        if parent.None? {
          NoLinkPastEnd(topology.servers, links.Keys, target, k + 1);
          return None;
        }
        OnChainKnown(topology.servers, current, 1);
        MeetOne(topology.servers, target, k, current);
        visited := visited + {current};
        current := parent.value;
        k := k + 1;
      }
    }

    /** Sends towards the server named by the first three characters of the UID, on one link. */
    method RouteToRemoteUser(uid: Uid, msg: Message) returns (routed: bool)
      modifies this`links
      ensures routed <==> |uid| >= 3 && uid[..3] != localId
                          && NextHop(topology.servers, old(links.Keys), uid[..3]).Some?
      ensures links == if routed then Handed(old(links), msg, {NextHop(topology.servers, old(links.Keys), uid[..3]).value})
                       else old(links)
    {
      routed := false;
      if |uid| < 3 {
        return;
      }
      var sid := uid[..3];
      if sid == localId {
        return;
      }
      var hop := GetNextHop(sid);
      NextHopMeaning(topology.servers, links.Keys, sid);
      if hop.Some? {
        links := links[hop.value := links[hop.value].(sent := links[hop.value].sent + [msg])];
        routed := true;
      }
    }
  }

  /** The chain of `s` meets `v` within its first `k` servers. */
  ghost predicate MetBefore(servers: Servers, s: Sid, k: nat, v: Sid) {
    exists i: nat :: i < k && Hop(servers, s, i) == Some(v)
  }

  lemma MeetOne(servers: Servers, s: Sid, k: nat, v: Sid)
    requires Hop(servers, s, k) == Some(v)
    ensures MetBefore(servers, s, k + 1, v) && forall x :: MetBefore(servers, s, k, x) ==> MetBefore(servers, s, k + 1, x)
  {
  }

  lemma NoLinkOnLoop(servers: Servers, links: set<Sid>, s: Sid, v: Sid, k: nat)
    requires Hop(servers, s, k) == Some(v) && MetBefore(servers, s, k, v)
    requires forall j: nat :: j < k ==> !LinkedAt(servers, links, s, j)
    ensures NextHop(servers, links, s).None?
  {
    var i: nat :| i < k && Hop(servers, s, i) == Some(v);
    forall n: nat
      ensures !LinkedAt(servers, links, s, n)
    {
      ChainRepeats(servers, s, i, k, n);
      var j: nat :| j < k && Hop(servers, s, j) == Hop(servers, s, n);
      assert !LinkedAt(servers, links, s, j);
    }
    NextHopMeaning(servers, links, s);
  }

  lemma NoLinkPastEnd(servers: Servers, links: set<Sid>, s: Sid, k: nat)
    requires Hop(servers, s, k).None?
    requires forall j: nat :: j < k ==> !LinkedAt(servers, links, s, j)
    ensures NextHop(servers, links, s).None?
  {
    forall n: nat
      ensures !LinkedAt(servers, links, s, n)
    {
      if n >= k {
        HopSplit(servers, s, k, n - k);
      }
    }
    NextHopMeaning(servers, links, s);
  }
}
