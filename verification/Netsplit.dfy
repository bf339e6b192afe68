/** Netsplit cleanup (`handle_netsplit`, src/sync/split.rs) over the manager, its topology and the user registry. */
module Netsplit {
  import opened Common
  import opened Casemap
  import opened Topology
  import SpanningTree
  import Sync
  import Registry
  import NickIndex
  import NickLaws
  import Membership
  import ServerState

  /** The UIDs that a cut takes with it: those whose first three characters name a server in the cut. */
  ghost function Lost(users: set<Uid>, cut: set<Sid>): set<Uid> {
    set u | u in users && |u| >= 3 && u[..3] in cut
  }

  /** Those among `lost` who list a channel. */
  ghost function Listing(users: map<Uid, Registry.User>, lost: set<Uid>, c: string): set<Uid> {
    set u | u in lost && u in users && c in users[u].channels
  }

  /**
   The registry after the users in `lost` are gone: nobody else changes, a channel loses exactly those of them who listed
   it, and the index each of them under the nick they had.
   */
  ghost predicate Cleared(before: Registry.State, after: Registry.State, lost: set<Uid>) {
    && after.users == before.users - lost
    && ChannelsCleared(before, after, lost) && NicksCleared(before, after, lost)
    && after.sessions == before.sessions && after.fixed == before.fixed && after.timers == before.timers
    && after.senders == before.senders - lost
  }

  ghost predicate ChannelsCleared(before: Registry.State, after: Registry.State, lost: set<Uid>) {
    && after.channels.Keys == before.channels.Keys
    && forall c :: c in before.channels ==> after.channels[c] == before.channels[c] - Listing(before.users, lost, c)
  }

  ghost predicate NicksCleared(before: Registry.State, after: Registry.State, lost: set<Uid>) {
    forall n, x :: NickIndex.Lists(after.nicks, n, x) <==>
      NickIndex.Lists(before.nicks, n, x) && !(x in lost && x in before.users && n == ToLower(before.users[x].nick))
  }

  lemma ClearedNone(st: Registry.State)
    ensures Cleared(st, st, {})
  {
    assert forall c :: Listing(st.users, {}, c) == {};
  }

  lemma ClearedStep(before: Registry.State, st: Registry.State, lost: set<Uid>, u: Uid)
    requires Cleared(before, st, lost) && u in st.users
    ensures Cleared(before, Registry.SplitOff(st, u), lost + {u})
  {
    assert before.users - (lost + {u}) == before.users - lost - {u};
    ChannelsStep(before, st, lost, u);
    NicksStep(before, st, lost, u);
  }

  lemma ChannelsStep(before: Registry.State, st: Registry.State, lost: set<Uid>, u: Uid)
    requires ChannelsCleared(before, st, lost) && u in st.users && u in before.users && st.users[u] == before.users[u]
    ensures ChannelsCleared(before, Registry.SplitOff(st, u), lost + {u})
  {
    forall c | c in before.channels
      ensures Listing(before.users, lost + {u}, c)
           == Listing(before.users, lost, c) + (if c in st.users[u].channels then {u} else {})
    {
    }
  }

  lemma NicksStep(before: Registry.State, st: Registry.State, lost: set<Uid>, u: Uid)
    requires NicksCleared(before, st, lost) && u in st.users && u in before.users && st.users[u] == before.users[u]
    ensures NicksCleared(before, Registry.SplitOff(st, u), lost + {u})
  {
    forall n, x
      ensures NickIndex.Lists(Registry.SplitOff(st, u).nicks, n, x)
         <==> NickIndex.Lists(st.nicks, n, x) && !(n == ToLower(st.users[u].nick) && x == u)
    {
      NickIndex.ListsAfterDrop(st.nicks, ToLower(st.users[u].nick), u, n, x);
    }
  }

  lemma SplitOffConsistent(st: Registry.State, u: Uid)
    requires Registry.Consistent(st)
    ensures Registry.Consistent(Registry.SplitOff(st, u))
  {
    NickLaws.SplitOffIndexed(st, u);
    Membership.SplitOffAgrees(st, u);
  }

  lemma SplitOffStep(before: Registry.State, st: Registry.State, lost: set<Uid>, u: Uid)
    requires Cleared(before, st, lost) && u in st.users
    ensures Cleared(before, Registry.SplitOff(st, u), lost + {u})
    ensures Registry.Consistent(st) ==> Registry.Consistent(Registry.SplitOff(st, u))
  {
    ClearedStep(before, st, lost, u);
    if Registry.Consistent(st) {
      SplitOffConsistent(st, u);
    }
  }

  // ---------- Announcements ----------

  ghost function Quits(uids: seq<Uid>, reason: string): seq<Sync.Message> {
    seq(|uids|, i requires 0 <= i < |uids| => Sync.Quit(uids[i], reason))
  }

  lemma QuitsAppend(uids: seq<Uid>, u: Uid, reason: string)
    ensures Quits(uids + [u], reason) == Quits(uids, reason) + [Sync.Quit(u, reason)]
  {
  }

  /** The nicks that the removed users had, in the order of their removal. */
  ghost predicate Announced(users: map<Uid, Registry.User>, killed: seq<Uid>, announced: seq<string>) {
    && |announced| == |killed|
    && forall i :: 0 <= i < |killed| ==> killed[i] in users && announced[i] == users[killed[i]].nick
  }

  lemma AnnouncedAppend(users: map<Uid, Registry.User>, killed: seq<Uid>, announced: seq<string>, u: Uid)
    requires Announced(users, killed, announced) && u in users
    ensures Announced(users, killed + [u], announced + [users[u].nick])
  {
  }

  lemma HandedNone(links: map<Sid, Sync.Link>)
    ensures Sync.HandedAll(links, []) == links
  {
    forall p | p in links
      ensures Sync.HandedAll(links, [])[p] == links[p]
    {
      assert links[p].sent + [] == links[p].sent;
    }
  }

  lemma HandedOneMore(links: map<Sid, Sync.Link>, msgs: seq<Sync.Message>, msg: Sync.Message)
    ensures Sync.Handed(Sync.HandedAll(links, msgs), msg, links.Keys) == Sync.HandedAll(links, msgs + [msg])
  {
    forall p | p in links
      ensures Sync.Handed(Sync.HandedAll(links, msgs), msg, links.Keys)[p] == Sync.HandedAll(links, msgs + [msg])[p]
    {
      assert links[p].sent + msgs + [msg] == links[p].sent + (msgs + [msg]);
    }
  }

  lemma HandedQuit(links: map<Sid, Sync.Link>, killed: seq<Uid>, u: Uid, reason: string)
    ensures Sync.Handed(Sync.HandedAll(links, Quits(killed, reason)), Sync.Quit(u, reason), links.Keys)
         == Sync.HandedAll(links, Quits(killed + [u], reason))
  {
    QuitsAppend(killed, u, reason);
    HandedOneMore(links, Quits(killed, reason), Sync.Quit(u, reason));
  }

  /** Collects the users of the servers that went away, scanning all users in an arbitrary order. */
  method AffectedUsers(users: set<Uid>, cut: seq<Sid>) returns (affected: set<Uid>)
    ensures affected == Lost(users, Elements(cut))
  {
    affected := {};
    var rest := users;
    while rest != {}
      invariant rest <= users
      invariant affected == Lost(users - rest, Elements(cut))
      decreases rest
    {
      var uid :| uid in rest;
      rest := rest - {uid};
      if |uid| >= 3 {
        if uid[..3] in cut {
          affected := affected + {uid};
        }
      }
    }
    assert users - rest == users;
  }

  /**
   Removes the affected users one by one. Each removal is announced with a QUIT to every link, the dead one included, and
   the nicks of the removed users are kept for the QUITs that the local users get.
   */
  method KillAll(sync: Sync.SyncManager, matrix: ServerState.Matrix, affected: set<Uid>, reason: string)
    returns (killed: seq<Uid>, announced: seq<string>)
    requires affected <= matrix.users.Keys
    modifies sync`links, matrix
    ensures old(Registry.Consistent(matrix.Snapshot())) ==> Registry.Consistent(matrix.Snapshot())
    ensures Cleared(old(matrix.Snapshot()), matrix.Snapshot(), affected)
    ensures Distinct(killed) && Elements(killed) == affected
    ensures Announced(old(matrix.users), killed, announced)
    ensures sync.links == Sync.HandedAll(old(sync.links), Quits(killed, reason))
  {
    killed, announced := [], [];
    ghost var before, links := matrix.Snapshot(), sync.links;
    HandedNone(links);
    ClearedNone(before);
    assert Quits(killed, reason) == [];
    var rest := affected;
    while rest != {}
      invariant rest <= affected && Distinct(killed) && Elements(killed) == affected - rest
      invariant Registry.Consistent(before) ==> Registry.Consistent(matrix.Snapshot())
      invariant Cleared(before, matrix.Snapshot(), Elements(killed))
      invariant Announced(before.users, killed, announced)
      invariant sync.links == Sync.HandedAll(links, Quits(killed, reason))
      decreases rest
    {
      var uid :| uid in rest;
      rest := rest - {uid};
      AppendNew(killed, uid);
      AnnouncedAppend(before.users, killed, announced, uid);
      announced := announced + [matrix.users[uid].nick];
      KillOne(sync, matrix, uid, reason, before, links, killed);
      killed := killed + [uid];
    }
  }

  /** One more user goes, and every link is told. */
  method KillOne(sync: Sync.SyncManager, matrix: ServerState.Matrix, uid: Uid, reason: string,
                 ghost before: Registry.State, ghost links: map<Sid, Sync.Link>, ghost killed: seq<Uid>)
    requires Cleared(before, matrix.Snapshot(), Elements(killed))
    requires uid in matrix.users && sync.links == Sync.HandedAll(links, Quits(killed, reason))
    modifies sync`links, matrix
    ensures old(Registry.Consistent(matrix.Snapshot())) ==> Registry.Consistent(matrix.Snapshot())
    ensures Cleared(before, matrix.Snapshot(), Elements(killed) + {uid})
    ensures sync.links == Sync.HandedAll(links, Quits(killed + [uid], reason))
  {
    SplitOffStep(before, matrix.Snapshot(), Elements(killed), uid);
    HandedQuit(links, killed, uid, reason);
    matrix.SplitOffUser(uid);
    sync.Send(Sync.Quit(uid, reason), None);
  }

  /**
   A dead link: the servers behind it leave the topology, their users leave the registry, and the link goes. The effect
   on servers, links and users is the state machine's Netsplit step; every remaining peer has been sent one QUIT for each
   user that was lost, and nothing else.
   */
  method HandleNetsplit(sync: Sync.SyncManager, matrix: ServerState.Matrix, dead: Sid, reason: string)
    returns (killed: seq<Uid>, announced: seq<string>)
    requires sync.topology.Valid()
    modifies sync, sync.topology, matrix
    ensures sync.topology.Valid()
    ensures old(Registry.Consistent(matrix.Snapshot())) ==> Registry.Consistent(matrix.Snapshot())
    ensures sync.Net(matrix.users.Keys)
         == SpanningTree.Apply(old(sync.Net(matrix.users.Keys)), SpanningTree.Netsplit(dead))
    ensures Distinct(killed) && Elements(killed) == Lost(old(matrix.users.Keys), Downstream(old(sync.topology.servers), dead))
    ensures Cleared(old(matrix.Snapshot()), matrix.Snapshot(), Elements(killed))
    ensures Announced(old(matrix.users), killed, announced)
    ensures sync.links == Sync.HandedAll(old(sync.links), Quits(killed, reason)) - {dead}
  {
    var affectedSids := sync.topology.GetDownstreamSids(dead);
    // The search always finds the dead server itself, so the source's early return on an empty list is never taken.
    assert affectedSids != [] by {
      assert Hop(sync.topology.servers, dead, 0) == Some(dead);
      assert dead in Elements(affectedSids);
    }
    var affectedUsers := AffectedUsers(matrix.users.Keys, affectedSids);
    killed, announced := KillAll(sync, matrix, affectedUsers, reason);
    sync.topology.RemoveServers(affectedSids);
    sync.links := sync.links - {dead};
    sync.peers := sync.peers - Elements(affectedSids);
    SurvivorsAre(old(sync.topology.servers), dead, old(matrix.users.Keys));
  }

  lemma SurvivorsAre(servers: Servers, dead: Sid, users: set<Uid>)
    ensures users - Lost(users, Downstream(servers, dead)) == set u | u in users && SpanningTree.UserSurvives(servers, dead, u)
  {
  }

  /**
   After a netsplit exactly the users outside the cut remain. No nick, channel or sender belongs to one who went, exactly
   if the index and the channels had that user in the right places before.
   */
  lemma OnlySurvivorsRemain(net: SpanningTree.Net, before: Registry.State, after: Registry.State, dead: Sid, u: Uid)
    requires net.users == before.users.Keys
    requires Cleared(before, after, Lost(before.users.Keys, Downstream(net.servers, dead)))
    ensures u in after.users <==> u in SpanningTree.Apply(net, SpanningTree.Netsplit(dead)).users
    ensures u in before.users && u !in after.users ==> (Untraced(after, u) <==> Membership.Filed(before, u))
    ensures u in before.users && u !in after.users && Registry.Consistent(before) ==> Untraced(after, u)
  {
    var lost := Lost(before.users.Keys, Downstream(net.servers, dead));
    SurvivorsAre(net.servers, dead, before.users.Keys);
    if u in lost {
      UntracedIff(before, after, lost, u);
      if Registry.Consistent(before) {
        Membership.ConsistentIsFiled(before, u);
      }
    }
  }

  ghost predicate Untraced(st: Registry.State, u: Uid) {
    && u !in st.senders
    && (forall n :: !NickIndex.Lists(st.nicks, n, u))
    && (forall c :: !Membership.InChannel(st, c, u))
  }

  lemma UntracedIff(before: Registry.State, after: Registry.State, lost: set<Uid>, u: Uid)
    requires Cleared(before, after, lost) && u in lost && u in before.users
    ensures Untraced(after, u) <==> Membership.Filed(before, u)
  {
    forall c
      ensures Membership.InChannel(after, c, u)
         <==> Membership.InChannel(before, c, u) && c !in before.users[u].channels
    {
    }
  }
}
