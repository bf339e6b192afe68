# slircd-ng in Dafny

A Dafny 4.11 model of the parts of slircd-ng, an IRC daemon, whose correctness spans several operations or whole runs,
with machine-checked proofs. `dafny verify dfyconfig.toml` checks everything; there is nothing to execute.

## What is modelled

- **One server's links and routing** (`Topology`, `Routing`, `SpanningTree`, `Sync`, `Netsplit`). Each server keeps parent
  pointers and a set of direct links. Routing, the downstream search and netsplit cleanup are methods proved against the
  parent chains, on arbitrary graphs. `SpanningTree` is the state machine of the link steps, with the exact condition
  under which each step keeps a spanning tree.
- **Many servers** (`Graph`, `Flood`, `Storm`, `Quit`, `Mesh`, `MeshRoutes`, `MeshRuns`). How messages spread under every
  delivery order, by each of the rules for passing them on; how servers link up, against what loop detection knows; and
  where following next hops from server to server arrives.
- **History store** (`HistoryKeys`, `HistoryStore`, `HistoryLaws`, `HistoryTargets`, `HistoryListing`, over `Order` and
  `Utf8`). The two tables are maps with string keys; the provider also carries, as ghost state, the plain log of records
  they stand for. All results are about that log, and say what a query or a listing shows in the fields of the query and
  of the stored rows.
- **Handshake and burst** (`Handshake`, `Burst`, `BurstContents`). The machine alone, and an initiator against a responder;
  then the state burst over a snapshot, command by command.
- **Users and nicks** (`Registry`, `Effects`, `NickIndex`, `NickLaws`, `NickRuns`, `Membership`, `Enforcement`,
  `ServerState`, `Casemap`). The user, session, nick, channel, timer and sender maps under fifteen operations: connecting, NICK,
  registration, closing, service users, users taken in from peers, forced rename, SANICK, expiry, joining, service kick,
  +N, disconnect, QUIT from a peer, and netsplit removal. What each of them does, field by field; and three invariants,
  each with the exact condition under which each operation keeps it. Removals, netsplits and expiries are stated on every
  registry, also one that is out of step.
- **Encodings, windows and counters** (`Base32`, `Uid`, `Windows`, `Connections`, `Writeback`).

Code that updates objects in place is a class or a method with loops here, proved against a function of the old state;
pure code is a function. Hash-map iteration is a choice of an arbitrary element, so results hold for every order.
Clocks, random draws and message hashes are parameters. Every operation is one atomic step.

## Where the code does not meet its documentation

The model follows the code. Where a member is named, it states the counterexample or the exact condition.

- Loop detection looks a peer's SID up in the topology, which does not hold the local SID, so our own SID passes
  (`OwnSidPassesLoopDetection`). The SID command is recorded without any check (`AddServerKeepsTreeIff`).
- A new link is announced to nobody but its two ends, so loop detection can miss a cycle of four or more servers
  (`FourServersCloseACycle`, `MissedCyclesAreLong`; `AcceptedLinkKeepsAcyclicIff` is the exact test). On a cycle a KILL
  never stops (`NeverSilent`), as `broadcast` keeps no record of what it has passed on.
- Each end of a new link overwrites its entries with those of the other's burst. Where both know a server that is a peer
  of neither, each then routes to it through the other (`StrangerIsLost`, `FiveServersLoseOne`; `RunsRouteIff`). Where it
  is a peer of one, that end's topology is no longer a spanning tree (`RunsKeepTreesIff`).
- The comments in `src/sync/burst.rs` say that only local users are sent and that the target server is left out of the
  server list. The code sends every user not of the target, and leaves out only the sender (`AnnouncedIffKnown`).
- The heartbeat drops a silent link without netsplit cleanup, so the servers behind it stay listed, cannot be routed to,
  and keep the peer from reconnecting (`DropLinkStrands`). A link of `src/sync/network.rs` is cleaned up when its
  connection ends. One of `src/network/connection/server_loop.rs` never is: it ends with the removal of the link alone,
  as SQUIT does.
- User and channel updates are not relayed, so on a network of more than one hop they do not reach everyone
  (`LocalOnlyReachesAllIff`). The hook for account changes would relay them, but is only ever called for local ones.
- A QUIT is sent back to where it came from as well, since `kill_user` never names a source; it ends all the same
  (`QuitCrossesEachLinkTwice`). An ordinary disconnect sends peers no QUIT at all.
- Registration enters a UID in the nick index that NICK has entered already (`RegistrationRepeats`). Removal takes out
  all copies under the nick the user has, and none under any other.
- NICK claims the new nick before it asks whether the user may change, and a forced rename is not told to the connection;
  both leave stale entries (`PinnedUserHoldsBoth`, `ForcedUserHoldsBoth`). A disconnect does not find them
  (`DisconnectIsComplete`), so a UID can stay indexed when its user and its connection are gone
  (`ClosedUserLeavesOrphan`). Nothing ever removes it, and the nick stays taken (`OrphanStays`).
- A welcome that cannot be written leaves a user without an entry (`FailedWelcomeStrandsUser`).
- A QUIT from a peer, and a nick collision, remove a user without taking them out of their channels (`QuitLeavesGhost`,
  `MergeAgreesIff`).
- A forced rename trusts the old nick it is given (`ForceNickKeepsIndexIff`).
- Zero-padding to twenty places orders non-negative times only. Negative times sort first and in reverse
  (`Pad20Order`); this is where pruning and querying stop commuting (`PruneThenQueryIff`) and where the latest row is
  not the one with the greatest time (`LatestIsGreatestIff`). A query without an end stops before the largest i64.
- UIDs wrap with their 64-bit counter, and 2^64 is not a multiple of 36^6 (`CollisionIff`, `WrapCollides`).
- A failed save clears the dirty bits all the same (`FailedSaveIsForgotten`). Switching a client's always-on off leaves
  its always-on record in the store for as long as it has a session, and a restart brings it back
  (`SwitchedOffComesBack`, `RestartIsRightIff`).
- Netsplit cleanup keeps emptied channels and leaves enforcement timers; pruning leaves the id index as it is.
- The handshake states of `docs/S2S_PROTOCOL.md` differ from those of `src/sync/handshake.rs`.

## Model

| member | source | states |
|---|---|---|
| `Topology.TopologyGraph.GetDownstreamSids` | src/sync/topology.rs:91-116 | Lists, without duplicates, exactly the target and every known server whose parent chain meets it - on every graph, also with loops and dangling parents; terminates although the worklist may hold repeats |
| `Topology.TopologyGraph.PushChildren` | src/sync/topology.rs:104-112 | After the inner scan every child of a processed server is processed or on the worklist, and only downstream servers are there |
| `Topology.ExploredComplete` | src/sync/topology.rs:96-115 | An empty worklist means that all that is downstream has been processed |
| `Topology.ExploredShrinks` | src/sync/topology.rs:96-101 | The termination measure: processing a new server leaves strictly fewer downstream servers |
| `Topology.ClosedSetContains` | src/sync/topology.rs:82-90 | A set with the target that is closed under "child of" contains everything downstream |
| `Topology.TopologyGraph.AddServer` | src/sync/topology.rs:57-75 | The new entry replaces what was filed under its SID; entries stay filed under their own SID |
| `Topology.TopologyGraph.GetRoute` | src/sync/topology.rs:78-80 | The route is the first hop of the parent chain, none for an unknown server |
| `Topology.TopologyGraph.RemoveServers` | src/sync/topology.rs:119-123 | Exactly the listed servers leave the map |
| `Topology.HopSplit` | src/sync/topology.rs:78-80 | Walking m + n parent steps is walking m and then n, and a chain that has ended stays ended |
| `Sync.SyncManager.GetNextHop` | src/sync/manager.rs:257-275 | On every graph, cyclic ones included, terminates with the first linked server on the parent chain of the target, or none if no server on the chain is linked |
| `Routing.NextHopMeaning` | src/sync/manager.rs:257-275 | There is no next hop exactly when no server on the chain is linked; otherwise it is the first linked one |
| `Routing.NextHopDownstream` | src/sync/manager.rs:257-275 | Whatever is routed through a link lies in the downstream set of that link, so a netsplit of the link takes it along |
| `Routing.ChainRepeats` | src/sync/manager.rs:268-270 | A chain that returns to a server never leaves those met before, so stopping at a visited server loses no link |
| `Sync.NoLinkOnLoop` | src/sync/manager.rs:268-270 | Giving up on a visited server is right: no server anywhere on that chain is linked |
| `Sync.NoLinkPastEnd` | src/sync/manager.rs:272-273 | Giving up at the end of the chain is right |
| `Sync.SyncManager.RouteToRemoteUser` | src/sync/manager.rs:59-96 | True exactly when the first three characters of the UID name another server that has a next hop; then exactly that one link gets the message, otherwise no link does |
| `SpanningTree.AddServerKeepsTreeIff` | src/sync/topology.rs:57-75 | Exactly which insertions keep every chain grounded: the SID is not ours, and the parent is us, the server itself, or a known server not already behind it |
| `SpanningTree.StepKeepsInvIff` | src/sync/network.rs:439-475 | Each step - handshake, peer registration, SID command, link drop, netsplit - keeps the spanning tree and direct links if and only if a condition on its arguments holds beforehand |
| `SpanningTree.StepEnters` | src/sync/network.rs:467-475 | What a handshake, a peer registration or a SID command writes down of a server - name, description, hop count, parent - and that no other entry changes |
| `SpanningTree.RunsStayTrees` | src/sync/network.rs:372-475 | Over every run of sound steps from an empty topology every chain is grounded, every link is attached to us, and only registered peers are linked or self-pointing |
| `SpanningTree.RunsEndAtPeers` | src/sync/network.rs:439-475 | In every such run every chain ends at us or at a self-pointing server that was registered as a peer and not split off since |
| `SpanningTree.RunsEndAtLinks` | src/sync/manager.rs:257-275 | When links fall only by netsplit, the last server of every chain is a live link |
| `SpanningTree.RunsStayRoutable` | src/sync/manager.rs:257-275 | Over every such run in which links fall only by netsplit, every known server always has a next hop |
| `SpanningTree.EveryServerRoutable` | src/sync/manager.rs:257-275 | In a tree whose attached servers are all linked, every known server has a next hop |
| `SpanningTree.RunsStayAttached` | src/sync/manager.rs:175-208 | Servers attached directly to us stay linked while links fall only by netsplit |
| `SpanningTree.DropLinkStrands` | src/sync/manager.rs:116-129 | A link dropped by the heartbeat strands exactly the servers behind it: they stay in the topology without a next hop, all others keep theirs, and loop detection refuses the peer from then on |
| `SpanningTree.OneLinkPerChain` | src/sync/manager.rs:257-275 | No parent chain meets two links |
| `SpanningTree.CutKeepsTree` | src/sync/split.rs:111-118 | Removing a downstream set leaves every remaining chain grounded |
| `SpanningTree.NetsplitKeepsRoutes` | src/sync/split.rs:40-121 | On every graph, a server outside the cut keeps exactly the next hop it had |
| `SpanningTree.NetsplitCutsOff` | src/sync/split.rs:40-121 | What is cut off becomes unroutable, no surviving server points into the cut, and the surviving users are exactly those whose SID prefix lies outside it |
| `SpanningTree.NetsplitKeepsInvIff` | src/sync/split.rs:40-121 | A netsplit keeps the invariant exactly unless it names our own SID while some link hangs below us |
| `SpanningTree.LoopNeverGrounds` | src/handlers/server/sid.rs:34-45 | A server learnt below one of its own descendants is on a loop that never reaches a root |
| `SpanningTree.DanglingNeverGrounds` | src/handlers/server/sid.rs:34-45 | A server learnt below an unknown parent never reaches a root |
| `SpanningTree.OwnSidPassesLoopDetection` | src/sync/network.rs:372-387 | The counterexample to "loop detection keeps the tree": our own SID is let through and breaks the invariant |
| `Sync.SyncManager.AcceptPeer` | src/sync/network.rs:372-475 | A finished handshake is refused exactly when the SID is in the topology, and otherwise performs the Handshake step |
| `Sync.SyncManager.RegisterPeer` | src/sync/manager.rs:175-208 | Performs the RegisterPeer step: a new link, and an entry that is its own parent |
| `Sync.SyncManager.LearnServer` | src/handlers/server/sid.rs:34-45 | Performs the LearnServer step below the message prefix, or below the sending peer without one |
| `Sync.SyncManager.RemovePeer` | src/sync/manager.rs:228-230 | Performs the DropLink step: the topology keeps the server |
| `Sync.SyncManager.Heartbeat` | src/sync/manager.rs:98-144 | Drops exactly the links silent for more than 90 seconds and pings exactly the others |
| `Sync.SyncManager.PropagateServer` | src/handlers/server/base.rs:120-178 | A SERVER command from a peer is ignored for a known SID; otherwise it performs the LearnServer step, and all other links, and no others, are handed a SERVER for the same name, SID and description with a hop count one higher |
| `Netsplit.HandleNetsplit` | src/sync/split.rs:28-129 | On every registry: its effect on servers, links and users is the Netsplit step; exactly the users of the cut go, each from the channels they list and from the index under the nick they had, and a consistent registry stays consistent; every remaining peer is sent exactly one QUIT for each of them, and the nicks announced to local users are theirs |
| `Netsplit.AffectedUsers` | src/sync/split.rs:63-78 | Collects exactly the UIDs whose first three characters name a server in the cut |
| `Netsplit.KillAll` | src/sync/split.rs:88-110 | On every registry, removes the given users one by one from users, senders, the channels they list and the index under their nick, changes nobody else, and hands one QUIT per user to every link |
| `Netsplit.ClearedStep` | src/sync/split.rs:132-171 | Removing one more user takes exactly that user out of exactly the channels they list |
| `Netsplit.OnlySurvivorsRemain` | src/sync/split.rs:40-121 | Afterwards exactly the users outside the cut remain; no nick, channel or sender belongs to one who is gone if and only if the index had that user under their own nick only and no channel had them that they did not list |
| `Flood.FloodDeliversExactlyOnce` | src/handlers/server/kill.rs:58-69 | In every tree of servers and for every delivery order: no server gets the message twice, the origin never gets it back, and the wire is silent exactly after n - 1 deliveries, when all others have it |
| `Flood.FloodIsOrderlyIff` | src/sync/manager.rs:235-255 | For connected servers that holds from every origin and in every order if and only if their links form a tree |
| `Flood.CycleComesBack` | src/sync/manager.rs:235-255 | On a cycle the message can come back to its origin |
| `Storm.NeverSilent` | src/handlers/server/kill.rs:58-69 | From every origin that is connected to a cycle and after every schedule, something is still on the wire |
| `Storm.FallsSilentIff` | src/handlers/server/kill.rs:58-69 | A flood over connected servers can end, in some order, if and only if their links form a tree |
| `Storm.StaysAlive` | src/sync/manager.rs:235-255 | A hop that has a cycle ahead of it is followed by another that has |
| `Flood.RunInvariant` | src/sync/manager.rs:235-255 | At every point of every schedule the messages on the wire lead into separate parts of the tree that together hold exactly the uninformed servers |
| `Flood.FrontierStep` | src/sync/manager.rs:235-255 | One delivery keeps those parts separate, complete and ahead of the informed servers |
| `Graph.SideDivides` | src/sync/manager.rs:235-255 | In a tree, the far side of a link is the receiver together with the far sides of its other links |
| `Flood.LocalOnlyReachesPeers` | src/sync/observer.rs:141-162 | A user update, which is not relayed, is handed once to each direct peer of the origin and to nobody else, in every order |
| `Flood.LocalOnlyReachesAllIff` | src/state/managers/user.rs:486-488 | It informs all servers if and only if all others are direct peers of the origin |
| `Quit.QuitReachesHolders` | src/handlers/connection/quit.rs:17-44 | On every graph and in every order a QUIT makes no server remove the user twice, and once the wire is silent exactly the holders linked to the origin through holders have done so |
| `Quit.QuitCrossesEachLinkTwice` | src/state/managers/user.rs:494-541 | On every connected graph of holders, cycles included, the wire is silent exactly after twice as many deliveries as there are links, and every server has then removed the user once |
| `Quit.SpreadInvariant` | src/state/managers/user.rs:536-539 | Every hop from a server that has removed the user is on the wire or delivered, once, and no other hop is |
| `Mesh.AcceptedLinkKeepsAcyclicIff` | src/sync/network.rs:372-475 | A link that loop detection lets through keeps the links acyclic if and only if the other end cannot be found by following topologies from server to server |
| `Mesh.RunsStayAcyclicIff` | src/sync/network.rs:372-475 | The links of a run are acyclic if and only if every accepted link joined servers that were apart in that sense |
| `Mesh.FourServersCloseACycle` | src/sync/network.rs:372-387 | Two pairs, a link between them, and a link between the outer two: loop detection lets all four through and they form a cycle |
| `Mesh.RefusedWereConnected` | src/sync/network.rs:372-387 | Loop detection never refuses a link between servers that are not connected |
| `Mesh.MissedCyclesAreLong` | src/sync/network.rs:372-387 | Servers that loop detection wrongly lets link are at least three links apart |
| `Mesh.KnowledgeClosure` | src/sync/network.rs:407-475 | Following topologies from server to server finds exactly the servers that are connected |
| `Mesh.RunsKeepPeersOfPeersKnown` | src/sync/burst.rs:190-204 | In every run, of two peers of a server one has the other in its topology |
| `Mesh.RunsKeepKnownConnected` | src/sync/burst.rs:190-204 | In every run a server is connected to all it has in its topology |
| `Mesh.FloodsAreOrderly` | src/sync/manager.rs:235-255 | Where accepted links joined servers that were apart, flooding is orderly |
| `MeshRuns.ApartRunsRoute` | src/sync/manager.rs:257-275 | Where accepted links joined servers that were apart, every topology is a spanning tree, and following next hops from server to server reaches every server that is known |
| `MeshRuns.RunsRouteIff` | src/sync/manager.rs:257-275 | For every run of attempts to link, cycles included: all such routes work at every point of it if and only if the ends of no accepted link shared a server that was a peer of neither |
| `MeshRuns.RunsKeepTreesIff` | src/handlers/server/sid.rs:34-45 | After every run each topology satisfies the spanning-tree invariant if and only if the ends of no accepted link shared a server that was a peer of one of them |
| `MeshRoutes.LinkKeepsRoutesIff` | src/sync/network.rs:407-475 | An accepted link keeps all routes if and only if its ends share no server that is a peer of neither |
| `MeshRoutes.StrangerIsLost` | src/handlers/server/sid.rs:34-45 | Otherwise each end takes the server from the burst of the other, and each sends whatever is for it to the other, without end |
| `MeshRuns.FiveServersLoseOne` | src/handlers/server/sid.rs:34-45 | A chain of five on which all routes work; a link between its ends passes loop detection, and from then on the ends cannot reach the middle |
| `MeshRoutes.RouteIsPath` | src/sync/manager.rs:257-275 | Where next hops arrive at all they do so over links, and pass no server twice |
| `MeshRoutes.NextIs` | src/sync/manager.rs:257-275 | In every run the next hop to a known server is that server if it is a peer, and otherwise the peer that announced it last |
| `MeshRoutes.BurstInAnyOrder` | src/handlers/server/sid.rs:34-45 | A burst makes the same entries in whatever order its commands come |
| `MeshRoutes.EntrySays` | src/handlers/server/sid.rs:20-45 | After linking, the entry of the peer says what its handshake said, and the others what the burst said, one hop farther |
| `MeshRoutes.RunsRefine` | src/sync/network.rs:407-475 | In every run the topologies hold the SIDs of the plain mesh, the links agree, and every uplink is the server itself or a peer |
| `Graph.JoinKeepsAcyclicIff` | src/sync/network.rs:439-475 | A new link keeps a graph acyclic exactly when its ends were not connected |
| `Sync.SyncManager.Send` | src/sync/manager.rs:235-255 | Hands the message to every link but the one it came from, once, and changes nothing else |
| `Sync.HandedIs` | src/sync/manager.rs:235-255 | Being handed a message means that exactly the peers named have it after all they had before |
| `Sync.SyncManager.Notify` | src/sync/observer.rs:141-162 | Hands local changes to every link and remote ones to none |
| `NickLaws.StepKeepsIndexIff` | src/handlers/connection/nick.rs:167-356 | Each of fifteen operations keeps the index - exactly the users and the pending claims, under their folded nicks, no empty list - if and only if a condition on the state before holds; for all but NICK, registration and forced rename that is no condition |
| `NickLaws.RunsKeepIndex` | src/handlers/connection/nick.rs:167-356 | Over every run of operations that meet it, the index is exactly that |
| `NickLaws.NickKeepsIndexIff` | src/handlers/connection/nick.rs:167-356 | The user's own NICK keeps the index exactly if it changes nothing, or the connection has yet to register, or only case changes, or no channel is +N and the nick that the connection holds folds to the user's |
| `NickLaws.PinnedNickIff` | src/handlers/connection/nick.rs:268-307 | Under +N the nick stays claimed, so the index is wrong unless it folds to the one the user has |
| `NickRuns.PinnedUserHoldsBoth` | src/handlers/connection/nick.rs:268-307 | From an empty server: connect, NICK, register, join, +N, NICK; the user keeps the old nick and is indexed under both |
| `NickLaws.ForcedUserIsStuck` | src/services/effect.rs:394-416 | After a forced rename the user cannot take the old nick back, and taking any other leaves the forced one behind |
| `NickRuns.ForcedUserHoldsBoth` | src/services/effect.rs:394-416 | From an empty server: connect, NICK, register, forced rename, NICK; the user is indexed under the forced and the new nick |
| `NickRuns.ClosedUserLeavesOrphan` | src/state/matrix.rs:525-611 | When that user closes the connection, the forced nick stays indexed with no user and no connection |
| `NickRuns.OrphanStays` | src/handlers/connection/nick.rs:167-266 | Such an entry survives every run of operations that does not bring its UID in again, and all the while the nick is refused to everyone else who may not share it |
| `NickLaws.RegisterKeepsIndexIff` | src/handlers/connection/welcome_burst.rs:590-632 | Registration keeps the index exactly when the welcome is written |
| `NickLaws.FailedWelcomeStrandsUser` | src/network/connection/handshake.rs:410-413 | A welcome that cannot be written leaves a user whom no nick finds |
| `NickLaws.StepKeepsNoRepeatsIff` | src/state/managers/user.rs:274-297 | No UID is listed twice, operation by operation: exactly every registration that goes through breaks it, and a forced rename to the current nick under a wrong old one |
| `NickRuns.RegistrationRepeats` | src/handlers/connection/welcome_burst.rs:597-597 | Connect, NICK, register: the whole state that this leaves, with the UID in the index twice |
| `NickLaws.ForceNickKeepsIndexIff` | src/services/effect.rs:394-416 | A forced rename keeps the index if and only if its old or its new nick folds to the current one |
| `NickIndex.StaleMoveAgreesIff` | src/services/effect.rs:394-416 | Dropping the wrong key leaves the old entry behind |
| `NickLaws.SanickIndexed` | src/handlers/admin.rs:214-287 | SANICK keeps the index |
| `NickLaws.SanickTakesFreeNick` | src/handlers/admin.rs:214-287 | A SANICK that goes through takes a free nick and gives it to the first user of the old one alone |
| `NickLaws.MergeIndexed` | src/state/managers/user.rs:316-488 | Taking in a user from a peer keeps the index, collisions of every age included |
| `NickLaws.RestoreIsIdle` | src/state/managers/user.rs:368-381 | The repair after a collision never finds anything to repair |
| `NickLaws.KillIndexed` | src/state/managers/user.rs:494-541 | Killing a user keeps the index |
| `NickLaws.CloseIndexed` | src/network/connection/handshake.rs:40-57 | The end of a connection keeps the index, before and after registration |
| `NickIndex.Without` | src/services/effect.rs:397-403 | Keeps exactly the other UIDs; all copies of this one go |
| `NickIndex.PushNoRepeatsIff` | src/state/managers/user.rs:279-282 | Pushing repeats a UID exactly when the list has it already |
| `Membership.StepKeepsMembershipIff` | src/services/effect.rs:329-371 | Each operation keeps user and channel lists in agreement if and only if it kills nobody who is on a channel |
| `Membership.QuitAgreesIff` | src/handlers/connection/quit.rs:29-33 | A QUIT from a peer keeps memberships in agreement if and only if the user is on no channel |
| `Membership.QuitLeavesGhost` | src/handlers/connection/quit.rs:29-33 | Otherwise the channel still lists the user who is gone |
| `Membership.MergeAgreesIff` | src/state/managers/user.rs:352-391 | A nick collision keeps memberships in agreement if and only if nobody it kills is on a channel |
| `Membership.RunsStayConsistent` | src/services/effect.rs:329-416 | Over every run of sound operations index and memberships are right |
| `Membership.DisconnectAgrees` | src/state/matrix.rs:525-611 | A disconnect keeps memberships in agreement |
| `Membership.DisconnectIsComplete` | src/state/matrix.rs:525-611 | In every state: a full disconnect leaves the UID in no map if and only if the index had it under its own nick only, however often, and no channel had it that it did not list; consistent states qualify; nobody else changes in index or channels |
| `Membership.SplitOffAgrees` | src/sync/split.rs:132-171 | Netsplit removal, which leaves the channels first, keeps memberships in agreement |
| `Membership.DisconnectChannels` | src/state/matrix.rs:543-567 | Where memberships agree, exactly the channels where the user was alone are dropped |
| `Membership.KickAgrees` | src/services/effect.rs:329-371 | A service kick keeps memberships in agreement |
| `Enforcement.RenameToFree` | src/services/enforce.rs:91-106 | In every state a free nick becomes its new user's alone, and other nicks with one user keep that user |
| `Enforcement.EnforceStep` | src/services/enforce.rs:46-89 | In every state one expiry does not take away a guest nick given out earlier in the same sweep |
| `Enforcement.ExpireConsistent` | src/services/enforce.rs:46-89 | An expiry keeps index and memberships, since it passes on the current nick |
| `Enforcement.GuestNickIs` | src/services/enforce.rs:91-106 | A guest nick is Guest and the five digits of the number drawn |
| `ServerState.Matrix.HandleNick` | src/handlers/connection/nick.rs:93-432 | The step-by-step edit of the maps is the ChangeNick transition: claim, then +N, then give up the old nick |
| `ServerState.Matrix.Claim` | src/handlers/connection/nick.rs:167-266 | The claim of a nick: vacant, ours, to be shared, or refused |
| `ServerState.Matrix.HandleRegister` | src/handlers/connection/welcome_burst.rs:590-632 | The edit is the Register transition |
| `ServerState.Matrix.HandleClose` | src/network/connection/mod.rs:227-302 | The edit is the Close transition |
| `ServerState.Matrix.ApplyForceNick` | src/services/effect.rs:373-416 | The edit is the ForceNick transition |
| `ServerState.Matrix.HandleSanick` | src/handlers/admin.rs:214-287 | The edit is the Sanick transition; it renames exactly when the first holder of the old nick is a user and the new one is free |
| `ServerState.Matrix.ApplyKick` | src/services/effect.rs:329-371 | The edit is the Kick transition |
| `Effects.KickTakesOut` | src/services/effect.rs:358-371 | A service kick of a member takes the user out of the channel and the channel out of the list of the user; every other member, user, channel, nick, session, timer, sender and mode is as before |
| `Effects.NobodyMoved` | src/services/effect.rs:329-357 | A kick of someone who is not here or not on the channel changes nothing |
| `Effects.JoinPutsIn` | src/handlers/channel/join/responses.rs:60-70 | Joining puts the user in the channel and the channel in the list of the user, and changes nothing else |
| `Effects.ModeTakesEffect` | src/state/actor/handlers/modes.rs:77-79 | +N and -N set and clear the mode of that channel alone |
| `Effects.NickTakesEffect` | src/handlers/connection/nick.rs:308-432 | A NICK that goes through: the connection and its user have the nick, a pending enforcement is off, and the index has moved that UID alone |
| `Effects.NickHeld` | src/handlers/connection/nick.rs:268-307 | On a +N channel nothing changes but an entry in the index |
| `Effects.NickRefused` | src/handlers/connection/nick.rs:93-262 | A NICK for the nick that the connection has, or for one in use that may not be shared, changes nothing |
| `Effects.NickLeavesOthers` | src/handlers/connection/nick.rs:93-432 | NICK changes no other user, connection or timer, and no channel |
| `Effects.RegisterTakesEffect` | src/handlers/connection/welcome_burst.rs:590-632 | Registration makes a user on no channel under the nick of the connection; with the welcome written a sender and an entry, without it no session and no entry |
| `Effects.TakeInTakesEffect` | src/state/managers/user.rs:397-488 | A user new to the server comes in under the nick announced; a known one goes over to the nick that the merge settled on, and keeps the channels |
| `Effects.MergeOutcome` | src/state/managers/user.rs:352-391 | After a collision exactly the older of the two is left, or neither at a tie; nobody else is concerned |
| `Effects.RestoreTakesEffect` | src/state/managers/user.rs:368-381 | After a collision the survivor is in the index under their nick, even if it had lost them |
| `Effects.RenameTakesEffect` | src/services/effect.rs:373-416 | A forced rename gives the user the new nick and moves that UID alone in the index; the connection is not told |
| `Effects.SanickTakesEffect` | src/handlers/admin.rs:214-287 | SANICK is the forced rename of the first user of the old nick, exactly if that is a user and the new one is free |
| `Effects.ExpireTakesEffect` | src/services/enforce.rs:46-89 | An expiry removes the timer, and renames exactly a user who is here and has a sender |
| `Effects.DisconnectTakesOut` | src/state/matrix.rs:395-426 | A disconnect removes the user with timer, sender and entry; all others keep theirs, and a channel that stays keeps its mode |
| `Effects.DisconnectLeaves` | src/state/matrix.rs:543-567 | It leaves exactly the channels that the user lists, and drops exactly those of them where nobody else is |
| `Effects.KillTakesOut` | src/state/managers/user.rs:494-541 | A kill removes the user, the sender and the entry, and nothing else |
| `Effects.SplitOffTakesOut` | src/sync/split.rs:132-171 | A netsplit removal also leaves the channels that the user lists, and drops none |
| `ServerState.Matrix.ApplyNoNickChange` | src/state/actor/handlers/modes.rs:77-79 | The edit is the SetFixed transition: +N or -N on a channel that exists |
| `ServerState.Matrix.GenerateGuestNick` | src/services/enforce.rs:91-106 | Returns a guest nick that nobody has; fails to, on a finite list of draws, exactly when all of them are taken |
| `ServerState.Matrix.CheckExpiredTimers` | src/services/enforce.rs:31-89 | On every registry, removes exactly the expired timers; each expired user who can be reached ends with a guest nick that is nobody else's, also when several expire together; everyone else is unchanged. When the draws run out it stands at one user, with those before done and the rest untouched |
| `ServerState.Matrix.LeaveChannels` | src/state/matrix.rs:543-567 | Leaves every listed channel and drops exactly those left empty, with their modes |
| `ServerState.Matrix.DisconnectUser` | src/state/matrix.rs:395-426 | The edit is the Disconnect transition; returns the channels left |
| `ServerState.Matrix.KillUser` | src/state/managers/user.rs:494-541 | The edit is the Kill transition: users, nicks and senders, but not channels |
| `ServerState.Matrix.SplitOffUser` | src/sync/split.rs:100-110 | The edit is the SplitOff transition: channels first, then killed |
| `ServerState.Matrix.MergeUser` | src/state/managers/user.rs:316-395 | The edit is the Merge transition, with its three outcomes of a collision |
| `Casemap.LowerCharIff` | crates/slirc-proto/src/casemap.rs:15-24 | Folding identifies two characters exactly if they are equal, a capital and its small letter, or one of the four bracket pairs; it leaves nothing that could be folded further |
| `Casemap.FoldedEquality` | crates/slirc-proto/src/casemap.rs:33-35 | Two strings fold to the same exactly if they have the same length and the same letters up to case |
| `Casemap.IrcEqIsFoldedEquality` | crates/slirc-proto/src/casemap.rs:40-48 | The truncating comparison behind a byte-length check means equality of the folded strings, and so equality up to case, for all Unicode strings |
| `HistoryKeys.KeyOrder` | src/history/redb.rs:31-35 | The key encoding is an order embedding for NUL-free targets: keys compare as (target, padded time, id), and are equal only for equal records |
| `HistoryKeys.KeyByteOrder` | src/history/redb.rs:31-35 | The same for the UTF-8 bytes that the table compares |
| `HistoryKeys.Pad20Order` | src/history/redb.rs:34-34 | The padded times of all i64 values: non-negative in order, negative before them and in reverse |
| `HistoryKeys.RecLessInTime` | src/history/redb.rs:31-35 | For non-negative times the order is by time, then id |
| `HistoryKeys.TimesRoundTrip` | src/history/redb.rs:70-70 | Padded and plain forms parse back to the time |
| `HistoryKeys.ParseIff` | src/history/redb.rs:209-216 | Exactly what parses as a time: digits, with or without a sign, for a number in range |
| `HistoryKeys.KeyFields` | src/history/redb.rs:209-216 | Splitting a key at NULs recovers target and time, whatever the id holds |
| `HistoryKeys.IndexValueField` | src/history/redb.rs:247-257 | The time in an index value is read back |
| `Utf8.EncodeOrder` | src/history/redb.rs:114-116 | UTF-8 keeps the order of strings |
| `Order.LessNulTerminated` | src/history/redb.rs:31-35 | A NUL after the name separates it from all other NUL-free names, also when one is a prefix of the other |
| `Order.AscendingUnique` | src/history/redb.rs:114-116 | A set has one ascending enumeration, so a range scan is determined by its key set |
| `HistoryStore.RedbProvider.RunQuery` | src/history/redb.rs:81-187 | The range scan returns what filtering, sorting, cutting to the limit (from the end when reversed) and decoding the record log gives, for loose and precise bounds, and the decoding error when a selected row is unreadable |
| `HistoryStore.RangeHoldsMatches` | src/history/redb.rs:92-116 | A row's key lies between the bound keys exactly when the row matches the query |
| `HistoryStore.ScanIsInOrder` | src/history/redb.rs:114-116 | The scan of the range lists the keys of the matching rows in record order |
| `HistoryStore.RedbProvider.ReadRows` | src/history/redb.rs:133-184 | Decodes the rows up to the limit, and fails exactly on an unreadable row among them |
| `HistoryStore.DecodeRowsMeaning` | src/history/redb.rs:142-157 | An answer is given exactly when all selected rows decode, and then holds their items in order |
| `HistoryLaws.MatchesIff` | src/history/redb.rs:92-112 | For every row and every query, in the fields of the query: matching is the folded target, at or after the start by (time, id), or after 1970 without one, and before the end, or before the largest i64 without one |
| `HistoryLaws.MatchesInTime` | src/history/redb.rs:92-112 | The same for a row of non-negative time, in the order of the numbers |
| `HistoryLaws.AnswerListsIff` | src/history/redb.rs:133-184 | With room for all of them, the answer holds exactly the items that the rows between the bounds were stored with, in the current or the older format |
| `HistoryLaws.SelectedInTime` | src/history/redb.rs:136-184 | The selected rows come oldest first, or newest first when reversed |
| `HistoryStore.RedbProvider.StoreItem` | src/history/redb.rs:44-79 | The log gains the record under its folded target, time and id; the index gains the id |
| `HistoryLaws.StoreFiles` | src/history/redb.rs:44-79 | After any run, storing files the item under its folded target, its time and its own id, makes the id look up to that time, and changes no other row |
| `HistoryStore.KeyedInsert` | src/history/redb.rs:52-66 | Inserting the key keeps the table in step with the log |
| `HistoryStore.StoreKeepsIdsIff` | src/history/redb.rs:64-72 | Storing keeps every row's id resolving to its time exactly when no remaining row has the id at another time |
| `HistoryLaws.RunsKeepIds` | src/history/redb.rs:189-259 | After every run of stores and prunes in which no id is stored twice, every remaining row's id looks up to its own time |
| `HistoryLaws.PruneKeepsIds` | src/history/redb.rs:189-230 | Pruning leaves the ids of the remaining rows resolving |
| `HistoryStore.RedbProvider.Prune` | src/history/redb.rs:189-230 | Removes exactly the rows older than the cutoff and returns their number |
| `HistoryLaws.PruneTakesOut` | src/history/redb.rs:189-230 | After any run, pruning takes out exactly the rows before the cutoff, and no id |
| `HistoryStore.RedbProvider.PruneOlder` | src/history/redb.rs:189-230 | The cutoff is the clock less the retention time in wrapping 64-bit arithmetic; exactly the rows before it go |
| `HistoryStore.CutoffIsAgeIff` | src/history/redb.rs:190-191 | That is the age meant if and only if it is a 64-bit time |
| `HistoryStore.CollectExpired` | src/history/redb.rs:202-219 | Collects exactly the keys whose second field is a time before the cutoff |
| `HistoryStore.PruneKeeps` | src/history/redb.rs:202-226 | Removing those keys removes exactly the expired records |
| `HistoryStore.PruneCount` | src/history/redb.rs:221-226 | As many keys as records are removed |
| `HistoryStore.RedbProvider.LookupTimestamp` | src/history/redb.rs:232-259 | Returns the time that the id was last stored with, none for an id never stored |
| `HistoryLaws.PruneThenQuery` | src/history/redb.rs:189-230 | Prune, then query loosely, is the same query on the full store with its start raised to the cutoff |
| `HistoryLaws.PruneThenQueryIff` | src/history/redb.rs:189-230 | For every query from a loose start, that law holds on all well-formed stores if and only if the limit is zero, the start or the cutoff is not negative, the cutoff is the least i64, or a negative end shuts out the rows on which they would differ |
| `HistoryLaws.PruneThenQueryDiffers` | src/history/redb.rs:189-230 | The single stored message on which it fails otherwise |
| `HistoryLaws.PagesListEverything` | src/history/redb.rs:90-186 | Paging backwards from the oldest item of each page, with any page size from 1, lists every item before the start once, newest first, also at equal times |
| `HistoryLaws.PageIsAnswer` | src/history/redb.rs:81-187 | A page is what the reversed query with that end bound and limit answers |
| `HistoryLaws.RemainingSplits` | src/history/redb.rs:102-112 | A page is the front of what remains, and the next page starts at the rest |
| `HistoryLaws.EarlierThan` | src/history/redb.rs:102-112 | The end bound made from an item selects exactly what stands before it |
| `HistoryTargets.QueryTargets` | src/history/redb.rs:261-370 | Returns the listed names and latest times of all stored targets that concern the user and lie in the window, in stable time order, cut to the limit |
| `HistoryListing.ListingIff` | src/history/redb.rs:282-363 | Before sorting, a name is listed with a time exactly if some stored target is listed to the user under that name, was last active at that time, and that lies in the window |
| `HistoryListing.DisplayIff` | src/history/redb.rs:309-334 | For every target name: a channel is listed under its own name exactly if the user is on it, a conversation under the name of the other one, and nothing else is listed |
| `HistoryListing.FoldedIff` | src/history/redb.rs:278-280 | The channels that count as the user's are those given, folded |
| `HistoryListing.ConversationListed` | src/handlers/messaging/privmsg.rs:437-443 | Of the two in a conversation each is shown the other, and anybody else is shown nothing |
| `HistoryTargets.Scan` | src/history/redb.rs:282-363 | The skip-scan visits every stored target once, in order, and terminates |
| `HistoryTargets.ScannedStep` | src/history/redb.rs:283-305 | After a jump the cursor stands past all keys of the visited targets and before all others |
| `HistoryTargets.ScannedAll` | src/history/redb.rs:283-305 | At the end exactly the stored targets have been visited |
| `HistoryTargets.CursorAdvances` | src/history/redb.rs:299-300 | A jump leaves strictly fewer keys ahead of the cursor |
| `HistoryTargets.BelowPastTarget` | src/history/redb.rs:299-300 | The jump goes past the keys of the target and of no later one, even of one that it is a prefix of |
| `HistoryTargets.TargetRange` | src/history/redb.rs:336-352 | The last key between the bounds of a target holds the time of its last record |
| `HistoryTargets.Examine` | src/history/redb.rs:306-360 | One target contributes its listed name and latest time, or nothing |
| `HistoryTargets.LatestIsGreatestIff` | src/history/redb.rs:336-358 | The latest time is the greatest exactly when some time of the target is not negative or all are equal |
| `HistoryTargets.SortIsStable` | src/history/redb.rs:365-367 | The sort orders by time, keeps all entries, and keeps the order of equal times |
| `Handshake.BurstsWhenAllSeen` | src/sync/handshake.rs:117-130 | In every error-free run the machine bursts at the first command that completes PASS, CAPAB, SERVER and SVINFO, not before; there the first block with the last SERVER name holds the last PASS password and both SIDs agree with the stored one |
| `Handshake.BurstingIsAbsorbing` | src/sync/handshake.rs:107-113 | Once bursting, any commands change nothing and get no reply |
| `Handshake.OrderDoesNotMatter` | src/sync/handshake.rs:132-284 | Any commands of different kinds give the same machine, replies or error in every order |
| `Handshake.AnyOrderFromTheStart` | src/sync/handshake.rs:132-284 | So a machine that has just been started may be sent the four commands in any order |
| `Handshake.RecordsCommute` | src/sync/handshake.rs:143-187 | Two commands of kinds not seen before can be recorded in either order with the same result or error |
| `Handshake.GreetingOutcome` | src/sync/handshake.rs:196-284 | What a fresh machine does with a whole greeting: unknown server, wrong password, or bursting |
| `Handshake.GreetingSays` | src/sync/network.rs:711-772 | A greeting names the password, the SID twice, the name one hop away with its description, and version 6 of the protocol |
| `Handshake.BothBurstIff` | src/sync/network.rs:711-772 | The responder bursts exactly when its first block for the initiator holds the password dialled with and its clock is readable; the initiator then bursts exactly when the responder goes by the dialled name |
| `Handshake.HandshakeMachine.StepMachine` | src/sync/handshake.rs:93-115 | The object's step is the Step function of its snapshot |
| `Handshake.HandshakeMachine.HandleInboundStep` | src/sync/handshake.rs:196-284 | The responder's step, with its greeting as the reply on completion, or an error after it has started bursting if the clock stands before 1970 |
| `Handshake.HandshakeMachine.HandleOutboundStep` | src/sync/handshake.rs:132-194 | The initiator's step, without a reply |
| `Handshake.HandshakeMachine.HandleCommand` | src/sync/handshake.rs:137-188 | Records one command; what was recorded before an error stays |
| `Handshake.HandshakeMachine.CheckHandshakeComplete` | src/sync/handshake.rs:117-130 | Bursts exactly when all is recorded and the credentials hold; otherwise the state stays |
| `Handshake.HandshakeMachine.VerifyCredentials` | src/sync/handshake.rs:286-311 | The first block with the name decides; each failure has its own error |
| `Handshake.FindLinkIs` | src/sync/handshake.rs:297-304 | The block found is the first of the name, and none is found exactly when there is none |
| `Burst.SjoinNamesIntroducedUsers` | src/sync/burst.rs:54-173 | Every UID in an SJOIN was introduced by an earlier UID command of the burst or belongs to the target |
| `Burst.BurstEndsOnce` | src/sync/burst.rs:206-209 | EOB comes last and once; no UID command names a user of the target |
| `Burst.BurstSections` | src/sync/burst.rs:29-209 | Bans, then UIDs, then SJOIN and TB, then SIDs, then EOB |
| `Burst.AnnouncedIffKnown` | src/sync/burst.rs:190-204 | Exactly the servers of the sender's topology other than the sender are announced - the receiver included |
| `Burst.OwnAnnouncementBreaksTree` | src/network/connection/server_loop.rs:31-92 | A receiver that the sender registered before bursting is announced to itself, and recording that breaks its tree |
| `Burst.GenerateBurst` | src/sync/burst.rs:26-210 | The loops append exactly the commands of the snapshot, in order |
| `BurstContents.BurstDescribesChannels` | src/sync/burst.rs:100-187 | The SJOINs correspond one to one, in order, with the channels that answer, each with its name, time, members, first mode word and remaining words; each is directly followed by the topic exactly if there is one, and no topic stands elsewhere |
| `BurstContents.BurstIntroducesUsers` | src/sync/burst.rs:54-104 | The UID commands are, in order and with every field, those of the users not of the target |
| `BurstContents.BurstAnnouncesServers` | src/sync/burst.rs:190-204 | The SID commands are, in order, those of the servers other than the sender, one hop farther |
| `BurstContents.BurstSendsBans` | src/sync/burst.rs:29-40 | All G-lines and shuns are sent, in order |
| `BurstContents.BurstSendsZlines` | src/sync/burst.rs:42-54 | Exactly the Z-lines that have not expired are sent, and none when their lock is poisoned |
| `Burst.WordsOfSpaced` | src/sync/burst.rs:159-162 | Mode letters and arguments written with single spaces come apart again as they were |
| `Burst.FirstWord` | src/sync/burst.rs:158-162 | A word comes off at any white space, and what follows is taken apart by itself |
| `Burst.SpacesAre` | src/sync/burst.rs:158-162 | White space is the 25 code points that Unicode gives the property |
| `Burst.GenerateBans` | src/sync/burst.rs:29-52 | All G-lines and shuns, and the Z-lines that have not expired |
| `Base32.Base32Encode` | src/security/cloaking.rs:32-57 | The wrapping 32-bit accumulator yields the 5-bit-group encoding of section 6 of RFC 4648, lowercase and unpadded, of ceil(8n/5) symbols, for inputs of every length |
| `Base32.DecodeEncode` | src/security/cloaking.rs:32-57 | Decoding gives the input back |
| `Base32.EncodingIsNumber` | src/security/cloaking.rs:32-57 | The symbols are the base-32 digits of the bytes read as one number, with fewer than five zero bits after them |
| `Base32.IndexOfSymbol` | src/security/cloaking.rs:27-27 | The digits are a to z and 2 to 7 |
| `Base32.EncodingIsInjective` | src/security/cloaking.rs:32-57 | Inputs of one length with equal outputs are equal |
| `Base32.HoldsByte` | src/security/cloaking.rs:40-41 | Shifting in a byte keeps the pending bits although higher ones overflow |
| `Base32.HoldsFive` | src/security/cloaking.rs:43-47 | The index is the top five pending bits, and the accumulator then holds the rest |
| `Base32.Flush` | src/security/cloaking.rs:51-54 | The bits left over become one zero-filled group |
| `Uid.Base36Encode6` | src/state/uid.rs:40-50 | Filling the array from the right gives the six low base-36 digits |
| `Uid.EncodingsEqualIff` | src/state/uid.rs:40-50 | Two numbers have the same six characters exactly when they agree modulo 36^6 |
| `Uid.UidGenerator.Next` | src/state/uid.rs:33-37 | The k-th call returns the SID and the digits of (2 + k) modulo 2^64 |
| `Uid.CollisionIff` | src/state/uid.rs:33-37 | Exactly when two calls fewer than 2^64 apart return the same UID, with and without a wrap of the counter between them |
| `Uid.UniqueWithinWindow` | src/state/uid.rs:33-37 | Without a wrap between them, calls fewer than 36^6 apart differ |
| `Uid.WrapCollides` | src/state/uid.rs:33-37 | Across the wrap they need not |
| `Uid.ReservedIff` | src/state/uid.rs:13-21 | Of the first 36^6 calls, exactly the last two return the service UIDs |
| `Uid.UidNamesServer` | src/config/validation.rs:42-54 | For SIDs of three characters the first three characters recover the issuing server, so UIDs of different servers differ |
| `Windows.HeuristicsEngine.Analyze` | src/security/heuristics.rs:83-113 | Under a clock that does not go back, the counts behind the scores are those of all calls of the key, and of its private ones, within the windows |
| `Windows.Slide` | src/security/heuristics.rs:41-59 | Moves a deque to the window of a later call |
| `Windows.PopOld` | src/security/heuristics.rs:41-59 | Popping old events off the front leaves exactly the events from the cutoff on |
| `Windows.SinceTwice` | src/security/heuristics.rs:41-59 | Pruning in stages loses nothing that a single pruning would keep |
| `Windows.SpamFilter.CheckMessageRepetition` | src/security/spam.rs:170-209 | Flags a message exactly when at least two of the user's last 20 messages within ten seconds have its hash |
| `Windows.SpamIff` | src/security/spam.rs:170-209 | Counting in the pruned deque finds two exactly when two of the last 20 messages have the hash and are at most ten seconds old |
| `Windows.InWindowIs` | src/security/heuristics.rs:41-59 | The counts behind the scores are the numbers of calls, and of private ones, that are not older than their window |
| `Windows.CallCounts` | src/security/heuristics.rs:83-113 | A call counts at once, and among the private ones exactly if it is one; earlier calls count as before |
| `Connections.RunsCount` | src/security/rate_limit.rs:241-291 | Over every sequence of arrivals and departures the stored count of an address is the number of its open connections, absent when there are none; exempt addresses never appear |
| `Connections.TurnedAwayIff` | src/security/rate_limit.rs:241-265 | An arrival is turned away exactly when the address is not exempt and has max(1, limit) connections open, and it never has more |
| `Connections.RunsOpen` | src/security/rate_limit.rs:241-291 | In every run an arrival below the limit opens one connection and a departure ends one that is open; nothing else changes the open ones |
| `Connections.RateLimiter.OnConnectionStart` | src/security/rate_limit.rs:241-265 | Allows and counts as stated, on the stored counts alone |
| `Connections.RateLimiter.OnConnectionEnd` | src/security/rate_limit.rs:269-291 | Takes one connection off, and the entry with the last |
| `Writeback.WriteBackIsLossless` | src/state/managers/client.rs:445-479 | After any run without a failed save, the next write-back leaves the store with the whole record of an always-on client, whether it wrote or skipped |
| `Writeback.RunsKeepMarks` | src/state/client.rs:145-263 | In every run, every part that differs from its value when the marks were last taken is marked |
| `Writeback.SeenTakesEffect` | src/state/client.rs:181-184 | A device is last seen at the time given; nothing else changes or is marked |
| `Writeback.ChannelsTakeEffect` | src/state/client.rs:192-210 | Joining enters the folded channel with its modes and time, leaving removes it; nothing else changes or is marked |
| `Writeback.DevicesTakeEffect` | src/state/client.rs:213-237 | A device is entered once, and its last use moves only if it is known |
| `Writeback.SettingsTakeEffect` | src/state/client.rs:240-253 | The settings and the nick become what they are set to |
| `Writeback.SettingsUnchanged` | src/state/client.rs:240-253 | What is already so is not marked |
| `Writeback.SessionsTakeEffect` | src/state/client.rs:145-168 | Away is cleared by a new session and set by the end of the last one, for clients that ask for it |
| `Writeback.SavesTakeEffect` | src/state/managers/client.rs:426-470 | A save writes the whole record of an always-on client, and only the sweep clears the marks |
| `Writeback.WriteBackKeepsStoreIff` | src/state/managers/client.rs:457-470 | A write-back keeps the store up to date if and only if the save succeeds or there was nothing to save |
| `Writeback.FailedSaveIsForgotten` | src/state/managers/client.rs:457-470 | After a failed save the marks are gone and the next write-back skips the client |
| `Writeback.RestartIsRightIff` | src/db/always_on.rs:161-176 | After any run without a failed save, and a write-back, a restart brings back the record of an always-on client and nothing for another, if and only if the client is always-on or has no record in the store |
| `Writeback.SwitchedOffComesBack` | src/services/nickserv/commands/set.rs:118-125 | A client that is switched off, saved and written back leaves no marks, and a restart brings it back always-on |
| `Writeback.DiscardClient` | src/state/managers/client.rs:290-308 | The end of the last session of a client that is not always-on is the Discard call: the one way in which its record goes |
| `Writeback.DiscardTakesEffect` | src/state/managers/client.rs:290-308 | A record goes only when no session is left, the client is not always-on and the store lets it go |
| `Writeback.Client.DetachSession` | src/state/client.rs:160-168 | The edit is the Detach call: away is set, and marked, when the last session of an auto-away client goes |
| `Writeback.Client.AttachSession` | src/state/client.rs:145-155 | The edit is the Attach call |
| `Writeback.WriteBackClient` | src/state/managers/client.rs:457-470 | The sweep of one client is the WriteBack call |
| `Windows.RememberStep` | src/security/spam.rs:192-198 | Dropping the front of an overfull deque keeps it equal to the recent ones of the last 20 messages |

## Left out

- LRU eviction and token buckets of the rate limiter, and the floating-point risk scores built on the window counts.
- Merging of user records other than the nick, and of channel records. A UID command lists no channels, so taking in a user changes no membership here; which nick a merge settles on is a parameter.
- The rules on who may share a nick, PRECIS case mapping and confusable nicks: their verdict is a parameter of NICK.
- Connections that share an existing user (bouncer sessions), and those that claim a nick and then turn out to be servers.
- Sessions that detach from a client instead of disconnecting; `DisconnectUser` is the path on which no session is left.
- Channel modes other than +N, who may set +N, bans and permanence: a channel is its member set; joining is always let through and PART is not an operation.
- How the local users are told of a netsplit: the nicks announced are returned, the batching of the messages is not modelled.
- Message texts other than SERVER, QUIT and PING; sockets, TLS, parsing, reconnecting, rate limits on peers, bounded queues and failed sends: a link is the sequence of messages handed to it.
- Interleavings inside one operation, among them the time between loop detection and link registration, and channel events that are processed later.
- Links that go down in a mesh, and SERVER commands there: `Mesh` and `MeshRoutes` are about servers linking up by the handshake of `src/sync/network.rs`, each link in one step.
- The database engine: a table is a finite map, a range whose bounds cross is empty, and transactions do not fail. Row bytes are one of current, older or unreadable.
- `HistoryStore.RedbProvider.StoreItem` and `HistoryStore.RedbProvider.RunQuery` ask for targets without NUL, the separator of the key format; message ids may hold anything.
- HistoryStore.RedbProvider.PruneOlder: a build with overflow checks stops where the subtraction wraps.
- ServerState.Matrix.GenerateGuestNick: works on a finite list of draws; the source draws until a nick is free, and does not return when all 90000 are taken.
- Burst.GenerateBurst: a channel that fails to answer is marked so in the snapshot.
- Hop counts are unbounded; the source adds one to a 32-bit number.
- Windows.HeuristicsEngine.Analyze and Windows.SpamFilter.CheckMessageRepetition ask for a clock that does not go back, as the monotonic clock promises.
- UIDs and SIDs are ASCII, so three bytes are three characters.
- CHATHISTORY command handling, services, operator commands other than SANICK, and the HTTP metrics endpoint.
