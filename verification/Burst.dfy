/**
 The state burst sent to a new peer (`generate_burst`, src/sync/burst.rs), over a snapshot of the server's state.

 The sequences of the snapshot stand for the order in which the hash maps happen to be iterated. A channel whose actor
 does not answer is marked as such.
 */
module Burst {
  import opened Common
  import Topology
  import SpanningTree

  datatype Ban = Ban(mask: string, reason: string, expired: bool)

  datatype User = User(uid: Uid, nick: string, ident: string, host: string, modes: string, realname: string, created: int)

  datatype Topic = Topic(text: string, setBy: string, setAt: int)

  datatype Channel = Channel(name: string, created: int, modes: string, members: seq<(string, Uid)>,
                             topic: Option<Topic>, answers: bool)

  datatype Snapshot = Snapshot(
    glines: seq<Ban>,
    shuns: seq<Ban>,
    zlines: Option<seq<Ban>>,  // none when the lock is poisoned
    users: seq<User>,
    channels: seq<Channel>,
    servers: seq<Topology.ServerInfo>)

  datatype Command =
    | Gline(mask: string, reason: string)
    | Shun(mask: string, reason: string)
    | Zline(mask: string, reason: string)
    | UidCmd(nick: string, hopcount: nat, created: int, ident: string, host: string, uid: Uid, modes: string, realname: string)
    | Sjoin(created: int, channel: string, modes: string, args: seq<string>, members: seq<(string, Uid)>)
    | Tb(channel: string, setAt: nat, setBy: string, text: string)
    | SidCmd(name: string, hopcount: nat, sid: Sid, info: string)
    | Eob

  predicate StartsWith(s: string, prefix: string) {
    |prefix| <= |s| && s[..|prefix|] == prefix
  }

  // ---------- Mode strings ----------

  /** The Unicode property White_Space. */
  predicate IsSpace(c: char) {
    var n := c as int;
    || 0x9 <= n <= 0xD || n == 0x20 || n == 0x85 || n == 0xA0 || n == 0x1680 || 0x2000 <= n <= 0x200A
    || n == 0x2028 || n == 0x2029 || n == 0x202F || n == 0x205F || n == 0x3000
  }

  /** The code points that have the property: 25 of them. */
  lemma SpacesAre(c: char)
    ensures IsSpace(c) <==> c as int in {9, 10, 11, 12, 13, 32, 133, 160, 5760, 8192, 8193, 8194, 8195, 8196, 8197, 8198, 8199,
                                         8200, 8201, 8202, 8232, 8233, 8239, 8287, 12288}
  {
  }

  /** `str::split_whitespace`. */
  function Words(s: string): (r: seq<string>)
    ensures s != [] && !IsSpace(s[0]) ==> r != []
  {
    if s == [] then []
    else if IsSpace(s[0]) then Words(s[1..])
    else if |s| == 1 || IsSpace(s[1]) then [[s[0]]] + Words(s[1..])
    else
      var rest := Words(s[1..]);
      [[s[0]] + rest[0]] + rest[1..]
  }

  predicate IsWord(w: string) {
    w != [] && forall i :: 0 <= i < |w| ==> !IsSpace(w[i])
  }

  /** The words with single spaces between them, as mode letters and arguments are written. */
  function Spaced(words: seq<string>): string {
    if words == [] then "" else if |words| == 1 then words[0] else words[0] + " " + Spaced(words[1..])
  }

  lemma {:induction false} FirstWord(w: string, space: char, rest: string)
    requires w != [] && (forall i :: 0 <= i < |w| ==> !IsSpace(w[i])) && IsSpace(space)
    ensures Words(w) == [w]
    ensures Words(w + [space] + rest) == [w] + Words(rest)
  {
    var s := w + [space] + rest;
    assert s[0] == w[0];
    if |w| == 1 {
      assert w == [w[0]] && s[1] == space && s[1..] == [space] + rest && s[1..][1..] == rest;
      assert w[1..] == [] && Words(w[1..]) == [];
    } else {
      assert s[1] == w[1] && s[1..] == w[1..] + [space] + rest;
      FirstWord(w[1..], space, rest);
      assert [w[0]] + w[1..] == w;
    }
  }

  /** Space in front, of whatever kind and however much, is passed over. */
  lemma LeadingSpace(space: char, s: string)
    requires IsSpace(space)
    ensures Words([space] + s) == Words(s)
  {
    assert ([space] + s)[1..] == s;
  }

  /** Mode letters and arguments written with single spaces come apart again as they were. */
  lemma {:induction false} WordsOfSpaced(words: seq<string>)
    requires forall i :: 0 <= i < |words| ==> IsWord(words[i])
    ensures Words(Spaced(words)) == words
  {
    if words != [] {
      FirstWord(words[0], ' ', Spaced(words[1..]));
      WordsOfSpaced(words[1..]);
      assert words == [words[0]] + words[1..];
    }
  }

  /** The mode letters; a channel without modes has a bare sign. */
  function ModeLetters(modes: string): string {
    var words := Words(modes);
    if words == [] then "+" else words[0]
  }

  function ModeArgs(modes: string): seq<string> {
    var words := Words(modes);
    if words == [] then [] else words[1..]
  }

  /** The cast from i64 to u64. */
  function AsU64(n: int): nat {
    n % 0x1_0000_0000_0000_0000
  }

  // ---------- The parts of a burst ----------

  function UserPart(u: User, target: Sid): seq<Command> {
    if StartsWith(u.uid, target) then []
    else [UidCmd(u.nick, 1, u.created, u.ident, u.host, u.uid, u.modes, u.realname)]
  }

  function ChannelPart(c: Channel): seq<Command> {
    if !c.answers then []
    else
      [Sjoin(AsU64(c.created), c.name, ModeLetters(c.modes), ModeArgs(c.modes), c.members)]
      + if c.topic.Some? then [Tb(c.name, AsU64(c.topic.value.setAt), c.topic.value.setBy, c.topic.value.text)] else []
  }

  function ServerPart(info: Topology.ServerInfo, local: Sid): seq<Command> {
    if info.sid == local then [] else [SidCmd(info.name, info.hopcount + 1, info.sid, info.info)]
  }

  function Glines(bans: seq<Ban>): seq<Command> {
    if bans == [] then [] else Glines(bans[..|bans| - 1]) + [Gline(bans[|bans| - 1].mask, bans[|bans| - 1].reason)]
  }

  function Shuns(bans: seq<Ban>): seq<Command> {
    if bans == [] then [] else Shuns(bans[..|bans| - 1]) + [Shun(bans[|bans| - 1].mask, bans[|bans| - 1].reason)]
  }

  function Zlines(bans: seq<Ban>): seq<Command> {
    if bans == [] then []
    else
      var last := bans[|bans| - 1];
      Zlines(bans[..|bans| - 1]) + if last.expired then [] else [Zline(last.mask, last.reason)]
  }

  function Users(users: seq<User>, target: Sid): seq<Command> {
    if users == [] then [] else Users(users[..|users| - 1], target) + UserPart(users[|users| - 1], target)
  }

  function Channels(channels: seq<Channel>): seq<Command> {
    if channels == [] then [] else Channels(channels[..|channels| - 1]) + ChannelPart(channels[|channels| - 1])
  }

  function Servers(servers: seq<Topology.ServerInfo>, local: Sid): seq<Command> {
    if servers == [] then [] else Servers(servers[..|servers| - 1], local) + ServerPart(servers[|servers| - 1], local)
  }

  function Bans(s: Snapshot): seq<Command> {
    Glines(s.glines) + Shuns(s.shuns) + if s.zlines.Some? then Zlines(s.zlines.value) else []
  }

  function BurstOf(s: Snapshot, local: Sid, target: Sid): seq<Command> {
    Bans(s) + Users(s.users, target) + Channels(s.channels) + Servers(s.servers, local) + [Eob]
  }

  // ---------- Building it ----------

  method GenerateBans(s: Snapshot) returns (commands: seq<Command>)
    ensures commands == Bans(s)
  {
    commands := [];
    for i := 0 to |s.glines|
      invariant commands == Glines(s.glines[..i])
    {
      assert s.glines[..i + 1][..i] == s.glines[..i];
      commands := commands + [Gline(s.glines[i].mask, s.glines[i].reason)];
    }
    assert s.glines[..|s.glines|] == s.glines;
    for i := 0 to |s.shuns|
      invariant commands == Glines(s.glines) + Shuns(s.shuns[..i])
    {
      assert s.shuns[..i + 1][..i] == s.shuns[..i];
      commands := commands + [Shun(s.shuns[i].mask, s.shuns[i].reason)];
    }
    assert s.shuns[..|s.shuns|] == s.shuns;
    if s.zlines.Some? {
      var bans := s.zlines.value;
      for i := 0 to |bans|
        invariant commands == Glines(s.glines) + Shuns(s.shuns) + Zlines(bans[..i])
      {
        assert bans[..i + 1][..i] == bans[..i];
        if !bans[i].expired {
          commands := commands + [Zline(bans[i].mask, bans[i].reason)];
        }
      }
      assert bans[..|bans|] == bans;
    }
  }

  method PushUsers(before: seq<Command>, users: seq<User>, target: Sid) returns (commands: seq<Command>)
    ensures commands == before + Users(users, target)
  {
    commands := before;
    for i := 0 to |users|
      invariant commands == before + Users(users[..i], target)
    {
      assert users[..i + 1][..i] == users[..i];
      var u := users[i];
      if StartsWith(u.uid, target) {
        continue;
      }
      commands := commands + [UidCmd(u.nick, 1, u.created, u.ident, u.host, u.uid, u.modes, u.realname)];
    }
    assert users[..|users|] == users;
  }

  lemma ChannelsAppend(before: seq<Command>, channels: seq<Channel>, c: Channel)
    ensures before + Channels(channels + [c]) == before + Channels(channels) + ChannelPart(c)
  {
    assert (channels + [c])[..|channels|] == channels;
  }

  /** The SJOIN of a channel that answers, with its modes taken apart, and its topic if it has one. */
  method DescribeChannel(c: Channel) returns (commands: seq<Command>)
    ensures commands == ChannelPart(c)
  {
    if !c.answers {
      return [];
    }
    var words := Words(c.modes);
    var letters := if words != [] then words[0] else "+";
    var args := if words != [] then words[1..] else [];
    commands := [Sjoin(AsU64(c.created), c.name, letters, args, c.members)];
    if c.topic.Some? {
      commands := commands + [Tb(c.name, AsU64(c.topic.value.setAt), c.topic.value.setBy, c.topic.value.text)];
    }
  }

  method PushChannels(before: seq<Command>, channels: seq<Channel>) returns (commands: seq<Command>)
    ensures commands == before + Channels(channels)
  {
    commands := before;
    for i := 0 to |channels|
      invariant commands == before + Channels(channels[..i])
    {
      assert channels[..i + 1] == channels[..i] + [channels[i]];
      ChannelsAppend(before, channels[..i], channels[i]);
      var part := DescribeChannel(channels[i]);
      commands := commands + part;
    }
    assert channels[..|channels|] == channels;
  }

  method PushServers(before: seq<Command>, servers: seq<Topology.ServerInfo>, local: Sid) returns (commands: seq<Command>)
    ensures commands == before + Servers(servers, local)
  {
    commands := before;
    for i := 0 to |servers|
      invariant commands == before + Servers(servers[..i], local)
    {
      assert servers[..i + 1][..i] == servers[..i];
      var info := servers[i];
      if info.sid != local {
        commands := commands + [SidCmd(info.name, info.hopcount + 1, info.sid, info.info)];
      }
    }
    assert servers[..|servers|] == servers;
  }

  method GenerateBurst(s: Snapshot, local: Sid, target: Sid) returns (commands: seq<Command>)
    ensures commands == BurstOf(s, local, target)
  {
    commands := GenerateBans(s);
    commands := PushUsers(commands, s.users, target);
    commands := PushChannels(commands, s.channels);
    commands := PushServers(commands, s.servers, local);
    commands := commands + [Eob];
  }

  // ---------- What a peer can rely on ----------

  ghost predicate KnownUser(s: Snapshot, uid: Uid) {
    exists u :: u in s.users && u.uid == uid
  }

  ghost predicate MembersKnown(s: Snapshot) {
    forall c, i :: c in s.channels && 0 <= i < |c.members| ==> KnownUser(s, c.members[i].1)
  }

  predicate IsBan(c: Command) {
    c.Gline? || c.Shun? || c.Zline?
  }

  lemma {:induction false} BansContents(s: Snapshot)
    ensures forall c :: c in Bans(s) ==> IsBan(c)
  {
    GlinesContents(s.glines);
    ShunsContents(s.shuns);
    if s.zlines.Some? {
      ZlinesContents(s.zlines.value);
    }
  }

  lemma {:induction false} GlinesContents(bans: seq<Ban>)
    ensures forall c :: c in Glines(bans) ==> IsBan(c)
  {
    if bans != [] { GlinesContents(bans[..|bans| - 1]); }
  }

  lemma {:induction false} ShunsContents(bans: seq<Ban>)
    ensures forall c :: c in Shuns(bans) ==> IsBan(c)
  {
    if bans != [] { ShunsContents(bans[..|bans| - 1]); }
  }

  lemma {:induction false} ZlinesContents(bans: seq<Ban>)
    ensures forall c :: c in Zlines(bans) ==> IsBan(c)
  {
    if bans != [] { ZlinesContents(bans[..|bans| - 1]); }
  }

  lemma {:induction false} UsersContents(users: seq<User>, target: Sid)
    ensures forall c :: c in Users(users, target) ==> c.UidCmd? && !StartsWith(c.uid, target)
    ensures forall u :: u in users && !StartsWith(u.uid, target)
                        ==> exists c :: c in Users(users, target) && c.UidCmd? && c.uid == u.uid
  {
    if users != [] {
      var init, last := users[..|users| - 1], users[|users| - 1];
      UsersContents(init, target);
      assert users == init + [last];
      forall u | u in users && !StartsWith(u.uid, target)
        ensures exists c :: c in Users(users, target) && c.UidCmd? && c.uid == u.uid
      {
        if u in init {
          var c :| c in Users(init, target) && c.UidCmd? && c.uid == u.uid;
          assert c in Users(users, target);
        } else {
          var c := UserPart(last, target)[0];
          assert c in Users(users, target);
        }
      }
    }
  }

  lemma {:induction false} ChannelsContents(channels: seq<Channel>)
    ensures forall c :: c in Channels(channels) ==> c.Sjoin? || c.Tb?
    ensures forall c :: c in Channels(channels) && c.Sjoin? ==> exists ch :: ch in channels && ch.members == c.members
  {
    if channels != [] {
      var init, last := channels[..|channels| - 1], channels[|channels| - 1];
      ChannelsContents(init);
      assert channels == init + [last];
      forall c | c in Channels(channels) && c.Sjoin?
        ensures exists ch :: ch in channels && ch.members == c.members
      {
        if c in Channels(init) {
          var ch :| ch in init && ch.members == c.members;
          assert ch in channels;
        } else {
          assert c in ChannelPart(last);
          assert last in channels && last.members == c.members;
        }
      }
    }
  }

  ghost predicate Announces(cs: seq<Command>, sid: Sid) {
    exists i :: 0 <= i < |cs| && cs[i].SidCmd? && cs[i].sid == sid
  }

  lemma {:induction false} ServersContents(servers: seq<Topology.ServerInfo>, local: Sid, sid: Sid)
    ensures forall c :: c in Servers(servers, local) ==> c.SidCmd? && c.sid != local
    ensures sid != local ==>
              (Announces(Servers(servers, local), sid) <==> exists info :: info in servers && info.sid == sid)
  {
    if servers != [] {
      var init, last := servers[..|servers| - 1], servers[|servers| - 1];
      ServersContents(init, local, sid);
      assert servers == init + [last];
      var a, b, all := Servers(init, local), ServerPart(last, local), Servers(servers, local);
      assert all == a + b;
      if sid != local {
        if Announces(a, sid) {
          var i :| 0 <= i < |a| && a[i].SidCmd? && a[i].sid == sid;
          assert all[i] == a[i];
        }
        if last.sid == sid {
          assert all[|a|] == b[0];
        }
        if Announces(all, sid) {
          var i :| 0 <= i < |all| && all[i].SidCmd? && all[i].sid == sid;
          assert i < |a| ==> a[i] == all[i];
          assert i >= |a| ==> b[i - |a|] == all[i];
        }
      }
    }
  }

  /** What stands at position i of a burst with so many bans, users, channel commands and servers. */
  predicate InSection(c: Command, i: nat, bans: nat, users: nat, channels: nat, servers: nat, local: Sid, target: Sid) {
    if i < bans then IsBan(c)
    else if i < bans + users then c.UidCmd? && !StartsWith(c.uid, target)
    else if i < bans + users + channels then c.Sjoin? || c.Tb?
    else if i < bans + users + channels + servers then c.SidCmd? && c.sid != local
    else i == bans + users + channels + servers && c.Eob?
  }

  /** Where each kind of command stands: bans, then UIDs, then SJOIN and TB, then SIDs, then one EOB. */
  lemma BurstSections(s: Snapshot, local: Sid, target: Sid, i: nat, c: Command)
    requires i < |BurstOf(s, local, target)| && c == BurstOf(s, local, target)[i]
    ensures InSection(c, i, |Bans(s)|, |Users(s.users, target)|, |Channels(s.channels)|, |Servers(s.servers, local)|, local,
                      target)
    ensures c.Sjoin? ==> c in Channels(s.channels)
    ensures c.SidCmd? ==> c in Servers(s.servers, local)
  {
    var bans, users := Bans(s), Users(s.users, target);
    var channels, servers := Channels(s.channels), Servers(s.servers, local);
    FiveParts(bans, users, channels, servers, i, c);
    if i < |bans| {
      IsBanOf(s, c);
    } else if i < |bans| + |users| {
      IsUserOf(s.users, target, c);
    } else if i < |bans| + |users| + |channels| {
      IsChannelOf(s.channels, c);
    } else if i < |bans| + |users| + |channels| + |servers| {
      IsServerOf(s.servers, local, c);
    }
  }

  /** Which of the parts the i-th command of a burst comes from. */
  lemma FiveParts(bans: seq<Command>, users: seq<Command>, channels: seq<Command>, servers: seq<Command>, i: nat, c: Command)
    requires i < |bans + users + channels + servers + [Eob]| && c == (bans + users + channels + servers + [Eob])[i]
    ensures i < |bans| ==> c in bans
    ensures |bans| <= i < |bans| + |users| ==> c in users
    ensures |bans| + |users| <= i < |bans| + |users| + |channels| ==> c in channels
    ensures |bans| + |users| + |channels| <= i < |bans| + |users| + |channels| + |servers| ==> c in servers
    ensures i >= |bans| + |users| + |channels| + |servers| ==> c == Eob
  {
    var n := |bans| + |users|;
    if i < |bans| {
      assert c == bans[i];
    } else if i < n {
      assert c == users[i - |bans|];
    } else if i < n + |channels| {
      assert c == channels[i - n];
    } else if i < n + |channels| + |servers| {
      assert c == servers[i - n - |channels|];
    }
  }

  lemma IsBanOf(s: Snapshot, c: Command)
    requires c in Bans(s)
    ensures IsBan(c)
  {
    BansContents(s);
  }

  lemma IsUserOf(users: seq<User>, target: Sid, c: Command)
    requires c in Users(users, target)
    ensures c.UidCmd? && !StartsWith(c.uid, target)
  {
    UsersContents(users, target);
  }

  lemma IsChannelOf(channels: seq<Channel>, c: Command)
    requires c in Channels(channels)
    ensures c.Sjoin? || c.Tb?
  {
    ChannelsContents(channels);
  }

  lemma IsServerOf(servers: seq<Topology.ServerInfo>, local: Sid, c: Command)
    requires c in Servers(servers, local)
    ensures c.SidCmd? && c.sid != local
  {
    ServersContents(servers, local, local);
  }

  /** The user with this UID has been introduced before position `j`. */
  ghost predicate IntroducedBefore(cs: seq<Command>, j: nat, uid: Uid) {
    exists i :: 0 <= i < j && i < |cs| && cs[i].UidCmd? && cs[i].uid == uid
  }

  lemma UsersIntroduced(s: Snapshot, local: Sid, target: Sid, u: User)
    requires u in s.users && !StartsWith(u.uid, target)
    ensures IntroducedBefore(BurstOf(s, local, target), |Bans(s)| + |Users(s.users, target)|, u.uid)
  {
    UsersContents(s.users, target);
    var users := Users(s.users, target);
    var c :| c in users && c.UidCmd? && c.uid == u.uid;
    var i :| 0 <= i < |users| && users[i] == c;
    assert BurstOf(s, local, target)[|Bans(s)| + i] == c;
  }

  /** Every UID that an SJOIN names was introduced earlier in the same burst, unless it belongs to the target. */
  lemma SjoinNamesIntroducedUsers(s: Snapshot, local: Sid, target: Sid, j: nat, k: nat)
    requires MembersKnown(s) && j < |BurstOf(s, local, target)|
    requires BurstOf(s, local, target)[j].Sjoin? && k < |BurstOf(s, local, target)[j].members|
    ensures var uid := BurstOf(s, local, target)[j].members[k].1;
            StartsWith(uid, target) || IntroducedBefore(BurstOf(s, local, target), j, uid)
  {
    var b := BurstOf(s, local, target);
    BurstSections(s, local, target, j, b[j]);
    ChannelsContents(s.channels);
    assert b[j] in Channels(s.channels);
    var ch :| ch in s.channels && ch.members == b[j].members;
    assert KnownUser(s, ch.members[k].1);
    var u :| u in s.users && u.uid == ch.members[k].1;
    if !StartsWith(u.uid, target) {
      UsersIntroduced(s, local, target, u);
    }
  }

  /** EOB ends the burst and occurs nowhere else; no UID command names a user of the target. */
  lemma BurstEndsOnce(s: Snapshot, local: Sid, target: Sid)
    ensures var b := BurstOf(s, local, target);
            && |b| > 0 && b[|b| - 1] == Eob
            && (forall i :: 0 <= i < |b| - 1 ==> !b[i].Eob?)
            && (forall i :: 0 <= i < |b| && b[i].UidCmd? ==> !StartsWith(b[i].uid, target))
  {
    var b := BurstOf(s, local, target);
    forall i | 0 <= i < |b|
      ensures i < |b| - 1 ==> !b[i].Eob?
      ensures b[i].UidCmd? ==> !StartsWith(b[i].uid, target)
    {
      BurstSections(s, local, target, i, b[i]);
    }
  }

  // ---------- Servers in the burst ----------

  /** A server other than the sender is announced exactly when it is in the sender's topology, the receiver included. */
  lemma AnnouncedIffKnown(s: Snapshot, local: Sid, target: Sid, sid: Sid)
    requires sid != local
    ensures Announces(BurstOf(s, local, target), sid) <==> exists info :: info in s.servers && info.sid == sid
  {
    ServersContents(s.servers, local, sid);
    OnlyServersAnnounce(s, local, target, sid);
  }

  lemma OnlyServersAnnounce(s: Snapshot, local: Sid, target: Sid, sid: Sid)
    ensures Announces(BurstOf(s, local, target), sid) <==> Announces(Servers(s.servers, local), sid)
  {
    var b, v := BurstOf(s, local, target), Servers(s.servers, local);
    if Announces(b, sid) {
      var i :| 0 <= i < |b| && b[i].SidCmd? && b[i].sid == sid;
      BurstSections(s, local, target, i, b[i]);
      var j :| 0 <= j < |v| && v[j] == b[i];
    }
    if Announces(v, sid) {
      var j :| 0 <= j < |v| && v[j].SidCmd? && v[j].sid == sid;
      LastPart(Bans(s) + Users(s.users, target) + Channels(s.channels), v, j);
    }
  }

  lemma LastPart(before: seq<Command>, servers: seq<Command>, j: nat)
    requires j < |servers|
    ensures (before + servers + [Eob])[|before| + j] == servers[j]
  {
  }

  /**
   A receiver that is announced to itself files itself below the sender, which takes its topology out of shape: this
   happens whenever the sender had entered the receiver in its own topology before bursting.
   */
  lemma OwnAnnouncementBreaksTree(s: Snapshot, sender: Sid, net: SpanningTree.Net, name: string, hopcount: nat, info: string)
    requires net.local != sender && SpanningTree.Inv(net)
    requires exists entry :: entry in s.servers && entry.sid == net.local
    ensures Announces(BurstOf(s, sender, net.local), net.local)
    ensures !SpanningTree.Inv(SpanningTree.Apply(net, SpanningTree.LearnServer(net.local, name, hopcount, info, sender)))
  {
    AnnouncedIffKnown(s, sender, net.local, net.local);
    SpanningTree.StepKeepsInvIff(net, SpanningTree.LearnServer(net.local, name, hopcount, info, sender));
  }
}
