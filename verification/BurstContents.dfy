/**
 What a burst says (`generate_burst`, src/sync/burst.rs): command by command, against the users, channels, servers and bans
 of the snapshot.
 */
module BurstContents {
  import opened Common
  import Topology
  import opened Burst

  datatype Kind = KGline | KShun | KZline | KUid | KSjoin | KTb | KSid | KEob

  function KindOf(c: Command): Kind {
    match c
    case Gline(_, _) => KGline
    case Shun(_, _) => KShun
    case Zline(_, _) => KZline
    case UidCmd(_, _, _, _, _, _, _, _) => KUid
    case Sjoin(_, _, _, _, _) => KSjoin
    case Tb(_, _, _, _) => KTb
    case SidCmd(_, _, _, _) => KSid
    case Eob => KEob
  }

  /** The commands of one kind, in order. */
  ghost function Pick(cs: seq<Command>, k: Kind): seq<Command> {
    if cs == [] then [] else Pick(cs[..|cs| - 1], k) + if KindOf(cs[|cs| - 1]) == k then [cs[|cs| - 1]] else []
  }

  lemma {:induction false} PickConcat(a: seq<Command>, b: seq<Command>, k: Kind)
    ensures Pick(a + b, k) == Pick(a, k) + Pick(b, k)
  {
    if b == [] {
      assert a + b == a && Pick(a, k) + [] == Pick(a, k);
    } else {
      assert (a + b)[..|a + b| - 1] == a + b[..|b| - 1];
      PickConcat(a, b[..|b| - 1], k);
    }
  }

  ghost predicate AllOf(cs: seq<Command>, k: Kind) {
    forall i :: 0 <= i < |cs| ==> KindOf(cs[i]) == k
  }

  ghost predicate NoneOf(cs: seq<Command>, k: Kind) {
    forall i :: 0 <= i < |cs| ==> KindOf(cs[i]) != k
  }

  lemma {:induction false} PickAll(cs: seq<Command>, k: Kind)
    requires AllOf(cs, k)
    ensures Pick(cs, k) == cs
  {
    if cs != [] {
      var init, c := cs[..|cs| - 1], cs[|cs| - 1];
      PickAll(init, k);
      assert KindOf(c) == k;
      assert cs == init + [c];
    }
  }

  lemma {:induction false} PickNone(cs: seq<Command>, k: Kind)
    requires NoneOf(cs, k)
    ensures Pick(cs, k) == []
  {
    if cs != [] {
      PickNone(cs[..|cs| - 1], k);
    }
  }

  /** A section of one kind is picked whole or not at all. */
  lemma PickOnly(cs: seq<Command>, kind: Kind, k: Kind)
    requires AllOf(cs, kind)
    ensures Pick(cs, k) == if k == kind then cs else []
  {
    if k == kind {
      PickAll(cs, k);
    } else {
      PickNone(cs, k);
    }
  }

  // ---------- Users ----------

  /** The users who are not of the target server, in order. */
  ghost function Foreign(users: seq<User>, target: Sid): seq<User> {
    if users == [] then []
    else
      var u := users[|users| - 1];
      Foreign(users[..|users| - 1], target) + if |target| <= |u.uid| && u.uid[..|target|] == target then [] else [u]
  }

  ghost predicate Introduces(c: Command, u: User) {
    && c.UidCmd? && c.uid == u.uid && c.nick == u.nick && c.ident == u.ident && c.host == u.host && c.modes == u.modes
    && c.realname == u.realname && c.created == u.created && c.hopcount == 1
  }

  lemma {:induction false} UsersIntroduced(users: seq<User>, target: Sid)
    ensures |Users(users, target)| == |Foreign(users, target)|
    ensures forall i :: 0 <= i < |Users(users, target)| ==> Introduces(Users(users, target)[i], Foreign(users, target)[i])
  {
    if users != [] {
      UsersIntroduced(users[..|users| - 1], target);
    }
  }

  // ---------- Servers ----------

  ghost function OtherServers(servers: seq<Topology.ServerInfo>, local: Sid): seq<Topology.ServerInfo> {
    if servers == [] then []
    else
      var info := servers[|servers| - 1];
      OtherServers(servers[..|servers| - 1], local) + if info.sid != local then [info] else []
  }

  ghost predicate AnnouncesServer(c: Command, info: Topology.ServerInfo) {
    c.SidCmd? && c.sid == info.sid && c.name == info.name && c.info == info.info && c.hopcount == info.hopcount + 1
  }

  lemma {:induction false} ServersAnnounced(servers: seq<Topology.ServerInfo>, local: Sid)
    ensures |Servers(servers, local)| == |OtherServers(servers, local)|
    ensures forall i :: 0 <= i < |Servers(servers, local)| ==>
              AnnouncesServer(Servers(servers, local)[i], OtherServers(servers, local)[i])
  {
    if servers != [] {
      ServersAnnounced(servers[..|servers| - 1], local);
    }
  }

  // ---------- Bans ----------

  ghost function Unexpired(bans: seq<Ban>): seq<Ban> {
    if bans == [] then []
    else Unexpired(bans[..|bans| - 1]) + if bans[|bans| - 1].expired then [] else [bans[|bans| - 1]]
  }

  lemma {:induction false} GlinesSent(bans: seq<Ban>)
    ensures |Glines(bans)| == |bans|
    ensures forall i :: 0 <= i < |bans| ==> Glines(bans)[i] == Gline(bans[i].mask, bans[i].reason)
  {
    if bans != [] {
      GlinesSent(bans[..|bans| - 1]);
    }
  }

  lemma {:induction false} ShunsSent(bans: seq<Ban>)
    ensures |Shuns(bans)| == |bans|
    ensures forall i :: 0 <= i < |bans| ==> Shuns(bans)[i] == Shun(bans[i].mask, bans[i].reason)
  {
    if bans != [] {
      ShunsSent(bans[..|bans| - 1]);
    }
  }

  lemma {:induction false} ZlinesSent(bans: seq<Ban>)
    ensures |Zlines(bans)| == |Unexpired(bans)|
    ensures forall i :: 0 <= i < |Zlines(bans)| ==>
              Zlines(bans)[i] == Zline(Unexpired(bans)[i].mask, Unexpired(bans)[i].reason)
  {
    if bans != [] {
      ZlinesSent(bans[..|bans| - 1]);
    }
  }

  // ---------- Channels ----------

  ghost function Answering(channels: seq<Channel>): seq<Channel> {
    if channels == [] then []
    else Answering(channels[..|channels| - 1]) + if channels[|channels| - 1].answers then [channels[|channels| - 1]] else []
  }

  /** The cast of a time to 64 unsigned bits. */
  ghost predicate IsCast(n: int, time: int) {
    exists k: int :: n == time + k * 18446744073709551616 && 0 <= n < 18446744073709551616
  }

  ghost predicate DescribesChannel(c: Command, ch: Channel) {
    && c.Sjoin? && c.channel == ch.name && c.members == ch.members && IsCast(c.created, ch.created)
    && (Words(ch.modes) == [] ==> c.modes == "+" && c.args == [])
    && (Words(ch.modes) != [] ==> c.modes == Words(ch.modes)[0] && c.args == Words(ch.modes)[1..])
  }

  ghost predicate GivesTopic(c: Command, ch: Channel) {
    && ch.topic.Some? && c.Tb? && c.channel == ch.name && c.text == ch.topic.value.text && c.setBy == ch.topic.value.setBy
    && IsCast(c.setAt, ch.topic.value.setAt)
  }

  lemma CastIs(time: int)
    ensures IsCast(AsU64(time), time)
  {
    assert AsU64(time) == time + (-(time / 18446744073709551616)) * 18446744073709551616;
  }

  /** After the SJOIN at position k comes the topic, exactly if there is one. */
  ghost predicate TopicFollows(cs: seq<Command>, k: nat, ch: Channel) {
    if ch.topic.Some? then k + 1 < |cs| && GivesTopic(cs[k + 1], ch) else k + 1 < |cs| ==> !cs[k + 1].Tb?
  }

  /** The SJOIN at position k is that of the channel whose turn it is. */
  ghost predicate InTurn(cs: seq<Command>, k: nat, channels: seq<Channel>)
    requires k < |cs|
  {
    var i := |Pick(cs[..k], KSjoin)|;
    i < |Answering(channels)| && DescribesChannel(cs[k], Answering(channels)[i])
    && TopicFollows(cs, k, Answering(channels)[i])
  }

  lemma PartIs(ch: Channel)
    ensures !ch.answers ==> ChannelPart(ch) == []
    ensures ch.answers ==>
              && |ChannelPart(ch)| == (if ch.topic.Some? then 2 else 1)
              && DescribesChannel(ChannelPart(ch)[0], ch)
              && (ch.topic.Some? ==> GivesTopic(ChannelPart(ch)[1], ch))
  {
    CastIs(ch.created);
    if ch.topic.Some? {
      CastIs(ch.topic.value.setAt);
    }
  }

  lemma {:induction false} SjoinCount(channels: seq<Channel>)
    ensures |Pick(Channels(channels), KSjoin)| == |Answering(channels)|
  {
    if channels != [] {
      var init, ch := channels[..|channels| - 1], channels[|channels| - 1];
      SjoinCount(init);
      PickConcat(Channels(init), ChannelPart(ch), KSjoin);
      PartCount(ch);
    }
  }

  lemma PartCount(ch: Channel)
    ensures |Pick(ChannelPart(ch), KSjoin)| == if ch.answers then 1 else 0
  {
    PartIs(ch);
    var part := ChannelPart(ch);
    if ch.answers {
      assert part == [part[0]] + part[1..];
      PickConcat([part[0]], part[1..], KSjoin);
      assert [part[0]][..0] == [];
      PickNone(part[1..], KSjoin);
    }
  }

  lemma {:induction false} SjoinsInTurn(channels: seq<Channel>, k: nat)
    requires k < |Channels(channels)| && Channels(channels)[k].Sjoin?
    ensures InTurn(Channels(channels), k, channels)
  {
    var init, ch := channels[..|channels| - 1], channels[|channels| - 1];
    var a, part, all := Channels(init), ChannelPart(ch), Channels(channels);
    assert all == a + part;
    PartIs(ch);
    if k < |a| {
      SjoinsInTurn(init, k);
      EarlierInTurn(a, part, k, init, channels);
    } else {
      assert k == |a|;
      assert all[..k] == a;
      SjoinCount(init);
      assert all[k + 1..] == part[1..];
    }
  }

  /** What was in turn stays in turn when another channel's part is added. */
  lemma EarlierInTurn(a: seq<Command>, part: seq<Command>, k: nat, init: seq<Channel>, channels: seq<Channel>)
    requires k < |a| && InTurn(a, k, init) && (part != [] ==> !part[0].Tb?)
    requires Answering(init) <= Answering(channels)
    ensures InTurn(a + part, k, channels)
  {
    assert (a + part)[..k] == a[..k];
    var i := |Pick(a[..k], KSjoin)|;
    assert Answering(init)[i] == Answering(channels)[i];
  }

  /** Every topic comes directly after an SJOIN. */
  lemma {:induction false} TopicsFollow(channels: seq<Channel>, k: nat)
    requires k < |Channels(channels)| && Channels(channels)[k].Tb?
    ensures k > 0 && Channels(channels)[k - 1].Sjoin?
  {
    var init, ch := channels[..|channels| - 1], channels[|channels| - 1];
    PartIs(ch);
    if k < |Channels(init)| {
      TopicsFollow(init, k);
    }
  }

  // ---------- The whole burst ----------

  lemma {:induction false} ChannelKinds(channels: seq<Channel>, i: nat)
    requires i < |Channels(channels)|
    ensures Channels(channels)[i].Sjoin? || Channels(channels)[i].Tb?
  {
    var init, ch := channels[..|channels| - 1], channels[|channels| - 1];
    if i < |Channels(init)| {
      ChannelKinds(init, i);
    } else {
      PartIs(ch);
    }
  }

  lemma PickUsers(users: seq<User>, target: Sid, k: Kind)
    ensures Pick(Users(users, target), k) == if k == KUid then Users(users, target) else []
  {
    UsersIntroduced(users, target);
    PickOnly(Users(users, target), KUid, k);
  }

  lemma PickServers(servers: seq<Topology.ServerInfo>, local: Sid, k: Kind)
    ensures Pick(Servers(servers, local), k) == if k == KSid then Servers(servers, local) else []
  {
    ServersAnnounced(servers, local);
    PickOnly(Servers(servers, local), KSid, k);
  }

  lemma PickChannels(channels: seq<Channel>, k: Kind)
    requires k != KSjoin && k != KTb
    ensures Pick(Channels(channels), k) == []
  {
    forall i | 0 <= i < |Channels(channels)|
      ensures KindOf(Channels(channels)[i]) != k
    {
      ChannelKinds(channels, i);
    }
    PickNone(Channels(channels), k);
  }

  function ZlinesOf(s: Snapshot): seq<Command> {
    if s.zlines.Some? then Zlines(s.zlines.value) else []
  }

  lemma PickGlines(bans: seq<Ban>, k: Kind)
    ensures Pick(Glines(bans), k) == if k == KGline then Glines(bans) else []
  {
    GlinesSent(bans);
    PickOnly(Glines(bans), KGline, k);
  }

  lemma PickShuns(bans: seq<Ban>, k: Kind)
    ensures Pick(Shuns(bans), k) == if k == KShun then Shuns(bans) else []
  {
    ShunsSent(bans);
    PickOnly(Shuns(bans), KShun, k);
  }

  lemma PickZlines(s: Snapshot, k: Kind)
    ensures Pick(ZlinesOf(s), k) == if k == KZline then ZlinesOf(s) else []
  {
    if s.zlines.Some? {
      ZlinesSent(s.zlines.value);
    }
    PickOnly(ZlinesOf(s), KZline, k);
  }

  lemma PickThree(a: seq<Command>, b: seq<Command>, c: seq<Command>, k: Kind)
    ensures Pick(a + b + c, k) == Pick(a, k) + Pick(b, k) + Pick(c, k)
  {
    PickConcat(a, b, k);
    PickConcat(a + b, c, k);
  }

  lemma PickBans(s: Snapshot, k: Kind)
    ensures Pick(Bans(s), k) == (if k == KGline then Glines(s.glines) else if k == KShun then Shuns(s.shuns)
                                 else if k == KZline then ZlinesOf(s) else [])
  {
    assert Bans(s) == Glines(s.glines) + Shuns(s.shuns) + ZlinesOf(s);
    PickThree(Glines(s.glines), Shuns(s.shuns), ZlinesOf(s), k);
    PickGlines(s.glines, k);
    PickShuns(s.shuns, k);
    PickZlines(s, k);
  }

  lemma PickFive(a: seq<Command>, b: seq<Command>, c: seq<Command>, d: seq<Command>, k: Kind)
    requires k != KEob
    ensures Pick(a + b + c + d + [Eob], k) == Pick(a, k) + Pick(b, k) + Pick(c, k) + Pick(d, k)
  {
    PickThree(a, b, c, k);
    PickConcat(a + b + c, d, k);
    PickConcat(a + b + c + d, [Eob], k);
    PickOnly([Eob], KEob, k);
  }

  lemma OnlyFirst(a: seq<Command>, b: seq<Command>, c: seq<Command>, d: seq<Command>, k: Kind)
    requires k != KEob && Pick(b, k) == [] && Pick(c, k) == [] && Pick(d, k) == []
    ensures Pick(a + b + c + d + [Eob], k) == Pick(a, k)
  {
    PickFive(a, b, c, d, k);
  }

  lemma OnlySecond(a: seq<Command>, b: seq<Command>, c: seq<Command>, d: seq<Command>, k: Kind)
    requires k != KEob && Pick(a, k) == [] && Pick(c, k) == [] && Pick(d, k) == []
    ensures Pick(a + b + c + d + [Eob], k) == Pick(b, k)
  {
    PickFive(a, b, c, d, k);
  }

  lemma OnlyFourth(a: seq<Command>, b: seq<Command>, c: seq<Command>, d: seq<Command>, k: Kind)
    requires k != KEob && Pick(a, k) == [] && Pick(b, k) == [] && Pick(c, k) == []
    ensures Pick(a + b + c + d + [Eob], k) == Pick(d, k)
  {
    PickFive(a, b, c, d, k);
  }

  lemma PickUids(s: Snapshot, local: Sid, target: Sid)
    ensures Pick(BurstOf(s, local, target), KUid) == Users(s.users, target)
  {
    PickBans(s, KUid);
    PickUsers(s.users, target, KUid);
    PickChannels(s.channels, KUid);
    PickServers(s.servers, local, KUid);
    OnlySecond(Bans(s), Users(s.users, target), Channels(s.channels), Servers(s.servers, local), KUid);
  }

  lemma PickSids(s: Snapshot, local: Sid, target: Sid)
    ensures Pick(BurstOf(s, local, target), KSid) == Servers(s.servers, local)
  {
    PickBans(s, KSid);
    PickUsers(s.users, target, KSid);
    PickChannels(s.channels, KSid);
    PickServers(s.servers, local, KSid);
    OnlyFourth(Bans(s), Users(s.users, target), Channels(s.channels), Servers(s.servers, local), KSid);
  }

  lemma PickBanned(s: Snapshot, local: Sid, target: Sid, k: Kind)
    requires k == KGline || k == KShun || k == KZline
    ensures Pick(BurstOf(s, local, target), k) == Pick(Bans(s), k)
  {
    PickUsers(s.users, target, k);
    PickChannels(s.channels, k);
    PickServers(s.servers, local, k);
    OnlyFirst(Bans(s), Users(s.users, target), Channels(s.channels), Servers(s.servers, local), k);
  }

  /** The UID commands of a burst introduce, in order and with all that is known of them, the users not of the target. */
  lemma BurstIntroducesUsers(s: Snapshot, local: Sid, target: Sid)
    ensures var uids := Pick(BurstOf(s, local, target), KUid);
            && |uids| == |Foreign(s.users, target)|
            && forall i :: 0 <= i < |uids| ==> Introduces(uids[i], Foreign(s.users, target)[i])
  {
    PickUids(s, local, target);
    UsersIntroduced(s.users, target);
  }

  /** The SID commands announce, in order, the servers other than the sender, each one hop farther. */
  lemma BurstAnnouncesServers(s: Snapshot, local: Sid, target: Sid)
    ensures var sids := Pick(BurstOf(s, local, target), KSid);
            && |sids| == |OtherServers(s.servers, local)|
            && forall i :: 0 <= i < |sids| ==> AnnouncesServer(sids[i], OtherServers(s.servers, local)[i])
  {
    PickSids(s, local, target);
    ServersAnnounced(s.servers, local);
  }

  /** All G-lines and shuns are sent, in order. */
  lemma BurstSendsBans(s: Snapshot, local: Sid, target: Sid)
    ensures var gs := Pick(BurstOf(s, local, target), KGline);
            |gs| == |s.glines| && forall i :: 0 <= i < |gs| ==> gs[i] == Gline(s.glines[i].mask, s.glines[i].reason)
    ensures var ss := Pick(BurstOf(s, local, target), KShun);
            |ss| == |s.shuns| && forall i :: 0 <= i < |ss| ==> ss[i] == Shun(s.shuns[i].mask, s.shuns[i].reason)
  {
    PickBanned(s, local, target, KGline);
    PickBans(s, KGline);
    PickBanned(s, local, target, KShun);
    PickBans(s, KShun);
    GlinesSent(s.glines);
    ShunsSent(s.shuns);
  }

  /** The Z-lines that have not expired are sent, in order; none if their lock is poisoned. */
  lemma BurstSendsZlines(s: Snapshot, local: Sid, target: Sid)
    ensures var zs, kept := Pick(BurstOf(s, local, target), KZline), if s.zlines.Some? then Unexpired(s.zlines.value) else [];
            |zs| == |kept| && forall i :: 0 <= i < |zs| ==> zs[i] == Zline(kept[i].mask, kept[i].reason)
  {
    PickBanned(s, local, target, KZline);
    PickBans(s, KZline);
    if s.zlines.Some? {
      ZlinesSent(s.zlines.value);
    }
  }

  // ---------- Channels in the whole burst ----------

  lemma BanKinds(s: Snapshot, i: nat)
    requires i < |Bans(s)|
    ensures !Bans(s)[i].Sjoin? && !Bans(s)[i].Tb?
  {
    BansContents(s);
    assert Bans(s)[i] in Bans(s);
  }

  /** Neither an SJOIN nor a topic. */
  ghost predicate Apart(cs: seq<Command>) {
    NoneOf(cs, KSjoin) && NoneOf(cs, KTb)
  }

  lemma ApartBefore(s: Snapshot, target: Sid)
    ensures Apart(Bans(s) + Users(s.users, target))
  {
    var bans, users := Bans(s), Users(s.users, target);
    UsersIntroduced(s.users, target);
    forall i | 0 <= i < |bans + users|
      ensures KindOf((bans + users)[i]) != KSjoin && KindOf((bans + users)[i]) != KTb
    {
      if i < |bans| {
        BanKinds(s, i);
      } else {
        assert Introduces(users[i - |bans|], Foreign(s.users, target)[i - |bans|]);
      }
    }
  }

  lemma ApartAfter(s: Snapshot, local: Sid)
    ensures Apart(Servers(s.servers, local) + [Eob])
  {
    var servers := Servers(s.servers, local);
    ServersAnnounced(s.servers, local);
    forall i | 0 <= i < |servers + [Eob]|
      ensures KindOf((servers + [Eob])[i]) != KSjoin && KindOf((servers + [Eob])[i]) != KTb
    {
      if i < |servers| {
        assert AnnouncesServer(servers[i], OtherServers(s.servers, local)[i]);
      }
    }
  }

  lemma SjoinsCounted(pre: seq<Command>, channels: seq<Channel>, post: seq<Command>)
    requires Apart(pre) && Apart(post)
    ensures |Pick(pre + Channels(channels) + post, KSjoin)| == |Answering(channels)|
  {
    PickThree(pre, Channels(channels), post, KSjoin);
    PickNone(pre, KSjoin);
    PickNone(post, KSjoin);
    SjoinCount(channels);
  }

  /** What is said of the command at position k, in a burst with the channels in the middle. */
  ghost predicate Said(b: seq<Command>, k: nat, channels: seq<Channel>)
    requires k < |b|
  {
    (b[k].Sjoin? ==> InTurn(b, k, channels)) && (b[k].Tb? ==> k > 0 && b[k - 1].Sjoin?)
  }

  lemma OutsideSaid(pre: seq<Command>, chan: seq<Command>, post: seq<Command>, k: nat, c: Command)
    requires Apart(pre) && Apart(post) && k < |pre + chan + post| && c == (pre + chan + post)[k]
    requires k < |pre| || k >= |pre| + |chan|
    ensures !c.Sjoin? && !c.Tb?
  {
    assert c == if k < |pre| then pre[k] else post[k - |pre| - |chan|];
    assert KindOf(c) != KSjoin && KindOf(c) != KTb;
  }

  lemma InsideSaid(pre: seq<Command>, channels: seq<Channel>, post: seq<Command>, j: nat)
    requires Apart(pre) && Apart(post) && post != [] && j < |Channels(channels)|
    ensures Said(pre + Channels(channels) + post, |pre| + j, channels)
  {
    var chan := Channels(channels);
    var b := pre + chan + post;
    assert b[|pre| + j] == chan[j];
    if chan[j].Sjoin? {
      SjoinsInTurn(channels, j);
      LiftInTurn(pre, chan, post, j, channels);
    } else if chan[j].Tb? {
      TopicsFollow(channels, j);
      assert b[|pre| + j - 1] == chan[j - 1];
    }
  }

  lemma MiddleInTurn(pre: seq<Command>, channels: seq<Channel>, post: seq<Command>, k: nat)
    requires Apart(pre) && Apart(post) && post != [] && k < |pre + Channels(channels) + post|
    ensures Said(pre + Channels(channels) + post, k, channels)
  {
    var chan := Channels(channels);
    if |pre| <= k < |pre| + |chan| {
      InsideSaid(pre, channels, post, k - |pre|);
    } else {
      OutsideSaid(pre, chan, post, k, (pre + chan + post)[k]);
    }
  }

  lemma LiftInTurn(pre: seq<Command>, chan: seq<Command>, post: seq<Command>, k: nat, channels: seq<Channel>)
    requires k < |chan| && InTurn(chan, k, channels) && Apart(pre) && post != [] && Apart(post)
    ensures InTurn(pre + chan + post, |pre| + k, channels)
  {
    var b := pre + chan + post;
    LiftPick(pre, chan, post, k);
    var ch := Answering(channels)[|Pick(chan[..k], KSjoin)|];
    assert b[|pre| + k] == chan[k];
    assert KindOf(post[0]) != KTb;
    assert b[|pre| + k + 1] == if k + 1 < |chan| then chan[k + 1] else post[0];
  }

  lemma LiftPick(pre: seq<Command>, chan: seq<Command>, post: seq<Command>, k: nat)
    requires k < |chan| && Apart(pre)
    ensures Pick((pre + chan + post)[..|pre| + k], KSjoin) == Pick(chan[..k], KSjoin)
  {
    assert (pre + chan + post)[..|pre| + k] == pre + chan[..k];
    PickConcat(pre, chan[..k], KSjoin);
    PickNone(pre, KSjoin);
  }

  lemma BurstSplits(bans: seq<Command>, users: seq<Command>, chan: seq<Command>, servers: seq<Command>)
    ensures bans + users + chan + servers + [Eob] == (bans + users) + chan + (servers + [Eob])
  {
  }

  /**
   The SJOINs of a burst are, in order, those of the channels that answer: each with that channel's name, time, modes and
   members, and directly followed by its topic exactly if it has one. No other channel is mentioned.
   */
  lemma BurstDescribesChannels(s: Snapshot, local: Sid, target: Sid, k: nat)
    requires k < |BurstOf(s, local, target)|
    ensures |Pick(BurstOf(s, local, target), KSjoin)| == |Answering(s.channels)|
    ensures Said(BurstOf(s, local, target), k, s.channels)
  {
    var pre, post := Bans(s) + Users(s.users, target), Servers(s.servers, local) + [Eob];
    ApartBefore(s, target);
    ApartAfter(s, local);
    BurstSplits(Bans(s), Users(s.users, target), Channels(s.channels), Servers(s.servers, local));
    SjoinsCounted(pre, s.channels, post);
    MiddleInTurn(pre, s.channels, post, k);
  }
}
