/**
 Channel membership over the operations of the registry: which of them keep the users' channel lists and the channels'
 member lists in agreement, and what a full disconnect leaves.
 */
module Membership {
  import opened Common
  import opened Casemap
  import opened NickIndex
  import opened Registry
  import opened NickLaws

  // ---------- Single operations ----------

  /** A change of nick alone does not concern memberships. */
  lemma NickOnly(users: map<Uid, User>, after: map<Uid, User>, channels: map<string, set<Uid>>)
    requires MembershipAgrees(users, channels) && after.Keys == users.Keys
    requires forall u :: u in users ==> after[u].channels == users[u].channels
    ensures MembershipAgrees(after, channels)
  {
  }

  /** A user who is on no channel can come and go. */
  lemma NewcomerAgrees(users: map<Uid, User>, channels: map<string, set<Uid>>, u: Uid, nick: string)
    requires MembershipAgrees(users, channels) && u !in users
    ensures MembershipAgrees(users[u := User(nick, {})], channels)
  {
  }

  /** Removing a user but not their memberships keeps the lists in agreement exactly when the user was on no channel. */
  lemma DropUserAgreesIff(users: map<Uid, User>, channels: map<string, set<Uid>>, u: Uid)
    requires MembershipAgrees(users, channels) && u in users
    ensures MembershipAgrees(users - {u}, channels) <==> users[u].channels == {}
  {
    if users[u].channels != {} {
      var c :| c in users[u].channels;
      assert c in channels && u in channels[c];
    }
  }

  lemma JoinAgrees(st: State, u: Uid, channel: string)
    requires MembershipAgrees(st.users, st.channels)
    ensures MembershipAgrees(Join(st, u, channel).users, Join(st, u, channel).channels)
  {
  }

  lemma KickAgrees(st: State, channel: string, u: Uid)
    requires MembershipAgrees(st.users, st.channels)
    ensures MembershipAgrees(Kick(st, channel, u).users, Kick(st, channel, u).channels)
  {
  }

  lemma LeaveAgrees(users: map<Uid, User>, channels: map<string, set<Uid>>, u: Uid)
    requires MembershipAgrees(users, channels) && u in users
    ensures MembershipAgrees(users - {u}, Leave(channels, users[u].channels, u))
  {
    var after := Leave(channels, users[u].channels, u);
    forall x, c | x in users - {u} && c in users[x].channels
      ensures c in after && x in after[c]
    {
      assert x in channels[c] - {u};
    }
  }

  lemma VacateAgrees(users: map<Uid, User>, channels: map<string, set<Uid>>, u: Uid)
    requires MembershipAgrees(users, channels) && u in users
    ensures MembershipAgrees(users - {u}, Vacate(channels, users[u].channels, u))
  {
  }

  lemma DisconnectAgrees(st: State, u: Uid)
    requires MembershipAgrees(st.users, st.channels)
    ensures MembershipAgrees(Disconnect(st, u).users, Disconnect(st, u).channels)
  {
    if u in st.users {
      LeaveAgrees(st.users, st.channels, u);
    }
  }

  lemma SplitOffAgrees(st: State, u: Uid)
    requires MembershipAgrees(st.users, st.channels)
    ensures MembershipAgrees(SplitOff(st, u).users, SplitOff(st, u).channels)
  {
    if u in st.users {
      VacateAgrees(st.users, st.channels, u);
    }
  }

  // ---------- Users introduced by peers ----------

  lemma TakeInAgrees(st: State, u: Uid, nick: string, merged: string)
    requires MembershipAgrees(st.users, st.channels)
    ensures MembershipAgrees(TakeIn(st, u, nick, merged).users, st.channels)
    ensures TakeIn(st, u, nick, merged).channels == st.channels
    ensures u in TakeIn(st, u, nick, merged).users
    ensures TakeIn(st, u, nick, merged).users[u].channels == if u in st.users then st.users[u].channels else {}
  {
    if u in st.users {
      NickOnly(st.users, TakeIn(st, u, nick, merged).users, st.channels);
    } else {
      NewcomerAgrees(st.users, st.channels, u, nick);
    }
  }

  /** A user whom the server removes without taking them out of their channels is on none. */
  ghost predicate Unchannelled(st: State, u: Uid) {
    u in st.users ==> st.users[u].channels == {}
  }

  /** Whom a merge kills, by the age of the incoming record. */
  ghost predicate MergeSpares(st: State, u: Uid, nick: string, age: Age) {
    var rival := Rival(st, u, nick);
    rival.Some? ==>
      && (age.Newer? || Unchannelled(st, rival.value))
      && (age.Older? || Unchannelled(st, u))
  }

  lemma MergeAgreesIff(st: State, u: Uid, nick: string, merged: string, age: Age)
    requires MembershipAgrees(st.users, st.channels)
    ensures MembershipAgrees(Merge(st, u, nick, merged, age).users, Merge(st, u, nick, merged, age).channels)
        <==> MergeSpares(st, u, nick, age)
  {
    var rival := Rival(st, u, nick);
    TakeInAgrees(st, u, nick, merged);
    if rival.Some? {
      match age
      case Older => OlderAgreesIff(st, u, nick, merged, rival.value);
      case Newer => TakeInThenKillAgreesIff(st, u, nick, merged);
      case Tie => TieAgreesIff(st, u, nick, merged, rival.value);
    }
  }

  lemma OlderAgreesIff(st: State, u: Uid, nick: string, merged: string, rival: Uid)
    requires MembershipAgrees(st.users, st.channels) && rival in st.users && rival != u
    ensures MembershipAgrees(TakeIn(Kill(st, rival), u, nick, merged).users, st.channels)
        <==> st.users[rival].channels == {}
    ensures TakeIn(Kill(st, rival), u, nick, merged).channels == st.channels
  {
    var killed := Kill(st, rival);
    DropUserAgreesIff(st.users, st.channels, rival);
    if st.users[rival].channels == {} {
      TakeInAgrees(killed, u, nick, merged);
    } else {
      StillListed(st, rival, TakeIn(killed, u, nick, merged).users);
    }
  }

  /** A user who is gone but was on a channel is still listed there. */
  lemma StillListed(st: State, u: Uid, users: map<Uid, User>)
    requires MembershipAgrees(st.users, st.channels) && u in st.users && st.users[u].channels != {} && u !in users
    ensures !MembershipAgrees(users, st.channels)
  {
    var c :| c in st.users[u].channels;
    assert c in st.channels && u in st.channels[c];
  }

  lemma TakeInKeepsChannels(st: State, u: Uid, nick: string, merged: string)
    ensures TakeIn(st, u, nick, merged).channels == st.channels
    ensures TakeIn(st, u, nick, merged).users.Keys == st.users.Keys + {u}
  {
  }

  lemma TieAgreesIff(st: State, u: Uid, nick: string, merged: string, rival: Uid)
    requires MembershipAgrees(st.users, st.channels) && rival in st.users && rival != u
    ensures var after := Kill(TakeIn(Kill(st, rival), u, nick, merged), u);
            && after.channels == st.channels
            && (MembershipAgrees(after.users, st.channels) <==> st.users[rival].channels == {} && Unchannelled(st, u))
  {
    var killed := Kill(st, rival);
    TakeInKeepsChannels(killed, u, nick, merged);
    if st.users[rival].channels != {} {
      StillListed(st, rival, Kill(TakeIn(killed, u, nick, merged), u).users);
    } else {
      DropUserAgreesIff(st.users, st.channels, rival);
      TakeInThenKillAgreesIff(killed, u, nick, merged);
    }
  }

  lemma TakeInThenKillAgreesIff(st: State, u: Uid, nick: string, merged: string)
    requires MembershipAgrees(st.users, st.channels)
    ensures MembershipAgrees(Kill(TakeIn(st, u, nick, merged), u).users, st.channels) <==> Unchannelled(st, u)
  {
    TakeInAgrees(st, u, nick, merged);
    DropUserAgreesIff(TakeIn(st, u, nick, merged).users, st.channels, u);
  }

  // ---------- Steps and runs ----------

  /** What a caller can check beforehand to know that an operation keeps memberships in agreement. */
  ghost predicate MembershipSound(st: State, op: Op) {
    match op
    case OpQuit(u) => Unchannelled(st, u)
    case OpMerge(u, nick, _, age) => MergeSpares(st, u, nick, age)
    case _ => true
  }

  ghost predicate AgreesAfter(st: State, op: Op) {
    MembershipAgrees(Apply(st, op).users, Apply(st, op).channels)
  }

  lemma NickKeepsChannels(st: State, u: Uid, nick: string, allowed: bool)
    requires MembershipAgrees(st.users, st.channels)
    ensures AgreesAfter(st, OpNick(u, nick, allowed))
  {
    NickOnly(st.users, ChangeNick(st, u, nick, allowed).users, st.channels);
  }

  lemma ForceKeepsChannels(st: State, u: Uid, oldNick: string, newNick: string)
    requires MembershipAgrees(st.users, st.channels)
    ensures AgreesAfter(st, OpForceNick(u, oldNick, newNick))
  {
    NickOnly(st.users, ForceNick(st, u, oldNick, newNick).users, st.channels);
  }

  lemma SanickKeepsChannels(st: State, oldNick: string, newNick: string)
    requires MembershipAgrees(st.users, st.channels)
    ensures AgreesAfter(st, OpSanick(oldNick, newNick))
  {
    NickOnly(st.users, Sanick(st, oldNick, newNick).users, st.channels);
  }

  lemma ExpireKeepsChannels(st: State, u: Uid, guest: string)
    requires MembershipAgrees(st.users, st.channels)
    ensures AgreesAfter(st, OpExpire(u, guest))
  {
    if u in st.users && u in st.senders {
      RenamedAgrees(st.users, st.channels, u, guest);
    }
  }

  lemma RenamedAgrees(users: map<Uid, User>, channels: map<string, set<Uid>>, u: Uid, nick: string)
    requires MembershipAgrees(users, channels) && u in users
    ensures MembershipAgrees(users[u := users[u].(nick := nick)], channels)
  {
    NickOnly(users, users[u := users[u].(nick := nick)], channels);
  }

  lemma RenamesAgree(st: State, op: Op)
    requires MembershipAgrees(st.users, st.channels) && (op.OpNick? || op.OpForceNick? || op.OpSanick? || op.OpExpire?)
    ensures AgreesAfter(st, op)
  {
    match op
    case OpNick(u, nick, allowed) => NickKeepsChannels(st, u, nick, allowed);
    case OpForceNick(u, oldNick, newNick) => ForceKeepsChannels(st, u, oldNick, newNick);
    case OpSanick(oldNick, newNick) => SanickKeepsChannels(st, oldNick, newNick);
    case OpExpire(u, guest) => ExpireKeepsChannels(st, u, guest);
  }

  lemma ArrivalsAgree(st: State, op: Op)
    requires Indexed(st) && MembershipAgrees(st.users, st.channels) && Enabled(st, op)
    requires op.OpConnect? || op.OpRegister? || op.OpService?
    ensures AgreesAfter(st, op)
  {
    if op.OpService? {
      NewcomerAgrees(st.users, st.channels, op.uid, op.nick);
    } else if op.OpRegister? && CanRegister(st, op.uid) {
      NewcomerAgrees(st.users, st.channels, op.uid, st.sessions[op.uid].nick.value);
    }
  }

  lemma ChannelStepsAgree(st: State, op: Op)
    requires MembershipAgrees(st.users, st.channels) && (op.OpJoin? || op.OpKick?)
    ensures AgreesAfter(st, op)
  {
    JoinAgrees(st, op.uid, op.channel);
    KickAgrees(st, op.channel, op.uid);
  }

  lemma DeparturesAgree(st: State, op: Op)
    requires MembershipAgrees(st.users, st.channels) && (op.OpClose? || op.OpDisconnect? || op.OpSplit?)
    ensures AgreesAfter(st, op)
  {
    if op.OpSplit? {
      SplitOffAgrees(st, op.uid);
    } else {
      DisconnectAgrees(st, op.uid);
    }
  }

  lemma QuitAgreesIff(st: State, u: Uid)
    requires MembershipAgrees(st.users, st.channels)
    ensures AgreesAfter(st, OpQuit(u)) <==> Unchannelled(st, u)
  {
    if u in st.users {
      DropUserAgreesIff(st.users, st.channels, u);
    }
  }

  /** Every operation keeps memberships in agreement exactly when it does not kill a user who is on a channel. */
  lemma StepKeepsMembershipIff(st: State, op: Op)
    requires Indexed(st) && MembershipAgrees(st.users, st.channels) && Enabled(st, op)
    ensures AgreesAfter(st, op) <==> MembershipSound(st, op)
  {
    if op.OpQuit? {
      QuitAgreesIff(st, op.uid);
    } else if op.OpMerge? {
      MergeAgreesIff(st, op.uid, op.nick, op.merged, op.age);
    } else if op.OpConnect? || op.OpRegister? || op.OpService? {
      ArrivalsAgree(st, op);
    } else if op.OpMode? {
    } else if op.OpJoin? || op.OpKick? {
      ChannelStepsAgree(st, op);
    } else if op.OpClose? || op.OpDisconnect? || op.OpSplit? {
      DeparturesAgree(st, op);
    } else {
      RenamesAgree(st, op);
    }
  }

  /** Over every run of operations that are sound for both, index and memberships are right. */
  lemma {:induction false} RunsStayConsistent(st: State, ops: seq<Op>)
    requires Consistent(st) && EnabledRun(st, ops)
    requires forall i :: 0 <= i < |ops| ==>
               IndexSound(Run(st, ops[..i]), ops[i]) && MembershipSound(Run(st, ops[..i]), ops[i])
    ensures Consistent(Run(st, ops))
  {
    if ops != [] {
      var before, op := Run(st, ops[..|ops| - 1]), ops[|ops| - 1];
      RunPrefix(st, ops);
      RunsStayConsistent(st, ops[..|ops| - 1]);
      StepKeepsIndexIff(before, op);
      StepKeepsMembershipIff(before, op);
    }
  }

  /** A QUIT from a peer for a user on a channel leaves them in the channel's list. */
  lemma QuitLeavesGhost(st: State, u: Uid, c: string)
    requires MembershipAgrees(st.users, st.channels) && u in st.users && c in st.users[u].channels
    ensures var after := Kill(st, u);
            u !in after.users && c in after.channels && u in after.channels[c]
  {
  }

  // ---------- A full disconnect ----------

  predicate InChannel(st: State, c: string, u: Uid) {
    c in st.channels && u in st.channels[c]
  }

  ghost predicate Mentions(st: State, u: Uid) {
    || u in st.users || u in st.timers || u in st.senders
    || (exists n :: Lists(st.nicks, n, u))
    || (exists c :: InChannel(st, c, u))
  }

  /** The index has the user under their own nick only, and no channel has them that they do not list. */
  ghost predicate Filed(st: State, u: Uid)
    requires u in st.users
  {
    && (forall n :: Lists(st.nicks, n, u) ==> n == ToLower(st.users[u].nick))
    && (forall c :: InChannel(st, c, u) ==> c in st.users[u].channels)
  }

  lemma ConsistentIsFiled(st: State, u: Uid)
    requires Consistent(st) && u in st.users
    ensures Filed(st, u)
  {
    forall n | Lists(st.nicks, n, u)
      ensures n == ToLower(st.users[u].nick)
    {
      ListedUnderName(st, u, n);
    }
  }

  /**
   In every state, a full disconnect leaves no trace of the user exactly when the user was filed right, however often the
   index repeats them; and it touches nobody else.
   */
  lemma DisconnectIsComplete(st: State, u: Uid)
    requires u in st.users
    ensures var after := Disconnect(st, u);
            && (!Mentions(after, u) <==> Filed(st, u))
            && (Consistent(st) ==> !Mentions(after, u))
            && after.users == st.users - {u}
            && (forall n, x :: x != u ==> (Lists(after.nicks, n, x) <==> Lists(st.nicks, n, x)))
            && (forall c, x :: x != u ==> (InChannel(after, c, x) <==> InChannel(st, c, x)))
  {
    DisconnectLists(st, u);
    DisconnectMembers(st, u);
    DisconnectMentions(st, Disconnect(st, u), u);
    if Consistent(st) {
      ConsistentIsFiled(st, u);
    }
  }

  lemma DisconnectLists(st: State, u: Uid)
    requires u in st.users
    ensures forall n, x :: Lists(Disconnect(st, u).nicks, n, x) <==>
              Lists(st.nicks, n, x) && !(n == ToLower(st.users[u].nick) && x == u)
  {
    forall n, x
      ensures Lists(Disconnect(st, u).nicks, n, x) <==>
                Lists(st.nicks, n, x) && !(n == ToLower(st.users[u].nick) && x == u)
    {
      ListsAfterDrop(st.nicks, ToLower(st.users[u].nick), u, n, x);
    }
  }

  lemma DisconnectMembers(st: State, u: Uid)
    requires u in st.users
    ensures forall c, x :: InChannel(Disconnect(st, u), c, x) <==>
              InChannel(st, c, x) && !(c in st.users[u].channels && x == u)
  {
    forall c, x
      ensures InChannel(Disconnect(st, u), c, x) <==> InChannel(st, c, x) && !(c in st.users[u].channels && x == u)
    {
      if InChannel(st, c, x) && x != u {
        assert x in st.channels[c] - {u};
      }
    }
  }

  lemma DisconnectMentions(st: State, after: State, u: Uid)
    requires u in st.users && after == Disconnect(st, u)
    requires forall n, x :: Lists(after.nicks, n, x) <==>
               Lists(st.nicks, n, x) && !(n == ToLower(st.users[u].nick) && x == u)
    requires forall c, x :: InChannel(after, c, x) <==> InChannel(st, c, x) && !(c in st.users[u].channels && x == u)
    ensures !Mentions(after, u) <==> Filed(st, u)
  {
  }

  /** Where memberships agree, the channels that a disconnect drops are those where the user was alone. */
  lemma DisconnectChannels(st: State, u: Uid)
    requires MembershipAgrees(st.users, st.channels) && u in st.users
    ensures var after := Disconnect(st, u);
            && (forall c :: c in st.channels ==> (c !in after.channels <==> st.channels[c] == {u}))
            && (forall c :: c in after.channels ==> c in st.channels && after.channels[c] == st.channels[c] - {u})
  {
    forall c | c in st.channels
      ensures c in st.users[u].channels <==> u in st.channels[c]
      ensures u !in st.channels[c] ==> st.channels[c] - {u} == st.channels[c]
      ensures u in st.channels[c] ==> (st.channels[c] - {u} == {} <==> st.channels[c] == {u})
    {
    }
  }
}
