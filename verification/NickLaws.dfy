/**
 The nick index over the operations of the registry: which of them keep it in agreement with the users' nicks and the
 pending claims, and which of them enter a UID twice.
 */
module NickLaws {
  import opened Common
  import opened Casemap
  import opened NickIndex
  import opened Registry

  // ---------- Names ----------

  lemma NamesAt(users: map<Uid, User>, sessions: map<Uid, Session>, u: Uid)
    ensures NameOf(users, sessions, u)
         == if u in NamesOf(users, sessions) then Some(NamesOf(users, sessions)[u]) else None
  {
  }

  lemma NamesAre(users: map<Uid, User>, sessions: map<Uid, Session>, names: Names)
    requires forall u :: NameOf(users, sessions, u) == if u in names then Some(names[u]) else None
    ensures NamesOf(users, sessions) == names
  {
    forall u
      ensures u in NamesOf(users, sessions) <==> u in names
      ensures u in names ==> NamesOf(users, sessions)[u] == names[u]
    {
      NamesAt(users, sessions, u);
    }
  }

  lemma NamesWithUser(users: map<Uid, User>, sessions: map<Uid, Session>, u: Uid, user: User)
    ensures NamesOf(users[u := user], sessions) == NamesOf(users, sessions)[u := ToLower(user.nick)]
  {
    var names := NamesOf(users, sessions)[u := ToLower(user.nick)];
    forall x
      ensures NameOf(users[u := user], sessions, x) == if x in names then Some(names[x]) else None
    {
      NamesAt(users, sessions, x);
    }
    NamesAre(users[u := user], sessions, names);
  }

  lemma NamesWithoutUser(users: map<Uid, User>, sessions: map<Uid, Session>, u: Uid)
    requires Apart(users, sessions) && u in users
    ensures NamesOf(users - {u}, sessions) == NamesOf(users, sessions) - {u}
  {
    var names := NamesOf(users, sessions) - {u};
    forall x
      ensures NameOf(users - {u}, sessions, x) == if x in names then Some(names[x]) else None
    {
      NamesAt(users, sessions, x);
    }
    NamesAre(users - {u}, sessions, names);
  }

  /** The connection of a user adds nothing to the names. */
  lemma NamesWithSession(users: map<Uid, User>, sessions: map<Uid, Session>, u: Uid, s: Session)
    requires u in users
    ensures NamesOf(users, sessions[u := s]) == NamesOf(users, sessions)
  {
    forall x
      ensures NameOf(users, sessions[u := s], x)
           == if x in NamesOf(users, sessions) then Some(NamesOf(users, sessions)[x]) else None
    {
      NamesAt(users, sessions, x);
    }
    NamesAre(users, sessions[u := s], NamesOf(users, sessions));
  }

  lemma NamesWithClaim(users: map<Uid, User>, sessions: map<Uid, Session>, u: Uid, nick: string)
    requires u !in users
    ensures NamesOf(users, sessions[u := Session(Some(nick), false)]) == NamesOf(users, sessions)[u := ToLower(nick)]
  {
    var after, names := sessions[u := Session(Some(nick), false)], NamesOf(users, sessions)[u := ToLower(nick)];
    forall x
      ensures NameOf(users, after, x) == if x in names then Some(names[x]) else None
    {
      NamesAt(users, sessions, x);
    }
    NamesAre(users, after, names);
  }

  /** A connection without a user and without a claim has no name. */
  lemma NamesWithIdle(users: map<Uid, User>, sessions: map<Uid, Session>, u: Uid, s: Session)
    requires u !in users && (s.registered || s.nick.None?)
    ensures NamesOf(users, sessions[u := s]) == NamesOf(users, sessions) - {u}
  {
    var names := NamesOf(users, sessions) - {u};
    forall x
      ensures NameOf(users, sessions[u := s], x) == if x in names then Some(names[x]) else None
    {
      NamesAt(users, sessions, x);
    }
    NamesAre(users, sessions[u := s], names);
  }

  lemma NamesWithoutSession(users: map<Uid, User>, sessions: map<Uid, Session>, u: Uid)
    requires u !in users
    ensures NamesOf(users, sessions - {u}) == NamesOf(users, sessions) - {u}
  {
    var names := NamesOf(users, sessions) - {u};
    forall x
      ensures NameOf(users, sessions - {u}, x) == if x in names then Some(names[x]) else None
    {
      NamesAt(users, sessions, x);
    }
    NamesAre(users, sessions - {u}, names);
  }

  // ---------- What each operation does to the index ----------

  lemma RenameIndexed(st: State, u: Uid, oldNick: string, newNick: string)
    requires Indexed(st) && u in st.users && ToLower(oldNick) == ToLower(st.users[u].nick)
    ensures Indexed(Rename(st, u, oldNick, newNick))
  {
    NamesWithUser(st.users, st.sessions, u, st.users[u].(nick := newNick));
    MoveAgrees(NamesOf(st.users, st.sessions), st.nicks, u, ToLower(newNick));
  }

  /** A forced rename keeps the index exactly when its old or its new nick folds to the user's current one. */
  lemma ForceNickKeepsIndexIff(st: State, u: Uid, oldNick: string, newNick: string)
    requires Indexed(st) && u in st.users
    ensures Indexed(ForceNick(st, u, oldNick, newNick))
        <==> ToLower(st.users[u].nick) == ToLower(oldNick) || ToLower(st.users[u].nick) == ToLower(newNick)
  {
    if ToLower(st.users[u].nick) == ToLower(oldNick) {
      RenameIndexed(st, u, oldNick, newNick);
    } else {
      NamesWithUser(st.users, st.sessions, u, st.users[u].(nick := newNick));
      StaleMoveAgreesIff(NamesOf(st.users, st.sessions), st.nicks, u, ToLower(oldNick), ToLower(newNick));
    }
  }

  lemma SanickIndexed(st: State, oldNick: string, newNick: string)
    requires Indexed(st)
    ensures Indexed(Sanick(st, oldNick, newNick))
  {
    if ToLower(oldNick) in st.nicks {
      var target := st.nicks[ToLower(oldNick)][0];
      assert Lists(st.nicks, ToLower(oldNick), target);
      if target in st.users {
        RenameIndexed(st, target, oldNick, newNick);
      }
    }
  }

  /** A SANICK that goes through takes a nick that nobody has, and gives it to the first user of the old one alone. */
  lemma SanickTakesFreeNick(st: State, oldNick: string, newNick: string)
    requires Indexed(st) && Sanick(st, oldNick, newNick) != st
    ensures ToLower(oldNick) in st.nicks && ToLower(newNick) !in st.nicks
    ensures var target := st.nicks[ToLower(oldNick)][0];
            && target in st.users && ToLower(st.users[target].nick) == ToLower(oldNick)
            && Sanick(st, oldNick, newNick).users[target].nick == newNick
            && ToLower(newNick) in Sanick(st, oldNick, newNick).nicks
            && Sanick(st, oldNick, newNick).nicks[ToLower(newNick)] == [target]
  {
    var target := st.nicks[ToLower(oldNick)][0];
    assert Lists(st.nicks, ToLower(oldNick), target);
    NamesAt(st.users, st.sessions, target);
    assert ToLower(newNick) !in DropNick(st.nicks, ToLower(oldNick), target);
  }

  lemma AddIndexed(st: State, u: Uid, nick: string)
    requires Indexed(st) && u !in st.users && u !in st.sessions
    ensures Indexed(AddUser(st, u, nick))
  {
    NamesWithUser(st.users, st.sessions, u, User(nick, {}));
    PushAgrees(NamesOf(st.users, st.sessions), st.nicks, u, ToLower(nick));
  }

  /** Removing a user together with their entry keeps the index, whatever happens to channels, timers and senders. */
  lemma RemovalIndexed(st: State, u: Uid, after: State)
    requires Indexed(st) && u in st.users && after.users == st.users - {u} && after.sessions == st.sessions
    requires after.nicks == DropNick(st.nicks, ToLower(st.users[u].nick), u)
    ensures Indexed(after)
  {
    NamesWithoutUser(st.users, st.sessions, u);
    DropAgrees(NamesOf(st.users, st.sessions), st.nicks, u);
  }

  lemma KillIndexed(st: State, u: Uid)
    requires Indexed(st)
    ensures Indexed(Kill(st, u))
  {
    if u in st.users {
      RemovalIndexed(st, u, Kill(st, u));
    }
  }

  lemma DisconnectIndexed(st: State, u: Uid)
    requires Indexed(st)
    ensures Indexed(Disconnect(st, u))
  {
    if u in st.users {
      RemovalIndexed(st, u, Disconnect(st, u));
    }
  }

  lemma TakeInIndexed(st: State, u: Uid, nick: string, merged: string)
    requires Indexed(st) && (u in st.users || u !in st.sessions)
    ensures Indexed(TakeIn(st, u, nick, merged))
  {
    if u !in st.users {
      AddIndexed(st, u, nick);
    } else if ToLower(st.users[u].nick) != ToLower(merged) {
      RenameIndexed(st, u, st.users[u].nick, merged);
    } else {
      RespellIndexed(st, u, merged);
    }
  }

  /** The same nick in another spelling. */
  lemma RespellIndexed(st: State, u: Uid, nick: string)
    requires Indexed(st) && u in st.users && ToLower(st.users[u].nick) == ToLower(nick)
    ensures Indexed(st.(users := st.users[u := st.users[u].(nick := nick)]))
  {
    var names := NamesOf(st.users, st.sessions);
    NamesWithUser(st.users, st.sessions, u, st.users[u].(nick := nick));
    NamesAt(st.users, st.sessions, u);
    assert names[u := ToLower(nick)] == names;
  }

  /** The defensive repair after a collision never finds anything to repair. */
  lemma RestoreIsIdle(st: State, u: Uid)
    requires Indexed(st)
    ensures Restore(st, u) == st
  {
    if u in st.users {
      assert u in NamesOf(st.users, st.sessions);
    }
  }

  lemma MergeIndexed(st: State, u: Uid, nick: string, merged: string, age: Age)
    requires Indexed(st) && (u in st.users || u !in st.sessions)
    ensures Indexed(Merge(st, u, nick, merged, age))
  {
    var rival := Rival(st, u, nick);
    if rival.None? {
      TakeInIndexed(st, u, nick, merged);
    } else {
      KillIndexed(st, rival.value);
      var base := if age.Newer? then st else Kill(st, rival.value);
      TakeInIndexed(base, u, nick, merged);
      KillIndexed(TakeIn(base, u, nick, merged), u);
      if age.Newer? {
        RestoreIsIdle(Kill(TakeIn(st, u, nick, merged), u), rival.value);
      }
    }
  }

  // ---------- Connections and the index ----------

  lemma ConnectIndexed(st: State, u: Uid)
    requires Indexed(st) && u !in st.users && u !in st.sessions
    ensures Indexed(Connect(st, u))
  {
    NamesWithIdle(st.users, st.sessions, u, Session(None, false));
    assert NamesOf(st.users, st.sessions) - {u} == NamesOf(st.users, st.sessions);
  }

  lemma ReleaseIndexed(st: State, u: Uid)
    requires Indexed(st) && u in st.sessions && !st.sessions[u].registered
    ensures Indexed(Close(st, u))
  {
    var names := NamesOf(st.users, st.sessions);
    NamesWithoutSession(st.users, st.sessions, u);
    if st.sessions[u].nick.Some? {
      DropAgrees(names, st.nicks, u);
    } else {
      assert names - {u} == names;
    }
  }

  lemma CloseIndexed(st: State, u: Uid)
    requires Indexed(st)
    ensures Indexed(Close(st, u))
  {
    if u in st.sessions {
      if st.sessions[u].registered {
        var gone := Disconnect(st, u);
        DisconnectIndexed(st, u);
        var names := NamesOf(gone.users, gone.sessions);
        NamesWithoutSession(gone.users, gone.sessions, u);
        NamesAt(gone.users, gone.sessions, u);
        assert names - {u} == names;
      } else {
        ReleaseIndexed(st, u);
      }
    }
  }

  /** Registering keeps the index exactly when the welcome goes out. */
  lemma RegisterKeepsIndexIff(st: State, u: Uid, written: bool)
    requires Indexed(st)
    ensures Indexed(Register(st, u, written)) <==> written || !CanRegister(st, u)
  {
    if CanRegister(st, u) {
      if written {
        RegisterIndexed(st, u);
      } else {
        FailedWelcomeStrandsUser(st, u);
      }
    }
  }

  lemma RegisterIndexed(st: State, u: Uid)
    requires Indexed(st) && CanRegister(st, u)
    ensures Indexed(Register(st, u, true))
  {
    var nick := st.sessions[u].nick.value;
    var users := st.users[u := User(nick, {})];
    NamesWithUser(st.users, st.sessions, u, User(nick, {}));
    NamesWithSession(users, st.sessions, u, Session(Some(nick), true));
    NamesAt(st.users, st.sessions, u);
    PushAgrees(NamesOf(st.users, st.sessions), st.nicks, u, ToLower(nick));
  }

  /** A welcome that cannot be written leaves a user whom no nick finds. */
  lemma FailedWelcomeStrandsUser(st: State, u: Uid)
    requires CanRegister(st, u)
    ensures var after := Register(st, u, false);
            && u in after.users && u !in after.sessions && !Lists(after.nicks, ToLower(after.users[u].nick), u)
            && !Indexed(after)
  {
    var nick := st.sessions[u].nick.value;
    var after := Register(st, u, false);
    ListsAfterDrop(PushNick(st.nicks, ToLower(nick), u), ToLower(nick), u, ToLower(nick), u);
    NamesAt(after.users, after.sessions, u);
  }

  /** When a NICK command keeps the index; a connection that has yet to register always does. */
  ghost predicate NickSound(st: State, u: Uid, nick: string, allowed: bool) {
    || NickIgnored(st, u, nick, allowed)
    || !st.sessions[u].registered
    || (u in st.users && (|| ToLower(nick) == ToLower(st.users[u].nick)
                          || (!Pinned(st, u) && UsesOwnNick(st, u))))
  }

  /** The nick that the connection holds for itself folds to the one that its user has. */
  ghost predicate UsesOwnNick(st: State, u: Uid)
    requires u in st.sessions && u in st.users
  {
    st.sessions[u].nick.Some? && ToLower(st.sessions[u].nick.value) == ToLower(st.users[u].nick)
  }

  /**
   The NICK command keeps the index exactly if: it changes nothing; or the connection has yet to register; or it only
   changes the case of the user's nick; or no channel forbids the change and the connection's idea of the user's nick is
   right. It is wrong after a forced rename, which does not tell the connection.
   */
  lemma NickKeepsIndexIff(st: State, u: Uid, nick: string, allowed: bool)
    requires Indexed(st)
    ensures Indexed(ChangeNick(st, u, nick, allowed)) <==> NickSound(st, u, nick, allowed)
  {
    if !NickIgnored(st, u, nick, allowed) {
      if !st.sessions[u].registered {
        PendingNickIndexed(st, u, nick, allowed);
      } else if u !in st.users {
        OrphanNickBreaksIndex(st, u, nick, allowed);
      } else if Pinned(st, u) {
        PinnedNickIff(st, u, nick, allowed);
      } else {
        FreeNickIff(st, u, nick, allowed);
      }
    }
  }

  lemma PendingNickIndexed(st: State, u: Uid, nick: string, allowed: bool)
    requires Indexed(st) && !NickIgnored(st, u, nick, allowed) && !st.sessions[u].registered
    ensures Indexed(ChangeNick(st, u, nick, allowed))
  {
    var names, key := NamesOf(st.users, st.sessions), ToLower(nick);
    NamesWithClaim(st.users, st.sessions, u, nick);
    NamesAt(st.users, st.sessions, u);
    if u in names && names[u] != key {
      ClaimThenDropAgrees(names, st.nicks, u, key);
    } else {
      ClaimAgrees(names, st.nicks, u, key);
    }
  }

  lemma OrphanNickBreaksIndex(st: State, u: Uid, nick: string, allowed: bool)
    requires Indexed(st) && !NickIgnored(st, u, nick, allowed) && st.sessions[u].registered && u !in st.users
    ensures !Indexed(ChangeNick(st, u, nick, allowed))
  {
    var after, key := ChangeNick(st, u, nick, allowed), ToLower(nick);
    ListsAfterClaim(st.nicks, key, u, key, u);
    if st.sessions[u].nick.Some? {
      ListsAfterDrop(ClaimNick(st.nicks, key, u), ToLower(st.sessions[u].nick.value), u, key, u);
    }
    NamesAt(after.users, after.sessions, u);
  }

  lemma PinnedNickIff(st: State, u: Uid, nick: string, allowed: bool)
    requires Indexed(st) && !NickIgnored(st, u, nick, allowed) && Pinned(st, u)
    ensures Indexed(ChangeNick(st, u, nick, allowed)) <==> ToLower(nick) == ToLower(st.users[u].nick)
  {
    var names, key := NamesOf(st.users, st.sessions), ToLower(nick);
    NamesAt(st.users, st.sessions, u);
    if names[u] == key {
      ClaimAgrees(names, st.nicks, u, key);
      assert names[u := key] == names;
    } else {
      ListsAfterClaim(st.nicks, key, u, key, u);
      ListsAfterClaim(st.nicks, key, u, names[u], u);
      ListedTwice(names, ClaimNick(st.nicks, key, u), u, key, names[u]);
    }
  }

  lemma FreeNickIff(st: State, u: Uid, nick: string, allowed: bool)
    requires Indexed(st) && !NickIgnored(st, u, nick, allowed) && st.sessions[u].registered && u in st.users
    requires !Pinned(st, u)
    ensures Indexed(ChangeNick(st, u, nick, allowed))
        <==> ToLower(nick) == ToLower(st.users[u].nick) || UsesOwnNick(st, u)
  {
    var names, key, s := NamesOf(st.users, st.sessions), ToLower(nick), st.sessions[u];
    var after := ChangeNick(st, u, nick, allowed);
    NamesAt(st.users, st.sessions, u);
    NamesWithUser(st.users, st.sessions, u, st.users[u].(nick := nick));
    NamesWithSession(after.users, st.sessions, u, s.(nick := Some(nick)));
    if s.nick.Some? && ToLower(s.nick.value) != key {
      ClaimThenDropAgreesIff(names, st.nicks, u, ToLower(s.nick.value), key);
    } else {
      ClaimAloneAgreesIff(names, st.nicks, u, key);
    }
  }

  /**
   A forced rename does not reach the connection. The user cannot take the old nick back, since the connection believes to
   have it; and any other change leaves the forced nick behind as a stale entry.
   */
  lemma ForcedUserIsStuck(st: State, u: Uid, forced: string, nick: string)
    requires Indexed(st) && u in st.users && u in st.sessions && st.sessions[u].registered && UsesOwnNick(st, u)
    requires ToLower(forced) != ToLower(st.users[u].nick)
    ensures var after := ForceNick(st, u, st.users[u].nick, forced);
            && Indexed(after)
            && ChangeNick(after, u, st.sessions[u].nick.value, true) == after
            && (nick != st.sessions[u].nick.value && ToLower(nick) != ToLower(forced) ==>
                  !Indexed(ChangeNick(after, u, nick, true)))
  {
    var after := ForceNick(st, u, st.users[u].nick, forced);
    RenameIndexed(st, u, st.users[u].nick, forced);
    NickKeepsIndexIff(after, u, nick, true);
  }

  // ---------- Steps and runs: the index ----------

  /** What a caller can check beforehand to know that an operation keeps the index. */
  ghost predicate IndexSound(st: State, op: Op) {
    match op
    case OpNick(u, nick, allowed) => NickSound(st, u, nick, allowed)
    case OpRegister(u, written) => written || !CanRegister(st, u)
    case OpForceNick(u, oldNick, newNick) =>
      u in st.users ==> ToLower(st.users[u].nick) == ToLower(oldNick) || ToLower(st.users[u].nick) == ToLower(newNick)
    case _ => true
  }

  /** Every operation keeps the nick index exactly when it is sound; most are in every state. */
  lemma StepKeepsIndexIff(st: State, op: Op)
    requires Indexed(st) && Enabled(st, op)
    ensures Indexed(Apply(st, op)) <==> IndexSound(st, op)
  {
    match op
    case OpConnect(u) => ConnectIndexed(st, u);
    case OpNick(u, nick, allowed) => NickKeepsIndexIff(st, u, nick, allowed);
    case OpRegister(u, written) => RegisterKeepsIndexIff(st, u, written);
    case OpClose(u) => CloseIndexed(st, u);
    case OpService(u, nick) => AddIndexed(st, u, nick);
    case OpMerge(u, nick, merged, age) => MergeIndexed(st, u, nick, merged, age);
    case OpForceNick(u, oldNick, newNick) => if u in st.users { ForceNickKeepsIndexIff(st, u, oldNick, newNick); }
    case OpSanick(oldNick, newNick) => SanickIndexed(st, oldNick, newNick);
    case OpExpire(u, guest) => ExpireIndexed(st, u, guest);
    case OpJoin(_, _) => ChannelStepsIndexed(st, op);
    case OpKick(_, _) => ChannelStepsIndexed(st, op);
    case OpMode(_, _) => ChannelStepsIndexed(st, op);
    case OpDisconnect(u) => DisconnectIndexed(st, u);
    case OpQuit(u) => KillIndexed(st, u);
    case OpSplit(u) => SplitOffIndexed(st, u);
  }

  lemma ChannelStepsIndexed(st: State, op: Op)
    requires Indexed(st) && (op.OpJoin? || op.OpKick? || op.OpMode?)
    ensures Indexed(Apply(st, op))
  {
    MembershipOnly(st, Apply(st, op));
  }

  lemma ExpireIndexed(st: State, u: Uid, guest: string)
    requires Indexed(st)
    ensures Indexed(Expire(st, u, guest))
  {
    if u in st.users && u in st.senders {
      RenameIndexed(st.(timers := st.timers - {u}), u, st.users[u].nick, guest);
    }
  }

  /** Changes to channel lists alone do not concern the index. */
  lemma MembershipOnly(st: State, after: State)
    requires Indexed(st) && after.sessions == st.sessions && after.nicks == st.nicks
    requires after.users.Keys == st.users.Keys && forall u :: u in st.users ==> after.users[u].nick == st.users[u].nick
    ensures Indexed(after)
  {
    forall u
      ensures NameOf(after.users, after.sessions, u)
           == if u in NamesOf(st.users, st.sessions) then Some(NamesOf(st.users, st.sessions)[u]) else None
    {
      NamesAt(st.users, st.sessions, u);
    }
    NamesAre(after.users, after.sessions, NamesOf(st.users, st.sessions));
  }

  lemma SplitOffIndexed(st: State, u: Uid)
    requires Indexed(st)
    ensures Indexed(SplitOff(st, u))
  {
    if u in st.users {
      RemovalIndexed(st, u, SplitOff(st, u));
    }
  }

  /** Over every run of sound operations the index lists exactly the users and the pending claims. */
  lemma {:induction false} RunsKeepIndex(st: State, ops: seq<Op>)
    requires Indexed(st) && EnabledRun(st, ops)
    requires forall i :: 0 <= i < |ops| ==> IndexSound(Run(st, ops[..i]), ops[i])
    ensures Indexed(Run(st, ops))
  {
    if ops != [] {
      RunPrefix(st, ops);
      RunsKeepIndex(st, ops[..|ops| - 1]);
      StepKeepsIndexIff(Run(st, ops[..|ops| - 1]), ops[|ops| - 1]);
    }
  }

  // ---------- Repeats ----------

  /** When an operation repeats no UID in the index. */
  ghost predicate RepeatFree(st: State, op: Op) {
    match op
    case OpRegister(u, written) => !(CanRegister(st, u) && written)
    case OpForceNick(u, oldNick, newNick) =>
      u in st.users ==> ToLower(st.users[u].nick) == ToLower(oldNick) || ToLower(st.users[u].nick) != ToLower(newNick)
    case _ => true
  }

  lemma ListedUnderName(st: State, u: Uid, n: string)
    requires Indexed(st)
    ensures Lists(st.nicks, n, u) <==> NameOf(st.users, st.sessions, u) == Some(n)
  {
    NamesAt(st.users, st.sessions, u);
  }

  lemma RenameRepeatFreeIff(st: State, u: Uid, oldNick: string, newNick: string)
    requires Indexed(st) && NoRepeats(st.nicks) && u in st.users
    ensures NoRepeats(Rename(st, u, oldNick, newNick).nicks)
        <==> ToLower(st.users[u].nick) == ToLower(oldNick) || ToLower(st.users[u].nick) != ToLower(newNick)
  {
    var dropped := DropNick(st.nicks, ToLower(oldNick), u);
    DropNoRepeats(st.nicks, ToLower(oldNick), u);
    PushNoRepeatsIff(dropped, ToLower(newNick), u);
    ListsAfterDrop(st.nicks, ToLower(oldNick), u, ToLower(newNick), u);
    ListedUnderName(st, u, ToLower(newNick));
  }

  lemma AddRepeatFree(st: State, u: Uid, nick: string)
    requires Indexed(st) && NoRepeats(st.nicks) && u !in st.users && u !in st.sessions
    ensures NoRepeats(AddUser(st, u, nick).nicks)
  {
    ListedUnderName(st, u, ToLower(nick));
    PushNoRepeatsIff(st.nicks, ToLower(nick), u);
  }

  lemma RegisterRepeatFreeIff(st: State, u: Uid, written: bool)
    requires Indexed(st) && NoRepeats(st.nicks)
    ensures NoRepeats(Register(st, u, written).nicks) <==> !(CanRegister(st, u) && written)
  {
    if CanRegister(st, u) {
      var key := ToLower(st.sessions[u].nick.value);
      ListedUnderName(st, u, key);
      PushNoRepeatsIff(st.nicks, key, u);
      if !written {
        PushThenDrop(st.nicks, key, u);
        DropNoRepeats(st.nicks, key, u);
      }
    }
  }

  lemma NickRepeatFree(st: State, u: Uid, nick: string, allowed: bool)
    requires NoRepeats(st.nicks)
    ensures NoRepeats(ChangeNick(st, u, nick, allowed).nicks)
  {
    if !NickIgnored(st, u, nick, allowed) {
      PushNoRepeatsIff(st.nicks, ToLower(nick), u);
      if st.sessions[u].nick.Some? {
        DropNoRepeats(ClaimNick(st.nicks, ToLower(nick), u), ToLower(st.sessions[u].nick.value), u);
      }
    }
  }

  lemma TakeInRepeatFree(st: State, u: Uid, nick: string, merged: string)
    requires Indexed(st) && NoRepeats(st.nicks) && (u in st.users || u !in st.sessions)
    ensures NoRepeats(TakeIn(st, u, nick, merged).nicks)
  {
    if u !in st.users {
      AddRepeatFree(st, u, nick);
    } else {
      RenameRepeatFreeIff(st, u, st.users[u].nick, merged);
    }
  }

  lemma KillRepeatFree(st: State, u: Uid)
    requires NoRepeats(st.nicks)
    ensures NoRepeats(Kill(st, u).nicks) && NoRepeats(Disconnect(st, u).nicks) && NoRepeats(SplitOff(st, u).nicks)
  {
    if u in st.users {
      DropNoRepeats(st.nicks, ToLower(st.users[u].nick), u);
    }
  }

  lemma MergeRepeatFree(st: State, u: Uid, nick: string, merged: string, age: Age)
    requires Indexed(st) && NoRepeats(st.nicks) && (u in st.users || u !in st.sessions)
    ensures NoRepeats(Merge(st, u, nick, merged, age).nicks)
  {
    var rival := Rival(st, u, nick);
    if rival.None? {
      TakeInRepeatFree(st, u, nick, merged);
    } else {
      KillIndexed(st, rival.value);
      KillRepeatFree(st, rival.value);
      var base := if age.Newer? then st else Kill(st, rival.value);
      TakeInIndexed(base, u, nick, merged);
      TakeInRepeatFree(base, u, nick, merged);
      KillRepeatFree(TakeIn(base, u, nick, merged), u);
      if age.Newer? {
        KillIndexed(TakeIn(base, u, nick, merged), u);
        RestoreIsIdle(Kill(TakeIn(st, u, nick, merged), u), rival.value);
      }
    }
  }

  lemma CloseRepeatFree(st: State, u: Uid)
    requires NoRepeats(st.nicks)
    ensures NoRepeats(Close(st, u).nicks)
  {
    KillRepeatFree(st, u);
    if u in st.sessions && st.sessions[u].nick.Some? {
      DropNoRepeats(st.nicks, ToLower(st.sessions[u].nick.value), u);
    }
  }

  lemma SanickRepeatFree(st: State, oldNick: string, newNick: string)
    requires Indexed(st) && NoRepeats(st.nicks)
    ensures NoRepeats(Sanick(st, oldNick, newNick).nicks)
  {
    if ToLower(oldNick) in st.nicks && st.nicks[ToLower(oldNick)][0] in st.users {
      var target := st.nicks[ToLower(oldNick)][0];
      assert Lists(st.nicks, ToLower(oldNick), target);
      ListedUnderName(st, target, ToLower(oldNick));
      RenameRepeatFreeIff(st, target, oldNick, newNick);
    }
  }

  /** Every operation keeps the index free of repeats exactly when `RepeatFree` holds: a registration never does. */
  lemma StepKeepsNoRepeatsIff(st: State, op: Op)
    requires Indexed(st) && NoRepeats(st.nicks) && Enabled(st, op)
    ensures NoRepeats(Apply(st, op).nicks) <==> RepeatFree(st, op)
  {
    match op
    case OpConnect(_) =>
    case OpNick(u, nick, allowed) => NickRepeatFree(st, u, nick, allowed);
    case OpRegister(u, written) => RegisterRepeatFreeIff(st, u, written);
    case OpClose(u) => CloseRepeatFree(st, u);
    case OpService(u, nick) => AddRepeatFree(st, u, nick);
    case OpMerge(u, nick, merged, age) => MergeRepeatFree(st, u, nick, merged, age);
    case OpForceNick(u, oldNick, newNick) => if u in st.users { RenameRepeatFreeIff(st, u, oldNick, newNick); }
    case OpSanick(oldNick, newNick) => SanickRepeatFree(st, oldNick, newNick);
    case OpExpire(u, guest) => if u in st.users { RenameRepeatFreeIff(st, u, st.users[u].nick, guest); }
    case OpJoin(_, _) =>
    case OpKick(_, _) =>
    case OpMode(_, _) =>
    case OpDisconnect(u) => KillRepeatFree(st, u);
    case OpQuit(u) => KillRepeatFree(st, u);
    case OpSplit(u) => KillRepeatFree(st, u);
  }
}
