/**
 What each operation of the registry does, field by field: who is in, who is out, and what stays as it was. Nothing here
 mentions how the operations are put together; the laws of the other modules build on these effects.
 */
module Effects {
  import opened Common
  import opened Casemap
  import opened NickIndex
  import opened Registry
  import opened NickLaws
  import opened Membership

  // ---------- Frames ----------

  /** The users other than `u` are the same. */
  ghost predicate OtherUsersSame(st: State, after: State, u: Uid) {
    forall x :: x != u ==> (x in after.users <==> x in st.users) && (x in st.users ==> after.users[x] == st.users[x])
  }

  /** The connections other than that of `u` are the same. */
  ghost predicate OtherSessionsSame(st: State, after: State, u: Uid) {
    forall x :: x != u ==>
      (x in after.sessions <==> x in st.sessions) && (x in st.sessions ==> after.sessions[x] == st.sessions[x])
  }

  ghost predicate OtherTimersSame(st: State, after: State, u: Uid) {
    forall x :: x != u ==> (x in after.timers <==> x in st.timers) && (x in st.timers ==> after.timers[x] == st.timers[x])
  }

  ghost predicate OtherSendersSame(st: State, after: State, u: Uid) {
    forall x :: x != u ==> (x in after.senders <==> x in st.senders)
  }

  ghost predicate ChannelsSame(st: State, after: State) {
    after.channels == st.channels && after.fixed == st.fixed
  }

  /** The index has changed only in that `u` is now under `key`. */
  ghost predicate Entered(st: State, after: State, key: string, u: Uid) {
    forall n, x :: Lists(after.nicks, n, x) <==> Lists(st.nicks, n, x) || (n == key && x == u)
  }

  /** The index has changed only in that `u` is no longer under `key`. */
  ghost predicate Struck(st: State, after: State, key: string, u: Uid) {
    forall n, x :: Lists(after.nicks, n, x) <==> Lists(st.nicks, n, x) && !(n == key && x == u)
  }

  /** The index has changed only in that `u` has gone from `old` to `new`; nothing happens at `new` if it was there. */
  ghost predicate Moved(st: State, after: State, oldKey: string, newKey: string, u: Uid) {
    forall n, x :: Lists(after.nicks, n, x) <==>
      (n == newKey && x == u) || (Lists(st.nicks, n, x) && !(n == oldKey && x == u))
  }

  lemma DropStrikes(st: State, after: State, key: string, u: Uid)
    requires after.nicks == DropNick(st.nicks, key, u)
    ensures Struck(st, after, key, u)
  {
    forall n, x
      ensures Lists(after.nicks, n, x) <==> Lists(st.nicks, n, x) && !(n == key && x == u)
    {
      ListsAfterDrop(st.nicks, key, u, n, x);
    }
  }

  lemma PushEnters(st: State, after: State, key: string, u: Uid)
    requires after.nicks == PushNick(st.nicks, key, u) || after.nicks == ClaimNick(st.nicks, key, u)
    ensures Entered(st, after, key, u)
  {
    forall n, x
      ensures Lists(after.nicks, n, x) <==> Lists(st.nicks, n, x) || (n == key && x == u)
    {
      ListsAfterPush(st.nicks, key, u, n, x);
      ListsAfterClaim(st.nicks, key, u, n, x);
    }
  }

  lemma DropThenPushMoves(st: State, after: State, oldKey: string, newKey: string, u: Uid)
    requires after.nicks == PushNick(DropNick(st.nicks, oldKey, u), newKey, u)
    ensures Moved(st, after, oldKey, newKey, u)
  {
    forall n, x
      ensures Lists(after.nicks, n, x) <==>
                (n == newKey && x == u) || (Lists(st.nicks, n, x) && !(n == oldKey && x == u))
    {
      ListsAfterDrop(st.nicks, oldKey, u, n, x);
      ListsAfterPush(DropNick(st.nicks, oldKey, u), newKey, u, n, x);
    }
  }

  lemma ClaimThenDropMoves(st: State, after: State, oldKey: string, newKey: string, u: Uid)
    requires after.nicks == DropNick(ClaimNick(st.nicks, newKey, u), oldKey, u) && oldKey != newKey
    ensures Moved(st, after, oldKey, newKey, u)
  {
    forall n, x
      ensures Lists(after.nicks, n, x) <==>
                (n == newKey && x == u) || (Lists(st.nicks, n, x) && !(n == oldKey && x == u))
    {
      ListsAfterClaim(st.nicks, newKey, u, n, x);
      ListsAfterDrop(ClaimNick(st.nicks, newKey, u), oldKey, u, n, x);
    }
  }

  /** The first of a nick's users stays the first when others come and go. */
  lemma FirstHolderStays(nicks: Index, key: string, u: Uid, n: string)
    requires n in nicks && nicks[n] != []
    ensures n in PushNick(nicks, key, u) && PushNick(nicks, key, u)[n] != []
    ensures PushNick(nicks, key, u)[n][0] == nicks[n][0]
    ensures nicks[n][0] != u ==>
              n in DropNick(nicks, key, u) && DropNick(nicks, key, u)[n] != [] && DropNick(nicks, key, u)[n][0] == nicks[n][0]
  {
    if n == key {
      assert Without(nicks[key], u) == if nicks[key][0] == u then Without(nicks[key][1..], u)
                                       else [nicks[key][0]] + Without(nicks[key][1..], u);
    }
  }

  // ---------- Connections ----------

  lemma ConnectOpens(st: State, u: Uid)
    ensures var after := Connect(st, u);
            && u in after.sessions && after.sessions[u].nick == None && !after.sessions[u].registered
            && OtherSessionsSame(st, after, u) && after.users == st.users && after.nicks == st.nicks
            && ChannelsSame(st, after) && after.timers == st.timers && after.senders == st.senders
  {
  }

  /** Who may not have the nick: it is in use, not by them, and they may not share it. */
  ghost predicate NickTaken(st: State, u: Uid, nick: string, allowed: bool) {
    !allowed && ToLower(nick) in st.nicks && !Lists(st.nicks, ToLower(nick), u)
  }

  /** A NICK that is refused, or asks for the nick that the connection believes to have, does nothing. */
  lemma NickRefused(st: State, u: Uid, nick: string, allowed: bool)
    requires u !in st.sessions || st.sessions[u].nick == Some(nick) || NickTaken(st, u, nick, allowed)
    ensures ChangeNick(st, u, nick, allowed) == st
  {
  }

  ghost predicate NickGoesThrough(st: State, u: Uid, nick: string, allowed: bool) {
    u in st.sessions && st.sessions[u].nick != Some(nick) && !NickTaken(st, u, nick, allowed)
  }

  /** A registered user who is on a +N channel gets nothing but an entry in the index. */
  lemma NickHeld(st: State, u: Uid, nick: string, allowed: bool, c: string)
    requires NickGoesThrough(st, u, nick, allowed) && st.sessions[u].registered && u in st.users
    requires c in st.users[u].channels && c in st.channels && c in st.fixed
    ensures var after := ChangeNick(st, u, nick, allowed);
            after == st.(nicks := after.nicks) && Entered(st, after, ToLower(nick), u)
  {
    assert Pinned(st, u);
    PushEnters(st, ChangeNick(st, u, nick, allowed), ToLower(nick), u);
  }

  /** No channel keeps the user from changing nick. */
  ghost predicate Unheld(st: State, u: Uid) {
    u in st.sessions && st.sessions[u].registered && u in st.users ==>
      forall c :: c in st.users[u].channels && c in st.channels ==> c !in st.fixed
  }

  /** Where the index moves a connection that had a nick, or enters one that had none. */
  ghost predicate NickIndexed(st: State, after: State, u: Uid, nick: string)
    requires u in st.sessions
  {
    var had := st.sessions[u].nick;
    if had.Some? && ToLower(had.value) != ToLower(nick) then Moved(st, after, ToLower(had.value), ToLower(nick), u)
    else Entered(st, after, ToLower(nick), u)
  }

  /** Otherwise the connection has the nick, and so does its user; a pending enforcement is off. */
  lemma NickTakesEffect(st: State, u: Uid, nick: string, allowed: bool)
    requires NickGoesThrough(st, u, nick, allowed) && Unheld(st, u)
    ensures var after := ChangeNick(st, u, nick, allowed);
            && u in after.sessions && after.sessions[u] == Session(Some(nick), st.sessions[u].registered)
            && (u in after.users <==> u in st.users)
            && (u in st.users ==>
                  && after.users[u].channels == st.users[u].channels
                  && after.users[u].nick == if st.sessions[u].registered then nick else st.users[u].nick)
            && (u in after.timers <==> u in st.timers && st.sessions[u].nick == None)
            && NickIndexed(st, after, u, nick)
  {
    var after, had := ChangeNick(st, u, nick, allowed), st.sessions[u].nick;
    assert !Pinned(st, u);
    if had.Some? && ToLower(had.value) != ToLower(nick) {
      ClaimThenDropMoves(st, after, ToLower(had.value), ToLower(nick), u);
    } else {
      PushEnters(st, after, ToLower(nick), u);
    }
  }

  /** NICK concerns nobody else. */
  lemma NickLeavesOthers(st: State, u: Uid, nick: string, allowed: bool)
    ensures var after := ChangeNick(st, u, nick, allowed);
            && OtherUsersSame(st, after, u) && OtherSessionsSame(st, after, u) && OtherTimersSame(st, after, u)
            && ChannelsSame(st, after) && after.senders == st.senders
  {
  }

  /** Registration makes a user with the connection's nick, on no channel. */
  lemma RegisterTakesEffect(st: State, u: Uid, written: bool)
    requires u in st.sessions && !st.sessions[u].registered && st.sessions[u].nick.Some?
    ensures var after, nick := Register(st, u, written), st.sessions[u].nick.value;
            && u in after.users && after.users[u].nick == nick && after.users[u].channels == {}
            && (written ==>
                  && u in after.sessions && after.sessions[u] == Session(Some(nick), true) && u in after.senders
                  && Entered(st, after, ToLower(nick), u))
            && (!written ==>
                  && u !in after.sessions && (u in after.senders <==> u in st.senders)
                  && Struck(st, after, ToLower(nick), u))
  {
    var after, key := Register(st, u, written), ToLower(st.sessions[u].nick.value);
    if written {
      PushEnters(st, after, key, u);
    } else {
      PushThenDrop(st.nicks, key, u);
      DropStrikes(st, after, key, u);
    }
  }

  lemma RegisterLeavesOthers(st: State, u: Uid, written: bool)
    ensures var after := Register(st, u, written);
            && OtherUsersSame(st, after, u) && OtherSessionsSame(st, after, u) && OtherSendersSame(st, after, u)
            && ChannelsSame(st, after) && after.timers == st.timers
    ensures !(u in st.sessions && !st.sessions[u].registered && st.sessions[u].nick.Some?) ==>
              Register(st, u, written) == st
  {
  }

  /** A connection that ends before registration gives up its nick and nothing else. */
  lemma PendingCloses(st: State, u: Uid)
    requires u in st.sessions && !st.sessions[u].registered
    ensures var after := Close(st, u);
            && u !in after.sessions && OtherSessionsSame(st, after, u)
            && after.users == st.users && ChannelsSame(st, after) && after.timers == st.timers && after.senders == st.senders
            && (st.sessions[u].nick.None? ==> after.nicks == st.nicks)
            && (st.sessions[u].nick.Some? ==> Struck(st, after, ToLower(st.sessions[u].nick.value), u))
  {
    if st.sessions[u].nick.Some? {
      DropStrikes(st, Close(st, u), ToLower(st.sessions[u].nick.value), u);
    }
  }

  /** One that ends afterwards takes its user along; see `DisconnectTakesOut`. */
  lemma RegisteredCloses(st: State, u: Uid)
    requires u in st.sessions && st.sessions[u].registered
    ensures var after, gone := Close(st, u), Disconnect(st, u);
            && u !in after.sessions && OtherSessionsSame(st, after, u) && u !in after.users
            && after == gone.(sessions := after.sessions)
  {
  }

  lemma UnknownCloses(st: State, u: Uid)
    requires u !in st.sessions
    ensures Close(st, u) == st
  {
  }

  // ---------- Users of services and of peers ----------

  lemma AddTakesEffect(st: State, u: Uid, nick: string)
    ensures var after := AddUser(st, u, nick);
            && u in after.users && after.users[u].nick == nick && after.users[u].channels == {}
            && OtherUsersSame(st, after, u) && Entered(st, after, ToLower(nick), u)
            && after == st.(users := after.users, nicks := after.nicks)
  {
    PushEnters(st, AddUser(st, u, nick), ToLower(nick), u);
  }

  /** A user new to the server comes in under the nick announced; a known one goes over to the nick settled on. */
  lemma TakeInTakesEffect(st: State, u: Uid, nick: string, merged: string)
    ensures var after := TakeIn(st, u, nick, merged);
            && u in after.users && OtherUsersSame(st, after, u) && after == st.(users := after.users, nicks := after.nicks)
            && (u !in st.users ==> after.users[u].nick == nick && after.users[u].channels == {}
                                   && Entered(st, after, ToLower(nick), u))
            && (u in st.users ==> after.users[u].nick == merged && after.users[u].channels == st.users[u].channels)
            && (u in st.users && ToLower(st.users[u].nick) != ToLower(merged) ==>
                  Moved(st, after, ToLower(st.users[u].nick), ToLower(merged), u))
            && (u in st.users && ToLower(st.users[u].nick) == ToLower(merged) ==> after.nicks == st.nicks)
  {
    var after := TakeIn(st, u, nick, merged);
    if u !in st.users {
      PushEnters(st, after, ToLower(nick), u);
    } else if ToLower(st.users[u].nick) != ToLower(merged) {
      DropThenPushMoves(st, after, ToLower(st.users[u].nick), ToLower(merged), u);
    }
  }

  /** The user with whom an incoming record collides is the first of its nick, if that is another who is here. */
  lemma RivalIs(st: State, u: Uid, nick: string, x: Uid)
    ensures Rival(st, u, nick) == Some(x)
       <==> x != u && x in st.users && ToLower(nick) in st.nicks && st.nicks[ToLower(nick)] != []
            && st.nicks[ToLower(nick)][0] == x
  {
  }

  /** A record that has been taken in. */
  function Settled(st: State, u: Uid, nick: string, merged: string): User {
    if u in st.users then User(merged, st.users[u].channels) else User(nick, {})
  }

  lemma TakeInSettles(st: State, u: Uid, nick: string, merged: string)
    ensures var after := TakeIn(st, u, nick, merged);
            && after.users == st.users[u := Settled(st, u, nick, merged)]
            && after == st.(users := after.users, nicks := after.nicks)
  {
  }

  lemma OlderWins(st: State, u: Uid, nick: string, merged: string, x: Uid)
    requires Rival(st, u, nick) == Some(x)
    ensures var after := Merge(st, u, nick, merged, Older);
            && after.users == (st.users - {x})[u := Settled(st, u, nick, merged)] && after.senders == st.senders - {x}
            && after == st.(users := after.users, nicks := after.nicks, senders := after.senders)
  {
    TakeInSettles(Kill(st, x), u, nick, merged);
  }

  lemma NewerLoses(st: State, u: Uid, nick: string, merged: string, x: Uid)
    requires Rival(st, u, nick) == Some(x)
    ensures var after := Merge(st, u, nick, merged, Newer);
            && after.users == st.users - {u} && after.senders == st.senders - {u}
            && after == st.(users := after.users, nicks := after.nicks, senders := after.senders)
  {
    TakeInSettles(st, u, nick, merged);
  }

  lemma TieLosesBoth(st: State, u: Uid, nick: string, merged: string, x: Uid)
    requires Rival(st, u, nick) == Some(x)
    ensures var after := Merge(st, u, nick, merged, Tie);
            && after.users == st.users - {x, u} && after.senders == st.senders - {x, u}
            && after == st.(users := after.users, nicks := after.nicks, senders := after.senders)
  {
    TakeInSettles(Kill(st, x), u, nick, merged);
  }

  /** Who is left after a collision: the older of the two, or neither at a tie. */
  lemma MergeOutcome(st: State, u: Uid, nick: string, merged: string, age: Age, x: Uid)
    requires Rival(st, u, nick) == Some(x)
    ensures var after := Merge(st, u, nick, merged, age);
            && (age.Older? ==> after.users == (st.users - {x})[u := Settled(st, u, nick, merged)])
            && (age.Newer? ==> after.users == st.users - {u})
            && (age.Tie? ==> after.users == st.users - {x, u})
            && after.senders == st.senders - (if age.Older? then {x} else if age.Newer? then {u} else {x, u})
            && ChannelsSame(st, after) && after.sessions == st.sessions && after.timers == st.timers
  {
    match age
    case Older => OlderWins(st, u, nick, merged, x);
    case Newer => NewerLoses(st, u, nick, merged, x);
    case Tie => TieLosesBoth(st, u, nick, merged, x);
  }

  /** The survivor of a collision is under their nick afterwards, even if the index had lost them. */
  lemma RestoreTakesEffect(st: State, u: Uid)
    ensures var after := Restore(st, u);
            && (u in st.users ==> Entered(st, after, ToLower(st.users[u].nick), u))
            && (u !in st.users ==> after == st) && after == st.(nicks := after.nicks)
  {
    if u in st.users {
      PushEnters(st, Restore(st, u), ToLower(st.users[u].nick), u);
    }
  }

  lemma NoRivalMerges(st: State, u: Uid, nick: string, merged: string, age: Age)
    requires Rival(st, u, nick) == None
    ensures Merge(st, u, nick, merged, age) == TakeIn(st, u, nick, merged)
  {
  }

  // ---------- Renames by others ----------

  lemma RenameTakesEffect(st: State, u: Uid, oldNick: string, newNick: string)
    requires u in st.users
    ensures var after := ForceNick(st, u, oldNick, newNick);
            && u in after.users && after.users[u].nick == newNick && after.users[u].channels == st.users[u].channels
            && OtherUsersSame(st, after, u) && Moved(st, after, ToLower(oldNick), ToLower(newNick), u)
            && after == st.(users := after.users, nicks := after.nicks)
  {
    DropThenPushMoves(st, ForceNick(st, u, oldNick, newNick), ToLower(oldNick), ToLower(newNick), u);
  }

  lemma NobodyRenamed(st: State, u: Uid, oldNick: string, newNick: string)
    requires u !in st.users
    ensures ForceNick(st, u, oldNick, newNick) == st
  {
  }

  /** SANICK renames the first user of the old nick, and only to a nick that nobody has. */
  lemma SanickTakesEffect(st: State, oldNick: string, newNick: string, u: Uid)
    requires ToLower(oldNick) in st.nicks && st.nicks[ToLower(oldNick)] != [] && st.nicks[ToLower(oldNick)][0] == u
    ensures u in st.users && ToLower(newNick) !in st.nicks ==>
              Sanick(st, oldNick, newNick) == ForceNick(st, u, oldNick, newNick)
    ensures u !in st.users || ToLower(newNick) in st.nicks ==> Sanick(st, oldNick, newNick) == st
  {
  }

  lemma SanickOfNobody(st: State, oldNick: string, newNick: string)
    requires ToLower(oldNick) !in st.nicks || st.nicks[ToLower(oldNick)] == []
    ensures Sanick(st, oldNick, newNick) == st
  {
  }

  /** The timer goes in any case; the nick only of a user who is here and can be told. */
  lemma ExpireTakesEffect(st: State, u: Uid, guest: string)
    ensures var after := Expire(st, u, guest);
            && u !in after.timers && OtherTimersSame(st, after, u) && OtherUsersSame(st, after, u)
            && (u in st.users && u in st.senders ==>
                  && u in after.users && after.users[u].nick == guest && after.users[u].channels == st.users[u].channels
                  && Moved(st, after, ToLower(st.users[u].nick), ToLower(guest), u))
            && (!(u in st.users && u in st.senders) ==> after.users == st.users && after.nicks == st.nicks)
            && after == st.(users := after.users, nicks := after.nicks, timers := after.timers)
  {
    if u in st.users && u in st.senders {
      DropThenPushMoves(st, Expire(st, u, guest), ToLower(st.users[u].nick), ToLower(guest), u);
    }
  }

  // ---------- Channels ----------

  /** The members of channels other than `c` are the same, and so are their modes. */
  ghost predicate OtherChannelsSame(st: State, after: State, c: string) {
    forall d :: d != c ==>
      && (d in after.channels <==> d in st.channels) && (d in st.channels ==> after.channels[d] == st.channels[d])
      && (d in after.fixed <==> d in st.fixed)
  }

  /** Apart from the one channel and the one user's list, everything is the same. */
  ghost predicate OnlyMembership(st: State, after: State, c: string, u: Uid) {
    && OtherChannelsSame(st, after, c) && OtherUsersSame(st, after, u) && after.fixed == st.fixed
    && after.sessions == st.sessions && after.nicks == st.nicks && after.timers == st.timers && after.senders == st.senders
    && (forall x :: x != u ==> (InChannel(after, c, x) <==> InChannel(st, c, x)))
    && (u in after.users <==> u in st.users)
    && (u in st.users ==>
          && after.users[u].nick == st.users[u].nick
          && forall d :: d != c ==> (d in after.users[u].channels <==> d in st.users[u].channels))
  }

  lemma JoinPutsIn(st: State, u: Uid, channel: string)
    requires u in st.users
    ensures var after, c := Join(st, u, channel), ToLower(channel);
            && InChannel(after, c, u) && c in after.users[u].channels && OnlyMembership(st, after, c, u)
            && Apply(st, OpJoin(u, channel)) == after
  {
    JoinFrame(st, u, channel);
  }

  lemma JoinFrame(st: State, u: Uid, channel: string)
    requires u in st.users
    ensures var after, c := Join(st, u, channel), ToLower(channel);
            && OtherChannelsSame(st, after, c) && OtherUsersSame(st, after, u)
            && after == st.(users := after.users, channels := after.channels)
            && u in after.users && after.users[u] == st.users[u].(channels := st.users[u].channels + {c})
            && c in after.channels && after.channels[c] == (if c in st.channels then st.channels[c] else {}) + {u}
  {
  }

  /** A service kick takes the user out of the channel and the channel out of the user's list, and concerns nobody else. */
  lemma KickTakesOut(st: State, channel: string, u: Uid)
    requires u in st.users && InChannel(st, ToLower(channel), u)
    ensures var after, c := Kick(st, channel, u), ToLower(channel);
            && c in after.channels && u !in after.channels[c] && c !in after.users[u].channels
            && OnlyMembership(st, after, c, u) && Apply(st, OpKick(channel, u)) == after
  {
  }

  /** Someone who is not here cannot join, and someone who is not on the channel cannot be kicked from it. */
  lemma NobodyMoved(st: State, channel: string, u: Uid)
    ensures u !in st.users ==> Join(st, u, channel) == st
    ensures u !in st.users || !InChannel(st, ToLower(channel), u) ==> Kick(st, channel, u) == st
  {
  }

  /** +N and -N. */
  lemma ModeTakesEffect(st: State, channel: string, on: bool)
    ensures var after, c := SetFixed(st, channel, on), ToLower(channel);
            && (c in st.channels ==> (c in after.fixed <==> on))
            && (forall d :: d != c ==> (d in after.fixed <==> d in st.fixed))
            && (c !in st.channels ==> after == st)
            && after == st.(fixed := after.fixed)
  {
  }

  // ---------- Removals ----------

  /** A disconnect: the user, their timer and sender go; a channel that stays keeps its modes, one that goes loses them. */
  lemma DisconnectTakesOut(st: State, u: Uid)
    requires u in st.users
    ensures var after := Disconnect(st, u);
            && u !in after.users && u !in after.timers && u !in after.senders && after.sessions == st.sessions
            && OtherUsersSame(st, after, u) && OtherTimersSame(st, after, u) && OtherSendersSame(st, after, u)
            && Struck(st, after, ToLower(st.users[u].nick), u)
            && (forall c :: c in after.channels ==> c in st.channels && (c in after.fixed <==> c in st.fixed))
            && (forall c :: c in st.channels && c !in after.channels ==> c !in after.fixed)
  {
    DropStrikes(st, Disconnect(st, u), ToLower(st.users[u].nick), u);
  }

  /** Which channels it leaves, and which of those it drops. */
  lemma DisconnectLeaves(st: State, u: Uid, c: string)
    requires u in st.users && c in st.channels
    ensures var after := Disconnect(st, u);
            && (c !in after.channels <==> c in st.users[u].channels && forall x :: x in st.channels[c] ==> x == u)
            && (c in after.channels ==> forall x :: x in after.channels[c] <==>
                  x in st.channels[c] && !(x == u && c in st.users[u].channels))
  {
    if c in st.users[u].channels && c !in Disconnect(st, u).channels {
      assert st.channels[c] - {u} == {};
    }
    if x :| x in st.channels[c] && x != u {
      assert x in st.channels[c] - {u};
    }
  }

  /** A kill: the user and their sender go, and nothing else. */
  lemma KillTakesOut(st: State, u: Uid)
    requires u in st.users
    ensures var after := Kill(st, u);
            && u !in after.users && u !in after.senders && OtherUsersSame(st, after, u) && OtherSendersSame(st, after, u)
            && Struck(st, after, ToLower(st.users[u].nick), u)
            && after == st.(users := after.users, nicks := after.nicks, senders := after.senders)
  {
    DropStrikes(st, Kill(st, u), ToLower(st.users[u].nick), u);
  }

  /** A netsplit removal: the same, after the user has left the channels they list, none of which is dropped. */
  lemma SplitOffTakesOut(st: State, u: Uid)
    requires u in st.users
    ensures var after := SplitOff(st, u);
            && u !in after.users && u !in after.senders && OtherUsersSame(st, after, u) && OtherSendersSame(st, after, u)
            && Struck(st, after, ToLower(st.users[u].nick), u) && after.channels.Keys == st.channels.Keys
            && (forall c, x :: InChannel(after, c, x) <==> InChannel(st, c, x) && !(x == u && c in st.users[u].channels))
            && after.sessions == st.sessions && after.timers == st.timers && after.fixed == st.fixed
  {
    DropStrikes(st, SplitOff(st, u), ToLower(st.users[u].nick), u);
  }

  lemma NobodyRemoved(st: State, u: Uid)
    requires u !in st.users
    ensures Disconnect(st, u) == st && Kill(st, u) == st && SplitOff(st, u) == st
  {
  }
}
