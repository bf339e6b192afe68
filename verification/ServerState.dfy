/**
 The server's own maps, updated in place step by step as the handlers do, against the transitions of the registry.
 */
module ServerState {
  import opened Common
  import opened Casemap
  import opened NickIndex
  import opened Registry
  import opened Enforcement

  class Matrix {
    var users: map<Uid, User>
    var sessions: map<Uid, Session>
    var nicks: Index
    var channels: map<string, set<Uid>>
    var fixed: set<string>
    var timers: map<Uid, nat>
    var senders: set<Uid>

    ghost function Snapshot(): State
      reads this
    {
      State(users, sessions, nicks, channels, fixed, timers, senders)
    }

    constructor ()
      ensures Snapshot() == EMPTY && Consistent(Snapshot())
    {
      users, sessions, nicks, channels := map[], map[], map[], map[];
      fixed, timers, senders := {}, map[], {};
    }

    // ---------- The nick index ----------

    /** Takes the UID out of the list of one nick, and the list out of the index when that empties it. */
    method RemoveFromNick(key: string, u: Uid)
      modifies this`nicks
      ensures nicks == DropNick(old(nicks), key, u)
    {
      if key in nicks {
        var kept := Without(nicks[key], u);
        nicks := nicks[key := kept];
        if kept == [] {
          nicks := nicks - {key};
        }
      }
    }

    method AppendToNick(key: string, u: Uid)
      modifies this`nicks
      ensures nicks == PushNick(old(nicks), key, u)
    {
      if key !in nicks {
        nicks := nicks[key := []];
      }
      nicks := nicks[key := nicks[key] + [u]];
    }

    /** The entry of the NICK command: vacant, already ours, to be shared, or taken. */
    method Claim(key: string, u: Uid, allowed: bool) returns (taken: bool)
      modifies this`nicks
      ensures taken <==> key in old(nicks) && u !in old(nicks)[key] && !allowed
      ensures nicks == if taken then old(nicks) else ClaimNick(old(nicks), key, u)
    {
      taken := false;
      if key in nicks {
        if u in nicks[key] {
        } else if allowed {
          nicks := nicks[key := nicks[key] + [u]];
        } else {
          taken := true;
        }
      } else {
        nicks := nicks[key := [u]];
        assert [] + [u] == [u];
      }
    }

    // ---------- Connections ----------

    /** Asks every channel of a registered user in turn whether it allows a nick change. */
    method NickIsPinned(u: Uid) returns (pinned: bool)
      ensures pinned <==> Pinned(Snapshot(), u)
    {
      pinned := false;
      if u in sessions && sessions[u].registered && u in users {
        var rest := users[u].channels;
        while rest != {}
          invariant rest <= users[u].channels
          invariant forall c :: c in users[u].channels - rest ==> !(c in channels && c in fixed)
          decreases rest
        {
          var c :| c in rest;
          rest := rest - {c};
          if c in channels && c in fixed {
            return true;
          }
        }
      }
    }

    method HandleNick(u: Uid, nick: string, allowed: bool)
      modifies this
      ensures Snapshot() == ChangeNick(old(Snapshot()), u, nick, allowed)
    {
      if u !in sessions || sessions[u].nick == Some(nick) {
        return;
      }
      var key := ToLower(nick);
      var taken := Claim(key, u, allowed);
      if taken {
        return;
      }
      var pinned := NickIsPinned(u);
      if pinned {
        return;
      }
      var s := sessions[u];
      if s.nick.Some? {
        if ToLower(s.nick.value) != key {
          RemoveFromNick(ToLower(s.nick.value), u);
        }
        timers := timers - {u};
      }
      sessions := sessions[u := s.(nick := Some(nick))];
      if s.registered && u in users {
        users := users[u := users[u].(nick := nick)];
      }
    }

    method AddLocalUser(u: Uid, nick: string)
      modifies this
      ensures Snapshot() == AddUser(old(Snapshot()), u, nick)
    {
      AppendToNick(ToLower(nick), u);
      users := users[u := User(nick, {})];
    }

    method HandleRegister(u: Uid, written: bool)
      modifies this
      ensures Snapshot() == Register(old(Snapshot()), u, written)
    {
      if u !in sessions || sessions[u].registered || sessions[u].nick.None? {
        return;
      }
      var nick := sessions[u].nick.value;
      AddLocalUser(u, nick);
      if written {
        sessions := sessions[u := Session(Some(nick), true)];
        senders := senders + {u};
      } else {
        RemoveFromNick(ToLower(nick), u);
        sessions := sessions - {u};
      }
    }

    method HandleClose(u: Uid)
      modifies this
      ensures Snapshot() == Close(old(Snapshot()), u)
    {
      if u !in sessions {
        return;
      }
      var s := sessions[u];
      if s.registered {
        var left := DisconnectUser(u);
      } else if s.nick.Some? {
        RemoveFromNick(ToLower(s.nick.value), u);
      }
      sessions := sessions - {u};
    }

    // ---------- Renames by others ----------

    method ApplyForceNick(u: Uid, oldNick: string, newNick: string)
      modifies this
      ensures Snapshot() == ForceNick(old(Snapshot()), u, oldNick, newNick)
    {
      if u !in users {
        return;
      }
      RemoveFromNick(ToLower(oldNick), u);
      AppendToNick(ToLower(newNick), u);
      users := users[u := users[u].(nick := newNick)];
    }

    method HandleSanick(oldNick: string, newNick: string) returns (renamed: Option<Uid>)
      modifies this
      ensures Snapshot() == Sanick(old(Snapshot()), oldNick, newNick)
      ensures renamed.Some? <==>
                && ToLower(oldNick) in old(nicks) && old(nicks)[ToLower(oldNick)] != []
                && ToLower(newNick) !in old(nicks) && old(nicks)[ToLower(oldNick)][0] in old(users)
    {
      renamed := None;
      if ToLower(oldNick) !in nicks || nicks[ToLower(oldNick)] == [] {
        return;
      }
      var target := nicks[ToLower(oldNick)][0];
      if ToLower(newNick) in nicks || target !in users {
        return;
      }
      RemoveFromNick(ToLower(oldNick), target);
      AppendToNick(ToLower(newNick), target);
      users := users[target := users[target].(nick := newNick)];
      renamed := Some(target);
    }

    // ---------- Nick enforcement ----------

    /** Draws until a guest nick is free. The source goes on drawing when the draws listed here are used up. */
    method GenerateGuestNick(draws: seq<Draw>, first: nat) returns (nick: Option<string>, used: nat)
      requires first <= |draws|
      ensures first <= used <= |draws|
      ensures nick.Some? ==> IsGuest(nick.value) && ToLower(nick.value) !in nicks
      ensures nick.None? <==> forall i :: first <= i < |draws| ==> ToLower(GuestNick(draws[i])) in nicks
    {
      used := first;
      while used < |draws|
        invariant first <= used <= |draws|
        invariant forall i :: first <= i < used ==> ToLower(GuestNick(draws[i])) in nicks
      {
        var candidate := GuestNick(draws[used]);
        used := used + 1;
        if ToLower(candidate) !in nicks {
          return Some(candidate), used;
        }
      }
      nick := None;
    }

    method CollectExpired(now: nat) returns (expired: set<Uid>)
      ensures expired == Expired(timers, now)
      ensures forall u :: u in expired <==> u in timers && timers[u] <= now
    {
      expired := {};
      var rest := timers.Keys;
      while rest != {}
        invariant rest <= timers.Keys
        invariant expired == Expired(timers, now) - rest
        decreases rest
      {
        var u :| u in rest;
        rest := rest - {u};
        if timers[u] <= now {
          expired := expired + {u};
        }
      }
    }

    /**
     Forces every user whose timer has run out, and who can be reached, to a guest nick of their own. When the draws run
     out the sweep stands still at one user: those before are done, that user's timer is gone, the others wait.
     */
    method CheckExpiredTimers(now: nat, draws: seq<Draw>) returns (finished: bool)
      modifies this
      ensures old(Consistent(Snapshot())) ==> Consistent(Snapshot())
      ensures finished ==> Enforced(old(Snapshot()), Snapshot(), Expired(old(timers), now))
      ensures finished ==> forall u :: u in timers <==> u in old(timers) && now < old(timers)[u]
      ensures !finished ==> Stalled(old(Snapshot()), Snapshot(), Expired(old(timers), now))
    {
      var expired := CollectExpired(now);
      var rest, used := expired, 0;
      while rest != {}
        invariant rest <= expired && used <= |draws|
        invariant old(Consistent(Snapshot())) ==> Consistent(Snapshot())
        invariant Enforced(old(Snapshot()), Snapshot(), expired - rest)
        decreases rest
      {
        var u :| u in rest;
        ghost var st, done := Snapshot(), expired - rest;
        rest := rest - {u};
        assert expired - rest == done + {u};
        timers := timers - {u};
        if u !in users {
          SkipStep(old(Snapshot()), st, done, u);
          continue;
        }
        var nick;
        nick, used := GenerateGuestNick(draws, used);
        if nick.None? {
          assert StalledAt(old(Snapshot()), Snapshot(), expired, done, u, st);
          return false;
        }
        if u !in senders {
          SkipStep(old(Snapshot()), st, done, u);
          continue;
        }
        EnforceStep(old(Snapshot()), st, done, u, nick.value);
        if Consistent(st) {
          ExpireConsistent(st, u, nick.value);
        }
        ApplyForceNick(u, users[u].nick, nick.value);
      }
      assert expired - rest == expired;
      finished := true;
    }

    // ---------- Channels ----------

    method ApplyKick(channel: string, u: Uid)
      modifies this
      ensures Snapshot() == Kick(old(Snapshot()), channel, u)
    {
      var c := ToLower(channel);
      if u in users && c in channels && u in channels[c] {
        channels := channels[c := channels[c] - {u}];
        users := users[u := users[u].(channels := users[u].channels - {c})];
      }
    }

    method ApplyNoNickChange(channel: string, on: bool)
      modifies this`fixed
      ensures Snapshot() == SetFixed(old(Snapshot()), channel, on)
    {
      var c := ToLower(channel);
      if c in channels {
        fixed := if on then fixed + {c} else fixed - {c};
      }
    }

    /** Leaves each listed channel in turn and drops the channel when its reply says that nobody remains. */
    method LeaveChannels(listed: set<string>, u: Uid)
      modifies this`channels, this`fixed
      ensures channels == Leave(old(channels), listed, u)
      ensures fixed == old(fixed) - (old(channels).Keys - channels.Keys)
    {
      var rest := listed;
      while rest != {}
        invariant rest <= listed
        invariant channels == Leave(old(channels), listed - rest, u)
        invariant fixed == old(fixed) - (old(channels).Keys - channels.Keys)
        decreases rest
      {
        var c :| c in rest;
        rest := rest - {c};
        if c in channels {
          var remaining := channels[c] - {u};
          if remaining == {} {
            channels, fixed := channels - {c}, fixed - {c};
          } else {
            channels := channels[c := remaining];
          }
        }
        assert listed - rest == (listed - rest - {c}) + {c};
      }
      assert listed - rest == listed;
    }

    /** Tells each listed channel of a netsplit; no channel is dropped. */
    method VacateChannels(listed: set<string>, u: Uid)
      modifies this`channels
      ensures channels == Vacate(old(channels), listed, u)
    {
      var rest := listed;
      while rest != {}
        invariant rest <= listed
        invariant channels == Vacate(old(channels), listed - rest, u)
        decreases rest
      {
        var c :| c in rest;
        rest := rest - {c};
        if c in channels {
          channels := channels[c := channels[c] - {u}];
        }
        assert listed - rest == (listed - rest - {c}) + {c};
      }
      assert listed - rest == listed;
    }

    // ---------- Removals ----------

    /** A disconnect with no other session of the same client left. */
    method DisconnectUser(u: Uid) returns (left: set<string>)
      modifies this
      ensures Snapshot() == Disconnect(old(Snapshot()), u)
      ensures left == if u in old(users) then old(users[u].channels) else {}
    {
      left := {};
      if u !in users {
        return;
      }
      var user := users[u];
      left := user.channels;
      LeaveChannels(user.channels, u);
      RemoveFromNick(ToLower(user.nick), u);
      users := users - {u};
      timers := timers - {u};
      senders := senders - {u};
    }

    method KillUser(u: Uid)
      modifies this
      ensures Snapshot() == Kill(old(Snapshot()), u)
    {
      if u in users {
        var user := users[u];
        users := users - {u};
        RemoveFromNick(ToLower(user.nick), u);
        senders := senders - {u};
      }
    }

    /** Netsplit removal of one user: out of every channel, then killed. */
    method SplitOffUser(u: Uid)
      modifies this
      ensures Snapshot() == SplitOff(old(Snapshot()), u)
    {
      if u in users {
        VacateChannels(users[u].channels, u);
        KillUser(u);
      }
    }

    // ---------- Users introduced by peers ----------

    method PerformMerge(u: Uid, nick: string, merged: string)
      modifies this
      ensures Snapshot() == TakeIn(old(Snapshot()), u, nick, merged)
    {
      if u in users {
        var before := ToLower(users[u].nick);
        if before != ToLower(merged) {
          RemoveFromNick(before, u);
          AppendToNick(ToLower(merged), u);
        }
        users := users[u := users[u].(nick := merged)];
      } else {
        AddLocalUser(u, nick);
      }
    }

    method MergeUser(u: Uid, nick: string, merged: string, age: Age)
      modifies this
      ensures Snapshot() == Merge(old(Snapshot()), u, nick, merged, age)
    {
      var n := ToLower(nick);
      if n !in nicks || nicks[n] == [] || nicks[n][0] == u || nicks[n][0] !in users {
        PerformMerge(u, nick, merged);
        return;
      }
      var rival := nicks[n][0];
      match age
      case Older =>
        KillUser(rival);
        PerformMerge(u, nick, merged);
      case Newer =>
        PerformMerge(u, nick, merged);
        KillUser(u);
        if rival in users && !Lists(nicks, ToLower(users[rival].nick), rival) {
          AppendToNick(ToLower(users[rival].nick), rival);
        }
      case Tie =>
        KillUser(rival);
        PerformMerge(u, nick, merged);
        KillUser(u);
    }
  }
}
