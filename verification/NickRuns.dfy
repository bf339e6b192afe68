/**
 Runs of the registry from the empty server on which the nick index goes wrong, and what becomes of an entry that is left
 behind.
 */
module NickRuns {
  import opened Common
  import opened Casemap
  import opened NickIndex
  import opened Registry
  import opened NickLaws

  // ---------- Onto the server ----------

  function Arrival(u: Uid, nick: string): seq<Op> {
    [OpConnect(u), OpNick(u, nick, false), OpRegister(u, true)]
  }

  /** The server with one registered user. */
  function Registered(u: Uid, nick: string): State {
    State(map[u := User(nick, {})], map[u := Session(Some(nick), true)], map[ToLower(nick) := [u, u]],
          map[], {}, map[], {u})
  }

  lemma RunSteps(st: State, ops: seq<Op>, op: Op, more: seq<Op>)
    requires more == ops + [op] && EnabledRun(st, ops) && Enabled(Run(st, ops), op)
    ensures EnabledRun(st, more) && Run(st, more) == Apply(Run(st, ops), op)
  {
    RunAppend(st, ops, op);
    EnabledAppend(st, ops, op);
  }

  /** The ordinary way onto the server - connect, NICK, register - leaves the UID in the index twice. */
  lemma RegistrationRepeats(u: Uid, nick: string)
    ensures EnabledRun(EMPTY, Arrival(u, nick)) && Run(EMPTY, Arrival(u, nick)) == Registered(u, nick)
    ensures !NoRepeats(Run(EMPTY, Arrival(u, nick)).nicks)
  {
    var one, two := [OpConnect(u)], [OpConnect(u), OpNick(u, nick, false)];
    RunSteps(EMPTY, [], OpConnect(u), one);
    RunSteps(EMPTY, one, OpNick(u, nick, false), two);
    ClaimOnEmpty(u, nick);
    RunSteps(EMPTY, two, OpRegister(u, true), Arrival(u, nick));
    RegisterAlone(u, nick);
    assert Registered(u, nick).nicks[ToLower(nick)][0] == Registered(u, nick).nicks[ToLower(nick)][1];
    assert !Distinct(Registered(u, nick).nicks[ToLower(nick)]);
  }

  function Claimed(u: Uid, nick: string): State {
    State(map[], map[u := Session(Some(nick), false)], map[ToLower(nick) := [u]], map[], {}, map[], {})
  }

  lemma ClaimOnEmpty(u: Uid, nick: string)
    ensures ChangeNick(Connect(EMPTY, u), u, nick, false) == Claimed(u, nick)
  {
    var none: seq<Uid> := [];
    assert none + [u] == [u];
  }

  lemma RegisterAlone(u: Uid, nick: string)
    ensures Register(Claimed(u, nick), u, true) == Registered(u, nick)
  {
    assert [u] + [u] == [u, u];
  }

  // ---------- A channel that allows no nick change ----------

  lemma ClaimFree(nicks: Index, key: string, u: Uid)
    requires key !in nicks
    ensures ClaimNick(nicks, key, u) == nicks[key := [u]]
  {
    var none: seq<Uid> := [];
    assert none + [u] == [u];
  }

  lemma DropLast(nicks: Index, key: string, u: Uid)
    requires key in nicks && nicks[key] == [u]
    ensures DropNick(nicks, key, u) == nicks - {key}
  {
    assert Without([u], u) == [];
  }

  /** The server with one registered user, who is on one channel. */
  function OnChannel(u: Uid, nick: string, c: string, fixed: set<string>, nicks: Index): State {
    State(map[u := User(nick, {c})], map[u := Session(Some(nick), true)], nicks, map[c := {u}], fixed, map[], {u})
  }

  function PinnedState(u: Uid, nick: string, c: string, nicks: Index): State {
    OnChannel(u, nick, c, {c}, nicks)
  }

  lemma JoinAlone(u: Uid, nick: string, channel: string)
    ensures Join(Registered(u, nick), u, channel)
         == OnChannel(u, nick, ToLower(channel), {}, map[ToLower(nick) := [u, u]])
  {
    var none: set<string>, nobody: set<Uid> := {}, {};
    assert none + {ToLower(channel)} == {ToLower(channel)};
    assert nobody + {u} == {u};
  }

  lemma FixAlone(u: Uid, nick: string, channel: string, nicks: Index)
    ensures SetFixed(OnChannel(u, nick, ToLower(channel), {}, nicks), channel, true)
         == PinnedState(u, nick, ToLower(channel), nicks)
  {
  }

  lemma RefusedChangeClaims(u: Uid, nick: string, c: string, other: string, allowed: bool)
    requires ToLower(other) != ToLower(nick)
    ensures ChangeNick(PinnedState(u, nick, c, map[ToLower(nick) := [u, u]]), u, other, allowed)
         == PinnedState(u, nick, c, map[ToLower(nick) := [u, u], ToLower(other) := [u]])
  {
    var st := PinnedState(u, nick, c, map[ToLower(nick) := [u, u]]);
    ClaimFree(st.nicks, ToLower(other), u);
    assert c in st.users[u].channels && c in st.channels && c in st.fixed;
  }

  function PinnedRun(u: Uid, nick: string, channel: string): seq<Op> {
    Arrival(u, nick) + [OpJoin(u, channel)] + [OpMode(channel, true)]
  }

  lemma PinnedRunEnds(u: Uid, nick: string, channel: string)
    ensures EnabledRun(EMPTY, PinnedRun(u, nick, channel))
    ensures Run(EMPTY, PinnedRun(u, nick, channel))
         == PinnedState(u, nick, ToLower(channel), map[ToLower(nick) := [u, u]])
  {
    var joins := Arrival(u, nick) + [OpJoin(u, channel)];
    RegistrationRepeats(u, nick);
    RunSteps(EMPTY, Arrival(u, nick), OpJoin(u, channel), joins);
    RunSteps(EMPTY, joins, OpMode(channel, true), PinnedRun(u, nick, channel));
    JoinAlone(u, nick, channel);
    FixAlone(u, nick, channel, map[ToLower(nick) := [u, u]]);
  }

  /** A user on a +N channel who asks for another nick keeps the old one, and holds the other one as well. */
  lemma PinnedUserHoldsBoth(u: Uid, nick: string, channel: string, other: string)
    requires ToLower(other) != ToLower(nick)
    ensures var ops := PinnedRun(u, nick, channel) + [OpNick(u, other, false)];
            && EnabledRun(EMPTY, ops) && !Indexed(Run(EMPTY, ops))
            && Run(EMPTY, ops)
            == PinnedState(u, nick, ToLower(channel), map[ToLower(nick) := [u, u], ToLower(other) := [u]])
  {
    var ops := PinnedRun(u, nick, channel) + [OpNick(u, other, false)];
    PinnedRunEnds(u, nick, channel);
    RunSteps(EMPTY, PinnedRun(u, nick, channel), OpNick(u, other, false), ops);
    RefusedChangeClaims(u, nick, ToLower(channel), other, false);
    BothHeldIsWrong(u, nick, ToLower(channel), ToLower(nick), ToLower(other));
  }

  lemma BothHeldIsWrong(u: Uid, nick: string, c: string, m: string, n: string)
    requires m != n
    ensures !Indexed(PinnedState(u, nick, c, map[m := [u, u], n := [u]]))
  {
    TwoNicksAreWrong(PinnedState(u, nick, c, map[m := [u, u], n := [u]]), u, m, n);
  }

  lemma TwoNicksAreWrong(st: State, u: Uid, m: string, n: string)
    requires Lists(st.nicks, m, u) && Lists(st.nicks, n, u) && m != n
    ensures !Indexed(st)
  {
    ListedTwice(NamesOf(st.users, st.sessions), st.nicks, u, m, n);
  }

  // ---------- A forced rename ----------

  /** The server with one user, whose connection believes in another nick than the user has. */
  function OneUser(u: Uid, nick: string, believed: string, nicks: Index): State {
    State(map[u := User(nick, {})], map[u := Session(Some(believed), true)], nicks, map[], {}, map[], {u})
  }

  lemma ForceAlone(u: Uid, nick: string, forced: string)
    ensures ForceNick(Registered(u, nick), u, nick, forced)
         == OneUser(u, forced, nick, map[ToLower(forced) := [u]])
  {
    var none: seq<Uid> := [];
    assert Without([u, u], u) == [] && none + [u] == [u];
  }

  lemma ChangeAfterForce(u: Uid, nick: string, forced: string, other: string)
    requires ToLower(nick) != ToLower(forced) && ToLower(other) != ToLower(nick) && ToLower(other) != ToLower(forced)
    ensures ChangeNick(OneUser(u, forced, nick, map[ToLower(forced) := [u]]), u, other, false)
         == OneUser(u, other, other, map[ToLower(forced) := [u], ToLower(other) := [u]])
  {
    var nicks := map[ToLower(forced) := [u]];
    ClaimFree(nicks, ToLower(other), u);
    ChangeAlone(u, forced, nick, nicks, other);
  }

  lemma ChangeAlone(u: Uid, nick: string, believed: string, nicks: Index, other: string)
    requires ToLower(other) != ToLower(believed) && ToLower(other) !in nicks && ToLower(believed) !in nicks
    ensures ChangeNick(OneUser(u, nick, believed, nicks), u, other, false)
         == OneUser(u, other, other, ClaimNick(nicks, ToLower(other), u))
  {
    var st := OneUser(u, nick, believed, nicks);
    assert !NickIgnored(st, u, other, false) && !Pinned(st, u);
    var claimed := ClaimNick(nicks, ToLower(other), u);
    assert DropNick(claimed, ToLower(believed), u) == claimed;
  }

  lemma CloseAlone(u: Uid, nick: string, nicks: Index)
    ensures Close(OneUser(u, nick, nick, nicks), u) == EMPTY.(nicks := DropNick(nicks, ToLower(nick), u))
  {
    DisconnectAlone(u, nick, nicks);
  }

  lemma DisconnectAlone(u: Uid, nick: string, nicks: Index)
    ensures Disconnect(OneUser(u, nick, nick, nicks), u)
         == State(map[], map[u := Session(Some(nick), true)], DropNick(nicks, ToLower(nick), u), map[], {}, map[], {})
  {
  }

  lemma DropOneOfTwo(m: string, n: string, u: Uid)
    requires m != n
    ensures DropNick(map[m := [u], n := [u]], n, u) == map[m := [u]]
  {
    DropLast(map[m := [u], n := [u]], n, u);
  }

  function ForcedRun(u: Uid, nick: string, forced: string, other: string): seq<Op> {
    Arrival(u, nick) + [OpForceNick(u, nick, forced)] + [OpNick(u, other, false)]
  }

  /** Forced to one nick and then changing to another, a user holds both. */
  lemma ForcedUserHoldsBoth(u: Uid, nick: string, forced: string, other: string)
    requires ToLower(nick) != ToLower(forced) && ToLower(other) != ToLower(nick) && ToLower(other) != ToLower(forced)
    ensures var ops := ForcedRun(u, nick, forced, other);
            && EnabledRun(EMPTY, ops) && !Indexed(Run(EMPTY, ops))
            && Run(EMPTY, ops) == OneUser(u, other, other, map[ToLower(forced) := [u], ToLower(other) := [u]])
  {
    var three := Arrival(u, nick);
    var four := three + [OpForceNick(u, nick, forced)];
    var five := ForcedRun(u, nick, forced, other);
    RegistrationRepeats(u, nick);
    RunSteps(EMPTY, three, OpForceNick(u, nick, forced), four);
    ForceAlone(u, nick, forced);
    RunSteps(EMPTY, four, OpNick(u, other, false), five);
    ChangeAfterForce(u, nick, forced, other);
    TwoNicksAreWrong(Run(EMPTY, five), u, ToLower(forced), ToLower(other));
  }

  // ---------- What is left behind ----------

  /** The index lists a UID that belongs to no user and no connection. */
  ghost predicate Orphan(st: State, n: string, u: Uid) {
    Lists(st.nicks, n, u) && u !in st.users && u !in st.sessions
  }

  /** When that user closes the connection, the forced nick is all that the server still holds. */
  lemma ClosedUserLeavesOrphan(u: Uid, nick: string, forced: string, other: string)
    requires ToLower(nick) != ToLower(forced) && ToLower(other) != ToLower(nick) && ToLower(other) != ToLower(forced)
    ensures var ops := ForcedRun(u, nick, forced, other) + [OpClose(u)];
            && EnabledRun(EMPTY, ops) && Run(EMPTY, ops) == EMPTY.(nicks := map[ToLower(forced) := [u]])
            && Orphan(Run(EMPTY, ops), ToLower(forced), u)
  {
    var five := ForcedRun(u, nick, forced, other);
    ForcedUserHoldsBoth(u, nick, forced, other);
    RunSteps(EMPTY, five, OpClose(u), five + [OpClose(u)]);
    CloseAlone(u, other, map[ToLower(forced) := [u], ToLower(other) := [u]]);
    DropOneOfTwo(ToLower(forced), ToLower(other), u);
  }

  /** The operation brings in a user or a connection by this UID. */
  predicate Introduces(op: Op, u: Uid) {
    (op.OpConnect? || op.OpService? || op.OpMerge?) && op.uid == u
  }

  lemma DropKeepsOrphan(nicks: Index, key: string, x: Uid, n: string, u: Uid)
    requires Lists(nicks, n, u) && x != u
    ensures Lists(DropNick(nicks, key, x), n, u)
  {
    ListsAfterDrop(nicks, key, x, n, u);
  }

  lemma PushKeepsOrphan(nicks: Index, key: string, x: Uid, n: string, u: Uid)
    requires Lists(nicks, n, u)
    ensures Lists(PushNick(nicks, key, x), n, u) && Lists(ClaimNick(nicks, key, x), n, u)
  {
    ListsAfterPush(nicks, key, x, n, u);
    ListsAfterClaim(nicks, key, x, n, u);
  }

  lemma RenameKeepsOrphan(st: State, x: Uid, oldNick: string, newNick: string, n: string, u: Uid)
    requires Orphan(st, n, u) && x in st.users
    ensures Orphan(Rename(st, x, oldNick, newNick), n, u)
  {
    DropKeepsOrphan(st.nicks, ToLower(oldNick), x, n, u);
    PushKeepsOrphan(DropNick(st.nicks, ToLower(oldNick), x), ToLower(newNick), x, n, u);
  }

  lemma KillKeepsOrphan(st: State, x: Uid, n: string, u: Uid)
    requires Orphan(st, n, u)
    ensures Orphan(Kill(st, x), n, u) && Orphan(Disconnect(st, x), n, u) && Orphan(SplitOff(st, x), n, u)
  {
    if x in st.users {
      DropKeepsOrphan(st.nicks, ToLower(st.users[x].nick), x, n, u);
    }
  }

  lemma TakeInKeepsOrphan(st: State, x: Uid, nick: string, merged: string, n: string, u: Uid)
    requires Orphan(st, n, u) && x != u
    ensures Orphan(TakeIn(st, x, nick, merged), n, u)
  {
    PushKeepsOrphan(st.nicks, ToLower(nick), x, n, u);
    if x in st.users {
      RenameKeepsOrphan(st, x, st.users[x].nick, merged, n, u);
    }
  }

  lemma MergeKeepsOrphan(st: State, x: Uid, nick: string, merged: string, age: Age, n: string, u: Uid)
    requires Orphan(st, n, u) && x != u
    ensures Orphan(Merge(st, x, nick, merged, age), n, u)
  {
    var rival := Rival(st, x, nick);
    TakeInKeepsOrphan(st, x, nick, merged, n, u);
    if rival.Some? {
      KillKeepsOrphan(st, rival.value, n, u);
      TakeInKeepsOrphan(Kill(st, rival.value), x, nick, merged, n, u);
      KillKeepsOrphan(TakeIn(Kill(st, rival.value), x, nick, merged), x, n, u);
      KillKeepsOrphan(TakeIn(st, x, nick, merged), x, n, u);
      RestoreKeepsOrphan(Kill(TakeIn(st, x, nick, merged), x), rival.value, n, u);
    }
  }

  lemma RestoreKeepsOrphan(st: State, x: Uid, n: string, u: Uid)
    requires Orphan(st, n, u)
    ensures Orphan(Restore(st, x), n, u)
  {
    if x in st.users {
      PushKeepsOrphan(st.nicks, ToLower(st.users[x].nick), x, n, u);
    }
  }

  lemma NickKeepsOrphan(st: State, x: Uid, nick: string, allowed: bool, n: string, u: Uid)
    requires Orphan(st, n, u)
    ensures Orphan(ChangeNick(st, x, nick, allowed), n, u)
  {
    if !NickIgnored(st, x, nick, allowed) {
      PushKeepsOrphan(st.nicks, ToLower(nick), x, n, u);
      if st.sessions[x].nick.Some? {
        DropKeepsOrphan(ClaimNick(st.nicks, ToLower(nick), x), ToLower(st.sessions[x].nick.value), x, n, u);
      }
    }
  }

  lemma RegisterKeepsOrphan(st: State, x: Uid, written: bool, n: string, u: Uid)
    requires Orphan(st, n, u)
    ensures Orphan(Register(st, x, written), n, u)
  {
    if CanRegister(st, x) {
      var key := ToLower(st.sessions[x].nick.value);
      PushKeepsOrphan(st.nicks, key, x, n, u);
      DropKeepsOrphan(PushNick(st.nicks, key, x), key, x, n, u);
    }
  }

  lemma CloseKeepsOrphan(st: State, x: Uid, n: string, u: Uid)
    requires Orphan(st, n, u)
    ensures Orphan(Close(st, x), n, u)
  {
    KillKeepsOrphan(st, x, n, u);
    if x in st.sessions && st.sessions[x].nick.Some? {
      DropKeepsOrphan(st.nicks, ToLower(st.sessions[x].nick.value), x, n, u);
    }
  }

  lemma RenamesKeepOrphan(st: State, op: Op, n: string, u: Uid)
    requires Orphan(st, n, u) && (op.OpForceNick? || op.OpSanick? || op.OpExpire?)
    ensures Orphan(Apply(st, op), n, u)
  {
    match op
    case OpForceNick(x, oldNick, newNick) =>
      if x in st.users { RenameKeepsOrphan(st, x, oldNick, newNick, n, u); }
    case OpSanick(oldNick, newNick) =>
      if Sanick(st, oldNick, newNick) != st {
        RenameKeepsOrphan(st, st.nicks[ToLower(oldNick)][0], oldNick, newNick, n, u);
      }
    case OpExpire(x, guest) =>
      if x in st.users { RenameKeepsOrphan(st.(timers := st.timers - {x}), x, st.users[x].nick, guest, n, u); }
  }

  lemma StepKeepsOrphan(st: State, op: Op, n: string, u: Uid)
    requires Orphan(st, n, u) && !Introduces(op, u)
    ensures Orphan(Apply(st, op), n, u)
  {
    match op
    case OpConnect(_) =>
    case OpNick(x, nick, allowed) => NickKeepsOrphan(st, x, nick, allowed, n, u);
    case OpRegister(x, written) => RegisterKeepsOrphan(st, x, written, n, u);
    case OpClose(x) => CloseKeepsOrphan(st, x, n, u);
    case OpService(x, nick) => PushKeepsOrphan(st.nicks, ToLower(nick), x, n, u);
    case OpMerge(x, nick, merged, age) => MergeKeepsOrphan(st, x, nick, merged, age, n, u);
    case OpForceNick(_, _, _) => RenamesKeepOrphan(st, op, n, u);
    case OpSanick(_, _) => RenamesKeepOrphan(st, op, n, u);
    case OpExpire(_, _) => RenamesKeepOrphan(st, op, n, u);
    case OpJoin(_, _) =>
    case OpKick(_, _) =>
    case OpMode(_, _) =>
    case OpDisconnect(x) => KillKeepsOrphan(st, x, n, u);
    case OpQuit(x) => KillKeepsOrphan(st, x, n, u);
    case OpSplit(x) => KillKeepsOrphan(st, x, n, u);
  }

  /**
   Nothing removes an entry left behind: it stays for as long as its UID is not given out again, and all the while the
   nick is refused to everyone to whom sharing is not allowed.
   */
  lemma {:induction false} OrphanStays(st: State, ops: seq<Op>, n: string, u: Uid)
    requires Orphan(st, n, u) && forall i :: 0 <= i < |ops| ==> !Introduces(ops[i], u)
    ensures Orphan(Run(st, ops), n, u)
    ensures forall x, nick :: ToLower(nick) == n && !Lists(Run(st, ops).nicks, n, x) ==>
              ChangeNick(Run(st, ops), x, nick, false) == Run(st, ops)
  {
    if ops != [] {
      OrphanStays(st, ops[..|ops| - 1], n, u);
      StepKeepsOrphan(Run(st, ops[..|ops| - 1]), ops[|ops| - 1], n, u);
    }
  }
}
