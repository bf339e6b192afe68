/**
 Users, connections, the nick index and channel membership of one server, under the operations that add, rename or remove
 users: NICK and registration (src/handlers/connection), forced renames (src/services/effect.rs, src/handlers/admin.rs,
 src/services/enforce.rs), service kicks, disconnects (src/state/matrix.rs), users introduced by peers, and kills
 (src/state/managers/user.rs), which a QUIT from a peer and a netsplit (src/sync/split.rs) end in.

 A channel is its member set. Names in `users[u].channels` and the keys of `channels` are folded names.
 */
module Registry {
  import opened Common
  import opened Casemap
  import opened NickIndex

  datatype User = User(nick: string, channels: set<string>)

  /** What a connection holds for itself: the nick it was last told to use, and whether it has registered. */
  datatype Session = Session(nick: Option<string>, registered: bool)

  datatype State = State(
    users: map<Uid, User>,
    sessions: map<Uid, Session>,
    nicks: Index,
    channels: map<string, set<Uid>>,
    fixed: set<string>,  // channels that allow no nick change (+N)
    timers: map<Uid, nat>,
    senders: set<Uid>)

  // ---------- The truth that the indexes must agree with ----------

  /** The folded nick of a user, or the one that a connection has claimed before registering. */
  function NameOf(users: map<Uid, User>, sessions: map<Uid, Session>, u: Uid): Option<string> {
    if u in users then Some(ToLower(users[u].nick))
    else if u in sessions && !sessions[u].registered && sessions[u].nick.Some? then Some(ToLower(sessions[u].nick.value))
    else None
  }

  function NamesOf(users: map<Uid, User>, sessions: map<Uid, Session>): Names {
    map u | u in users.Keys + sessions.Keys && NameOf(users, sessions, u).Some? :: NameOf(users, sessions, u).value
  }

  /** A connection that has not registered has no user yet. */
  ghost predicate Apart(users: map<Uid, User>, sessions: map<Uid, Session>) {
    forall u :: u in sessions && !sessions[u].registered ==> u !in users
  }

  /** The nick index lists exactly the users and the pending claims, each under its folded nick. */
  ghost predicate Indexed(st: State) {
    Apart(st.users, st.sessions) && Agrees(NamesOf(st.users, st.sessions), st.nicks)
  }

  /** A user lists a channel exactly when the channel lists the user. */
  ghost predicate MembershipAgrees(users: map<Uid, User>, channels: map<string, set<Uid>>) {
    && (forall c, u :: c in channels && u in channels[c] ==> u in users && c in users[u].channels)
    && (forall u, c :: u in users && c in users[u].channels ==> c in channels && u in channels[c])
  }

  ghost predicate Consistent(st: State) {
    Indexed(st) && MembershipAgrees(st.users, st.channels)
  }

  // ---------- Connections ----------

  function Connect(st: State, u: Uid): State {
    st.(sessions := st.sessions[u := Session(None, false)])
  }

  /** The NICK command changes nothing: unknown connection, same nick as before, or taken and not to be shared. */
  predicate NickIgnored(st: State, u: Uid, nick: string, allowed: bool) {
    || u !in st.sessions
    || st.sessions[u].nick == Some(nick)
    || (ToLower(nick) in st.nicks && u !in st.nicks[ToLower(nick)] && !allowed)
  }

  /** A registered user is on a channel that allows no nick change. */
  predicate Pinned(st: State, u: Uid) {
    && u in st.sessions && st.sessions[u].registered && u in st.users
    && exists c :: c in st.users[u].channels && c in st.channels && c in st.fixed
  }

  /**
   The NICK command. The nick is claimed first; only then is it found out whether the user may change nick at all.
   `allowed` is the verdict of the account rules on sharing a nick.
   */
  function ChangeNick(st: State, u: Uid, nick: string, allowed: bool): State {
    if NickIgnored(st, u, nick, allowed) then st
    else
      var claimed := st.(nicks := ClaimNick(st.nicks, ToLower(nick), u));
      if Pinned(st, u) then claimed else TakeNick(claimed, u, nick)
  }

  /** The claim has been made: gives up the nick that the connection had, and takes on the new one. */
  function TakeNick(st: State, u: Uid, nick: string): State
    requires u in st.sessions
  {
    var s := st.sessions[u];
    var moved := s.nick.Some? && ToLower(s.nick.value) != ToLower(nick);
    st.(nicks := if moved then DropNick(st.nicks, ToLower(s.nick.value), u) else st.nicks,
        timers := if s.nick.Some? then st.timers - {u} else st.timers,
        sessions := st.sessions[u := s.(nick := Some(nick))],
        users := if s.registered && u in st.users then st.users[u := st.users[u].(nick := nick)] else st.users)
  }

  /** `add_local_user` and `register_service_user`. */
  function AddUser(st: State, u: Uid, nick: string): State {
    st.(nicks := PushNick(st.nicks, ToLower(nick), u), users := st.users[u := User(nick, {})])
  }

  predicate CanRegister(st: State, u: Uid) {
    u in st.sessions && !st.sessions[u].registered && st.sessions[u].nick.Some?
  }

  /**
   Registration: the user is added, and then the welcome is written. A failed write ends the connection and releases its
   nick, but leaves the user.
   */
  function Register(st: State, u: Uid, written: bool): State {
    if !CanRegister(st, u) then st
    else
      var nick := st.sessions[u].nick.value;
      var added := AddUser(st, u, nick);
      if written then added.(sessions := st.sessions[u := Session(Some(nick), true)], senders := st.senders + {u})
      else added.(nicks := DropNick(added.nicks, ToLower(nick), u), sessions := st.sessions - {u})
  }

  /** The end of a connection: before registration its claim is released, afterwards its user is disconnected. */
  function Close(st: State, u: Uid): State {
    if u !in st.sessions then st
    else if st.sessions[u].registered then
      var gone := Disconnect(st, u);
      gone.(sessions := gone.sessions - {u})
    else
      st.(nicks := if st.sessions[u].nick.Some? then DropNick(st.nicks, ToLower(st.sessions[u].nick.value), u) else st.nicks,
          sessions := st.sessions - {u})
  }

  // ---------- Renames by others ----------

  /** Moves `u` in the index from the key of `oldNick` to that of `newNick`, and renames the user, not the connection. */
  function Rename(st: State, u: Uid, oldNick: string, newNick: string): State
    requires u in st.users
  {
    st.(nicks := PushNick(DropNick(st.nicks, ToLower(oldNick), u), ToLower(newNick), u),
        users := st.users[u := st.users[u].(nick := newNick)])
  }

  function ForceNick(st: State, u: Uid, oldNick: string, newNick: string): State {
    if u in st.users then Rename(st, u, oldNick, newNick) else st
  }

  function Sanick(st: State, oldNick: string, newNick: string): State {
    if ToLower(oldNick) !in st.nicks || st.nicks[ToLower(oldNick)] == [] then st
    else
      var target := st.nicks[ToLower(oldNick)][0];
      if ToLower(newNick) in st.nicks || target !in st.users then st
      else Rename(st, target, oldNick, newNick)
  }

  /** An expired enforcement timer: the user, if still here and reachable, is renamed to the guest nick picked for them. */
  function Expire(st: State, u: Uid, guest: string): State {
    var cleared := st.(timers := st.timers - {u});
    if u in st.users && u in st.senders then ForceNick(cleared, u, st.users[u].nick, guest) else cleared
  }

  // ---------- Channels ----------

  function Join(st: State, u: Uid, channel: string): State {
    var c := ToLower(channel);
    if u !in st.users then st
    else
      st.(channels := st.channels[c := (if c in st.channels then st.channels[c] else {}) + {u}],
          users := st.users[u := st.users[u].(channels := st.users[u].channels + {c})])
  }

  function Kick(st: State, channel: string, u: Uid): State {
    var c := ToLower(channel);
    if u !in st.users || c !in st.channels || u !in st.channels[c] then st
    else
      st.(channels := st.channels[c := st.channels[c] - {u}],
          users := st.users[u := st.users[u].(channels := st.users[u].channels - {c})])
  }

  /** MODE +N and -N, from an operator or from a peer. */
  function SetFixed(st: State, channel: string, on: bool): State {
    var c := ToLower(channel);
    if c !in st.channels then st else st.(fixed := if on then st.fixed + {c} else st.fixed - {c})
  }

  /** Channels after `u` has left those in `left`, dropping the ones it leaves empty. */
  function Leave(channels: map<string, set<Uid>>, left: set<string>, u: Uid): map<string, set<Uid>> {
    map c | c in channels && !(c in left && channels[c] - {u} == {}) ::
      if c in left then channels[c] - {u} else channels[c]
  }

  /** The same with every channel kept, even when empty. */
  function Vacate(channels: map<string, set<Uid>>, left: set<string>, u: Uid): map<string, set<Uid>> {
    map c | c in channels :: if c in left then channels[c] - {u} else channels[c]
  }

  // ---------- Removals ----------

  /** A channel that is dropped takes its modes with it. */
  function Disconnect(st: State, u: Uid): State {
    if u !in st.users then st
    else
      var channels := Leave(st.channels, st.users[u].channels, u);
      st.(users := st.users - {u}, nicks := DropNick(st.nicks, ToLower(st.users[u].nick), u), channels := channels,
          fixed := st.fixed - (st.channels.Keys - channels.Keys), timers := st.timers - {u}, senders := st.senders - {u})
  }

  /** `kill_user`, which a QUIT from a peer calls as it is: channels and timers are not touched. */
  function Kill(st: State, u: Uid): State {
    if u !in st.users then st
    else
      st.(users := st.users - {u}, nicks := DropNick(st.nicks, ToLower(st.users[u].nick), u), senders := st.senders - {u})
  }

  /** Netsplit removal: the user leaves their channels first. */
  function SplitOff(st: State, u: Uid): State {
    if u !in st.users then st
    else Kill(st.(channels := Vacate(st.channels, st.users[u].channels, u)), u)
  }

  // ---------- Users introduced by peers ----------

  /** How the incoming nick's timestamp compares with that of the user who has the nick. */
  datatype Age = Older | Newer | Tie

  /** Takes in a user record; `merged` is the nick that the merge of the two records settles on. */
  function TakeIn(st: State, u: Uid, nick: string, merged: string): State {
    if u !in st.users then AddUser(st, u, nick)
    else if ToLower(st.users[u].nick) != ToLower(merged) then Rename(st, u, st.users[u].nick, merged)
    else st.(users := st.users[u := st.users[u].(nick := merged)])
  }

  /** The user whom an incoming record collides with. */
  function Rival(st: State, u: Uid, nick: string): Option<Uid> {
    var n := ToLower(nick);
    if n in st.nicks && st.nicks[n] != [] && st.nicks[n][0] != u && st.nicks[n][0] in st.users then Some(st.nicks[n][0])
    else None
  }

  /** Makes sure that the surviving user is still in the index. */
  function Restore(st: State, u: Uid): State {
    if u in st.users then st.(nicks := ClaimNick(st.nicks, ToLower(st.users[u].nick), u)) else st
  }

  function Merge(st: State, u: Uid, nick: string, merged: string, age: Age): State {
    var rival := Rival(st, u, nick);
    if rival.None? then TakeIn(st, u, nick, merged)
    else
      match age
      case Older => TakeIn(Kill(st, rival.value), u, nick, merged)
      case Newer => Restore(Kill(TakeIn(st, u, nick, merged), u), rival.value)
      case Tie => Kill(TakeIn(Kill(st, rival.value), u, nick, merged), u)
  }

  // ---------- All operations ----------

  datatype Op =
    | OpConnect(uid: Uid)
    | OpNick(uid: Uid, nick: string, allowed: bool)
    | OpRegister(uid: Uid, written: bool)
    | OpClose(uid: Uid)
    | OpService(uid: Uid, nick: string)
    | OpMerge(uid: Uid, nick: string, merged: string, age: Age)
    | OpForceNick(uid: Uid, oldNick: string, newNick: string)
    | OpSanick(oldNick: string, newNick: string)
    | OpExpire(uid: Uid, guest: string)
    | OpJoin(uid: Uid, channel: string)
    | OpKick(channel: string, uid: Uid)
    | OpMode(channel: string, on: bool)
    | OpDisconnect(uid: Uid)
    | OpQuit(uid: Uid)
    | OpSplit(uid: Uid)

  function Apply(st: State, op: Op): State {
    match op
    case OpConnect(u) => Connect(st, u)
    case OpNick(u, nick, allowed) => ChangeNick(st, u, nick, allowed)
    case OpRegister(u, written) => Register(st, u, written)
    case OpClose(u) => Close(st, u)
    case OpService(u, nick) => AddUser(st, u, nick)
    case OpMerge(u, nick, merged, age) => Merge(st, u, nick, merged, age)
    case OpForceNick(u, oldNick, newNick) => ForceNick(st, u, oldNick, newNick)
    case OpSanick(oldNick, newNick) => Sanick(st, oldNick, newNick)
    case OpExpire(u, guest) => Expire(st, u, guest)
    case OpJoin(u, channel) => Join(st, u, channel)
    case OpKick(channel, u) => Kick(st, channel, u)
    case OpMode(channel, on) => SetFixed(st, channel, on)
    case OpDisconnect(u) => Disconnect(st, u)
    case OpQuit(u) => Kill(st, u)
    case OpSplit(u) => SplitOff(st, u)
  }

  /** UIDs are given out once: by this server to new connections and services, and by the others to their users. */
  ghost predicate Enabled(st: State, op: Op) {
    match op
    case OpConnect(u) => u !in st.users && u !in st.sessions
    case OpService(u, _) => u !in st.users && u !in st.sessions
    case OpMerge(u, _, _, _) => u in st.users || u !in st.sessions
    case _ => true
  }

  // ---------- Runs ----------

  const EMPTY: State := State(map[], map[], map[], map[], {}, map[], {})

  ghost function Run(st: State, ops: seq<Op>): State {
    if ops == [] then st else Apply(Run(st, ops[..|ops| - 1]), ops[|ops| - 1])
  }

  ghost predicate EnabledRun(st: State, ops: seq<Op>) {
    forall i :: 0 <= i < |ops| ==> Enabled(Run(st, ops[..i]), ops[i])
  }

  lemma RunPrefix(st: State, ops: seq<Op>)
    requires ops != []
    ensures forall i :: 0 <= i < |ops| ==> ops[..|ops| - 1][..i] == ops[..i]
  {
  }

  lemma RunAppend(st: State, ops: seq<Op>, op: Op)
    ensures Run(st, ops + [op]) == Apply(Run(st, ops), op)
  {
    assert (ops + [op])[..|ops|] == ops;
  }

  lemma EnabledAppend(st: State, ops: seq<Op>, op: Op)
    requires EnabledRun(st, ops) && Enabled(Run(st, ops), op)
    ensures EnabledRun(st, ops + [op])
  {
    var more := ops + [op];
    forall i | 0 <= i < |more|
      ensures Enabled(Run(st, more[..i]), more[i])
    {
      assert more[..i] == ops[..i];
      assert ops[..|ops|] == ops;
    }
  }
}
