/**
 Writing back account state by dirty bits (src/state/client.rs, src/state/managers/client.rs): every method that changes
 what is persisted marks its part, and a client with no marks is not written. Clock readings are parameters.
 */
module Writeback {
  import opened Common
  import opened Casemap

  datatype Part = Channels | Nick | Away | LastSeen | Devices | Flags

  datatype Membership = Membership(modes: string, joined: int)

  datatype Device = Device(name: Option<string>, created: int, lastSeen: int)

  /** What is persisted. */
  datatype Record = Record(
    nick: string,
    away: Option<string>,
    channels: map<string, Membership>,
    lastSeen: map<string, int>,
    devices: map<string, Device>,
    alwaysOn: bool,
    autoAway: bool)

  /** A client, the record at the time its marks were last taken, and the record in the store. */
  datatype State = State(record: Record, sessions: set<string>, dirty: set<Part>, taken: Record, stored: Option<Record>)

  predicate Same(p: Part, a: Record, b: Record) {
    match p
    case Channels => a.channels == b.channels
    case Nick => a.nick == b.nick
    case Away => a.away == b.away
    case LastSeen => a.lastSeen == b.lastSeen
    case Devices => a.devices == b.devices
    case Flags => a.alwaysOn == b.alwaysOn && a.autoAway == b.autoAway
  }

  lemma SameEverywhere(a: Record, b: Record)
    requires forall p :: Same(p, a, b)
    ensures a == b
  {
    assert Same(Channels, a, b) && Same(Nick, a, b) && Same(Away, a, b);
    assert Same(LastSeen, a, b) && Same(Devices, a, b) && Same(Flags, a, b);
  }

  // ---------- The calls ----------

  datatype Call =
    | Attach(session: string)
    | Detach(session: string)
    | Seen(device: string, now: int)
    | Join(channel: string, modes: string, now: int)
    | Leave(channel: string)
    | Register(device: string, name: Option<string>, now: int)
    | Touch(device: string, now: int)
    | AlwaysOn(enabled: bool)
    | AutoAway(enabled: bool)
    | Rename(nick: string)
    | WriteBack(ok: bool)
    | Persist(ok: bool)
    | Discard(ok: bool)

  const AWAY_TEXT: string := "Auto-away: All sessions disconnected"

  function Marked(st: State, record: Record, p: Part): State {
    st.(record := record, dirty := st.dirty + {p})
  }

  function Apply(st: State, call: Call): State {
    var r := st.record;
    match call
    case Attach(s) =>
      var attached := st.(sessions := st.sessions + {s});
      if s !in st.sessions && r.autoAway && r.away.Some? then Marked(attached, r.(away := None), Away) else attached
    case Detach(s) =>
      var detached := st.(sessions := st.sessions - {s});
      if s in st.sessions && detached.sessions == {} && r.autoAway then Marked(detached, r.(away := Some(AWAY_TEXT)), Away)
      else detached
    case Seen(d, now) => Marked(st, r.(lastSeen := r.lastSeen[d := now]), LastSeen)
    case Join(c, modes, now) => Marked(st, r.(channels := r.channels[ToLower(c) := Membership(modes, now)]), Channels)
    case Leave(c) =>
      if ToLower(c) in r.channels then Marked(st, r.(channels := r.channels - {ToLower(c)}), Channels) else st
    case Register(d, name, now) =>
      if d in r.devices then st else Marked(st, r.(devices := r.devices[d := Device(name, now, now)]), Devices)
    case Touch(d, now) =>
      if d in r.devices then Marked(st, r.(devices := r.devices[d := r.devices[d].(lastSeen := now)]), Devices) else st
    case AlwaysOn(b) => if r.alwaysOn != b then Marked(st, r.(alwaysOn := b), Flags) else st
    case AutoAway(b) => if r.autoAway != b then Marked(st, r.(autoAway := b), Flags) else st
    case Rename(nick) => if r.nick != nick then Marked(st, r.(nick := nick), Nick) else st
    case WriteBack(ok) =>
      st.(dirty := {}, taken := r, stored := if r.alwaysOn && st.dirty != {} && ok then Some(r) else st.stored)
    case Persist(ok) => if r.alwaysOn && ok then st.(stored := Some(r)) else st
    case Discard(ok) => if st.sessions == {} && !r.alwaysOn && ok then st.(stored := None) else st
  }

  // ---------- What the calls do ----------

  /** Of the record, only this part may have changed. */
  ghost predicate OnlyPart(p: Part, st: State, after: State) {
    && (forall q :: q != p ==> Same(q, st.record, after.record)) && after.stored == st.stored && after.taken == st.taken
    && (forall q :: q != p ==> (q in after.dirty <==> q in st.dirty)) && st.dirty <= after.dirty
  }

  ghost predicate OthersSame<K(!new), V>(before: map<K, V>, after: map<K, V>, key: K) {
    forall k :: k != key ==> (k in after <==> k in before) && (k in before ==> after[k] == before[k])
  }

  lemma SeenTakesEffect(st: State, device: string, now: int)
    ensures var after := Apply(st, Seen(device, now));
            && device in after.record.lastSeen && after.record.lastSeen[device] == now
            && OthersSame(st.record.lastSeen, after.record.lastSeen, device) && OnlyPart(LastSeen, st, after)
            && after.sessions == st.sessions
  {
  }

  lemma ChannelsTakeEffect(st: State, channel: string, modes: string, now: int)
    ensures var after, c := Apply(st, Join(channel, modes, now)), ToLower(channel);
            && c in after.record.channels && after.record.channels[c].modes == modes && after.record.channels[c].joined == now
            && OthersSame(st.record.channels, after.record.channels, c) && OnlyPart(Channels, st, after)
            && after.sessions == st.sessions
    ensures var after, c := Apply(st, Leave(channel)), ToLower(channel);
            && c !in after.record.channels
            && OthersSame(st.record.channels, after.record.channels, c) && OnlyPart(Channels, st, after)
            && after.sessions == st.sessions && (c !in st.record.channels ==> after == st)
  {
  }

  /** A device is entered once, and its time of last use moves only for a device that is known. */
  lemma DevicesTakeEffect(st: State, device: string, name: Option<string>, now: int)
    ensures var after := Apply(st, Register(device, name, now));
            && device in after.record.devices
            && after.record.devices[device] == (if device in st.record.devices then st.record.devices[device]
                                                else Device(name, now, now))
            && OthersSame(st.record.devices, after.record.devices, device) && OnlyPart(Devices, st, after)
            && after.sessions == st.sessions
    ensures var after := Apply(st, Touch(device, now));
            && (device in after.record.devices <==> device in st.record.devices)
            && (device in st.record.devices ==>
                  && after.record.devices[device].name == st.record.devices[device].name
                  && after.record.devices[device].created == st.record.devices[device].created
                  && after.record.devices[device].lastSeen == now)
            && OthersSame(st.record.devices, after.record.devices, device) && OnlyPart(Devices, st, after)
            && after.sessions == st.sessions
  {
  }

  lemma SettingsTakeEffect(st: State, enabled: bool, nick: string)
    ensures var after := Apply(st, AlwaysOn(enabled));
            after.record == st.record.(alwaysOn := enabled) && after.sessions == st.sessions && OnlyPart(Flags, st, after)
    ensures var after := Apply(st, AutoAway(enabled));
            after.record == st.record.(autoAway := enabled) && after.sessions == st.sessions && OnlyPart(Flags, st, after)
    ensures var after := Apply(st, Rename(nick));
            after.record == st.record.(nick := nick) && after.sessions == st.sessions && OnlyPart(Nick, st, after)
  {
  }

  /** What is already so is not marked. */
  lemma SettingsUnchanged(st: State)
    ensures Apply(st, AlwaysOn(st.record.alwaysOn)) == st && Apply(st, AutoAway(st.record.autoAway)) == st
    ensures Apply(st, Rename(st.record.nick)) == st
  {
  }

  /** Saving writes the whole record of an always-on client, and nothing of any other; only the sweep clears the marks. */
  lemma SavesTakeEffect(st: State, ok: bool)
    ensures var after := Apply(st, Persist(ok));
            && after == st.(stored := after.stored)
            && after.stored == if ok && st.record.alwaysOn then Some(st.record) else st.stored
    ensures var after := Apply(st, WriteBack(ok));
            && after.record == st.record && after.sessions == st.sessions && after.dirty == {} && after.taken == st.record
            && after.stored == if ok && st.record.alwaysOn && st.dirty != {} then Some(st.record) else st.stored
  {
  }

  /** A record goes only with the last session of a client that is not always-on, and only if the store lets it go. */
  lemma DiscardTakesEffect(st: State, ok: bool)
    ensures var after := Apply(st, Discard(ok));
            && after == st.(stored := after.stored)
            && after.stored == (if ok && !st.record.alwaysOn && (forall s :: s !in st.sessions) then None else st.stored)
  {
    assert st.sessions == {} <==> forall s :: s !in st.sessions;
  }

  /** Away is cleared by a new session and set by the end of the last, for clients that ask for it. */
  lemma SessionsTakeEffect(st: State, session: string)
    ensures var after := Apply(st, Attach(session));
            && (forall s :: s in after.sessions <==> s in st.sessions || s == session) && OnlyPart(Away, st, after)
            && after.record.away == (if session !in st.sessions && st.record.autoAway then None else st.record.away)
    ensures var after := Apply(st, Detach(session));
            && (forall s :: s in after.sessions <==> s in st.sessions && s != session) && OnlyPart(Away, st, after)
            && after.record.away == (if st.sessions == {session} && st.record.autoAway then
                                       Some("Auto-away: All sessions disconnected") else st.record.away)
  {
    assert st.sessions == {session} <==> session in st.sessions && st.sessions - {session} == {};
  }

  // ---------- What the marks promise ----------

  /** Whatever differs between the two records is marked. */
  ghost predicate Tracked(now: Record, earlier: Record, dirty: set<Part>) {
    forall p :: !Same(p, now, earlier) ==> p in dirty
  }

  /** Every part that has changed since the marks were last taken is marked. */
  lemma CallKeepsMarks(st: State, call: Call)
    requires Tracked(st.record, st.taken, st.dirty)
    ensures Tracked(Apply(st, call).record, Apply(st, call).taken, Apply(st, call).dirty)
  {
    assert forall p :: Same(p, st.record, st.taken) || p in st.dirty;
  }

  /** For an always-on client, the store holds all but the marked parts, or the whole client is due to be written. */
  ghost predicate UpToDate(st: State) {
    st.record.alwaysOn ==> Flags in st.dirty || (st.stored.Some? && Tracked(st.record, st.stored.value, st.dirty))
  }

  lemma MarkedStaysUpToDate(st: State, record: Record, p: Part)
    requires UpToDate(st) && (record.alwaysOn ==> st.record.alwaysOn || p == Flags)
    requires forall q :: q != p ==> Same(q, record, st.record)
    ensures UpToDate(Marked(st, record, p))
  {
    if record.alwaysOn && st.record.alwaysOn && p != Flags && Flags !in st.dirty {
      forall q | !Same(q, record, st.stored.value)
        ensures q in st.dirty + {p}
      {
        assert q != p ==> Same(q, record, st.record);
        assert q != p ==> !Same(q, st.record, st.stored.value);
      }
    }
  }

  /** Writing back keeps the store up to date exactly when the save succeeds or was not needed. */
  lemma WriteBackKeepsStoreIff(st: State, ok: bool)
    requires UpToDate(st)
    ensures UpToDate(Apply(st, WriteBack(ok)))
        <==> ok || !st.record.alwaysOn || st.dirty == {} || st.stored == Some(st.record)
  {
    var after := Apply(st, WriteBack(ok));
    if st.record.alwaysOn && after.stored.Some? && Tracked(st.record, after.stored.value, {}) {
      SameEverywhere(st.record, after.stored.value);
    }
    assert Tracked(st.record, st.record, {});
  }

  /** Every other call keeps it. */
  lemma CallKeepsStore(st: State, call: Call)
    requires UpToDate(st) && !call.WriteBack?
    ensures UpToDate(Apply(st, call))
  {
    var next := Apply(st, call);
    assert Tracked(st.record, st.record, st.dirty);
    if next.record != st.record {
      var p := if call.Attach? || call.Detach? then Away else if call.Seen? then LastSeen
               else if call.Join? || call.Leave? then Channels
               else if call.Register? || call.Touch? then Devices
               else if call.Rename? then Nick else Flags;
      MarkedStaysUpToDate(st, next.record, p);
    } else if call.Seen? || call.Join? || call.Touch? || call.Attach? || call.Detach? {
      assert next.stored == st.stored && st.dirty <= next.dirty;
    }
  }

  ghost function Run(st: State, calls: seq<Call>): State {
    if calls == [] then st else Apply(Run(st, calls[..|calls| - 1]), calls[|calls| - 1])
  }

  lemma RunAppend(st: State, calls: seq<Call>, call: Call)
    ensures Run(st, []) == st && Run(st, calls + [call]) == Apply(Run(st, calls), call)
  {
    assert (calls + [call])[..|calls|] == calls;
  }

  /** A client as it is created, not yet always-on, or as it is restored from the store. */
  ghost predicate IsNew(st: State) {
    st.dirty == {} && st.taken == st.record && (st.record.alwaysOn ==> st.stored == Some(st.record))
  }

  lemma {:induction false} RunsKeepMarks(st: State, calls: seq<Call>)
    requires IsNew(st)
    ensures Tracked(Run(st, calls).record, Run(st, calls).taken, Run(st, calls).dirty)
  {
    if calls != [] {
      RunsKeepMarks(st, calls[..|calls| - 1]);
      CallKeepsMarks(Run(st, calls[..|calls| - 1]), calls[|calls| - 1]);
    }
  }

  lemma {:induction false} RunsStayUpToDate(st: State, calls: seq<Call>)
    requires IsNew(st) && forall i :: 0 <= i < |calls| && calls[i].WriteBack? ==> calls[i].ok
    ensures UpToDate(Run(st, calls))
  {
    if calls != [] {
      var before, call := Run(st, calls[..|calls| - 1]), calls[|calls| - 1];
      RunsStayUpToDate(st, calls[..|calls| - 1]);
      if call.WriteBack? {
        WriteBackKeepsStoreIff(before, true);
      } else {
        CallKeepsStore(before, call);
      }
    }
  }

  /**
   Skipping clients without marks loses nothing: after any run without a failed save, the next write-back leaves the
   store with the client's whole record, whether it wrote or not.
   */
  lemma WriteBackIsLossless(st: State, calls: seq<Call>)
    requires IsNew(st) && forall i :: 0 <= i < |calls| && calls[i].WriteBack? ==> calls[i].ok
    ensures var after := Apply(Run(st, calls), WriteBack(true));
            after.record.alwaysOn ==> after.stored == Some(after.record)
  {
    var before := Run(st, calls);
    RunsStayUpToDate(st, calls);
    if before.record.alwaysOn && before.dirty == {} {
      SameEverywhere(before.record, before.stored.value);
    }
  }

  // ---------- Restarts ----------

  /** What a restart brings back from the store. */
  function Restored(stored: Option<Record>): Option<Record> {
    if stored.Some? && stored.value.alwaysOn then stored else None
  }

  /** Records of clients that were not always-on are passed over. */
  lemma RestoredIff(stored: Option<Record>, r: Record)
    ensures Restored(stored) == Some(r) <==> stored == Some(r) && r.alwaysOn
  {
  }

  /** What it should bring back. */
  function Wanted(record: Record): Option<Record> {
    if record.alwaysOn then Some(record) else None
  }

  /** Only always-on clients are ever stored. */
  ghost predicate StoredOn(st: State) {
    st.stored.Some? ==> st.stored.value.alwaysOn
  }

  lemma {:induction false} RunsStoreOn(st: State, calls: seq<Call>)
    requires StoredOn(st)
    ensures StoredOn(Run(st, calls))
  {
    if calls != [] {
      RunsStoreOn(st, calls[..|calls| - 1]);
    }
  }

  /**
   After any run without a failed save and a write-back, a restart brings back the client as it is, or nothing if it is
   not always-on, exactly when the client is always-on or has no record. A client that is switched off keeps its record.
   */
  lemma RestartIsRightIff(st: State, calls: seq<Call>)
    requires IsNew(st) && StoredOn(st) && forall i :: 0 <= i < |calls| && calls[i].WriteBack? ==> calls[i].ok
    ensures var before, after := Run(st, calls), Apply(Run(st, calls), WriteBack(true));
            Restored(after.stored) == Wanted(after.record) <==> before.record.alwaysOn || before.stored.None?
  {
    WriteBackIsLossless(st, calls);
    RunsStoreOn(st, calls);
  }

  /** Switching always-on off marks the client, but neither the save that follows nor any write-back does away with the record. */
  lemma SwitchedOffComesBack(st: State)
    requires IsNew(st) && st.record.alwaysOn
    ensures var after := Apply(Apply(Apply(st, AlwaysOn(false)), Persist(true)), WriteBack(true));
            && !after.record.alwaysOn && after.dirty == {} && Restored(after.stored) == Some(st.record)
  {
  }

  /** A save that fails is not made up for: the marks are gone, and the next write-back skips the client. */
  lemma FailedSaveIsForgotten(st: State)
    requires st.record.alwaysOn && st.dirty != {}
    ensures var after := Apply(Apply(st, WriteBack(false)), WriteBack(true));
            after.record == st.record && after.stored == st.stored
  {
  }

  // ---------- The client object ----------

  class Client {
    var nick: string
    var sessions: set<string>
    var alwaysOn: bool
    var autoAway: bool
    var away: Option<string>
    var channels: map<string, Membership>
    var lastSeen: map<string, int>
    var devices: map<string, Device>
    var dirtyBits: set<Part>

    ghost function Contents(): Record
      reads this
    {
      Record(nick, away, channels, lastSeen, devices, alwaysOn, autoAway)
    }

    /** The client beside what a ghost observer has seen taken and stored. */
    ghost function Snapshot(taken: Record, stored: Option<Record>): State
      reads this
    {
      State(Contents(), sessions, dirtyBits, taken, stored)
    }

    constructor (nick: string)
      ensures dirtyBits == {} && sessions == {} && Contents() == Record(nick, None, map[], map[], map[], false, false)
    {
      this.nick, sessions, alwaysOn, autoAway, away := nick, {}, false, false, None;
      channels, lastSeen, devices, dirtyBits := map[], map[], map[], {};
    }

    method AttachSession(session: string, ghost taken: Record, ghost stored: Option<Record>) returns (inserted: bool)
      modifies this
      ensures inserted <==> session !in old(sessions)
      ensures Snapshot(taken, stored) == Apply(old(Snapshot(taken, stored)), Attach(session))
    {
      inserted := session !in sessions;
      sessions := sessions + {session};
      if inserted && autoAway && away.Some? {
        away := None;
        dirtyBits := dirtyBits + {Away};
      }
    }

    method DetachSession(session: string, ghost taken: Record, ghost stored: Option<Record>) returns (removed: bool)
      modifies this
      ensures removed <==> session in old(sessions)
      ensures Snapshot(taken, stored) == Apply(old(Snapshot(taken, stored)), Detach(session))
    {
      removed := session in sessions;
      sessions := sessions - {session};
      if removed && sessions == {} && autoAway {
        away := Some(AWAY_TEXT);
        dirtyBits := dirtyBits + {Away};
      }
    }

    method UpdateLastSeen(device: string, now: int, ghost taken: Record, ghost stored: Option<Record>)
      modifies this
      ensures Snapshot(taken, stored) == Apply(old(Snapshot(taken, stored)), Seen(device, now))
    {
      lastSeen := lastSeen[device := now];
      dirtyBits := dirtyBits + {LastSeen};
    }

    method JoinChannel(channel: string, modes: string, now: int, ghost taken: Record, ghost stored: Option<Record>)
      modifies this
      ensures Snapshot(taken, stored) == Apply(old(Snapshot(taken, stored)), Join(channel, modes, now))
    {
      channels := channels[ToLower(channel) := Membership(modes, now)];
      dirtyBits := dirtyBits + {Channels};
    }

    method PartChannel(channel: string, ghost taken: Record, ghost stored: Option<Record>)
      modifies this
      ensures Snapshot(taken, stored) == Apply(old(Snapshot(taken, stored)), Leave(channel))
    {
      if ToLower(channel) in channels {
        channels := channels - {ToLower(channel)};
        dirtyBits := dirtyBits + {Channels};
      }
    }

    method RegisterDevice(device: string, name: Option<string>, now: int, ghost taken: Record, ghost stored: Option<Record>)
      modifies this
      ensures Snapshot(taken, stored) == Apply(old(Snapshot(taken, stored)), Register(device, name, now))
    {
      var isNew := device !in devices;
      if isNew {
        devices := devices[device := Device(name, now, now)];
        dirtyBits := dirtyBits + {Devices};
      }
    }

    method TouchDevice(device: string, now: int, ghost taken: Record, ghost stored: Option<Record>)
      modifies this
      ensures Snapshot(taken, stored) == Apply(old(Snapshot(taken, stored)), Touch(device, now))
    {
      if device in devices {
        devices := devices[device := devices[device].(lastSeen := now)];
        dirtyBits := dirtyBits + {Devices};
      }
    }

    method SetAlwaysOn(enabled: bool, ghost taken: Record, ghost stored: Option<Record>)
      modifies this
      ensures Snapshot(taken, stored) == Apply(old(Snapshot(taken, stored)), AlwaysOn(enabled))
    {
      if alwaysOn != enabled {
        alwaysOn := enabled;
        dirtyBits := dirtyBits + {Flags};
      }
    }

    method SetAutoAway(enabled: bool, ghost taken: Record, ghost stored: Option<Record>)
      modifies this
      ensures Snapshot(taken, stored) == Apply(old(Snapshot(taken, stored)), AutoAway(enabled))
    {
      if autoAway != enabled {
        autoAway := enabled;
        dirtyBits := dirtyBits + {Flags};
      }
    }

    method UpdateNick(newNick: string, ghost taken: Record, ghost stored: Option<Record>)
      modifies this
      ensures Snapshot(taken, stored) == Apply(old(Snapshot(taken, stored)), Rename(newNick))
    {
      if nick != newNick {
        nick := newNick;
        dirtyBits := dirtyBits + {Nick};
      }
    }

    /** Reads and clears the marks. */
    method TakeDirty() returns (bits: set<Part>)
      modifies this`dirtyBits
      ensures bits == old(dirtyBits) && dirtyBits == {}
    {
      bits := dirtyBits;
      dirtyBits := {};
    }
  }

  /** One client of the periodic sweep. `ok` is whether the store takes the save. */
  method WriteBackClient(client: Client, stored: Option<Record>, ok: bool, ghost taken: Record) returns (after: Option<Record>)
    modifies client
    ensures client.Snapshot(old(client.Contents()), after) == Apply(old(client.Snapshot(taken, stored)), WriteBack(ok))
  {
    var bits := client.TakeDirty();
    after := stored;
    if client.alwaysOn && bits != {} && ok {
      after := Some(Record(client.nick, client.away, client.channels, client.lastSeen, client.devices, client.alwaysOn,
                           client.autoAway));
    }
  }

  /** What becomes of the record when a session has been detached. `ok` is whether the store takes the deletion. */
  method DiscardClient(client: Client, stored: Option<Record>, ok: bool, ghost taken: Record)
    returns (gone: bool, after: Option<Record>)
    ensures gone <==> client.sessions == {} && !client.alwaysOn
    ensures client.Snapshot(taken, after) == Apply(client.Snapshot(taken, stored), Discard(ok))
  {
    gone := client.sessions == {} && !client.alwaysOn;
    after := if gone && ok then None else stored;
  }
}
