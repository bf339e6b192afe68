/**
 Nick enforcement (src/services/enforce.rs): users whose timer has run out are moved to guest nicks. Random draws are
 parameters.
 */
module Enforcement {
  import opened Common
  import opened Casemap
  import opened NickIndex
  import opened Registry
  import opened NickLaws
  import opened Membership

  /** The timers that have run out. */
  ghost function Expired(timers: map<Uid, nat>, now: nat): set<Uid> {
    set u | u in timers && timers[u] <= now
  }

  // ---------- Guest nicks ----------

  /** A number as the random generator draws it. */
  type Draw = n: int | 10000 <= n < 100000 witness 10000

  function Digit(n: nat): char {
    ('0' as int + n % 10) as char
  }

  function GuestNick(num: Draw): string {
    "Guest" + [Digit(num / 10000), Digit(num / 1000), Digit(num / 100), Digit(num / 10), Digit(num)]
  }

  /** A guest nick is "Guest" and the number written out, so different draws give different nicks, also when folded. */
  lemma GuestNickIs(num: Draw)
    ensures var nick := GuestNick(num);
            && |nick| == 10 && nick[..5] == "Guest" && (forall i :: 5 <= i < 10 ==> '0' <= nick[i] <= '9')
            && num == 10000 * (nick[5] as int - 48) + 1000 * (nick[6] as int - 48) + 100 * (nick[7] as int - 48)
                      + 10 * (nick[8] as int - 48) + (nick[9] as int - 48)
  {
    FiveDigits(num);
  }

  lemma FiveDigits(n: int)
    requires 0 <= n < 100000
    ensures n == 10000 * (n / 10000 % 10) + 1000 * (n / 1000 % 10) + 100 * (n / 100 % 10) + 10 * (n / 10 % 10) + n % 10
  {
    assert n / 100 == n / 10 / 10 && n / 1000 == n / 100 / 10 && n / 10000 == n / 1000 / 10;
    assert n == 10 * (n / 10) + n % 10;
    assert n / 10 == 10 * (n / 100) + n / 10 % 10;
    assert n / 100 == 10 * (n / 1000) + n / 100 % 10;
    assert n / 1000 == 10 * (n / 10000) + n / 1000 % 10;
  }

  ghost predicate IsGuest(nick: string) {
    exists num: Draw :: nick == GuestNick(num)
  }

  /** A nick that nobody has becomes its new user's alone, and other nicks with a single user keep that user. */
  lemma RenameToFree(st: State, u: Uid, newNick: string)
    requires u in st.users && ToLower(newNick) !in st.nicks
    ensures var after := Rename(st, u, st.users[u].nick, newNick).nicks;
            && ToLower(newNick) in after && after[ToLower(newNick)] == [u]
            && forall n, x :: n in st.nicks && st.nicks[n] == [x] && x != u ==> n in after && after[n] == [x]
  {
    DropLeavesFree(st.nicks, ToLower(st.users[u].nick), u, ToLower(newNick));
  }

  /** The user bears a guest nick that is nobody else's. */
  ghost predicate Settled(st: State, u: Uid) {
    && u in st.users && IsGuest(st.users[u].nick)
    && ToLower(st.users[u].nick) in st.nicks && st.nicks[ToLower(st.users[u].nick)] == [u]
  }

  /** The timers in `done` are gone, and of the users only those with such a timer and a sender have a new, guest, nick. */
  ghost predicate Enforced(before: State, st: State, done: set<Uid>) {
    && st.users.Keys == before.users.Keys && st.sessions == before.sessions
    && st.channels == before.channels && st.fixed == before.fixed && st.senders == before.senders
    && st.timers == before.timers - done
    && (forall u :: u in st.users ==> st.users[u].channels == before.users[u].channels)
    && (forall u :: u in st.users && !(u in done && u in st.senders) ==> st.users[u] == before.users[u])
    && (forall u :: u in st.users && u in done && u in st.senders ==> Settled(st, u))
  }

  /** The sweep has dealt with `done` and stands still at `u`, whose timer is gone. */
  ghost predicate StalledAt(before: State, after: State, expired: set<Uid>, done: set<Uid>, u: Uid, st: State) {
    && done < expired && u in expired - done
    && Enforced(before, st, done) && after == st.(timers := st.timers - {u})
  }

  ghost predicate Stalled(before: State, after: State, expired: set<Uid>) {
    exists done, u, st :: StalledAt(before, after, expired, done, u, st)
  }

  lemma ExpireConsistent(st: State, u: Uid, guest: string)
    requires Consistent(st)
    ensures Consistent(Expire(st, u, guest))
  {
    ExpireIndexed(st, u, guest);
    ExpireKeepsChannels(st, u, guest);
    assert Apply(st, OpExpire(u, guest)) == Expire(st, u, guest);
  }

  lemma EnforceStep(before: State, st: State, done: set<Uid>, u: Uid, guest: string)
    requires Enforced(before, st, done) && u !in done && IsGuest(guest) && ToLower(guest) !in st.nicks
    ensures Enforced(before, Expire(st, u, guest), done + {u})
  {
    if u in st.users && u in st.senders {
      SettledStay(st, u, guest, done);
      ExpireFrame(st, u, guest);
      AlsoEnforced(before, st, Expire(st, u, guest), done, u);
    } else {
      SkipStep(before, st, done, u);
    }
  }

  /** Nothing but the timer and the nick of `u` differs. */
  ghost predicate OnlyRenames(st: State, after: State, u: Uid) {
    && after.users.Keys == st.users.Keys && after.sessions == st.sessions
    && after.channels == st.channels && after.fixed == st.fixed && after.senders == st.senders
    && after.timers == st.timers - {u}
    && (forall x :: x in st.users ==> after.users[x].channels == st.users[x].channels)
    && (forall x :: x in st.users && x != u ==> after.users[x] == st.users[x])
  }

  lemma ExpireFrame(st: State, u: Uid, guest: string)
    ensures OnlyRenames(st, Expire(st, u, guest), u)
  {
    var cleared := st.(timers := st.timers - {u});
    if u in st.users {
      RenameFrame(cleared, u, st.users[u].nick, guest);
    }
  }

  lemma RenameFrame(st: State, u: Uid, oldNick: string, newNick: string)
    requires u in st.users
    ensures var after := Rename(st, u, oldNick, newNick);
            && after == st.(nicks := after.nicks, users := after.users)
            && after.users == st.users[u := st.users[u].(nick := newNick)]
  {
  }

  lemma AlsoEnforced(before: State, st: State, after: State, done: set<Uid>, u: Uid)
    requires Enforced(before, st, done) && OnlyRenames(st, after, u) && Settled(after, u)
    requires u in st.senders && forall x :: x in done && Settled(st, x) ==> Settled(after, x)
    ensures Enforced(before, after, done + {u})
  {
    assert before.timers - (done + {u}) == before.timers - done - {u};
  }

  lemma SkipStep(before: State, st: State, done: set<Uid>, u: Uid)
    requires Enforced(before, st, done) && u !in done && !(u in st.users && u in st.senders)
    ensures Enforced(before, st.(timers := st.timers - {u}), done + {u})
  {
    assert before.timers - (done + {u}) == before.timers - done - {u};
  }

  lemma SettledStay(st: State, u: Uid, guest: string, done: set<Uid>)
    requires u in st.users && u in st.senders && u !in done
    requires IsGuest(guest) && ToLower(guest) !in st.nicks
    ensures Settled(Expire(st, u, guest), u)
    ensures forall x :: x in done && Settled(st, x) ==> Settled(Expire(st, u, guest), x)
  {
    RenameToFree(st, u, guest);
  }

  lemma DropLeavesFree(nicks: Index, key: string, u: Uid, n: string)
    requires n !in nicks
    ensures n !in DropNick(nicks, key, u)
  {
  }
}
