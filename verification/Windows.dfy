/**
 Sliding windows kept as deques that are pruned from the front (src/security/heuristics.rs, src/security/spam.rs),
 against the full history of calls. Clock readings are parameters and never go back.

 Risk scores are floating-point weights of these counts and are not modelled.
 */
module Windows {
  /** An event with its time. */
  datatype Timed<T> = Timed(time: int, value: T)

  ghost predicate InTimeOrder<T>(s: seq<Timed<T>>) {
    forall i, j :: 0 <= i < j < |s| ==> s[i].time <= s[j].time
  }

  /** The events from the cutoff on. */
  ghost function Since<T>(s: seq<Timed<T>>, cutoff: int): seq<Timed<T>> {
    if s == [] then []
    else Since(s[..|s| - 1], cutoff) + if s[|s| - 1].time >= cutoff then [s[|s| - 1]] else []
  }

  lemma SinceAppend<T>(s: seq<Timed<T>>, x: Timed<T>, cutoff: int)
    ensures Since(s + [x], cutoff) == Since(s, cutoff) + if x.time >= cutoff then [x] else []
  {
    assert (s + [x])[..|s|] == s;
  }

  lemma {:induction false} SinceTwice<T>(s: seq<Timed<T>>, first: int, second: int)
    requires first <= second
    ensures Since(Since(s, first), second) == Since(s, second)
  {
    if s != [] {
      var init, x := s[..|s| - 1], s[|s| - 1];
      SinceTwice(init, first, second);
      if x.time >= first {
        SinceAppend(Since(init, first), x, second);
      } else {
        assert Since(s, first) == Since(init, first) && Since(s, second) == Since(init, second);
      }
    }
  }

  lemma {:induction false} SinceAll<T>(s: seq<Timed<T>>, cutoff: int)
    requires forall i :: 0 <= i < |s| ==> s[i].time >= cutoff
    ensures Since(s, cutoff) == s
  {
    if s != [] {
      SinceAll(s[..|s| - 1], cutoff);
      assert s == s[..|s| - 1] + [s[|s| - 1]];
    }
  }

  lemma {:induction false} SinceDropsFirst<T>(s: seq<Timed<T>>, cutoff: int)
    requires s != [] && s[0].time < cutoff
    ensures Since(s, cutoff) == Since(s[1..], cutoff)
  {
    if |s| > 1 {
      SinceDropsFirst(s[..|s| - 1], cutoff);
      assert s[..|s| - 1][1..] == s[1..][..|s| - 2];
    } else {
      assert s[..0] == [] && s[1..] == [];
    }
  }

  lemma {:induction false} SinceBounded<T>(s: seq<Timed<T>>, cutoff: int, last: int)
    requires InTimeOrder(s) && forall i :: 0 <= i < |s| ==> s[i].time <= last
    ensures InTimeOrder(Since(s, cutoff)) && |Since(s, cutoff)| <= |s|
    ensures forall i :: 0 <= i < |Since(s, cutoff)| ==> Since(s, cutoff)[i].time <= last
  {
    if s != [] {
      SinceBounded(s[..|s| - 1], cutoff, s[|s| - 1].time);
    }
  }

  lemma SinceInOrder<T>(s: seq<Timed<T>>, cutoff: int)
    requires InTimeOrder(s)
    ensures InTimeOrder(Since(s, cutoff)) && |Since(s, cutoff)| <= |s|
  {
    if s != [] {
      SinceBounded(s, cutoff, s[|s| - 1].time);
    }
  }

  lemma AppendInOrder<T>(s: seq<Timed<T>>, x: Timed<T>)
    requires InTimeOrder(s) && forall i :: 0 <= i < |s| ==> s[i].time <= x.time
    ensures InTimeOrder(s + [x]) && forall i :: 0 <= i < |s + [x]| ==> (s + [x])[i].time <= x.time
  {
  }

  /** The positions of the events from the cutoff on. */
  ghost function Positions<T>(s: seq<Timed<T>>, cutoff: int): set<nat> {
    set i: nat | i < |s| && s[i].time >= cutoff
  }

  lemma PositionsLast<T>(s: seq<Timed<T>>, cutoff: int)
    requires s != []
    ensures |s| - 1 !in Positions(s[..|s| - 1], cutoff)
    ensures Positions(s, cutoff)
         == Positions(s[..|s| - 1], cutoff) + if s[|s| - 1].time >= cutoff then {|s| - 1} else {}
  {
  }

  /** As many events as there are positions. */
  lemma {:induction false} SinceCount<T>(s: seq<Timed<T>>, cutoff: int)
    ensures |Since(s, cutoff)| == |Positions(s, cutoff)|
  {
    if s == [] {
      assert Positions(s, cutoff) == {};
    } else {
      var init, n := s[..|s| - 1], |s| - 1;
      SinceCount(init, cutoff);
      PositionsLast(s, cutoff);
      if s[n].time >= cutoff {
        assert |Positions(init, cutoff) + {n}| == |Positions(init, cutoff)| + 1;
      }
    }
  }

  /** Popping old events off the front of a deque in time order leaves exactly the events from the cutoff on. */
  method PopOld<T>(deque: seq<Timed<T>>, cutoff: int) returns (kept: seq<Timed<T>>)
    requires InTimeOrder(deque)
    ensures kept == Since(deque, cutoff)
  {
    kept := deque;
    while kept != [] && kept[0].time < cutoff
      invariant InTimeOrder(kept)
      invariant Since(kept, cutoff) == Since(deque, cutoff)
      decreases |kept|
    {
      SinceDropsFirst(kept, cutoff);
      kept := kept[1..];
    }
    SinceAll(kept, cutoff);
  }

  // ---------- Velocity and fan-out ----------

  /** An event of which only the time matters. */
  datatype Tick = Tick

  datatype Metrics = Metrics(messages: seq<Timed<Tick>>, recipients: seq<Timed<Tick>>)

  /** All calls made for one key, and those of them that were private messages. */
  datatype Calls = Calls(all: seq<Timed<Tick>>, private: seq<Timed<Tick>>, last: int)

  /** The deque holds exactly the events within the window of the last call. */
  ghost predicate Window(deque: seq<Timed<Tick>>, events: seq<Timed<Tick>>, last: int, window: nat) {
    && InTimeOrder(events)
    && (forall i :: 0 <= i < |events| ==> events[i].time <= last)
    && deque == Since(events, last - window)
  }

  ghost predicate Recent(m: Metrics, c: Calls, velocityWindow: nat, fanoutWindow: nat) {
    && Window(m.messages, c.all, c.last, velocityWindow)
    && Window(m.recipients, c.private, c.last, fanoutWindow)
  }

  /** The history of a key after one more call. */
  ghost function Logged(c: Calls, now: int, private: bool): Calls {
    Calls(c.all + [Timed(now, Tick)], if private then c.private + [Timed(now, Tick)] else c.private, now)
  }

  /** A call is counted when it is not older than the window, and among the private ones when it is one of them. */
  lemma InWindowIs(c: Calls, now: int, velocityWindow: nat, fanoutWindow: nat)
    ensures InWindow(c, now, velocityWindow, fanoutWindow)
         == (|Positions(c.all, now - velocityWindow)|, |Positions(c.private, now - fanoutWindow)|)
  {
    SinceCount(c.all, now - velocityWindow);
    SinceCount(c.private, now - fanoutWindow);
  }

  /** A call counts at once, and among the private ones exactly if it is one; those before it count as before. */
  lemma CallCounts(c: Calls, now: int, private: bool, velocityWindow: nat, fanoutWindow: nat)
    ensures var before, after := InWindow(c, now, velocityWindow, fanoutWindow),
                                 InWindow(Logged(c, now, private), now, velocityWindow, fanoutWindow);
            after.0 == before.0 + 1 && after.1 == before.1 + if private then 1 else 0
  {
    SinceAppend(c.all, Timed(now, Tick), now - velocityWindow);
    SinceAppend(c.private, Timed(now, Tick), now - fanoutWindow);
  }

  /** How many calls of a key, and how many private ones, lie within the windows. */
  ghost function InWindow(c: Calls, now: int, velocityWindow: nat, fanoutWindow: nat): (nat, nat) {
    (|Since(c.all, now - velocityWindow)|, |Since(c.private, now - fanoutWindow)|)
  }

  ghost predicate AllRecent(metrics: map<string, Metrics>, history: map<string, Calls>, velocityWindow: nat, fanoutWindow: nat) {
    && metrics.Keys == history.Keys
    && forall k :: k in metrics ==> Recent(metrics[k], history[k], velocityWindow, fanoutWindow)
  }

  lemma UpdateKeepsRecent(metrics: map<string, Metrics>, history: map<string, Calls>, velocityWindow: nat, fanoutWindow: nat,
                          key: string, m: Metrics, c: Calls)
    requires AllRecent(metrics, history, velocityWindow, fanoutWindow) && Recent(m, c, velocityWindow, fanoutWindow)
    ensures AllRecent(metrics[key := m], history[key := c], velocityWindow, fanoutWindow)
  {
  }

  lemma RecentCounts(m: Metrics, c: Calls, velocityWindow: nat, fanoutWindow: nat)
    requires Recent(m, c, velocityWindow, fanoutWindow)
    ensures InWindow(c, c.last, velocityWindow, fanoutWindow) == (|m.messages|, |m.recipients|)
  {
  }

  function EntryOf(metrics: map<string, Metrics>, key: string): Metrics {
    if key in metrics then metrics[key] else Metrics([], [])
  }

  ghost function PastCalls(history: map<string, Calls>, key: string, now: int): Calls {
    if key in history then history[key] else Calls([], [], now)
  }

  lemma EntryIsRecent(metrics: map<string, Metrics>, history: map<string, Calls>, velocityWindow: nat, fanoutWindow: nat,
                      key: string, now: int)
    requires AllRecent(metrics, history, velocityWindow, fanoutWindow)
    ensures Recent(EntryOf(metrics, key), PastCalls(history, key, now), velocityWindow, fanoutWindow)
  {
  }

  class HeuristicsEngine {
    const velocityWindow: nat
    const fanoutWindow: nat
    var metrics: map<string, Metrics>
    ghost var history: map<string, Calls>

    ghost predicate Valid()
      reads this
    {
      AllRecent(metrics, history, velocityWindow, fanoutWindow)
    }

    constructor (velocityWindow: nat, fanoutWindow: nat)
      ensures Valid() && history == map[]
    {
      this.velocityWindow, this.fanoutWindow := velocityWindow, fanoutWindow;
      metrics, history := map[], map[];
    }

    /** Returns the numbers that the velocity and fan-out scores are computed from. */
    method Analyze(key: string, now: int, private: bool) returns (velocity: nat, fanout: nat)
      requires Valid() && (key in history ==> history[key].last <= now)
      modifies this
      ensures Valid()
      ensures history == old(history)[key := Logged(PastCalls(old(history), key, now), now, private)]
      ensures (velocity, fanout) == InWindow(history[key], now, velocityWindow, fanoutWindow)
    {
      ghost var past := PastCalls(history, key, now);
      EntryIsRecent(metrics, history, velocityWindow, fanoutWindow, key, now);
      var entry := Record(EntryOf(metrics, key), past, now, private);
      ghost var logged := Logged(past, now, private);
      RecentCounts(entry, logged, velocityWindow, fanoutWindow);
      UpdateKeepsRecent(metrics, history, velocityWindow, fanoutWindow, key, entry, logged);
      velocity, fanout := |entry.messages|, |entry.recipients|;
      metrics := metrics[key := entry];
      history := history[key := logged];
    }

    /** Prunes both deques of a key and appends the call. */
    method Record(entry: Metrics, ghost past: Calls, now: int, private: bool) returns (next: Metrics)
      requires Recent(entry, past, velocityWindow, fanoutWindow) && past.last <= now
      ensures Recent(next, Logged(past, now, private), velocityWindow, fanoutWindow)
    {
      var messages := Slide(entry.messages, past.all, past.last, velocityWindow, now, true);
      var recipients := Slide(entry.recipients, past.private, past.last, fanoutWindow, now, private);
      next := Metrics(messages, recipients);
    }
  }

  /** Moves one window forward to `now`, with or without a new event. */
  method Slide(deque: seq<Timed<Tick>>, ghost events: seq<Timed<Tick>>, ghost last: int, window: nat, now: int, event: bool)
    returns (next: seq<Timed<Tick>>)
    requires Window(deque, events, last, window) && last <= now
    ensures Window(next, if event then events + [Timed(now, Tick)] else events, now, window)
  {
    SinceInOrder(events, last - window);
    SlideKeeps(events, last, window, now);
    next := PopOld(deque, now - window);
    if event {
      next := next + [Timed(now, Tick)];
    }
  }

  lemma SlideKeeps(events: seq<Timed<Tick>>, last: int, window: nat, now: int)
    requires InTimeOrder(events) && last <= now && forall i :: 0 <= i < |events| ==> events[i].time <= last
    ensures var kept := Since(Since(events, last - window), now - window);
            && Window(kept, events, now, window)
            && Window(kept + [Timed(now, Tick)], events + [Timed(now, Tick)], now, window)
  {
    SinceTwice(events, last - window, now - window);
    EventJoins(events, window, now);
  }

  lemma EventJoins(events: seq<Timed<Tick>>, window: nat, now: int)
    requires InTimeOrder(events) && forall i :: 0 <= i < |events| ==> events[i].time <= now
    ensures Window(Since(events, now - window) + [Timed(now, Tick)], events + [Timed(now, Tick)], now, window)
  {
    var x := Timed(now, Tick);
    assert Since(events + [x], now - window) == Since(events, now - window) + [x] by {
      SinceAppend(events, x, now - window);
    }
    AppendInOrder(events, x);
  }

  // ---------- Repeated messages ----------

  const REPEAT_WINDOW: nat := 10_000_000_000  // ten seconds, in nanoseconds

  const REPEAT_LIMIT: nat := 20

  ghost function Last20<T>(s: seq<T>): seq<T> {
    if |s| <= REPEAT_LIMIT then s else s[|s| - REPEAT_LIMIT..]
  }

  function Count(s: seq<Timed<nat>>, hash: nat): nat {
    if s == [] then 0 else Count(s[..|s| - 1], hash) + if s[|s| - 1].value == hash then 1 else 0
  }

  /** The i-th message has the hash and is not older than the cutoff. */
  ghost predicate Hit(s: seq<Timed<nat>>, i: int, cutoff: int, hash: nat) {
    0 <= i < |s| && s[i].time >= cutoff && s[i].value == hash
  }

  lemma CountLast(s: seq<Timed<nat>>, cutoff: int, hash: nat)
    requires s != []
    ensures Count(Since(s, cutoff), hash)
         == Count(Since(s[..|s| - 1], cutoff), hash) + if Hit(s, |s| - 1, cutoff, hash) then 1 else 0
  {
    var before, x := Since(s[..|s| - 1], cutoff), s[|s| - 1];
    if x.time >= cutoff {
      assert (before + [x])[..|before|] == before;
    } else {
      assert before + [] == before;
    }
  }

  lemma HitLast(s: seq<Timed<nat>>, i: int, cutoff: int, hash: nat)
    requires s != []
    ensures Hit(s, i, cutoff, hash) <==> Hit(s[..|s| - 1], i, cutoff, hash) || (i == |s| - 1 && Hit(s, i, cutoff, hash))
  {
  }

  lemma {:induction false} CountOne(s: seq<Timed<nat>>, cutoff: int, hash: nat)
    ensures Count(Since(s, cutoff), hash) >= 1 <==> exists i :: Hit(s, i, cutoff, hash)
  {
    if s != [] {
      var init := s[..|s| - 1];
      CountOne(init, cutoff, hash);
      CountLast(s, cutoff, hash);
      forall i
        ensures Hit(s, i, cutoff, hash) <==> Hit(init, i, cutoff, hash) || (i == |s| - 1 && Hit(s, i, cutoff, hash))
      {
        HitLast(s, i, cutoff, hash);
      }
    }
  }

  ghost predicate HitTwice(s: seq<Timed<nat>>, cutoff: int, hash: nat) {
    exists i, j :: i < j && Hit(s, i, cutoff, hash) && Hit(s, j, cutoff, hash)
  }

  lemma {:induction false} CountTwo(s: seq<Timed<nat>>, cutoff: int, hash: nat)
    ensures Count(Since(s, cutoff), hash) >= 2 <==> HitTwice(s, cutoff, hash)
  {
    if s != [] {
      var init, n := s[..|s| - 1], |s| - 1;
      CountTwo(init, cutoff, hash);
      CountOne(init, cutoff, hash);
      CountLast(s, cutoff, hash);
      forall i
        ensures Hit(s, i, cutoff, hash) <==> Hit(init, i, cutoff, hash) || (i == n && Hit(s, i, cutoff, hash))
      {
        HitLast(s, i, cutoff, hash);
      }
      TwiceLast(s, init, n, cutoff, hash);
    }
  }

  lemma TwiceLast(s: seq<Timed<nat>>, init: seq<Timed<nat>>, n: int, cutoff: int, hash: nat)
    requires n == |init|
    requires forall i :: Hit(s, i, cutoff, hash) <==> Hit(init, i, cutoff, hash) || (i == n && Hit(s, i, cutoff, hash))
    ensures HitTwice(s, cutoff, hash)
       <==> HitTwice(init, cutoff, hash) || (Hit(s, n, cutoff, hash) && exists i :: Hit(init, i, cutoff, hash))
  {
    if i, j :| i < j && Hit(s, i, cutoff, hash) && Hit(s, j, cutoff, hash) {
      assert Hit(init, i, cutoff, hash);
    }
    if Hit(s, n, cutoff, hash) {
      if i :| Hit(init, i, cutoff, hash) {
        assert Hit(s, i, cutoff, hash);
      }
    }
  }

  /** Two of the last twenty messages have the hash and are at most ten seconds old. */
  ghost predicate RepeatedTwice(past: seq<Timed<nat>>, hash: nat, now: int) {
    exists i, j :: |past| - 20 <= i < j && Repeats(past, i, hash, now) && Repeats(past, j, hash, now)
  }

  ghost predicate Repeats(past: seq<Timed<nat>>, i: int, hash: nat, now: int) {
    0 <= i < |past| && past[i].value == hash && now - past[i].time <= 10_000_000_000
  }

  lemma SpamIff(past: seq<Timed<nat>>, hash: nat, now: int)
    ensures Count(Since(Last20(past), now - REPEAT_WINDOW), hash) >= 2 <==> RepeatedTwice(past, hash, now)
  {
    var last, cutoff := Last20(past), now - REPEAT_WINDOW;
    var shift := |past| - |last|;
    CountTwo(last, cutoff, hash);
    forall i
      ensures Hit(last, i, cutoff, hash) <==> |past| - 20 <= i + shift && i + shift >= shift && Repeats(past, i + shift, hash, now)
    {
    }
    if i, j :| |past| - 20 <= i < j && Repeats(past, i, hash, now) && Repeats(past, j, hash, now) {
      assert Hit(last, i - shift, cutoff, hash) && Hit(last, j - shift, cutoff, hash);
    }
    if i, j :| i < j && Hit(last, i, cutoff, hash) && Hit(last, j, cutoff, hash) {
      assert Repeats(past, i + shift, hash, now) && Repeats(past, j + shift, hash, now);
    }
  }

  /** The deque holds those of the user's last twenty messages that were within the window of the last one. */
  ghost predicate Remembers(deque: seq<Timed<nat>>, past: seq<Timed<nat>>) {
    && past != [] && InTimeOrder(past)
    && deque == Since(Last20(past), past[|past| - 1].time - REPEAT_WINDOW)
  }

  lemma Last20Append<T>(s: seq<T>, x: T)
    ensures Last20(s + [x]) == if |s| < REPEAT_LIMIT then s + [x] else Last20(s)[1..] + [x]
  {
  }

  /** Appending and then dropping the front of an overfull deque keeps what it remembers exact. */
  lemma RememberStep(past: seq<Timed<nat>>, hash: nat, now: int)
    requires InTimeOrder(past + [Timed(now, hash)])
    ensures var kept := Since(Last20(past), now - REPEAT_WINDOW) + [Timed(now, hash)];
            Remembers(if |kept| > REPEAT_LIMIT then kept[1..] else kept, past + [Timed(now, hash)])
  {
    var x, cutoff := Timed(now, hash), now - REPEAT_WINDOW;
    Last20InOrder(past, x);
    Last20Append(past, x);
    assert (past + [x])[|past|] == x;
    if |past| < REPEAT_LIMIT {
      SinceInOrder(past, cutoff);
      SinceAppend(past, x, cutoff);
    } else {
      DropOverfull(Last20(past), x, cutoff);
    }
  }

  lemma Last20InOrder(past: seq<Timed<nat>>, x: Timed<nat>)
    requires InTimeOrder(past + [x])
    ensures InTimeOrder(past) && InTimeOrder(Last20(past))
    ensures forall i :: 0 <= i < |past| ==> past[i].time <= x.time
  {
    var all := past + [x];
    assert all[|past|] == x && forall i :: 0 <= i < |past| ==> all[i] == past[i];
  }

  lemma DropOverfull(last: seq<Timed<nat>>, x: Timed<nat>, cutoff: int)
    requires InTimeOrder(last) && |last| == REPEAT_LIMIT && x.time >= cutoff
    ensures var kept := Since(last, cutoff) + [x];
            (if |kept| > REPEAT_LIMIT then kept[1..] else kept) == Since(last[1..] + [x], cutoff)
  {
    SinceAppend(last[1..], x, cutoff);
    if last[0].time < cutoff {
      SinceDropsFirst(last, cutoff);
      SinceInOrder(last[1..], cutoff);
    } else {
      SinceAll(last, cutoff);
      SinceAll(last[1..], cutoff);
      assert (last + [x])[1..] == last[1..] + [x];
    }
  }

  class SpamFilter {
    var recent: map<string, seq<Timed<nat>>>
    ghost var past: map<string, seq<Timed<nat>>>

    ghost predicate Valid()
      reads this
    {
      recent.Keys == past.Keys && forall u :: u in recent ==> Remembers(recent[u], past[u])
    }

    ghost function PastOf(uid: string): seq<Timed<nat>>
      reads this
    {
      if uid in past then past[uid] else []
    }

    constructor ()
      ensures Valid() && past == map[]
    {
      recent, past := map[], map[];
    }

    /** Spam exactly when two of the user's last twenty messages within the window had this hash. */
    method CheckMessageRepetition(uid: string, hash: nat, now: int) returns (spam: bool)
      requires Valid() && InTimeOrder(PastOf(uid) + [Timed(now, hash)])
      modifies this
      ensures Valid()
      ensures past == old(past)[uid := old(PastOf(uid)) + [Timed(now, hash)]]
      ensures spam <==> RepeatedTwice(old(PastOf(uid)), hash, now)
    {
      var deque := if uid in recent then recent[uid] else [];
      ghost var before := PastOf(uid);
      SpamIff(before, hash, now);
      spam, deque := CheckDeque(deque, before, hash, now);
      recent := recent[uid := deque];
      past := past[uid := before + [Timed(now, hash)]];
    }
  }

  method CheckDeque(deque: seq<Timed<nat>>, ghost past: seq<Timed<nat>>, hash: nat, now: int)
    returns (spam: bool, next: seq<Timed<nat>>)
    requires InTimeOrder(past + [Timed(now, hash)]) && (if past == [] then deque == [] else Remembers(deque, past))
    ensures Remembers(next, past + [Timed(now, hash)])
    ensures spam <==> Count(Since(Last20(past), now - REPEAT_WINDOW), hash) >= 2
  {
    RememberedSince(deque, past, hash, now);
    RememberStep(past, hash, now);
    next := PopOld(deque, now - REPEAT_WINDOW);
    spam := Count(next, hash) >= 2;
    next := next + [Timed(now, hash)];
    if |next| > REPEAT_LIMIT {
      next := next[1..];
    }
  }

  lemma SinceLater(s: seq<Timed<nat>>, first: int, second: int)
    requires InTimeOrder(s) && first <= second
    ensures InTimeOrder(Since(s, first)) && Since(Since(s, first), second) == Since(s, second)
  {
    SinceInOrder(s, first);
    SinceTwice(s, first, second);
  }

  lemma RememberedSince(deque: seq<Timed<nat>>, past: seq<Timed<nat>>, hash: nat, now: int)
    requires InTimeOrder(past + [Timed(now, hash)]) && (if past == [] then deque == [] else Remembers(deque, past))
    ensures InTimeOrder(deque)
    ensures Since(deque, now - REPEAT_WINDOW) == Since(Last20(past), now - REPEAT_WINDOW)
  {
    if past != [] {
      Last20InOrder(past, Timed(now, hash));
      SinceLater(Last20(past), past[|past| - 1].time - REPEAT_WINDOW, now - REPEAT_WINDOW);
    }
  }
}
