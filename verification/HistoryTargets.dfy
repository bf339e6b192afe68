/**
 The activity listing over targets (`query_targets`, src/history/redb.rs): a skip-scan that jumps from one target's keys
 to the next one's, checked against the plain set of targets in the log.
 */
module HistoryTargets {
  import opened Common
  import opened Order
  import opened Casemap
  import opened HistoryKeys
  import opened HistoryStore

  type Hit = (string, I64)

  // ---------- Which targets concern a user ----------

  /** The name under which a target is listed for a user, if it concerns them. */
  function Display(target: string, nick: string, channels: set<string>): Option<string> {
    if |target| > 0 && (target[0] == '#' || target[0] == '&') then
      if target in channels then Some(target) else None
    else if |target| >= 3 && target[..3] == "dm:" then
      var parts := Split(target, ':');
      if |parts| < 5 then None
      else if parts[2] == nick then Some(parts[4])
      else if parts[4] == nick then Some(parts[2])
      else None
    else None
  }

  // ---------- The meaning ----------

  ghost function Targets(log: Log): set<string> {
    set r | r in log :: r.target
  }

  ghost function OfTarget(log: Log, t: string): set<Rec> {
    set r | r in log && r.target == t
  }

  /** The time of the last record of a target in key order. */
  ghost function Latest(log: Log, t: string): I64
    requires OfTarget(log, t) != {}
  {
    var all := InOrder(OfTarget(log, t));
    all[|all| - 1].time
  }

  /** What one target contributes: its listed name with its latest time, if that lies in the window. */
  ghost function HitOf(log: Log, t: string, start: I64, end: I64, nick: string, channels: set<string>): seq<Hit>
    requires OfTarget(log, t) != {}
  {
    var display := Display(t, nick, channels);
    if display.Some? && start <= Latest(log, t) < end then [(display.value, Latest(log, t))] else []
  }

  ghost function Hits(log: Log, ts: seq<string>, start: I64, end: I64, nick: string, channels: set<string>): seq<Hit>
    requires forall i :: 0 <= i < |ts| ==> OfTarget(log, ts[i]) != {}
  {
    if ts == [] then []
    else
      Hits(log, ts[..|ts| - 1], start, end, nick, channels)
      + HitOf(log, ts[|ts| - 1], start, end, nick, channels)
  }

  /** Each stored target once, in string order. */
  ghost function TargetsInOrder(log: Log): (ts: seq<string>)
    ensures Ascending(Less, ts) && Elements(ts) == Targets(log)
    ensures forall i :: 0 <= i < |ts| ==> OfTarget(log, ts[i]) != {}
  {
    LessStrictTotal();
    var ts := Enumerate(Less, Targets(log));
    assert forall i :: 0 <= i < |ts| ==> ts[i] in Elements(ts);
    TargetsHaveRecords(log);
    ts
  }

  lemma TargetsHaveRecords(log: Log)
    ensures forall t :: t in Targets(log) <==> OfTarget(log, t) != {}
  {
    forall t
      ensures t in Targets(log) <==> OfTarget(log, t) != {}
    {
      if t in Targets(log) {
        var r :| r in log && r.target == t;
        assert r in OfTarget(log, t);
      }
      if OfTarget(log, t) != {} {
        var r :| r in OfTarget(log, t);
      }
    }
  }

  /** For the times that clocks produce, the latest record in key order has the greatest time. */
  lemma LatestIsGreatest(log: Log, t: string, r: Rec)
    requires r in OfTarget(log, t) && r.time >= 0
    ensures r.time <= Latest(log, t)
    ensures exists x :: x in OfTarget(log, t) && x.time == Latest(log, t)
  {
    var all := InOrder(OfTarget(log, t));
    LastIsGreatest(RecLess, all, r);
    LaterTime(r, all[|all| - 1]);
  }

  /** The listed time is a target's greatest unless all its times are negative and they differ. */
  lemma LatestIsGreatestIff(log: Log, t: string)
    requires OfTarget(log, t) != {}
    ensures (forall r :: r in OfTarget(log, t) ==> r.time <= Latest(log, t))
        <==> || (exists r :: r in OfTarget(log, t) && r.time >= 0)
             || (forall r, x :: r in OfTarget(log, t) && x in OfTarget(log, t) ==> r.time == x.time)
  {
    var all := InOrder(OfTarget(log, t));
    InOrderMembers(OfTarget(log, t));
    var last := all[|all| - 1];
    if r :| r in OfTarget(log, t) && r.time >= 0 {
      LatestIsGreatest(log, t, r);
      forall x | x in OfTarget(log, t) && x.time >= 0
        ensures x.time <= Latest(log, t)
      {
        LatestIsGreatest(log, t, x);
      }
    } else {
      forall x | x in OfTarget(log, t)
        ensures last.time <= x.time
      {
        LastIsGreatest(RecLess, all, x);
        LessIrreflexive(t);
      }
    }
  }

  lemma LaterTime(a: Rec, b: Rec)
    requires a.target == b.target && a.time >= 0 && (a == b || RecLess(a, b))
    ensures a.time <= b.time
  {
    LessIrreflexive(a.target);
  }

  // ---------- Sorting by time ----------

  function Insert(s: seq<Hit>, x: Hit): seq<Hit> {
    if s == [] then [x]
    else if s[|s| - 1].1 <= x.1 then s + [x]
    else Insert(s[..|s| - 1], x) + [s[|s| - 1]]
  }

  /** A stable sort by time. */
  function SortByTime(s: seq<Hit>): seq<Hit> {
    if s == [] then [] else Insert(SortByTime(s[..|s| - 1]), s[|s| - 1])
  }

  ghost predicate SortedByTime(s: seq<Hit>) {
    forall i, j :: 0 <= i < j < |s| ==> s[i].1 <= s[j].1
  }

  ghost function AtTime(s: seq<Hit>, t: I64): seq<Hit> {
    if s == [] then []
    else AtTime(s[..|s| - 1], t) + if s[|s| - 1].1 == t then [s[|s| - 1]] else []
  }

  lemma {:induction false} AtTimeConcat(a: seq<Hit>, x: Hit, t: I64)
    ensures AtTime(a + [x], t) == AtTime(a, t) + if x.1 == t then [x] else []
  {
    assert (a + [x])[..|a|] == a;
  }

  lemma {:induction false} InsertBound(s: seq<Hit>, x: Hit, m: int)
    requires x.1 <= m && forall i :: 0 <= i < |s| ==> s[i].1 <= m
    ensures forall i :: 0 <= i < |Insert(s, x)| ==> Insert(s, x)[i].1 <= m
  {
    if s != [] {
      InsertBound(s[..|s| - 1], x, m);
    }
  }

  lemma {:induction false} InsertOrder(s: seq<Hit>, x: Hit)
    requires SortedByTime(s)
    ensures SortedByTime(Insert(s, x))
  {
    if s != [] && s[|s| - 1].1 > x.1 {
      InsertOrder(s[..|s| - 1], x);
      InsertBound(s[..|s| - 1], x, s[|s| - 1].1);
    }
  }

  lemma {:induction false} InsertContents(s: seq<Hit>, x: Hit)
    ensures multiset(Insert(s, x)) == multiset(s) + multiset{x}
  {
    if s != [] && s[|s| - 1].1 > x.1 {
      InsertContents(s[..|s| - 1], x);
      LastCounts(s);
    }
  }

  lemma {:induction false} InsertAtTime(s: seq<Hit>, x: Hit, t: I64)
    ensures AtTime(Insert(s, x), t) == AtTime(s, t) + if x.1 == t then [x] else []
  {
    if s == [] || s[|s| - 1].1 <= x.1 {
      AtTimeConcat(s, x, t);
      assert s == [] ==> s + [x] == [x];
    } else {
      InsertAtTime(s[..|s| - 1], x, t);
      AtTimeConcat(Insert(s[..|s| - 1], x), s[|s| - 1], t);
    }
  }

  lemma {:induction false} SortOrders(s: seq<Hit>)
    ensures SortedByTime(SortByTime(s))
  {
    if s != [] {
      SortOrders(s[..|s| - 1]);
      InsertOrder(SortByTime(s[..|s| - 1]), s[|s| - 1]);
    }
  }

  lemma LastCounts(s: seq<Hit>)
    requires s != []
    ensures multiset(s) == multiset(s[..|s| - 1]) + multiset{s[|s| - 1]}
  {
    assert s == s[..|s| - 1] + [s[|s| - 1]];
  }

  lemma {:induction false} SortContents(s: seq<Hit>)
    ensures multiset(SortByTime(s)) == multiset(s)
  {
    if s != [] {
      SortContents(s[..|s| - 1]);
      InsertContents(SortByTime(s[..|s| - 1]), s[|s| - 1]);
      LastCounts(s);
    }
  }

  lemma {:induction false} SortAtTime(s: seq<Hit>, t: I64)
    ensures AtTime(SortByTime(s), t) == AtTime(s, t)
  {
    if s != [] {
      SortAtTime(s[..|s| - 1], t);
      InsertAtTime(SortByTime(s[..|s| - 1]), s[|s| - 1], t);
    }
  }

  /** The sort orders by time, keeps every entry, and keeps the order of entries with equal times. */
  lemma SortIsStable(s: seq<Hit>, t: I64)
    ensures SortedByTime(SortByTime(s))
    ensures multiset(SortByTime(s)) == multiset(s)
    ensures AtTime(SortByTime(s), t) == AtTime(s, t)
  {
    SortOrders(s);
    SortContents(s);
    SortAtTime(s, t);
  }

  // ---------- The skip-scan ----------

  /** Past every key of the target: after the NUL, keys continue with a digit or a sign. */
  function PastTarget(t: string): string {
    t + "\0\U{FFFF}"
  }

  lemma KeyTail(r: Rec, s: string)
    requires s == Pad20(r.time) + "\0" + r.id
    ensures Key(r) == r.target + "\0" + s && s[0] == Pad20(r.time)[0]
  {
  }

  /** The keys below the cursor past `t` are those of `t` and of the targets before it. */
  lemma BelowPastTarget(r: Rec, t: string)
    requires NulFree(r.target) && NulFree(t)
    ensures Less(Key(r), PastTarget(t)) <==> r.target == t || Less(r.target, t)
  {
    var s := Pad20(r.time) + "\0" + r.id;
    KeyTail(r, s);
    assert PastTarget(t) == t + "\0" + "\U{FFFF}";
    if r.target == t {
      LessSamePrefix(t + "\0", s, "\U{FFFF}");
    } else {
      LessNulTerminated(r.target, t, s, "\U{FFFF}");
    }
  }

  /** The keys below the first possible key of `t` are those of the targets before it. */
  lemma BelowTarget(r: Rec, t: string)
    requires NulFree(r.target) && NulFree(t)
    ensures Less(Key(r), t + "\0") <==> Less(r.target, t)
  {
    var s := Pad20(r.time) + "\0" + r.id;
    KeyTail(r, s);
    assert t + "\0" == t + "\0" + "";
    if r.target == t {
      LessSamePrefix(t + "\0", s, "");
      LessIrreflexive(t);
    } else {
      LessNulTerminated(r.target, t, s, "");
    }
  }

  /** The scan so far: the cursor stands past all keys of the visited targets and before all others. */
  ghost predicate Scanned(log: Log, cursor: string, visited: seq<string>) {
    && Ascending(Less, visited)
    && (forall t :: t in visited ==> t in Targets(log))
    && (forall r :: r in log ==> (Less(Key(r), cursor) <==> r.target in visited))
  }

  ghost predicate FirstFrom(log: Log, cursor: string, r: Rec) {
    && r in log && !Less(Key(r), cursor)
    && forall x :: x in log && !Less(Key(x), cursor) ==> x == r || RecLess(r, x)
  }

  /** From the first row at or past the cursor, everything before its target has been visited, and the target has not. */
  lemma NextTarget(log: Log, cursor: string, visited: seq<string>, r: Rec, x: Rec)
    requires WellFormed(log) && Scanned(log, cursor, visited) && FirstFrom(log, cursor, r) && x in log
    ensures x.target in visited <==> Less(x.target, r.target)
  {
    KeyOrder(x, r);
    RecLessStrictTotal();
    LessStrictTotal();
    if x.target in visited {
      assert Less(Key(x), cursor) && !Less(Key(r), cursor);
      assert Less(Key(x), Key(r));
      assert x.target != r.target;
    }
    if Less(x.target, r.target) {
      assert RecLess(x, r);
    }
  }

  lemma VisitedBefore(log: Log, cursor: string, visited: seq<string>, r: Rec)
    requires WellFormed(log) && Scanned(log, cursor, visited) && FirstFrom(log, cursor, r)
    ensures Ascending(Less, visited + [r.target])
    ensures forall t :: t in visited + [r.target] ==> t in Targets(log)
  {
    forall i | 0 <= i < |visited|
      ensures Less(visited[i], r.target)
    {
      assert visited[i] in Targets(log);
      var x :| x in log && x.target == visited[i];
      NextTarget(log, cursor, visited, r, x);
    }
  }

  lemma ScannedStep(log: Log, cursor: string, visited: seq<string>, r: Rec)
    requires WellFormed(log) && Scanned(log, cursor, visited) && FirstFrom(log, cursor, r)
    ensures Scanned(log, PastTarget(r.target), visited + [r.target])
  {
    VisitedBefore(log, cursor, visited, r);
    forall x | x in log
      ensures Less(Key(x), PastTarget(r.target)) <==> x.target in visited + [r.target]
    {
      NextTarget(log, cursor, visited, r, x);
      BelowPastTarget(x, r.target);
    }
  }

  /** The scan has ended: every target has been visited, once and in order. */
  lemma ScannedAll(log: Log, cursor: string, visited: seq<string>)
    requires Scanned(log, cursor, visited) && forall r :: r in log ==> Less(Key(r), cursor)
    ensures visited == TargetsInOrder(log)
  {
    assert Elements(visited) == Targets(log);
    LessStrictTotal();
    AscendingUnique(Less, visited, TargetsInOrder(log));
  }

  lemma TargetKeys(log: Log, table: map<string, Row>, t: string, k: string)
    requires WellFormed(log) && Keyed(log, table) && NulFree(t)
    ensures k in KeysIn(table, t + "\0", PastTarget(t)) <==> exists r :: r in OfTarget(log, t) && Key(r) == k
  {
    if k in table {
      var r :| r in log && Key(r) == k;
      BelowTarget(r, t);
      BelowPastTarget(r, t);
      LessTotal(r.target, t);
    }
    if r :| r in OfTarget(log, t) && Key(r) == k {
      BelowTarget(r, t);
      BelowPastTarget(r, t);
      LessIrreflexive(t);
    }
  }

  /** A scan between the bounds of a target lists the keys of its records in order, so its last key is the latest. */
  lemma TargetRange(log: Log, table: map<string, Row>, t: string, keys: seq<string>)
    requires WellFormed(log) && Keyed(log, table) && NulFree(t) && OfTarget(log, t) != {}
    requires Ascending(Less, keys) && Elements(keys) == KeysIn(table, t + "\0", PastTarget(t))
    ensures keys != [] && TimeField(keys[|keys| - 1]) == Some(Latest(log, t))
  {
    var rs := InOrder(OfTarget(log, t));
    InOrderMembers(OfTarget(log, t));
    KeysAscend(rs);
    TargetKeysOf(log, table, t, keys, rs);
    SameKeysSameScan(keys, KeysOf(rs));
    KeyFields(rs[|rs| - 1]);
  }

  lemma TargetKeysOf(log: Log, table: map<string, Row>, t: string, keys: seq<string>, rs: seq<Rec>)
    requires WellFormed(log) && Keyed(log, table) && NulFree(t) && rs == InOrder(OfTarget(log, t))
    requires Elements(keys) == KeysIn(table, t + "\0", PastTarget(t))
    ensures forall k :: k in Elements(keys) <==> k in Elements(KeysOf(rs))
  {
    InOrderMembers(OfTarget(log, t));
    forall k
      ensures k in Elements(keys) <==> k in Elements(KeysOf(rs))
    {
      TargetKeys(log, table, t, k);
      KeysOfElements(rs, k);
    }
  }

  // ---------- The method ----------

  /** The first key at or after the cursor. */
  method FirstKey(table: map<string, Row>, ghost log: Log, cursor: string) returns (first: Option<string>, ghost r: Rec)
    requires WellFormed(log) && Keyed(log, table)
    ensures first.Some? ==> first.value in table && first.value == Key(r) && FirstFrom(log, cursor, r)
    ensures first.None? ==> forall x :: x in log ==> Less(Key(x), cursor)
  {
    var rest := set k | k in table && !Less(k, cursor);
    r := Rec("", 0, "");
    if rest == {} {
      assert forall k :: k in table ==> Less(k, cursor) by {
        assert forall k :: k in table && !Less(k, cursor) ==> k in rest;
      }
      return None, r;
    }
    LessStrictTotal();
    LeastExists(Less, rest);
    var k :| k in rest && forall x :: x in rest ==> x == k || Less(k, x);
    r :| r in log && Key(r) == k;
    forall x | x in log && !Less(Key(x), cursor)
      ensures x == r || RecLess(r, x)
    {
      assert Key(x) in rest;
      KeyOrder(r, x);
    }
    return Some(k), r;
  }

  /** The last key between the bounds of one target. */
  method LastKey(table: map<string, Row>, ghost log: Log, t: string) returns (last: string)
    requires WellFormed(log) && Keyed(log, table) && NulFree(t) && OfTarget(log, t) != {}
    ensures TimeField(last) == Some(Latest(log, t))
  {
    var keys := ScanRange(table, t + "\0", PastTarget(t));
    TargetRange(log, table, t, keys);
    last := keys[|keys| - 1];
  }

  ghost function KeysFrom(table: map<string, Row>, cursor: string): set<string> {
    set k | k in table && !Less(k, cursor)
  }

  lemma AheadStaysAhead(log: Log, cursor: string, visited: seq<string>, r: Rec, x: Rec)
    requires WellFormed(log) && Scanned(log, cursor, visited) && FirstFrom(log, cursor, r)
    requires x in log && !Less(Key(x), PastTarget(r.target))
    ensures !Less(Key(x), cursor)
  {
    NextTarget(log, cursor, visited, r, x);
    BelowPastTarget(x, r.target);
  }

  /** Skipping a target leaves strictly fewer keys ahead of the cursor. */
  lemma CursorAdvances(log: Log, table: map<string, Row>, cursor: string, visited: seq<string>, r: Rec)
    requires WellFormed(log) && Keyed(log, table) && Scanned(log, cursor, visited) && FirstFrom(log, cursor, r)
    ensures KeysFrom(table, PastTarget(r.target)) < KeysFrom(table, cursor)
  {
    forall k | k in KeysFrom(table, PastTarget(r.target))
      ensures k in KeysFrom(table, cursor)
    {
      var x :| x in log && Key(x) == k;
      AheadStaysAhead(log, cursor, visited, r, x);
    }
    BelowPastTarget(r, r.target);
    assert Key(r) in KeysFrom(table, cursor) && Key(r) !in KeysFrom(table, PastTarget(r.target));
  }

  ghost predicate Known(log: Log, ts: seq<string>) {
    forall i :: 0 <= i < |ts| ==> OfTarget(log, ts[i]) != {}
  }

  lemma ScannedKnown(log: Log, cursor: string, visited: seq<string>)
    requires Scanned(log, cursor, visited)
    ensures Known(log, visited)
  {
    TargetsHaveRecords(log);
  }

  lemma HitsAppend(log: Log, ts: seq<string>, t: string, start: I64, end: I64, nick: string, channels: set<string>)
    requires Known(log, ts) && Known(log, ts + [t]) && OfTarget(log, t) != {}
    ensures Hits(log, ts + [t], start, end, nick, channels)
         == Hits(log, ts, start, end, nick, channels) + HitOf(log, t, start, end, nick, channels)
  {
    assert (ts + [t])[..|ts|] == ts;
  }

  /** One target of the scan: nothing, or the entry for its latest row. */
  method Examine(table: map<string, Row>, ghost log: Log, t: string, start: I64, end: I64, nick: string,
                 channels: set<string>)
    returns (hit: seq<Hit>)
    requires WellFormed(log) && Keyed(log, table) && NulFree(t) && OfTarget(log, t) != {}
    ensures hit == HitOf(log, t, start, end, nick, channels)
  {
    hit := [];
    var display := Display(t, nick, channels);
    if display.Some? {
      var last := LastKey(table, log, t);
      var ts := TimeField(last);
      if ts.Some? && ts.value >= start && ts.value < end {
        hit := [(display.value, ts.value)];
      }
    }
  }

  method Scan(table: map<string, Row>, ghost log: Log, start: I64, end: I64, nick: string, channels: set<string>)
    returns (results: seq<Hit>)
    requires WellFormed(log) && Keyed(log, table)
    ensures results == Hits(log, TargetsInOrder(log), start, end, nick, channels)
  {
    results := [];
    var cursor := "";
    ghost var visited: seq<string> := [];
    while true
      invariant Scanned(log, cursor, visited) && Known(log, visited)
      invariant results == Hits(log, visited, start, end, nick, channels)
      decreases KeysFrom(table, cursor)
    {
      var first, r := FirstKey(table, log, cursor);
      if first.None? {
        ScannedAll(log, cursor, visited);
        return;
      }
      KeyFields(r);
      var target := TargetField(first.value);
      assert r in OfTarget(log, target);
      var hit := Examine(table, log, target, start, end, nick, channels);
      ScannedStep(log, cursor, visited, r);
      CursorAdvances(log, table, cursor, visited, r);
      ScannedKnown(log, PastTarget(target), visited + [target]);
      HitsAppend(log, visited, target, start, end, nick, channels);
      results := results + hit;
      visited := visited + [target];
      cursor := PastTarget(target);
    }
  }

  function Folded(channels: seq<string>): set<string> {
    set c | c in channels :: ToLower(c)
  }

  /** `Vec::truncate`. */
  method Truncate(s: seq<Hit>, limit: nat) returns (r: seq<Hit>)
    ensures r == Page(s, limit, false)
  {
    r := if |s| > limit then s[..limit] else s;
    assert s[..|s|] == s;
  }

  /**
   The targets that concern a user and were last active in the window, by time of that activity and then by target, cut
   to the limit.
   */
  method QueryTargets(provider: RedbProvider, start: I64, end: I64, limit: nat, nick: string, channels: seq<string>)
    returns (results: seq<Hit>)
    requires provider.Valid()
    ensures results == Page(SortByTime(Hits(provider.log, TargetsInOrder(provider.log), start, end, ToLower(nick),
                                            Folded(channels))), limit, false)
  {
    var found := Scan(provider.table, provider.log, start, end, ToLower(nick), Folded(channels));
    results := Truncate(SortByTime(found), limit);
  }
}
