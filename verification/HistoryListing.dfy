/**
 What the activity listing shows (`query_targets`, src/history/redb.rs), in terms of the stored rows and the form of the
 target names: channels under their own names, and conversations under the name of the other one.
 */
module HistoryListing {
  import opened Common
  import opened Order
  import opened Casemap
  import opened HistoryKeys
  import opened HistoryStore
  import opened HistoryTargets

  // ---------- Names ----------

  predicate IsChannel(target: string) {
    target != "" && target[0] in {'#', '&'}
  }

  function Dm(p: string, u: string, q: string, v: string): string {
    "dm:" + p + ":" + u + ":" + q + ":" + v
  }

  /** A target name is a conversation of u and v; the writer makes no fields after the fifth, the reader passes over them. */
  ghost predicate Between(target: string, u: string, v: string) {
    exists p, q, tail :: IsDm(target, p, u, q, v, tail)
  }

  ghost predicate IsDm(target: string, p: string, u: string, q: string, v: string, tail: string) {
    && ':' !in p && ':' !in u && ':' !in q && ':' !in v && (tail == "" || tail[0] == ':')
    && target == Dm(p, u, q, v) + tail
  }

  /** The fields of a conversation's name, from the fifth on. */
  lemma LastFields(v: string, tail: string)
    requires ':' !in v && (tail == "" || tail[0] == ':')
    ensures Split(v + tail, ':')[0] == v
  {
    if tail == "" {
      assert v + tail == v;
      SplitWhole(v, ':');
    } else {
      assert v + tail == v + [':'] + tail[1..];
      SplitFirst(v, tail[1..], ':');
    }
  }

  lemma DmIs(p: string, u: string, q: string, v: string, tail: string)
    ensures Dm(p, u, q, v) + tail == "dm" + [':'] + (p + [':'] + (u + [':'] + (q + [':'] + (v + tail))))
  {
  }

  lemma SplitDm(p: string, u: string, q: string, last: string)
    requires ':' !in p && ':' !in u && ':' !in q
    ensures Split("dm" + [':'] + (p + [':'] + (u + [':'] + (q + [':'] + last))), ':')
         == ["dm"] + ([p] + ([u] + ([q] + Split(last, ':'))))
  {
    SplitFirst("dm", p + [':'] + (u + [':'] + (q + [':'] + last)), ':');
    SplitFirst(p, u + [':'] + (q + [':'] + last), ':');
    SplitFirst(u, q + [':'] + last, ':');
    SplitFirst(q, last, ':');
  }

  lemma DmFields(target: string, p: string, u: string, q: string, v: string, tail: string)
    requires IsDm(target, p, u, q, v, tail)
    ensures var parts := Split(target, ':');
            |parts| >= 5 && parts[2] == u && parts[4] == v && |target| >= 3 && target[..3] == "dm:"
  {
    DmIs(p, u, q, v, tail);
    SplitDm(p, u, q, v + tail);
    LastFields(v, tail);
    FiveFields(target, p, u, q, Split(v + tail, ':'));
  }

  lemma FiveFields(target: string, p: string, u: string, q: string, last: seq<string>)
    requires last != [] && Split(target, ':') == ["dm"] + ([p] + ([u] + ([q] + last)))
    ensures var parts := Split(target, ':');
            |parts| >= 5 && parts[2] == u && parts[4] == last[0]
  {
  }

  lemma SplitTail(s: string) returns (v: string, tail: string)
    ensures v == Split(s, ':')[0] && ':' !in v && s == v + tail && (tail == "" || tail[0] == ':')
  {
    var rest := SplitBack(s, ':');
    v := Split(s, ':')[0];
    tail := if |Split(s, ':')| == 1 then "" else [':'] + rest;
  }

  /** A name that begins like a conversation and has five fields is one. */
  lemma FieldsAreDm(target: string)
    requires |target| >= 3 && target[..3] == "dm:" && |Split(target, ':')| >= 5
    ensures Between(target, Split(target, ':')[2], Split(target, ':')[4])
  {
    var parts := Split(target, ':');
    var r1 := target[3..];
    assert target == "dm" + [':'] + r1;
    SplitFirst("dm", r1, ':');
    assert parts[1..] == Split(r1, ':');
    var r2 := SplitBack(r1, ':');
    assert parts[2..] == Split(r2, ':');
    var r3 := SplitBack(r2, ':');
    assert parts[3..] == Split(r3, ':');
    var r4 := SplitBack(r3, ':');
    assert parts[4..] == Split(r4, ':');
    var v, tail := SplitTail(r4);
    Reassemble(target, parts, r1, r2, r3, r4, v, tail);
    assert IsDm(target, parts[1], parts[2], parts[3], parts[4], tail);
  }

  lemma Reassemble(target: string, parts: seq<string>, r1: string, r2: string, r3: string, r4: string, v: string,
                   tail: string)
    requires |parts| >= 5 && target == "dm" + [':'] + r1 && r1 == parts[1] + [':'] + r2 && r2 == parts[2] + [':'] + r3
    requires r3 == parts[3] + [':'] + r4 && r4 == v + tail
    ensures target == Dm(parts[1], parts[2], parts[3], v) + tail
  {
  }

  /** What is listed for whom: a channel that the user is on, and a conversation under the other one's name. */
  ghost predicate Listed(target: string, nick: string, channels: set<string>, name: string) {
    if IsChannel(target) then target in channels && name == target
    else exists u, v :: Between(target, u, v) && ((u == nick && name == v) || (u != nick && v == nick && name == u))
  }

  lemma DisplayIff(target: string, nick: string, channels: set<string>, name: string)
    ensures Display(target, nick, channels) == Some(name) <==> Listed(target, nick, channels, name)
  {
    if !IsChannel(target) {
      if Display(target, nick, channels) == Some(name) {
        FieldsAreDm(target);
      }
      if u, v :| Between(target, u, v) && ((u == nick && name == v) || (u != nick && v == nick && name == u)) {
        var p, q, tail :| IsDm(target, p, u, q, v, tail);
        DmFields(target, p, u, q, v, tail);
      }
    }
  }

  /** Of the two, each sees the other; anybody else sees nothing. */
  lemma ConversationListed(p: string, u: string, q: string, v: string, nick: string, channels: set<string>)
    requires ':' !in p && ':' !in u && ':' !in q && ':' !in v
    ensures Display(Dm(p, u, q, v), u, channels) == Some(v)
    ensures Display(Dm(p, u, q, v), v, channels) == Some(u)
    ensures nick != u && nick != v ==> Display(Dm(p, u, q, v), nick, channels) == None
  {
    assert Dm(p, u, q, v) + "" == Dm(p, u, q, v);
    assert IsDm(Dm(p, u, q, v), p, u, q, v, "");
    DmFields(Dm(p, u, q, v), p, u, q, v, "");
  }

  // ---------- Rows ----------

  /** The greatest time of a target's rows. */
  ghost predicate LastActive(log: Log, target: string, time: I64) {
    && (exists r :: r in log && r.target == target && r.time == time)
    && (forall r :: r in log && r.target == target ==> r.time <= time)
  }

  lemma LatestIsLastActive(log: Log, target: string, time: I64)
    requires OfTarget(log, target) != {} && forall r :: r in log ==> r.time >= 0
    ensures Latest(log, target) == time <==> LastActive(log, target, time)
  {
    var r :| r in OfTarget(log, target);
    LatestIsGreatest(log, target, r);
    forall x | x in OfTarget(log, target)
      ensures x.time <= Latest(log, target)
    {
      LatestIsGreatest(log, target, x);
    }
  }

  lemma HitIff(log: Log, t: string, start: I64, end: I64, nick: string, channels: set<string>, hit: Hit)
    requires OfTarget(log, t) != {} && forall r :: r in log ==> r.time >= 0
    ensures hit in HitOf(log, t, start, end, nick, channels)
        <==> Listed(t, nick, channels, hit.0) && LastActive(log, t, hit.1) && start <= hit.1 < end
  {
    DisplayIff(t, nick, channels, hit.0);
    LatestIsLastActive(log, t, hit.1);
  }

  lemma {:induction false} HitsComeFrom(log: Log, ts: seq<string>, start: I64, end: I64, nick: string,
                                        channels: set<string>, hit: Hit) returns (i: nat)
    requires forall i :: 0 <= i < |ts| ==> OfTarget(log, ts[i]) != {}
    requires hit in Hits(log, ts, start, end, nick, channels)
    ensures i < |ts| && hit in HitOf(log, ts[i], start, end, nick, channels)
  {
    var init := ts[..|ts| - 1];
    i := |ts| - 1;
    if hit in Hits(log, init, start, end, nick, channels) {
      i := HitsComeFrom(log, init, start, end, nick, channels, hit);
    }
  }

  lemma {:induction false} HitsGoIn(log: Log, ts: seq<string>, start: I64, end: I64, nick: string, channels: set<string>,
                                    hit: Hit, i: nat)
    requires forall i :: 0 <= i < |ts| ==> OfTarget(log, ts[i]) != {}
    requires i < |ts| && hit in HitOf(log, ts[i], start, end, nick, channels)
    ensures hit in Hits(log, ts, start, end, nick, channels)
  {
    if i < |ts| - 1 {
      HitsGoIn(log, ts[..|ts| - 1], start, end, nick, channels, hit, i);
    }
  }

  /** The channels are those that the user gave, folded. */
  lemma FoldedIff(channels: seq<string>, c: string)
    ensures c in Folded(channels) <==> exists i :: 0 <= i < |channels| && ToLower(channels[i]) == c
  {
    if c in Folded(channels) {
      var d :| d in channels && ToLower(d) == c;
      var i :| 0 <= i < |channels| && channels[i] == d;
    }
  }

  /**
   Before it is sorted and cut, the listing holds a name with a time exactly if some stored target is listed to the user
   under that name, was last active at that time, and that lies in the window.
   */
  lemma ListingIff(log: Log, start: I64, end: I64, nick: string, channels: set<string>, hit: Hit)
    requires forall r :: r in log ==> r.time >= 0
    ensures hit in Hits(log, TargetsInOrder(log), start, end, nick, channels)
        <==> exists t :: Listed(t, nick, channels, hit.0) && LastActive(log, t, hit.1) && start <= hit.1 < end
  {
    var ts := TargetsInOrder(log);
    if hit in Hits(log, ts, start, end, nick, channels) {
      var i := HitsComeFrom(log, ts, start, end, nick, channels, hit);
      HitIff(log, ts[i], start, end, nick, channels, hit);
    }
    if t :| Listed(t, nick, channels, hit.0) && LastActive(log, t, hit.1) && start <= hit.1 < end {
      TargetsHaveRecords(log);
      var r :| r in log && r.target == t && r.time == hit.1;
      assert t in Elements(ts);
      var i :| 0 <= i < |ts| && ts[i] == t;
      HitIff(log, t, start, end, nick, channels, hit);
      HitsGoIn(log, ts, start, end, nick, channels, hit, i);
    }
  }
}
