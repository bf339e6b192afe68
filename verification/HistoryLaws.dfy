/** Laws of the history store that relate several operations: pruning against querying, and paging backwards. */
module HistoryLaws {
  import opened Common
  import opened Order
  import opened Casemap
  import opened HistoryKeys
  import opened HistoryStore

  // ---------- Queries in terms of time ----------

  /** Not before the start that the query names; without one, not before 1970. */
  predicate AfterStart(q: Query, time: I64, id: string) {
    match q.start
    case None => 0 <= time
    case Some(t) => TimeBefore(t, time) || (time == t && (q.startId.None? || !Less(id, q.startId.value)))
  }

  /** Before the end that the query names; without one, before the last nanosecond of an i64. */
  predicate BeforeEnd(q: Query, time: I64, id: string) {
    match q.end
    case None => time != 9223372036854775807
    case Some(t) => TimeBefore(time, t) || (time == t && q.endId.Some? && Less(id, q.endId.value))
  }

  /** The key range of a query selects by target, time and id, whatever bounds it has. */
  lemma MatchesIff(recs: set<Rec>, q: Query, r: Rec)
    ensures r in Matching(recs, q)
        <==> r in recs && r.target == ToLower(q.target) && AfterStart(q, r.time, r.id) && BeforeEnd(q, r.time, r.id)
  {
    LessIrreflexive(r.target);
  }

  /** For a row with a time that clocks produce, that is the order of the numbers. */
  lemma MatchesInTime(recs: set<Rec>, q: Query, r: Rec)
    requires r.time >= 0
    ensures r in Matching(recs, q) <==>
              && r in recs && r.target == ToLower(q.target)
              && (q.start.Some? ==>
                    || q.start.value < r.time
                    || (q.start.value == r.time && (q.startId.None? || !Less(r.id, q.startId.value))))
              && (q.end.None? ==> r.time < 9223372036854775807)
              && (q.end.Some? ==>
                    || r.time < q.end.value
                    || (r.time == q.end.value && q.endId.Some? && Less(r.id, q.endId.value)))
  {
    MatchesIff(recs, q, r);
  }

  /** The row holds the item, in the current format or, for a message, in the older one. */
  predicate Holds(row: Row, item: Item) {
    row == Current(item) || (item.Message? && row == Legacy(item.msgid, item.nanotime, item.text))
  }

  lemma DecodeIff(row: Row, item: Item)
    ensures Decode(row) == Some(item) <==> Holds(row, item)
    ensures Decode(row).None? <==> row == Corrupt
  {
  }

  lemma RowOf(log: Log, q: Query, r: Rec) returns (i: nat)
    requires r in Matching(log.Keys, q) && q.limit >= |Matching(log.Keys, q)|
    ensures i < |Selected(log.Keys, q)| && Selected(log.Keys, q)[i] == r
  {
    var all := InOrder(Matching(log.Keys, q));
    assert r in Elements(all);
    i :| 0 <= i < |all| && all[i] == r;
    if q.reverse {
      i := |all| - 1 - i;
    }
  }

  lemma SelectedMatches(log: Log, q: Query, i: nat)
    requires i < |Selected(log.Keys, q)|
    ensures Selected(log.Keys, q)[i] in Matching(log.Keys, q)
  {
    var all := InOrder(Matching(log.Keys, q));
    assert forall k :: 0 <= k < |all| ==> all[k] in Elements(all);
  }

  /** With room for all of them, the answer holds exactly the items of the rows between the bounds. */
  lemma AnswerListsIff(log: Log, q: Query, item: Item)
    requires Answer(log, q).Ok? && q.limit >= |Matching(log.Keys, q)|
    ensures item in Answer(log, q).value <==>
              exists r :: && r in log && Holds(log[r], item) && r.target == ToLower(q.target)
                          && AfterStart(q, r.time, r.id) && BeforeEnd(q, r.time, r.id)
  {
    var rs, items := Selected(log.Keys, q), Answer(log, q).value;
    DecodeRowsMeaning(RowsOf(log, rs));
    if item in items {
      var i :| 0 <= i < |items| && items[i] == item;
      SelectedMatches(log, q, i);
      MatchesIff(log.Keys, q, rs[i]);
      DecodeIff(log[rs[i]], item);
    }
    if r :| r in log && Holds(log[r], item) && r.target == ToLower(q.target)
            && AfterStart(q, r.time, r.id) && BeforeEnd(q, r.time, r.id) {
      MatchesIff(log.Keys, q, r);
      var i := RowOf(log, q, r);
      DecodeIff(log[r], item);
      assert items[i] == item;
    }
  }

  /** With such times, a query selects its rows oldest first, or newest first when reversed. */
  lemma SelectedInTime(recs: set<Rec>, q: Query, i: nat, j: nat, a: Rec, b: Rec)
    requires (forall r :: r in recs ==> r.time >= 0) && i < j < |Selected(recs, q)|
    requires a == Selected(recs, q)[i] && b == Selected(recs, q)[j]
    ensures q.reverse ==> b.time < a.time || (b.time == a.time && Less(b.id, a.id))
    ensures !q.reverse ==> a.time < b.time || (a.time == b.time && Less(a.id, b.id))
  {
    var all := InOrder(Matching(recs, q));
    var x, y := SelectedFrom(recs, q, i, j, all);
    InOrderInTime(recs, q, all, x, y);
  }

  /** Where two selected rows stand among the matching ones. */
  lemma SelectedFrom(recs: set<Rec>, q: Query, i: nat, j: nat, all: seq<Rec>) returns (x: nat, y: nat)
    requires all == InOrder(Matching(recs, q)) && i < j < |Selected(recs, q)|
    ensures x < y < |all|
    ensures q.reverse ==> Selected(recs, q)[i] == all[y] && Selected(recs, q)[j] == all[x]
    ensures !q.reverse ==> Selected(recs, q)[i] == all[x] && Selected(recs, q)[j] == all[y]
  {
    x, y := PagePositions(all, q.limit, q.reverse, i, j);
  }

  lemma PagePositions(all: seq<Rec>, limit: nat, reverse: bool, i: nat, j: nat) returns (x: nat, y: nat)
    requires i < j < |Page(all, limit, reverse)|
    ensures x < y < |all|
    ensures reverse ==> Page(all, limit, reverse)[i] == all[y] && Page(all, limit, reverse)[j] == all[x]
    ensures !reverse ==> Page(all, limit, reverse)[i] == all[x] && Page(all, limit, reverse)[j] == all[y]
  {
    x, y := if reverse then |all| - 1 - j else i, if reverse then |all| - 1 - i else j;
  }

  lemma InOrderInTime(recs: set<Rec>, q: Query, all: seq<Rec>, x: nat, y: nat)
    requires (forall r :: r in recs ==> r.time >= 0) && all == InOrder(Matching(recs, q)) && x < y < |all|
    ensures all[x].time < all[y].time || (all[x].time == all[y].time && Less(all[x].id, all[y].id))
  {
    InOrderMembers(Matching(recs, q));
    RecLessInTime(all[x], all[y]);
  }

  // ---------- Pruning and querying ----------

  function Max(a: I64, b: I64): I64 {
    if a < b then b else a
  }

  function StartTime(q: Query): I64 {
    if q.start.Some? then q.start.value else 0
  }

  /** The query with its start raised to at least the cutoff. */
  function Raised(q: Query, cutoff: I64): Query {
    q.(start := Some(Max(StartTime(q), cutoff)))
  }

  /** With a negative start and cutoff, the greatest of the pruned times that the raised query still selects. */
  function Leak(q: Query, cutoff: I64): int {
    if cutoff <= StartTime(q) then cutoff - 1 else cutoff
  }

  /** When raising the start to the cutoff selects what pruning leaves, for every store. */
  predicate Commutes(q: Query, cutoff: I64) {
    var end := EndBound(q);
    || StartTime(q) >= 0 || cutoff >= 0 || cutoff == I64_MIN
    || (end.time < 0 && (Leak(q, cutoff) < end.time || (Leak(q, cutoff) == end.time && end.id == "")))
  }

  lemma LooseStart(q: Query, r: Rec)
    requires q.startId.None? && r.target == ToLower(q.target)
    ensures !RecLess(r, StartBound(q)) <==> !TimeBefore(r.time, StartTime(q))
  {
    LessIrreflexive(r.target);
  }

  lemma PrunedMatching(log: Log, q: Query, cutoff: I64)
    requires q.startId.None? && Commutes(q, cutoff)
    ensures Matching(Pruned(log, cutoff).Keys, q) == Matching(log.Keys, Raised(q, cutoff))
  {
    forall r | r in log && r.target == ToLower(q.target)
      ensures r in Matching(Pruned(log, cutoff).Keys, q) <==> r in Matching(log.Keys, Raised(q, cutoff))
    {
      LooseStart(q, r);
      LooseStart(Raised(q, cutoff), r);
      LessIrreflexive(r.target);
    }
  }

  /** Pruning and then running a loosely bounded query is the same query on the full store from the cutoff on. */
  lemma PruneThenQuery(log: Log, q: Query, cutoff: I64)
    requires q.startId.None? && Commutes(q, cutoff)
    ensures Answer(Pruned(log, cutoff), q) == Answer(log, Raised(q, cutoff))
  {
    PrunedMatching(log, q, cutoff);
    var chosen := Selected(log.Keys, Raised(q, cutoff));
    assert Selected(Pruned(log, cutoff).Keys, q) == chosen;
    assert RowsOf(Pruned(log, cutoff), chosen) == RowsOf(log, chosen);
  }

  /** Otherwise a single stored message tells them apart, since negative times sort in reverse. */
  lemma PruneThenQueryDiffers(q: Query, cutoff: I64) returns (item: Item, log: Log)
    requires q.startId.None? && q.limit >= 1 && !Commutes(q, cutoff) && NulFree(q.target)
    ensures log == Run([Store(q.target, item)]).log && WellFormed(log)
    ensures Answer(Pruned(log, cutoff), q) != Answer(log, Raised(q, cutoff))
  {
    item := Message("", Leak(q, cutoff), "");
    var r := Rec(ToLower(q.target), Leak(q, cutoff), "");
    log := map[r := Current(item)];
    assert [Store(q.target, item)][..0] == [];
    LowerNulFree(q.target);
    LeakMatches(q, cutoff, r, log);
    DecodeRowsMeaning(RowsOf(Pruned(log, cutoff), Selected(Pruned(log, cutoff).Keys, q)));
    DecodeRowsMeaning(RowsOf(log, Selected(log.Keys, Raised(q, cutoff))));
  }

  lemma LeakMatches(q: Query, cutoff: I64, r: Rec, log: Log)
    requires q.startId.None? && !Commutes(q, cutoff) && r == Rec(ToLower(q.target), Leak(q, cutoff), "")
    requires log.Keys == {r}
    ensures Matching(Pruned(log, cutoff).Keys, q) == {} && Matching(log.Keys, Raised(q, cutoff)) == {r}
  {
    LooseStart(q, r);
    LooseStart(Raised(q, cutoff), r);
    assert RecLess(r, EndBound(q));
  }

  /** A query for nothing finds nothing. */
  lemma NothingAsked(log: Log, q: Query)
    requires q.limit == 0
    ensures Answer(log, q) == Ok([])
  {
    assert RowsOf(log, Selected(log.Keys, q)) == [];
  }

  /** Pruning commutes with a query from a loose start, on every store, exactly under `Commutes` or a limit of zero. */
  lemma PruneThenQueryIff(q: Query, cutoff: I64)
    requires q.startId.None? && NulFree(q.target)
    ensures (forall log: Log :: WellFormed(log) ==> Answer(Pruned(log, cutoff), q) == Answer(log, Raised(q, cutoff)))
        <==> q.limit == 0 || Commutes(q, cutoff)
  {
    if q.limit == 0 {
      forall log: Log
        ensures Answer(Pruned(log, cutoff), q) == Answer(log, Raised(q, cutoff))
      {
        NothingAsked(Pruned(log, cutoff), q);
        NothingAsked(log, Raised(q, cutoff));
      }
    } else if Commutes(q, cutoff) {
      forall log: Log
        ensures Answer(Pruned(log, cutoff), q) == Answer(log, Raised(q, cutoff))
      {
        PruneThenQuery(log, q, cutoff);
      }
    } else {
      var item, log := PruneThenQueryDiffers(q, cutoff);
    }
  }

  /** Pruning never makes a remaining row's id look up to another time. */
  lemma PruneKeepsIds(log: Log, stamps: map<string, Stamp>, cutoff: int)
    requires IdsResolve(log, stamps)
    ensures IdsResolve(Pruned(log, cutoff), stamps)
  {
  }

  datatype Op = Store(target: string, item: Item) | PruneAt(cutoff: int)

  datatype Tables = Tables(log: Log, stamps: map<string, Stamp>)

  /** An empty store after a run of operations. */
  ghost function Run(ops: seq<Op>): Tables {
    if ops == [] then Tables(map[], map[])
    else
      var t := Run(ops[..|ops| - 1]);
      match ops[|ops| - 1]
      case Store(target, item) =>
        Tables(t.log[Rec(ToLower(target), item.nanotime, ItemId(item)) := Current(item)],
               t.stamps[ItemId(item) := Stamp(target, item.nanotime)])
      case PruneAt(cutoff) => Tables(Pruned(t.log, cutoff), t.stamps)
  }

  /** Storing files an item under the folded target, its time and its own id, and makes the id look up to that time. */
  lemma StoreFiles(ops: seq<Op>, target: string, item: Item)
    ensures var before, after := Run(ops), Run(ops + [Store(target, item)]);
            var id := if item.Message? then item.msgid else item.id;
            var r := Rec(ToLower(target), item.nanotime, id);
            && r in after.log && after.log[r] == Current(item) && id in after.stamps
            && after.stamps[id].time == item.nanotime && after.stamps[id].target == target
            && (forall x :: x != r ==>
                  (x in after.log <==> x in before.log) && (x in before.log ==> after.log[x] == before.log[x]))
  {
    assert (ops + [Store(target, item)])[..|ops|] == ops;
  }

  /** Pruning takes out exactly the rows before the cutoff, and no id. */
  lemma PruneTakesOut(ops: seq<Op>, cutoff: int, r: Rec)
    ensures var before, after := Run(ops), Run(ops + [PruneAt(cutoff)]);
            && (r in after.log <==> r in before.log && cutoff <= r.time)
            && (r in after.log ==> after.log[r] == before.log[r]) && after.stamps == before.stamps
  {
    assert (ops + [PruneAt(cutoff)])[..|ops|] == ops;
  }

  ghost predicate IdsNeverReused(ops: seq<Op>) {
    forall i, j :: 0 <= i < j < |ops| && ops[i].Store? && ops[j].Store? ==> ItemId(ops[i].item) != ItemId(ops[j].item)
  }

  lemma {:induction false} RowsWereStored(ops: seq<Op>, r: Rec)
    requires r in Run(ops).log
    ensures exists i :: 0 <= i < |ops| && ops[i].Store? && ItemId(ops[i].item) == r.id
  {
    var init, op := ops[..|ops| - 1], ops[|ops| - 1];
    if r in Run(init).log {
      RowsWereStored(init, r);
      var i :| 0 <= i < |init| && init[i].Store? && ItemId(init[i].item) == r.id;
      assert ops[i] == init[i];
    }
  }

  /** When no id is stored twice, every row that is left in the store looks up to its own time, after any run. */
  lemma {:induction false} RunsKeepIds(ops: seq<Op>)
    requires IdsNeverReused(ops)
    ensures IdsResolve(Run(ops).log, Run(ops).stamps)
  {
    if ops != [] {
      var init, op := ops[..|ops| - 1], ops[|ops| - 1];
      RunsKeepIds(init);
      match op
      case PruneAt(cutoff) => PruneKeepsIds(Run(init).log, Run(init).stamps, cutoff);
      case Store(target, item) =>
        forall x | x in Run(init).log
          ensures x.id != ItemId(item)
        {
          RowsWereStored(init, x);
        }
        var r := Rec(ToLower(target), item.nanotime, ItemId(item));
        StoreKeepsIdsIff(Run(init).log, Run(init).stamps, r, Current(item), target);
    }
  }

  // ---------- Paging backwards ----------

  ghost predicate AllReadable(log: Log) {
    forall r :: r in log ==> Decode(log[r]).Some?
  }

  ghost function ItemsOf(log: Log, rs: seq<Rec>): (items: seq<Item>)
    requires AllReadable(log) && forall i :: 0 <= i < |rs| ==> rs[i] in log
    ensures |items| == |rs| && forall i :: 0 <= i < |rs| ==> items[i] == Decode(log[rs[i]]).value
  {
    seq(|rs|, i requires 0 <= i < |rs| => Decode(log[rs[i]]).value)
  }

  lemma AnswerReadable(log: Log, q: Query)
    requires AllReadable(log)
    ensures Answer(log, q) == Ok(ItemsOf(log, Selected(log.Keys, q)))
  {
    var chosen := Selected(log.Keys, q);
    DecodeRowsMeaning(RowsOf(log, chosen));
    assert DecodeRows(RowsOf(log, chosen)).value == ItemsOf(log, chosen);
  }

  /** The query for the page before an item, or for the newest page. */
  function PageQuery(target: string, size: nat, before: Option<Item>): Query {
    match before
    case None => Query(target, None, None, None, None, size, true)
    case Some(item) => Query(target, None, Some(item.nanotime), None, Some(ItemId(item)), size, true)
  }

  /** The items of a target before a given one (or all of them), oldest first. */
  ghost function Earlier(log: Log, target: string, before: Option<Item>): seq<Rec> {
    InOrder(Matching(log.Keys, PageQuery(target, 0, before)))
  }

  /** A prefix of an ascending enumeration enumerates what lies before the element after it. */
  lemma PrefixInOrder(s: set<Rec>, t: set<Rec>, n: nat)
    requires n < |InOrder(s)|
    requires t == set r | r in s && RecLess(r, InOrder(s)[n])
    ensures InOrder(t) == InOrder(s)[..n]
  {
    RecLessStrictTotal();
    AscendingPrefix(RecLess, InOrder(s), n);
    AscendingUnique(RecLess, InOrder(t), InOrder(s)[..n]);
  }

  /** The bound formed from an item is the record that the item was stored as. */
  lemma BoundIsRecord(log: Log, target: string, r: Rec)
    requires WellFormed(log) && r in log && Decode(log[r]).Some? && r.target == ToLower(target)
    ensures EndBound(PageQuery(target, 0, Some(Decode(log[r]).value))) == r
  {
  }

  /** The page before the n-th of a run of items holds exactly the items before it. */
  lemma EarlierThan(log: Log, target: string, before: Option<Item>, all: seq<Rec>, n: nat, item: Item)
    requires WellFormed(log) && AllReadable(log) && all == Earlier(log, target, before) && n < |all|
    requires all[n] in log && item == Decode(log[all[n]]).value
    ensures Earlier(log, target, Some(item)) == all[..n]
  {
    var s := Matching(log.Keys, PageQuery(target, 0, before));
    InOrderMembers(s);
    var r := all[n];
    BoundIsRecord(log, target, r);
    var t := Matching(log.Keys, PageQuery(target, 0, Some(item)));
    RecLessStrictTotal();
    assert t == set x | x in s && RecLess(x, r);
    PrefixInOrder(s, t, n);
  }

  // ---------- All pages together ----------

  lemma PageOfEarlier(log: Log, target: string, size: nat, before: Option<Item>)
    requires AllReadable(log)
    ensures var all := Earlier(log, target, before);
            && (forall i :: 0 <= i < |all| ==> all[i] in log)
            && Answer(log, PageQuery(target, size, before)) == Ok(ItemsOf(log, Reverse(all)[..Min(size, |all|)]))
  {
    EarlierKnown(log, target, before);
    SelectedIsPage(log, target, size, before);
    AnswerReadable(log, PageQuery(target, size, before));
  }

  lemma SelectedIsPage(log: Log, target: string, size: nat, before: Option<Item>)
    ensures var all := Earlier(log, target, before);
            Selected(log.Keys, PageQuery(target, size, before)) == Reverse(all)[..Min(size, |all|)]
  {
    assert Matching(log.Keys, PageQuery(target, size, before)) == Matching(log.Keys, PageQuery(target, 0, before));
  }

  lemma LastOfPage(log: Log, all: seq<Rec>, m: nat, page: seq<Item>)
    requires AllReadable(log) && 1 <= m <= |all| && forall i :: 0 <= i < |all| ==> all[i] in log
    requires page == ItemsOf(log, Reverse(all)[..m])
    ensures |page| == m && page[m - 1] == Decode(log[all[|all| - m]]).value
  {
    assert Reverse(all)[..m][m - 1] == all[|all| - m];
  }

  /** One page: the last `size` items before the given one, newest first. It is what the page query answers. */
  ghost function PageBefore(log: Log, target: string, size: nat, before: Option<Item>): (page: seq<Item>)
    requires WellFormed(log) && AllReadable(log) && size >= 1
    ensures |page| == Min(size, |Earlier(log, target, before)|)
    ensures page != [] ==> |Earlier(log, target, Some(page[|page| - 1]))| < |Earlier(log, target, before)|
  {
    var all := Earlier(log, target, before);
    var m := Min(size, |all|);
    EarlierKnown(log, target, before);
    var page := ItemsOf(log, Reverse(all)[..m]);
    if all != [] then
      LastOfPage(log, all, m, page);
      EarlierThan(log, target, before, all, |all| - m, page[m - 1]);
      page
    else page
  }

  lemma EarlierKnown(log: Log, target: string, before: Option<Item>)
    ensures forall i :: 0 <= i < |Earlier(log, target, before)| ==> Earlier(log, target, before)[i] in log
  {
    InOrderMembers(Matching(log.Keys, PageQuery(target, 0, before)));
  }

  /** The page query answers exactly the page. */
  lemma PageIsAnswer(log: Log, target: string, size: nat, before: Option<Item>)
    requires WellFormed(log) && AllReadable(log) && size >= 1
    ensures Answer(log, PageQuery(target, size, before)) == Ok(PageBefore(log, target, size, before))
  {
    PageOfEarlier(log, target, size, before);
  }

  /** Every page in turn: each asks for what lies before the oldest item of the one before it, until a page is empty. */
  ghost function AllPages(log: Log, target: string, size: nat, before: Option<Item>): seq<Item>
    requires WellFormed(log) && AllReadable(log) && size >= 1
    decreases |Earlier(log, target, before)|
  {
    var page := PageBefore(log, target, size, before);
    if page == [] then [] else page + AllPages(log, target, size, Some(page[|page| - 1]))
  }

  lemma AllPagesStep(log: Log, target: string, size: nat, before: Option<Item>, page: seq<Item>)
    requires WellFormed(log) && AllReadable(log) && size >= 1
    requires page == PageBefore(log, target, size, before) && page != []
    ensures AllPages(log, target, size, before) == page + AllPages(log, target, size, Some(page[|page| - 1]))
  {
  }

  lemma ItemsConcat(log: Log, whole: seq<Rec>, a: seq<Rec>, b: seq<Rec>)
    requires AllReadable(log) && whole == a + b
    requires forall i :: 0 <= i < |whole| ==> whole[i] in log
    ensures (forall i :: 0 <= i < |a| ==> a[i] in log) && (forall i :: 0 <= i < |b| ==> b[i] in log)
    ensures ItemsOf(log, whole) == ItemsOf(log, a) + ItemsOf(log, b)
  {
    assert forall i :: 0 <= i < |a| ==> a[i] == whole[i];
    assert forall i :: 0 <= i < |b| ==> b[i] == whole[|a| + i];
  }

  lemma ReverseSplits(all: seq<Rec>, m: nat)
    requires m <= |all|
    ensures Reverse(all) == Reverse(all)[..m] + Reverse(all[..|all| - m])
  {
    var early, late := all[..|all| - m], all[|all| - m..];
    assert all == early + late;
    ReverseConcat(early, late);
  }

  lemma PageAndRest(log: Log, all: seq<Rec>, m: nat)
    requires AllReadable(log) && m <= |all| && forall i :: 0 <= i < |all| ==> all[i] in log
    ensures ItemsOf(log, Reverse(all)) == ItemsOf(log, Reverse(all)[..m]) + ItemsOf(log, Reverse(all[..|all| - m]))
  {
    ReverseSplits(all, m);
    ItemsConcat(log, Reverse(all), Reverse(all)[..m], Reverse(all[..|all| - m]));
  }

  /** What is still to be paged, newest first. */
  ghost function Remaining(log: Log, target: string, before: Option<Item>): seq<Item>
    requires AllReadable(log)
  {
    EarlierKnown(log, target, before);
    ItemsOf(log, Reverse(Earlier(log, target, before)))
  }

  /** A page is the front of what remains, and paging on from its oldest item meets the rest. */
  lemma RemainingSplits(log: Log, target: string, size: nat, before: Option<Item>)
    requires WellFormed(log) && AllReadable(log) && size >= 1 && Earlier(log, target, before) != []
    ensures var page := PageBefore(log, target, size, before);
            page != [] && Remaining(log, target, before) == page + Remaining(log, target, Some(page[|page| - 1]))
  {
    var all, page := Earlier(log, target, before), PageBefore(log, target, size, before);
    EarlierKnown(log, target, before);
    LastOfPage(log, all, |page|, page);
    EarlierThan(log, target, before, all, |all| - |page|, page[|page| - 1]);
    RemainingDivides(log, target, before, Some(page[|page| - 1]), all, |page|, page);
  }

  lemma RemainingDivides(log: Log, target: string, before: Option<Item>, next: Option<Item>, all: seq<Rec>, m: nat,
                         page: seq<Item>)
    requires AllReadable(log) && all == Earlier(log, target, before) && m <= |all|
    requires (forall i :: 0 <= i < |all| ==> all[i] in log) && page == ItemsOf(log, Reverse(all)[..m])
    requires Earlier(log, target, next) == all[..|all| - m]
    ensures Remaining(log, target, before) == page + Remaining(log, target, next)
  {
    PageAndRest(log, all, m);
  }

  /**
   Paging backwards with any page size lists every item of the target before the starting point exactly once, newest
   first, also where timestamps are equal.
   */
  lemma {:induction false} PagesListEverything(log: Log, target: string, size: nat, before: Option<Item>)
    requires WellFormed(log) && AllReadable(log) && size >= 1
    ensures AllPages(log, target, size, before) == Remaining(log, target, before)
    decreases |Earlier(log, target, before)|
  {
    var page := PageBefore(log, target, size, before);
    if page != [] {
      RemainingSplits(log, target, size, before);
      PagesListEverything(log, target, size, Some(page[|page| - 1]));
      AllPagesStep(log, target, size, before, page);
    } else {
      assert Earlier(log, target, before) == [];
    }
  }
}
