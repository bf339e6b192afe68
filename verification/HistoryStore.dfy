/**
 The history store (src/history/redb.rs) over its two tables, and the plain record log that it stands for.

 The database engine is a finite map from keys to rows whose range scans come in key order. The clock is a parameter, and
 pruning works out its cutoff from it.
 */
module HistoryStore {
  import opened Common
  import opened Order
  import opened Casemap
  import opened HistoryKeys
  import opened Arithmetic

  datatype Item =
    | Message(msgid: string, nanotime: I64, text: string)
    | Event(id: string, nanotime: I64, kind: string)

  function ItemId(item: Item): string {
    match item
    case Message(id, _, _) => id
    case Event(id, _, _) => id
  }

  /** What a row's bytes hold: a history item, a message in the older untagged format, or neither. */
  datatype Row = Current(item: Item) | Legacy(msgid: string, nanotime: I64, text: string) | Corrupt

  function Decode(row: Row): Option<Item> {
    match row
    case Current(item) => Some(item)
    case Legacy(id, time, text) => Some(Message(id, time, text))
    case Corrupt => None
  }

  datatype HistoryError = Serialization

  datatype Query = Query(
    target: string,
    start: Option<I64>,
    end: Option<I64>,
    startId: Option<string>,
    endId: Option<string>,
    limit: nat,
    reverse: bool)

  // ---------- The record log ----------

  type Log = map<Rec, Row>

  ghost predicate WellFormed(log: Log) {
    forall r :: r in log ==>
      && NulFree(r.target)
      && (Decode(log[r]).Some? ==> ItemId(Decode(log[r]).value) == r.id && Decode(log[r]).value.nanotime == r.time)
  }

  /** The inclusive start of a query; without a start time the id is ignored and time zero is meant. */
  function StartBound(q: Query): Rec {
    match q.start
    case None => Rec(ToLower(q.target), 0, "")
    case Some(ts) => Rec(ToLower(q.target), ts, if q.startId.Some? then q.startId.value else "")
  }

  /** The exclusive end of a query; without an end time the largest timestamp is meant. */
  function EndBound(q: Query): Rec {
    match q.end
    case None => Rec(ToLower(q.target), I64_MAX, "")
    case Some(ts) => Rec(ToLower(q.target), ts, if q.endId.Some? then q.endId.value else "")
  }

  /** The records of the queried target from the start bound up to, and without, the end bound. */
  ghost function Matching(recs: set<Rec>, q: Query): set<Rec> {
    set r | r in recs && r.target == ToLower(q.target) && !RecLess(r, StartBound(q)) && RecLess(r, EndBound(q))
  }

  /** The records in order; there is exactly one such sequence. */
  ghost function InOrder(recs: set<Rec>): (r: seq<Rec>)
    ensures Ascending(RecLess, r) && Elements(r) == recs && |r| == |recs|
  {
    OrderExists(recs);
    var r :| Ascending(RecLess, r) && Elements(r) == recs && |r| == |recs|;
    r
  }

  lemma OrderExists(recs: set<Rec>)
    ensures exists r :: Ascending(RecLess, r) && Elements(r) == recs && |r| == |recs|
  {
    RecLessStrictTotal();
    var r := Enumerate(RecLess, recs);
  }

  /** The first `limit` of the sequence, or, reversed, its last `limit` from the end. */
  function Page<T>(s: seq<T>, limit: nat, reverse: bool): seq<T> {
    (if reverse then Reverse(s) else s)[..Min(limit, |s|)]
  }

  /** Decodes rows in turn; one undecodable row spoils the whole answer. */
  function DecodeRows(rows: seq<Row>): Result<seq<Item>, HistoryError> {
    if rows == [] then Ok([])
    else
      match DecodeRows(rows[..|rows| - 1])
      case Err(e) => Err(e)
      case Ok(items) =>
        match Decode(rows[|rows| - 1])
        case None => Err(Serialization)
        case Some(item) => Ok(items + [item])
  }

  lemma {:induction false} DecodeRowsMeaning(rows: seq<Row>)
    ensures DecodeRows(rows).Ok? <==> forall i :: 0 <= i < |rows| ==> Decode(rows[i]).Some?
    ensures DecodeRows(rows).Ok? ==>
              && |DecodeRows(rows).value| == |rows|
              && forall i :: 0 <= i < |rows| ==> Decode(rows[i]) == Some(DecodeRows(rows).value[i])
    ensures DecodeRows(rows).Err? ==> DecodeRows(rows) == Err(Serialization)
  {
    if rows != [] {
      DecodeRowsMeaning(rows[..|rows| - 1]);
      assert forall i :: 0 <= i < |rows| - 1 ==> rows[..|rows| - 1][i] == rows[i];
    }
  }

  ghost function RowsOf(log: Log, rs: seq<Rec>): (rows: seq<Row>)
    requires forall i :: 0 <= i < |rs| ==> rs[i] in log
    ensures |rows| == |rs| && forall i :: 0 <= i < |rs| ==> rows[i] == log[rs[i]]
  {
    if rs == [] then [] else [log[rs[0]]] + RowsOf(log, rs[1..])
  }

  ghost function Selected(recs: set<Rec>, q: Query): (rs: seq<Rec>)
    ensures forall i :: 0 <= i < |rs| ==> rs[i] in recs
  {
    var all := InOrder(Matching(recs, q));
    assert forall i :: 0 <= i < |all| ==> all[i] in Elements(all);
    Page(all, q.limit, q.reverse)
  }

  /** What a query means: filter, sort, cut to the limit, decode. */
  ghost function Answer(log: Log, q: Query): Result<seq<Item>, HistoryError> {
    DecodeRows(RowsOf(log, Selected(log.Keys, q)))
  }

  // ---------- The table stands for the log ----------

  ghost predicate Keyed(log: Log, table: map<string, Row>) {
    && (forall r :: r in log ==> Key(r) in table && table[Key(r)] == log[r])
    && (forall k :: k in table ==> exists r :: r in log && Key(r) == k)
  }

  ghost function KeysIn(table: map<string, Row>, lo: string, hi: string): set<string> {
    set k | k in table && !Less(k, lo) && Less(k, hi)
  }

  /** A key range between two bounds of one target holds exactly the keys of the records between them. */
  lemma RangeHoldsMatches(log: Log, table: map<string, Row>, q: Query, r: Rec)
    requires WellFormed(log) && Keyed(log, table) && NulFree(q.target) && r in log
    ensures Key(r) in KeysIn(table, Key(StartBound(q)), Key(EndBound(q))) <==> r in Matching(log.Keys, q)
  {
    LowerNulFree(q.target);
    var lo, hi := StartBound(q), EndBound(q);
    KeyOrder(r, lo);
    KeyOrder(r, hi);
    RecLessStrictTotal();
    LessStrictTotal();
    if r.target != lo.target {
      assert RecLess(r, lo) || RecLess(hi, r);
    }
  }

  ghost function KeysOf(rs: seq<Rec>): (ks: seq<string>)
    ensures |ks| == |rs| && forall i :: 0 <= i < |rs| ==> ks[i] == Key(rs[i])
  {
    seq(|rs|, i requires 0 <= i < |rs| => Key(rs[i]))
  }

  lemma KeysAscend(rs: seq<Rec>)
    requires Ascending(RecLess, rs) && forall i :: 0 <= i < |rs| ==> NulFree(rs[i].target)
    ensures Ascending(Less, KeysOf(rs))
  {
    forall i, j | 0 <= i < j < |rs|
      ensures Less(Key(rs[i]), Key(rs[j]))
    {
      KeyOrder(rs[i], rs[j]);
    }
  }

  lemma KeysOfElements(rs: seq<Rec>, k: string)
    ensures k in Elements(KeysOf(rs)) <==> exists r :: r in Elements(rs) && Key(r) == k
  {
    if k in Elements(KeysOf(rs)) {
      var i :| 0 <= i < |rs| && KeysOf(rs)[i] == k;
      assert rs[i] in Elements(rs);
    }
    if r :| r in Elements(rs) && Key(r) == k {
      var i :| 0 <= i < |rs| && rs[i] == r;
      assert KeysOf(rs)[i] == k;
    }
  }

  lemma RangeHoldsKeys(log: Log, table: map<string, Row>, q: Query, k: string)
    requires WellFormed(log) && Keyed(log, table) && NulFree(q.target)
    ensures k in KeysIn(table, Key(StartBound(q)), Key(EndBound(q)))
        <==> exists r :: r in Matching(log.Keys, q) && Key(r) == k
  {
    if k in table {
      var r :| r in log && Key(r) == k;
      RangeHoldsMatches(log, table, q, r);
    }
    if r :| r in Matching(log.Keys, q) && Key(r) == k {
      RangeHoldsMatches(log, table, q, r);
    }
  }

  lemma SameKeysSameScan(a: seq<string>, b: seq<string>)
    requires Ascending(Less, a) && Ascending(Less, b) && Elements(a) == Elements(b)
    ensures a == b
  {
    LessStrictTotal();
    AscendingUnique(Less, a, b);
  }

  lemma MatchesNulFree(log: Log, q: Query, rs: seq<Rec>)
    requires WellFormed(log) && Elements(rs) == Matching(log.Keys, q)
    ensures forall i :: 0 <= i < |rs| ==> NulFree(rs[i].target)
  {
    assert forall i :: 0 <= i < |rs| ==> rs[i] in Elements(rs);
  }

  /** An ascending scan of the range lists the keys of the matching records in record order. */
  lemma ScanIsInOrder(log: Log, table: map<string, Row>, q: Query, keys: seq<string>)
    requires WellFormed(log) && Keyed(log, table) && NulFree(q.target)
    requires Ascending(Less, keys) && Elements(keys) == KeysIn(table, Key(StartBound(q)), Key(EndBound(q)))
    ensures keys == KeysOf(InOrder(Matching(log.Keys, q)))
  {
    var rs := InOrder(Matching(log.Keys, q));
    MatchesNulFree(log, q, rs);
    KeysAscend(rs);
    forall k
      ensures k in Elements(keys) <==> k in Elements(KeysOf(rs))
    {
      RangeHoldsKeys(log, table, q, k);
      KeysOfElements(rs, k);
    }
    SameKeysSameScan(keys, KeysOf(rs));
  }

  // ---------- The engine ----------

  /** The keys from `lo` up to, and without, `hi`, in key order; empty when the bounds cross. */
  method ScanRange(table: map<string, Row>, lo: string, hi: string) returns (keys: seq<string>)
    ensures Ascending(Less, keys)
    ensures Elements(keys) == KeysIn(table, lo, hi)
  {
    LessStrictTotal();
    keys := [];
    var rest := set k | k in table && !Less(k, lo) && Less(k, hi);
    while rest != {}
      invariant rest <= KeysIn(table, lo, hi)
      invariant Elements(keys) == KeysIn(table, lo, hi) - rest
      invariant Ascending(Less, keys)
      invariant forall i, k :: 0 <= i < |keys| && k in rest ==> Less(keys[i], k)
      decreases rest
    {
      LeastExists(Less, rest);
      var k :| k in rest && forall x :: x in rest ==> x == k || Less(k, x);
      AppendLeast(Less, keys, rest, k);
      keys := keys + [k];
      rest := rest - {k};
    }
  }

  lemma KeysEqualIff(log: Log, r: Rec)
    requires WellFormed(log) && NulFree(r.target)
    ensures forall x :: x in log ==> (Key(x) == Key(r) <==> x == r)
  {
    forall x | x in log
      ensures Key(x) == Key(r) <==> x == r
    {
      KeyOrder(x, r);
    }
  }

  ghost predicate KeyedBy(key: Rec -> string, log: Log, table: map<string, Row>) {
    && (forall r :: r in log ==> key(r) in table && table[key(r)] == log[r])
    && (forall k :: k in table ==> exists r :: r in log && key(r) == k)
  }

  /** A record under a key that no other record has. */
  lemma InsertKeyed(key: Rec -> string, log: Log, table: map<string, Row>, r: Rec, row: Row)
    requires KeyedBy(key, log, table) && forall x :: x in log ==> (key(x) == key(r) <==> x == r)
    ensures KeyedBy(key, log[r := row], table[key(r) := row])
  {
  }

  lemma KeyedInsert(log: Log, table: map<string, Row>, r: Rec, row: Row)
    requires WellFormed(log) && Keyed(log, table) && NulFree(r.target)
    ensures Keyed(log[r := row], table[Key(r) := row])
  {
    KeysEqualIff(log, r);
    InsertKeyed(Key, log, table, r, row);
  }

  // ---------- Message ids ----------

  /** The target, as given, and the time that an id was last stored with. */
  datatype Stamp = Stamp(target: string, time: I64)

  ghost predicate Indexed(stamps: map<string, Stamp>, index: map<string, string>) {
    && index.Keys == stamps.Keys
    && forall id :: id in index ==> NulFree(stamps[id].target) && index[id] == IndexValue(stamps[id].target, stamps[id].time)
  }

  ghost predicate IdsResolve(log: Log, stamps: map<string, Stamp>) {
    forall r :: r in log ==> r.id in stamps && stamps[r.id].time == r.time
  }

  /** Storing keeps ids resolvable exactly when the id is not already on a remaining row of a different time. */
  lemma StoreKeepsIdsIff(log: Log, stamps: map<string, Stamp>, r: Rec, row: Row, target: string)
    requires IdsResolve(log, stamps)
    ensures IdsResolve(log[r := row], stamps[r.id := Stamp(target, r.time)])
        <==> forall x :: x in log && x.id == r.id ==> x.time == r.time
  {
    forall x | x in log
      ensures x in log[r := row]
    {
    }
  }

  // ---------- The provider ----------

  /** The log without the rows older than the cutoff. */
  ghost function Pruned(log: Log, cutoff: int): Log {
    map r | r in log && r.time >= cutoff :: log[r]
  }

  /** The cast to i64 keeps the low 64 bits. */
  function AsI64(n: int): I64 {
    var low := n % 0x1_0000_0000_0000_0000;
    if low <= I64_MAX then low else low - 0x1_0000_0000_0000_0000
  }

  /** The retention time in nanoseconds is cast, and the subtraction wraps. */
  function Cutoff(now: I64, retention: nat): I64 {
    AsI64(now - AsI64(retention))
  }

  /** The cutoff is the age meant exactly while that is a 64-bit time. */
  lemma CutoffIsAgeIff(now: I64, retention: nat)
    ensures Cutoff(now, retention) == now - retention <==> I64_MIN <= now - retention
  {
    var wraps := retention / 0x1_0000_0000_0000_0000;
    assert exists k: int :: AsI64(retention) == retention + k * 0x1_0000_0000_0000_0000 by {
      var k := if retention % 0x1_0000_0000_0000_0000 <= I64_MAX then -wraps else -wraps - 1;
      assert AsI64(retention) == retention + k * 0x1_0000_0000_0000_0000;
    }
    var k: int :| AsI64(retention) == retention + k * 0x1_0000_0000_0000_0000;
    SameLowBits(now - retention, -k);
  }

  lemma SameLowBits(n: int, k: int)
    ensures AsI64(n + k * 0x1_0000_0000_0000_0000) == AsI64(n)
    ensures AsI64(n) == n <==> I64_MIN <= n <= I64_MAX
  {
    var q, r := n / 0x1_0000_0000_0000_0000, n % 0x1_0000_0000_0000_0000;
    DivModUnique(n + k * 0x1_0000_0000_0000_0000, 0x1_0000_0000_0000_0000, q + k, r);
  }

  ghost predicate IsExpired(log: Log, cutoff: int, k: string) {
    exists r :: r in log && r.time < cutoff && Key(r) == k
  }

  ghost predicate AreExpired(log: Log, cutoff: int, keys: set<string>) {
    forall k :: k in keys <==> IsExpired(log, cutoff, k)
  }

  lemma TimeFieldsExpire(log: Log, table: map<string, Row>, cutoff: int, keys: set<string>)
    requires WellFormed(log) && Keyed(log, table)
    requires keys == set k | k in table && TimeField(k).Some? && TimeField(k).value < cutoff
    ensures AreExpired(log, cutoff, keys)
  {
    forall r | r in log
      ensures TimeField(Key(r)) == Some(r.time)
    {
      KeyFields(r);
    }
  }

  /** Removing the expired keys from the table removes exactly the expired records from the log. */
  lemma PruneKeeps(log: Log, table: map<string, Row>, cutoff: int, expired: set<string>)
    requires WellFormed(log) && Keyed(log, table) && AreExpired(log, cutoff, expired)
    ensures WellFormed(Pruned(log, cutoff)) && Keyed(Pruned(log, cutoff), table - expired)
  {
    forall r | r in Pruned(log, cutoff)
      ensures Key(r) !in expired
    {
      if IsExpired(log, cutoff, Key(r)) {
        var x :| x in log && x.time < cutoff && Key(x) == Key(r);
        KeyOrder(x, r);
      }
    }
    forall k | k in table - expired
      ensures exists r :: r in Pruned(log, cutoff) && Key(r) == k
    {
      var r :| r in log && Key(r) == k;
      assert r.time < cutoff ==> IsExpired(log, cutoff, k);
    }
  }

  lemma ExpiredAre(log: Log, table: map<string, Row>, cutoff: int, expired: set<string>)
    requires WellFormed(log) && Keyed(log, table)
    requires expired == set k | k in table && TimeField(k).Some? && TimeField(k).value < cutoff
    ensures WellFormed(Pruned(log, cutoff)) && Keyed(Pruned(log, cutoff), table - expired)
    ensures |expired| == |log| - |Pruned(log, cutoff)|
  {
    TimeFieldsExpire(log, table, cutoff, expired);
    PruneKeeps(log, table, cutoff, expired);
    PruneCount(log, cutoff, expired);
  }

  /** Distinct records have distinct keys, so there are as many keys as records. */
  lemma {:induction false} KeyCount(recs: set<Rec>, keys: set<string>)
    requires forall r :: r in recs ==> NulFree(r.target) && Key(r) in keys
    requires forall k :: k in keys ==> exists r :: r in recs && Key(r) == k
    ensures |keys| == |recs|
    decreases |recs|
  {
    if recs == {} {
      assert keys == {};
    } else {
      var r :| r in recs;
      forall x | x in recs - {r}
        ensures Key(x) != Key(r)
      {
        KeyOrder(x, r);
      }
      KeyCount(recs - {r}, keys - {Key(r)});
    }
  }

  lemma PruneCount(log: Log, cutoff: int, expired: set<string>)
    requires WellFormed(log) && AreExpired(log, cutoff, expired)
    ensures |expired| == |log| - |Pruned(log, cutoff)|
  {
    var recs := set r | r in log && r.time < cutoff;
    forall k | k in expired
      ensures exists r :: r in recs && Key(r) == k
    {
      assert IsExpired(log, cutoff, k);
    }
    forall r | r in recs
      ensures Key(r) in expired
    {
      assert IsExpired(log, cutoff, Key(r));
    }
    KeyCount(recs, expired);
    assert log.Keys == Pruned(log, cutoff).Keys + recs;
  }

  lemma PageOfKeys(rs: seq<Rec>, limit: nat, reverse: bool)
    ensures Page(KeysOf(rs), limit, reverse) == KeysOf(Page(rs, limit, reverse))
  {
  }

  function RowsAt(table: map<string, Row>, keys: seq<string>): (rows: seq<Row>)
    requires forall i :: 0 <= i < |keys| ==> keys[i] in table
    ensures |rows| == |keys| && forall i :: 0 <= i < |keys| ==> rows[i] == table[keys[i]]
  {
    if keys == [] then [] else [table[keys[0]]] + RowsAt(table, keys[1..])
  }

  /** Reading the rows of the keys of some records is reading the rows of those records. */
  lemma KeyedRows(log: Log, table: map<string, Row>, rs: seq<Rec>)
    requires Keyed(log, table) && forall i :: 0 <= i < |rs| ==> rs[i] in log
    ensures forall i :: 0 <= i < |rs| ==> KeysOf(rs)[i] in table
    ensures RowsAt(table, KeysOf(rs)) == RowsOf(log, rs)
  {
  }

  lemma InOrderMembers(recs: set<Rec>)
    ensures forall i :: 0 <= i < |InOrder(recs)| ==> InOrder(recs)[i] in recs
  {
    assert forall i :: 0 <= i < |InOrder(recs)| ==> InOrder(recs)[i] in Elements(InOrder(recs));
  }

  lemma AnswerFromScan(log: Log, table: map<string, Row>, q: Query, keys: seq<string>)
    requires WellFormed(log) && Keyed(log, table) && NulFree(q.target)
    requires Ascending(Less, keys) && Elements(keys) == KeysIn(table, Key(StartBound(q)), Key(EndBound(q)))
    ensures forall i :: 0 <= i < |keys| ==> keys[i] in table
    ensures DecodeRows(RowsAt(table, Page(keys, q.limit, q.reverse))) == Answer(log, q)
  {
    ScanIsInOrder(log, table, q, keys);
    InOrderMembers(Matching(log.Keys, q));
    KeyedRows(log, table, InOrder(Matching(log.Keys, q)));
    PageOfKeys(InOrder(Matching(log.Keys, q)), q.limit, q.reverse);
    KeyedRows(log, table, Selected(log.Keys, q));
  }

  /** Scans all keys for timestamps before the cutoff; keys that hold none are kept. */
  method CollectExpired(table: map<string, Row>, cutoff: int) returns (expired: set<string>)
    ensures expired == set k | k in table && TimeField(k).Some? && TimeField(k).value < cutoff
  {
    expired := {};
    var rest := table.Keys;
    while rest != {}
      invariant rest <= table.Keys
      invariant expired == set k | k in table && k !in rest && TimeField(k).Some? && TimeField(k).value < cutoff
      decreases rest
    {
      var k :| k in rest;
      rest := rest - {k};
      var ts := TimeField(k);
      if ts.Some? && ts.value < cutoff {
        expired := expired + {k};
      }
    }
  }

  class RedbProvider {
    var table: map<string, Row>
    var index: map<string, string>
    ghost var log: Log
    ghost var stamps: map<string, Stamp>

    ghost predicate Valid()
      reads this
    {
      WellFormed(log) && Keyed(log, table) && Indexed(stamps, index)
    }

    constructor ()
      ensures Valid() && log == map[] && stamps == map[]
    {
      table, index := map[], map[];
      log, stamps := map[], map[];
    }

    method StoreItem(target: string, item: Item)
      requires Valid() && NulFree(target)
      modifies this
      ensures Valid()
      ensures log == old(log)[Rec(ToLower(target), item.nanotime, ItemId(item)) := Current(item)]
      ensures stamps == old(stamps)[ItemId(item) := Stamp(target, item.nanotime)]
    {
      var key := MakeKey(target, item.nanotime, ItemId(item));
      ghost var r := Rec(ToLower(target), item.nanotime, ItemId(item));
      LowerNulFree(target);
      KeyedInsert(log, table, r, Current(item));
      table := table[key := Current(item)];
      index := index[ItemId(item) := IndexValue(target, item.nanotime)];
      log := log[r := Current(item)];
      stamps := stamps[ItemId(item) := Stamp(target, item.nanotime)];
    }

    method RunQuery(q: Query) returns (answer: Result<seq<Item>, HistoryError>)
      requires Valid() && NulFree(q.target)
      ensures answer == Answer(log, q)
    {
      var range := ScanRange(table, Key(StartBound(q)), Key(EndBound(q)));
      AnswerFromScan(log, table, q, range);
      if q.reverse {
        range := Reverse(range);
      }
      answer := ReadRows(range, q.limit);
    }

    /** Decodes the rows of a scan one by one until the limit is reached or a row cannot be read. */
    method ReadRows(range: seq<string>, limit: nat) returns (answer: Result<seq<Item>, HistoryError>)
      requires forall i :: 0 <= i < |range| ==> range[i] in table
      ensures answer == DecodeRows(RowsAt(table, range[..Min(limit, |range|)]))
    {
      var messages: seq<Item> := [];
      var i := 0;
      while i < |range|
        invariant 0 <= i <= |range| && i == |messages| && i <= limit
        invariant DecodeRows(RowsAt(table, range[..i])) == Ok(messages)
      {
        if |messages| >= limit {
          break;
        }
        var item := Decode(table[range[i]]);
        if item.None? {
          DecodeRowsMeaning(RowsAt(table, range[..Min(limit, |range|)]));
          assert Decode(RowsAt(table, range[..Min(limit, |range|)])[i]).None?;
          return Err(Serialization);
        }
        assert RowsAt(table, range[..i + 1])[..i] == RowsAt(table, range[..i]);
        messages := messages + [item.value];
        i := i + 1;
      }
      assert i == Min(limit, |range|);
      return Ok(messages);
    }

    /** Removes the rows whose key holds a timestamp before the cutoff, and returns how many there were. */
    method Prune(cutoff: int) returns (count: nat)
      requires Valid()
      modifies this`table, this`log
      ensures Valid()
      ensures log == Pruned(old(log), cutoff)
      ensures count == |old(log)| - |log|
    {
      count := PruneTable(cutoff);
      Relabel(Pruned(log, cutoff));
    }

    /** Pruning by age: the cutoff is the clock less the retention time, in 64-bit arithmetic. */
    method PruneOlder(now: I64, retention: nat) returns (count: nat)
      requires Valid()
      modifies this`table, this`log
      ensures Valid()
      ensures log == Pruned(old(log), Cutoff(now, retention))
      ensures count == |old(log)| - |log|
    {
      count := Prune(Cutoff(now, retention));
    }

    ghost method Relabel(next: Log)
      requires WellFormed(next) && Keyed(next, table) && Indexed(stamps, index)
      modifies this`log
      ensures Valid() && log == next
    {
      log := next;
    }

    method PruneTable(cutoff: int) returns (count: nat)
      requires Valid()
      modifies this`table
      ensures WellFormed(Pruned(log, cutoff)) && Keyed(Pruned(log, cutoff), table) && Indexed(stamps, index)
      ensures count == |log| - |Pruned(log, cutoff)|
    {
      var toDelete := CollectExpired(table, cutoff);
      ExpiredAre(log, table, cutoff, toDelete);
      count := DeleteRows(toDelete);
    }

    method DeleteRows(keys: set<string>) returns (count: nat)
      modifies this`table
      ensures table == old(table) - keys
      ensures count == |keys|
    {
      count := 0;
      var rest := keys;
      while rest != {}
        invariant rest <= keys && count + |rest| == |keys|
        invariant table == old(table) - (keys - rest)
        decreases rest
      {
        var k :| k in rest;
        assert keys - (rest - {k}) == (keys - rest) + {k};
        rest := rest - {k};
        table := table - {k};
        count := count + 1;
      }
      assert keys - rest == keys;
    }

    method LookupTimestamp(msgid: string) returns (time: Option<I64>)
      requires Valid()
      ensures time == if msgid in stamps then Some(stamps[msgid].time) else None
    {
      time := None;
      if msgid in index {
        IndexValueField(stamps[msgid].target, stamps[msgid].time);
        time := TimeField(index[msgid]);
      }
    }
  }
}
