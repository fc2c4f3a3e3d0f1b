/** The buyer's audit log (ignite-pay-mcp/src/audit.rs): entries under textual time keys, and a
    reverse scan with early exits. */
module AuditQuery {
  import opened Bytes
  import opened OrderedTree
  import opened Permutations

  datatype AuditEntry = AuditEntry(
    ts: i64, event: string, paymentId: Option<string>, merchantDid: Option<string>, amount: Option<u64>,
    listType: Option<string>, action: Option<string>, did: Option<string>, extra: string)

  type Entries = seq<Item<AuditEntry>>

  const UUID_LENGTH: int := 36

  /** The decimal timestamp, a colon, a random identifier. */
  function KeyOf(ts: i64, uuid: bytes): bytes
  {
    SignedDecimal(ts) + [COLON] + uuid
  }

  ghost predicate IsKeyOf(key: bytes, ts: i64)
  {
    exists uuid: bytes :: |uuid| == UUID_LENGTH && key == KeyOf(ts, uuid)
  }

  ghost predicate Consistent(items: Entries)
  {
    && InKeyOrder(items)
    && forall i :: 0 <= i < |items| ==> IsKeyOf(items[i].key, items[i].value.ts)
  }

  // ----- The scan and its specification -----

  /** The reverse scan: stops at the limit and at the first entry older than the range. */
  function ScanBack(items: Entries, fromTs: i64, toTs: i64, limit: nat): seq<AuditEntry>
  {
    if limit == 0 || items == [] then []
    else
      var (init, last) := (items[..|items| - 1], items[|items| - 1].value);
      if last.ts < fromTs then []
      else if last.ts <= toTs then [last] + ScanBack(init, fromTs, toTs, limit - 1)
      else ScanBack(init, fromTs, toTs, limit)
  }

  /** Reference definition: all entries of the range, in descending key order. */
  function InRange(items: Entries, fromTs: i64, toTs: i64): seq<AuditEntry>
  {
    if items == [] then []
    else
      var last := items[|items| - 1].value;
      (if fromTs <= last.ts <= toTs then [last] else []) + InRange(items[..|items| - 1], fromTs, toTs)
  }

  function Take<T>(s: seq<T>, n: nat): seq<T>
  {
    if |s| <= n then s else s[..n]
  }

  /** The promise of the query: up to `limit` entries of the range, last keys first. */
  ghost predicate Answers(items: Entries, fromTs: i64, toTs: i64, limit: nat)
  {
    ScanBack(items, fromTs, toTs, limit) == Take(InRange(items, fromTs, toTs), limit)
  }

  ghost predicate NewestFirst(entries: seq<AuditEntry>)
  {
    forall i, j :: 0 <= i < j < |entries| ==> entries[i].ts >= entries[j].ts
  }

  ghost predicate TimesAscend(items: Entries)
  {
    forall i, j :: 0 <= i < j < |items| ==> items[i].value.ts <= items[j].value.ts
  }

  lemma {:induction false} NothingOlder(items: Entries, fromTs: i64, toTs: i64)
    requires forall i :: 0 <= i < |items| ==> items[i].value.ts < fromTs
    ensures InRange(items, fromTs, toTs) == []
  {
    if items != [] { NothingOlder(items[..|items| - 1], fromTs, toTs); }
  }

  lemma {:induction false} AscendingAnswers(items: Entries, fromTs: i64, toTs: i64, limit: nat)
    requires TimesAscend(items)
    ensures Answers(items, fromTs, toTs, limit)
  {
    if items != [] && limit > 0 {
      var init, last := items[..|items| - 1], items[|items| - 1].value;
      if last.ts < fromTs {
        NothingOlder(items, fromTs, toTs);
      } else if last.ts <= toTs {
        AscendingAnswers(init, fromTs, toTs, limit - 1);
        assert InRange(items, fromTs, toTs)[1..] == InRange(init, fromTs, toTs);
      } else {
        AscendingAnswers(init, fromTs, toTs, limit);
      }
    }
  }

  lemma {:induction false} ScanStopsEarly(items: Entries, ts: i64, limit: nat, j: nat)
    requires j < |items| && items[j].value.ts < ts
    ensures |ScanBack(items, ts, ts, limit)| <= |InRange(items[j..], ts, ts)|
  {
    if limit > 0 {
      var init, last := items[..|items| - 1], items[|items| - 1].value;
      TailInit(items, j);
      if j < |init| {
        ScanStopsEarly(init, ts, limit, j);
        if limit > 1 { ScanStopsEarly(init, ts, limit - 1, j); }
      }
    }
  }

  lemma {:induction false} RangeSplits(items: Entries, fromTs: i64, toTs: i64, j: nat)
    requires j <= |items|
    ensures |InRange(items, fromTs, toTs)| == |InRange(items[j..], fromTs, toTs)| + |InRange(items[..j], fromTs, toTs)|
  {
    if j == |items| {
      assert items[..j] == items;
    } else {
      var init := items[..|items| - 1];
      RangeSplits(init, fromTs, toTs, j);
      TailInit(items, j);
      assert init[..j] == items[..j];
    }
  }

  lemma {:induction false} RangeHolds(items: Entries, ts: i64, i: nat)
    requires i < |items| && items[i].value.ts == ts
    ensures |InRange(items, ts, ts)| >= 1
  {
    if i < |items| - 1 { RangeHolds(items[..|items| - 1], ts, i); }
  }

  /** An older entry behind a newer one hides it from the scan for exactly the newer one's time. */
  lemma InversionBreaksQuery(items: Entries, i: nat, j: nat)
    requires i < j < |items| && items[i].value.ts > items[j].value.ts
    ensures !Answers(items, items[i].value.ts, items[i].value.ts, |items|)
  {
    var ts := items[i].value.ts;
    ScanStopsEarly(items, ts, |items|, j);
    RangeSplits(items, ts, ts, j);
    RangeHolds(items[..j], ts, i);
    RangeIsShort(items, ts, ts);
  }

  lemma {:induction false} RangeIsShort(items: Entries, fromTs: i64, toTs: i64)
    ensures |InRange(items, fromTs, toTs)| <= |items|
  {
    if items != [] { RangeIsShort(items[..|items| - 1], fromTs, toTs); }
  }

  /** The query keeps its promise for every range and limit exactly when key order is time order. */
  lemma QueryCorrectIff(items: Entries)
    ensures (forall fromTs: i64, toTs: i64, limit: nat :: Answers(items, fromTs, toTs, limit)) <==> TimesAscend(items)
  {
    if TimesAscend(items) {
      forall fromTs: i64, toTs: i64, limit: nat
        ensures Answers(items, fromTs, toTs, limit)
      {
        AscendingAnswers(items, fromTs, toTs, limit);
      }
    } else {
      var i, j :| 0 <= i < j < |items| && items[i].value.ts > items[j].value.ts;
      InversionBreaksQuery(items, i, j);
    }
  }

  // ----- When key order is time order -----

  /** All times are written with the same number of digits and without a sign. */
  ghost predicate SameWidth(items: Entries)
  {
    && (forall i :: 0 <= i < |items| ==> items[i].value.ts >= 0)
    && forall i, j :: 0 <= i < |items| && 0 <= j < |items| ==>
                        |SignedDecimal(items[i].value.ts)| == |SignedDecimal(items[j].value.ts)|
  }

  lemma KeysOrderTimes(s: nat, t: nat, u: bytes, v: bytes)
    requires |Decimal(s)| == |Decimal(t)|
    requires Less(Decimal(s) + [COLON] + u, Decimal(t) + [COLON] + v)
    ensures s <= t
  {
    assert Decimal(s) + [COLON] + u == Decimal(s) + ([COLON] + u);
    assert Decimal(t) + [COLON] + v == Decimal(t) + ([COLON] + v);
    LessByPrefix(Decimal(s), Decimal(t), [COLON] + u, [COLON] + v);
    DecimalOrder(s, t);
  }

  lemma SameWidthAscends(items: Entries)
    requires Consistent(items) && SameWidth(items)
    ensures TimesAscend(items)
  {
    forall i, j | 0 <= i < j < |items|
      ensures items[i].value.ts <= items[j].value.ts
    {
      var (s, t) := (items[i].value.ts, items[j].value.ts);
      var u: bytes :| |u| == UUID_LENGTH && items[i].key == KeyOf(s, u);
      var v: bytes :| |v| == UUID_LENGTH && items[j].key == KeyOf(t, v);
      KeysOrderTimes(s, t, u, v);
    }
  }

  /** Millisecond times from September 2001 to November 2286 all have thirteen digits. */
  lemma MillisecondWidth(ts: i64)
    requires 1_000_000_000_000 <= ts < 10_000_000_000_000
    ensures |SignedDecimal(ts)| == 13
  {
    var q := ts / 1_000_000;
    assert |Decimal(q)| == 7 by { SevenDigits(q); }
    assert q == ts / 10 / 10 / 10 / 10 / 10 / 10;
    assert |Decimal(ts / 10 / 10 / 10 / 10 / 10)| == 8;
    assert |Decimal(ts / 10 / 10 / 10 / 10)| == 9;
    assert |Decimal(ts / 10 / 10 / 10)| == 10;
    assert |Decimal(ts / 10 / 10)| == 11;
    assert |Decimal(ts / 10)| == 12;
  }

  lemma SevenDigits(q: nat)
    requires 1_000_000 <= q < 10_000_000
    ensures |Decimal(q)| == 7
  {
    assert 1 <= q / 10 / 10 / 10 / 10 / 10 / 10 < 10;
    assert |Decimal(q / 10 / 10 / 10 / 10 / 10)| == 2;
    assert |Decimal(q / 10 / 10 / 10 / 10)| == 3;
    assert |Decimal(q / 10 / 10 / 10)| == 4;
    assert |Decimal(q / 10 / 10)| == 5;
    assert |Decimal(q / 10)| == 6;
  }

  /** Correctness of the query on equally wide times, and what it means for a reader of the log. */
  lemma QueryCorrect(items: Entries, fromTs: i64, toTs: i64, limit: nat)
    requires Consistent(items) && SameWidth(items)
    ensures ScanBack(items, fromTs, toTs, limit) == Take(InRange(items, fromTs, toTs), limit)
    ensures NewestFirst(InRange(items, fromTs, toTs))
  {
    SameWidthAscends(items);
    AscendingAnswers(items, fromTs, toTs, limit);
    RangeDescends(items, fromTs, toTs);
  }

  lemma {:induction false} RangeDescends(items: Entries, fromTs: i64, toTs: i64)
    requires TimesAscend(items)
    ensures NewestFirst(InRange(items, fromTs, toTs))
  {
    if items != [] {
      var init, last := items[..|items| - 1], items[|items| - 1].value;
      var rest := InRange(init, fromTs, toTs);
      RangeDescends(init, fromTs, toTs);
      RangeElements(init, fromTs, toTs, last.ts);
      if fromTs <= last.ts <= toTs {
        assert InRange(items, fromTs, toTs) == [last] + rest;
      } else {
        assert InRange(items, fromTs, toTs) == rest;
      }
    }
  }

  lemma {:induction false} RangeElements(items: Entries, fromTs: i64, toTs: i64, bound: i64)
    requires forall i :: 0 <= i < |items| ==> items[i].value.ts <= bound
    ensures forall i :: 0 <= i < |InRange(items, fromTs, toTs)| ==> InRange(items, fromTs, toTs)[i].ts <= bound
  {
    if items != [] { RangeElements(items[..|items| - 1], fromTs, toTs, bound); }
  }

  /** Two times of different width: the entry at 10 is stored before the one at 9 and the query misses it. */
  lemma DifferentWidthsBreakQuery(older: AuditEntry, newer: AuditEntry, u: bytes, v: bytes)
    requires older.ts == 9 && newer.ts == 10 && |u| == UUID_LENGTH && |v| == UUID_LENGTH
    ensures
      var items := Insert(Insert([], KeyOf(9, u), older), KeyOf(10, v), newer);
      !Answers(items, 10, 10, 2)
  {
    var (k, l) := (KeyOf(9, u), KeyOf(10, v));
    assert Decimal(1) == [49] && Decimal(10) == [49, 48] && Decimal(9) == [57];
    assert l[0] == 49 && k[0] == 57;
    var items := Insert(Insert([], k, older), l, newer);
    assert items == [Item(l, newer), Item(k, older)];
    InversionBreaksQuery(items, 0, 1);
  }

  // ----- From what was logged to what is answered -----

  /** An entry and the random identifier drawn for it. */
  datatype Logged = Logged(entry: AuditEntry, uuid: bytes)

  function LogKey(l: Logged): bytes
  {
    KeyOf(l.entry.ts, l.uuid)
  }

  /** The tree after everything was inserted, in order. */
  function StoreOf(log: seq<Logged>): Entries
  {
    if log == [] then []
    else
      var n := |log| - 1;
      Insert(StoreOf(log[..n]), LogKey(log[n]), log[n].entry)
  }

  /** The logged entries of the range, with their multiplicities. */
  function Selected(log: seq<Logged>, fromTs: i64, toTs: i64): multiset<AuditEntry>
  {
    if log == [] then multiset{}
    else
      var last := log[|log| - 1].entry;
      Selected(log[..|log| - 1], fromTs, toTs) + if fromTs <= last.ts <= toTs then multiset{last} else multiset{}
  }

  /** Times of one decimal width, and no two entries under one key. */
  ghost predicate ProperLog(log: seq<Logged>)
  {
    && (forall i :: 0 <= i < |log| ==> |log[i].uuid| == UUID_LENGTH && log[i].entry.ts >= 0)
    && (forall i, j :: 0 <= i < |log| && 0 <= j < |log| ==>
          |SignedDecimal(log[i].entry.ts)| == |SignedDecimal(log[j].entry.ts)|)
    && forall i, j :: 0 <= i < j < |log| ==> LogKey(log[i]) != LogKey(log[j])
  }

  /** Every stored item is that of a logged entry. */
  ghost predicate IsLogged(log: seq<Logged>, it: Item<AuditEntry>)
  {
    exists j :: 0 <= j < |log| && it == Item(LogKey(log[j]), log[j].entry)
  }

  lemma {:induction false} StoredWasLogged(log: seq<Logged>)
    ensures InKeyOrder(StoreOf(log))
    ensures forall i :: 0 <= i < |StoreOf(log)| ==> IsLogged(log, StoreOf(log)[i])
  {
    if log != [] {
      var n := |log| - 1;
      var (init, before, after) := (log[..n], StoreOf(log[..n]), StoreOf(log));
      StoredWasLogged(init);
      InsertKeepsOrder(before, LogKey(log[n]), log[n].entry);
      forall i | 0 <= i < |after| ensures IsLogged(log, after[i]) {
        if after[i] in before {
          assert IsLogged(init, after[i]);
          var j :| 0 <= j < n && after[i] == Item(LogKey(init[j]), init[j].entry);
          assert log[j] == init[j];
        } else {
          assert after[i] == Item(LogKey(log[n]), log[n].entry);
        }
      }
    }
  }

  lemma StoreIsProper(log: seq<Logged>)
    requires ProperLog(log)
    ensures Consistent(StoreOf(log)) && SameWidth(StoreOf(log))
  {
    var items := StoreOf(log);
    StoredWasLogged(log);
    forall i | 0 <= i < |items| ensures IsKeyOf(items[i].key, items[i].value.ts) && items[i].value.ts >= 0 {
      assert IsLogged(log, items[i]);
    }
    forall i, j | 0 <= i < |items| && 0 <= j < |items|
      ensures |SignedDecimal(items[i].value.ts)| == |SignedDecimal(items[j].value.ts)|
    {
      assert IsLogged(log, items[i]) && IsLogged(log, items[j]);
    }
  }

  lemma FreshKey(log: seq<Logged>)
    requires ProperLog(log) && log != []
    ensures ProperLog(log[..|log| - 1]) && !HasKey(StoreOf(log[..|log| - 1]), LogKey(log[|log| - 1]))
  {
    var n := |log| - 1;
    var before := StoreOf(log[..n]);
    StoredWasLogged(log[..n]);
    forall i | 0 <= i < |before| ensures before[i].key != LogKey(log[n]) {
      assert IsLogged(log[..n], before[i]);
    }
  }

  lemma RangeSnoc(items: Entries, it: Item<AuditEntry>, fromTs: i64, toTs: i64)
    ensures InRange(items + [it], fromTs, toTs)
         == (if fromTs <= it.value.ts <= toTs then [it.value] else []) + InRange(items, fromTs, toTs)
  {
    assert (items + [it])[..|items|] == items;
  }

  lemma {:induction false} RangeConcat(a: Entries, b: Entries, fromTs: i64, toTs: i64)
    ensures multiset(InRange(a + b, fromTs, toTs))
         == multiset(InRange(a, fromTs, toTs)) + multiset(InRange(b, fromTs, toTs))
  {
    if b == [] {
      assert a + b == a;
    } else {
      var init, it := b[..|b| - 1], b[|b| - 1];
      assert b == init + [it] && a + b == (a + init) + [it];
      RangeConcat(a, init, fromTs, toTs);
      RangeSnoc(a + init, it, fromTs, toTs);
      RangeSnoc(init, it, fromTs, toTs);
    }
  }

  lemma OneMoreInRange(a: Entries, it: Item<AuditEntry>, b: Entries, fromTs: i64, toTs: i64)
    ensures multiset(InRange(a + [it] + b, fromTs, toTs))
         == multiset(InRange(a + b, fromTs, toTs))
            + if fromTs <= it.value.ts <= toTs then multiset{it.value} else multiset{}
  {
    RangeConcat(a + [it], b, fromTs, toTs);
    RangeConcat(a, b, fromTs, toTs);
    RangeSnoc(a, it, fromTs, toTs);
  }

  lemma InsertSelects(items: Entries, key: bytes, entry: AuditEntry, fromTs: i64, toTs: i64)
    requires !HasKey(items, key)
    ensures multiset(InRange(Insert(items, key, entry), fromTs, toTs))
         == multiset(InRange(items, fromTs, toTs))
            + if fromTs <= entry.ts <= toTs then multiset{entry} else multiset{}
  {
    var k := InsertSplits(items, key, entry);
    OneMoreInRange(items[..k], Item(key, entry), items[k..], fromTs, toTs);
    assert items == items[..k] + items[k..];
  }

  lemma {:induction false} RangeIsSelected(log: seq<Logged>, fromTs: i64, toTs: i64)
    requires ProperLog(log)
    ensures multiset(InRange(StoreOf(log), fromTs, toTs)) == Selected(log, fromTs, toTs)
  {
    if log != [] {
      var n := |log| - 1;
      FreshKey(log);
      RangeIsSelected(log[..n], fromTs, toTs);
      InsertSelects(StoreOf(log[..n]), LogKey(log[n]), log[n].entry, fromTs, toTs);
    }
  }

  /** From the log to the answer: whatever entries were logged, with times of one decimal width and identifiers that
      did not repeat, the query returns the first `limit` of exactly the logged entries of the range, newest first. */
  lemma QueryAnswersLog(log: seq<Logged>, fromTs: i64, toTs: i64, limit: nat) returns (all: seq<AuditEntry>)
    requires ProperLog(log)
    ensures multiset(all) == Selected(log, fromTs, toTs) && NewestFirst(all)
    ensures ScanBack(StoreOf(log), fromTs, toTs, limit) == if |all| <= limit then all else all[..limit]
  {
    all := InRange(StoreOf(log), fromTs, toTs);
    StoreIsProper(log);
    QueryCorrect(StoreOf(log), fromTs, toTs, limit);
    RangeIsSelected(log, fromTs, toTs);
  }

  /** One round of the reverse loop, with `i` entries left. */
  lemma ScanStep(items: Entries, i: nat, fromTs: i64, toTs: i64, limit: nat)
    requires 0 < i <= |items|
    ensures
      var (now, entry) := (ScanBack(items[..i], fromTs, toTs, limit), items[i - 1].value);
      if limit == 0 || entry.ts < fromTs then now == []
      else if entry.ts <= toTs then now == [entry] + ScanBack(items[..i - 1], fromTs, toTs, limit - 1)
      else now == ScanBack(items[..i - 1], fromTs, toTs, limit)
  {
    assert items[..i][..i - 1] == items[..i - 1];
  }

  // ----- The store -----

  class AuditLogStore {
    const tree: Tree<AuditEntry>

    ghost predicate Valid()
      reads this, tree
    {
      tree.Valid() && Consistent(tree.items)
    }

    constructor ()
      ensures Valid() && tree.items == [] && fresh(tree)
    {
      tree := new Tree();
    }

    method InsertEntry(entry: AuditEntry, uuid: bytes)
      requires Valid() && |uuid| == UUID_LENGTH
      modifies tree
      ensures Valid() && tree.items == Insert(old(tree.items), KeyOf(entry.ts, uuid), entry)
    {
      assert IsKeyOf(KeyOf(entry.ts, uuid), entry.ts);
      tree.Put(KeyOf(entry.ts, uuid), entry);
    }

    method Query(fromTs: i64, toTs: i64, limit: nat) returns (results: seq<AuditEntry>)
      ensures results == ScanBack(tree.items, fromTs, toTs, limit)
    {
      results := [];
      var items := tree.items;
      var i := |items|;
      assert items[..i] == items;
      while i > 0
        invariant 0 <= i <= |items| && |results| <= limit
        invariant results + ScanBack(items[..i], fromTs, toTs, limit - |results|) == ScanBack(items, fromTs, toTs, limit)
      {
        ScanStep(items, i, fromTs, toTs, limit - |results|);
        if |results| >= limit {
          break;
        }
        var entry := items[i - 1].value;
        if entry.ts < fromTs {
          break;
        }
        if entry.ts <= toTs {
          AppendFirst(results, entry, ScanBack(items[..i - 1], fromTs, toTs, limit - |results| - 1));
          results := results + [entry];
        }
        i := i - 1;
      }
    }
  }
}
