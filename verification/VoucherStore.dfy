/** The off-chain voucher store (ignite-pay-mcp/src/voucher_store.rs). */
module VoucherStore {
  import opened Bytes
  import opened OrderedTree
  import opened StableSort

  datatype StoredVoucher = StoredVoucher(channelId: Digest, merchant: Digest, number: u64, amount: u64, buyerSig: bytes)

  type Entries = seq<Item<StoredVoucher>>

  /** channel id, then the sequence number in big-endian order. */
  function KeyOf(channelId: Digest, number: u64): (k: bytes)
    ensures |k| == 40
  {
    channelId + BE64(number)
  }

  /** The keys determine channel and number, and order the numbers of one channel. */
  lemma KeyOrder(c: Digest, m: u64, d: Digest, n: u64)
    ensures KeyOf(c, m) == KeyOf(d, n) <==> c == d && m == n
    ensures Less(KeyOf(c, m), KeyOf(d, n)) <==> Less(c, d) || (c == d && m < n)
  {
    LessByPrefix(c, d, BE64(m), BE64(n));
    BE64Order(m, n);
    assert KeyOf(c, m)[..32] == c && KeyOf(d, n)[..32] == d;
    assert KeyOf(c, m)[32..] == BE64(m) && KeyOf(d, n)[32..] == BE64(n);
  }

  /** Every voucher is stored under its own key, in key order. */
  ghost predicate Consistent(items: Entries)
  {
    && InKeyOrder(items)
    && forall i :: 0 <= i < |items| ==> items[i].key == KeyOf(items[i].value.channelId, items[i].value.number)
  }

  function Stored(items: Entries, v: StoredVoucher): Entries
  {
    Insert(items, KeyOf(v.channelId, v.number), v)
  }

  lemma StoredConsistent(items: Entries, v: StoredVoucher)
    requires Consistent(items)
    ensures Consistent(Stored(items, v))
  {
    InsertKeepsOrder(items, KeyOf(v.channelId, v.number), v);
  }

  function Values(items: Entries): seq<StoredVoucher>
  {
    if items == [] then [] else [items[0].value] + Values(items[1..])
  }

  /** Reference definition: the vouchers of one channel, in store order. */
  function OfChannel(items: Entries, channelId: Digest): seq<StoredVoucher>
  {
    if items == [] then []
    else (if items[0].value.channelId == channelId then [items[0].value] else []) + OfChannel(items[1..], channelId)
  }

  function NumberKey(v: StoredVoucher): int
  {
    v.number
  }

  /** The prefix scan finds exactly the channel's vouchers. */
  lemma {:induction false} ScanFindsChannel(items: Entries, channelId: Digest)
    requires Consistent(items)
    ensures Values(ScanPrefix(items, channelId)) == OfChannel(items, channelId)
  {
    if items != [] {
      ScanFindsChannel(items[1..], channelId);
      var it := items[0];
      assert it.key[..32] == it.value.channelId;
      var rest := ScanPrefix(items[1..], channelId);
      if channelId <= it.key {
        assert ([it] + rest)[1..] == rest;
      } else {
        assert [] + rest == rest;
      }
    }
  }

  lemma {:induction false} OfChannelElements(items: Entries, channelId: Digest, j: nat) returns (i: nat)
    requires j < |OfChannel(items, channelId)|
    ensures i < |items| && items[i].value == OfChannel(items, channelId)[j] && items[i].value.channelId == channelId
  {
    if items[0].value.channelId == channelId && j == 0 {
      i := 0;
    } else {
      i := OfChannelElements(items[1..], channelId, if items[0].value.channelId == channelId then j - 1 else j);
      i := i + 1;
    }
  }

  ghost predicate Ascending(vouchers: seq<StoredVoucher>)
  {
    forall i, k :: 0 <= i < k < |vouchers| ==> vouchers[i].number < vouchers[k].number
  }

  /** The numbers of one channel come out strictly increasing. */
  lemma {:induction false} OfChannelAscending(items: Entries, channelId: Digest)
    requires Consistent(items)
    ensures Ascending(OfChannel(items, channelId))
  {
    if items != [] {
      OfChannelAscending(items[1..], channelId);
      if items[0].value.channelId == channelId {
        LessIrreflexive(channelId);
        var rest := OfChannel(items[1..], channelId);
        forall k | 0 <= k < |rest|
          ensures items[0].value.number < rest[k].number
        {
          var i := OfChannelElements(items[1..], channelId, k);
          var next := items[i + 1];
          assert items[1..][i] == next && Less(items[0].key, next.key);
          KeyOrder(items[0].value.channelId, items[0].value.number, next.value.channelId, next.value.number);
        }
      }
    }
  }

  /** So the later sort changes nothing: the result is the channel's vouchers in ascending number. */
  lemma SortChangesNothing(items: Entries, channelId: Digest)
    requires Consistent(items)
    ensures SortBy(Values(ScanPrefix(items, channelId)), NumberKey) == OfChannel(items, channelId)
  {
    ScanFindsChannel(items, channelId);
    OfChannelAscending(items, channelId);
    SortBySorted(OfChannel(items, channelId), NumberKey);
  }

  // ----- Totals -----

  /** The exact sum of all amounts. */
  function ExactTotal(items: Entries): nat
  {
    if items == [] then 0 else items[0].value.amount + ExactTotal(items[1..])
  }

  function SaturatingAdd(a: u64, b: u64): u64
  {
    if a + b <= U64_MAX then a + b else U64_MAX
  }

  function Clamp(n: nat): u64
  {
    if n <= U64_MAX then n else U64_MAX
  }

  /** The amount stored under `key`, zero if there is none. */
  function AmountAt(items: Entries, key: bytes): nat
  {
    if items == [] then 0
    else if items[0].key == key then items[0].value.amount
    else AmountAt(items[1..], key)
  }

  lemma {:induction false} NothingAt(items: Entries, key: bytes)
    requires !HasKey(items, key)
    ensures AmountAt(items, key) == 0
  {
    if items != [] {
      assert items[0].key != key;
      forall i | 0 <= i < |items| - 1 ensures items[1..][i].key != key {
        assert items[i + 1].key != key;
      }
      NothingAt(items[1..], key);
    }
  }

  lemma NotBeforeFirst(items: Entries, key: bytes)
    requires InKeyOrder(items) && items != [] && Less(key, items[0].key)
    ensures !HasKey(items, key)
  {
    forall i | 0 <= i < |items| ensures items[i].key != key {
      if i > 0 { LessTransitive(key, items[0].key, items[i].key); }
      LessIrreflexive(key);
    }
  }

  /** Inserting replaces what was stored under the key, if anything, by the new amount. */
  lemma {:induction false} InsertAdjustsTotal(items: Entries, key: bytes, v: StoredVoucher)
    requires InKeyOrder(items)
    ensures ExactTotal(Insert(items, key, v)) + AmountAt(items, key) == ExactTotal(items) + v.amount
  {
    if items != [] {
      if Less(key, items[0].key) {
        NotBeforeFirst(items, key);
        NothingAt(items, key);
        assert ([Item(key, v)] + items)[1..] == items;
      } else if items[0].key != key {
        InsertAdjustsTotal(items[1..], key, v);
        assert ([items[0]] + Insert(items[1..], key, v))[1..] == Insert(items[1..], key, v);
      }
    }
  }

  /** Storing adds exactly the amount under a key that is not taken, and never more. */
  lemma StoringNewAddsAmount(items: Entries, v: StoredVoucher)
    requires Consistent(items)
    ensures ExactTotal(Stored(items, v)) == ExactTotal(items) + v.amount - AmountAt(items, KeyOf(v.channelId, v.number))
    ensures !HasKey(items, KeyOf(v.channelId, v.number)) ==> ExactTotal(Stored(items, v)) == ExactTotal(items) + v.amount
  {
    var key := KeyOf(v.channelId, v.number);
    InsertAdjustsTotal(items, key, v);
    if !HasKey(items, key) { NothingAt(items, key); }
  }

  // ----- The next number -----

  /** One more than the last stored number, 1 for a new channel; past u64::MAX it wraps to 0. */
  function NextNumber(vouchers: seq<StoredVoucher>): u64
  {
    if vouchers == [] then 1 else (vouchers[|vouchers| - 1].number + 1) % (U64_MAX + 1)
  }

  lemma {:induction false} ChannelHoldsKey(items: Entries, channelId: Digest, number: u64)
    requires Consistent(items) && HasKey(items, KeyOf(channelId, number))
    ensures exists j :: 0 <= j < |OfChannel(items, channelId)| && OfChannel(items, channelId)[j].number == number
  {
    var i :| 0 <= i < |items| && items[i].key == KeyOf(channelId, number);
    KeyOrder(items[i].value.channelId, items[i].value.number, channelId, number);
    InChannel(items, channelId, i);
  }

  lemma {:induction false} InChannel(items: Entries, channelId: Digest, i: nat)
    requires i < |items| && items[i].value.channelId == channelId
    ensures items[i].value in OfChannel(items, channelId)
  {
    if i > 0 { InChannel(items[1..], channelId, i - 1); }
  }

  /** The addition wrapped, and the channel already has a voucher numbered 0. */
  predicate WrapsOntoFirst(vouchers: seq<StoredVoucher>)
  {
    vouchers != [] && vouchers[|vouchers| - 1].number == U64_MAX && vouchers[0].number == 0
  }

  predicate IsNumbered(vouchers: seq<StoredVoucher>, number: u64)
  {
    exists j :: 0 <= j < |vouchers| && vouchers[j].number == number
  }

  /** A key is taken exactly when its channel has a voucher with its number. */
  lemma KeyTakenIff(items: Entries, channelId: Digest, number: u64)
    requires Consistent(items)
    ensures HasKey(items, KeyOf(channelId, number)) <==> IsNumbered(OfChannel(items, channelId), number)
  {
    if HasKey(items, KeyOf(channelId, number)) {
      ChannelHoldsKey(items, channelId, number);
    }
    if IsNumbered(OfChannel(items, channelId), number) {
      var j :| 0 <= j < |OfChannel(items, channelId)| && OfChannel(items, channelId)[j].number == number;
      var i := OfChannelElements(items, channelId, j);
    }
  }

  lemma NextNumberTakenIff(vouchers: seq<StoredVoucher>)
    requires Ascending(vouchers)
    ensures IsNumbered(vouchers, NextNumber(vouchers)) <==> WrapsOntoFirst(vouchers)
  {
    if vouchers != [] {
      var first, last := vouchers[0].number, vouchers[|vouchers| - 1].number;
      forall j | 0 <= j < |vouchers| ensures first <= vouchers[j].number <= last {
      }
      if last < U64_MAX { assert NextNumber(vouchers) == last + 1; }
    }
  }

  /** The key of the next number is taken exactly when the numbering wrapped onto the first voucher. */
  lemma NextNumberIsFresh(items: Entries, channelId: Digest)
    requires Consistent(items)
    ensures HasKey(items, KeyOf(channelId, NextNumber(OfChannel(items, channelId))))
            <==> WrapsOntoFirst(OfChannel(items, channelId))
  {
    OfChannelAscending(items, channelId);
    NextNumberTakenIff(OfChannel(items, channelId));
    KeyTakenIff(items, channelId, NextNumber(OfChannel(items, channelId)));
  }

  // ----- The store -----

  class Store {
    const tree: Tree<StoredVoucher>

    ghost predicate Valid()
      reads this, tree
    {
      tree.Valid() && Consistent(tree.items)
    }

    constructor ()
      ensures Valid() && tree.items == [] && fresh(tree)
    {
      tree := new Tree();
    }

    method StoreVoucher(v: StoredVoucher)
      requires Valid()
      modifies tree
      ensures Valid() && tree.items == Stored(old(tree.items), v)
    {
      StoredConsistent(tree.items, v);
      tree.Put(KeyOf(v.channelId, v.number), v);
    }

    method GetVouchersForChannel(channelId: Digest) returns (vouchers: seq<StoredVoucher>)
      requires Valid()
      ensures vouchers == OfChannel(tree.items, channelId)
    {
      var scan := ScanPrefix(tree.items, channelId);
      vouchers := [];
      for i := 0 to |scan|
        invariant vouchers + Values(scan[i..]) == Values(scan)
      {
        vouchers := vouchers + [scan[i].value];
        assert scan[i..][1..] == scan[i + 1..];
      }
      assert scan[|scan|..] == [] && vouchers + Values([]) == vouchers;
      SortChangesNothing(tree.items, channelId);
      vouchers := SortBy(vouchers, NumberKey);
    }

    method TotalOutstanding() returns (total: u64)
      requires Valid()
      ensures total == Clamp(ExactTotal(tree.items))
    {
      total := 0;
      for i := 0 to |tree.items|
        invariant Clamp(total + ExactTotal(tree.items[i..])) == Clamp(ExactTotal(tree.items))
      {
        assert tree.items[i..][1..] == tree.items[i + 1..];
        total := SaturatingAdd(total, tree.items[i].value.amount);
      }
    }
  }
}
