/** A database tree whose entries are kept in byte order of their keys (sled). */
module OrderedTree {
  import opened Bytes

  datatype Item<+V> = Item(key: bytes, value: V)

  ghost predicate InKeyOrder<V>(items: seq<Item<V>>)
  {
    forall i, j :: 0 <= i < j < |items| ==> Less(items[i].key, items[j].key)
  }

  /** Inserting replaces the entry with the same key, if there is one. */
  function Insert<V>(items: seq<Item<V>>, key: bytes, value: V): (r: seq<Item<V>>)
    ensures forall i :: 0 <= i < |r| ==> r[i] == Item(key, value) || r[i] in items
  {
    if items == [] || Less(key, items[0].key) then [Item(key, value)] + items
    else if items[0].key == key then [Item(key, value)] + items[1..]
    else [items[0]] + Insert(items[1..], key, value)
  }

  ghost predicate HasKey<V>(items: seq<Item<V>>, key: bytes)
  {
    exists i :: 0 <= i < |items| && items[i].key == key
  }

  lemma {:induction false} InsertKeepsOrder<V>(items: seq<Item<V>>, key: bytes, value: V)
    requires InKeyOrder(items)
    ensures InKeyOrder(Insert(items, key, value))
  {
    if items == [] {
    } else if Less(key, items[0].key) {
      forall j | 0 <= j < |items|
        ensures Less(key, items[j].key)
      {
        if j > 0 { LessTransitive(key, items[0].key, items[j].key); }
      }
    } else if items[0].key != key {
      LessTotal(key, items[0].key);
      InsertKeepsOrder(items[1..], key, value);
    }
  }

  /** A fresh key gets its own place between the entries that were there. */
  lemma {:induction false} InsertSplits<V>(items: seq<Item<V>>, key: bytes, value: V) returns (k: nat)
    requires !HasKey(items, key)
    ensures k <= |items| && Insert(items, key, value) == items[..k] + [Item(key, value)] + items[k..]
  {
    if items == [] || Less(key, items[0].key) {
      k := 0;
    } else {
      assert items[0].key != key;
      assert !HasKey(items[1..], key) by {
        forall i | 0 <= i < |items| - 1 ensures items[1..][i].key != key { assert items[i + 1].key != key; }
      }
      k := InsertSplits(items[1..], key, value);
      k := k + 1;
    }
  }

  /** The value under `key`, if there is one. */
  function Lookup<V>(items: seq<Item<V>>, key: bytes): Option<V>
  {
    if items == [] then None
    else if items[0].key == key then Some(items[0].value)
    else Lookup(items[1..], key)
  }

  /** After inserting, the key holds the value and every other key what it held. */
  lemma {:induction false} InsertLookup<V>(items: seq<Item<V>>, key: bytes, value: V, k: bytes)
    ensures Lookup(Insert(items, key, value), k) == if k == key then Some(value) else Lookup(items, k)
  {
    if items == [] || Less(key, items[0].key) {
      assert ([Item(key, value)] + items)[1..] == items;
    } else if items[0].key == key {
      assert ([Item(key, value)] + items[1..])[1..] == items[1..];
    } else {
      InsertLookup(items[1..], key, value, k);
      assert ([items[0]] + Insert(items[1..], key, value))[1..] == Insert(items[1..], key, value);
    }
  }

  /** `after` differs from `before` only in that `key` holds `value`. */
  ghost predicate OnlySets<V(!new)>(before: seq<Item<V>>, after: seq<Item<V>>, key: bytes, value: V)
  {
    && Lookup(after, key) == Some(value)
    && forall k :: k != key ==> Lookup(after, k) == Lookup(before, k)
  }

  lemma InsertOnlySets<V(!new)>(items: seq<Item<V>>, key: bytes, value: V)
    ensures OnlySets(items, Insert(items, key, value), key, value)
  {
    forall k ensures Lookup(Insert(items, key, value), k) == if k == key then Some(value) else Lookup(items, k) {
      InsertLookup(items, key, value, k);
    }
  }

  /** The entries whose key starts with `prefix`, in key order. */
  function ScanPrefix<V>(items: seq<Item<V>>, prefix: bytes): seq<Item<V>>
  {
    if items == [] then []
    else (if prefix <= items[0].key then [items[0]] else []) + ScanPrefix(items[1..], prefix)
  }

  class Tree<V> {
    var items: seq<Item<V>>

    ghost predicate Valid()
      reads this
    {
      InKeyOrder(items)
    }

    constructor ()
      ensures Valid() && items == []
    {
      items := [];
    }

    method Put(key: bytes, value: V)
      requires Valid()
      modifies this
      ensures Valid() && items == Insert(old(items), key, value)
    {
      InsertKeepsOrder(items, key, value);
      items := Insert(items, key, value);
    }
  }
}
