/** The payload cache: a sorted map from log id to payload with size accounting and an
    eviction boundary that another thread moves.
    The ordered map is its ascending list of items. */
module PayloadCaches {
  import opened RaftTypes

  datatype Item = Item(key: LogId, value: Bytes)

  datatype Cache = Cache(
    maxItems: nat,
    capacity: nat,
    size: int,
    items: seq<Item>,
    lastEvictable: Option<LogId>)

  ghost predicate Sorted(items: seq<Item>) {
    forall i, j :: 0 <= i < j < |items| ==> Less(items[i].key, items[j].key)
  }

  function Sum(items: seq<Item>): nat {
    if items == [] then 0 else |items[0].value| + Sum(items[1..])
  }

  ghost predicate HasKey(items: seq<Item>, key: LogId) {
    exists e: Item :: e in items && e.key == key
  }

  /** `r` is `c` with some items gone and their payload sizes taken off the account. */
  ghost predicate Shrunk(c: Cache, r: Cache) {
    r == c.(items := r.items, size := r.size) && Slack(r) == Slack(c) && Sorted(r.items)
  }

  /** The accounting error: zero as long as no present key is ever inserted again. */
  function Slack(c: Cache): int {
    c.size - Sum(c.items)
  }

  predicate Evictable(boundary: Option<LogId>, key: LogId) {
    OptLeq(Some(key), boundary)
  }

  predicate Over(c: Cache) {
    |c.items| > c.maxItems || c.size > c.capacity
  }

  function Lookup(items: seq<Item>, key: LogId): Option<Bytes> {
    if items == [] then None
    else if items[0].key == key then Some(items[0].value)
    else Lookup(items[1..], key)
  }

  /** Insertion into an ordered map; a present key gets the new value. */
  function Inserted(items: seq<Item>, key: LogId, value: Bytes): seq<Item> {
    if items == [] || Less(key, items[0].key) then [Item(key, value)] + items
    else if items[0].key == key then [Item(key, value)] + items[1..]
    else [items[0]] + Inserted(items[1..], key, value)
  }

  function DropFirst(c: Cache): Cache
    requires c.items != []
  {
    c.(items := c.items[1..], size := c.size - |c.items[0].value|)
  }

  function DropLast(c: Cache): Cache
    requires c.items != []
  {
    c.(items := c.items[..|c.items| - 1], size := c.size - |c.items[|c.items| - 1].value|)
  }

  function Evicted(c: Cache): Cache
    decreases |c.items|
  {
    if Over(c) && c.items != [] && Evictable(c.lastEvictable, c.items[0].key) then Evicted(DropFirst(c)) else c
  }

  function InsertAndEvict(c: Cache, key: LogId, value: Bytes): Cache {
    Evicted(c.(items := Inserted(c.items, key, value), size := c.size + |value|))
  }

  function Drained(c: Cache): Cache
    decreases |c.items|
  {
    if c.items != [] && Evictable(c.lastEvictable, c.items[0].key) then Drained(DropFirst(c)) else c
  }

  function TruncatedAfter(c: Cache, key: LogId): Cache
    decreases |c.items|
  {
    if c.items != [] && Less(key, c.items[|c.items| - 1].key) then TruncatedAfter(DropLast(c), key) else c
  }

  function PurgedUpto(c: Cache, key: LogId): Cache
    decreases |c.items|
  {
    if c.items != [] && Leq(c.items[0].key, key) && Evictable(c.lastEvictable, c.items[0].key)
    then PurgedUpto(DropFirst(c), key)
    else c
  }

  function Cleared(c: Cache): Cache {
    c.(items := [], size := 0)
  }

  // ---- facts about the ordered map ----

  lemma SumLast(items: seq<Item>)
    requires items != []
    ensures Sum(items) == Sum(items[..|items| - 1]) + |items[|items| - 1].value|
  {
    if |items| > 1 {
      SumLast(items[1..]);
      assert items[1..][..|items| - 2] == items[..|items| - 1][1..];
    }
  }

  lemma SortedCons(x: Item, items: seq<Item>)
    requires Sorted(items)
    requires forall e: Item :: e in items ==> Less(x.key, e.key)
    ensures Sorted([x] + items)
  {
    var r := [x] + items;
    forall i, j | 0 <= i < j < |r| ensures Less(r[i].key, r[j].key) {
      assert r[j] == items[j - 1];
      assert items[j - 1] in items;
    }
  }

  lemma SortedTail(items: seq<Item>)
    requires Sorted(items) && items != []
    ensures Sorted(items[1..])
    ensures forall e: Item :: e in items[1..] ==> Less(items[0].key, e.key)
    ensures forall e: Item :: e in items <==> e == items[0] || e in items[1..]
  {
  }

  lemma {:induction false} InsertedMembers(items: seq<Item>, key: LogId, value: Bytes)
    requires Sorted(items)
    ensures forall e: Item :: e in Inserted(items, key, value) <==>
              e == Item(key, value) || (e in items && e.key != key)
  {
    if items != [] {
      SortedTail(items);
      if Less(items[0].key, key) {
        InsertedMembers(items[1..], key, value);
      }
    }
  }

  lemma {:induction false} InsertedSorted(items: seq<Item>, key: LogId, value: Bytes)
    requires Sorted(items)
    ensures Sorted(Inserted(items, key, value))
  {
    if items == [] {
    } else {
      SortedTail(items);
      if Less(key, items[0].key) {
        SortedCons(Item(key, value), items);
      } else if items[0].key == key {
        SortedCons(Item(key, value), items[1..]);
      } else {
        InsertedSorted(items[1..], key, value);
        InsertedMembers(items[1..], key, value);
        SortedCons(items[0], Inserted(items[1..], key, value));
      }
    }
  }

  /** A fresh key adds its payload size; a present key is overwritten, and the old size is forgotten. */
  lemma {:induction false} InsertedSum(items: seq<Item>, key: LogId, value: Bytes)
    requires Sorted(items)
    ensures !HasKey(items, key) ==> Sum(Inserted(items, key, value)) == Sum(items) + |value|
    ensures forall e: Item :: e in items && e.key == key ==>
              Sum(Inserted(items, key, value)) == Sum(items) + |value| - |e.value|
  {
    var r := Inserted(items, key, value);
    if items == [] {
      assert r[1..] == items;
    } else {
      SortedTail(items);
      if Less(key, items[0].key) {
        assert r[1..] == items;
      } else if items[0].key == key {
        assert r[1..] == items[1..];
      } else {
        InsertedSum(items[1..], key, value);
        assert r[1..] == Inserted(items[1..], key, value);
      }
    }
  }

  lemma {:induction false} LookupFinds(items: seq<Item>, key: LogId)
    ensures Lookup(items, key).Some? <==> HasKey(items, key)
    ensures Lookup(items, key).Some? ==> Item(key, Lookup(items, key).value) in items
  {
    if items != [] {
      assert items == [items[0]] + items[1..];
      LookupFinds(items[1..], key);
      assert items[0] in items;
      assert forall e: Item :: e in items <==> e == items[0] || e in items[1..];
    }
  }

  // ---- the loops and what they leave ----

  /** `c` after its first `n` items are gone. */
  function Behead(c: Cache, n: nat): Cache
    requires n <= |c.items|
  {
    c.(items := c.items[n..], size := c.size - Sum(c.items) + Sum(c.items[n..]))
  }

  ghost predicate NothingEvictable(c: Cache) {
    forall e: Item :: e in c.items ==> !Evictable(c.lastEvictable, e.key)
  }

  lemma BeheadStep(c: Cache, n: nat)
    requires n < |c.items|
    ensures Behead(c, 0) == c
    ensures Behead(c, n + 1) == Behead(DropFirst(c), n)
  {
    assert c.items[0..] == c.items;
    assert c.items[1..][n..] == c.items[n + 1..];
  }

  lemma FirstDecides(c: Cache)
    requires Sorted(c.items)
    requires c.items == [] || !Evictable(c.lastEvictable, c.items[0].key)
    ensures NothingEvictable(c)
  {
    if c.items != [] {
      SortedTail(c.items);
    }
  }

  lemma {:induction false} EvictedShape(c: Cache)
    requires Sorted(c.items)
    ensures |Evicted(c).items| <= |c.items| && Evicted(c) == Behead(c, |c.items| - |Evicted(c).items|)
    ensures Shrunk(c, Evicted(c))
    ensures !Over(Evicted(c)) || NothingEvictable(Evicted(c))
    decreases |c.items|
  {
    if c.items != [] && Over(c) && Evictable(c.lastEvictable, c.items[0].key) {
      EvictedShape(DropFirst(c));
      BeheadStep(c, |c.items| - 1 - |Evicted(DropFirst(c)).items|);
    } else {
      assert c.items[0..] == c.items;
      if Over(c) {
        FirstDecides(c);
      }
    }
  }

  /** Eviction removes the shortest prefix of the evictable items that brings the cache
      within both limits, or all of them when no prefix does: every shorter cut is still
      over a limit and starts with an evictable item. */
  lemma {:induction false} EvictedIsShortest(c: Cache, n: nat)
    requires Sorted(c.items)
    ensures |Evicted(c).items| <= |c.items| && Evicted(c) == Behead(c, |c.items| - |Evicted(c).items|)
    ensures !Over(Evicted(c)) || NothingEvictable(Evicted(c))
    ensures n < |c.items| - |Evicted(c).items| ==> Over(Behead(c, n)) && Evictable(c.lastEvictable, c.items[n].key)
    decreases n
  {
    EvictedShape(c);
    if n < |c.items| - |Evicted(c).items| {
      assert Over(c) && Evictable(c.lastEvictable, c.items[0].key);
      if n == 0 {
        BeheadStep(c, 0);
      } else {
        EvictedIsShortest(DropFirst(c), n - 1);
        BeheadStep(c, n - 1);
      }
    }
  }

  lemma {:induction false} DrainedSpec(c: Cache)
    requires Sorted(c.items)
    ensures Shrunk(c, Drained(c))
    ensures forall e: Item :: e in Drained(c).items <==> e in c.items && !Evictable(c.lastEvictable, e.key)
    decreases |c.items|
  {
    if c.items != [] {
      SortedTail(c.items);
      if Evictable(c.lastEvictable, c.items[0].key) {
        DrainedSpec(DropFirst(c));
      }
    }
  }

  lemma {:induction false} PurgedUptoSpec(c: Cache, key: LogId)
    requires Sorted(c.items)
    ensures Shrunk(c, PurgedUpto(c, key))
    ensures forall e: Item :: e in PurgedUpto(c, key).items <==>
              e in c.items && !(Leq(e.key, key) && Evictable(c.lastEvictable, e.key))
    decreases |c.items|
  {
    if c.items != [] {
      SortedTail(c.items);
      if Leq(c.items[0].key, key) && Evictable(c.lastEvictable, c.items[0].key) {
        PurgedUptoSpec(DropFirst(c), key);
      }
    }
  }

  lemma {:induction false} TruncatedAfterSpec(c: Cache, key: LogId)
    requires Sorted(c.items)
    ensures Shrunk(c, TruncatedAfter(c, key))
    ensures forall e: Item :: e in TruncatedAfter(c, key).items <==> e in c.items && Leq(e.key, key)
    decreases |c.items|
  {
    if c.items != [] {
      var n := |c.items| - 1;
      assert c.items == c.items[..n] + [c.items[n]];
      assert forall e: Item :: e in c.items[..n] ==> Less(e.key, c.items[n].key);
      SumLast(c.items);
      if Less(key, c.items[n].key) {
        TruncatedAfterSpec(DropLast(c), key);
      }
    }
  }

  lemma {:induction false} EvictedMembers(c: Cache)
    requires Sorted(c.items)
    ensures Shrunk(c, Evicted(c))
    ensures forall e: Item :: e in Evicted(c).items ==> e in c.items
    ensures forall e: Item :: e in c.items && !Evictable(c.lastEvictable, e.key) ==> e in Evicted(c).items
    decreases |c.items|
  {
    if c.items != [] && Over(c) && Evictable(c.lastEvictable, c.items[0].key) {
      SortedTail(c.items);
      EvictedMembers(DropFirst(c));
    }
  }

  /** An insertion adds the new item, and loses no item above the boundary. */
  lemma InsertMembers(c: Cache, key: LogId, value: Bytes)
    requires Sorted(c.items)
    ensures var r := InsertAndEvict(c, key, value);
            && Sorted(r.items)
            && r == c.(items := r.items, size := r.size)
            && (forall e: Item :: e in r.items ==> e == Item(key, value) || (e in c.items && e.key != key))
            && (forall e: Item :: !Evictable(c.lastEvictable, e.key) ==>
                  (e in r.items <==> e == Item(key, value) || (e in c.items && e.key != key)))
  {
    var d := c.(items := Inserted(c.items, key, value), size := c.size + |value|);
    InsertedSorted(c.items, key, value);
    EvictedMembers(d);
    InsertedMembers(c.items, key, value);
  }

  /** The account stays exact when the key is fresh, and is off by the overwritten payload when it is not.
      Either way the cache ends within both limits or holds nothing evictable. */
  lemma InsertAccounting(c: Cache, key: LogId, value: Bytes)
    requires Sorted(c.items)
    ensures var r := InsertAndEvict(c, key, value);
            && (!HasKey(c.items, key) ==> Slack(r) == Slack(c))
            && (forall e: Item :: e in c.items && e.key == key ==> Slack(r) == Slack(c) + |e.value|)
            && (!Over(r) || NothingEvictable(r))
  {
    InsertedSorted(c.items, key, value);
    InsertedSum(c.items, key, value);
    EvictedShape(c.(items := Inserted(c.items, key, value), size := c.size + |value|));
  }

  /** The cache object. `size` is unsigned: the loops never take more off it than was put on. */
  class PayloadCache {
    const maxItems: nat
    const capacity: nat
    var size: nat
    var items: seq<Item>
    var lastEvictable: Option<LogId>

    ghost predicate Valid()
      reads this
    {
      Sorted(items) && Sum(items) <= size
    }

    function Value(): Cache
      reads this
    {
      Cache(maxItems, capacity, size, items, lastEvictable)
    }

    constructor (maxItems: nat, capacity: nat)
      ensures Valid() && Value() == Cache(maxItems, capacity, 0, [], None)
    {
      this.maxItems, this.capacity, size, items, lastEvictable := maxItems, capacity, 0, [], None;
    }

    method SetLastEvictable(boundary: Option<LogId>)
      requires Valid()
      modifies this`lastEvictable
      ensures Valid() && Value() == old(Value()).(lastEvictable := boundary)
    {
      lastEvictable := boundary;
    }

    method Get(key: LogId) returns (r: Option<Bytes>)
      ensures r == Lookup(items, key)
    {
      var n := 0;
      while n < |items| && items[n].key != key
        invariant n <= |items| && Lookup(items[n..], key) == Lookup(items, key)
      {
        n := n + 1;
      }
      r := if n < |items| then Some(items[n].value) else None;
    }

    method EvictFirst()
      requires Valid() && items != []
      modifies this`items, this`size
      ensures Valid() && Value() == DropFirst(old(Value()))
    {
      items, size := items[1..], size - |items[0].value|;
    }

    method TryEvict()
      requires Valid()
      modifies this`items, this`size
      ensures Valid() && Value() == Evicted(old(Value()))
    {
      while |items| > maxItems || size > capacity
        invariant Valid() && Evicted(Value()) == Evicted(old(Value()))
        decreases |items|
      {
        if items == [] || !Evictable(lastEvictable, items[0].key) {
          return;
        }
        EvictFirst();
      }
    }

    method Insert(key: LogId, value: Bytes)
      requires Valid()
      modifies this`items, this`size
      ensures Valid() && Value() == InsertAndEvict(old(Value()), key, value)
    {
      InsertedSorted(items, key, value);
      InsertedSum(items, key, value);
      items, size := Inserted(items, key, value), size + |value|;
      TryEvict();
    }

    method DrainEvictable()
      requires Valid()
      modifies this`items, this`size
      ensures Valid() && Value() == Drained(old(Value()))
    {
      while items != [] && Evictable(lastEvictable, items[0].key)
        invariant Valid() && Drained(Value()) == Drained(old(Value()))
        decreases |items|
      {
        EvictFirst();
      }
    }

    /** Each item is popped off the end first, and put back when it has to stay. */
    method TruncateAfter(key: LogId)
      requires Valid()
      modifies this`items, this`size
      ensures Valid() && Value() == TruncatedAfter(old(Value()), key)
    {
      while items != []
        invariant Valid() && TruncatedAfter(Value(), key) == TruncatedAfter(old(Value()), key)
        decreases |items|
      {
        var popped := items[|items| - 1];
        var rest := items[..|items| - 1];
        SumLast(items);
        assert items == rest + [popped];
        if Less(key, popped.key) {
          items, size := rest, size - |popped.value|;
        } else {
          items := rest + [popped];
          break;
        }
      }
    }

    method PurgeUpto(key: LogId)
      requires Valid()
      modifies this`items, this`size
      ensures Valid() && Value() == PurgedUpto(old(Value()), key)
    {
      while items != []
        invariant Valid() && PurgedUpto(Value(), key) == PurgedUpto(old(Value()), key)
        decreases |items|
      {
        var popped := items[0];
        var rest := items[1..];
        assert items == [popped] + rest;
        if Leq(popped.key, key) && Evictable(lastEvictable, popped.key) {
          items, size := rest, size - |popped.value|;
        } else {
          items := [popped] + rest;
          break;
        }
      }
    }

    method Clear()
      requires Valid()
      modifies this`items, this`size
      ensures Valid() && Value() == Cleared(old(Value()))
    {
      items, size := [], 0;
    }
  }
}
