/** Grouping a list into an insertion-ordered dictionary of lists, the way
    app.py fills `comandas` (kitchen screen), `mesas_abertas` and
    `historico_pagamentos` (admin screen) and `itens_por_categoria` (menu):
    the first item with a key creates the entry and fixes its header, every
    item is appended to the list of its key, and the entries keep the order in
    which their keys were first seen. */
module Grouping {

  /** One dictionary entry: its key, the item that created it (the entry's
      header is copied from that item) and the items appended to it. */
  datatype Bucket<T, K> = Bucket(key: K, head: T, members: seq<T>)

  /** Position of the entry with key `k`, or `|bs|` when there is none. */
  function KeyIndex<T, K(==)>(bs: seq<Bucket<T, K>>, k: K): (j: nat)
    ensures j <= |bs|
    ensures j < |bs| ==> bs[j].key == k
    ensures forall m :: 0 <= m < j ==> bs[m].key != k
  {
    if bs == [] then 0 else if bs[0].key == k then 0 else 1 + KeyIndex(bs[1..], k)
  }

  /** One turn of the grouping loop. */
  function Insert<T, K(==)>(bs: seq<Bucket<T, K>>, x: T, key: T -> K): seq<Bucket<T, K>>
  {
    var j := KeyIndex(bs, key(x));
    if j < |bs| then bs[j := bs[j].(members := bs[j].members + [x])]
    else bs + [Bucket(key(x), x, [x])]
  }

  /** The dictionary after the loop has run over `items`. */
  function Grouped<T, K(==)>(items: seq<T>, key: T -> K): seq<Bucket<T, K>>
  {
    if items == [] then [] else Insert(Grouped(items[..|items| - 1], key), items[|items| - 1], key)
  }

  /** The items with key `k`, in their original order. */
  function Filter<T, K(==)>(items: seq<T>, key: T -> K, k: K): seq<T>
  {
    if items == [] then []
    else Filter(items[..|items| - 1], key, k)
         + (if key(items[|items| - 1]) == k then [items[|items| - 1]] else [])
  }

  /** Position of the first item with key `k`, or `|items|` when there is none. */
  function FirstIndex<T, K(==)>(items: seq<T>, key: T -> K, k: K): (i: nat)
    ensures i <= |items|
    ensures i < |items| ==> key(items[i]) == k
    ensures forall m :: 0 <= m < i ==> key(items[m]) != k
  {
    if items == [] then 0 else if key(items[0]) == k then 0 else 1 + FirstIndex(items[1..], key, k)
  }

  predicate DistinctKeys<T, K(==)>(bs: seq<Bucket<T, K>>)
  {
    forall i, j :: 0 <= i < j < |bs| ==> bs[i].key != bs[j].key
  }

  predicate HasKey<T, K(==)>(bs: seq<Bucket<T, K>>, k: K)
  {
    exists j :: 0 <= j < |bs| && bs[j].key == k
  }

  /** No key has two entries. */
  lemma {:induction false} GroupedDistinct<T, K>(items: seq<T>, key: T -> K)
    ensures DistinctKeys(Grouped(items, key))
  {
    if items != [] {
      GroupedDistinct(items[..|items| - 1], key);
    }
  }

  /** Every item's key has an entry, and every entry's key is some item's key. */
  lemma {:induction false} GroupedKeys<T, K>(items: seq<T>, key: T -> K)
    ensures forall i :: 0 <= i < |items| ==> HasKey(Grouped(items, key), key(items[i]))
    ensures forall j :: 0 <= j < |Grouped(items, key)| ==>
              exists i :: 0 <= i < |items| && key(items[i]) == Grouped(items, key)[j].key
  {
    if items != [] {
      var s, x := items[..|items| - 1], items[|items| - 1];
      var bs := Grouped(s, key);
      GroupedKeys(s, key);
      var r := Grouped(items, key);
      assert r == Insert(bs, x, key);
      var j := KeyIndex(bs, key(x));
      forall i | 0 <= i < |items| ensures HasKey(r, key(items[i])) {
        if i < |s| {
          var m :| 0 <= m < |bs| && bs[m].key == key(s[i]);
          assert r[m].key == key(items[i]);
        } else if j < |bs| {
          assert r[j].key == key(x);
        } else {
          assert r[|bs|].key == key(x);
        }
      }
      forall m | 0 <= m < |r| ensures exists i :: 0 <= i < |items| && key(items[i]) == r[m].key {
        if m < |bs| {
          assert r[m].key == bs[m].key;
          var i :| 0 <= i < |s| && key(s[i]) == bs[m].key;
          assert items[i] == s[i];
          assert 0 <= i < |items| && key(items[i]) == r[m].key;
        } else {
          assert j == |bs| && r == bs + [Bucket(key(x), x, [x])];
          assert items[|s|] == x;
          assert 0 <= |s| < |items| && key(items[|s|]) == r[m].key;
        }
      }
    } else {
      assert Grouped(items, key) == [];
    }
  }

  lemma FilterSnoc<T, K>(s: seq<T>, x: T, key: T -> K, k: K)
    ensures Filter(s + [x], key, k) == Filter(s, key, k) + (if key(x) == k then [x] else [])
  {
    assert (s + [x])[..|s|] == s;
  }

  lemma {:induction false} FilterNone<T, K>(items: seq<T>, key: T -> K, k: K)
    requires forall i :: 0 <= i < |items| ==> key(items[i]) != k
    ensures Filter(items, key, k) == []
  {
    if items != [] {
      FilterNone(items[..|items| - 1], key, k);
    }
  }

  lemma {:induction false} FilterMembers<T, K>(items: seq<T>, key: T -> K, k: K)
    ensures forall x :: x in Filter(items, key, k) <==> x in items && key(x) == k
  {
    if items != [] {
      FilterMembers(items[..|items| - 1], key, k);
      assert items == items[..|items| - 1] + [items[|items| - 1]];
    }
  }

  /** Each entry holds exactly the items with its key, in order, and its
      header item is the first of them. */
  lemma {:induction false} GroupedMembers<T, K>(items: seq<T>, key: T -> K)
    ensures forall j :: 0 <= j < |Grouped(items, key)| ==>
              var b := Grouped(items, key)[j];
              b.members == Filter(items, key, b.key) && b.members != [] && b.head == b.members[0]
  {
    if items != [] {
      var s, x := items[..|items| - 1], items[|items| - 1];
      var bs := Grouped(s, key);
      GroupedMembers(s, key);
      GroupedDistinct(s, key);
      GroupedKeys(s, key);
      var r := Grouped(items, key);
      assert r == Insert(bs, x, key);
      var j := KeyIndex(bs, key(x));
      if j == |bs| {
        forall i | 0 <= i < |s| ensures key(s[i]) != key(x) {
          assert HasKey(bs, key(s[i]));
        }
        FilterNone(s, key, key(x));
      }
    }
  }

  lemma GroupedMemberIsItem<T, K>(items: seq<T>, key: T -> K, j: nat, x: T)
    requires j < |Grouped(items, key)| && x in Grouped(items, key)[j].members
    ensures x in items
  {
    GroupedMembers(items, key);
    var k := Grouped(items, key)[j].key;
    assert x in Filter(items, key, k);
    FilterMembers(items, key, k);
  }

  /** The entries hold the items and nothing else: every member is an item,
      and every item is a member of some entry. */
  lemma GroupedCovers<T, K>(items: seq<T>, key: T -> K)
    ensures var bs := Grouped(items, key);
            && (forall j, x :: 0 <= j < |bs| && x in bs[j].members ==> x in items)
            && (forall x :: x in items ==> exists j :: 0 <= j < |bs| && x in bs[j].members)
  {
    var bs := Grouped(items, key);
    forall j, x | 0 <= j < |bs| && x in bs[j].members
      ensures x in items
    {
      GroupedMemberIsItem(items, key, j, x);
    }
    forall x | x in items
      ensures exists j :: 0 <= j < |bs| && x in bs[j].members
    {
      var i :| 0 <= i < |items| && items[i] == x;
      assert HasKey(bs, key(items[i])) by { GroupedKeys(items, key); }
      var j :| 0 <= j < |bs| && bs[j].key == key(x);
      GroupedMembers(items, key);
      FilterMembers(items, key, bs[j].key);
      assert x in bs[j].members;
    }
  }

  /** `FirstIndex` on a list extended at the end. */
  lemma {:induction false} FirstIndexSnoc<T, K>(s: seq<T>, x: T, key: T -> K, k: K)
    ensures FirstIndex(s + [x], key, k)
            == if FirstIndex(s, key, k) < |s| then FirstIndex(s, key, k)
               else if key(x) == k then |s| else |s| + 1
  {
    if s != [] {
      assert (s + [x])[1..] == s[1..] + [x];
      FirstIndexSnoc(s[1..], x, key, k);
    }
  }

  /** Each entry's header is the first item with its key. */
  lemma {:induction false} GroupedHeads<T, K>(items: seq<T>, key: T -> K)
    ensures forall j :: 0 <= j < |Grouped(items, key)| ==>
              var b := Grouped(items, key)[j];
              FirstIndex(items, key, b.key) < |items| && b.head == items[FirstIndex(items, key, b.key)]
  {
    if items != [] {
      var s, x := items[..|items| - 1], items[|items| - 1];
      assert items == s + [x];
      var bs := Grouped(s, key);
      GroupedHeads(s, key);
      var r := Grouped(items, key);
      assert r == Insert(bs, x, key);
      forall m | 0 <= m < |r|
        ensures FirstIndex(items, key, r[m].key) < |items| && r[m].head == items[FirstIndex(items, key, r[m].key)]
      {
        if m < |bs| {
          assert r[m].key == bs[m].key && r[m].head == bs[m].head;
          FirstIndexSnoc(s, x, key, bs[m].key);
        } else {
          NewKeyFirstSeen(s, x, key);
        }
      }
    }
  }

  /** A key that gets a new entry when `x` is appended first occurs at `x`. */
  lemma NewKeyFirstSeen<T, K>(s: seq<T>, x: T, key: T -> K)
    requires KeyIndex(Grouped(s, key), key(x)) == |Grouped(s, key)|
    ensures FirstIndex(s + [x], key, key(x)) == |s|
  {
    var bs := Grouped(s, key);
    GroupedKeys(s, key);
    FirstIndexSnoc(s, x, key, key(x));
  }

  /** The entries are ordered by where their keys first occur. */
  lemma {:induction false} GroupedOrder<T, K>(items: seq<T>, key: T -> K)
    ensures forall i, j :: 0 <= i < j < |Grouped(items, key)| ==>
              FirstIndex(items, key, Grouped(items, key)[i].key)
              < FirstIndex(items, key, Grouped(items, key)[j].key)
  {
    if items != [] {
      var s, x := items[..|items| - 1], items[|items| - 1];
      assert items == s + [x];
      var bs := Grouped(s, key);
      GroupedOrder(s, key);
      GroupedHeads(s, key);
      var r := Grouped(items, key);
      assert r == Insert(bs, x, key);
      forall m | 0 <= m < |bs|
        ensures r[m].key == bs[m].key
        ensures FirstIndex(items, key, r[m].key) == FirstIndex(s, key, bs[m].key) < |s|
      {
        FirstIndexSnoc(s, x, key, bs[m].key);
      }
      if |r| > |bs| {
        NewKeyFirstSeen(s, x, key);
      }
    }
  }

  /** Sum of a weight over a list of items. */
  function Total<T>(items: seq<T>, w: T -> real): real
  {
    if items == [] then 0.0 else Total(items[..|items| - 1], w) + w(items[|items| - 1])
  }

  lemma TotalSnoc<T>(s: seq<T>, x: T, w: T -> real)
    ensures Total(s + [x], w) == Total(s, w) + w(x)
  {
    assert (s + [x])[..|s|] == s;
  }

  /** Sum of the entries' totals. */
  function BucketsTotal<T, K>(bs: seq<Bucket<T, K>>, w: T -> real): real
  {
    if bs == [] then 0.0 else BucketsTotal(bs[..|bs| - 1], w) + Total(bs[|bs| - 1].members, w)
  }

  lemma {:induction false} BucketsTotalUpdate<T, K>(bs: seq<Bucket<T, K>>, j: nat, b: Bucket<T, K>, w: T -> real)
    requires j < |bs|
    ensures BucketsTotal(bs[j := b], w) == BucketsTotal(bs, w) - Total(bs[j].members, w) + Total(b.members, w)
  {
    var n := |bs|;
    if j < n - 1 {
      assert bs[j := b][..n - 1] == bs[..n - 1][j := b];
      BucketsTotalUpdate(bs[..n - 1], j, b, w);
    } else {
      assert bs[j := b][..n - 1] == bs[..n - 1];
    }
  }

  /** Grouping neither loses nor duplicates weight: the entries' totals add up
      to the total over all items. */
  lemma {:induction false} GroupedTotal<T, K>(items: seq<T>, key: T -> K, w: T -> real)
    ensures BucketsTotal(Grouped(items, key), w) == Total(items, w)
  {
    if items != [] {
      var s, x := items[..|items| - 1], items[|items| - 1];
      var bs := Grouped(s, key);
      GroupedTotal(s, key, w);
      assert Grouped(items, key) == Insert(bs, x, key);
      var j := KeyIndex(bs, key(x));
      if j < |bs| {
        var m := bs[j].members;
        assert (m + [x])[..|m|] == m;
        BucketsTotalUpdate(bs, j, bs[j].(members := m + [x]), w);
      } else {
        var b := Bucket(key(x), x, [x]);
        assert [x][..0] == [];
        assert Total(b.members, w) == w(x);
        assert (bs + [b])[..|bs|] == bs;
        assert BucketsTotal(bs + [b], w) == BucketsTotal(bs, w) + w(x);
      }
    }
  }

  /** A list made entry by entry from the buckets, each carrying its
      bucket's total, adds up to the buckets' total. */
  lemma {:induction false} TotalOfMapped<B, T, K>(bs: seq<Bucket<T, K>>, rs: seq<B>, h: B -> real, w: T -> real)
    requires |rs| == |bs|
    requires forall j :: 0 <= j < |bs| ==> h(rs[j]) == Total(bs[j].members, w)
    ensures Total(rs, h) == BucketsTotal(bs, w)
  {
    if bs != [] {
      TotalOfMapped(bs[..|bs| - 1], rs[..|rs| - 1], h, w);
    }
  }

  /** The grouping loop itself: a linear search for the key's entry, then an
      append to it or a new entry at the end. */
  method GroupBy<T, K(==)>(items: seq<T>, key: T -> K) returns (bs: seq<Bucket<T, K>>)
    ensures bs == Grouped(items, key)
  {
    bs := [];
    for i := 0 to |items|
      invariant bs == Grouped(items[..i], key)
    {
      var x := items[i];
      var k := key(x);
      var j := 0;
      while j < |bs| && bs[j].key != k
        invariant j <= |bs|
        invariant forall m :: 0 <= m < j ==> bs[m].key != k
      {
        j := j + 1;
      }
      assert j == KeyIndex(bs, k);
      assert items[..i + 1][..i] == items[..i];
      if j < |bs| {
        bs := bs[j := bs[j].(members := bs[j].members + [x])];
      } else {
        bs := bs + [Bucket(k, x, [x])];
      }
    }
    assert items[..|items|] == items;
  }
}
