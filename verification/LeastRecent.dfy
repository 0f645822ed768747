/** The queue that tracks which buffer has waited longest: an intrusive doubly linked list. */
module LeastRecent {
  import opened Sequences

  const NULL := -1

  // ---------------------------------------------------------------- doubly linked chains

  /** Two neighbours of the chain point at each other. */
  ghost predicate LinkAt(older: seq<int>, newer: seq<int>, c: seq<nat>, i: nat) {
    i + 1 < |c| ==>
      c[i] < |newer| && c[i + 1] < |older| && newer[c[i]] == c[i + 1] && older[c[i + 1]] == c[i]
  }

  ghost predicate LooseAt(older: seq<int>, newer: seq<int>, c: seq<nat>, k: nat) {
    k < |older| && k < |newer| && k !in c ==> older[k] == NULL && newer[k] == NULL
  }

  ghost predicate Once(c: seq<nat>, i: nat, j: nat) { i < j < |c| ==> c[i] != c[j] }

  ghost predicate Chained(older: seq<int>, newer: seq<int>, c: seq<nat>) {
    && (forall i: nat :: LinkAt(older, newer, c, i))
    && (forall k: nat :: LooseAt(older, newer, c, k))
    && (forall i: nat, j: nat :: Once(c, i, j))
  }

  lemma InsertKeeps(o: seq<int>, n: seq<int>, c: seq<nat>, key: nat, o': seq<int>, n': seq<int>, c': seq<nat>)
    requires Chained(o, n, c) && |o| == |n| && 2 <= |c| && key !in c && key < |o|
    requires c[|c| - 2] < |o| && c[|c| - 1] < |o|
    requires o' == o[key := c[|c| - 2]][c[|c| - 1] := key]
    requires n' == n[key := c[|c| - 1]][c[|c| - 2] := key]
    requires c' == c[..|c| - 1] + [key] + [c[|c| - 1]]
    ensures Chained(o', n', c')
  {
    var m := |c|;
    assert Once(c, m - 2, m - 1);
    forall i: nat ensures LinkAt(o', n', c', i) {
      assert LinkAt(o, n, c, i) && Once(c, i, m - 2) && Once(c, i + 1, m - 1);
    }
    forall k: nat ensures LooseAt(o', n', c', k) {
      assert LooseAt(o, n, c, k);
      assert key == c'[m - 1] && c[m - 1] == c'[m] && c[m - 2] == c'[m - 2];
      if k in c {
        var i :| 0 <= i < m && c[i] == k;
        assert c'[if i < m - 1 then i else m] == k;
      }
    }
    forall i: nat, j: nat ensures Once(c', i, j) { assert Once(c, i, j) && Once(c, i, m - 1); }
  }

  lemma RemoveKeeps(o: seq<int>, n: seq<int>, c: seq<nat>, i: nat, o': seq<int>, n': seq<int>, c': seq<nat>)
    requires Chained(o, n, c) && |o| == |n| && 0 < i < |c| - 1
    requires c[i - 1] < |o| && c[i] < |o| && c[i + 1] < |o|
    requires o' == o[c[i + 1] := c[i - 1]][c[i] := NULL]
    requires n' == n[c[i - 1] := c[i + 1]][c[i] := NULL]
    requires c' == c[..i] + c[i + 1..]
    ensures Chained(o', n', c')
  {
    assert Once(c, i - 1, i) && Once(c, i, i + 1) && Once(c, i - 1, i + 1);
    forall x: nat ensures LinkAt(o', n', c', x) {
      assert LinkAt(o, n, c, x) && LinkAt(o, n, c, x + 1);
      assert Once(c, x, i) && Once(c, x + 1, i) && Once(c, x, i - 1);
      assert Once(c, i, x + 1) && Once(c, i, x + 2) && Once(c, i - 1, x + 1);
      assert Once(c, x + 1, i + 1) && Once(c, i + 1, x + 2);
    }
    forall k: nat ensures LooseAt(o', n', c', k) {
      assert LooseAt(o, n, c, k);
      if k in c && k != c[i] {
        var x :| 0 <= x < |c| && c[x] == k;
        assert c'[if x < i then x else x - 1] == k;
      }
    }
    forall x: nat, y: nat ensures Once(c', x, y) {
      assert Once(c, x, y) && Once(c, x, y + 1) && Once(c, x + 1, y + 1);
    }
  }

  // ---------------------------------------------------------------- the queue

  /** Entries are numbered by their key; two sentinels follow them. A priority is a negated timestamp. */
  class LRQueue {
    const size: nat
    const older: array<int>
    const newer: array<int>
    const priority: array<int>
    /** The keys in the queue, oldest first. */
    ghost var order: seq<nat>

    /** The entries in the list, with the sentinels. */
    ghost function Chain(): seq<nat>
      reads this
    {
      [size] + order + [size + 1]
    }

    ghost predicate Shape()
      reads this
    {
      && older != newer && older != priority && newer != priority
      && older.Length == size + 2 && newer.Length == size + 2 && priority.Length == size + 2
      && (forall i: nat :: i < |order| ==> order[i] < size)
    }

    ghost predicate Valid()
      reads this, older, newer
    {
      Shape() && Chained(older[..], newer[..], Chain())
    }

    constructor (size: nat)
      ensures Valid() && order == [] && this.size == size
      ensures fresh(older) && fresh(newer) && fresh(priority)
      ensures forall i: nat :: i < priority.Length ==> priority[i] == 0
    {
      this.size := size;
      older := new int[size + 2](_ => NULL);
      newer := new int[size + 2](_ => NULL);
      priority := new int[size + 2](_ => 0);
      order := [];
      new;
      newer[size] := size + 1;
      older[size + 1] := size;
      assert Chain() == [size, size + 1];
    }

    /** A linked entry has an older neighbour. */
    lemma InQueueIffLinked(key: nat)
      requires Valid() && key < size
      ensures key in order <==> older[key] != NULL
    {
      assert LooseAt(older[..], newer[..], Chain(), key);
      if key in order {
        var i :| 0 <= i < |order| && order[i] == key;
        assert Chain()[i + 1] == key;
        assert LinkAt(older[..], newer[..], Chain(), i);
      }
    }

    /** What the sentinels point at. */
    lemma Ends()
      requires Valid()
      ensures newer[size] == if order == [] then size + 1 else order[0]
      ensures older[size + 1] == Chain()[|order|] < size + 1
    {
      assert LinkAt(older[..], newer[..], Chain(), 0) && LinkAt(older[..], newer[..], Chain(), |order|);
    }

    /** Does nothing for a key that is in the queue already. */
    method UpdateOrInsert(key: nat, prio: int)
      requires Valid() && key < size
      modifies this, older, newer, priority
      ensures Valid()
      ensures order == if key in old(order) then old(order) else old(order) + [key]
      ensures priority[..] == if key in old(order) then old(priority[..]) else old(priority[..])[key := prio]
    {
      InQueueIffLinked(key);
      if older[key] == NULL {
        ghost var o, n, c := older[..], newer[..], Chain();
        Ends();
        newer[key] := size + 1;
        older[key] := older[size + 1];
        older[size + 1] := key;
        newer[older[key]] := key;
        priority[key] := prio;
        order := order + [key];
        InsertKeeps(o, n, c, key, older[..], newer[..], Chain());
      }
    }

    method TopKey() returns (k: int)
      requires Valid()
      ensures k == if order == [] then -1 else order[0]
    {
      Ends();
      k := if newer[size] == size + 1 then -1 else newer[size];
    }

    method TopPriority() returns (p: int)
      requires Valid()
      ensures order != [] ==> p == priority[order[0]]
    {
      Ends();
      p := priority[newer[size]];
    }

    method Empty() returns (e: bool)
      requires Valid()
      ensures e == (order == [])
    {
      Ends();
      e := newer[size] == size + 1;
    }

    method RemoveKey(key: nat)
      requires Valid() && key < size
      modifies this, older, newer
      ensures Valid()
      ensures order == Without(old(order), key)
    {
      InQueueIffLinked(key);
      if older[key] != NULL {
        ghost var o, n, c := older[..], newer[..], Chain();
        ghost var i: nat :| i < |order| && order[i] == key;
        FirstPlace(order, i, c);
        assert LinkAt(o, n, c, i) && LinkAt(o, n, c, i + 1);
        newer[older[key]] := newer[key];
        older[newer[key]] := older[key];
        older[key] := NULL;
        newer[key] := NULL;
        order := order[..i] + order[i + 1..];
        RemoveKeeps(o, n, c, i + 1, older[..], newer[..], Chain());
      } else {
        NotDropped(order, key);
      }
    }

    lemma FirstPlace(l: seq<nat>, i: nat, c: seq<nat>)
      requires i < |l| && c == [size] + l + [size + 1] && forall x: nat, y: nat :: Once(c, x, y)
      ensures Without(l, l[i]) == l[..i] + l[i + 1..]
      ensures [size] + (l[..i] + l[i + 1..]) + [size + 1] == c[..i + 1] + c[i + 2..]
    {
      forall j: nat | j < i ensures l[j] != l[i] { assert Once(c, j + 1, i + 1); }
      DroppedIs(l, i);
    }
  }

  lemma {:induction false} DroppedIs(order: seq<nat>, i: nat)
    requires i < |order| && forall j: nat :: j < i ==> order[j] != order[i]
    ensures Without(order, order[i]) == order[..i] + order[i + 1..]
    decreases i
  {
    if i > 0 {
      DroppedIs(order[1..], i - 1);
      assert order[..i] == [order[0]] + order[1..][..i - 1];
    }
  }

  lemma {:induction false} NotDropped(order: seq<nat>, key: nat)
    requires key !in order
    ensures Without(order, key) == order
  {
    if order != [] { NotDropped(order[1..], key); }
  }
}
