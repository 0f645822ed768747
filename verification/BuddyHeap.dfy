/** The allocator's operations on its chunk map and its free lists. */
module BuddyHeap {
  import opened Wrappers
  import opened Sequences
  import opened PowersOfTwo
  import opened BuddyChunks

  /** Free lists by chunk size; the chunk freed last comes first. */
  type FreeLists = map<nat, seq<nat>>

  datatype Heap = Heap(chunks: Chunks, lists: FreeLists)

  // ---------------------------------------------------------------- free lists

  ghost predicate OnList(lists: FreeLists, s: nat, a: nat) { s in lists && a in lists[s] }

  ghost predicate IsFree(c: Chunks, s: nat, a: nat) { a in c && c[a] == Chunk(s, false) }

  ghost predicate ListOk(lists: FreeLists, s: nat) { s in lists ==> lists[s] != [] && NoRepeats(lists[s]) }

  ghost predicate Listed(h: Heap, s: nat, a: nat) { OnList(h.lists, s, a) <==> IsFree(h.chunks, s, a) }

  /** A chunk is on the list for its size exactly when it is free; no list is empty. */
  ghost predicate Agree(h: Heap) {
    && (forall s: nat, a: nat :: Listed(h, s, a))
    && (forall s: nat :: ListOk(h.lists, s))
  }

  ghost predicate Valid(h: Heap, total: nat) { WellFormed(h.chunks, total) && Agree(h) }

  /** remove_from_free_list */
  function Removed(h: Heap, a: nat): Heap
    requires a in h.chunks
  {
    var s := h.chunks[a].size;
    var l := Without(if s in h.lists then h.lists[s] else [], a);
    Heap(Mark(h.chunks, a, true), if l == [] then h.lists - {s} else h.lists[s := l])
  }

  /** add_to_free_list */
  function Added(h: Heap, a: nat): Heap
    requires a in h.chunks
  {
    var s := h.chunks[a].size;
    Heap(Mark(h.chunks, a, false), h.lists[s := [a] + if s in h.lists then h.lists[s] else []])
  }

  function WithChunk(h: Heap, a: nat, c: Chunk): Heap { h.(chunks := h.chunks[a := c]) }

  function WithoutChunk(h: Heap, a: nat): Heap { h.(chunks := h.chunks - {a}) }

  lemma {:induction false} WithoutIsTheRest(l: seq<nat>, a: nat)
    requires NoRepeats(l)
    ensures NoRepeats(Without(l, a))
    ensures forall x: nat :: x in Without(l, a) <==> x in l && x != a
  {
    if l != [] {
      var rest := l[1..];
      assert forall i: nat :: i < |rest| ==> rest[i] == l[i + 1];
      WithoutIsTheRest(rest, a);
      assert l == [l[0]] + rest;
      assert l[0] !in rest;
    }
  }

  lemma RemovedAgrees(h: Heap, a: nat)
    requires Agree(h) && a in h.chunks && !h.chunks[a].inUse
    ensures Agree(Removed(h, a))
  {
    var h' := Removed(h, a);
    var s0 := h.chunks[a].size;
    assert Listed(h, s0, a) && ListOk(h.lists, s0);
    WithoutIsTheRest(h.lists[s0], a);
    forall s: nat, x: nat ensures Listed(h', s, x) { assert Listed(h, s, x); }
    forall s: nat ensures ListOk(h'.lists, s) { assert ListOk(h.lists, s); }
  }

  lemma AddedAgrees(h: Heap, a: nat, s0: nat)
    requires a in h.chunks && h.chunks[a].size == s0 && Agree(WithChunk(h, a, Chunk(s0, true)))
    ensures Agree(Added(h, a))
  {
    var g, h' := WithChunk(h, a, Chunk(s0, true)), Added(h, a);
    assert Listed(g, s0, a) && ListOk(g.lists, s0);
    forall s: nat, x: nat ensures Listed(h', s, x) { assert Listed(g, s, x); }
    forall s: nat ensures ListOk(h'.lists, s) { assert ListOk(g.lists, s); }
  }

  /** Chunks in use are not the free lists' business. */
  lemma ResizedAgrees(h: Heap, a: nat, s0: nat)
    requires Agree(h) && (a in h.chunks ==> h.chunks[a].inUse)
    ensures Agree(WithChunk(h, a, Chunk(s0, true))) && Agree(WithoutChunk(h, a))
  {
    var g, h' := WithChunk(h, a, Chunk(s0, true)), WithoutChunk(h, a);
    forall s: nat, x: nat ensures Listed(g, s, x) && Listed(h', s, x) { assert Listed(h, s, x); }
    forall s: nat ensures ListOk(g.lists, s) && ListOk(h'.lists, s) { assert ListOk(h.lists, s); }
  }

  // ---------------------------------------------------------------- malloc

  /** The least chunk size on the free lists that is large enough, as std::map::lower_bound finds it. */
  ghost predicate IsLowerBound(lists: FreeLists, need: nat, r: Option<nat>) {
    match r
    case None => forall s: nat :: s in lists ==> s < need
    case Some(m) => m in lists && need <= m && forall s: nat :: s in lists && need <= s ==> m <= s
  }

  lemma {:induction false} SomeLowerBound(lists: FreeLists, need: nat)
    ensures exists r :: IsLowerBound(lists, need, r)
    decreases |lists|
  {
    if s: nat :| s in lists && need <= s {
      var rest := lists - {s};
      assert rest.Keys == lists.Keys - {s};
      SomeLowerBound(rest, need);
      var r :| IsLowerBound(rest, need, r);
      var r' := if r.None? || s < r.value then Some(s) else r;
      assert forall x: nat :: x in lists ==> x == s || x in rest;
      assert IsLowerBound(lists, need, r');
    } else {
      assert IsLowerBound(lists, need, None);
    }
  }

  ghost function LowerBound(lists: FreeLists, need: nat): (r: Option<nat>)
    ensures IsLowerBound(lists, need, r)
  {
    SomeLowerBound(lists, need);
    var r :| IsLowerBound(lists, need, r);
    r
  }

  /** One turn of the loop in malloc: a free chunk halved, both halves on their list. */
  ghost function SplitOnce(h: Heap, a: nat): (h': Heap)
    requires a in h.chunks && h.chunks[a].size > 1
    ensures a + h.chunks[a].size / 2 in h'.chunks
    ensures h'.chunks[a + h.chunks[a].size / 2].size == h.chunks[a].size / 2
  {
    var s := h.chunks[a].size / 2;
    var lower := Added(WithChunk(Removed(h, a), a, Chunk(s, true)), a);
    Added(WithChunk(lower, a + s, Chunk(s, false)), a + s)
  }

  /** The whole loop; the chunk it goes on with is always the upper half. */
  ghost function SplitTo(h: Heap, a: nat, need: nat): (r: (Heap, nat))
    requires a in h.chunks && 0 < need
    ensures r.1 in r.0.chunks
    decreases h.chunks[a].size
  {
    if h.chunks[a].size > need then SplitTo(SplitOnce(h, a), a + h.chunks[a].size / 2, need) else (h, a)
  }

  ghost function Allocated(h: Heap, need: nat): (Heap, Option<nat>)
    requires Agree(h) && 0 < need
  {
    match LowerBound(h.lists, need)
    case None => (h, None)
    case Some(m) =>
      assert ListOk(h.lists, m) && Listed(h, m, h.lists[m][0]);
      var (h', a) := SplitTo(h, h.lists[m][0], need);
      (Removed(h', a), Some(a))
  }

  /** In the middle of malloc or free: `a` is free and on its list, and the map would be well
      formed if it were in use. */
  ghost predicate Holding(h: Heap, total: nat, a: nat) {
    && Agree(h)
    && a in h.chunks && !h.chunks[a].inUse
    && WellFormed(Mark(h.chunks, a, true), total)
  }

  lemma SplitAgrees(h: Heap, a: nat)
    requires Agree(h) && a in h.chunks && !h.chunks[a].inUse && h.chunks[a].size > 1
    requires a + h.chunks[a].size / 2 !in h.chunks
    ensures Agree(SplitOnce(h, a))
  {
    var s := h.chunks[a].size / 2;
    var h1 := Removed(h, a);
    RemovedAgrees(h, a);
    ResizedAgrees(h1, a, s);
    var h2 := WithChunk(h1, a, Chunk(s, true));
    assert WithChunk(h2, a, Chunk(s, true)) == h2;
    AddedAgrees(h2, a, s);
    var h3 := Added(h2, a);
    ResizedAgrees(h3, a + s, s);
    var h4 := WithChunk(h3, a + s, Chunk(s, false));
    assert WithChunk(h4, a + s, Chunk(s, true)) == WithChunk(h3, a + s, Chunk(s, true));
    AddedAgrees(h4, a + s, s);
  }

  lemma SplitChunks(h: Heap, a: nat)
    requires a in h.chunks && h.chunks[a].size > 1
    ensures var s := h.chunks[a].size / 2;
            SplitOnce(h, a).chunks == h.chunks[a := Chunk(s, false)][a + s := Chunk(s, false)]
  {
  }

  lemma SplitOnceKeeps(h: Heap, total: nat, a: nat)
    requires Holding(h, total, a) && h.chunks[a].size > 1
    ensures Holding(SplitOnce(h, a), total, a + h.chunks[a].size / 2)
    ensures a + h.chunks[a].size / 2 !in h.chunks
    ensures SplitOnce(h, a).chunks[a + h.chunks[a].size / 2].size == h.chunks[a].size / 2
    ensures Live(SplitOnce(h, a).chunks) == Live(h.chunks)
  {
    var s := h.chunks[a].size / 2;
    var c := Mark(h.chunks, a, true);
    CutKeeps(c, total, a);
    SplitAgrees(h, a);
    SplitChunks(h, a);
    assert Mark(SplitOnce(h, a).chunks, a + s, true) == Cut(c, a);
  }

  /** The chunk the loop goes on with has been cut off the top of the one at `a`. */
  ghost predicate CutOff(h: Heap, total: nat, a: nat, need: nat, g: Heap, b: nat)
    requires a in h.chunks
  {
    && Holding(g, total, b) && g.chunks[b].size == need
    && b == a + h.chunks[a].size - need
    && Live(g.chunks) == Live(h.chunks)
  }

  lemma {:induction false} SplitToKeeps(h: Heap, total: nat, a: nat, need: nat)
    requires Holding(h, total, a) && IsPow2(need) && need <= h.chunks[a].size
    ensures CutOff(h, total, a, need, SplitTo(h, a, need).0, SplitTo(h, a, need).1)
    decreases h.chunks[a].size
  {
    if h.chunks[a].size > need {
      HeldIsEven(h, total, a, need);
      SplitOnceKeeps(h, total, a);
      var h1, b := SplitOnce(h, a), a + h.chunks[a].size / 2;
      SplitToKeeps(h1, total, b, need);
      CutFurther(h, total, a, need, h1, b, SplitTo(h1, b, need).0, SplitTo(h1, b, need).1);
    }
  }

  lemma CutFurther(h: Heap, total: nat, a: nat, need: nat, h1: Heap, b: nat, g: Heap, c: nat)
    requires a in h.chunks && b in h1.chunks && b + h1.chunks[b].size == a + h.chunks[a].size
    requires Live(h1.chunks) == Live(h.chunks)
    requires CutOff(h1, total, b, need, g, c)
    ensures CutOff(h, total, a, need, g, c)
  {
  }

  lemma HeldIsEven(h: Heap, total: nat, a: nat, need: nat)
    requires Holding(h, total, a) && IsPow2(need) && need < h.chunks[a].size
    ensures need <= h.chunks[a].size / 2 && h.chunks[a].size % 2 == 0
  {
    assert AlignedAt(Mark(h.chunks, a, true), a);
    Apart(need, h.chunks[a].size);
  }

  // ---------------------------------------------------------------- free

  lemma {:induction false} XorMoves(a: nat, s: nat)
    requires s > 0
    ensures Xor(a, s) != a
    decreases s
  {
    if s / 2 > 0 { XorMoves(a / 2, s / 2); } else { XorZero(a / 2); }
  }

  /** One merge: the higher chunk goes, the lower one is twice as large and first on its new list. */
  ghost function MergeOnce(h: Heap, lo: nat, hi: nat): (h': Heap)
    requires lo in h.chunks && hi in h.chunks && lo != hi
    ensures lo in h'.chunks && h'.chunks[lo].size == 2 * h.chunks[lo].size
    ensures |h'.chunks| < |h.chunks|
  {
    var h1 := WithoutChunk(Removed(h, hi), hi);
    var h2 := Removed(h1, lo);
    var h' := Added(WithChunk(h2, lo, Chunk(2 * h.chunks[lo].size, true)), lo);
    assert h'.chunks.Keys == h.chunks.Keys - {hi};
    h'
  }

  ghost function Lower(h: Heap, a: nat): nat
    requires a in h.chunks
  {
    if a < Buddy(h.chunks, a) then a else Buddy(h.chunks, a)
  }

  ghost function Higher(h: Heap, a: nat): nat
    requires a in h.chunks
  {
    if a < Buddy(h.chunks, a) then Buddy(h.chunks, a) else a
  }

  /** try_merge_buddy_recursive */
  ghost function Merged(h: Heap, a: nat): Heap
    requires a in h.chunks && 0 < h.chunks[a].size
    decreases |h.chunks|
  {
    XorMoves(a, h.chunks[a].size);
    if FreeBuddy(h.chunks, a) then Merged(MergeOnce(h, Lower(h, a), Higher(h, a)), Lower(h, a)) else h
  }

  ghost function Freed(h: Heap, a: nat): Heap
    requires a in h.chunks && 0 < h.chunks[a].size
  {
    Merged(Added(h, a), a)
  }

  lemma MergeAgrees(h: Heap, lo: nat, hi: nat)
    requires Agree(h) && lo in h.chunks && hi in h.chunks && lo != hi
    requires !h.chunks[lo].inUse && !h.chunks[hi].inUse
    ensures Agree(MergeOnce(h, lo, hi))
  {
    RemovedAgrees(h, hi);
    ResizedAgrees(Removed(h, hi), hi, 0);
    var h1 := WithoutChunk(Removed(h, hi), hi);
    RemovedAgrees(h1, lo);
    var h2 := Removed(h1, lo);
    var s := 2 * h.chunks[lo].size;
    ResizedAgrees(h2, lo, s);
    var h3 := WithChunk(h2, lo, Chunk(s, true));
    assert WithChunk(h3, lo, Chunk(s, true)) == h3;
    AddedAgrees(h3, lo, s);
  }

  lemma MergeChunks(h: Heap, lo: nat, hi: nat)
    requires lo in h.chunks && hi in h.chunks && lo != hi
    ensures MergeOnce(h, lo, hi).chunks == Fused(h.chunks, lo, hi)
  {
  }

  lemma MergeOnceKeeps(h: Heap, total: nat, a: nat, lo: nat, hi: nat)
    requires Holding(h, total, a) && FreeBuddy(h.chunks, a)
    requires lo == Lower(h, a) && hi == Higher(h, a)
    ensures lo != hi
    ensures Holding(MergeOnce(h, lo, hi), total, lo)
    ensures Live(MergeOnce(h, lo, hi).chunks) == Live(h.chunks)
  {
    BuddiesJoin(h.chunks, total, a, lo, hi);
    assert lo in {lo, hi} && hi in {lo, hi};
    MergeChunks(h, lo, hi);
    FusedLive(h.chunks, lo, hi);
    MergeAgrees(h, lo, hi);
  }

  lemma {:induction false} MergedKeeps(h: Heap, total: nat, a: nat)
    requires Holding(h, total, a)
    ensures 0 < h.chunks[a].size
    ensures Valid(Merged(h, a), total) && Live(Merged(h, a).chunks) == Live(h.chunks)
    decreases |h.chunks|
  {
    var c := Mark(h.chunks, a, true);
    assert PieceOk(c, 0, total, a);
    if FreeBuddy(h.chunks, a) {
      MergeOnceKeeps(h, total, a, Lower(h, a), Higher(h, a));
      MergedKeeps(MergeOnce(h, Lower(h, a), Higher(h, a)), total, Lower(h, a));
    } else {
      BuddiesAreNeighbours(c, total, a);
      ReleaseKeeps(c, total, a);
      assert Mark(c, a, false) == h.chunks;
    }
  }
}
