/** What the allocator promises, of single calls and of whole runs. */
module BuddyTheorems {
  import opened Wrappers
  import opened Sequences
  import opened PowersOfTwo
  import opened BuddyChunks
  import opened BuddyHeap

  // ---------------------------------------------------------------- one call

  ghost predicate SomeFree(c: Chunks, need: nat) { exists a: nat :: a in c && !c[a].inUse && need <= c[a].size }

  /** malloc fails exactly when no free chunk is large enough. */
  lemma MallocFailsIff(h: Heap, need: nat)
    requires Agree(h) && 0 < need
    ensures Allocated(h, need).1.None? <==> !SomeFree(h.chunks, need)
    ensures Allocated(h, need).1.None? ==> Allocated(h, need).0 == h
  {
    var r := LowerBound(h.lists, need);
    forall a: nat | a in h.chunks && !h.chunks[a].inUse && need <= h.chunks[a].size ensures r.Some? {
      assert Listed(h, h.chunks[a].size, a);
    }
    if r.Some? {
      assert ListOk(h.lists, r.value);
      assert Listed(h, r.value, h.lists[r.value][0]);
    }
  }

  /** A chunk that is first on the list for its size. */
  ghost predicate First(h: Heap, a: nat) {
    a in h.chunks && h.chunks[a].size in h.lists && h.lists[h.chunks[a].size] != [] && h.lists[h.chunks[a].size][0] == a
  }

  /** The chunk malloc starts from. */
  ghost function Source(h: Heap, need: nat): (c: nat)
    requires Agree(h) && LowerBound(h.lists, need).Some?
    ensures c in h.chunks && h.chunks[c] == Chunk(LowerBound(h.lists, need).value, false) && First(h, c)
  {
    var m := LowerBound(h.lists, need).value;
    assert ListOk(h.lists, m) && Listed(h, m, h.lists[m][0]);
    h.lists[m][0]
  }

  /** A free chunk is held by itself. */
  lemma FreeIsHeld(h: Heap, total: nat, a: nat)
    requires Valid(h, total) && a in h.chunks && !h.chunks[a].inUse
    ensures Holding(h, total, a)
  {
    MarkKeeps(h.chunks, total, a);
  }

  /** malloc, once it has found a chunk to start from. */
  lemma AllocatedIs(h: Heap, need: nat)
    requires Agree(h) && 0 < need && LowerBound(h.lists, need).Some?
    ensures var r := SplitTo(h, Source(h, need), need);
            Allocated(h, need) == (Removed(r.0, r.1), Some(r.1))
  {
  }

  /** The split loop may as well go on from `b` in `g`. */
  ghost predicate SplitsAs(h: Heap, a: nat, need: nat, g: Heap, b: nat) {
    a in h.chunks && b in g.chunks && 0 < need && SplitTo(h, a, need) == SplitTo(g, b, need)
  }

  lemma SplitsOn(h: Heap, a: nat, need: nat, g: Heap, b: nat, g': Heap, b': nat)
    requires SplitsAs(h, a, need, g, b) && need < g.chunks[b].size
    requires g' == SplitOnce(g, b) && b' == b + g.chunks[b].size / 2
    ensures SplitsAs(h, a, need, g', b')
  {
  }

  lemma SplitsNoMore(h: Heap, a: nat, need: nat, g: Heap, b: nat)
    requires SplitsAs(h, a, need, g, b) && g.chunks[b].size <= need
    ensures SplitTo(h, a, need) == (g, b)
  {
  }

  /** Marking a chunk as in use before taking it off its list changes nothing. */
  lemma MarkedAnyway(h: Heap, a: nat)
    requires a in h.chunks
    ensures Removed(WithChunk(h, a, Chunk(h.chunks[a].size, true)), a) == Removed(h, a)
  {
  }

  /** The last step of malloc. */
  lemma TakingKeeps(g: Heap, total: nat, a: nat)
    requires Holding(g, total, a)
    ensures Valid(Removed(g, a), total)
    ensures a !in Live(g.chunks) && Live(Removed(g, a).chunks) == Live(g.chunks)[a := g.chunks[a].size]
  {
    RemovedAgrees(g, a);
  }

  lemma MallocKeeps(h: Heap, total: nat, need: nat)
    requires Valid(h, total) && IsPow2(need) && Allocated(h, need).1.Some?
    ensures Valid(Allocated(h, need).0, total)
    ensures Allocated(h, need).1.value == Source(h, need) + h.chunks[Source(h, need)].size - need
    ensures Allocated(h, need).1.value !in Live(h.chunks)
    ensures Live(Allocated(h, need).0.chunks) == Live(h.chunks)[Allocated(h, need).1.value := need]
  {
    var c := Source(h, need);
    FreeIsHeld(h, total, c);
    SplitToKeeps(h, total, c, need);
    TakingKeeps(SplitTo(h, c, need).0, total, SplitTo(h, c, need).1);
  }

  /** malloc takes one of the smallest free chunks that are large enough. */
  lemma MallocCutsASmallest(h: Heap, need: nat, b: nat)
    requires Agree(h) && 0 < need && Allocated(h, need).1.Some?
    requires b in h.chunks && !h.chunks[b].inUse && need <= h.chunks[b].size
    ensures need <= h.chunks[Source(h, need)].size <= h.chunks[b].size
  {
    assert Listed(h, h.chunks[b].size, b);
  }

  /** What malloc hands out is inside the heap, aligned, and clear of everything live. */
  lemma MallocIsDisjoint(h: Heap, total: nat, need: nat, b: nat)
    requires Valid(h, total) && IsPow2(need) && Allocated(h, need).1.Some?
    requires b in Live(h.chunks)
    ensures var a := Allocated(h, need).1.value;
            && a + need <= total && Aligned(a, need)
            && (a + need <= b || b + Live(h.chunks)[b] <= a)
  {
    MallocKeeps(h, total, need);
    var a, c := Allocated(h, need).1.value, Allocated(h, need).0.chunks;
    assert a in Live(c) && b in Live(c) && Live(c)[a] == need && Live(c)[b] == Live(h.chunks)[b];
    assert PieceOk(c, 0, total, a) && AlignedAt(c, a);
    assert Disjoint(c, a, b) && Disjoint(c, b, a);
  }

  /** The first step of free. */
  lemma FreedIsHeld(h: Heap, total: nat, a: nat)
    requires Valid(h, total) && a in h.chunks && h.chunks[a].inUse
    ensures Holding(Added(h, a), total, a)
  {
    var s := h.chunks[a].size;
    assert WithChunk(h, a, Chunk(s, true)) == h;
    AddedAgrees(h, a, s);
    assert Mark(Added(h, a).chunks, a, true) == h.chunks;
  }

  lemma FreeKeeps(h: Heap, total: nat, a: nat)
    requires Valid(h, total) && a in Live(h.chunks)
    ensures 0 < h.chunks[a].size
    ensures Valid(Freed(h, a), total)
    ensures Live(Freed(h, a).chunks) == Live(h.chunks) - {a}
  {
    FreedIsHeld(h, total, a);
    MergedKeeps(Added(h, a), total, a);
    assert Live(Added(h, a).chunks) == Live(h.chunks) - {a};
  }

  // ---------------------------------------------------------------- free undoes malloc

  ghost predicate NoListsBetween(lists: FreeLists, need: nat, s: nat) {
    forall x: nat :: need <= x < s ==> x !in lists
  }

  /** The lists without the first chunk of one of them. */
  ghost function Popped(lists: FreeLists, n: nat): FreeLists
    requires n in lists && lists[n] != []
  {
    if lists[n][1..] == [] then lists - {n} else lists[n := lists[n][1..]]
  }

  lemma SplitLists(h: Heap, a: nat)
    requires First(h, a) && h.chunks[a].size > 1
    requires h.chunks[a].size / 2 !in h.lists
    ensures SplitOnce(h, a).lists
         == Popped(h.lists, h.chunks[a].size)[h.chunks[a].size / 2 := [a + h.chunks[a].size / 2, a]]
  {
    var n, s := h.chunks[a].size, h.chunks[a].size / 2;
    assert Without(h.lists[n], a) == h.lists[n][1..];
    assert Removed(h, a).lists == Popped(h.lists, n);
    var lower := Added(WithChunk(Removed(h, a), a, Chunk(s, true)), a);
    assert s !in Popped(h.lists, n) && [a] + [] == [a];
    assert lower.lists == Popped(h.lists, n)[s := [a]];
    assert [a + s] + [a] == [a + s, a];
  }

  lemma MergeLists(g: Heap, a: nat, s: nat)
    requires 0 < s && a in g.chunks && a + s in g.chunks && g.chunks[a].size == s && g.chunks[a + s].size == s
    requires s in g.lists && g.lists[s] == [a + s, a]
    ensures var rest := if 2 * s in g.lists then g.lists[2 * s] else [];
            MergeOnce(g, a, a + s).lists == (g.lists - {s})[2 * s := [a] + rest]
  {
    assert Without([a + s, a], a + s) == [a] && Without([a], a) == [];
  }

  lemma CutAndFuse(c: Chunks, a: nat, b: nat, x: Chunk, y: Chunk)
    requires a in c && b !in c
    ensures (c[a := x][b := y] - {b})[a := c[a]] == c
  {
  }

  lemma MergeUndoesChunks(h: Heap, a: nat, s: nat, g: Heap)
    requires 0 < s && a in h.chunks && h.chunks[a] == Chunk(2 * s, false) && a + s !in h.chunks
    requires g.chunks == h.chunks[a := Chunk(s, false)][a + s := Chunk(s, false)]
    ensures MergeOnce(g, a, a + s).chunks == h.chunks
  {
    MergeChunks(g, a, a + s);
    CutAndFuse(h.chunks, a, a + s, Chunk(s, false), Chunk(s, false));
  }

  lemma MergeUndoesLists(h: Heap, a: nat)
    requires First(h, a) && h.chunks[a].size > 1 && h.chunks[a].size % 2 == 0
    requires h.chunks[a].size / 2 !in h.lists
    ensures MergeOnce(SplitOnce(h, a), a, a + h.chunks[a].size / 2).lists == h.lists
  {
    var n, s := h.chunks[a].size, h.chunks[a].size / 2;
    SplitChunks(h, a);
    SplitLists(h, a);
    MergeLists(SplitOnce(h, a), a, s);
    PopPush(h.lists, n, s, [a + s, a]);
  }

  lemma MergeUndoesSplit(h: Heap, a: nat)
    requires First(h, a) && !h.chunks[a].inUse
    requires h.chunks[a].size > 1 && h.chunks[a].size % 2 == 0
    requires h.chunks[a].size / 2 !in h.lists && a + h.chunks[a].size / 2 !in h.chunks
    ensures MergeOnce(SplitOnce(h, a), a, a + h.chunks[a].size / 2) == h
  {
    SplitChunks(h, a);
    MergeUndoesChunks(h, a, h.chunks[a].size / 2, SplitOnce(h, a));
    MergeUndoesLists(h, a);
  }

  lemma PopPush(lists: FreeLists, n: nat, s: nat, l: seq<nat>)
    requires n in lists && lists[n] != [] && s !in lists && n != s
    ensures var g := Popped(lists, n)[s := l];
            (g - {s})[n := [lists[n][0]] + if n in g then g[n] else []] == lists
  {
    assert lists[n] == [lists[n][0]] + lists[n][1..];
  }

  lemma SplitStaysFirst(h: Heap, a: nat, need: nat)
    requires First(h, a) && need <= h.chunks[a].size / 2 < h.chunks[a].size
    requires 0 < need && NoListsBetween(h.lists, need, h.chunks[a].size)
    ensures h.chunks[a].size / 2 !in h.lists
    ensures First(SplitOnce(h, a), a + h.chunks[a].size / 2)
    ensures NoListsBetween(SplitOnce(h, a).lists, need, h.chunks[a].size / 2)
  {
    SplitLists(h, a);
    SplitChunks(h, a);
  }

  /** Splitting makes a chunk and its free buddy. */
  lemma SplitMakesBuddies(h: Heap, total: nat, a: nat)
    requires Holding(h, total, a) && h.chunks[a].size > 1
    ensures FreeBuddy(SplitOnce(h, a).chunks, a + h.chunks[a].size / 2)
    ensures Buddy(SplitOnce(h, a).chunks, a + h.chunks[a].size / 2) == a
  {
    var g, s := SplitOnce(h, a), h.chunks[a].size / 2;
    SplitOnceKeeps(h, total, a);
    SplitChunks(h, a);
    assert AlignedAt(Mark(h.chunks, a, true), a);
    Halves(a, s);
    BuddiesAreNeighbours(Mark(g.chunks, a + s, true), total, a + s);
  }

  lemma PutBack(h: Heap, a: nat)
    requires First(h, a) && !h.chunks[a].inUse
    ensures Added(Removed(h, a), a) == h
  {
    var l := h.lists[h.chunks[a].size];
    assert Without(l, a) == l[1..] && [a] + l[1..] == l;
    assert Added(Removed(h, a), a).lists == h.lists;
  }

  ghost predicate Undoable(h: Heap, total: nat, a: nat, need: nat) {
    && Holding(h, total, a) && IsPow2(need) && need <= h.chunks[a].size
    && First(h, a) && NoListsBetween(h.lists, need, h.chunks[a].size)
  }

  lemma SplitStep(h: Heap, total: nat, a: nat, need: nat, g: Heap, b: nat)
    requires Undoable(h, total, a, need) && need < h.chunks[a].size
    requires g == SplitOnce(h, a) && b == a + h.chunks[a].size / 2
    ensures Undoable(g, total, b, need) && g.chunks[b].size < h.chunks[a].size
  {
    HeldIsEven(h, total, a, need);
    SplitStaysFirst(h, a, need);
    SplitOnceKeeps(h, total, a);
  }

  /** Merging from one chunk leads where merging from another one does. */
  ghost predicate SameMerge(h: Heap, a: nat, g: Heap, b: nat) {
    && a in h.chunks && 0 < h.chunks[a].size
    && b in g.chunks && 0 < g.chunks[b].size
    && Merged(h, a) == Merged(g, b)
  }

  lemma SameMergeTrans(h: Heap, a: nat, g: Heap, b: nat, f: Heap, c: nat)
    requires SameMerge(h, a, g, b) && SameMerge(g, b, f, c)
    ensures SameMerge(h, a, f, c)
  {
  }

  lemma MergeGoesOn(g: Heap, b: nat, h: Heap, a: nat)
    requires a in h.chunks && 0 < h.chunks[a].size
    requires b in g.chunks && 0 < g.chunks[b].size && FreeBuddy(g.chunks, b)
    requires Lower(g, b) != Higher(g, b) && Lower(g, b) == a && MergeOnce(g, a, Higher(g, b)) == h
    ensures SameMerge(g, b, h, a)
  {
  }

  lemma UndoOnce(h: Heap, total: nat, a: nat, need: nat, g: Heap, b: nat)
    requires Undoable(h, total, a, need) && need < h.chunks[a].size
    requires g == SplitOnce(h, a) && b == a + h.chunks[a].size / 2
    ensures SameMerge(g, b, h, a)
  {
    HeldIsEven(h, total, a, need);
    SplitStaysFirst(h, a, need);
    SplitOnceKeeps(h, total, a);
    MergeUndoesSplit(h, a);
    SplitMakesBuddies(h, total, a);
    MergeGoesOn(g, b, h, a);
  }

  /** Merging the chunk the split loop arrives at is merging the one it began with. */
  ghost predicate Undone(h: Heap, a: nat, need: nat) {
    && a in h.chunks && 0 < need
    && var r := SplitTo(h, a, need); First(r.0, r.1) && SameMerge(r.0, r.1, h, a)
  }

  lemma UndoneStep(h: Heap, a: nat, need: nat, g: Heap, b: nat)
    requires SplitsAs(h, a, need, g, b) && SameMerge(g, b, h, a) && Undone(g, b, need)
    ensures Undone(h, a, need)
  {
    SameMergeTrans(SplitTo(g, b, need).0, SplitTo(g, b, need).1, g, b, h, a);
  }

  lemma {:induction false} UndoSplits(h: Heap, total: nat, a: nat, need: nat)
    requires Undoable(h, total, a, need)
    ensures Undone(h, a, need)
    decreases h.chunks[a].size
  {
    if h.chunks[a].size > need {
      var g, b := SplitOnce(h, a), a + h.chunks[a].size / 2;
      SplitStep(h, total, a, need, g, b);
      UndoOnce(h, total, a, need, g, b);
      UndoSplits(g, total, b, need);
      SplitsOn(h, a, need, h, a, g, b);
      UndoneStep(h, a, need, g, b);
    }
  }

  /** Freeing what malloc has just returned restores the chunk map and the free lists. */
  lemma FreeUndoesMalloc(h: Heap, total: nat, need: nat, h': Heap, a: nat)
    requires Valid(h, total) && IsPow2(need) && Allocated(h, need) == (h', Some(a))
    ensures a in h'.chunks && 0 < h'.chunks[a].size && Freed(h', a) == h
  {
    var c := Source(h, need);
    FreeIsHeld(h, total, c);
    assert ListOk(h.lists, h.chunks[c].size);
    UndoSplits(h, total, c, need);
    SplitToKeeps(h, total, c, need);
    PutBack(SplitTo(h, c, need).0, a);
    NoFreeBuddy(h.chunks, total, c);
  }
}
