/** Whether freeing everything leads back to the heap the constructor built: for which sizes. */
module BuddyOddHeaps {
  import opened Wrappers
  import opened PowersOfTwo
  import opened BuddyChunks
  import opened BuddyHeap
  import opened BuddyTheorems
  import opened BuddyRuns

  // ---------------------------------------------------------------- calls on any heap

  /** What a call needs of a heap that need not be well formed: free lists for malloc, and a live chunk
      for free. */
  ghost predicate Callable(h: Heap, c: Call) {
    match c
    case Malloc(n) => 0 < n && Agree(h)
    case Free(a) => a in Live(h.chunks) && 0 < h.chunks[a].size
  }

  ghost function Outcome(h: Heap, c: Call): Heap
    requires Callable(h, c)
  {
    match c
    case Malloc(n) => Allocated(h, NextPow2(n)).0
    case Free(a) => Freed(h, a)
  }

  ghost predicate Leads(h: Heap, run: seq<Call>, h': Heap)
    decreases |run|
  {
    if run == [] then h' == h else Callable(h, run[0]) && Leads(Outcome(h, run[0]), run[1..], h')
  }

  lemma {:induction false} LeadsKeepsValid(h: Heap, total: nat, run: seq<Call>, h': Heap)
    requires Valid(h, total) && Leads(h, run, h')
    ensures Valid(h', total)
    decreases |run|
  {
    if run != [] {
      assert Allowed(h, run[0]);
      assert After(h, total, run[0]) == Outcome(h, run[0]);
      LeadsKeepsValid(Outcome(h, run[0]), total, run[1..], h');
    }
  }

  // ---------------------------------------------------------------- the heap of an odd size

  /** Chunks below `offset`, all free and none of odd size. */
  ghost predicate EvenBelow(h: Heap, offset: nat) {
    Agree(h) && forall x: nat :: x in h.chunks ==> x < offset && h.chunks[x].size % 2 == 0 && !h.chunks[x].inUse
  }

  lemma EvenPiece(h: Heap, offset: nat, s: nat)
    requires EvenBelow(h, offset) && 0 < s && s % 2 == 0
    ensures EvenBelow(WithPiece(h, offset, s), offset + s)
  {
    PieceAgrees(h, offset, s);
  }

  ghost function OddHeap(g: Heap, a: nat): Heap { WithPiece(WithPiece(g, a, 1), a + 1, 2) }

  lemma BuiltLast(h: Heap, offset: nat)
    ensures Built(h, offset, [1, 2]) == OddHeap(h, offset)
  {
    var g := WithPiece(h, offset, 1);
    assert [1, 2][1..] == [2] && [2][1..] == [];
    assert Built(h, offset, [1, 2]) == Built(g, offset + 1, [2]);
    assert Built(g, offset + 1, [2]) == WithPiece(g, offset + 1, 2);
  }

  /** Even chunks, and then a single byte at an even offset and a pair. */
  lemma {:induction false} OddShape(h: Heap, offset: nat, ps: seq<nat>) returns (g: Heap, a: nat)
    requires OddEnd(ps) && EvenBelow(h, offset) && offset % 2 == 0
    ensures a % 2 == 0 && EvenBelow(g, a) && Built(h, offset, ps) == OddHeap(g, a)
    decreases |ps|
  {
    if ps == [1, 2] {
      BuiltLast(h, offset);
      g, a := h, offset;
    } else {
      EvenPiece(h, offset, ps[0]);
      g, a := OddShape(WithPiece(h, offset, ps[0]), offset + ps[0], ps[1..]);
    }
  }

  lemma OddStart(total: nat) returns (g: Heap, a: nat)
    requires total % 2 == 1 && total > 1
    ensures a % 2 == 0 && EvenBelow(g, a) && Start(total) == OddHeap(g, a)
  {
    OddSizesEndOdd(total);
    assert Agree(EMPTY) by {
      assert forall x: nat, y: nat :: Listed(EMPTY, x, y);
      assert forall x: nat :: ListOk(EMPTY.lists, x);
    }
    g, a := OddShape(EMPTY, 0, Pieces(total));
  }

  lemma NoBytes(g: Heap, a: nat)
    requires EvenBelow(g, a)
    ensures 1 !in g.lists
  {
    assert ListOk(g.lists, 1);
    forall x: nat ensures !OnList(g.lists, 1, x) { assert Listed(g, 1, x); }
    assert 1 in g.lists ==> OnList(g.lists, 1, g.lists[1][0]);
  }

  lemma OddHeapIs(g: Heap, a: nat) returns (h: Heap)
    requires EvenBelow(g, a)
    ensures h == OddHeap(g, a) && Agree(h)
    ensures h.chunks == g.chunks[a := Chunk(1, false)][a + 1 := Chunk(2, false)]
    ensures 1 in h.lists && h.lists[1] == [a] && 2 in h.lists && h.lists[2][0] == a + 1
  {
    PieceAgrees(g, a, 1);
    var f := WithPiece(g, a, 1);
    PieceAgrees(f, a + 1, 2);
    h := OddHeap(g, a);
    NoBytes(g, a);
  }

  // ---------------------------------------------------------------- two allocations

  /** The single byte is taken. */
  lemma TakeByte(h: Heap, a: nat) returns (h': Heap)
    requires Agree(h) && 1 in h.lists && h.lists[1] == [a]
    ensures a in h.chunks && h' == Allocated(h, 1).0 && Agree(h')
    ensures h'.chunks == Mark(h.chunks, a, true) && h'.lists == h.lists - {1}
  {
    assert Listed(h, 1, a);
    var m := LowerBound(h.lists, 1);
    assert ListOk(h.lists, 1);
    assert m == Some(1);
    assert SplitTo(h, a, 1) == (h, a);
    h' := Removed(h, a);
    RemovedAgrees(h, a);
  }

  /** Then the pair is split, and its upper half taken. */
  lemma TakeUpper(h: Heap, b: nat) returns (h': Heap)
    requires Agree(h) && 1 !in h.lists && 2 in h.lists && |h.lists[2]| > 0 && h.lists[2][0] == b
    requires b in h.chunks && h.chunks[b] == Chunk(2, false)
    ensures h' == Allocated(h, 1).0
    ensures h'.chunks == h.chunks[b := Chunk(1, false)][b + 1 := Chunk(1, true)]
  {
    var m := LowerBound(h.lists, 1);
    assert m == Some(2);
    var s := SplitOnce(h, b);
    SplitChunks(h, b);
    assert SplitTo(h, b, 1) == SplitTo(s, b + 1, 1);
    assert SplitTo(s, b + 1, 1) == (s, b + 1);
    h' := Removed(s, b + 1);
  }

  // ---------------------------------------------------------------- merging on any heap

  /** Merging touches no live chunk. */
  lemma {:induction false} MergedLive(h: Heap, a: nat)
    requires a in h.chunks && 0 < h.chunks[a].size && !h.chunks[a].inUse
    ensures Live(Merged(h, a).chunks) == Live(h.chunks)
    ensures Merged(h, a).chunks.Keys <= h.chunks.Keys
    decreases |h.chunks|
  {
    XorMoves(a, h.chunks[a].size);
    if FreeBuddy(h.chunks, a) {
      var lo, hi := Lower(h, a), Higher(h, a);
      var g := MergeOnce(h, lo, hi);
      MergeChunks(h, lo, hi);
      FusedLive(h.chunks, lo, hi);
      MergedLive(g, lo);
      assert Merged(h, a) == Merged(g, lo);
    }
  }

  /** Freeing keeps all other live chunks, and makes none. */
  lemma FreedLive(h: Heap, a: nat)
    requires a in Live(h.chunks) && 0 < h.chunks[a].size
    ensures Live(Freed(h, a).chunks) == Live(h.chunks) - {a}
    ensures Freed(h, a).chunks.Keys <= h.chunks.Keys
  {
    MergedLive(Added(h, a), a);
    assert Added(h, a).chunks == Mark(h.chunks, a, false);
  }

  /** The byte after an even offset is not there, so nothing merges. */
  lemma FreedAlone(h: Heap, b: nat)
    requires b % 2 == 0 && b in Live(h.chunks) && h.chunks[b].size == 1 && b + 1 !in h.chunks
    ensures b in Freed(h, b).chunks
  {
    XorZero(b / 2);
    assert Xor(b, 1) == b + 1;
    assert Freed(h, b) == Added(h, b);
  }

  // ---------------------------------------------------------------- the run

  lemma LeadsFirst(h: Heap, c: Call, run: seq<Call>, h': Heap)
    requires Callable(h, c) && Leads(Outcome(h, c), run, h')
    ensures Leads(h, [c] + run, h')
  {
    assert ([c] + run)[1..] == run;
  }

  /** Two single bytes are allocated. */
  lemma TakeTwo(h: Heap, g: Heap, a: nat) returns (h1: Heap, h2: Heap)
    requires EvenBelow(g, a) && h == OddHeap(g, a)
    ensures Agree(h) && h1 == Allocated(h, 1).0 && Agree(h1) && h2 == Allocated(h1, 1).0
    ensures h2.chunks == g.chunks[a := Chunk(1, true)][a + 1 := Chunk(1, false)][a + 2 := Chunk(1, true)]
  {
    var h0 := OddHeapIs(g, a);
    h1 := TakeByte(h0, a);
    h2 := TakeUpper(h1, a + 1);
    ByteAndUpper(g.chunks, a);
  }

  lemma ByteAndUpper(c: Chunks, a: nat)
    ensures Mark(c[a := Chunk(1, false)][a + 1 := Chunk(2, false)], a, true)[a + 1 := Chunk(1, false)][a + 2 := Chunk(1, true)]
         == c[a := Chunk(1, true)][a + 1 := Chunk(1, false)][a + 2 := Chunk(1, true)]
  {
  }

  lemma TwoAreLive(c: Chunks, g: Heap, a: nat)
    requires EvenBelow(g, a)
    requires c == g.chunks[a := Chunk(1, true)][a + 1 := Chunk(1, false)][a + 2 := Chunk(1, true)]
    ensures Live(c) == map[a := 1, a + 2 := 1] && c[a].size == 1 && a + 3 !in c
  {
  }

  lemma LiveSize(c: Chunks, b: nat)
    requires b in Live(c)
    ensures b in c && c[b].size == Live(c)[b]
  {
  }

  /** The second one, which has nothing behind it. */
  lemma FreeLast(h: Heap, b: nat)
    requires b % 2 == 0 && Live(h.chunks) == map[b := 1] && b + 1 !in h.chunks
    ensures Callable(h, Free(b)) && Live(Freed(h, b).chunks) == map[] && b in Freed(h, b).chunks
  {
    LiveSize(h.chunks, b);
    FreedLive(h, b);
    FreedAlone(h, b);
  }

  /** They are freed again. */
  lemma FreeTwo(h: Heap, g: Heap, a: nat) returns (h': Heap)
    requires a % 2 == 0 && EvenBelow(g, a)
    requires h.chunks == g.chunks[a := Chunk(1, true)][a + 1 := Chunk(1, false)][a + 2 := Chunk(1, true)]
    ensures Callable(h, Free(a)) && h' == Freed(h, a) && Callable(h', Free(a + 2))
    ensures Live(Freed(h', a + 2).chunks) == map[] && a + 2 in Freed(h', a + 2).chunks
  {
    TwoAreLive(h.chunks, g, a);
    h' := FreeFirst(h, a);
    FreeLast(h', a + 2);
  }

  lemma FreeFirst(h: Heap, a: nat) returns (h': Heap)
    requires Live(h.chunks) == map[a := 1, a + 2 := 1] && a + 3 !in h.chunks
    ensures Callable(h, Free(a)) && h' == Freed(h, a) && Live(h'.chunks) == map[a + 2 := 1] && a + 3 !in h'.chunks
  {
    LiveSize(h.chunks, a);
    h' := FreedOf(h, a);
    OneIsLeft(a);
  }

  lemma FreedOf(h: Heap, a: nat) returns (h': Heap)
    requires a in Live(h.chunks) && 0 < h.chunks[a].size
    ensures h' == Freed(h, a) && Live(h'.chunks) == Live(h.chunks) - {a} && h'.chunks.Keys <= h.chunks.Keys
  {
    FreedLive(h, a);
    h' := Freed(h, a);
  }

  lemma OneIsLeft(a: nat)
    ensures map[a := 1, a + 2 := 1] - {a} == map[a + 2 := 1]
  {
  }

  /** Two single bytes allocated and freed again, from a heap of odd size. */
  lemma OddRun(g: Heap, a: nat) returns (run: seq<Call>, h: Heap)
    requires a % 2 == 0 && EvenBelow(g, a)
    ensures Leads(OddHeap(g, a), run, h) && Live(h.chunks) == map[]
    ensures a + 2 in h.chunks && a + 2 !in OddHeap(g, a).chunks
  {
    var h0 := OddHeapIs(g, a);
    var h1, h2 := TakeTwo(h0, g, a);
    var h3 := FreeTwo(h2, g, a);
    h := Freed(h3, a + 2);
    run := FourCalls(h0, h1, h2, h3, h, a);
  }

  lemma FourCalls(h0: Heap, h1: Heap, h2: Heap, h3: Heap, h4: Heap, a: nat) returns (run: seq<Call>)
    requires Agree(h0) && h1 == Allocated(h0, 1).0 && Agree(h1) && h2 == Allocated(h1, 1).0
    requires Callable(h2, Free(a)) && h3 == Freed(h2, a) && Callable(h3, Free(a + 2)) && h4 == Freed(h3, a + 2)
    ensures run == [Malloc(1), Malloc(1), Free(a), Free(a + 2)] && Leads(h0, run, h4)
  {
    LeadsFirst(h3, Free(a + 2), [], h4);
    LeadsFirst(h2, Free(a), [Free(a + 2)], h4);
    LeadsFirst(h1, Malloc(1), [Free(a), Free(a + 2)], h4);
    LeadsFirst(h0, Malloc(1), [Malloc(1), Free(a), Free(a + 2)], h4);
    run := [Malloc(1), Malloc(1), Free(a), Free(a + 2)];
  }

  /** Every run that ends with nothing live ends with the constructor's chunk map. */
  ghost predicate Canonical(total: nat) {
    forall run: seq<Call>, h: Heap :: Leads(Start(total), run, h) && Live(h.chunks) == map[] ==>
      h.chunks == Start(total).chunks
  }

  /** Freeing everything always leads back to the constructor's chunk map if and only if the heap's
      size is even, or one. */
  lemma CanonicalIffEven(total: nat)
    requires total > 0
    ensures Canonical(total) <==> total % 2 == 0 || total == 1
  {
    if total % 2 == 0 || total == 1 {
      StartIsValid(total);
      forall run: seq<Call>, h: Heap | Leads(Start(total), run, h) && Live(h.chunks) == map[]
        ensures h.chunks == Start(total).chunks
      {
        LeadsKeepsValid(Start(total), total, run, h);
        LiveDetermines(h.chunks, Start(total).chunks, total);
      }
    } else {
      var g, a := OddStart(total);
      var run, h := OddRun(g, a);
      assert Leads(Start(total), run, h);
    }
  }
}
