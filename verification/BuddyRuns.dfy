/** The heap a constructor builds, and what holds after any sequence of calls on it. */
module BuddyRuns {
  import opened Wrappers
  import opened PowersOfTwo
  import opened BuddyChunks
  import opened BuddyHeap
  import opened BuddyTheorems

  // ---------------------------------------------------------------- the constructor

  /** The size of the next chunk when `size` bytes remain. */
  function FirstPiece(size: nat): nat
    requires size > 0
  {
    if And(size, size - 1) != 0 then NextPow2(size / 2) else size
  }

  lemma FirstPieceIs(size: nat)
    requires size > 0
    ensures FirstPiece(size) == if IsPow2(size) then size else NextPow2(size / 2)
  {
    AndPredecessor(size);
  }

  lemma FirstPieceFits(size: nat)
    requires size > 0
    ensures IsPow2(FirstPiece(size)) && FirstPiece(size) <= size
    ensures size % 2 == 0 || size == 1 ==> size < 2 * FirstPiece(size)
  {
    FirstPieceIs(size);
    NextPow2Fits(size / 2);
  }

  /** The sizes the loop of the constructor chooses. */
  ghost function Pieces(size: nat): seq<nat> {
    if size == 0 then [] else
    FirstPieceFits(size);
    [FirstPiece(size)] + Pieces(size - FirstPiece(size))
  }

  lemma PiecesStep(size: nat)
    requires 0 < size
    ensures 0 < FirstPiece(size) <= size && Pieces(size) != []
    ensures Pieces(size)[0] == FirstPiece(size) && Pieces(size)[1..] == Pieces(size - FirstPiece(size))
  {
    FirstPieceFits(size);
  }

  /** The binary expansion of a number, highest power first. */
  ghost predicate Expansion(ps: seq<nat>, size: nat)
    decreases |ps|
  {
    if ps == [] then size == 0
    else IsPow2(ps[0]) && ps[0] <= size < 2 * ps[0] && Expansion(ps[1..], size - ps[0])
  }

  lemma {:induction false} EvenSizesExpand(size: nat)
    requires size % 2 == 0 || size == 1
    ensures Expansion(Pieces(size), size)
  {
    if size > 0 {
      FirstPieceFits(size);
      EvenSizesExpand(size - FirstPiece(size));
    }
  }

  function WithPiece(h: Heap, offset: nat, s: nat): Heap {
    Added(WithChunk(h, offset, Chunk(s, false)), offset)
  }

  /** Chunks of the given sizes, one after another. */
  ghost function Built(h: Heap, offset: nat, ps: seq<nat>): Heap
    decreases |ps|
  {
    if ps == [] then h else Built(WithPiece(h, offset, ps[0]), offset + ps[0], ps[1..])
  }

  const EMPTY := Heap(map[], map[])

  ghost function Start(total: nat): Heap { Built(EMPTY, 0, Pieces(total)) }

  /** Building what remains from here leads to the whole heap. */
  ghost predicate StillToBuild(h: Heap, offset: nat, rest: nat, total: nat) {
    Built(h, offset, Pieces(rest)) == Start(total)
  }

  lemma BuildsOn(h: Heap, offset: nat, rest: nat, total: nat)
    requires StillToBuild(h, offset, rest, total) && 0 < rest
    ensures FirstPiece(rest) <= rest
    ensures StillToBuild(WithPiece(h, offset, FirstPiece(rest)), offset + FirstPiece(rest), rest - FirstPiece(rest), total)
  {
    PiecesStep(rest);
  }

  lemma BuildsNoMore(h: Heap, offset: nat, total: nat)
    requires StillToBuild(h, offset, 0, total)
    ensures h == Start(total)
  {
  }

  /** Everything built so far is at least as large as `p`, which exceeds what remains. */
  ghost predicate LargeSoFar(c: Chunks, p: nat) { forall a: nat :: a in c ==> p <= c[a].size }

  lemma PieceTiles(c: Chunks, offset: nat, s: nat)
    requires Tiles(c, 0, offset) && 0 < s
    ensures Tiles(c[offset := Chunk(s, false)], 0, offset + s) && offset !in c
  {
    var d, to := c[offset := Chunk(s, false)], offset + s;
    assert PieceOk(c, 0, offset, offset);
    forall x: nat ensures PieceOk(d, 0, to, x) { assert PieceOk(c, 0, offset, x); }
    forall x: nat, y: nat ensures Disjoint(d, x, y) {
      assert Disjoint(c, x, y) && PieceOk(c, 0, offset, x) && PieceOk(c, 0, offset, y);
    }
  }

  lemma PieceChunks(c: Chunks, offset: nat, s: nat, p: nat)
    requires WellFormed(c, offset) && IsPow2(s) && IsPow2(p) && s < p
    requires Aligned(offset, p) && LargeSoFar(c, p)
    ensures WellFormed(c[offset := Chunk(s, false)], offset + s) && Aligned(offset + s, s) && offset !in c
  {
    var d := c[offset := Chunk(s, false)];
    PieceTiles(c, offset, s);
    AlignedToLess(offset, p, s);
    SelfAligned(s);
    AlignedSum(offset, s, s);
    forall x: nat ensures AlignedAt(d, x) && Unmerged(d, x) {
      assert AlignedAt(c, x) && Unmerged(c, x) && PieceOk(c, 0, offset, x);
    }
  }

  lemma PieceAgrees(h: Heap, offset: nat, s: nat)
    requires Agree(h) && offset !in h.chunks
    ensures Agree(WithPiece(h, offset, s))
    ensures WithPiece(h, offset, s).chunks == h.chunks[offset := Chunk(s, false)]
  {
    ResizedAgrees(h, offset, s);
    assert WithChunk(WithChunk(h, offset, Chunk(s, false)), offset, Chunk(s, true)) == WithChunk(h, offset, Chunk(s, true));
    AddedAgrees(WithChunk(h, offset, Chunk(s, false)), offset, s);
  }

  /** Each chunk is the largest power of two that fits in what was left. */
  ghost predicate Largest(c: Chunks, total: nat) {
    forall a: nat :: a in c ==> a < total && c[a].size <= total - a < 2 * c[a].size
  }

  ghost predicate AllFree(c: Chunks) { forall a: nat :: a in c ==> !c[a].inUse }

  lemma PieceIsLargest(c: Chunks, offset: nat, size: nat, s: nat, p: nat)
    requires 0 < s <= size < 2 * s && s <= p
    requires LargeSoFar(c, p) && AllFree(c) && Largest(c, offset + size)
    ensures var d := c[offset := Chunk(s, false)]; LargeSoFar(d, s) && AllFree(d) && Largest(d, offset + size)
  {
  }

  ghost predicate Building(h: Heap, offset: nat, size: nat, p: nat) {
    && Valid(h, offset) && IsPow2(p) && size < p && Aligned(offset, p)
    && LargeSoFar(h.chunks, p) && AllFree(h.chunks) && Largest(h.chunks, offset + size)
  }

  lemma BuildingStep(h: Heap, offset: nat, size: nat, p: nat, s: nat)
    requires Building(h, offset, size, p) && IsPow2(s) && s <= size < 2 * s
    ensures Building(WithPiece(h, offset, s), offset + s, size - s, s)
  {
    PieceChunks(h.chunks, offset, s, p);
    PieceAgrees(h, offset, s);
    PieceIsLargest(h.chunks, offset, size, s, p);
  }

  /** Building the given pieces from here ends with a heap that is complete. */
  ghost predicate Completes(h: Heap, offset: nat, size: nat, ps: seq<nat>) {
    var g := Built(h, offset, ps);
    Valid(g, offset + size) && AllFree(g.chunks) && Largest(g.chunks, offset + size)
  }

  lemma CompletesFrom(h: Heap, offset: nat, size: nat, ps: seq<nat>, g: Heap, o: nat, n: nat)
    requires ps != [] && ps[0] <= size
    requires g == WithPiece(h, offset, ps[0]) && o == offset + ps[0] && n == size - ps[0]
    requires Completes(g, o, n, ps[1..])
    ensures Completes(h, offset, size, ps)
  {
  }

  lemma CompletesNow(h: Heap, offset: nat, size: nat, p: nat)
    requires Building(h, offset, size, p) && Expansion([], size)
    ensures Completes(h, offset, size, [])
  {
  }

  /** The next stage. */
  lemma BuildingRest(h: Heap, offset: nat, size: nat, p: nat, ps: seq<nat>) returns (g: Heap, o: nat, n: nat)
    requires Building(h, offset, size, p) && Expansion(ps, size) && ps != []
    ensures ps[0] <= size && g == WithPiece(h, offset, ps[0]) && o == offset + ps[0] && n == size - ps[0]
    ensures Building(g, o, n, ps[0]) && Expansion(ps[1..], n)
  {
    BuildingStep(h, offset, size, p, ps[0]);
    g, o, n := WithPiece(h, offset, ps[0]), offset + ps[0], size - ps[0];
  }

  lemma {:induction false} ExpansionBuilds(h: Heap, offset: nat, size: nat, p: nat, ps: seq<nat>)
    requires Building(h, offset, size, p) && Expansion(ps, size)
    ensures Completes(h, offset, size, ps)
    decreases |ps|
  {
    if ps == [] {
      CompletesNow(h, offset, size, p);
    } else {
      var g, o, n := BuildingRest(h, offset, size, p, ps);
      ExpansionBuilds(g, o, n, ps[0], ps[1..]);
      CompletesFrom(h, offset, size, ps, g, o, n);
    }
  }

  lemma EmptyIsBuilding(total: nat, p: nat)
    requires IsPow2(p) && total < p
    ensures Building(EMPTY, 0, total, p)
  {
    ZeroAligned(p);
    assert forall x: nat :: PieceOk(EMPTY.chunks, 0, 0, x) && AlignedAt(EMPTY.chunks, x) && Unmerged(EMPTY.chunks, x);
    assert forall x: nat, y: nat :: Disjoint(EMPTY.chunks, x, y) && Listed(EMPTY, x, y);
    assert forall x: nat :: ListOk(EMPTY.lists, x);
  }

  /** A heap of even size starts out valid, as the binary expansion of its size. */
  lemma StartIsValid(total: nat)
    requires total % 2 == 0 || total == 1
    ensures Valid(Start(total), total) && Live(Start(total).chunks) == map[]
    ensures Largest(Start(total).chunks, total)
  {
    var p := NextPow2(total + 1);
    NextPow2Fits(total + 1);
    EmptyIsBuilding(total, p);
    EvenSizesExpand(total);
    ExpansionBuilds(EMPTY, 0, total, p, Pieces(total));
  }

  // ---------------------------------------------------------------- odd sizes

  /** Even sizes, and then one and two. */
  ghost predicate OddEnd(ps: seq<nat>)
    decreases |ps|
  {
    ps == [1, 2] || (ps != [] && 0 < ps[0] && ps[0] % 2 == 0 && OddEnd(ps[1..]))
  }

  lemma OddPiece(size: nat)
    requires size % 2 == 1 && size > 3
    ensures 0 < FirstPiece(size) && FirstPiece(size) % 2 == 0 && size - FirstPiece(size) >= 3
  {
    FirstPieceIs(size);
    NextPow2Fits(size / 2);
  }

  lemma ThreePieces()
    ensures Pieces(3) == [1, 2]
  {
    FirstPieceIs(3);
    FirstPieceIs(2);
    assert FirstPiece(3) == 1 && FirstPiece(2) == 2;
    assert Pieces(2) == [2] + Pieces(0);
    assert Pieces(3) == [1] + Pieces(2);
  }

  lemma {:induction false} OddSizesEndOdd(size: nat)
    requires size % 2 == 1 && size >= 3
    ensures OddEnd(Pieces(size))
  {
    if size == 3 {
      ThreePieces();
    } else {
      OddPiece(size);
      OddSizesEndOdd(size - FirstPiece(size));
    }
  }

  ghost predicate PairAt(h: Heap, a: nat) { a in h.chunks && h.chunks[a].size == 2 }

  lemma BuiltPair(h: Heap, offset: nat)
    ensures PairAt(Built(h, offset, [1, 2]), offset + 1)
  {
    var g := WithPiece(h, offset, 1);
    assert [1, 2][1..] == [2] && [2][1..] == [];
    assert Built(h, offset, [1, 2]) == Built(g, offset + 1, [2]);
    assert Built(g, offset + 1, [2]) == WithPiece(g, offset + 1, 2);
  }

  /** The last chunk has two bytes and lies at an odd offset. */
  lemma {:induction false} OddEndIsMisaligned(h: Heap, offset: nat, ps: seq<nat>) returns (a: nat)
    requires OddEnd(ps) && offset % 2 == 0
    ensures a % 2 == 1 && PairAt(Built(h, offset, ps), a)
    decreases |ps|
  {
    if ps == [1, 2] {
      BuiltPair(h, offset);
      a := offset + 1;
    } else {
      a := OddEndIsMisaligned(WithPiece(h, offset, ps[0]), offset + ps[0], ps[1..]);
    }
  }

  /** The constructor aligns every chunk to its size exactly when the heap's size is even, or one. */
  lemma AlignedIffEven(total: nat)
    requires total > 0
    ensures (forall a: nat :: AlignedAt(Start(total).chunks, a)) <==> total % 2 == 0 || total == 1
  {
    if total % 2 == 0 || total == 1 {
      StartIsValid(total);
    } else {
      OddSizesEndOdd(total);
      var a := OddEndIsMisaligned(EMPTY, 0, Pieces(total));
      assert !AlignedAt(Start(total).chunks, a);
    }
  }

  // ---------------------------------------------------------------- runs

  datatype Call = Malloc(n: nat) | Free(a: nat)

  ghost predicate Allowed(h: Heap, c: Call) {
    match c
    case Malloc(n) => 0 < n
    case Free(a) => a in Live(h.chunks)
  }

  ghost function After(h: Heap, total: nat, c: Call): (h': Heap)
    requires Valid(h, total) && Allowed(h, c)
    ensures Valid(h', total)
  {
    match c
    case Malloc(n) => Called(h, total, n); Allocated(h, NextPow2(n)).0
    case Free(a) => FreeKeeps(h, total, a); Freed(h, a)
  }

  lemma Called(h: Heap, total: nat, n: nat)
    requires Valid(h, total)
    ensures IsPow2(NextPow2(n)) && Valid(Allocated(h, NextPow2(n)).0, total)
  {
    NextPow2Fits(n);
    if Allocated(h, NextPow2(n)).1.None? { MallocFailsIff(h, NextPow2(n)); } else { MallocKeeps(h, total, NextPow2(n)); }
  }

  ghost predicate Possible(h: Heap, total: nat, run: seq<Call>)
    requires Valid(h, total)
    decreases |run|
  {
    run == [] || (Allowed(h, run[0]) && Possible(After(h, total, run[0]), total, run[1..]))
  }

  ghost function Reached(h: Heap, total: nat, run: seq<Call>): (h': Heap)
    requires Valid(h, total) && Possible(h, total, run)
    ensures Valid(h', total)
    decreases |run|
  {
    if run == [] then h else Reached(After(h, total, run[0]), total, run[1..])
  }

  /** In every reachable state the chunks tile the heap, aligned and with powers of two as sizes,
      the free lists hold just the free chunks, and no two free buddies are left unmerged. */
  lemma ReachedIsValid(total: nat, run: seq<Call>)
    requires total % 2 == 0 || total == 1
    requires (StartIsValid(total); Possible(Start(total), total, run))
    ensures (StartIsValid(total); Valid(Reached(Start(total), total, run), total))
  {
  }

  /** The live chunks alone determine the chunk map, whatever calls led to it. */
  lemma HistoryDoesNotMatter(total: nat, run: seq<Call>, run': seq<Call>)
    requires total % 2 == 0 || total == 1
    requires (StartIsValid(total); Possible(Start(total), total, run) && Possible(Start(total), total, run'))
    requires (StartIsValid(total);
              Live(Reached(Start(total), total, run).chunks) == Live(Reached(Start(total), total, run').chunks))
    ensures (StartIsValid(total);
             Reached(Start(total), total, run).chunks == Reached(Start(total), total, run').chunks)
  {
    StartIsValid(total);
    LiveDetermines(Reached(Start(total), total, run).chunks, Reached(Start(total), total, run').chunks, total);
  }

  /** Once nothing is live any more, the chunk map is the one the constructor built. */
  lemma CanonicalWhenEmpty(total: nat, run: seq<Call>)
    requires total % 2 == 0 || total == 1
    requires (StartIsValid(total); Possible(Start(total), total, run))
    requires (StartIsValid(total); Live(Reached(Start(total), total, run).chunks) == map[])
    ensures (StartIsValid(total); Reached(Start(total), total, run).chunks == Start(total).chunks)
  {
    StartIsValid(total);
    LiveDetermines(Reached(Start(total), total, run).chunks, Start(total).chunks, total);
  }
}
