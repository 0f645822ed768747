/** The chunk map of the buddy allocator, and why what is live determines all of it. */
module BuddyChunks {
  import opened PowersOfTwo

  datatype Chunk = Chunk(size: nat, inUse: bool)

  /** Chunks by offset. */
  type Chunks = map<nat, Chunk>

  // ---------------------------------------------------------------- well-formed chunk maps

  /** A chunk lies within the range, and another one starts where it ends. */
  ghost predicate PieceOk(c: Chunks, from: nat, to: nat, a: nat) {
    a in c ==>
      && 0 < c[a].size && from <= a && a + c[a].size <= to
      && (a + c[a].size < to ==> a + c[a].size in c)
  }

  ghost predicate Disjoint(c: Chunks, a: nat, b: nat) {
    a in c && b in c && a < b ==> a + c[a].size <= b
  }

  /** The chunks cover the range without gap or overlap. */
  ghost predicate Tiles(c: Chunks, from: nat, to: nat) {
    && (from < to ==> from in c)
    && (forall a: nat :: PieceOk(c, from, to, a))
    && (forall a: nat, b: nat :: Disjoint(c, a, b))
  }

  ghost predicate AlignedAt(c: Chunks, a: nat) {
    a in c ==> IsPow2(c[a].size) && Aligned(a, c[a].size)
  }

  /** Not the lower one of two free buddies. */
  ghost predicate Unmerged(c: Chunks, a: nat) {
    a in c && AlignedAt(c, a) ==>
      var s := c[a].size;
      !(!c[a].inUse && a + s in c && c[a + s] == Chunk(s, false) && IsPow2(2 * s) && Aligned(a, 2 * s))
  }

  ghost predicate WellFormed(c: Chunks, total: nat) {
    && Tiles(c, 0, total)
    && (forall a: nat :: AlignedAt(c, a))
    && (forall a: nat :: Unmerged(c, a))
  }

  /** The chunks in use, with their sizes. */
  ghost function Live(c: Chunks): map<nat, nat> { map a | a in c && c[a].inUse :: c[a].size }

  // ---------------------------------------------------------------- one step on chunk maps

  function Mark(c: Chunks, a: nat, inUse: bool): Chunks
    requires a in c
  {
    c[a := c[a].(inUse := inUse)]
  }

  /** A chunk cut in two; the lower half is free, the upper half goes on being used. */
  ghost function Cut(c: Chunks, a: nat): Chunks
    requires a in c
  {
    var s := c[a].size / 2;
    c[a := Chunk(s, false)][a + s := Chunk(s, true)]
  }

  /** Two chunks of one size made into one that is in use. */
  ghost function Joined(c: Chunks, a: nat): Chunks
    requires a in c
  {
    var s := c[a].size;
    (c - {a + s})[a := Chunk(2 * s, true)]
  }

  lemma MarkKeeps(c: Chunks, total: nat, a: nat)
    requires WellFormed(c, total) && a in c
    ensures WellFormed(Mark(c, a, true), total)
  {
    var d := Mark(c, a, true);
    forall x: nat ensures PieceOk(d, 0, total, x) && AlignedAt(d, x) && Unmerged(d, x) {
      assert PieceOk(c, 0, total, x) && AlignedAt(c, x) && Unmerged(c, x);
    }
    forall x: nat, y: nat ensures Disjoint(d, x, y) { assert Disjoint(c, x, y); }
  }

  lemma CutTiles(c: Chunks, total: nat, a: nat)
    requires Tiles(c, 0, total) && a in c && c[a].size > 1 && c[a].size % 2 == 0
    ensures Tiles(Cut(c, a), 0, total) && a + c[a].size / 2 !in c
  {
    var d := Cut(c, a);
    var s := c[a].size / 2;
    assert PieceOk(c, 0, total, a) && Disjoint(c, a, a + s);
    forall x: nat ensures PieceOk(d, 0, total, x) { assert PieceOk(c, 0, total, x); }
    forall x: nat, y: nat ensures Disjoint(d, x, y) {
      assert Disjoint(c, x, y) && Disjoint(c, x, a) && Disjoint(c, a, x) && Disjoint(c, a, y);
    }
  }

  lemma CutKeeps(c: Chunks, total: nat, a: nat)
    requires WellFormed(c, total) && a in c && c[a].inUse && c[a].size > 1
    ensures WellFormed(Cut(c, a), total) && a + c[a].size / 2 !in c
  {
    var d := Cut(c, a);
    var s := c[a].size / 2;
    assert AlignedAt(c, a);
    CutTiles(c, total, a);
    Halves(a, s);
    forall x: nat ensures AlignedAt(d, x) && Unmerged(d, x) {
      assert AlignedAt(c, x) && Unmerged(c, x);
      if x in c && c[x].size == s && x + s == a && Aligned(x, c[x].size) {
        AlternatelyAligned(x, s);
      }
    }
  }

  lemma Halves(a: nat, s: nat)
    requires IsPow2(2 * s) && IsPow2(s) && Aligned(a, 2 * s)
    ensures Aligned(a, s) && Aligned(a + s, s) && !Aligned(a + s, 2 * s)
  {
    AlignedToLess(a, 2 * s, s);
    AlternatelyAligned(a, s);
  }

  lemma JoinTiles(c: Chunks, total: nat, a: nat)
    requires Tiles(c, 0, total) && a in c && a + c[a].size in c && c[a + c[a].size].size == c[a].size
    ensures Tiles(Joined(c, a), 0, total)
  {
    var d := Joined(c, a);
    var s := c[a].size;
    assert PieceOk(c, 0, total, a) && PieceOk(c, 0, total, a + s);
    forall x: nat ensures PieceOk(d, 0, total, x) {
      assert PieceOk(c, 0, total, x) && Disjoint(c, x, a) && Disjoint(c, a, x);
    }
    forall x: nat, y: nat ensures Disjoint(d, x, y) {
      assert Disjoint(c, x, y) && Disjoint(c, a + s, y);
    }
  }

  /** Joining buddies, of which one is in use, keeps the map well formed. */
  lemma JoinKeeps(c: Chunks, total: nat, a: nat)
    requires WellFormed(c, total) && a in c && a + c[a].size in c && c[a + c[a].size].size == c[a].size
    requires IsPow2(c[a].size) && IsPow2(2 * c[a].size) && Aligned(a, 2 * c[a].size)
    ensures WellFormed(Joined(c, a), total)
  {
    var d := Joined(c, a);
    JoinTiles(c, total, a);
    forall x: nat ensures AlignedAt(d, x) && Unmerged(d, x) {
      assert AlignedAt(c, x) && Unmerged(c, x);
    }
  }

  /** The address of the buddy, as the source computes it. */
  function Buddy(c: Chunks, a: nat): nat
    requires a in c
  {
    Xor(a, c[a].size)
  }

  predicate FreeBuddy(c: Chunks, a: nat)
    requires a in c
  {
    var b := Buddy(c, a);
    b in c && c[b].size == c[a].size && !c[b].inUse
  }

  /** What being buddies means for a well-formed map. */
  lemma BuddiesAreNeighbours(c: Chunks, total: nat, a: nat)
    requires WellFormed(c, total) && a in c
    ensures var s := c[a].size;
            && IsPow2(s) && IsPow2(2 * s) && Aligned(a, s)
            && (Aligned(a, 2 * s) ==> Buddy(c, a) == a + s)
            && (!Aligned(a, 2 * s) ==> s <= a && Buddy(c, a) == a - s && Aligned(a - s, 2 * s))
  {
    assert AlignedAt(c, a);
    Double(c[a].size);
    XorBuddy(a, c[a].size);
    AlternatelyAligned(a, c[a].size);
  }

  /** A chunk without a free buddy of its size may be set free. */
  lemma ReleaseKeeps(c: Chunks, total: nat, a: nat)
    requires WellFormed(c, total) && a in c && !FreeBuddy(c, a)
    ensures WellFormed(Mark(c, a, false), total)
  {
    var d := Mark(c, a, false);
    var s := c[a].size;
    BuddiesAreNeighbours(c, total, a);
    assert PieceOk(c, 0, total, a);
    forall x: nat ensures PieceOk(d, 0, total, x) && AlignedAt(d, x) && Unmerged(d, x) {
      assert PieceOk(c, 0, total, x) && AlignedAt(c, x) && Unmerged(c, x);
      if x in c && c[x].size == s && x + s == a && AlignedAt(c, x) {
        AlternatelyAligned(x, s);
      }
    }
    forall x: nat, y: nat ensures Disjoint(d, x, y) { assert Disjoint(c, x, y); }
  }

  /** Two free chunks made into one. */
  ghost function Fused(c: Chunks, lo: nat, hi: nat): Chunks
    requires lo in c
  {
    (c - {hi})[lo := Chunk(2 * c[lo].size, false)]
  }

  lemma FusedLive(c: Chunks, lo: nat, hi: nat)
    requires lo in c && hi in c && !c[lo].inUse && !c[hi].inUse
    ensures Live(Fused(c, lo, hi)) == Live(c)
  {
  }

  /** A chunk and its free buddy join into a chunk of twice the size. */
  lemma BuddiesJoin(c: Chunks, total: nat, a: nat, lo: nat, hi: nat)
    requires a in c && WellFormed(Mark(c, a, true), total) && FreeBuddy(c, a)
    requires lo == if a < Buddy(c, a) then a else Buddy(c, a)
    requires hi == if a < Buddy(c, a) then Buddy(c, a) else a
    ensures {lo, hi} == {a, Buddy(c, a)} && lo != hi
    ensures WellFormed(Mark(Fused(c, lo, hi), lo, true), total)
  {
    var d := Mark(c, a, true);
    BuddiesAreNeighbours(d, total, a);
    assert 0 < c[a].size && hi == lo + c[a].size && c[lo].size == c[a].size;
    JoinKeeps(d, total, lo);
    assert Joined(d, lo) == Mark(Fused(c, lo, hi), lo, true);
  }

  lemma NoFreeBuddy(c: Chunks, total: nat, a: nat)
    requires WellFormed(c, total) && a in c && !c[a].inUse
    ensures 0 < c[a].size && !FreeBuddy(c, a)
  {
    var b := Buddy(c, a);
    BuddiesAreNeighbours(c, total, a);
    assert Unmerged(c, a) && Unmerged(c, b) && AlignedAt(c, b);
  }

  // ---------------------------------------------------------------- every byte is in one chunk

  lemma {:induction false} Covered(c: Chunks, total: nat, k: nat, x: nat) returns (a: nat)
    requires Tiles(c, 0, total) && k in c && k <= x < total
    ensures a in c && a <= x < a + c[a].size
    decreases total - k
  {
    assert PieceOk(c, 0, total, k);
    if x < k + c[k].size { a := k; } else { a := Covered(c, total, k + c[k].size, x); }
  }

  lemma EveryByteInOneChunk(c: Chunks, total: nat, x: nat) returns (a: nat)
    requires WellFormed(c, total) && x < total
    ensures a in c && a <= x < a + c[a].size
    ensures forall b: nat :: b in c && b <= x < b + c[b].size ==> b == a
  {
    a := Covered(c, total, 0, x);
    forall b: nat ensures b in c && b <= x < b + c[b].size ==> b == a {
      assert Disjoint(c, a, b) && Disjoint(c, b, a);
    }
  }

  // ---------------------------------------------------------------- what is live determines the map

  ghost predicate FreeWithin(c: Chunks, a: nat, b: nat) {
    forall x: nat :: x in c && a <= x < b ==> !c[x].inUse
  }

  /** An aligned block in which nothing is live is not split. */
  lemma {:induction false} FreeBlockIsWhole(c: Chunks, total: nat, a: nat, block: nat)
    requires WellFormed(c, total) && a in c
    requires IsPow2(block) && Aligned(a, block) && a + block <= total && c[a].size <= block
    requires FreeWithin(c, a, a + block)
    ensures c[a].size == block
    decreases block
  {
    assert AlignedAt(c, a) && PieceOk(c, 0, total, a) && Unmerged(c, a);
    if c[a].size < block {
      var half := block / 2;
      Apart(c[a].size, block);
      Halves(a, half);
      FreeBlockIsWhole(c, total, a, half);
      var b := a + half;
      assert AlignedAt(c, b) && PieceOk(c, 0, total, b);
      if c[b].size > half {
        Apart(half, c[b].size);
        AlignedToLess(b, c[b].size, block);
      }
      FreeBlockIsWhole(c, total, b, half);
    }
  }

  /** Chunks at one offset in two maps with the same live chunks: neither can be the smaller. */
  lemma NotSmaller(c: Chunks, d: Chunks, total: nat, a: nat)
    requires WellFormed(c, total) && WellFormed(d, total) && Live(c) == Live(d)
    requires a in c && a in d && !c[a].inUse && !d[a].inUse
    ensures c[a].size >= d[a].size
  {
    if c[a].size < d[a].size {
      assert AlignedAt(d, a) && PieceOk(d, 0, total, a);
      forall x: nat | x in c && a <= x < a + d[a].size ensures !c[x].inUse {
        assert x in Live(c) <==> x in Live(d);
        assert Disjoint(d, a, x);
      }
      FreeBlockIsWhole(c, total, a, d[a].size);
    }
  }

  lemma SameChunk(c: Chunks, d: Chunks, total: nat, a: nat)
    requires WellFormed(c, total) && WellFormed(d, total) && Live(c) == Live(d)
    requires a in c && a in d
    ensures c[a] == d[a]
  {
    assert a in Live(c) <==> a in Live(d);
    if c[a].inUse {
      assert Live(c)[a] == Live(d)[a];
    } else {
      NotSmaller(c, d, total, a);
      NotSmaller(d, c, total, a);
    }
  }

  lemma {:induction false} SameFrom(c: Chunks, d: Chunks, total: nat, k: nat)
    requires WellFormed(c, total) && WellFormed(d, total) && Live(c) == Live(d)
    requires k in c && k in d
    ensures forall x: nat :: k <= x ==> (x in c <==> x in d) && (x in c ==> c[x] == d[x])
    decreases total - k
  {
    SameChunk(c, d, total, k);
    var next := k + c[k].size;
    assert PieceOk(c, 0, total, k) && PieceOk(d, 0, total, k);
    if next < total { SameFrom(c, d, total, next); }
    forall x: nat | k <= x ensures (x in c <==> x in d) && (x in c ==> c[x] == d[x]) {
      assert Disjoint(c, k, x) && Disjoint(d, k, x);
      assert PieceOk(c, 0, total, x) && PieceOk(d, 0, total, x);
    }
  }

  /** Two well-formed maps of one heap with the same live chunks are the same map. */
  lemma LiveDetermines(c: Chunks, d: Chunks, total: nat)
    requires WellFormed(c, total) && WellFormed(d, total) && Live(c) == Live(d)
    ensures c == d
  {
    if total > 0 {
      SameFrom(c, d, total, 0);
    } else {
      forall x: nat ensures x !in c && x !in d {
        assert PieceOk(c, 0, total, x) && PieceOk(d, 0, total, x);
      }
    }
    assert forall x :: x in c ==> x in d && c[x] == d[x];
    assert forall x :: x in d ==> x in c;
  }
}
