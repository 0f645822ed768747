/** memcpy between global arrays: every core copies the elements it holds, block by block. */
module ArrayCopy {
  import opened MachineWords
  import opened Addressing

  /** One writeback: `count` elements from local pointer `from` to destination elements `index` on. */
  datatype Piece = Piece(index: int, count: int, from: int)

  /** The arguments of one copy, as a core sees them. */
  datatype Job = Job(m: Machine, src: nat, sz: nat, nelem: nat)

  ghost predicate Ok(j: Job) { 0 < j.m.cores && AlignedTo(j.src, j.sz) && End(j) < TWO63 }

  function Unsigned(x: int): nat { x % TWO64 }

  // ---------------------------------------------------------------- what do_memcpy_locally computes

  function End(j: Job): nat { Elem(j.src, j.sz, j.nelem) }

  function PerBlock(j: Job): nat
    requires 0 < j.sz
  {
    BLOCK / j.sz
  }

  function NFirst(j: Job): int
    requires 0 < j.sz
  {
    (BlockMax(j.src, j.sz) - j.src) / j.sz
  }

  function NLast(j: Job): int
    requires 0 < j.sz
  {
    (End(j) - BlockMin(End(j))) / j.sz
  }

  /** The core of the last element; before the start of the heap, what C's division makes of it. */
  function LastCore(j: Job): int
    requires 0 < j.m.cores
  {
    if j.sz <= End(j) then Core(j.m, End(j) - j.sz)
    else if j.sz == BLOCK && j.m.cores > 1 then -1 else 0
  }

  predicate HasFirst(j: Job, me: nat)
    requires 0 < j.m.cores && 0 < j.sz
  {
    Core(j.m, j.src) == me && NFirst(j) > 0 && NLast(j) != PerBlock(j)
  }

  predicate HasLast(j: Job, me: nat)
    requires 0 < j.m.cores && 0 < j.sz
  {
    LastCore(j) == me && NLast(j) > 0 && NLast(j) != PerBlock(j)
  }

  function FirstPiece(j: Job): Piece
    requires 0 < j.m.cores && 0 < j.sz
  {
    Piece(0, NFirst(j), Pointer(j.m, j.src))
  }

  function LastPiece(j: Job): Piece
    requires 0 < j.m.cores && 0 < j.sz
  {
    Piece(j.nelem - NLast(j), NLast(j), Pointer(j.m, BlockMin(End(j))))
  }

  /** Where the whole blocks begin and end, as global addresses. */
  function Begin(j: Job, me: nat): nat
    requires 0 < j.m.cores && 0 < j.sz
  {
    if HasFirst(j, me) then BlockMin(j.src) + BLOCK else j.src
  }

  function Finish(j: Job, me: nat): nat
    requires 0 < j.m.cores && 0 < j.sz
  {
    if HasLast(j, me) then BlockMin(End(j)) else End(j)
  }

  function LocalBase(j: Job, me: nat): int
    requires 0 < j.m.cores && 0 < j.sz
  {
    Localize(j.m, Begin(j, me), j.sz, me)
  }

  /** The pointer difference, in elements, as a size_t. */
  function Trimmed(j: Job, me: nat): nat
    requires 0 < j.m.cores && 0 < j.sz
  {
    Unsigned((Localize(j.m, Finish(j, me), j.sz, me) - LocalBase(j, me)) / j.sz)
  }

  function BlockPiece(j: Job, me: nat, t: nat): Piece
    requires 0 < j.m.cores && 0 < j.sz
  {
    var from := LocalBase(j, me) + t * BLOCK;
    Piece((Linear(j.m, from, me) - j.src) / j.sz, PerBlock(j), from)
  }

  /** The whole blocks one after another. */
  function BlocksFrom(j: Job, me: nat, t: nat, count: nat): (ps: seq<Piece>)
    requires 0 < j.m.cores && 0 < j.sz
    ensures |ps| == count
    ensures forall i: nat :: i < count ==> ps[i] == BlockPiece(j, me, t + i)
    decreases count
  {
    if count == 0 then [] else [BlockPiece(j, me, t)] + BlocksFrom(j, me, t + 1, count - 1)
  }

  function NBlocks(j: Job, me: nat): nat
    requires 0 < j.m.cores && 0 < j.sz && 0 < PerBlock(j)
  {
    Quot(Trimmed(j, me), PerBlock(j))
  }

  function Quot(x: nat, k: nat): nat
    requires 0 < k
  {
    x / k
  }

  lemma SomePerBlock(j: Job)
    requires ElemSize(j.sz)
    ensures 0 < PerBlock(j)
  {
  }

  function Blocks(j: Job, me: nat): seq<Piece>
    requires Ok(j)
  {
    SomePerBlock(j);
    BlocksFrom(j, me, 0, NBlocks(j, me))
  }

  /** Everything core `me` copies. */
  function Plan(j: Job, me: nat): seq<Piece>
    requires Ok(j)
  {
    (if HasFirst(j, me) then [FirstPiece(j)] else [])
    + (if HasLast(j, me) then [LastPiece(j)] else [])
    + Blocks(j, me)
  }

  // ---------------------------------------------------------------- the first and last block

  /** The array reaches the end of its first block. */
  predicate Reaches(j: Job) {
    j.src / BLOCK < End(j) / BLOCK
  }

  lemma Exactly(x: int, sz: nat)
    requires 0 < sz && x % sz == 0
    ensures x / sz * sz == x
  {
  }

  lemma Scale(x: int, y: int, sz: nat)
    requires 0 < sz
    ensures x <= y <==> x * sz <= y * sz
  {
    assert x <= y ==> x * sz <= y * sz;
    assert y + 1 <= x ==> (y + 1) * sz <= x * sz;
  }

  lemma EndAligned(j: Job)
    requires Ok(j)
    ensures AlignedTo(End(j), j.sz) && End(j) == j.src + j.nelem * j.sz
  {
    ElemStep(j.src, j.sz, j.nelem);
    TimesIs(j.nelem, j.sz);
  }

  /** What the source computes by division, as byte distances. */
  lemma Edges(j: Job)
    requires Ok(j)
    ensures NFirst(j) * j.sz == BlockMin(j.src) + BLOCK - j.src && 0 < NFirst(j)
    ensures NLast(j) * j.sz == End(j) % BLOCK && 0 <= NLast(j) < PerBlock(j)
    ensures (NLast(j) > 0 <==> End(j) % BLOCK > 0)
    ensures PerBlock(j) * j.sz == BLOCK
  {
    EndAligned(j);
    AlignedIs(j.src, j.sz);
    AlignedIs(End(j), j.sz);
    WithinBlock(j.src, j.sz);
    WithinBlock(End(j), j.sz);
    BlocksAreMultiples(1, j.sz);
    MultiplesAdd(BlockMin(j.src), BLOCK, j.sz);
    MultiplesAdd(BlockMin(j.src) + BLOCK, j.src, j.sz);
    MultiplesAdd(End(j), BlockMin(End(j)), j.sz);
    Exactly(BlockMin(j.src) + BLOCK - j.src, j.sz);
    Exactly(End(j) % BLOCK, j.sz);
    Scale(1, NFirst(j), j.sz);
    Scale(1, NLast(j), j.sz);
    Scale(0, NLast(j), j.sz);
    Scale(PerBlock(j), NLast(j), j.sz);
  }

  /** The last element lies in the block where the array ends, unless the array ends with a block. */
  lemma LastCoreIs(j: Job)
    requires Ok(j) && NLast(j) > 0
    ensures LastCore(j) == Core(j.m, End(j))
  {
    Edges(j);
    EndAligned(j);
    WithinBlock(End(j), j.sz);
    AlignedIs(End(j), j.sz);
    BlocksAreMultiples(0, j.sz);
    MultiplesAdd(End(j), BlockMin(End(j)), j.sz);
    assert End(j) % BLOCK == End(j) - BlockMin(End(j));
    RoomForOne(0, End(j) % BLOCK, j.sz);
    assert (End(j) - j.sz) / BLOCK == End(j) / BLOCK;
  }

  /** It does when it has at least the elements the source counts for the first block. */
  lemma ReachesIff(j: Job)
    requires Ok(j)
    ensures Reaches(j) <==> NFirst(j) <= j.nelem
  {
    Edges(j);
    EndAligned(j);
    Scale(NFirst(j), j.nelem, j.sz);
  }

  // ---------------------------------------------------------------- rows of whole blocks

  /** How many blocks of core `me` come before block `b`. */
  ghost function Row(b: nat, me: nat, n: nat): nat
    requires 0 < n
  {
    b / n + if b % n > me then 1 else 0
  }

  /** The block in row `r` on core `me`. */
  ghost function BlockAt(r: nat, me: nat, n: nat): nat { r * n + me }

  lemma Lexicographic(q: nat, k: nat, r: nat, me: nat, n: nat)
    requires k < n && me < n
    ensures q * n + k <= r * n + me <==> q + (if k > me then 1 else 0) <= r
  {
    assert q < r ==> (q + 1) * n <= r * n;
    assert r < q ==> (r + 1) * n <= q * n;
  }

  lemma RowOrder(b: nat, r: nat, me: nat, n: nat)
    requires me < n
    ensures b <= BlockAt(r, me, n) <==> Row(b, me, n) <= r
    ensures BlockAt(r, me, n) % n == me && BlockAt(r, me, n) / n == r
  {
    Lexicographic(b / n, b % n, r, me, n);
    DivUnique(r * n + me, n, r, me);
  }

  lemma RowNext(b: nat, me: nat, n: nat)
    requires me < n && b % n != me
    ensures Row(b + 1, me, n) == Row(b, me, n)
  {
    NextBlock(b, n);
  }

  lemma AtLeast(q: nat, n: nat)
    requires 0 < n
    ensures q <= q * n
  {
    assert q * n == q * (n - 1) + q;
  }

  lemma RowSmall(b: nat, me: nat, n: nat)
    requires me < n
    ensures Row(b, me, n) <= b
  {
    var q, k := b / n, b % n;
    AtLeast(q, n);
    calc {
      b;
      q * n + k;
    }
  }

  lemma RowMonotone(b: nat, c: nat, me: nat, n: nat)
    requires me < n && b <= c
    ensures Row(b, me, n) <= Row(c, me, n)
  {
    RowOrder(c, Row(c, me, n), me, n);
    RowOrder(b, Row(c, me, n), me, n);
  }

  /** At the start of a block, or on another core, the local pointer is the start of a row. */
  lemma LocalizeIsRow(m: Machine, s: nat, sz: nat, me: nat)
    requires me < m.cores && ElemSize(sz) && (s % BLOCK == 0 || Core(m, s) != me)
    ensures Localize(m, s, sz, me) == m.base + BLOCK * Row(s / BLOCK, me, m.cores)
  {
    BlocksAreMultiples(0, sz);
    BlockMinPointer(m, s);
  }

  /** The first row of whole blocks, and the row after the last one. */
  ghost function FirstRow(j: Job, me: nat): nat
    requires 0 < j.m.cores
  {
    Row(j.src / BLOCK + 1, me, j.m.cores)
  }

  ghost function EndRow(j: Job, me: nat): nat
    requires 0 < j.m.cores
  {
    Row(End(j) / BLOCK, me, j.m.cores)
  }

  lemma BeginRow(j: Job, me: nat)
    requires Ok(j) && me < j.m.cores
    ensures LocalBase(j, me) == j.m.base + BLOCK * FirstRow(j, me)
  {
    Edges(j);
    if Core(j.m, j.src) != me { RowNext(j.src / BLOCK, me, j.m.cores); }
    LocalizeIsRow(j.m, Begin(j, me), j.sz, me);
  }

  lemma FinishRow(j: Job, me: nat)
    requires Ok(j) && me < j.m.cores
    ensures Localize(j.m, Finish(j, me), j.sz, me) == j.m.base + BLOCK * EndRow(j, me)
  {
    Edges(j);
    var e := End(j);
    if e % BLOCK > 0 {
      LastCoreIs(j);
      if Core(j.m, e) == me {
        assert Finish(j, me) == BlockMin(e);
        LocalizeIsRow(j.m, BlockMin(e), j.sz, me);
      } else {
        LocalizeIsRow(j.m, e, j.sz, me);
      }
    } else {
      LocalizeIsRow(j.m, e, j.sz, me);
    }
  }

  /** Whole blocks are counted in rows. */
  lemma BlockCount(j: Job, me: nat)
    requires Ok(j) && me < j.m.cores && FirstRow(j, me) <= EndRow(j, me)
    ensures Trimmed(j, me) == (EndRow(j, me) - FirstRow(j, me)) * PerBlock(j)
    ensures |Blocks(j, me)| == EndRow(j, me) - FirstRow(j, me)
    ensures forall t: nat :: t < |Blocks(j, me)| ==> Blocks(j, me)[t] == BlockPiece(j, me, t)
  {
    Edges(j);
    BeginRow(j, me);
    FinishRow(j, me);
    RowSmall(End(j) / BLOCK, me, j.m.cores);
    RowsInElements(EndRow(j, me) - FirstRow(j, me), PerBlock(j), j.sz);
  }

  lemma RowsInElements(rows: nat, k: nat, sz: nat)
    requires 0 < sz && k * sz == BLOCK && rows < TWO63 / BLOCK
    ensures BLOCK * rows / sz == rows * k
    ensures Unsigned(rows * k) == rows * k && 0 < k && rows * k / k == rows
  {
    assert BLOCK * rows == (rows * k) * sz by { assert (rows * k) * sz == rows * (k * sz); }
    DivUnique(BLOCK * rows, sz, rows * k, 0);
    assert k <= BLOCK by { assert k * 1 <= k * sz; }
    assert 0 < k;
    assert rows * k <= rows * BLOCK;
    DivUnique(rows * k, k, rows, 0);
  }

  // ---------------------------------------------------------------- what a piece covers

  ghost predicate Covers(p: Piece, i: nat) { p.index <= i < p.index + p.count }

  /** The source pointer a piece uses for element `i`. */
  ghost function SourceOf(p: Piece, j: Job, i: nat): int { p.from + (i - p.index) * j.sz }

  /** A piece is the part of the array that lies in block `b` of core `me`. */
  ghost predicate IsBlock(p: Piece, j: Job, me: nat, b: nat)
    requires 0 < j.m.cores
  {
    b % j.m.cores == me && forall i: nat :: TakesAt(p, j, b, i)
  }

  ghost predicate TakesAt(p: Piece, j: Job, b: nat, i: nat)
    requires 0 < j.m.cores
  {
    && (Covers(p, i) <==> InBlock(j, b, i))
    && (Covers(p, i) ==> SourceOf(p, j, i) == Pointer(j.m, Elem(j.src, j.sz, i)))
  }

  ghost predicate InBlock(j: Job, b: nat, i: nat) { i < j.nelem && Elem(j.src, j.sz, i) / BLOCK == b }

  /** A piece by the global bytes it takes. */
  lemma CoversBytes(p: Piece, j: Job, lo: nat, hi: nat, i: nat)
    requires Ok(j)
    requires j.src + p.index * j.sz == lo && p.count * j.sz == hi - lo
    ensures Covers(p, i) <==> lo <= Elem(j.src, j.sz, i) < hi
    ensures i < j.nelem <==> Elem(j.src, j.sz, i) < End(j)
    ensures (i - p.index) * j.sz == Elem(j.src, j.sz, i) - lo
  {
    TimesIs(i, j.sz);
    TimesIs(j.nelem, j.sz);
    Scale(p.index, i, j.sz);
    Scale(p.index + p.count, i, j.sz);
    Scale(j.nelem, i, j.sz);
    assert (p.index + p.count) * j.sz == p.index * j.sz + p.count * j.sz;
    assert (i - p.index) * j.sz == i * j.sz - p.index * j.sz;
  }

  lemma SameBlockPointer(m: Machine, lo: nat, x: nat)
    requires 0 < m.cores && lo <= x && x / BLOCK == lo / BLOCK
    ensures Pointer(m, x) == Pointer(m, lo) + (x - lo)
  {
  }

  /** A piece from `lo` to `hi`, where these bytes are the array's part of block `b`. */
  lemma BytesAreBlock(p: Piece, j: Job, me: nat, b: nat, lo: nat, hi: nat)
    requires Ok(j) && b % j.m.cores == me
    requires j.src + p.index * j.sz == lo && p.count * j.sz == hi - lo && p.from == Pointer(j.m, lo)
    requires lo / BLOCK == b && hi <= BLOCK * b + BLOCK
    requires lo == BLOCK * b || lo == j.src
    requires hi == BLOCK * b + BLOCK <= End(j) || hi == End(j)
    ensures IsBlock(p, j, me, b)
  {
    forall i: nat ensures TakesAt(p, j, b, i) {
      CoversBytes(p, j, lo, hi, i);
      if Covers(p, i) { SameBlockPointer(j.m, lo, Elem(j.src, j.sz, i)); }
    }
  }

  lemma FirstIsBlock(j: Job, me: nat)
    requires Ok(j) && Reaches(j) && HasFirst(j, me)
    ensures IsBlock(FirstPiece(j), j, me, j.src / BLOCK)
  {
    Edges(j);
    ReachesIff(j);
    BytesAreBlock(FirstPiece(j), j, me, j.src / BLOCK, j.src, BlockMin(j.src) + BLOCK);
  }

  lemma Distribute(a: int, b: int, sz: int)
    ensures (a - b) * sz == a * sz - b * sz
  {
  }

  /** The index of the last piece is where the array's last block begins. */
  lemma LastIndex(j: Job)
    requires Ok(j)
    ensures j.src + (j.nelem - NLast(j)) * j.sz == BlockMin(End(j)) == End(j) - NLast(j) * j.sz
  {
    Edges(j);
    EndAligned(j);
    Distribute(j.nelem, NLast(j), j.sz);
  }

  lemma LastBytes(j: Job, me: nat)
    requires Ok(j) && HasLast(j, me)
    ensures j.src + (j.nelem - NLast(j)) * j.sz == BlockMin(End(j)) && NLast(j) * j.sz == End(j) % BLOCK
    ensures End(j) / BLOCK % j.m.cores == me
  {
    LastIndex(j);
    LastCoreIs(j);
  }

  lemma LastIsBlock(j: Job, me: nat)
    requires Ok(j) && Reaches(j) && HasLast(j, me)
    ensures IsBlock(LastPiece(j), j, me, End(j) / BLOCK)
  {
    LastBytes(j, me);
    BytesAreBlock(LastPiece(j), j, me, End(j) / BLOCK, BlockMin(End(j)), End(j));
  }

  ghost function BlockNo(j: Job, me: nat, t: nat): nat
    requires 0 < j.m.cores
  {
    BlockAt(FirstRow(j, me) + t, me, j.m.cores)
  }

  /** Whole blocks lie strictly between the first and the last one. */
  lemma BetweenEdges(j: Job, me: nat, t: nat)
    requires Ok(j) && me < j.m.cores && t < EndRow(j, me) - FirstRow(j, me)
    ensures j.src / BLOCK < BlockNo(j, me, t) < End(j) / BLOCK
    ensures BlockNo(j, me, t) % j.m.cores == me && BlockNo(j, me, t) / j.m.cores == FirstRow(j, me) + t
  {
    RowOrder(j.src / BLOCK + 1, FirstRow(j, me) + t, me, j.m.cores);
    RowOrder(End(j) / BLOCK, FirstRow(j, me) + t, me, j.m.cores);
  }

  lemma BlockPieceIsBlock(j: Job, me: nat, t: nat)
    requires Ok(j) && me < j.m.cores && t < EndRow(j, me) - FirstRow(j, me)
    ensures IsBlock(BlockPiece(j, me, t), j, me, BlockNo(j, me, t))
  {
    Edges(j);
    BeginRow(j, me);
    BetweenEdges(j, me, t);
    var g := BlockNo(j, me, t);
    var p := BlockPiece(j, me, t);
    assert Linear(j.m, p.from, me) == BLOCK * g;
    AlignedIs(j.src, j.sz);
    BlocksAreMultiples(g, j.sz);
    MultiplesAdd(BLOCK * g, j.src, j.sz);
    Exactly(BLOCK * g - j.src, j.sz);
    BytesAreBlock(p, j, me, g, BLOCK * g, BLOCK * g + BLOCK);
  }
}
