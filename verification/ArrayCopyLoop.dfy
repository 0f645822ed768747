/** do_memcpy_locally as it runs on one core. */
module ArrayCopyLoop {
  import opened MachineWords
  import opened Addressing
  import opened ArrayCopy

  /** A whole number of blocks stays one as a size_t, even when it is negative. */
  lemma WrapKeepsBlocks(rows: int, k: nat, sz: nat)
    requires 0 < k && 0 < sz && k * sz == BLOCK
    ensures Unsigned(rows * k) % k == 0
  {
    var w := rows * k / TWO64;
    var z := TWO64 / BLOCK * sz;
    assert z * k == TWO64 by { assert z * k == TWO64 / BLOCK * (k * sz); }
    assert Unsigned(rows * k) == rows * k - w * TWO64;
    assert w * TWO64 == (w * z) * k by { assert (w * z) * k == w * (z * k); }
    assert (rows - w * z) * k == rows * k - (w * z) * k;
    DivUnique(Unsigned(rows * k), k, rows - w * z, 0);
  }

  lemma WholeBlocks(bytes: int, blocks: int, k: nat, sz: nat)
    requires 0 < sz && k * sz == BLOCK && bytes == BLOCK * blocks
    ensures bytes % sz == 0 && bytes / sz == blocks * k
  {
    assert (blocks * k) * sz == blocks * (k * sz);
    DivUnique(bytes, sz, blocks * k, 0);
  }

  lemma MiddleBytes(j: Job)
    requires Ok(j)
    ensures (j.nelem - NFirst(j) - NLast(j)) * j.sz == BLOCK * (End(j) / BLOCK - j.src / BLOCK - 1)
  {
    Edges(j);
    EndAligned(j);
    Distribute(j.nelem, NFirst(j), j.sz);
    Distribute(j.nelem - NFirst(j), NLast(j), j.sz);
  }

  lemma BlocksAsElements(n: int, blocks: int, k: nat, sz: nat)
    requires 0 < sz && 0 < k && k * sz == BLOCK && n * sz == BLOCK * blocks
    ensures Unsigned(n) % k == 0
  {
    WholeBlocks(BLOCK * blocks, blocks, k, sz);
    DivUnique(n * sz, sz, n, 0);
    WrapKeepsBlocks(blocks, k, sz);
  }

  /** The middle of the array is a whole number of blocks. */
  lemma MiddleIsWhole(j: Job)
    requires Ok(j)
    ensures 0 < PerBlock(j) && Unsigned(j.nelem - NFirst(j) - NLast(j)) % PerBlock(j) == 0
  {
    MiddleBytes(j);
    SomePerBlock(j);
    Edges(j);
    BlocksAsElements(j.nelem - NFirst(j) - NLast(j), End(j) / BLOCK - j.src / BLOCK - 1, PerBlock(j), j.sz);
  }

  /** So is what is left on one core. */
  lemma TrimmedIsWhole(j: Job, me: nat)
    requires Ok(j) && me < j.m.cores
    ensures 0 < PerBlock(j) && Trimmed(j, me) % PerBlock(j) == 0
  {
    Edges(j);
    SomePerBlock(j);
    BeginRow(j, me);
    FinishRow(j, me);
    var rows := EndRow(j, me) - FirstRow(j, me);
    WholeBlocks(BLOCK * rows, rows, PerBlock(j), j.sz);
    WrapKeepsBlocks(rows, PerBlock(j), j.sz);
  }

  lemma FirstStep(j: Job)
    requires Ok(j)
    ensures j.src + NFirst(j) * j.sz == BlockMin(j.src) + BLOCK
  {
    Edges(j);
  }

  lemma LastIsLocal(j: Job)
    requires Ok(j) && NLast(j) > 0
    ensures Core(j.m, BlockMin(End(j))) == LastCore(j)
  {
    LastCoreIs(j);
    BlockMinPointer(j.m, End(j));
  }

  lemma TimesBlock(i: nat, k: nat, sz: nat)
    requires k * sz == BLOCK
    ensures i * k * sz == i * BLOCK
  {
    assert i * k * sz == i * (k * sz);
  }

  lemma BlockStride(i: nat, j: Job)
    requires Ok(j)
    ensures i * PerBlock(j) * j.sz == i * BLOCK
  {
    Edges(j);
    TimesBlock(i, PerBlock(j), j.sz);
  }

  /** The first and last block, when this core holds them, and what is left of the array then. */
  method CopyEdges(j: Job, me: nat) returns (pieces: seq<Piece>, srcStart: int, srcEnd: int, ok: bool)
    requires Ok(j) && me < j.m.cores
    ensures pieces == (if HasFirst(j, me) then [FirstPiece(j)] else []) + if HasLast(j, me) then [LastPiece(j)] else []
    ensures srcStart == Begin(j, me) && srcEnd == Finish(j, me) && ok
  {
    FirstStep(j);
    LastIndex(j);
    srcStart, srcEnd := j.src, End(j);
    var nfirst := (BlockMax(j.src, j.sz) - j.src) / j.sz;
    var nlast := (srcEnd - BlockMin(srcEnd)) / j.sz;
    var nblock := BLOCK / j.sz;
    pieces, ok := [], true;
    if Core(j.m, srcStart) == me {
      if nfirst > 0 && nlast != nblock {
        pieces := pieces + [Piece(0, nfirst, Pointer(j.m, srcStart))];
        srcStart := srcStart + nfirst * j.sz;
      }
    }
    if LastCore(j) == me {
      var index := j.nelem - nlast;
      if nlast > 0 && nlast != nblock {
        var at := j.src + index * j.sz;
        LastIsLocal(j);
        ok := Core(j.m, at) == me;
        pieces := pieces + [Piece(index, nlast, Pointer(j.m, at))];
        srcEnd := srcEnd - nlast * j.sz;
      }
    }
  }

  lemma BlockPieceIs(j: Job, me: nat, i: nat)
    requires Ok(j)
    ensures var from := LocalBase(j, me) + i * PerBlock(j) * j.sz;
            BlockPiece(j, me, i) == Piece((Linear(j.m, from, me) - j.src) / j.sz, PerBlock(j), from)
  {
    BlockStride(i, j);
  }

  lemma BlocksGrow(j: Job, me: nat, t: nat, count: nat)
    requires 0 < j.m.cores && 0 < j.sz
    ensures BlocksFrom(j, me, t, count) + [BlockPiece(j, me, t + count)] == BlocksFrom(j, me, t, count + 1)
  {
  }

  /** The loop over the whole blocks. */
  method CopyBlocks(j: Job, me: nat, localBase: int, nlocalblocks: nat) returns (pieces: seq<Piece>)
    requires Ok(j) && localBase == LocalBase(j, me)
    ensures pieces == BlocksFrom(j, me, 0, nlocalblocks)
  {
    var nblock := BLOCK / j.sz;
    var i: nat := 0;
    pieces := [];
    while i < nlocalblocks
      invariant i <= nlocalblocks
      invariant pieces == BlocksFrom(j, me, 0, i)
    {
      BlockPieceIs(j, me, i);
      BlocksGrow(j, me, 0, i);
      var from := localBase + i * nblock * j.sz;
      var index := (Linear(j.m, from, me) - j.src) / j.sz;
      pieces := pieces + [Piece(index, nblock, from)];
      i := i + 1;
    }
  }

  /** The pieces this core issues; `ok` says that no CHECK on the way fails, which none ever does. */
  method DoMemcpyLocally(j: Job, me: nat) returns (pieces: seq<Piece>, ok: bool)
    requires Ok(j) && me < j.m.cores
    ensures pieces == Plan(j, me)
    ensures ok
  {
    MiddleIsWhole(j);
    TrimmedIsWhole(j, me);
    var nblock := BLOCK / j.sz;
    var nmiddle := j.nelem - NFirst(j) - NLast(j);
    var edges, srcStart, srcEnd, fine := CopyEdges(j, me);
    var localBase := Localize(j.m, srcStart, j.sz, me);
    var trimmed := Unsigned((Localize(j.m, srcEnd, j.sz, me) - localBase) / j.sz);
    var blocks := CopyBlocks(j, me, localBase, trimmed / nblock);
    pieces := edges + blocks;
    ok := fine && Unsigned(nmiddle) % nblock == 0 && trimmed % nblock == 0;
  }
}
