/** memcpy copies every element exactly once, when the array reaches the end of its first block. */
module ArrayCopyTheorems {
  import opened Addressing
  import opened ArrayCopy

  // ---------------------------------------------------------------- the pieces of one core

  ghost function Edge(j: Job, me: nat): nat
    requires Ok(j)
  {
    (if HasFirst(j, me) then 1 else 0) + (if HasLast(j, me) then 1 else 0)
  }

  /** The block that piece `k` of a core is part of. */
  ghost function PlanBlock(j: Job, me: nat, k: nat): nat
    requires Ok(j)
  {
    if k >= Edge(j, me) then BlockNo(j, me, k - Edge(j, me))
    else if HasFirst(j, me) && k == 0 then j.src / BLOCK
    else End(j) / BLOCK
  }

  lemma RowsForward(j: Job, me: nat)
    requires Ok(j) && me < j.m.cores && Reaches(j)
    ensures FirstRow(j, me) <= EndRow(j, me)
  {
    RowMonotone(j.src / BLOCK + 1, End(j) / BLOCK, me, j.m.cores);
  }

  lemma PlanLength(j: Job, me: nat)
    requires Ok(j) && me < j.m.cores && Reaches(j)
    ensures |Plan(j, me)| == Edge(j, me) + (EndRow(j, me) - FirstRow(j, me))
  {
    RowsForward(j, me);
    BlockCount(j, me);
  }

  lemma PlanMiddle(j: Job, me: nat, k: nat, t: nat)
    requires Ok(j) && me < j.m.cores && Reaches(j) && k == Edge(j, me) + t && k < |Plan(j, me)|
    ensures Plan(j, me)[k] == BlockPiece(j, me, t) && t < EndRow(j, me) - FirstRow(j, me)
  {
    PlanLength(j, me);
    BlockCount(j, me);
    assert Plan(j, me)[k] == Blocks(j, me)[t];
  }

  lemma PlanEdge(j: Job, me: nat, k: nat)
    requires Ok(j) && k < Edge(j, me)
    ensures k < |Plan(j, me)|
    ensures if HasFirst(j, me) && k == 0 then Plan(j, me)[k] == FirstPiece(j)
            else HasLast(j, me) && Plan(j, me)[k] == LastPiece(j)
  {
  }

  lemma MiddleIsBlock(j: Job, me: nat, k: nat, t: nat)
    requires Ok(j) && me < j.m.cores && Reaches(j) && k == Edge(j, me) + t && k < |Plan(j, me)|
    ensures IsBlock(Plan(j, me)[k], j, me, BlockNo(j, me, t))
  {
    PlanMiddle(j, me, k, t);
    BlockPieceIsBlock(j, me, t);
  }

  lemma EdgeIsBlock(j: Job, me: nat, k: nat)
    requires Ok(j) && me < j.m.cores && Reaches(j) && k < Edge(j, me)
    ensures k < |Plan(j, me)| && IsBlock(Plan(j, me)[k], j, me, PlanBlock(j, me, k))
  {
    PlanEdge(j, me, k);
    if HasFirst(j, me) && k == 0 { FirstIsBlock(j, me); } else { LastIsBlock(j, me); }
  }

  lemma PieceIsBlock(j: Job, me: nat, k: nat)
    requires Ok(j) && me < j.m.cores && Reaches(j) && k < |Plan(j, me)|
    ensures IsBlock(Plan(j, me)[k], j, me, PlanBlock(j, me, k))
  {
    if k >= Edge(j, me) { MiddleIsBlock(j, me, k, k - Edge(j, me)); } else { EdgeIsBlock(j, me, k); }
  }

  lemma PlanBlocksDiffer(j: Job, me: nat, k: nat, l: nat)
    requires Ok(j) && me < j.m.cores && Reaches(j) && k < l < |Plan(j, me)|
    ensures PlanBlock(j, me, k) != PlanBlock(j, me, l)
  {
    PlanLength(j, me);
    ReachesIff(j);
    if l >= Edge(j, me) {
      BetweenEdges(j, me, l - Edge(j, me));
      if k >= Edge(j, me) { BetweenEdges(j, me, k - Edge(j, me)); }
    }
  }

  lemma MiddleRow(j: Job, me: nat, b: nat)
    requires Ok(j) && me < j.m.cores && b % j.m.cores == me
    requires j.src / BLOCK < b < End(j) / BLOCK
    ensures FirstRow(j, me) <= b / j.m.cores < EndRow(j, me)
    ensures BlockNo(j, me, b / j.m.cores - FirstRow(j, me)) == b
  {
    var n := j.m.cores;
    assert b == BlockAt(b / n, me, n);
    RowOrder(j.src / BLOCK + 1, b / n, me, n);
    RowOrder(End(j) / BLOCK, b / n, me, n);
  }

  lemma EdgeBlocks(j: Job, me: nat)
    requires Ok(j)
    ensures Core(j.m, j.src) == me ==> HasFirst(j, me)
    ensures NLast(j) > 0 && Core(j.m, End(j)) == me ==> HasLast(j, me)
  {
    Edges(j);
    if NLast(j) > 0 { LastCoreIs(j); }
  }

  /** Every block of this core from the first to the last one has its piece. */
  lemma EveryBlockHasAPiece(j: Job, me: nat, b: nat) returns (k: nat)
    requires Ok(j) && me < j.m.cores && Reaches(j) && b % j.m.cores == me
    requires j.src / BLOCK <= b <= End(j) / BLOCK && (b == End(j) / BLOCK ==> NLast(j) > 0)
    ensures k < |Plan(j, me)| && PlanBlock(j, me, k) == b
  {
    ReachesIff(j);
    EdgeBlocks(j, me);
    if b == j.src / BLOCK {
      k := 0;
      PlanEdge(j, me, k);
    } else if b == End(j) / BLOCK {
      k := Edge(j, me) - 1;
      PlanEdge(j, me, k);
    } else {
      MiddleRow(j, me, b);
      PlanLength(j, me);
      k := Edge(j, me) + (b / j.m.cores - FirstRow(j, me));
    }
  }

  lemma InRange(j: Job, i: nat)
    requires Ok(j) && i < j.nelem
    ensures j.src <= Elem(j.src, j.sz, i) < End(j)
    ensures Elem(j.src, j.sz, i) / BLOCK == End(j) / BLOCK ==> NLast(j) > 0
  {
    Edges(j);
    Scale(j.nelem, i, j.sz);
    TimesIs(j.nelem, j.sz);
    TimesIs(i, j.sz);
  }

  ghost predicate Copies(j: Job, me: nat, k: nat, i: nat)
    requires Ok(j)
  {
    k < |Plan(j, me)| && Covers(Plan(j, me)[k], i)
  }

  /** A core copies element `i` if and only if it holds it, with one piece, from its own place. */
  lemma CopiesWhatItHolds(j: Job, me: nat, i: nat)
    requires Ok(j) && me < j.m.cores && Reaches(j)
    ensures (exists k: nat :: Copies(j, me, k, i)) <==> i < j.nelem && Core(j.m, Elem(j.src, j.sz, i)) == me
    ensures forall k: nat, l: nat :: Copies(j, me, k, i) && Copies(j, me, l, i) ==> k == l
    ensures forall k: nat :: Copies(j, me, k, i) ==> SourceOf(Plan(j, me)[k], j, i) == Pointer(j.m, Elem(j.src, j.sz, i))
  {
    forall k: nat | Copies(j, me, k, i)
      ensures InBlock(j, PlanBlock(j, me, k), i) && Core(j.m, Elem(j.src, j.sz, i)) == me
      ensures SourceOf(Plan(j, me)[k], j, i) == Pointer(j.m, Elem(j.src, j.sz, i))
    {
      PieceIsBlock(j, me, k);
      assert TakesAt(Plan(j, me)[k], j, PlanBlock(j, me, k), i);
    }
    forall k: nat, l: nat | Copies(j, me, k, i) && Copies(j, me, l, i) ensures k == l {
      if k < l { PlanBlocksDiffer(j, me, k, l); }
      if l < k { PlanBlocksDiffer(j, me, l, k); }
    }
    if i < j.nelem && Core(j.m, Elem(j.src, j.sz, i)) == me {
      InRange(j, i);
      var k := EveryBlockHasAPiece(j, me, Elem(j.src, j.sz, i) / BLOCK);
      PieceIsBlock(j, me, k);
      assert TakesAt(Plan(j, me)[k], j, PlanBlock(j, me, k), i);
      assert Copies(j, me, k, i);
    }
  }

  // ---------------------------------------------------------------- all cores together

  /** Core `c` copies the elements it holds, and nothing else. */
  ghost predicate Exact(j: Job, c: nat, i: nat)
    requires Ok(j)
  {
    (exists k: nat :: Copies(j, c, k, i)) <==> i < j.nelem && Core(j.m, Elem(j.src, j.sz, i)) == c
  }

  /** A shorter array is copied beyond its end. */
  lemma Overruns(j: Job)
    requires Ok(j) && !Reaches(j)
    ensures Core(j.m, j.src) < j.m.cores && Copies(j, Core(j.m, j.src), 0, j.nelem)
  {
    var c := Core(j.m, j.src);
    Edges(j);
    ReachesIff(j);
    LinearComesBack(j.m, j.src);
    PlanEdge(j, c, 0);
  }

  /** The cores copy just the elements asked for exactly when the array reaches the end of its first
      block; otherwise the core of the first element writes beyond the last one. */
  lemma ExactIffReaches(j: Job)
    requires Ok(j)
    ensures (forall c: nat, i: nat :: c < j.m.cores ==> Exact(j, c, i)) <==> Reaches(j)
  {
    if Reaches(j) {
      forall c: nat, i: nat | c < j.m.cores ensures Exact(j, c, i) { CopiesWhatItHolds(j, c, i); }
    } else {
      Overruns(j);
      assert !Exact(j, Core(j.m, j.src), j.nelem);
    }
  }

  /** Global memory, by linear address. */
  type Memory = nat -> int

  ghost predicate Writes(j: Job, dst: nat, c: nat, k: nat, i: nat, x: nat)
    requires Ok(j)
  {
    c < j.m.cores && Copies(j, c, k, i) && x == Elem(dst, j.sz, i)
  }

  /** What the writeback that takes element `i` reads. */
  ghost function ReadBy(mem: Memory, j: Job, c: nat, k: nat, i: nat): int
    requires Ok(j) && Copies(j, c, k, i)
  {
    var a := Linear(j.m, SourceOf(Plan(j, c)[k], j, i), c);
    if a >= 0 then mem(a) else 0
  }

  /** Every place holds what some writeback put there, or what it held if there was none. */
  ghost predicate WrittenBack(mem: Memory, mem': Memory, j: Job, dst: nat, x: nat)
    requires Ok(j)
  {
    || (exists c: nat, k: nat, i: nat :: Writes(j, dst, c, k, i, x) && mem'(x) == ReadBy(mem, j, c, k, i))
    || ((forall c: nat, k: nat, i: nat :: !Writes(j, dst, c, k, i, x)) && mem'(x) == mem(x))
  }

  lemma SameElement(s: nat, sz: nat, i: nat, i': nat)
    requires 0 < sz && Elem(s, sz, i) == Elem(s, sz, i')
    ensures i == i'
  {
    Scale(i, i', sz);
    Scale(i', i, sz);
    TimesIs(i, sz);
    TimesIs(i', sz);
  }

  /** Whatever the order of the writebacks, the destination ends up equal to the source, and the
      rest of memory is as before. */
  lemma MemcpyCopies(mem: Memory, mem': Memory, j: Job, dst: nat)
    requires Ok(j) && Reaches(j) && forall x: nat :: WrittenBack(mem, mem', j, dst, x)
    ensures forall i: nat :: i < j.nelem ==> mem'(Elem(dst, j.sz, i)) == mem(Elem(j.src, j.sz, i))
    ensures forall x: nat :: (forall i: nat :: i < j.nelem ==> x != Elem(dst, j.sz, i)) ==> mem'(x) == mem(x)
  {
    forall i: nat | i < j.nelem ensures mem'(Elem(dst, j.sz, i)) == mem(Elem(j.src, j.sz, i)) {
      ElementCopied(mem, mem', j, dst, i);
    }
    forall x: nat | forall i: nat :: i < j.nelem ==> x != Elem(dst, j.sz, i) ensures mem'(x) == mem(x) {
      assert WrittenBack(mem, mem', j, dst, x);
      forall c: nat, k: nat, i: nat ensures !Writes(j, dst, c, k, i, x) {
        if Writes(j, dst, c, k, i, x) { CopiesWhatItHolds(j, c, i); }
      }
    }
  }

  lemma ElementCopied(mem: Memory, mem': Memory, j: Job, dst: nat, i: nat)
    requires Ok(j) && Reaches(j) && i < j.nelem && WrittenBack(mem, mem', j, dst, Elem(dst, j.sz, i))
    ensures mem'(Elem(dst, j.sz, i)) == mem(Elem(j.src, j.sz, i))
  {
    var x, a := Elem(dst, j.sz, i), Elem(j.src, j.sz, i);
    var c := Core(j.m, a);
    LinearComesBack(j.m, a);
    CopiesWhatItHolds(j, c, i);
    var k: nat :| Copies(j, c, k, i);
    assert Writes(j, dst, c, k, i, x);
    forall c': nat, k': nat, i': nat | Writes(j, dst, c', k', i', x) ensures ReadBy(mem, j, c', k', i') == mem(a) {
      SameElement(dst, j.sz, i, i');
      CopiesWhatItHolds(j, c', i);
    }
  }
}
