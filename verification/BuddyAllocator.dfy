/** The allocator as it runs: chunk map and free lists changed in place. */
module BuddyAllocator {
  import opened Wrappers
  import opened MachineWords
  import opened Sequences
  import opened PowersOfTwo
  import opened BuddyChunks
  import opened BuddyHeap
  import opened BuddyTheorems
  import opened BuddyRuns

  /** The size of the next chunk in the constructor's loop. */
  method PieceSize(rest: nat) returns (piece: nat)
    requires 0 < rest < TWO63
    ensures piece == FirstPiece(rest) && 0 < piece <= rest
  {
    FirstPieceFits(rest);
    piece := rest;
    if And(rest, rest - 1) != 0 {
      piece := NextLargestPowerOf2(rest / 2);
    }
  }

  class Allocator {
    const base: int
    const size: nat
    var chunks: Chunks
    var freeLists: FreeLists

    ghost function State(): Heap
      reads this
    {
      Heap(chunks, freeLists)
    }

    method RemoveFromFreeList(a: nat)
      requires a in chunks
      modifies this
      ensures State() == Removed(old(State()), a)
    {
      var s := chunks[a].size;
      var l := Without(if s in freeLists then freeLists[s] else [], a);
      if |l| == 0 {
        freeLists := freeLists - {s};
      } else {
        freeLists := freeLists[s := l];
      }
      chunks := chunks[a := chunks[a].(inUse := true)];
    }

    method AddToFreeList(a: nat)
      requires a in chunks
      modifies this
      ensures State() == Added(old(State()), a)
    {
      var s := chunks[a].size;
      freeLists := freeLists[s := [a] + if s in freeLists then freeLists[s] else []];
      chunks := chunks[a := chunks[a].(inUse := false)];
    }

    method AddToChunkMap(a: nat, c: Chunk)
      modifies this
      ensures State() == WithChunk(old(State()), a, c)
    {
      chunks := chunks[a := c];
    }

    method TryMergeBuddyRecursive(a: nat)
      requires a in chunks && 0 < chunks[a].size
      modifies this
      ensures State() == Merged(old(State()), a)
      decreases |chunks|
    {
      var b := Xor(a, chunks[a].size);
      XorMoves(a, chunks[a].size);
      if b in chunks && chunks[b].size == chunks[a].size && !chunks[b].inUse {
        var lower, higher := if a < b then a else b, if a < b then b else a;
        Merge(lower, higher);
        TryMergeBuddyRecursive(lower);
      }
    }

    /** The higher chunk goes, and the lower one doubles. */
    method Merge(lower: nat, higher: nat)
      requires lower in chunks && higher in chunks && lower != higher
      modifies this
      ensures State() == MergeOnce(old(State()), lower, higher)
    {
      RemoveFromFreeList(higher);
      chunks := chunks - {higher};
      RemoveFromFreeList(lower);
      chunks := chunks[lower := chunks[lower].(size := 2 * chunks[lower].size)];
      AddToFreeList(lower);
    }

    method AddPiece(offset: nat, piece: nat)
      modifies this
      ensures State() == WithPiece(old(State()), offset, piece)
    {
      AddToChunkMap(offset, Chunk(piece, false));
      AddToFreeList(offset);
    }

    constructor (base: int, size: nat)
      requires 0 < size < TWO63
      ensures this.base == base && this.size == size
      ensures State() == Start(size)
    {
      this.base, this.size := base, size;
      chunks, freeLists := map[], map[];
      new;
      var offset: nat, rest: nat := 0, size;
      while rest > 0
        invariant rest <= size
        invariant this.base == base && this.size == size
        invariant StillToBuild(State(), offset, rest, size)
        decreases rest
      {
        BuildsOn(State(), offset, rest, size);
        var piece := PieceSize(rest);
        AddPiece(offset, piece);
        rest := rest - piece;
        offset := offset + piece;
      }
      BuildsNoMore(State(), offset, size);
    }

    /** std::map::lower_bound on the free lists */
    method LowerBoundOfLists(need: nat) returns (r: Option<nat>)
      ensures IsLowerBound(freeLists, need, r)
    {
      var keys := freeLists.Keys;
      r := None;
      while keys != {}
        invariant keys <= freeLists.Keys
        invariant match r
                  case None => forall s: nat :: s in freeLists && s !in keys ==> s < need
                  case Some(m) => m in freeLists && need <= m
                                  && forall s: nat :: s in freeLists && s !in keys && need <= s ==> m <= s
        decreases |keys|
      {
        var s :| s in keys;
        keys := keys - {s};
        if need <= s && (r.None? || s < r.value) { r := Some(s); }
      }
    }

    method Free(address: int)
      requires Valid(State(), size)
      requires 0 <= address - base && address - base in Live(chunks)
      modifies this
      ensures 0 < old(chunks)[address - base].size && State() == Freed(old(State()), address - base)
      ensures Valid(State(), size) && Live(chunks) == Live(old(chunks)) - {address - base}
    {
      var a := address - base;
      FreeKeeps(State(), size, a);
      AddToFreeList(a);
      TryMergeBuddyRecursive(a);
    }

    /** One turn of the loop in malloc: cut a chunk in half and go on with the upper half. */
    method SplitChunk(a: nat) returns (b: nat)
      requires a in chunks && chunks[a].size > 1
      modifies this
      ensures State() == SplitOnce(old(State()), a)
      ensures b == a + old(chunks)[a].size / 2 && b in chunks && chunks[b].size == old(chunks)[a].size / 2
    {
      RemoveFromFreeList(a);
      var half := chunks[a].size / 2;
      chunks := chunks[a := chunks[a].(size := half)];
      AddToFreeList(a);
      b := a + chunks[a].size;
      AddToChunkMap(b, Chunk(half, false));
      AddToFreeList(b);
    }

    /** The loop in malloc. */
    method SplitDown(first: nat, need: nat) returns (a: nat)
      requires first in chunks && 0 < need
      modifies this
      ensures (State(), a) == SplitTo(old(State()), first, need)
    {
      a := first;
      ghost var h := State();
      var chunkSize := chunks[a].size;
      while chunkSize > need
        invariant a in chunks && chunks[a].size == chunkSize
        invariant SplitsAs(h, first, need, State(), a)
        decreases chunkSize
      {
        ghost var g, b := State(), a;
        a := SplitChunk(a);
        SplitsOn(h, first, need, g, b, State(), a);
        chunkSize := chunkSize / 2;
      }
      SplitsNoMore(h, first, need, State(), a);
    }

    /** None stands for the exception. */
    method Malloc(n: nat) returns (r: Option<int>)
      requires Valid(State(), size) && 0 < n <= TWO63
      modifies this
      ensures State() == Allocated(old(State()), NextPow2(n)).0
      ensures r == match Allocated(old(State()), NextPow2(n)).1
                   case None => None
                   case Some(a) => Some(a + base)
      ensures Valid(State(), size)
    {
      var need := NextLargestPowerOf2(n);
      ghost var h := State();
      var first := LowerBoundOfLists(need);
      SameLowerBound(freeLists, need, first, LowerBound(freeLists, need));
      Called(h, size, n);
      if first.None? {
        return None;
      }
      AllocatedIs(h, need);
      var a := SplitDown(freeLists[first.value][0], need);
      MarkedAnyway(State(), a);
      chunks := chunks[a := chunks[a].(inUse := true)];
      RemoveFromFreeList(a);
      r := Some(a + base);
    }
  }

  lemma SameLowerBound(lists: FreeLists, need: nat, r: Option<nat>, r': Option<nat>)
    requires IsLowerBound(lists, need, r) && IsLowerBound(lists, need, r')
    ensures r == r'
  {
  }
}
