/** memset on a global array: every core writes its own elements, found by localizing both ends. */
module ArraySet {
  import opened Addressing

  /** The loop on one core; `words` is the core's memory. */
  method MemsetLocally(m: Machine, base: nat, sz: nat, count: nat, me: nat, value: int, words: map<int, int>)
    returns (words': map<int, int>)
    requires AlignedTo(base, sz) && me < m.cores
    ensures forall p <- LocalPointers(m, base, sz, me, count) :: p in words' && words'[p] == value
    ensures forall p :: p !in LocalPointers(m, base, sz, me, count) ==>
              (p in words' <==> p in words) && (p in words ==> words'[p] == words[p])
  {
    var localBase := Localize(m, base, sz, me);
    var localEnd := Localize(m, base + count * sz, sz, me);
    ghost var all := LocalPointers(m, base, sz, me, count);
    LocalEnds(m, base, sz, me, count);
    var n := (localEnd - localBase) / sz;
    var i: nat := 0;
    words' := words;
    while i < n
      invariant i <= n
      invariant forall p <- Stride(localBase, sz, i) :: p in words' && words'[p] == value
      invariant forall p :: p !in Stride(localBase, sz, i) ==>
                  (p in words' <==> p in words) && (p in words ==> words'[p] == words[p])
    {
      StrideGrows(localBase, sz, i);
      words' := words'[localBase + i * sz := value];
      i := i + 1;
    }
  }

  /** The loop makes one turn for every local element. */
  lemma LocalEnds(m: Machine, base: nat, sz: nat, me: nat, count: nat)
    requires AlignedTo(base, sz) && me < m.cores
    ensures var all := LocalPointers(m, base, sz, me, count);
            && (Localize(m, base + count * sz, sz, me) - Localize(m, base, sz, me)) / sz == |all|
            && all == Stride(Localize(m, base, sz, me), sz, |all|)
  {
    var all := LocalPointers(m, base, sz, me, count);
    LocalIterationVisits(m, base, sz, me, count);
    TimesIs(count, sz);
    TimesIs(|all|, sz);
    Whole(|all|, sz);
  }

  lemma StrideGrows(p: int, sz: nat, i: nat)
    ensures Stride(p, sz, i + 1) == Stride(p, sz, i) + [p + i * sz]
  {
    TimesIs(i, sz);
  }

  lemma Whole(k: nat, sz: nat)
    requires 0 < sz
    ensures k * sz / sz == k
  {
    DivUnique(k * sz, sz, k, 0);
  }

  /** The loops of all cores write the elements of the array and nothing else: a pointer is among those
      of a core exactly when some element below `count` lives there. */
  lemma {:induction false} WrittenAreElements(m: Machine, base: nat, sz: nat, c: nat, count: nat, p: int)
    requires 0 < m.cores
    ensures p in LocalPointers(m, base, sz, c, count) <==>
            exists i: nat :: i < count && Core(m, Elem(base, sz, i)) == c && Pointer(m, Elem(base, sz, i)) == p
    decreases count
  {
    if count > 0 {
      WrittenAreElements(m, base, sz, c, count - 1, p);
      var e := Elem(base, sz, count - 1);
      assert LocalPointers(m, base, sz, c, count)
          == LocalPointers(m, base, sz, c, count - 1) + if Core(m, e) == c then [Pointer(m, e)] else [];
    }
  }
}
