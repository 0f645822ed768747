/** Global addresses: 2D addresses pack a core and a pointer; linear addresses go block by block
    round all cores. */
module Addressing {
  import opened MachineWords

  const BLOCK := 64
  const TWO15 := 0x8000
  const TWO47 := 0x8000_0000_0000
  const TWO48 := 0x1_0000_0000_0000

  /** Sizes of elements that divide the block size. */
  predicate ElemSize(sz: nat) { sz in {1, 2, 4, 8, 16, 32, 64} }

  /** The number of cores, and where the global heap begins in each core's memory. */
  datatype Machine = Machine(cores: nat, base: int)

  // ---------------------------------------------------------------- 2D addresses

  /** The raw bits, as an unsigned number. */
  function TwoDimensional(t: nat, core: nat): nat { TWO63 + core % TWO15 * TWO48 + t }

  predicate Is2D(bits: nat) { bits / TWO63 % 2 == 1 }

  function Core2D(bits: nat): nat { bits / TWO48 % TWO15 }

  /** The low 48 bits, sign extended. */
  function Pointer2D(bits: nat): int {
    var low := bits % TWO48;
    if low < TWO47 then low else low - TWO48
  }

  /** A 2D address gives back its core if the core's number has no more than 15 bits, and its pointer
      exactly when bit 47 of it is clear, though the constructor accepts 48 bits. */
  lemma TwoDimensionalRoundTrip(t: nat, core: nat)
    requires t < TWO48
    ensures Is2D(TwoDimensional(t, core)) && TwoDimensional(t, core) < TWO64
    ensures Core2D(TwoDimensional(t, core)) == core <==> core < TWO15
    ensures Pointer2D(TwoDimensional(t, core)) == t <==> t < TWO47
  {
  }

  // ---------------------------------------------------------------- linear addresses

  function Core(m: Machine, s: nat): nat
    requires 0 < m.cores
  {
    s / BLOCK % m.cores
  }

  function Pointer(m: Machine, s: nat): int
    requires 0 < m.cores
  {
    s / BLOCK / m.cores * BLOCK + s % BLOCK + m.base
  }

  /** The linear address of a pointer into the heap of core `me`. */
  function Linear(m: Machine, t: int, me: nat): int {
    var tt := t - m.base;
    (tt / BLOCK * m.cores + me) * BLOCK + tt % BLOCK
  }

  function BlockMin(s: nat): (b: nat) { s - s % BLOCK }

  /** The base of the block after the one that holds the last byte of the object at `s`. */
  function BlockMax(s: nat, sz: nat): int
    requires 0 < sz
  {
    s + sz + BLOCK - ((s + sz - 1) % BLOCK + 1)
  }

  /** The lowest pointer on core `c` to an object at or after `s`. */
  function Localize(m: Machine, s: nat, sz: nat, c: nat): int
    requires 0 < m.cores && 0 < sz
  {
    var blockBase := Pointer(m, BlockMin(s));
    if c < Core(m, s) then blockBase + BLOCK / sz * sz
    else if c > Core(m, s) then blockBase
    else Pointer(m, s)
  }

  // ---------------------------------------------------------------- division by the number of cores

  lemma DivUnique(x: int, d: int, q: int, r: int)
    requires 0 <= r < d && x == q * d + r
    ensures x / d == q && x % d == r
  {
    var p := x / d;
    assert x == p * d + x % d;
    assert p < q ==> (p + 1) * d <= q * d;
    assert q < p ==> (q + 1) * d <= p * d;
  }

  /** The block after block `b`: on the next core, or on the first one a row further. */
  lemma NextBlock(b: nat, n: nat)
    requires 0 < n
    ensures b % n < n
    ensures if b % n == n - 1 then (b + 1) % n == 0 && (b + 1) / n == b / n + 1
            else (b + 1) % n == b % n + 1 && (b + 1) / n == b / n
  {
    var q, r := b / n, b % n;
    assert b == q * n + r;
    if r == n - 1 {
      assert (q + 1) * n == q * n + n;
      DivUnique(b + 1, n, q + 1, 0);
    } else {
      DivUnique(b + 1, n, q, r + 1);
    }
  }

  // ---------------------------------------------------------------- linear addresses name every byte once

  lemma LinearGoesBack(m: Machine, t: int, me: nat)
    requires me < m.cores && m.base <= t
    ensures 0 <= Linear(m, t, me)
    ensures Core(m, Linear(m, t, me)) == me && Pointer(m, Linear(m, t, me)) == t
  {
    var tt := t - m.base;
    var row := tt / BLOCK;
    assert 0 <= row * m.cores;
    DivUnique(row * m.cores + me, m.cores, row, me);
  }

  lemma LinearComesBack(m: Machine, s: nat)
    requires 0 < m.cores
    ensures Core(m, s) < m.cores && m.base <= Pointer(m, s)
    ensures Linear(m, Pointer(m, s), Core(m, s)) == s
  {
    var block := s / BLOCK;
    var row := block / m.cores;
    assert block == row * m.cores + block % m.cores;
    assert (row * BLOCK + s % BLOCK) / BLOCK == row;
  }

  /** Two linear addresses with the same core and pointer are the same. */
  lemma LinearIsInjective(m: Machine, s: nat, s': nat)
    requires 0 < m.cores && Core(m, s) == Core(m, s') && Pointer(m, s) == Pointer(m, s')
    ensures s == s'
  {
    LinearComesBack(m, s);
    LinearComesBack(m, s');
  }

  // ---------------------------------------------------------------- localize, one element at a time

  /** A multiple of an element size, size by size. */
  ghost predicate AlignedTo(s: nat, sz: nat) {
    || sz == 1 || (sz == 2 && s % 2 == 0) || (sz == 4 && s % 4 == 0) || (sz == 8 && s % 8 == 0)
    || (sz == 16 && s % 16 == 0) || (sz == 32 && s % 32 == 0) || (sz == 64 && s % 64 == 0)
  }

  lemma AlignedIs(s: nat, sz: nat)
    ensures AlignedTo(s, sz) <==> ElemSize(sz) && s % sz == 0
  {
  }

  lemma MultiplesAdd(x: int, y: int, sz: nat)
    requires 0 < sz && x % sz == 0 && y % sz == 0
    ensures (x + y) % sz == 0 && (x - y) % sz == 0
  {
    var p, q := x / sz, y / sz;
    assert x == p * sz && y == q * sz;
    assert (p + q) * sz == p * sz + q * sz && (p - q) * sz == p * sz - q * sz;
    DivUnique(x + y, sz, p + q, 0);
    DivUnique(x - y, sz, p - q, 0);
  }

  lemma BlocksAreMultiples(b: int, sz: nat)
    requires ElemSize(sz)
    ensures BLOCK / sz * sz == BLOCK && BLOCK * b % sz == 0
  {
    var k := BLOCK / sz;
    assert k * sz == BLOCK;
    assert BLOCK * b == (b * k) * sz by {
      assert (b * k) * sz == b * (k * sz);
    }
    DivUnique(BLOCK * b, sz, b * k, 0);
  }

  /** A multiple below another one leaves room for one more. */
  lemma RoomForOne(r: nat, bound: nat, sz: nat)
    requires 0 < sz && r % sz == 0 && bound % sz == 0 && r < bound
    ensures r + sz <= bound
  {
    var p, q := r / sz, bound / sz;
    assert r == p * sz && bound == q * sz;
    assert q <= p ==> q * sz <= p * sz;
    assert p + 1 <= q ==> (p + 1) * sz <= q * sz;
  }

  lemma OffsetAligned(s: nat, sz: nat)
    requires AlignedTo(s, sz)
    ensures BlockMin(s) % sz == 0 && (s + sz) % sz == 0 && BLOCK / sz * sz == BLOCK
    ensures s % BLOCK + sz <= BLOCK
  {
    var b := s / BLOCK;
    AlignedIs(s, sz);
    BlocksAreMultiples(b, sz);
    BlocksAreMultiples(1, sz);
    MultiplesAdd(s, BLOCK * b, sz);
    assert BlockMin(s) == BLOCK * b;
    RoomForOne(s - BLOCK * b, BLOCK, sz);
    DivUnique(sz, sz, 1, 0);
    MultiplesAdd(s, sz, sz);
  }

  lemma InsideBlock(s: nat, sz: nat)
    requires 0 < sz && s % BLOCK + sz <= BLOCK
    ensures BlockMax(s, sz) == BlockMin(s) + BLOCK
    ensures if s % BLOCK + sz < BLOCK
            then (s + sz) / BLOCK == s / BLOCK && (s + sz) % BLOCK == s % BLOCK + sz
            else (s + sz) / BLOCK == s / BLOCK + 1 && (s + sz) % BLOCK == 0
  {
  }

  /** Aligned objects lie within their block. */
  lemma WithinBlock(s: nat, sz: nat)
    requires AlignedTo(s, sz)
    ensures s % BLOCK + sz <= BLOCK && BLOCK / sz * sz == BLOCK
    ensures BlockMin(s) % sz == 0 && (s + sz) % sz == 0
    ensures BlockMax(s, sz) == BlockMin(s) + BLOCK
    ensures if s % BLOCK + sz < BLOCK
            then (s + sz) / BLOCK == s / BLOCK && (s + sz) % BLOCK == s % BLOCK + sz
            else (s + sz) / BLOCK == s / BLOCK + 1 && (s + sz) % BLOCK == 0
  {
    OffsetAligned(s, sz);
    InsideBlock(s, sz);
  }

  /** The bound is the first end of a block at or behind the end of the object, whatever its size. */
  lemma BlockMaxIsNext(s: nat, sz: nat)
    requires 0 < sz
    ensures BlockMax(s, sz) % BLOCK == 0 && s + sz <= BlockMax(s, sz) < s + sz + BLOCK
  {
    var last := s + sz - 1;
    assert BlockMax(s, sz) == BLOCK * (last / BLOCK + 1);
  }

  lemma BlockMinPointer(m: Machine, s: nat)
    requires 0 < m.cores
    ensures Pointer(m, BlockMin(s)) == s / BLOCK / m.cores * BLOCK + m.base
    ensures Core(m, BlockMin(s)) == Core(m, s)
  {
    assert BlockMin(s) / BLOCK == s / BLOCK && BlockMin(s) % BLOCK == 0;
  }

  /** Passing one element moves the local pointer of its own core past it, and no other. */
  lemma LocalizeStep(m: Machine, s: nat, sz: nat, c: nat)
    requires AlignedTo(s, sz) && c < m.cores
    ensures Core(m, s) == c ==> Localize(m, s, sz, c) == Pointer(m, s)
    ensures Localize(m, s + sz, sz, c) == Localize(m, s, sz, c) + if Core(m, s) == c then sz else 0
  {
    WithinBlock(s, sz);
    BlockMinPointer(m, s);
    BlockMinPointer(m, s + sz);
    NextBlock(s / BLOCK, m.cores);
  }

  // ---------------------------------------------------------------- local iteration

  /** `i` times `sz`. */
  function Times(i: nat, sz: nat): nat { if i == 0 then 0 else Times(i - 1, sz) + sz }

  lemma {:induction false} TimesIs(i: nat, sz: nat)
    ensures Times(i, sz) == i * sz
  {
    if i > 0 {
      TimesIs(i - 1, sz);
      assert i * sz == (i - 1) * sz + sz;
    }
  }

  function Elem(s: nat, sz: nat, i: nat): nat { s + Times(i, sz) }

  lemma ElemStep(s: nat, sz: nat, i: nat)
    requires AlignedTo(s, sz)
    ensures Elem(s, sz, i + 1) == Elem(s, sz, i) + sz && AlignedTo(Elem(s, sz, i), sz) && Elem(s, sz, 0) == s
    decreases i
  {
    if i > 0 {
      ElemStep(s, sz, i - 1);
      WithinBlock(Elem(s, sz, i - 1), sz);
      AlignedIs(s, sz);
      AlignedIs(Elem(s, sz, i), sz);
    }
  }

  /** The local pointers of the elements below `k` that live on core `c`, in order. */
  ghost function LocalPointers(m: Machine, s: nat, sz: nat, c: nat, k: nat): seq<int>
    requires 0 < m.cores
  {
    if k == 0 then [] else
      LocalPointers(m, s, sz, c, k - 1)
      + if Core(m, Elem(s, sz, k - 1)) == c then [Pointer(m, Elem(s, sz, k - 1))] else []
  }

  /** `count` pointers, each one element further. */
  ghost function Stride(p: int, sz: nat, count: nat): seq<int> {
    if count == 0 then [] else Stride(p, sz, count - 1) + [p + Times(count - 1, sz)]
  }

  /** `ps` are the pointers from `first` up to `last`, one element apart. */
  ghost predicate Spans(ps: seq<int>, first: int, last: int, sz: nat) {
    last == first + Times(|ps|, sz) && ps == Stride(first, sz, |ps|)
  }

  lemma SpansOn(ps: seq<int>, first: int, last: int, sz: nat)
    requires Spans(ps, first, last, sz)
    ensures Spans(ps + [last], first, last + sz, sz)
  {
    assert Times(|ps| + 1, sz) == Times(|ps|, sz) + sz;
  }

  lemma OneMoreElement(m: Machine, s: nat, sz: nat, c: nat, k: nat)
    requires AlignedTo(s, sz) && c < m.cores
    ensures var e := Elem(s, sz, k);
            && (Core(m, e) == c ==> Localize(m, e, sz, c) == Pointer(m, e))
            && Localize(m, Elem(s, sz, k + 1), sz, c) == Localize(m, e, sz, c) + if Core(m, e) == c then sz else 0
  {
    ElemStep(s, sz, k);
    LocalizeStep(m, Elem(s, sz, k), sz, c);
  }

  /** Iterating from the localized begin to the localized end visits exactly the elements of this core. */
  lemma {:induction false} LocalIterationVisits(m: Machine, s: nat, sz: nat, c: nat, k: nat)
    requires AlignedTo(s, sz) && c < m.cores
    ensures Spans(LocalPointers(m, s, sz, c, k), Localize(m, s, sz, c), Localize(m, Elem(s, sz, k), sz, c), sz)
    decreases k
  {
    if k == 0 {
      ElemStep(s, sz, 0);
    } else {
      LocalIterationVisits(m, s, sz, c, k - 1);
      OneMoreElement(m, s, sz, c, k - 1);
      var e, ps := Elem(s, sz, k - 1), LocalPointers(m, s, sz, c, k - 1);
      if Core(m, e) == c {
        SpansOn(ps, Localize(m, s, sz, c), Pointer(m, e), sz);
      } else {
        assert LocalPointers(m, s, sz, c, k) == ps;
      }
    }
  }

  // ---------------------------------------------------------------- address arithmetic

  /** The raw bits of the address `i` elements further; sums wrap around at 64 bits. */
  function Advanced(bits: nat, i: int, sz: nat): nat { (bits + i * sz) % TWO64 }

  /** `t - u`: the difference of the raw bits is divided by an unsigned size, so as an unsigned number. */
  function Difference(t: nat, u: nat, sz: nat): int
    requires 0 < sz
  {
    Quotient(t - u, sz)
  }

  lemma WrapsOnce(x: int)
    ensures 0 <= x < TWO64 ==> x % TWO64 == x
    ensures -TWO64 <= x < 0 ==> x % TWO64 == x + TWO64
  {
  }

  lemma AdvancedDifference(u: nat, i: int, sz: nat)
    requires 0 < sz
    ensures Difference(Advanced(u, i, sz), u, sz) == Quotient(i * sz, sz)
  {
    WrapsAway(u, i * sz);
  }

  lemma WrapsAway(u: nat, d: int)
    ensures ((u + d) % TWO64 - u) % TWO64 == d % TWO64
  {
    var k := (u + d) / TWO64;
    assert (u + d) % TWO64 - u == d + TWO64 * -k;
  }

  /** Below 2^64, a quotient by 2 or more has bit 63 clear. */
  lemma HalfAtMost(q: int, r: nat, sz: nat)
    requires 1 < sz && r < sz && 0 <= q * sz + r < TWO64
    ensures 0 <= q < TWO63
  {
    assert q < 0 ==> (q + 1) * sz <= 0;
    assert 0 <= q ==> 2 * q <= q * sz;
  }

  function Signed(q: int): int { if q < TWO63 then q else q - TWO64 }

  /** A distance in bytes, as an unsigned number, divided by a size. */
  function Quotient(d: int, sz: nat): int
    requires 0 < sz
  {
    Signed(d % TWO64 / sz)
  }

  lemma QuotientOf(d: int, sz: nat, q: int, r: nat)
    requires r < sz && -TWO63 <= d < TWO63
    requires q * sz + r == if 0 <= d then d else d + TWO64
    ensures Quotient(d, sz) == Signed(q)
  {
    WrapsOnce(d);
    DivUnique(d % TWO64, sz, q, r);
  }

  lemma AtLeast(i: int, sz: nat)
    requires 0 < sz
    ensures 0 <= i ==> i <= i * sz
    ensures i < 0 ==> i * sz <= i
  {
  }

  lemma Forward(d: int, i: nat, sz: nat)
    requires 0 < sz && i <= d < TWO63 && d == i * sz
    ensures Quotient(d, sz) == i
  {
    QuotientOf(d, sz, i, 0);
  }

  lemma Backward(d: int, q: int, r: nat, i: int, sz: nat)
    requires r < sz && i < 0 && -TWO63 <= d <= i && d == i * sz && q * sz + r == d + TWO64
    ensures Quotient(d, sz) == i <==> sz == 1
  {
    QuotientOf(d, sz, q, r);
    if sz > 1 { HalfAtMost(q, r, sz); }
  }

  /** Subtracting the address one started from gives the number of elements passed, exactly when one
      went forward, or elements are single bytes. */
  lemma DifferenceIsCountIff(u: nat, i: int, sz: nat)
    requires 0 < sz && -TWO63 <= i * sz < TWO63
    ensures Difference(Advanced(u, i, sz), u, sz) == i <==> 0 <= i || sz == 1
  {
    var d := i * sz;
    var x := d + TWO64;
    AdvancedDifference(u, i, sz);
    AtLeast(i, sz);
    if 0 <= i { Forward(d, i, sz); } else { Backward(d, x / sz, x % sz, i, sz); }
  }

  /** Going on and going back: steps add up. */
  lemma AdvancesAddUp(bits: nat, i: int, j: int, sz: nat)
    requires bits < TWO64
    ensures Advanced(Advanced(bits, i, sz), j, sz) == Advanced(bits, i + j, sz)
    ensures Advanced(Advanced(bits, i, sz), -i, sz) == bits
  {
    var k := (bits + i * sz) / TWO64;
    assert (i + j) * sz == i * sz + j * sz && -i * sz == -(i * sz);
    Congruent(Advanced(bits, i, sz) + j * sz, bits + (i + j) * sz, -k);
    Congruent(Advanced(bits, i, sz) + -i * sz, bits, -k);
  }

  lemma Congruent(x: int, y: int, k: int)
    requires x == y + TWO64 * k
    ensures x % TWO64 == y % TWO64
  {
  }

  /** Forward from a linear address lie its elements, as long as bit 63 stays clear. */
  lemma AdvanceReachesElements(s: nat, i: nat, sz: nat)
    requires Elem(s, sz, i) < TWO63
    ensures Advanced(s, i, sz) == Elem(s, sz, i) && !Is2D(Elem(s, sz, i))
  {
    TimesIs(i, sz);
    StaysLinear(Elem(s, sz, i));
  }

  lemma StaysLinear(x: nat)
    requires x < TWO63
    ensures x % TWO64 == x && !Is2D(x)
  {
  }

  /** A 2D address stays on its core exactly as long as its pointer stays within 48 bits; until then
      only the pointer moves. */
  lemma AdvanceKeepsTheCoreIff(t: nat, core: nat, i: int, sz: nat)
    requires t < TWO48 && core < TWO15 && -TWO63 + TWO48 <= i * sz <= TWO63 - TWO48
    ensures var a := Advanced(TwoDimensional(t, core), i, sz);
            && (Is2D(a) && Core2D(a) == core <==> 0 <= t + i * sz < TWO48)
            && (0 <= t + i * sz < TWO48 ==> a == TwoDimensional(t + i * sz, core))
  {
    MovedBy(t, core, i * sz);
  }

  lemma MovedBy(t: nat, core: nat, d: int)
    requires t < TWO48 && core < TWO15 && -TWO63 + TWO48 <= d <= TWO63 - TWO48
    ensures var a := (TwoDimensional(t, core) + d) % TWO64;
            && (Is2D(a) && Core2D(a) == core <==> 0 <= t + d < TWO48)
            && (0 <= t + d < TWO48 ==> a == TwoDimensional(t + d, core))
  {
    var x := TWO63 + core * TWO48 + t + d;
    assert TwoDimensional(t, core) + d == x;
    WrapsOnce(x);
    WrapsOnce(x - TWO64);
  }
}
