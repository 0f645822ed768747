/** The pool allocator: objects of one size from a bump allocator, kept on eight free lists in turn. */
module PoolAllocator {
  import opened Wrappers
  import opened Addressing

  const LISTS := 8

  /** A chunk of memory; the bytes below `offset` have been given out. */
  datatype Region = Region(base: nat, size: nat, offset: nat)

  function AlignUp(x: nat, y: nat): nat
    requires 0 < y
  {
    if x % y != 0 then x - x % y + y else x
  }

  function Max(x: nat, y: nat): nat { if x < y then y else x }

  // ---------------------------------------------------------------- the bump allocator

  /** Does the last chunk have no room? */
  predicate Exhausted(rs: seq<Region>, size: nat) {
    rs == [] || rs[|rs| - 1].size - rs[|rs| - 1].offset < size
  }

  /** The chunk the system gives at `base`. */
  function NewRegion(align: nat, chunkSize: nat, size: nat, base: nat): Region
    requires 0 < align
  {
    Region(base, Max(size, chunkSize) + align, AlignUp(base, align) - base)
  }

  function Grown(rs: seq<Region>, align: nat, chunkSize: nat, size: nat, base: nat): seq<Region>
    requires 0 < align
  {
    if Exhausted(rs, size) then rs + [NewRegion(align, chunkSize, size, base)] else rs
  }

  /** The next object, and the chunks afterwards. */
  function Bumped(rs: seq<Region>, align: nat, chunkSize: nat, size: nat, base: nat): (r: (seq<Region>, nat))
    requires 0 < align
  {
    var gs := Grown(rs, align, chunkSize, size, base);
    var last := gs[|gs| - 1];
    (gs[|gs| - 1 := last.(offset := last.offset + size)], last.base + last.offset)
  }

  // ---------------------------------------------------------------- the pool

  /** `step` is the object size rounded up to the alignment. */
  datatype Config = Config(align: nat, chunkSize: nat, step: nat)

  datatype Pool = Pool(lists: seq<seq<nat>>, first: nat, balance: int, newly: int, regions: seq<Region>)

  ghost predicate ConfigOk(c: Config) { 0 < c.align && 0 < c.step && c.step % c.align == 0 }

  /** The first list that is not empty. */
  function Search(lists: seq<seq<nat>>, i: nat): (r: nat)
    requires i <= |lists|
    ensures i <= r <= |lists|
    ensures r < |lists| ==> lists[r] != []
    ensures forall j: nat :: i <= j < r ==> lists[j] == []
    decreases |lists| - i
  {
    if i == |lists| || lists[i] != [] then i else Search(lists, i + 1)
  }

  /** The list to take from; eight if all are empty. */
  function Choice(p: Pool): (r: nat)
    requires p.first < |p.lists| == LISTS
    ensures r <= LISTS && (r < LISTS ==> p.lists[r] != [])
    ensures r == LISTS ==> forall j: nat :: j < LISTS ==> p.lists[j] == []
  {
    if p.lists[p.first] != [] then p.first else Search(p.lists, 0)
  }

  /** One attempt to allocate: a freed object, or a new one if the pool may grow, or none yet. */
  function Allocated(p: Pool, c: Config, mayGrow: bool, base: nat): (Pool, Option<nat>)
    requires p.first < |p.lists| == LISTS && 0 < c.align
  {
    var i := Choice(p);
    if i < LISTS then
      (p.(lists := p.lists[i := p.lists[i][1..]], first := (i + 1) % LISTS, balance := p.balance + 1), Some(p.lists[i][0]))
    else if mayGrow then
      var (rs, a) := Bumped(p.regions, c.align, c.chunkSize, c.step, base);
      (p.(regions := rs, newly := p.newly + 1), Some(a))
    else (p, None)
  }

  function Freed(p: Pool, a: nat): Pool
    requires p.first < |p.lists| == LISTS
  {
    p.(lists := p.lists[p.first := [a] + p.lists[p.first]], first := (p.first + 1) % LISTS, balance := p.balance - 1)
  }

  class AlignedPoolAllocator {
    const align: nat
    const chunkSize: nat
    const step: nat
    const firsts: array<seq<nat>>
    var firstIndex: nat
    var allocatedObjects: int
    var newlyAllocatedObjects: int
    var regions: seq<Region>

    ghost predicate Valid()
      reads this
    {
      firsts.Length == LISTS && firstIndex < LISTS && 0 < align
    }

    ghost function State(): Pool
      reads this, firsts
    {
      Pool(firsts[..], firstIndex, allocatedObjects, newlyAllocatedObjects, regions)
    }

    ghost function Conf(): Config { Config(align, chunkSize, step) }

    constructor (align: nat, objectSize: nat, chunkCount: nat)
      requires 0 < align
      ensures Valid() && fresh(firsts)
      ensures Conf() == Config(align, Max(objectSize, 8) * chunkCount, AlignUp(Max(objectSize, 8), align))
      ensures State() == Pool(seq(LISTS, _ => []), 0, 0, 0, [])
    {
      this.align, chunkSize, step := align, Max(objectSize, 8) * chunkCount, AlignUp(Max(objectSize, 8), align);
      firsts := new seq<nat>[LISTS](_ => []);
      firstIndex, allocatedObjects, newlyAllocatedObjects, regions := 0, 0, 0, [];
    }

    /** aligned_allocator_alloc; `base` is where the system puts a chunk if one is needed. */
    method Bump(base: nat) returns (a: nat)
      requires Valid()
      modifies this
      ensures Valid() && (regions, a) == Bumped(old(regions), align, chunkSize, step, base)
      ensures firstIndex == old(firstIndex) && allocatedObjects == old(allocatedObjects)
      ensures newlyAllocatedObjects == old(newlyAllocatedObjects)
    {
      if |regions| == 0 || regions[|regions| - 1].size - regions[|regions| - 1].offset < step {
        regions := regions + [Region(base, Max(step, chunkSize) + align, AlignUp(base, align) - base)];
      }
      var last := regions[|regions| - 1];
      a := last.base + last.offset;
      regions := regions[|regions| - 1 := last.(offset := last.offset + step)];
    }

    /** One turn of the loop of aligned_pool_allocator_alloc; without a result the caller yields and
        tries again. */
    method Alloc(mayGrow: bool, base: nat) returns (r: Option<nat>)
      requires Valid()
      modifies this, firsts
      ensures Valid() && (State(), r) == Allocated(old(State()), Conf(), mayGrow, base)
    {
      var index := firstIndex;
      if |firsts[index]| == 0 {
        index := 0;
        while index < LISTS
          invariant 0 <= index <= LISTS
          invariant Search(firsts[..], index) == Search(firsts[..], 0)
        {
          if |firsts[index]| != 0 { break; }
          index := index + 1;
        }
      }
      if index < LISTS {
        allocatedObjects := allocatedObjects + 1;
        r := Some(firsts[index][0]);
        firsts[index] := firsts[index][1..];
        firstIndex := (index + 1) % LISTS;
      } else if mayGrow {
        newlyAllocatedObjects := newlyAllocatedObjects + 1;
        var a := Bump(base);
        r := Some(a);
      } else {
        r := None;
      }
    }

    method Free(a: nat)
      requires Valid()
      modifies this, firsts
      ensures Valid() && State() == Freed(old(State()), a)
    {
      allocatedObjects := allocatedObjects - 1;
      firsts[firstIndex] := [a] + firsts[firstIndex];
      firstIndex := (firstIndex + 1) % LISTS;
    }

    /** In every reachable state, what has been freed and not reused. */
    method FreelistSize(ghost live: set<nat>, ghost objs: set<nat>) returns (n: int)
      requires Valid() && Inv(State(), Conf(), live, objs)
      ensures n == Length(firsts[..])
    {
      n := -1 * allocatedObjects;
    }
  }

  // ---------------------------------------------------------------- invariant

  ghost function Length(lists: seq<seq<nat>>): nat { if lists == [] then 0 else |lists[0]| + Length(lists[1..]) }

  /** Everything on the free lists. */
  ghost function All(lists: seq<seq<nat>>): multiset<nat> {
    if lists == [] then multiset{} else multiset(lists[0]) + All(lists[1..])
  }

  ghost predicate RegionOk(c: Config, rs: seq<Region>, i: nat) {
    i < |rs| ==> rs[i].offset <= rs[i].size && (0 < c.align ==> (rs[i].base + rs[i].offset) % c.align == 0)
  }

  ghost predicate RegionsApart(rs: seq<Region>, i: nat, j: nat) {
    i < j < |rs| ==> rs[i].base + rs[i].size <= rs[j].base || rs[j].base + rs[j].size <= rs[i].base
  }

  /** A new chunk overlaps no other. */
  ghost predicate FreshRegion(r: Region, rs: seq<Region>) {
    forall i: nat :: i < |rs| ==> rs[i].base + rs[i].size <= r.base || r.base + r.size <= rs[i].base
  }

  /** An object is aligned and lies in the used part of some chunk. */
  ghost predicate ObjectOk(c: Config, rs: seq<Region>, a: nat) {
    && (0 < c.align ==> a % c.align == 0)
    && exists i: nat :: Inside(c, rs, a, i)
  }

  ghost predicate Inside(c: Config, rs: seq<Region>, a: nat, i: nat) {
    i < |rs| && rs[i].base <= a && a + c.step <= rs[i].base + rs[i].offset
  }

  ghost predicate Apart(c: Config, objs: set<nat>, a: nat, b: nat) {
    a in objs && b in objs && a < b ==> a + c.step <= b
  }

  /** `live` are the objects handed out, `objs` all that were ever made. */
  ghost predicate Inv(p: Pool, c: Config, live: set<nat>, objs: set<nat>) {
    && ConfigOk(c) && p.first < |p.lists| == LISTS
    && (forall i: nat :: RegionOk(c, p.regions, i))
    && (forall i: nat, j: nat :: RegionsApart(p.regions, i, j))
    && (forall a: nat :: a in objs ==> ObjectOk(c, p.regions, a))
    && (forall a: nat, b: nat :: Apart(c, objs, a, b))
    && All(p.lists) + multiset(live) == multiset(objs)
    && -p.balance == Length(p.lists)
  }

  // ---------------------------------------------------------------- free lists

  lemma {:induction false} PopOne(lists: seq<seq<nat>>, i: nat)
    requires i < |lists| && lists[i] != []
    ensures Length(lists) == Length(lists[i := lists[i][1..]]) + 1
    ensures All(lists) == All(lists[i := lists[i][1..]]) + multiset{lists[i][0]}
  {
    var ls := lists[i := lists[i][1..]];
    if i == 0 {
      assert lists[0] == [lists[0][0]] + lists[0][1..];
      assert ls[1..] == lists[1..];
    } else {
      PopOne(lists[1..], i - 1);
      assert ls[1..] == lists[1..][i - 1 := lists[i][1..]];
    }
  }

  lemma PushOne(lists: seq<seq<nat>>, i: nat, a: nat)
    requires i < |lists|
    ensures Length(lists[i := [a] + lists[i]]) == Length(lists) + 1
    ensures All(lists[i := [a] + lists[i]]) == All(lists) + multiset{a}
  {
    var ls := lists[i := [a] + lists[i]];
    PopOne(ls, i);
    assert ls[i][1..] == lists[i];
    assert ls[i := ls[i][1..]] == lists;
  }

  lemma ReuseKeeps(p: Pool, c: Config, live: set<nat>, objs: set<nat>, i: nat)
    requires Inv(p, c, live, objs) && i < LISTS && p.lists[i] != []
    ensures var a := p.lists[i][0];
            && a in objs && a !in live
            && Inv(p.(lists := p.lists[i := p.lists[i][1..]], first := (i + 1) % LISTS, balance := p.balance + 1),
                   c, live + {a}, objs)
  {
    var a := p.lists[i][0];
    PopOne(p.lists, i);
    assert All(p.lists)[a] > 0;
    assert multiset(objs)[a] <= 1;
    assert multiset(live + {a}) == multiset(live) + multiset{a};
  }

  lemma FreeKeeps(p: Pool, c: Config, live: set<nat>, objs: set<nat>, a: nat)
    requires Inv(p, c, live, objs) && a in live
    ensures Inv(Freed(p, a), c, live - {a}, objs)
  {
    PushOne(p.lists, p.first, a);
    assert multiset(live) == multiset(live - {a}) + multiset{a};
  }

  // ---------------------------------------------------------------- new objects

  lemma AlignUpIs(x: nat, y: nat)
    requires 0 < y
    ensures x <= AlignUp(x, y) < x + y && AlignUp(x, y) % y == 0
  {
    var q := x / y;
    assert x == q * y + x % y;
    if x % y != 0 {
      assert AlignUp(x, y) == (q + 1) * y by { assert (q + 1) * y == q * y + y; }
      DivUnique(AlignUp(x, y), y, q + 1, 0);
    }
  }

  /** Growing, when it is needed, leaves room for one more object in the last chunk. */
  lemma GrowKeeps(rs: seq<Region>, c: Config, base: nat)
    requires ConfigOk(c) && (forall i: nat :: RegionOk(c, rs, i)) && (forall i: nat, j: nat :: RegionsApart(rs, i, j))
    requires Exhausted(rs, c.step) ==> FreshRegion(NewRegion(c.align, c.chunkSize, c.step, base), rs)
    ensures var gs := Grown(rs, c.align, c.chunkSize, c.step, base);
            && gs != [] && rs <= gs
            && (forall i: nat :: RegionOk(c, gs, i)) && (forall i: nat, j: nat :: RegionsApart(gs, i, j))
            && gs[|gs| - 1].offset + c.step <= gs[|gs| - 1].size
  {
    var gs := Grown(rs, c.align, c.chunkSize, c.step, base);
    AlignUpIs(base, c.align);
    forall i: nat ensures RegionOk(c, gs, i) { assert RegionOk(c, rs, i); }
    forall i: nat, j: nat ensures RegionsApart(gs, i, j) { assert RegionsApart(rs, i, j); }
    assert RegionOk(c, gs, |gs| - 1);
  }

  /** The object cut off the last chunk is aligned and clear of all others. */
  lemma CutKeeps(gs: seq<Region>, c: Config, objs: set<nat>, rs: seq<Region>, a: nat)
    requires ConfigOk(c) && (forall i: nat :: RegionOk(c, gs, i)) && (forall i: nat, j: nat :: RegionsApart(gs, i, j))
    requires gs != [] && gs[|gs| - 1].offset + c.step <= gs[|gs| - 1].size
    requires (forall x: nat :: x in objs ==> ObjectOk(c, gs, x)) && (forall x: nat, y: nat :: Apart(c, objs, x, y))
    requires a == gs[|gs| - 1].base + gs[|gs| - 1].offset
    requires rs == gs[|gs| - 1 := gs[|gs| - 1].(offset := gs[|gs| - 1].offset + c.step)]
    ensures a !in objs && (forall i: nat :: RegionOk(c, rs, i)) && (forall i: nat, j: nat :: RegionsApart(rs, i, j))
    ensures (forall x: nat :: x in objs + {a} ==> ObjectOk(c, rs, x))
    ensures (forall x: nat, y: nat :: Apart(c, objs + {a}, x, y))
  {
    var n := |gs| - 1;
    assert RegionOk(c, gs, n);
    MultiplesAdd(a, c.step, c.align);
    forall i: nat ensures RegionOk(c, rs, i) { assert RegionOk(c, gs, i); }
    forall i: nat, j: nat ensures RegionsApart(rs, i, j) { assert RegionsApart(gs, i, j); }
    assert Inside(c, rs, a, n);
    forall x: nat | x in objs ensures ObjectOk(c, rs, x) && (x + c.step <= a || a + c.step <= x) {
      ClearOfOthers(gs, c, x, a);
      var i: nat :| Inside(c, gs, x, i);
      assert Inside(c, rs, x, i);
    }
    forall x: nat, y: nat ensures Apart(c, objs + {a}, x, y) { assert Apart(c, objs, x, y); }
  }

  lemma ClearOfOthers(gs: seq<Region>, c: Config, x: nat, a: nat)
    requires (forall i: nat :: RegionOk(c, gs, i)) && (forall i: nat, j: nat :: RegionsApart(gs, i, j))
    requires gs != [] && gs[|gs| - 1].offset + c.step <= gs[|gs| - 1].size && 0 < c.step
    requires a == gs[|gs| - 1].base + gs[|gs| - 1].offset && ObjectOk(c, gs, x)
    ensures x + c.step <= a || a + c.step <= x
  {
    var i: nat :| Inside(c, gs, x, i);
    assert RegionOk(c, gs, i) && RegionsApart(gs, i, |gs| - 1);
  }

  /** Chunks added behind the others leave the objects where they are. */
  lemma ObjectsStay(c: Config, rs: seq<Region>, gs: seq<Region>, objs: set<nat>)
    requires rs <= gs && forall x: nat :: x in objs ==> ObjectOk(c, rs, x)
    ensures forall x: nat :: x in objs ==> ObjectOk(c, gs, x)
  {
    forall x: nat | x in objs ensures ObjectOk(c, gs, x) {
      var i: nat :| Inside(c, rs, x, i);
      assert Inside(c, gs, x, i);
    }
  }

  lemma NewKeeps(p: Pool, c: Config, live: set<nat>, objs: set<nat>, base: nat)
    requires Inv(p, c, live, objs)
    requires Exhausted(p.regions, c.step) ==> FreshRegion(NewRegion(c.align, c.chunkSize, c.step, base), p.regions)
    ensures var (rs, a) := Bumped(p.regions, c.align, c.chunkSize, c.step, base);
            a !in objs && Inv(p.(regions := rs, newly := p.newly + 1), c, live + {a}, objs + {a})
  {
    var (rs, a) := Bumped(p.regions, c.align, c.chunkSize, c.step, base);
    var gs := Grown(p.regions, c.align, c.chunkSize, c.step, base);
    GrowKeeps(p.regions, c, base);
    ObjectsStay(c, p.regions, gs, objs);
    CutKeeps(gs, c, objs, rs, a);
    LiveAreObjects(p, c, live, objs, a);
    assert multiset(live + {a}) == multiset(live) + multiset{a};
    assert multiset(objs + {a}) == multiset(objs) + multiset{a};
  }

  lemma LiveAreObjects(p: Pool, c: Config, live: set<nat>, objs: set<nat>, a: nat)
    requires Inv(p, c, live, objs)
    ensures a in live ==> a in objs
  {
    assert (All(p.lists) + multiset(live))[a] == multiset(objs)[a];
  }

  // ---------------------------------------------------------------- every run

  datatype Step = DoAlloc(mayGrow: bool, base: nat) | DoFree(a: nat)

  /** The pool with the objects handed out and those ever made. */
  datatype System = System(p: Pool, live: set<nat>, objs: set<nat>)

  ghost predicate Enabled(s: System, c: Config, t: Step)
    requires ConfigOk(c)
  {
    match t
    case DoAlloc(_, base) => FreshRegion(NewRegion(c.align, c.chunkSize, c.step, base), s.p.regions)
    case DoFree(a) => a in s.live
  }

  ghost function After(s: System, c: Config, t: Step): System
    requires Inv(s.p, c, s.live, s.objs) && Enabled(s, c, t)
  {
    match t
    case DoAlloc(mayGrow, base) =>
      var (p, r) := Allocated(s.p, c, mayGrow, base);
      (match r case None => s case Some(a) => System(p, s.live + {a}, s.objs + {a}))
    case DoFree(a) => System(Freed(s.p, a), s.live - {a}, s.objs)
  }

  ghost predicate SystemOk(s: System, c: Config) { Inv(s.p, c, s.live, s.objs) }

  /** A chunk is asked of the system exactly when the last one has no room for one more object, and it has
      room for as many objects as the pool was told to make at a time. */
  lemma GrowsWhenNeeded(rs: seq<Region>, c: Config, base: nat)
    requires ConfigOk(c)
    ensures var gs := Bumped(rs, c.align, c.chunkSize, c.step, base).0;
      && (|gs| == |rs| <==> rs != [] && rs[|rs| - 1].offset + c.step <= rs[|rs| - 1].size)
      && (|gs| != |rs| ==> |gs| == |rs| + 1 && gs[..|rs|] == rs
                           && c.chunkSize <= gs[|rs|].size - (gs[|rs|].offset - c.step))
  {
    AlignUpIs(base, c.align);
  }

  /** What is handed out was not handed out already. */
  lemma AllocKeeps(s: System, c: Config, mayGrow: bool, base: nat)
    requires SystemOk(s, c) && Enabled(s, c, DoAlloc(mayGrow, base))
    ensures SystemOk(After(s, c, DoAlloc(mayGrow, base)), c)
    ensures Allocated(s.p, c, mayGrow, base).1.Some? ==> Allocated(s.p, c, mayGrow, base).1.value !in s.live
  {
    var i := Choice(s.p);
    if i < LISTS {
      ReuseKeeps(s.p, c, s.live, s.objs, i);
      assert s.objs + {s.p.lists[i][0]} == s.objs;
    } else if mayGrow {
      NewKeeps(s.p, c, s.live, s.objs, base);
      LiveAreObjects(s.p, c, s.live, s.objs, Allocated(s.p, c, mayGrow, base).1.value);
    }
  }

  lemma StepKeeps(s: System, c: Config, t: Step)
    requires SystemOk(s, c) && Enabled(s, c, t)
    ensures SystemOk(After(s, c, t), c)
  {
    match t
    case DoAlloc(mayGrow, base) => AllocKeeps(s, c, mayGrow, base);
    case DoFree(a) => FreeKeeps(s.p, c, s.live, s.objs, a);
  }

  ghost function Initial(): System { System(Pool(seq(LISTS, _ => []), 0, 0, 0, []), {}, {}) }

  lemma {:induction false} AllEmpty(lists: seq<seq<nat>>)
    requires forall i: nat :: i < |lists| ==> lists[i] == []
    ensures Length(lists) == 0 && All(lists) == multiset{}
  {
    if lists != [] {
      assert forall i: nat :: i < |lists[1..]| ==> lists[1..][i] == lists[i + 1];
      AllEmpty(lists[1..]);
    }
  }

  lemma InitiallyOk(c: Config)
    requires ConfigOk(c)
    ensures SystemOk(Initial(), c)
  {
    AllEmpty(Initial().p.lists);
    assert forall i: nat :: RegionOk(c, [], i);
    assert forall i: nat, j: nat :: RegionsApart([], i, j);
  }

  ghost predicate Possible(s: System, c: Config, run: seq<Step>)
    requires SystemOk(s, c)
    decreases |run|
  {
    run == [] || (Enabled(s, c, run[0]) && (StepKeeps(s, c, run[0]); Possible(After(s, c, run[0]), c, run[1..])))
  }

  ghost function Reached(s: System, c: Config, run: seq<Step>): (s': System)
    requires SystemOk(s, c) && Possible(s, c, run)
    ensures SystemOk(s', c)
    decreases |run|
  {
    if run == [] then s else StepKeeps(s, c, run[0]); Reached(After(s, c, run[0]), c, run[1..])
  }

  /** In every reachable state: objects handed out are aligned, inside a chunk and clear of each other
      and of the free ones, no object is on the free lists twice, and the size of the free lists is
      the balance that freelist_size reports. */
  lemma PoolIsSound(c: Config, run: seq<Step>)
    requires ConfigOk(c) && (InitiallyOk(c); Possible(Initial(), c, run))
    ensures (InitiallyOk(c);
             var s := Reached(Initial(), c, run);
             && (forall a: nat :: a in s.live ==> ObjectOk(c, s.p.regions, a) && a !in All(s.p.lists))
             && (forall a: nat, b: nat :: a in s.live && b in s.live && a < b ==> a + c.step <= b)
             && (forall a: nat :: All(s.p.lists)[a] <= 1)
             && -s.p.balance == Length(s.p.lists))
  {
    InitiallyOk(c);
    var s := Reached(Initial(), c, run);
    forall a: nat ensures All(s.p.lists)[a] + (if a in s.live then 1 else 0) == if a in s.objs then 1 else 0 {
      assert (All(s.p.lists) + multiset(s.live))[a] == multiset(s.objs)[a];
    }
    forall a: nat, b: nat ensures a in s.live && b in s.live && a < b ==> a + c.step <= b {
      LiveAreObjects(s.p, c, s.live, s.objs, a);
      LiveAreObjects(s.p, c, s.live, s.objs, b);
      assert Apart(c, s.objs, a, b);
    }
  }
}
