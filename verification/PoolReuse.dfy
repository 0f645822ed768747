/** When the pool reuses a freed object, makes a new one, or has none to give. */
module PoolReuse {
  import opened Wrappers
  import opened PoolAllocator

  lemma {:induction false} NothingOnLists(lists: seq<seq<nat>>)
    requires All(lists) == multiset{}
    ensures forall i: nat :: i < |lists| ==> lists[i] == []
  {
    if lists != [] {
      assert multiset(lists[0]) <= All(lists);
      assert multiset(lists[0]) == multiset{} && |multiset(lists[0])| == |lists[0]|;
      assert All(lists[1..]) <= All(lists);
      NothingOnLists(lists[1..]);
      assert forall i: nat :: 0 < i < |lists| ==> lists[i] == lists[1..][i - 1];
    }
  }

  /** What the lists lose, the caller gets. */
  lemma ReusesOne(s: System, c: Config, mayGrow: bool, base: nat)
    requires SystemOk(s, c) && Enabled(s, c, DoAlloc(mayGrow, base)) && All(s.p.lists) != multiset{}
    ensures var t := After(s, c, DoAlloc(mayGrow, base));
            exists a :: a in s.objs && a !in s.live && Allocated(s.p, c, mayGrow, base).1 == Some(a)
                        && t.live == s.live + {a} && t.objs == s.objs && t.p.regions == s.p.regions
                        && All(s.p.lists) == All(t.p.lists) + multiset{a}
  {
    var i := Choice(s.p);
    if i == LISTS {
      AllEmpty(s.p.lists);
    } else {
      ReuseKeeps(s.p, c, s.live, s.objs, i);
      PopOne(s.p.lists, i);
      var a := s.p.lists[i][0];
      assert s.objs + {a} == s.objs;
    }
  }

  /** With nothing on the lists, all objects are handed out. */
  lemma AllHandedOut(s: System, c: Config)
    requires SystemOk(s, c) && All(s.p.lists) == multiset{}
    ensures s.live == s.objs
  {
    assert multiset(s.live) == multiset(s.objs);
    forall a: nat ensures a in s.live <==> a in s.objs { assert multiset(s.live)[a] == multiset(s.objs)[a]; }
  }

  lemma MakesOne(s: System, c: Config, mayGrow: bool, base: nat)
    requires SystemOk(s, c) && Enabled(s, c, DoAlloc(mayGrow, base)) && All(s.p.lists) == multiset{}
    ensures var r, t := Allocated(s.p, c, mayGrow, base).1, After(s, c, DoAlloc(mayGrow, base));
            && (r.Some? <==> mayGrow)
            && (r.Some? ==> r.value !in s.objs && t.live == s.live + {r.value} && t.objs == s.objs + {r.value})
            && (r.None? ==> t == s)
            && All(t.p.lists) == multiset{}
  {
    NothingOnLists(s.p.lists);
    var i := Choice(s.p);
    assert i == LISTS;
    if mayGrow { NewKeeps(s.p, c, s.live, s.objs, base); }
  }

  /** Nothing is given if and only if nothing has been freed and the pool may not grow; an object is
      made if and only if nothing has been freed and it may; and otherwise a freed one is reused. */
  lemma AllocChoosesWell(s: System, c: Config, mayGrow: bool, base: nat)
    requires SystemOk(s, c) && Enabled(s, c, DoAlloc(mayGrow, base))
    ensures var r, t := Allocated(s.p, c, mayGrow, base).1, After(s, c, DoAlloc(mayGrow, base));
            && (r.None? <==> All(s.p.lists) == multiset{} && !mayGrow)
            && (t.objs != s.objs <==> All(s.p.lists) == multiset{} && mayGrow)
            && (All(s.p.lists) != multiset{} ==> r.Some? && r.value in All(s.p.lists))
  {
    if All(s.p.lists) == multiset{} {
      MakesOne(s, c, mayGrow, base);
    } else {
      ReusesOne(s, c, mayGrow, base);
    }
  }

  // ---------------------------------------------------------------- no more objects than needed

  ghost function Greater(x: nat, y: nat): nat { if x < y then y else x }

  /** The largest number of objects handed out at any one time during a run. */
  ghost function Peak(s: System, c: Config, run: seq<Step>): nat
    requires SystemOk(s, c) && Possible(s, c, run)
    decreases |run|
  {
    if run == [] then |s.live| else
      StepKeeps(s, c, run[0]);
      Greater(|s.live|, Peak(After(s, c, run[0]), c, run[1..]))
  }

  lemma {:induction false} PeakIsLater(s: System, c: Config, run: seq<Step>)
    requires SystemOk(s, c) && Possible(s, c, run)
    ensures |s.live| <= Peak(s, c, run)
    decreases |run|
  {
  }

  lemma LiveAreMade(s: System, c: Config)
    requires SystemOk(s, c)
    ensures s.live <= s.objs && |s.live| <= |s.objs|
  {
    forall a | a in s.live ensures a in s.objs { LiveAreObjects(s.p, c, s.live, s.objs, a); }
    assert s.objs == s.live + (s.objs - s.live);
    assert |s.objs| == |s.live| + |s.objs - s.live|;
  }

  /** A step makes a new object only when all are handed out. */
  lemma StepMakes(s: System, c: Config, t: Step)
    requires SystemOk(s, c) && Enabled(s, c, t)
    ensures |After(s, c, t).objs| == Greater(|s.objs|, |After(s, c, t).live|)
    ensures SystemOk(After(s, c, t), c)
  {
    StepKeeps(s, c, t);
    LiveAreMade(After(s, c, t), c);
    if t.DoAlloc? && All(s.p.lists) == multiset{} {
      MakesOne(s, c, t.mayGrow, t.base);
      AllHandedOut(s, c);
    } else if t.DoAlloc? {
      ReusesOne(s, c, t.mayGrow, t.base);
    }
  }

  lemma {:induction false} MadeAlong(s: System, c: Config, run: seq<Step>)
    requires SystemOk(s, c) && Possible(s, c, run)
    ensures |Reached(s, c, run).objs| == Greater(|s.objs|, Peak(s, c, run))
    decreases |run|
  {
    LiveAreMade(s, c);
    if run != [] {
      StepMakes(s, c, run[0]);
      MadeAlong(After(s, c, run[0]), c, run[1..]);
      PeakIsLater(After(s, c, run[0]), c, run[1..]);
    }
  }

  /** In every run, the objects ever made are as many as were handed out at once at its peak. */
  lemma NoMoreThanThePeak(c: Config, run: seq<Step>)
    requires ConfigOk(c) && (InitiallyOk(c); Possible(Initial(), c, run))
    ensures (InitiallyOk(c); |Reached(Initial(), c, run).objs| == Peak(Initial(), c, run))
  {
    InitiallyOk(c);
    MadeAlong(Initial(), c, run);
  }

  // ---------------------------------------------------------------- lists in turn

  /** The list that is `k` turns away. */
  ghost function Turn(p: Pool, k: nat): (i: nat)
    requires p.first < LISTS
    ensures i < LISTS
  {
    (p.first + k) % LISTS
  }

  ghost predicate Takes(s: System, c: Config, steps: seq<Step>)
    requires SystemOk(s, c)
  {
    Possible(s, c, steps) && forall i: nat :: i < |steps| ==> steps[i].DoAlloc?
  }

  lemma TakeOne(s: System, c: Config, t: Step)
    requires SystemOk(s, c) && Enabled(s, c, t) && t.DoAlloc? && s.p.lists[s.p.first] != []
    ensures var s', f := After(s, c, t), s.p.first;
      && Allocated(s.p, c, t.mayGrow, t.base).1 == Some(s.p.lists[f][0])
      && s'.p.first == (f + 1) % LISTS && s'.p.lists == s.p.lists[f := s.p.lists[f][1..]]
  {
  }

  /** When the list whose turn it is has nothing, the first that has something is taken from, and the list
      after it is next. */
  lemma TakesElsewhere(s: System, c: Config, t: Step, i: nat)
    requires SystemOk(s, c) && Enabled(s, c, t) && t.DoAlloc? && s.p.lists[s.p.first] == []
    requires i < LISTS && s.p.lists[i] != [] && forall j: nat :: j < i ==> s.p.lists[j] == []
    ensures var s' := After(s, c, t);
      && Allocated(s.p, c, t.mayGrow, t.base).1 == Some(s.p.lists[i][0])
      && s'.p.first == (i + 1) % LISTS && s'.p.lists == s.p.lists[i := s.p.lists[i][1..]]
  {
    var r := Choice(s.p);
    assert r == i;
  }

  ghost predicate HasTurn(p: Pool, i: nat) { p.first < |p.lists| == LISTS && p.lists[Turn(p, i)] != [] }

  lemma TakesTail(s: System, c: Config, steps: seq<Step>)
    requires SystemOk(s, c) && Takes(s, c, steps) && steps != []
    ensures Enabled(s, c, steps[0]) && SystemOk(After(s, c, steps[0]), c) && Takes(After(s, c, steps[0]), c, steps[1..])
  {
    StepKeeps(s, c, steps[0]);
    assert forall i: nat :: i < |steps[1..]| ==> steps[1..][i] == steps[i + 1];
  }

  /** The object that lies first on the list `i` turns away. */
  ghost function Head(p: Pool, i: nat): nat
    requires HasTurn(p, i)
  {
    p.lists[Turn(p, i)][0]
  }

  ghost predicate HasTurns(p: Pool, n: nat) { forall i: nat :: i <= n ==> HasTurn(p, i) }

  /** Calls in a row take from the lists in turn: after `k` of them, fewer than eight, the next one gets the
      object that lay first on the list `k` turns away, which is the one prefetched longest. */
  lemma {:induction false} TakesInTurn(s: System, c: Config, steps: seq<Step>, t: Step)
    requires SystemOk(s, c) && Takes(s, c, steps) && |steps| < 8 && HasTurns(s.p, |steps|)
    requires Enabled(Reached(s, c, steps), c, t) && t.DoAlloc?
    ensures HasTurn(s.p, |steps|)
    ensures Allocated(Reached(s, c, steps).p, c, t.mayGrow, t.base).1 == Some(Head(s.p, |steps|))
    decreases |steps|
  {
    assert HasTurn(s.p, |steps|);
    if steps == [] {
      TakeOne(s, c, t);
    } else {
      TakesTail(s, c, steps);
      TurnsMoveUp(s, c, steps[0], |steps| - 1);
      TakesInTurn(After(s, c, steps[0]), c, steps[1..], t);
    }
  }

  lemma TurnsMoveUp(s: System, c: Config, t: Step, n: nat)
    requires SystemOk(s, c) && Enabled(s, c, t) && t.DoAlloc? && n + 1 < 8 && HasTurns(s.p, n + 1)
    ensures HasTurns(After(s, c, t).p, n) && HasTurn(s.p, n + 1) && HasTurn(After(s, c, t).p, n)
    ensures Head(After(s, c, t).p, n) == Head(s.p, n + 1)
  {
    assert HasTurn(s.p, 0) && HasTurn(s.p, n + 1);
    forall i: nat | i <= n ensures HasTurn(After(s, c, t).p, i) {
      assert HasTurn(s.p, i + 1);
      TurnsOn(s, c, t, i);
    }
    TurnsOn(s, c, t, n);
  }

  /** What was one turn further away, and has not been touched. */
  lemma TurnsOn(s: System, c: Config, t: Step, i: nat)
    requires SystemOk(s, c) && Enabled(s, c, t) && t.DoAlloc? && s.p.lists[s.p.first] != [] && i + 1 < LISTS
    ensures var p := After(s, c, t).p;
            p.first < |p.lists| == LISTS && p.lists[Turn(p, i)] == s.p.lists[Turn(s.p, i + 1)]
  {
    TakeOne(s, c, t);
    assert Turn(After(s, c, t).p, i) == Turn(s.p, i + 1) != s.p.first;
  }

  /** An object freed goes first on the list whose turn it is, and the turn passes. */
  lemma FreesInTurn(s: System, c: Config, a: nat)
    requires SystemOk(s, c) && Enabled(s, c, DoFree(a))
    ensures var s', f := After(s, c, DoFree(a)), s.p.first;
      s'.p.lists == s.p.lists[f := [a] + s.p.lists[f]] && s'.p.first == (f + 1) % LISTS
  {
  }

  /** The list `i` turns on begins with the object freed then, or is as before. */
  ghost predicate TurnOf(p: Pool, q: Pool, frees: seq<Step>, i: nat)
    requires p.first < |p.lists| == LISTS && |q.lists| == LISTS
  {
    i < 8 ==>
      var l := q.lists[Turn(p, i)];
      if i < |frees| then frees[i].DoFree? && l == [frees[i].a] + p.lists[Turn(p, i)] else l == p.lists[Turn(p, i)]
  }

  /** Up to eight objects freed in a row go on as many lists. */
  lemma {:induction false} FreesSpread(s: System, c: Config, frees: seq<Step>)
    requires SystemOk(s, c) && Possible(s, c, frees) && |frees| <= 8
    requires forall i: nat :: i < |frees| ==> frees[i].DoFree?
    ensures Reached(s, c, frees).p.first == Turn(s.p, |frees|)
    ensures forall i: nat :: TurnOf(s.p, Reached(s, c, frees).p, frees, i)
    decreases |frees|
  {
    if frees == [] {
      assert Turn(s.p, 0) == s.p.first;
    } else {
      StepKeeps(s, c, frees[0]);
      FreesInTurn(s, c, frees[0].a);
      var s1, rest := After(s, c, frees[0]), frees[1..];
      assert forall i: nat :: i < |rest| ==> rest[i] == frees[i + 1];
      FreesSpread(s1, c, rest);
      SpreadFirst(s, c, frees, s1, rest, Reached(s, c, frees));
    }
  }

  lemma SpreadFirst(s: System, c: Config, frees: seq<Step>, s1: System, rest: seq<Step>, q: System)
    requires SystemOk(s, c) && SystemOk(s1, c) && SystemOk(q, c) && 0 < |frees| <= 8 && rest == frees[1..]
    requires frees[0].DoFree? && s1.p.first == Turn(s.p, 1)
    requires s1.p.lists == s.p.lists[s.p.first := [frees[0].a] + s.p.lists[s.p.first]]
    requires forall i: nat :: TurnOf(s1.p, q.p, rest, i)
    ensures forall i: nat :: TurnOf(s.p, q.p, frees, i)
    ensures Turn(s1.p, |rest|) == Turn(s.p, |frees|)
  {
    forall i: nat ensures TurnOf(s.p, q.p, frees, i) {
      if i == 0 {
        TurnShift(s.p, s1.p, 7);
        assert TurnOf(s1.p, q.p, rest, 7);
      } else if i < 8 {
        TurnShift(s.p, s1.p, i - 1);
        assert TurnOf(s1.p, q.p, rest, i - 1);
      }
    }
    TurnShift(s.p, s1.p, |rest|);
  }

  lemma TurnShift(p: Pool, p1: Pool, i: nat)
    requires p.first < LISTS && p1.first == Turn(p, 1) && i < 8
    ensures Turn(p1, i) == Turn(p, i + 1) && Turn(p, 0) == Turn(p, 8) == p.first
    ensures i < 7 ==> Turn(p, i + 1) != p.first
  {
  }

  lemma FreedIsHead(p: Pool, q: Pool, frees: seq<Step>, i: nat)
    requires p.first < |p.lists| == LISTS && |q.lists| == LISTS && q.first == p.first
    requires TurnOf(p, q, frees, i) && i < |frees| <= 8
    ensures frees[i].DoFree? && HasTurn(q, i) && Head(q, i) == frees[i].a
  {
    assert Turn(q, i) == Turn(p, i);
  }

  /** Eight objects freed in a row are handed out again in the order in which they were freed: here `q` is
      the state after they have been freed, and `r` the one after so many of them have been taken. */
  lemma FreedComeBackInOrder(s: System, c: Config, frees: seq<Step>, q: System, takes: seq<Step>, r: System, t: Step)
    requires SystemOk(s, c) && Possible(s, c, frees) && |frees| == 8 && q == Reached(s, c, frees)
    requires forall i: nat :: i < |frees| ==> frees[i].DoFree?
    requires Takes(q, c, takes) && |takes| < 8 && r == Reached(q, c, takes)
    requires Enabled(r, c, t) && t.DoAlloc?
    ensures Allocated(r.p, c, t.mayGrow, t.base).1 == Some(frees[|takes|].a)
  {
    AfterEight(s, c, frees, q);
    TakesInTurn(q, c, takes, t);
  }

  lemma AfterEight(s: System, c: Config, frees: seq<Step>, q: System)
    requires SystemOk(s, c) && Possible(s, c, frees) && |frees| == 8 && q == Reached(s, c, frees)
    requires forall i: nat :: i < |frees| ==> frees[i].DoFree?
    ensures forall i: nat :: i < 8 ==> HasTurn(q.p, i) && Head(q.p, i) == frees[i].a
  {
    FreesSpread(s, c, frees);
    assert Turn(s.p, 8) == s.p.first;
    forall i: nat | i < 8 ensures HasTurn(q.p, i) && Head(q.p, i) == frees[i].a {
      assert TurnOf(s.p, q.p, frees, i);
      FreedIsHead(s.p, q.p, frees, i);
    }
  }

  // ---------------------------------------------------------------- counting what was made

  lemma {:induction false} NewlyAlong(s: System, c: Config, run: seq<Step>)
    requires SystemOk(s, c) && Possible(s, c, run) && s.p.newly == |s.objs|
    ensures Reached(s, c, run).p.newly == |Reached(s, c, run).objs|
    decreases |run|
  {
    if run != [] {
      StepMakes(s, c, run[0]);
      NewlyStep(s, c, run[0]);
      NewlyAlong(After(s, c, run[0]), c, run[1..]);
    }
  }

  lemma NewlyStep(s: System, c: Config, t: Step)
    requires SystemOk(s, c) && Enabled(s, c, t) && s.p.newly == |s.objs|
    ensures After(s, c, t).p.newly == |After(s, c, t).objs|
  {
    if t.DoAlloc? && All(s.p.lists) == multiset{} {
      MakesOne(s, c, t.mayGrow, t.base);
      NothingOnLists(s.p.lists);
    } else if t.DoAlloc? {
      ReusesOne(s, c, t.mayGrow, t.base);
      if Choice(s.p) == LISTS { AllEmpty(s.p.lists); }
    }
  }

  /** In every run, the allocator's own count of new objects is the number of objects ever made. */
  lemma NewlyCountsObjects(c: Config, run: seq<Step>)
    requires ConfigOk(c) && (InitiallyOk(c); Possible(Initial(), c, run))
    ensures (InitiallyOk(c); Reached(Initial(), c, run).p.newly == |Reached(Initial(), c, run).objs|)
  {
    InitiallyOk(c);
    NewlyAlong(Initial(), c, run);
  }
}
