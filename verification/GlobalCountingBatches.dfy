/** When calls are combined, how many batches there are, and who is given the sender's role. */
module GlobalCountingBatches {
  import opened Wrappers
  import opened Sequences
  import opened FlatCombining
  import opened GlobalCounting
  import opened GlobalCountingSteps
  import opened GlobalCountingTheorems

  // ---------------------------------------------------------------- who waits

  /** A call waits exactly when the client is not full and some batch of its core is being sent; otherwise
      it sends the batch at once, and a fresh one is filled from then on. */
  lemma CallWaitsIff(s: System, c: nat, w: nat, d: int, full: bool)
    requires Reached(s) && Ready(s, Incr(c, w, d, full))
    ensures Defined(s, Incr(c, w, d, full))
    ensures var k, k' := s.cores[c], After(s, Incr(c, w, d, full)).cores[c];
      && (St(k'.workers, w).Waiting? <==>
            !full && exists b: nat :: b < |k.comb.batches| && k.comb.batches[b].sender.Some?)
      && (St(k'.workers, w).Waiting? ==> k'.comb.current == k.comb.current && St(k'.workers, w).b == k.comb.current)
      && (!St(k'.workers, w).Waiting? ==>
            St(k'.workers, w).Syncing? && k'.comb.current != k.comb.current
            && k'.comb.current < |k'.comb.batches| && k'.comb.batches[k'.comb.current] == EMPTY)
  {
    ReachedIsSafe(s);
    ReadyMeansDefined(s, Incr(c, w, d, full));
    var k := s.cores[c];
    assert RoleOk(k.comb, k.workers, k.comb.current);
    if k.comb.inflight == 0 {
      forall b: nat | b < |k.comb.batches| ensures k.comb.batches[b].sender.None? { assert b !in Owned(k.comb); }
    } else {
      assert Owned(k.comb) != {};
      var b :| b in Owned(k.comb);
    }
  }

  // ---------------------------------------------------------------- how many batches there are

  lemma SizeOfTwo(a: set<nat>, b: set<nat>)
    requires a !! b
    ensures |a + b| == |a| + |b|
  {
  }

  lemma {:induction false} SizeOfList(l: seq<nat>)
    requires NoRepeats(l)
    ensures |Elements(l)| == |l|
  {
    if l != [] {
      var rest := l[1..];
      assert forall i: nat :: i < |rest| ==> rest[i] == l[i + 1];
      SizeOfList(rest);
      assert l == [l[0]] + rest;
      assert Elements(l) == {l[0]} + Elements(rest);
      assert l[0] !in rest;
    }
  }

  ghost function Below(n: nat): set<nat> { if n == 0 then {} else Below(n - 1) + {n - 1} }

  lemma {:induction false} SizeBelow(n: nat)
    ensures |Below(n)| == n && forall b: nat :: b in Below(n) <==> b < n
  {
    if n > 0 { SizeBelow(n - 1); }
  }

  /** Every batch is the current one, is being sent, or has been recycled. */
  lemma BatchesAreCounted(k: Core)
    requires CoreInv(k)
    ensures |k.comb.batches| == 1 + k.comb.inflight + |k.comb.freelist|
  {
    var n, f, o := |k.comb.batches|, Elements(k.comb.freelist), Owned(k.comb);
    SizeBelow(n);
    forall b: nat ensures b in Below(n) <==> b in {k.comb.current} + o + f { assert RoleOk(k.comb, k.workers, b); }
    forall b: nat ensures !(b in o && (b in f || b == k.comb.current)) { assert RoleOk(k.comb, k.workers, b); }
    assert Below(n) == {k.comb.current} + o + f;
    SizeOfList(k.comb.freelist);
    SizeOfTwo({k.comb.current}, o);
    SizeOfTwo({k.comb.current} + o, f);
  }

  /** A new batch is made only when none has been recycled. */
  lemma StepMakes(s: System, p: Step)
    requires Inv(s) && Enabled(s, p)
    ensures var n, n' := |s.cores[p.c].comb.batches|, |After(s, p).cores[p.c].comb.batches|;
      n' == n || (n' == n + 1 && s.cores[p.c].comb.freelist == [])
  {
  }

  ghost function Larger(x: int, y: int): int { if x < y then y else x }

  /** The largest number of batches that a core sent at once during a run. */
  ghost function Peak(s: System, steps: seq<Step>, s': System, c: nat): int
    requires Follows(s, steps, s') && c < |s.cores|
    decreases |steps|
  {
    if steps == [] then s.cores[c].comb.inflight
    else Larger(s.cores[c].comb.inflight, Peak(After(s, steps[0]), steps[1..], s', c))
  }

  lemma {:induction false} PeakIsLater(s: System, steps: seq<Step>, s': System, c: nat)
    requires Follows(s, steps, s') && c < |s.cores|
    ensures Peak(s, steps, s', c) >= s.cores[c].comb.inflight
    ensures steps != [] ==> Peak(s, steps, s', c) >= Peak(After(s, steps[0]), steps[1..], s', c)
  {
  }

  /** At most so many batches on a core. */
  ghost predicate AtMost(s: System, c: nat, n: int) { c < |s.cores| && |s.cores[c].comb.batches| <= n }

  lemma {:induction false} MadeAlong(s: System, steps: seq<Step>, s': System, c: nat, n: int)
    requires Inv(s) && Follows(s, steps, s') && AtMost(s, c, n) && 2 + Peak(s, steps, s', c) <= n
    ensures AtMost(s', c, n)
    decreases |steps|
  {
    if steps != [] {
      PeakIsLater(s, steps, s', c);
      StepBounded(s, steps[0], c, n);
      MadeAlong(After(s, steps[0]), steps[1..], s', c, n);
    }
  }

  lemma StepBounded(s: System, p: Step, c: nat, n: int)
    requires Inv(s) && Enabled(s, p) && AtMost(s, c, n) && 2 + s.cores[c].comb.inflight <= n
    ensures Inv(After(s, p)) && AtMost(After(s, p), c, n)
  {
    StepIsSafe(s, p);
    BatchesAreCounted(s.cores[c]);
    if p.c == c { StepMakes(s, p); }
  }

  /** However many calls are made in a run, a core never has more than two batches beyond those that it was
      sending at once at its peak. */
  lemma FewBatches(n: nat, initial: int, steps: seq<Step>, s: System, c: nat)
    requires Follows(Initial(n, initial), steps, s) && c < n
    ensures |s.cores| == n && |s.cores[c].comb.batches| <= 2 + Peak(Initial(n, initial), steps, s, c)
  {
    var s0 := Initial(n, initial);
    InitialIsSafe(n, initial);
    PeakIsLater(s0, steps, s, c);
    MadeAlong(s0, steps, s, c, 2 + Peak(s0, steps, s, c));
    SameCores(s0, steps, s);
  }

  lemma {:induction false} SameCores(s: System, steps: seq<Step>, s': System)
    requires Follows(s, steps, s')
    ensures |s'.cores| == |s.cores|
    decreases |steps|
  {
    if steps != [] { SameCores(After(s, steps[0]), steps[1..], s'); }
  }

  // ---------------------------------------------------------------- who is given the sender's role

  /** The number of the call a worker is in. */
  ghost function CallOf(ws: map<nat, WState>, w: nat): nat { if St(ws, w).Idle? then 0 else St(ws, w).op }

  ghost predicate Later(ws: map<nat, WState>, cv: seq<nat>, i: nat, j: nat) {
    i < j < |cv| ==> CallOf(ws, cv[j]) < CallOf(ws, cv[i])
  }

  /** The calls on a wait list are listed from the last to the first. */
  ghost predicate NewestFirst(k: Core, b: nat) {
    b < |k.comb.batches| ==> forall i: nat, j: nat :: Later(k.workers, k.comb.batches[b].cv, i, j)
  }

  ghost predicate AllNewestFirst(k: Core) { forall b: nat :: NewestFirst(k, b) }

  /** Part of a list stays in order, while the calls of those on it go on. */
  lemma StaysInOrder(k: Core, k': Core, b: nat, w: nat, n: nat)
    requires CoreInv(k) && NewestFirst(k, b) && b < |k.comb.batches| && b < |k'.comb.batches|
    requires n <= |k.comb.batches[b].cv| && k'.comb.batches[b].cv == k.comb.batches[b].cv[n..]
    requires !St(k.workers, w).Waiting?
    requires forall v: nat :: v != w && St(k.workers, v).Waiting? ==> CallOf(k'.workers, v) == CallOf(k.workers, v)
    ensures NewestFirst(k', b)
  {
    assert ListOk(k.comb, k.workers, b);
    var cv, cv' := k.comb.batches[b].cv, k'.comb.batches[b].cv;
    forall i: nat, j: nat ensures Later(k'.workers, cv', i, j) {
      assert Later(k.workers, cv, n + i, n + j);
      if i < j < |cv'| { assert cv'[i] == cv[n + i] && cv'[j] == cv[n + j] && cv'[i] in cv && cv'[j] in cv; }
    }
  }

  lemma FlushNewest(k: Core, w: nat, d: int, full: bool)
    requires CoreInv(k) && AllNewestFirst(k) && St(k.workers, w).Idle? && Flushes(k.comb, full)
    ensures AllNewestFirst(AfterIncr(k, w, d, full))
  {
    var k' := AfterIncr(k, w, d, full);
    FlushingIncr(k, w, d, full);
    forall b: nat ensures NewestFirst(k', b) {
      assert NewestFirst(k, b);
      if b < |k.comb.batches| && b != k'.comb.current { StaysInOrder(k, k', b, w, 0); }
    }
  }

  lemma WaitNewest(k: Core, w: nat, d: int, full: bool)
    requires CoreInv(k) && AllNewestFirst(k) && St(k.workers, w).Idle? && !Flushes(k.comb, full)
    ensures AllNewestFirst(AfterIncr(k, w, d, full))
  {
    var k' := AfterIncr(k, w, d, full);
    var s := k.comb.current;
    assert RoleOk(k.comb, k.workers, s) && ListOk(k.comb, k.workers, s);
    forall b: nat ensures NewestFirst(k', b) {
      assert NewestFirst(k, b);
      if b < |k.comb.batches| && b != s { StaysInOrder(k, k', b, w, 0); }
      if b == s { JoinsInFront(k, k', w); }
    }
  }

  lemma JoinsInFront(k: Core, k': Core, w: nat)
    requires CoreInv(k) && NewestFirst(k, k.comb.current) && St(k.workers, w).Idle?
    requires k.comb.current < |k'.comb.batches| && CallOf(k'.workers, w) == |k.ops|
    requires k'.comb.batches[k.comb.current].cv == [w] + k.comb.batches[k.comb.current].cv
    requires forall v: nat :: v != w ==> CallOf(k'.workers, v) == CallOf(k.workers, v)
    ensures NewestFirst(k', k.comb.current)
  {
    var s := k.comb.current;
    var cv, cv' := k.comb.batches[s].cv, k'.comb.batches[s].cv;
    assert ListOk(k.comb, k.workers, s);
    forall i: nat, j: nat ensures Later(k'.workers, cv', i, j) {
      if i < j < |cv'| {
        assert cv'[j] == cv[j - 1] && cv[j - 1] in cv;
        assert WorkerOk(k.comb, k.workers, k.ops, cv[j - 1]);
        if i > 0 {
          assert cv'[i] == cv[i - 1] && cv[i - 1] in cv;
          assert Later(k.workers, cv, i - 1, j - 1);
        }
      }
    }
  }

  lemma ReturnNewest(k: Core, w: nat)
    requires CoreInv(k) && AllNewestFirst(k) && Returning(k, w)
    ensures (ReturnReady(k, w); AllNewestFirst(AfterReturn(k, w)))
  {
    ReturnReady(k, w);
    var k' := AfterReturn(k, w);
    ReturnWakes(k, w);
    var y := ReturnUnloads(k, w);
    var s, n := St(k.workers, w).b, k.comb.current;
    forall b: nat ensures NewestFirst(k', b) {
      assert NewestFirst(k, b);
      if b < |k.comb.batches| && k'.comb.batches[b].cv != [] {
        StaysInOrder(k, k', b, w, if b == n && k.comb.batches[n].cv != [] then 1 else 0);
      }
    }
  }

  lemma ResumeNewest(k: Core, w: nat)
    requires CoreInv(k) && AllNewestFirst(k) && St(k.workers, w).Awake? && St(k.workers, w).op < |k.ops|
    ensures AllNewestFirst(AfterResume(k, w))
  {
    var k' := AfterResume(k, w);
    SendsOnlyItsOwn(k, w);
    forall b: nat ensures NewestFirst(k', b) {
      assert NewestFirst(k, b);
      if b < |k.comb.batches| { StaysInOrder(k, k', b, w, 0); }
    }
  }

  lemma ArriveNewest(k: Core, w: nat)
    requires CoreInv(k) && AllNewestFirst(k) && St(k.workers, w).Syncing?
    ensures AllNewestFirst(AfterArrive(k, w))
  {
    forall b: nat ensures NewestFirst(AfterArrive(k, w), b) {
      assert NewestFirst(k, b);
      if b < |k.comb.batches| { StaysInOrder(k, AfterArrive(k, w), b, w, 0); }
    }
  }

  ghost predicate Newest(s: System) { forall c: nat :: c < |s.cores| ==> AllNewestFirst(s.cores[c]) }

  lemma StepNewest(s: System, p: Step)
    requires Inv(s) && Enabled(s, p) && Newest(s)
    ensures Newest(After(s, p))
  {
    var k := s.cores[p.c];
    match p
    case Incr(c, w, d, full) =>
      if Flushes(k.comb, full) { FlushNewest(k, w, d, full); } else { WaitNewest(k, w, d, full); }
    case Arrive(c, w) => ArriveNewest(k, w);
    case Return(c, w) => ReturnNewest(k, w);
    case Resume(c, w) => ResumeNewest(k, w);
  }

  lemma {:induction false} RunNewest(s: System, steps: seq<Step>, s': System)
    requires Inv(s) && Newest(s) && Follows(s, steps, s')
    ensures Newest(s')
    decreases |steps|
  {
    if steps != [] {
      StepIsSafe(s, steps[0]);
      StepNewest(s, steps[0]);
      RunNewest(After(s, steps[0]), steps[1..], s');
    }
  }

  /** When a flush ends and calls wait for the next batch, the one made last is told to send it, and
      woken. */
  lemma TheLatestSendsNext(s: System, c: nat, w: nat)
    requires Reached(s) && Ready(s, Return(c, w))
    requires s.cores[c].comb.current < |s.cores[c].comb.batches|
    requires s.cores[c].comb.batches[s.cores[c].comb.current].cv != []
    ensures Defined(s, Return(c, w))
    ensures var k, k' := s.cores[c], After(s, Return(c, w)).cores[c];
            var n := k.comb.current;
      exists v: nat :: v in k.comb.batches[n].cv && k'.comb.batches[n].sender == Some(v) && St(k'.workers, v).Awake?
                       && forall u <- k.comb.batches[n].cv :: CallOf(k.workers, u) <= CallOf(k.workers, v)
  {
    ReachedIsSafe(s);
    ReadyMeansDefined(s, Return(c, w));
    var n: nat, initial: int, steps :| Follows(Initial(n, initial), steps, s);
    InitialIsSafe(n, initial);
    assert Newest(Initial(n, initial)) by {
      forall b: nat ensures NewestFirst(FRESH, b) {
        forall i: nat, j: nat | b < 1 ensures Later(FRESH.workers, FRESH.comb.batches[b].cv, i, j) {}
      }
    }
    RunNewest(Initial(n, initial), steps, s);
    HeadIsLatest(s.cores[c], w);
  }

  lemma HeadIsLatest(k: Core, w: nat)
    requires CoreInv(k) && AllNewestFirst(k) && Returning(k, w) && k.comb.batches[k.comb.current].cv != []
    ensures (ReturnReady(k, w);
             var k', n, v := AfterReturn(k, w), k.comb.current, k.comb.batches[k.comb.current].cv[0];
             && k'.comb.batches[n].sender == Some(v) && St(k'.workers, v).Awake?
             && forall u <- k.comb.batches[n].cv :: CallOf(k.workers, u) <= CallOf(k.workers, v))
  {
    ReturnReady(k, w);
    ReturnWakes(k, w);
    HandingOverUnloads(k, w);
    ChosenWaits(k);
    var cv := k.comb.batches[k.comb.current].cv;
    assert NewestFirst(k, k.comb.current);
    forall u <- cv ensures CallOf(k.workers, u) <= CallOf(k.workers, cv[0]) {
      var j: nat :| j < |cv| && cv[j] == u;
      assert Later(k.workers, cv, 0, j);
    }
  }
}
