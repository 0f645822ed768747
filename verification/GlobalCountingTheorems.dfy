/** What the counter promises, for every run on any number of cores. */
module GlobalCountingTheorems {
  import opened Wrappers
  import opened FlatCombining
  import opened GlobalCounting
  import opened GlobalCountingSteps

  datatype Step =
    | Incr(c: nat, w: nat, d: int, full: bool) // a call by an idle worker; `full` is what is_full answers
    | Arrive(c: nat, w: nat)                   // the sender's remote call runs on the master
    | Return(c: nat, w: nat)                   // its reply resumes the sender
    | Resume(c: nat, w: nat)                   // the scheduler runs a woken worker

  ghost predicate Inv(s: System) {
    && (forall c: nat :: c < |s.cores| ==> CoreInv(s.cores[c]))
    && s.master == s.initial + AppliedOn(s.cores)
  }

  /** When a step can happen. */
  ghost predicate Ready(s: System, p: Step) {
    p.c < |s.cores| &&
    match p
    case Incr(c, w, d, full) => St(s.cores[c].workers, w).Idle?
    case Arrive(c, w) => St(s.cores[c].workers, w).Syncing? && !St(s.cores[c].workers, w).arrived
    case Return(c, w) => Returning(s.cores[c], w)
    case Resume(c, w) => St(s.cores[c].workers, w).Awake?
  }

  /** The step finds the objects it works on: `ReadyMeansDefined` shows that it always does. */
  ghost predicate Defined(s: System, p: Step)
    requires Ready(s, p)
  {
    var k := s.cores[p.c];
    && Shaped(k.comb)
    && (p.Return? ==>
          var b := St(k.workers, p.w).b;
          b < |k.comb.batches| && b != k.comb.current && b !in k.comb.freelist && St(k.workers, p.w).op < |k.ops|)
    && (p.Resume? ==> St(k.workers, p.w).op < |k.ops|)
  }

  ghost predicate Enabled(s: System, p: Step) { Ready(s, p) && Defined(s, p) }

  ghost function After(s: System, p: Step): System
    requires Enabled(s, p)
  {
    var k := s.cores[p.c];
    match p
    case Incr(c, w, d, full) => s.(cores := s.cores[c := AfterIncr(k, w, d, full)])
    case Arrive(c, w) => s.(cores := s.cores[c := AfterArrive(k, w)], master := s.master + St(k.workers, w).d)
    case Return(c, w) => s.(cores := s.cores[c := AfterReturn(k, w)])
    case Resume(c, w) => s.(cores := s.cores[c := AfterResume(k, w)])
  }

  // ---------------------------------------------------------------- totals

  ghost function AppliedOn(cores: seq<Core>): int {
    if cores == [] then 0 else AppliedOn(cores[..|cores| - 1]) + Applied(cores[|cores| - 1].ops)
  }

  ghost function RequestedOn(cores: seq<Core>): int {
    if cores == [] then 0 else RequestedOn(cores[..|cores| - 1]) + Requested(cores[|cores| - 1].ops)
  }

  /** The deltas of the first `n` batches that have not been added to the master's count. */
  ghost function UnsentDeltas(k: Core, n: nat): int
    requires n <= |k.comb.batches|
  {
    if n == 0 then 0
    else UnsentDeltas(k, n - 1) + (if Unsent(k.comb, k.workers, n - 1) then k.comb.batches[n - 1].delta else 0)
  }

  ghost function UnsentOn(cores: seq<Core>): int {
    if cores == [] then 0
    else UnsentOn(cores[..|cores| - 1]) + UnsentDeltas(cores[|cores| - 1], |cores[|cores| - 1].comb.batches|)
  }

  lemma {:induction false} AppliedUpdate(cores: seq<Core>, c: nat, k: Core)
    requires c < |cores|
    ensures AppliedOn(cores[c := k]) == AppliedOn(cores) - Applied(cores[c].ops) + Applied(k.ops)
  {
    var n := |cores| - 1;
    if c == n {
      assert cores[c := k][..n] == cores[..n];
    } else {
      assert cores[c := k][..n] == cores[..n][c := k];
      AppliedUpdate(cores[..n], c, k);
    }
  }

  ghost function PendingUpTo(ops: seq<Op>, n: nat): int {
    if n == 0 then 0 else PendingUpTo(ops, n - 1) + PendingIn(ops, n - 1)
  }

  lemma {:induction false} PendingUpToSplit(ops: seq<Op>, n: nat)
    requires ops != []
    ensures var x := ops[|ops| - 1];
      PendingUpTo(ops, n) == PendingUpTo(ops[..|ops| - 1], n) + (if !x.applied && x.batch < n then x.amount else 0)
  {
    if n > 0 {
      PendingUpToSplit(ops, n - 1);
    }
  }

  /** Over all batches, the pending amounts are what was asked for but not applied. */
  lemma {:induction false} PendingIsTheRest(ops: seq<Op>, n: nat)
    requires forall i: nat :: i < |ops| && !ops[i].applied ==> ops[i].batch < n
    ensures PendingUpTo(ops, n) + Applied(ops) == Requested(ops)
  {
    if ops == [] {
      NothingUpTo(n);
    } else {
      PendingUpToSplit(ops, n);
      PendingIsTheRest(ops[..|ops| - 1], n);
    }
  }

  lemma {:induction false} NothingUpTo(n: nat)
    ensures PendingUpTo([], n) == 0
  {
    if n > 0 {
      NothingUpTo(n - 1);
    }
  }

  lemma {:induction false} UnsentIsPending(k: Core, n: nat)
    requires CoreInv(k) && n <= |k.comb.batches|
    ensures UnsentDeltas(k, n) == PendingUpTo(k.ops, n)
  {
    if n > 0 {
      UnsentIsPending(k, n - 1);
      assert DeltaOk(k.comb, k.workers, k.ops, n - 1);
    }
  }

  lemma {:induction false} UnsentIsTheRest(cores: seq<Core>)
    requires forall c: nat :: c < |cores| ==> CoreInv(cores[c])
    ensures UnsentOn(cores) + AppliedOn(cores) == RequestedOn(cores)
  {
    if cores != [] {
      var n := |cores| - 1;
      UnsentIsTheRest(cores[..n]);
      var k := cores[n];
      forall i: nat | i < |k.ops| && !k.ops[i].applied ensures k.ops[i].batch < |k.comb.batches| {
        assert OpOk(k.comb, k.workers, k.ops, i);
      }
      UnsentIsPending(k, |k.comb.batches|);
      PendingIsTheRest(k.ops, |k.comb.batches|);
    }
  }

  // ---------------------------------------------------------------- runs

  /** What a step does to the core it happens on, and to its applied total. */
  lemma StepOnCore(s: System, p: Step)
    requires Inv(s) && Enabled(s, p)
    ensures CoreInv(After(s, p).cores[p.c])
    ensures Applied(After(s, p).cores[p.c].ops) - Applied(s.cores[p.c].ops) == After(s, p).master - s.master
  {
    var k := s.cores[p.c];
    match p
    case Incr(c, w, d, full) =>
      KeepIncr(k, w, d, full);
      AppendSums(k.ops, Op(w, d, k.comb.current, false, false), 0);
    case Arrive(c, w) =>
      KeepArrive(k, w);
      ArriveBatches(k, w);
      MarkSums(k.ops, St(k.workers, w).b, 0);
    case Return(c, w) =>
      KeepReturn(k, w);
      ReturnReady(k, w);
      ReturnSums(k.ops, St(k.workers, w).op, 0);
    case Resume(c, w) =>
      SendsOnlyItsOwn(k, w);
      if MustSend(k.comb, St(k.workers, w).b, w) {
        KeepSendingResume(k, w);
      } else {
        KeepFinalResume(k, w);
        ReturnSums(k.ops, St(k.workers, w).op, 0);
      }
  }

  lemma StepIsSafe(s: System, p: Step)
    requires Inv(s) && Enabled(s, p)
    ensures Inv(After(s, p)) && After(s, p).initial == s.initial && |After(s, p).cores| == |s.cores|
  {
    var s' := After(s, p);
    StepOnCore(s, p);
    assert s'.cores == s.cores[p.c := s'.cores[p.c]];
    AppliedUpdate(s.cores, p.c, s'.cores[p.c]);
  }

  const FRESH := Core(Combiner(0, 0, [], [EMPTY]), map[], [])

  ghost function Initial(n: nat, initial: int): System { System(seq(n, _ => FRESH), initial, initial) }

  lemma {:induction false} NothingApplied(n: nat)
    ensures AppliedOn(seq(n, _ => FRESH)) == 0
  {
    if n > 0 {
      NothingApplied(n - 1);
      assert seq(n, _ => FRESH)[..n - 1] == seq(n - 1, _ => FRESH);
    }
  }

  lemma InitialIsSafe(n: nat, initial: int)
    ensures Inv(Initial(n, initial))
  {
    NothingApplied(n);
    assert Owned(FRESH.comb) == {};
    assert CoreInv(FRESH);
  }

  ghost predicate Follows(s: System, steps: seq<Step>, s': System)
    decreases |steps|
  {
    if steps == [] then s' == s
    else Enabled(s, steps[0]) && Follows(After(s, steps[0]), steps[1..], s')
  }

  lemma {:induction false} RunIsSafe(s: System, steps: seq<Step>, s': System)
    requires Inv(s) && Follows(s, steps, s')
    ensures Inv(s') && s'.initial == s.initial
    decreases |steps|
  {
    if steps != [] {
      StepIsSafe(s, steps[0]);
      RunIsSafe(After(s, steps[0]), steps[1..], s');
    }
  }

  ghost predicate Reached(s: System) { exists n: nat, initial: int, steps :: Follows(Initial(n, initial), steps, s) }

  lemma ReachedIsSafe(s: System)
    requires Reached(s)
    ensures Inv(s)
  {
    var n: nat, initial: int, steps :| Follows(Initial(n, initial), steps, s);
    InitialIsSafe(n, initial);
    RunIsSafe(Initial(n, initial), steps, s);
  }

  /** No step of a reachable state is ever stuck on a missing batch or call. */
  lemma ReadyMeansDefined(s: System, p: Step)
    requires Reached(s) && Ready(s, p)
    ensures Defined(s, p)
  {
    ReachedIsSafe(s);
    var k := s.cores[p.c];
    if p.Return? {
      ReturnReady(k, p.w);
    } else if p.Resume? {
      SendsOnlyItsOwn(k, p.w);
    }
  }

  /** Nothing is lost or counted twice: the master's count and the deltas not yet sent add up
      to the initial count and all increments ever asked for. */
  lemma CountIsConserved(s: System)
    requires Reached(s)
    ensures s.master + UnsentOn(s.cores) == s.initial + RequestedOn(s.cores)
    ensures s.master == s.initial + AppliedOn(s.cores)
  {
    ReachedIsSafe(s);
    UnsentIsTheRest(s.cores);
  }

  /** A call returns only after its increment has been added to the master's count. */
  lemma ReturnedMeansApplied(s: System, c: nat, i: nat)
    requires Reached(s) && c < |s.cores| && i < |s.cores[c].ops| && s.cores[c].ops[i].returned
    ensures s.cores[c].ops[i].applied
  {
    ReachedIsSafe(s);
    assert OpOk(s.cores[c].comb, s.cores[c].workers, s.cores[c].ops, i);
  }

  /** Nobody is stranded. A worker that waits for the current batch finds a flush in flight that
      will hand over to that batch; one that waits for another batch finds a sender that is
      about to run, or is sending it. */
  lemma EveryWaiterHasASender(s: System, c: nat, w: nat)
    requires Reached(s) && c < |s.cores| && St(s.cores[c].workers, w).Waiting?
    ensures var k := s.cores[c]; var b := St(k.workers, w).b;
      && b < |k.comb.batches| && w in k.comb.batches[b].cv
      && (b == k.comb.current ==> k.comb.inflight >= 1)
      && exists b': nat :: b' < |k.comb.batches| && (b != k.comb.current ==> b' == b)
           && k.comb.batches[b'].sender.Some? && Sends(k.workers, k.comb.batches[b'].sender.value, b')
  {
    ReachedIsSafe(s);
    var k := s.cores[c];
    var b := St(k.workers, w).b;
    assert WorkerOk(k.comb, k.workers, k.ops, w);
    assert RoleOk(k.comb, k.workers, b) && ListOk(k.comb, k.workers, b);
    if b == k.comb.current {
      assert Owned(k.comb) != {};
      var b' :| b' in Owned(k.comb);
      assert RoleOk(k.comb, k.workers, b');
    }
  }

  /** The sender's role has one holder: two batches never name the same sender. */
  lemma SendersAreUnique(s: System, c: nat, b: nat, b': nat)
    requires Reached(s) && c < |s.cores| && b < |s.cores[c].comb.batches| && b' < |s.cores[c].comb.batches|
    requires s.cores[c].comb.batches[b].sender.Some? && s.cores[c].comb.batches[b'].sender == s.cores[c].comb.batches[b].sender
    ensures b == b'
  {
    ReachedIsSafe(s);
    var k := s.cores[c];
    assert RoleOk(k.comb, k.workers, b) && RoleOk(k.comb, k.workers, b');
  }

  /** When every worker is idle or waiting, nobody waits: every call has returned, and the
      master's count is exactly the initial count and all increments. */
  lemma QuietMeansComplete(s: System)
    requires Reached(s)
    requires forall c: nat, w: nat :: c < |s.cores| ==> St(s.cores[c].workers, w).Idle? || St(s.cores[c].workers, w).Waiting?
    ensures forall c: nat, w: nat :: c < |s.cores| ==> St(s.cores[c].workers, w).Idle?
    ensures forall c: nat, i: nat :: c < |s.cores| && i < |s.cores[c].ops| ==> s.cores[c].ops[i].returned
    ensures s.master == s.initial + RequestedOn(s.cores)
  {
    ReachedIsSafe(s);
    forall c: nat, w: nat | c < |s.cores| ensures St(s.cores[c].workers, w).Idle? {
      if St(s.cores[c].workers, w).Waiting? {
        EveryWaiterHasASender(s, c, w);
      }
    }
    forall c: nat, i: nat | c < |s.cores| && i < |s.cores[c].ops|
      ensures s.cores[c].ops[i].returned && s.cores[c].ops[i].applied
    {
      assert OpOk(s.cores[c].comb, s.cores[c].workers, s.cores[c].ops, i);
    }
    AllApplied(s.cores);
  }

  lemma {:induction false} AllApplied(cores: seq<Core>)
    requires forall c: nat, i: nat :: c < |cores| && i < |cores[c].ops| ==> cores[c].ops[i].applied
    ensures AppliedOn(cores) == RequestedOn(cores)
  {
    if cores != [] {
      var n := |cores| - 1;
      forall c: nat, i: nat | c < n && i < |cores[..n][c].ops| ensures cores[..n][c].ops[i].applied {
        assert cores[..n][c] == cores[c];
      }
      AllApplied(cores[..n]);
      NothingUpTo(0);
      PendingIsTheRest(cores[n].ops, 0);
    }
  }

  /** A woken worker sends a batch only if it is the one its own increment went into and that increment
      has not been applied: it never sends a batch that was recycled in the meantime. */
  lemma RecycledBatchesAreNotSent(s: System, c: nat, w: nat)
    requires Reached(s) && c < |s.cores| && St(s.cores[c].workers, w).Awake?
    ensures var k := s.cores[c]; var st := St(k.workers, w);
      && st.op < |k.ops|
      && (MustSend(k.comb, st.b, w) <==> !k.ops[st.op].applied)
      && (MustSend(k.comb, st.b, w) ==> k.ops[st.op].batch == st.b && st.b != k.comb.current)
  {
    ReachedIsSafe(s);
    SendsOnlyItsOwn(s.cores[c], w);
  }
}
