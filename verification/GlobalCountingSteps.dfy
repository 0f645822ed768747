/** Every step of a core keeps its invariant. */
module GlobalCountingSteps {
  import opened Wrappers
  import opened Sequences
  import opened FlatCombining
  import opened GlobalCounting

  /** A recycled or new batch is empty: nothing pending, nobody attached but workers that are
      about to return. */
  lemma FreshIsEmpty(k: Core)
    requires CoreInv(k)
    ensures PendingIn(k.ops, Refilled(k.comb).current) == 0
    ensures forall w: nat :: St(k.workers, w).Waiting? || St(k.workers, w).Syncing? ==>
      St(k.workers, w).b != Refilled(k.comb).current
    ensures Refilled(k.comb).current < |k.comb.batches| ==>
      k.comb.batches[Refilled(k.comb).current].sender.None? && Refilled(k.comb).current in k.comb.freelist
  {
    var r := Refilled(k.comb).current;
    assert RoleOk(k.comb, k.workers, r) && ListOk(k.comb, k.workers, r) && DeltaOk(k.comb, k.workers, k.ops, r);
    if k.comb.freelist == [] {
      forall i: nat | i < |k.ops| && !k.ops[i].applied ensures k.ops[i].batch != r {
        assert OpOk(k.comb, k.workers, k.ops, i);
      }
      NothingPending(k.ops, r);
    }
    forall w: nat | St(k.workers, w).Waiting? || St(k.workers, w).Syncing? ensures St(k.workers, w).b != r {
      assert WorkerOk(k.comb, k.workers, k.ops, w);
    }
  }

  /** The current batch is put aside, holding what `x` says, and replaced. */
  ghost function Retired(comb: Combiner, x: Batch): Combiner
    requires Shaped(comb)
  {
    var k := Refilled(comb);
    k.(batches := k.batches[comb.current := x])
  }

  lemma RetiredShape(k: Core, x: Batch)
    requires CoreInv(k) && x.sender.Some?
    ensures var comb' := Retired(k.comb, x);
      && Shaped(comb') && NoRepeats(comb'.freelist)
      && comb'.batches[comb'.current] == EMPTY
      && |Owned(comb')| == |Owned(k.comb)| + 1
      && (forall b: nat :: b in comb'.freelist ==> b in k.comb.freelist)
      && (forall b: nat :: b in k.comb.freelist ==> b in comb'.freelist || b == comb'.current)
  {
    var comb' := Retired(k.comb, x);
    var s := k.comb.current;
    assert RoleOk(k.comb, k.workers, s);
    assert RoleOk(k.comb, k.workers, comb'.current);
    assert forall i: nat :: i < |comb'.freelist| ==> comb'.freelist[i] == k.comb.freelist[i + 1];
    assert Owned(comb') == Owned(k.comb) + {s};
    assert k.comb.freelist != [] ==> k.comb.freelist == [comb'.current] + comb'.freelist;
  }

  /** The same, as a relation: `r` is the replacement. */
  ghost predicate PutAside(comb: Combiner, x: Batch, comb': Combiner) {
    var s, r := comb.current, comb'.current;
    && r != s && r < |comb'.batches| && s < |comb'.batches|
    && (if r < |comb.batches| then r in comb.freelist && |comb'.batches| == |comb.batches|
        else |comb'.batches| == |comb.batches| + 1 == r + 1)
    && comb'.batches[s] == x && comb'.batches[r] == EMPTY
    && (forall b: nat :: b < |comb.batches| && b != s && b != r ==> comb'.batches[b] == comb.batches[b])
    && (forall b: nat :: b in comb'.freelist <==> b in comb.freelist && b != r)
  }

  lemma RetiredIsPutAside(k: Core, x: Batch)
    requires CoreInv(k)
    ensures PutAside(k.comb, x, Retired(k.comb, x))
  {
    var comb' := Retired(k.comb, x);
    if k.comb.freelist != [] {
      assert k.comb.freelist == [comb'.current] + comb'.freelist;
      assert comb'.current !in comb'.freelist;
    }
  }

  // ---------------------------------------------------------------- incr

  ghost predicate Flushed(k: Core, w: nat, d: int, k': Core)
    requires Shaped(k.comb)
  {
    var s := k.comb.current;
    var x := k.comb.batches[s];
    && PutAside(k.comb, x.(delta := x.delta + d, sender := Some(w)), k'.comb)
    && k'.workers == k.workers[w := Syncing(s, |k.ops|, x.delta + d, false)]
    && k'.ops == k.ops + [Op(w, d, s, false, false)]
  }

  lemma FlushingIncr(k: Core, w: nat, d: int, full: bool)
    requires CoreInv(k) && St(k.workers, w).Idle? && Flushes(k.comb, full)
    ensures CombOk(AfterIncr(k, w, d, full).comb)
    ensures Flushed(k, w, d, AfterIncr(k, w, d, full))
  {
    var comb' := AfterIncr(k, w, d, full).comb;
    var x := k.comb.batches[k.comb.current];
    var y := Retired(k.comb, x.(delta := x.delta + d, sender := Some(w)));
    assert comb' == y.(inflight := k.comb.inflight + 1);
    RetiredShape(k, x.(delta := x.delta + d, sender := Some(w)));
    RetiredIsPutAside(k, x.(delta := x.delta + d, sender := Some(w)));
    assert Owned(comb') == Owned(y);
  }

  lemma FlushedLists(k: Core, w: nat, d: int, k': Core)
    requires CoreInv(k) && St(k.workers, w).Idle? && Flushed(k, w, d, k')
    ensures RolesOk(k') && ListsOk(k')
  {
    forall b: nat ensures RoleOk(k'.comb, k'.workers, b) {
      assert RoleOk(k.comb, k.workers, b);
    }
    forall b: nat ensures ListOk(k'.comb, k'.workers, b) {
      assert ListOk(k.comb, k.workers, b);
    }
  }

  lemma FlushedDeltas(k: Core, w: nat, d: int, k': Core)
    requires CoreInv(k) && St(k.workers, w).Idle? && Flushed(k, w, d, k')
    requires PendingIn(k.ops, k'.comb.current) == 0
    ensures DeltasOk(k')
  {
    forall b: nat ensures DeltaOk(k'.comb, k'.workers, k'.ops, b) {
      assert DeltaOk(k.comb, k.workers, k.ops, b) && RoleOk(k.comb, k.workers, b);
      AppendSums(k.ops, Op(w, d, k.comb.current, false, false), b);
    }
  }

  lemma FlushedOthers(k: Core, w: nat, d: int, k': Core)
    requires CoreInv(k) && St(k.workers, w).Idle? && Flushed(k, w, d, k')
    requires k'.comb.current == Refilled(k.comb).current
    ensures WorkersOk(k') && OpsOk(k')
  {
    assert RoleOk(k.comb, k.workers, k.comb.current);
    FreshIsEmpty(k);
    forall v: nat ensures WorkerOk(k'.comb, k'.workers, k'.ops, v) {
      assert WorkerOk(k.comb, k.workers, k.ops, v);
    }
    forall i: nat ensures OpOk(k'.comb, k'.workers, k'.ops, i) {
      assert OpOk(k.comb, k.workers, k.ops, i);
    }
  }

  lemma WaitingIncrBatches(k: Core, w: nat, d: int, full: bool)
    requires CoreInv(k) && St(k.workers, w).Idle? && !Flushes(k.comb, full)
    ensures var k' := AfterIncr(k, w, d, full); CombOk(k'.comb) && RolesOk(k') && ListsOk(k') && DeltasOk(k')
  {
    var k' := AfterIncr(k, w, d, full);
    assert RoleOk(k.comb, k.workers, k.comb.current);
    assert Owned(k'.comb) == Owned(k.comb);
    forall b: nat ensures RoleOk(k'.comb, k'.workers, b) {
      assert RoleOk(k.comb, k.workers, b);
    }
    forall b: nat ensures ListOk(k'.comb, k'.workers, b) {
      assert ListOk(k.comb, k.workers, b);
    }
    forall b: nat ensures DeltaOk(k'.comb, k'.workers, k'.ops, b) {
      assert DeltaOk(k.comb, k.workers, k.ops, b) && RoleOk(k.comb, k.workers, b);
      AppendSums(k.ops, Op(w, d, k.comb.current, false, false), b);
    }
  }

  lemma WaitingIncrOthers(k: Core, w: nat, d: int, full: bool)
    requires CoreInv(k) && St(k.workers, w).Idle? && !Flushes(k.comb, full)
    ensures WorkersOk(AfterIncr(k, w, d, full)) && OpsOk(AfterIncr(k, w, d, full))
  {
    var k' := AfterIncr(k, w, d, full);
    assert RoleOk(k.comb, k.workers, k.comb.current);
    forall v: nat ensures WorkerOk(k'.comb, k'.workers, k'.ops, v) {
      assert WorkerOk(k.comb, k.workers, k.ops, v);
      if !St(k'.workers, v).Idle? {
        assert RoleOk(k.comb, k.workers, St(k'.workers, v).b);
      }
    }
    forall i: nat ensures OpOk(k'.comb, k'.workers, k'.ops, i) {
      assert OpOk(k.comb, k.workers, k.ops, i);
    }
  }

  lemma KeepIncr(k: Core, w: nat, d: int, full: bool)
    requires CoreInv(k) && St(k.workers, w).Idle?
    ensures CoreInv(AfterIncr(k, w, d, full))
  {
    if Flushes(k.comb, full) {
      var k' := AfterIncr(k, w, d, full);
      FlushingIncr(k, w, d, full);
      FreshIsEmpty(k);
      FlushedLists(k, w, d, k');
      FlushedDeltas(k, w, d, k');
      FlushedOthers(k, w, d, k');
    } else {
      WaitingIncrBatches(k, w, d, full);
      WaitingIncrOthers(k, w, d, full);
    }
  }

  // ---------------------------------------------------------------- the remote call

  lemma ArriveBatches(k: Core, w: nat)
    requires CoreInv(k) && St(k.workers, w).Syncing? && !St(k.workers, w).arrived
    ensures RolesOk(AfterArrive(k, w)) && ListsOk(AfterArrive(k, w)) && DeltasOk(AfterArrive(k, w))
    ensures PendingIn(k.ops, St(k.workers, w).b) == St(k.workers, w).d
  {
    var k' := AfterArrive(k, w);
    var s := St(k.workers, w).b;
    assert WorkerOk(k.comb, k.workers, k.ops, w);
    assert RoleOk(k.comb, k.workers, s) && DeltaOk(k.comb, k.workers, k.ops, s);
    forall b: nat ensures RoleOk(k'.comb, k'.workers, b) {
      assert RoleOk(k.comb, k.workers, b);
    }
    forall b: nat ensures ListOk(k'.comb, k'.workers, b) {
      assert ListOk(k.comb, k.workers, b);
    }
    forall b: nat ensures DeltaOk(k'.comb, k'.workers, k'.ops, b) {
      assert DeltaOk(k.comb, k.workers, k.ops, b) && RoleOk(k.comb, k.workers, b);
      MarkSums(k.ops, s, b);
    }
  }

  lemma ArriveOthers(k: Core, w: nat)
    requires CoreInv(k) && St(k.workers, w).Syncing? && !St(k.workers, w).arrived
    ensures WorkersOk(AfterArrive(k, w)) && OpsOk(AfterArrive(k, w))
  {
    var k' := AfterArrive(k, w);
    var s := St(k.workers, w).b;
    assert WorkerOk(k.comb, k.workers, k.ops, w);
    assert RoleOk(k.comb, k.workers, s);
    forall v: nat ensures WorkerOk(k'.comb, k'.workers, k'.ops, v) {
      assert WorkerOk(k.comb, k.workers, k.ops, v);
      if !St(k.workers, v).Idle? {
        assert RoleOk(k.comb, k.workers, St(k.workers, v).b);
      }
    }
    forall i: nat ensures OpOk(k'.comb, k'.workers, k'.ops, i) {
      assert OpOk(k.comb, k.workers, k.ops, i);
      if i < |k.ops| {
        assert RoleOk(k.comb, k.workers, k.ops[i].batch);
      }
    }
  }

  lemma KeepArrive(k: Core, w: nat)
    requires CoreInv(k) && St(k.workers, w).Syncing? && !St(k.workers, w).arrived
    ensures CoreInv(AfterArrive(k, w))
  {
    ArriveBatches(k, w);
    ArriveOthers(k, w);
  }

  // ---------------------------------------------------------------- the end of a flush

  ghost predicate Returning(k: Core, w: nat) { St(k.workers, w).Syncing? && St(k.workers, w).arrived }

  lemma ReturnReady(k: Core, w: nat)
    requires CoreInv(k) && Returning(k, w)
    ensures var s := St(k.workers, w).b;
      && St(k.workers, w).op < |k.ops|
      && s < |k.comb.batches| && s != k.comb.current && s !in k.comb.freelist
      && k.comb.batches[s].sender == Some(w)
      && k.comb.batches[k.comb.current].sender.None?
  {
    assert WorkerOk(k.comb, k.workers, k.ops, w);
    assert RoleOk(k.comb, k.workers, St(k.workers, w).b);
    assert RoleOk(k.comb, k.workers, k.comb.current);
  }

  /** What the end of a flush does to the workers: those who waited for the batch and the one
      chosen as the next sender become runnable, the sender itself is done. */
  ghost predicate Rewoken(k: Core, w: nat, k': Core)
    requires Shaped(k.comb) && Returning(k, w)
  {
    var s, n := St(k.workers, w).b, k.comb.current;
    var chosen := k.comb.batches[n].cv != [];
    && St(k'.workers, w).Idle?
    && forall v: nat :: v != w ==>
         St(k'.workers, v) ==
           if St(k.workers, v).Waiting? && (St(k.workers, v).b == s || (chosen && v == k.comb.batches[n].cv[0]))
           then Awake(St(k.workers, v).b, St(k.workers, v).op) else St(k.workers, v)
  }

  lemma ReturnWakes(k: Core, w: nat)
    requires CoreInv(k) && Returning(k, w)
    ensures (ReturnReady(k, w); Rewoken(k, w, AfterReturn(k, w)))
  {
    ReturnReady(k, w);
    var s := St(k.workers, w).b;
    assert ListOk(k.comb, k.workers, s);
    forall v: nat | St(k.workers, v).Waiting? && St(k.workers, v).b == s ensures v in k.comb.batches[s].cv {
      assert WorkerOk(k.comb, k.workers, k.ops, v);
    }
  }

  /** What it does to the batches: `y` is the combiner once the sender's role has been handed
      over or given up. */
  ghost predicate Unloaded(k: Core, w: nat, y: Combiner, k': Core)
    requires Shaped(k.comb) && Returning(k, w)
  {
    var s := St(k.workers, w).b;
    var x := k.comb.batches[k.comb.current];
    && (if x.cv == [] then y.current == k.comb.current && y.batches == k.comb.batches && y.freelist == k.comb.freelist
        else PutAside(k.comb, x.(sender := Some(x.cv[0]), cv := x.cv[1..]), y))
    && s < |y.batches| && s != y.current
    && k'.comb.current == y.current
    && k'.comb.batches == y.batches[s := y.batches[s].(cv := [], sender := None)]
    && k'.comb.freelist == [s] + y.freelist
    && St(k.workers, w).op < |k.ops|
    && k'.ops == k.ops[St(k.workers, w).op := k.ops[St(k.workers, w).op].(returned := true)]
  }

  lemma GivingUpUnloads(k: Core, w: nat)
    requires CoreInv(k) && Returning(k, w) && k.comb.batches[k.comb.current].cv == []
    ensures (ReturnReady(k, w); CombOk(AfterReturn(k, w).comb) && Unloaded(k, w, k.comb, AfterReturn(k, w)))
  {
    ReturnReady(k, w);
    var comb' := AfterReturn(k, w).comb;
    var s := St(k.workers, w).b;
    assert comb'.batches == k.comb.batches[s := k.comb.batches[s].(cv := [], sender := None)];
    assert Owned(comb') == Owned(k.comb) - {s};
  }

  lemma HandingOverUnloads(k: Core, w: nat)
    requires CoreInv(k) && Returning(k, w) && k.comb.batches[k.comb.current].cv != []
    ensures (ReturnReady(k, w);
      var x := k.comb.batches[k.comb.current];
      var y := Retired(k.comb, x.(sender := Some(x.cv[0]), cv := x.cv[1..]));
      CombOk(AfterReturn(k, w).comb) && Unloaded(k, w, y, AfterReturn(k, w)))
  {
    ReturnReady(k, w);
    var comb' := AfterReturn(k, w).comb;
    var s := St(k.workers, w).b;
    var x := k.comb.batches[k.comb.current];
    var x' := x.(sender := Some(x.cv[0]), cv := x.cv[1..]);
    var y := Retired(k.comb, x');
    RetiredShape(k, x');
    RetiredIsPutAside(k, x');
    assert comb'.batches == y.batches[s := y.batches[s].(cv := [], sender := None)];
    assert Owned(comb') == Owned(y) - {s};
  }

  lemma ReturnUnloads(k: Core, w: nat) returns (y: Combiner)
    requires CoreInv(k) && Returning(k, w)
    ensures (ReturnReady(k, w); CombOk(AfterReturn(k, w).comb) && Unloaded(k, w, y, AfterReturn(k, w)))
    ensures y.current == k.comb.current || y.current == Refilled(k.comb).current
  {
    var x := k.comb.batches[k.comb.current];
    if x.cv == [] {
      y := k.comb;
      GivingUpUnloads(k, w);
    } else {
      y := Retired(k.comb, x.(sender := Some(x.cv[0]), cv := x.cv[1..]));
      HandingOverUnloads(k, w);
    }
  }

  ghost predicate Returned(k: Core, w: nat, y: Combiner, k': Core) {
    && CoreInv(k) && Returning(k, w) && Unloaded(k, w, y, k') && Rewoken(k, w, k')
    && (y.current == k.comb.current || y.current == Refilled(k.comb).current)
  }

  /** The chosen worker waited for the current batch, and nobody else in its list is the same. */
  lemma ChosenWaits(k: Core)
    requires CoreInv(k)
    ensures var n := k.comb.current; var cv := k.comb.batches[n].cv;
      cv != [] ==>
        && St(k.workers, cv[0]).Waiting? && St(k.workers, cv[0]).b == n
        && forall v <- cv[1..] :: v in cv && v != cv[0]
  {
    var cv := k.comb.batches[k.comb.current].cv;
    assert ListOk(k.comb, k.workers, k.comb.current);
    if cv != [] {
      assert cv[0] in cv;
      forall v <- cv[1..] ensures v in cv && v != cv[0] {
        var i: nat :| i < |cv[1..]| && cv[1..][i] == v;
        assert cv[i + 1] == v;
      }
    }
  }

  lemma ReturnedRoles(k: Core, w: nat, y: Combiner, k': Core)
    requires Returned(k, w, y, k')
    ensures RolesOk(k')
  {
    ReturnReady(k, w);
    ChosenWaits(k);
    forall b: nat ensures RoleOk(k'.comb, k'.workers, b) {
      assert RoleOk(k.comb, k.workers, b);
    }
  }

  lemma ReturnedLists(k: Core, w: nat, y: Combiner, k': Core)
    requires Returned(k, w, y, k')
    ensures ListsOk(k')
  {
    ReturnReady(k, w);
    ChosenWaits(k);
    forall b: nat ensures ListOk(k'.comb, k'.workers, b) {
      assert ListOk(k.comb, k.workers, b);
    }
  }

  lemma ReturnedDeltas(k: Core, w: nat, y: Combiner, k': Core)
    requires Returned(k, w, y, k')
    ensures DeltasOk(k')
  {
    ReturnReady(k, w);
    ChosenWaits(k);
    FreshIsEmpty(k);
    forall b: nat ensures DeltaOk(k'.comb, k'.workers, k'.ops, b) {
      assert DeltaOk(k.comb, k.workers, k.ops, b) && RoleOk(k.comb, k.workers, b);
      ReturnSums(k.ops, St(k.workers, w).op, b);
    }
  }

  lemma ReturnedWorkers(k: Core, w: nat, y: Combiner, k': Core)
    requires Returned(k, w, y, k')
    ensures WorkersOk(k')
  {
    ReturnReady(k, w);
    ChosenWaits(k);
    FreshIsEmpty(k);
    assert WorkerOk(k.comb, k.workers, k.ops, w);
    forall v: nat ensures WorkerOk(k'.comb, k'.workers, k'.ops, v) {
      assert WorkerOk(k.comb, k.workers, k.ops, v);
      if !St(k.workers, v).Idle? {
        assert RoleOk(k.comb, k.workers, St(k.workers, v).b);
      }
    }
  }

  lemma ReturnedOps(k: Core, w: nat, y: Combiner, k': Core)
    requires Returned(k, w, y, k')
    ensures OpsOk(k')
  {
    ReturnReady(k, w);
    ChosenWaits(k);
    FreshIsEmpty(k);
    assert WorkerOk(k.comb, k.workers, k.ops, w);
    forall i: nat ensures OpOk(k'.comb, k'.workers, k'.ops, i) {
      assert OpOk(k.comb, k.workers, k.ops, i);
      if i < |k.ops| {
        assert RoleOk(k.comb, k.workers, k.ops[i].batch);
      }
    }
  }

  lemma KeepReturn(k: Core, w: nat)
    requires CoreInv(k) && Returning(k, w)
    ensures (ReturnReady(k, w); CoreInv(AfterReturn(k, w)))
  {
    ReturnReady(k, w);
    var k' := AfterReturn(k, w);
    var y := ReturnUnloads(k, w);
    ReturnWakes(k, w);
    ReturnedRoles(k, w, y, k');
    ReturnedLists(k, w, y, k');
    ReturnedDeltas(k, w, y, k');
    ReturnedWorkers(k, w, y, k');
    ReturnedOps(k, w, y, k');
  }

  // ---------------------------------------------------------------- running a woken worker

  /** A woken worker sends exactly when its own increment has not been applied: it never sends
      a batch that was recycled after its own was done. */
  lemma SendsOnlyItsOwn(k: Core, w: nat)
    requires CoreInv(k) && St(k.workers, w).Awake?
    ensures var st := St(k.workers, w);
      && st.op < |k.ops|
      && (MustSend(k.comb, st.b, w) <==> !k.ops[st.op].applied)
      && (MustSend(k.comb, st.b, w) ==> k.ops[st.op].batch == st.b && st.b != k.comb.current)
  {
    assert WorkerOk(k.comb, k.workers, k.ops, w);
    assert RoleOk(k.comb, k.workers, St(k.workers, w).b);
  }

  lemma KeepSendingResume(k: Core, w: nat)
    requires CoreInv(k) && St(k.workers, w).Awake? && MustSend(k.comb, St(k.workers, w).b, w)
    ensures (SendsOnlyItsOwn(k, w); CoreInv(AfterResume(k, w)))
  {
    SendsOnlyItsOwn(k, w);
    var k' := AfterResume(k, w);
    assert k'.comb == k.comb;
    assert WorkerOk(k.comb, k.workers, k.ops, w);
    forall b: nat ensures RoleOk(k'.comb, k'.workers, b) {
      assert RoleOk(k.comb, k.workers, b);
    }
    forall b: nat ensures ListOk(k'.comb, k'.workers, b) {
      assert ListOk(k.comb, k.workers, b);
    }
    forall b: nat ensures DeltaOk(k'.comb, k'.workers, k'.ops, b) {
      assert DeltaOk(k.comb, k.workers, k.ops, b);
    }
    forall v: nat ensures WorkerOk(k'.comb, k'.workers, k'.ops, v) {
      assert WorkerOk(k.comb, k.workers, k.ops, v);
    }
    forall i: nat ensures OpOk(k'.comb, k'.workers, k'.ops, i) {
      assert OpOk(k.comb, k.workers, k.ops, i);
    }
  }

  lemma KeepFinalResume(k: Core, w: nat)
    requires CoreInv(k) && St(k.workers, w).Awake? && !MustSend(k.comb, St(k.workers, w).b, w)
    ensures (SendsOnlyItsOwn(k, w); CoreInv(AfterResume(k, w)))
  {
    SendsOnlyItsOwn(k, w);
    var k' := AfterResume(k, w);
    assert WorkerOk(k.comb, k.workers, k.ops, w);
    forall b: nat ensures RoleOk(k'.comb, k'.workers, b) {
      assert RoleOk(k.comb, k.workers, b);
    }
    forall b: nat ensures ListOk(k'.comb, k'.workers, b) {
      assert ListOk(k.comb, k.workers, b);
    }
    forall b: nat ensures DeltaOk(k'.comb, k'.workers, k'.ops, b) {
      assert DeltaOk(k.comb, k.workers, k.ops, b) && RoleOk(k.comb, k.workers, b);
      ReturnSums(k.ops, St(k.workers, w).op, b);
    }
    forall v: nat ensures WorkerOk(k'.comb, k'.workers, k'.ops, v) {
      assert WorkerOk(k.comb, k.workers, k.ops, v);
    }
    forall i: nat ensures OpOk(k'.comb, k'.workers, k'.ops, i) {
      assert OpOk(k.comb, k.workers, k.ops, i);
    }
  }
}
