/** GlobalCounter over the flat combiner: every core combines its increments in batches, and
    the sender of a batch adds its delta to the master's count by a remote call. Workers are
    cooperative, so a step is the code one worker runs between two suspensions; the remote
    call's arrival at the master is a step of its own. */
module GlobalCounting {
  import opened Wrappers
  import opened Sequences
  import opened FlatCombining

  /** What a worker is doing inside `incr`; `op` is the number of its call on this core. */
  datatype WState =
    | Idle
    | Waiting(b: nat, op: nat)
    | Awake(b: nat, op: nat)                          // woken, but not yet run
    | Syncing(b: nat, op: nat, d: int, arrived: bool) // in `sync`, sending `d`

  datatype Op = Op(worker: nat, amount: int, batch: nat, applied: bool, returned: bool)

  datatype Core = Core(comb: Combiner, workers: map<nat, WState>, ops: seq<Op>)

  datatype System = System(cores: seq<Core>, master: int, initial: int)

  ghost function St(ws: map<nat, WState>, w: nat): WState { if w in ws then ws[w] else Idle }

  /** Everyone listed who waits is made runnable. */
  ghost function WakeAll(ws: map<nat, WState>, listed: seq<nat>): map<nat, WState> {
    map w | w in ws :: if w in listed && ws[w].Waiting? then Awake(ws[w].b, ws[w].op) else ws[w]
  }

  /** The delta of batch `b` has been added to the master's count. */
  ghost function Marked(ops: seq<Op>, b: nat): (r: seq<Op>)
    ensures |r| == |ops|
    ensures forall i: nat :: i < |ops| ==> r[i] == if ops[i].batch == b then ops[i].(applied := true) else ops[i]
  {
    if ops == [] then []
    else
      var x := ops[|ops| - 1];
      Marked(ops[..|ops| - 1], b) + [if x.batch == b then x.(applied := true) else x]
  }

  // ---------------------------------------------------------------- steps of one core

  ghost function AfterIncr(k: Core, w: nat, d: int, full: bool): Core
    requires Shaped(k.comb)
  {
    var s := k.comb.current;
    var op := |k.ops|;
    Core(Entered(k.comb, w, d, full),
         k.workers[w := if Flushes(k.comb, full) then Syncing(s, op, k.comb.batches[s].delta + d, false) else Waiting(s, op)],
         k.ops + [Op(w, d, s, false, false)])
  }

  ghost function AfterArrive(k: Core, w: nat): Core
    requires St(k.workers, w).Syncing?
  {
    k.(workers := k.workers[w := St(k.workers, w).(arrived := true)], ops := Marked(k.ops, St(k.workers, w).b))
  }

  ghost function AfterReturn(k: Core, w: nat): Core
    requires St(k.workers, w).Syncing? && St(k.workers, w).op < |k.ops|
    requires var s := St(k.workers, w).b;
      Shaped(k.comb) && s < |k.comb.batches| && s != k.comb.current && s !in k.comb.freelist
  {
    var Syncing(s, op, _, _) := St(k.workers, w);
    var k1 := Broadcast(k.comb, s);
    var woken := k.comb.batches[s].cv + (if HandsOver(k1) then [k.comb.batches[k.comb.current].cv[0]] else []);
    Core(Finished(k.comb, s), WakeAll(k.workers, woken)[w := Idle], k.ops[op := k.ops[op].(returned := true)])
  }

  ghost function AfterResume(k: Core, w: nat): Core
    requires St(k.workers, w).Awake? && St(k.workers, w).op < |k.ops| && Shaped(k.comb)
  {
    var Awake(s, op) := St(k.workers, w);
    if MustSend(k.comb, s, w)
    then k.(comb := Resumed(k.comb, s, w), workers := k.workers[w := Syncing(s, op, k.comb.batches[s].delta, false)])
    else k.(workers := k.workers[w := Idle], ops := k.ops[op := k.ops[op].(returned := true)])
  }

  // ---------------------------------------------------------------- sums

  ghost function PendingIn(ops: seq<Op>, b: nat): int {
    if ops == [] then 0
    else PendingIn(ops[..|ops| - 1], b) + PendingOf(ops[|ops| - 1], b)
  }

  ghost function PendingOf(x: Op, b: nat): int { if !x.applied && x.batch == b then x.amount else 0 }

  /** What all calls so far asked for, and what has been added to the master's count. */
  ghost function Requested(ops: seq<Op>): int {
    if ops == [] then 0 else Requested(ops[..|ops| - 1]) + ops[|ops| - 1].amount
  }

  ghost function Applied(ops: seq<Op>): int {
    if ops == [] then 0
    else Applied(ops[..|ops| - 1]) + (if ops[|ops| - 1].applied then ops[|ops| - 1].amount else 0)
  }

  lemma AppendSums(ops: seq<Op>, x: Op, b: nat)
    ensures PendingIn(ops + [x], b) == PendingIn(ops, b) + PendingOf(x, b)
    ensures Requested(ops + [x]) == Requested(ops) + x.amount
    ensures Applied(ops + [x]) == Applied(ops) + (if x.applied then x.amount else 0)
  {
    assert (ops + [x])[..|ops|] == ops;
  }

  lemma {:induction false} ReturnSums(ops: seq<Op>, i: nat, b: nat)
    requires i < |ops|
    ensures var ops' := ops[i := ops[i].(returned := true)];
      PendingIn(ops', b) == PendingIn(ops, b) && Applied(ops') == Applied(ops) && Requested(ops') == Requested(ops)
  {
    var n := |ops| - 1;
    var ops' := ops[i := ops[i].(returned := true)];
    if i == n {
      assert ops'[..n] == ops[..n];
    } else {
      assert ops'[..n] == ops[..n][i := ops[..n][i].(returned := true)];
      ReturnSums(ops[..n], i, b);
    }
  }

  /** Marking a batch moves exactly its pending amount into the applied total. */
  lemma {:induction false} MarkSums(ops: seq<Op>, b: nat, c: nat)
    ensures Applied(Marked(ops, b)) == Applied(ops) + PendingIn(ops, b)
    ensures Requested(Marked(ops, b)) == Requested(ops)
    ensures PendingIn(Marked(ops, b), c) == if c == b then 0 else PendingIn(ops, c)
  {
    if ops != [] {
      var n := |ops| - 1;
      MarkSums(ops[..n], b, c);
      assert Marked(ops, b)[..n] == Marked(ops[..n], b);
    }
  }

  lemma {:induction false} NothingPending(ops: seq<Op>, b: nat)
    requires forall i: nat :: i < |ops| && !ops[i].applied ==> ops[i].batch != b
    ensures PendingIn(ops, b) == 0
  {
    if ops != [] {
      NothingPending(ops[..|ops| - 1], b);
    }
  }

  // ---------------------------------------------------------------- the invariant of a core

  ghost predicate Unsent(comb: Combiner, ws: map<nat, WState>, b: nat) {
    b < |comb.batches| &&
    (b == comb.current ||
     (comb.batches[b].sender.Some? && !(St(ws, comb.batches[b].sender.value).Syncing? && St(ws, comb.batches[b].sender.value).arrived)))
  }

  /** `w` was told to send `b` and has not run yet, or is sending it. */
  ghost predicate Sends(ws: map<nat, WState>, w: nat, b: nat) {
    (St(ws, w).Awake? || St(ws, w).Syncing?) && St(ws, w).b == b
  }

  /** The current batch and the recycled ones have no sender; every other batch has one. */
  ghost predicate RoleOk(comb: Combiner, ws: map<nat, WState>, b: nat) {
    b < |comb.batches| ==>
      && (b == comb.current || b in comb.freelist ==> comb.batches[b].sender.None?)
      && (b != comb.current && b !in comb.freelist ==>
            comb.batches[b].sender.Some? && Sends(ws, comb.batches[b].sender.value, b))
  }

  /** A wait list names exactly workers that wait for this batch, each once. */
  ghost predicate ListOk(comb: Combiner, ws: map<nat, WState>, b: nat) {
    b < |comb.batches| ==>
      && (b in comb.freelist ==> comb.batches[b].cv == [])
      && (forall w <- comb.batches[b].cv :: St(ws, w).Waiting? && St(ws, w).b == b)
      && NoRepeats(comb.batches[b].cv)
  }

  /** A batch that has not been sent holds what its pending calls asked for. */
  ghost predicate DeltaOk(comb: Combiner, ws: map<nat, WState>, ops: seq<Op>, b: nat) {
    b < |comb.batches| ==> PendingIn(ops, b) == (if Unsent(comb, ws, b) then comb.batches[b].delta else 0)
  }

  ghost predicate WorkerOk(comb: Combiner, ws: map<nat, WState>, ops: seq<Op>, w: nat) {
    var st := St(ws, w);
    !st.Idle? ==>
      && st.op < |ops| && st.b < |comb.batches|
      && ops[st.op].worker == w && !ops[st.op].returned
      && (st.Waiting? ==> w in comb.batches[st.b].cv && ops[st.op].batch == st.b
                          && ops[st.op].applied == !Unsent(comb, ws, st.b))
      && (st.Awake? ==> (comb.batches[st.b].sender == Some(w) <==> !ops[st.op].applied)
                        && (!ops[st.op].applied ==> ops[st.op].batch == st.b))
      && (st.Syncing? ==> comb.batches[st.b].sender == Some(w) && ops[st.op].applied == st.arrived
                          && ops[st.op].batch == st.b && comb.batches[st.b].delta == st.d)
  }

  ghost predicate OpOk(comb: Combiner, ws: map<nat, WState>, ops: seq<Op>, i: nat) {
    i < |ops| ==>
      && (ops[i].returned ==> ops[i].applied)
      && (!ops[i].applied ==> Unsent(comb, ws, ops[i].batch))
      && (!ops[i].returned ==> !St(ws, ops[i].worker).Idle? && St(ws, ops[i].worker).op == i)
  }

  /** Batches that have a sender. */
  ghost function Owned(comb: Combiner): set<nat> {
    set b: nat | b < |comb.batches| && comb.batches[b].sender.Some?
  }

  ghost predicate CombOk(comb: Combiner) {
    && Shaped(comb)
    && NoRepeats(comb.freelist)
    && comb.inflight == |Owned(comb)|
    && (comb.batches[comb.current].cv != [] ==> comb.inflight >= 1)
  }

  ghost predicate RolesOk(k: Core) { forall b: nat :: RoleOk(k.comb, k.workers, b) }

  ghost predicate ListsOk(k: Core) { forall b: nat :: ListOk(k.comb, k.workers, b) }

  ghost predicate DeltasOk(k: Core) { forall b: nat :: DeltaOk(k.comb, k.workers, k.ops, b) }

  ghost predicate WorkersOk(k: Core) { forall w: nat :: WorkerOk(k.comb, k.workers, k.ops, w) }

  ghost predicate OpsOk(k: Core) { forall i: nat :: OpOk(k.comb, k.workers, k.ops, i) }

  ghost predicate CoreInv(k: Core) {
    CombOk(k.comb) && RolesOk(k) && ListsOk(k) && DeltasOk(k) && WorkersOk(k) && OpsOk(k)
  }
}
