/** Every step keeps the invariant. */
module FetchAddSteps {
  import opened FetchAddCombining
  import opened FetchAddProtocol

  // ---------------------------------------------------------------- what a change of one task does

  lemma Promising(ws: map<nat, WState>, w: nat)
    requires St(ws, w).Idle?
    ensures Pledges(ws[w := Pledged]) == Pledges(ws) + {w} && w !in Pledges(ws)
    ensures Held(ws[w := Pledged]) == Held(ws)
  {
  }

  lemma Unblocking(ws: map<nat, WState>, w: nat)
    requires St(ws, w).Rechecking?
    ensures Pledges(ws[w := Pledged]) == Pledges(ws)
    ensures Held(ws[w := Pledged]) == Held(ws) - {w} && w in Held(ws)
  {
  }

  lemma Blocks(ws: map<nat, WState>, w: nat, inc: int)
    requires St(ws, w).Pledged?
    ensures Pledges(ws[w := Blocking(inc)]) == Pledges(ws)
    ensures Held(ws[w := Blocking(inc)]) == Held(ws) + {w} && w !in Held(ws)
  {
  }

  lemma Joins(ws: map<nat, WState>, w: nat, st: WState)
    requires St(ws, w).Pledged? && InBatch(st)
    ensures Pledges(ws[w := st]) == Pledges(ws) - {w} && w in Pledges(ws)
    ensures Held(ws[w := st]) == Held(ws)
  {
  }

  lemma Wakes(ws: map<nat, WState>)
    ensures Pledges(Unblock(ws)) == Pledges(ws) && Held(Unblock(ws)) == Held(ws)
    ensures Pledges(WakeBatch(ws)) == Pledges(ws) && Held(WakeBatch(ws)) == Held(ws)
  {
  }

  lemma Leaves(ws: map<nat, WState>, w: nat, st: WState)
    requires InBatch(St(ws, w)) && (st.Idle? || InBatch(st))
    ensures Pledges(ws[w := st]) == Pledges(ws) && Held(ws[w := st]) == Held(ws)
  {
  }

  /** Held tasks are pledged ones, so there are no more of them. */
  lemma HeldArePledged(ws: map<nat, WState>)
    ensures |Held(ws)| <= |Pledges(ws)|
  {
    assert Held(ws) <= Pledges(ws);
    assert |Pledges(ws)| == |Held(ws)| + |Pledges(ws) - Held(ws)|;
  }

  lemma SendersStay(ws: map<nat, WState>, ws': map<nat, WState>)
    requires OneSender(ws) && forall v: nat :: St(ws', v).Sending? ==> St(ws, v).Sending?
    ensures OneSender(ws')
  {
  }

  // ---------------------------------------------------------------- promise, gate, outside world

  lemma KeepPromise(s: System, w: nat)
    requires Inv(s) && St(s.ws, w).Idle?
    ensures Inv(After(s, Promise(w)))
  {
    var t := After(s, Promise(w));
    Promising(s.ws, w);
    forall v: nat ensures WorkerOk(t, v) { assert WorkerOk(s, v); }
    forall i: nat ensures PartOk(t, i) { assert PartOk(s, i); }
    SendersStay(s.ws, t.ws);
    if !s.phase.Open? && !s.phase.Sharing? {
      var v :| St(s.ws, v).Sending?;
      assert St(t.ws, v).Sending?;
    }
  }

  lemma KeepUnblocked(s: System, w: nat)
    requires Inv(s) && St(s.ws, w).Rechecking?
    ensures Inv(s.(u := Unblocked(s.u), ws := s.ws[w := Pledged]))
    ensures s.phase.Open?
  {
    var t := s.(u := Unblocked(s.u), ws := s.ws[w := Pledged]);
    Unblocking(s.ws, w);
    assert WorkerOk(s, w);
    forall v: nat ensures WorkerOk(t, v) { assert WorkerOk(s, v); }
    forall i: nat ensures PartOk(t, i) { assert PartOk(s, i); }
    SendersStay(s.ws, t.ws);
  }

  lemma KeepBlocked(s: System, w: nat, inc: int)
    requires Inv(s) && St(s.ws, w).Pledged? && s.u.outstanding
    ensures Inv(Calling(s, w, inc))
  {
    var t := Calling(s, w, inc);
    Blocks(s.ws, w, inc);
    forall v: nat ensures WorkerOk(t, v) { assert WorkerOk(s, v); }
    forall i: nat ensures PartOk(t, i) { assert PartOk(s, i); }
    SendersStay(s.ws, t.ws);
    if !s.phase.Sharing? {
      var v :| St(s.ws, v).Sending?;
      assert St(t.ws, v).Sending?;
    }
  }

  lemma KeepArrive(s: System, w: nat)
    requires Inv(s) && Enabled(s, Arrive(w))
    ensures Inv(After(s, Arrive(w)))
  {
    var t := After(s, Arrive(w));
    forall v: nat ensures WorkerOk(t, v) { assert WorkerOk(s, v); }
    forall i: nat ensures PartOk(t, i) { assert PartOk(s, i); }
  }

  lemma KeepExternal(s: System, x: int)
    requires Inv(s)
    ensures Inv(After(s, External(x)))
  {
    var t := After(s, External(x));
    forall v: nat ensures WorkerOk(t, v) { assert WorkerOk(s, v); }
    forall i: nat ensures PartOk(t, i) { assert PartOk(s, i); }
  }

  // ---------------------------------------------------------------- joining a batch

  lemma EnterParts(s: System, w: nat, inc: int, i: nat)
    requires (forall i: nat :: PartOk(s, i)) && St(s.ws, w).Pledged?
    ensures PartOk(Entering(s, w, inc), i)
  {
    var t := Entering(s, w, inc);
    assert PartOk(s, i);
    if i < |s.parts| {
      assert t.parts[i] == s.parts[i];
    }
    forall j: nat | j < |s.parts| ensures s.parts[j].w != w {
      assert PartOk(s, j);
    }
  }

  lemma EnterWorkers(s: System, w: nat, inc: int, v: nat)
    requires WorkerOk(s, v) && WorkerOk(s, w) && St(s.ws, w).Pledged? && s.phase.Open?
    requires StartsFlush(Joined(s.u, inc)) ==> !St(s.ws, v).Rechecking?
    ensures WorkerOk(Entering(s, w, inc), v)
  {
    var t := Entering(s, w, inc);
    if v == w {
      assert t.parts[|s.parts|] == Part(w, inc);
    }
  }

  lemma KeepEntered(s: System, w: nat, inc: int)
    requires Inv(s) && St(s.ws, w).Pledged? && !s.u.outstanding
    ensures Inv(Calling(s, w, inc))
  {
    var t := Entering(s, w, inc);
    var st := if StartsFlush(Joined(s.u, inc)) then Sending(inc) else Waiting(inc);
    assert WorkerOk(s, w);
    Joins(s.ws, w, st);
    HeldArePledged(t.ws);
    SumAppend(s.parts, Part(w, inc));
    forall v: nat ensures WorkerOk(t, v) {
      assert WorkerOk(s, v);
      if St(s.ws, v).Rechecking? {
        assert v in Held(s.ws);
      }
      EnterWorkers(s, w, inc, v);
    }
    forall i: nat ensures PartOk(t, i) { EnterParts(s, w, inc, i); }
    forall v: nat ensures v != w ==> !St(t.ws, v).Sending? { assert WorkerOk(s, v); }
    assert st.Sending? ==> St(t.ws, w).Sending?;
  }

  // ---------------------------------------------------------------- sharing the result

  /** The state in which the reply has been received and everyone is on the way out. */
  ghost function Landed(s: System, w: nat, inc: int): System {
    s.(u := Received(s.u, s.cur.base), ws := WakeBatch(s.ws)[w := Receiving(inc)], phase := Sharing)
  }

  lemma ReplyIsLandedThenTaken(s: System, w: nat)
    requires Enabled(s, Reply(w))
    ensures After(s, Reply(w)) == Taking(Landed(s, w, St(s.ws, w).inc), w, St(s.ws, w).inc)
  {
    var inc := St(s.ws, w).inc;
    assert WakeBatch(s.ws)[w := Receiving(inc)][w := Idle] == WakeBatch(s.ws)[w := Idle];
  }

  lemma KeepLanded(s: System, w: nat)
    requires Inv(s) && Enabled(s, Reply(w))
    ensures Inv(Landed(s, w, St(s.ws, w).inc))
  {
    var inc := St(s.ws, w).inc;
    var t := Landed(s, w, inc);
    assert WorkerOk(s, w);
    Wakes(s.ws);
    Leaves(WakeBatch(s.ws), w, Receiving(inc));
    forall v: nat ensures WorkerOk(t, v) && !St(t.ws, v).Sending? { assert WorkerOk(s, v); }
    forall i: nat ensures PartOk(t, i) { assert PartOk(s, i); }
    assert Incs([]) == [] && Starts([]) == [];
  }

  /** Where a member stands in the batch. */
  lemma Position(s: System, w: nat) returns (i: nat)
    requires WorkerOk(s, w) && InBatch(St(s.ws, w)) && forall i: nat :: PartOk(s, i)
    ensures i < |s.parts| && s.parts[i] == Part(w, St(s.ws, w).inc)
    ensures Without(s.parts, w) == s.parts[..i] + s.parts[i + 1..]
    ensures Sum(Without(s.parts, w)) == Sum(s.parts) - St(s.ws, w).inc
  {
    i :| 0 <= i < |s.parts| && s.parts[i] == Part(w, St(s.ws, w).inc);
    assert PartOk(s, i);
    WithoutOne(s.parts, i);
  }

  lemma TakeParts(s: System, w: nat, k: nat, i: nat)
    requires (forall i: nat :: PartOk(s, i)) && k < |s.parts| && s.parts[k].w == w && St(s.ws, w).Receiving?
    requires Without(s.parts, w) == s.parts[..k] + s.parts[k + 1..]
    ensures PartOk(Taking(s, w, St(s.ws, w).inc), i)
  {
    var ps := Without(s.parts, w);
    if i < |ps| {
      var at := (j: nat) => if j < k then j else j + 1;
      assert ps[i] == s.parts[at(i)];
      assert PartOk(s, at(i)) && PartOk(s, k);
      forall j: nat | j < |ps| && ps[j].w == ps[i].w ensures j == i {
        assert ps[j] == s.parts[at(j)];
      }
    }
  }

  lemma {:induction false} OthersStay(ps: seq<Part>, w: nat, p: Part)
    requires p in ps && p.w != w
    ensures p in Without(ps, w)
  {
    if p in ps[1..] && ps[0].w != w { OthersStay(ps[1..], w, p); }
  }

  lemma TakeWorkers(s: System, w: nat, v: nat)
    requires WorkerOk(s, v) && St(s.ws, w).Receiving? && s.phase.Sharing?
    requires s.u.participants == 1 ==> forall p <- s.parts :: p.w == w
    ensures WorkerOk(Taking(s, w, St(s.ws, w).inc), v)
  {
    if InBatch(St(s.ws, v)) && v != w {
      OthersStay(s.parts, w, Part(v, St(s.ws, v).inc));
    }
  }

  /** One more taker. */
  lemma TakeShares(f: Flush, w: nat, inc: int)
    requires Plain(f)
    ensures var g := f.(shares := f.shares + [Share(w, PlainEnd(f.base, Incs(f.shares)), inc)]);
            Plain(g) && PlainEnd(g.base, Incs(g.shares)) == PlainEnd(f.base, Incs(f.shares)) + inc
  {
    var start := PlainEnd(f.base, Incs(f.shares));
    var shares := f.shares + [Share(w, start, inc)];
    PlainAppend(f.base, Incs(f.shares), inc);
    assert Incs(shares) == Incs(f.shares) + [inc];
    assert Starts(shares) == Starts(f.shares) + [start];
  }

  lemma TakeCounters(s: System, w: nat)
    requires (forall i: nat :: PartOk(s, i)) && WorkerOk(s, w) && St(s.ws, w).Receiving? && s.phase.Sharing?
    requires Counters(s)
    ensures Counters(Taking(s, w, St(s.ws, w).inc))
  {
    var k := Position(s, w);
    Leaves(s.ws, w, Idle);
    Wakes(s.ws[w := Idle]);
    TotalsAppend(s.done, s.cur.(shares := s.cur.shares + [Share(w, s.u.result, St(s.ws, w).inc)]));
  }

  lemma KeepTaken(s: System, w: nat)
    requires Inv(s) && St(s.ws, w).Receiving?
    ensures Inv(Taking(s, w, St(s.ws, w).inc))
  {
    var inc := St(s.ws, w).inc;
    var t := Taking(s, w, inc);
    assert WorkerOk(s, w);
    var k := Position(s, w);
    forall v: nat ensures WorkerOk(t, v) && (St(t.ws, v).Sending? ==> St(s.ws, v).Sending?) {
      assert WorkerOk(s, v);
      TakeWorkers(s, w, v);
    }
    SendersStay(s.ws, t.ws);
    forall i: nat ensures PartOk(t, i) { TakeParts(s, w, k, i); }
    TakeCounters(s, w);
    TakeShares(s.cur, w, inc);
    if t.phase.Open? {
      assert t.parts == [];
      assert t.u.increment == s.u.initVal;
      assert Shared(t.done[|s.done|], s.u.initVal);
    }
  }

  // ---------------------------------------------------------------- all of them

  lemma InitiallyInv(threshold: int, initVal: int, begin: int)
    ensures Inv(Initial(threshold, initVal, begin))
  {
    var s := Initial(threshold, initVal, begin);
    assert forall w: nat :: WorkerOk(s, w);
    assert forall i: nat :: PartOk(s, i);
  }

  lemma Keep(s: System, p: Step)
    requires Inv(s) && Enabled(s, p)
    ensures Inv(After(s, p))
  {
    match p
    case Promise(w) => KeepPromise(s, w);
    case Call(w, inc) => KeepCall(s, w, inc);
    case Recheck(w) =>
      KeepUnblocked(s, w);
      KeepCall(s.(u := Unblocked(s.u), ws := s.ws[w := Pledged]), w, St(s.ws, w).inc);
    case Arrive(w) => KeepArrive(s, w);
    case Reply(w) =>
      KeepLanded(s, w);
      ReplyIsLandedThenTaken(s, w);
      KeepTaken(Landed(s, w, St(s.ws, w).inc), w);
    case Resume(w) => KeepTaken(s, w);
    case External(x) => KeepExternal(s, x);
  }

  lemma KeepCall(s: System, w: nat, inc: int)
    requires Inv(s) && St(s.ws, w).Pledged?
    ensures Inv(Calling(s, w, inc))
  {
    if s.u.outstanding { KeepBlocked(s, w, inc); } else { KeepEntered(s, w, inc); }
  }
}
