/** What the combiner promises, of every run. */
module FetchAddTheorems {
  import opened FetchAddCombining
  import opened FetchAddProtocol
  import opened FetchAddSteps

  /** The state a run leads to, when every step of it was possible. */
  ghost predicate Possible(s: System, run: seq<Step>)
    decreases |run|
  {
    run == [] || (Enabled(s, run[0]) && Possible(After(s, run[0]), run[1..]))
  }

  ghost function Reached(s: System, run: seq<Step>): System
    requires Possible(s, run)
    decreases |run|
  {
    if run == [] then s else Reached(After(s, run[0]), run[1..])
  }

  lemma {:induction false} KeepAlong(s: System, run: seq<Step>)
    requires Inv(s) && Possible(s, run)
    ensures Inv(Reached(s, run))
    ensures Reached(s, run).u.initVal == s.u.initVal && Reached(s, run).begin == s.begin
    decreases |run|
  {
    if run != [] {
      Keep(s, run[0]);
      KeepAlong(After(s, run[0]), run[1..]);
    }
  }

  ghost function End(threshold: int, initVal: int, begin: int, run: seq<Step>): System
    requires Possible(Initial(threshold, initVal, begin), run)
  {
    Reached(Initial(threshold, initVal, begin), run)
  }

  lemma ReachedInv(threshold: int, initVal: int, begin: int, run: seq<Step>)
    requires Possible(Initial(threshold, initVal, begin), run)
    ensures Inv(End(threshold, initVal, begin, run))
    ensures End(threshold, initVal, begin, run).u.initVal == initVal
    ensures End(threshold, initVal, begin, run).begin == begin
  {
    InitiallyInv(threshold, initVal, begin);
    KeepAlong(Initial(threshold, initVal, begin), run);
  }

  // ---------------------------------------------------------------- refinement of plain fetch-and-add

  /** From initial value zero, each flush hands its members what plain fetch_and_add calls would
      have returned one after another on the target as it was found, and leaves behind their end. */
  lemma FlushesRefinePlainCalls(threshold: int, begin: int, run: seq<Step>, f: Flush)
    requires Possible(Initial(threshold, 0, begin), run)
    requires f in End(threshold, 0, begin, run).done
    ensures |f.shares| == f.size
    ensures Starts(f.shares) == PlainStarts(f.base, Incs(f.shares))
    ensures PlainEnd(f.base, Incs(f.shares)) == f.base + f.total
  {
    ReachedInv(threshold, 0, begin, run);
  }

  lemma {:induction false} PlainSpan(v: int, incs: seq<int>, i: nat)
    requires i < |incs|
    ensures |PlainStarts(v, incs)| == |incs| && PlainStarts(v, incs)[0] == v
    ensures PlainStarts(v, incs)[i] + incs[i]
         == if i + 1 < |incs| then PlainStarts(v, incs)[i + 1] else PlainEnd(v, incs)
    decreases |incs|
  {
    if |incs| > 1 { PlainSpan(v + incs[0], incs[1..], if i > 0 then i - 1 else 0); }
  }

  /** The half-open ranges of a flush tile what it added at the target, with no gap or overlap. */
  lemma RangesTile(threshold: int, begin: int, run: seq<Step>, f: Flush, i: nat)
    requires Possible(Initial(threshold, 0, begin), run)
    requires f in End(threshold, 0, begin, run).done && i < |f.shares|
    ensures f.shares[0].start == f.base
    ensures f.shares[i].start + f.shares[i].inc
         == if i + 1 < |f.shares| then f.shares[i + 1].start else f.base + f.total
  {
    FlushesRefinePlainCalls(threshold, begin, run, f);
    PlainSpan(f.base, Incs(f.shares), i);
    var plain := PlainStarts(f.base, Incs(f.shares));
    assert f.shares[0].start == plain[0] && f.shares[i].start == plain[i];
    assert i + 1 < |f.shares| ==> f.shares[i + 1].start == plain[i + 1];
  }

  /** Nothing is lost at the target, whatever other cores add in between. */
  lemma TargetIsConserved(threshold: int, initVal: int, begin: int, run: seq<Step>)
    requires Possible(Initial(threshold, initVal, begin), run)
    ensures var s := End(threshold, initVal, begin, run);
            s.target == begin + s.external + Totals(s.done)
                      + if s.phase.Arrived? || s.phase.Sharing? then s.cur.total else 0
  {
    ReachedInv(threshold, initVal, begin, run);
  }

  // ---------------------------------------------------------------- the counters

  /** Every waiter at the gate is counted among the committed tasks. */
  lemma CommittedCoversWaiters(threshold: int, initVal: int, begin: int, run: seq<Step>)
    requires Possible(Initial(threshold, initVal, begin), run)
    ensures var u := End(threshold, initVal, begin, run).u;
            0 <= u.readyWaiters <= u.committed && 0 <= u.participants
  {
    ReachedInv(threshold, initVal, begin, run);
    HeldArePledged(End(threshold, initVal, begin, run).ws);
  }

  /** A batch that is still filling has somebody to come who can start its flush. */
  lemma BatchHasACommittedTask(threshold: int, initVal: int, begin: int, run: seq<Step>)
    requires Possible(Initial(threshold, initVal, begin), run)
    ensures var u := End(threshold, initVal, begin, run).u;
            !u.outstanding && u.participants > 0 ==> u.committed > 0
  {
    ReachedInv(threshold, initVal, begin, run);
  }

  /** A task woken at the gate never has to wait there again. */
  lemma WokenGoStraightIn(threshold: int, initVal: int, begin: int, run: seq<Step>, w: nat)
    requires Possible(Initial(threshold, initVal, begin), run)
    requires St(End(threshold, initVal, begin, run).ws, w).Rechecking?
    ensures !End(threshold, initVal, begin, run).u.outstanding
  {
    ReachedInv(threshold, initVal, begin, run);
    assert WorkerOk(End(threshold, initVal, begin, run), w);
  }

  /** The last participant's validation check passes exactly when the initial value is zero. */
  lemma CheckPassesIffZero(threshold: int, initVal: int, begin: int, run: seq<Step>)
    requires Possible(Initial(threshold, initVal, begin), run)
    requires End(threshold, initVal, begin, run).u.participants == 0
    ensures CheckPasses(End(threshold, initVal, begin, run).u) <==> initVal == 0
  {
    ReachedInv(threshold, initVal, begin, run);
  }

  /** One caller, alone. */
  const SOLO := [Promise(0), Call(0, 1), Arrive(0), Reply(0)]

  /** With any other initial value, already a single call ends in a check that fails: the caller has
      taken its range, and `increment` is the initial value still. */
  lemma CheckFailsAfterOneCall(threshold: int, initVal: int, begin: int)
    ensures Possible(Initial(threshold, initVal, begin), SOLO)
    ensures var s := End(threshold, initVal, begin, SOLO);
            && s.done == [Flush(begin, initVal + 1, 1, [Share(0, begin, 1)])]
            && (CheckPasses(s.u) <==> initVal == 0)
  {
    var s := Initial(threshold, initVal, begin);
    var s1 := After(s, Promise(0));
    var s2 := After(s1, Call(0, 1));
    var s3 := After(s2, Arrive(0));
    var s4 := After(s3, Reply(0));
    assert SOLO[1..] == [Call(0, 1), Arrive(0), Reply(0)];
    assert SOLO[1..][1..] == [Arrive(0), Reply(0)];
    assert SOLO[1..][1..][1..] == [Reply(0)];
    assert SOLO[1..][1..][1..][1..] == [];
    assert Possible(s4, []);
    assert Possible(s3, [Reply(0)]);
    assert Possible(s2, [Arrive(0), Reply(0)]);
    assert Possible(s1, [Call(0, 1), Arrive(0), Reply(0)]);
    assert Reached(s3, [Reply(0)]) == s4;
    assert Reached(s2, [Arrive(0), Reply(0)]) == s4;
    assert Reached(s, SOLO) == s4;
    assert s2.cur == Flush(0, initVal + 1, 1, []) && s3.cur == Flush(begin, initVal + 1, 1, []);
    assert St(s3.ws, 0) == Sending(1) && s3.u.participants == 1;
    assert s4.done == [] + [s3.cur.(shares := [] + [Share(0, begin, 1)])];
    assert [] + [Share(0, begin, 1)] == [Share(0, begin, 1)];
    assert s4.done == [Flush(begin, initVal + 1, 1, [Share(0, begin, 1)])];
    assert End(threshold, initVal, begin, SOLO) == s4;
  }

  // ---------------------------------------------------------------- when a batch is sent

  /** While nobody is held back at the gate, a batch that is still filling is not full. */
  ghost predicate NotFull(s: System) {
    s.phase.Open? && Held(s.ws) == {} ==> s.parts == [] || |s.parts| < s.u.threshold
  }

  lemma NothingHeld(s: System)
    requires Inv(s)
    ensures s.u.readyWaiters == 0 <==> Held(s.ws) == {}
    ensures s.u.committed == 0 <==> Pledges(s.ws) == {}
  {
    assert Held(s.ws) != {} ==> |Held(s.ws)| > 0;
    assert Pledges(s.ws) != {} ==> |Pledges(s.ws)| > 0;
  }

  lemma EnteringFills(s: System, w: nat, inc: int)
    requires Inv(s) && St(s.ws, w).Pledged? && !s.u.outstanding
    ensures NotFull(Entering(s, w, inc))
    ensures Entering(s, w, inc).phase.Sent? ==> SentInTime(Entering(s, w, inc))
  {
    var t := Entering(s, w, inc);
    KeepEntered(s, w, inc);
    assert t == Calling(s, w, inc);
    NothingHeld(t);
  }

  /** A batch that has just been sent is full, or nobody is committed to joining it; and no task that
      was held back has been left behind. */
  ghost predicate SentInTime(s: System) {
    Held(s.ws) == {} && (|s.parts| >= s.u.threshold || Pledges(s.ws) == {})
  }

  ghost predicate JustSent(s: System, t: System) { s.phase.Open? && !t.phase.Open? }

  lemma TakingEmpties(s: System, w: nat, inc: int)
    requires s.phase.Sharing? && (s.u.participants == 1 ==> Without(s.parts, w) == [])
    ensures NotFull(Taking(s, w, inc))
  {
  }

  lemma LastTakes(s: System, w: nat)
    requires Inv(s) && St(s.ws, w).Receiving? && s.u.participants == 1
    ensures Without(s.parts, w) == []
  {
    assert WorkerOk(s, w);
    var i := Position(s, w);
  }

  lemma FillStep(s: System, p: Step)
    requires Inv(s) && NotFull(s) && Enabled(s, p)
    ensures NotFull(After(s, p)) && After(s, p).u.threshold == s.u.threshold
    ensures JustSent(s, After(s, p)) ==> SentInTime(After(s, p))
  {
    Keep(s, p);
    match p
    case Promise(w) => Promising(s.ws, w);
    case Call(w, inc) =>
      if !s.u.outstanding { EnteringFills(s, w, inc); }
    case Recheck(w) =>
      KeepUnblocked(s, w);
      EnteringFills(s.(u := Unblocked(s.u), ws := s.ws[w := Pledged]), w, St(s.ws, w).inc);
    case Arrive(w) =>
    case Reply(w) =>
      var inc := St(s.ws, w).inc;
      KeepLanded(s, w);
      ReplyIsLandedThenTaken(s, w);
      var t := Landed(s, w, inc);
      if t.u.participants == 1 { LastTakes(t, w); }
      TakingEmpties(t, w, inc);
    case Resume(w) =>
      assert WorkerOk(s, w);
      if s.u.participants == 1 { LastTakes(s, w); }
      TakingEmpties(s, w, St(s.ws, w).inc);
    case External(x) =>
  }

  lemma {:induction false} FillAlong(s: System, run: seq<Step>)
    requires Inv(s) && NotFull(s) && Possible(s, run)
    ensures NotFull(Reached(s, run)) && Reached(s, run).u.threshold == s.u.threshold
    decreases |run|
  {
    if run != [] {
      Keep(s, run[0]);
      FillStep(s, run[0]);
      FillAlong(After(s, run[0]), run[1..]);
    }
  }

  /** The member that fills a batch sends it: unless tasks are held back at the gate, a batch that has
      not been sent has fewer members than the threshold. */
  lemma FullBatchesAreSent(threshold: int, initVal: int, begin: int, run: seq<Step>)
    requires Possible(Initial(threshold, initVal, begin), run)
    ensures var s := End(threshold, initVal, begin, run);
            s.phase.Open? && Held(s.ws) == {} && s.parts != [] ==> |s.parts| < threshold
  {
    InitiallyInv(threshold, initVal, begin);
    FillAlong(Initial(threshold, initVal, begin), run);
  }

  /** And no batch is sent sooner, while somebody is still to come, nor over the heads of tasks held
      back: in every run, when a step sends a batch, it has as many members as the threshold or nobody
      is committed any more. */
  lemma BatchesAreNotSentEarly(threshold: int, initVal: int, begin: int, run: seq<Step>, p: Step)
    requires Possible(Initial(threshold, initVal, begin), run)
    requires Enabled(End(threshold, initVal, begin, run), p)
    ensures var s := End(threshold, initVal, begin, run);
            var t := After(s, p);
            s.phase.Open? && !t.phase.Open? ==>
              Held(t.ws) == {} && (|t.parts| >= threshold || Pledges(t.ws) == {})
  {
    InitiallyInv(threshold, initVal, begin);
    ReachedInv(threshold, initVal, begin, run);
    FillAlong(Initial(threshold, initVal, begin), run);
    FillStep(End(threshold, initVal, begin, run), p);
  }

  // ---------------------------------------------------------------- nobody is stranded

  /** A task that has something to do, here or at the target. */
  ghost predicate Busy(s: System, w: nat) {
    var st := St(s.ws, w);
    st.Pledged? || st.Rechecking? || st.Sending? || st.Receiving?
  }

  lemma BusyCanStep(s: System, w: nat)
    requires Inv(s) && Busy(s, w)
    ensures exists p: Step :: !p.Promise? && !p.External? && Enabled(s, p)
  {
    assert WorkerOk(s, w);
    var st := St(s.ws, w);
    var p := if st.Pledged? then Call(w, 0) else if st.Rechecking? then Recheck(w)
             else if st.Receiving? then Resume(w) else if s.phase.Sent? then Arrive(w) else Reply(w);
    assert Enabled(s, p);
  }

  lemma SuspendedNeedsABusyTask(s: System, w: nat)
    requires Inv(s) && (St(s.ws, w).Blocking? || St(s.ws, w).Waiting?)
    ensures exists v: nat :: Busy(s, v)
  {
    assert WorkerOk(s, w);
    if s.phase.Sharing? {
      assert PartOk(s, 0) && WorkerOk(s, s.parts[0].w);
      assert Busy(s, s.parts[0].w);
    } else if s.phase.Open? {
      assert s.u.committed > 0;
      assert Pledges(s.ws) != {};
      var v :| v in Pledges(s.ws);
      assert WorkerOk(s, v);
      assert Busy(s, v);
    } else {
      var v :| St(s.ws, v).Sending?;
      assert Busy(s, v);
    }
  }

  /** As long as any call has not returned, the combiner itself can take a step: a batch is never
      left unflushed, and no suspended task is forgotten. */
  lemma NobodyIsStranded(threshold: int, initVal: int, begin: int, run: seq<Step>, w: nat)
    requires Possible(Initial(threshold, initVal, begin), run)
    requires !St(End(threshold, initVal, begin, run).ws, w).Idle?
    ensures exists p: Step :: !p.Promise? && !p.External? && Enabled(End(threshold, initVal, begin, run), p)
  {
    var s := End(threshold, initVal, begin, run);
    ReachedInv(threshold, initVal, begin, run);
    if Busy(s, w) {
      BusyCanStep(s, w);
    } else {
      SuspendedNeedsABusyTask(s, w);
      var v: nat :| Busy(s, v);
      BusyCanStep(s, v);
    }
  }
}
