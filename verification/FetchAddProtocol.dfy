/** Tasks on one core sharing a FetchAddCombiner, while other cores add to the same target. */
module FetchAddProtocol {
  import opened FetchAddCombining

  datatype WState =
    | Idle
    | Pledged              // promised, and not yet called
    | Blocking(inc: int)   // suspended until the unit is ready
    | Rechecking(inc: int) // woken from there, and not yet run
    | Sending(inc: int)    // in the remote call
    | Waiting(inc: int)    // suspended until the result is received
    | Receiving(inc: int)  // woken from there, and not yet run

  /** A member of the batch that has not taken its range, and one that has. */
  datatype Part = Part(w: nat, inc: int)
  datatype Share = Share(w: nat, start: int, inc: int)

  datatype Phase = Open | Sent | Arrived | Sharing

  /** One flush: the target's value when it arrived, what it added, and who took what. */
  datatype Flush = Flush(base: int, total: int, size: nat, shares: seq<Share>)

  datatype System = System(
    u: Unit, ws: map<nat, WState>,
    parts: seq<Part>, phase: Phase, cur: Flush, done: seq<Flush>,
    target: int,                       // the value at the target address
    begin: int, external: int)         // its first value, and what other cores have added

  ghost function St(ws: map<nat, WState>, w: nat): WState { if w in ws then ws[w] else Idle }

  ghost function Unblock(ws: map<nat, WState>): map<nat, WState> {
    map w | w in ws :: if ws[w].Blocking? then Rechecking(ws[w].inc) else ws[w]
  }

  ghost function WakeBatch(ws: map<nat, WState>): map<nat, WState> {
    map w | w in ws :: if ws[w].Waiting? then Receiving(ws[w].inc) else ws[w]
  }

  ghost function Without(ps: seq<Part>, w: nat): seq<Part> {
    if ps == [] then [] else if ps[0].w == w then ps[1..] else [ps[0]] + Without(ps[1..], w)
  }

  datatype Step =
    | Promise(w: nat)
    | Call(w: nat, inc: int)
    | Recheck(w: nat)
    | Arrive(w: nat)
    | Reply(w: nat)
    | Resume(w: nat)
    | External(x: int)

  ghost predicate Enabled(s: System, p: Step) {
    match p
    case Promise(w) => St(s.ws, w).Idle?
    case Call(w, inc) => St(s.ws, w).Pledged?      // every call is preceded by its own promise
    case Recheck(w) => St(s.ws, w).Rechecking?
    case Arrive(w) => St(s.ws, w).Sending? && s.phase.Sent?
    case Reply(w) => St(s.ws, w).Sending? && s.phase.Arrived?
    case Resume(w) => St(s.ws, w).Receiving?
    case External(x) => true
  }

  /** What follows block_until_ready once the unit is ready. */
  ghost function Entering(s: System, w: nat, inc: int): System {
    var u := Joined(s.u, inc);
    var parts := s.parts + [Part(w, inc)];
    if StartsFlush(u)
    then s.(u := Entered(s.u, w, inc), ws := s.ws[w := Sending(inc)], parts := parts,
            phase := Sent, cur := Flush(0, u.increment, |parts|, []))
    else s.(u := Entered(s.u, w, inc), ws := s.ws[w := Waiting(inc)], parts := parts)
  }

  ghost function Calling(s: System, w: nat, inc: int): System {
    if s.u.outstanding then s.(u := Blocked(s.u, w), ws := s.ws[w := Blocking(inc)])
    else Entering(s, w, inc)
  }

  ghost function Taking(s: System, w: nat, inc: int): System {
    var cur := s.cur.(shares := s.cur.shares + [Share(w, s.u.result, inc)]);
    var s' := s.(u := Taken(s.u, inc), ws := s.ws[w := Idle], parts := Without(s.parts, w), cur := cur);
    if s'.u.participants == 0 then s'.(ws := Unblock(s'.ws), phase := Open, done := s.done + [cur]) else s'
  }

  ghost function After(s: System, p: Step): System
    requires Enabled(s, p)
  {
    match p
    case Promise(w) => s.(u := Promised(s.u), ws := s.ws[w := Pledged])
    case Call(w, inc) => Calling(s, w, inc)
    case Recheck(w) =>
      Calling(s.(u := Unblocked(s.u), ws := s.ws[w := Pledged]), w, St(s.ws, w).inc)
    case Arrive(w) => s.(target := s.target + s.cur.total, cur := s.cur.(base := s.target), phase := Arrived)
    case Reply(w) =>
      Taking(s.(u := Received(s.u, s.cur.base), ws := WakeBatch(s.ws), phase := Sharing), w, St(s.ws, w).inc)
    case Resume(w) => Taking(s, w, St(s.ws, w).inc)
    case External(x) => s.(target := s.target + x, external := s.external + x)
  }

  ghost function Initial(threshold: int, initVal: int, begin: int): System {
    System(Unit(initVal, threshold, 0, initVal, 0, 0, 0, false, [], []), map[], [], Open,
           Flush(0, 0, 0, []), [], begin, begin, 0)
  }

  // ---------------------------------------------------------------- reference semantics

  /** The values plain fetch_and_add calls with these increments return, one after another. */
  ghost function PlainStarts(v: int, incs: seq<int>): seq<int>
    decreases |incs|
  {
    if incs == [] then [] else [v] + PlainStarts(v + incs[0], incs[1..])
  }

  /** The value they leave behind. */
  ghost function PlainEnd(v: int, incs: seq<int>): int
    decreases |incs|
  {
    if incs == [] then v else PlainEnd(v + incs[0], incs[1..])
  }

  ghost function Incs(shares: seq<Share>): (r: seq<int>)
    ensures |r| == |shares| && forall i: nat :: i < |r| ==> r[i] == shares[i].inc
  {
    seq(|shares|, i requires 0 <= i < |shares| => shares[i].inc)
  }

  ghost function Starts(shares: seq<Share>): (r: seq<int>)
    ensures |r| == |shares| && forall i: nat :: i < |r| ==> r[i] == shares[i].start
  {
    seq(|shares|, i requires 0 <= i < |shares| => shares[i].start)
  }

  lemma {:induction false} PlainAppend(v: int, incs: seq<int>, x: int)
    ensures PlainStarts(v, incs + [x]) == PlainStarts(v, incs) + [PlainEnd(v, incs)]
    ensures PlainEnd(v, incs + [x]) == PlainEnd(v, incs) + x
    decreases |incs|
  {
    if incs == [] {
      assert incs + [x] == [x];
    } else {
      PlainAppend(v + incs[0], incs[1..], x);
      assert (incs + [x])[1..] == incs[1..] + [x];
    }
  }

  // ---------------------------------------------------------------- the invariant

  ghost function Sum(ps: seq<Part>): int { if ps == [] then 0 else ps[0].inc + Sum(ps[1..]) }

  ghost function Totals(fs: seq<Flush>): int { if fs == [] then 0 else fs[0].total + Totals(fs[1..]) }

  /** Tasks that promised and have not joined a batch; those of them held back at the gate. */
  ghost function Pledges(ws: map<nat, WState>): set<nat> {
    set w | w in ws && (ws[w].Pledged? || ws[w].Blocking? || ws[w].Rechecking?)
  }

  ghost function Held(ws: map<nat, WState>): set<nat> {
    set w | w in ws && (ws[w].Blocking? || ws[w].Rechecking?)
  }

  ghost predicate InBatch(st: WState) { st.Sending? || st.Waiting? || st.Receiving? }

  ghost predicate WorkerOk(s: System, w: nat) {
    var st := St(s.ws, w);
    && (InBatch(st) ==> Part(w, st.inc) in s.parts)
    && (st.Blocking? <==> w in s.u.cvReady)
    && (st.Waiting? <==> w in s.u.cvReceived)
    && (st.Blocking? ==> !s.phase.Open?)
    && (st.Rechecking? ==> s.phase.Open?)
    && (st.Sending? ==> s.phase.Sent? || s.phase.Arrived?)
    && (st.Waiting? ==> !s.phase.Sharing?)
    && (st.Receiving? ==> s.phase.Sharing?)
  }

  ghost predicate PartOk(s: System, i: nat) {
    i < |s.parts| ==>
      && InBatch(St(s.ws, s.parts[i].w)) && St(s.ws, s.parts[i].w).inc == s.parts[i].inc
      && forall j: nat :: j < |s.parts| && s.parts[j].w == s.parts[i].w ==> j == i
  }

  /** The takers so far got what plain calls would have got, in the order they ran. */
  ghost predicate Plain(f: Flush) { Starts(f.shares) == PlainStarts(f.base, Incs(f.shares)) }

  /** A finished flush: every member took a range, and together they cover what was added,
      up to the initial value of `increment`. */
  ghost predicate Shared(f: Flush, initVal: int) {
    && |f.shares| == f.size
    && Plain(f)
    && PlainEnd(f.base, Incs(f.shares)) == f.base + f.total - initVal
  }

  ghost predicate PhaseOk(s: System) {
    match s.phase
    case Open => !s.u.outstanding && (s.parts != [] ==> s.u.committed > 0)
    case Sent => s.u.outstanding && s.cur.total == s.u.increment && s.cur.size == |s.parts| && s.cur.shares == []
                 && exists w :: St(s.ws, w).Sending?
    case Arrived => s.u.outstanding && s.cur.total == s.u.increment && s.cur.size == |s.parts| && s.cur.shares == []
                    && exists w :: St(s.ws, w).Sending?
    case Sharing => s.u.outstanding && s.parts != [] && |s.cur.shares| + |s.parts| == s.cur.size
                    && Plain(s.cur)
                    && s.u.result == PlainEnd(s.cur.base, Incs(s.cur.shares))
                    && s.u.result + s.u.increment == s.cur.base + s.cur.total
  }

  ghost predicate Counters(s: System) {
    && s.u.committed == |Pledges(s.ws)|
    && s.u.readyWaiters == |Held(s.ws)|
    && s.u.participants == |s.parts|
    && s.u.increment == s.u.initVal + Sum(s.parts)
    && s.target == s.begin + s.external + Totals(s.done)
                   + (if s.phase.Arrived? || s.phase.Sharing? then s.cur.total else 0)
  }

  /** At most one task is sending. */
  ghost predicate OneSender(ws: map<nat, WState>) {
    forall w: nat, v: nat :: St(ws, w).Sending? && St(ws, v).Sending? ==> w == v
  }

  ghost predicate Inv(s: System) {
    && (forall w: nat :: WorkerOk(s, w))
    && (forall i: nat :: PartOk(s, i))
    && OneSender(s.ws)
    && Counters(s) && PhaseOk(s)
    && (forall f <- s.done :: Shared(f, s.u.initVal))
  }

  // ---------------------------------------------------------------- sums and sets

  lemma {:induction false} SumAppend(ps: seq<Part>, p: Part)
    ensures Sum(ps + [p]) == Sum(ps) + p.inc
  {
    if ps == [] {
      assert ps + [p] == [p];
    } else {
      SumAppend(ps[1..], p);
      assert (ps + [p])[1..] == ps[1..] + [p];
    }
  }

  lemma {:induction false} TotalsAppend(fs: seq<Flush>, f: Flush)
    ensures Totals(fs + [f]) == Totals(fs) + f.total
  {
    if fs == [] {
      assert fs + [f] == [f];
    } else {
      TotalsAppend(fs[1..], f);
      assert (fs + [f])[1..] == fs[1..] + [f];
    }
  }

  /** Taking one member out of the batch. */
  lemma {:induction false} WithoutOne(ps: seq<Part>, i: nat)
    requires i < |ps|
    requires forall j: nat :: j < |ps| && ps[j].w == ps[i].w ==> j == i
    ensures Without(ps, ps[i].w) == ps[..i] + ps[i + 1..]
    ensures Sum(Without(ps, ps[i].w)) == Sum(ps) - ps[i].inc
  {
    if i == 0 {
      assert ps[..0] + ps[1..] == ps[1..];
    } else {
      assert ps[0].w != ps[i].w;
      forall j: nat | j < |ps[1..]| && ps[1..][j].w == ps[i].w ensures j == i - 1 {
        assert ps[j + 1].w == ps[i].w;
      }
      WithoutOne(ps[1..], i - 1);
      assert ps[..i] == [ps[0]] + ps[1..][..i - 1];
    }
  }
}
