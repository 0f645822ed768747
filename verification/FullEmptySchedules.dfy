/** Tasks and remote readers sharing a full/empty word, under any schedule. */
module FullEmptySchedules {
  import opened Sequences
  import opened FullEmptyWords

  datatype Op = WriteEF(v: int) | WriteFF(v: int) | WriteXF(v: int) | ReadFE | ReadFF

  /** `ops` are the operations under way, `ready` the woken tasks, `asked` the remote readers so far;
      `written` lists what has been written, `taken` and `seen` what readFE and readFF have returned. */
  datatype System = System(x: Word, ops: map<nat, Op>, ready: set<nat>, asked: set<nat>,
                           written: seq<int>, taken: seq<int>, seen: seq<int>)

  datatype Step = Begin(w: nat, op: Op) | Resume(w: nat) | Remote(d: nat) | Reset

  /** Must the word be in the given state before the operation? */
  predicate Wants(op: Op, full: bool) {
    match op
    case WriteEF(_) => !full
    case WriteXF(_) => false
    case _ => full
  }

  predicate Blocks(op: Op, full: bool) { Wants(op, !full) }

  /** The scheduler takes over the tasks a broadcast has woken. */
  ghost function Settled(s: System, x: Word): System {
    s.(x := x.(woken := []), ready := s.ready + Elements(x.woken))
  }

  ghost function Performed(s: System, op: Op): System {
    match op
    case ReadFE => Settled(s, FullEmptyWords.ReadFE(s.x)).(taken := s.taken + [s.x.t])
    case ReadFF => Settled(s, FullEmptyWords.ReadFF(s.x)).(seen := s.seen + [s.x.t])
    case _ => Settled(s, FullEmptyWords.WriteXF(s.x, op.v)).(written := s.written + [op.v])
  }

  /** One turn of the loop in block_until, and the operation itself once the word is ready for it. */
  ghost function Attempted(s: System, w: nat, op: Op): System {
    if Blocks(op, s.x.full) then s.(ops := s.ops[w := op], ready := s.ready - {w}, x := Waiting(s.x, Task(w)))
    else Performed(s.(ops := s.ops - {w}, ready := s.ready - {w}), op)
  }

  ghost predicate Enabled(s: System, p: Step) {
    match p
    case Begin(w, _) => w !in s.ops
    case Resume(w) => w in s.ready && w in s.ops
    case Remote(d) => d !in s.asked
    case Reset => s.x.waiters == []
  }

  ghost function After(s: System, p: Step): System
    requires Enabled(s, p)
  {
    match p
    case Begin(w, op) => Attempted(s, w, op)
    case Resume(w) => Attempted(s, w, s.ops[w])
    case Remote(d) => Settled(s.(asked := s.asked + {d}), RemoteRead(s.x, d))
    case Reset => s.(x := s.x.(full := false))
  }

  ghost function Initial(): System { System(Word(false, 0, [], [], [], false), map[], {}, {}, [], [], []) }

  // ---------------------------------------------------------------- invariant

  /** Whoever is listed wants the opposite of what the word is. */
  ghost predicate WaiterOk(x: Word, ops: map<nat, Op>, asked: set<nat>, i: nat) {
    i < |x.waiters| ==>
      match x.waiters[i]
      case Task(w) => w in ops && Blocks(ops[w], x.full)
      case Delegate(d) => !x.full && d in asked
  }

  /** A task inside an operation is listed or woken. */
  ghost predicate NotLost(s: System, w: nat) { w in s.ops ==> w in s.ready || Task(w) in s.x.waiters }

  /** A remote reader is listed, or has been sent a value that was written. */
  ghost predicate ReaderOk(s: System, d: nat) {
    d in s.asked ==> Delegate(d) in s.x.waiters || exists v :: Fill(d, v) in s.x.filled
  }

  ghost predicate FillOk(s: System, f: Fill) { f in s.x.filled ==> f.d in s.asked && f.val in s.written }

  ghost predicate IsLast(v: int, written: seq<int>) { written != [] && v == written[|written| - 1] }

  ghost predicate Inv(s: System) {
    && s.x.woken == [] && !s.x.bad
    && (s.x.full ==> IsLast(s.x.t, s.written))
    && (forall i: nat :: WaiterOk(s.x, s.ops, s.asked, i))
    && (forall w: nat :: NotLost(s, w))
    && (forall d: nat :: ReaderOk(s, d))
    && (forall f: Fill :: FillOk(s, f))
  }

  // ---------------------------------------------------------------- what steps do to the word

  /** After a broadcast nobody is listed; everyone who was is woken or answered. */
  ghost predicate Cleared(x: Word, y: Word) {
    && y.waiters == [] && y.bad == x.bad
    && (forall w: nat :: w in y.woken <==> w in x.woken || Task(w) in x.waiters)
    && (forall f: Fill :: f in y.filled <==> f in x.filled || (x.full && Delegate(f.d) in x.waiters && f.val == x.t))
    && y.full == x.full && y.t == x.t
  }

  lemma BroadcastClears(x: Word)
    requires x.full || NoDelegates(x.waiters)
    ensures Cleared(x, Broadcast(x))
  {
    if x.full { BroadcastFull(x); } else { BroadcastEmpty(x); }
    forall w: nat ensures w in Broadcast(x).woken <==> w in x.woken || Task(w) in x.waiters { TasksAreListed(x.waiters, w); }
    forall f: Fill
      ensures f in Broadcast(x).filled <==> f in x.filled || (x.full && Delegate(f.d) in x.waiters && f.val == x.t)
    {
      FillsAreListed(x.waiters, x.t, f);
    }
  }

  lemma FullHasNoDelegates(s: System)
    requires s.x.full && forall i: nat :: WaiterOk(s.x, s.ops, s.asked, i)
    ensures NoDelegates(s.x.waiters)
  {
    forall i: nat | i < |s.x.waiters| ensures s.x.waiters[i].Task? { assert WaiterOk(s.x, s.ops, s.asked, i); }
  }

  /** Broadcasting and handing over keeps everybody accounted for. */
  lemma SettledKeeps(s: System, x: Word, y: Word, t: System)
    requires (forall w: nat :: NotLost(s, w)) && (forall d: nat :: ReaderOk(s, d)) && (forall f: Fill :: FillOk(s, f))
    requires forall i: nat :: WaiterOk(s.x, s.ops, s.asked, i)
    requires x.waiters == s.x.waiters && x.filled == s.x.filled && x.woken == [] && !x.bad
    requires x.full || NoDelegates(x.waiters)
    requires Cleared(x, y) && t == Settled(s, y).(written := t.written, taken := t.taken, seen := t.seen)
    requires s.written <= t.written && (x.full ==> IsLast(x.t, t.written))
    ensures Inv(t)
  {
    assert Elements(y.woken) == set w | w in y.woken;
    forall w: nat ensures NotLost(t, w) { assert NotLost(s, w); }
    forall d: nat ensures ReaderOk(t, d) {
      assert ReaderOk(s, d);
      if d in s.asked {
        if Delegate(d) in x.waiters { assert Fill(d, x.t) in y.filled; } else {
          var v :| Fill(d, v) in s.x.filled;
          assert Fill(d, v) in y.filled;
        }
      }
    }
    forall f: Fill ensures FillOk(t, f) {
      assert FillOk(s, f);
      if f in y.filled && f !in x.filled {
        var i :| 0 <= i < |x.waiters| && x.waiters[i] == Delegate(f.d);
        assert WaiterOk(s.x, s.ops, s.asked, i);
      }
    }
  }

  lemma PerformKeeps(s: System, w: nat, op: Op)
    requires Inv(s) && !Blocks(op, s.x.full) && (w in s.ops ==> s.ops[w] == op && w in s.ready)
    ensures Inv(Attempted(s, w, op))
  {
    var r := s.(ops := s.ops - {w}, ready := s.ready - {w});
    var t := Performed(r, op);
    forall v: nat ensures NotLost(r, v) { assert NotLost(s, v); }
    forall d: nat ensures ReaderOk(r, d) { assert ReaderOk(s, d); }
    forall f: Fill ensures FillOk(r, f) { assert FillOk(s, f); }
    forall i: nat ensures WaiterOk(r.x, r.ops, r.asked, i) {
      assert WaiterOk(s.x, s.ops, s.asked, i);
    }
    if s.x.full { FullHasNoDelegates(s); }
    var x := match op
             case ReadFE => s.x.(full := false)
             case ReadFF => s.x
             case _ => s.x.(t := op.v, full := true);
    BroadcastClears(x);
    SettledKeeps(r, x, Broadcast(x), t);
  }

  lemma BlockKeeps(s: System, w: nat, op: Op)
    requires Inv(s) && Blocks(op, s.x.full) && (w in s.ops ==> s.ops[w] == op)
    ensures Inv(Attempted(s, w, op))
  {
    var t := Attempted(s, w, op);
    forall i: nat ensures WaiterOk(t.x, t.ops, t.asked, i) {
      if 0 < i < |t.x.waiters| { assert WaiterOk(s.x, s.ops, s.asked, i - 1); }
    }
    forall v: nat ensures NotLost(t, v) {
      assert NotLost(s, v);
      assert t.x.waiters[0] == Task(w);
    }
    forall d: nat ensures ReaderOk(t, d) { assert ReaderOk(s, d); }
    forall f: Fill ensures FillOk(t, f) { assert FillOk(s, f); }
  }

  lemma RemoteKeeps(s: System, d: nat)
    requires Inv(s) && d !in s.asked
    ensures Inv(After(s, Remote(d)))
  {
    var t := After(s, Remote(d));
    if s.x.full {
      RemoteFull(s, d);
    } else {
      forall i: nat ensures WaiterOk(t.x, t.ops, t.asked, i) {
        if 0 < i < |t.x.waiters| { assert WaiterOk(s.x, s.ops, s.asked, i - 1); }
      }
      forall v: nat ensures NotLost(t, v) { assert NotLost(s, v); }
      forall e: nat ensures ReaderOk(t, e) {
        assert ReaderOk(s, e);
        assert t.x.waiters[0] == Delegate(d);
      }
      forall f: Fill ensures FillOk(t, f) { assert FillOk(s, f); }
    }
  }

  lemma RemoteFull(s: System, d: nat)
    requires Inv(s) && d !in s.asked && s.x.full
    ensures Inv(After(s, Remote(d)))
  {
    var t := After(s, Remote(d));
    var y := Broadcast(s.x);
    var u := Settled(s, y);
    FullHasNoDelegates(s);
    BroadcastClears(s.x);
    SettledKeeps(s, s.x, y, u);
    assert t.x.filled == u.x.filled + [Fill(d, s.x.t)];
    forall v: nat ensures NotLost(t, v) { assert NotLost(u, v); }
    forall e: nat ensures ReaderOk(t, e) {
      assert ReaderOk(u, e);
      assert t.x.filled[|u.x.filled|] == Fill(d, s.x.t);
      if e in u.asked && e != d && Delegate(e) !in u.x.waiters {
        var v :| Fill(e, v) in u.x.filled;
        assert Fill(e, v) in t.x.filled;
      }
    }
    forall f: Fill ensures FillOk(t, f) { assert FillOk(u, f); }
  }

  lemma ResetKeeps(s: System)
    requires Inv(s) && s.x.waiters == []
    ensures Inv(After(s, Reset))
  {
    var t := After(s, Reset);
    forall v: nat ensures NotLost(t, v) { assert NotLost(s, v); }
    forall d: nat ensures ReaderOk(t, d) { assert ReaderOk(s, d); }
    forall f: Fill ensures FillOk(t, f) { assert FillOk(s, f); }
  }

  lemma AttemptKeeps(s: System, w: nat, op: Op)
    requires Inv(s) && (w in s.ops ==> s.ops[w] == op && w in s.ready)
    ensures Inv(Attempted(s, w, op))
  {
    if Blocks(op, s.x.full) { BlockKeeps(s, w, op); } else { PerformKeeps(s, w, op); }
  }

  lemma StepKeeps(s: System, p: Step)
    requires Inv(s) && Enabled(s, p)
    ensures Inv(After(s, p))
  {
    match p
    case Begin(w, op) => AttemptKeeps(s, w, op);
    case Resume(w) => AttemptKeeps(s, w, s.ops[w]);
    case Remote(d) => RemoteKeeps(s, d);
    case Reset => ResetKeeps(s);
  }

  // ---------------------------------------------------------------- every run

  ghost predicate Possible(s: System, run: seq<Step>)
    decreases |run|
  {
    run == [] || (Enabled(s, run[0]) && Possible(After(s, run[0]), run[1..]))
  }

  ghost function Reached(s: System, run: seq<Step>): System
    requires Possible(s, run)
    decreases |run|
  {
    if run == [] then s else Reached(After(s, run[0]), run[1..])
  }

  lemma {:induction false} KeepAlong(s: System, run: seq<Step>)
    requires Inv(s) && Possible(s, run)
    ensures Inv(Reached(s, run))
    decreases |run|
  {
    if run != [] {
      StepKeeps(s, run[0]);
      KeepAlong(After(s, run[0]), run[1..]);
    }
  }

  lemma ReachedInv(run: seq<Step>)
    requires Possible(Initial(), run)
    ensures Inv(Reached(Initial(), run))
  {
    KeepAlong(Initial(), run);
  }

  /** Between operations, everyone on the wait list wants the opposite of the word's state. */
  lemma WaitersWantTheOpposite(run: seq<Step>, who: Waiter)
    requires Possible(Initial(), run) && who in Reached(Initial(), run).x.waiters
    ensures var s := Reached(Initial(), run);
            match who
            case Task(w) => w in s.ops && Wants(s.ops[w], !s.x.full)
            case Delegate(d) => !s.x.full
  {
    ReachedInv(run);
    var s := Reached(Initial(), run);
    var i :| 0 <= i < |s.x.waiters| && s.x.waiters[i] == who;
    assert WaiterOk(s.x, s.ops, s.asked, i);
  }

  /** No wakeup is lost: a task whose operation could go on has been woken. */
  lemma NoLostWakeup(run: seq<Step>, w: nat)
    requires Possible(Initial(), run) && w in Reached(Initial(), run).ops
    requires !Blocks(Reached(Initial(), run).ops[w], Reached(Initial(), run).x.full)
    ensures w in Reached(Initial(), run).ready
  {
    ReachedInv(run);
    var s := Reached(Initial(), run);
    assert NotLost(s, w);
    if Task(w) in s.x.waiters { WaitersWantTheOpposite(run, Task(w)); }
  }

  /** A suspended reader from another core never runs while the word is empty, and what it is sent
      was written. */
  lemma DelegatesReadFullWords(run: seq<Step>, f: Fill)
    requires Possible(Initial(), run)
    ensures !Reached(Initial(), run).x.bad
    ensures f in Reached(Initial(), run).x.filled ==> f.val in Reached(Initial(), run).written
  {
    ReachedInv(run);
    assert FillOk(Reached(Initial(), run), f);
  }

  /** While a remote reader has had no answer, it is listed and the word is empty. */
  lemma ReadersAreAnswered(run: seq<Step>, d: nat)
    requires Possible(Initial(), run) && d in Reached(Initial(), run).asked
    ensures var x := Reached(Initial(), run).x;
            (exists v :: Fill(d, v) in x.filled) || (Delegate(d) in x.waiters && !x.full)
  {
    ReachedInv(run);
    assert ReaderOk(Reached(Initial(), run), d);
    if Delegate(d) in Reached(Initial(), run).x.waiters { WaitersWantTheOpposite(run, Delegate(d)); }
  }

  // ---------------------------------------------------------------- who suspends

  /** An operation suspends exactly when it wants a full word and finds it empty, or the other way round:
      writeEF wants it empty, writeXF takes it as it is, and all others want it full. Who does not
      suspend is done. */
  lemma SuspendsIff(run: seq<Step>, w: nat, op: Op)
    requires Possible(Initial(), run) && Enabled(Reached(Initial(), run), Begin(w, op))
    ensures var s := Reached(Initial(), run);
            var t := After(s, Begin(w, op));
            && (w in t.ops <==> (op.WriteEF? && s.x.full) || ((op.WriteFF? || op.ReadFE? || op.ReadFF?) && !s.x.full))
            && (w in t.ops ==> t.x == s.x.(waiters := [Task(w)] + s.x.waiters))
            && (w !in t.ops ==> t.x.waiters == [] && t.x.full == !op.ReadFE?)
  {
    ReachedInv(run);
    var s := Reached(Initial(), run);
    if !Blocks(op, s.x.full) {
      if s.x.full { FullHasNoDelegates(s); }
      match op
      case ReadFE => BroadcastKeepsWord(s.x.(full := false));
      case ReadFF => BroadcastKeepsWord(s.x);
      case _ => BroadcastKeepsWord(s.x.(t := op.v, full := true));
    }
  }

  // ---------------------------------------------------------------- one place for each task

  /** Places of a task on the list and among those woken. */
  ghost function Places(s: System, w: nat): nat { multiset(s.x.waiters)[Task(w)] + if w in s.ready then 1 else 0 }

  ghost predicate Placed(s: System, w: nat) { Places(s, w) == if w in s.ops then 1 else 0 }

  lemma AttemptPlaces(s: System, w: nat, op: Op, v: nat)
    requires Inv(s) && Placed(s, w) && Placed(s, v) && (w in s.ops ==> w in s.ready)
    ensures Placed(Attempted(s, w, op), v)
  {
    if !Blocks(op, s.x.full) {
      if s.x.full { FullHasNoDelegates(s); }
      BroadcastClears(match op
                      case ReadFE => s.x.(full := false)
                      case ReadFF => s.x
                      case _ => s.x.(t := op.v, full := true));
    }
  }

  lemma StepPlaces(s: System, p: Step, v: nat)
    requires Inv(s) && Enabled(s, p) && forall w: nat :: Placed(s, w)
    ensures Placed(After(s, p), v)
  {
    match p
    case Begin(w, op) => AttemptPlaces(s, w, op, v);
    case Resume(w) => AttemptPlaces(s, w, s.ops[w], v);
    case Remote(d) =>
      if s.x.full {
        FullHasNoDelegates(s);
        BroadcastClears(s.x);
      }
    case Reset =>
  }

  lemma {:induction false} PlacesAlong(s: System, run: seq<Step>, v: nat)
    requires Inv(s) && Possible(s, run) && forall w: nat :: Placed(s, w)
    ensures Placed(Reached(s, run), v)
    decreases |run|
  {
    if run != [] {
      StepKeeps(s, run[0]);
      forall w: nat ensures Placed(After(s, run[0]), w) { StepPlaces(s, run[0], w); }
      PlacesAlong(After(s, run[0]), run[1..], v);
    }
  }

  /** In every run, a task inside an operation is in exactly one place: on the list, once, or woken; it
      never runs while it is listed. Any other task is in neither. */
  lemma TasksAreInOnePlace(run: seq<Step>, w: nat)
    requires Possible(Initial(), run)
    ensures var s := Reached(Initial(), run);
            multiset(s.x.waiters)[Task(w)] + (if w in s.ready then 1 else 0) == if w in s.ops then 1 else 0
  {
    assert forall v: nat :: Placed(Initial(), v);
    PlacesAlong(Initial(), run, w);
  }

  // ---------------------------------------------------------------- one answer for each reader

  /** Answers sent to a reader, and places it has on the list. */
  ghost function Served(x: Word, d: nat): nat { Answers(x.filled, d) + multiset(x.waiters)[Delegate(d)] }

  ghost predicate ServedOnce(s: System, d: nat) { Served(s.x, d) == if d in s.asked then 1 else 0 }

  lemma AttemptServes(s: System, w: nat, op: Op, d: nat)
    requires Inv(s)
    ensures Served(Attempted(s, w, op).x, d) == Served(s.x, d)
  {
    if !Blocks(op, s.x.full) {
      if s.x.full { FullHasNoDelegates(s); }
      var x := match op
               case ReadFE => s.x.(full := false)
               case ReadFF => s.x
               case _ => s.x.(t := op.v, full := true);
      BroadcastAnswers(x, d);
    }
  }

  lemma RemoteServes(s: System, e: nat, d: nat)
    requires Inv(s)
    ensures Served(RemoteRead(s.x, e), d) == Served(s.x, d) + if d == e then 1 else 0
  {
    if s.x.full {
      FullHasNoDelegates(s);
      BroadcastAnswers(s.x, d);
      AnswersAppend(Broadcast(s.x).filled, [Fill(e, s.x.t)], d);
    }
  }

  lemma StepServes(s: System, p: Step, d: nat)
    requires Inv(s) && Enabled(s, p) && ServedOnce(s, d)
    ensures ServedOnce(After(s, p), d)
  {
    match p
    case Begin(w, op) => AttemptServes(s, w, op, d);
    case Resume(w) => AttemptServes(s, w, s.ops[w], d);
    case Remote(e) => RemoteServes(s, e, d);
    case Reset =>
  }

  lemma {:induction false} ServesAlong(s: System, run: seq<Step>, d: nat)
    requires Inv(s) && Possible(s, run) && ServedOnce(s, d)
    ensures ServedOnce(Reached(s, run), d)
    decreases |run|
  {
    if run != [] {
      StepKeeps(s, run[0]);
      StepServes(s, run[0], d);
      ServesAlong(After(s, run[0]), run[1..], d);
    }
  }

  /** In every run, a remote reader is at any moment in exactly one of two places: on the list, once,
      or among those answered, once. Who has not asked is in neither. */
  lemma ReadersAreAnsweredOnce(run: seq<Step>, d: nat)
    requires Possible(Initial(), run)
    ensures var s := Reached(Initial(), run);
            Answers(s.x.filled, d) + multiset(s.x.waiters)[Delegate(d)] == if d in s.asked then 1 else 0
  {
    ServesAlong(Initial(), run, d);
  }

  // ---------------------------------------------------------------- reads are up to date

  /** What was returned or sent on the way from `s` to `t` is the value written last. */
  ghost predicate Current(s: System, t: System) {
    && s.taken <= t.taken && (forall i :: |s.taken| <= i < |t.taken| ==> IsLast(t.taken[i], t.written))
    && s.seen <= t.seen && (forall i :: |s.seen| <= i < |t.seen| ==> IsLast(t.seen[i], t.written))
    && (forall f: Fill :: SentBefore(s, t, f))
  }

  ghost predicate SentBefore(s: System, t: System, f: Fill) {
    f in t.x.filled ==> f in s.x.filled || IsLast(f.val, t.written)
  }

  lemma AttemptIsCurrent(s: System, w: nat, op: Op)
    requires Inv(s)
    ensures Current(s, Attempted(s, w, op))
  {
    var t := Attempted(s, w, op);
    if !Blocks(op, s.x.full) {
      if s.x.full { FullHasNoDelegates(s); }
      var x := match op
               case ReadFE => s.x.(full := false)
               case ReadFF => s.x
               case _ => s.x.(t := op.v, full := true);
      BroadcastClears(x);
      assert x.full ==> IsLast(x.t, t.written);
      forall f: Fill ensures SentBefore(s, t, f) {
        assert f in Broadcast(x).filled <==> f in x.filled || (x.full && Delegate(f.d) in x.waiters && f.val == x.t);
      }
    }
  }

  /** In every run: a value that readFE or readFF returns, or that is sent to a remote reader, is the
      one written last at that moment. */
  lemma ReadsAreCurrent(run: seq<Step>, p: Step)
    requires Possible(Initial(), run) && Enabled(Reached(Initial(), run), p)
    ensures Current(Reached(Initial(), run), After(Reached(Initial(), run), p))
  {
    ReachedInv(run);
    var s := Reached(Initial(), run);
    match p
    case Begin(w, op) => AttemptIsCurrent(s, w, op);
    case Resume(w) => AttemptIsCurrent(s, w, s.ops[w]);
    case Remote(d) =>
      if s.x.full {
        FullHasNoDelegates(s);
        BroadcastClears(s.x);
      }
    case Reset =>
  }

  // ---------------------------------------------------------------- synchronized writes and reads

  /** Tasks only use writeEF, readFE and readFF, and nobody resets the word. */
  ghost predicate Strict(p: Step) {
    match p
    case Begin(_, op) => op.WriteEF? || op.ReadFE? || op.ReadFF?
    case Reset => false
    case _ => true
  }

  ghost predicate StrictOps(ops: map<nat, Op>) { forall w: nat :: w in ops ==> Strict(Begin(w, ops[w])) }

  /** What was read is what was written, but for the value still in the word. */
  ghost predicate InStep(s: System) {
    StrictOps(s.ops) && s.written == s.taken + if s.x.full then [s.x.t] else []
  }

  lemma BroadcastKeepsWord(x: Word)
    requires x.full || NoDelegates(x.waiters)
    ensures Broadcast(x).full == x.full && Broadcast(x).t == x.t
  {
    BroadcastClears(x);
  }

  lemma AttemptInStep(s: System, w: nat, op: Op)
    requires Inv(s) && InStep(s) && Strict(Begin(w, op))
    ensures InStep(Attempted(s, w, op))
  {
    if !Blocks(op, s.x.full) {
      if s.x.full { FullHasNoDelegates(s); }
      match op
      case WriteEF(v) => BroadcastKeepsWord(s.x.(t := v, full := true));
      case ReadFE => BroadcastKeepsWord(s.x.(full := false));
      case _ => BroadcastKeepsWord(s.x);
    }
  }

  lemma StepInStep(s: System, p: Step)
    requires Inv(s) && InStep(s) && Enabled(s, p) && Strict(p)
    ensures InStep(After(s, p))
  {
    match p
    case Begin(w, op) => AttemptInStep(s, w, op);
    case Resume(w) => AttemptInStep(s, w, s.ops[w]);
    case Remote(d) => if s.x.full { BroadcastKeepsWord(s.x); }
  }

  ghost predicate AllStrict(run: seq<Step>) { forall i: nat :: i < |run| ==> Strict(run[i]) }

  lemma {:induction false} KeepInStep(s: System, run: seq<Step>)
    requires Inv(s) && InStep(s) && Possible(s, run) && AllStrict(run)
    ensures InStep(Reached(s, run))
    decreases |run|
  {
    if run != [] {
      StepKeeps(s, run[0]);
      StepInStep(s, run[0]);
      assert forall i: nat :: i < |run[1..]| ==> run[1..][i] == run[i + 1];
      KeepInStep(After(s, run[0]), run[1..]);
    }
  }

  /** The values read are those written, in order, and at most one behind. */
  lemma ReadsFollowWrites(run: seq<Step>)
    requires Possible(Initial(), run) && AllStrict(run)
    ensures var s := Reached(Initial(), run);
            s.taken <= s.written && |s.written| - |s.taken| == if s.x.full then 1 else 0
  {
    KeepInStep(Initial(), run);
  }
}
