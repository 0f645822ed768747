/** One acquire or release: requests handled and answered in any order, and the worker that waits. */
module IncoherentProtocol {
  import opened Addressing
  import opened IncoherentRequests
  import opened Incoherent

  datatype Mode = Acquire | Release

  /** `rs` are the requests the loop sends. */
  datatype Job = Job(mode: Mode, a: Address, total: nat, local: bool, rs: seq<Request>)

  datatype Worker = Running | Suspended | Woken | Returned

  /** Global memory, by address. */
  type Memory = Address -> int

  /** A request: sent to the core that holds its block, handled there with the reply on its way,
      and answered. */
  datatype Stage = Unsent | Sent | Flying(payload: seq<int>) | Done

  datatype System = System(f: Flags, w: Worker, at: seq<Stage>, buf: seq<int>, mem: Memory)

  datatype Step = Start | Block | Resume | Handle(k: nat) | Reply(k: nat)

  // ---------------------------------------------------------------- the requests of a job

  ghost predicate PieceFits(j: Job, k: nat) { k < |j.rs| ==> Fits(j.rs[k], j.a, j.total) }

  ghost predicate HasByte(j: Job, k: nat, x: nat) { k < |j.rs| && Has(j.rs[k], x) }

  ghost predicate NotShared(j: Job, k: nat, l: nat, x: nat) { HasByte(j, k, x) && HasByte(j, l, x) ==> k == l }

  ghost predicate Good(j: Job) {
    && |j.rs| == NumMessages(j.a, j.total)
    && (forall k: nat :: PieceFits(j, k))
    && (forall k: nat, l: nat, x: nat :: NotShared(j, k, l, x))
  }

  /** What `reset` and the loop make of a range. */
  ghost function MakeJob(mode: Mode, a: Address, total: nat, local: bool): Job
    requires Sound(a, total)
  {
    Job(mode, a, total, local, Requests(a, 0, total))
  }

  lemma MakeJobTiles(mode: Mode, a: Address, total: nat, local: bool)
    requires Sound(a, total)
    ensures Tiling(MakeJob(mode, a, total, local).rs, a, 0, total)
  {
    assert Advance(a, 0) == a;
    RequestsTile(a, 0, total);
  }

  lemma MakeJobIsGood(mode: Mode, a: Address, total: nat, local: bool)
    requires Sound(a, total)
    ensures Good(MakeJob(mode, a, total, local))
  {
    var j := MakeJob(mode, a, total, local);
    MakeJobTiles(mode, a, total, local);
    CountsAgree(a, 0, total);
    forall k: nat ensures PieceFits(j, k) {
      if k < |j.rs| { LaterIsBeyond(j.rs, a, 0, total, k); }
    }
    forall k: nat, l: nat, x: nat ensures NotShared(j, k, l, x) {
      if HasByte(j, k, x) && HasByte(j, l, x) {
        assert PieceFits(j, k);
        var i := EveryByteOnce(j.rs, a, 0, total, x);
      }
    }
  }

  // ---------------------------------------------------------------- steps

  ghost function Bytes(mem: Memory, r: Request): (p: seq<int>)
    ensures |p| == r.bytes && forall i: nat :: i < r.bytes ==> p[i] == mem(Advance(r.address, i))
  {
    seq(r.bytes, i requires 0 <= i => mem(Advance(r.address, i)))
  }

  /** The position of `b` in a range that starts at `a`; negative if it is outside. */
  function Position(a: Address, b: Address): int {
    match (a, b)
    case (Lin(s), Lin(t)) => t - s
    case (TwoD(c, p), TwoD(d, q)) => if c == d then q - p else -1
    case _ => -1
  }

  ghost function Stored(mem: Memory, a: Address, payload: seq<int>): Memory {
    (b: Address) => if 0 <= Position(a, b) < |payload| then payload[Position(a, b)] else mem(b)
  }

  ghost predicate StageOk(j: Job, s: System, k: nat)
    requires |s.at| == |j.rs|
  {
    k < |s.at| ==>
      && (s.at[k].Unsent? <==> IsShort(j) || !s.f.started)
      && (s.at[k].Flying? && j.mode.Acquire? ==> |s.at[k].payload| == j.rs[k].bytes)
  }

  ghost predicate Sized(j: Job, s: System) {
    && |s.buf| == j.total && |s.at| == |j.rs|
    && forall k: nat :: StageOk(j, s, k)
  }

  ghost predicate Enabled(s: System, p: Step) {
    match p
    case Start => s.w.Running?
    case Block => s.w.Running?
    case Resume => s.w.Woken?
    case Handle(k) => k < |s.at| && s.at[k].Sent?
    case Reply(k) => k < |s.at| && s.at[k].Flying?
  }

  ghost function AllSent(n: nat): seq<Stage> { seq(n, _ => Sent) }

  ghost function Starting(j: Job, s: System): System {
    if s.f.started then s else s.(f := s.f.(started := true), at := AllSent(|j.rs|))
  }

  /** The worker goes on when the flag is set, and suspends otherwise. */
  ghost function Turning(s: System): System {
    s.(f := Turned(s.f), w := if s.f.finished then Returned else Suspended)
  }

  /** The request as its core handles it: an acquire reads, a release writes. */
  ghost function Handling(j: Job, s: System, k: nat): System
    requires Good(j) && Sized(j, s) && Enabled(s, Handle(k))
  {
    assert PieceFits(j, k);
    var r := j.rs[k];
    match j.mode
    case Acquire => s.(at := s.at[k := Flying(Bytes(s.mem, r))])
    case Release => s.(at := s.at[k := Flying([])],
                       mem := Stored(s.mem, r.address, s.buf[r.offset..r.offset + r.bytes]))
  }

  ghost function Replying(j: Job, s: System, k: nat): System
    requires Good(j) && Sized(j, s) && Enabled(s, Reply(k))
  {
    assert PieceFits(j, k) && StageOk(j, s, k);
    var bytes := if j.mode.Acquire? then j.rs[k].bytes else 0;
    var buf := if j.mode.Acquire? then Overwritten(s.buf, j.rs[k].offset, s.at[k].payload) else s.buf;
    s.(at := s.at[k := Done], buf := buf, f := Replied(s.f, bytes), w := if Wakes(s.f, bytes) then Woken else s.w)
  }

  ghost function After(j: Job, s: System, p: Step): System
    requires Good(j) && Sized(j, s) && Enabled(s, p)
  {
    match p
    case Start => Starting(j, s)
    case Block => Turning(if s.f.finished then s else Starting(j, s))
    case Resume => Turning(s)
    case Handle(k) => Handling(j, s, k)
    case Reply(k) => Replying(j, s, k)
  }

  ghost function Initial(j: Job, buf: seq<int>, mem: Memory): System {
    System(Fresh(j.a, j.total, j.local), Running, seq(|j.rs|, _ => Unsent), buf, mem)
  }

  // ---------------------------------------------------------------- invariant: control

  ghost predicate IsShort(j: Job) { Short(j.a, j.total, j.local) }

  /** How many of the first `n` requests are answered, and how many bytes these account for. */
  ghost function Dones(at: seq<Stage>, n: nat): nat
    requires n <= |at|
  {
    if n == 0 then 0 else Dones(at, n - 1) + if at[n - 1].Done? then 1 else 0
  }

  ghost function Answered(rs: seq<Request>, at: seq<Stage>, n: nat): nat
    requires n <= |rs| && n <= |at|
  {
    if n == 0 then 0 else Answered(rs, at, n - 1) + if at[n - 1].Done? then rs[n - 1].bytes else 0
  }

  ghost predicate Counted(j: Job, s: System)
    requires |s.at| == |j.rs|
  {
    && s.f.messages == NumMessages(j.a, j.total) && s.f.responses == Dones(s.at, |s.at|)
    && (IsShort(j) ==> s.f.started)
    && (s.f.finished <==> IsShort(j) || Dones(s.at, |s.at|) == |s.at|)
    && (j.mode.Acquire? ==> s.f.payload == Answered(j.rs, s.at, |s.at|))
  }

  ghost predicate Waiting(s: System) {
    match s.w
    case Running => !s.f.sleeper
    case Suspended => s.f.sleeper && s.f.started && !s.f.finished
    case Woken => s.f.sleeper && s.f.finished
    case Returned => !s.f.sleeper && s.f.finished
  }

  // ---------------------------------------------------------------- invariant: data

  ghost predicate FlyingAt(j: Job, s: System, mem0: Memory, k: nat) {
    k < |s.at| && k < |j.rs| && s.at[k].Flying? ==> s.at[k].payload == Bytes(mem0, j.rs[k])
  }

  ghost predicate CopiedAt(j: Job, s: System, mem0: Memory, k: nat, x: nat) {
    k < |s.at| && s.at[k].Done? && HasByte(j, k, x) && x < |s.buf| ==> s.buf[x] == mem0(Advance(j.a, x))
  }

  ghost predicate Handled(s: System, k: nat) { k < |s.at| && (s.at[k].Flying? || s.at[k].Done?) }

  ghost predicate WrittenAt(j: Job, s: System, buf0: seq<int>, k: nat, x: nat) {
    Handled(s, k) && HasByte(j, k, x) && x < |buf0| ==> s.mem(Advance(j.a, x)) == buf0[x]
  }

  ghost predicate Touched(j: Job, s: System, k: nat, b: Address) {
    Handled(s, k) && Position(j.a, b) >= 0 && HasByte(j, k, Position(j.a, b))
  }

  ghost predicate UntouchedAt(j: Job, s: System, mem0: Memory, b: Address) {
    (forall k: nat :: !Touched(j, s, k, b)) ==> s.mem(b) == mem0(b)
  }

  ghost predicate Data(j: Job, s: System, buf0: seq<int>, mem0: Memory) {
    match j.mode
    case Acquire =>
      s.mem == mem0 && (forall k: nat :: FlyingAt(j, s, mem0, k)) && (forall k: nat, x: nat :: CopiedAt(j, s, mem0, k, x))
    case Release =>
      s.buf == buf0 && (forall k: nat, x: nat :: WrittenAt(j, s, buf0, k, x)) && (forall b :: UntouchedAt(j, s, mem0, b))
  }

  ghost predicate Control(j: Job, s: System) { Sized(j, s) && Counted(j, s) && Waiting(s) }

  ghost predicate Inv(j: Job, s: System, buf0: seq<int>, mem0: Memory) {
    Control(j, s) && Data(j, s, buf0, mem0)
  }

  // ---------------------------------------------------------------- addresses

  lemma AdvanceTwice(a: Address, x: nat, y: nat)
    ensures Advance(Advance(a, x), y) == Advance(a, x + y)
    ensures Position(a, Advance(a, x)) == x
  {
  }

  lemma PositionShift(a: Address, k: nat, b: Address, n: nat)
    ensures 0 <= Position(Advance(a, k), b) < n <==> k <= Position(a, b) < k + n
    ensures k <= Position(a, b) ==> Position(Advance(a, k), b) == Position(a, b) - k
    ensures 0 <= Position(a, b) ==> Advance(a, Position(a, b)) == b
  {
  }

  // ---------------------------------------------------------------- counting

  lemma {:induction false} NothingAnswered(rs: seq<Request>, at: seq<Stage>, n: nat)
    requires n <= |rs| == |at| && forall k: nat :: k < |at| ==> !at[k].Done?
    ensures Answered(rs, at, n) == 0 == Dones(at, n)
  {
    if n > 0 { NothingAnswered(rs, at, n - 1); }
  }

  lemma {:induction false} OneMoreAnswered(rs: seq<Request>, at: seq<Stage>, k: nat, n: nat)
    requires n <= |rs| == |at| && k < |at| && !at[k].Done?
    ensures Answered(rs, at[k := Done], n) == Answered(rs, at, n) + if k < n then rs[k].bytes else 0
    ensures Dones(at[k := Done], n) == Dones(at, n) + if k < n then 1 else 0
  {
    if n > 0 { OneMoreAnswered(rs, at, k, n - 1); }
  }

  lemma {:induction false} NoneAnswered(rs: seq<Request>, at: seq<Stage>, k: nat, st: Stage, n: nat)
    requires n <= |rs| == |at| && k < |at| && !at[k].Done? && !st.Done?
    ensures Answered(rs, at[k := st], n) == Answered(rs, at, n) && Dones(at[k := st], n) == Dones(at, n)
  {
    if n > 0 { NoneAnswered(rs, at, k, st, n - 1); }
  }

  lemma {:induction false} AllDone(at: seq<Stage>, n: nat)
    requires n <= |at|
    ensures Dones(at, n) <= n
    ensures Dones(at, n) == n <==> forall k: nat :: k < n ==> at[k].Done?
  {
    if n > 0 { AllDone(at, n - 1); }
  }

  // ---------------------------------------------------------------- every step keeps control

  lemma InitiallyInv(j: Job, buf: seq<int>, mem: Memory)
    requires Good(j) && |buf| == j.total
    ensures Inv(j, Initial(j, buf, mem), buf, mem)
  {
    var s := Initial(j, buf, mem);
    NothingAnswered(j.rs, s.at, |s.at|);
    NumMessagesPositive(j);
  }

  lemma NumMessagesPositive(j: Job)
    requires Good(j)
    ensures !IsShort(j) ==> |j.rs| > 0
  {
  }

  lemma StartControls(j: Job, s: System)
    requires Good(j) && Control(j, s)
    ensures Control(j, Starting(j, s))
  {
    var t := Starting(j, s);
    if !s.f.started {
      forall k: nat ensures StageOk(j, t, k) && (k < |s.at| ==> s.at[k].Unsent?) { assert StageOk(j, s, k); }
      NothingAnswered(j.rs, s.at, |s.at|);
      NothingAnswered(j.rs, t.at, |t.at|);
    }
  }

  lemma WorkerControls(j: Job, s: System, p: Step)
    requires Good(j) && Control(j, s) && Enabled(s, p) && (p.Block? || p.Resume?)
    ensures Control(j, After(j, s, p))
  {
    StartControls(j, s);
    var t := After(j, s, p);
    var r := if p.Block? && !s.f.finished then Starting(j, s) else s;
    forall k: nat ensures StageOk(j, t, k) { assert StageOk(j, r, k); }
  }

  lemma HandleControls(j: Job, s: System, k: nat)
    requires Good(j) && Control(j, s) && Enabled(s, Handle(k))
    ensures Control(j, Handling(j, s, k))
  {
    var t := Handling(j, s, k);
    assert StageOk(j, s, k);
    forall l: nat ensures StageOk(j, t, l) { assert StageOk(j, s, l); }
    NoneAnswered(j.rs, s.at, k, t.at[k], |s.at|);
  }

  /** The flag flips with the last reply, and not before. */
  lemma ReplyControls(j: Job, s: System, k: nat)
    requires Good(j) && Control(j, s) && Enabled(s, Reply(k))
    ensures Control(j, Replying(j, s, k))
  {
    var t := Replying(j, s, k);
    assert StageOk(j, s, k) && PieceFits(j, k);
    forall l: nat ensures StageOk(j, t, l) { assert StageOk(j, s, l); }
    OneMoreAnswered(j.rs, s.at, k, |s.at|);
    AllDone(s.at, |s.at|);
  }

  // ---------------------------------------------------------------- every step keeps the data

  lemma SameData(j: Job, s: System, t: System, buf0: seq<int>, mem0: Memory)
    requires Data(j, s, buf0, mem0) && t.buf == s.buf && t.mem == s.mem
    requires t.at == s.at || (|s.at| == |t.at| && forall k: nat :: k < |s.at| ==> s.at[k].Unsent? && t.at[k].Sent?)
    ensures Data(j, t, buf0, mem0)
  {
    if j.mode.Acquire? {
      forall k: nat ensures FlyingAt(j, t, mem0, k) { assert FlyingAt(j, s, mem0, k); }
      forall k: nat, x: nat ensures CopiedAt(j, t, mem0, k, x) { assert CopiedAt(j, s, mem0, k, x); }
    } else {
      forall k: nat, x: nat ensures WrittenAt(j, t, buf0, k, x) { assert WrittenAt(j, s, buf0, k, x); }
      forall b ensures UntouchedAt(j, t, mem0, b) {
        assert UntouchedAt(j, s, mem0, b);
        assert forall k: nat :: Touched(j, t, k, b) <==> Touched(j, s, k, b);
      }
    }
  }

  lemma StartKeeps(j: Job, s: System, buf0: seq<int>, mem0: Memory)
    requires Good(j) && Inv(j, s, buf0, mem0)
    ensures Inv(j, Starting(j, s), buf0, mem0)
  {
    StartControls(j, s);
    forall k: nat | !s.f.started && k < |s.at| ensures s.at[k].Unsent? { assert StageOk(j, s, k); }
    SameData(j, s, Starting(j, s), buf0, mem0);
  }

  lemma WorkerKeeps(j: Job, s: System, p: Step, buf0: seq<int>, mem0: Memory)
    requires Good(j) && Inv(j, s, buf0, mem0) && Enabled(s, p) && (p.Block? || p.Resume?)
    ensures Inv(j, After(j, s, p), buf0, mem0)
  {
    StartKeeps(j, s, buf0, mem0);
    WorkerControls(j, s, p);
    SameData(j, if p.Block? && !s.f.finished then Starting(j, s) else s, After(j, s, p), buf0, mem0);
  }

  lemma AcquireHandled(j: Job, s: System, k: nat, buf0: seq<int>, mem0: Memory)
    requires Good(j) && Sized(j, s) && Enabled(s, Handle(k)) && j.mode.Acquire? && Data(j, s, buf0, mem0)
    ensures Data(j, Handling(j, s, k), buf0, mem0)
  {
    var t := Handling(j, s, k);
    forall l: nat ensures FlyingAt(j, t, mem0, l) { assert FlyingAt(j, s, mem0, l); }
    forall l: nat, x: nat ensures CopiedAt(j, t, mem0, l, x) { assert CopiedAt(j, s, mem0, l, x); }
  }

  /** What handling a release changes in memory. */
  lemma StoredBytes(j: Job, s: System, k: nat, b: Address)
    requires Good(j) && Sized(j, s) && Enabled(s, Handle(k)) && j.mode.Release?
    ensures Position(j.a, b) >= 0 && HasByte(j, k, Position(j.a, b))
            ==> Position(j.a, b) < |s.buf| && Handling(j, s, k).mem(b) == s.buf[Position(j.a, b)]
    ensures !(Position(j.a, b) >= 0 && HasByte(j, k, Position(j.a, b))) ==> Handling(j, s, k).mem(b) == s.mem(b)
  {
    assert PieceFits(j, k);
    var r := j.rs[k];
    PositionShift(j.a, r.offset, b, r.bytes);
  }

  lemma ReleaseHandled(j: Job, s: System, k: nat, buf0: seq<int>, mem0: Memory)
    requires Good(j) && Sized(j, s) && Enabled(s, Handle(k)) && j.mode.Release? && Data(j, s, buf0, mem0)
    ensures Data(j, Handling(j, s, k), buf0, mem0)
  {
    var t := Handling(j, s, k);
    forall l: nat, x: nat ensures WrittenAt(j, t, buf0, l, x) {
      assert WrittenAt(j, s, buf0, l, x) && NotShared(j, k, l, x);
      AdvanceTwice(j.a, x, 0);
      StoredBytes(j, s, k, Advance(j.a, x));
    }
    forall b ensures UntouchedAt(j, t, mem0, b) {
      assert UntouchedAt(j, s, mem0, b);
      StoredBytes(j, s, k, b);
      if forall l: nat :: !Touched(j, t, l, b) {
        assert !Touched(j, t, k, b);
        forall l: nat ensures !Touched(j, s, l, b) { assert !Touched(j, t, l, b); }
      }
    }
  }

  lemma HandleKeeps(j: Job, s: System, k: nat, buf0: seq<int>, mem0: Memory)
    requires Good(j) && Inv(j, s, buf0, mem0) && Enabled(s, Handle(k))
    ensures Inv(j, Handling(j, s, k), buf0, mem0)
  {
    if j.mode.Acquire? { AcquireHandled(j, s, k, buf0, mem0); } else { ReleaseHandled(j, s, k, buf0, mem0); }
    HandleControls(j, s, k);
  }

  /** What a reply changes in the buffer. */
  lemma OverwrittenBytes(j: Job, s: System, k: nat, x: nat)
    requires Good(j) && Sized(j, s) && Enabled(s, Reply(k)) && j.mode.Acquire? && x < |s.buf|
    ensures |s.at[k].payload| == j.rs[k].bytes
    ensures |Replying(j, s, k).buf| == |s.buf|
    ensures Replying(j, s, k).buf[x] == if Has(j.rs[k], x) then s.at[k].payload[x - j.rs[k].offset] else s.buf[x]
  {
    assert PieceFits(j, k) && StageOk(j, s, k);
  }

  lemma AcquireReplied(j: Job, s: System, k: nat, buf0: seq<int>, mem0: Memory)
    requires Good(j) && Sized(j, s) && Enabled(s, Reply(k)) && j.mode.Acquire? && Data(j, s, buf0, mem0)
    ensures Data(j, Replying(j, s, k), buf0, mem0)
  {
    var t := Replying(j, s, k);
    assert PieceFits(j, k) && FlyingAt(j, s, mem0, k) && StageOk(j, s, k);
    forall l: nat ensures FlyingAt(j, t, mem0, l) { assert FlyingAt(j, s, mem0, l); }
    forall l: nat, x: nat ensures CopiedAt(j, t, mem0, l, x) {
      assert CopiedAt(j, s, mem0, l, x) && NotShared(j, k, l, x);
      if x < |s.buf| { OverwrittenBytes(j, s, k, x); }
      if HasByte(j, k, x) { AdvanceTwice(j.a, j.rs[k].offset, x - j.rs[k].offset); }
    }
  }

  lemma ReleaseReplied(j: Job, s: System, k: nat, buf0: seq<int>, mem0: Memory)
    requires Good(j) && Sized(j, s) && Enabled(s, Reply(k)) && j.mode.Release? && Data(j, s, buf0, mem0)
    ensures Data(j, Replying(j, s, k), buf0, mem0)
  {
    var t := Replying(j, s, k);
    assert forall l: nat :: Handled(t, l) <==> Handled(s, l);
    forall l: nat, x: nat ensures WrittenAt(j, t, buf0, l, x) { assert WrittenAt(j, s, buf0, l, x); }
    forall b ensures UntouchedAt(j, t, mem0, b) {
      assert UntouchedAt(j, s, mem0, b);
      assert forall l: nat :: Touched(j, t, l, b) <==> Touched(j, s, l, b);
    }
  }

  lemma ReplyKeeps(j: Job, s: System, k: nat, buf0: seq<int>, mem0: Memory)
    requires Good(j) && Inv(j, s, buf0, mem0) && Enabled(s, Reply(k))
    ensures Inv(j, Replying(j, s, k), buf0, mem0)
  {
    ReplyControls(j, s, k);
    if j.mode.Acquire? { AcquireReplied(j, s, k, buf0, mem0); } else { ReleaseReplied(j, s, k, buf0, mem0); }
  }

  lemma StepKeeps(j: Job, s: System, p: Step, buf0: seq<int>, mem0: Memory)
    requires Good(j) && Inv(j, s, buf0, mem0) && Enabled(s, p)
    ensures Inv(j, After(j, s, p), buf0, mem0)
  {
    match p
    case Start => StartKeeps(j, s, buf0, mem0);
    case Handle(k) => HandleKeeps(j, s, k, buf0, mem0);
    case Reply(k) => ReplyKeeps(j, s, k, buf0, mem0);
    case _ => WorkerKeeps(j, s, p, buf0, mem0);
  }
}
