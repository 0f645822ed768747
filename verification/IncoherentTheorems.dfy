/** What an acquire or release promises, whatever the order of requests and replies. */
module IncoherentTheorems {
  import opened Addressing
  import opened IncoherentRequests
  import opened Incoherent
  import opened IncoherentProtocol

  ghost predicate Ready(j: Job, s: System, buf0: seq<int>, mem0: Memory) { Good(j) && Inv(j, s, buf0, mem0) }

  ghost predicate Possible(j: Job, s: System, run: seq<Step>, buf0: seq<int>, mem0: Memory)
    requires Ready(j, s, buf0, mem0)
    decreases |run|
  {
    run == [] || (Enabled(s, run[0]) && (StepKeeps(j, s, run[0], buf0, mem0);
                                         Possible(j, After(j, s, run[0]), run[1..], buf0, mem0)))
  }

  ghost function Reached(j: Job, s: System, run: seq<Step>, buf0: seq<int>, mem0: Memory): (t: System)
    requires Ready(j, s, buf0, mem0) && Possible(j, s, run, buf0, mem0)
    ensures Ready(j, t, buf0, mem0)
    decreases |run|
  {
    if run == [] then s else
      StepKeeps(j, s, run[0], buf0, mem0);
      Reached(j, After(j, s, run[0]), run[1..], buf0, mem0)
  }

  /** A state some run of the job leads to. */
  ghost predicate IsReached(j: Job, buf0: seq<int>, mem0: Memory, s: System) {
    && Sound(j.a, j.total) && j == MakeJob(j.mode, j.a, j.total, j.local) && |buf0| == j.total
    && (MakeJobIsGood(j.mode, j.a, j.total, j.local);
        InitiallyInv(j, buf0, mem0);
        exists run :: Possible(j, Initial(j, buf0, mem0), run, buf0, mem0)
                      && s == Reached(j, Initial(j, buf0, mem0), run, buf0, mem0))
  }

  lemma ReachedIsReady(j: Job, buf0: seq<int>, mem0: Memory, s: System)
    requires IsReached(j, buf0, mem0, s)
    ensures Ready(j, s, buf0, mem0)
  {
    MakeJobIsGood(j.mode, j.a, j.total, j.local);
    InitiallyInv(j, buf0, mem0);
  }

  // ---------------------------------------------------------------- completion

  ghost predicate AllAnswered(s: System) { forall k: nat :: k < |s.at| ==> s.at[k].Done? }

  /** The flag is set exactly when the last reply has come in, unless no message was needed. */
  lemma FinishedWithTheLastReply(j: Job, buf0: seq<int>, mem0: Memory, s: System)
    requires IsReached(j, buf0, mem0, s)
    ensures s.f.finished <==> j.total == 0 || (j.a.TwoD? && j.local) || AllAnswered(s)
  {
    ReachedIsReady(j, buf0, mem0, s);
    AllDone(s.at, |s.at|);
  }

  lemma {:induction false} AnsweredIsTotal(rs: seq<Request>, a: Address, from: nat, total: nat) returns (n: nat)
    requires Tiling(rs, a, from, total)
    ensures n == Sum(rs) && from + n == total
    decreases |rs|
  {
    if rs == [] { n := 0; } else {
      n := AnsweredIsTotal(rs[1..], a, from + rs[0].bytes, total);
      n := n + rs[0].bytes;
    }
  }

  ghost function Sum(rs: seq<Request>): nat { if rs == [] then 0 else rs[0].bytes + Sum(rs[1..]) }

  lemma {:induction false} SumAtEnd(rs: seq<Request>)
    requires rs != []
    ensures Sum(rs) == Sum(rs[..|rs| - 1]) + rs[|rs| - 1].bytes
  {
    if |rs| > 1 {
      SumAtEnd(rs[1..]);
      assert rs[1..][..|rs| - 2] == rs[..|rs| - 1][1..];
    }
  }

  lemma {:induction false} AllAnsweredSum(rs: seq<Request>, at: seq<Stage>, n: nat)
    requires n <= |rs| == |at| && forall k: nat :: k < |at| ==> at[k].Done?
    ensures Answered(rs, at, n) == Sum(rs[..n])
  {
    if n > 0 {
      AllAnsweredSum(rs, at, n - 1);
      SumAtEnd(rs[..n]);
      assert rs[..n][..n - 1] == rs[..n - 1];
    }
  }

  /** When an acquire is complete, the replies carried just the bytes asked for. */
  lemma PayloadIsComplete(j: Job, buf0: seq<int>, mem0: Memory, s: System)
    requires IsReached(j, buf0, mem0, s) && j.mode.Acquire? && s.f.finished && !(j.a.TwoD? && j.local)
    ensures s.f.payload == j.total
  {
    ReachedIsReady(j, buf0, mem0, s);
    AllDone(s.at, |s.at|);
    AllAnsweredSum(j.rs, s.at, |s.at|);
    assert j.rs[..|j.rs|] == j.rs;
    MakeJobTiles(j.mode, j.a, j.total, j.local);
    var n := AnsweredIsTotal(j.rs, j.a, 0, j.total);
  }

  /** A worker that sleeps is not forgotten: a message is under way, or it has been woken. */
  lemma NobodySleepsForever(j: Job, buf0: seq<int>, mem0: Memory, s: System)
    requires IsReached(j, buf0, mem0, s) && !s.w.Returned?
    ensures exists p: Step :: Enabled(s, p)
  {
    ReachedIsReady(j, buf0, mem0, s);
    match s.w
    case Running => assert Enabled(s, Block);
    case Woken => assert Enabled(s, Resume);
    case Suspended =>
      AllDone(s.at, |s.at|);
      var k: nat :| k < |s.at| && !s.at[k].Done?;
      assert StageOk(j, s, k);
      assert Enabled(s, Handle(k)) || Enabled(s, Reply(k));
  }

  /** The worker that is remembered is the one that sleeps, until it runs again: it is woken with the last
      reply and with none before, and whoever does not sleep is not woken. */
  lemma SleeperIsRemembered(j: Job, buf0: seq<int>, mem0: Memory, s: System)
    requires IsReached(j, buf0, mem0, s)
    ensures s.f.sleeper <==> s.w.Suspended? || s.w.Woken?
    ensures s.w.Suspended? ==> s.f.started && !s.f.finished
    ensures s.w.Woken? || s.w.Returned? ==> s.f.finished
  {
    ReachedIsReady(j, buf0, mem0, s);
  }

  // ---------------------------------------------------------------- what has been moved

  /** When the worker gets back from an acquire, the buffer holds what global memory holds, and
      global memory is as it was. */
  lemma AcquiredMeansEqual(j: Job, buf0: seq<int>, mem0: Memory, s: System)
    requires IsReached(j, buf0, mem0, s) && j.mode.Acquire? && s.w.Returned? && !(j.a.TwoD? && j.local)
    ensures |s.buf| == j.total && forall x: nat :: x < j.total ==> s.buf[x] == mem0(Advance(j.a, x))
    ensures s.mem == mem0
  {
    ReachedIsReady(j, buf0, mem0, s);
    AllDone(s.at, |s.at|);
    MakeJobTiles(j.mode, j.a, j.total, j.local);
    forall x: nat | x < j.total ensures s.buf[x] == mem0(Advance(j.a, x)) {
      var k := EveryByteOnce(j.rs, j.a, 0, j.total, x);
      assert HasByte(j, k, x) && CopiedAt(j, s, mem0, k, x);
    }
  }

  ghost predicate InRange(j: Job, b: Address) { 0 <= Position(j.a, b) < j.total }

  /** When the worker gets back from a release, the range holds what the buffer holds, and nothing
      else in global memory has changed. */
  lemma ReleasedMeansEqual(j: Job, buf0: seq<int>, mem0: Memory, s: System)
    requires IsReached(j, buf0, mem0, s) && j.mode.Release? && s.w.Returned? && !(j.a.TwoD? && j.local)
    ensures s.buf == buf0
    ensures forall x: nat :: x < j.total ==> s.mem(Advance(j.a, x)) == buf0[x]
    ensures forall b :: !InRange(j, b) ==> s.mem(b) == mem0(b)
  {
    ReachedIsReady(j, buf0, mem0, s);
    AllDone(s.at, |s.at|);
    MakeJobTiles(j.mode, j.a, j.total, j.local);
    forall x: nat | x < j.total ensures s.mem(Advance(j.a, x)) == buf0[x] {
      var k := EveryByteOnce(j.rs, j.a, 0, j.total, x);
      assert HasByte(j, k, x) && WrittenAt(j, s, buf0, k, x);
    }
    forall b | !InRange(j, b) ensures s.mem(b) == mem0(b) { OutsideUntouched(j, s, buf0, mem0, b); }
  }

  lemma OutsideUntouched(j: Job, s: System, buf0: seq<int>, mem0: Memory, b: Address)
    requires Ready(j, s, buf0, mem0) && j.mode.Release? && !InRange(j, b)
    ensures s.mem(b) == mem0(b)
  {
    assert UntouchedAt(j, s, mem0, b);
    forall k: nat ensures !Touched(j, s, k, b) { assert PieceFits(j, k); }
  }
}
