/** What the documentation of GlobalCompletionEvent promises, for every run. */
module GlobalCompletionTheorems {
  import opened CompletionCore
  import opened GlobalCompletion
  import opened GlobalCompletionSafety
  import opened GlobalCompletionSteps
  import opened GlobalCompletionWaking

  lemma InitialIsSafe(n: nat)
    requires n >= 1
    ensures Inv(Initial(n))
  {
    var s := Initial(n);
    assert Out(s.cores, s.tokens) == {};
  }

  /** Permitted steps keep the safety half of the invariant, whatever wakes are still on their way. */
  lemma StepIsSafe(s: System, p: Step)
    requires Safe(s) && Enabled(s, p) && Permitted(s, p)
    ensures Safe(Apply(s, p))
  {
    match p
    case DoEnroll(c, inc, parent, recur) => KeepEnroll(s, c, inc, parent, recur);
    case DoCancel(t) => KeepCancel(s, t);
    case DoReply(t, out) => KeepReply(s, t, out);
    case DoAnnounce(t, c) => KeepAnnounce(s, t, c);
    case DoAnnounceAck(t) => KeepAnnounceAck(s, t);
    case DoComplete(t, dec) => KeepComplete(s, t, dec);
    case DoEnter => KeepEnter(s);
    case DoReset(c, re) => KeepReset(s, c, re);
    case DoResetAck(re) => KeepResetAck(s, re);
    case DoWake(c) => KeepWake(s, c);
    case DoWait(c) => KeepWait(s, c);
  }

  /** Patient steps keep all of it. */
  lemma StepWakes(s: System, p: Step)
    requires Inv(s) && Enabled(s, p) && Permitted(s, p) && Patient(s, p)
    ensures Inv(Apply(s, p))
  {
    StepIsSafe(s, p);
    match p
    case DoEnroll(c, inc, parent, recur) => EnrollWakes(s, c, inc, parent, recur);
    case DoComplete(t, dec) => CompleteWakes(s, t, dec);
    case DoEnter => EnterWakes(s);
    case DoReset(c, re) => ResetWakes(s, c, re);
    case DoResetAck(re) => ResetAckWakes(s, re);
    case DoWake(c) => WakeWakes(s, c);
    case DoWait(c) => WaitWakes(s, c);
    case _ => MailStepWakes(s, p);
  }

  lemma MailStepWakes(s: System, p: Step)
    requires Inv(s) && Enabled(s, p) && (p.DoCancel? || p.DoReply? || p.DoAnnounce? || p.DoAnnounceAck?)
    ensures Wakes(Apply(s, p))
  {
    match p
    case DoCancel(t) => CancelIsMailOnly(s, t); MailWakes(s, AfterCancel(s, t));
    case DoReply(t, out) => ReplyIsMailOnly(s, t, out); MailWakes(s, AfterReply(s, t, out));
    case DoAnnounce(t, c) => MailWakes(s, AfterAnnounce(s, t, c));
    case DoAnnounceAck(t) => MailWakes(s, AfterAnnounceAck(s, t));
  }

  lemma {:induction false} RunIsSafe(s: System, steps: seq<Step>, s': System)
    requires Safe(s) && Follows(s, steps, s')
    ensures Safe(s')
    decreases |steps|
  {
    if steps != [] {
      StepIsSafe(s, steps[0]);
      RunIsSafe(Apply(s, steps[0]), steps[1..], s');
    }
  }

  lemma {:induction false} RunWakes(s: System, steps: seq<Step>, s': System)
    requires Inv(s) && FollowsPatiently(s, steps, s')
    ensures Inv(s') && Follows(s, steps, s')
    decreases |steps|
  {
    if steps != [] {
      StepWakes(s, steps[0]);
      RunWakes(Apply(s, steps[0]), steps[1..], s');
    }
  }

  /** States reached by `n` cores whose callers keep the rules; and by patient callers. */
  ghost predicate Reached(n: nat, s: System) {
    n >= 1 && exists steps :: Follows(Initial(n), steps, s)
  }

  ghost predicate ReachedPatiently(n: nat, s: System) {
    n >= 1 && exists steps :: FollowsPatiently(Initial(n), steps, s)
  }

  lemma ReachedIsSafe(n: nat, s: System)
    requires Reached(n, s)
    ensures Safe(s)
  {
    InitialIsSafe(n);
    var steps :| Follows(Initial(n), steps, s);
    RunIsSafe(Initial(n), steps, s);
  }

  lemma PatienceKeepsAll(n: nat, s: System)
    requires ReachedPatiently(n, s)
    ensures Inv(s) && Reached(n, s)
  {
    InitialIsSafe(n);
    var steps :| FollowsPatiently(Initial(n), steps, s);
    RunWakes(Initial(n), steps, s);
  }

  // ---------------------------------------------------------------- safety

  /** No false termination. In every reachable state `cores_out` is the number of cores that
      have work and whose cancel was handled, plus the enters in flight; a phase is declared
      over only when no core has work and every enrolled unit has been completed. */
  lemma NoFalseTermination(n: nat, s: System)
    requires Reached(n, s)
    ensures s.cores != [] && s.cores[0].coresOut == |Out(s.cores, s.tokens)| + s.net[Enter]
    ensures Enter in s.net && Apply(s, DoEnter).phase > s.phase ==>
      AllDone(s.tokens) && forall c: nat :: c < |s.cores| ==> s.cores[c].count == 0
  {
    ReachedIsSafe(n, s);
    if Enter in s.net && AfterEnter(s).phase > s.phase {
      LastEnterMeansDone(s);
    }
  }

  /** The check at the start of the reset handler never fails: a reset wipes out no work. */
  lemma ResetFindsNoWork(n: nat, s: System, c: nat, re: int)
    requires Reached(n, s) && Enabled(s, DoReset(c, re))
    ensures s.cores[c].count == 0
  {
    ReachedIsSafe(n, s);
    ResetIsDue(s, c, re);
  }

  /** A call of `wait` on core `c` returns at once. */
  ghost predicate FallsThrough(s: System, c: nat) { Enabled(s, DoWait(c)) && Apply(s, DoWait(c)) == s }

  /** With no message left, no enroll call is still blocked; and if also everything is completed, no
      reset is due, nobody waits, and `wait` falls through: it changes nothing. */
  lemma NobodyBlocked(n: nat, s: System)
    requires Reached(n, s) && s.net == multiset{}
    ensures forall t: nat :: t < |s.tokens| ==> s.tokens[t].stage.Active?
    ensures AllDone(s.tokens) ==>
      && !s.round.Resetting?
      && (forall c: nat :: c < |s.cores| ==> FallsThrough(s, c) && s.cores[c].cv == [])
  {
    ReachedIsSafe(n, s);
    forall t: nat | t < |s.tokens| ensures s.tokens[t].stage.Active? {
      assert TokenPosted(|s.cores|, s.tokens, s.net, t);
      assert forall out: int :: s.net[Reply(t, out)] == 0;
      assert Unheard(|s.cores|, s.net, t) == {};
    }
    forall re: int ensures Unreset(|s.cores|, s.net, re) == {} {}
    if AllDone(s.tokens) {
      DoneMeansZero(s);
      forall c: nat | c < |s.cores| ensures FallsThrough(s, c) && s.cores[c].cv == [] {
        assert CoreOpen(s.cores, s.tokens, s.net, s.round, c);
      }
    }
  }

  // ---------------------------------------------------------------- waking

  /** For patient callers the list a reset overwrites is empty, so it forgets no waiter. */
  lemma ResetForgetsNobody(n: nat, s: System, c: nat, re: int)
    requires ReachedPatiently(n, s) && Enabled(s, DoReset(c, re))
    ensures s.cores[c].wakingCv == []
  {
    PatienceKeepsAll(n, s);
    NobodyIsParked(s, c, re);
  }

  /** No waiter is woken before every core has run the reset that ends the waiter's phase. */
  lemma WokenAfterEveryReset(n: nat, s: System, c: nat, d: nat, w: Waiter)
    requires ReachedPatiently(n, s)
    requires c < |s.cores| && d < |s.cores| && c < |s.woken| && d < |s.resets| && w in s.woken[c]
    ensures s.resets[d] > w.phase
  {
    PatienceKeepsAll(n, s);
    assert CorePhased(s.cores, s.net, s.round, s.phase, s.resets, s.woken, c);
    assert CorePhased(s.cores, s.net, s.round, s.phase, s.resets, s.woken, d);
  }

  lemma OneInJoined(joined: seq<Waiter>, i: nat)
    requires i < |joined| && forall j: nat :: j < |joined| ==> joined[j].id == j
    ensures multiset(joined)[joined[i]] == 1
  {
    var w := joined[i];
    assert joined == joined[..i] + [w] + joined[i + 1..];
  }

  /** At every moment, every wait that ever suspended is in exactly one place: on its core's list, on
      the list a reset has put aside, or woken, once. It is on the list exactly as long as its core
      has not been reset since; a later one belongs to the next phase. When the broadcast that ends a
      phase is over nobody is left aside. */
  lemma WokenExactlyOnce(n: nat, s: System, c: nat, i: nat)
    requires ReachedPatiently(n, s) && c < |s.cores|
    requires c < |s.joined| && i < |s.joined[c]| && c < |s.woken| && c < |s.resets|
    ensures var w := s.joined[c][i];
      && multiset(s.cores[c].cv)[w] + multiset(s.cores[c].wakingCv)[w] + multiset(s.woken[c])[w] == 1
      && multiset(s.cores[c].cv)[w] == (if w.phase == s.resets[c] then 1 else 0)
      && (s.round.Calm? ==> multiset(s.woken[c])[w] == if w.phase < s.resets[c] then 1 else 0)
  {
    PatienceKeepsAll(n, s);
    assert CoreWaking(s.cores, s.net, s.round, c);
    assert CorePhased(s.cores, s.net, s.round, s.phase, s.resets, s.woken, c);
    assert CoreAccounted(s.cores, s.joined, s.woken, c);
    var w := s.joined[c][i];
    OneInJoined(s.joined[c], i);
    assert w in multiset(s.woken[c]) ==> w in s.woken[c];
    assert w in multiset(s.cores[c].cv) ==> w in s.cores[c].cv;
    assert w in multiset(s.cores[c].wakingCv) ==> w in s.cores[c].wakingCv;
  }

  /** Nobody is stranded: with no message left and everything completed, the phase is over and every
      wait that ever suspended has been woken exactly once. */
  lemma NobodyStranded(n: nat, s: System)
    requires ReachedPatiently(n, s) && s.net == multiset{} && AllDone(s.tokens)
    ensures s.round.Calm?
    ensures forall c: nat :: c < |s.cores| ==> s.cores[c].cv == [] && s.cores[c].wakingCv == []
    ensures forall c: nat :: c < |s.cores| && c < |s.joined| && c < |s.woken| ==>
              multiset(s.joined[c]) == multiset(s.woken[c])
  {
    PatienceKeepsAll(n, s);
    NobodyBlocked(n, s);
    forall c: nat | c < |s.cores| && c < |s.joined| && c < |s.woken|
      ensures s.cores[c].wakingCv == [] && multiset(s.joined[c]) == multiset(s.woken[c])
    {
      assert CoreWaking(s.cores, s.net, s.round, c);
      assert CoreAccounted(s.cores, s.joined, s.woken, c);
    }
  }
}
