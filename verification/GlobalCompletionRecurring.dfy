/** Recurring work: what is enrolled once comes back in every phase, until something else is enrolled. */
module GlobalCompletionRecurring {
  import opened Wrappers
  import opened CompletionCore
  import opened GlobalCompletion
  import opened GlobalCompletionSafety
  import opened GlobalCompletionSteps
  import opened GlobalCompletionTheorems

  /** The amount that recurs: the one enrolled last as recurring. */
  ghost function Renewal(re: nat, p: Step): nat { if p.DoEnroll? && p.recur then p.inc else re }

  ghost function Renewed(re: nat, steps: seq<Step>): nat
    decreases |steps|
  {
    if steps == [] then re else Renewed(Renewal(re, steps[0]), steps[1..])
  }

  /** The master remembers it; while cores are being reset, the reset messages carry it. */
  ghost predicate Remembers(s: System, re: nat) {
    |s.cores| > 0 &&
    if s.round.Resetting? then
      s.round.re == re && (!ResetDue(s.net, s.round, 0) ==> s.cores[0].reenroll == 0)
    else
      s.cores[0].reenroll == re
  }

  lemma NoEnrollWhileResetting(s: System, c: nat, inc: nat, parent: Option<nat>, recur: bool)
    requires Safe(s) && Permitted(s, DoEnroll(c, inc, parent, recur))
    ensures !s.round.Resetting?
  {
  }

  lemma EnrollRemembers(s: System, c: nat, inc: nat, parent: Option<nat>, recur: bool, re: nat)
    requires Safe(s) && Enabled(s, DoEnroll(c, inc, parent, recur)) && Permitted(s, DoEnroll(c, inc, parent, recur))
    requires Remembers(s, re)
    ensures Remembers(AfterEnroll(s, c, inc, parent, recur), if recur then inc else re)
  {
    NoEnrollWhileResetting(s, c, inc, parent, recur);
  }

  lemma EnterRemembers(s: System, re: nat)
    requires Safe(s) && Enabled(s, DoEnter) && Remembers(s, re)
    ensures Remembers(AfterEnter(s), re) && !s.round.Resetting?
    ensures AfterEnter(s).phase > s.phase ==> AfterEnter(s).round == Resetting(re)
  {
    var t := AfterEnter(s);
    if t.phase > s.phase {
      LastEnterSendsResets(s, 0, re);
    }
  }

  lemma ResetRemembers(s: System, c: nat, r: int, re: nat)
    requires Safe(s) && Enabled(s, DoReset(c, r)) && Remembers(s, re)
    ensures Remembers(AfterReset(s, c, r), re)
  {
    assert CoreInRound(s.cores, s.net, s.round, c);
    assert s.round == Resetting(r);
    var t := AfterReset(s, c, r);
    if c != 0 { assert ResetDue(t.net, t.round, 0) <==> ResetDue(s.net, s.round, 0); }
  }

  /** The last acknowledgement finds every core reset. */
  lemma LastAck(s: System, r: int)
    requires Safe(s) && Enabled(s, DoResetAck(r)) && !Apply(s, DoResetAck(r)).round.Resetting?
    ensures s.round == Resetting(r) && forall c: nat :: c < |s.cores| ==> Reset(c, r) !in s.net
  {
    assert s.round == Resetting(r);
    assert Unreset(|s.cores|, s.net, r) == {};
    forall c: nat | c < |s.cores| ensures Reset(c, r) !in s.net { assert c !in Unreset(|s.cores|, s.net, r); }
  }

  lemma AckRemembers(s: System, r: int, re: nat)
    requires Safe(s) && Enabled(s, DoResetAck(r)) && Remembers(s, re)
    ensures Remembers(AfterResetAck(s, r), re)
  {
    var t := AfterResetAck(s, r);
    if t.round.Resetting? {
      assert ResetDue(t.net, t.round, 0) <==> ResetDue(s.net, s.round, 0);
    } else {
      LastAck(s, r);
    }
  }

  /** Other steps do not concern it. */
  lemma Unconcerned(s: System, s': System, re: nat)
    requires Remembers(s, re) && |s'.cores| == |s.cores| && s'.cores[0].reenroll == s.cores[0].reenroll
    requires s'.round == s.round || (s.round.Waking? && s'.round.Calm?)
    requires Reset(0, re) in s'.net <==> Reset(0, re) in s.net
    ensures Remembers(s', re)
  {
  }

  lemma MailRemembers(s: System, p: Step, re: nat)
    requires Enabled(s, p) && Remembers(s, re) && (p.DoCancel? || p.DoReply? || p.DoAnnounce? || p.DoAnnounceAck?)
    ensures Remembers(Apply(s, p), re)
  {
    match p
    case DoCancel(t) => Unconcerned(s, AfterCancel(s, t), re);
    case DoReply(t, out) => Unconcerned(s, AfterReply(s, t, out), re);
    case DoAnnounce(t, c) => Unconcerned(s, AfterAnnounce(s, t, c), re);
    case DoAnnounceAck(t) => Unconcerned(s, AfterAnnounceAck(s, t), re);
  }

  lemma StepRemembers(s: System, p: Step, re: nat)
    requires Safe(s) && Enabled(s, p) && Permitted(s, p) && Remembers(s, re)
    ensures Remembers(Apply(s, p), Renewal(re, p))
  {
    match p
    case DoEnroll(c, inc, parent, recur) => EnrollRemembers(s, c, inc, parent, recur, re);
    case DoEnter => EnterRemembers(s, re);
    case DoReset(c, r) => ResetRemembers(s, c, r, re);
    case DoResetAck(r) => AckRemembers(s, r, re);
    case DoComplete(t, dec) => Unconcerned(s, AfterComplete(s, t, dec), re);
    case DoWake(c) => Unconcerned(s, AfterWake(s, c), re);
    case DoWait(c) => Unconcerned(s, AfterWait(s, c), re);
    case _ => MailRemembers(s, p, re);
  }

  lemma {:induction false} RunRemembers(s: System, steps: seq<Step>, s': System, re: nat)
    requires Safe(s) && Follows(s, steps, s') && Remembers(s, re)
    ensures Safe(s') && Remembers(s', Renewed(re, steps))
    decreases |steps|
  {
    if steps != [] {
      StepIsSafe(s, steps[0]);
      StepRemembers(s, steps[0], re);
      RunRemembers(Apply(s, steps[0]), steps[1..], s', Renewal(re, steps[0]));
    }
  }

  /** In every run, the master has in mind the amount enrolled last as recurring, and nothing else. */
  lemma RecurringIsRemembered(n: nat, steps: seq<Step>, s: System)
    requires n >= 1 && Follows(Initial(n), steps, s)
    ensures |s.cores| > 0
    ensures !s.round.Resetting? ==> s.cores[0].reenroll == Renewed(0, steps)
    ensures s.round.Resetting? ==> s.round.re == Renewed(0, steps)
  {
    InitialIsSafe(n);
    RunRemembers(Initial(n), steps, s, 0);
  }

  /** When the last core has acknowledged its reset, exactly this amount is enrolled on the master, as if
      its enroll calls had returned on all cores; with none, nothing is enrolled anywhere. */
  lemma PhaseRecurs(n: nat, steps: seq<Step>, s: System, r: int)
    requires n >= 1 && Follows(Initial(n), steps, s) && Enabled(s, DoResetAck(r))
    requires !Apply(s, DoResetAck(r)).round.Resetting?
    ensures var t, re := Apply(s, DoResetAck(r)), Renewed(0, steps);
            && |t.cores| == |s.cores| > 0 && t.cores[0].count == re && t.cores[0].reenroll == re
            && t.cores[0].coresOut == (if re > 0 then 1 else 0)
            && t.tokens == s.tokens + (if re > 0 then [Token(0, re, Active, None, true)] else [])
            && forall c: nat :: c < |t.cores| ==> t.cores[c].inProgress == (re > 0)
  {
    InitialIsSafe(n);
    RunRemembers(Initial(n), steps, s, 0);
    AckFindsAllClear(s, r);
    RecurringIsRemembered(n, steps, s);
  }

  lemma AckFindsAllClear(s: System, r: int)
    requires Safe(s) && Enabled(s, DoResetAck(r)) && !Apply(s, DoResetAck(r)).round.Resetting?
    ensures s.round == Resetting(r) && s.cores[0].count == 0 && s.cores[0].coresOut == 0
    ensures forall c: nat :: c < |s.cores| ==> s.cores[c].inProgress == (r != 0)
    ensures !ResetDue(s.net, s.round, 0)
  {
    LastAck(s, r);
    forall c: nat | c < |s.cores| ensures s.cores[c].inProgress == (r != 0) && s.cores[c].count == 0 {
      assert CoreInRound(s.cores, s.net, s.round, c);
      assert CoreCounted(s.cores, s.tokens, c);
      CountMeansLive(s.cores, s.tokens, c);
    }
    assert Out(s.cores, s.tokens) == {};
  }

  // ---------------------------------------------------------------- phase after phase

  /** How often work has recurred. */
  ghost function Recurrences(ts: seq<Token>): nat
    decreases |ts|
  {
    if ts == [] then 0 else Recurrences(ts[..|ts| - 1]) + if ts[|ts| - 1].recurring then 1 else 0
  }

  lemma RecurrencesAppend(ts: seq<Token>, t: Token)
    ensures Recurrences(ts + [t]) == Recurrences(ts) + if t.recurring then 1 else 0
  {
    assert (ts + [t])[..|ts|] == ts;
  }

  lemma {:induction false} RecurrencesUpdate(ts: seq<Token>, i: nat, t: Token)
    requires i < |ts| && t.recurring == ts[i].recurring
    ensures Recurrences(ts[i := t]) == Recurrences(ts)
    decreases |ts|
  {
    var n := |ts| - 1;
    if i == n {
      assert ts[i := t][..n] == ts[..n];
    } else {
      assert ts[i := t][..n] == ts[..n][i := t];
      RecurrencesUpdate(ts[..n], i, t);
    }
  }

  /** Phases that end in a run while work recurs. */
  ghost function PhaseEnds(s: System, steps: seq<Step>, s': System, re: nat): nat
    requires Follows(s, steps, s')
    decreases |steps|
  {
    if steps == [] then 0 else
      (if Apply(s, steps[0]).phase > s.phase && re > 0 then 1 else 0)
      + PhaseEnds(Apply(s, steps[0]), steps[1..], s', Renewal(re, steps[0]))
  }

  /** Work that has recurred, and work about to. */
  ghost function Due(s: System): nat {
    Recurrences(s.tokens) + if s.round.Resetting? && s.round.re > 0 then 1 else 0
  }

  /** Only the last acknowledgement adds recurring work, and only the last enter makes it due. */
  lemma DueOtherwise(s: System, p: Step)
    requires Enabled(s, p) && !p.DoEnter? && !p.DoResetAck?
    ensures Due(Apply(s, p)) == Due(s) && Apply(s, p).phase == s.phase
  {
    match p
    case DoEnroll(c, inc, parent, recur) =>
      var k := if recur then s.cores[c].(reenroll := inc) else s.cores[c];
      RecurrencesAppend(s.tokens, Token(c, inc, if IsFirst(k, inc) then Cancelling else Active, parent, false));
    case DoCancel(t) => RecurrencesUpdate(s.tokens, t, AfterCancel(s, t).tokens[t]);
    case DoReply(t, out) => RecurrencesUpdate(s.tokens, t, AfterReply(s, t, out).tokens[t]);
    case DoAnnounceAck(t) => RecurrencesUpdate(s.tokens, t, AfterAnnounceAck(s, t).tokens[t]);
    case DoComplete(t, dec) => RecurrencesUpdate(s.tokens, t, AfterComplete(s, t, dec).tokens[t]);
    case _ =>
  }

  lemma DueStep(s: System, p: Step, re: nat)
    requires Safe(s) && Enabled(s, p) && Permitted(s, p) && Remembers(s, re)
    ensures Due(Apply(s, p)) == Due(s) + if Apply(s, p).phase > s.phase && re > 0 then 1 else 0
  {
    match p
    case DoEnter => EnterRemembers(s, re);
    case DoResetAck(r) =>
      RecurrencesAppend(s.tokens, Token(0, if r > 0 then r else 0, Active, None, true));
      assert s.round == Resetting(r);
    case _ => DueOtherwise(s, p);
  }

  lemma {:induction false} DueAlong(s: System, steps: seq<Step>, s': System, re: nat)
    requires Safe(s) && Follows(s, steps, s') && Remembers(s, re)
    ensures Due(s') == Due(s) + PhaseEnds(s, steps, s', re)
    decreases |steps|
  {
    if steps != [] {
      StepIsSafe(s, steps[0]);
      StepRemembers(s, steps[0], re);
      DueStep(s, steps[0], re);
      DueAlong(Apply(s, steps[0]), steps[1..], s', Renewal(re, steps[0]));
    }
  }

  /** In every run, recurring work has been enrolled again just once for each phase that ended while an
      amount was recurring, not counting one whose cores are still being reset. */
  lemma RecursEveryPhase(n: nat, steps: seq<Step>, s: System)
    requires n >= 1 && Follows(Initial(n), steps, s)
    ensures Recurrences(s.tokens) + (if s.round.Resetting? && s.round.re > 0 then 1 else 0)
         == PhaseEnds(Initial(n), steps, s, 0)
  {
    InitialIsSafe(n);
    DueAlong(Initial(n), steps, s, 0);
  }
}
