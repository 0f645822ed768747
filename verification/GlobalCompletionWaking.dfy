/** Steps of patient callers also keep the wake half of the invariant. */
module GlobalCompletionWaking {
  import opened Wrappers
  import opened CompletionCore
  import opened GlobalCompletion
  import opened GlobalCompletionSafety
  import opened GlobalCompletionSteps

  // ---------------------------------------------------------------- frames

  /** What the lists of waiters depend on. */
  ghost predicate SameLists(s: System, s': System) {
    && |s'.cores| == |s.cores|
    && (forall c: nat :: c < |s.cores| ==> s'.cores[c].wakingCv == s.cores[c].wakingCv && s'.cores[c].cv == s.cores[c].cv)
    && SameRoundMail(s.net, s'.net)
    && s'.round == s.round && s'.phase == s.phase
    && s'.resets == s.resets && s'.joined == s.joined && s'.woken == s.woken
  }

  lemma PhasedSame(cores: seq<CoreState>, cores': seq<CoreState>, net: multiset<Message>, net': multiset<Message>,
                   round: Round, phase: nat, resets: seq<nat>, woken: seq<seq<Waiter>>)
    requires Phased(cores, net, round, phase, resets, woken) && SameRoundMail(net, net') && |cores'| == |cores|
    requires forall c: nat :: c < |cores| ==> cores'[c].wakingCv == cores[c].wakingCv && cores'[c].cv == cores[c].cv
    ensures Phased(cores', net', round, phase, resets, woken)
  {
    forall c: nat ensures CorePhased(cores', net', round, phase, resets, woken, c) {
      assert CorePhased(cores, net, round, phase, resets, woken, c);
      if round.Resetting? {
        assert net'[Reset(c, round.re)] == net[Reset(c, round.re)];
      }
    }
  }

  lemma AccountedSame(cores: seq<CoreState>, cores': seq<CoreState>, joined: seq<seq<Waiter>>, woken: seq<seq<Waiter>>)
    requires Accounted(cores, joined, woken) && |cores'| == |cores|
    requires forall c: nat :: c < |cores| ==> cores'[c].wakingCv == cores[c].wakingCv && cores'[c].cv == cores[c].cv
    ensures Accounted(cores', joined, woken)
  {
    forall c: nat ensures CoreAccounted(cores', joined, woken, c) {
      assert CoreAccounted(cores, joined, woken, c);
    }
  }

  lemma WakingSame(cores: seq<CoreState>, cores': seq<CoreState>, ts: seq<Token>, ts': seq<Token>,
                   net: multiset<Message>, net': multiset<Message>, round: Round)
    requires WakeRounds(cores, ts, net, round) && SameRoundMail(net, net') && |cores'| == |cores|
    requires forall c: nat :: c < |cores| ==> cores'[c].wakingCv == cores[c].wakingCv
    requires round.Waking? ==> RecurringLive(ts') || (AllDone(ts') && net'[Enter] == 0)
    ensures WakeRounds(cores', ts', net', round)
  {
    forall c: nat ensures CoreWaking(cores', net', round, c) {
      assert CoreWaking(cores, net, round, c);
      assert net'[Wake(c)] == net[Wake(c)];
      if round.Resetting? {
        assert net'[Reset(c, round.re)] == net[Reset(c, round.re)];
      }
    }
    if round.Waking? {
      var c: nat :| Wake(c) in net;
      assert net'[Wake(c)] == net[Wake(c)];
    }
  }

  /** A step that leaves the lists alone keeps the wake half, if it leaves the phase's work alone too. */
  lemma WakesSame(s: System, s': System)
    requires Wakes(s) && SameLists(s, s')
    requires s.round.Waking? ==> RecurringLive(s'.tokens) || (AllDone(s'.tokens) && s'.net[Enter] == 0)
    ensures Wakes(s')
  {
    WakingSame(s.cores, s'.cores, s.tokens, s'.tokens, s.net, s'.net, s.round);
    PhasedSame(s.cores, s'.cores, s.net, s'.net, s.round, s.phase, s.resets, s.woken);
    AccountedSame(s.cores, s'.cores, s.joined, s.woken);
  }

  lemma RecurringSame(ts: seq<Token>, ts': seq<Token>)
    requires SameUnits(ts, ts') && RecurringLive(ts)
    ensures RecurringLive(ts')
  {
    var t: nat :| Live(ts, t) && ts[t].recurring;
    assert Live(ts', t) && ts'[t].recurring;
  }

  lemma AppendKeepsRecurring(ts: seq<Token>, x: Token)
    requires RecurringLive(ts)
    ensures RecurringLive(ts + [x])
  {
    var t: nat :| Live(ts, t) && ts[t].recurring;
    assert Live(ts + [x], t) && (ts + [x])[t].recurring;
  }

  // ---------------------------------------------------------------- enroll, its messages, complete

  lemma MailWakes(s: System, s': System)
    requires Wakes(s) && MailOnly(s, s')
    ensures Wakes(s')
  {
    AllDoneSame(s.tokens, s'.tokens);
    if RecurringLive(s.tokens) { RecurringSame(s.tokens, s'.tokens); }
    WakesSame(s, s');
  }

  lemma EnrollWakes(s: System, c: nat, inc: nat, parent: Option<nat>, recur: bool)
    requires Inv(s) && Enabled(s, DoEnroll(c, inc, parent, recur))
    requires Permitted(s, DoEnroll(c, inc, parent, recur)) && Patient(s, DoEnroll(c, inc, parent, recur))
    ensures Wakes(AfterEnroll(s, c, inc, parent, recur))
  {
    var s' := AfterEnroll(s, c, inc, parent, recur);
    if inc > 0 && RecurringLive(s.tokens) {
      AppendKeepsRecurring(s.tokens, s'.tokens[|s.tokens|]);
    }
    WakesSame(s, s');
  }

  lemma CompleteWakes(s: System, t: nat, dec: nat)
    requires Inv(s) && Enabled(s, DoComplete(t, dec))
    requires Permitted(s, DoComplete(t, dec)) && Patient(s, DoComplete(t, dec))
    ensures Wakes(AfterComplete(s, t, dec))
  {
    var s' := AfterComplete(s, t, dec);
    assert Live(s.tokens, t);
    if s.round.Waking? {
      var r: nat :| Live(s.tokens, r) && s.tokens[r].recurring;
      assert Live(s'.tokens, r) && s'.tokens[r].recurring;
    }
    WakesSame(s, s');
  }

  // ---------------------------------------------------------------- wait

  lemma WaitKeepsPhases(s: System, c: nat)
    requires Inv(s) && c < |s.cores|
    ensures Phased(AfterWait(s, c).cores, s.net, s.round, s.phase, s.resets, s.woken)
  {
    var s' := AfterWait(s, c);
    forall d: nat ensures CorePhased(s'.cores, s.net, s.round, s.phase, s.resets, s.woken, d) {
      assert CorePhased(s.cores, s.net, s.round, s.phase, s.resets, s.woken, d);
    }
  }

  lemma WaitKeepsAccounts(s: System, c: nat)
    requires Accounted(s.cores, s.joined, s.woken) && c < |s.cores| && c < |s.joined| && c < |s.resets|
    ensures Accounted(AfterWait(s, c).cores, AfterWait(s, c).joined, s.woken)
  {
    var s' := AfterWait(s, c);
    var w := Waiter(|s.joined[c]|, s.resets[c]);
    assert multiset(s.joined[c] + [w]) == multiset(s.joined[c]) + multiset{w};
    assert multiset([w] + s.cores[c].cv) == multiset{w} + multiset(s.cores[c].cv);
    forall d: nat ensures CoreAccounted(s'.cores, s'.joined, s.woken, d) {
      assert CoreAccounted(s.cores, s.joined, s.woken, d);
    }
  }

  lemma WaitWakes(s: System, c: nat)
    requires Inv(s) && Enabled(s, DoWait(c))
    ensures Wakes(AfterWait(s, c))
  {
    var s' := AfterWait(s, c);
    WakingSame(s.cores, s'.cores, s.tokens, s'.tokens, s.net, s'.net, s.round);
    WaitKeepsPhases(s, c);
    WaitKeepsAccounts(s, c);
  }

  // ---------------------------------------------------------------- the end of a phase

  /** When a phase ends, the wake messages of the one before have all been delivered. */
  lemma LastEnterIsCalm(s: System)
    requires Inv(s) && Enter in s.net && s.cores[0].coresOut == 1
    ensures s.round.Calm? && forall c: nat :: Wake(c) !in s.net && (c < |s.cores| ==> s.cores[c].wakingCv == [])
  {
    LastEnterMeansDone(s);
    forall c: nat ensures Wake(c) !in s.net && (c < |s.cores| ==> s.cores[c].wakingCv == []) {
      assert CoreWaking(s.cores, s.net, s.round, c);
    }
  }

  lemma LastEnterWakes(s: System)
    requires Inv(s) && Enter in s.net && s.cores[0].coresOut == 1
    ensures Wakes(AfterEnter(s))
  {
    var s' := AfterEnter(s);
    LastEnterIsCalm(s);
    LastEnterStartsRound(s);
    forall d: nat ensures CoreWaking(s'.cores, s'.net, s'.round, d) {
      assert CoreWaking(s.cores, s.net, s.round, d);
    }
    forall d: nat ensures CorePhased(s'.cores, s'.net, s'.round, s'.phase, s'.resets, s'.woken, d) {
      assert CorePhased(s.cores, s.net, s.round, s.phase, s.resets, s.woken, d);
    }
    AccountedSame(s.cores, s'.cores, s.joined, s.woken);
  }

  lemma EnterWakes(s: System)
    requires Inv(s) && Enabled(s, DoEnter)
    ensures Wakes(AfterEnter(s))
  {
    if s.cores[0].coresOut == 1 { LastEnterWakes(s); } else { WakesSame(s, AfterEnter(s)); }
  }

  /** The list a reset overwrites is empty. */
  lemma NobodyIsParked(s: System, c: nat, re: int)
    requires Inv(s) && Enabled(s, DoReset(c, re))
    ensures s.cores[c].wakingCv == []
  {
    ResetIsDue(s, c, re);
    assert CoreWaking(s.cores, s.net, s.round, c);
  }

  lemma ResetWakes(s: System, c: nat, re: int)
    requires Inv(s) && Enabled(s, DoReset(c, re))
    ensures Wakes(AfterReset(s, c, re))
  {
    var s' := AfterReset(s, c, re);
    ResetIsDue(s, c, re);
    NobodyIsParked(s, c, re);
    assert CoreInRound(s.cores, s.net, s.round, c);
    forall d: nat ensures CoreWaking(s'.cores, s'.net, s'.round, d) {
      assert CoreWaking(s.cores, s.net, s.round, d);
    }
    ResetKeepsAccounts(s, c, re);
  }

  lemma ResetKeepsAccounts(s: System, c: nat, re: int)
    requires Inv(s) && Enabled(s, DoReset(c, re))
    ensures var s' := AfterReset(s, c, re);
      && Phased(s'.cores, s'.net, s'.round, s'.phase, s'.resets, s'.woken)
      && Accounted(s'.cores, s'.joined, s'.woken)
  {
    var s' := AfterReset(s, c, re);
    ResetIsDue(s, c, re);
    NobodyIsParked(s, c, re);
    assert CoreInRound(s.cores, s.net, s.round, c);
    forall d: nat ensures CorePhased(s'.cores, s'.net, s'.round, s'.phase, s'.resets, s'.woken, d) {
      assert CorePhased(s.cores, s.net, s.round, s.phase, s.resets, s.woken, d);
    }
    forall d: nat ensures CoreAccounted(s'.cores, s'.joined, s'.woken, d) {
      assert CoreAccounted(s.cores, s.joined, s.woken, d);
    }
  }

  lemma EarlyAckWakes(s: System, re: int)
    requires Inv(s) && Enabled(s, DoResetAck(re)) && s.cores[0].wakingOut != 1
    ensures Wakes(AfterResetAck(s, re))
  {
    var s' := AfterResetAck(s, re);
    assert s.round == Resetting(re);
    forall d: nat ensures CoreWaking(s'.cores, s'.net, s'.round, d) {
      assert CoreWaking(s.cores, s.net, s.round, d);
    }
    forall d: nat ensures CorePhased(s'.cores, s'.net, s'.round, s'.phase, s'.resets, s'.woken, d) {
      assert CorePhased(s.cores, s.net, s.round, s.phase, s.resets, s.woken, d);
    }
    AccountedSame(s.cores, s'.cores, s.joined, s.woken);
  }

  /** Everyone is told to wake; what is re-enrolled is live, or nothing is. */
  lemma LastAckWakes(s: System, re: int)
    requires Inv(s) && Enabled(s, DoResetAck(re)) && s.cores[0].wakingOut == 1
    ensures Wakes(AfterResetAck(s, re))
  {
    var s' := AfterResetAck(s, re);
    LastAckMeansAllReset(s, re);
    forall d: nat ensures CoreWaking(s'.cores, s'.net, s'.round, d) {
      assert CoreWaking(s.cores, s.net, s.round, d);
    }
    assert Wake(0) in s'.net;
    if re > 0 { assert Live(s'.tokens, |s.tokens|) && s'.tokens[|s.tokens|].recurring; }
    forall d: nat ensures CorePhased(s'.cores, s'.net, s'.round, s'.phase, s'.resets, s'.woken, d) {
      assert CorePhased(s.cores, s.net, s.round, s.phase, s.resets, s.woken, d);
    }
    AccountedSame(s.cores, s'.cores, s.joined, s.woken);
  }

  lemma ResetAckWakes(s: System, re: int)
    requires Inv(s) && Enabled(s, DoResetAck(re))
    ensures Wakes(AfterResetAck(s, re))
  {
    if s.cores[0].wakingOut == 1 { LastAckWakes(s, re); } else { EarlyAckWakes(s, re); }
  }

  lemma WakeWakes(s: System, c: nat)
    requires Inv(s) && Enabled(s, DoWake(c))
    ensures Wakes(AfterWake(s, c))
  {
    var s' := AfterWake(s, c);
    assert CoreWaking(s.cores, s.net, s.round, c);
    forall d: nat ensures CoreWaking(s'.cores, s'.net, s'.round, d) {
      assert CoreWaking(s.cores, s.net, s.round, d);
    }
    forall d: nat ensures CorePhased(s'.cores, s'.net, s'.round, s'.phase, s'.resets, s'.woken, d) {
      assert CorePhased(s.cores, s.net, s.round, s.phase, s.resets, s.woken, d);
    }
    forall d: nat ensures CoreAccounted(s'.cores, s'.joined, s'.woken, d) {
      assert CoreAccounted(s.cores, s.joined, s.woken, d);
    }
  }
}
