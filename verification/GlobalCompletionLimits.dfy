/** Runs that show what goes wrong when callers break a rule: each rule is needed. */
module GlobalCompletionLimits {
  import opened Wrappers
  import opened CompletionCore
  import opened GlobalCompletion
  import opened GlobalCompletionTheorems

  // ---------------------------------------------------------------- enrolling while holding nothing

  ghost predicate Moves(s: System, p: Step, s': System) { Enabled(s, p) && Apply(s, p) == s' }

  /** Runs whose callers need not keep the rules, with the states they pass through. */
  ghost predicate FreeRun(states: seq<System>, steps: seq<Step>) {
    |states| == |steps| + 1 && forall i: nat :: i < |steps| ==> Moves(states[i], steps[i], states[i + 1])
  }

  const IDLE := CoreState(0, false, 0, 0, 0, [], [])
  const TOLD := IDLE.(inProgress := true)
  const BUSY := TOLD.(count := 1, coresOut := 1)      // core 0 after its first enroll was counted
  const FIRST := Token(0, 1, Active, None, false)
  const UNHELD := Token(1, 1, Cancelling, None, false)

  /** A two-core state that differs from the initial one in its cores, tokens and messages. */
  ghost function TwoCores(k0: CoreState, k1: CoreState, ts: seq<Token>, net: multiset<Message>): System {
    Initial(2).(cores := [k0, k1], tokens := ts, net := net)
  }

  ghost function Stop(i: nat): System {
    if i == 0 then TwoCores(IDLE, IDLE, [], multiset{})
    else if i == 1 then TwoCores(BUSY.(coresOut := 0), IDLE, [FIRST.(stage := Cancelling)], multiset{Cancel(0)})
    else if i == 2 then TwoCores(BUSY, IDLE, [FIRST.(stage := Answered(1))], multiset{Reply(0, 1)})
    else if i == 3 then TwoCores(BUSY, IDLE, [FIRST.(stage := Announcing(1))], multiset{Announce(0, 1)})
    else if i == 4 then TwoCores(BUSY, TOLD, [FIRST.(stage := Announcing(1))], multiset{AnnounceAck(0)})
    else if i == 5 then TwoCores(BUSY, TOLD, [FIRST], multiset{})
    else if i == 6 then TwoCores(BUSY, TOLD.(count := 1), [FIRST, UNHELD], multiset{Cancel(1)})
    else TwoCores(BUSY.(count := 0), TOLD.(count := 1), [FIRST.(amount := 0), UNHELD], multiset{Cancel(1), Enter})
  }

  lemma Move0()
    ensures Moves(Stop(0), DoEnroll(0, 1, None, false), Stop(1))
  {
  }

  lemma Move1()
    ensures Moves(Stop(1), DoCancel(0), Stop(2))
  {
  }

  lemma Move2()
    ensures Moves(Stop(2), DoReply(0, 1), Stop(3))
  {
    assert (set c: nat | c < 2 && c != 0 :: Announce(0, c)) == {Announce(0, 1)};
  }

  lemma Move3()
    ensures Moves(Stop(3), DoAnnounce(0, 1), Stop(4))
  {
  }

  lemma Move4()
    ensures Moves(Stop(4), DoAnnounceAck(0), Stop(5))
  {
  }

  lemma Move5()
    ensures Moves(Stop(5), DoEnroll(1, 1, None, false), Stop(6))
  {
    var s := Stop(5);
    var s' := AfterEnroll(s, 1, 1, None, false);
    assert s.cores[1] == TOLD && IsFirst(TOLD, 1) && |s.tokens| == 1;
    assert s'.cores == Stop(6).cores;
    assert s'.tokens == Stop(6).tokens;
    assert s'.net == Stop(6).net;
  }

  lemma Move6()
    ensures Moves(Stop(6), DoComplete(0, 1), Stop(7))
  {
  }

  lemma StopMoves(i: nat) returns (p: Step)
    requires i < 7
    ensures Moves(Stop(i), p, Stop(i + 1))
  {
    if i == 0 { Move0(); p := DoEnroll(0, 1, None, false); }
    else if i == 1 { Move1(); p := DoCancel(0); }
    else if i == 2 { Move2(); p := DoReply(0, 1); }
    else if i == 3 { Move3(); p := DoAnnounce(0, 1); }
    else if i == 4 { Move4(); p := DoAnnounceAck(0); }
    else if i == 5 { Move5(); p := DoEnroll(1, 1, None, false); }
    else { Move6(); p := DoComplete(0, 1); }
  }

  lemma {:induction false} RunToStop(i: nat) returns (states: seq<System>, steps: seq<Step>)
    requires i <= 7
    ensures FreeRun(states, steps) && states[0] == Stop(0) && states[|steps|] == Stop(i)
  {
    if i == 0 {
      states, steps := [Stop(0)], [];
    } else {
      states, steps := RunToStop(i - 1);
      var p := StopMoves(i - 1);
      states, steps := states + [Stop(i)], steps + [p];
    }
  }

  ghost predicate EndedEarly(s: System) { s.phase == 1 && |s.cores| == 2 && s.cores[1].count == 1 }

  /** The last move: the master's counter was 1, although core 1 has work. */
  lemma LastMove(s: System)
    requires |s.cores| == 2 && s.cores[0].coresOut == 1 && s.cores[1].count == 1 && s.phase == 0 && Enter in s.net
    ensures Moves(s, DoEnter, AfterEnter(s)) && EndedEarly(AfterEnter(s))
  {
  }

  /** Enrolling while holding nothing is what the documentation forbids: with two such enrolls
      there is a run in which the master ends the phase while core 1 still has work. */
  lemma UnheldEnrollEndsPhaseEarly()
    ensures exists states, steps :: FreeRun(states, steps) && states[0] == Initial(2) && EndedEarly(states[|steps|])
  {
    var states, steps := RunToStop(7);
    var last := states[|steps|];
    LastMove(last);
    states, steps := states + [AfterEnter(last)], steps + [DoEnter];
    assert Stop(0) == Initial(2);
    assert FreeRun(states, steps);
  }

  // ---------------------------------------------------------------- the next phase comes too soon

  const WAITER := Waiter(0, 0)
  const AWAKE := IDLE.(count := 1, inProgress := true)
  const FIRST_DONE := FIRST.(amount := 0)

  /** A state of one core on which one worker has suspended, in phase 0. */
  ghost function OneCore(k: CoreState, ts: seq<Token>, net: multiset<Message>, round: Round, phase: nat, resets: nat): System {
    System([k], ts, net, round, phase, [resets], [[WAITER]], [[]])
  }

  // A phase with a waiter ends; before its wake message is handled, a second phase begins and ends.
  ghost const HALT0: System := Initial(1)
  ghost const HALT1: System := Initial(1).(cores := [AWAKE], tokens := [FIRST.(stage := Cancelling)],
                            net := multiset{Cancel(0)})
  ghost const HALT2: System := Initial(1).(cores := [BUSY], tokens := [FIRST.(stage := Answered(1))],
                            net := multiset{Reply(0, 1)})
  ghost const HALT3: System := Initial(1).(cores := [BUSY], tokens := [FIRST], net := multiset{})
  ghost const HALT4: System := OneCore(BUSY.(cv := [WAITER]), [FIRST], multiset{}, Calm, 0, 0)
  ghost const HALT5: System := OneCore(BUSY.(cv := [WAITER], count := 0), [FIRST_DONE], multiset{Enter}, Calm, 0, 0)
  ghost const HALT6: System := OneCore(TOLD.(cv := [WAITER], wakingOut := 1), [FIRST_DONE],
                            multiset{Reset(0, 0)}, Resetting(0), 1, 0)
  ghost const HALT7: System := OneCore(IDLE.(wakingCv := [WAITER], wakingOut := 1), [FIRST_DONE],
                            multiset{ResetAck(0)}, Resetting(0), 1, 1)
  ghost const HALT8: System := OneCore(IDLE.(wakingCv := [WAITER]), [FIRST_DONE],
                            multiset{Wake(0)}, GlobalCompletion.Waking, 1, 1)
  ghost const HALT9: System := OneCore(AWAKE.(wakingCv := [WAITER]), [FIRST_DONE, FIRST.(stage := Cancelling)],
                            multiset{Wake(0), Cancel(1)}, GlobalCompletion.Waking, 1, 1)
  ghost const HALT10: System := OneCore(BUSY.(wakingCv := [WAITER]), [FIRST_DONE, FIRST.(stage := Answered(1))],
                            multiset{Wake(0), Reply(1, 1)}, GlobalCompletion.Waking, 1, 1)
  ghost const HALT11: System := OneCore(BUSY.(wakingCv := [WAITER]), [FIRST_DONE, FIRST],
                            multiset{Wake(0)}, GlobalCompletion.Waking, 1, 1)
  ghost const HALT12: System := OneCore(BUSY.(wakingCv := [WAITER], count := 0), [FIRST_DONE, FIRST_DONE],
                            multiset{Wake(0), Enter}, GlobalCompletion.Waking, 1, 1)
  ghost const HALT13: System := OneCore(TOLD.(wakingCv := [WAITER], wakingOut := 1), [FIRST_DONE, FIRST_DONE],
                            multiset{Wake(0), Reset(0, 0)}, Resetting(0), 2, 1)
  ghost const HALT14: System := OneCore(IDLE.(wakingOut := 1), [FIRST_DONE, FIRST_DONE],
                            multiset{Wake(0), ResetAck(0)}, Resetting(0), 2, 2)

  ghost predicate Goes(s: System, p: Step, s': System) { Permitted(s, p) && Moves(s, p, s') }

  lemma Go0()
    ensures Goes(HALT0, DoEnroll(0, 1, None, false), HALT1)
  {
    var s, s' := HALT0, AfterEnroll(HALT0, 0, 1, None, false);
    assert s'.cores == HALT1.cores && s'.tokens == HALT1.tokens && s'.net == HALT1.net;
    assert s'.joined == HALT1.joined && s'.woken == HALT1.woken && s'.resets == HALT1.resets;
  }

  lemma Go1()
    ensures Goes(HALT1, DoCancel(0), HALT2)
  {
  }

  lemma Go2()
    ensures Goes(HALT2, DoReply(0, 1), HALT3)
  {
  }

  lemma Go3()
    ensures Goes(HALT3, DoWait(0), HALT4)
  {
    var s, s' := HALT3, AfterWait(HALT3, 0);
    assert s.joined[0] == [] && s.resets[0] == 0 && s.joined == [[]] && [WAITER] + [] == [WAITER];
    assert s'.joined == [[WAITER]] by { assert s'.joined[0] == [WAITER]; }
    assert s'.cores == HALT4.cores && s'.tokens == HALT4.tokens && s'.net == HALT4.net;
    assert s'.joined == HALT4.joined && s'.woken == HALT4.woken && s'.resets == HALT4.resets;
  }

  lemma Go4()
    ensures Goes(HALT4, DoComplete(0, 1), HALT5)
  {
  }

  lemma SetOfOne()
    ensures ToAll(1, 0) == multiset{Reset(0, 0)} && WakeAll(1) == multiset{Wake(0)}
  {
    assert (set c: nat | c < 1 :: Reset(c, 0)) == {Reset(0, 0)};
    assert (set c: nat | c < 1 :: Wake(c)) == {Wake(0)};
  }

  lemma Go5()
    ensures Goes(HALT5, DoEnter, HALT6)
  {
    SetOfOne();
  }

  lemma Go6()
    ensures Goes(HALT6, DoReset(0, 0), HALT7)
  {
  }

  lemma Go7()
    ensures Goes(HALT7, DoResetAck(0), HALT8)
  {
    SetOfOne();
  }

  lemma Go8()
    ensures Goes(HALT8, DoEnroll(0, 1, None, false), HALT9)
  {
    var s, s' := HALT8, AfterEnroll(HALT8, 0, 1, None, false);
    assert s'.cores == HALT9.cores && s'.tokens == HALT9.tokens && s'.net == HALT9.net;
    assert s'.joined == HALT9.joined && s'.woken == HALT9.woken && s'.resets == HALT9.resets;
  }

  lemma Go9()
    ensures Goes(HALT9, DoCancel(1), HALT10)
  {
  }

  lemma Go10()
    ensures Goes(HALT10, DoReply(1, 1), HALT11)
  {
    var s, s' := HALT10, AfterReply(HALT10, 1, 1);
    assert s.tokens[1].core == 0 && |s.cores| == 1;
    assert s'.cores == HALT11.cores && s'.tokens == HALT11.tokens && s'.net == HALT11.net;
    assert s'.joined == HALT11.joined && s'.woken == HALT11.woken && s'.resets == HALT11.resets;
  }

  lemma Go11()
    ensures Goes(HALT11, DoComplete(1, 1), HALT12)
  {
  }

  lemma Go12()
    ensures Goes(HALT12, DoEnter, HALT13)
  {
    SetOfOne();
  }

  lemma Go13()
    ensures Goes(HALT13, DoReset(0, 0), HALT14)
  {
  }

  lemma Before(s: System, p: Step, s': System, steps: seq<Step>) returns (longer: seq<Step>)
    requires Goes(s, p, s') && Follows(s', steps, HALT14)
    ensures Follows(s, longer, HALT14)
  {
    longer := [p] + steps;
  }

  lemma SecondPhase() returns (steps: seq<Step>)
    ensures Follows(HALT8, steps, HALT14)
  {
    steps := [];
    Go13();
    steps := Before(HALT13, DoReset(0, 0), HALT14, steps);
    Go12();
    steps := Before(HALT12, DoEnter, HALT13, steps);
    Go11();
    steps := Before(HALT11, DoComplete(1, 1), HALT12, steps);
    Go10();
    steps := Before(HALT10, DoReply(1, 1), HALT11, steps);
    Go9();
    steps := Before(HALT9, DoCancel(1), HALT10, steps);
    Go8();
    steps := Before(HALT8, DoEnroll(0, 1, None, false), HALT9, steps);
  }

  lemma WholeRun() returns (steps: seq<Step>)
    ensures Follows(HALT0, steps, HALT14)
  {
    steps := SecondPhase();
    Go7();
    steps := Before(HALT7, DoResetAck(0), HALT8, steps);
    Go6();
    steps := Before(HALT6, DoReset(0, 0), HALT7, steps);
    Go5();
    steps := Before(HALT5, DoEnter, HALT6, steps);
    Go4();
    steps := Before(HALT4, DoComplete(0, 1), HALT5, steps);
    Go3();
    steps := Before(HALT3, DoWait(0), HALT4, steps);
    Go2();
    steps := Before(HALT2, DoReply(0, 1), HALT3, steps);
    Go1();
    steps := Before(HALT1, DoCancel(0), HALT2, steps);
    Go0();
    steps := Before(HALT0, DoEnroll(0, 1, None, false), HALT1, steps);
  }

  /** A worker that suspended and is on no list any more, without ever having been woken. */
  ghost predicate Forgotten(s: System, c: nat, w: Waiter) {
    && c < |s.cores| && c < |s.joined| && c < |s.woken|
    && w in s.joined[c] && w !in s.cores[c].cv && w !in s.cores[c].wakingCv && w !in s.woken[c]
  }

  /** The rule on callers is not enough for waking: when the next phase begins, and ends, before a wake
      message has been delivered, the reset overwrites the list set aside and its waiters are lost. */
  lemma ImpatienceForgetsAWaiter()
    ensures exists s: System, c: nat, w: Waiter :: Reached(1, s) && Forgotten(s, c, w)
  {
    var steps := WholeRun();
    assert Follows(Initial(1), steps, HALT14);
    assert Reached(1, HALT14) && Forgotten(HALT14, 0, WAITER);
  }
}
