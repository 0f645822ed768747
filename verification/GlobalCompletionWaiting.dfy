/** When a call of `wait` suspends. */
module GlobalCompletionWaiting {
  import opened Wrappers
  import opened CompletionCore
  import opened GlobalCompletion
  import opened GlobalCompletionSafety
  import opened GlobalCompletionTheorems

  // ---------------------------------------------------------------- on the core that has enrolled

  ghost predicate OwnSeen(cores: seq<CoreState>, ts: seq<Token>, t: nat) {
    Live(ts, t) && ts[t].core < |cores| ==> cores[ts[t].core].inProgress
  }

  /** A core with uncompleted work of its own knows that an event is in progress, from the enroll call on. */
  ghost predicate AllOwnSeen(s: System) { forall t: nat :: OwnSeen(s.cores, s.tokens, t) }

  lemma EnrollOwn(s: System, c: nat, inc: nat, parent: Option<nat>, recur: bool)
    requires Safe(s) && AllOwnSeen(s) && Enabled(s, DoEnroll(c, inc, parent, recur))
    ensures AllOwnSeen(AfterEnroll(s, c, inc, parent, recur))
  {
    var s' := AfterEnroll(s, c, inc, parent, recur);
    assert CoreCounted(s.cores, s.tokens, c);
    CountMeansLive(s.cores, s.tokens, c);
    forall t: nat ensures OwnSeen(s'.cores, s'.tokens, t) {
      assert OwnSeen(s.cores, s.tokens, t);
      if t == |s.tokens| && s.cores[c].count > 0 {
        var u: nat :| Live(s.tokens, u) && s.tokens[u].core == c;
        assert OwnSeen(s.cores, s.tokens, u);
      }
    }
  }

  lemma ResetOwn(s: System, c: nat, re: int)
    requires Safe(s) && Enabled(s, DoReset(c, re))
    ensures AllOwnSeen(AfterReset(s, c, re))
  {
    assert CoreInRound(s.cores, s.net, s.round, c);
    var s' := AfterReset(s, c, re);
    forall t: nat ensures OwnSeen(s'.cores, s'.tokens, t) { assert !Live(s.tokens, t); }
  }

  lemma AckOwn(s: System, re: int)
    requires Safe(s) && Enabled(s, DoResetAck(re))
    ensures AllOwnSeen(AfterResetAck(s, re))
  {
    var s' := AfterResetAck(s, re);
    assert s.round == Resetting(re);
    if !s'.round.Resetting? {
      assert Unreset(|s.cores|, s.net, re) == {};
      assert 0 !in Unreset(|s.cores|, s.net, re);
      assert CoreInRound(s.cores, s.net, s.round, 0);
    }
    forall t: nat ensures OwnSeen(s'.cores, s'.tokens, t) { assert !Live(s.tokens, t); }
  }

  /** Flags that stay up, and no work that is new. */
  lemma OwnStays(s: System, s': System)
    requires AllOwnSeen(s) && |s'.cores| == |s.cores| && |s'.tokens| == |s.tokens|
    requires forall c: nat :: c < |s.cores| && s.cores[c].inProgress ==> s'.cores[c].inProgress
    requires forall t: nat :: t < |s.tokens| ==>
               s'.tokens[t].core == s.tokens[t].core && s'.tokens[t].amount <= s.tokens[t].amount
    ensures AllOwnSeen(s')
  {
    forall t: nat ensures OwnSeen(s'.cores, s'.tokens, t) { assert OwnSeen(s.cores, s.tokens, t); }
  }

  lemma MailOwn(s: System, p: Step)
    requires AllOwnSeen(s) && Enabled(s, p) && (p.DoCancel? || p.DoReply? || p.DoAnnounce? || p.DoAnnounceAck?)
    ensures AllOwnSeen(Apply(s, p))
  {
    match p
    case DoCancel(t) => OwnStays(s, AfterCancel(s, t));
    case DoReply(t, out) => ReplyOwn(s, t, out);
    case DoAnnounce(t, c) => OwnStays(s, AfterAnnounce(s, t, c));
    case DoAnnounceAck(t) => OwnStays(s, AfterAnnounceAck(s, t));
  }

  lemma ReplyOwn(s: System, t: nat, out: int)
    requires AllOwnSeen(s) && Enabled(s, DoReply(t, out))
    ensures AllOwnSeen(AfterReply(s, t, out))
  {
    OwnStays(s, AfterReply(s, t, out));
  }

  lemma StepOwn(s: System, p: Step)
    requires Safe(s) && AllOwnSeen(s) && Enabled(s, p)
    ensures AllOwnSeen(Apply(s, p))
  {
    match p
    case DoEnroll(c, inc, parent, recur) => EnrollOwn(s, c, inc, parent, recur);
    case DoReset(c, re) => ResetOwn(s, c, re);
    case DoResetAck(re) => AckOwn(s, re);
    case DoComplete(t, dec) => OwnStays(s, AfterComplete(s, t, dec));
    case DoEnter => OwnStays(s, AfterEnter(s));
    case DoWake(c) => OwnStays(s, AfterWake(s, c));
    case DoWait(c) => OwnStays(s, AfterWait(s, c));
    case _ => MailOwn(s, p);
  }

  lemma {:induction false} RunOwn(s: System, steps: seq<Step>, s': System)
    requires Safe(s) && AllOwnSeen(s) && Follows(s, steps, s')
    ensures AllOwnSeen(s')
    decreases |steps|
  {
    if steps != [] {
      StepIsSafe(s, steps[0]);
      StepOwn(s, steps[0]);
      RunOwn(Apply(s, steps[0]), steps[1..], s');
    }
  }

  // ---------------------------------------------------------------- everywhere

  /** A first enroll whose cancel the master has not handled: other cores cannot know of it. */
  ghost predicate Unknown(ts: seq<Token>, t: nat)
    requires t < |ts|
  {
    ts[t].stage.Cancelling? && ts[t].parent.None?
  }

  /** Nobody knows of the first enroll yet, or the master counts a core, or all cores have been told. */
  lemma KnownEverywhere(s: System, t: nat, c: nat)
    requires Safe(s) && c < |s.cores| && Live(s.tokens, t) && !Unknown(s.tokens, t)
    ensures s.cores[c].inProgress || s.cores[0].coresOut > 0
  {
    assert TokenHeld(s.tokens, s.net[Enter], s.round, t);
    assert TokenSeen(s.cores, s.tokens, s.net, t, c);
    if !s.tokens[t].stage.Active? {
      match s.tokens[t].parent
      case Some(q) => assert TokenSeen(s.cores, s.tokens, s.net, q, c);
      case None =>
        forall u: nat ensures !(Pending(s.tokens, u) && s.tokens[u].stage.Cancelling? && s.tokens[u].parent.None?) {
          assert TokenHeld(s.tokens, s.net[Enter], s.round, u);
        }
        LiveIsCounted(s.cores, s.tokens, s.net[Enter], s.round, t);
        assert |Out(s.cores, s.tokens)| > 0;
    }
  }

  /** A call of `wait` on core `c` joins the list, in front. */
  ghost predicate Joins(s: System, c: nat) {
    && Enabled(s, DoWait(c))
    && var s' := Apply(s, DoWait(c));
    && |s'.joined[c]| == |s.joined[c]| + 1 && |s'.cores| == |s.cores|
    && s'.cores[c].cv == [s'.joined[c][|s.joined[c]|]] + s.cores[c].cv
    && s' == s.(cores := s.cores[c := s'.cores[c]], joined := s.joined[c := s'.joined[c]])
  }

  /** While anything is uncompleted anywhere, `wait` suspends on every core, from the moment the master
      has counted the core of a first enroll, and on that core from the enroll call on. */
  lemma WaitSuspendsWhileEnrolled(n: nat, s: System, t: nat, c: nat)
    requires Reached(n, s) && c < |s.cores| && Live(s.tokens, t)
    requires s.tokens[t].core == c || !Unknown(s.tokens, t)
    ensures Joins(s, c)
  {
    ReachedIsSafe(n, s);
    InitialIsSafe(n);
    var steps :| Follows(Initial(n), steps, s);
    assert AllOwnSeen(Initial(n)) by {
      forall u: nat ensures OwnSeen(Initial(n).cores, Initial(n).tokens, u) {}
    }
    RunOwn(Initial(n), steps, s);
    if s.tokens[t].core == c {
      assert OwnSeen(s.cores, s.tokens, t);
    } else {
      KnownEverywhere(s, t, c);
    }
  }

  /** A call of `wait` that falls through misses nothing but a first enroll, made on another core, of which
      the master has not heard. */
  lemma FallsThroughOnlyWhenIdle(n: nat, s: System, c: nat)
    requires Reached(n, s) && c < |s.cores|
    ensures FallsThrough(s, c) || Joins(s, c)
    ensures FallsThrough(s, c) ==>
      forall t: nat :: Live(s.tokens, t) ==> s.tokens[t].core != c && Unknown(s.tokens, t)
  {
    ReachedIsSafe(n, s);
    if FallsThrough(s, c) {
      forall t: nat | Live(s.tokens, t) ensures s.tokens[t].core != c && Unknown(s.tokens, t) {
        if s.tokens[t].core == c || !Unknown(s.tokens, t) { WaitSuspendsWhileEnrolled(n, s, t, c); }
      }
    }
  }
}
