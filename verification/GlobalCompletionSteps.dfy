/** Every permitted step of the completion protocol keeps the safety half of the invariant. One group
    of lemmas says which parts of it a change leaves alone; then each step has its own lemmas. */
module GlobalCompletionSteps {
  import opened Wrappers
  import opened CompletionCore
  import opened GlobalCompletion
  import opened GlobalCompletionSafety

  // ---------------------------------------------------------------- frames

  ghost predicate SameCounts(cores: seq<CoreState>, cores': seq<CoreState>) {
    |cores'| == |cores| && forall c: nat :: c < |cores| ==> cores'[c].count == cores[c].count
  }

  /** Stages may change, units and cores may not. */
  ghost predicate SameUnits(ts: seq<Token>, ts': seq<Token>) {
    && |ts'| == |ts|
    && forall t: nat :: t < |ts| ==> ts'[t] == ts[t].(stage := ts'[t].stage)
  }

  ghost predicate SameEnrollMail(net: multiset<Message>, net': multiset<Message>) {
    forall m: Message :: m.Cancel? || m.Reply? || m.Announce? || m.AnnounceAck? ==> net'[m] == net[m]
  }

  ghost predicate SameRoundMail(net: multiset<Message>, net': multiset<Message>) {
    forall m: Message :: m.Reset? || m.ResetAck? || m.Wake? ==> net'[m] == net[m]
  }

  lemma {:induction false} UnitsSame(ts: seq<Token>, ts': seq<Token>, c: nat)
    requires SameUnits(ts, ts')
    ensures Units(ts', c) == Units(ts, c)
  {
    if ts != [] {
      UnitsSame(ts[..|ts| - 1], ts'[..|ts| - 1], c);
    }
  }

  lemma CountedSame(cores: seq<CoreState>, cores': seq<CoreState>, ts: seq<Token>, ts': seq<Token>)
    requires Counted(cores, ts) && SameCounts(cores, cores') && SameUnits(ts, ts')
    ensures Counted(cores', ts')
  {
    forall c: nat ensures CoreCounted(cores', ts', c) {
      assert CoreCounted(cores, ts, c);
      UnitsSame(ts, ts', c);
    }
  }

  lemma OutSame(cores: seq<CoreState>, cores': seq<CoreState>, ts: seq<Token>, ts': seq<Token>)
    requires SameCounts(cores, cores') && SameUnits(ts, ts')
    requires forall t: nat :: t < |ts| ==> ts'[t].stage.Cancelling? == ts[t].stage.Cancelling?
    ensures Out(cores', ts') == Out(cores, ts)
  {
    forall c: nat ensures CancelInFlight(ts', c) == CancelInFlight(ts, c) {
      if t: nat :| t < |ts| && ts[t].core == c && ts[t].stage.Cancelling? {
        assert ts'[t].core == c && ts'[t].stage.Cancelling?;
      }
      if t: nat :| t < |ts'| && ts'[t].core == c && ts'[t].stage.Cancelling? {
        assert ts[t].core == c && ts[t].stage.Cancelling?;
      }
    }
  }

  lemma AllDoneSame(ts: seq<Token>, ts': seq<Token>)
    requires SameUnits(ts, ts')
    ensures AllDone(ts') == AllDone(ts)
  {
    assert forall t: nat :: Live(ts', t) == Live(ts, t);
  }

  lemma PostedSame(n: nat, ts: seq<Token>, net: multiset<Message>, net': multiset<Message>)
    requires Posted(n, ts, net) && SameEnrollMail(net, net')
    ensures Posted(n, ts, net')
  {
    forall t: nat ensures TokenPosted(n, ts, net', t) {
      assert TokenPosted(n, ts, net, t);
      forall c: nat ensures net'[Announce(t, c)] == net[Announce(t, c)] {}
      assert Unheard(n, net', t) == Unheard(n, net, t);
      assert net'[AnnounceAck(t)] == net[AnnounceAck(t)];
    }
  }

  ghost predicate SameResetMail(net: multiset<Message>, net': multiset<Message>) {
    forall m: Message :: m.Reset? || m.ResetAck? ==> net'[m] == net[m]
  }

  /** The reset round does not care about counts, about flags outside a reset, or about wakes. */
  lemma RoundsSame(cores: seq<CoreState>, cores': seq<CoreState>, net: multiset<Message>, net': multiset<Message>,
                   round: Round)
    requires Rounds(cores, net, round) && SameResetMail(net, net') && |cores'| == |cores|
    requires cores'[0].wakingOut == cores[0].wakingOut
    requires round.Resetting? ==> forall c: nat :: c < |cores| ==> cores'[c].inProgress == cores[c].inProgress
    ensures Rounds(cores', net', round)
  {
    forall c: nat ensures CoreInRound(cores', net', round, c) {
      assert CoreInRound(cores, net, round, c);
      forall r: int ensures net'[Reset(c, r)] == net[Reset(c, r)] {}
    }
    forall r: int | ResetAck(r) in net' ensures round == Resetting(r) {
      assert net'[ResetAck(r)] == net[ResetAck(r)];
    }
    if round.Resetting? {
      forall c: nat ensures net'[Reset(c, round.re)] == net[Reset(c, round.re)] {}
      assert Unreset(|cores|, net', round.re) == Unreset(|cores|, net, round.re);
      assert net'[ResetAck(round.re)] == net[ResetAck(round.re)];
    }
  }

  // ---------------------------------------------------------------- wait

  lemma WaitKeepsFlags(s: System, c: nat)
    requires Safe(s) && c < |s.cores|
    ensures Flags(AfterWait(s, c).cores, s.tokens, s.net, s.round)
  {
    var cores' := AfterWait(s, c).cores;
    forall d: nat ensures CoreOpen(cores', s.tokens, s.net, s.round, d) {
      assert CoreOpen(s.cores, s.tokens, s.net, s.round, d);
      if d == c && s.cores[0].coresOut > 0 && s.net[Enter] == 0 {
        assert |Out(s.cores, s.tokens)| > 0;
        var e :| e in Out(s.cores, s.tokens);
        assert CoreCounted(s.cores, s.tokens, e);
        CountMeansLive(s.cores, s.tokens, e);
      }
    }
    forall t: nat, d: nat ensures TokenSeen(cores', s.tokens, s.net, t, d) {
      assert TokenSeen(s.cores, s.tokens, s.net, t, d);
    }
  }

  lemma KeepWait(s: System, c: nat)
    requires Safe(s) && Enabled(s, DoWait(c))
    ensures Safe(AfterWait(s, c))
  {
    var s' := AfterWait(s, c);
    CountedSame(s.cores, s'.cores, s.tokens, s'.tokens);
    OutSame(s.cores, s'.cores, s.tokens, s'.tokens);
    RoundsSame(s.cores, s'.cores, s.net, s'.net, s.round);
    WaitKeepsFlags(s, c);
  }

  // ---------------------------------------------------------------- the messages of enroll

  lemma PendingMeansBusy(s: System, t: nat)
    requires Safe(s) && Pending(s.tokens, t)
    ensures Live(s.tokens, t) && !AllDone(s.tokens) && !s.round.Resetting?
  {
    assert TokenHeld(s.tokens, s.net[Enter], s.round, t);
  }

  /** A change of stage keeps the caller rule if it asks for no more than the old stage did. */
  lemma HeldSame(ts: seq<Token>, ts': seq<Token>, enters: nat, round: Round, t: nat)
    requires Held(ts, enters, round) && SameUnits(ts, ts') && Pending(ts, t)
    requires forall u: nat :: u < |ts| && u != t ==> ts'[u] == ts[u]
    requires !ts'[t].stage.Cancelling?
    requires ts'[t].stage.Answered? && ts[t].parent.None? ==> ts'[t].stage.out == 1
    ensures Held(ts', enters, round)
  {
    forall u: nat ensures TokenHeld(ts', enters, round, u) {
      assert TokenHeld(ts, enters, round, u);
      assert forall v: nat :: Live(ts', v) == Live(ts, v);
    }
  }

  /** Mail about one token does not concern the others. */
  lemma OthersPosted(n: nat, ts: seq<Token>, ts': seq<Token>, net: multiset<Message>, net': multiset<Message>, t: nat)
    requires Posted(n, ts, net) && |ts| <= |ts'|
    requires forall u: nat :: u < |ts'| && u != t ==> u < |ts| && ts'[u].stage == ts[u].stage
    requires forall m: Message :: (m.Cancel? || m.Reply? || m.Announce? || m.AnnounceAck?) && m.tok != t ==> net'[m] == net[m]
    requires TokenPosted(n, ts', net', t)
    ensures Posted(n, ts', net')
  {
    forall u: nat | u != t ensures TokenPosted(n, ts', net', u) {
      assert TokenPosted(n, ts, net, u);
      forall c: nat ensures net'[Announce(u, c)] == net[Announce(u, c)] {}
      assert Unheard(n, net', u) == Unheard(n, net, u);
      assert net'[AnnounceAck(u)] == net[AnnounceAck(u)];
    }
  }

  /** The messages of an enroll call change flags, the master's counter and stages only. */
  ghost predicate MailOnly(s: System, s': System) {
    && |s'.cores| == |s.cores|
    && (forall c: nat :: c < |s.cores| ==>
          s'.cores[c] == s.cores[c].(inProgress := s'.cores[c].inProgress, coresOut := s'.cores[c].coresOut))
    && SameUnits(s.tokens, s'.tokens)
    && SameRoundMail(s.net, s'.net) && s'.net[Enter] == s.net[Enter]
    && s'.round == s.round && s'.phase == s.phase
    && s'.resets == s.resets && s'.joined == s.joined && s'.woken == s.woken
  }

  lemma MailOnlyKeeps(s: System, s': System, t: nat)
    requires Safe(s) && MailOnly(s, s') && Pending(s.tokens, t)
    ensures Shape(s') && Counted(s'.cores, s'.tokens) && Quiet(s'.tokens, s'.net[Enter], s'.round)
    ensures Rounds(s'.cores, s'.net, s'.round)
    ensures forall d: nat :: CoreOpen(s'.cores, s'.tokens, s'.net, s'.round, d)
  {
    PendingMeansBusy(s, t);
    CountedSame(s.cores, s'.cores, s.tokens, s'.tokens);
    AllDoneSame(s.tokens, s'.tokens);
    RoundsSame(s.cores, s'.cores, s.net, s'.net, s.round);
    forall d: nat ensures CoreOpen(s'.cores, s'.tokens, s'.net, s'.round, d) {}
  }

  lemma AnnounceKeepsPosted(n: nat, ts: seq<Token>, net: multiset<Message>, t: nat, c: nat)
    requires Posted(n, ts, net) && Announce(t, c) in net
    ensures Posted(n, ts, net - multiset{Announce(t, c)} + multiset{AnnounceAck(t)})
  {
    var net' := net - multiset{Announce(t, c)} + multiset{AnnounceAck(t)};
    forall u: nat ensures TokenPosted(n, ts, net', u) {
      assert TokenPosted(n, ts, net, u);
      assert Unheard(n, net', u) == if u == t then Unheard(n, net, u) - {c} else Unheard(n, net, u);
    }
  }

  lemma KeepAnnounce(s: System, t: nat, c: nat)
    requires Safe(s) && Enabled(s, DoAnnounce(t, c))
    ensures Safe(AfterAnnounce(s, t, c))
  {
    var s' := AfterAnnounce(s, t, c);
    var n := |s.cores|;
    assert TokenPosted(n, s.tokens, s.net, t);
    MailOnlyKeeps(s, s', t);
    OutSame(s.cores, s'.cores, s.tokens, s'.tokens);
    AnnounceKeepsPosted(n, s.tokens, s.net, t, c);
    forall u: nat, d: nat ensures TokenSeen(s'.cores, s.tokens, s'.net, u, d) {
      assert TokenSeen(s.cores, s.tokens, s.net, u, d);
    }
  }

  lemma KeepAnnounceAck(s: System, t: nat)
    requires Safe(s) && Enabled(s, DoAnnounceAck(t))
    ensures Safe(AfterAnnounceAck(s, t))
  {
    var s' := AfterAnnounceAck(s, t);
    assert TokenPosted(|s.cores|, s.tokens, s.net, t);
    MailOnlyKeeps(s, s', t);
    OutSame(s.cores, s'.cores, s.tokens, s'.tokens);
    HeldSame(s.tokens, s'.tokens, s.net[Enter], s.round, t);
    AnnounceAckKeepsPosted(s, t);
    forall u: nat, d: nat ensures TokenSeen(s'.cores, s'.tokens, s'.net, u, d) {
      assert TokenSeen(s.cores, s.tokens, s.net, u, d);
      assert TokenPosted(|s.cores|, s'.tokens, s'.net, t);
    }
  }

  lemma AnnounceAckKeepsPosted(s: System, t: nat)
    requires Safe(s) && Enabled(s, DoAnnounceAck(t))
    ensures Posted(|s.cores|, AfterAnnounceAck(s, t).tokens, AfterAnnounceAck(s, t).net)
  {
    var s' := AfterAnnounceAck(s, t);
    var n := |s.cores|;
    forall u: nat ensures TokenPosted(n, s'.tokens, s'.net, u) {
      assert TokenPosted(n, s.tokens, s.net, u);
      assert Unheard(n, s'.net, u) == Unheard(n, s.net, u);
      if u == t && s'.tokens[t].stage.Active? {
        forall c: nat ensures Announce(t, c) !in s'.net {
          assert c !in Unheard(n, s.net, t);
        }
      }
    }
  }

  ghost function UpTo(n: nat): (r: set<nat>)
    ensures |r| == n && forall c: nat :: c in r <==> c < n
  {
    if n == 0 then {} else UpTo(n - 1) + {n - 1}
  }

  lemma ReplyPosts(n: nat, ts: seq<Token>, net: multiset<Message>, t: nat, out: int)
    requires TokenPosted(n, ts, net, t) && Reply(t, out) in net && t < |ts| && ts[t].core < n
    ensures out == 1 && n > 1 ==>
      TokenPosted(n, ts[t := ts[t].(stage := Announcing(n - 1))],
                  net - multiset{Reply(t, out)} + AnnounceOthers(n, t, ts[t].core), t)
    ensures TokenPosted(n, ts[t := ts[t].(stage := Active)], net - multiset{Reply(t, out)}, t)
  {
    if out == 1 && n > 1 {
      var net' := net - multiset{Reply(t, out)} + AnnounceOthers(n, t, ts[t].core);
      assert Unheard(n, net', t) == UpTo(n) - {ts[t].core};
    }
  }

  lemma ReplyKeepsPosted(s: System, t: nat, out: int)
    requires Safe(s) && Enabled(s, DoReply(t, out))
    ensures Posted(|s.cores|, AfterReply(s, t, out).tokens, AfterReply(s, t, out).net)
  {
    var s' := AfterReply(s, t, out);
    assert TokenPosted(|s.cores|, s.tokens, s.net, t);
    ReplyPosts(|s.cores|, s.tokens, s.net, t, out);
    OthersPosted(|s.cores|, s.tokens, s'.tokens, s.net, s'.net, t);
  }

  lemma ReplyKeepsSeen(s: System, t: nat, out: int)
    requires Safe(s) && Enabled(s, DoReply(t, out))
    ensures var s' := AfterReply(s, t, out); forall u: nat, d: nat :: TokenSeen(s'.cores, s'.tokens, s'.net, u, d)
  {
    var s' := AfterReply(s, t, out);
    assert TokenPosted(|s.cores|, s.tokens, s.net, t);
    assert TokenHeld(s.tokens, s.net[Enter], s.round, t);
    forall u: nat, d: nat ensures TokenSeen(s'.cores, s'.tokens, s'.net, u, d) {
      assert TokenSeen(s.cores, s.tokens, s.net, u, d);
      if u == t && out != 1 {
        assert TokenSeen(s.cores, s.tokens, s.net, s.tokens[t].parent.value, d);
      }
    }
  }

  lemma ReplyLeavesRoundMail(net: multiset<Message>, t: nat, out: int, n: nat, me: nat)
    ensures SameRoundMail(net, net - multiset{Reply(t, out)})
    ensures SameRoundMail(net, net - multiset{Reply(t, out)} + AnnounceOthers(n, t, me))
    ensures (net - multiset{Reply(t, out)})[Enter] == net[Enter]
    ensures (net - multiset{Reply(t, out)} + AnnounceOthers(n, t, me))[Enter] == net[Enter]
  {
  }

  lemma StageKeepsUnits(ts: seq<Token>, t: nat, g: Stage)
    requires t < |ts|
    ensures SameUnits(ts, ts[t := ts[t].(stage := g)])
  {
  }

  lemma ReplyLeavesCores(s: System, t: nat, out: int)
    requires t < |s.tokens| && s.tokens[t].core < |s.cores|
    ensures var s' := AfterReply(s, t, out);
            && |s'.cores| == |s.cores|
            && (forall c: nat :: c < |s.cores| ==>
                  s'.cores[c] == s.cores[c].(inProgress := s'.cores[c].inProgress, coresOut := s'.cores[c].coresOut))
            && s'.round == s.round && s'.phase == s.phase
            && s'.resets == s.resets && s'.joined == s.joined && s'.woken == s.woken
  {
  }

  lemma ReplyLeavesUnits(s: System, t: nat, out: int)
    requires t < |s.tokens| && s.tokens[t].core < |s.cores|
    ensures SameUnits(s.tokens, AfterReply(s, t, out).tokens)
  {
    var s' := AfterReply(s, t, out);
    StageKeepsUnits(s.tokens, t, s'.tokens[t].stage);
    assert s'.tokens == s.tokens[t := s.tokens[t].(stage := s'.tokens[t].stage)];
  }

  lemma ReplyIsMailOnly(s: System, t: nat, out: int)
    requires t < |s.tokens| && s.tokens[t].core < |s.cores|
    ensures MailOnly(s, AfterReply(s, t, out))
  {
    ReplyLeavesRoundMail(s.net, t, out, |s.cores|, s.tokens[t].core);
    ReplyLeavesCores(s, t, out);
    ReplyLeavesUnits(s, t, out);
  }

  lemma KeepReply(s: System, t: nat, out: int)
    requires Safe(s) && Enabled(s, DoReply(t, out))
    ensures Safe(AfterReply(s, t, out))
  {
    var s' := AfterReply(s, t, out);
    assert TokenPosted(|s.cores|, s.tokens, s.net, t);
    ReplyIsMailOnly(s, t, out);
    MailOnlyKeeps(s, s', t);
    OutSame(s.cores, s'.cores, s.tokens, s'.tokens);
    HeldSame(s.tokens, s'.tokens, s.net[Enter], s.round, t);
    ReplyKeepsPosted(s, t, out);
    ReplyKeepsSeen(s, t, out);
  }

  /** Handling a cancel moves exactly one core into the set the master counts. */
  lemma CancelMovesOne(s: System, t: nat)
    requires Safe(s) && Enabled(s, DoCancel(t))
    ensures s.tokens[t].core !in Out(s.cores, s.tokens)
    ensures Out(AfterCancel(s, t).cores, AfterCancel(s, t).tokens) == Out(s.cores, s.tokens) + {s.tokens[t].core}
  {
    var s' := AfterCancel(s, t);
    var me := s.tokens[t].core;
    assert TokenPosted(|s.cores|, s.tokens, s.net, t);
    assert TokenHeld(s.tokens, s.net[Enter], s.round, t);
    assert CoreCounted(s.cores, s.tokens, me);
    CountMeansLive(s.cores, s.tokens, me);
    forall u: nat | u < |s'.tokens| && s'.tokens[u].core == me ensures !s'.tokens[u].stage.Cancelling? {
      assert TokenHeld(s.tokens, s.net[Enter], s.round, u);
    }
    forall c: nat | c != me ensures CancelInFlight(s'.tokens, c) == CancelInFlight(s.tokens, c) {
      if u: nat :| u < |s.tokens| && s.tokens[u].core == c && s.tokens[u].stage.Cancelling? {
        assert s'.tokens[u] == s.tokens[u];
      }
    }
  }

  /** The first enroll of a phase finds the master's counter at 0, so it makes the announcement. */
  lemma FirstIsFirst(s: System, t: nat)
    requires Safe(s) && Enabled(s, DoCancel(t)) && s.tokens[t].parent.None?
    ensures s.cores[0].coresOut == 0
  {
    assert TokenPosted(|s.cores|, s.tokens, s.net, t);
    assert TokenHeld(s.tokens, s.net[Enter], s.round, t);
    forall c: nat ensures c !in Out(s.cores, s.tokens) {
      assert CoreCounted(s.cores, s.tokens, c);
      if c < |s.cores| {
        CountMeansLive(s.cores, s.tokens, c);
      }
    }
    assert Out(s.cores, s.tokens) == {};
  }

  lemma CancelKeepsPosted(s: System, t: nat)
    requires Safe(s) && Enabled(s, DoCancel(t))
    ensures Posted(|s.cores|, AfterCancel(s, t).tokens, AfterCancel(s, t).net)
  {
    var s' := AfterCancel(s, t);
    assert TokenPosted(|s.cores|, s.tokens, s.net, t);
    assert TokenPosted(|s.cores|, s'.tokens, s'.net, t) by {
      assert Unheard(|s.cores|, s'.net, t) == Unheard(|s.cores|, s.net, t);
    }
    OthersPosted(|s.cores|, s.tokens, s'.tokens, s.net, s'.net, t);
  }

  lemma CancelIsMailOnly(s: System, t: nat)
    requires t < |s.tokens| && |s.cores| > 0
    ensures MailOnly(s, AfterCancel(s, t))
  {
  }

  lemma KeepCancel(s: System, t: nat)
    requires Safe(s) && Enabled(s, DoCancel(t))
    ensures Safe(AfterCancel(s, t))
  {
    var s' := AfterCancel(s, t);
    var n := |s.cores|;
    assert TokenPosted(n, s.tokens, s.net, t);
    CancelIsMailOnly(s, t);
    MailOnlyKeeps(s, s', t);
    CancelMovesOne(s, t);
    if s.tokens[t].parent.None? {
      FirstIsFirst(s, t);
    }
    HeldSame(s.tokens, s'.tokens, s.net[Enter], s.round, t);
    CancelKeepsPosted(s, t);
    forall u: nat, d: nat ensures TokenSeen(s'.cores, s'.tokens, s'.net, u, d) {
      assert TokenSeen(s.cores, s.tokens, s.net, u, d);
    }
  }

  // ---------------------------------------------------------------- enroll

  /** Without a live token every count is 0. */
  lemma DoneMeansZero(s: System)
    requires Safe(s) && AllDone(s.tokens)
    ensures forall c: nat :: c < |s.cores| ==> s.cores[c].count == 0
    ensures Out(s.cores, s.tokens) == {}
    ensures forall t: nat :: !Pending(s.tokens, t)
  {
    forall c: nat | c < |s.cores| ensures s.cores[c].count == 0 {
      assert CoreCounted(s.cores, s.tokens, c);
      CountMeansLive(s.cores, s.tokens, c);
    }
    forall t: nat ensures !Pending(s.tokens, t) {
      assert TokenHeld(s.tokens, s.net[Enter], s.round, t);
    }
  }

  lemma AppendKeepsCounted(cores: seq<CoreState>, cores': seq<CoreState>, ts: seq<Token>, x: Token)
    requires Counted(cores, ts) && |cores'| == |cores| && x.core < |cores|
    requires forall c: nat :: c < |cores| ==>
      cores'[c].count == cores[c].count + (if c == x.core then x.amount else 0)
    ensures Counted(cores', ts + [x])
  {
    forall c: nat ensures CoreCounted(cores', ts + [x], c) {
      assert CoreCounted(cores, ts, c);
      UnitsAppend(ts, x, c);
    }
  }

  /** Enrolling more does not change which cores the master counts: a core that had no work
      gets a cancel on its way, and a core that had work was counted, or waited for, already. */
  lemma EnrollKeepsOut(s: System, c: nat, inc: nat, parent: Option<nat>, recur: bool)
    requires Safe(s) && Enabled(s, DoEnroll(c, inc, parent, recur)) && inc > 0
    ensures Out(AfterEnroll(s, c, inc, parent, recur).cores, AfterEnroll(s, c, inc, parent, recur).tokens)
            == Out(s.cores, s.tokens)
  {
    var s' := AfterEnroll(s, c, inc, parent, recur);
    var t := |s.tokens|;
    assert CoreCounted(s.cores, s.tokens, c);
    CountMeansLive(s.cores, s.tokens, c);
    if s'.tokens[t].stage.Cancelling? {
      assert CancelInFlight(s'.tokens, c);
    }
    forall d: nat | d != c || s'.tokens[t].stage.Active?
      ensures CancelInFlight(s'.tokens, d) == CancelInFlight(s.tokens, d)
    {
      if u: nat :| u < |s.tokens| && s.tokens[u].core == d && s.tokens[u].stage.Cancelling? {
        assert s'.tokens[u] == s.tokens[u];
      }
    }
  }

  /** A pending call is unaffected by a new token whose caller keeps the rule. */
  lemma EnrollKeepsHeld(ts: seq<Token>, x: Token, enters: nat, round: Round)
    requires Held(ts, enters, round) && x.amount > 0
    requires x.stage.Active? || (x.stage.Cancelling? && forall u: nat :: Live(ts, u) ==> ts[u].core != x.core)
    requires match x.parent
             case Some(q) => Live(ts, q) && ts[q].stage.Active?
             case None => AllDone(ts) && enters == 0 && !round.Resetting?
    ensures Held(ts + [x], enters, round)
  {
    var ts' := ts + [x];
    forall u: nat ensures TokenHeld(ts', enters, round, u) {
      assert TokenHeld(ts, enters, round, u);
      assert forall v: nat :: v < |ts| ==> Live(ts', v) == Live(ts, v);
    }
  }

  lemma EnrollKeepsFlags(s: System, c: nat, inc: nat, parent: Option<nat>, recur: bool)
    requires Safe(s) && Enabled(s, DoEnroll(c, inc, parent, recur)) && inc > 0
    requires Permitted(s, DoEnroll(c, inc, parent, recur))
    ensures var s' := AfterEnroll(s, c, inc, parent, recur); Flags(s'.cores, s'.tokens, s'.net, s'.round)
  {
    var s' := AfterEnroll(s, c, inc, parent, recur);
    var t := |s.tokens|;
    assert Live(s'.tokens, t);
    forall d: nat ensures CoreOpen(s'.cores, s'.tokens, s'.net, s'.round, d) {}
    if parent.None? {
      DoneMeansZero(s);
    }
    forall u: nat, d: nat ensures TokenSeen(s'.cores, s'.tokens, s'.net, u, d) {
      assert TokenSeen(s.cores, s.tokens, s.net, u, d);
      assert u < t ==> Live(s'.tokens, u) == Live(s.tokens, u);
      if u == t && parent.Some? {
        assert TokenSeen(s.cores, s.tokens, s.net, parent.value, d);
      }
    }
  }

  lemma EnrollKeepsPosted(s: System, c: nat, inc: nat, parent: Option<nat>, recur: bool)
    requires Safe(s) && Enabled(s, DoEnroll(c, inc, parent, recur)) && inc > 0
    ensures var s' := AfterEnroll(s, c, inc, parent, recur); Posted(|s.cores|, s'.tokens, s'.net)
  {
    var s' := AfterEnroll(s, c, inc, parent, recur);
    var t := |s.tokens|;
    assert TokenPosted(|s.cores|, s.tokens, s.net, t);
    assert TokenPosted(|s.cores|, s'.tokens, s'.net, t);
    OthersPosted(|s.cores|, s.tokens, s'.tokens, s.net, s'.net, t);
  }

  lemma KeepEmptyEnroll(s: System, c: nat, parent: Option<nat>, recur: bool)
    requires Safe(s) && Enabled(s, DoEnroll(c, 0, parent, recur))
    ensures Safe(AfterEnroll(s, c, 0, parent, recur))
  {
    var s' := AfterEnroll(s, c, 0, parent, recur);
    RoundsSame(s.cores, s'.cores, s.net, s'.net, s.round);
    CountedSame(s.cores, s'.cores, s.tokens, s'.tokens);
    OutSame(s.cores, s'.cores, s.tokens, s'.tokens);
    forall d: nat ensures CoreOpen(s'.cores, s.tokens, s.net, s.round, d) {
      assert CoreOpen(s.cores, s.tokens, s.net, s.round, d);
    }
    forall u: nat, d: nat ensures TokenSeen(s'.cores, s.tokens, s.net, u, d) {
      assert TokenSeen(s.cores, s.tokens, s.net, u, d);
    }
  }

  /** The parts of the invariant about waiters and the ending broadcast. */
  lemma EnrollKeepsRounds(s: System, c: nat, inc: nat, parent: Option<nat>, recur: bool)
    requires Safe(s) && Enabled(s, DoEnroll(c, inc, parent, recur)) && Permitted(s, DoEnroll(c, inc, parent, recur))
    requires inc > 0
    ensures var s' := AfterEnroll(s, c, inc, parent, recur);
      && Shape(s')
      && Quiet(s'.tokens, s'.net[Enter], s'.round)
      && Rounds(s'.cores, s'.net, s'.round)
  {
    var s' := AfterEnroll(s, c, inc, parent, recur);
    RoundsSame(s.cores, s'.cores, s.net, s'.net, s.round);
  }

  lemma KeepEnroll(s: System, c: nat, inc: nat, parent: Option<nat>, recur: bool)
    requires Safe(s) && Enabled(s, DoEnroll(c, inc, parent, recur)) && Permitted(s, DoEnroll(c, inc, parent, recur))
    ensures Safe(AfterEnroll(s, c, inc, parent, recur))
  {
    if inc == 0 {
      KeepEmptyEnroll(s, c, parent, recur);
    } else {
      var s' := AfterEnroll(s, c, inc, parent, recur);
      var x := s'.tokens[|s.tokens|];
      EnrollKeepsRounds(s, c, inc, parent, recur);
      AppendKeepsCounted(s.cores, s'.cores, s.tokens, x);
      EnrollKeepsPosted(s, c, inc, parent, recur);
      EnrollKeepsOut(s, c, inc, parent, recur);
      EnrollKeepsFlags(s, c, inc, parent, recur);
      assert CoreCounted(s.cores, s.tokens, c);
      CountMeansLive(s.cores, s.tokens, c);
      EnrollKeepsHeld(s.tokens, x, s.net[Enter], s.round);
    }
  }

  // ---------------------------------------------------------------- complete

  lemma CompleteKeepsCounted(s: System, t: nat, dec: nat)
    requires Safe(s) && Enabled(s, DoComplete(t, dec))
    ensures var s' := AfterComplete(s, t, dec); Counted(s'.cores, s'.tokens)
    ensures s.cores[s.tokens[t].core].count >= dec
  {
    var s' := AfterComplete(s, t, dec);
    forall d: nat ensures CoreCounted(s'.cores, s'.tokens, d) {
      assert CoreCounted(s.cores, s.tokens, d);
      UnitsUpdate(s.tokens, t, s'.tokens[t], d);
    }
    assert CoreCounted(s.cores, s.tokens, s.tokens[t].core);
    UnitsCover(s.tokens, t, s.tokens[t].core);
  }

  /** Completing units either leaves the core with work, or turns one counted core into one
      enter message. */
  lemma CompleteKeepsBarrier(s: System, t: nat, dec: nat)
    requires Safe(s) && Enabled(s, DoComplete(t, dec))
    ensures var s' := AfterComplete(s, t, dec); Barrier(s'.cores, s'.tokens, s'.net[Enter])
    ensures var s' := AfterComplete(s, t, dec); Counted(s'.cores, s'.tokens)
  {
    var s' := AfterComplete(s, t, dec);
    var c := s.tokens[t].core;
    CompleteKeepsCounted(s, t, dec);
    forall d: nat ensures CancelInFlight(s'.tokens, d) == CancelInFlight(s.tokens, d) {
      if u: nat :| u < |s.tokens| && s.tokens[u].core == d && s.tokens[u].stage.Cancelling? {
        assert s'.tokens[u].core == d && s'.tokens[u].stage.Cancelling?;
      }
    }
    if s'.cores[c].count == 0 {
      forall u: nat | u < |s.tokens| && s.tokens[u].core == c ensures !s.tokens[u].stage.Cancelling? {
        UnitsCover(s'.tokens, u, c);
        assert CoreCounted(s'.cores, s'.tokens, c);
        assert TokenHeld(s.tokens, s.net[Enter], s.round, u);
      }
      assert Out(s'.cores, s'.tokens) == Out(s.cores, s.tokens) - {c};
    } else {
      assert Out(s'.cores, s'.tokens) == Out(s.cores, s.tokens);
    }
  }

  lemma CompleteKeepsHeld(s: System, t: nat, dec: nat)
    requires Safe(s) && Enabled(s, DoComplete(t, dec)) && Permitted(s, DoComplete(t, dec))
    ensures var s' := AfterComplete(s, t, dec); Held(s'.tokens, s'.net[Enter], s'.round)
  {
    var s' := AfterComplete(s, t, dec);
    forall u: nat ensures TokenHeld(s'.tokens, s'.net[Enter], s'.round, u) {
      assert TokenHeld(s.tokens, s.net[Enter], s.round, u);
      assert Live(s.tokens, t);
      assert forall v: nat :: Live(s'.tokens, v) ==> Live(s.tokens, v);
      assert forall v: nat :: v != t && Live(s.tokens, v) ==> Live(s'.tokens, v);
    }
  }

  lemma CompleteKeepsQuiet(s: System, t: nat, dec: nat)
    requires Safe(s) && Enabled(s, DoComplete(t, dec)) && Permitted(s, DoComplete(t, dec))
    ensures var s' := AfterComplete(s, t, dec); Quiet(s'.tokens, s'.net[Enter], s'.round)
  {
    var s' := AfterComplete(s, t, dec);
    assert Live(s.tokens, t);
  }

  /** The phase stays open: if these were the last units anywhere, an enter is on its way. */
  lemma CompleteKeepsFlags(s: System, t: nat, dec: nat)
    requires Safe(s) && Enabled(s, DoComplete(t, dec))
    ensures var s' := AfterComplete(s, t, dec); Flags(s'.cores, s'.tokens, s'.net, s'.round)
  {
    var s' := AfterComplete(s, t, dec);
    var c := s.tokens[t].core;
    CompleteKeepsBarrier(s, t, dec);
    assert CoreCounted(s'.cores, s'.tokens, c);
    CountMeansLive(s'.cores, s'.tokens, c);
    forall d: nat ensures CoreOpen(s'.cores, s'.tokens, s'.net, s'.round, d) {}
    forall u: nat, d: nat ensures TokenSeen(s'.cores, s'.tokens, s'.net, u, d) {
      assert TokenSeen(s.cores, s.tokens, s.net, u, d);
      assert Live(s'.tokens, u) ==> Live(s.tokens, u);
    }
  }

  lemma CompleteKeepsPosted(s: System, t: nat, dec: nat)
    requires Safe(s) && Enabled(s, DoComplete(t, dec))
    ensures var s' := AfterComplete(s, t, dec); Posted(|s.cores|, s'.tokens, s'.net)
  {
    var s' := AfterComplete(s, t, dec);
    PostedSame(|s.cores|, s.tokens, s.net, s'.net);
    assert TokenPosted(|s.cores|, s.tokens, s'.net, t);
    assert TokenPosted(|s.cores|, s'.tokens, s'.net, t);
    OthersPosted(|s.cores|, s.tokens, s'.tokens, s'.net, s'.net, t);
  }

  lemma KeepComplete(s: System, t: nat, dec: nat)
    requires Safe(s) && Enabled(s, DoComplete(t, dec)) && Permitted(s, DoComplete(t, dec))
    ensures Safe(AfterComplete(s, t, dec))
  {
    var s' := AfterComplete(s, t, dec);
    CompleteKeepsBarrier(s, t, dec);
    CompleteKeepsPosted(s, t, dec);
    CompleteKeepsHeld(s, t, dec);
    CompleteKeepsQuiet(s, t, dec);
    CompleteKeepsFlags(s, t, dec);
    RoundsSame(s.cores, s'.cores, s.net, s'.net, s.round);
  }

  // ---------------------------------------------------------------- the end of a phase

  /** An enter that is not the last one. */
  lemma KeepEarlyEnter(s: System)
    requires Safe(s) && Enter in s.net && s.cores[0].coresOut != 1
    ensures Safe(AfterEnter(s))
  {
    var s' := AfterEnter(s);
    CountedSame(s.cores, s'.cores, s.tokens, s'.tokens);
    OutSame(s.cores, s'.cores, s.tokens, s'.tokens);
    PostedSame(|s.cores|, s.tokens, s.net, s'.net);
    RoundsSame(s.cores, s'.cores, s.net, s'.net, s.round);
    EnterKeepsHeld(s);
    EnterKeepsOpen(s);
    forall u: nat, d: nat ensures TokenSeen(s'.cores, s.tokens, s'.net, u, d) {
      assert TokenSeen(s.cores, s.tokens, s.net, u, d);
    }
  }

  lemma EnterKeepsHeld(s: System)
    requires Safe(s) && Enter in s.net
    ensures Held(s.tokens, AfterEnter(s).net[Enter], s.round)
  {
    var enters' := AfterEnter(s).net[Enter];
    forall u: nat ensures TokenHeld(s.tokens, enters', s.round, u) {
      assert TokenHeld(s.tokens, s.net[Enter], s.round, u);
    }
  }

  lemma EnterKeepsOpen(s: System)
    requires Safe(s) && Enter in s.net && s.cores[0].coresOut != 1
    ensures forall d: nat :: CoreOpen(AfterEnter(s).cores, s.tokens, AfterEnter(s).net, s.round, d)
  {
    if s.net[Enter] == 1 {
      assert Out(s.cores, s.tokens) != {};
      var c :| c in Out(s.cores, s.tokens);
      assert CoreCounted(s.cores, s.tokens, c);
      CountMeansLive(s.cores, s.tokens, c);
    }
  }

  /** The last enter: every core is sent a reset. */
  lemma KeepLastEnter(s: System)
    requires Safe(s) && Enter in s.net && s.cores[0].coresOut == 1
    ensures Safe(AfterEnter(s))
  {
    var s' := AfterEnter(s);
    var re := s.cores[0].reenroll;
    LastEnterMeansDone(s);
    DoneMeansZero(s);
    CountedSame(s.cores, s'.cores, s.tokens, s'.tokens);
    OutSame(s.cores, s'.cores, s.tokens, s'.tokens);
    PostedSame(|s.cores|, s.tokens, s.net, s'.net);
    forall u: nat ensures TokenHeld(s.tokens, 0, s'.round, u) {}
    forall u: nat, d: nat ensures TokenSeen(s'.cores, s.tokens, s'.net, u, d) {
      assert !Pending(s.tokens, u) && !Live(s.tokens, u);
    }
    LastEnterStartsRound(s);
    forall d: nat ensures CoreOpen(s'.cores, s.tokens, s'.net, s'.round, d) {}
  }

  /** No message of an earlier reset round is left, and every core is sent one of the new round. */
  lemma LastEnterSendsResets(s: System, d: nat, r: int)
    requires Safe(s) && Enter in s.net && s.cores[0].coresOut == 1
    ensures AfterEnter(s).round == Resetting(s.cores[0].reenroll)
    ensures AfterEnter(s).net[Reset(d, r)] == if d < |s.cores| && r == s.cores[0].reenroll then 1 else 0
    ensures ResetAck(r) !in AfterEnter(s).net
  {
    assert CoreInRound(s.cores, s.net, s.round, d);
  }

  lemma LastEnterStartsRound(s: System)
    requires Safe(s) && Enter in s.net && s.cores[0].coresOut == 1
    ensures var s' := AfterEnter(s);
      && s'.round == Resetting(s.cores[0].reenroll)
      && (forall d: nat :: d < |s.cores| ==> ResetDue(s'.net, s'.round, d))
      && Rounds(s'.cores, s'.net, s'.round)
  {
    var s' := AfterEnter(s);
    var re := s.cores[0].reenroll;
    forall d: nat ensures CoreInRound(s'.cores, s'.net, s'.round, d) && (d < |s.cores| ==> Reset(d, re) in s'.net) {
      LastEnterSendsResets(s, d, re);
      forall r: int ensures s'.net[Reset(d, r)] == if d < |s.cores| && r == re then 1 else 0 {
        LastEnterSendsResets(s, d, r);
      }
    }
    forall r: int ensures ResetAck(r) !in s'.net { LastEnterSendsResets(s, 0, r); }
    assert Unreset(|s.cores|, s'.net, re) == UpTo(|s.cores|);
  }

  lemma KeepEnter(s: System)
    requires Safe(s) && Enabled(s, DoEnter)
    ensures Safe(AfterEnter(s))
  {
    if s.cores[0].coresOut == 1 {
      KeepLastEnter(s);
    } else {
      KeepEarlyEnter(s);
    }
  }

  // ---------------------------------------------------------------- reset and wake

  lemma ResetIsDue(s: System, c: nat, re: int)
    requires Safe(s) && Enabled(s, DoReset(c, re))
    ensures s.round == Resetting(re) && ResetDue(s.net, s.round, c)
    ensures AllDone(s.tokens) && s.net[Enter] == 0 && s.cores[0].coresOut == 0
    ensures s.cores[c].count == 0
  {
    assert CoreInRound(s.cores, s.net, s.round, c);
    DoneMeansZero(s);
  }

  lemma ResetKeepsRounds(s: System, c: nat, re: int)
    requires Safe(s) && Enabled(s, DoReset(c, re))
    ensures var s' := AfterReset(s, c, re); Rounds(s'.cores, s'.net, s'.round)
  {
    var s' := AfterReset(s, c, re);
    ResetIsDue(s, c, re);
    assert CoreInRound(s.cores, s.net, s.round, c);
    forall d: nat ensures CoreInRound(s'.cores, s'.net, s'.round, d) {
      assert CoreInRound(s.cores, s.net, s.round, d);
    }
    assert Unreset(|s.cores|, s'.net, re) == Unreset(|s.cores|, s.net, re) - {c};
  }

  lemma KeepReset(s: System, c: nat, re: int)
    requires Safe(s) && Enabled(s, DoReset(c, re))
    ensures Safe(AfterReset(s, c, re))
  {
    var s' := AfterReset(s, c, re);
    ResetIsDue(s, c, re);
    DoneMeansZero(s);
    CountedSame(s.cores, s'.cores, s.tokens, s'.tokens);
    OutSame(s.cores, s'.cores, s.tokens, s'.tokens);
    PostedSame(|s.cores|, s.tokens, s.net, s'.net);
    ResetKeepsRounds(s, c, re);
    forall u: nat, d: nat ensures TokenSeen(s'.cores, s.tokens, s'.net, u, d) {
      assert !Pending(s.tokens, u) && !Live(s.tokens, u);
    }
    forall d: nat ensures CoreOpen(s'.cores, s.tokens, s'.net, s'.round, d) {
      assert CoreOpen(s.cores, s.tokens, s.net, s.round, d);
    }
  }

  lemma KeepEarlyAck(s: System, re: int)
    requires Safe(s) && Enabled(s, DoResetAck(re)) && s.cores[0].wakingOut != 1
    ensures Safe(AfterResetAck(s, re))
  {
    var s' := AfterResetAck(s, re);
    assert s.round == Resetting(re);
    CountedSame(s.cores, s'.cores, s.tokens, s'.tokens);
    OutSame(s.cores, s'.cores, s.tokens, s'.tokens);
    PostedSame(|s.cores|, s.tokens, s.net, s'.net);
    EarlyAckKeepsRounds(s, re);
    forall u: nat, d: nat ensures TokenSeen(s'.cores, s.tokens, s'.net, u, d) {
      assert TokenSeen(s.cores, s.tokens, s.net, u, d);
    }
    forall d: nat ensures CoreOpen(s'.cores, s.tokens, s'.net, s'.round, d) {
      assert CoreOpen(s.cores, s.tokens, s.net, s.round, d);
    }
  }

  lemma EarlyAckKeepsRounds(s: System, re: int)
    requires Safe(s) && Enabled(s, DoResetAck(re)) && s.cores[0].wakingOut != 1
    ensures Rounds(AfterResetAck(s, re).cores, AfterResetAck(s, re).net, AfterResetAck(s, re).round)
  {
    var s' := AfterResetAck(s, re);
    assert s.round == Resetting(re);
    forall d: nat ensures CoreInRound(s'.cores, s'.net, s'.round, d) {
      assert CoreInRound(s.cores, s.net, s.round, d);
    }
    assert Unreset(|s.cores|, s'.net, re) == Unreset(|s.cores|, s.net, re);
  }

  /** When the last acknowledgement arrives every core has run its reset. */
  lemma LastAckMeansAllReset(s: System, re: int)
    requires Safe(s) && Enabled(s, DoResetAck(re)) && s.cores[0].wakingOut == 1
    ensures s.round == Resetting(re) && s.net[ResetAck(re)] == 1
    ensures forall d: nat, r: int :: Reset(d, r) !in s.net
    ensures forall d: nat :: !ResetDue(s.net, s.round, d)
    ensures forall r: int :: ResetAck(r) !in s.net - multiset{ResetAck(re)}
    ensures forall d: nat :: d < |s.cores| ==> s.cores[d].inProgress == (re != 0)
  {
    forall d: nat, r: int ensures Reset(d, r) !in s.net {
      assert CoreInRound(s.cores, s.net, s.round, d);
      assert d !in Unreset(|s.cores|, s.net, re);
    }
    forall d: nat | d < |s.cores| ensures s.cores[d].inProgress == (re != 0) {
      assert CoreInRound(s.cores, s.net, s.round, d);
    }
  }

  lemma LastAckStartsWaking(s: System, re: int)
    requires Safe(s) && Enabled(s, DoResetAck(re)) && s.cores[0].wakingOut == 1
    ensures Rounds(AfterResetAck(s, re).cores, AfterResetAck(s, re).net, AfterResetAck(s, re).round)
  {
    var s' := AfterResetAck(s, re);
    LastAckMeansAllReset(s, re);
    forall d: nat ensures CoreInRound(s'.cores, s'.net, s'.round, d) {
      assert CoreInRound(s.cores, s.net, s.round, d);
    }
  }

  /** Without a re-enroll the system is idle again; with one, the next phase has begun. */
  lemma KeepLastAck(s: System, re: int)
    requires Safe(s) && Enabled(s, DoResetAck(re)) && s.cores[0].wakingOut == 1
    ensures Safe(AfterResetAck(s, re))
  {
    var s' := AfterResetAck(s, re);
    LastAckMeansAllReset(s, re);
    LastAckStartsWaking(s, re);
    if re == 0 {
      IdleAckKeeps(s);
    } else {
      ReenrollKeeps(s, re);
    }
  }

  lemma IdleAckKeeps(s: System)
    requires Safe(s) && Enabled(s, DoResetAck(0)) && s.cores[0].wakingOut == 1
    ensures var s' := AfterResetAck(s, 0);
      && Shape(s')
      && Counted(s'.cores, s'.tokens)
      && Posted(|s'.cores|, s'.tokens, s'.net)
      && Held(s'.tokens, s'.net[Enter], s'.round)
      && Barrier(s'.cores, s'.tokens, s'.net[Enter])
      && Flags(s'.cores, s'.tokens, s'.net, s'.round)
      && Quiet(s'.tokens, s'.net[Enter], s'.round)
  {
    var s' := AfterResetAck(s, 0);
    LastAckMeansAllReset(s, 0);
    DoneMeansZero(s);
    CountedSame(s.cores, s'.cores, s.tokens, s'.tokens);
    OutSame(s.cores, s'.cores, s.tokens, s'.tokens);
    PostedSame(|s.cores|, s.tokens, s.net, s'.net);
    forall u: nat ensures TokenHeld(s.tokens, 0, s'.round, u) {
      assert !Pending(s.tokens, u);
    }
    forall u: nat, d: nat ensures TokenSeen(s'.cores, s.tokens, s'.net, u, d) {
      assert !Pending(s.tokens, u) && !Live(s.tokens, u);
    }
    forall d: nat ensures CoreOpen(s'.cores, s.tokens, s'.net, s'.round, d) {
      assert CoreOpen(s.cores, s.tokens, s.net, s.round, d);
      assert !ResetDue(s.net, s.round, d);
    }
  }

  lemma ReenrollKeeps(s: System, re: int)
    requires Safe(s) && Enabled(s, DoResetAck(re)) && s.cores[0].wakingOut == 1 && re != 0
    ensures var s' := AfterResetAck(s, re);
      && Shape(s')
      && Counted(s'.cores, s'.tokens)
      && Posted(|s'.cores|, s'.tokens, s'.net)
      && Held(s'.tokens, s'.net[Enter], s'.round)
      && Barrier(s'.cores, s'.tokens, s'.net[Enter])
      && Flags(s'.cores, s'.tokens, s'.net, s'.round)
      && Quiet(s'.tokens, s'.net[Enter], s'.round)
  {
    var s' := AfterResetAck(s, re);
    var t := |s.tokens|;
    var x := Token(0, re, Active, None, true);
    LastAckMeansAllReset(s, re);
    DoneMeansZero(s);
    AppendKeepsCounted(s.cores, s'.cores, s.tokens, x);
    assert Live(s'.tokens, t) && s'.tokens[t].recurring;
    forall u: nat | u != t ensures !Live(s'.tokens, u) {
      assert !Live(s.tokens, u);
    }
    PostedSame(|s.cores|, s.tokens, s.net, s'.net);
    assert TokenPosted(|s.cores|, s.tokens, s'.net, t);
    OthersPosted(|s.cores|, s.tokens, s'.tokens, s'.net, s'.net, t);
    forall u: nat ensures !Pending(s'.tokens, u) {
      assert !Pending(s.tokens, u);
    }
    forall d: nat ensures !CancelInFlight(s'.tokens, d) {
      forall u: nat | u < |s'.tokens| ensures !s'.tokens[u].stage.Cancelling? {
        assert !Pending(s'.tokens, u);
      }
    }
    assert Out(s'.cores, s'.tokens) == {0};
    forall u: nat, d: nat ensures TokenSeen(s'.cores, s'.tokens, s'.net, u, d) {
      assert !Pending(s'.tokens, u);
    }
    forall d: nat ensures CoreOpen(s'.cores, s'.tokens, s'.net, s'.round, d) {}
  }

  lemma KeepResetAck(s: System, re: int)
    requires Safe(s) && Enabled(s, DoResetAck(re))
    ensures Safe(AfterResetAck(s, re))
  {
    if s.cores[0].wakingOut == 1 {
      KeepLastAck(s, re);
    } else {
      KeepEarlyAck(s, re);
    }
  }

  lemma WakeKeepsRounds(s: System, c: nat)
    requires Safe(s) && Enabled(s, DoWake(c))
    ensures Rounds(AfterWake(s, c).cores, AfterWake(s, c).net, AfterWake(s, c).round)
  {
    var s' := AfterWake(s, c);
    forall d: nat ensures CoreInRound(s'.cores, s'.net, s'.round, d) {
      assert CoreInRound(s.cores, s.net, s.round, d);
    }
    if s.round.Resetting? {
      assert Unreset(|s.cores|, s'.net, s.round.re) == Unreset(|s.cores|, s.net, s.round.re);
    }
  }

  lemma KeepWake(s: System, c: nat)
    requires Safe(s) && Enabled(s, DoWake(c))
    ensures Safe(AfterWake(s, c))
  {
    var s' := AfterWake(s, c);
    WakeKeepsRounds(s, c);
    CountedSame(s.cores, s'.cores, s.tokens, s'.tokens);
    OutSame(s.cores, s'.cores, s.tokens, s'.tokens);
    PostedSame(|s.cores|, s.tokens, s.net, s'.net);
    forall u: nat ensures TokenHeld(s.tokens, s'.net[Enter], s'.round, u) {
      assert TokenHeld(s.tokens, s.net[Enter], s.round, u);
    }
    forall u: nat, d: nat ensures TokenSeen(s'.cores, s.tokens, s'.net, u, d) {
      assert TokenSeen(s.cores, s.tokens, s.net, u, d);
    }
    forall d: nat ensures CoreOpen(s'.cores, s.tokens, s'.net, s'.round, d) {
      assert CoreOpen(s.cores, s.tokens, s.net, s.round, d);
    }
  }
}
