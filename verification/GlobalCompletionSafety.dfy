/** What every run of the completion protocol keeps, and what follows from it. */
module GlobalCompletionSafety {
  import opened Wrappers
  import opened CompletionCore
  import opened GlobalCompletion

  // ---------------------------------------------------------------- the invariant

  ghost predicate Shape(s: System) {
    && |s.cores| >= 1
    && |s.resets| == |s.joined| == |s.woken| == |s.cores|
    && s.cores[0].reenroll >= 0
    && forall t: nat :: t < |s.tokens| ==> s.tokens[t].core < |s.cores|
  }

  /** `count` on a core is the number of its uncompleted units. */
  ghost predicate CoreCounted(cores: seq<CoreState>, ts: seq<Token>, c: nat) {
    c < |cores| ==> cores[c].count == Units(ts, c)
  }

  ghost predicate Counted(cores: seq<CoreState>, ts: seq<Token>) {
    forall c: nat :: CoreCounted(cores, ts, c)
  }

  ghost function Unheard(n: nat, net: multiset<Message>, t: nat): set<nat> {
    set c: nat | c < n && Announce(t, c) in net
  }

  /** The messages of an enroll call are in flight exactly as its stage says. */
  ghost predicate TokenPosted(n: nat, ts: seq<Token>, net: multiset<Message>, t: nat) {
    && net[Cancel(t)] == (if t < |ts| && ts[t].stage.Cancelling? then 1 else 0)
    && (forall out: int :: net[Reply(t, out)] == if t < |ts| && ts[t].stage == Answered(out) then 1 else 0)
    && (forall c: nat :: net[Announce(t, c)] <= 1)
    && (forall c: nat :: Announce(t, c) in net ==> t < |ts| && c < n && ts[t].stage.Announcing?)
    && (AnnounceAck(t) in net ==> t < |ts| && ts[t].stage.Announcing?)
    && (t < |ts| && ts[t].stage.Announcing? ==>
          0 < ts[t].stage.left == |Unheard(n, net, t)| + net[AnnounceAck(t)])
  }

  ghost predicate Posted(n: nat, ts: seq<Token>, net: multiset<Message>) {
    forall t: nat :: TokenPosted(n, ts, net, t)
  }

  ghost predicate Pending(ts: seq<Token>, t: nat) { t < |ts| && !ts[t].stage.Active? }

  /** A pending first enroll is all there is. */
  ghost predicate Alone(ts: seq<Token>, enters: nat, round: Round, t: nat)
    requires t < |ts|
  {
    && (forall u: nat :: Live(ts, u) ==> u == t)
    && enters == 0
    && !round.Resetting?
    && (ts[t].stage.Answered? ==> ts[t].stage.out == 1)
  }

  /** The rule on callers, as it shows in the state: while an enroll call is pending its
      caller's own unit is alive. A cancelling token is the oldest live one on its core. */
  ghost predicate TokenHeld(ts: seq<Token>, enters: nat, round: Round, t: nat) {
    Pending(ts, t) ==>
      && Live(ts, t)
      && (match ts[t].parent
          case Some(q) => q < t && Live(ts, q) && ts[q].stage.Active?
          case None => Alone(ts, enters, round, t))
      && (ts[t].stage.Cancelling? ==> forall u: nat :: Live(ts, u) && ts[u].core == ts[t].core ==> t <= u)
  }

  ghost predicate Held(ts: seq<Token>, enters: nat, round: Round) {
    forall t: nat :: TokenHeld(ts, enters, round, t)
  }

  /** The master's counter is the number of cores it must count plus the enters in flight. */
  ghost predicate Barrier(cores: seq<CoreState>, ts: seq<Token>, enters: nat) {
    |cores| > 0 && cores[0].coresOut == |Out(cores, ts)| + enters
  }

  ghost predicate ResetDue(net: multiset<Message>, round: Round, c: nat) {
    round.Resetting? && Reset(c, round.re) in net
  }

  /** A phase is open for core `c` until everything is done and the core has been reset. */
  ghost predicate Open(ts: seq<Token>, net: multiset<Message>, round: Round, c: nat) {
    !AllDone(ts) || net[Enter] > 0 || (round.Resetting? && round.re != 0) || ResetDue(net, round, c)
  }

  /** A core believes an event is in progress, or has waiters, only while the phase is open. */
  ghost predicate CoreOpen(cores: seq<CoreState>, ts: seq<Token>, net: multiset<Message>, round: Round, c: nat) {
    c < |cores| && (cores[c].inProgress || cores[c].cv != []) ==> Open(ts, net, round, c)
  }

  /** Once an enroll has returned, every core knows. */
  ghost predicate TokenSeen(cores: seq<CoreState>, ts: seq<Token>, net: multiset<Message>, t: nat, c: nat) {
    t < |ts| && c < |cores| ==>
      && (Live(ts, t) && ts[t].stage.Active? ==> cores[c].inProgress)
      && (ts[t].stage.Announcing? ==> cores[c].inProgress || Announce(t, c) in net)
  }

  ghost predicate Flags(cores: seq<CoreState>, ts: seq<Token>, net: multiset<Message>, round: Round) {
    && (forall c: nat :: CoreOpen(cores, ts, net, round, c))
    && (forall t: nat, c: nat :: TokenSeen(cores, ts, net, t, c))
  }

  /** While the cores are being reset nothing is enrolled. */
  ghost predicate Quiet(ts: seq<Token>, enters: nat, round: Round) {
    round.Resetting? ==> AllDone(ts) && enters == 0
  }

  ghost function Unreset(n: nat, net: multiset<Message>, re: int): set<nat> {
    set c: nat | c < n && Reset(c, re) in net
  }

  /** The reset round as core `c` sees it. */
  ghost predicate CoreInRound(cores: seq<CoreState>, net: multiset<Message>, round: Round, c: nat) {
    && (forall r: int :: net[Reset(c, r)] <= 1)
    && (forall r: int :: Reset(c, r) in net ==> c < |cores| && round == Resetting(r))
    && (c < |cores| && round.Resetting? && !ResetDue(net, round, c) ==>
          cores[c].inProgress == (round.re != 0))
  }

  ghost predicate Rounds(cores: seq<CoreState>, net: multiset<Message>, round: Round) {
    && |cores| > 0
    && (forall c: nat :: CoreInRound(cores, net, round, c))
    && (forall r: int :: ResetAck(r) in net ==> round == Resetting(r))
    && (round.Resetting? ==>
          && round.re >= 0
          && 0 < cores[0].wakingOut == |Unreset(|cores|, net, round.re)| + net[ResetAck(round.re)])
  }

  /** The safety half of the invariant: it asks nothing of the wake messages. */
  ghost predicate Safe(s: System) {
    && Shape(s)
    && Counted(s.cores, s.tokens)
    && Posted(|s.cores|, s.tokens, s.net)
    && Held(s.tokens, s.net[Enter], s.round)
    && Barrier(s.cores, s.tokens, s.net[Enter])
    && Flags(s.cores, s.tokens, s.net, s.round)
    && Quiet(s.tokens, s.net[Enter], s.round)
    && Rounds(s.cores, s.net, s.round)
  }

  // ---------------------------------------------------------------- the wake half

  ghost predicate RecurringLive(ts: seq<Token>) { exists t: nat :: Live(ts, t) && ts[t].recurring }

  /** The wake round as core `c` sees it, and what that core has parked. */
  ghost predicate CoreWaking(cores: seq<CoreState>, net: multiset<Message>, round: Round, c: nat) {
    && net[Wake(c)] <= 1
    && (Wake(c) in net ==> c < |cores| && round.Waking?)
    && (c < |cores| && (ResetDue(net, round, c) || (!round.Resetting? && Wake(c) !in net)) ==>
          cores[c].wakingCv == [])
  }

  ghost predicate WakeRounds(cores: seq<CoreState>, ts: seq<Token>, net: multiset<Message>, round: Round) {
    && (forall c: nat :: CoreWaking(cores, net, round, c))
    && (round.Waking? ==> exists c: nat :: Wake(c) in net)
    && (round.Waking? ==> RecurringLive(ts) || (AllDone(ts) && net[Enter] == 0))
  }

  /** How often a core has been reset, and in which phases its suspended and woken waits fell. */
  ghost predicate CorePhased(cores: seq<CoreState>, net: multiset<Message>, round: Round, phase: nat,
                             resets: seq<nat>, woken: seq<seq<Waiter>>, c: nat)
  {
    c < |cores| && c < |resets| && c < |woken| ==>
      && resets[c] + (if ResetDue(net, round, c) then 1 else 0) == phase
      && (forall w <- cores[c].cv :: w.phase == resets[c])
      && (forall w <- cores[c].wakingCv :: w.phase + 1 == resets[c])
      && (forall w <- woken[c] :: w.phase + (if round.Resetting? then 1 else 0) < phase)
  }

  ghost predicate Phased(cores: seq<CoreState>, net: multiset<Message>, round: Round, phase: nat,
                         resets: seq<nat>, woken: seq<seq<Waiter>>)
  {
    forall c: nat :: CorePhased(cores, net, round, phase, resets, woken, c)
  }

  /** Every suspended wait is in exactly one place: still waiting, parked by a reset, or woken. */
  ghost predicate CoreAccounted(cores: seq<CoreState>, joined: seq<seq<Waiter>>, woken: seq<seq<Waiter>>, c: nat) {
    c < |cores| && c < |joined| && c < |woken| ==>
      && multiset(joined[c]) == multiset(cores[c].cv) + multiset(cores[c].wakingCv) + multiset(woken[c])
      && forall i: nat :: i < |joined[c]| ==> joined[c][i].id == i
  }

  ghost predicate Accounted(cores: seq<CoreState>, joined: seq<seq<Waiter>>, woken: seq<seq<Waiter>>) {
    forall c: nat :: CoreAccounted(cores, joined, woken, c)
  }

  ghost predicate Wakes(s: System) {
    && WakeRounds(s.cores, s.tokens, s.net, s.round)
    && Phased(s.cores, s.net, s.round, s.phase, s.resets, s.woken)
    && Accounted(s.cores, s.joined, s.woken)
  }

  ghost predicate Inv(s: System) { Safe(s) && Wakes(s) }

  // ---------------------------------------------------------------- sums over tokens

  lemma UnitsAppend(ts: seq<Token>, t: Token, c: nat)
    ensures Units(ts + [t], c) == Units(ts, c) + UnitsOf(t, c)
  {
    assert (ts + [t])[..|ts|] == ts;
  }

  lemma {:induction false} UnitsUpdate(ts: seq<Token>, i: nat, t: Token, c: nat)
    requires i < |ts|
    ensures Units(ts[i := t], c) == Units(ts, c) - UnitsOf(ts[i], c) + UnitsOf(t, c)
  {
    var n := |ts| - 1;
    if i == n {
      assert ts[i := t][..n] == ts[..n];
    } else {
      assert ts[i := t][..n] == ts[..n][i := t];
      UnitsUpdate(ts[..n], i, t, c);
    }
  }

  lemma {:induction false} UnitsCover(ts: seq<Token>, i: nat, c: nat)
    requires i < |ts|
    ensures UnitsOf(ts[i], c) <= Units(ts, c)
  {
    if i < |ts| - 1 {
      UnitsCover(ts[..|ts| - 1], i, c);
    }
  }

  lemma {:induction false} UnitsNone(ts: seq<Token>, c: nat)
    requires forall i: nat :: i < |ts| && ts[i].core == c ==> ts[i].amount == 0
    ensures Units(ts, c) == 0
  {
    if ts != [] {
      var init := ts[..|ts| - 1];
      forall i: nat | i < |init| && init[i].core == c ensures init[i].amount == 0 {
        assert init[i] == ts[i];
      }
      UnitsNone(init, c);
    }
  }

  /** A core has a positive count exactly when it has a live token. */
  lemma CountMeansLive(cores: seq<CoreState>, ts: seq<Token>, c: nat)
    requires CoreCounted(cores, ts, c) && c < |cores|
    ensures cores[c].count >= 0
    ensures cores[c].count > 0 <==> exists t: nat :: Live(ts, t) && ts[t].core == c
  {
    if t: nat :| Live(ts, t) && ts[t].core == c {
      UnitsCover(ts, t, c);
    } else {
      forall i: nat | i < |ts| && ts[i].core == c ensures ts[i].amount == 0 {
        assert !Live(ts, i);
      }
      UnitsNone(ts, c);
    }
  }

  // ---------------------------------------------------------------- the safety argument

  ghost predicate FirstCancelling(ts: seq<Token>) {
    exists t: nat :: Pending(ts, t) && ts[t].stage.Cancelling? && ts[t].parent.None?
  }

  /** Follow pending enrolls back to the units their callers hold: unless a first enroll is
      still cancelling, any live token leads to a core the master counts. */
  lemma {:induction false} LiveIsCounted(cores: seq<CoreState>, ts: seq<Token>, enters: nat, round: Round, t: nat)
    requires Counted(cores, ts) && Held(ts, enters, round)
    requires forall u: nat :: u < |ts| ==> ts[u].core < |cores|
    requires Live(ts, t) && !FirstCancelling(ts)
    ensures Out(cores, ts) != {}
    decreases t
  {
    var c := ts[t].core;
    assert CoreCounted(cores, ts, c);
    CountMeansLive(cores, ts, c);
    if CancelInFlight(ts, c) {
      var u: nat :| u < |ts| && ts[u].core == c && ts[u].stage.Cancelling?;
      assert Pending(ts, u) && TokenHeld(ts, enters, round, u);
      LiveIsCounted(cores, ts, enters, round, ts[u].parent.value);
    } else {
      assert c in Out(cores, ts);
    }
  }

  /** No false termination: when the master is about to see `cores_out` reach 0, everything
      enrolled anywhere has been completed. */
  lemma LastEnterMeansDone(s: System)
    requires Safe(s) && Enter in s.net && s.cores[0].coresOut == 1
    ensures AllDone(s.tokens) && s.net[Enter] == 1
    ensures forall c: nat :: c < |s.cores| ==> s.cores[c].count == 0
  {
    assert |Out(s.cores, s.tokens)| == 0;
    forall u: nat ensures !(Pending(s.tokens, u) && s.tokens[u].stage.Cancelling? && s.tokens[u].parent.None?) {
      assert TokenHeld(s.tokens, s.net[Enter], s.round, u);
    }
    if t: nat :| Live(s.tokens, t) {
      LiveIsCounted(s.cores, s.tokens, s.net[Enter], s.round, t);
    }
    forall c: nat | c < |s.cores| ensures s.cores[c].count == 0 {
      assert CoreCounted(s.cores, s.tokens, c);
      CountMeansLive(s.cores, s.tokens, c);
    }
  }
}
