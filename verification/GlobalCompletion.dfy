/** The distributed protocol of GlobalCompletionEvent: one `CoreState` per core, core 0 the
    master, and a bag of messages that are delivered in any order.

    A `Token` stands for the units one `enroll` call added. The caller of a further `enroll`
    must hold a unit of an earlier token; only the first enroll of a phase has no such parent. */
module GlobalCompletion {
  import opened Wrappers
  import opened CompletionCore

  datatype Stage =
    | Cancelling            // the cancel is on its way to the master
    | Answered(out: int)    // the master replied with this value of cores_out
    | Announcing(left: nat) // waiting for this many cores to acknowledge event_in_progress
    | Active                // enroll has returned

  datatype Token = Token(core: nat, amount: nat, stage: Stage, parent: Option<nat>, recurring: bool)

  datatype Message =
    | Cancel(tok: nat)
    | Reply(tok: nat, out: int)
    | Announce(tok: nat, dst: nat)
    | AnnounceAck(tok: nat)
    | Enter
    | Reset(dst: nat, re: int)
    | ResetAck(re: int)
    | Wake(dst: nat)

  /** Where the two-round broadcast that ends a phase has got to. */
  datatype Round = Calm | Resetting(re: int) | Waking

  datatype System = System(
    cores: seq<CoreState>,
    tokens: seq<Token>,          // in the order of their enroll calls
    net: multiset<Message>,
    round: Round,
    phase: nat,                  // phases ended so far
    resets: seq<nat>,            // per core: reset handlers run so far
    joined: seq<seq<Waiter>>,    // per core: every wait that suspended, in order
    woken: seq<seq<Waiter>>)     // per core: every wait that was woken, in order

  ghost predicate Live(ts: seq<Token>, t: nat) { t < |ts| && ts[t].amount > 0 }

  ghost predicate AllDone(ts: seq<Token>) { forall t: nat :: !Live(ts, t) }

  ghost predicate CancelInFlight(ts: seq<Token>, c: nat) {
    exists t: nat :: t < |ts| && ts[t].core == c && ts[t].stage.Cancelling?
  }

  /** The cores the master should be counting: they have work and their cancel was handled. */
  ghost function Out(cores: seq<CoreState>, ts: seq<Token>): set<nat> {
    set c: nat | c < |cores| && cores[c].count > 0 && !CancelInFlight(ts, c)
  }

  /** Units enrolled on core `c` and not yet completed. */
  ghost function Units(ts: seq<Token>, c: nat): nat {
    if ts == [] then 0
    else Units(ts[..|ts| - 1], c) + UnitsOf(ts[|ts| - 1], c)
  }

  ghost function UnitsOf(t: Token, c: nat): nat { if t.core == c then t.amount else 0 }

  ghost function ToAll(n: nat, re: int): multiset<Message> {
    multiset(set c: nat | c < n :: Reset(c, re))
  }

  ghost function WakeAll(n: nat): multiset<Message> {
    multiset(set c: nat | c < n :: Wake(c))
  }

  ghost function AnnounceOthers(n: nat, tok: nat, me: nat): multiset<Message> {
    multiset(set c: nat | c < n && c != me :: Announce(tok, c))
  }

  // ---------------------------------------------------------------- steps

  datatype Step =
    | DoEnroll(c: nat, inc: nat, parent: Option<nat>, recur: bool)
    | DoCancel(t: nat)
    | DoReply(t: nat, out: int)
    | DoAnnounce(t: nat, c: nat)
    | DoAnnounceAck(t: nat)
    | DoComplete(t: nat, dec: nat)
    | DoEnter
    | DoReset(c: nat, re: int)
    | DoResetAck(re: int)
    | DoWake(c: nat)
    | DoWait(c: nat)

  /** What the machinery itself allows: messages exist before they are delivered, and an
      enrollment is completed only after its enroll call returned. */
  ghost predicate Enabled(s: System, p: Step) {
    match p
    case DoEnroll(c, inc, parent, recur) => c < |s.cores| && (recur ==> c == 0)
    case DoCancel(t) => t < |s.tokens| && Cancel(t) in s.net && |s.cores| > 0
    case DoReply(t, out) => t < |s.tokens| && s.tokens[t].core < |s.cores| && Reply(t, out) in s.net
    case DoAnnounce(t, c) => c < |s.cores| && Announce(t, c) in s.net
    case DoAnnounceAck(t) =>
      t < |s.tokens| && AnnounceAck(t) in s.net && s.tokens[t].stage.Announcing? && s.tokens[t].stage.left > 0
    case DoComplete(t, dec) =>
      t < |s.tokens| && s.tokens[t].core < |s.cores| && s.tokens[t].stage.Active? && 1 <= dec <= s.tokens[t].amount
    case DoEnter => |s.cores| > 0 && Enter in s.net
    case DoReset(c, re) => c < |s.cores| && c < |s.resets| && Reset(c, re) in s.net
    case DoResetAck(re) => |s.cores| > 0 && ResetAck(re) in s.net
    case DoWake(c) => c < |s.cores| && c < |s.woken| && Wake(c) in s.net
    case DoWait(c) => c < |s.cores| && c < |s.joined| && c < |s.resets|
  }

  /** The rules the documentation puts on callers. The first enroll of a phase is made after the
      previous phase has ended, when every core has been reset; its wake messages may still be on
      their way. Every other enroll is made while holding a unit of an earlier token, which cannot
      be used up meanwhile. */
  ghost predicate Permitted(s: System, p: Step) {
    match p
    case DoEnroll(c, inc, parent, recur) =>
      (match parent
       case None => AllDone(s.tokens) && !s.round.Resetting? && Enter !in s.net
       case Some(q) => Live(s.tokens, q) && s.tokens[q].stage.Active?)
    case DoComplete(t, dec) =>
      t < |s.tokens| && (dec == s.tokens[t].amount ==>
        forall u: nat :: u < |s.tokens| && !s.tokens[u].stage.Active? ==> s.tokens[u].parent != Some(t))
    case _ => true
  }

  /** What waking everybody needs besides: the first enroll of a phase waits until the wake messages
      of the previous one have been delivered, and so does the completion of the last re-enrolled
      unit. */
  ghost predicate Patient(s: System, p: Step) {
    match p
    case DoEnroll(c, inc, parent, recur) => parent.None? ==> s.round.Calm?
    case DoComplete(t, dec) =>
      t < |s.tokens| && (dec == s.tokens[t].amount ==> !(s.tokens[t].recurring && s.round.Waking?))
    case _ => true
  }

  ghost function SetCore(s: System, c: nat, k: CoreState): System
    requires c < |s.cores|
  {
    s.(cores := s.cores[c := k])
  }

  ghost function SetStage(s: System, t: nat, g: Stage): System
    requires t < |s.tokens|
  {
    s.(tokens := s.tokens[t := s.tokens[t].(stage := g)])
  }

  ghost function AfterEnroll(s: System, c: nat, inc: nat, parent: Option<nat>, recur: bool): System
    requires c < |s.cores|
  {
    var k := if recur then s.cores[c].(reenroll := inc) else s.cores[c];
    if inc == 0 then SetCore(s, c, k)
    else
      var t := |s.tokens|;
      if IsFirst(k, inc)
      then SetCore(s, c, Enrolled(k, inc)).(tokens := s.tokens + [Token(c, inc, Cancelling, parent, false)],
                                            net := s.net + multiset{Cancel(t)})
      else SetCore(s, c, Enrolled(k, inc)).(tokens := s.tokens + [Token(c, inc, Active, parent, false)])
  }

  ghost function AfterCancel(s: System, t: nat): System
    requires t < |s.tokens| && |s.cores| > 0
  {
    var k := Cancelled(s.cores[0]);
    SetStage(SetCore(s, 0, k), t, Answered(k.coresOut)).(net := s.net - multiset{Cancel(t)} + multiset{Reply(t, k.coresOut)})
  }

  ghost function AfterReply(s: System, t: nat, out: int): System
    requires t < |s.tokens| && s.tokens[t].core < |s.cores|
  {
    var me, n := s.tokens[t].core, |s.cores|;
    var s' := s.(net := s.net - multiset{Reply(t, out)});
    if out == 1 then
      var s'' := SetCore(s', me, Announced(s.cores[me]));
      if n == 1 then SetStage(s'', t, Active)
      else SetStage(s'', t, Announcing(n - 1)).(net := s'.net + AnnounceOthers(n, t, me))
    else SetStage(s', t, Active)
  }

  ghost function AfterAnnounce(s: System, t: nat, c: nat): System
    requires c < |s.cores|
  {
    SetCore(s, c, Announced(s.cores[c])).(net := s.net - multiset{Announce(t, c)} + multiset{AnnounceAck(t)})
  }

  ghost function AfterAnnounceAck(s: System, t: nat): System
    requires t < |s.tokens| && s.tokens[t].stage.Announcing? && s.tokens[t].stage.left > 0
  {
    var left := s.tokens[t].stage.left - 1;
    SetStage(s, t, if left == 0 then Active else Announcing(left)).(net := s.net - multiset{AnnounceAck(t)})
  }

  ghost function AfterComplete(s: System, t: nat, dec: nat): System
    requires t < |s.tokens| && s.tokens[t].core < |s.cores| && dec <= s.tokens[t].amount
  {
    var c := s.tokens[t].core;
    var k := Completed(s.cores[c], dec);
    SetCore(s, c, k).(tokens := s.tokens[t := s.tokens[t].(amount := s.tokens[t].amount - dec)],
                      net := if k.count == 0 then s.net + multiset{Enter} else s.net)
  }

  ghost function AfterEnter(s: System): System
    requires |s.cores| > 0
  {
    var n := |s.cores|;
    var k := Entered(s.cores[0], n);
    var s' := SetCore(s, 0, k).(net := s.net - multiset{Enter});
    if k.coresOut == 0
    then s'.(net := s'.net + ToAll(n, k.reenroll), round := Resetting(k.reenroll), phase := s.phase + 1)
    else s'
  }

  ghost function AfterReset(s: System, c: nat, re: int): System
    requires c < |s.cores| && c < |s.resets|
  {
    SetCore(s, c, WasReset(s.cores[c], re)).(net := s.net - multiset{Reset(c, re)} + multiset{ResetAck(re)},
                                            resets := s.resets[c := s.resets[c] + 1])
  }

  ghost function AfterResetAck(s: System, re: int): System
    requires |s.cores| > 0
  {
    var k := Acknowledged(s.cores[0], re);
    var s' := SetCore(s, 0, k).(net := s.net - multiset{ResetAck(re)});
    if k.wakingOut == 0
    then s'.(net := s'.net + WakeAll(|s.cores|),
             round := Waking,
             tokens := if re > 0 then s.tokens + [Token(0, re, Active, None, true)] else s.tokens)
    else s'
  }

  ghost function AfterWake(s: System, c: nat): System
    requires c < |s.cores| && c < |s.woken|
  {
    var net := s.net - multiset{Wake(c)};
    SetCore(s, c, CompletionCore.Woken(s.cores[c])).(net := net,
      woken := s.woken[c := s.woken[c] + s.cores[c].wakingCv],
      round := if s.round.Waking? && forall d: nat :: d < |s.cores| ==> Wake(d) !in net then Calm else s.round)
  }

  ghost function AfterWait(s: System, c: nat): System
    requires c < |s.cores| && c < |s.joined| && c < |s.resets|
  {
    var w := Waiter(|s.joined[c]|, s.resets[c]);
    if Suspends(s.cores[c], s.cores[0].coresOut)
    then SetCore(s, c, Waited(s.cores[c], w, s.cores[0].coresOut)).(joined := s.joined[c := s.joined[c] + [w]])
    else s
  }

  ghost function Apply(s: System, p: Step): System
    requires Enabled(s, p)
  {
    match p
    case DoEnroll(c, inc, parent, recur) => AfterEnroll(s, c, inc, parent, recur)
    case DoCancel(t) => AfterCancel(s, t)
    case DoReply(t, out) => AfterReply(s, t, out)
    case DoAnnounce(t, c) => AfterAnnounce(s, t, c)
    case DoAnnounceAck(t) => AfterAnnounceAck(s, t)
    case DoComplete(t, dec) => AfterComplete(s, t, dec)
    case DoEnter => AfterEnter(s)
    case DoReset(c, re) => AfterReset(s, c, re)
    case DoResetAck(re) => AfterResetAck(s, re)
    case DoWake(c) => AfterWake(s, c)
    case DoWait(c) => AfterWait(s, c)
  }

  ghost function Initial(n: nat): System {
    System(seq(n, _ => CoreState(0, false, 0, 0, 0, [], [])), [], multiset{}, Calm, 0,
           seq(n, _ => 0), seq(n, _ => []), seq(n, _ => []))
  }

  /** Runs of enabled steps whose callers keep the rules; patient ones keep both. */
  ghost predicate Follows(s: System, steps: seq<Step>, s': System)
    decreases |steps|
  {
    if steps == [] then s' == s
    else Enabled(s, steps[0]) && Permitted(s, steps[0]) && Follows(Apply(s, steps[0]), steps[1..], s')
  }

  ghost predicate FollowsPatiently(s: System, steps: seq<Step>, s': System)
    decreases |steps|
  {
    if steps == [] then s' == s
    else Enabled(s, steps[0]) && Permitted(s, steps[0]) && Patient(s, steps[0])
         && FollowsPatiently(Apply(s, steps[0]), steps[1..], s')
  }
}
