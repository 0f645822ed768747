/** Flattening of remote completions: each core keeps one reusable message per owner, and
    completions made while that message waits to be sent are added up and sent later. */
module CompletionMessages {

  /** The flags and fields of one CompletionMessage. */
  datatype Mail = Mail(enqueued: bool, delivered: bool, dec: int, toSend: int)

  predicate WaitingToSend(m: Mail) { m.enqueued }

  /** `send_completion` to another core. A coalesced call adds 1, whatever its `dec`. */
  function Sent(m: Mail, dec: int): Mail {
    if WaitingToSend(m) then m.(toSend := m.toSend + 1)
    else m.(dec := dec, enqueued := true)
  }

  /** The communication layer copies the contents out, or runs them on a core nearby. */
  function Delivered(m: Mail): Mail { m.(delivered := true) }

  /** `mark_sent` on the source core: reset, then send again what was added up meanwhile. */
  function MarkedSent(m: Mail): Mail {
    if m.toSend > 0 then Mail(true, false, m.toSend, 0) else m.(enqueued := false, delivered := false)
  }

  class CompletionMessage {
    var isEnqueued: bool
    var isSent: bool
    var isDelivered: bool
    var dec: int
    var completesToSend: int

    ghost predicate Valid()
      reads this
    {
      !isSent
    }

    ghost function State(): Mail
      reads this
    {
      Mail(isEnqueued, isDelivered, dec, completesToSend)
    }

    constructor ()
      ensures Valid() && State() == Mail(false, false, 0, 0)
    {
      isEnqueued, isSent, isDelivered, dec, completesToSend := false, false, false, 0, 0;
    }

    /** The check that nothing was left behind is the precondition; it holds in every run, by
        CompletionsAreConserved below. */
    method SendCompletion(d: int)
      requires Valid() && (isEnqueued || completesToSend == 0)
      modifies this
      ensures Valid() && State() == Sent(old(State()), d)
    {
      if isEnqueued && !isSent {
        completesToSend := completesToSend + 1;
      } else {
        dec := d;
        isEnqueued := true;
      }
    }

    /** Everything set aside goes into the next message. */
    method MarkSent()
      requires Valid() && isEnqueued && isDelivered
      modifies this
      ensures Valid() && State() == MarkedSent(old(State()))
      ensures old(completesToSend) > 0 ==> isEnqueued && dec == old(completesToSend) && completesToSend == 0
      ensures old(completesToSend) <= 0 ==> !isEnqueued && completesToSend == old(completesToSend)
    {
      isSent := true;
      isEnqueued, isSent, isDelivered := false, false, false;
      if completesToSend > 0 {
        dec := completesToSend;
        completesToSend := 0;
        isEnqueued := true;
      }
    }
  }

  /** One sender and one owner. `called` and `applied` are totals of decrements. */
  datatype Flow = Flow(mail: Mail, inFlight: seq<int>, applied: int, called: int)

  datatype Step = Send(dec: int) | Copy | MarkSent | Apply(i: nat)

  ghost predicate Enabled(f: Flow, p: Step) {
    match p
    case Send(dec) => dec >= 1
    case Copy => f.mail.enqueued && !f.mail.delivered
    case MarkSent => f.mail.enqueued && f.mail.delivered
    case Apply(i) => i < |f.inFlight|
  }

  ghost function After(f: Flow, p: Step): Flow
    requires Enabled(f, p)
  {
    match p
    case Send(dec) => f.(mail := Sent(f.mail, dec), called := f.called + dec)
    case Copy => f.(mail := Delivered(f.mail), inFlight := f.inFlight + [f.mail.dec])
    case MarkSent => f.(mail := MarkedSent(f.mail))
    case Apply(i) => f.(inFlight := f.inFlight[..i] + f.inFlight[i + 1..], applied := f.applied + f.inFlight[i])
  }

  ghost function Sum(a: seq<int>): int { if a == [] then 0 else a[0] + Sum(a[1..]) }

  lemma {:induction false} SumConcat(a: seq<int>, b: seq<int>)
    ensures Sum(a + b) == Sum(a) + Sum(b)
  {
    if a == [] {
      assert a + b == b;
    } else {
      SumConcat(a[1..], b);
      assert (a + b)[1..] == a[1..] + b;
    }
  }

  /** Decrements that were called for and have not been applied yet. */
  ghost function Outstanding(f: Flow): int {
    Sum(f.inFlight) + (if f.mail.enqueued && !f.mail.delivered then f.mail.dec else 0) + f.mail.toSend
  }

  ghost predicate Conserved(f: Flow) { f.called == f.applied + Outstanding(f) }

  /** Completions are set aside only while a message is waiting to be sent. */
  ghost predicate Tidy(f: Flow) {
    f.mail.toSend >= 0 && (f.mail.toSend > 0 ==> f.mail.enqueued) && (f.mail.delivered ==> f.mail.enqueued)
  }

  /** A call keeps the total right exactly when it completes one unit or starts a message. */
  lemma SendConservesIff(f: Flow, dec: int)
    requires Tidy(f) && Conserved(f) && dec >= 1
    ensures Conserved(After(f, Send(dec))) <==> dec == 1 || !WaitingToSend(f.mail)
  {
  }

  lemma StepConserves(f: Flow, p: Step)
    requires Tidy(f) && Conserved(f) && Enabled(f, p)
    requires p.Send? ==> p.dec == 1 || !WaitingToSend(f.mail)
    ensures Tidy(After(f, p)) && Conserved(After(f, p))
  {
    match p
    case Send(dec) =>
    case Copy => SumConcat(f.inFlight, [f.mail.dec]);
    case MarkSent =>
    case Apply(i) =>
      var a, b := f.inFlight[..i], f.inFlight[i + 1..];
      assert f.inFlight == a + ([f.inFlight[i]] + b);
      SumConcat(a, [f.inFlight[i]] + b);
      SumConcat([f.inFlight[i]], b);
      SumConcat(a, b);
  }

  const FRESH := Flow(Mail(false, false, 0, 0), [], 0, 0)

  /** A run of possible steps from `f` to `f'`. */
  ghost predicate Follows(f: Flow, steps: seq<Step>, f': Flow)
    decreases |steps|
  {
    if steps == [] then f' == f
    else Enabled(f, steps[0]) && Follows(After(f, steps[0]), steps[1..], f')
  }

  /** Every call completes one unit. */
  ghost predicate Units(steps: seq<Step>) { forall i: nat :: i < |steps| && steps[i].Send? ==> steps[i].dec == 1 }

  lemma {:induction false} RunConserves(f: Flow, steps: seq<Step>, f': Flow)
    requires Tidy(f) && Conserved(f) && Follows(f, steps, f') && Units(steps)
    ensures Tidy(f') && Conserved(f')
    decreases |steps|
  {
    if steps != [] {
      StepConserves(f, steps[0]);
      assert Units(steps[1..]) by {
        forall i: nat | i < |steps[1..]| && steps[1..][i].Send? ensures steps[1..][i].dec == 1 { assert steps[i + 1].Send?; }
      }
      RunConserves(After(f, steps[0]), steps[1..], f');
    }
  }

  /** For unit completions, in every run: calls equal decrements applied, in flight, in the
      pending message and set aside; the sender's check never fails; and when no message is
      left, everything has been applied. */
  lemma CompletionsAreConserved(steps: seq<Step>, f: Flow)
    requires Follows(FRESH, steps, f) && Units(steps)
    ensures f.called == f.applied + Sum(f.inFlight)
                        + (if f.mail.enqueued && !f.mail.delivered then f.mail.dec else 0) + f.mail.toSend
    ensures f.mail.toSend > 0 ==> WaitingToSend(f.mail)
    ensures WaitingToSend(f.mail) || f.mail.toSend == 0
    ensures f.inFlight == [] && !WaitingToSend(f.mail) ==> f.applied == f.called
  {
    RunConserves(FRESH, steps, f);
  }

  /** However much was set aside while a message waited, one more message takes it all: once that has gone
      too, nothing is left to send. */
  lemma OneMoreMessageSuffices(steps: seq<Step>, f: Flow)
    requires Follows(FRESH, steps, f) && Units(steps) && Enabled(f, MarkSent)
    ensures var g := After(f, MarkSent);
            && g.mail.toSend == 0 && (WaitingToSend(g.mail) <==> f.mail.toSend > 0)
            && (WaitingToSend(g.mail) ==>
                  && g.mail.dec == f.mail.toSend && Enabled(g, Copy) && Enabled(After(g, Copy), MarkSent)
                  && !WaitingToSend(After(After(g, Copy), MarkSent).mail))
  {
    RunConserves(FRESH, steps, f);
  }

  lemma {:induction false} FollowsFirst(f: Flow, p: Step, rest: seq<Step>, f': Flow)
    requires Enabled(f, p) && Follows(After(f, p), rest, f')
    ensures Follows(f, [p] + rest, f')
  {
    assert ([p] + rest)[1..] == rest;
  }

  const THREE_UNITS := [Send(1), Send(2), Copy, Apply(0), MarkSent, Copy, Apply(0), MarkSent]

  /** Completing one unit, and two more before the message has gone, loses one for good: three units
      were completed, two have been applied, and nothing is left to send. */
  lemma LargerCompletionIsLost()
    ensures Follows(FRESH, THREE_UNITS, Flow(Mail(false, false, 1, 0), [], 2, 3))
  {
    var f1 := After(FRESH, Send(1));
    var f2 := After(f1, Send(2));
    var f3 := After(f2, Copy);
    var f4 := After(f3, Apply(0));
    var f5 := After(f4, MarkSent);
    var f6 := After(f5, Copy);
    var f7 := After(f6, Apply(0));
    var f8 := After(f7, MarkSent);
    assert f8 == Flow(Mail(false, false, 1, 0), [], 2, 3);
    FollowsFirst(f7, MarkSent, [], f8);
    FollowsFirst(f6, Apply(0), [MarkSent], f8);
    FollowsFirst(f5, Copy, [Apply(0), MarkSent], f8);
    FollowsFirst(f4, MarkSent, [Copy, Apply(0), MarkSent], f8);
    FollowsFirst(f3, Apply(0), [MarkSent, Copy, Apply(0), MarkSent], f8);
    FollowsFirst(f2, Copy, [Apply(0), MarkSent, Copy, Apply(0), MarkSent], f8);
    FollowsFirst(f1, Send(2), [Copy, Apply(0), MarkSent, Copy, Apply(0), MarkSent], f8);
    FollowsFirst(FRESH, Send(1), [Send(2), Copy, Apply(0), MarkSent, Copy, Apply(0), MarkSent], f8);
  }
}
