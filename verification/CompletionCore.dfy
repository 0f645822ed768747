/** One core's copy of a GlobalCompletionEvent: the fields of the source's class, and the
    pieces of its code that run without a suspension point in between.

    Each piece is first a function on `CoreState`, a snapshot of the fields; the methods of
    the class at the end of the file update the fields in place and are proved to compute
    exactly these functions. The protocol in GlobalCompletion.dfy is built from the functions. */
module CompletionCore {

  /** One call of `wait` that suspended. `id` numbers such calls on a core; `phase` is the
      number of times that core had been reset when the call was made. */
  datatype Waiter = Waiter(id: nat, phase: nat)

  datatype CoreState = CoreState(
    count: int,               // enrolled and not yet completed on this core
    inProgress: bool,         // event_in_progress
    coresOut: int,            // cores_out, meaningful on the master only
    reenroll: int,            // reenroll_count
    wakingOut: int,           // temporary_waking_cores_out
    cv: seq<Waiter>,          // workers suspended in wait
    wakingCv: seq<Waiter>)    // temporary_waking_cv

  /** The state `reset` leaves behind. */
  function Cleared(k: CoreState): CoreState {
    k.(count := 0, cv := [], coresOut := 0, reenroll := 0, inProgress := false)
  }

  /** `enroll` up to its call to the master: is this the first work on this core? */
  predicate IsFirst(k: CoreState, inc: int) { k.count + inc == inc }

  function Enrolled(k: CoreState, inc: int): CoreState {
    if IsFirst(k, inc)
    then k.(count := k.count + inc, inProgress := true)
    else k.(count := k.count + inc)
  }

  /** The cancel handler on the master; its result is the new `cores_out`. */
  function Cancelled(k: CoreState): CoreState { k.(coresOut := k.coresOut + 1) }

  /** The handler that tells every core an event is in progress. */
  function Announced(k: CoreState): CoreState { k.(inProgress := true) }

  /** `complete`: the core enters the barrier when the new count is 0. */
  function Completed(k: CoreState, dec: int): CoreState { k.(count := k.count - dec) }

  /** The enter handler on the master; all cores are in when the new `coresOut` is 0. */
  function Entered(k: CoreState, n: nat): CoreState {
    if k.coresOut - 1 == 0
    then k.(coresOut := 0, wakingOut := n)
    else k.(coresOut := k.coresOut - 1)
  }

  /** The reset handler: park the waiters, clear, and remember a requested re-enroll. */
  function WasReset(k: CoreState, re: int): CoreState {
    Cleared(k.(wakingCv := k.cv)).(inProgress := re != 0)
  }

  /** The acknowledgement handler on the master; the wake round starts at `wakingOut` 0. */
  function Acknowledged(k: CoreState, re: int): CoreState {
    var k' := k.(wakingOut := k.wakingOut - 1);
    if k'.wakingOut == 0 && re != 0 then k'.(count := re, coresOut := 1, reenroll := re) else k'
  }

  /** The wake handler: everyone parked by the reset is woken. */
  function Woken(k: CoreState): CoreState { k.(wakingCv := []) }

  /** `wait`: does the caller suspend? `masterOut` is what a remote read of `cores_out` gives. */
  predicate Suspends(k: CoreState, masterOut: int) { k.inProgress || masterOut > 0 }

  function Waited(k: CoreState, w: Waiter, masterOut: int): CoreState {
    if Suspends(k, masterOut) then k.(cv := [w] + k.cv) else k
  }

  /** The reset handler overwrites `temporary_waking_cv`. It forgets nobody exactly when the
      list it overwrites was empty, that is, when the previous wake had been delivered. */
  lemma ResetForgetsNobodyIff(k: CoreState, re: int)
    ensures multiset(WasReset(k, re).cv) + multiset(WasReset(k, re).wakingCv)
            == multiset(k.cv) + multiset(k.wakingCv)
       <==> k.wakingCv == []
  {
    var after := multiset(WasReset(k, re).cv) + multiset(WasReset(k, re).wakingCv);
    assert after == multiset(k.cv);
    if k.wakingCv != [] {
      assert k.wakingCv[0] in multiset(k.wakingCv);
      assert |after| < |multiset(k.cv) + multiset(k.wakingCv)|;
    }
  }

  class GlobalCompletionEvent {
    var count: int
    var inProgress: bool
    var coresOut: int
    var reenroll: int
    var wakingOut: int
    var cv: seq<Waiter>
    var wakingCv: seq<Waiter>

    ghost function State(): CoreState
      reads this
    {
      CoreState(count, inProgress, coresOut, reenroll, wakingOut, cv, wakingCv)
    }

    constructor ()
      ensures State() == CoreState(0, false, 0, 0, 0, [], [])
    {
      count, cv, coresOut, reenroll, inProgress := 0, [], 0, 0, false;
      wakingOut, wakingCv := 0, [];
    }

    /** Back to the state the constructor leaves, but for a wake round that is under way. */
    method Reset()
      modifies this
      ensures State() == Cleared(old(State()))
      ensures State() == CoreState(0, false, 0, 0, old(wakingOut), [], old(wakingCv))
    {
      count := 0;
      cv := [];
      coresOut := 0;
      reenroll := 0;
      inProgress := false;
    }

    /** Runs up to the call to the master; `first` says whether that call is made. */
    method Enroll(inc: int) returns (first: bool)
      requires inc >= 1
      modifies this
      ensures State() == Enrolled(old(State()), inc)
      ensures first == IsFirst(old(State()), inc)
      ensures count == old(count) + inc && inProgress == (old(inProgress) || old(count) == 0)
    {
      count := count + inc;
      first := count == inc;
      if first {
        inProgress := true;
      }
    }

    method HandleCancel() returns (out: int)
      modifies this
      ensures State() == Cancelled(old(State())) && out == coresOut
    {
      coresOut := coresOut + 1;
      out := coresOut;
    }

    method HandleAnnounce()
      modifies this
      ensures State() == Announced(old(State()))
    {
      inProgress := true;
    }

    method Complete(dec: int) returns (enters: bool)
      modifies this
      ensures State() == Completed(old(State()), dec) && enters == (count == 0)
    {
      count := count - dec;
      enters := count == 0;
    }

    method HandleEnter(n: nat) returns (allIn: bool)
      modifies this
      ensures State() == Entered(old(State()), n) && allIn == (coresOut == 0)
    {
      coresOut := coresOut - 1;
      allIn := coresOut == 0;
      if allIn {
        wakingOut := n;
      }
    }

    method HandleReset(re: int)
      modifies this
      ensures State() == WasReset(old(State()), re)
    {
      wakingCv := cv;
      Reset();
      if re != 0 {
        inProgress := true;
      }
    }

    method HandleAck(re: int) returns (allReset: bool)
      modifies this
      ensures State() == Acknowledged(old(State()), re) && allReset == (wakingOut == 0)
    {
      wakingOut := wakingOut - 1;
      allReset := wakingOut == 0;
      if allReset && re != 0 {
        count := re;
        coresOut := 1;
        reenroll := re;
      }
    }

    /** Pops the parked workers one at a time, most recently parked first. */
    method HandleWake() returns (woken: seq<Waiter>)
      modifies this
      ensures State() == Woken(old(State())) && woken == old(wakingCv)
    {
      woken := [];
      while wakingCv != []
        invariant woken + wakingCv == old(wakingCv)
        invariant State() == old(State()).(wakingCv := wakingCv)
        decreases |wakingCv|
      {
        woken := woken + [wakingCv[0]];
        wakingCv := wakingCv[1..];
      }
    }

    method Wait(w: Waiter, masterOut: int) returns (suspended: bool)
      modifies this
      ensures State() == Waited(old(State()), w, masterOut)
      ensures suspended == Suspends(old(State()), masterOut)
    {
      suspended := inProgress;
      if !inProgress {
        suspended := masterOut > 0;
      }
      if suspended {
        cv := [w] + cv;
      }
    }
  }
}
