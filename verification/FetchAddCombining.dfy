/** FetchAddCombiner: calls to fetch_and_add on one target are combined into one remote add,
    whose result the participants of the batch then divide among themselves. */
module FetchAddCombining {

  /** The fields of the class. Waiting workers are listed most recent first. */
  datatype Unit = Unit(
    initVal: int, threshold: int,
    result: int, increment: int, committed: int, participants: int, readyWaiters: int, outstanding: bool,
    cvReady: seq<nat>,      // untilNotOutstanding
    cvReceived: seq<nat>)   // untilReceived

  function Promised(u: Unit): Unit { u.(committed := u.committed + 1) }

  /** `block_until_ready` finds the unit outstanding: the caller suspends. */
  function Blocked(u: Unit, w: nat): Unit {
    u.(readyWaiters := u.readyWaiters + 1, cvReady := [w] + u.cvReady)
  }

  function Unblocked(u: Unit): Unit { u.(readyWaiters := u.readyWaiters - 1) }

  /** The caller joins the batch; is it the one that starts the flush? */
  function Joined(u: Unit, inc: int): Unit {
    u.(participants := u.participants + 1, committed := u.committed - 1, increment := u.increment + inc)
  }

  predicate StartsFlush(u: Unit) {
    u.readyWaiters == 0 && (u.participants >= u.threshold || u.committed == 0)
  }

  function Entered(u: Unit, w: nat, inc: int): Unit {
    var u' := Joined(u, inc);
    if StartsFlush(u') then u'.(outstanding := true) else u'.(cvReceived := [w] + u'.cvReceived)
  }

  /** The reply of the remote call: everyone in the batch may go on. */
  function Received(u: Unit, r: int): Unit { u.(result := r, cvReceived := []) }

  /** A participant takes its range; the last one makes the unit ready again. */
  function Taken(u: Unit, inc: int): Unit {
    var u' := u.(result := u.result + inc, participants := u.participants - 1, increment := u.increment - inc);
    if u'.participants == 0 then u'.(outstanding := false, cvReady := []) else u'
  }

  /** The check the last participant makes. */
  predicate CheckPasses(u: Unit) { u.participants == 0 ==> u.increment == 0 }

  class FetchAddCombiner {
    const initVal: int
    const threshold: int
    var result: int
    var increment: int
    var committed: int
    var participants: int
    var readyWaiters: int
    var outstanding: bool
    var cvReady: seq<nat>
    var cvReceived: seq<nat>

    ghost function State(): Unit
      reads this
    {
      Unit(initVal, threshold, result, increment, committed, participants, readyWaiters, outstanding, cvReady, cvReceived)
    }

    constructor (threshold: int, initVal: int)
      ensures State() == Unit(initVal, threshold, 0, initVal, 0, 0, 0, false, [], [])
    {
      this.initVal, this.threshold := initVal, threshold;
      result, increment, committed, participants, readyWaiters := 0, initVal, 0, 0, 0;
      outstanding, cvReady, cvReceived := false, [], [];
    }

    method Promise()
      modifies this
      ensures State() == Promised(old(State()))
    {
      committed := committed + 1;
    }

    /** One round of the loop in block_until_ready: does the caller suspend? */
    method BlockUntilReady(w: nat) returns (suspends: bool)
      modifies this
      ensures suspends == old(outstanding)
      ensures State() == if suspends then Blocked(old(State()), w) else old(State())
      ensures cvReady == if suspends then [w] + old(cvReady) else old(cvReady)
    {
      suspends := outstanding;
      if outstanding {
        readyWaiters := readyWaiters + 1;
        cvReady := [w] + cvReady;
      }
    }

    /** fetch_and_add from the end of block_until_ready to the remote call or the wait. */
    method Enter(w: nat, inc: int) returns (flushes: bool, total: int)
      modifies this
      ensures State() == Entered(old(State()), w, inc)
      ensures flushes == StartsFlush(Joined(old(State()), inc)) && total == old(increment) + inc
      ensures cvReceived == if flushes then old(cvReceived) else [w] + old(cvReceived)
    {
      participants := participants + 1;
      committed := committed - 1;
      increment := increment + inc;
      total := increment;
      flushes := readyWaiters == 0 && (participants >= threshold || committed == 0);
      if flushes {
        outstanding := true;
      } else {
        cvReceived := [w] + cvReceived;
      }
    }

    method Receive(r: int) returns (woken: seq<nat>)
      modifies this
      ensures State() == Received(old(State()), r) && woken == old(cvReceived)
    {
      result := r;
      woken := [];
      while cvReceived != []
        invariant woken + cvReceived == old(cvReceived)
        invariant State() == old(State()).(result := r, cvReceived := cvReceived)
        decreases |cvReceived|
      {
        woken := woken + [cvReceived[0]];
        cvReceived := cvReceived[1..];
      }
    }

    /** The rest of fetch_and_add; `ok` is the validation check of the last participant. */
    method Take(inc: int) returns (start: int, ok: bool)
      modifies this
      ensures State() == Taken(old(State()), inc)
      ensures start == old(result) && ok == CheckPasses(State())
    {
      start := result;
      result := result + inc;
      participants := participants - 1;
      increment := increment - inc;
      ok := true;
      if participants == 0 {
        ok := increment == 0;
        outstanding := false;
        cvReady := [];
      }
    }
  }
}
