/** Acquiring a range of global memory into a buffer, and releasing a buffer into global memory:
    the completion flags, the requests and replies, and the worker that waits. */
module Incoherent {
  import opened Addressing
  import opened IncoherentRequests

  // ---------------------------------------------------------------- the objects

  /** `sleeper` stands for a thread_ that is not null. */
  datatype Flags = Flags(started: bool, finished: bool, sleeper: bool, messages: int, responses: int, payload: int)

  /** A range on this core, or an empty one, needs no messages. */
  predicate Short(a: Address, total: nat, local: bool) { total == 0 || (a.TwoD? && local) }

  function Fresh(a: Address, total: nat, local: bool): Flags {
    Flags(Short(a, total, local), Short(a, total, local), false, NumMessages(a, total), 0, 0)
  }

  function Replied(f: Flags, bytes: nat): Flags {
    var f' := f.(responses := f.responses + 1, payload := f.payload + bytes);
    f'.(finished := f.finished || f'.responses == f'.messages)
  }

  /** One turn of the waiting loop: suspend unless the flag is set. */
  function Turned(f: Flags): Flags { f.(sleeper := !f.finished) }

  predicate Wakes(f: Flags, bytes: nat) { f.responses + 1 == f.messages && f.sleeper }

  ghost function Overwritten(buf: seq<int>, offset: nat, payload: seq<int>): seq<int>
    requires offset + |payload| <= |buf|
  {
    buf[..offset] + payload + buf[offset + |payload|..]
  }

  class IncoherentAcquirer {
    var started: bool
    var acquired: bool
    var sleeper: bool
    var numMessages: int
    var responseCount: int
    var totalReplyPayload: int
    const buffer: array<int>

    ghost function State(): Flags
      reads this
    {
      Flags(started, acquired, sleeper, numMessages, responseCount, totalReplyPayload)
    }

    constructor (a: Address, total: nat, local: bool, buffer: array<int>)
      ensures State() == Fresh(a, total, local) && this.buffer == buffer
    {
      this.buffer := buffer;
      started, acquired, sleeper := false, false, false;
      numMessages, responseCount, totalReplyPayload := 0, 0, 0;
      new;
      Reset(a, total, local);
    }

    /** The CHECK wants that nothing is under way. */
    method Reset(a: Address, total: nat, local: bool)
      requires !started || acquired
      modifies this
      ensures State() == Fresh(a, total, local)
    {
      started, acquired, sleeper := false, false, false;
      numMessages, responseCount, totalReplyPayload := 0, 0, 0;
      if total == 0 {
        started, acquired := true, true;
      } else if a.TwoD? {
        numMessages := 1;
        if local { started, acquired := true, true; }
      } else {
        numMessages := (BlockMax(a.s + total - 1, 1) - BlockMin(a.s)) / BLOCK;
      }
    }

    /** start_acquire: are the requests to be sent now? */
    method Start() returns (sends: bool)
      modifies this
      ensures State() == old(State()).(started := true) && sends == !old(started)
    {
      sends := !started;
      started := true;
    }

    /** One turn of block_until_acquired, for a worker that comes to wait or has been woken. */
    method Turn() returns (suspends: bool)
      modifies this
      ensures State() == Turned(old(State())) && suspends == !acquired
    {
      suspends := !acquired;
      sleeper := suspends;
    }

    /** memcpy into the buffer */
    method CopyIn(offset: nat, payload: seq<int>)
      requires offset + |payload| <= buffer.Length
      modifies buffer
      ensures buffer[..] == Overwritten(old(buffer[..]), offset, payload)
    {
      var i := 0;
      while i < |payload|
        invariant 0 <= i <= |payload|
        invariant forall x: nat :: x < buffer.Length ==>
                    buffer[x] == if offset <= x < offset + i then payload[x - offset] else old(buffer[x])
      {
        buffer[offset + i] := payload[i];
        i := i + 1;
      }
    }

    method AcquireReply(offset: nat, payload: seq<int>) returns (wakes: bool)
      requires offset + |payload| <= buffer.Length
      modifies this, buffer
      ensures State() == Replied(old(State()), |payload|) && wakes == Wakes(old(State()), |payload|)
      ensures buffer[..] == Overwritten(old(buffer[..]), offset, payload)
    {
      CopyIn(offset, payload);
      responseCount := responseCount + 1;
      totalReplyPayload := totalReplyPayload + |payload|;
      wakes := false;
      if responseCount == numMessages {
        acquired := true;
        wakes := sleeper;
      }
    }
  }

  class IncoherentReleaser {
    var started: bool
    var released: bool
    var sleeper: bool
    var numMessages: int
    var responseCount: int

    ghost function State(): Flags
      reads this
    {
      Flags(started, released, sleeper, numMessages, responseCount, 0)
    }

    constructor (a: Address, total: nat, local: bool)
      ensures State() == Fresh(a, total, local)
    {
      started, released, sleeper := false, false, false;
      numMessages, responseCount := 0, 0;
      new;
      Reset(a, total, local);
    }

    method Reset(a: Address, total: nat, local: bool)
      requires !started || released
      modifies this
      ensures State() == Fresh(a, total, local)
    {
      started, released, sleeper := false, false, false;
      numMessages, responseCount := 0, 0;
      if total == 0 {
        started, released := true, true;
      } else if a.TwoD? {
        numMessages := 1;
        if local { started, released := true, true; }
      } else {
        numMessages := (BlockMax(a.s + total - 1, 1) - BlockMin(a.s)) / BLOCK;
      }
    }

    /** start_release */
    method Start() returns (sends: bool)
      modifies this
      ensures State() == old(State()).(started := true) && sends == !old(started)
    {
      sends := !started;
      started := true;
    }

    /** One turn of block_until_released. */
    method Turn() returns (suspends: bool)
      modifies this
      ensures State() == Turned(old(State())) && suspends == !released
    {
      suspends := !released;
      sleeper := suspends;
    }

    method ReleaseReply() returns (wakes: bool)
      modifies this
      ensures State() == Replied(old(State()), 0) && wakes == Wakes(old(State()), 0)
    {
      responseCount := responseCount + 1;
      wakes := false;
      if responseCount == numMessages {
        released := true;
        wakes := sleeper;
      }
    }
  }
}
