/** FlatCombiner on one core: the batch being filled, the batches being sent, and recycled ones.

    Code between two suspension points is first a function on `Combiner`, a snapshot of the
    fields; the class at the end updates the fields in place and computes these functions.
    Batches are objects named by number; `freelist` is the source's chain of recycled ones. */
module FlatCombining {
  import opened Wrappers

  /** A Flusher of the GlobalCounter: its proxy's delta, who sends it, and who waits for it
      (most recent first). */
  datatype Batch = Batch(delta: int, sender: Option<nat>, cv: seq<nat>)

  datatype Combiner = Combiner(current: nat, inflight: int, freelist: seq<nat>, batches: seq<Batch>)

  const EMPTY := Batch(0, None, [])

  predicate Shaped(k: Combiner) {
    && k.current < |k.batches|
    && k.current !in k.freelist
    && forall i: nat :: i < |k.freelist| ==> k.freelist[i] < |k.batches|
  }

  /** `get_flusher`: a recycled batch, cleared, or a new one; it becomes the current batch. */
  function Refilled(k: Combiner): (k': Combiner)
    requires Shaped(k)
    ensures k'.current < |k'.batches| && k'.current != k.current && |k'.batches| >= |k.batches|
    ensures forall b: nat :: b < |k.batches| && b != k'.current ==> k'.batches[b] == k.batches[b]
  {
    if k.freelist != []
    then k.(current := k.freelist[0], freelist := k.freelist[1..], batches := k.batches[k.freelist[0] := EMPTY])
    else k.(current := |k.batches|, batches := k.batches + [EMPTY])
  }

  function Added(k: Combiner, d: int): Combiner
    requires Shaped(k)
  {
    k.(batches := k.batches[k.current := k.batches[k.current].(delta := k.batches[k.current].delta + d)])
  }

  /** `combine` up to its first suspension: does the caller flush, or wait on the batch?
      `full` is the client's answer to is_full. */
  predicate Flushes(k: Combiner, full: bool)
    requires Shaped(k)
  {
    (full || k.inflight == 0) && k.batches[k.current].sender.None?
  }

  /** The first part of `flush`: the caller becomes the sender, and sends what it finds. */
  function Started(k: Combiner, s: nat, w: nat): Combiner
    requires s < |k.batches|
  {
    k.(batches := k.batches[s := k.batches[s].(sender := Some(w))])
  }

  function Entered(k: Combiner, w: nat, d: int, full: bool): Combiner
    requires Shaped(k)
  {
    var s := k.current;
    var k1 := Added(k, d);
    var k2 := if full then Refilled(k1) else k1;
    var k3 := if (full && k1.batches[s].sender.None?) || (!full && k1.inflight == 0)
              then k2.(inflight := k2.inflight + 1) else k2;
    if Flushes(k, full) then Started(if full then k3 else Refilled(k3), s, w)
    else k3.(batches := k3.batches[s := k3.batches[s].(cv := [w] + k3.batches[s].cv)])
  }

  /** A woken worker sends the batch it waited on if it finds itself named as its sender. */
  predicate MustSend(k: Combiner, s: nat, w: nat) { s < |k.batches| && k.batches[s].sender == Some(w) }

  function Resumed(k: Combiner, s: nat, w: nat): Combiner
    requires Shaped(k) && MustSend(k, s, w)
  {
    Started(if s == k.current then Refilled(k) else k, s, w)
  }

  /** The rest of `flush`: wake everyone who waited for `s`, hand the sender's role to a waiter
      of the current batch if there is one, and recycle `s`. */
  predicate HandsOver(k: Combiner)
    requires Shaped(k)
  {
    k.batches[k.current].cv != [] && k.batches[k.current].sender.None?
  }

  function Broadcast(k: Combiner, s: nat): Combiner
    requires s < |k.batches|
  {
    k.(batches := k.batches[s := k.batches[s].(cv := [])])
  }

  function HandedOver(k: Combiner): Combiner
    requires Shaped(k) && HandsOver(k)
  {
    var n := k.current;
    var k' := Refilled(k);
    k'.(batches := k'.batches[n := k'.batches[n].(sender := Some(k'.batches[n].cv[0]), cv := k'.batches[n].cv[1..])])
  }

  function Recycled(k: Combiner, s: nat): Combiner
    requires s < |k.batches|
  {
    k.(batches := k.batches[s := k.batches[s].(sender := None)], freelist := [s] + k.freelist)
  }

  function Finished(k: Combiner, s: nat): Combiner
    requires Shaped(k) && s < |k.batches| && s != k.current && s !in k.freelist
  {
    var k1 := Broadcast(k, s);
    var k2 := if HandsOver(k1) then HandedOver(k1) else k1.(inflight := k1.inflight - 1);
    Recycled(k2, s)
  }

  class FlatCombiner {
    var current: nat
    var inflight: int
    var freelist: seq<nat>
    var batches: seq<Batch>

    ghost function State(): Combiner
      reads this
    {
      Combiner(current, inflight, freelist, batches)
    }

    constructor ()
      ensures State() == Combiner(0, 0, [], [EMPTY])
    {
      current, inflight, freelist, batches := 0, 0, [], [EMPTY];
    }

    method GetFlusher()
      requires Shaped(State())
      modifies this
      ensures State() == Refilled(old(State()))
    {
      if freelist != [] {
        current := freelist[0];
        freelist := freelist[1..];
        batches := batches[current := EMPTY];
      } else {
        current := |batches|;
        batches := batches + [EMPTY];
      }
    }

    method FreeFlusher(s: nat)
      requires s < |batches|
      modifies this
      ensures State() == old(State()).(freelist := [s] + old(freelist))
    {
      freelist := [s] + freelist;
    }

    /** Worker `w` adds `d`; the result says whether it flushes `s` or waits on it. */
    method Combine(w: nat, d: int, full: bool) returns (s: nat, flushes: bool)
      requires Shaped(State())
      modifies this
      ensures s == old(current) && flushes == Flushes(old(State()), full)
      ensures State() == Entered(old(State()), w, d, full)
      ensures full ==> current != s
    {
      s := current;
      batches := batches[s := batches[s].(delta := batches[s].delta + d)];
      flushes := false;
      if full {
        GetFlusher();
        if batches[s].sender.None? {
          inflight := inflight + 1;
          flushes := true;
        }
      } else if inflight == 0 {
        inflight := inflight + 1;
        if batches[s].sender.None? {
          GetFlusher();
          flushes := true;
        }
      }
      if flushes {
        StartFlush(s, w);
      } else {
        batches := batches[s := batches[s].(cv := [w] + batches[s].cv)];
      }
    }

    method StartFlush(s: nat, w: nat)
      requires s < |batches|
      modifies this
      ensures State() == Started(old(State()), s, w)
    {
      batches := batches[s := batches[s].(sender := Some(w))];
    }

    method Resume(s: nat, w: nat) returns (flushes: bool)
      requires Shaped(State()) && s < |batches|
      modifies this
      ensures flushes == MustSend(old(State()), s, w)
      ensures State() == if flushes then Resumed(old(State()), s, w) else old(State())
      ensures flushes ==> current != s
    {
      flushes := batches[s].sender == Some(w);
      if flushes {
        if s == current {
          GetFlusher();
        }
        StartFlush(s, w);
      }
    }

    /** Returns the workers it woke from `s`, in the order of the wait list. */
    method FinishFlush(s: nat) returns (woken: seq<nat>)
      requires Shaped(State()) && s < |batches| && s != current && s !in freelist
      modifies this
      ensures State() == Finished(old(State()), s) && woken == old(batches)[s].cv
    {
      woken := [];
      while batches[s].cv != []
        invariant s < |batches| && woken + batches[s].cv == old(batches)[s].cv
        invariant State() == old(State()).(batches := old(batches)[s := old(batches)[s].(cv := batches[s].cv)])
        decreases |batches[s].cv|
      {
        woken := woken + [batches[s].cv[0]];
        batches := batches[s := batches[s].(cv := batches[s].cv[1..])];
      }
      assert State() == Broadcast(old(State()), s);
      if batches[current].cv != [] && batches[current].sender.None? {
        var n := current;
        GetFlusher();
        batches := batches[n := batches[n].(sender := Some(batches[n].cv[0]), cv := batches[n].cv[1..])];
      } else {
        inflight := inflight - 1;
      }
      batches := batches[s := batches[s].(sender := None)];
      FreeFlusher(s);
    }
  }
}
