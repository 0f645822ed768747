/** The aggregator as it runs: byte buffers filled in place, the linked queue, and deaggregation. */
module AggregatorCore {
  import opened Wrappers
  import opened MachineWords
  import opened Sequences
  import opened Framing
  import opened LeastRecent
  import opened Aggregation
  import opened AggregationLines
  import opened AggregationNetwork

  class AggregatorBuffer {
    const data: array<byte>
    var position: nat

    ghost predicate Valid()
      reads this
    {
      data.Length == MAX && position < MAX
    }

    ghost function Contents(): seq<byte>
      requires Valid()
      reads this, data
    {
      data[..position]
    }

    constructor ()
      ensures Valid() && Contents() == [] && fresh(data)
    {
      data := new byte[MAX](_ => 0);
      position := 0;
    }

    predicate Fits(size: nat)
      reads this
    {
      position + size < MAX
    }

    method Insert(bytes: seq<byte>)
      requires Valid() && Fits(|bytes|)
      modifies this, data
      ensures Valid() && Contents() == old(Contents()) + bytes
    {
      var i := 0;
      while i < |bytes|
        invariant 0 <= i <= |bytes|
        invariant Valid() && position == old(position)
        invariant data[..position + i] == old(Contents()) + bytes[..i]
      {
        data[position + i] := bytes[i];
        i := i + 1;
      }
      assert bytes[..|bytes|] == bytes;
      position := position + |bytes|;
    }

    method Flush()
      requires Valid()
      modifies this
      ensures Valid() && Contents() == []
    {
      position := 0;
    }
  }

  // ---------------------------------------------------------------- priorities and stamps

  /** Negation of a uint64_t. */
  function Negated(x: int): int { (TWO64 - x) % TWO64 }

  ghost function Stamps(order: seq<nat>, prio: seq<int>): (r: seq<Stamp>)
    requires forall i: nat :: i < |order| ==> order[i] < |prio| && 0 <= prio[order[i]] < TWO64
    ensures |r| == |order| && forall i: nat :: i < |order| ==> r[i] == Stamp(order[i], Negated(prio[order[i]]))
  {
    seq(|order|, i requires 0 <= i < |order| => Stamp(order[i], Negated(prio[order[i]])))
  }

  lemma StampsHave(order: seq<nat>, prio: seq<int>, key: nat)
    requires forall i: nat :: i < |order| ==> order[i] < |prio| && 0 <= prio[order[i]] < TWO64
    ensures HasKey(Stamps(order, prio), key) <==> key in order
  {
    if key in order {
      var i: nat :| i < |order| && order[i] == key;
      assert Stamps(order, prio)[i].key == key;
    }
  }

  lemma NegatedTwice(x: int)
    requires 0 <= x < TWO64
    ensures 0 <= Negated(x) < TWO64 && Negated(Negated(x)) == x
  {
  }

  lemma StampsInserted(order: seq<nat>, prio: seq<int>, key: nat, ts: nat)
    requires forall i: nat :: i < |order| ==> order[i] < |prio| && 0 <= prio[order[i]] < TWO64
    requires key < |prio| && ts < TWO64 && key !in order
    ensures 0 <= Negated(ts) < TWO64
    ensures Stamps(order + [key], prio[key := Negated(ts)]) == Stamped(Stamps(order, prio), key, ts)
  {
    NegatedTwice(ts);
    StampsHave(order, prio, key);
    var l, l' := Stamps(order, prio), Stamps(order + [key], prio[key := Negated(ts)]);
    assert Stamped(l, key, ts) == l + [Stamp(key, ts)];
    forall i: nat | i < |l'| ensures l'[i] == (l + [Stamp(key, ts)])[i] {
      if i < |order| { assert (order + [key])[i] == order[i]; }
    }
  }

  lemma StampsUpdated(order: seq<nat>, prio: seq<int>, key: nat, ts: nat)
    requires forall i: nat :: i < |order| ==> order[i] < |prio| && 0 <= prio[order[i]] < TWO64
    requires key < |prio| && ts < TWO64
    ensures 0 <= Negated(ts) < TWO64
    ensures if key in order then Stamps(order, prio) == Stamped(Stamps(order, prio), key, ts)
            else Stamps(order + [key], prio[key := Negated(ts)]) == Stamped(Stamps(order, prio), key, ts)
  {
    NegatedTwice(ts);
    StampsHave(order, prio, key);
    if key !in order { StampsInserted(order, prio, key, ts); }
  }

  lemma StampsFirst(k: nat, rest: seq<nat>, prio: seq<int>)
    requires forall i: nat :: i < |[k] + rest| ==> ([k] + rest)[i] < |prio| && 0 <= prio[([k] + rest)[i]] < TWO64
    ensures k < |prio| && 0 <= prio[k] < TWO64
    ensures forall i: nat :: i < |rest| ==> rest[i] < |prio| && 0 <= prio[rest[i]] < TWO64
    ensures Stamps([k] + rest, prio) == [Stamp(k, Negated(prio[k]))] + Stamps(rest, prio)
  {
    assert ([k] + rest)[0] == k;
    forall i: nat | i < |rest| ensures rest[i] < |prio| && 0 <= prio[rest[i]] < TWO64 {
      assert rest[i] == ([k] + rest)[i + 1];
    }
  }

  lemma {:induction false} StampsDropped(order: seq<nat>, prio: seq<int>, key: nat)
    requires forall i: nat :: i < |order| ==> order[i] < |prio| && 0 <= prio[order[i]] < TWO64
    ensures forall i: nat :: i < |Without(order, key)| ==>
              Without(order, key)[i] < |prio| && 0 <= prio[Without(order, key)[i]] < TWO64
    ensures Stamps(Without(order, key), prio) == DropKey(Stamps(order, prio), key)
  {
    if order != [] {
      var k, rest := order[0], order[1..];
      assert order == [k] + rest;
      StampsFirst(k, rest, prio);
      StampsDropped(rest, prio, key);
      if k != key { StampsFirst(k, Without(rest, key), prio); }
    }
  }

  // ---------------------------------------------------------------- the aggregator

  method MakeBuffers(n: nat) returns (bs: seq<AggregatorBuffer>)
    ensures |bs| == n
    ensures forall i: nat :: i < n ==> fresh(bs[i]) && fresh(bs[i].data) && bs[i].Valid() && bs[i].Contents() == []
    ensures forall i: nat, j: nat :: i < j < n ==> bs[i] != bs[j] && bs[i].data != bs[j].data
  {
    bs := [];
    while |bs| < n
      invariant |bs| <= n
      invariant forall i: nat :: i < |bs| ==>
                  fresh(bs[i]) && fresh(bs[i].data) && bs[i].Valid() && bs[i].Contents() == []
      invariant forall i: nat, j: nat :: i < j < |bs| ==> bs[i] != bs[j] && bs[i].data != bs[j].data
    {
      var b := new AggregatorBuffer();
      bs := bs + [b];
    }
  }

  class Aggregator {
    const enabled: bool
    const buffers: seq<AggregatorBuffer>
    const leastRecentlySent: LRQueue
    /** The target for every destination. */
    var routeMap: seq<nat>
    /** What the communicator has been given, by target. */
    var sent: seq<seq<seq<byte>>>

    ghost function Repr(): set<object> {
      {this, leastRecentlySent, leastRecentlySent.older, leastRecentlySent.newer, leastRecentlySent.priority}
      + (set b <- buffers) + (set b <- buffers :: b.data)
    }

    /** Nothing is shared. */
    ghost predicate Separate()
      reads this, leastRecentlySent
    {
      && var q := leastRecentlySent;
      && (forall i: nat :: i < |buffers| ==> Apart(buffers[i].data, q))
      && (forall i: nat, j: nat :: i < j < |buffers| ==>
            buffers[i] != buffers[j] && buffers[i].data != buffers[j].data)
    }

    ghost predicate Apart(a: object, q: LRQueue) { a != q.older && a != q.newer && a != q.priority }

    ghost predicate QueueOk()
      reads this, leastRecentlySent, leastRecentlySent.older, leastRecentlySent.newer, leastRecentlySent.priority
    {
      && var q := leastRecentlySent;
      && q.Valid() && q.size == |buffers|
      && forall i: nat :: i < q.priority.Length ==> 0 <= q.priority[i] < TWO64
    }

    ghost predicate Valid()
      reads Repr()
    {
      && Separate() && QueueOk() && |sent| == |buffers| && |routeMap| == |buffers|
      && forall i: nat :: i < |buffers| ==> buffers[i].Valid()
    }

    ghost function Contents(): (r: seq<seq<byte>>)
      requires Valid()
      reads Repr()
      ensures |r| == |buffers| && forall i: nat :: i < |r| ==> r[i] == buffers[i].Contents()
    {
      seq(|buffers|, i requires 0 <= i < |buffers| && Valid() reads Repr() => buffers[i].Contents())
    }

    ghost function State(): (a: Agg)
      requires Valid()
      reads Repr()
      ensures Sound(a) && |a.buffers| == |buffers|
    {
      Agg(Contents(), Stamps(leastRecentlySent.order, leastRecentlySent.priority[..]), sent)
    }

    /** As `init` leaves it: every core is its own target. */
    constructor (cores: nat, enabled: bool)
      ensures Valid() && |buffers| == cores && this.enabled == enabled
      ensures RouteOk(routeMap, cores) && Direct(routeMap)
      ensures State() == Agg(seq(cores, _ => []), [], seq(cores, _ => []))
    {
      this.enabled := enabled;
      var bs := MakeBuffers(cores);
      buffers := bs;
      leastRecentlySent := new LRQueue(cores);
      sent := seq(cores, _ => []);
      routeMap := seq(cores, i => i);
    }

    method UpdateTargetForNode(node: nat, target: nat)
      requires Valid() && node < |buffers|
      modifies this`routeMap
      ensures Valid() && State() == old(State()) && routeMap == old(routeMap)[node := target]
    {
      routeMap := routeMap[node := target];
      assert Contents() == old(Contents());
    }

    /** Sends the buffer of the core's target. */
    method Flush(node: nat)
      requires Valid() && node < |buffers| && routeMap[node] < |buffers|
      modifies this`sent, buffers[routeMap[node]], leastRecentlySent, leastRecentlySent.older, leastRecentlySent.newer
      ensures Valid() && State() == Flushed(old(State()), routeMap[node])
    {
      var target := routeMap[node];
      var q := leastRecentlySent;
      StampsDropped(q.order, q.priority[..], target);
      var b := buffers[target];
      sent := sent[target := sent[target] + [b.data[..b.position]]];
      b.Flush();
      q.RemoveKey(target);
      assert Contents() == old(Contents())[target := []];
    }

    /** Fill one buffer, where the message fits. */
    method Append(t: nat, m: Message)
      requires Valid() && t < |buffers| && buffers[t].Fits(SizeOf(m))
      modifies buffers[t], buffers[t].data
      ensures Valid() && State() == old(State()).(buffers := old(Contents())[t := old(Contents())[t] + Encode(m)])
    {
      var b := buffers[t];
      b.Insert(Header(m));
      b.Insert(m.args);
      b.Insert(m.payload);
      assert b.Contents() == old(b.Contents()) + Encode(m);
      assert Contents() == old(Contents())[t := old(Contents())[t] + Encode(m)];
    }

    /** Note in the queue that a target has something to send. */
    method Note(t: nat, ts: nat)
      requires Valid() && t < |buffers| && ts < TWO64
      modifies leastRecentlySent, leastRecentlySent.older, leastRecentlySent.newer, leastRecentlySent.priority
      ensures Valid() && State() == old(State()).(order := Stamped(old(State()).order, t, ts))
    {
      var q := leastRecentlySent;
      StampsUpdated(q.order, q.priority[..], t, ts);
      q.UpdateOrInsert(t, Negated(ts));
      assert forall i: nat :: i < q.priority.Length ==> q.priority[i] == q.priority[..][i];
      assert QueueOk();
      assert Contents() == old(Contents());
    }

    /** False if a CHECK fails: no such core, or a message too long for any buffer. */
    method Aggregate(m: Message, ts: nat) returns (ok: bool)
      requires Valid() && ts < TWO64 && RouteOk(routeMap, |buffers|)
      modifies Repr()
      ensures Valid() && ok == (m.dest < |buffers| && SizeOf(m) < MAX) && routeMap == old(routeMap)
      ensures State() == if ok then Aggregated(old(State()), m, ts, enabled, routeMap) else old(State())
    {
      var total := HEADER + |m.args| + |m.payload|;
      if !(m.dest < |buffers| && total < MAX) {
        return false;
      }
      var t := routeMap[m.dest];
      if enabled {
        if !buffers[t].Fits(total) {
          Flush(t);
        }
        Append(t, m);
      } else {
        sent := sent[t := sent[t] + [Encode(m)]];
        assert Contents() == old(Contents());
      }
      Note(t, ts);
      ok := true;
    }

    /** The key and the stamp of the oldest target. */
    lemma TopIs()
      requires Valid() && leastRecentlySent.order != []
      ensures var q := leastRecentlySent;
              && q.order[0] < |buffers| && 0 <= q.priority[q.order[0]] < TWO64
              && State().order != [] && State().order[0] == Stamp(q.order[0], Negated(q.priority[q.order[0]]))
    {
    }

    /** Is there a target that has waited too long, by the unsigned arithmetic of the source? No stamp is
        later than `now`, which need not be `ts`: handlers may have sent since poll read the clock. */
    method TopIsOverdue(ts: nat, ticks: nat, ghost now: nat) returns (b: bool)
      requires Valid() && now + ticks < TWO64 && InOrder(State().order, now)
      ensures b == OverdueAt(State(), ts, ticks)
    {
      var empty := leastRecentlySent.Empty();
      b := false;
      if !empty {
        TopIs();
        var priority := leastRecentlySent.TopPriority();
        b := (Negated(priority) + ticks) % TWO64 < ts;
      }
    }

    method FlushTop()
      requires Valid() && State().order != [] && Routed(State(), routeMap)
      modifies Repr()
      ensures Valid() && TopFlushed(old(State()), State()) && routeMap == old(routeMap)
    {
      TopIs();
      assert HasKey(State().order, State().order[0].key);
      var key := leastRecentlySent.TopKey();
      Flush(key);
    }

    /** Flush the oldest, and look at the next one. */
    method FlushOldest(ts: nat, ticks: nat, ghost now: nat) returns (overdue: bool)
      requires Valid() && now + ticks < TWO64 && Ordered(State(), now, routeMap) && State().order != []
      modifies Repr()
      ensures Valid() && TopFlushed(old(State()), State()) && Ordered(State(), now, routeMap)
      ensures overdue == OverdueAt(State(), ts, ticks) && routeMap == old(routeMap)
    {
      ghost var a := State();
      FlushTop();
      TopStaysOrdered(a, State(), routeMap, now);
      overdue := TopIsOverdue(ts, ticks, now);
    }

    /** The flush loop of poll. */
    method FlushOverdue(ts: nat, ticks: nat, limit: nat, ghost now: nat) returns (count: nat)
      requires Valid() && now + ticks < TWO64 && Ordered(State(), now, routeMap)
      modifies Repr()
      ensures Valid() && State() == Polled(old(State()), ts, ticks, limit, 0) && routeMap == old(routeMap)
    {
      ghost var a, b := State(), State();
      ghost var trace := [a];
      count := 0;
      var overdue := TopIsOverdue(ts, ticks, now);
      while overdue && (limit == 0 || count < limit)
        invariant Valid() && b == State() && Ordered(b, now, routeMap) && overdue == OverdueAt(b, ts, ticks)
        invariant routeMap == old(routeMap)
        invariant Polling(trace, a, b, count, ts, ticks, limit)
        decreases |b.order|
      {
        overdue := FlushOldest(ts, ticks, now);
        PollsOn(trace, a, b, State(), count, ts, ticks, limit);
        trace, b, count := trace + [State()], State(), count + 1;
      }
      PollsNoMore(trace, a, b, count, ts, ticks, limit);
    }

    /** Flush the oldest, whether it is overdue or not. */
    method FlushAny(ghost now: nat) returns (empty: bool)
      requires Valid() && Ordered(State(), now, routeMap) && State().order != []
      modifies Repr()
      ensures Valid() && TopFlushed(old(State()), State()) && Ordered(State(), now, routeMap)
      ensures empty == (State().order == []) && routeMap == old(routeMap)
    {
      ghost var a := State();
      FlushTop();
      TopStaysOrdered(a, State(), routeMap, now);
      empty := leastRecentlySent.Empty();
    }

    /** The loop of idle_flush_poll. */
    method FlushAll(ghost now: nat)
      requires Valid() && Ordered(State(), now, routeMap)
      modifies Repr()
      ensures Valid() && State() == Idled(old(State())) && routeMap == old(routeMap)
    {
      ghost var a, b := State(), State();
      ghost var trace := [a];
      var empty := leastRecentlySent.Empty();
      while !empty
        invariant Valid() && b == State() && empty == (b.order == []) && Ordered(b, now, routeMap)
        invariant routeMap == old(routeMap)
        invariant Idling(trace, a, b)
        decreases |b.order|
      {
        empty := FlushAny(now);
        IdlesOn(trace, a, b, State());
        trace, b := trace + [State()], State();
      }
      IdlesNoMore(trace, a, b);
    }
  }

  ghost predicate TopFlushed(a: Agg, b: Agg) { Sound(a) && a.order != [] && b == Flushed(a, a.order[0].key) }

  ghost predicate OverdueAt(a: Agg, ts: nat, ticks: nat) { a.order != [] && Overdue(a.order[0], ts, ticks) }

  lemma TopFlushedShorter(a: Agg, b: Agg)
    requires TopFlushed(a, b)
    ensures |b.order| < |a.order|
  {
    assert HasKey(a.order, a.order[0].key);
  }

  /** What the flush loops need of the queue. */
  ghost predicate Ordered(a: Agg, now: nat, route: seq<nat>) { InOrder(a.order, now) && Routed(a, route) }

  lemma TopStaysOrdered(a: Agg, b: Agg, route: seq<nat>, now: nat)
    requires TopFlushed(a, b) && Ordered(a, now, route)
    ensures Ordered(b, now, route)
  {
    DropInOrder(a.order, a.order[0].key, now);
  }

  ghost predicate FlushStep(trace: seq<Agg>, i: nat) { i + 1 < |trace| && TopFlushed(trace[i], trace[i + 1]) }

  ghost predicate PollStep(trace: seq<Agg>, i: nat, ts: nat, ticks: nat, limit: nat) {
    FlushStep(trace, i) && OverdueAt(trace[i], ts, ticks) && (limit == 0 || i < limit)
  }

  /** Flushing the top again and again until none is left is what the idle loop does. */
  lemma {:induction false} IdleTrace(trace: seq<Agg>, k: nat)
    requires k < |trace| && forall i: nat :: i < |trace| - 1 ==> FlushStep(trace, i)
    requires Sound(trace[|trace| - 1]) && trace[|trace| - 1].order == []
    ensures Sound(trace[k]) && Idled(trace[k]) == trace[|trace| - 1]
    decreases |trace| - k
  {
    if k < |trace| - 1 {
      assert FlushStep(trace, k);
      IdleTrace(trace, k + 1);
    }
  }

  lemma {:induction false} PollTrace(trace: seq<Agg>, k: nat, ts: nat, ticks: nat, limit: nat)
    requires k < |trace| && forall i: nat :: i < |trace| - 1 ==> PollStep(trace, i, ts, ticks, limit)
    requires Sound(trace[|trace| - 1])
    requires !OverdueAt(trace[|trace| - 1], ts, ticks) || (0 < limit <= |trace| - 1)
    ensures Sound(trace[k]) && Polled(trace[k], ts, ticks, limit, k) == trace[|trace| - 1]
    decreases |trace| - k
  {
    if k < |trace| - 1 {
      assert PollStep(trace, k, ts, ticks, limit);
      PollTrace(trace, k + 1, ts, ticks, limit);
    }
  }

  /** The states of a loop from `a` to `b`, one flush apart. */
  ghost predicate Idling(trace: seq<Agg>, a: Agg, b: Agg) {
    && |trace| > 0 && trace[0] == a && trace[|trace| - 1] == b
    && forall i: nat :: i < |trace| - 1 ==> FlushStep(trace, i)
  }

  lemma IdlesOn(trace: seq<Agg>, a: Agg, b: Agg, c: Agg)
    requires Idling(trace, a, b) && TopFlushed(b, c)
    ensures Idling(trace + [c], a, c) && |c.order| < |b.order|
  {
    TopFlushedShorter(b, c);
    forall i: nat | i < |trace| ensures FlushStep(trace + [c], i) {
      if i < |trace| - 1 { assert FlushStep(trace, i); }
    }
  }

  lemma IdlesNoMore(trace: seq<Agg>, a: Agg, b: Agg)
    requires Idling(trace, a, b) && Sound(b) && b.order == []
    ensures Sound(a) && b == Idled(a)
  {
    IdleTrace(trace, 0);
  }

  ghost predicate Polling(trace: seq<Agg>, a: Agg, b: Agg, count: nat, ts: nat, ticks: nat, limit: nat) {
    && |trace| == count + 1 && trace[0] == a && trace[count] == b
    && forall i: nat :: i < count ==> PollStep(trace, i, ts, ticks, limit)
  }

  lemma PollsOn(trace: seq<Agg>, a: Agg, b: Agg, c: Agg, count: nat, ts: nat, ticks: nat, limit: nat)
    requires Polling(trace, a, b, count, ts, ticks, limit) && TopFlushed(b, c)
    requires OverdueAt(b, ts, ticks) && (limit == 0 || count < limit)
    ensures Polling(trace + [c], a, c, count + 1, ts, ticks, limit) && |c.order| < |b.order|
  {
    TopFlushedShorter(b, c);
    forall i: nat | i < count + 1 ensures PollStep(trace + [c], i, ts, ticks, limit) {
      if i < count { assert PollStep(trace, i, ts, ticks, limit); }
    }
  }

  lemma PollsNoMore(trace: seq<Agg>, a: Agg, b: Agg, count: nat, ts: nat, ticks: nat, limit: nat)
    requires Polling(trace, a, b, count, ts, ticks, limit) && Sound(b)
    requires !OverdueAt(b, ts, ticks) || (0 < limit <= count)
    ensures Sound(a) && b == Polled(a, ts, ticks, limit, 0)
  {
    PollTrace(trace, 0, ts, ticks, limit);
  }

  // ---------------------------------------------------------------- the receiving side

  /** What unpacking changes: the messages run, those passed on, and the aggregator these go into. */
  datatype Unpacking = Unpacking(ran: seq<Message>, passed: seq<Message>, agg: Agg)

  /** The core, the time, and its aggregator's settings. */
  datatype Site = Site(me: nat, ts: nat, on: bool, route: seq<nat>)

  ghost predicate Passable(u: Unpacking, at: Site) { Sound(u.agg) && RouteOk(at.route, |u.agg.buffers|) }

  /** One message: for us, or to be forwarded? */
  ghost function Handled(u: Unpacking, m: Message, at: Site): (u': Unpacking)
    requires Passable(u, at)
    ensures Passable(u', at)
  {
    if m.dest == at.me then u.(ran := u.ran + [m])
    else u.(passed := u.passed + [m], agg := PassedOn(u.agg, m, at.ts, at.on, at.route))
  }

  ghost function HandledAll(u: Unpacking, ms: seq<Message>, at: Site): (u': Unpacking)
    requires Passable(u, at)
    ensures Passable(u', at)
    decreases |ms|
  {
    if ms == [] then u else HandledAll(Handled(u, ms[0], at), ms[1..], at)
  }

  /** The messages for this core run, and the others are aggregated again, each kind in order. */
  lemma {:induction false} HandledIs(u: Unpacking, ms: seq<Message>, at: Site)
    requires Passable(u, at)
    ensures HandledAll(u, ms, at)
         == Unpacking(u.ran + OnlyFor(ms, at.me), u.passed + NotFor(ms, at.me),
                      Reaggregated(u.agg, NotFor(ms, at.me), at.ts, at.on, at.route))
    decreases |ms|
  {
    if ms == [] {
      assert u.ran + [] == u.ran && u.passed + [] == u.passed;
    } else {
      var m, rest := ms[0], ms[1..];
      assert ms == [m] + rest;
      HandledIs(Handled(u, m, at), rest, at);
      FilterOn(m, rest, at.me, u.ran, u.passed);
      FilterFirst(m, rest, at.me);
      ReaggregatedFirst(u.agg, m, NotFor(rest, at.me), at.ts, at.on, at.route);
      assert NotFor(ms, at.me) == if m.dest == at.me then NotFor(rest, at.me) else [m] + NotFor(rest, at.me);
    }
  }

  /** What a core does with the bundles in its queue is what the network's step says it does. */
  lemma UnpacksTheQueue(u: Unpacking, q: seq<Arrival>, at: Site)
    requires Passable(u, at)
    ensures var others := OthersOf(HeardOf(q), at.me);
            HandledAll(u, Stream(BytesOf(q)), at)
            == Unpacking(u.ran + RanOf(HeardOf(q), at.me), u.passed + others,
                         Reaggregated(u.agg, others, at.ts, at.on, at.route))
  {
    HeardIsStream(q);
    HandledIs(u, Stream(BytesOf(q)), at);
  }

  lemma {:induction false} HandledAppend(u: Unpacking, x: seq<Message>, y: seq<Message>, at: Site)
    requires Passable(u, at)
    ensures HandledAll(HandledAll(u, x, at), y, at) == HandledAll(u, x + y, at)
    decreases |x|
  {
    if x == [] {
      assert x + y == y;
    } else {
      HandledAppend(Handled(u, x[0], at), x[1..], y, at);
      assert (x + y)[1..] == x[1..] + y;
    }
  }

  lemma FilterOn(m: Message, rest: seq<Message>, me: nat, ran: seq<Message>, fwd: seq<Message>)
    ensures ran + OnlyFor([m] + rest, me) == (if m.dest == me then ran + [m] else ran) + OnlyFor(rest, me)
    ensures fwd + NotFor([m] + rest, me) == (if m.dest == me then fwd else fwd + [m]) + NotFor(rest, me)
  {
    FilterFirst(m, rest, me);
    Regroup(ran, [m], OnlyFor(rest, me));
    Regroup(fwd, [m], NotFor(rest, me));
  }

  /** Handling what is left leads where handling everything would have. */
  ghost predicate GoesOn(u: Unpacking, left: seq<Message>, u0: Unpacking, all: seq<Message>, at: Site) {
    && Passable(u, at) && Passable(u0, at)
    && HandledAll(u, left, at) == HandledAll(u0, all, at)
  }

  lemma GoesFurther(u: Unpacking, done: seq<Message>, left: seq<Message>,
                    u': Unpacking, u0: Unpacking, all: seq<Message>, at: Site)
    requires GoesOn(u, done + left, u0, all, at) && u' == HandledAll(u, done, at)
    ensures GoesOn(u', left, u0, all, at)
  {
    HandledAppend(u, done, left, at);
  }

  lemma GoesNoFurther(u: Unpacking, u0: Unpacking, all: seq<Message>, at: Site)
    requires GoesOn(u, [], u0, all, at)
    ensures u == HandledAll(u0, all, at)
  {
  }

  ghost predicate Parses(buf: seq<byte>, i: nat) { i <= |buf| && Parse(buf, i).Some? }

  ghost function Left(buf: seq<byte>, i: nat): seq<Message>
    requires Parses(buf, i)
  {
    Parse(buf, i).value
  }

  lemma ParseNext(buf: seq<byte>, i: nat)
    requires Parses(buf, i) && i < |buf|
    ensures Decode(buf, i).Some?
    ensures var m := Decode(buf, i).value;
            Parses(buf, i + SizeOf(m)) && Left(buf, i) == [m] + Left(buf, i + SizeOf(m))
  {
  }

  lemma GoesOneFurther(u: Unpacking, m: Message, rest: seq<Message>,
                       u': Unpacking, u0: Unpacking, all: seq<Message>, at: Site)
    requires GoesOn(u, [m] + rest, u0, all, at) && u' == Handled(u, m, at)
    ensures GoesOn(u', rest, u0, all, at)
  {
    assert ([m] + rest)[1..] == rest;
  }

  lemma GoesABundleFurther(u: Unpacking, q: seq<seq<byte>>, u': Unpacking, u0: Unpacking, all: seq<Message>, at: Site)
    requires q != [] && Parses(q[0], 0) && GoesOn(u, Stream(q), u0, all, at)
    requires u' == HandledAll(u, Left(q[0], 0), at)
    ensures GoesOn(u', Stream(q[1..]), u0, all, at)
  {
    GoesFurther(u, Left(q[0], 0), Stream(q[1..]), u', u0, all, at);
  }

  /** The part of a core's aggregator that unpacks bundles: messages for this core run here, others are
      aggregated again, on their way to their destination. */
  class Receiver {
    const me: nat
    const agg: Aggregator
    var receivedAMQueue: seq<seq<byte>>
    var ran: seq<Message>
    ghost var passed: seq<Message>

    ghost predicate Ready()
      reads this, agg, agg.Repr()
    {
      this !in agg.Repr() && agg.Valid() && RouteOk(agg.routeMap, |agg.buffers|)
    }

    ghost function Here(ts: nat): Site
      reads agg
    {
      Site(me, ts, agg.enabled, agg.routeMap)
    }

    ghost function Current(): (u: Unpacking)
      requires Ready()
      reads this, agg, agg.Repr()
      ensures Passable(u, Here(0))
    {
      Unpacking(ran, passed, agg.State())
    }

    constructor (me: nat, agg: Aggregator)
      ensures this.me == me && this.agg == agg && receivedAMQueue == [] && ran == [] && passed == []
    {
      this.me, this.agg := me, agg;
      receivedAMQueue, ran, passed := [], [], [];
    }

    /** Aggregator_deaggregate_am */
    method Receive(bundle: seq<byte>)
      modifies this
      ensures receivedAMQueue == old(receivedAMQueue) + [bundle]
      ensures ran == old(ran) && passed == old(passed)
    {
      receivedAMQueue := receivedAMQueue + [bundle];
    }

    method Handle(m: Message, ts: nat)
      requires Ready() && ts < TWO64
      modifies this`ran, this`passed, agg.Repr()
      ensures Ready() && agg.routeMap == old(agg.routeMap)
      ensures Current() == Handled(old(Current()), m, Here(ts))
    {
      if m.dest == me {
        ran := ran + [m];
      } else {
        var _ := agg.Aggregate(m, ts);
        passed := passed + [m];
      }
    }

    /** The message at `i`. */
    method HandleNext(buf: seq<byte>, i: nat, ts: nat, ghost u0: Unpacking, ghost all: seq<Message>) returns (next: nat)
      requires Ready() && ts < TWO64 && Parses(buf, i) && i < |buf|
      requires GoesOn(Current(), Left(buf, i), u0, all, Here(ts))
      modifies this`ran, this`passed, agg.Repr()
      ensures Ready() && agg.routeMap == old(agg.routeMap) && i < next && Parses(buf, next)
      ensures GoesOn(Current(), Left(buf, next), u0, all, Here(ts))
    {
      ghost var u := Current();
      ParseNext(buf, i);
      var m := Decode(buf, i).value;
      next := i + SizeOf(m);
      Handle(m, ts);
      GoesOneFurther(u, m, Left(buf, next), Current(), u0, all, Here(ts));
    }

    /** One bundle, message by message. */
    method Unpack(buf: seq<byte>, ts: nat)
      requires Ready() && ts < TWO64 && Parses(buf, 0)
      modifies this`ran, this`passed, agg.Repr()
      ensures Ready() && agg.routeMap == old(agg.routeMap)
      ensures Current() == HandledAll(old(Current()), Left(buf, 0), Here(ts))
    {
      ghost var at, u0, all := Here(ts), Current(), Left(buf, 0);
      var i := 0;
      while i < |buf|
        invariant Parses(buf, i) && Ready() && agg.routeMap == at.route
        invariant GoesOn(Current(), Left(buf, i), u0, all, at)
        decreases |buf| - i
      {
        i := HandleNext(buf, i, ts, u0, all);
      }
      GoesNoFurther(Current(), u0, all, at);
    }

    ghost predicate Readable() reads this { forall i: nat :: i < |receivedAMQueue| ==> Parses(receivedAMQueue[i], 0) }

    /** The first bundle of the queue. */
    method UnpackFirst(ts: nat, ghost u0: Unpacking, ghost all: seq<Message>)
      requires Ready() && ts < TWO64 && Readable() && receivedAMQueue != []
      requires GoesOn(Current(), Stream(receivedAMQueue), u0, all, Here(ts))
      modifies this, agg.Repr()
      ensures Ready() && agg.routeMap == old(agg.routeMap) && Readable()
      ensures receivedAMQueue == old(receivedAMQueue)[1..]
      ensures GoesOn(Current(), Stream(receivedAMQueue), u0, all, Here(ts))
    {
      ghost var u, q := Current(), receivedAMQueue;
      var bundle := receivedAMQueue[0];
      receivedAMQueue := receivedAMQueue[1..];
      Unpack(bundle, ts);
      GoesABundleFurther(u, q, Current(), u0, all, Here(ts));
    }

    method Deaggregate(ts: nat)
      requires Ready() && ts < TWO64 && Readable()
      modifies this, agg.Repr()
      ensures Ready() && agg.routeMap == old(agg.routeMap) && receivedAMQueue == []
      ensures Current() == HandledAll(old(Current()), Stream(old(receivedAMQueue)), Here(ts))
    {
      ghost var at, u0, all := Here(ts), Current(), Stream(receivedAMQueue);
      while |receivedAMQueue| > 0
        invariant Ready() && Here(ts) == at && Readable()
        invariant GoesOn(Current(), Stream(receivedAMQueue), u0, all, at)
        decreases |receivedAMQueue|
      {
        UnpackFirst(ts, u0, all);
      }
      GoesNoFurther(Current(), u0, all, at);
    }
  }
}
