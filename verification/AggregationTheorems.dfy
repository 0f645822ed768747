/** The round trip through aggregation, for any number of senders at once: from each core to each target. */
module AggregationTheorems {
  import opened Framing
  import opened Aggregation
  import opened AggregationLines
  import opened AggregationNetwork

  // ---------------------------------------------------------------- the view of one sender

  ghost function HeardFrom(l: seq<Run>, c: nat): seq<Message> {
    if l == [] then [] else (if l[0].from == c then [l[0].m] else []) + HeardFrom(l[1..], c)
  }

  ghost function BytesFrom(q: seq<Arrival>, c: nat): seq<seq<byte>> {
    if q == [] then [] else (if q[0].from == c then [q[0].bytes] else []) + BytesFrom(q[1..], c)
  }

  ghost function QueuesFrom(qs: seq<seq<Arrival>>, c: nat): (r: seq<seq<seq<byte>>>)
    ensures |r| == |qs| && forall t: nat :: t < |qs| ==> r[t] == BytesFrom(qs[t], c)
  {
    seq(|qs|, t requires 0 <= t < |qs| => BytesFrom(qs[t], c))
  }

  ghost function AllHeardFrom(ls: seq<seq<Run>>, c: nat): (r: seq<seq<Message>>)
    ensures |r| == |ls| && forall t: nat :: t < |ls| ==> r[t] == HeardFrom(ls[t], c)
  {
    seq(|ls|, t requires 0 <= t < |ls| => HeardFrom(ls[t], c))
  }

  /** The system as sender `c` sees it. */
  ghost function View(s: Net, c: nat): Sender
    requires Wide(s) && c < |s.aggs|
  {
    Sender(s.aggs[c], s.now[c], s.taken[c], QueuesFrom(s.queue, c), AllHeardFrom(s.heard, c), s.lines[c])
  }

  lemma {:induction false} HeardAppend(x: seq<Run>, y: seq<Run>, c: nat)
    ensures HeardFrom(x + y, c) == HeardFrom(x, c) + HeardFrom(y, c)
  {
    if x == [] {
      assert x + y == y;
    } else {
      HeardAppend(x[1..], y, c);
      assert (x + y)[1..] == x[1..] + y;
      Regroup(if x[0].from == c then [x[0].m] else [], HeardFrom(x[1..], c), HeardFrom(y, c));
    }
  }

  lemma {:induction false} BytesSnoc(q: seq<Arrival>, x: Arrival, c: nat)
    ensures BytesFrom(q + [x], c) == BytesFrom(q, c) + if x.from == c then [x.bytes] else []
  {
    if q == [] {
      assert q + [x] == [x];
    } else {
      BytesSnoc(q[1..], x, c);
      assert (q + [x])[1..] == q[1..] + [x];
    }
  }

  lemma {:induction false} TaggedHeard(f: nat, ms: seq<Message>, c: nat)
    ensures HeardFrom(Tagged(f, ms), c) == if f == c then ms else []
  {
    if ms != [] { TaggedHeard(f, ms[1..], c); }
  }

  /** Unpacking a shared queue gives, of each sender, just what unpacking its own bundles would. */
  lemma {:induction false} HeardBySender(q: seq<Arrival>, c: nat)
    ensures HeardFrom(HeardOf(q), c) == Stream(BytesFrom(q, c))
  {
    if q != [] {
      var ms, rest := Messages(q[0].bytes), q[1..];
      HeardBySender(rest, c);
      HeardAppend(Tagged(q[0].from, ms), HeardOf(rest), c);
      TaggedHeard(q[0].from, ms, c);
      assert BytesFrom(q, c) == if q[0].from == c then [q[0].bytes] + BytesFrom(rest, c) else BytesFrom(rest, c);
      if q[0].from == c { StreamFirst(q[0].bytes, BytesFrom(rest, c)); }
    }
  }

  // ---------------------------------------------------------------- invariant

  ghost predicate ViewOk(s: Net, c: nat)
    requires Wide(s)
  {
    c < |s.aggs| ==> SenderOk(View(s, c), s.routes[c])
  }

  ghost predicate FromOk(s: Net, t: nat, k: nat) { t < |s.queue| && k < |s.queue[t]| ==> s.queue[t][k].from < |s.aggs| }

  ghost predicate HeardOk(s: Net, t: nat, k: nat) { t < |s.heard| && k < |s.heard[t]| ==> s.heard[t][k].from < |s.aggs| }

  ghost predicate Inv(s: Net) {
    && Wide(s)
    && (forall c: nat :: ViewOk(s, c))
    && (forall t: nat, k: nat :: FromOk(s, t, k) && HeardOk(s, t, k))
  }

  lemma SameView(s: Net, s': Net, c: nat)
    requires Wide(s) && Wide(s') && c < |s.aggs| == |s'.aggs|
    requires s'.aggs[c] == s.aggs[c] && s'.now[c] == s.now[c] && s'.taken[c] == s.taken[c] && s'.lines[c] == s.lines[c]
    requires s'.queue == s.queue && s'.heard == s.heard
    ensures View(s', c) == View(s, c)
  {
  }

  /** A step of one core's own aggregator concerns that core's view only. */
  lemma OwnStep(s: Net, s': Net, c: nat, v: Sender)
    requires Inv(s) && Wide(s') && |s'.aggs| == |s.aggs| && s'.routes == s.routes
    requires c < |s.aggs| && SenderOk(v, s.routes[c]) && View(s', c) == v
    requires forall d: nat :: d < |s.aggs| && d != c ==>
               s'.aggs[d] == s.aggs[d] && s'.now[d] == s.now[d] && s'.lines[d] == s.lines[d]
    requires s'.taken == s.taken && s'.queue == s.queue && s'.heard == s.heard
    ensures Inv(s')
  {
    forall d: nat ensures ViewOk(s', d) {
      assert ViewOk(s, d);
      if d < |s.aggs| && d != c { SameView(s, s', d); }
    }
    forall t: nat, k: nat ensures FromOk(s', t, k) && HeardOk(s', t, k) { assert FromOk(s, t, k) && HeardOk(s, t, k); }
  }

  lemma SendStep(s: Net, c: nat, m: Message, ts: nat)
    requires Inv(s) && Enabled(s, Send(c, m, ts))
    ensures Inv(After(s, Send(c, m, ts)))
  {
    assert CoreWide(s, c) && ViewOk(s, c);
    SendKeeps(View(s, c), m, ts, s.routes[c]);
    OwnStep(s, After(s, Send(c, m, ts)), c, Sent(View(s, c), m, ts, s.routes[c]));
  }

  lemma FlushStep(s: Net, c: nat, node: nat)
    requires Inv(s) && Enabled(s, Flush(c, node))
    ensures Inv(After(s, Flush(c, node)))
  {
    assert CoreWide(s, c) && ViewOk(s, c);
    var v, t := View(s, c), s.routes[c][node];
    FlushKeeps(v, t, s.routes[c]);
    OwnStep(s, After(s, Flush(c, node)), c, v.(a := Flushed(v.a, t)));
  }

  lemma PollStep(s: Net, c: nat, ts: nat, ticks: nat, limit: nat)
    requires Inv(s) && Enabled(s, Poll(c, ts, ticks, limit))
    ensures Inv(After(s, Poll(c, ts, ticks, limit)))
  {
    assert CoreWide(s, c) && ViewOk(s, c);
    var v := View(s, c);
    PollKeeps(v, ts, ticks, limit, 0, s.routes[c]);
    OwnStep(s, After(s, Poll(c, ts, ticks, limit)), c, v.(a := Polled(v.a, ts, ticks, limit, 0)));
  }

  lemma IdleStep(s: Net, c: nat)
    requires Inv(s) && Enabled(s, Idle(c))
    ensures Inv(After(s, Idle(c)))
  {
    assert CoreWide(s, c) && ViewOk(s, c);
    var v := View(s, c);
    IdleKeeps(v, s.routes[c]);
    OwnStep(s, After(s, Idle(c)), c, v.(a := Idled(v.a)));
  }

  lemma DeliverViews(s: Net, c: nat, t: nat, d: nat)
    requires Wide(s) && Enabled(s, Deliver(c, t)) && d < |s.aggs|
    ensures SenderWide(View(s, c)) && View(s, c).taken[t] < |View(s, c).a.sent[t]|
    ensures View(Delivering(s, c, t), d) == if d == c then Delivered(View(s, c), t) else View(s, d)
  {
    assert CoreWide(s, c);
    var s' := Delivering(s, c, t);
    var x := Arrival(c, s.aggs[c].sent[t][s.taken[c][t]]);
    BytesSnoc(s.queue[t], x, d);
    assert BytesFrom(s.queue[t], d) + [] == BytesFrom(s.queue[t], d);
    assert s'.queue[t] == s.queue[t] + [x];
    if d == c {
      assert QueuesFrom(s'.queue, d) == Delivered(View(s, c), t).queue;
    } else {
      assert QueuesFrom(s'.queue, d) == QueuesFrom(s.queue, d);
    }
  }

  lemma DeliverStep(s: Net, c: nat, t: nat)
    requires Inv(s) && Enabled(s, Deliver(c, t))
    ensures Inv(After(s, Deliver(c, t)))
  {
    var s' := Delivering(s, c, t);
    DeliverViews(s, c, t, c);
    assert ViewOk(s, c);
    DeliverKeeps(View(s, c), t, s.routes[c]);
    forall d: nat ensures ViewOk(s', d) {
      assert ViewOk(s, d);
      if d < |s.aggs| { DeliverViews(s, c, t, d); }
    }
    forall u: nat, k: nat ensures FromOk(s', u, k) && HeardOk(s', u, k) { assert FromOk(s, u, k) && HeardOk(s, u, k); }
  }

  // ---------------------------------------------------------------- deaggregation

  lemma DrainViews(s: Net, t: nat, d: nat)
    requires Wide(s) && t < |s.aggs| && d < |s.aggs|
    ensures SenderWide(View(s, d)) && View(Draining(s, t), d) == Unpacked(View(s, d), t)
  {
    assert CoreWide(s, d);
    var s', v := Draining(s, t), Unpacked(View(s, d), t);
    HeardBySender(s.queue[t], d);
    HeardAppend(s.heard[t], HeardOf(s.queue[t]), d);
    assert QueuesFrom(s'.queue, d) == v.queue;
    assert AllHeardFrom(s'.heard, d) == v.heard;
  }

  ghost predicate AllFrom(rs: seq<Run>, n: nat) { forall k: nat :: k < |rs| ==> rs[k].from < n }

  lemma {:induction false} TaggedFrom(c: nat, ms: seq<Message>, n: nat)
    requires c < n
    ensures AllFrom(Tagged(c, ms), n)
  {
    if ms != [] { TaggedFrom(c, ms[1..], n); }
  }

  lemma {:induction false} HeardAreFrom(q: seq<Arrival>, n: nat)
    requires forall k: nat :: k < |q| ==> q[k].from < n
    ensures AllFrom(HeardOf(q), n)
  {
    if q != [] {
      assert forall k: nat :: k < |q[1..]| ==> q[1..][k] == q[k + 1];
      HeardAreFrom(q[1..], n);
      TaggedFrom(q[0].from, Messages(q[0].bytes), n);
    }
  }

  lemma DrainKeeps(s: Net, t: nat)
    requires Inv(s) && t < |s.aggs|
    ensures Inv(Draining(s, t)) && AllFrom(HeardOf(s.queue[t]), |s.aggs|)
  {
    var s' := Draining(s, t);
    forall k: nat | k < |s.queue[t]| ensures s.queue[t][k].from < |s.aggs| { assert FromOk(s, t, k); }
    HeardAreFrom(s.queue[t], |s.aggs|);
    forall d: nat ensures ViewOk(s', d) {
      assert ViewOk(s, d);
      if d < |s.aggs| {
        DrainViews(s, t, d);
        UnpackKeeps(View(s, d), t, s.routes[d]);
      }
    }
    forall u: nat, k: nat ensures FromOk(s', u, k) && HeardOk(s', u, k) { assert FromOk(s, u, k) && HeardOk(s, u, k); }
  }

  /** Messages that every aggregator accepts. */
  ghost predicate AllFit(ms: seq<Message>, n: nat) { forall k: nat :: k < |ms| ==> Fit(ms[k], n) }

  ghost predicate Fit(m: Message, n: nat) { Sendable(m) && m.dest < n }

  ghost predicate RunsFit(rs: seq<Run>, n: nat) { forall k: nat :: k < |rs| ==> Fit(rs[k].m, n) }

  /** What is unpacked of one sender is among what is unpacked. */
  lemma {:induction false} FindsItself(rs: seq<Run>, k: nat)
    requires k < |rs|
    ensures rs[k].m in HeardFrom(rs, rs[k].from)
  {
    if k > 0 { FindsItself(rs[1..], k - 1); }
  }

  /** All that core `t` finds in its queue can be aggregated again. */
  lemma FoundFit(s: Net, t: nat)
    requires Inv(s) && t < |s.aggs|
    ensures RunsFit(HeardOf(s.queue[t]), |s.aggs|)
  {
    var rs := HeardOf(s.queue[t]);
    DrainKeeps(s, t);
    forall k: nat | k < |rs| ensures Fit(rs[k].m, |s.aggs|) {
      var c := rs[k].from;
      FindsItself(rs, k);
      HeardBySender(s.queue[t], c);
      assert CoreWide(s, c) && ViewOk(s, c);
      UnpackKeeps(View(s, c), t, s.routes[c]);
    }
  }

  lemma {:induction false} OthersFit(rs: seq<Run>, t: nat, n: nat)
    requires RunsFit(rs, n)
    ensures AllFit(OthersOf(rs, t), n)
  {
    if rs != [] {
      assert forall k: nat :: k < |rs[1..]| ==> rs[1..][k] == rs[k + 1];
      OthersFit(rs[1..], t, n);
      FilterFirst(rs[0].m, MessagesOf(rs[1..]), t);
    }
  }

  /** Aggregating several messages at one time. */
  ghost function AllSent(v: Sender, ms: seq<Message>, ts: nat, route: seq<nat>): Sender
    requires SenderWide(v) && RouteOk(route, |v.a.buffers|)
  {
    v.(a := Reaggregated(v.a, ms, ts, true, route), now := ts, lines := AllLined(v.lines, ms, route))
  }

  lemma LaterKeeps(v: Sender, ts: nat, route: seq<nat>)
    requires SenderOk(v, route) && v.now <= ts
    ensures SenderOk(v.(now := ts), route)
  {
    var v' := v.(now := ts);
    forall t: nat ensures TargetOk(v', t, route) { assert TargetOk(v, t, route); }
  }

  lemma {:induction false} AllSentKeeps(v: Sender, ms: seq<Message>, ts: nat, route: seq<nat>)
    requires SenderOk(v, route) && v.now <= ts && AllFit(ms, |v.a.buffers|)
    ensures SenderOk(AllSent(v, ms, ts, route), route)
    decreases |ms|
  {
    if ms == [] {
      LaterKeeps(v, ts, route);
    } else {
      assert Fit(ms[0], |v.a.buffers|);
      assert forall k: nat :: k < |ms[1..]| ==> ms[1..][k] == ms[k + 1];
      SendKeeps(v, ms[0], ts, route);
      AllSentKeeps(Sent(v, ms[0], ts, route), ms[1..], ts, route);
    }
  }

  lemma PassKeeps(s: Net, t: nat, ms: seq<Message>, ts: nat)
    requires Inv(s) && t < |s.aggs| && s.now[t] <= ts && AllFit(ms, |s.aggs|)
    ensures Inv(Passing(s, t, ms, ts))
  {
    assert CoreWide(s, t) && ViewOk(s, t);
    AllSentKeeps(View(s, t), ms, ts, s.routes[t]);
    OwnStep(s, Passing(s, t, ms, ts), t, AllSent(View(s, t), ms, ts, s.routes[t]));
  }

  lemma DeaggregateStep(s: Net, t: nat, ts: nat)
    requires Inv(s) && Enabled(s, Deaggregate(t, ts))
    ensures Inv(After(s, Deaggregate(t, ts)))
  {
    var rs := HeardOf(s.queue[t]);
    DrainKeeps(s, t);
    FoundFit(s, t);
    OthersFit(rs, t, |s.aggs|);
    PassKeeps(Draining(s, t), t, OthersOf(rs, t), ts);
  }

  /** Every step keeps the invariant, whatever the route maps. */
  lemma StepKeeps(s: Net, p: Step)
    requires Inv(s) && Enabled(s, p)
    ensures Inv(After(s, p)) && After(s, p).routes == s.routes && |After(s, p).aggs| == |s.aggs|
  {
    match p
    case Send(c, m, ts) => SendStep(s, c, m, ts);
    case Flush(c, node) => FlushStep(s, c, node);
    case Poll(c, ts, ticks, limit) => PollStep(s, c, ts, ticks, limit);
    case Idle(c) => IdleStep(s, c);
    case Deliver(c, t) => DeliverStep(s, c, t);
    case Deaggregate(t, ts) => DeaggregateStep(s, t, ts);
  }

  lemma InitiallyInv(n: nat, routes: seq<seq<nat>>)
    requires RoutesOk(n, routes)
    ensures Inv(Initial(n, routes))
  {
    var s := Initial(n, routes);
    forall c: nat ensures ViewOk(s, c) {
      if c < n {
        var v := View(s, c);
        EmptyIsClean();
        forall t: nat ensures TargetOk(v, t, routes[c]) && KeyOk(v.a, t) {}
      }
    }
    assert forall t: nat, k: nat :: FromOk(s, t, k) && HeardOk(s, t, k);
  }

  // ---------------------------------------------------------------- every run

  ghost predicate Follows(s: Net, run: seq<Step>, s': Net)
    requires Wide(s)
    decreases |run|
  {
    if run == [] then s' == s else Enabled(s, run[0]) && Follows(After(s, run[0]), run[1..], s')
  }

  /** States that cores with these route maps can reach. */
  ghost predicate IsReached(n: nat, routes: seq<seq<nat>>, s: Net) {
    RoutesOk(n, routes) && exists run :: Follows(Initial(n, routes), run, s)
  }

  lemma {:induction false} RunKeeps(s: Net, run: seq<Step>, s': Net)
    requires Inv(s) && Follows(s, run, s')
    ensures Inv(s') && |s'.aggs| == |s.aggs| && s'.routes == s.routes
    decreases |run|
  {
    if run != [] {
      StepKeeps(s, run[0]);
      RunKeeps(After(s, run[0]), run[1..], s');
    }
  }

  lemma ReachedInv(n: nat, routes: seq<seq<nat>>, s: Net)
    requires IsReached(n, routes, s)
    ensures Inv(s) && |s.aggs| == n && s.routes == routes
  {
    InitiallyInv(n, routes);
    var run :| Follows(Initial(n, routes), run, s);
    RunKeeps(Initial(n, routes), run, s);
  }

  /** Buffers never fill up, and the queue of a core holds just the targets it has something for. */
  lemma BuffersAndQueueAgree(n: nat, routes: seq<seq<nat>>, s: Net, c: nat, t: nat)
    requires IsReached(n, routes, s) && c < n && t < n
    ensures Wide(s) && |s.aggs| == n && |s.aggs[c].buffers| == n
    ensures |s.aggs[c].buffers[t]| < MAX
    ensures HasKey(s.aggs[c].order, t) <==> s.aggs[c].buffers[t] != []
  {
    ReachedInv(n, routes, s);
    assert CoreWide(s, c) && ViewOk(s, c);
    assert KeyOk(s.aggs[c], t);
  }

  /** From each core to each target, for any route maps: what the target has unpacked of the core's
      messages is a prefix of what the core has aggregated for it, its own messages and those it has
      passed on: in order, unchanged, nothing twice, however the bundles of others come in between. */
  lemma HopsInOrder(n: nat, routes: seq<seq<nat>>, s: Net, c: nat, t: nat)
    requires IsReached(n, routes, s) && c < n && t < n
    ensures Wide(s) && |s.aggs| == n && |s.lines[c]| == n
    ensures HeardFrom(s.heard[t], c) <= s.lines[c][t] && AllVia(s.lines[c][t], t, routes[c])
  {
    ReachedInv(n, routes, s);
    assert CoreWide(s, c) && ViewOk(s, c);
    assert TargetOk(View(s, c), t, routes[c]);
  }

  /** Nothing of core `c` is in its buffer for `t`, on its way there, or in the queue there. */
  ghost predicate Drained(s: Net, c: nat, t: nat)
    requires Wide(s) && c < |s.aggs| && t < |s.aggs|
  {
    assert CoreWide(s, c);
    s.aggs[c].buffers[t] == [] && s.taken[c][t] == |s.aggs[c].sent[t]| && BytesFrom(s.queue[t], c) == []
  }

  /** Then everything the core has aggregated for the target has been unpacked there, once. */
  lemma HopsLoseNothing(n: nat, routes: seq<seq<nat>>, s: Net, c: nat, t: nat)
    requires IsReached(n, routes, s) && c < n && t < n
    requires (ReachedInv(n, routes, s); Drained(s, c, t))
    ensures Wide(s) && |s.aggs| == n && |s.lines[c]| == n
    ensures HeardFrom(s.heard[t], c) == s.lines[c][t]
  {
    ReachedInv(n, routes, s);
    assert CoreWide(s, c) && ViewOk(s, c);
    var v := View(s, c);
    assert TargetOk(v, t, routes[c]);
    EmptyIsClean();
    assert Channel(v.a, v.taken, t) == [];
  }
}
