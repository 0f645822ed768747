/** Any number of cores aggregating messages for each other: what each target has run, of each sender. */
module AggregationNetwork {
  import opened Framing
  import opened Aggregation
  import opened AggregationLines

  /** A bundle that has been received, and a message unpacked from one, with the core the bundle is from. */
  datatype Arrival = Arrival(from: nat, bytes: seq<byte>)
  datatype Run = Run(from: nat, m: Message)

  /** By core: its route map, aggregator and clock, how many of its bundles each channel has delivered,
      the queue of bundles it has received from anyone, and all it has unpacked from such bundles; all
      it was asked to send to each destination, and all it has aggregated for each target, its own
      messages and those passed on. */
  datatype Net = Net(
    routes: seq<seq<nat>>, aggs: seq<Agg>, now: seq<nat>, taken: seq<seq<nat>>,
    queue: seq<seq<Arrival>>, heard: seq<seq<Run>>, log: seq<seq<seq<Message>>>, lines: seq<seq<seq<Message>>>)

  datatype Step =
    | Send(c: nat, m: Message, ts: nat)
    | Flush(c: nat, node: nat)
    | Poll(c: nat, ts: nat, ticks: nat, limit: nat)
    | Idle(c: nat)
    | Deliver(c: nat, t: nat)
    | Deaggregate(t: nat, ts: nat)

  ghost predicate CoreWide(s: Net, c: nat) {
    c < |s.aggs| && c < |s.taken| && c < |s.log| && c < |s.lines| && c < |s.routes| ==>
      && Sound(s.aggs[c]) && |s.aggs[c].buffers| == |s.aggs|
      && |s.taken[c]| == |s.aggs| && |s.log[c]| == |s.aggs| && |s.lines[c]| == |s.aggs|
      && RouteOk(s.routes[c], |s.aggs|)
      && forall t: nat :: t < |s.aggs| ==> s.taken[c][t] <= |s.aggs[c].sent[t]|
  }

  ghost predicate Wide(s: Net) {
    && |s.routes| == |s.aggs| && |s.now| == |s.aggs| && |s.taken| == |s.aggs| && |s.queue| == |s.aggs|
    && |s.heard| == |s.aggs| && |s.log| == |s.aggs| && |s.lines| == |s.aggs|
    && forall c: nat :: CoreWide(s, c)
  }

  ghost predicate Enabled(s: Net, p: Step)
    requires Wide(s)
  {
    var n := |s.aggs|;
    match p
    case Send(c, m, ts) => c < n && m.dest < n && Sendable(m) && s.now[c] <= ts
    case Flush(c, node) => c < n && node < n
    case Poll(c, _, _, _) => c < n    // its time stamp may be older than what handlers have sent since
    case Idle(c) => c < n
    case Deliver(c, t) => c < n && t < n && assert CoreWide(s, c); s.taken[c][t] < |s.aggs[c].sent[t]|
    case Deaggregate(t, ts) => t < n && s.now[t] <= ts
  }

  // ---------------------------------------------------------------- deaggregation

  ghost function Tagged(c: nat, ms: seq<Message>): seq<Run> {
    if ms == [] then [] else [Run(c, ms[0])] + Tagged(c, ms[1..])
  }

  /** The messages in bundles, in order. */
  ghost function HeardOf(q: seq<Arrival>): seq<Run> {
    if q == [] then [] else Tagged(q[0].from, Messages(q[0].bytes)) + HeardOf(q[1..])
  }

  ghost function MessagesOf(rs: seq<Run>): seq<Message> {
    if rs == [] then [] else [rs[0].m] + MessagesOf(rs[1..])
  }

  /** Of what core `t` has unpacked, it runs the messages for itself, and passes on the others. */
  ghost function RanOf(rs: seq<Run>, t: nat): seq<Message> { OnlyFor(MessagesOf(rs), t) }

  ghost function OthersOf(rs: seq<Run>, t: nat): seq<Message> { NotFor(MessagesOf(rs), t) }

  lemma {:induction false} MessagesAppend(x: seq<Run>, y: seq<Run>)
    ensures MessagesOf(x + y) == MessagesOf(x) + MessagesOf(y)
  {
    if x == [] {
      assert x + y == y;
    } else {
      MessagesAppend(x[1..], y);
      assert (x + y)[1..] == x[1..] + y;
    }
  }

  ghost function BytesOf(q: seq<Arrival>): seq<seq<byte>> { if q == [] then [] else [q[0].bytes] + BytesOf(q[1..]) }

  lemma {:induction false} TaggedMessages(c: nat, ms: seq<Message>)
    ensures MessagesOf(Tagged(c, ms)) == ms
  {
    if ms != [] { TaggedMessages(c, ms[1..]); }
  }

  lemma {:induction false} HeardIsStream(q: seq<Arrival>)
    ensures MessagesOf(HeardOf(q)) == Stream(BytesOf(q))
  {
    if q != [] {
      HeardIsStream(q[1..]);
      MessagesAppend(Tagged(q[0].from, Messages(q[0].bytes)), HeardOf(q[1..]));
      TaggedMessages(q[0].from, Messages(q[0].bytes));
      StreamFirst(q[0].bytes, BytesOf(q[1..]));
    }
  }

  /** One message aggregated again, on its way to its destination; a CHECK stops what cannot be sent. */
  ghost function PassedOn(a: Agg, m: Message, ts: nat, on: bool, route: seq<nat>): (a': Agg)
    requires Sound(a) && RouteOk(route, |a.buffers|)
    ensures Sound(a') && |a'.buffers| == |a.buffers| && Grows(a, a')
  {
    if Acceptable(m, |a.buffers|) then Aggregated(a, m, ts, on, route) else a
  }

  ghost function Reaggregated(a: Agg, ms: seq<Message>, ts: nat, on: bool, route: seq<nat>): (a': Agg)
    requires Sound(a) && RouteOk(route, |a.buffers|)
    ensures Sound(a') && |a'.buffers| == |a.buffers| && Grows(a, a')
    decreases |ms|
  {
    if ms == [] then a else Reaggregated(PassedOn(a, ms[0], ts, on, route), ms[1..], ts, on, route)
  }

  lemma ReaggregatedFirst(a: Agg, m: Message, rest: seq<Message>, ts: nat, on: bool, route: seq<nat>)
    requires Sound(a) && RouteOk(route, |a.buffers|)
    ensures Reaggregated(a, [m] + rest, ts, on, route)
         == Reaggregated(PassedOn(a, m, ts, on, route), rest, ts, on, route)
    ensures Reaggregated(a, [], ts, on, route) == a
  {
    assert ([m] + rest)[1..] == rest;
  }

  ghost predicate Acceptable(m: Message, n: nat) { m.dest < n && SizeOf(m) < MAX }

  /** A message at the end of the line of its target. */
  ghost function Lined(lines: seq<seq<Message>>, m: Message, route: seq<nat>): (l: seq<seq<Message>>)
    requires RouteOk(route, |lines|)
    ensures |l| == |lines|
  {
    if Acceptable(m, |lines|) then lines[route[m.dest] := lines[route[m.dest]] + [m]] else lines
  }

  ghost function AllLined(lines: seq<seq<Message>>, ms: seq<Message>, route: seq<nat>): (l: seq<seq<Message>>)
    requires RouteOk(route, |lines|)
    ensures |l| == |lines|
    decreases |ms|
  {
    if ms == [] then lines else AllLined(Lined(lines, ms[0], route), ms[1..], route)
  }

  // ---------------------------------------------------------------- steps

  ghost function WithAgg(s: Net, c: nat, a: Agg, ts: nat): (s': Net)
    requires Wide(s) && c < |s.aggs|
    requires Sound(a) && |a.buffers| == |s.aggs| && Grows(s.aggs[c], a)
    ensures Wide(s')
  {
    var s' := s.(aggs := s.aggs[c := a], now := s.now[c := ts]);
    assert forall d: nat :: CoreWide(s', d) by {
      forall d: nat ensures CoreWide(s', d) { assert CoreWide(s, d); }
    }
    s'
  }

  ghost function Logged(s: Net, c: nat, m: Message): (s': Net)
    requires Wide(s) && c < |s.aggs| && m.dest < |s.aggs|
    ensures Wide(s')
  {
    assert CoreWide(s, c);
    var s' := s.(log := s.log[c := s.log[c][m.dest := s.log[c][m.dest] + [m]]],
                 lines := s.lines[c := Lined(s.lines[c], m, s.routes[c])]);
    assert forall d: nat :: CoreWide(s', d) by {
      forall d: nat ensures CoreWide(s', d) { assert CoreWide(s, d); }
    }
    s'
  }

  ghost function Delivering(s: Net, c: nat, t: nat): (s': Net)
    requires Wide(s) && Enabled(s, Deliver(c, t))
    ensures Wide(s')
  {
    assert CoreWide(s, c);
    var s' := s.(taken := s.taken[c := s.taken[c][t := s.taken[c][t] + 1]],
                 queue := s.queue[t := s.queue[t] + [Arrival(c, s.aggs[c].sent[t][s.taken[c][t]])]]);
    assert forall d: nat :: CoreWide(s', d) by {
      forall d: nat ensures CoreWide(s', d) { assert CoreWide(s, d); }
    }
    s'
  }

  ghost function Draining(s: Net, t: nat): (s': Net)
    requires Wide(s) && t < |s.aggs|
    ensures Wide(s')
  {
    assert CoreWide(s, t);
    var s' := s.(queue := s.queue[t := []], heard := s.heard[t := s.heard[t] + HeardOf(s.queue[t])]);
    assert forall d: nat :: CoreWide(s', d) by {
      forall d: nat ensures CoreWide(s', d) { assert CoreWide(s, d); }
    }
    s'
  }

  /** Messages for others go into the aggregator of core `t`. */
  ghost function Passing(s: Net, t: nat, ms: seq<Message>, ts: nat): (s': Net)
    requires Wide(s) && t < |s.aggs|
    ensures Wide(s')
  {
    assert CoreWide(s, t);
    var a := Reaggregated(s.aggs[t], ms, ts, true, s.routes[t]);
    var s1 := WithAgg(s, t, a, ts);
    assert CoreWide(s1, t);
    var s' := s1.(lines := s.lines[t := AllLined(s.lines[t], ms, s.routes[t])]);
    assert forall d: nat :: CoreWide(s', d) by {
      forall d: nat ensures CoreWide(s', d) { assert CoreWide(s1, d); }
    }
    s'
  }

  ghost function After(s: Net, p: Step): (s': Net)
    requires Wide(s) && Enabled(s, p)
    ensures Wide(s')
  {
    assert p.Deaggregate? || CoreWide(s, p.c);
    match p
    case Send(c, m, ts) => Logged(WithAgg(s, c, Aggregated(s.aggs[c], m, ts, true, s.routes[c]), ts), c, m)
    case Flush(c, node) => WithAgg(s, c, Flushed(s.aggs[c], s.routes[c][node]), s.now[c])
    case Poll(c, ts, ticks, limit) => WithAgg(s, c, Polled(s.aggs[c], ts, ticks, limit, 0), s.now[c])
    case Idle(c) => WithAgg(s, c, Idled(s.aggs[c]), s.now[c])
    case Deliver(c, t) => Delivering(s, c, t)
    case Deaggregate(t, ts) => Passing(Draining(s, t), t, OthersOf(HeardOf(s.queue[t]), t), ts)
  }

  ghost predicate RoutesOk(n: nat, routes: seq<seq<nat>>) {
    |routes| == n && forall c: nat :: c < n ==> RouteOk(routes[c], n)
  }

  ghost function Initial(n: nat, routes: seq<seq<nat>>): (s: Net)
    requires RoutesOk(n, routes)
    ensures Wide(s) && |s.aggs| == n
  {
    var a := Agg(seq(n, _ => []), [], seq(n, _ => []));
    var s := Net(routes, seq(n, _ => a), seq(n, _ => 0), seq(n, _ => seq(n, _ => 0)),
                 seq(n, _ => []), seq(n, _ => []), seq(n, _ => seq(n, _ => [])), seq(n, _ => seq(n, _ => [])));
    assert forall d: nat :: CoreWide(s, d);
    s
  }
}
