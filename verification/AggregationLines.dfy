/** The messages of one core to all targets: aggregated, flushed, delivered in order, deaggregated. */
module AggregationLines {
  import opened Wrappers
  import opened Framing
  import opened Aggregation

  // ---------------------------------------------------------------- what bytes mean

  /** The messages a buffer holds. */
  ghost function Messages(b: seq<byte>): seq<Message> {
    if Parse(b, 0).Some? then Parse(b, 0).value else []
  }

  ghost function Stream(bs: seq<seq<byte>>): seq<Message> {
    if bs == [] then [] else Messages(bs[0]) + Stream(bs[1..])
  }

  /** A buffer made of messages. */
  ghost predicate Clean(b: seq<byte>) { b == EncodeAll(Messages(b)) && AllSendable(Messages(b)) }

  ghost predicate AllClean(bs: seq<seq<byte>>) { forall k: nat :: k < |bs| ==> Clean(bs[k]) }

  ghost predicate AllFor(ms: seq<Message>, t: nat) { forall k: nat :: k < |ms| ==> ms[k].dest == t }

  /** Messages whose target is `t`. */
  ghost predicate AllVia(ms: seq<Message>, t: nat, route: seq<nat>) {
    forall k: nat :: k < |ms| ==> Sendable(ms[k]) && ms[k].dest < |route| && route[ms[k].dest] == t
  }

  ghost function OnlyFor(ms: seq<Message>, t: nat): seq<Message> {
    if ms == [] then [] else (if ms[0].dest == t then [ms[0]] else []) + OnlyFor(ms[1..], t)
  }

  ghost function NotFor(ms: seq<Message>, t: nat): seq<Message> {
    if ms == [] then [] else (if ms[0].dest == t then [] else [ms[0]]) + NotFor(ms[1..], t)
  }

  lemma {:induction false} NothingElse(ms: seq<Message>, t: nat)
    requires AllFor(ms, t)
    ensures OnlyFor(ms, t) == ms && NotFor(ms, t) == []
  {
    if ms != [] {
      assert forall k: nat :: k < |ms[1..]| ==> ms[1..][k] == ms[k + 1];
      NothingElse(ms[1..], t);
    }
  }

  lemma EmptyIsClean()
    ensures Clean([]) && Messages([]) == []
  {
  }

  lemma CleanAppend(b: seq<byte>, m: Message)
    requires Clean(b) && Sendable(m)
    ensures Clean(b + Encode(m)) && Messages(b + Encode(m)) == Messages(b) + [m]
  {
    var ms := Messages(b);
    EncodeAppend(ms, m);
    assert AllSendable(ms + [m]);
    BufferRoundTrip(ms + [m]);
  }

  lemma StreamFirst(b: seq<byte>, bs: seq<seq<byte>>)
    ensures Stream([b] + bs) == Messages(b) + Stream(bs)
  {
    assert ([b] + bs)[1..] == bs;
  }

  lemma {:induction false} StreamAppend(bs: seq<seq<byte>>, b: seq<byte>)
    ensures Stream(bs + [b]) == Stream(bs) + Messages(b)
  {
    if bs == [] {
      StreamFirst(b, []);
      assert bs + [b] == [b] + [];
    } else {
      var rest := bs[1..];
      StreamAppend(rest, b);
      StreamFirst(bs[0], rest + [b]);
      StreamFirst(bs[0], rest);
      assert bs + [b] == [bs[0]] + (rest + [b]) && bs == [bs[0]] + rest;
      Regroup(Messages(bs[0]), Stream(rest), Messages(b));
    }
  }

  lemma Regroup(x: seq<Message>, y: seq<Message>, z: seq<Message>)
    ensures x + (y + z) == (x + y) + z
  {
  }

  lemma FilterFirst(m: Message, rest: seq<Message>, t: nat)
    ensures OnlyFor([m] + rest, t) == (if m.dest == t then [m] else []) + OnlyFor(rest, t)
    ensures NotFor([m] + rest, t) == (if m.dest == t then [] else [m]) + NotFor(rest, t)
  {
    assert ([m] + rest)[1..] == rest;
  }

  lemma {:induction false} FilterAppend(x: seq<Message>, y: seq<Message>, t: nat)
    ensures OnlyFor(x + y, t) == OnlyFor(x, t) + OnlyFor(y, t)
    ensures NotFor(x + y, t) == NotFor(x, t) + NotFor(y, t)
  {
    if x == [] {
      assert x + y == y;
    } else {
      var m, rest := x[0], x[1..];
      FilterAppend(rest, y, t);
      FilterFirst(m, rest + y, t);
      FilterFirst(m, rest, t);
      assert x + y == [m] + (rest + y) && x == [m] + rest;
      Regroup(if m.dest == t then [m] else [], OnlyFor(rest, t), OnlyFor(y, t));
      Regroup(if m.dest == t then [] else [m], NotFor(rest, t), NotFor(y, t));
    }
  }

  lemma CleanSnoc(bs: seq<seq<byte>>, b: seq<byte>)
    requires AllClean(bs) && Clean(b)
    ensures AllClean(bs + [b])
  {
    forall k: nat | k < |bs + [b]| ensures Clean((bs + [b])[k]) {
      if k < |bs| { assert (bs + [b])[k] == bs[k]; }
    }
  }

  lemma CleanTail(bs: seq<seq<byte>>)
    requires AllClean(bs) && bs != []
    ensures AllClean(bs[1..]) && Clean(bs[0])
  {
    forall k: nat | k < |bs[1..]| ensures Clean(bs[1..][k]) { assert bs[1..][k] == bs[k + 1]; }
  }

  // ---------------------------------------------------------------- one sender

  /** The channel to a target. */
  ghost function Channel(a: Agg, taken: seq<nat>, t: nat): seq<seq<byte>>
    requires t < |taken| && t < |a.sent| && taken[t] <= |a.sent[t]|
  {
    a.sent[t][taken[t]..]
  }

  ghost function InLine(x: seq<Message>, y: seq<Message>, z: seq<Message>, w: seq<Message>): seq<Message> {
    x + y + z + w
  }

  lemma LineMoves(x: seq<Message>, y: seq<Message>, z: seq<Message>, w: seq<Message>)
    ensures InLine(x, y, z + w, []) == InLine(x, y, z, w)
    ensures InLine(x, y, z, w) == InLine(x + y, [], z, w)
  {
  }

  lemma LineShifts(x: seq<Message>, y: seq<Message>, f: seq<Message>, z: seq<Message>, w: seq<Message>)
    ensures InLine(x, y + f, z, w) == InLine(x, y, f + z, w)
  {
  }

  /** Everything aggregated for a target has been unpacked there, or received, is on its way, or still in
      the buffer, in this order. */
  ghost predicate LineOk(heard: seq<Message>, queue: seq<seq<byte>>, channel: seq<seq<byte>>, buffer: seq<byte>,
                         line: seq<Message>)
  {
    && AllClean(queue) && AllClean(channel) && Clean(buffer)
    && InLine(heard, Stream(queue), Stream(channel), Messages(buffer)) == line
  }

  lemma LineFlush(heard: seq<Message>, queue: seq<seq<byte>>, channel: seq<seq<byte>>, buffer: seq<byte>,
                  line: seq<Message>)
    requires LineOk(heard, queue, channel, buffer, line)
    ensures LineOk(heard, queue, channel + [buffer], [], line)
  {
    StreamAppend(channel, buffer);
    EmptyIsClean();
    CleanSnoc(channel, buffer);
    LineMoves(heard, Stream(queue), Stream(channel), Messages(buffer));
  }

  lemma LineSend(heard: seq<Message>, queue: seq<seq<byte>>, channel: seq<seq<byte>>, buffer: seq<byte>,
                 line: seq<Message>, m: Message)
    requires LineOk(heard, queue, channel, buffer, line) && Sendable(m)
    ensures LineOk(heard, queue, channel, buffer + Encode(m), line + [m])
  {
    CleanAppend(buffer, m);
    Regroup(heard + Stream(queue) + Stream(channel), Messages(buffer), [m]);
  }

  lemma LineDeliver(heard: seq<Message>, queue: seq<seq<byte>>, channel: seq<seq<byte>>, buffer: seq<byte>,
                    line: seq<Message>)
    requires LineOk(heard, queue, channel, buffer, line) && channel != []
    ensures LineOk(heard, queue + [channel[0]], channel[1..], buffer, line)
  {
    CleanTail(channel);
    CleanSnoc(queue, channel[0]);
    StreamAppend(queue, channel[0]);
    LineShifts(heard, Stream(queue), Messages(channel[0]), Stream(channel[1..]), Messages(buffer));
  }

  lemma LineUnpack(heard: seq<Message>, queue: seq<seq<byte>>, channel: seq<seq<byte>>, buffer: seq<byte>,
                   line: seq<Message>)
    requires LineOk(heard, queue, channel, buffer, line)
    ensures LineOk(heard + Stream(queue), [], channel, buffer, line)
    ensures heard + Stream(queue) <= line
  {
    LineMoves(heard, Stream(queue), Stream(channel), Messages(buffer));
  }

  /** What concerns one sender: its aggregator and clock, how many of its bundles each channel has
      delivered, those of them received and not yet unpacked, the messages unpacked, and all that it has
      aggregated, by target. */
  datatype Sender = Sender(
    a: Agg, now: nat,
    taken: seq<nat>, queue: seq<seq<seq<byte>>>, heard: seq<seq<Message>>, lines: seq<seq<Message>>)

  ghost predicate SenderWide(s: Sender) {
    && Sound(s.a)
    && |s.taken| == |s.a.buffers| && |s.queue| == |s.a.buffers|
    && |s.lines| == |s.a.buffers| && |s.heard| == |s.a.buffers|
    && forall t: nat :: t < |s.taken| ==> s.taken[t] <= |s.a.sent[t]|
  }

  ghost predicate TargetOk(s: Sender, t: nat, route: seq<nat>)
    requires SenderWide(s)
  {
    t < |s.a.buffers| ==>
      && LineOk(s.heard[t], s.queue[t], Channel(s.a, s.taken, t), s.a.buffers[t], s.lines[t])
      && AllVia(s.lines[t], t, route)
  }

  /** Every destination is its own target. */
  ghost predicate Direct(route: seq<nat>) { forall d: nat :: d < |route| ==> route[d] == d }

  ghost predicate SenderOk(s: Sender, route: seq<nat>) {
    && SenderWide(s) && RouteOk(route, |s.a.buffers|)
    && Agrees(s.a, s.now) && Routed(s.a, route)
    && forall t: nat :: TargetOk(s, t, route)
  }

  lemma FlushKeeps(s: Sender, t: nat, route: seq<nat>)
    requires SenderOk(s, route) && t < |s.a.buffers|
    ensures SenderOk(s.(a := Flushed(s.a, t)), route)
  {
    var s' := s.(a := Flushed(s.a, t));
    FlushAgrees(s.a, t, s.now);
    FlushStaysRouted(s.a, t, route, s.now);
    forall u: nat ensures TargetOk(s', u, route) {
      assert TargetOk(s, u, route);
      if u == t {
        LineFlush(s.heard[t], s.queue[t], Channel(s.a, s.taken, t), s.a.buffers[t], s.lines[t]);
        assert Channel(s'.a, s.taken, t) == Channel(s.a, s.taken, t) + [s.a.buffers[t]];
      }
    }
  }

  /** Adding to a buffer with room. */
  lemma AppendKeeps(s: Sender, s': Sender, m: Message, t: nat, route: seq<nat>)
    requires SenderOk(s, route) && m.dest < |s.a.buffers| && t == route[m.dest] && Sendable(m)
    requires s'.a.buffers == s.a.buffers[t := s.a.buffers[t] + Encode(m)]
    requires s'.a.sent == s.a.sent && s'.taken == s.taken && s'.queue == s.queue && s'.heard == s.heard
    requires s'.lines == s.lines[t := s.lines[t] + [m]] && Sound(s'.a)
    ensures SenderWide(s') && forall u: nat :: TargetOk(s', u, route)
  {
    forall u: nat ensures TargetOk(s', u, route) {
      assert TargetOk(s, u, route);
      if u == t {
        LineSend(s.heard[t], s.queue[t], Channel(s.a, s.taken, t), s.a.buffers[t], s.lines[t], m);
      }
    }
  }

  /** A message is added to the line of its target. */
  ghost function Sent(s: Sender, m: Message, ts: nat, route: seq<nat>): Sender
    requires SenderWide(s) && RouteOk(route, |s.a.buffers|) && m.dest < |s.a.buffers|
  {
    var t := route[m.dest];
    s.(a := Aggregated(s.a, m, ts, true, route), now := ts, lines := s.lines[t := s.lines[t] + [m]])
  }

  lemma SendKeeps(s: Sender, m: Message, ts: nat, route: seq<nat>)
    requires SenderOk(s, route) && m.dest < |s.a.buffers| && Sendable(m) && s.now <= ts
    ensures SenderOk(Sent(s, m, ts, route), route)
  {
    var t := route[m.dest];
    AggregateAgrees(s.a, m, ts, s.now, route);
    if |s.a.buffers[t]| + SizeOf(m) < MAX {
      AppendKeeps(s, Sent(s, m, ts, route), m, t, route);
    } else {
      FlushKeeps(s, t, route);
      AppendKeeps(s.(a := Flushed(s.a, t)), Sent(s, m, ts, route), m, t, route);
    }
  }

  lemma {:induction false} PollKeeps(s: Sender, ts: nat, ticks: nat, limit: nat, count: nat, route: seq<nat>)
    requires SenderOk(s, route)
    ensures SenderOk(s.(a := Polled(s.a, ts, ticks, limit, count)), route)
    decreases |s.a.order|
  {
    if s.a.order != [] && Overdue(s.a.order[0], ts, ticks) && (limit == 0 || count < limit) {
      FlushKeeps(s, s.a.order[0].key, route);
      PollKeeps(s.(a := Flushed(s.a, s.a.order[0].key)), ts, ticks, limit, count + 1, route);
    }
  }

  lemma {:induction false} IdleKeeps(s: Sender, route: seq<nat>)
    requires SenderOk(s, route)
    ensures SenderOk(s.(a := Idled(s.a)), route)
    decreases |s.a.order|
  {
    if s.a.order != [] {
      FlushKeeps(s, s.a.order[0].key, route);
      IdleKeeps(s.(a := Flushed(s.a, s.a.order[0].key)), route);
    }
  }

  ghost function Delivered(s: Sender, t: nat): Sender
    requires SenderWide(s) && t < |s.a.buffers| && s.taken[t] < |s.a.sent[t]|
  {
    s.(taken := s.taken[t := s.taken[t] + 1], queue := s.queue[t := s.queue[t] + [s.a.sent[t][s.taken[t]]]])
  }

  lemma DeliverKeeps(s: Sender, t: nat, route: seq<nat>)
    requires SenderOk(s, route) && t < |s.a.buffers| && s.taken[t] < |s.a.sent[t]|
    ensures SenderOk(Delivered(s, t), route)
  {
    var s' := Delivered(s, t);
    forall u: nat ensures TargetOk(s', u, route) {
      assert TargetOk(s, u, route);
      if u == t {
        LineDeliver(s.heard[t], s.queue[t], Channel(s.a, s.taken, t), s.a.buffers[t], s.lines[t]);
        assert Channel(s.a, s'.taken, t) == Channel(s.a, s.taken, t)[1..];
        assert Channel(s.a, s.taken, t)[0] == s.a.sent[t][s.taken[t]];
      }
    }
  }

  ghost function Unpacked(s: Sender, t: nat): Sender
    requires SenderWide(s) && t < |s.a.buffers|
  {
    s.(queue := s.queue[t := []], heard := s.heard[t := s.heard[t] + Stream(s.queue[t])])
  }

  lemma UnpackKeeps(s: Sender, t: nat, route: seq<nat>)
    requires SenderOk(s, route) && t < |s.a.buffers|
    ensures SenderOk(Unpacked(s, t), route)
    ensures s.heard[t] + Stream(s.queue[t]) <= s.lines[t] && AllVia(Stream(s.queue[t]), t, route)
  {
    var s' := Unpacked(s, t);
    assert TargetOk(s, t, route);
    LineUnpack(s.heard[t], s.queue[t], Channel(s.a, s.taken, t), s.a.buffers[t], s.lines[t]);
    forall k: nat | k < |Stream(s.queue[t])|
      ensures Sendable(Stream(s.queue[t])[k]) && Stream(s.queue[t])[k].dest < |route| && route[Stream(s.queue[t])[k].dest] == t
    {
      assert Stream(s.queue[t])[k] == s.lines[t][|s.heard[t]| + k];
    }
    forall u: nat ensures TargetOk(s', u, route) { assert TargetOk(s, u, route); }
  }
}
