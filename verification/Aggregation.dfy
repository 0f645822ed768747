/** What aggregating, flushing and polling do to the buffers, the queue and what has been sent. */
module Aggregation {
  import opened Framing

  /** When a buffer got its first message. */
  datatype Stamp = Stamp(key: nat, ts: nat)

  /** One core's aggregator: a buffer for every target, the targets with something to send in the
      order of their stamps, and the bundles sent so far, also by target. */
  datatype Agg = Agg(buffers: seq<seq<byte>>, order: seq<Stamp>, sent: seq<seq<seq<byte>>>)

  ghost predicate Sound(a: Agg) {
    |a.sent| == |a.buffers| && forall i: nat :: i < |a.order| ==> a.order[i].key < |a.buffers|
  }

  ghost function DropKey(order: seq<Stamp>, key: nat): seq<Stamp> {
    if order == [] then [] else if order[0].key == key then order[1..] else [order[0]] + DropKey(order[1..], key)
  }

  ghost predicate HasKey(order: seq<Stamp>, key: nat) { exists i: nat :: i < |order| && order[i].key == key }

  ghost function Stamped(order: seq<Stamp>, key: nat, ts: nat): seq<Stamp> {
    if HasKey(order, key) then order else order + [Stamp(key, ts)]
  }

  /** What has been sent stays sent. */
  ghost predicate Grows(a: Agg, a': Agg) {
    |a'.sent| == |a.sent| && forall t: nat :: t < |a.sent| ==> a.sent[t] <= a'.sent[t]
  }

  ghost function Flushed(a: Agg, t: nat): (a': Agg)
    requires Sound(a) && t < |a.buffers|
    ensures Sound(a') && |a'.buffers| == |a.buffers| && Grows(a, a')
    ensures HasKey(a.order, t) ==> |a'.order| < |a.order|
  {
    DropKeeps(a.order, t);
    a.(buffers := a.buffers[t := []], order := DropKey(a.order, t), sent := a.sent[t := a.sent[t] + [a.buffers[t]]])
  }

  lemma {:induction false} DropKeeps(order: seq<Stamp>, key: nat)
    ensures forall i: nat :: i < |DropKey(order, key)| ==> DropKey(order, key)[i] in order
    ensures HasKey(order, key) ==> |DropKey(order, key)| < |order|
  {
    if order != [] && order[0].key != key {
      DropKeeps(order[1..], key);
      if HasKey(order, key) {
        var i: nat :| i < |order| && order[i].key == key;
        assert order[1..][i - 1].key == key;
      }
    }
  }

  /** The route map of a core: the target for every destination. `flush` maps its argument again, so
      targets must be targets of themselves. */
  ghost predicate RouteOk(route: seq<nat>, n: nat) {
    |route| == n && forall d: nat :: d < n ==> route[d] < n && route[route[d]] == route[d]
  }

  /** A message added to the buffer of its target; with aggregation disabled, sent at once. */
  ghost function Aggregated(a: Agg, m: Message, ts: nat, enabled: bool, route: seq<nat>): (a': Agg)
    requires Sound(a) && RouteOk(route, |a.buffers|) && m.dest < |a.buffers|
    ensures Sound(a') && |a'.buffers| == |a.buffers| && Grows(a, a')
  {
    var t := route[m.dest];
    if enabled then
      var b := if |a.buffers[t]| + SizeOf(m) < MAX then a else Flushed(a, route[t]);
      b.(buffers := b.buffers[t := b.buffers[t] + Encode(m)], order := Stamped(b.order, t, ts))
    else
      a.(order := Stamped(a.order, t, ts), sent := a.sent[t := a.sent[t] + [Encode(m)]])
  }

  ghost predicate Overdue(s: Stamp, ts: nat, ticks: nat) { s.ts + ticks < ts }

  /** The flush loop of poll; limit zero means none. The keys in the queue are targets, which the route
      map leaves alone. */
  ghost function Polled(a: Agg, ts: nat, ticks: nat, limit: nat, count: nat): (a': Agg)
    requires Sound(a)
    ensures Sound(a') && |a'.buffers| == |a.buffers| && Grows(a, a')
    decreases |a.order|
  {
    if a.order != [] && Overdue(a.order[0], ts, ticks) && (limit == 0 || count < limit)
    then Polled(Flushed(a, a.order[0].key), ts, ticks, limit, count + 1)
    else a
  }

  /** The loop of idle_flush_poll. */
  ghost function Idled(a: Agg): (a': Agg)
    requires Sound(a)
    ensures Sound(a') && |a'.buffers| == |a.buffers| && a'.order == [] && Grows(a, a')
    decreases |a.order|
  {
    if a.order == [] then a else Idled(Flushed(a, a.order[0].key))
  }

  // ---------------------------------------------------------------- the queue agrees with the buffers

  ghost predicate KeyOk(a: Agg, t: nat) {
    t < |a.buffers| ==> (HasKey(a.order, t) <==> a.buffers[t] != []) && |a.buffers[t]| < MAX
  }

  /** Stamps in the order of time, each target at most once. */
  ghost predicate InOrder(order: seq<Stamp>, now: nat) {
    && (forall i: nat, j: nat :: i < j < |order| ==> order[i].key != order[j].key && order[i].ts <= order[j].ts)
    && (forall i: nat :: i < |order| ==> order[i].ts <= now)
  }

  ghost predicate Agrees(a: Agg, now: nat) { Sound(a) && InOrder(a.order, now) && forall t: nat :: KeyOk(a, t) }

  lemma {:induction false} DropInOrder(order: seq<Stamp>, key: nat, now: nat)
    requires InOrder(order, now)
    ensures InOrder(DropKey(order, key), now)
    ensures forall t: nat :: HasKey(DropKey(order, key), t) <==> HasKey(order, t) && t != key
  {
    if order != [] {
      var rest := order[1..];
      assert forall i: nat :: i < |rest| ==> rest[i] == order[i + 1];
      assert InOrder(rest, now);
      forall t: nat ensures HasKey(order, t) <==> order[0].key == t || HasKey(rest, t) {
        if HasKey(order, t) && order[0].key != t {
          var i: nat :| i < |order| && order[i].key == t;
          assert rest[i - 1].key == t;
        }
      }
      if order[0].key != key {
        DropInOrder(rest, key, now);
        DropKeeps(rest, key);
        KeyInFront(order[0], DropKey(rest, key));
        PutInFront(order, DropKey(rest, key), now);
      }
    }
  }

  lemma KeyInFront(s: Stamp, l: seq<Stamp>)
    ensures forall t: nat :: HasKey([s] + l, t) <==> s.key == t || HasKey(l, t)
  {
    forall t: nat ensures HasKey([s] + l, t) <==> s.key == t || HasKey(l, t) {
      if HasKey([s] + l, t) && s.key != t {
        var i: nat :| i < |[s] + l| && ([s] + l)[i].key == t;
        assert l[i - 1].key == t;
      }
      if s.key == t { assert ([s] + l)[0].key == t; }
      if HasKey(l, t) {
        var i: nat :| i < |l| && l[i].key == t;
        assert ([s] + l)[i + 1].key == t;
      }
    }
  }

  lemma PutInFront(order: seq<Stamp>, l: seq<Stamp>, now: nat)
    requires order != [] && InOrder(order, now) && InOrder(l, now)
    requires forall i: nat :: i < |l| ==> l[i] in order[1..]
    ensures InOrder([order[0]] + l, now)
  {
    forall i: nat | i < |l| ensures order[0].key != l[i].key && order[0].ts <= l[i].ts {
      var j :| 0 <= j < |order[1..]| && order[1..][j] == l[i];
      assert order[j + 1] == l[i];
    }
  }

  lemma FlushAgrees(a: Agg, t: nat, now: nat)
    requires Agrees(a, now) && t < |a.buffers|
    ensures Agrees(Flushed(a, t), now)
  {
    DropInOrder(a.order, t, now);
    forall u: nat ensures KeyOk(Flushed(a, t), u) { assert KeyOk(a, u); }
  }

  lemma StampInOrder(order: seq<Stamp>, key: nat, ts: nat, now: nat)
    requires InOrder(order, now) && now <= ts
    ensures InOrder(Stamped(order, key, ts), ts)
    ensures forall t: nat :: HasKey(Stamped(order, key, ts), t) <==> HasKey(order, t) || t == key
  {
    var l := Stamped(order, key, ts);
    forall t: nat ensures HasKey(l, t) <==> HasKey(order, t) || t == key {
      if HasKey(order, t) {
        var i: nat :| i < |order| && order[i].key == t;
        assert l[i].key == t;
      }
      if t == key && !HasKey(order, key) { assert l[|order|].key == key; }
    }
  }

  /** The keys in the queue are targets. */
  ghost predicate Routed(a: Agg, route: seq<nat>) {
    forall t: nat :: HasKey(a.order, t) ==> t < |route| && route[t] == t
  }

  lemma FlushStaysRouted(a: Agg, t: nat, route: seq<nat>, now: nat)
    requires Agrees(a, now) && t < |a.buffers| && Routed(a, route)
    ensures Routed(Flushed(a, t), route)
  {
    DropInOrder(a.order, t, now);
  }

  /** With aggregation enabled, the queue goes on holding just the targets with something to send. */
  lemma AggregateAgrees(a: Agg, m: Message, ts: nat, now: nat, route: seq<nat>)
    requires Agrees(a, now) && RouteOk(route, |a.buffers|) && Routed(a, route)
    requires m.dest < |a.buffers| && SizeOf(m) < MAX && now <= ts
    ensures Agrees(Aggregated(a, m, ts, true, route), ts) && Routed(Aggregated(a, m, ts, true, route), route)
  {
    var t := route[m.dest];
    var fits := |a.buffers[t]| + SizeOf(m) < MAX;
    var b := if fits then a else Flushed(a, t);
    if !fits {
      FlushAgrees(a, t, now);
      FlushStaysRouted(a, t, route, now);
    }
    StampInOrder(b.order, t, ts, now);
    forall u: nat ensures KeyOk(Aggregated(a, m, ts, true, route), u) { assert KeyOk(b, u); }
  }

  /** Messages are kept together as long as they fit: aggregating one sends something exactly when the
      buffer has no room for it, and then the whole buffer, and keeps the new message. */
  lemma SendsOnlyFullBuffers(a: Agg, m: Message, ts: nat, route: seq<nat>)
    requires Sound(a) && RouteOk(route, |a.buffers|) && m.dest < |a.buffers|
    ensures var b, t := Aggregated(a, m, ts, true, route), route[m.dest];
            if |a.buffers[t]| + SizeOf(m) < MAX
            then b.sent == a.sent && b.buffers == a.buffers[t := a.buffers[t] + Encode(m)]
            else b.sent == a.sent[t := a.sent[t] + [a.buffers[t]]] && b.buffers == a.buffers[t := Encode(m)]
  {
    assert [] + Encode(m) == Encode(m);
  }

  /** With aggregation disabled it does so only if the buffer held something before, since a target is
      queued though its message has been sent. */
  lemma DisabledAgreesIff(a: Agg, m: Message, ts: nat, now: nat, route: seq<nat>)
    requires Agrees(a, now) && RouteOk(route, |a.buffers|) && m.dest < |a.buffers| && now <= ts
    ensures Agrees(Aggregated(a, m, ts, false, route), ts) <==> a.buffers[route[m.dest]] != []
  {
    var b, t := Aggregated(a, m, ts, false, route), route[m.dest];
    StampInOrder(a.order, t, ts, now);
    assert KeyOk(a, t);
    if a.buffers[t] != [] {
      forall u: nat ensures KeyOk(b, u) { assert KeyOk(a, u); }
    } else {
      assert !KeyOk(b, t);
    }
  }

  // ---------------------------------------------------------------- time

  /** After a poll without limit, no buffer has waited longer than it may. */
  lemma {:induction false} PollLeavesNoneOverdue(a: Agg, ts: nat, ticks: nat, now: nat, count: nat)
    requires Agrees(a, now)
    ensures Agrees(Polled(a, ts, ticks, 0, count), now)
    ensures forall i: nat :: i < |Polled(a, ts, ticks, 0, count).order| ==>
              ts <= Polled(a, ts, ticks, 0, count).order[i].ts + ticks
    decreases |a.order|
  {
    if a.order != [] && Overdue(a.order[0], ts, ticks) {
      FlushAgrees(a, a.order[0].key, now);
      PollLeavesNoneOverdue(Flushed(a, a.order[0].key), ts, ticks, now, count + 1);
    }
  }

  /** Polling with a limit takes the oldest first: the queue loses its first `k` targets, all overdue. */
  lemma {:induction false} PollTakesTheOldest(a: Agg, ts: nat, ticks: nat, limit: nat, count: nat, now: nat) returns (k: nat)
    requires Agrees(a, now)
    ensures Agrees(Polled(a, ts, ticks, limit, count), now)
    ensures k <= |a.order| && Polled(a, ts, ticks, limit, count).order == a.order[k..]
    ensures forall i: nat :: i < k ==> a.order[i].ts + ticks < ts
    ensures 0 < limit && count <= limit ==> count + k <= limit
    decreases |a.order|
  {
    k := 0;
    if a.order != [] && Overdue(a.order[0], ts, ticks) && (limit == 0 || count < limit) {
      var b := Flushed(a, a.order[0].key);
      FlushAgrees(a, a.order[0].key, now);
      assert b.order == a.order[1..];
      k := PollTakesTheOldest(b, ts, ticks, limit, count + 1, now);
      OneFurther(a.order, k, ts, ticks);
      k := k + 1;
    }
  }

  lemma OneFurther(order: seq<Stamp>, k: nat, ts: nat, ticks: nat)
    requires order != [] && Overdue(order[0], ts, ticks) && k <= |order[1..]|
    requires forall i: nat :: i < k ==> Overdue(order[1..][i], ts, ticks)
    ensures order[1..][k..] == order[k + 1..] && forall i: nat :: i < k + 1 ==> Overdue(order[i], ts, ticks)
  {
    forall i: nat | i < k + 1 ensures Overdue(order[i], ts, ticks) {
      if i > 0 { assert order[i] == order[1..][i - 1]; }
    }
  }

  /** The idle loop ends with every buffer empty. */
  lemma {:induction false} IdleEmptiesAll(a: Agg, now: nat)
    requires Agrees(a, now)
    ensures Agrees(Idled(a), now) && Idled(a).order == []
    ensures forall t: nat :: t < |a.buffers| ==> Idled(a).buffers[t] == []
    decreases |a.order|
  {
    if a.order == [] {
      forall t: nat | t < |a.buffers| ensures a.buffers[t] == [] { assert KeyOk(a, t); }
    } else {
      FlushAgrees(a, a.order[0].key, now);
      IdleEmptiesAll(Flushed(a, a.order[0].key), now);
    }
  }
}
