/** When messages are passed on at all. */
module AggregationForwarding {
  import opened Framing
  import opened Aggregation
  import opened AggregationLines
  import opened AggregationNetwork
  import opened AggregationTheorems

  ghost predicate AllDirect(routes: seq<seq<nat>>) { forall c: nat :: c < |routes| ==> Direct(routes[c]) }

  // ---------------------------------------------------------------- one hop

  lemma {:induction false} OthersAreUnpacked(rs: seq<Run>, t: nat)
    requires forall k: nat :: k < |rs| ==> rs[k].m.dest == t
    ensures OthersOf(rs, t) == []
  {
    if rs != [] {
      assert forall k: nat :: k < |rs[1..]| ==> rs[1..][k] == rs[k + 1];
      OthersAreUnpacked(rs[1..], t);
    }
  }

  /** With direct routes, everything a core unpacks is its own. */
  lemma NothingIsForwarded(n: nat, routes: seq<seq<nat>>, s: Net, t: nat)
    requires IsReached(n, routes, s) && AllDirect(routes) && t < n
    ensures |s.heard| == n && OthersOf(s.heard[t], t) == []
  {
    ReachedInv(n, routes, s);
    forall k: nat | k < |s.heard[t]| ensures s.heard[t][k].m.dest == t {
      var c := s.heard[t][k].from;
      assert HeardOk(s, t, k);
      FindsItself(s.heard[t], k);
      HopsInOrder(n, routes, s, c, t);
    }
    OthersAreUnpacked(s.heard[t], t);
  }

  // ---------------------------------------------------------------- a detour

  ghost function Probe(d: nat): Message { Message(0, d, [], []) }

  lemma ProbeIsSendable(d: nat)
    requires d < Bound(2)
    ensures Sendable(Probe(d)) && Messages(Encode(Probe(d))) == [Probe(d)]
  {
    assert Bound(8) > 0;
    assert EncodeAll([Probe(d)]) == Encode(Probe(d)) + EncodeAll([]);
    assert Encode(Probe(d)) + [] == Encode(Probe(d));
    BufferRoundTrip([Probe(d)]);
  }

  lemma AfterSend(n: nat, routes: seq<seq<nat>>, c: nat, d: nat, hub: nat, s: Net)
    requires RoutesOk(n, routes) && c < n && d < n && d < Bound(2) && hub == routes[c][d]
    requires Enabled(Initial(n, routes), Send(c, Probe(d), 0)) && s == After(Initial(n, routes), Send(c, Probe(d), 0))
    ensures |s.aggs| == n && s.routes == routes && s.taken[c] == seq(n, _ => 0) && s.queue == seq(n, _ => [])
    ensures s.now == seq(n, _ => 0) && s.heard == seq(n, _ => [])
    ensures |s.aggs[c].buffers| == n && |s.aggs[c].sent| == n
    ensures s.aggs[c].buffers[hub] == Encode(Probe(d)) && s.aggs[c].sent[hub] == []
  {
    assert RouteOk(routes[c], n);
    assert [] + Encode(Probe(d)) == Encode(Probe(d));
  }

  lemma FollowsFirst(s: Net, p: Step, run: seq<Step>, s': Net)
    requires Wide(s) && Enabled(s, p) && Follows(After(s, p), run, s')
    ensures Follows(s, [p] + run, s')
  {
    assert ([p] + run)[1..] == run;
  }

  /** From there it is flushed, delivered and passed on. */
  lemma DetourGoesOn(s1: Net, c: nat, d: nat, hub: nat) returns (run: seq<Step>, s: Net)
    requires Wide(s1) && c < |s1.aggs| && hub < |s1.aggs| && d < Bound(2) && hub != d
    requires (assert CoreWide(s1, c); s1.routes[c][hub] == hub)
    requires (assert CoreWide(s1, c); s1.taken[c][hub] == 0 && s1.aggs[c].sent[hub] == [] && s1.queue[hub] == [])
    requires (assert CoreWide(s1, c); s1.aggs[c].buffers[hub] == Encode(Probe(d)))
    requires s1.now[hub] == 0 && s1.heard[hub] == []
    ensures Follows(s1, run, s) && hub < |s.heard| && OthersOf(s.heard[hub], hub) == [Probe(d)]
  {
    assert CoreWide(s1, c);
    var s2 := After(s1, Flush(c, hub));
    assert s2.aggs[c].sent[hub] == [Encode(Probe(d))];
    var s3 := After(s2, Deliver(c, hub));
    assert s3.queue[hub] == [Arrival(c, Encode(Probe(d)))];
    s := After(s3, Deaggregate(hub, 0));
    FoundForOthers(s3.queue[hub], c, d, hub);
    assert s.heard[hub] == [] + HeardOf(s3.queue[hub]);
    assert s.heard[hub] == HeardOf(s3.queue[hub]);
    FollowsFirst(s3, Deaggregate(hub, 0), [], s);
    FollowsFirst(s2, Deliver(c, hub), [Deaggregate(hub, 0)] + [], s);
    run := [Flush(c, hub)] + ([Deliver(c, hub)] + ([Deaggregate(hub, 0)] + []));
    FollowsFirst(s1, Flush(c, hub), [Deliver(c, hub)] + ([Deaggregate(hub, 0)] + []), s);
  }

  lemma FoundForOthers(q: seq<Arrival>, c: nat, d: nat, hub: nat)
    requires q == [Arrival(c, Encode(Probe(d)))] && hub != d && d < Bound(2)
    ensures OthersOf(HeardOf(q), hub) == [Probe(d)]
  {
    ProbeIsSendable(d);
    assert q[1..] == [];
    assert Tagged(c, [Probe(d)]) == [Run(c, Probe(d))] + Tagged(c, [Probe(d)][1..]);
    assert HeardOf(q) == Tagged(c, [Probe(d)]) + HeardOf([]);
    assert HeardOf(q) == [Run(c, Probe(d))];
    assert MessagesOf(HeardOf(q)) == [Probe(d)];
    assert NotFor([Probe(d)], hub) == [Probe(d)];
  }

  /** With any detour, there is a run that passes a message on. */
  lemma DetourForwards(n: nat, routes: seq<seq<nat>>, c: nat, d: nat) returns (s: Net, hub: nat)
    requires RoutesOk(n, routes) && c < n && d < n && d < Bound(2) && routes[c][d] != d
    ensures IsReached(n, routes, s) && hub < n && hub < |s.heard| && OthersOf(s.heard[hub], hub) == [Probe(d)]
  {
    hub := routes[c][d];
    ProbeIsSendable(d);
    assert RouteOk(routes[c], n);
    var s0 := Initial(n, routes);
    var s1 := After(s0, Send(c, Probe(d), 0));
    AfterSend(n, routes, c, d, hub, s1);
    var run: seq<Step>;
    run, s := DetourGoesOn(s1, c, d, hub);
    FollowsFirst(s0, Send(c, Probe(d), 0), run, s);
  }

  ghost predicate ForwardsNothing(s: Net) { forall t: nat :: t < |s.heard| ==> OthersOf(s.heard[t], t) == [] }

  /** Nothing is forwarded, in any run, if and only if every route map is the identity. */
  lemma ForwardsNothingIff(n: nat, routes: seq<seq<nat>>)
    requires RoutesOk(n, routes) && n <= Bound(2)
    ensures (forall s: Net :: IsReached(n, routes, s) ==> ForwardsNothing(s)) <==> AllDirect(routes)
  {
    if AllDirect(routes) {
      forall s: Net | IsReached(n, routes, s) ensures ForwardsNothing(s) {
        ReachedInv(n, routes, s);
        forall t: nat | t < |s.heard| ensures OthersOf(s.heard[t], t) == [] { NothingIsForwarded(n, routes, s, t); }
      }
    } else {
      var c: nat :| c < n && !Direct(routes[c]);
      var d: nat :| d < |routes[c]| && routes[c][d] != d;
      assert RouteOk(routes[c], n);
      var s, hub := DetourForwards(n, routes, c, d);
      assert !ForwardsNothing(s);
    }
  }
}
