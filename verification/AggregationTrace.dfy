/** Aggregation in buffers and bundles does what the relay does: each run of the network is a run of the
    relay, which knows where every message comes from. */
module AggregationTrace {
  import opened Framing
  import opened Aggregation
  import opened AggregationLines
  import opened AggregationNetwork
  import N = AggregationTheorems
  import opened AggregationRelay
  import opened AggregationOrder

  ghost function Plain(l: seq<Item>): (ms: seq<Message>)
    ensures |ms| == |l| && forall k: nat :: k < |l| ==> ms[k] == l[k].m
  {
    seq(|l|, k requires 0 <= k < |l| => l[k].m)
  }

  lemma PlainSnoc(l: seq<Item>, it: Item)
    ensures Plain(l + [it]) == Plain(l) + [it.m]
  {
  }

  // ---------------------------------------------------------------- the relay's steps

  ghost function HeardOne(r: Relay, x: nat, t: nat): (r': Relay)
    requires Shape(r)
    ensures Shape(r') && r'.routes == r.routes
  {
    if Waiting(r, x, t) then Heard(r, x, t) else r
  }

  /** Core `t` unpacks messages that come from the given cores. */
  ghost function HeardAll(r: Relay, t: nat, rs: seq<Run>): (r': Relay)
    requires Shape(r)
    ensures Shape(r') && r'.routes == r.routes
    decreases |rs|
  {
    if rs == [] then r else HeardAll(HeardOne(r, rs[0].from, t), t, rs[1..])
  }

  /** What a step of the network is for the relay: only sending and unpacking concern it. */
  ghost function Traced(r: Relay, s: Net, p: Step): (r': Relay)
    requires Shape(r) && Wide(s) && Enabled(s, p) && r.routes == s.routes
    ensures Shape(r') && r'.routes == r.routes
  {
    match p
    case Send(c, m, _) => Entered(r, c, m)
    case Deaggregate(t, _) => HeardAll(r, t, HeardOf(s.queue[t]))
    case _ => r
  }

  // ---------------------------------------------------------------- the two agree

  ghost function LineIn(s: Net, x: nat, t: nat): seq<Message>
    requires Wide(s) && x < |s.aggs| && t < |s.aggs|
  {
    assert CoreWide(s, x);
    s.lines[x][t]
  }

  ghost function LogIn(s: Net, o: nat, d: nat): seq<Message>
    requires Wide(s) && o < |s.aggs| && d < |s.aggs|
  {
    assert CoreWide(s, o);
    s.log[o][d]
  }

  ghost predicate SameLine(r: Relay, s: Net, x: nat, t: nat)
    requires Wide(s) && Shape(r) && r.routes == s.routes
  {
    x < |s.aggs| && t < |s.aggs| ==>
      && Plain(Line(r, x, t)) == LineIn(s, x, t)
      && Got(r, x, t) == |N.HeardFrom(s.heard[t], x)|
      && Log(r, x, t) == LogIn(s, x, t)
  }

  ghost predicate SameRun(r: Relay, s: Net, t: nat)
    requires Wide(s) && Shape(r) && r.routes == s.routes
  {
    t < |s.aggs| ==> Plain(r.ran[t]) == RanOf(s.heard[t], t)
  }

  ghost predicate Matches(r: Relay, s: Net) {
    && Wide(s) && Inv(r) && r.routes == s.routes
    && (forall x: nat, t: nat :: SameLine(r, s, x, t))
    && (forall t: nat :: SameRun(r, s, t))
  }

  lemma InitialMatches(n: nat, routes: seq<seq<nat>>)
    requires RoutesOk(n, routes)
    ensures Matches(Fresh(n, routes), Initial(n, routes))
  {
    FreshInv(n, routes);
    var r, s := Fresh(n, routes), Initial(n, routes);
    forall x: nat, t: nat ensures SameLine(r, s, x, t) {
      if x < n && t < n { assert Plain(Line(r, x, t)) == []; }
    }
    forall t: nat ensures SameRun(r, s, t) {
      if t < n { assert Plain(r.ran[t]) == []; }
    }
  }

  // ---------------------------------------------------------------- sending

  lemma SendMatches(r: Relay, s: Net, c: nat, m: Message, ts: nat)
    requires Matches(r, s) && Enabled(s, Send(c, m, ts))
    ensures Matches(Entered(r, c, m), After(s, Send(c, m, ts)))
  {
    var r', s' := Entered(r, c, m), After(s, Send(c, m, ts));
    EnterKeeps(r, c, m);
    assert CoreWide(s, c) && CoreWide(s', c);
    var u := Target(r, c, m.dest);
    forall x: nat, t: nat ensures SameLine(r', s', x, t) {
      assert SameLine(r, s, x, t);
      if x < |s.aggs| && t < |s.aggs| {
        assert CoreWide(s, x) && CoreWide(s', x);
        PlainSnoc(Line(r, x, t), Item(m, c, 0));
      }
    }
    forall t: nat ensures SameRun(r', s', t) { assert SameRun(r, s, t); }
  }

  // ---------------------------------------------------------------- unpacking

  /** What is left of a core's queue, `rest`, comes next on the lines that end there. */
  ghost predicate HearsFrom(r: Relay, t: nat, heard: seq<Run>, rest: seq<Run>, x: nat)
    requires Shape(r) && t < |r.routes|
  {
    x < |r.routes| ==>
      && Got(r, x, t) == |N.HeardFrom(heard, x)|
      && N.HeardFrom(heard + rest, x) <= Plain(Line(r, x, t))
  }

  ghost predicate Hearing(r: Relay, t: nat, heard: seq<Run>, rest: seq<Run>) {
    && Shape(r) && t < |r.routes|
    && N.AllFrom(rest, |r.routes|) && N.RunsFit(rest, |r.routes|)
    && Plain(r.ran[t]) == RanOf(heard, t)
    && forall x: nat :: HearsFrom(r, t, heard, rest, x)
  }

  lemma RanSnoc(heard: seq<Run>, run: Run, t: nat)
    ensures RanOf(heard + [run], t) == RanOf(heard, t) + if run.m.dest == t then [run.m] else []
  {
    MessagesAppend(heard, [run]);
    assert MessagesOf([run]) == [run.m];
    FilterAppend(MessagesOf(heard), [run.m], t);
    assert OnlyFor([run.m], t) == if run.m.dest == t then [run.m] else [];
  }

  /** The next message in the queue is the one its line says is next. */
  lemma NextIsHeard(r: Relay, t: nat, heard: seq<Run>, run: Run, rest: seq<Run>)
    requires Hearing(r, t, heard, [run] + rest)
    ensures Waiting(r, run.from, t) && Next(r, run.from, t).m == run.m
  {
    var x, k := run.from, |N.HeardFrom(heard, run.from)|;
    assert ([run] + rest)[0] == run;
    assert HearsFrom(r, t, heard, [run] + rest, x);
    N.HeardAppend(heard, [run] + rest, x);
    N.HeardAppend([run], rest, x);
    assert N.HeardFrom([run], x) == [run.m];
    assert N.HeardFrom(heard + ([run] + rest), x)[k] == run.m;
    assert Plain(Line(r, x, t))[k] == run.m;
  }

  lemma HearStep(r: Relay, t: nat, heard: seq<Run>, run: Run, rest: seq<Run>)
    requires Hearing(r, t, heard, [run] + rest)
    ensures Waiting(r, run.from, t) && Hearing(Heard(r, run.from, t), t, heard + [run], rest)
  {
    NextIsHeard(r, t, heard, run, rest);
    var r' := Heard(r, run.from, t);
    assert forall k: nat :: k < |rest| ==> rest[k] == ([run] + rest)[k + 1];
    RanSnoc(heard, run, t);
    if run.m.dest == t { PlainSnoc(r.ran[t], Next(r, run.from, t)); }
    forall x: nat ensures HearsFrom(r', t, heard + [run], rest, x) {
      assert HearsFrom(r, t, heard, [run] + rest, x);
      N.HeardAppend(heard, [run], x);
      assert (heard + [run]) + rest == heard + ([run] + rest);
      assert x < |r.routes| ==> Line(r, x, t) <= Line(r', x, t);
      assert x < |r.routes| ==> Plain(Line(r, x, t)) <= Plain(Line(r', x, t));
    }
  }

  /** The lines that begin at core `t`. */
  ghost function Row(r: Relay, t: nat): (ls: seq<seq<Message>>)
    requires Shape(r) && t < |r.routes|
    ensures |ls| == |r.routes| && forall u: nat :: u < |ls| ==> ls[u] == Plain(Line(r, t, u))
  {
    seq(|r.routes|, u requires 0 <= u < |r.routes| => Plain(Line(r, t, u)))
  }

  /** Unpacking at `t` changes nothing but its own lines, what it has run, and how far it has come. */
  ghost predicate Elsewhere(r: Relay, r': Relay, t: nat) {
    && Shape(r) && Shape(r') && r'.routes == r.routes
    && forall y: nat, u: nat :: ElsewhereAt(r, r', t, y, u)
  }

  ghost predicate ElsewhereAt(r: Relay, r': Relay, t: nat, y: nat, u: nat)
    requires Shape(r) && Shape(r') && r'.routes == r.routes
  {
    y < |r.routes| && u < |r.routes| ==>
      && Log(r', y, u) == Log(r, y, u)
      && (u != t ==> Got(r', y, u) == Got(r, y, u) && r'.ran[u] == r.ran[u])
      && (y != t ==> Line(r', y, u) == Line(r, y, u))
  }

  lemma HeardElsewhere(r: Relay, x: nat, t: nat)
    requires Waiting(r, x, t)
    ensures Elsewhere(r, Heard(r, x, t), t)
  {
    var r' := Heard(r, x, t);
    forall y: nat, u: nat ensures ElsewhereAt(r, r', t, y, u) {}
  }

  lemma ElsewhereThen(r: Relay, r1: Relay, r2: Relay, t: nat)
    requires Elsewhere(r, r1, t) && Elsewhere(r1, r2, t)
    ensures Elsewhere(r, r2, t)
  {
    forall y: nat, u: nat ensures ElsewhereAt(r, r2, t, y, u) {
      assert ElsewhereAt(r, r1, t, y, u) && ElsewhereAt(r1, r2, t, y, u);
    }
  }

  /** A message for another core goes on the line of its target. */
  lemma HeardRow(r: Relay, x: nat, t: nat)
    requires Waiting(r, x, t) && SizeOf(Next(r, x, t).m) < MAX
    ensures RouteOk(r.routes[t], |r.routes|)
    ensures var m := Next(r, x, t).m;
            Row(Heard(r, x, t), t) == if m.dest == t then Row(r, t) else Lined(Row(r, t), m, r.routes[t])
  {
    var it, a, r' := Next(r, x, t), Advanced(r, x, t), Heard(r, x, t);
    if it.m.dest != t {
      var jt := it.(hops := it.hops + 1);
      var u := Target(r, t, it.m.dest);
      PlainSnoc(Line(r, t, u), jt);
      assert Line(r', t, u) == Line(r, t, u) + [jt];
      assert Row(r', t)[u] == Row(r, t)[u] + [it.m];
    }
  }

  lemma OthersFirst(run: Run, rest: seq<Run>, t: nat)
    ensures OthersOf([run] + rest, t) == (if run.m.dest == t then [] else [run.m]) + OthersOf(rest, t)
  {
    assert ([run] + rest)[1..] == rest;
    FilterFirst(run.m, MessagesOf(rest), t);
  }

  lemma LinedFirst(ls: seq<seq<Message>>, m: Message, ms: seq<Message>, route: seq<nat>)
    requires RouteOk(route, |ls|)
    ensures AllLined(ls, [m] + ms, route) == AllLined(Lined(ls, m, route), ms, route)
  {
    assert ([m] + ms)[1..] == ms;
  }

  lemma {:induction false} HearAllDoes(r: Relay, t: nat, heard: seq<Run>, rs: seq<Run>)
    requires Inv(r) && Hearing(r, t, heard, rs)
    ensures Inv(HeardAll(r, t, rs)) && Hearing(HeardAll(r, t, rs), t, heard + rs, [])
    ensures Elsewhere(r, HeardAll(r, t, rs), t)
    ensures RouteOk(r.routes[t], |r.routes|)
    ensures Row(HeardAll(r, t, rs), t) == AllLined(Row(r, t), OthersOf(rs, t), r.routes[t])
    decreases |rs|
  {
    if rs == [] {
      assert heard + rs == heard;
      forall y: nat, u: nat ensures ElsewhereAt(r, r, t, y, u) {}
    } else {
      HearFirst(r, t, heard, rs[0], rs[1..], rs);
      HearFirstRow(r, t, rs[0], rs[1..], rs);
      var r1 := Heard(r, rs[0].from, t);
      HearAllDoes(r1, t, heard + [rs[0]], rs[1..]);
      ElsewhereThen(r, r1, HeardAll(r, t, rs), t);
    }
  }

  lemma HearFirst(r: Relay, t: nat, heard: seq<Run>, run: Run, rest: seq<Run>, rs: seq<Run>)
    requires Inv(r) && Hearing(r, t, heard, rs) && rs == [run] + rest
    ensures Waiting(r, run.from, t) && Inv(Heard(r, run.from, t)) && Elsewhere(r, Heard(r, run.from, t), t)
    ensures Next(r, run.from, t).m == run.m && SizeOf(run.m) < MAX
    ensures Hearing(Heard(r, run.from, t), t, heard + [run], rest) && (heard + [run]) + rest == heard + rs
  {
    HearStep(r, t, heard, run, rest);
    NextIsHeard(r, t, heard, run, rest);
    HeardKeeps(r, run.from, t);
    HeardElsewhere(r, run.from, t);
    assert N.Fit(rs[0].m, |r.routes|);
  }

  lemma HearFirstRow(r: Relay, t: nat, run: Run, rest: seq<Run>, rs: seq<Run>)
    requires Waiting(r, run.from, t) && Next(r, run.from, t).m == run.m && SizeOf(run.m) < MAX
    requires rs == [run] + rest
    ensures HeardAll(r, t, rs) == HeardAll(Heard(r, run.from, t), t, rest)
    ensures RouteOk(r.routes[t], |r.routes|)
    ensures AllLined(Row(Heard(r, run.from, t), t), OthersOf(rest, t), r.routes[t])
         == AllLined(Row(r, t), OthersOf(rs, t), r.routes[t])
  {
    assert rs[0] == run && rs[1..] == rest;
    HeardRow(r, run.from, t);
    OthersFirst(run, rest, t);
    if run.m.dest == t {
      assert [] + OthersOf(rest, t) == OthersOf(rest, t);
    } else {
      LinedFirst(Row(r, t), run.m, OthersOf(rest, t), r.routes[t]);
    }
  }

  /** Of each core, a queue holds what comes next on the line from there. */
  lemma QueueIsNext(r: Relay, s: Net, t: nat)
    requires N.Inv(s) && Matches(r, s) && t < |s.aggs|
    ensures Hearing(r, t, s.heard[t], HeardOf(s.queue[t]))
  {
    var rs := HeardOf(s.queue[t]);
    N.DrainKeeps(s, t);
    N.FoundFit(s, t);
    assert SameRun(r, s, t);
    forall x: nat ensures HearsFrom(r, t, s.heard[t], rs, x) {
      assert SameLine(r, s, x, t);
      if x < |s.aggs| {
        assert CoreWide(s, x) && N.ViewOk(s, x);
        UnpackKeeps(N.View(s, x), t, s.routes[x]);
        N.HeardAppend(s.heard[t], rs, x);
        N.HeardBySender(s.queue[t], x);
      }
    }
  }

  lemma DeaggregateMatches(r: Relay, s: Net, t: nat, ts: nat)
    requires N.Inv(s) && Matches(r, s) && Enabled(s, Deaggregate(t, ts))
    ensures Matches(HeardAll(r, t, HeardOf(s.queue[t])), After(s, Deaggregate(t, ts)))
  {
    var rs := HeardOf(s.queue[t]);
    var r', s' := HeardAll(r, t, rs), After(s, Deaggregate(t, ts));
    QueueIsNext(r, s, t);
    HearAllDoes(r, t, s.heard[t], rs);
    assert s'.heard[t] == s.heard[t] + rs;
    RowIs(r, s, t);
    forall x: nat, u: nat ensures SameLine(r', s', x, u) {
      assert SameLine(r, s, x, u);
      if x < |s.aggs| && u < |s.aggs| { DeaggregateLine(r, s, r', s', t, ts, x, u); }
    }
    forall u: nat ensures SameRun(r', s', u) {
      assert SameRun(r, s, u) && ElsewhereAt(r, r', t, 0, u);
    }
  }

  lemma RowIs(r: Relay, s: Net, t: nat)
    requires Matches(r, s) && t < |s.aggs|
    ensures CoreWide(s, t) && Row(r, t) == s.lines[t]
  {
    assert CoreWide(s, t);
    forall u: nat | u < |s.aggs| ensures Row(r, t)[u] == s.lines[t][u] { assert SameLine(r, s, t, u); }
  }

  lemma DeaggregateLine(r: Relay, s: Net, r': Relay, s': Net, t: nat, ts: nat, x: nat, u: nat)
    requires N.Inv(s) && Shape(r) && r.routes == s.routes && Enabled(s, Deaggregate(t, ts))
    requires s' == After(s, Deaggregate(t, ts)) && Elsewhere(r, r', t) && x < |s.aggs| && u < |s.aggs|
    requires SameLine(r, s, x, u) && Row(r, t) == s.lines[t]
    requires RouteOk(r.routes[t], |r.routes|)
    requires Row(r', t) == AllLined(Row(r, t), OthersOf(HeardOf(s.queue[t]), t), r.routes[t])
    requires Hearing(r', t, s.heard[t] + HeardOf(s.queue[t]), [])
    ensures SameLine(r', s', x, u)
  {
    assert CoreWide(s, x) && CoreWide(s', x);
    assert ElsewhereAt(r, r', t, x, u);
    assert HearsFrom(r', t, s.heard[t] + HeardOf(s.queue[t]), [], x);
    if x == t { assert Row(r', t)[u] == s'.lines[t][u]; }
  }

  // ---------------------------------------------------------------- every run

  /** Flushing, polling, idling and delivering do not concern the relay. */
  lemma QuietMatches(r: Relay, s: Net, p: Step)
    requires Matches(r, s) && Enabled(s, p) && !p.Send? && !p.Deaggregate?
    ensures Matches(r, After(s, p))
  {
    var s' := After(s, p);
    assert s'.heard == s.heard && s'.lines == s.lines && s'.log == s.log && s'.routes == s.routes;
    forall x: nat, t: nat ensures SameLine(r, s', x, t) {
      assert SameLine(r, s, x, t);
      if x < |s.aggs| { assert CoreWide(s, x) && CoreWide(s', x); }
    }
    forall t: nat ensures SameRun(r, s', t) { assert SameRun(r, s, t); }
  }

  lemma StepMatches(r: Relay, s: Net, p: Step)
    requires N.Inv(s) && Matches(r, s) && Enabled(s, p)
    ensures Matches(Traced(r, s, p), After(s, p))
  {
    match p
    case Send(c, m, ts) => SendMatches(r, s, c, m, ts);
    case Deaggregate(t, ts) => DeaggregateMatches(r, s, t, ts);
    case _ => QuietMatches(r, s, p);
  }

  /** What a run is for the relay. */
  ghost function Trace(r: Relay, s: Net, run: seq<Step>, s': Net): (r': Relay)
    requires Shape(r) && Wide(s) && r.routes == s.routes && N.Follows(s, run, s')
    ensures Shape(r') && r'.routes == r.routes
    decreases |run|
  {
    if run == [] then r else
      assert After(s, run[0]).routes == s.routes;
      Trace(Traced(r, s, run[0]), After(s, run[0]), run[1..], s')
  }

  lemma {:induction false} TraceMatches(r: Relay, s: Net, run: seq<Step>, s': Net)
    requires N.Inv(s) && Matches(r, s) && N.Follows(s, run, s')
    ensures Matches(Trace(r, s, run, s'), s')
    decreases |run|
  {
    if run != [] {
      N.StepKeeps(s, run[0]);
      StepMatches(r, s, run[0]);
      TraceMatches(Traced(r, s, run[0]), After(s, run[0]), run[1..], s');
    }
  }

  /** From the start. */
  ghost function TraceOf(n: nat, routes: seq<seq<nat>>, run: seq<Step>, s: Net): (r: Relay)
    requires RoutesOk(n, routes) && N.Follows(Initial(n, routes), run, s)
    ensures Shape(r) && r.routes == routes
  {
    Trace(Fresh(n, routes), Initial(n, routes), run, s)
  }

  /** Every run of the aggregators is a run of the relay: the same messages in the same order on every
      line, unpacked as far, and run at every core. */
  lemma RefinesRelay(n: nat, routes: seq<seq<nat>>, run: seq<Step>, s: Net)
    requires RoutesOk(n, routes) && N.Follows(Initial(n, routes), run, s)
    ensures Matches(TraceOf(n, routes, run, s), s) && N.Inv(s) && |s.aggs| == n && s.routes == routes
  {
    N.InitiallyInv(n, routes);
    InitialMatches(n, routes);
    TraceMatches(Fresh(n, routes), Initial(n, routes), run, s);
    N.RunKeeps(Initial(n, routes), run, s);
  }

  /** From end to end, over any route maps: of what has run at a destination, the messages that come from
      one core are a prefix of those it has sent there, in order, unchanged, none twice. */
  lemma RunsInOrder(n: nat, routes: seq<seq<nat>>, run: seq<Step>, s: Net, o: nat, d: nat)
    requires RoutesOk(n, routes) && N.Follows(Initial(n, routes), run, s) && o < n && d < n
    ensures Wide(s) && |s.aggs| == n
    ensures var r := TraceOf(n, routes, run, s);
            Plain(r.ran[d]) == RanOf(s.heard[d], d) && RanFrom(r.ran[d], o) <= LogIn(s, o, d)
  {
    RefinesRelay(n, routes, run, s);
    var r := TraceOf(n, routes, run, s);
    ArriveInOrder(r, o, d);
    assert SameLine(r, s, o, d) && SameRun(r, s, d);
  }

  /** Nothing is in any buffer, on its way, or in any queue. */
  ghost predicate AllDrained(s: Net)
    requires Wide(s)
  {
    forall c: nat, t: nat :: c < |s.aggs| && t < |s.aggs| ==> N.Drained(s, c, t)
  }

  /** Then every message that was sent has run at its destination, exactly once; and on a way that never
      gets there, none was sent. */
  lemma NothingIsLost(n: nat, routes: seq<seq<nat>>, run: seq<Step>, s: Net, o: nat, d: nat)
    requires RoutesOk(n, routes) && N.Follows(Initial(n, routes), run, s) && o < n && d < n
    requires Wide(s) && AllDrained(s)
    ensures |s.aggs| == n
    ensures var r := TraceOf(n, routes, run, s);
            && RanFrom(r.ran[d], o) == LogIn(s, o, d)
            && ((forall i: nat :: !Last(r, o, d, i)) ==> LogIn(s, o, d) == [])
  {
    RefinesRelay(n, routes, run, s);
    var r := TraceOf(n, routes, run, s);
    forall x: nat, t: nat ensures HopDone(r, x, t) {
      if x < n && t < n {
        assert N.Drained(s, x, t) && SameLine(r, s, x, t) && CoreWide(s, x);
        N.HopsLoseNothing(n, routes, s, x, t);
      }
    }
    AllHaveRun(r, o, d);
    assert SameLine(r, s, o, d);
    if forall i: nat :: !Last(r, o, d, i) { NeverArriving(r, o, d); }
  }
}
