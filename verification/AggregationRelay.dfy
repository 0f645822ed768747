/** Aggregation without buffers and bundles: messages go from core to core, over any route maps. Each is
    kept with the core it was sent from and the number of cores that have passed it on. */
module AggregationRelay {
  import opened Framing
  import opened Aggregation
  import opened AggregationNetwork

  datatype Item = Item(m: Message, origin: nat, hops: nat)

  /** By core and target, all that was aggregated and how much of it has been unpacked; what each core
      has run; and what was sent, by origin and destination. */
  datatype Relay = Relay(
    routes: seq<seq<nat>>, lines: seq<seq<seq<Item>>>, got: seq<seq<nat>>,
    ran: seq<seq<Item>>, log: seq<seq<seq<Message>>>)

  ghost predicate Square(r: Relay, x: nat) {
    x < |r.routes| && x < |r.lines| && x < |r.got| && x < |r.log| ==>
      |r.lines[x]| == |r.routes| && |r.got[x]| == |r.routes| && |r.log[x]| == |r.routes|
  }

  ghost predicate GotOk(r: Relay, x: nat, t: nat) {
    x < |r.lines| && x < |r.got| && t < |r.lines[x]| && t < |r.got[x]| ==> r.got[x][t] <= |r.lines[x][t]|
  }

  ghost predicate Shape(r: Relay) {
    && RoutesOk(|r.routes|, r.routes)
    && |r.lines| == |r.routes| && |r.got| == |r.routes| && |r.ran| == |r.routes| && |r.log| == |r.routes|
    && (forall x: nat :: Square(r, x))
    && (forall x: nat, t: nat :: GotOk(r, x, t))
  }

  ghost function Target(r: Relay, x: nat, d: nat): (t: nat)
    requires Shape(r) && x < |r.routes| && d < |r.routes|
    ensures t < |r.routes|
  {
    assert RouteOk(r.routes[x], |r.routes|);
    r.routes[x][d]
  }

  ghost function Line(r: Relay, x: nat, t: nat): seq<Item>
    requires Shape(r) && x < |r.routes| && t < |r.routes|
  {
    assert Square(r, x);
    r.lines[x][t]
  }

  ghost function Got(r: Relay, x: nat, t: nat): (k: nat)
    requires Shape(r) && x < |r.routes| && t < |r.routes|
    ensures k <= |Line(r, x, t)|
  {
    assert Square(r, x) && GotOk(r, x, t);
    r.got[x][t]
  }

  ghost function Log(r: Relay, o: nat, d: nat): seq<Message>
    requires Shape(r) && o < |r.routes| && d < |r.routes|
  {
    assert Square(r, o);
    r.log[o][d]
  }

  // ---------------------------------------------------------------- steps

  /** An item at the end of the line from `x` to its target. */
  ghost function Put(r: Relay, x: nat, it: Item): (r': Relay)
    requires Shape(r) && x < |r.routes| && it.m.dest < |r.routes|
    ensures Shape(r') && r'.routes == r.routes && r'.got == r.got && r'.ran == r.ran && r'.log == r.log
    ensures var u := Target(r, x, it.m.dest);
            forall y: nat, t: nat :: y < |r.routes| && t < |r.routes| ==>
              Line(r', y, t) == if y == x && t == u then Line(r, x, u) + [it] else Line(r, y, t)
  {
    var u := Target(r, x, it.m.dest);
    assert Square(r, x);
    var r' := r.(lines := r.lines[x := r.lines[x][u := r.lines[x][u] + [it]]]);
    assert forall y: nat :: Square(r', y) by {
      forall y: nat ensures Square(r', y) { assert Square(r, y); }
    }
    assert forall y: nat, t: nat :: GotOk(r', y, t) by {
      forall y: nat, t: nat ensures GotOk(r', y, t) { assert GotOk(r, y, t) && Square(r, y); }
    }
    r'
  }

  /** Core `o` sends a message. */
  ghost function Entered(r: Relay, o: nat, m: Message): (r': Relay)
    requires Shape(r) && o < |r.routes| && m.dest < |r.routes|
    ensures Shape(r') && r'.routes == r.routes && r'.got == r.got && r'.ran == r.ran
    ensures forall y: nat, t: nat :: y < |r.routes| && t < |r.routes| ==>
              Line(r', y, t) == Line(Put(r, o, Item(m, o, 0)), y, t)
              && Log(r', y, t) == if y == o && t == m.dest then Log(r, y, t) + [m] else Log(r, y, t)
  {
    var p := Put(r, o, Item(m, o, 0));
    assert Square(p, o);
    var r' := p.(log := p.log[o := p.log[o][m.dest := p.log[o][m.dest] + [m]]]);
    assert forall y: nat :: Square(r', y) by {
      forall y: nat ensures Square(r', y) { assert Square(p, y); }
    }
    assert forall y: nat, t: nat :: GotOk(r', y, t) by {
      forall y: nat, t: nat ensures GotOk(r', y, t) { assert GotOk(p, y, t); }
    }
    r'
  }

  ghost predicate Waiting(r: Relay, x: nat, t: nat) {
    && Shape(r) && x < |r.routes| && t < |r.routes| && Got(r, x, t) < |Line(r, x, t)|
    && Line(r, x, t)[Got(r, x, t)].m.dest < |r.routes|
  }

  ghost function Next(r: Relay, x: nat, t: nat): Item
    requires Waiting(r, x, t)
  {
    Line(r, x, t)[Got(r, x, t)]
  }

  /** The first item waiting on a line has been unpacked. */
  ghost function Advanced(r: Relay, x: nat, t: nat): (r': Relay)
    requires Waiting(r, x, t)
    ensures Shape(r') && r' == r.(got := r'.got)
    ensures forall y: nat, u: nat :: y < |r.routes| && u < |r.routes| ==>
              Line(r', y, u) == Line(r, y, u)
              && Got(r', y, u) == if y == x && u == t then Got(r, x, t) + 1 else Got(r, y, u)
  {
    assert Square(r, x);
    var r' := r.(got := r.got[x := r.got[x][t := r.got[x][t] + 1]]);
    assert forall y: nat :: Square(r', y) by {
      forall y: nat ensures Square(r', y) { assert Square(r, y); }
    }
    assert forall y: nat, u: nat :: GotOk(r', y, u) by {
      forall y: nat, u: nat ensures GotOk(r', y, u) { assert GotOk(r, y, u) && Square(r, y); }
    }
    r'
  }

  /** Core `t` unpacks it: it runs at its destination, and elsewhere it is passed on. */
  ghost function Heard(r: Relay, x: nat, t: nat): (r': Relay)
    requires Waiting(r, x, t)
    ensures Shape(r') && r'.routes == r.routes
  {
    var it, a := Next(r, x, t), Advanced(r, x, t);
    if it.m.dest == t then Ran(a, t, it) else Put(a, t, it.(hops := it.hops + 1))
  }

  ghost function Ran(r: Relay, t: nat, it: Item): (r': Relay)
    requires Shape(r) && t < |r.routes|
    ensures Shape(r') && r' == r.(ran := r'.ran)
    ensures |r'.ran| == |r.ran|
    ensures forall d: nat :: d < |r.routes| ==> r'.ran[d] == if d == t then r.ran[t] + [it] else r.ran[d]
    ensures forall y: nat, u: nat :: y < |r.routes| && u < |r.routes| ==>
              Line(r', y, u) == Line(r, y, u) && Got(r', y, u) == Got(r, y, u) && Log(r', y, u) == Log(r, y, u)
  {
    var r' := r.(ran := r.ran[t := r.ran[t] + [it]]);
    assert forall y: nat :: Square(r', y) by {
      forall y: nat ensures Square(r', y) { assert Square(r, y); }
    }
    assert forall y: nat, u: nat :: GotOk(r', y, u) by {
      forall y: nat, u: nat ensures GotOk(r', y, u) { assert GotOk(r, y, u); }
    }
    r'
  }

  ghost function Fresh(n: nat, routes: seq<seq<nat>>): (r: Relay)
    requires RoutesOk(n, routes)
    ensures Shape(r) && r.routes == routes
  {
    var r := Relay(routes, seq(n, _ => seq(n, _ => [])), seq(n, _ => seq(n, _ => 0)), seq(n, _ => []),
                   seq(n, _ => seq(n, _ => [])));
    assert forall x: nat :: Square(r, x);
    assert forall x: nat, t: nat :: GotOk(r, x, t);
    r
  }

  // ---------------------------------------------------------------- the way from a core to a destination

  /** The core a message from `o` to `d` is on after `i` hops. */
  ghost function At(r: Relay, o: nat, d: nat, i: nat): (x: nat)
    requires Shape(r) && o < |r.routes| && d < |r.routes|
    ensures x < |r.routes|
    decreases i
  {
    if i == 0 then o else Target(r, At(r, o, d, i - 1), d)
  }

  /** Has it been to its destination within the first `i` hops? */
  ghost predicate Arrived(r: Relay, o: nat, d: nat, i: nat)
    requires Shape(r) && o < |r.routes| && d < |r.routes|
    decreases i
  {
    i > 0 && (At(r, o, d, i) == d || Arrived(r, o, d, i - 1))
  }

  /** The hop after which it arrives. */
  ghost predicate Last(r: Relay, o: nat, d: nat, i: nat)
    requires Shape(r) && o < |r.routes| && d < |r.routes|
  {
    !Arrived(r, o, d, i) && At(r, o, d, i + 1) == d
  }

  lemma {:induction false} ArrivedLater(r: Relay, o: nat, d: nat, i: nat, j: nat)
    requires Shape(r) && o < |r.routes| && d < |r.routes| && i <= j && Arrived(r, o, d, i)
    ensures Arrived(r, o, d, j)
    decreases j
  {
    if i < j { ArrivedLater(r, o, d, i, j - 1); }
  }

  lemma OneLast(r: Relay, o: nat, d: nat, i: nat, j: nat)
    requires Shape(r) && o < |r.routes| && d < |r.routes| && Last(r, o, d, i) && Last(r, o, d, j)
    ensures i == j
  {
    assert Arrived(r, o, d, i + 1) && Arrived(r, o, d, j + 1);
    if i < j { ArrivedLater(r, o, d, i + 1, j); }
    if j < i { ArrivedLater(r, o, d, j + 1, i); }
  }

  lemma {:induction false} NoLastNoArrival(r: Relay, o: nat, d: nat, i: nat)
    requires Shape(r) && o < |r.routes| && d < |r.routes| && forall j: nat :: !Last(r, o, d, j)
    ensures !Arrived(r, o, d, i)
    decreases i
  {
    if i > 0 {
      NoLastNoArrival(r, o, d, i - 1);
      assert !Last(r, o, d, i - 1);
    }
  }

  lemma {:induction false} SameWay(r: Relay, r': Relay, o: nat, d: nat, i: nat)
    requires Shape(r) && Shape(r') && r'.routes == r.routes && o < |r.routes| && d < |r.routes|
    ensures At(r', o, d, i) == At(r, o, d, i) && (Arrived(r', o, d, i) <==> Arrived(r, o, d, i))
    decreases i
  {
    if i > 0 { SameWay(r, r', o, d, i - 1); }
  }
}
