/** allreduce: every core contributes a value and gets back the reduction of all of them, round after
    round through one static total and one static counter. */
module Allreduce {
  import opened Sequences

  type Op<!T> = (T, T) -> T

  ghost predicate Associative<T(!new)>(op: Op<T>) { forall x: T, y: T, z: T :: op(op(x, y), z) == op(x, op(y, z)) }

  ghost predicate Commutative<T(!new)>(op: Op<T>) { forall x: T, y: T :: op(x, y) == op(y, x) }

  // ---------------------------------------------------------------- the home core

  /** The static variables of collect_reduction; `total` means something only when `coresIn` is positive. */
  class Collector<T(0)> {
    const cores: nat
    const op: Op<T>
    var total: T
    var coresIn: nat

    constructor (cores: nat, op: Op<T>, first: T)
      ensures this.cores == cores && this.op == op && coresIn == 0
    {
      this.cores, this.op, this.total, this.coresIn := cores, op, first, 0;
    }

    /** Returns the value to broadcast once all cores are in. */
    method Collect(val: T) returns (done: bool, result: T)
      requires coresIn < cores
      modifies this
      ensures total == if old(coresIn) == 0 then val else op(old(total), val)
      ensures done == (old(coresIn) + 1 == cores) && result == total
      ensures coresIn == if done then 0 else old(coresIn) + 1
    {
      if coresIn == 0 {
        total := val;
      } else {
        total := op(total, val);
      }
      coresIn := coresIn + 1;
      done, result := false, total;
      if coresIn == cores {
        coresIn := 0;
        done := true;
      }
    }
  }

  // ---------------------------------------------------------------- protocol

  datatype Message<T> = Contribution(core: nat, val: T) | Result(core: nat, val: T)

  /** One core: is its task inside a call, what its result word holds, the values it has called with
      and those it has got back. */
  datatype Core<T> = Core(calling: bool, full: bool, word: T, called: seq<T>, got: seq<T>)

  datatype System<T(==)> = System(cores: seq<Core<T>>, net: multiset<Message<T>>, total: T, arrived: seq<nat>, round: nat)

  datatype Step<T> = Call(c: nat, val: T) | Collect(c: nat, val: T) | Arrive(c: nat, val: T) | Return(c: nat)

  ghost predicate Enabled<T>(s: System<T>, p: Step<T>) {
    p.c < |s.cores| &&
    match p
    case Call(c, _) => !s.cores[c].calling
    case Collect(c, v) => Contribution(c, v) in s.net
    case Arrive(c, v) => Result(c, v) in s.net
    case Return(c) => s.cores[c].calling && s.cores[c].full
  }

  ghost function Results<T>(n: nat, v: T): multiset<Message<T>> {
    if n == 0 then multiset{} else Results(n - 1, v) + multiset{Result(n - 1, v)}
  }

  /** `arrived` lists who is in; its length is cores_in. */
  ghost function Collected<T>(s: System<T>, op: Op<T>, c: nat, v: T): System<T> {
    var total := if |s.arrived| == 0 then v else op(s.total, v);
    var net := s.net - multiset{Contribution(c, v)};
    if |s.arrived| + 1 == |s.cores|
    then s.(net := net + Results(|s.cores|, total), total := total, arrived := [], round := s.round + 1)
    else s.(net := net, total := total, arrived := s.arrived + [c])
  }

  ghost function After<T>(s: System<T>, op: Op<T>, p: Step<T>): System<T>
    requires Enabled(s, p)
  {
    match p
    case Call(c, v) =>
      var k := s.cores[c];
      s.(cores := s.cores[c := k.(calling := true, full := false, called := k.called + [v])],
         net := s.net + multiset{Contribution(c, v)})
    case Collect(c, v) => Collected(s, op, c, v)
    case Arrive(c, v) =>
      s.(cores := s.cores[c := s.cores[c].(full := true, word := v)], net := s.net - multiset{Result(c, v)})
    case Return(c) =>
      var k := s.cores[c];
      s.(cores := s.cores[c := k.(calling := false, got := k.got + [k.word])])
  }

  ghost function Initial<T>(n: nat, first: T): System<T> {
    System(seq(n, _ => Core(false, false, first, [], [])), multiset{}, first, [], 0)
  }

  // ---------------------------------------------------------------- reductions

  ghost function Fold<T>(op: Op<T>, vs: seq<T>): T
    requires vs != []
  {
    if |vs| == 1 then vs[0] else op(Fold(op, vs[..|vs| - 1]), vs[|vs| - 1])
  }

  /** What the cores in a list called with in round `k`. */
  ghost function Values<T>(cores: seq<Core<T>>, cs: seq<nat>, k: nat): (r: seq<T>)
    requires forall i: nat :: i < |cs| ==> cs[i] < |cores| && k < |cores[cs[i]].called|
    ensures |r| == |cs| && forall i: nat :: i < |cs| ==> r[i] == cores[cs[i]].called[k]
  {
    seq(|cs|, i requires 0 <= i < |cs| => cores[cs[i]].called[k])
  }

  ghost function UpTo(n: nat): (r: seq<nat>)
    ensures |r| == n && forall i: nat :: i < n ==> r[i] == i
  {
    seq(n, i => i)
  }

  /** The reduction of round `k`, over the cores in their own order. */
  ghost function Answer<T>(op: Op<T>, cores: seq<Core<T>>, k: nat): T
    requires |cores| > 0 && forall c: nat :: c < |cores| ==> k < |cores[c].called|
  {
    Fold(op, Values(cores, UpTo(|cores|), k))
  }

  lemma FoldSnoc<T>(op: Op<T>, vs: seq<T>, v: T)
    requires vs != []
    ensures Fold(op, vs + [v]) == op(Fold(op, vs), v)
  {
    assert (vs + [v])[..|vs|] == vs;
  }

  /** Two values may change places. */
  lemma {:induction false} FoldMovesOne<T(!new)>(op: Op<T>, vs: seq<T>, i: nat)
    requires Associative(op) && Commutative(op) && i < |vs| && |vs| > 1
    ensures Fold(op, vs) == op(Fold(op, vs[..i] + vs[i + 1..]), vs[i])
    decreases |vs|
  {
    var n := |vs| - 1;
    if i == n {
      assert vs[..i] + vs[i + 1..] == vs[..n];
    } else {
      var front, last := vs[..n], vs[n];
      var rest := vs[..i] + vs[i + 1..];
      if n == 1 {
        assert rest == [vs[1]] && front == [vs[0]];
      } else {
        FoldMovesOne(op, front, i);
        assert rest == (front[..i] + front[i + 1..]) + [last];
        FoldSnoc(op, front[..i] + front[i + 1..], last);
      }
    }
  }

  lemma SameWithout<T>(a: multiset<T>, b: multiset<T>, v: T)
    requires a + multiset{v} == b + multiset{v}
    ensures a == b
  {
    assert a == (a + multiset{v}) - multiset{v};
    assert b == (b + multiset{v}) - multiset{v};
  }

  lemma Without<T>(a: seq<T>, i: nat)
    requires i < |a|
    ensures multiset(a) == multiset(a[..i] + a[i + 1..]) + multiset{a[i]}
  {
    assert a == a[..i] + [a[i]] + a[i + 1..];
  }

  ghost predicate HaveCalled<T>(cores: seq<Core<T>>, cs: seq<nat>, k: nat) {
    forall i: nat :: i < |cs| ==> cs[i] < |cores| && k < |cores[cs[i]].called|
  }

  lemma ValuesWithout<T>(cores: seq<Core<T>>, a: seq<nat>, i: nat, k: nat)
    requires HaveCalled(cores, a, k) && i < |a|
    ensures HaveCalled(cores, a[..i] + a[i + 1..], k)
    ensures var vs := Values(cores, a, k); Values(cores, a[..i] + a[i + 1..], k) == vs[..i] + vs[i + 1..]
  {
  }

  /** The order of contributions does not matter. */
  lemma {:induction false} FoldAnyOrder<T(!new)>(op: Op<T>, cores: seq<Core<T>>, a: seq<nat>, b: seq<nat>, k: nat)
    requires Associative(op) && Commutative(op) && a != [] && multiset(a) == multiset(b)
    requires HaveCalled(cores, a, k) && HaveCalled(cores, b, k)
    ensures b != [] && Fold(op, Values(cores, a, k)) == Fold(op, Values(cores, b, k))
    decreases |a|
  {
    assert |multiset(a)| == |a| && |multiset(b)| == |b|;
    var n := |a| - 1;
    assert a[n] in multiset(b);
    var i: nat :| i < |b| && b[i] == a[n];
    if n > 0 {
      Without(a, n);
      Without(b, i);
      SameWithout(multiset(a[..n] + a[n + 1..]), multiset(b[..i] + b[i + 1..]), a[n]);
      ValuesWithout(cores, a, n, k);
      ValuesWithout(cores, b, i, k);
      FoldMovesOne(op, Values(cores, a, k), n);
      FoldMovesOne(op, Values(cores, b, k), i);
      FoldAnyOrder(op, cores, a[..n] + a[n + 1..], b[..i] + b[i + 1..], k);
    } else {
      assert b == [b[0]];
    }
  }

  // ---------------------------------------------------------------- invariant

  /** Round `k` is complete as far as the callers go. */
  ghost predicate AllCalled<T>(cores: seq<Core<T>>, k: nat) {
    |cores| > 0 && forall c: nat :: c < |cores| ==> k < |cores[c].called|
  }

  /** The contribution of this core to the current round is on its way. */
  ghost predicate Pending<T>(s: System<T>, c: nat)
    requires c < |s.cores|
  {
    |s.cores[c].called| == s.round + 1 && c !in s.arrived
  }

  /** The result of the last round is on its way to this core. */
  ghost predicate Awaited<T>(s: System<T>, c: nat)
    requires c < |s.cores|
  {
    s.cores[c].calling && |s.cores[c].called| == s.round && !s.cores[c].full
  }

  ghost predicate ContributionOk<T>(s: System<T>, c: nat, v: T) {
    s.net[Contribution(c, v)] ==
      if c < |s.cores| && Pending(s, c) && v == s.cores[c].called[s.round] then 1 else 0
  }

  ghost predicate ResultOk<T>(s: System<T>, op: Op<T>, c: nat, v: T) {
    s.net[Result(c, v)] ==
      if c < |s.cores| && Awaited(s, c) && s.round > 0 && AllCalled(s.cores, s.round - 1)
         && v == Answer(op, s.cores, s.round - 1) then 1 else 0
  }

  /** Where a core is: between calls, in the current round, or about to learn the last one's result. */
  ghost predicate CoreOk<T>(s: System<T>, op: Op<T>, c: nat) {
    c < |s.cores| ==>
      var k := s.cores[c];
      && s.round <= |k.called| <= s.round + 1
      && |k.got| == (if k.calling then |k.called| - 1 else |k.called|)
      && (!k.calling ==> |k.called| == s.round)
      && (|k.called| == s.round + 1 ==> !k.full)
      && (k.calling && k.full ==> AllCalled(s.cores, s.round - 1) && k.word == Answer(op, s.cores, s.round - 1))
      && (c in s.arrived ==> |k.called| == s.round + 1)
  }

  ghost predicate GotOk<T>(s: System<T>, op: Op<T>, c: nat, i: nat) {
    c < |s.cores| && i < |s.cores[c].got| ==>
      AllCalled(s.cores, i) && s.cores[c].got[i] == Answer(op, s.cores, i)
  }

  /** The home core has reduced the contributions that have come in, in the order they came. */
  ghost predicate HomeOk<T>(s: System<T>, op: Op<T>) {
    && |s.arrived| < |s.cores|
    && (forall i: nat :: i < |s.arrived| ==> s.arrived[i] < |s.cores| && s.round < |s.cores[s.arrived[i]].called|)
    && (forall i: nat, j: nat :: i < j < |s.arrived| ==> s.arrived[i] != s.arrived[j])
    && (s.arrived != [] ==> s.total == Fold(op, Values(s.cores, s.arrived, s.round)))
  }

  ghost predicate Inv<T(!new)>(s: System<T>, op: Op<T>) {
    && HomeOk(s, op)
    && (forall c: nat :: CoreOk(s, op, c))
    && (forall c: nat, i: nat :: GotOk(s, op, c, i))
    && (forall c: nat, v: T :: ContributionOk(s, c, v))
    && (forall c: nat, v: T :: ResultOk(s, op, c, v))
  }

  lemma InitiallyInv<T(!new)>(n: nat, first: T, op: Op<T>)
    requires n > 0
    ensures Inv(Initial(n, first), op)
  {
    var s := Initial(n, first);
    assert forall c: nat :: CoreOk(s, op, c);
    assert forall c: nat, i: nat :: GotOk(s, op, c, i);
    assert forall c: nat, v: T :: ContributionOk(s, c, v) && ResultOk(s, op, c, v);
  }

  /** Later calls leave the answers of earlier rounds alone. */
  lemma AnswerStays<T>(op: Op<T>, cores: seq<Core<T>>, cores': seq<Core<T>>, k: nat)
    requires |cores'| == |cores| && forall c: nat :: c < |cores| ==> cores[c].called <= cores'[c].called
    requires AllCalled(cores, k)
    ensures AllCalled(cores', k) && Answer(op, cores', k) == Answer(op, cores, k)
  {
    assert Values(cores', UpTo(|cores|), k) == Values(cores, UpTo(|cores|), k);
  }

  // ---------------------------------------------------------------- steps

  lemma CallKeeps<T(!new)>(s: System<T>, op: Op<T>, c: nat, v: T)
    requires Inv(s, op) && c < |s.cores| && !s.cores[c].calling
    ensures Inv(After(s, op, Call(c, v)), op)
  {
    var t := After(s, op, Call(c, v));
    assert CoreOk(s, op, c);
    CallCores(s, op, c, v);
    forall d: nat, w: T ensures ContributionOk(t, d, w) && ResultOk(t, op, d, w) {
      assert ContributionOk(s, d, w) && ResultOk(s, op, d, w) && CoreOk(s, op, d);
      if s.round > 0 { AllCalledLast(s, op); AnswerStays(op, s.cores, t.cores, s.round - 1); }
    }
    assert Values(t.cores, s.arrived, s.round) == Values(s.cores, s.arrived, s.round);
  }

  lemma AllCalledLast<T(!new)>(s: System<T>, op: Op<T>)
    requires (forall c: nat :: CoreOk(s, op, c)) && |s.cores| > 0 && s.round > 0
    ensures AllCalled(s.cores, s.round - 1)
  {
    forall c: nat | c < |s.cores| ensures s.round - 1 < |s.cores[c].called| { assert CoreOk(s, op, c); }
  }

  lemma CallCores<T(!new)>(s: System<T>, op: Op<T>, c: nat, v: T)
    requires Inv(s, op) && c < |s.cores| && !s.cores[c].calling
    ensures var t := After(s, op, Call(c, v));
            && (forall d: nat :: CoreOk(t, op, d)) && (forall d: nat, i: nat :: GotOk(t, op, d, i))
  {
    var t := After(s, op, Call(c, v));
    assert CoreOk(s, op, c);
    if s.round > 0 { AllCalledLast(s, op); AnswerStays(op, s.cores, t.cores, s.round - 1); }
    forall d: nat ensures CoreOk(t, op, d) { assert CoreOk(s, op, d); }
    forall d: nat, i: nat ensures GotOk(t, op, d, i) {
      assert GotOk(s, op, d, i);
      if AllCalled(s.cores, i) { AnswerStays(op, s.cores, t.cores, i); }
    }
  }

  /** Steps that leave what has been called alone leave the answers alone. */
  lemma SameAnswer<T>(op: Op<T>, cores: seq<Core<T>>, cores': seq<Core<T>>, k: nat)
    requires |cores'| == |cores| && forall c: nat :: c < |cores| ==> cores[c].called == cores'[c].called
    ensures AllCalled(cores', k) <==> AllCalled(cores, k)
    ensures AllCalled(cores, k) ==> Answer(op, cores', k) == Answer(op, cores, k)
  {
    if AllCalled(cores, k) { AnswerStays(op, cores, cores', k); }
  }

  ghost predicate SameCalls<T>(s: System<T>, t: System<T>) {
    && |t.cores| == |s.cores| && t.total == s.total && t.arrived == s.arrived && t.round == s.round
    && forall c: nat :: c < |s.cores| ==> s.cores[c].called == t.cores[c].called
  }

  lemma HomeStays<T>(s: System<T>, t: System<T>, op: Op<T>)
    requires SameCalls(s, t) && HomeOk(s, op)
    ensures HomeOk(t, op)
  {
    assert Values(t.cores, s.arrived, s.round) == Values(s.cores, s.arrived, s.round);
  }

  lemma ArriveNet<T(!new)>(s: System<T>, op: Op<T>, c: nat, v: T)
    requires Inv(s, op) && Enabled(s, Arrive(c, v))
    ensures var t := After(s, op, Arrive(c, v));
            (forall d: nat, w: T :: ContributionOk(t, d, w)) && (forall d: nat, w: T :: ResultOk(t, op, d, w))
  {
    var t := After(s, op, Arrive(c, v));
    assert ResultOk(s, op, c, v);
    if s.round > 0 { SameAnswer(op, s.cores, t.cores, s.round - 1); }
    forall d: nat, w: T ensures ContributionOk(t, d, w) { assert ContributionOk(s, d, w); }
    forall d: nat, w: T ensures ResultOk(t, op, d, w) { assert ResultOk(s, op, d, w); }
  }

  lemma ArriveKeeps<T(!new)>(s: System<T>, op: Op<T>, c: nat, v: T)
    requires Inv(s, op) && Enabled(s, Arrive(c, v))
    ensures Inv(After(s, op, Arrive(c, v)), op)
  {
    var t := After(s, op, Arrive(c, v));
    assert CoreOk(s, op, c) && ResultOk(s, op, c, v);
    if s.round > 0 { SameAnswer(op, s.cores, t.cores, s.round - 1); }
    forall d: nat ensures CoreOk(t, op, d) { assert CoreOk(s, op, d); }
    forall d: nat, i: nat ensures GotOk(t, op, d, i) { assert GotOk(s, op, d, i); SameAnswer(op, s.cores, t.cores, i); }
    ArriveNet(s, op, c, v);
    HomeStays(s, t, op);
  }

  lemma ReturnNet<T(!new)>(s: System<T>, op: Op<T>, c: nat)
    requires Inv(s, op) && Enabled(s, Return(c))
    ensures var t := After(s, op, Return(c));
            (forall d: nat, w: T :: ContributionOk(t, d, w)) && (forall d: nat, w: T :: ResultOk(t, op, d, w))
  {
    var t := After(s, op, Return(c));
    if s.round > 0 { SameAnswer(op, s.cores, t.cores, s.round - 1); }
    forall d: nat, w: T ensures ContributionOk(t, d, w) { assert ContributionOk(s, d, w); }
    forall d: nat, w: T ensures ResultOk(t, op, d, w) { assert ResultOk(s, op, d, w); }
  }

  lemma ReturnGot<T(!new)>(s: System<T>, op: Op<T>, c: nat, d: nat, i: nat)
    requires Enabled(s, Return(c)) && CoreOk(s, op, c) && GotOk(s, op, d, i)
    ensures GotOk(After(s, op, Return(c)), op, d, i)
  {
    var t := After(s, op, Return(c));
    SameAnswer(op, s.cores, t.cores, i);
    if d == c && i == |s.cores[c].got| { SameAnswer(op, s.cores, t.cores, s.round - 1); }
  }

  lemma ReturnCores<T(!new)>(s: System<T>, op: Op<T>, c: nat, d: nat)
    requires Enabled(s, Return(c)) && CoreOk(s, op, c) && CoreOk(s, op, d)
    ensures CoreOk(After(s, op, Return(c)), op, d)
  {
    var t := After(s, op, Return(c));
    if s.round > 0 { SameAnswer(op, s.cores, t.cores, s.round - 1); }
  }

  lemma ReturnKeeps<T(!new)>(s: System<T>, op: Op<T>, c: nat)
    requires Inv(s, op) && Enabled(s, Return(c))
    ensures Inv(After(s, op, Return(c)), op)
  {
    var t := After(s, op, Return(c));
    assert CoreOk(s, op, c);
    forall d: nat ensures CoreOk(t, op, d) { assert CoreOk(s, op, d); ReturnCores(s, op, c, d); }
    forall d: nat, i: nat ensures GotOk(t, op, d, i) { assert GotOk(s, op, d, i); ReturnGot(s, op, c, d, i); }
    ReturnNet(s, op, c);
    HomeStays(s, t, op);
  }

  // ---------------------------------------------------------------- the home core takes a contribution

  lemma {:induction false} ResultsHave<T>(n: nat, v: T, m: Message<T>)
    ensures Results(n, v)[m] == if m.Result? && m.core < n && m.val == v then 1 else 0
  {
    if n > 0 { ResultsHave(n - 1, v, m); }
  }

  /** It comes from a core that is not in yet, with what that core called with. */
  lemma CollectIsPending<T(!new)>(s: System<T>, op: Op<T>, c: nat, v: T)
    requires Inv(s, op) && Enabled(s, Collect(c, v))
    ensures Pending(s, c) && v == s.cores[c].called[s.round] && CoreOk(s, op, c)
    ensures s.cores[c].calling && !s.cores[c].full
  {
    assert ContributionOk(s, c, v) && CoreOk(s, op, c);
  }

  /** The total after one more contribution. */
  lemma TotalGrows<T(!new)>(s: System<T>, op: Op<T>, c: nat, v: T)
    requires HomeOk(s, op) && c < |s.cores| && s.round < |s.cores[c].called| && v == s.cores[c].called[s.round]
    ensures var total := if |s.arrived| == 0 then v else op(s.total, v);
            total == Fold(op, Values(s.cores, s.arrived + [c], s.round))
  {
    var vs := Values(s.cores, s.arrived, s.round);
    assert Values(s.cores, s.arrived + [c], s.round) == vs + [v];
    if vs != [] { FoldSnoc(op, vs, v); }
  }

  lemma NotLastKeeps<T(!new)>(s: System<T>, op: Op<T>, c: nat, v: T)
    requires Inv(s, op) && Enabled(s, Collect(c, v)) && |s.arrived| + 1 < |s.cores|
    ensures Inv(Collected(s, op, c, v), op)
  {
    var t := Collected(s, op, c, v);
    CollectIsPending(s, op, c, v);
    TotalGrows(s, op, c, v);
    forall d: nat ensures CoreOk(t, op, d) { assert CoreOk(s, op, d); }
    forall d: nat, i: nat ensures GotOk(t, op, d, i) { assert GotOk(s, op, d, i); }
    forall d: nat, w: T ensures ContributionOk(t, d, w) { assert ContributionOk(s, d, w); }
    forall d: nat, w: T ensures ResultOk(t, op, d, w) { assert ResultOk(s, op, d, w); }
  }

  lemma {:induction false} Counts(l: seq<nat>, x: nat)
    requires NoRepeats(l)
    ensures multiset(l)[x] == if x in l then 1 else 0
  {
    if l != [] {
      var n := |l| - 1;
      Counts(l[..n], x);
      assert l == l[..n] + [l[n]];
    }
  }

  lemma ElementsSnoc(l: seq<nat>, x: nat)
    ensures Elements(l + [x]) == Elements(l) + {x}
  {
  }

  lemma {:induction false} AsMany(l: seq<nat>)
    requires NoRepeats(l)
    ensures |Elements(l)| == |l|
  {
    if l != [] {
      var n := |l| - 1;
      AsMany(l[..n]);
      assert l == l[..n] + [l[n]];
      ElementsSnoc(l[..n], l[n]);
      assert l[n] !in l[..n];
    }
  }

  lemma SameSet(a: set<nat>, b: set<nat>)
    requires a <= b && |a| == |b|
    ensures a == b
  {
    assert |b| == |a| + |b - a| by { assert b == a + (b - a); }
  }

  /** A list of as many different numbers below `n` as there are holds all of them. */
  lemma AllThere(l: seq<nat>, n: nat)
    requires |l| == n && NoRepeats(l) && forall i: nat :: i < n ==> l[i] < n
    ensures multiset(l) == multiset(UpTo(n))
  {
    AsMany(l);
    AsMany(UpTo(n));
    assert forall x :: x in l ==> UpTo(n)[x] == x;
    SameSet(Elements(l), Elements(UpTo(n)));
    forall x: nat ensures multiset(l)[x] == multiset(UpTo(n))[x] {
      Counts(l, x);
      Counts(UpTo(n), x);
      assert x in l <==> x in Elements(l);
      assert x in UpTo(n) <==> x in Elements(UpTo(n));
    }
  }

  /** The last contribution completes the reduction of the round. */
  lemma RoundIsComplete<T(!new)>(s: System<T>, op: Op<T>, c: nat, v: T)
    requires Associative(op) && Commutative(op)
    requires Inv(s, op) && Enabled(s, Collect(c, v)) && |s.arrived| + 1 == |s.cores|
    ensures forall d: nat :: d < |s.cores| ==> |s.cores[d].called| == s.round + 1
    ensures Collected(s, op, c, v).total == Answer(op, s.cores, s.round)
  {
    CollectIsPending(s, op, c, v);
    var all := s.arrived + [c];
    AllThere(all, |s.cores|);
    forall d: nat | d < |s.cores| ensures |s.cores[d].called| == s.round + 1 {
      assert UpTo(|s.cores|)[d] == d;
      assert d in multiset(UpTo(|s.cores|));
      assert CoreOk(s, op, d);
      assert d in all;
    }
    TotalGrows(s, op, c, v);
    FoldAnyOrder(op, s.cores, all, UpTo(|s.cores|), s.round);
  }

  lemma LastCores<T(!new)>(s: System<T>, op: Op<T>, c: nat, v: T)
    requires Associative(op) && Commutative(op)
    requires Inv(s, op) && Enabled(s, Collect(c, v)) && |s.arrived| + 1 == |s.cores|
    ensures var t := Collected(s, op, c, v);
            && (forall d: nat :: CoreOk(t, op, d)) && (forall d: nat, i: nat :: GotOk(t, op, d, i))
            && HomeOk(t, op)
  {
    var t := Collected(s, op, c, v);
    RoundIsComplete(s, op, c, v);
    forall d: nat ensures CoreOk(t, op, d) { assert CoreOk(s, op, d); }
    forall d: nat, i: nat ensures GotOk(t, op, d, i) { assert GotOk(s, op, d, i); }
  }

  lemma LastNet<T(!new)>(s: System<T>, op: Op<T>, c: nat, v: T)
    requires Associative(op) && Commutative(op)
    requires Inv(s, op) && Enabled(s, Collect(c, v)) && |s.arrived| + 1 == |s.cores|
    ensures var t := Collected(s, op, c, v);
            (forall d: nat, w: T :: ContributionOk(t, d, w)) && (forall d: nat, w: T :: ResultOk(t, op, d, w))
  {
    var t := Collected(s, op, c, v);
    CollectIsPending(s, op, c, v);
    RoundIsComplete(s, op, c, v);
    forall d: nat, w: T ensures ContributionOk(t, d, w) {
      assert ContributionOk(s, d, w) && CoreOk(s, op, d);
      ResultsHave(|s.cores|, t.total, Contribution(d, w));
      if d < |s.cores| { LastIsAlone(s, op, c, d); }
    }
    forall d: nat, w: T ensures ResultOk(t, op, d, w) {
      assert ResultOk(s, op, d, w) && CoreOk(s, op, d);
      ResultsHave(|s.cores|, t.total, Result(d, w));
    }
  }

  /** When all others are in, no other contribution is on its way. */
  lemma LastIsAlone<T(!new)>(s: System<T>, op: Op<T>, c: nat, d: nat)
    requires HomeOk(s, op) && c < |s.cores| && d < |s.cores| && c !in s.arrived && |s.arrived| + 1 == |s.cores|
    ensures d == c || d in s.arrived
  {
    var all := s.arrived + [c];
    AllThere(all, |s.cores|);
    assert UpTo(|s.cores|)[d] == d;
    assert d in multiset(UpTo(|s.cores|));
    assert d in all;
  }

  lemma StepKeeps<T(!new)>(s: System<T>, op: Op<T>, p: Step<T>)
    requires Associative(op) && Commutative(op) && Inv(s, op) && Enabled(s, p)
    ensures Inv(After(s, op, p), op)
  {
    match p
    case Call(c, v) => CallKeeps(s, op, c, v);
    case Collect(c, v) =>
      if |s.arrived| + 1 == |s.cores| { LastCores(s, op, c, v); LastNet(s, op, c, v); } else { NotLastKeeps(s, op, c, v); }
    case Arrive(c, v) => ArriveKeeps(s, op, c, v);
    case Return(c) => ReturnKeeps(s, op, c);
  }

  // ---------------------------------------------------------------- every run

  ghost predicate Possible<T>(s: System<T>, op: Op<T>, run: seq<Step<T>>)
    decreases |run|
  {
    run == [] || (Enabled(s, run[0]) && Possible(After(s, op, run[0]), op, run[1..]))
  }

  ghost function Reached<T>(s: System<T>, op: Op<T>, run: seq<Step<T>>): System<T>
    requires Possible(s, op, run)
    decreases |run|
  {
    if run == [] then s else Reached(After(s, op, run[0]), op, run[1..])
  }

  lemma {:induction false} KeepAlong<T(!new)>(s: System<T>, op: Op<T>, run: seq<Step<T>>)
    requires Associative(op) && Commutative(op) && Inv(s, op) && Possible(s, op, run)
    ensures Inv(Reached(s, op, run), op)
    decreases |run|
  {
    if run != [] {
      StepKeeps(s, op, run[0]);
      KeepAlong(After(s, op, run[0]), op, run[1..]);
    }
  }

  /** Rounds never mix: the k-th call on any core returns the reduction of all cores' k-th values. */
  lemma RoundsNeverMix<T(!new)>(n: nat, first: T, op: Op<T>, run: seq<Step<T>>, c: nat, k: nat)
    requires n > 0 && Associative(op) && Commutative(op) && Possible(Initial(n, first), op, run)
    requires var s := Reached(Initial(n, first), op, run); c < |s.cores| && k < |s.cores[c].got|
    ensures var s := Reached(Initial(n, first), op, run);
            AllCalled(s.cores, k) && s.cores[c].got[k] == Answer(op, s.cores, k)
  {
    InitiallyInv(n, first, op);
    KeepAlong(Initial(n, first), op, run);
    assert GotOk(Reached(Initial(n, first), op, run), op, c, k);
  }

  /** As a barrier: no core returns from its k-th call before every core has made one. */
  lemma NobodyReturnsEarly<T(!new)>(n: nat, first: T, op: Op<T>, run: seq<Step<T>>, c: nat, d: nat)
    requires n > 0 && Associative(op) && Commutative(op) && Possible(Initial(n, first), op, run)
    requires var s := Reached(Initial(n, first), op, run); c < |s.cores| && d < |s.cores|
    ensures var s := Reached(Initial(n, first), op, run); |s.cores[c].got| <= |s.cores[d].called|
  {
    InitiallyInv(n, first, op);
    KeepAlong(Initial(n, first), op, run);
    var s := Reached(Initial(n, first), op, run);
    var k := |s.cores[c].got|;
    if k > 0 { assert GotOk(s, op, c, k - 1); }
  }

  /** Every core has made the call that core `c` made last. */
  ghost predicate AsManyCalls<T>(s: System<T>, c: nat)
    requires c < |s.cores|
  {
    forall d: nat :: d < |s.cores| ==> |s.cores[c].called| <= |s.cores[d].called|
  }

  /** Once every core has made the call that a core waits in, no further call is needed for something
      to move: a contribution, a result or a return. */
  lemma WaitersAreServed<T(!new)>(n: nat, first: T, op: Op<T>, run: seq<Step<T>>, c: nat)
    requires n > 0 && Associative(op) && Commutative(op) && Possible(Initial(n, first), op, run)
    requires var s := Reached(Initial(n, first), op, run);
             c < |s.cores| && s.cores[c].calling && AsManyCalls(s, c)
    ensures exists p: Step<T> :: !p.Call? && Enabled(Reached(Initial(n, first), op, run), p)
  {
    InitiallyInv(n, first, op);
    KeepAlong(Initial(n, first), op, run);
    var s := Reached(Initial(n, first), op, run);
    SomethingMoves(s, op, c);
  }

  lemma SomethingMoves<T(!new)>(s: System<T>, op: Op<T>, c: nat)
    requires Inv(s, op) && c < |s.cores| && s.cores[c].calling && AsManyCalls(s, c)
    ensures exists p: Step<T> :: !p.Call? && Enabled(s, p)
  {
    assert CoreOk(s, op, c);
    if s.cores[c].full {
      assert Enabled(s, Return(c));
    } else if |s.cores[c].called| == s.round {
      AllCalledLast(s, op);
      var v := Answer(op, s.cores, s.round - 1);
      assert ResultOk(s, op, c, v);
      assert Enabled(s, Arrive(c, v));
    } else {
      var d := SomebodyMissing(s, op);
      assert CoreOk(s, op, d);
      var v := s.cores[d].called[s.round];
      assert ContributionOk(s, d, v);
      assert Enabled(s, Collect(d, v));
    }
  }

  lemma SomethingMore(a: set<nat>, b: set<nat>) returns (x: nat)
    requires |a| < |b|
    ensures x in b && x !in a
  {
    assert b == a * b + (b - a);
    assert |a| == |a * b| + |a - b| by { assert a == a * b + (a - b); }
    assert |b - a| > 0;
    x :| x in b - a;
  }

  lemma SomebodyMissing<T>(s: System<T>, op: Op<T>) returns (d: nat)
    requires HomeOk(s, op)
    ensures d < |s.cores| && d !in s.arrived
  {
    AsMany(s.arrived);
    AsMany(UpTo(|s.cores|));
    d := SomethingMore(Elements(s.arrived), Elements(UpTo(|s.cores|)));
  }
}
