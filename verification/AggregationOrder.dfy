/** Messages from one core to one destination keep their order on any way, and none gets lost. */
module AggregationOrder {
  import opened Framing
  import opened Aggregation
  import opened AggregationNetwork
  import opened AggregationRelay

  // ---------------------------------------------------------------- the messages of one stage

  ghost predicate Is(it: Item, o: nat, d: nat, i: nat) { it.origin == o && it.m.dest == d && it.hops == i }

  /** The messages from `o` to `d` with `i` hops behind them. */
  ghost function Stage(l: seq<Item>, o: nat, d: nat, i: nat): seq<Message>
    decreases |l|
  {
    if l == [] then [] else
      Stage(l[..|l| - 1], o, d, i) + if Is(l[|l| - 1], o, d, i) then [l[|l| - 1].m] else []
  }

  lemma StageSnoc(l: seq<Item>, it: Item, o: nat, d: nat, i: nat)
    ensures Stage(l + [it], o, d, i) == Stage(l, o, d, i) + if Is(it, o, d, i) then [it.m] else []
  {
    assert (l + [it])[..|l|] == l;
  }

  lemma StageNext(l: seq<Item>, k: nat, o: nat, d: nat, i: nat)
    requires k < |l|
    ensures Stage(l[..k + 1], o, d, i) == Stage(l[..k], o, d, i) + if Is(l[k], o, d, i) then [l[k].m] else []
  {
    assert l[..k + 1] == l[..k] + [l[k]];
    StageSnoc(l[..k], l[k], o, d, i);
  }

  lemma {:induction false} StageOfPart(l: seq<Item>, k: nat, o: nat, d: nat, i: nat)
    requires k <= |l|
    ensures Stage(l[..k], o, d, i) <= Stage(l, o, d, i)
    decreases |l| - k
  {
    if k < |l| {
      StageNext(l, k, o, d, i);
      StageOfPart(l, k + 1, o, d, i);
    } else {
      assert l[..k] == l;
    }
  }

  /** Without such a message. */
  lemma {:induction false} StageEmpty(l: seq<Item>, o: nat, d: nat, i: nat)
    requires forall k: nat :: k < |l| ==> !Is(l[k], o, d, i)
    ensures Stage(l, o, d, i) == []
    decreases |l|
  {
    if l != [] { StageEmpty(l[..|l| - 1], o, d, i); }
  }

  // ---------------------------------------------------------------- invariant

  /** An item lies on the way from its origin to its destination. */
  ghost predicate OnItsWay(r: Relay, x: nat, it: Item)
    requires Shape(r)
  {
    && it.origin < |r.routes| && it.m.dest < |r.routes|
    && x == At(r, it.origin, it.m.dest, it.hops) && !Arrived(r, it.origin, it.m.dest, it.hops)
  }

  ghost predicate PlaceOk(r: Relay, x: nat, t: nat, k: nat)
    requires Shape(r)
  {
    x < |r.routes| && t < |r.routes| && k < |Line(r, x, t)| ==>
      OnItsWay(r, x, Line(r, x, t)[k]) && t == Target(r, x, Line(r, x, t)[k].m.dest)
  }

  ghost predicate RanOk(r: Relay, d: nat, k: nat)
    requires Shape(r)
  {
    d < |r.routes| && k < |r.ran[d]| ==>
      var it := r.ran[d][k];
      it.origin < |r.routes| && it.m.dest == d && Last(r, it.origin, d, it.hops)
  }

  /** All messages from `o` to `d` with `i` hops behind them. */
  ghost function Aboard(r: Relay, o: nat, d: nat, i: nat): seq<Message>
    requires Shape(r) && o < |r.routes| && d < |r.routes|
  {
    Stage(Line(r, At(r, o, d, i), At(r, o, d, i + 1)), o, d, i)
  }

  /** Those of them that have come one core further. */
  ghost function Ashore(r: Relay, o: nat, d: nat, i: nat): seq<Message>
    requires Shape(r) && o < |r.routes| && d < |r.routes|
  {
    var x, t := At(r, o, d, i), At(r, o, d, i + 1);
    Stage(Line(r, x, t)[..Got(r, x, t)], o, d, i)
  }

  ghost predicate StageOk(r: Relay, o: nat, d: nat, i: nat)
    requires Shape(r)
  {
    o < |r.routes| && d < |r.routes| && !Arrived(r, o, d, i) ==>
      && (i == 0 ==> Aboard(r, o, d, 0) == Log(r, o, d))
      && Ashore(r, o, d, i) == if At(r, o, d, i + 1) == d then Stage(r.ran[d], o, d, i) else Aboard(r, o, d, i + 1)
  }

  ghost predicate Placed(r: Relay) {
    && Shape(r)
    && (forall x: nat, t: nat, k: nat :: PlaceOk(r, x, t, k))
    && (forall d: nat, k: nat :: RanOk(r, d, k))
  }

  ghost predicate Inv(r: Relay) { Placed(r) && forall o: nat, d: nat, i: nat :: StageOk(r, o, d, i) }

  lemma FreshInv(n: nat, routes: seq<seq<nat>>)
    requires RoutesOk(n, routes)
    ensures Inv(Fresh(n, routes))
  {
    var r := Fresh(n, routes);
    assert forall x: nat, t: nat, k: nat :: PlaceOk(r, x, t, k);
    assert forall d: nat, k: nat :: RanOk(r, d, k);
    assert forall o: nat, d: nat, i: nat :: StageOk(r, o, d, i);
  }

  // ---------------------------------------------------------------- putting an item on a line

  lemma PutPlaces(r: Relay, x: nat, it: Item, y: nat, t: nat, k: nat)
    requires Placed(r) && x < |r.routes| && OnItsWay(r, x, it)
    ensures PlaceOk(Put(r, x, it), y, t, k)
  {
    var r' := Put(r, x, it);
    assert PlaceOk(r, y, t, k);
    if y < |r.routes| && t < |r.routes| && k < |Line(r', y, t)| {
      var jt := Line(r', y, t)[k];
      SameWay(r, r', jt.origin, jt.m.dest, jt.hops);
    }
  }

  /** What has come ashore is not affected, and one stage is longer by one. */
  lemma PutStages(r: Relay, x: nat, it: Item, o: nat, d: nat, i: nat)
    requires Shape(r) && x < |r.routes| && OnItsWay(r, x, it) && o < |r.routes| && d < |r.routes|
    ensures var r' := Put(r, x, it);
            && Ashore(r', o, d, i) == Ashore(r, o, d, i)
            && Aboard(r', o, d, i) == Aboard(r, o, d, i) + if Is(it, o, d, i) then [it.m] else []
  {
    var r' := Put(r, x, it);
    SameWay(r, r', o, d, i);
    SameWay(r, r', o, d, i + 1);
    var y, t := At(r, o, d, i), At(r, o, d, i + 1);
    assert Line(r', y, t)[..Got(r, y, t)] == Line(r, y, t)[..Got(r, y, t)];
    StageSnoc(Line(r, y, t), it, o, d, i);
  }

  lemma EnterKeeps(r: Relay, o: nat, m: Message)
    requires Inv(r) && o < |r.routes| && m.dest < |r.routes|
    ensures Inv(Entered(r, o, m))
  {
    var it := Item(m, o, 0);
    var p, r' := Put(r, o, it), Entered(r, o, m);
    forall x: nat, t: nat, k: nat ensures PlaceOk(r', x, t, k) {
      PutPlaces(r, o, it, x, t, k);
      assert PlaceOk(p, x, t, k);
      if x < |r.routes| && t < |r.routes| && k < |Line(r', x, t)| {
        var jt := Line(r', x, t)[k];
        SameWay(p, r', jt.origin, jt.m.dest, jt.hops);
      }
    }
    forall d: nat, k: nat ensures RanOk(r', d, k) { SameRanOk(r, r', d, k); }
    forall a: nat, d: nat, i: nat ensures StageOk(r', a, d, i) {
      assert StageOk(r, a, d, i);
      if a < |r.routes| && d < |r.routes| { EnterStage(r, o, m, a, d, i); }
    }
  }

  lemma SameRanOk(r: Relay, r': Relay, d: nat, k: nat)
    requires Shape(r) && Shape(r') && r'.routes == r.routes && r'.ran == r.ran && RanOk(r, d, k)
    ensures RanOk(r', d, k)
  {
    if d < |r.routes| && k < |r.ran[d]| {
      var it := r.ran[d][k];
      SameWay(r, r', it.origin, d, it.hops);
      SameWay(r, r', it.origin, d, it.hops + 1);
    }
  }

  /** One message more in a stage, perhaps. */
  ghost predicate MoreAboard(r: Relay, r': Relay, o: nat, d: nat, i: nat, b: bool, m: Message)
    requires Shape(r) && Shape(r') && |r'.routes| == |r.routes| && o < |r.routes| && d < |r.routes|
  {
    Aboard(r', o, d, i) == if b then Aboard(r, o, d, i) + [m] else Aboard(r, o, d, i)
  }

  ghost predicate MoreAshore(r: Relay, r': Relay, o: nat, d: nat, i: nat, b: bool, m: Message)
    requires Shape(r) && Shape(r') && |r'.routes| == |r.routes| && o < |r.routes| && d < |r.routes|
  {
    Ashore(r', o, d, i) == if b then Ashore(r, o, d, i) + [m] else Ashore(r, o, d, i)
  }

  ghost predicate MoreRun(r: Relay, r': Relay, o: nat, d: nat, i: nat, b: bool, m: Message)
    requires Shape(r) && Shape(r') && |r'.routes| == |r.routes| && o < |r.routes| && d < |r.routes|
  {
    Stage(r'.ran[d], o, d, i) == if b then Stage(r.ran[d], o, d, i) + [m] else Stage(r.ran[d], o, d, i)
  }

  /** A message of this stage, unpacked at the end of its hop, keeps the stages in balance. */
  lemma StageMoves(r: Relay, r': Relay, o: nat, d: nat, i: nat, b: bool, t: nat, m: Message)
    requires Shape(r) && Shape(r') && r'.routes == r.routes && o < |r.routes| && d < |r.routes| && StageOk(r, o, d, i)
    requires b ==> t == At(r, o, d, i + 1)
    requires MoreAshore(r, r', o, d, i, b, m)
    requires MoreAboard(r, r', o, d, i + 1, d != t && b, m)
    requires MoreRun(r, r', o, d, i, d == t && b, m)
    requires i == 0 ==> MoreAboard(r, r', o, d, 0, false, m) && Log(r', o, d) == Log(r, o, d)
    ensures StageOk(r', o, d, i)
  {
    SameWay(r, r', o, d, i);
    SameWay(r, r', o, d, i + 1);
  }

  /** Sending makes the first stage longer by one, and nothing else. */
  lemma EnteredStages(r: Relay, o: nat, m: Message, a: nat, d: nat, i: nat)
    requires Shape(r) && o < |r.routes| && m.dest < |r.routes| && a < |r.routes| && d < |r.routes|
    ensures MoreAshore(r, Entered(r, o, m), a, d, i, false, m)
    ensures MoreAboard(r, Entered(r, o, m), a, d, i, a == o && d == m.dest && i == 0, m)
  {
    var it := Item(m, o, 0);
    PutStages(r, o, it, a, d, i);
    StagesAgree(Put(r, o, it), Entered(r, o, m), a, d, i);
  }

  lemma StageEnters(r: Relay, r': Relay, o: nat, d: nat, i: nat, b: bool, m: Message)
    requires Shape(r) && Shape(r') && r'.routes == r.routes && o < |r.routes| && d < |r.routes| && StageOk(r, o, d, i)
    requires MoreAshore(r, r', o, d, i, false, m) && MoreAboard(r, r', o, d, i + 1, false, m) && r'.ran == r.ran
    requires i == 0 ==> MoreAboard(r, r', o, d, 0, b, m) && Log(r', o, d) == if b then Log(r, o, d) + [m] else Log(r, o, d)
    ensures StageOk(r', o, d, i)
  {
    SameWay(r, r', o, d, i);
    SameWay(r, r', o, d, i + 1);
  }

  lemma EnterStage(r: Relay, o: nat, m: Message, a: nat, d: nat, i: nat)
    requires Shape(r) && StageOk(r, a, d, i)
    requires o < |r.routes| && m.dest < |r.routes| && a < |r.routes| && d < |r.routes|
    ensures StageOk(Entered(r, o, m), a, d, i)
  {
    EnteredStages(r, o, m, a, d, i);
    EnteredStages(r, o, m, a, d, i + 1);
    StageEnters(r, Entered(r, o, m), a, d, i, a == o && d == m.dest, m);
  }

  lemma StagesAgree(r: Relay, r': Relay, o: nat, d: nat, i: nat)
    requires Shape(r) && Shape(r') && r'.routes == r.routes && o < |r.routes| && d < |r.routes|
    requires forall y: nat, t: nat :: y < |r.routes| && t < |r.routes| ==>
               Line(r', y, t) == Line(r, y, t) && Got(r', y, t) == Got(r, y, t)
    ensures Aboard(r', o, d, i) == Aboard(r, o, d, i) && Ashore(r', o, d, i) == Ashore(r, o, d, i)
  {
    SameWay(r, r', o, d, i);
    SameWay(r, r', o, d, i + 1);
  }

  // ---------------------------------------------------------------- unpacking an item

  /** The stage of the item gains it ashore; nothing else changes. */
  lemma AdvancedStages(r: Relay, x: nat, t: nat, o: nat, d: nat, i: nat)
    requires NextOk(r, x, t) && o < |r.routes| && d < |r.routes|
    ensures var a, it := Advanced(r, x, t), Next(r, x, t);
            && Aboard(a, o, d, i) == Aboard(r, o, d, i)
            && Ashore(a, o, d, i) == Ashore(r, o, d, i) + if Is(it, o, d, i) then [it.m] else []
  {
    var a, it := Advanced(r, x, t), Next(r, x, t);
    SameWay(r, a, o, d, i);
    SameWay(r, a, o, d, i + 1);
    var k := Got(r, x, t);
    if At(r, o, d, i) == x && At(r, o, d, i + 1) == t {
      StageNext(Line(r, x, t), k, o, d, i);
    } else {
      assert !Is(it, o, d, i);
    }
  }

  lemma AdvancedPlaces(r: Relay, x: nat, t: nat, y: nat, u: nat, k: nat)
    requires Placed(r) && Waiting(r, x, t)
    ensures PlaceOk(Advanced(r, x, t), y, u, k)
  {
    var a := Advanced(r, x, t);
    assert PlaceOk(r, y, u, k);
    if y < |r.routes| && u < |r.routes| && k < |Line(r, y, u)| {
      var it := Line(r, y, u)[k];
      SameWay(r, a, it.origin, it.m.dest, it.hops);
    }
  }

  /** The item waiting is on its way over this hop. */
  ghost predicate NextOk(r: Relay, x: nat, t: nat) {
    Waiting(r, x, t) &&
    var it := Next(r, x, t);
    OnItsWay(r, x, it) && t == At(r, it.origin, it.m.dest, it.hops + 1)
  }

  lemma NextIsOnItsWay(r: Relay, x: nat, t: nat)
    requires Placed(r) && Waiting(r, x, t)
    ensures NextOk(r, x, t)
  {
    assert PlaceOk(r, x, t, Got(r, x, t));
  }

  /** Either the way ends here, or it goes on. */
  lemma NextGoesOn(r: Relay, x: nat, t: nat)
    requires NextOk(r, x, t)
    ensures var it := Next(r, x, t);
            if it.m.dest == t then Last(r, it.origin, t, it.hops)
            else OnItsWay(Advanced(r, x, t), t, it.(hops := it.hops + 1))
  {
    var it := Next(r, x, t);
    SameWay(r, Advanced(r, x, t), it.origin, it.m.dest, it.hops + 1);
  }

  lemma RanPlaces(r: Relay, t: nat, it: Item)
    requires Placed(r) && t < |r.routes| && it.origin < |r.routes| && it.m.dest == t && Last(r, it.origin, t, it.hops)
    ensures Placed(Ran(r, t, it))
  {
    var r' := Ran(r, t, it);
    forall x: nat, u: nat, k: nat ensures PlaceOk(r', x, u, k) {
      assert PlaceOk(r, x, u, k);
      if x < |r.routes| && u < |r.routes| && k < |Line(r, x, u)| {
        var jt := Line(r, x, u)[k];
        SameWay(r, r', jt.origin, jt.m.dest, jt.hops);
      }
    }
    forall d: nat, k: nat ensures RanOk(r', d, k) {
      assert RanOk(r, d, k);
      if d < |r.routes| && k < |r'.ran[d]| {
        var jt := r'.ran[d][k];
        SameWay(r, r', jt.origin, d, jt.hops);
        SameWay(r, r', jt.origin, d, jt.hops + 1);
      }
    }
  }

  lemma HeardPlaces(r: Relay, x: nat, t: nat)
    requires Placed(r) && Waiting(r, x, t)
    ensures Placed(Heard(r, x, t)) && Placed(Advanced(r, x, t))
  {
    var a, it := Advanced(r, x, t), Next(r, x, t);
    NextIsOnItsWay(r, x, t);
    forall y: nat, u: nat, k: nat ensures PlaceOk(a, y, u, k) { AdvancedPlaces(r, x, t, y, u, k); }
    forall d: nat, k: nat ensures RanOk(a, d, k) { SameRanOk(r, a, d, k); }
    if it.m.dest == t {
      NextGoesOn(r, x, t);
      SameWay(r, a, it.origin, t, it.hops);
      SameWay(r, a, it.origin, t, it.hops + 1);
      RanPlaces(a, t, it);
    } else {
      var jt := it.(hops := it.hops + 1);
      NextGoesOn(r, x, t);
      var r' := Put(a, t, jt);
      forall y: nat, u: nat, k: nat ensures PlaceOk(r', y, u, k) { PutPlaces(a, t, jt, y, u, k); }
      forall d: nat, k: nat ensures RanOk(r', d, k) { SameRanOk(a, r', d, k); }
    }
  }

  lemma RanStages(a: Relay, t: nat, it: Item, o: nat, d: nat, i: nat)
    requires Shape(a) && t < |a.routes| && o < |a.routes| && d < |a.routes|
    ensures Ashore(Ran(a, t, it), o, d, i) == Ashore(a, o, d, i)
    ensures Aboard(Ran(a, t, it), o, d, i) == Aboard(a, o, d, i)
  {
    StagesAgree(a, Ran(a, t, it), o, d, i);
  }

  /** Unpacking a message brings it ashore. */
  lemma HeardAshore(r: Relay, x: nat, t: nat, o: nat, d: nat, i: nat)
    requires NextOk(r, x, t) && o < |r.routes| && d < |r.routes|
    ensures MoreAshore(r, Heard(r, x, t), o, d, i, Is(Next(r, x, t), o, d, i), Next(r, x, t).m)
  {
    var a, it := Advanced(r, x, t), Next(r, x, t);
    AdvancedStages(r, x, t, o, d, i);
    if it.m.dest == t {
      RanStages(a, t, it, o, d, i);
    } else {
      NextGoesOn(r, x, t);
      PutStages(a, t, it.(hops := it.hops + 1), o, d, i);
    }
  }

  lemma AboardAfterRan(r: Relay, a: Relay, r': Relay, t: nat, it: Item, o: nat, d: nat, i: nat)
    requires Shape(r) && Shape(a) && a.routes == r.routes && t < |r.routes| && o < |r.routes| && d < |r.routes|
    requires Aboard(a, o, d, i) == Aboard(r, o, d, i) && r' == Ran(a, t, it)
    ensures MoreAboard(r, r', o, d, i, false, it.m)
  {
    RanStages(a, t, it, o, d, i);
  }

  lemma AboardAfterPut(r: Relay, a: Relay, r': Relay, t: nat, jt: Item, o: nat, d: nat, i: nat)
    requires Shape(r) && Shape(a) && a.routes == r.routes && t < |r.routes| && o < |r.routes| && d < |r.routes|
    requires Aboard(a, o, d, i) == Aboard(r, o, d, i) && OnItsWay(a, t, jt) && r' == Put(a, t, jt)
    ensures MoreAboard(r, r', o, d, i, Is(jt, o, d, i), jt.m)
  {
    PutStages(a, t, jt, o, d, i);
  }

  lemma AdvancedAboard(r: Relay, a: Relay, x: nat, t: nat, o: nat, d: nat, i: nat)
    requires Waiting(r, x, t) && a == Advanced(r, x, t) && o < |r.routes| && d < |r.routes|
    ensures Aboard(a, o, d, i) == Aboard(r, o, d, i)
  {
    SameWay(r, a, o, d, i);
    SameWay(r, a, o, d, i + 1);
  }

  /** At its destination a message does not go aboard again. */
  lemma AboardAtTheEnd(r: Relay, x: nat, t: nat, o: nat, d: nat, i: nat)
    requires NextOk(r, x, t) && Next(r, x, t).m.dest == t && o < |r.routes| && d < |r.routes|
    ensures MoreAboard(r, Heard(r, x, t), o, d, i, false, Next(r, x, t).m)
  {
    var a := Advanced(r, x, t);
    AdvancedAboard(r, a, x, t, o, d, i);
    AboardAfterRan(r, a, Heard(r, x, t), t, Next(r, x, t), o, d, i);
  }

  /** Elsewhere it does, with one more hop. */
  lemma AboardFurther(r: Relay, x: nat, t: nat, o: nat, d: nat, i: nat, jt: Item)
    requires NextOk(r, x, t) && Next(r, x, t).m.dest != t && o < |r.routes| && d < |r.routes|
    requires jt == Next(r, x, t).(hops := Next(r, x, t).hops + 1)
    ensures MoreAboard(r, Heard(r, x, t), o, d, i, Is(jt, o, d, i), jt.m)
  {
    var a := Advanced(r, x, t);
    AdvancedAboard(r, a, x, t, o, d, i);
    NextGoesOn(r, x, t);
    AboardAfterPut(r, a, Heard(r, x, t), t, jt, o, d, i);
  }

  lemma HeardAboardNext(r: Relay, x: nat, t: nat, o: nat, d: nat, i: nat)
    requires NextOk(r, x, t) && o < |r.routes| && d < |r.routes|
    ensures MoreAboard(r, Heard(r, x, t), o, d, i + 1, d != t && Is(Next(r, x, t), o, d, i), Next(r, x, t).m)
  {
    var it := Next(r, x, t);
    if it.m.dest == t {
      AboardAtTheEnd(r, x, t, o, d, i + 1);
    } else {
      AboardFurther(r, x, t, o, d, i + 1, it.(hops := it.hops + 1));
    }
  }

  lemma HeardAboardFirst(r: Relay, x: nat, t: nat, o: nat, d: nat)
    requires NextOk(r, x, t) && o < |r.routes| && d < |r.routes|
    ensures MoreAboard(r, Heard(r, x, t), o, d, 0, false, Next(r, x, t).m)
  {
    var it := Next(r, x, t);
    if it.m.dest == t {
      AboardAtTheEnd(r, x, t, o, d, 0);
    } else {
      AboardFurther(r, x, t, o, d, 0, it.(hops := it.hops + 1));
    }
  }

  lemma HeardRuns(r: Relay, x: nat, t: nat, o: nat, d: nat, i: nat)
    requires NextOk(r, x, t) && o < |r.routes| && d < |r.routes|
    ensures MoreRun(r, Heard(r, x, t), o, d, i, d == t && Is(Next(r, x, t), o, d, i), Next(r, x, t).m)
  {
    var it := Next(r, x, t);
    if it.m.dest == t && d == t { StageSnoc(r.ran[t], it, o, d, i); }
  }

  /** A message of this stage waits at the end of this hop only. */
  lemma NextOfStage(r: Relay, x: nat, t: nat, o: nat, d: nat, i: nat)
    requires NextOk(r, x, t) && o < |r.routes| && d < |r.routes|
    ensures Is(Next(r, x, t), o, d, i) ==> t == At(r, o, d, i + 1)
    ensures Log(Heard(r, x, t), o, d) == Log(r, o, d)
  {
  }

  lemma HeardStage(r: Relay, x: nat, t: nat, o: nat, d: nat, i: nat)
    requires NextOk(r, x, t) && StageOk(r, o, d, i) && o < |r.routes| && d < |r.routes|
    ensures StageOk(Heard(r, x, t), o, d, i)
  {
    HeardAshore(r, x, t, o, d, i);
    HeardAboardNext(r, x, t, o, d, i);
    HeardAboardFirst(r, x, t, o, d);
    HeardRuns(r, x, t, o, d, i);
    NextOfStage(r, x, t, o, d, i);
    StageMoves(r, Heard(r, x, t), o, d, i, Is(Next(r, x, t), o, d, i), t, Next(r, x, t).m);
  }

  lemma HeardKeeps(r: Relay, x: nat, t: nat)
    requires Inv(r) && Waiting(r, x, t)
    ensures Inv(Heard(r, x, t))
  {
    HeardPlaces(r, x, t);
    NextIsOnItsWay(r, x, t);
    forall o: nat, d: nat, i: nat ensures StageOk(Heard(r, x, t), o, d, i) {
      assert StageOk(r, o, d, i);
      if o < |r.routes| && d < |r.routes| { HeardStage(r, x, t, o, d, i); }
    }
  }

  // ---------------------------------------------------------------- what has run

  ghost function RanFrom(l: seq<Item>, o: nat): seq<Message>
    decreases |l|
  {
    if l == [] then [] else RanFrom(l[..|l| - 1], o) + if l[|l| - 1].origin == o then [l[|l| - 1].m] else []
  }

  lemma {:induction false} RanFromStage(l: seq<Item>, o: nat, d: nat, i: nat)
    requires forall k: nat :: k < |l| && l[k].origin == o ==> Is(l[k], o, d, i)
    ensures RanFrom(l, o) == Stage(l, o, d, i)
    decreases |l|
  {
    if l != [] { RanFromStage(l[..|l| - 1], o, d, i); }
  }

  /** All that has run of a core's messages at a destination arrived there after the same hop. */
  lemma RanAfterLast(r: Relay, o: nat, d: nat, i: nat)
    requires Inv(r) && o < |r.routes| && d < |r.routes| && Last(r, o, d, i)
    ensures RanFrom(r.ran[d], o) == Ashore(r, o, d, i)
  {
    forall k: nat | k < |r.ran[d]| && r.ran[d][k].origin == o ensures Is(r.ran[d][k], o, d, i) {
      assert RanOk(r, d, k);
      OneLast(r, o, d, i, r.ran[d][k].hops);
    }
    RanFromStage(r.ran[d], o, d, i);
    assert StageOk(r, o, d, i);
  }

  lemma RanNever(r: Relay, o: nat, d: nat)
    requires Inv(r) && o < |r.routes| && d < |r.routes| && forall i: nat :: !Last(r, o, d, i)
    ensures RanFrom(r.ran[d], o) == []
  {
    forall k: nat | k < |r.ran[d]| ensures r.ran[d][k].origin != o { assert RanOk(r, d, k); }
    RanFromStage(r.ran[d], o, d, 0);
    StageEmpty(r.ran[d], o, d, 0);
  }

  lemma {:induction false} StageInOrder(r: Relay, o: nat, d: nat, i: nat)
    requires Inv(r) && o < |r.routes| && d < |r.routes| && !Arrived(r, o, d, i)
    ensures Aboard(r, o, d, i) <= Log(r, o, d) && Ashore(r, o, d, i) <= Aboard(r, o, d, i)
    decreases i
  {
    var x, t := At(r, o, d, i), At(r, o, d, i + 1);
    StageOfPart(Line(r, x, t), Got(r, x, t), o, d, i);
    if i == 0 {
      assert StageOk(r, o, d, 0);
    } else {
      assert StageOk(r, o, d, i - 1);
      StageInOrder(r, o, d, i - 1);
    }
  }

  /** What has run at `d` of the messages from `o` is a prefix of what `o` has sent to `d`. */
  lemma ArriveInOrder(r: Relay, o: nat, d: nat)
    requires Inv(r) && o < |r.routes| && d < |r.routes|
    ensures RanFrom(r.ran[d], o) <= Log(r, o, d)
  {
    if i: nat :| Last(r, o, d, i) {
      RanAfterLast(r, o, d, i);
      StageInOrder(r, o, d, i);
    } else {
      RanNever(r, o, d);
    }
  }

  // ---------------------------------------------------------------- when nothing is under way

  ghost predicate HopDone(r: Relay, x: nat, t: nat)
    requires Shape(r)
  {
    x < |r.routes| && t < |r.routes| ==> Got(r, x, t) == |Line(r, x, t)|
  }

  ghost predicate AllDone(r: Relay) { Shape(r) && forall x: nat, t: nat :: HopDone(r, x, t) }

  lemma {:induction false} StageIsWhole(r: Relay, o: nat, d: nat, i: nat)
    requires Inv(r) && AllDone(r) && o < |r.routes| && d < |r.routes| && !Arrived(r, o, d, i)
    ensures Aboard(r, o, d, i) == Log(r, o, d) && Ashore(r, o, d, i) == Aboard(r, o, d, i)
    decreases i
  {
    var x, t := At(r, o, d, i), At(r, o, d, i + 1);
    assert HopDone(r, x, t);
    assert Line(r, x, t)[..Got(r, x, t)] == Line(r, x, t);
    if i == 0 {
      assert StageOk(r, o, d, 0);
    } else {
      assert StageOk(r, o, d, i - 1);
      StageIsWhole(r, o, d, i - 1);
    }
  }

  /** No item has more hops behind it than there are in all. */
  ghost predicate HopsBelow(ls: seq<seq<seq<Item>>>, b: nat) {
    forall x: nat, t: nat, k: nat :: x < |ls| && t < |ls[x]| && k < |ls[x][t]| ==> ls[x][t][k].hops < b
  }

  lemma {:induction false} BoundItems(l: seq<Item>) returns (b: nat)
    ensures forall k: nat :: k < |l| ==> l[k].hops < b
  {
    if l == [] {
      b := 0;
    } else {
      b := BoundItems(l[1..]);
      b := if l[0].hops < b then b else l[0].hops + 1;
      assert forall k: nat :: 0 < k < |l| ==> l[k] == l[1..][k - 1];
    }
  }

  lemma {:induction false} BoundRow(l: seq<seq<Item>>) returns (b: nat)
    ensures forall t: nat, k: nat :: t < |l| && k < |l[t]| ==> l[t][k].hops < b
  {
    if l == [] {
      b := 0;
    } else {
      b := BoundRow(l[1..]);
      var c := BoundItems(l[0]);
      b := if b < c then c else b;
      assert forall t: nat :: 0 < t < |l| ==> l[t] == l[1..][t - 1];
    }
  }

  lemma {:induction false} BoundHops(ls: seq<seq<seq<Item>>>) returns (b: nat)
    ensures HopsBelow(ls, b)
  {
    if ls == [] {
      b := 0;
    } else {
      b := BoundHops(ls[1..]);
      var c := BoundRow(ls[0]);
      b := if b < c then c else b;
      assert forall x: nat :: 0 < x < |ls| ==> ls[x] == ls[1..][x - 1];
    }
  }

  /** A core whose messages never arrive has sent none: they would still be under way. */
  lemma NeverArriving(r: Relay, o: nat, d: nat)
    requires Inv(r) && AllDone(r) && o < |r.routes| && d < |r.routes| && forall i: nat :: !Last(r, o, d, i)
    ensures Log(r, o, d) == []
  {
    var b := BoundHops(r.lines);
    NoLastNoArrival(r, o, d, b);
    StageIsWhole(r, o, d, b);
    var x, t := At(r, o, d, b), At(r, o, d, b + 1);
    assert Square(r, x);
    StageEmpty(Line(r, x, t), o, d, b);
  }

  /** Once all lines have been unpacked, every message sent has run at its destination, once and in
      order. */
  lemma AllHaveRun(r: Relay, o: nat, d: nat)
    requires Inv(r) && AllDone(r) && o < |r.routes| && d < |r.routes|
    ensures RanFrom(r.ran[d], o) == Log(r, o, d)
  {
    if i: nat :| Last(r, o, d, i) {
      RanAfterLast(r, o, d, i);
      StageIsWhole(r, o, d, i);
    } else {
      NeverArriving(r, o, d);
      RanNever(r, o, d);
    }
  }
}
