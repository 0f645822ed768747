/** A full/empty word with its wait list of tasks and of suspended readers from other cores. */
module FullEmptyWords {

  datatype Waiter = Task(w: nat) | Delegate(d: nat)

  /** A reader on another core, and the value sent to it. */
  datatype Fill = Fill(d: nat, val: int)

  /** The word, what its broadcasts have handed to the scheduler and sent, and whether a delegate ever
      ran on an empty word, which would suspend a message handler. */
  datatype Word = Word(full: bool, t: int, waiters: seq<Waiter>, woken: seq<nat>, filled: seq<Fill>, bad: bool)

  function Filled(x: Word, d: nat, v: int): Word { x.(filled := x.filled + [Fill(d, v)]) }

  function Waiting(x: Word, who: Waiter): Word { x.(waiters := [who] + x.waiters) }

  /** broadcast: a task is woken; a delegate reads the word, which broadcasts in its turn, and then sends
      what it has read. */
  function Broadcast(x: Word): (y: Word)
    ensures y.waiters == []
    decreases |x.waiters|
  {
    if x.waiters == [] then x else
      var rest := x.(waiters := x.waiters[1..]);
      match x.waiters[0]
      case Task(w) => Broadcast(rest.(woken := rest.woken + [w]))
      case Delegate(d) =>
        if rest.full then Broadcast(Filled(Broadcast(rest), d, rest.t))
        else Broadcast(rest.(bad := true))
  }

  function WriteXF(x: Word, v: int): Word { Broadcast(x.(t := v, full := true)) }

  function ReadFF(x: Word): Word { Broadcast(x) }

  function ReadFE(x: Word): Word { Broadcast(x.(full := false)) }

  /** A remote read as it is handled at the word's core. */
  function RemoteRead(x: Word, d: nat): Word {
    if x.full then Filled(ReadFF(x), d, x.t) else Waiting(x, Delegate(d))
  }

  class FullEmpty {
    var full: bool
    var t: int
    var waiters: seq<Waiter>
    var woken: seq<nat>
    var filled: seq<Fill>
    var bad: bool

    ghost function State(): Word
      reads this
    {
      Word(full, t, waiters, woken, filled, bad)
    }

    constructor ()
      ensures State() == Word(false, 0, [], [], [], false)
    {
      full, t, waiters, woken, filled, bad := false, 0, [], [], [], false;
    }

    method AddWaiter(who: Waiter)
      modifies this
      ensures State() == Waiting(old(State()), who)
    {
      waiters := [who] + waiters;
    }

    method DoBroadcast()
      modifies this
      ensures State() == Broadcast(old(State()))
      decreases |waiters|, 0
    {
      ghost var n := |waiters|;
      while waiters != []
        invariant |waiters| <= n && Broadcast(State()) == Broadcast(old(State()))
        decreases |waiters|
      {
        var first := waiters[0];
        waiters := waiters[1..];
        match first
        case Task(w) => woken := woken + [w];
        case Delegate(d) =>
          if full {
            var v := DoReadFF();
            filled := filled + [Fill(d, v)];
          } else {
            bad := true;
          }
      }
    }

    method DoWriteXF(v: int)
      modifies this
      ensures State() == WriteXF(old(State()), v)
    {
      t := v;
      full := true;
      DoBroadcast();
    }

    /** The CHECK wants an empty wait list. */
    method Reset()
      requires waiters == []
      modifies this
      ensures State() == old(State()).(full := false)
    {
      full := false;
    }

    /** The rest of readFF once the word is full. */
    method DoReadFF() returns (v: int)
      modifies this
      ensures State() == ReadFF(old(State())) && v == old(t)
      decreases |waiters|, 1
    {
      v := t;
      DoBroadcast();
    }

    /** The rest of readFE once the word is full. */
    method DoReadFE() returns (v: int)
      modifies this
      ensures State() == ReadFE(old(State())) && v == old(t)
    {
      full := false;
      v := t;
      DoBroadcast();
    }

    method DoRemoteRead(d: nat)
      modifies this
      ensures State() == RemoteRead(old(State()), d)
    {
      if full {
        var v := DoReadFF();
        filled := filled + [Fill(d, v)];
      } else {
        AddWaiter(Delegate(d));
      }
    }
  }

  // ---------------------------------------------------------------- what a broadcast does

  ghost function TasksOf(l: seq<Waiter>): seq<nat> {
    if l == [] then [] else (if l[0].Task? then [l[0].w] else []) + TasksOf(l[1..])
  }

  /** The answers to the delegates in a list, the last one in it first. */
  ghost function FillsOf(l: seq<Waiter>, v: int): seq<Fill> {
    if l == [] then [] else FillsOf(l[1..], v) + if l[0].Delegate? then [Fill(l[0].d, v)] else []
  }

  ghost predicate NoDelegates(l: seq<Waiter>) { forall i: nat :: i < |l| ==> l[i].Task? }

  lemma BroadcastNothing(x: Word)
    requires x.waiters == []
    ensures Broadcast(x) == x
  {
  }

  /** On a full word, a broadcast wakes every task in list order, and answers every delegate once, the
      one that has waited longest first, however the broadcasts nest. */
  lemma {:induction false} BroadcastFull(x: Word)
    requires x.full
    ensures Broadcast(x) == x.(waiters := [], woken := x.woken + TasksOf(x.waiters),
                               filled := x.filled + FillsOf(x.waiters, x.t))
    decreases |x.waiters|
  {
    if x.waiters == [] {
      assert x.woken + [] == x.woken && x.filled + [] == x.filled;
    } else {
      var rest := x.(waiters := x.waiters[1..]);
      match x.waiters[0]
      case Task(w) =>
        BroadcastFull(rest.(woken := rest.woken + [w]));
        assert (x.woken + [w]) + TasksOf(rest.waiters) == x.woken + ([w] + TasksOf(rest.waiters));
      case Delegate(d) =>
        BroadcastFull(rest);
        BroadcastNothing(Filled(Broadcast(rest), d, x.t));
        assert (x.filled + FillsOf(rest.waiters, x.t)) + [Fill(d, x.t)]
            == x.filled + (FillsOf(rest.waiters, x.t) + [Fill(d, x.t)]);
    }
  }

  /** On an empty word it wakes every task, provided no delegate is listed. */
  lemma {:induction false} BroadcastEmpty(x: Word)
    requires !x.full && NoDelegates(x.waiters)
    ensures Broadcast(x) == x.(waiters := [], woken := x.woken + TasksOf(x.waiters))
    decreases |x.waiters|
  {
    if x.waiters == [] {
      assert x.woken + [] == x.woken;
    } else {
      assert x.waiters[0].Task?;
      var rest := x.waiters[1..];
      assert forall i: nat :: i < |rest| ==> rest[i] == x.waiters[i + 1];
      var w := x.waiters[0].w;
      BroadcastEmpty(x.(waiters := rest, woken := x.woken + [w]));
      assert (x.woken + [w]) + TasksOf(rest) == x.woken + ([w] + TasksOf(rest));
    }
  }

  lemma {:induction false} TasksAreListed(l: seq<Waiter>, w: nat)
    ensures w in TasksOf(l) <==> Task(w) in l
  {
    if l != [] { TasksAreListed(l[1..], w); }
  }

  lemma {:induction false} FillsAreListed(l: seq<Waiter>, v: int, f: Fill)
    ensures f in FillsOf(l, v) <==> Delegate(f.d) in l && f.val == v
  {
    if l != [] { FillsAreListed(l[1..], v, f); }
  }

  /** How often a reader has been answered. */
  ghost function Answers(l: seq<Fill>, d: nat): nat {
    if l == [] then 0 else (if l[0].d == d then 1 else 0) + Answers(l[1..], d)
  }

  lemma {:induction false} AnswersAppend(x: seq<Fill>, y: seq<Fill>, d: nat)
    ensures Answers(x + y, d) == Answers(x, d) + Answers(y, d)
  {
    if x == [] {
      assert x + y == y;
    } else {
      AnswersAppend(x[1..], y, d);
      assert (x + y)[1..] == x[1..] + y;
    }
  }

  lemma {:induction false} FillsAnswer(l: seq<Waiter>, v: int, d: nat)
    ensures Answers(FillsOf(l, v), d) == multiset(l)[Delegate(d)]
  {
    if l != [] {
      FillsAnswer(l[1..], v, d);
      assert l == [l[0]] + l[1..];
      AnswersAppend(FillsOf(l[1..], v), if l[0].Delegate? then [Fill(l[0].d, v)] else [], d);
    }
  }

  /** A broadcast answers each reader as often as it is listed. */
  lemma BroadcastAnswers(x: Word, d: nat)
    requires x.full || NoDelegates(x.waiters)
    ensures Answers(Broadcast(x).filled, d) == Answers(x.filled, d) + multiset(x.waiters)[Delegate(d)]
  {
    if x.full {
      BroadcastFull(x);
      FillsAnswer(x.waiters, x.t, d);
      AnswersAppend(x.filled, FillsOf(x.waiters, x.t), d);
    } else {
      BroadcastEmpty(x);
      assert Delegate(d) !in x.waiters;
    }
  }
}
