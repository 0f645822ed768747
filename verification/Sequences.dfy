/** Lists of numbers, as several components keep them. */
module Sequences {
  ghost predicate NoRepeats(l: seq<nat>) { forall i: nat, j: nat :: i < j < |l| ==> l[i] != l[j] }

  ghost function Elements(l: seq<nat>): set<nat> { set x | x in l }

  /** The list without the first `a` in it. */
  function Without(l: seq<nat>, a: nat): seq<nat> {
    if l == [] then [] else if l[0] == a then l[1..] else [l[0]] + Without(l[1..], a)
  }
}
