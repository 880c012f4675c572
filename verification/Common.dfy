/**
 What several components share: optional values and lists of numbered things without repeats.
 */
module Common {

  type Byte = b: int | 0 <= b < 256 witness 0

  datatype Option<T> = None | Some(value: T)

  ghost predicate Distinct(l: seq<nat>) {
    forall i, j :: 0 <= i < j < |l| ==> l[i] != l[j]
  }

  /** l with the first x taken out. */
  function Without(l: seq<nat>, x: nat): seq<nat> {
    if l == [] then [] else if l[0] == x then l[1..] else [l[0]] + Without(l[1..], x)
  }

  lemma DistinctSnoc(l: seq<nat>, x: nat)
    requires Distinct(l) && x !in l
    ensures Distinct(l + [x])
    ensures forall y :: y in l + [x] <==> y in l || y == x
  {
  }
}
