/**
  The packing that a bump arena makes: a request that does not fit into the current node
  starts a new one, and no node is ever looked at again.  (stores/string_store.go:38-52,
  result_arena.go:48-69)
 */
module NextFit {

  // The load of each node, oldest first, for requests no larger than a node.
  function Pack(size: nat, reqs: seq<nat>): (loads: seq<nat>)
    ensures |loads| >= 1
    decreases |reqs|
  {
    if reqs == [] then [0] else
    Grow(size, Pack(size, reqs[..|reqs| - 1]), reqs[|reqs| - 1])
  }

  function Grow(size: nat, loads: seq<nat>, r: nat): (loads': seq<nat>)
    requires |loads| >= 1
    ensures |loads'| >= 1
  {
    var last := |loads| - 1;
    if size - loads[last] < r then loads + [r] else loads[last := loads[last] + r]
  }

  function Sum(xs: seq<nat>): nat {
    if xs == [] then 0 else xs[0] + Sum(xs[1..])
  }

  ghost predicate Fits(size: nat, reqs: seq<nat>) {
    forall i :: 0 <= i < |reqs| ==> reqs[i] <= size
  }

  // What an arena keeps: the loads of its nodes are the packing of its requests.
  ghost predicate IsPack(size: nat, loads: seq<nat>, reqs: seq<nat>) {
    Fits(size, reqs) && loads == Pack(size, reqs)
  }

  lemma PackGrows(size: nat, loads: seq<nat>, reqs: seq<nat>, r: nat)
    requires IsPack(size, loads, reqs) && r <= size
    ensures |loads| >= 1 && IsPack(size, Grow(size, loads, r), reqs + [r])
  {
    assert (reqs + [r])[..|reqs + [r]| - 1] == reqs;
  }

  lemma {:induction false} SumSnoc(xs: seq<nat>, x: nat)
    ensures Sum(xs + [x]) == Sum(xs) + x
    decreases |xs|
  {
    if xs == [] {
      assert ([] + [x])[1..] == [];
    } else {
      assert (xs + [x])[1..] == xs[1..] + [x];
      SumSnoc(xs[1..], x);
    }
  }

  ghost predicate Overflows(size: nat, loads: seq<nat>) {
    && (forall i :: 0 <= i < |loads| ==> loads[i] <= size)
    && (forall i :: 0 <= i < |loads| - 1 ==> loads[i] + loads[i + 1] > size)
  }

  lemma {:induction false} GrowOverflows(size: nat, loads: seq<nat>, r: nat)
    requires |loads| >= 1 && Overflows(size, loads) && r <= size
    ensures Overflows(size, Grow(size, loads, r)) && Sum(Grow(size, loads, r)) == Sum(loads) + r
  {
    var last := |loads| - 1;
    assert loads == loads[..last] + [loads[last]];
    SumSnoc(loads[..last], loads[last]);
    SumSnoc(loads[..last], loads[last] + r);
    SumSnoc(loads, r);
    assert loads[last := loads[last] + r] == loads[..last] + [loads[last] + r];
  }

  /** Two neighbouring nodes together hold more than one node's worth; nothing is lost and
      no node is overfull. */
  lemma {:induction false} NeighboursOverflow(size: nat, reqs: seq<nat>)
    requires Fits(size, reqs)
    ensures Overflows(size, Pack(size, reqs)) && Sum(Pack(size, reqs)) == Sum(reqs)
    decreases |reqs|
  {
    if reqs == [] {
      assert Pack(size, []) == [0] && [0][1..] == [];
    } else {
      var init, r := reqs[..|reqs| - 1], reqs[|reqs| - 1];
      assert reqs == init + [r];
      NeighboursOverflow(size, init);
      GrowOverflows(size, Pack(size, init), r);
      SumSnoc(init, r);
    }
  }

  lemma {:induction false} PairsOverflow(size: nat, loads: seq<nat>)
    requires forall i :: 0 <= i < |loads| - 1 ==> loads[i] + loads[i + 1] > size
    ensures (|loads| / 2) * size + |loads| / 2 <= Sum(loads)
    decreases |loads|
  {
    if |loads| >= 2 {
      var rest := loads[2..];
      PairsOverflow(size, rest);
      assert loads[1..][1..] == rest;
      assert Sum(loads) == loads[0] + (loads[1] + Sum(rest));
      assert |loads| / 2 == |rest| / 2 + 1;
      assert (|rest| / 2 + 1) * size == (|rest| / 2) * size + size;
    }
  }

  /** After k nodes more than floor(k / 2) nodes' worth has been stored. */
  lemma {:induction false} HalfTheNodesAreFull(size: nat, reqs: seq<nat>)
    requires Fits(size, reqs) && |Pack(size, reqs)| >= 2
    ensures (|Pack(size, reqs)| / 2) * size < Sum(reqs)
  {
    NeighboursOverflow(size, reqs);
    PairsOverflow(size, Pack(size, reqs));
  }

  // ------------------------------------------------------ against any other packing

  // What an assignment of requests to bins puts into bin b.
  function BinLoad(reqs: seq<nat>, bin: seq<nat>, b: nat): nat
    requires |bin| == |reqs|
  {
    if reqs == [] then 0 else
    (if bin[0] == b then reqs[0] else 0) + BinLoad(reqs[1..], bin[1..], b)
  }

  function LoadBelow(reqs: seq<nat>, bin: seq<nat>, b: nat): nat
    requires |bin| == |reqs|
  {
    if reqs == [] then 0 else
    (if bin[0] < b then reqs[0] else 0) + LoadBelow(reqs[1..], bin[1..], b)
  }

  ghost predicate IsPacking(size: nat, reqs: seq<nat>, bin: seq<nat>, bins: nat) {
    && |bin| == |reqs|
    && (forall i :: 0 <= i < |bin| ==> bin[i] < bins)
    && (forall b :: 0 <= b < bins ==> BinLoad(reqs, bin, b) <= size)
  }

  lemma OneMoreBin(reqs: seq<nat>, bin: seq<nat>, b: nat)
    requires |bin| == |reqs|
    ensures LoadBelow(reqs, bin, b + 1) == LoadBelow(reqs, bin, b) + BinLoad(reqs, bin, b)
    ensures LoadBelow(reqs, bin, 0) == 0
    ensures (forall i :: 0 <= i < |bin| ==> bin[i] < b) ==> LoadBelow(reqs, bin, b) == Sum(reqs)
    decreases |reqs|
  {
    if reqs == [] {
    } else {
      OneMoreBin(reqs[1..], bin[1..], b);
    }
  }

  lemma {:induction false} BinsBound(size: nat, reqs: seq<nat>, bin: seq<nat>, b: nat)
    requires |bin| == |reqs| && forall c :: 0 <= c < b ==> BinLoad(reqs, bin, c) <= size
    ensures LoadBelow(reqs, bin, b) <= b * size
    decreases b
  {
    OneMoreBin(reqs, bin, b);
    if b > 0 {
      BinsBound(size, reqs, bin, b - 1);
      OneMoreBin(reqs, bin, b - 1);
      assert b * size == (b - 1) * size + size;
    }
  }

  lemma MulMonotone(a: nat, b: nat, c: nat)
    requires a <= b
    ensures a * c <= b * c
  {
  }

  /** The arena never needs more than twice the nodes of the best possible packing. */
  lemma {:induction false} AtMostTwiceAnyPacking(size: nat, reqs: seq<nat>, bin: seq<nat>, bins: nat)
    requires Fits(size, reqs) && IsPacking(size, reqs, bin, bins) && bins >= 1
    ensures |Pack(size, reqs)| <= 2 * bins
  {
    var k := |Pack(size, reqs)|;
    if k >= 2 {
      HalfTheNodesAreFull(size, reqs);
      BinsBound(size, reqs, bin, bins);
      OneMoreBin(reqs, bin, bins);
      if bins <= k / 2 {
        MulMonotone(bins, k / 2, size);
      }
    }
  }

  // All of this, of an arena whose loads are a packing.
  lemma {:induction false} ArenaBounds(size: nat, loads: seq<nat>, reqs: seq<nat>, bin: seq<nat>, bins: nat)
    requires IsPack(size, loads, reqs)
    ensures forall i :: 0 <= i < |loads| - 1 ==> loads[i] + loads[i + 1] > size
    ensures Sum(loads) == Sum(reqs)
    ensures |loads| >= 2 ==> (|loads| / 2) * size < Sum(reqs)
    ensures bins >= 1 && IsPacking(size, reqs, bin, bins) ==> |loads| <= 2 * bins
  {
    NeighboursOverflow(size, reqs);
    if |loads| >= 2 {
      HalfTheNodesAreFull(size, reqs);
    }
    if bins >= 1 && IsPacking(size, reqs, bin, bins) {
      AtMostTwiceAnyPacking(size, reqs, bin, bins);
    }
  }
}
