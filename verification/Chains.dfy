/**
  Ancestor chains as a list that only ever grows at the end: the view of ancestors.go
  that the walk needs.  Each knot names a directory and points to an earlier knot.
 */
module Chains {

  datatype Option<+T> = None | Some(value: T)

  // A directory's identity.
  datatype Id = Id(ino: nat, dev: nat)

  datatype Knot = Knot(id: Id, up: Option<nat>)

  // Every parent was added before its child.
  ghost predicate ParentsFirst(h: seq<Knot>) {
    forall i :: 0 <= i < |h| && h[i].up.Some? ==> h[i].up.value < i
  }

  ghost predicate Names(h: seq<Knot>, r: Option<nat>) {
    r.Some? ==> r.value < |h|
  }

  // The identities on the chain that starts at r, nearest directory first.
  ghost function Chain(h: seq<Knot>, r: Option<nat>): (ids: seq<Id>)
    requires ParentsFirst(h) && Names(h, r)
    decreases if r.Some? then r.value + 1 else 0
  {
    if r.None? then [] else [h[r.value].id] + Chain(h, h[r.value].up)
  }

  // Appending knots never changes a chain that could already be named.
  lemma {:induction false} ChainIsFrozen(h: seq<Knot>, h': seq<Knot>, r: Option<nat>)
    requires ParentsFirst(h) && ParentsFirst(h') && h <= h' && Names(h, r)
    ensures Names(h', r) && Chain(h', r) == Chain(h, r)
    decreases if r.Some? then r.value + 1 else 0
  {
    if r.Some? {
      assert h'[r.value] == h[r.value];
      ChainIsFrozen(h, h', h[r.value].up);
    }
  }
}
