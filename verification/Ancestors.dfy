/**
  ancestors.go on top of the concurrent arena: pushAncestor appends a link whose parent
  is a pointer some earlier call handed out, hasCycle follows parent pointers through
  shared memory while other goroutines keep appending.
 */
module Ancestors {
  import opened Chains
  import opened GenericStore
  import opened StoreRuns

  // A *ancestorEntry: nil, or the address of a slot.
  datatype Ref = Nil | At(node: nat, slot: nat)

  datatype Link = Link(ino: nat, dev: nat, parent: Ref)

  // The pointer p was returned by the c-th claim.
  ghost predicate HandedOut(s: Store<Link>, p: Ref, c: nat) {
    p.At? && c < |s.log| && s.log[c].handedOut && s.log[c].at == Slice(p.node, p.slot, 1)
  }

  ghost predicate Usable(s: Store<Link>, p: Ref) {
    p.At? ==> exists c: nat :: HandedOut(s, p, c)
  }

  // pushAncestor: one value, whose parent pointer the caller really holds.
  ghost predicate Legal(s: Store<Link>, a: Action<Link>) {
    a.Begin? ==> |a.items| == 1 && Usable(s, a.items[0].parent)
  }

  ghost predicate LegalRun(s: Store<Link>, sched: seq<Action<Link>>)
    requires Inv(s)
    decreases |sched|
  {
    sched == [] ||
    (Legal(s, sched[0]) && Inv(Step(s, sched[0])) && LegalRun(Step(s, sched[0]), sched[1..]))
  }

  // The chain read from memory, link by link, starting at p.
  ghost predicate IsChain(s: Store<Link>, p: Ref, ids: seq<Id>)
    decreases |ids|
  {
    if p.Nil? then ids == [] else
      && |ids| > 0
      && p.node < |s.heap| && p.slot < |s.heap[p.node].buf|
      && var link := s.heap[p.node].buf[p.slot];
      && ids[0] == Id(link.ino, link.dev)
      && IsChain(s, link.parent, ids[1..])
  }

  lemma {:induction false} ChainIsUnique(s: Store<Link>, p: Ref, a: seq<Id>, b: seq<Id>)
    requires IsChain(s, p, a) && IsChain(s, p, b)
    ensures a == b
    decreases |a|
  {
    if p.At? {
      ChainIsUnique(s, s.heap[p.node].buf[p.slot].parent, a[1..], b[1..]);
      assert a == [a[0]] + a[1..] && b == [b[0]] + b[1..];
    }
  }

  // --------------------------------------------- the arena refines the growing list

  ghost predicate ParentMatches(s: Store<Link>, p: Ref, up: Option<nat>, below: nat) {
    match up
    case None => p.Nil?
    case Some(u) => u < below && HandedOut(s, p, u)
  }

  ghost predicate PendingOk(s: Store<Link>, pc: Pc<Link>) {
    !pc.Idle? ==> |pc.items| == 1 && Usable(s, pc.items[0].parent)
  }

  // The claim history, read as a list of knots.
  ghost predicate Mirrors(s: Store<Link>, h: seq<Knot>) {
    && |h| == |s.log|
    && ParentsFirst(h)
    && (forall c :: 0 <= c < |h| ==>
          && |s.log[c].items| == 1
          && h[c].id == Id(s.log[c].items[0].ino, s.log[c].items[0].dev)
          && ParentMatches(s, s.log[c].items[0].parent, h[c].up, c))
    && (forall t :: 0 <= t < |s.threads| ==> PendingOk(s, s.threads[t]))
  }

  lemma UsablePersists(s: Store<Link>, s': Store<Link>, p: Ref)
    requires LogGrows(s, s') && Usable(s, p)
    ensures Usable(s', p)
  {
    if p.At? {
      var c: nat :| HandedOut(s, p, c);
      assert HandedOut(s', p, c);
    }
  }

  // What a step can do to the call of a goroutine and to the claim history.
  lemma StepEffect(s: Store<Link>, a: Action<Link>)
    requires Inv(s) && Inv(Step(s, a)) && (a.Begin? ==> |a.items| == 1)
    ensures var s' := Step(s, a);
      && |s'.threads| == |s.threads|
      && (forall t :: 0 <= t < |s'.threads| && !s'.threads[t].Idle? ==>
            || (!s.threads[t].Idle? && s'.threads[t].items == s.threads[t].items)
            || (a.Begin? && s'.threads[t].items == a.items))
      && (|s'.log| == |s.log| ||
           (&& |s'.log| == |s.log| + 1
            && a.t < |s.threads| && !s.threads[a.t].Idle?
            && s'.log[|s.log|].items == s.threads[a.t].items))
  {
  }

  lemma StepKeepsPending(s: Store<Link>, h: seq<Knot>, a: Action<Link>)
    requires Inv(s) && Mirrors(s, h) && Legal(s, a) && Inv(Step(s, a))
    ensures forall t :: 0 <= t < |Step(s, a).threads| ==> PendingOk(Step(s, a), Step(s, a).threads[t])
  {
    var s' := Step(s, a);
    StepGrowsLog(s, a);
    StepEffect(s, a);
    forall t | 0 <= t < |s'.threads| ensures PendingOk(s', s'.threads[t]) {
      assert PendingOk(s, s.threads[t]);
      if !s'.threads[t].Idle? {
        UsablePersists(s, s', s'.threads[t].items[0].parent);
      }
    }
  }

  // Any growth of the history by at most one pending link keeps a mirror.
  lemma GrowMirror(s: Store<Link>, s': Store<Link>, h: seq<Knot>) returns (h': seq<Knot>)
    requires Mirrors(s, h) && LogGrows(s, s') && |s'.log| <= |s.log| + 1
    requires |s'.log| > |s.log| ==> |s'.log[|s.log|].items| == 1 && Usable(s, s'.log[|s.log|].items[0].parent)
    requires forall t :: 0 <= t < |s'.threads| ==> PendingOk(s', s'.threads[t])
    ensures h <= h' && |h'| <= |h| + 1 && Mirrors(s', h')
  {
    h' := h;
    if |s'.log| > |s.log| {
      var link := s'.log[|s.log|].items[0];
      var up: Option<nat> := None;
      if link.parent.At? {
        var u: nat :| HandedOut(s, link.parent, u);
        up := Some(u);
      }
      h' := h + [Knot(Id(link.ino, link.dev), up)];
    }
    forall c | 0 <= c < |h'|
      ensures ParentMatches(s', s'.log[c].items[0].parent, h'[c].up, c)
    {
      assert c < |h| ==> ParentMatches(s, s.log[c].items[0].parent, h[c].up, c);
    }
  }

  // What one step adds to the list: nothing, or the one link whose claim just won.
  lemma StepMirrors(s: Store<Link>, h: seq<Knot>, a: Action<Link>) returns (h': seq<Knot>)
    requires Inv(s) && Mirrors(s, h) && Legal(s, a) && Inv(Step(s, a))
    ensures h <= h' && |h'| <= |h| + 1 && Mirrors(Step(s, a), h')
  {
    StepGrowsLog(s, a);
    StepEffect(s, a);
    StepKeepsPending(s, h, a);
    if |Step(s, a).log| > |s.log| {
      assert PendingOk(s, s.threads[a.t]);
    }
    h' := GrowMirror(s, Step(s, a), h);
  }

  lemma ExecMirrors(s: Store<Link>, h: seq<Knot>, sched: seq<Action<Link>>)
    returns (h': seq<Knot>)
    requires Inv(s) && Mirrors(s, h) && LegalRun(s, sched)
    ensures h <= h' && Mirrors(Exec(s, sched), h')
    decreases |sched|
  {
    h' := h;
    if sched != [] {
      h' := StepMirrors(s, h, sched[0]);
      h' := ExecMirrors(Step(s, sched[0]), h', sched[1..]);
    }
  }

  // A handed-out pointer reads, through memory, exactly the chain of its knot.
  lemma {:induction false} MemoryHoldsChain(s: Store<Link>, h: seq<Knot>, p: Ref, c: nat)
    requires Inv(s) && Mirrors(s, h) && HandedOut(s, p, c)
    ensures IsChain(s, p, Chain(h, Some(c)))
    decreases c
  {
    assert ClaimOk(s, s.log[c]);
    assert Content(s, s.log[c].at)[0] == s.log[c].items[0];
    var link := s.heap[p.node].buf[p.slot];
    assert link == s.log[c].items[0];
    assert ParentMatches(s, link.parent, h[c].up, c);
    if h[c].up.Some? {
      MemoryHoldsChain(s, h, link.parent, h[c].up.value);
    }
    assert Chain(h, Some(c))[1..] == Chain(h, h[c].up);
  }

  // ------------------------------------------------------------------- theorems

  // The arena was only ever used through pushAncestor.
  ghost predicate Grown(s: Store<Link>) {
    Inv(s) && exists h :: Mirrors(s, h)
  }

  lemma {:induction false} EveryRunIsGrown(goroutines: nat, sched: seq<Action<Link>>)
    requires LegalRun(NewStore(Link(0, 0, Nil), goroutines), sched)
    ensures Grown(Exec(NewStore(Link(0, 0, Nil), goroutines), sched))
  {
    var s := NewStore(Link(0, 0, Nil), goroutines);
    assert Mirrors(s, []);
    var h := ExecMirrors(s, [], sched);
  }

  /** Chains are well-founded: every pointer handed out in any run starts exactly one
      finite chain. */
  lemma {:induction false} EveryPointerHasAChain(s: Store<Link>, p: Ref)
    requires Grown(s) && Usable(s, p)
    ensures exists ids :: IsChain(s, p, ids)
    ensures forall a, b :: IsChain(s, p, a) && IsChain(s, p, b) ==> a == b
  {
    if p.Nil? {
      assert IsChain(s, p, []);
    } else {
      var h: seq<Knot> :| Mirrors(s, h);
      var c: nat :| HandedOut(s, p, c);
      MemoryHoldsChain(s, h, p, c);
    }
    forall a, b | IsChain(s, p, a) && IsChain(s, p, b) ensures a == b {
      ChainIsUnique(s, p, a, b);
    }
  }

  /** Chains are frozen: whatever other goroutines append later, a pointer that could be
      followed reads the same identities, all the way up. */
  lemma {:induction false} ChainsAreFrozen(s: Store<Link>, p: Ref, ids: seq<Id>, later: seq<Action<Link>>)
    requires Grown(s) && Usable(s, p) && IsChain(s, p, ids) && LegalRun(s, later)
    ensures Grown(Exec(s, later)) && Usable(Exec(s, later), p) && IsChain(Exec(s, later), p, ids)
  {
    var s' := Exec(s, later);
    var h: seq<Knot> :| Mirrors(s, h);
    var h' := ExecMirrors(s, h, later);
    ExecGrowsLog(s, later);
    UsablePersists(s, s', p);
    if p.At? {
      var c: nat :| HandedOut(s, p, c);
      assert HandedOut(s', p, c);
      MemoryHoldsChain(s, h, p, c);
      MemoryHoldsChain(s', h', p, c);
      ChainIsFrozen(h, h', Some(c));
      ChainIsUnique(s, p, ids, Chain(h, Some(c)));
    }
  }

  ghost predicate Reaches(s: Store<Link>, s': Store<Link>) {
    Inv(s) && exists later :: LegalRun(s, later) && Exec(s, later) == s'
  }

  // At this moment, ids can be read off the chain that starts at p.
  ghost predicate Reads(s: Store<Link>, p: Ref, ids: seq<Id>) {
    Grown(s) && Usable(s, p) && IsChain(s, p, ids)
  }

  lemma ParentIsUsable(s: Store<Link>, h: seq<Knot>, p: Ref, c: nat)
    requires Inv(s) && Mirrors(s, h) && HandedOut(s, p, c)
    ensures p.node < |s.heap| && p.slot < |s.heap[p.node].buf|
    ensures Usable(s, s.heap[p.node].buf[p.slot].parent)
  {
  }

  // One load through p: its identity, and a parent from which the rest is read.
  lemma OneLoad(s: Store<Link>, p: Ref, ids: seq<Id>)
    requires Reads(s, p, ids) && p.At?
    ensures |ids| > 0 && p.node < |s.heap| && p.slot < |s.heap[p.node].buf|
    ensures var link := s.heap[p.node].buf[p.slot];
      ids[0] == Id(link.ino, link.dev) && Reads(s, link.parent, ids[1..])
  {
    var h: seq<Knot> :| Mirrors(s, h);
    var c: nat :| HandedOut(s, p, c);
    ParentIsUsable(s, h, p, c);
  }

  // Shared memory over time: only steps of goroutines change it.
  ghost predicate Evolves(world: nat -> Store<Link>) {
    forall i: nat, j: nat {:trigger Reaches(world(i), world(j))} :: i <= j ==> Reaches(world(i), world(j))
  }

  lemma LaterReads(world: nat -> Store<Link>, i: nat, j: nat, p: Ref, ids: seq<Id>)
    requires Evolves(world) && i <= j && Reads(world(i), p, ids)
    ensures Reads(world(j), p, ids)
  {
    assert Reaches(world(i), world(j));
    var later :| LegalRun(world(i), later) && Exec(world(i), later) == world(j);
    ChainsAreFrozen(world(i), p, ids, later);
  }

  /** hasCycle.  world(i) is the shared memory at moment i; delay(m) moments, in which
      other goroutines take any number of steps, pass before the load at moment m.  It
      terminates, and answers membership in the chain as it was when the call began. */
  method HasCycle(world: nat -> Store<Link>, delay: nat -> nat, start: Ref, targetIno: nat, targetDev: nat,
                  ghost ids: seq<Id>)
    returns (found: bool)
    requires Evolves(world) && Reads(world(0), start, ids)
    ensures found <==> Id(targetIno, targetDev) in ids
  {
    var ref, now: nat := start, 0;
    ghost var k := 0;
    while ref.At?
      invariant 0 <= k <= |ids| && Reads(world(now), ref, ids[k..])
      invariant Id(targetIno, targetDev) !in ids[..k]
      decreases |ids| - k
    {
      LaterReads(world, now, now + delay(now), ref, ids[k..]);
      now := now + delay(now);
      OneLoad(world(now), ref, ids[k..]);
      var link := world(now).heap[ref.node].buf[ref.slot];
      if link.ino == targetIno && link.dev == targetDev {
        assert ids[k] == Id(targetIno, targetDev);
        return true;
      }
      assert ids[k..][1..] == ids[k + 1..];
      ref, k := link.parent, k + 1;
    }
    assert ids[k..] == [] && ids[..k] == ids;
    found := false;
  }
}
