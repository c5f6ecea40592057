/**
  The theorems about whole walks, for the walk as it really runs: over the lock-free arena,
  at the granularity of its loads and compare-and-swaps.
 */
module ArenaRuns {
  import opened Chains
  import opened Paths
  import opened Walk
  import opened Ancestors
  import opened ArenaWalk
  import opened Refinement
  import opened Crashes
  import opened FiniteFs
  import opened Coverage
  import S = Schedules

  // --------------------------------------------------------------- the two walks begin

  lemma {:induction false} GoesAreLegal(s: G.Store<Link>, calls: seq<G.Action<Link>>)
    requires G.Inv(s) && forall i :: 0 <= i < |calls| ==> calls[i].Go?
    ensures Ancestors.LegalRun(s, calls)
    decreases |calls|
  {
    if calls == [] {
    } else {
      G.StepKeepsInv(s, calls[0]);
      GoesAreLegal(G.Step(s, calls[0]), calls[1..]);
    }
  }

  // After the call in Walk the list has one link, and the root holds its address.
  lemma SeededMirrors(workers: nat, id: Id)
    ensures var s := Seeded(workers, id);
      && Mirrors(s, [Knot(id, None)])
      && Denotes(s, At(s.log[0].at.node, s.log[0].at.lo), Some(0))
      && forall w :: 0 <= w <= workers ==> s.threads[w].Idle?
  {
    var e, calls := EmptyArena(workers), SeedCalls(workers, id);
    var s := Seeded(workers, id);
    R.CallAloneReturns(e, workers, [Link(id.ino, id.dev, Nil)]);
    OnlyOneRuns(e, workers, calls);
    G.StepKeepsInv(e, calls[0]);
    assert calls[1..] == R.Alone(workers, 7);
    GoesAreLegal(G.Step(e, calls[0]), calls[1..]);
    assert Mirrors(e, []);
    var h := ExecMirrors(e, [], calls);
    assert ParentMatches(s, Nil, h[0].up, 0);
    assert h == [Knot(id, None)];
    assert G.ClaimOk(s, s.log[0]);
  }

  lemma InitRefines(env: Env, root: Path, workers: nat)
    ensures Refines(env, Init(env, root, workers), P.Init(env, root, workers))
  {
    if env.conf.followLinks && env.k.stat(root).Info? {
      SeededMirrors(workers, env.k.stat(root).id);
    }
  }

  // ---------------------------------------------------------------------- whole runs

  lemma RunRefines(env: Env, c: State, a: P.State, sched: seq<P.Action>)
    returns (sched': seq<P.Action>)
    requires Refines(env, c, a) && ArenaWalk.LegalRun(env, c, sched)
    ensures S.LegalRun(env, a, sched') && Refines(env, Exec(env, c, sched), S.Exec(env, a, sched'))
    decreases |sched|
  {
    hide Mirrors, HandsAre, WorksAre, Enabled, P.Enabled, P.Wf;
    if sched == [] {
      sched' := [];
    } else {
      var a' := StepRefines(env, c, a, sched[0]);
      var rest := RunRefines(env, Step(env, c, sched[0]), a', sched[1..]);
      if a' == a {
        sched' := rest;
      } else {
        sched' := [sched[0]] + rest;
        assert sched'[0] == sched[0] && sched'[1..] == rest;
      }
    }
  }

  lemma CompleteTogether(env: Env, c: State, a: P.State)
    requires Refines(env, c, a)
    ensures Complete(c) <==> P.Complete(a)
  {
    forall w | 0 <= w < |c.workers| ensures c.workers[w].Idle? <==> a.workers[w].Idle? {
      assert HandIs(env, c.arena, a.heap, c.arena.threads[w], c.workers[w], a.workers[w]);
    }
  }

  /** Every run of the walk over the arena has a run of the walk over the list that sends the
      same batches in the same order, and that is complete when it is. */
  lemma EveryArenaRunIsAPoolRun(env: Env, root: Path, workers: nat, sched: seq<P.Action>)
    returns (sched': seq<P.Action>)
    requires ArenaWalk.LegalRun(env, Init(env, root, workers), sched)
    ensures S.LegalRun(env, P.Init(env, root, workers), sched')
    ensures var c, a := Exec(env, Init(env, root, workers), sched), S.Exec(env, P.Init(env, root, workers), sched');
      && Refines(env, c, a) && c.sent == P.Batches(a.events) && (Complete(c) <==> P.Complete(a))
  {
    InitRefines(env, root, workers);
    sched' := RunRefines(env, Init(env, root, workers), P.Init(env, root, workers), sched);
    CompleteTogether(env, Exec(env, Init(env, root, workers), sched), S.Exec(env, P.Init(env, root, workers), sched'));
  }

  /** Schedule independence over the compare-and-swap arena: any number of workers, any
      interleaving of their loads, swaps and slot writes. */
  lemma {:induction false} CompletedArenaWalkPublishesSpec(env: Env, root: Path, n: nat, workers: nat,
                                                           sched: seq<P.Action>)
    requires Bounded(env, RootItem(env, root), n)
    requires ArenaWalk.LegalRun(env, Init(env, root, workers), sched)
    requires Complete(Exec(env, Init(env, root, workers), sched))
    ensures multiset(Exec(env, Init(env, root, workers), sched).sent) == multiset(Spec(env, RootItem(env, root), n))
  {
    var sched' := EveryArenaRunIsAPoolRun(env, root, workers, sched);
    S.CompletedWalkPublishesSpec(env, root, n, workers, sched');
  }

  /** No worker ever loads through nil or through an address that holds no link, in any
      run, ending or not, unless the root is the one that crashes. */
  lemma {:induction false} ArenaWalkNeverCrashes(env: Env, root: Path, workers: nat, sched: seq<P.Action>, w: nat)
    requires !Panics(env, RootItem(env, root))
    requires ArenaWalk.LegalRun(env, Init(env, root, workers), sched)
    requires w < |Exec(env, Init(env, root, workers), sched).workers|
    ensures !Exec(env, Init(env, root, workers), sched).workers[w].Crashed?
  {
    var sched' := EveryArenaRunIsAPoolRun(env, root, workers, sched);
    SafeRootNeverCrashes(env, root, workers, sched');
    var c, a := Exec(env, Init(env, root, workers), sched), S.Exec(env, P.Init(env, root, workers), sched');
    assert HandIs(env, c.arena, a.heap, c.arena.threads[w], c.workers[w], a.workers[w]);
  }

  /** Coverage over the arena, for every finite file system (on one device, if links are
      followed) and every depth limit but the one that stops nothing. */
  lemma {:induction false} EveryFiniteFsIsCoveredByArenaWalks(fs: Fs, dev: nat, root: Path, conf: Conf, workers: nat,
                                                              sched: seq<P.Action>)
    requires WellFormed(fs) && NulFree(root)
    requires (conf.followLinks ==> SingleDevice(fs, dev)) && conf.maxDepth != 0xFFFF_FFFF
    requires ArenaWalk.LegalRun(EnvOf(fs, root, conf), Init(EnvOf(fs, root, conf), root, workers), sched)
    requires Complete(Exec(EnvOf(fs, root, conf), Init(EnvOf(fs, root, conf), root, workers), sched))
    ensures var env := EnvOf(fs, root, conf);
      Covers(env, root, Exec(env, Init(env, root, workers), sched).sent)
  {
    hide Covers, Refines, WellFormed, SingleDevice;
    var env := EnvOf(fs, root, conf);
    var sched' := EveryArenaRunIsAPoolRun(env, root, workers, sched);
    EveryFiniteFsIsCovered(fs, dev, root, conf, workers, sched');
  }
}
