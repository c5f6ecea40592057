/**
  The theorems about whole runs of the pool: schedule independence, termination with the
  exact number of steps, progress, and the one way a walk can crash.
 */
module Schedules {
  import opened Chains
  import opened Paths
  import opened Walk
  import opened Pool
  import opened PoolRuns

  ghost predicate LegalRun(env: Env, s: State, sched: seq<Action>)
    decreases |sched|
  {
    sched == [] || (Wf(s) && Enabled(s, sched[0]) && LegalRun(env, Step(env, s, sched[0]), sched[1..]))
  }

  ghost function Exec(env: Env, s: State, sched: seq<Action>): State
    requires LegalRun(env, s, sched)
    decreases |sched|
  {
    if sched == [] then s else Exec(env, Step(env, s, sched[0]), sched[1..])
  }

  lemma InitItems(env: Env, root: Path, workers: nat)
    ensures var s := Init(env, root, workers);
      Wf(s) && ItemsOf(s.heap, s.pending) == [RootItem(env, root)]
  {
    var s := Init(env, root, workers);
    var h, r := s.heap, s.pending[0].ancestor;
    assert Chain(h, None) == [];
    assert r.Some? ==> Chain(h, r) == [h[0].id] + Chain(h, None) == [h[0].id];
    assert ItemOf(h, s.pending[0]) == RootItem(env, root);
  }

  lemma InitInv(g: Goal, root: Path, workers: nat)
    requires Closed(g) && g.ok(RootItem(g.env, root))
    ensures Inv(g, multiset(EventsOf(g.env, RootItem(g.env, root), g.n)), Init(g.env, root, workers))
  {
    hide Run, Panics, Bounded, RootItem, EventsOf, AllEvents, Closed;
    var s, it := Init(g.env, root, workers), RootItem(g.env, root);
    InitItems(g.env, root, workers);
    OneItemsEvents(g.env, it, g.n);
    IdleDebt(g, s.heap, s.workers);
  }

  lemma {:induction false} OneItemsEvents(env: Env, it: Item, n: nat)
    ensures AllEvents(env, [it], n) == EventsOf(env, it, n)
  {
    assert [it][1..] == [] && AllEvents(env, [], n) == [];
    assert EventsOf(env, it, n) + [] == EventsOf(env, it, n);
  }

  lemma {:induction false} IdleDebt(g: Goal, h: seq<Knot>, ws: seq<Worker>)
    requires ParentsFirst(h) && forall w :: 0 <= w < |ws| ==> ws[w].Idle?
    ensures AllNamed(h, ws) && DebtOfAll(g, h, ws) == multiset{}
    decreases |ws|
  {
    if ws == [] {
    } else {
      IdleDebt(g, h, ws[1..]);
    }
  }

  lemma StepShape(env: Env, s: State, a: Action)
    requires Wf(s) && Enabled(s, a)
    ensures var s' := Step(env, s, a);
      |s'.workers| == |s.workers| && |s'.events| == |s.events| + 1
  {
  }

  lemma {:induction false} RunKeepsInv(g: Goal, total: multiset<Event>, s: State, sched: seq<Action>)
    requires Closed(g) && Inv(g, total, s) && LegalRun(g.env, s, sched)
    ensures Inv(g, total, Exec(g.env, s, sched))
    ensures |Exec(g.env, s, sched).events| == |s.events| + |sched|
    ensures |Exec(g.env, s, sched).workers| == |s.workers|
    decreases |sched|
  {
    if sched == [] {
    } else {
      StepShape(g.env, s, sched[0]);
      StepKeepsInv(g, total, s, sched[0]);
      RunKeepsInv(g, total, Step(g.env, s, sched[0]), sched[1..]);
    }
  }

  // Any bounded walk can be followed.
  ghost function Following(env: Env, n: nat): Goal {
    Goal(env, it => Bounded(env, it, n), n)
  }

  lemma FollowingIsClosed(env: Env, n: nat)
    ensures Closed(Following(env, n))
  {
    var g := Following(env, n);
    forall it: Item, c: Item | g.ok(it) && c in Run(env, it).spawn ensures g.ok(c) {
      BoundedMore(env, c, n - 1, n);
    }
  }

  // ------------------------------------------------------------- when it is all paid

  lemma {:induction false} DebtOfOne(g: Goal, h: seq<Knot>, ws: seq<Worker>, w: nat)
    requires ParentsFirst(h) && AllNamed(h, ws) && w < |ws| && WorkerOk(g, h, ws[w]) && !ws[w].Idle?
    ensures |DebtOfAll(g, h, ws)| > 0
    decreases |ws|
  {
    if w == 0 {
      var x := ws[0];
      assert x.Spawning? ==> Rested in PushEvents(ItemsOf(h, x.spawn));
      assert Debt(g, h, x) != multiset{};
    } else {
      DebtOfOne(g, h, ws[1..], w - 1);
    }
  }

  lemma DebtOfPending(g: Goal, h: seq<Knot>, ts: seq<Task>)
    requires Closed(g) && ParentsFirst(h) && Named(h, ts) && ts != [] && AllOk(g, ItemsOf(h, ts))
    ensures |DebtPending(g, h, ts)| > 0
  {
    var it := ItemsOf(h, ts)[0];
    assert Bounded(g.env, it, g.n);
    assert EventsOf(g.env, it, g.n)[0] == Took(it.path);
  }

  lemma CompleteIffPaid(g: Goal, total: multiset<Event>, s: State)
    requires Closed(g) && Inv(g, total, s)
    ensures Complete(s) <==> multiset(s.events) == total
    ensures |s.events| <= |total|
    ensures Complete(s) <==> |s.events| == |total|
  {
    var a, b := DebtOfAll(g, s.heap, s.workers), DebtPending(g, s.heap, s.pending);
    assert |total| == |s.events| + |a| + |b|;
    if Complete(s) {
      IdleDebt(g, s.heap, s.workers);
    } else if s.pending != [] {
      DebtOfPending(g, s.heap, s.pending);
    } else {
      var w: nat :| w < |s.workers| && !s.workers[w].Idle?;
      DebtOfOne(g, s.heap, s.workers, w);
    }
  }

  // ------------------------------------------------------------------------ theorems

  /** Schedule independence: whatever the number of workers and the schedule, a completed
      walk has published exactly the batches of the recursive specification. */
  lemma {:induction false} CompletedWalkPublishesSpec(env: Env, root: Path, n: nat, workers: nat, sched: seq<Action>)
    requires Bounded(env, RootItem(env, root), n)
    requires LegalRun(env, Init(env, root, workers), sched)
    requires Complete(Exec(env, Init(env, root, workers), sched))
    ensures var s := Exec(env, Init(env, root, workers), sched);
      && multiset(s.events) == multiset(EventsOf(env, RootItem(env, root), n))
      && multiset(Batches(s.events)) == multiset(Spec(env, RootItem(env, root), n))
  {
    var g, it := Following(env, n), RootItem(env, root);
    var total, s := multiset(EventsOf(env, it, n)), Exec(env, Init(env, root, workers), sched);
    FollowingIsClosed(env, n);
    InitInv(g, root, workers);
    RunKeepsInv(g, total, Init(env, root, workers), sched);
    CompleteIffPaid(g, total, s);
    SameBatches(s.events, EventsOf(env, it, n));
    BatchesOfEvents(env, it, n);
  }

  /** Termination of every schedule, with the exact count: no run is longer than the
      specification's event list, and a run is complete exactly when it is that long. */
  lemma {:induction false} EveryScheduleTerminates(env: Env, root: Path, n: nat, workers: nat, sched: seq<Action>)
    requires Bounded(env, RootItem(env, root), n)
    requires LegalRun(env, Init(env, root, workers), sched)
    ensures |sched| <= |EventsOf(env, RootItem(env, root), n)|
    ensures Complete(Exec(env, Init(env, root, workers), sched))
        <==> |sched| == |EventsOf(env, RootItem(env, root), n)|
  {
    var g, it := Following(env, n), RootItem(env, root);
    var total := multiset(EventsOf(env, it, n));
    FollowingIsClosed(env, n);
    InitInv(g, root, workers);
    RunKeepsInv(g, total, Init(env, root, workers), sched);
    CompleteIffPaid(g, total, Exec(env, Init(env, root, workers), sched));
  }

  /** No run gets stuck: while work is left, some worker can take a step. */
  lemma {:induction false} WorkLeftMeansAStep(env: Env, root: Path, n: nat, workers: nat, sched: seq<Action>)
    requires Bounded(env, RootItem(env, root), n) && workers > 0
    requires LegalRun(env, Init(env, root, workers), sched)
    requires !Complete(Exec(env, Init(env, root, workers), sched))
    ensures exists a :: Enabled(Exec(env, Init(env, root, workers), sched), a)
  {
    var g, s := Following(env, n), Exec(env, Init(env, root, workers), sched);
    FollowingIsClosed(env, n);
    InitInv(g, root, workers);
    RunKeepsInv(g, multiset(EventsOf(env, RootItem(env, root), n)), Init(env, root, workers), sched);
    if w: nat :| w < |s.workers| && !s.workers[w].Idle? {
      assert WorkerNamed(s.heap, s.workers[w]) && WorkerOk(g, s.heap, s.workers[w]);
      assert Enabled(s, Go(w));
    } else {
      assert Enabled(s, Take(0, 0));
    }
  }

  /** Whatever spawning keeps, every run keeps: every item in play in a reachable state,
      pending or in the hands of a worker, satisfies it, with its pointer replaced by the
      chain that it reads. */
  lemma {:induction false} ReachableItemsAreOk(g: Goal, root: Path, workers: nat, sched: seq<Action>)
    requires Closed(g) && g.ok(RootItem(g.env, root))
    requires LegalRun(g.env, Init(g.env, root, workers), sched)
    ensures var s := Exec(g.env, Init(g.env, root, workers), sched);
      Wf(s) && forall t :: InPlay(s, t) ==> Names(s.heap, t.ancestor) && g.ok(ItemOf(s.heap, t))
  {
    var total := multiset(EventsOf(g.env, RootItem(g.env, root), g.n));
    InitInv(g, root, workers);
    RunKeepsInv(g, total, Init(g.env, root, workers), sched);
    var s := Exec(g.env, Init(g.env, root, workers), sched);
    forall t | InPlay(s, t) ensures Names(s.heap, t.ancestor) && g.ok(ItemOf(s.heap, t)) {
      InPlayIsOk(g, total, s, t);
    }
  }

  // A run that takes the walk from its start to its end.
  ghost predicate Finishes(env: Env, root: Path, workers: nat, sched: seq<Action>) {
    LegalRun(env, Init(env, root, workers), sched) && Complete(Exec(env, Init(env, root, workers), sched))
  }

  // What it published, in the order it did.
  ghost function AllSent(env: Env, root: Path, workers: nat, sched: seq<Action>): seq<Batch>
    requires Finishes(env, root, workers, sched)
  {
    Batches(Exec(env, Init(env, root, workers), sched).events)
  }
}
