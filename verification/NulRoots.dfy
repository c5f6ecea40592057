/**
  Plain walks from a root with a NUL inside.  openat takes every path below it for the part
  before the NUL, so each listing is that directory's again, and if it has a subdirectory
  the walk never ends.
 */
module NulRoots {
  import opened Chains
  import opened Paths
  import opened Walk
  import opened Pool
  import opened Schedules
  import opened Termination
  import opened Crashes
  import opened FiniteFs

  // No depth is too deep.
  predicate Unlimited(conf: Conf) {
    conf.maxDepth == 0 || conf.maxDepth == 0xFFFF_FFFF
  }

  // The directory lists a subdirectory that is not skipped.
  ghost predicate HasSubdirectory(env: Env, p: Path) {
    exists d :: HasPlainDir(env.k, p, d) && d.name !in env.conf.skip
  }

  // The path opens as a directory with a subdirectory, and so will its children.
  ghost predicate Trap(env: Env, p: Path) {
    !NulFree(p) && HasSubdirectory(env, p)
  }

  ghost predicate Endless(env: Env) {
    StopsAtNul(env.k) && !env.conf.followLinks && Unlimited(env.conf)
  }

  lemma ChildIsTrap(env: Env, p: Path, name: Name)
    requires Endless(env) && Trap(env, p)
    ensures Trap(env, Join(p, name))
  {
    var q := Join(p, name);
    assert q == p + q[|p|..];
    JoinNulFree(p, name);
    CStringStops(p, q[|p|..]);
    CStringTwice(p);
    assert env.k.readdir(q) == env.k.readdir(p);
    var d :| HasPlainDir(env.k, p, d) && d.name !in env.conf.skip;
    assert HasPlainDir(env.k, q, d);
  }

  lemma TrapListsChild(env: Env, p: Path) returns (i: nat)
    requires Endless(env) && Trap(env, p)
    ensures env.k.readdir(p).Listing? && i < |Seen(env, p)| && Seen(env, p)[i].typ == DT_DIR
  {
    var d :| HasPlainDir(env.k, p, d) && d.name !in env.conf.skip;
    var ds := Filter(env.k.readdir(p).ds, env.conf.skip);
    FilterKeeps(env.k.readdir(p).ds, env.conf.skip, d);
    i :| 0 <= i < |ds| && ds[i] == d;
  }

  lemma TrapSpawnsTrap(env: Env, it: Item) returns (c: Item)
    requires Endless(env) && Trap(env, it.path)
    ensures c in Run(env, it).spawn && Trap(env, c.path)
  {
    var i := TrapListsChild(env, it.path);
    var e := Seen(env, it.path)[i];
    PlainSpawnHas(it, Seen(env, it.path), i);
    ChildIsTrap(env, it.path, e.name);
    c := Item(Join(it.path, e.name), Inc32(it.depth), []);
  }

  lemma {:induction false} TrapIsUnbounded(env: Env, it: Item, n: nat)
    requires Endless(env) && Trap(env, it.path)
    ensures !Bounded(env, it, n)
    decreases n
  {
    if n > 0 {
      var c := TrapSpawnsTrap(env, it);
      TrapIsUnbounded(env, c, n - 1);
    }
  }

  lemma {:induction false} NothingToDescendInto(env: Env, root: Path)
    requires !env.conf.followLinks && !HasSubdirectory(env, root)
    ensures Bounded(env, RootItem(env, root), 1)
  {
    forall c | c in Run(env, RootItem(env, root)).spawn ensures false {
      var e := SpawnReason(env, RootItem(env, root), c);
      var d := SeenComesFrom(env, root, e);
      assert HasPlainDir(env.k, root, d);
    }
  }

  /** A plain walk of a finite file system with no depth limit is finite if and only if its
      root holds no NUL or has no subdirectory to descend into. */
  lemma {:induction false} PlainWalkIsFiniteIff(env: Env, sh: Shape, root: Path)
    requires Finite(env.k, sh) && Endless(env)
    ensures (exists n :: Bounded(env, RootItem(env, root), n)) <==> NulFree(root) || !HasSubdirectory(env, root)
  {
    if NulFree(root) {
      PlainWalkIsFinite(env, sh, root);
      var n: nat := sh.height(root) + 1;
      assert Bounded(env, RootItem(env, root), n);
    } else if HasSubdirectory(env, root) {
      forall n ensures !Bounded(env, RootItem(env, root), n) {
        TrapIsUnbounded(env, RootItem(env, root), n);
      }
    } else {
      NothingToDescendInto(env, root);
      var one: nat := 1;
      assert Bounded(env, RootItem(env, root), one);
    }
  }

  /** The same for every concrete finite file system, mounted at base and walked from any
      path whatever. */
  lemma EveryFsPlainWalkIsFiniteIff(fs: Fs, base: Path, conf: Conf, root: Path)
    requires WellFormed(fs) && NulFree(base) && !conf.followLinks && Unlimited(conf)
    ensures var env := EnvOf(fs, base, conf);
      (exists n :: Bounded(env, RootItem(env, root), n)) <==> NulFree(root) || !HasSubdirectory(env, root)
  {
    hide Bounded, Finite, HasSubdirectory, StopsAtNul;
    EveryFsIsFinite(fs, base);
    PlainWalkIsFiniteIff(EnvOf(fs, base, conf), ShapeOf(fs, base), root);
  }

  // ------------------------------------------------------------- and it really never ends

  ghost predicate Trapped(env: Env, s: State) {
    exists t :: InPlay(s, t) && Trap(env, t.path)
  }

  lemma {:induction false} PlainTasksHas(t: Task, es: seq<Entry>, i: nat)
    requires i < |es| && es[i].typ == DT_DIR
    ensures Task(Join(t.path, es[i].name), Inc32(t.depth), None) in PlainTasks(t, es)
    decreases |es|
  {
    if i > 0 {
      PlainTasksHas(t, es[1..], i - 1);
    }
  }

  lemma TakenTrapHoldsTrap(env: Env, t: Task) returns (c: Task)
    requires Endless(env) && Trap(env, t.path)
    ensures c in Held(Begin(env, t)) && Trap(env, c.path)
  {
    hide Filter, PlainTasks, HasSubdirectory, StopsAtNul, NulFree;
    var i := TrapListsChild(env, t.path);
    var e := Seen(env, t.path)[i];
    PlainTasksHas(t, Seen(env, t.path), i);
    ChildIsTrap(env, t.path, e.name);
    c := Task(Join(t.path, e.name), Inc32(t.depth), None);
  }

  // An item in play stays in play, unless it is the one that is taken.
  lemma StaysInPlay(env: Env, s: State, a: Action, t: Task)
    requires !env.conf.followLinks && Wf(s) && Enabled(s, a) && AllPlain(s) && InPlay(s, t)
    requires a.Take? ==> t != s.pending[a.j]
    ensures InPlay(Step(env, s, a), t)
  {
    var s' := Step(env, s, a);
    if t in s.pending {
      var i :| 0 <= i < |s.pending| && s.pending[i] == t;
      if a.Take? {
        assert s'.pending[if i < a.j then i else i - 1] == t;
      }
    } else {
      var w: nat :| Holds(s, w, t);
      if w == a.w && s.workers[w].Spawning? && t == s.workers[w].spawn[0] {
        assert t in s'.pending;
      } else {
        assert Holds(s', w, t);
      }
    }
  }

  lemma StepStaysTrapped(env: Env, s: State, a: Action)
    requires Endless(env) && Wf(s) && Enabled(s, a) && AllPlain(s) && Trapped(env, s)
    ensures Trapped(env, Step(env, s, a)) && AllPlain(Step(env, s, a))
  {
    hide Trap, InPlay, StopsAtNul;
    var t: Task :| InPlay(s, t) && Trap(env, t.path);
    if a.Take? && t == s.pending[a.j] {
      var c := TakenTrapHoldsTrap(env, t);
      HeldIsInPlay(Step(env, s, a), a.w, c);
    } else {
      StaysInPlay(env, s, a, t);
    }
  }

  lemma HeldIsInPlay(s: State, w: nat, t: Task)
    requires w < |s.workers| && t in Held(s.workers[w])
    ensures InPlay(s, t)
  {
    assert Holds(s, w, t);
  }

  lemma {:induction false} RunStaysTrapped(env: Env, s: State, sched: seq<Action>)
    requires Endless(env) && LegalRun(env, s, sched) && AllPlain(s) && Trapped(env, s)
    ensures Trapped(env, Exec(env, s, sched)) && AllPlain(Exec(env, s, sched))
    decreases |sched|
  {
    hide Trapped, AllPlain, Endless;
    if sched == [] {
    } else {
      StepStaysTrapped(env, s, sched[0]);
      RunStaysTrapped(env, Step(env, s, sched[0]), sched[1..]);
    }
  }

  /** Walked from such a root, no schedule of any number of workers is ever complete, and
      none is ever stuck: the walk publishes the same directory for ever. */
  lemma {:induction false} NulWalkNeverEnds(env: Env, root: Path, workers: nat, sched: seq<Action>)
    requires Endless(env) && !NulFree(root) && HasSubdirectory(env, root) && workers > 0
    requires LegalRun(env, Init(env, root, workers), sched)
    ensures !Complete(Exec(env, Init(env, root, workers), sched))
    ensures exists a :: Enabled(Exec(env, Init(env, root, workers), sched), a)
  {
    var s := Init(env, root, workers);
    assert s.pending[0] in s.pending && InPlay(s, s.pending[0]);
    RunStaysTrapped(env, s, sched);
    var r := Exec(env, s, sched);
    WorkersStay(env, s, sched);
    var t: Task :| InPlay(r, t) && Trap(env, t.path);
    if w: nat :| w < |r.workers| && !r.workers[w].Idle? {
      assert Enabled(r, Go(w));
    } else {
      assert t in r.pending;
      assert Enabled(r, Take(0, 0));
    }
  }

  lemma {:induction false} WorkersStay(env: Env, s: State, sched: seq<Action>)
    requires LegalRun(env, s, sched)
    ensures |Exec(env, s, sched).workers| == |s.workers|
    decreases |sched|
  {
    if sched == [] {
    } else {
      StepShape(env, s, sched[0]);
      WorkersStay(env, Step(env, s, sched[0]), sched[1..]);
    }
  }
}
