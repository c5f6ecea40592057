/**
  The nil dereference of a walk that follows links: item.ancestor.dev (walkman.go), read for
  every plain subdirectory.  It happens exactly at a root that can be read but not
  identified, and such roots exist.
 */
module Crashes {
  import opened Chains
  import opened Paths
  import opened Walk
  import opened Pool
  import opened Schedules
  import opened Termination

  ghost predicate HasCrashed(s: State) {
    exists w :: 0 <= w < |s.workers| && s.workers[w].Crashed?
  }

  // A worker without an ancestor, on its way to a subdirectory, crashes when left alone.
  lemma ScanCrashes(env: Env, s: State, w: nat) returns (sched: seq<Action>)
    requires Wf(s) && w < |s.workers| && s.workers[w].Scanning? && s.workers[w].task.ancestor.None?
    requires exists e :: e in s.workers[w].todo && NeedsDev(env, ItemOf(s.heap, s.workers[w].task), e)
    ensures LegalRun(env, s, sched) && HasCrashed(Exec(env, s, sched))
    decreases |s.workers[w].todo|
  {
    var x := s.workers[w];
    var s' := Step(env, s, Go(w));
    if NeedsDev(env, ItemOf(s.heap, x.task), x.todo[0]) {
      assert s'.workers[w].Crashed?;
      sched := [Go(w)];
      assert Exec(env, s', []) == s' && sched[1..] == [];
    } else {
      var e :| e in x.todo && NeedsDev(env, ItemOf(s.heap, x.task), e);
      assert e in x.todo[1..];
      OtherScanKeepsWf(env, s, w);
      var rest := ScanCrashes(env, s', w);
      sched := [Go(w)] + rest;
      assert sched[1..] == rest;
    }
  }

  lemma OtherScanKeepsWf(env: Env, s: State, w: nat)
    requires Wf(s) && w < |s.workers| && s.workers[w].Scanning? && s.workers[w].todo != []
    requires !NeedsDev(env, ItemOf(s.heap, s.workers[w].task), s.workers[w].todo[0])
    ensures Wf(Step(env, s, Go(w)))
  {
  }

  // Taking the root and scanning on leads there.
  lemma RootCrashes(env: Env, root: Path, workers: nat) returns (sched: seq<Action>)
    requires env.conf.followLinks && workers > 0 && Panics(env, RootItem(env, root))
    ensures LegalRun(env, Init(env, root, workers), sched)
    ensures HasCrashed(Exec(env, Init(env, root, workers), sched))
  {
    var it, s, a := RootItem(env, root), Init(env, root, workers), Take(0, 0);
    InitItems(env, root, workers);
    var s' := Step(env, s, a);
    assert Wf(s') by {
      assert forall u :: 0 <= u < |s'.workers| ==> WorkerNamed(s'.heap, s'.workers[u]);
    }
    var i: nat :| i < |Seen(env, it.path)| && NeedsDev(env, it, Seen(env, it.path)[i]);
    assert Seen(env, it.path)[i] in s'.workers[0].todo;
    var rest := ScanCrashes(env, s', 0);
    sched := [a] + rest;
    assert sched[1..] == rest;
  }

  // Only the root can be without an ancestor, and then it never needs one.
  ghost predicate TaskAnchored(root: Path, t: Task) {
    t.ancestor.None? ==> t.path == root && t.depth == 1
  }

  ghost predicate WorkerAnchored(env: Env, root: Path, w: Worker) {
    && !w.Crashed? && (forall t :: t in Held(w) ==> TaskAnchored(root, t))
    && (w.Scanning? && w.task.ancestor.None? ==> forall e :: e in w.todo ==> !NeedsDev(env, RootItem(env, root), e))
  }

  ghost predicate Anchored(env: Env, root: Path, s: State) {
    && (forall t :: t in s.pending ==> TaskAnchored(root, t))
    && (forall w :: 0 <= w < |s.workers| ==> WorkerAnchored(env, root, s.workers[w]))
  }

  lemma ScanIsAnchored(env: Env, root: Path, h: seq<Knot>, w: Worker)
    requires env.conf.followLinks && ParentsFirst(h) && w.Scanning? && w.todo != [] && Names(h, w.task.ancestor)
    requires WorkerAnchored(env, root, w)
    ensures var d := ScanEntry(env, h, w.task, w.todo[0]);
      !d.crash && forall t :: t in d.spawn ==> TaskAnchored(root, t) && t.ancestor.Some?
  {
    assert w.task in Held(w) && w.todo[0] in w.todo;
    assert w.task.ancestor.None? ==> w.task.depth == 1 && !NeedsDev(env, RootItem(env, root), w.todo[0]);
  }

  lemma BeginIsAnchored(env: Env, root: Path, t: Task)
    requires env.conf.followLinks && TaskAnchored(root, t) && !Panics(env, RootItem(env, root))
    requires t.ancestor.None? ==> RootItem(env, root).chain == []
    ensures WorkerAnchored(env, root, Begin(env, t))
  {
  }

  lemma TakeIsAnchored(env: Env, root: Path, s: State, a: Action)
    requires env.conf.followLinks && !Panics(env, RootItem(env, root)) && Wf(s) && Enabled(s, a) && a.Take?
    requires Anchored(env, root, s) && (AllAnchored(s) || RootItem(env, root).chain == [])
    ensures Anchored(env, root, Step(env, s, a))
    ensures AllAnchored(s) ==> AllAnchored(Step(env, s, a))
  {
    hide Panics, RootItem, NeedsDev, Filter, AtMaxDepth;
    var t := s.pending[a.j];
    assert t in s.pending;
    BeginIsAnchored(env, root, t);
    assert Held(Begin(env, t)) == [t] || Held(Begin(env, t)) == [];
  }

  lemma ScanStepIsAnchored(env: Env, root: Path, s: State, w: nat)
    requires env.conf.followLinks && Wf(s) && w < |s.workers| && s.workers[w].Scanning? && s.workers[w].todo != []
    requires Anchored(env, root, s)
    ensures Anchored(env, root, Step(env, s, Go(w)))
    ensures AllAnchored(s) ==> AllAnchored(Step(env, s, Go(w)))
  {
    hide RootItem, NeedsDev, AtMaxDepth, TaskAnchored, ScanEntry;
    var x := s.workers[w];
    assert WorkerNamed(s.heap, x) && WorkerAnchored(env, root, x);
    ScanIsAnchored(env, root, s.heap, x);
    assert forall t :: t in Held(Step(env, s, Go(w)).workers[w]) ==>
      t in Held(x) || t in ScanEntry(env, s.heap, x.task, x.todo[0]).spawn;
  }

  lemma OtherStepIsAnchored(env: Env, root: Path, s: State, w: nat)
    requires Wf(s) && Enabled(s, Go(w)) && !(s.workers[w].Scanning? && s.workers[w].todo != [])
    requires Anchored(env, root, s)
    ensures Anchored(env, root, Step(env, s, Go(w)))
    ensures AllAnchored(s) ==> AllAnchored(Step(env, s, Go(w)))
  {
    hide RootItem, NeedsDev, AtMaxDepth, TaskAnchored;
    var x, x' := s.workers[w], Step(env, s, Go(w)).workers[w];
    assert WorkerAnchored(env, root, x);
    assert forall t :: t in Held(x') ==> t in Held(x);
  }

  lemma StepIsAnchored(env: Env, root: Path, s: State, a: Action)
    requires env.conf.followLinks && !Panics(env, RootItem(env, root)) && Wf(s) && Enabled(s, a)
    requires Anchored(env, root, s) && (AllAnchored(s) || RootItem(env, root).chain == [])
    ensures Anchored(env, root, Step(env, s, a))
    ensures AllAnchored(Step(env, s, a)) || RootItem(env, root).chain == []
  {
    if a.Take? {
      TakeIsAnchored(env, root, s, a);
    } else if s.workers[a.w].Scanning? && s.workers[a.w].todo != [] {
      ScanStepIsAnchored(env, root, s, a.w);
    } else {
      OtherStepIsAnchored(env, root, s, a.w);
    }
  }

  // Every item in play has an ancestor.
  ghost predicate AllAnchored(s: State) {
    && (forall t :: t in s.pending ==> t.ancestor.Some?)
    && (forall w, t :: 0 <= w < |s.workers| && t in Held(s.workers[w]) ==> t.ancestor.Some?)
  }

  lemma {:induction false} RunIsAnchored(env: Env, root: Path, s: State, sched: seq<Action>)
    requires env.conf.followLinks && !Panics(env, RootItem(env, root)) && LegalRun(env, s, sched)
    requires Anchored(env, root, s) && (AllAnchored(s) || RootItem(env, root).chain == [])
    ensures Anchored(env, root, Exec(env, s, sched))
    decreases |sched|
  {
    hide Panics, RootItem, Anchored, AllAnchored;
    if sched == [] {
    } else {
      StepIsAnchored(env, root, s, sched[0]);
      RunIsAnchored(env, root, Step(env, s, sched[0]), sched[1..]);
    }
  }

  // A plain walk asks no ancestor for anything.
  ghost predicate AllPlain(s: State) {
    forall w :: 0 <= w < |s.workers| ==> !s.workers[w].Scanning? && !s.workers[w].Crashed?
  }

  lemma {:induction false} RunStaysPlain(env: Env, s: State, sched: seq<Action>)
    requires !env.conf.followLinks && LegalRun(env, s, sched) && AllPlain(s)
    ensures AllPlain(Exec(env, s, sched))
    decreases |sched|
  {
    if sched == [] {
    } else {
      assert AllPlain(Step(env, s, sched[0]));
      RunStaysPlain(env, Step(env, s, sched[0]), sched[1..]);
    }
  }

  lemma {:induction false} SafeRootNeverCrashes(env: Env, root: Path, workers: nat, sched: seq<Action>)
    requires !Panics(env, RootItem(env, root)) && LegalRun(env, Init(env, root, workers), sched)
    ensures !HasCrashed(Exec(env, Init(env, root, workers), sched))
  {
    var s := Init(env, root, workers);
    if env.conf.followLinks {
      RunIsAnchored(env, root, s, sched);
      var r := Exec(env, s, sched);
      assert forall w :: 0 <= w < |r.workers| ==> WorkerAnchored(env, root, r.workers[w]);
    } else {
      RunStaysPlain(env, s, sched);
    }
  }

  /** A walk of any file system, ending or not, can dereference a nil ancestor if and only
      if it follows links and the root can be read but not identified by stat, and has a
      subdirectory to descend into; no item below the root ever can. */
  lemma CrashIff(env: Env, root: Path, workers: nat)
    requires workers > 0
    ensures (exists sched :: CrashingRun(env, root, workers, sched)) <==> Panics(env, RootItem(env, root))
  {
    if Panics(env, RootItem(env, root)) {
      var sched := RootCrashes(env, root, workers);
      assert CrashingRun(env, root, workers, sched);
    } else {
      forall sched | LegalRun(env, Init(env, root, workers), sched) ensures !CrashingRun(env, root, workers, sched) {
        SafeRootNeverCrashes(env, root, workers, sched);
      }
    }
  }

  ghost predicate CrashingRun(env: Env, root: Path, workers: nat, sched: seq<Action>) {
    && LegalRun(env, Init(env, root, workers), sched)
    && HasCrashed(Exec(env, Init(env, root, workers), sched))
  }

  // One directory with one subdirectory, both identified by stat, reached by system calls
  // that stop at NUL.
  function OneSubdirectory(dir: Path): Kernel {
    Kernel((p: Path) => if p[0] != NUL && CString(p) == dir then Listing([Dirent([0x61], DT_DIR, 2)])
                        else ReadFailed(2),
           (p: Path) => if p == dir then Info(ModeDir, Id(1, 1))
                        else if p == Join(dir, [0x61]) then Info(ModeDir, Id(2, 1)) else StatFailed)
  }

  lemma OneSubdirectoryIsFinite(dir: Path) returns (sh: Shape)
    requires NulFree(dir)
    ensures Finite(OneSubdirectory(dir), sh) && StopsAtNul(OneSubdirectory(dir))
  {
    var k := OneSubdirectory(dir);
    sh := Shape({Id(1, 1), Id(2, 1)}, (p: Path) => if p == dir then 1 else 0, 2);
    JoinNulFree(dir, [0x61]);
    forall p: Path, d: Dirent | NulFree(p) && HasPlainDir(k, p, d) ensures sh.height(Join(p, d.name)) < sh.height(p) {
      CStringOfNulFree(p);
      assert |Join(p, d.name)| > |p|;
    }
    forall p: Path | !NulFree(p) && p[0] != NUL ensures k.readdir(p) == k.readdir(CString(p)) {
      CStringTwice(p);
    }
  }

  /** It can happen: on a finite file system whose directory can be walked, from the same
      directory named with a NUL and anything else behind it. */
  lemma CrashHappens(dir: Path, rest: seq<byte>, workers: nat)
    requires NulFree(dir) && workers > 0
    ensures var env, root := Env(OneSubdirectory(dir), Conf(true, 0, {})), dir + [NUL] + rest;
      && (exists sh :: Finite(env.k, sh)) && StopsAtNul(env.k)
      && Panics(env, RootItem(env, root)) && (exists sched :: CrashingRun(env, root, workers, sched))
      && !Panics(env, RootItem(env, dir))
  {
    hide CString, Finite, StopsAtNul, Panics, CrashingRun;
    var env, root := Env(OneSubdirectory(dir), Conf(true, 0, {})), dir + [NUL] + rest;
    var sh := OneSubdirectoryIsFinite(dir);
    NulRootPanics(dir, rest);
    CrashIff(env, root, workers);
    NamedRootIsSafe(dir);
  }

  lemma NulRootPanics(dir: Path, rest: seq<byte>)
    requires NulFree(dir)
    ensures var env := Env(OneSubdirectory(dir), Conf(true, 0, {})); Panics(env, RootItem(env, dir + [NUL] + rest))
  {
    hide CString, Filter;
    var k, root := OneSubdirectory(dir), dir + [NUL] + rest;
    var env := Env(k, Conf(true, 0, {}));
    assert root[|dir|] == NUL && root == dir + ([NUL] + rest);
    CStringStops(dir, [NUL] + rest);
    FilterKeeps(k.readdir(root).ds, {}, k.readdir(root).ds[0]);
    assert Filter(k.readdir(root).ds, {})[0] == k.readdir(root).ds[0] by {
      OneIsKept(k.readdir(root).ds[0]);
    }
    assert NeedsDev(env, RootItem(env, root), Seen(env, root)[0]);
  }

  lemma OneIsKept(d: Dirent)
    requires Wanted(d.name, {})
    ensures Filter([d], {}) == [d]
  {
    assert [d][1..] == [];
  }

  lemma NamedRootIsSafe(dir: Path)
    ensures var env := Env(OneSubdirectory(dir), Conf(true, 0, {})); !Panics(env, RootItem(env, dir))
  {
  }
}
