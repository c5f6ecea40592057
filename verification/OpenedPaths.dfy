/**
  What openat makes of the paths of a walk.  It stops at the first NUL, so a path means
  itself only if it holds none: then, and only then, the root holds none either.
 */
module OpenedPaths {
  import opened Chains
  import opened Paths
  import opened Walk
  import opened Pool
  import opened Schedules
  import opened Cycles

  // The path is opened in full if the root is, and as the root otherwise.
  ghost predicate OpensLikeRoot(root: Path, p: Path) {
    && (NulFree(p) <==> NulFree(root))
    && (NulFree(root) ==> CString(p) == p)
    && (!NulFree(root) ==> CString(p) == CString(root) && CString(p) != p)
  }

  lemma RootOpens(root: Path)
    ensures OpensLikeRoot(root, root)
  {
    CStringStops(root, [NUL]);
  }

  lemma JoinOpens(root: Path, p: Path, name: Name)
    requires OpensLikeRoot(root, p) && GoodName(name)
    ensures OpensLikeRoot(root, Join(p, name))
  {
    var q := Join(p, name);
    var more := q[|p|..];
    assert q == p + more && NulFree(more);
    assert NulFree(q) <==> NulFree(p) by {
      assert forall i :: 0 <= i < |p| ==> q[i] == p[i];
      assert forall i :: |p| <= i < |q| ==> q[i] == more[i - |p|];
    }
    if !NulFree(p) {
      CStringStops(p, more);
    }
    CStringStops(q, [NUL]);
  }

  // It continues the root's text, and two separators are adjacent only where the root's are.
  ghost predicate SpelledFrom(root: Path, p: Path) {
    root <= p && forall i: nat :: DoubledAt(p, i) <==> DoubledAt(root, i)
  }

  ghost predicate FromRoot(root: Path, p: Path) {
    OpensLikeRoot(root, p) && SpelledFrom(root, p)
  }

  lemma JoinFromRoot(root: Path, p: Path, name: Name)
    requires FromRoot(root, p) && GoodName(name)
    ensures FromRoot(root, Join(p, name))
  {
    hide OpensLikeRoot, DoubledAt;
    JoinOpens(root, p, name);
    JoinDoublesNothing(p, name);
    JoinIsOneWay(Join(p, name), p, name);
  }

  ghost predicate WorkerFromRoot(env: Env, root: Path, w: Worker) {
    && (forall t :: t in Held(w) ==> FromRoot(root, t.path))
    && (w.Scanning? ==> forall e :: e in w.todo ==> GoodName(e.name))
  }

  ghost predicate AllFromRoot(env: Env, root: Path, s: State) {
    && (forall t :: t in s.pending ==> FromRoot(root, t.path))
    && (forall w :: 0 <= w < |s.workers| ==> WorkerFromRoot(env, root, s.workers[w]))
  }

  lemma {:induction false} PlainTasksFromRoot(root: Path, t: Task, es: seq<Entry>)
    requires FromRoot(root, t.path) && forall e :: e in es ==> GoodName(e.name)
    ensures forall c :: c in PlainTasks(t, es) ==> FromRoot(root, c.path)
    decreases |es|
  {
    if es == [] {
    } else {
      JoinFromRoot(root, t.path, es[0].name);
      PlainTasksFromRoot(root, t, es[1..]);
    }
  }

  lemma BeginFromRoot(env: Env, root: Path, t: Task)
    requires GoodNames(env.k) && FromRoot(root, t.path)
    ensures WorkerFromRoot(env, root, Begin(env, t))
  {
    hide FromRoot;
    if env.k.readdir(t.path).Listing? {
      SeenGood(env, t.path);
      PlainTasksFromRoot(root, t, Seen(env, t.path));
    }
  }

  lemma ScanFromRoot(env: Env, root: Path, h: seq<Knot>, t: Task, e: Entry)
    requires ParentsFirst(h) && Names(h, t.ancestor) && FromRoot(root, t.path) && GoodName(e.name)
    ensures forall c :: c in ScanEntry(env, h, t, e).spawn ==> FromRoot(root, c.path)
  {
    hide FromRoot, Join, Chain, AtMaxDepth;
    JoinFromRoot(root, t.path, e.name);
  }

  lemma StepFromRoot(env: Env, root: Path, s: State, a: Action)
    requires GoodNames(env.k) && Wf(s) && Enabled(s, a) && AllFromRoot(env, root, s)
    ensures AllFromRoot(env, root, Step(env, s, a))
  {
    hide FromRoot, GoodNames;
    assert WorkerNamed(s.heap, s.workers[a.w]) && WorkerFromRoot(env, root, s.workers[a.w]);
    if a.Take? {
      BeginFromRoot(env, root, s.pending[a.j]);
    } else if s.workers[a.w].Scanning? && s.workers[a.w].todo != [] {
      var x := s.workers[a.w];
      assert x.task in Held(x);
      ScanFromRoot(env, root, s.heap, x.task, x.todo[0]);
    }
  }

  lemma {:induction false} RunFromRoot(env: Env, root: Path, s: State, sched: seq<Action>)
    requires GoodNames(env.k) && AllFromRoot(env, root, s) && LegalRun(env, s, sched)
    ensures AllFromRoot(env, root, Exec(env, s, sched))
    decreases |sched|
  {
    if sched == [] {
    } else {
      StepFromRoot(env, root, s, sched[0]);
      RunFromRoot(env, root, Step(env, s, sched[0]), sched[1..]);
    }
  }

  lemma {:induction false} InPlayFromRoot(env: Env, root: Path, workers: nat, sched: seq<Action>)
    requires GoodNames(env.k) && LegalRun(env, Init(env, root, workers), sched)
    ensures forall t :: InPlay(Exec(env, Init(env, root, workers), sched), t) ==> FromRoot(root, t.path)
  {
    var s := Init(env, root, workers);
    RootOpens(root);
    assert FromRoot(root, root);
    hide FromRoot, GoodNames;
    RunFromRoot(env, root, s, sched);
    var r := Exec(env, s, sched);
    forall t | InPlay(r, t) ensures FromRoot(root, t.path) {
      if t !in r.pending {
        var w: nat :| Holds(r, w, t);
        assert WorkerFromRoot(env, root, r.workers[w]);
      }
    }
  }

  /** In every reachable state of every schedule, whether or not the walk ends: the path of
      every item in play holds no NUL if and only if the root holds none.  If the root
      does, openat opens for every item what it opened for the root, never the path. */
  lemma {:induction false} PathsOpenInFullIff(env: Env, root: Path, workers: nat, sched: seq<Action>)
    requires GoodNames(env.k) && LegalRun(env, Init(env, root, workers), sched)
    ensures forall t :: InPlay(Exec(env, Init(env, root, workers), sched), t) ==> OpensLikeRoot(root, t.path)
  {
    InPlayFromRoot(env, root, workers, sched);
  }

  /** Nor does any of them double a separator: each continues the text of the root, with two
      in a row exactly where the root has two.  A cleaned root has none. */
  lemma {:induction false} NoSeparatorIsDoubled(env: Env, root: Path, workers: nat, sched: seq<Action>)
    requires GoodNames(env.k) && LegalRun(env, Init(env, root, workers), sched)
    ensures forall t :: InPlay(Exec(env, Init(env, root, workers), sched), t) ==> SpelledFrom(root, t.path)
  {
    InPlayFromRoot(env, root, workers, sched);
  }
}
