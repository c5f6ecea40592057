/**
  Why the walk ends.  Plain subdirectories are spawned without any cycle check, so a chain
  may name the same directory twice; what decreases lexicographically is the number of
  directory identities not yet on the chain, then the height of the plain tree below.
 */
module Termination {
  import opened Chains
  import opened Paths
  import opened Walk
  import opened Pool
  import opened PoolRuns
  import opened Schedules

  // A finite file system: the identities of its directories, the height of the tree of
  // plain subdirectories under each path, and a strict bound on these heights.  Only
  // paths without NUL name anything; listed names are delimited by NUL, so they hold none.
  datatype Shape = Shape(ids: set<Id>, height: Path -> nat, max: nat)

  ghost predicate Finite(k: Kernel, sh: Shape) {
    && (forall p: Path :: sh.height(p) < sh.max)
    && (forall p: Path :: k.stat(p).Info? && k.stat(p).mode == ModeDir ==> k.stat(p).id in sh.ids)
    && (forall p: Path, d: Dirent :: k.readdir(p).Listing? && d in k.readdir(p).ds ==> NulFree(d.name))
    && (forall p: Path, d: Dirent :: NulFree(p) && HasPlainDir(k, p, d) ==>
          sh.height(Join(p, d.name)) < sh.height(p))
  }

  // The system calls: openat reads a path up to its first NUL, os.Stat refuses one that
  // holds any.
  ghost predicate StopsAtNul(k: Kernel) {
    forall p: Path :: !NulFree(p) ==>
      && k.stat(p) == StatFailed
      && (if p[0] == NUL then k.readdir(p).ReadFailed? else k.readdir(p) == k.readdir(CString(p)))
  }

  // The root names what it says, or the system calls are those.
  ghost predicate Addressable(k: Kernel, root: Path) {
    NulFree(root) || StopsAtNul(k)
  }

  lemma StatMeansNulFree(k: Kernel, root: Path)
    requires Addressable(k, root) && k.stat(root).Info?
    ensures NulFree(root)
  {
  }

  lemma JoinNulFree(p: Path, name: Name)
    ensures NulFree(Join(p, name)) <==> NulFree(p) && NulFree(name)
  {
    var q, n := Join(p, name), |Sep(p)|;
    assert forall i :: 0 <= i < |p| ==> q[i] == p[i];
    assert forall i :: 0 <= i < |name| ==> q[n + i] == name[i];
  }

  ghost predicate HasPlainDir(k: Kernel, p: Path, d: Dirent) {
    k.readdir(p).Listing? && d in k.readdir(p).ds && d.typ == DT_DIR && Wanted(d.name, {})
  }

  lemma {:induction false} FilterKeeps(ds: seq<Dirent>, skip: set<Name>, d: Dirent)
    ensures d in Filter(ds, skip) <==> d in ds && d.name != [46] && d.name != [46, 46] && d.name !in skip
    decreases |ds|
  {
    if ds == [] {
    } else {
      FilterKeeps(ds[1..], skip, d);
      assert d in ds <==> d == ds[0] || d in ds[1..];
    }
  }

  lemma SeenComesFrom(env: Env, dir: Path, e: Entry) returns (d: Dirent)
    requires env.k.readdir(dir).Listing? && e in Seen(env, dir)
    ensures d in env.k.readdir(dir).ds && Wanted(d.name, env.conf.skip) && e == EntryOf(dir, d)
  {
    var ds := Filter(env.k.readdir(dir).ds, env.conf.skip);
    var i: nat :| i < |ds| && e == EntryOf(dir, ds[i]);
    d := ds[i];
    FilterKeeps(env.k.readdir(dir).ds, env.conf.skip, d);
  }

  // -------------------------------------------------------------------- the measure

  ghost function Unused(sh: Shape, it: Item): set<Id> {
    set id | id in sh.ids && id !in it.chain
  }

  ghost function Rank(env: Env, sh: Shape, it: Item): nat {
    (if env.conf.followLinks then |Unused(sh, it)| * sh.max else 0) + sh.height(it.path)
  }

  lemma SubsetSize(a: set<Id>, b: set<Id>)
    requires a <= b
    ensures |a| <= |b|
    decreases b
  {
    if x :| x in b {
      SubsetSize(a - {x}, b - {x});
    }
  }

  lemma ProperSubsetSize(a: set<Id>, b: set<Id>, x: Id)
    requires a <= b && x in b && x !in a
    ensures |a| + 1 <= |b|
  {
    SubsetSize(a + {x}, b);
  }

  lemma MulMonotone(a: nat, b: nat, c: nat)
    requires a <= b
    ensures a * c <= b * c
  {
  }

  lemma MulSucc(a: nat, c: nat)
    ensures (a + 1) * c == a * c + c
  {
  }

  // A hop uses up a new identity; a plain descent loses height and frees none.
  lemma SpawnDescends(env: Env, sh: Shape, it: Item, c: Item)
    requires Finite(env.k, sh) && NulFree(it.path) && !Panics(env, it) && c in Run(env, it).spawn
    ensures Rank(env, sh, c) < Rank(env, sh, it) && NulFree(c.path)
    ensures env.conf.followLinks ==> |c.chain| == |it.chain| + 1 && !Panics(env, c)
  {
    var e := SpawnReason(env, it, c);
    var d := SeenComesFrom(env, it.path, e);
    JoinNulFree(it.path, e.name);
    if e.typ == DT_DIR {
      assert HasPlainDir(env.k, it.path, d);
      if env.conf.followLinks {
        SubsetSize(Unused(sh, c), Unused(sh, it));
        MulMonotone(|Unused(sh, c)|, |Unused(sh, it)|, sh.max);
      }
    } else {
      var id := env.k.stat(c.path).id;
      ProperSubsetSize(Unused(sh, c), Unused(sh, it), id);
      MulMonotone(|Unused(sh, c)| + 1, |Unused(sh, it)|, sh.max);
      MulSucc(|Unused(sh, c)|, sh.max);
    }
  }

  lemma {:induction false} RankBounds(env: Env, sh: Shape, it: Item, n: nat)
    requires Finite(env.k, sh) && NulFree(it.path) && !Panics(env, it) && Rank(env, sh, it) < n
    ensures Bounded(env, it, n)
    decreases n
  {
    forall c | c in Run(env, it).spawn ensures Bounded(env, c, n - 1) {
      SpawnDescends(env, sh, it, c);
      RankBounds(env, sh, c, n - 1);
    }
  }

  // ----------------------------------------------------------------------- theorems

  /** The plain walk of a finite file system is finite: at most as many levels as the
      plain tree is high. */
  lemma {:induction false} PlainWalkIsFinite(env: Env, sh: Shape, root: Path)
    requires Finite(env.k, sh) && !env.conf.followLinks && NulFree(root)
    ensures Bounded(env, RootItem(env, root), sh.height(root) + 1)
  {
    RankBounds(env, sh, RootItem(env, root), sh.height(root) + 1);
  }

  lemma RootRank(env: Env, sh: Shape, root: Path)
    requires Finite(env.k, sh) && env.conf.followLinks
    requires env.k.stat(root).Info? && env.k.stat(root).mode == ModeDir
    ensures |sh.ids| >= 1
    ensures Rank(env, sh, RootItem(env, root)) + sh.max <= |sh.ids| * sh.max + sh.height(root)
  {
    var it := RootItem(env, root);
    ProperSubsetSize(Unused(sh, it), sh.ids, it.chain[0]);
    MulMonotone(|Unused(sh, it)| + 1, |sh.ids|, sh.max);
    MulSucc(|Unused(sh, it)|, sh.max);
  }

  // From a root with a NUL inside nothing can be identified: no link is followed.
  lemma {:induction false} NothingToFollow(env: Env, root: Path)
    requires StopsAtNul(env.k) && !NulFree(root) && env.conf.followLinks && !Panics(env, RootItem(env, root))
    ensures Bounded(env, RootItem(env, root), 1)
  {
    var it := RootItem(env, root);
    forall c | c in Run(env, it).spawn ensures false {
      var e := SpawnReason(env, it, c);
      JoinNulFree(root, e.name);
    }
  }

  /** The symlink-following walk, with no depth limit, of a finite file system is finite:
      at most D * H levels for D directory identities and plain chains of at most H (one
      more round of H if the root itself could not be identified). */
  lemma {:induction false} FollowingWalkIsFinite(env: Env, sh: Shape, root: Path)
    requires Finite(env.k, sh) && Addressable(env.k, root)
    requires env.conf.followLinks && !Panics(env, RootItem(env, root))
    ensures Bounded(env, RootItem(env, root), (|sh.ids| + 1) * sh.max)
    ensures env.k.stat(root).Info? && env.k.stat(root).mode == ModeDir ==>
      Bounded(env, RootItem(env, root), |sh.ids| * sh.max)
  {
    if NulFree(root) {
      NulFreeWalkIsFinite(env, sh, root);
    } else {
      NothingToFollow(env, root);
      assert sh.height(root) < sh.max;
      MulMonotone(1, |sh.ids| + 1, sh.max);
      BoundedMore(env, RootItem(env, root), 1, (|sh.ids| + 1) * sh.max);
    }
  }

  lemma {:induction false} NulFreeWalkIsFinite(env: Env, sh: Shape, root: Path)
    requires Finite(env.k, sh) && NulFree(root) && env.conf.followLinks && !Panics(env, RootItem(env, root))
    ensures Bounded(env, RootItem(env, root), (|sh.ids| + 1) * sh.max)
    ensures env.k.stat(root).Info? && env.k.stat(root).mode == ModeDir ==>
      Bounded(env, RootItem(env, root), |sh.ids| * sh.max)
  {
    var it := RootItem(env, root);
    SubsetSize(Unused(sh, it), sh.ids);
    MulMonotone(|Unused(sh, it)|, |sh.ids|, sh.max);
    MulSucc(|sh.ids|, sh.max);
    RankBounds(env, sh, it, (|sh.ids| + 1) * sh.max);
    if env.k.stat(root).Info? && env.k.stat(root).mode == ModeDir {
      RootRank(env, sh, root);
      RankBounds(env, sh, it, |sh.ids| * sh.max);
    }
  }

  // The length already spent plus what the measure still allows.
  ghost function ShortChains(env: Env, sh: Shape, limit: nat): Goal {
    Goal(env, (it: Item) => NulFree(it.path) && it.chain != [] && |it.chain| + Rank(env, sh, it) <= limit, limit)
  }

  lemma ShortChainsIsClosed(env: Env, sh: Shape, limit: nat)
    requires Finite(env.k, sh) && env.conf.followLinks
    ensures Closed(ShortChains(env, sh, limit))
  {
    var g := ShortChains(env, sh, limit);
    forall it: Item | g.ok(it)
      ensures Bounded(env, it, limit) && forall c :: c in Run(env, it).spawn ==> g.ok(c)
    {
      RankBounds(env, sh, it, limit);
      forall c | c in Run(env, it).spawn ensures g.ok(c) {
        SpawnDescends(env, sh, it, c);
      }
    }
  }

  /** In every reachable state of every schedule, the ancestor chain of every item in play
      is at most D * H long, although plain descent may repeat an identity. */
  lemma {:induction false} AncestorChainsAreShort(env: Env, sh: Shape, root: Path, workers: nat, sched: seq<Action>)
    requires Finite(env.k, sh) && Addressable(env.k, root) && env.conf.followLinks
    requires env.k.stat(root).Info? && env.k.stat(root).mode == ModeDir
    requires LegalRun(env, Init(env, root, workers), sched)
    ensures var s := Exec(env, Init(env, root, workers), sched);
      Wf(s) && forall t :: InPlay(s, t) ==>
        Names(s.heap, t.ancestor) && |Chain(s.heap, t.ancestor)| <= |sh.ids| * sh.max
  {
    hide Run, Panics, Bounded, Closed, Init, InPlay;
    var g := ShortChains(env, sh, |sh.ids| * sh.max);
    ShortChainsIsClosed(env, sh, |sh.ids| * sh.max);
    StatMeansNulFree(env.k, root);
    RootRank(env, sh, root);
    ReachableItemsAreOk(g, root, workers, sched);
    var s := Exec(env, Init(env, root, workers), sched);
    forall t | InPlay(s, t)
      ensures Names(s.heap, t.ancestor) && |Chain(s.heap, t.ancestor)| <= |sh.ids| * sh.max
    {
      assert g.ok(ItemOf(s.heap, t));
    }
  }

  lemma OneDeeper(env: Env, it: Item, c: Item)
    requires 0 < env.conf.maxDepth < 0xFFFF_FFFF && it.depth <= env.conf.maxDepth && !Panics(env, it)
    requires c in Run(env, it).spawn
    ensures c.depth == it.depth + 1 <= env.conf.maxDepth && !Panics(env, c)
  {
    var e := SpawnReason(env, it, c);
  }

  lemma {:induction false} LimitBounds(env: Env, it: Item, n: nat)
    requires 0 < env.conf.maxDepth < 0xFFFF_FFFF && !Panics(env, it)
    requires it.depth <= env.conf.maxDepth < it.depth + n
    ensures Bounded(env, it, n)
    decreases n
  {
    forall c | c in Run(env, it).spawn ensures Bounded(env, c, n - 1) {
      OneDeeper(env, it, c);
      LimitBounds(env, c, n - 1);
    }
  }

  /** A depth limit alone makes any walk finite, on any file system whatever. */
  lemma {:induction false} LimitedWalkIsFinite(env: Env, root: Path)
    requires 0 < env.conf.maxDepth < 0xFFFF_FFFF && !Panics(env, RootItem(env, root))
    ensures Bounded(env, RootItem(env, root), env.conf.maxDepth)
  {
    LimitBounds(env, RootItem(env, root), env.conf.maxDepth);
  }

  ghost function Shallow(env: Env, n: nat): Goal {
    Goal(env, (it: Item) => Bounded(env, it, n) && it.depth <= env.conf.maxDepth, n)
  }

  lemma ShallowIsClosed(env: Env)
    requires 0 < env.conf.maxDepth < 0xFFFF_FFFF
    ensures Closed(Shallow(env, env.conf.maxDepth))
  {
    hide Run, Panics;
    var g := Shallow(env, env.conf.maxDepth);
    forall it: Item, c: Item | g.ok(it) && c in Run(env, it).spawn ensures g.ok(c) {
      OneDeeper(env, it, c);
      BoundedMore(env, c, g.n - 1, g.n);
    }
  }

  /** In every reachable state of a limited walk no item in play is deeper than the limit,
      so the next depth, computed by the worker that handles it, never wraps. */
  lemma {:induction false} DepthsStayWithinLimit(env: Env, root: Path, workers: nat, sched: seq<Action>)
    requires 0 < env.conf.maxDepth < 0xFFFF_FFFF && !Panics(env, RootItem(env, root))
    requires LegalRun(env, Init(env, root, workers), sched)
    ensures forall t :: InPlay(Exec(env, Init(env, root, workers), sched), t) ==>
      t.depth <= env.conf.maxDepth && Inc32(t.depth) == t.depth + 1
  {
    hide Run, Panics, Bounded, Closed, Init, InPlay;
    var g := Shallow(env, env.conf.maxDepth);
    LimitedWalkIsFinite(env, root);
    ShallowIsClosed(env);
    ReachableItemsAreOk(g, root, workers, sched);
    var s := Exec(env, Init(env, root, workers), sched);
    forall t | InPlay(s, t) ensures t.depth <= env.conf.maxDepth {
      assert g.ok(ItemOf(s.heap, t));
    }
  }

  /** Everything together: on a finite file system a walk that follows links ends under
      every schedule, with every worker idle exactly after the same number of steps,
      having published the specified batches. */
  lemma FollowingWalkIsCorrect(env: Env, sh: Shape, root: Path, workers: nat, sched: seq<Action>)
    requires Finite(env.k, sh) && Addressable(env.k, root)
    requires env.conf.followLinks && !Panics(env, RootItem(env, root))
    requires LegalRun(env, Init(env, root, workers), sched)
    ensures var s, n := Exec(env, Init(env, root, workers), sched), (|sh.ids| + 1) * sh.max;
      && |sched| <= |EventsOf(env, RootItem(env, root), n)|
      && (Complete(s) <==> |sched| == |EventsOf(env, RootItem(env, root), n)|)
      && (Complete(s) ==> multiset(Batches(s.events)) == multiset(Spec(env, RootItem(env, root), n)))
  {
    var n := (|sh.ids| + 1) * sh.max;
    FollowingWalkIsFinite(env, sh, root);
    EveryScheduleTerminates(env, root, n, workers, sched);
    if Complete(Exec(env, Init(env, root, workers), sched)) {
      CompletedWalkPublishesSpec(env, root, n, workers, sched);
    }
  }
}
