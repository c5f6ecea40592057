/**
  What holds of every item in play while the walk runs over the arena, said of the chain
  that can be read from memory at the item's address.
 */
module ArenaStates {
  import opened Chains
  import opened Paths
  import opened Walk
  import opened Ancestors
  import opened ArenaWalk
  import opened Refinement
  import opened ArenaRuns
  import opened PoolRuns
  import opened Schedules
  import opened Termination
  import opened Cycles
  import opened OpenedPaths

  // The items a worker has in hand.
  function HeldWork(x: Hand): seq<Work> {
    match x
    case Scanning(t, _, _, _, spawn) => [t] + spawn
    case Checking(t, _, _, _, spawn, _, _) => [t] + spawn
    case Pushing(t, _, _, _, spawn, _) => [t] + spawn
    case Ready(_, spawn) => spawn
    case Spawning(spawn) => spawn
    case _ => []
  }

  ghost predicate HoldsWork(s: State, w: nat, x: Work) {
    w < |s.workers| && x in HeldWork(s.workers[w])
  }

  ghost predicate WorkInPlay(s: State, x: Work) {
    x in s.pending || exists w :: HoldsWork(s, w, x)
  }

  // The item that the address stands for: its chain is what memory holds.
  ghost predicate ReadsAs(s: State, x: Work, it: Item) {
    it.path == x.path && it.depth == x.depth && IsChain(s.arena, x.ancestor, it.chain)
  }

  lemma ListedWork(s: G.Store<Link>, xs: seq<Work>, ts: seq<P.Task>, x: Work) returns (t: P.Task)
    requires WorksAre(s, xs, ts) && x in xs
    ensures t in ts && WorkIs(s, x, t)
  {
    var i :| 0 <= i < |xs| && xs[i] == x;
    t := ts[i];
  }

  lemma HeldWorkHasTask(env: Env, s: G.Store<Link>, h: seq<Knot>, pc: G.Pc<Link>, x: Hand, y: P.Worker, v: Work)
    returns (t: P.Task)
    requires ParentsFirst(h) && HandIs(env, s, h, pc, x, y) && v in HeldWork(x)
    ensures t in P.Held(y) && WorkIs(s, v, t)
  {
    hide SearchGoesOn, Pushes, WorkIs, Denotes;
    if (x.Scanning? || x.Checking? || x.Pushing?) && v == x.task {
      t := y.task;
    } else if x.Pushing? && pc.Writing? {
      t := ListedWork(s, x.spawn, y.spawn[..|x.spawn|], v);
    } else {
      t := ListedWork(s, x.spawn, y.spawn, v);
    }
  }

  lemma WorkHasTask(env: Env, c: State, a: P.State, x: Work) returns (t: P.Task)
    requires Refines(env, c, a) && WorkInPlay(c, x)
    ensures P.InPlay(a, t) && WorkIs(c.arena, x, t)
  {
    hide HandIs;
    if x in c.pending {
      t := ListedWork(c.arena, c.pending, a.pending, x);
    } else {
      var w: nat :| HoldsWork(c, w, x);
      t := HeldWorkHasTask(env, c.arena, a.heap, c.arena.threads[w], c.workers[w], a.workers[w], x);
      assert P.Holds(a, w, t);
    }
  }

  lemma WorkReadsItem(env: Env, c: State, a: P.State, x: Work, t: P.Task)
    requires Refines(env, c, a) && WorkIs(c.arena, x, t)
    ensures Names(a.heap, t.ancestor) && ReadsAs(c, x, P.ItemOf(a.heap, t))
  {
    DenotesNames(c.arena, a.heap, x.ancestor, t.ancestor);
    if t.ancestor.Some? {
      MemoryHoldsChain(c.arena, a.heap, x.ancestor, t.ancestor.value);
    }
  }

  // An item can be read in one way only.
  lemma ReadsAsOne(s: State, x: Work, it: Item, it': Item)
    requires ReadsAs(s, x, it) && ReadsAs(s, x, it')
    ensures it == it'
  {
    ChainIsUnique(s.arena, x.ancestor, it.chain, it'.chain);
  }

  /** Whatever spawning keeps holds of every item in play of every reachable state, read
      from memory through its address. */
  lemma ReachableWorkIsOk(g: Goal, root: Path, workers: nat, sched: seq<P.Action>, x: Work) returns (it: Item)
    requires Closed(g) && g.ok(RootItem(g.env, root))
    requires ArenaWalk.LegalRun(g.env, ArenaWalk.Init(g.env, root, workers), sched)
    requires WorkInPlay(ArenaWalk.Exec(g.env, ArenaWalk.Init(g.env, root, workers), sched), x)
    ensures ReadsAs(ArenaWalk.Exec(g.env, ArenaWalk.Init(g.env, root, workers), sched), x, it) && g.ok(it)
  {
    hide Closed, Refines, WorkInPlay, P.InPlay, ReadsAs, WorkIs, RootItem;
    var sched' := EveryArenaRunIsAPoolRun(g.env, root, workers, sched);
    var c := ArenaWalk.Exec(g.env, ArenaWalk.Init(g.env, root, workers), sched);
    var a := S.Exec(g.env, P.Init(g.env, root, workers), sched');
    ReachableItemsAreOk(g, root, workers, sched');
    var t := WorkHasTask(g.env, c, a, x);
    WorkReadsItem(g.env, c, a, x, t);
    it := P.ItemOf(a.heap, t);
  }

  // The chain in memory at the item's address, if it is a chain.
  ghost predicate ChainWithin(s: State, x: Work, n: nat) {
    exists ids :: IsChain(s.arena, x.ancestor, ids) && |ids| <= n
  }

  /** In memory too, every ancestor chain is at most D * H long. */
  lemma {:induction false} ArenaChainsAreShort(env: Env, sh: Shape, root: Path, workers: nat, sched: seq<P.Action>)
    requires Finite(env.k, sh) && Addressable(env.k, root) && env.conf.followLinks
    requires env.k.stat(root).Info? && env.k.stat(root).mode == ModeDir
    requires ArenaWalk.LegalRun(env, ArenaWalk.Init(env, root, workers), sched)
    ensures var c := ArenaWalk.Exec(env, ArenaWalk.Init(env, root, workers), sched);
      forall x :: WorkInPlay(c, x) ==> ChainWithin(c, x, |sh.ids| * sh.max)
  {
    hide Closed, WorkInPlay, IsChain, Finite, Rank, RootItem;
    var g := ShortChains(env, sh, |sh.ids| * sh.max);
    ShortRoot(env, sh, root);
    var c := ArenaWalk.Exec(env, ArenaWalk.Init(env, root, workers), sched);
    forall x | WorkInPlay(c, x) ensures ChainWithin(c, x, |sh.ids| * sh.max) {
      var it := ReachableWorkIsOk(g, root, workers, sched, x);
      assert IsChain(c.arena, x.ancestor, it.chain);
    }
  }

  lemma ShortRoot(env: Env, sh: Shape, root: Path)
    requires Finite(env.k, sh) && Addressable(env.k, root) && env.conf.followLinks
    requires env.k.stat(root).Info? && env.k.stat(root).mode == ModeDir
    ensures var g := ShortChains(env, sh, |sh.ids| * sh.max); Closed(g) && g.ok(RootItem(env, root))
  {
    hide Closed;
    ShortChainsIsClosed(env, sh, |sh.ids| * sh.max);
    StatMeansNulFree(env.k, root);
    RootRank(env, sh, root);
  }

  /** No worker ever holds an item deeper than the limit. */
  lemma {:induction false} ArenaDepthsStayWithinLimit(env: Env, root: Path, workers: nat, sched: seq<P.Action>)
    requires 0 < env.conf.maxDepth < 0xFFFF_FFFF && !Panics(env, RootItem(env, root))
    requires ArenaWalk.LegalRun(env, ArenaWalk.Init(env, root, workers), sched)
    ensures var c := ArenaWalk.Exec(env, ArenaWalk.Init(env, root, workers), sched);
      forall x :: WorkInPlay(c, x) ==> x.depth <= env.conf.maxDepth && Inc32(x.depth) == x.depth + 1
  {
    hide Closed, WorkInPlay, IsChain, Bounded, Panics, ArenaWalk.LegalRun, ArenaWalk.Exec, ArenaWalk.Init;
    var g := Shallow(env, env.conf.maxDepth);
    LimitedWalkIsFinite(env, root);
    ShallowIsClosed(env);
    var c := ArenaWalk.Exec(env, ArenaWalk.Init(env, root, workers), sched);
    forall x | WorkInPlay(c, x) ensures x.depth <= env.conf.maxDepth {
      var it := ReachableWorkIsOk(g, root, workers, sched, x);
    }
  }

  // The chain in memory names the directories on the item's logical path.
  ghost predicate MemoryNamesPath(k: Kernel, root: Path, s: State, x: Work) {
    exists it :: ReadsAs(s, x, it) && ChainIsPath(k, root, it)
  }

  /** In memory too, the chain of an item names exactly the directories on its logical path,
      whichever worker pushed, holds or runs it. */
  lemma {:induction false} ArenaChainsNameLogicalPaths(env: Env, dev: nat, root: Path, n: nat, workers: nat,
                                                       sched: seq<P.Action>)
    requires OneDevice(env.k, dev) && GoodNames(env.k) && Addressable(env.k, root) && env.conf.followLinks
    requires env.k.stat(root).Info? && Bounded(env, RootItem(env, root), n)
    requires ArenaWalk.LegalRun(env, ArenaWalk.Init(env, root, workers), sched)
    ensures var c := ArenaWalk.Exec(env, ArenaWalk.Init(env, root, workers), sched);
      forall x :: WorkInPlay(c, x) ==> MemoryNamesPath(env.k, root, c, x)
  {
    hide Closed, WorkInPlay, ReadsAs, Bounded, ChainIsPath, OneDevice, GoodNames, RootItem;
    var g := OnPath(env, root, n);
    OnPathIsClosed(env, dev, root, n);
    RootOnPath(env, root, n);
    var c := ArenaWalk.Exec(env, ArenaWalk.Init(env, root, workers), sched);
    forall x | WorkInPlay(c, x) ensures MemoryNamesPath(env.k, root, c, x) {
      var it := ReachableWorkIsOk(g, root, workers, sched, x);
      assert ChainIsPath(env.k, root, it);
    }
  }

  lemma {:induction false} WorkFromRoot(env: Env, root: Path, workers: nat, sched: seq<P.Action>)
    requires GoodNames(env.k) && ArenaWalk.LegalRun(env, ArenaWalk.Init(env, root, workers), sched)
    ensures var c := ArenaWalk.Exec(env, ArenaWalk.Init(env, root, workers), sched);
      forall x :: WorkInPlay(c, x) ==> FromRoot(root, x.path)
  {
    hide WorkInPlay, P.InPlay, FromRoot, Refines, GoodNames;
    var sched' := EveryArenaRunIsAPoolRun(env, root, workers, sched);
    InPlayFromRoot(env, root, workers, sched');
    var c := ArenaWalk.Exec(env, ArenaWalk.Init(env, root, workers), sched);
    var a := S.Exec(env, P.Init(env, root, workers), sched');
    forall x | WorkInPlay(c, x) ensures FromRoot(root, x.path) {
      var t := WorkHasTask(env, c, a, x);
    }
  }

  /** And its path opens in full if and only if the root's does, whether or not the walk
      ends. */
  lemma {:induction false} ArenaPathsOpenInFullIff(env: Env, root: Path, workers: nat, sched: seq<P.Action>)
    requires GoodNames(env.k) && ArenaWalk.LegalRun(env, ArenaWalk.Init(env, root, workers), sched)
    ensures var c := ArenaWalk.Exec(env, ArenaWalk.Init(env, root, workers), sched);
      forall x :: WorkInPlay(c, x) ==> OpensLikeRoot(root, x.path)
  {
    hide WorkInPlay, OpensLikeRoot, SpelledFrom, GoodNames;
    WorkFromRoot(env, root, workers, sched);
  }

  /** Nor is a separator doubled in it. */
  lemma {:induction false} ArenaPathsDoubleNothing(env: Env, root: Path, workers: nat, sched: seq<P.Action>)
    requires GoodNames(env.k) && ArenaWalk.LegalRun(env, ArenaWalk.Init(env, root, workers), sched)
    ensures var c := ArenaWalk.Exec(env, ArenaWalk.Init(env, root, workers), sched);
      forall x :: WorkInPlay(c, x) ==> SpelledFrom(root, x.path)
  {
    hide WorkInPlay, OpensLikeRoot, SpelledFrom, GoodNames;
    WorkFromRoot(env, root, workers, sched);
  }
}
