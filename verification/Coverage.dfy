/**
  Which directories a walk publishes, said without running it: the logical paths from the
  root on which every step is a listed subdirectory or, when links are followed, a link to
  a directory that is not at or above the link itself.
 */
module Coverage {
  import opened Paths
  import opened Walk
  import opened Pool
  import opened Schedules
  import opened Termination
  import opened Cycles
  import opened FiniteFs

  predicate IsSub(e: Entry, name: Name) {
    e.typ == DT_DIR && e.name == name
  }

  ghost predicate ListsSub(env: Env, dir: Path, name: Name) {
    && env.k.readdir(dir).Listing?
    && exists i :: 0 <= i < |Seen(env, dir)| && IsSub(Seen(env, dir)[i], name)
  }

  ghost predicate LinkToDir(k: Kernel, p: Path) {
    k.stat(p).Info? && k.stat(p).mode == ModeDir
  }

  // The walk goes on from dir to the child of that name.
  ghost predicate StepsTo(env: Env, root: Path, dir: Path, name: Name) {
    || ListsSub(env, dir, name)
    || (&& env.conf.followLinks && ListsLink(env, dir, name) && LinkToDir(env.k, Join(dir, name))
        && !LeadsUp(env.k, root, dir, name))
  }

  // A path the walk can take, from a directory down, and the depth it stays within.
  ghost predicate Descent(env: Env, root: Path, from: Path, names: seq<Name>) {
    forall i :: 0 <= i < |names| ==> StepsTo(env, root, JoinAll(from, names[..i]), names[i])
  }

  ghost predicate WithinLimit(conf: Conf, depth: nat) {
    conf.maxDepth != 0 ==> depth <= conf.maxDepth
  }

  // What is assumed of the file system: nothing for a plain walk.
  ghost predicate Setting(env: Env, dev: nat, root: Path) {
    && (env.conf.followLinks ==> OneDevice(env.k, dev) && GoodNames(env.k) && Addressable(env.k, root))
    && env.conf.maxDepth != 0xFFFF_FFFF
  }

  ghost predicate Placed(env: Env, root: Path, it: Item) {
    && !Panics(env, it) && (env.conf.followLinks ==> ChainIsPath(env.k, root, it))
    && WithinLimit(env.conf, it.depth)
  }

  lemma {:induction false} JoinAllCons(root: Path, a: Name, rest: seq<Name>)
    ensures JoinAll(root, [a] + rest) == JoinAll(Join(root, a), rest)
    decreases |rest|
  {
    var all := [a] + rest;
    if rest == [] {
      assert all[..|all| - 1] == [];
    } else {
      assert all[..|all| - 1] == [a] + rest[..|rest| - 1];
      JoinAllCons(root, a, rest[..|rest| - 1]);
    }
  }

  lemma DescentCons(env: Env, root: Path, from: Path, a: Name, rest: seq<Name>)
    ensures Descent(env, root, from, [a] + rest) <==>
      StepsTo(env, root, from, a) && Descent(env, root, Join(from, a), rest)
  {
    var all := [a] + rest;
    assert all[..0] == [];
    forall i | 0 <= i < |rest| ensures JoinAll(from, all[..i + 1]) == JoinAll(Join(from, a), rest[..i]) {
      assert all[..i + 1] == [a] + rest[..i];
      JoinAllCons(from, a, rest[..i]);
    }
    if Descent(env, root, from, all) {
      assert StepsTo(env, root, JoinAll(from, all[..0]), all[0]);
      forall i | 0 <= i < |rest| ensures StepsTo(env, root, JoinAll(Join(from, a), rest[..i]), rest[i]) {
        assert StepsTo(env, root, JoinAll(from, all[..i + 1]), all[i + 1]);
      }
    }
    if StepsTo(env, root, from, a) && Descent(env, root, Join(from, a), rest) {
      forall i | 0 <= i < |all| ensures StepsTo(env, root, JoinAll(from, all[..i]), all[i]) {
        if i > 0 {
          assert StepsTo(env, root, JoinAll(Join(from, a), rest[..i - 1]), rest[i - 1]);
          assert JoinAll(from, all[..i - 1 + 1]) == JoinAll(Join(from, a), rest[..i - 1]);
        }
      }
    }
  }

  // ---------------------------------------------------------- what one directory reports

  // What becomes of an entry: how it is shown, and the error reported for it.
  ghost function Show(env: Env, root: Path, dir: Path, e: Entry): (seq<Entry>, seq<DirErr>) {
    if !env.conf.followLinks || e.typ != DT_LNK then ([e], []) else
    match env.k.stat(Join(dir, e.name))
    case StatFailed => ([], [DirErr(e.name, Dangling)])
    case NoSys(_) => ([e], [DirErr(e.name, NoDevIno)])
    case Info(mode, _) =>
      if mode != ModeDir then ([e.(typ := DTypeFromInfo(mode))], [])
      else if LeadsUp(env.k, root, dir, e.name) then ([], [DirErr(e.name, Cycle)])
      else ([e.(typ := DT_DIR)], [])
  }

  ghost function ShowAll(env: Env, root: Path, dir: Path, es: seq<Entry>): (seq<Entry>, seq<DirErr>) {
    if es == [] then ([], []) else
    var (shown, errs) := Show(env, root, dir, es[0]);
    var (more, others) := ShowAll(env, root, dir, es[1..]);
    (shown + more, errs + others)
  }

  // The batch of a directory, said by its path alone.
  ghost function Report(env: Env, root: Path, dir: Path): Batch {
    match env.k.readdir(dir)
    case ReadFailed(e) => Batch(dir, [], [DirErr(dir, CannotRead(e))])
    case Listing(_) =>
      var (shown, errs) := ShowAll(env, root, dir, Seen(env, dir));
      Batch(dir, shown, errs)
  }

  lemma {:induction false} PlainShowAll(env: Env, root: Path, dir: Path, es: seq<Entry>)
    requires !env.conf.followLinks
    ensures ShowAll(env, root, dir, es) == (es, [])
    decreases |es|
  {
    if es == [] {
    } else {
      PlainShowAll(env, root, dir, es[1..]);
      var none: seq<DirErr> := [];
      assert es == [es[0]] + es[1..] && none + none == none;
    }
  }

  lemma ResolveShows(env: Env, root: Path, it: Item, e: Entry)
    requires env.conf.followLinks && ChainIsPath(env.k, root, it) && (NeedsDev(env, it, e) ==> it.chain != [])
    ensures (Resolve(env, it, e).kept, Resolve(env, it, e).errs) == Show(env, root, it.path, e)
  {
    hide Below, IdAbove, ChainIsPath;
    if env.k.stat(Join(it.path, e.name)).Info? {
      ChainMembership(env.k, root, it, env.k.stat(Join(it.path, e.name)).id);
    }
  }

  lemma {:induction false} ResolveAllShows(env: Env, root: Path, it: Item, es: seq<Entry>)
    requires env.conf.followLinks && ChainIsPath(env.k, root, it) && HasDev(env, it, es)
    ensures (ResolveAll(env, it, es).kept, ResolveAll(env, it, es).errs) == ShowAll(env, root, it.path, es)
    decreases |es|
  {
    if es == [] {
    } else {
      ResolveShows(env, root, it, es[0]);
      ResolveAllShows(env, root, it, es[1..]);
    }
  }

  // On one device the chain can be forgotten: the report depends on the path alone.
  lemma RunReports(env: Env, root: Path, it: Item)
    requires Placed(env, root, it)
    ensures Run(env, it).batch == Report(env, root, it.path) && Run(env, it).batch.dir == it.path
  {
    if env.k.readdir(it.path).Listing? {
      if env.conf.followLinks {
        ResolveAllShows(env, root, it, Seen(env, it.path));
      } else {
        PlainShowAll(env, root, it.path, Seen(env, it.path));
      }
    }
  }

  // ----------------------------------------------------------- what one directory spawns

  lemma {:induction false} ResolveAllHas(env: Env, it: Item, es: seq<Entry>, i: nat, c: Item)
    requires HasDev(env, it, es) && i < |es| && c in Resolve(env, it, es[i]).spawn
    ensures c in ResolveAll(env, it, es).spawn
    decreases |es|
  {
    if i > 0 {
      ResolveAllHas(env, it, es[1..], i - 1, c);
    }
  }

  // A listed subdirectory, or a link to follow, is spawned.
  lemma StepIsSpawned(env: Env, root: Path, it: Item, name: Name) returns (c: Item)
    requires Placed(env, root, it) && !AtMaxDepth(env.conf, it.depth) && StepsTo(env, root, it.path, name)
    ensures c in Run(env, it).spawn && c.path == Join(it.path, name)
  {
    var es := Seen(env, it.path);
    var i: nat :| i < |es| && (if ListsSub(env, it.path, name) then IsSub(es[i], name) else IsLink(es[i], name));
    if !env.conf.followLinks {
      PlainSpawnHas(it, es, i);
      c := Item(Join(it.path, name), Inc32(it.depth), []);
    } else {
      if es[i].typ == DT_LNK {
        ChainMembership(env.k, root, it, env.k.stat(Join(it.path, name)).id);
      }
      c := Resolve(env, it, es[i]).spawn[0];
      ResolveAllHas(env, it, es, i, c);
    }
  }

  // And nothing else is.
  lemma SpawnIsStep(env: Env, root: Path, it: Item, c: Item) returns (name: Name)
    requires Placed(env, root, it) && c in Run(env, it).spawn
    ensures !AtMaxDepth(env.conf, it.depth) && StepsTo(env, root, it.path, name)
    ensures c.path == Join(it.path, name) && c.depth == Inc32(it.depth)
  {
    var e := SpawnReason(env, it, c);
    name := e.name;
    var i: nat :| i < |Seen(env, it.path)| && Seen(env, it.path)[i] == e;
    if e.typ == DT_DIR {
      assert IsSub(Seen(env, it.path)[i], name);
    } else {
      assert IsLink(Seen(env, it.path)[i], name);
      ChainMembership(env.k, root, it, env.k.stat(c.path).id);
    }
  }

  lemma {:induction false} ChildIsPlaced(env: Env, dev: nat, root: Path, it: Item, c: Item, n: nat)
    requires Setting(env, dev, root) && Placed(env, root, it) && Bounded(env, it, n) && c in Run(env, it).spawn
    ensures Placed(env, root, c)
    ensures env.conf.maxDepth != 0 ==> c.depth == it.depth + 1
  {
    hide Run, Panics, StepsTo, ChainIsPath, OneDevice, GoodNames;
    var name := SpawnIsStep(env, root, it, c);
    assert Bounded(env, c, n - 1);
    if env.conf.followLinks {
      SpawnKeepsPath(env, dev, root, it, c);
    }
  }

  // ------------------------------------------------------------------- whole subtrees

  lemma {:induction false} InSpecAll(env: Env, its: seq<Item>, n: nat, b: Batch)
    ensures b in SpecAll(env, its, n) <==> exists c :: c in its && b in Spec(env, c, n)
    decreases |its|
  {
    if its == [] {
    } else {
      InSpecAll(env, its[1..], n, b);
      if b in SpecAll(env, its[1..], n) {
        var c :| c in its[1..] && b in Spec(env, c, n);
        assert c in its;
      }
      if c :| c in its && b in Spec(env, c, n) {
        assert c == its[0] || c in its[1..];
      }
    }
  }

  lemma {:induction false} BoundedIsPositive(env: Env, it: Item, n: nat)
    requires Bounded(env, it, n)
    ensures n > 0 && !Panics(env, it)
  {
  }

  lemma SpecStep(env: Env, it: Item, n: nat, b: Batch)
    requires Bounded(env, it, n)
    ensures b in Spec(env, it, n) <==>
      b == Run(env, it).batch || exists c :: c in Run(env, it).spawn && b in Spec(env, c, n - 1)
    ensures forall c :: c in Run(env, it).spawn ==> Bounded(env, c, n - 1)
  {
    hide Run, Panics;
    InSpecAll(env, Run(env, it).spawn, n - 1, b);
  }

  // Deeper by k levels than the item, and still within the limit.
  ghost predicate Reachable(env: Env, root: Path, it: Item, names: seq<Name>, p: Path) {
    && Descent(env, root, it.path, names) && p == JoinAll(it.path, names)
    && WithinLimit(env.conf, it.depth + |names|)
  }

  lemma PublishedIsReachable(env: Env, dev: nat, root: Path, it: Item, n: nat, b: Batch)
    returns (names: seq<Name>)
    requires Setting(env, dev, root) && Placed(env, root, it) && Bounded(env, it, n) && b in Spec(env, it, n)
    ensures Reachable(env, root, it, names, b.dir)
    ensures b == Report(env, root, b.dir)
    decreases n
  {
    hide Run, Panics, Setting, Report, StepsTo, Spec, SpecAll, Bounded, ChainIsPath;
    BoundedIsPositive(env, it, n);
    SpecStep(env, it, n, b);
    RunReports(env, root, it);
    if b == Run(env, it).batch {
      names := [];
    } else {
      hide Placed, Descent, JoinAll;
      var c :| c in Run(env, it).spawn && b in Spec(env, c, n - 1);
      ChildIsPlaced(env, dev, root, it, c, n);
      var rest := PublishedIsReachable(env, dev, root, c, n - 1, b);
      var name := SpawnIsStep(env, root, it, c);
      DescentCons(env, root, it.path, name, rest);
      JoinAllCons(it.path, name, rest);
      names := [name] + rest;
    }
  }

  lemma RoomLeft(conf: Conf, depth: uint32, k: nat)
    requires conf.maxDepth != 0xFFFF_FFFF && k > 0 && WithinLimit(conf, depth + k)
    ensures !AtMaxDepth(conf, depth)
  {
  }

  lemma FirstStep(env: Env, dev: nat, root: Path, it: Item, n: nat, names: seq<Name>) returns (c: Item)
    requires Setting(env, dev, root) && Placed(env, root, it) && Bounded(env, it, n) && names != []
    requires Descent(env, root, it.path, names) && WithinLimit(env.conf, it.depth + |names|)
    ensures c in Run(env, it).spawn && Placed(env, root, c) && Bounded(env, c, n - 1)
    ensures Descent(env, root, c.path, names[1..]) && WithinLimit(env.conf, c.depth + |names[1..]|)
    ensures JoinAll(c.path, names[1..]) == JoinAll(it.path, names)
  {
    hide Run, Panics, StepsTo, Descent, ChainIsPath;
    assert names == [names[0]] + names[1..];
    RoomLeft(env.conf, it.depth, |names|);
    DescentCons(env, root, it.path, names[0], names[1..]);
    JoinAllCons(it.path, names[0], names[1..]);
    c := StepIsSpawned(env, root, it, names[0]);
    ChildIsPlaced(env, dev, root, it, c, n);
  }

  lemma ReachableIsPublished(env: Env, dev: nat, root: Path, it: Item, n: nat, names: seq<Name>)
    returns (b: Batch)
    requires Setting(env, dev, root) && Placed(env, root, it) && Bounded(env, it, n)
    requires Descent(env, root, it.path, names) && WithinLimit(env.conf, it.depth + |names|)
    ensures b in Spec(env, it, n) && b.dir == JoinAll(it.path, names)
    decreases n
  {
    hide Run, Panics, Setting, Placed, Descent, WithinLimit, StepsTo, Report, Spec, SpecAll, Bounded;
    BoundedIsPositive(env, it, n);
    if names == [] {
      SpecStep(env, it, n, Run(env, it).batch);
      RunReports(env, root, it);
      b := Run(env, it).batch;
    } else {
      var c := FirstStep(env, dev, root, it, n, names);
      b := ReachableIsPublished(env, dev, root, c, n - 1, names[1..]);
      SpecStep(env, it, n, b);
    }
  }

  // ------------------------------------------------------------------------ theorems

  lemma {:induction false} RootIsPlaced(env: Env, root: Path, n: nat)
    requires Bounded(env, RootItem(env, root), n) && (env.conf.followLinks ==> env.k.stat(root).Info?)
    ensures Placed(env, root, RootItem(env, root))
  {
    if env.conf.followLinks {
      RootOnPath(env, root, n);
    }
  }

  // p is a path the walk from root should reach.
  ghost predicate InScope(env: Env, root: Path, p: Path) {
    exists names :: Descent(env, root, root, names) && p == JoinAll(root, names)
                    && WithinLimit(env.conf, 1 + |names|)
  }

  ghost predicate Lists(published: seq<Batch>, p: Path) {
    exists i :: 0 <= i < |published| && published[i].dir == p
  }

  // A batch for every path in scope and for no other, never two, each a true report.
  ghost predicate Covers(env: Env, root: Path, published: seq<Batch>) {
    && Distinct(published)
    && (forall p: Path :: InScope(env, root, p) <==> Lists(published, p))
    && (forall i :: 0 <= i < |published| ==> published[i] == Report(env, root, published[i].dir))
  }

  lemma {:induction false} SpecCovers(env: Env, dev: nat, root: Path, n: nat)
    requires Setting(env, dev, root) && GoodNames(env.k)
    requires Bounded(env, RootItem(env, root), n) && (env.conf.followLinks ==> env.k.stat(root).Info?)
    ensures Covers(env, root, Spec(env, RootItem(env, root), n))
  {
    hide Run, Panics, Setting, StepsTo, Descent, Report;
    var it := RootItem(env, root);
    var spec := Spec(env, it, n);
    DirsAreDistinct(env, it, n);
    RootIsPlaced(env, root, n);
    forall p: Path | InScope(env, root, p) ensures Lists(spec, p) {
      var names :| Descent(env, root, root, names) && p == JoinAll(root, names) && WithinLimit(env.conf, 1 + |names|);
      var b := ReachableIsPublished(env, dev, root, it, n, names);
      assert Lists(spec, b.dir);
    }
    forall i | 0 <= i < |spec| ensures InScope(env, root, spec[i].dir) && spec[i] == Report(env, root, spec[i].dir) {
      var names := PublishedIsReachable(env, dev, root, it, n, spec[i]);
    }
  }

  lemma CoversUpToOrder(env: Env, root: Path, a: seq<Batch>, b: seq<Batch>)
    requires Covers(env, root, a) && multiset(a) == multiset(b)
    ensures Covers(env, root, b)
  {
    DistinctUpToOrder(a, b);
    forall i | 0 <= i < |a| ensures Lists(b, a[i].dir) {
      assert a[i] in multiset(b);
    }
    forall i | 0 <= i < |b| ensures Lists(a, b[i].dir) && b[i] == Report(env, root, b[i].dir) {
      assert b[i] in multiset(a);
    }
  }

  /** Coverage, for any number of workers and any schedule: a completed walk has published
      a batch for a path exactly when the path is in scope, never two, and each says
      exactly what its directory should report. */
  lemma {:induction false} CompletedWalkCovers(env: Env, dev: nat, root: Path, n: nat, workers: nat, sched: seq<Action>)
    requires Setting(env, dev, root) && GoodNames(env.k)
    requires Bounded(env, RootItem(env, root), n) && (env.conf.followLinks ==> env.k.stat(root).Info?)
    requires LegalRun(env, Init(env, root, workers), sched)
    requires Complete(Exec(env, Init(env, root, workers), sched))
    ensures Covers(env, root, Batches(Exec(env, Init(env, root, workers), sched).events))
  {
    CompletedWalkPublishesSpec(env, root, n, workers, sched);
    SpecCovers(env, dev, root, n);
    CoversUpToOrder(env, root, Spec(env, RootItem(env, root), n),
                    Batches(Exec(env, Init(env, root, workers), sched).events));
  }

  /** The same for every finite file system, on one device if links are followed, and every
      depth limit but the one that stops nothing. */
  lemma {:induction false} EveryFiniteFsIsCovered(fs: Fs, dev: nat, root: Path, conf: Conf, workers: nat,
                                                  sched: seq<Action>)
    requires WellFormed(fs) && NulFree(root)
    requires (conf.followLinks ==> SingleDevice(fs, dev)) && conf.maxDepth != 0xFFFF_FFFF
    requires LegalRun(EnvOf(fs, root, conf), Init(EnvOf(fs, root, conf), root, workers), sched)
    requires Complete(Exec(EnvOf(fs, root, conf), Init(EnvOf(fs, root, conf), root, workers), sched))
    ensures var env := EnvOf(fs, root, conf);
      Covers(env, root, Batches(Exec(env, Init(env, root, workers), sched).events))
  {
    var env := EnvOf(fs, root, conf);
    EveryFsIsFinite(fs, root);
    if conf.followLinks {
      EverySingleDeviceFs(fs, root, dev);
      EveryFsWalkIsFinite(fs, root, conf);
      CompletedWalkCovers(env, dev, root, LevelBound(fs), workers, sched);
    } else {
      PlainWalkIsFinite(env, ShapeOf(fs, root), root);
      CompletedWalkCovers(env, dev, root, ShapeOf(fs, root).height(root) + 1, workers, sched);
    }
  }

  // Distinct directories survive reordering.
  lemma DistinctUpToOrder(a: seq<Batch>, b: seq<Batch>)
    requires Distinct(a) && multiset(a) == multiset(b)
    ensures Distinct(b)
  {
    forall i, j | 0 <= i < j < |b| ensures b[i].dir != b[j].dir {
      assert b == b[..j] + [b[j]] + b[j + 1..];
      if b[i].dir == b[j].dir {
        assert b[i] in multiset(a) && b[j] in multiset(a);
        var x: nat :| x < |a| && a[x] == b[i];
        var y: nat :| y < |a| && a[y] == b[j];
        assert x == y;
        OnceInDistinct(a, x);
      }
    }
  }

  lemma OnceInDistinct(a: seq<Batch>, x: nat)
    requires Distinct(a) && x < |a|
    ensures multiset(a)[a[x]] == 1
  {
    assert a == a[..x] + [a[x]] + a[x + 1..];
  }
}
