/**
  Paths and identities: no directory path is published twice, and on a single device a
  link is reported as a cycle exactly when it leads to a logical ancestor.
 */
module Cycles {
  import opened Chains
  import opened Paths
  import opened Walk
  import opened Pool
  import opened PoolRuns
  import opened Schedules
  import opened Termination

  // What a directory guarantees about the names in it.
  ghost predicate GoodNames(k: Kernel) {
    forall p: Path :: k.readdir(p).Listing? ==> GoodListing(k.readdir(p).ds)
  }

  ghost predicate GoodListing(ds: seq<Dirent>) {
    && (forall i :: 0 <= i < |ds| ==> GoodName(ds[i].name))
    && (forall i, j :: 0 <= i < j < |ds| ==> ds[i].name != ds[j].name)
  }

  // The names in es, in order, are good and pairwise different.
  ghost predicate GoodEntries(es: seq<Entry>) {
    && (forall i :: 0 <= i < |es| ==> GoodName(es[i].name))
    && (forall i, j :: 0 <= i < j < |es| ==> es[i].name != es[j].name)
  }

  lemma {:induction false} FilterGood(ds: seq<Dirent>, skip: set<Name>)
    requires GoodListing(ds)
    ensures GoodListing(Filter(ds, skip))
    decreases |ds|
  {
    if ds == [] {
    } else {
      FilterGood(ds[1..], skip);
      var rest := Filter(ds[1..], skip);
      forall i | 0 <= i < |rest| ensures rest[i].name != ds[0].name {
        FilterKeeps(ds[1..], skip, rest[i]);
      }
    }
  }

  lemma SeenGood(env: Env, dir: Path)
    requires GoodNames(env.k) && env.k.readdir(dir).Listing?
    ensures GoodEntries(Seen(env, dir))
  {
    FilterGood(env.k.readdir(dir).ds, env.conf.skip);
  }

  // ---------------------------------------------------------------- distinct directories

  // The children are joined from different names.
  ghost predicate Siblings(p: Path, its: seq<Item>, names: seq<Name>) {
    && |names| == |its|
    && (forall i :: 0 <= i < |its| ==> GoodName(names[i]) && its[i].path == Join(p, names[i]))
    && (forall i, j :: 0 <= i < j < |its| ==> names[i] != names[j])
  }

  ghost predicate NamesFrom(names: seq<Name>, es: seq<Entry>) {
    forall n :: n in names ==> exists i :: 0 <= i < |es| && es[i].name == n
  }

  // What one entry spawns, in either mode.
  ghost function SpawnOf(env: Env, it: Item, e: Entry): seq<Item>
    requires env.conf.followLinks ==> NeedsDev(env, it, e) ==> it.chain != []
  {
    if env.conf.followLinks then Resolve(env, it, e).spawn
    else if e.typ == DT_DIR then [Item(Join(it.path, e.name), Inc32(it.depth), [])] else []
  }

  ghost function SpawnOfAll(env: Env, it: Item, es: seq<Entry>): seq<Item>
    requires env.conf.followLinks ==> HasDev(env, it, es)
  {
    if env.conf.followLinks then ResolveAll(env, it, es).spawn else PlainSpawn(it, es)
  }

  lemma SiblingsCons(p: Path, here: seq<Item>, name: Name, rest: seq<Item>, names: seq<Name>)
    requires |here| <= 1 && (here != [] ==> here[0].path == Join(p, name))
    requires GoodName(name) && Siblings(p, rest, names) && name !in names
    ensures Siblings(p, here + rest, (if here == [] then [] else [name]) + names)
  {
  }

  lemma SpawnSiblings(env: Env, it: Item, es: seq<Entry>) returns (names: seq<Name>)
    requires GoodEntries(es) && (env.conf.followLinks ==> HasDev(env, it, es))
    ensures Siblings(it.path, SpawnOfAll(env, it, es), names) && NamesFrom(names, es)
    decreases |es|
  {
    names := [];
    if es != [] {
      var rest := SpawnSiblings(env, it, es[1..]);
      forall n | n in rest ensures n != es[0].name && exists i :: 0 <= i < |es| && es[i].name == n {
        var i :| 0 <= i < |es[1..]| && es[1..][i].name == n;
        assert es[i + 1].name == n;
      }
      var here := SpawnOf(env, it, es[0]);
      SiblingsCons(it.path, here, es[0].name, SpawnOfAll(env, it, es[1..]), rest);
      names := (if here == [] then [] else [es[0].name]) + rest;
    }
  }

  lemma RunSiblings(env: Env, it: Item) returns (names: seq<Name>)
    requires GoodNames(env.k) && !Panics(env, it)
    ensures Siblings(it.path, Run(env, it).spawn, names)
  {
    names := [];
    if env.k.readdir(it.path).Listing? {
      SeenGood(env, it.path);
      names := SpawnSiblings(env, it, Seen(env, it.path));
      if !env.conf.followLinks && AtMaxDepth(env.conf, it.depth) {
        names := [];
      }
    }
  }

  ghost predicate AllUnder(p: Path, bs: seq<Batch>) {
    forall i :: 0 <= i < |bs| ==> Under(p, bs[i].dir)
  }

  ghost predicate Distinct(bs: seq<Batch>) {
    forall i, j :: 0 <= i < j < |bs| ==> bs[i].dir != bs[j].dir
  }

  /** Every directory path is published at most once, in either mode: in follow-links mode
      too, a directory reached twice is reached under two different paths. */
  lemma {:induction false} DirsAreDistinct(env: Env, it: Item, n: nat)
    requires GoodNames(env.k)
    ensures Distinct(Spec(env, it, n)) && AllUnder(it.path, Spec(env, it, n))
    decreases n, 0
  {
    if n > 0 && !Panics(env, it) {
      var names := RunSiblings(env, it);
      ChildrenAreDistinct(env, it.path, Run(env, it).spawn, names, n - 1);
    }
  }

  ghost predicate BelowSome(p: Path, names: seq<Name>, d: Path) {
    exists i :: 0 <= i < |names| && Under(Join(p, names[i]), d)
  }

  lemma {:induction false} ChildrenAreDistinct(env: Env, p: Path, its: seq<Item>, names: seq<Name>, n: nat)
    requires GoodNames(env.k) && Siblings(p, its, names)
    ensures Distinct(SpecAll(env, its, n))
    ensures forall b :: b in SpecAll(env, its, n) ==>
      BelowSome(p, names, b.dir) && Under(p, b.dir) && b.dir != p
    decreases n, |its| + 1
  {
    if its == [] {
    } else {
      var a, r := Spec(env, its[0], n), SpecAll(env, its[1..], n);
      DirsAreDistinct(env, its[0], n);
      ChildrenAreDistinct(env, p, its[1..], names[1..], n);
      forall b | b in a ensures BelowSome(p, names, b.dir) && Under(p, b.dir) && b.dir != p {
        assert Under(Join(p, names[0]), b.dir);
        UnderChild(p, names[0], b.dir);
      }
      forall b | b in r ensures BelowSome(p, names, b.dir) {
        var i :| 0 <= i < |names[1..]| && Under(Join(p, names[1..][i]), b.dir);
        assert Under(Join(p, names[i + 1]), b.dir);
      }
      forall x, y | x in a && y in r ensures x.dir != y.dir {
        var i :| 0 <= i < |names[1..]| && Under(Join(p, names[1..][i]), y.dir);
        assert Under(Join(p, names[0]), x.dir);
        if x.dir == y.dir {
          SiblingsApart(p, names[0], names[i + 1], x.dir);
        }
      }
    }
  }

  // ------------------------------------------------------------------ cycle detection

  // One device, and dirent inodes agree with stat, of paths that name something.
  ghost predicate OneDevice(k: Kernel, dev: nat) {
    && (forall p: Path :: k.stat(p).Info? ==> k.stat(p).id.dev == dev)
    && (forall p: Path, d: Dirent :: NulFree(p) && HasPlainDir(k, p, d) ==>
          k.stat(Join(p, d.name)) == Info(ModeDir, Id(d.ino, dev)))
  }

  // The i-th directory on the logical path to the directory that names lead to.
  function Above(root: Path, names: seq<Name>, i: nat): Path
    requires i <= |names|
  {
    JoinAll(root, names[..i])
  }

  // The chain lists the identities of exactly the directories on the logical path.
  ghost predicate ChainIsPath(k: Kernel, root: Path, it: Item) {
    exists names :: PathOf(k, root, it, names)
  }

  ghost predicate PathOf(k: Kernel, root: Path, it: Item, names: seq<Name>) {
    && (forall i :: 0 <= i < |names| ==> GoodName(names[i]))
    && it.path == JoinAll(root, names) && |it.chain| == |names| + 1
    && forall j :: 0 <= j < |it.chain| ==> IdAbove(k, root, names, |names| - j, it.chain[j])
  }

  ghost predicate IdAbove(k: Kernel, root: Path, names: seq<Name>, i: nat, id: Id)
    requires i <= |names|
  {
    k.stat(Above(root, names, i)).Info? && k.stat(Above(root, names, i)).id == id
  }

  lemma SpawnedIdentity(env: Env, dev: nat, it: Item, c: Item) returns (e: Entry)
    requires OneDevice(env.k, dev) && GoodNames(env.k) && env.conf.followLinks
    requires !Panics(env, it) && c in Run(env, it).spawn && it.chain != [] && it.chain[0].dev == dev
    requires NulFree(it.path)
    ensures GoodName(e.name) && c.path == Join(it.path, e.name)
    ensures |c.chain| == |it.chain| + 1 && c.chain[1..] == it.chain
    ensures env.k.stat(c.path).Info? && env.k.stat(c.path).id == c.chain[0]
  {
    e := SpawnReason(env, it, c);
    var d := SeenComesFrom(env, it.path, e);
    SeenGood(env, it.path);
    if e.typ == DT_DIR {
      assert HasPlainDir(env.k, it.path, d);
    }
  }

  lemma PathExtends(k: Kernel, root: Path, it: Item, names: seq<Name>, c: Item, n: Name)
    requires PathOf(k, root, it, names) && GoodName(n)
    requires c.path == Join(it.path, n) && |c.chain| == |it.chain| + 1 && c.chain[1..] == it.chain
    requires k.stat(c.path).Info? && k.stat(c.path).id == c.chain[0]
    ensures PathOf(k, root, c, names + [n])
  {
    var longer := names + [n];
    assert longer[..|names|] == names && longer[..|longer|] == longer;
    forall j | 0 <= j < |c.chain| ensures IdAbove(k, root, longer, |longer| - j, c.chain[j]) {
      if j > 0 {
        assert c.chain[j] == it.chain[j - 1];
        assert IdAbove(k, root, names, |names| - (j - 1), it.chain[j - 1]);
        assert longer[..|longer| - j] == names[..|names| - (j - 1)];
      }
    }
  }

  lemma {:induction false} JoinAllNulFree(root: Path, names: seq<Name>)
    requires NulFree(root) && forall i :: 0 <= i < |names| ==> GoodName(names[i])
    ensures NulFree(JoinAll(root, names))
    decreases |names|
  {
    if names == [] {
    } else {
      JoinAllNulFree(root, names[..|names| - 1]);
      JoinNulFree(JoinAll(root, names[..|names| - 1]), names[|names| - 1]);
    }
  }

  // The chain ends in the root's identity, so stat took the root's path.
  lemma ChainMeansNulFree(k: Kernel, root: Path, it: Item)
    requires ChainIsPath(k, root, it) && Addressable(k, root)
    ensures NulFree(root) && NulFree(it.path)
  {
    var names :| PathOf(k, root, it, names);
    assert IdAbove(k, root, names, |names| - |names|, it.chain[|names|]);
    assert Above(root, names, 0) == root;
    StatMeansNulFree(k, root);
    JoinAllNulFree(root, names);
  }

  lemma SpawnKeepsPath(env: Env, dev: nat, root: Path, it: Item, c: Item)
    requires OneDevice(env.k, dev) && GoodNames(env.k) && Addressable(env.k, root) && env.conf.followLinks
    requires ChainIsPath(env.k, root, it) && !Panics(env, it) && c in Run(env, it).spawn
    ensures ChainIsPath(env.k, root, c)
  {
    var names :| PathOf(env.k, root, it, names);
    assert IdAbove(env.k, root, names, |names|, it.chain[0]);
    ChainMeansNulFree(env.k, root, it);
    var e := SpawnedIdentity(env, dev, it, c);
    PathExtends(env.k, root, it, names, c, e.name);
  }

  // Following the link leads to a directory at or above the one it is in.
  ghost predicate LeadsUp(k: Kernel, root: Path, dir: Path, link: Name) {
    var t := k.stat(Join(dir, link));
    && t.Info? && t.mode == ModeDir
    && exists i :: 0 <= i <= |Below(root, dir)| && IdAbove(k, root, Below(root, dir), i, t.id)
  }

  lemma ChainMembership(k: Kernel, root: Path, it: Item, id: Id)
    requires ChainIsPath(k, root, it)
    ensures id in it.chain <==>
      exists i :: 0 <= i <= |Below(root, it.path)| && IdAbove(k, root, Below(root, it.path), i, id)
  {
    var names :| PathOf(k, root, it, names);
    BelowJoinAll(root, names);
    if id in it.chain {
      var j :| 0 <= j < |it.chain| && it.chain[j] == id;
      assert IdAbove(k, root, names, |names| - j, id);
    }
    if i :| 0 <= i <= |names| && IdAbove(k, root, names, i, id) {
      assert IdAbove(k, root, names, |names| - (|names| - i), it.chain[|names| - i]);
    }
  }

  lemma {:induction false} ErrorReason(env: Env, it: Item, es: seq<Entry>, x: DirErr)
    requires HasDev(env, it, es)
    ensures x in ResolveAll(env, it, es).errs <==>
      exists i :: 0 <= i < |es| && x in Resolve(env, it, es[i]).errs
    decreases |es|
  {
    if es == [] {
    } else {
      ErrorReason(env, it, es[1..], x);
      if x in ResolveAll(env, it, es[1..]).errs {
        var i :| 0 <= i < |es[1..]| && x in Resolve(env, it, es[1..][i]).errs;
        assert x in Resolve(env, it, es[i + 1]).errs;
      }
      if i :| 0 <= i < |es| && x in Resolve(env, it, es[i]).errs {
        if i > 0 {
          assert es[i] == es[1..][i - 1];
        }
      }
    }
  }

  // Where a batch of the specification comes from.
  lemma BatchReason(g: Goal, it: Item, n: nat, b: Batch) returns (src: Item)
    requires Closed(g) && g.ok(it) && b in Spec(g.env, it, n)
    ensures g.ok(src) && !Panics(g.env, src) && Run(g.env, src).batch == b
    decreases n, 0
  {
    assert Bounded(g.env, it, g.n);
    if b == Run(g.env, it).batch {
      src := it;
    } else {
      src := BatchReasonAll(g, Run(g.env, it).spawn, n - 1, b);
    }
  }

  lemma BatchReasonAll(g: Goal, its: seq<Item>, n: nat, b: Batch) returns (src: Item)
    requires Closed(g) && AllOk(g, its) && b in SpecAll(g.env, its, n)
    ensures g.ok(src) && !Panics(g.env, src) && Run(g.env, src).batch == b
    decreases n, |its| + 1
  {
    if b in Spec(g.env, its[0], n) {
      src := BatchReason(g, its[0], n, b);
    } else {
      src := BatchReasonAll(g, its[1..], n, b);
    }
  }

  ghost function OnPath(env: Env, root: Path, n: nat): Goal {
    Goal(env, (it: Item) => Bounded(env, it, n) && ChainIsPath(env.k, root, it), n)
  }

  lemma OnPathIsClosed(env: Env, dev: nat, root: Path, n: nat)
    requires OneDevice(env.k, dev) && GoodNames(env.k) && Addressable(env.k, root) && env.conf.followLinks
    ensures Closed(OnPath(env, root, n))
  {
    var g := OnPath(env, root, n);
    forall it: Item, c: Item | g.ok(it) && c in Run(env, it).spawn ensures g.ok(c) {
      BoundedMore(env, c, n - 1, n);
      SpawnKeepsPath(env, dev, root, it, c);
    }
  }

  lemma {:induction false} RootOnPath(env: Env, root: Path, n: nat)
    requires env.conf.followLinks && env.k.stat(root).Info? && Bounded(env, RootItem(env, root), n)
    ensures OnPath(env, root, n).ok(RootItem(env, root))
  {
    assert Above(root, [], 0) == root;
    assert PathOf(env.k, root, RootItem(env, root), []);
  }

  /** In every reachable state of every schedule, the chain of an item in play names exactly
      the directories on its logical path, whichever worker pushed, holds or runs it. */
  lemma {:induction false} ChainsNameLogicalPaths(env: Env, dev: nat, root: Path, n: nat, workers: nat,
                                                  sched: seq<Action>)
    requires OneDevice(env.k, dev) && GoodNames(env.k) && Addressable(env.k, root) && env.conf.followLinks
    requires env.k.stat(root).Info? && Bounded(env, RootItem(env, root), n)
    requires LegalRun(env, Init(env, root, workers), sched)
    ensures var s := Exec(env, Init(env, root, workers), sched);
      Wf(s) && forall t :: InPlay(s, t) ==>
        Names(s.heap, t.ancestor) && ChainIsPath(env.k, root, ItemOf(s.heap, t))
  {
    hide Run, Panics, Bounded, Closed, Init, InPlay, OneDevice, GoodNames, ChainIsPath, RootItem;
    OnPathIsClosed(env, dev, root, n);
    RootOnPath(env, root, n);
    ReachableItemsAreOk(OnPath(env, root, n), root, workers, sched);
    var s := Exec(env, Init(env, root, workers), sched);
    forall t | InPlay(s, t) ensures Names(s.heap, t.ancestor) && ChainIsPath(env.k, root, ItemOf(s.heap, t)) {
      assert OnPath(env, root, n).ok(ItemOf(s.heap, t));
    }
  }

  // A link of that name is listed in the directory and not skipped.
  ghost predicate ListsLink(env: Env, dir: Path, name: Name) {
    && env.k.readdir(dir).Listing?
    && exists i :: 0 <= i < |Seen(env, dir)| && IsLink(Seen(env, dir)[i], name)
  }

  predicate IsLink(e: Entry, name: Name) {
    e.typ == DT_LNK && e.name == name
  }

  lemma CycleErrorOne(env: Env, it: Item, e: Entry, name: Name)
    requires NeedsDev(env, it, e) ==> it.chain != []
    ensures var t := env.k.stat(Join(it.path, name));
      DirErr(name, Cycle) in Resolve(env, it, e).errs <==>
        IsLink(e, name) && t.Info? && t.mode == ModeDir && t.id in it.chain
  {
  }

  lemma CycleErrorIff(env: Env, root: Path, it: Item, name: Name)
    requires env.conf.followLinks && !Panics(env, it) && ChainIsPath(env.k, root, it)
    ensures DirErr(name, Cycle) in Run(env, it).batch.errs <==>
      ListsLink(env, it.path, name) && LeadsUp(env.k, root, it.path, name)
  {
    if env.k.readdir(it.path).Listing? {
      var es, x := Seen(env, it.path), DirErr(name, Cycle);
      ErrorReason(env, it, es, x);
      var t := env.k.stat(Join(it.path, name));
      if t.Info? {
        ChainMembership(env.k, root, it, t.id);
      }
      forall i | 0 <= i < |es|
        ensures x in Resolve(env, it, es[i]).errs <==>
          IsLink(es[i], name) && t.Info? && t.mode == ModeDir && t.id in it.chain
      {
        CycleErrorOne(env, it, es[i], name);
      }
    }
  }

  /** Cycle detection is exact on one device: in any completed walk, under any schedule, a
      published batch reports a link as a cycle if and only if the link leads to that
      directory or to one of its logical ancestors. */
  lemma {:induction false} CyclesAreExact(env: Env, dev: nat, root: Path, n: nat, workers: nat, sched: seq<Action>,
                                          b: Batch, name: Name)
    requires OneDevice(env.k, dev) && GoodNames(env.k) && Addressable(env.k, root) && env.conf.followLinks
    requires env.k.stat(root).Info? && Bounded(env, RootItem(env, root), n)
    requires LegalRun(env, Init(env, root, workers), sched)
    requires Complete(Exec(env, Init(env, root, workers), sched))
    requires b in Batches(Exec(env, Init(env, root, workers), sched).events)
    ensures DirErr(name, Cycle) in b.errs <==> ListsLink(env, b.dir, name) && LeadsUp(env.k, root, b.dir, name)
  {
    var g, it := OnPath(env, root, n), RootItem(env, root);
    CompletedWalkPublishesSpec(env, root, n, workers, sched);
    assert b in multiset(Batches(Exec(env, Init(env, root, workers), sched).events));
    assert b in Spec(env, it, n);
    OnPathIsClosed(env, dev, root, n);
    RootOnPath(env, root, n);
    var src := BatchReason(g, it, n, b);
    CycleErrorIff(env, root, src, name);
  }
}
