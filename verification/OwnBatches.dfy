/**
  Which entries of a completed walk have a batch of their own: exactly those of type 4, as
  far down as the limit allows.
 */
module OwnBatches {
  import opened Paths
  import opened Walk
  import opened Pool
  import opened Schedules
  import opened Cycles
  import opened TrueBatches
  import opened TopDown
  import A = ArenaWalk
  import ArenaRuns
  import M = Meaning
  import C = Coverage
  import TrueRuns

  // What is shown as a directory is spawned, unless the limit is reached.
  lemma ResolveAllShowsDirs(env: Env, it: Item, es: seq<Entry>, e: Entry) returns (c: Item)
    requires HasDev(env, it, es) && e in ResolveAll(env, it, es).kept && e.typ == 4
    requires !AtMaxDepth(env.conf, it.depth)
    ensures c in ResolveAll(env, it, es).spawn && c.path == Join(it.path, e.name)
    decreases |es|
  {
    var v := Resolve(env, it, es[0]);
    if e in v.kept {
      c := v.spawn[0];
    } else {
      c := ResolveAllShowsDirs(env, it, es[1..], e);
    }
  }

  lemma ShownIsSpawned(env: Env, it: Item, e: Entry) returns (c: Item)
    requires !Panics(env, it) && !AtMaxDepth(env.conf, it.depth)
    requires e in Run(env, it).batch.entries && e.typ == 4
    ensures c in Run(env, it).spawn && c.path == Join(it.path, e.name)
  {
    var es := Seen(env, it.path);
    if env.conf.followLinks {
      c := ResolveAllShowsDirs(env, it, es, e);
    } else {
      var i: nat :| i < |es| && es[i] == e;
      PlainSpawnHas(it, es, i);
      c := Item(Join(it.path, e.name), Inc32(it.depth), []);
    }
  }

  // The item's depth is that of its path, as far as anyone asks.
  ghost predicate Level(env: Env, root: Path, it: Item, level: nat) {
    && M.AtLevel(root, it, level)
    && (env.conf.maxDepth != 0 ==> it.depth == level <= env.conf.maxDepth)
  }

  lemma ChildLevel(env: Env, root: Path, it: Item, level: nat, c: Item)
    requires GoodNames(env.k) && Level(env, root, it, level) && !Panics(env, it) && c in Run(env, it).spawn
    requires env.conf.maxDepth != 0xFFFF_FFFF
    ensures Level(env, root, c, level + 1)
  {
    hide Run, Panics, M.AtLevel, GoodNames;
    M.ChildLevel(env, root, it, level, c);
    var e := SpawnReason(env, it, c);
  }

  // The batch is that of a path below the root, and within the limit.
  ghost predicate Placed(env: Env, root: Path, b: Batch) {
    && (exists names :: Names(names) && b.dir == JoinAll(root, names))
    && (env.conf.maxDepth != 0 ==> 1 + |Below(root, b.dir)| <= env.conf.maxDepth)
  }

  ghost predicate Names(names: seq<Name>) {
    forall i :: 0 <= i < |names| ==> GoodName(names[i])
  }

  lemma RunIsPlaced(env: Env, root: Path, it: Item, level: nat)
    requires Level(env, root, it, level) && !Panics(env, it)
    ensures var b := Run(env, it).batch;
      b.dir == it.path && Placed(env, root, b) && level == 1 + |Below(root, b.dir)|
  {
    hide JoinAll, Below, Filter, ResolveAll, PlainSpawn;
    M.LevelIsDepth(env, root, it, level);
    var names :| M.Spells(root, it, names) && level == 1 + |names|;
    assert Names(names);
  }

  lemma {:induction false} SpecIsPlaced(env: Env, root: Path, it: Item, n: nat, level: nat, b: Batch)
    requires GoodNames(env.k) && Bounded(env, it, n) && Level(env, root, it, level) && b in Spec(env, it, n)
    requires env.conf.maxDepth != 0xFFFF_FFFF
    ensures Placed(env, root, b)
    decreases n
  {
    hide Run, Panics, Level, Placed, GoodNames, Spec, Bounded;
    C.BoundedIsPositive(env, it, n);
    C.SpecStep(env, it, n, b);
    if b == Run(env, it).batch {
      RunIsPlaced(env, root, it, level);
    } else {
      var c :| c in Run(env, it).spawn && b in Spec(env, c, n - 1);
      ChildLevel(env, root, it, level, c);
      SpecIsPlaced(env, root, c, n - 1, level + 1, b);
    }
  }

  // There is room for one more level below the directory.
  predicate RoomBelow(conf: Conf, root: Path, dir: Path) {
    conf.maxDepth == 0 || 1 + |Below(root, dir)| < conf.maxDepth
  }

  lemma RoomIsRoom(env: Env, root: Path, it: Item, level: nat)
    requires Level(env, root, it, level) && level == 1 + |Below(root, it.path)| && RoomBelow(env.conf, root, it.path)
    ensures !AtMaxDepth(env.conf, it.depth)
  {
  }

  lemma SpawnIsPublished(env: Env, root: Path, it: Item, n: nat, level: nat, c: Item) returns (own: Batch)
    requires GoodNames(env.k) && Bounded(env, it, n) && Level(env, root, it, level)
    requires env.conf.maxDepth != 0xFFFF_FFFF && c in Run(env, it).spawn
    ensures own in Spec(env, it, n) && own.dir == c.path
  {
    hide Run, Panics, Level, GoodNames, Spec, Bounded, Placed;
    C.BoundedIsPositive(env, it, n);
    C.SpecStep(env, it, n, Run(env, it).batch);
    C.BoundedIsPositive(env, c, n - 1);
    own := Run(env, c).batch;
    C.SpecStep(env, c, n - 1, own);
    C.SpecStep(env, it, n, own);
    ChildLevel(env, root, it, level, c);
    RunIsPlaced(env, root, c, level + 1);
  }

  lemma ShownHereIsPublished(env: Env, root: Path, it: Item, n: nat, level: nat, e: Entry) returns (own: Batch)
    requires GoodNames(env.k) && Bounded(env, it, n) && Level(env, root, it, level)
    requires env.conf.maxDepth != 0xFFFF_FFFF && !Panics(env, it)
    requires e in Run(env, it).batch.entries && e.typ == 4 && RoomBelow(env.conf, root, Run(env, it).batch.dir)
    ensures own in Spec(env, it, n) && own.dir == Join(Run(env, it).batch.dir, e.name)
  {
    hide Run, Panics, Level, GoodNames, Spec, Bounded, Placed, RoomBelow, AtMaxDepth, Below, Join;
    RunIsPlaced(env, root, it, level);
    RoomIsRoom(env, root, it, level);
    var c := ShownIsSpawned(env, it, e);
    own := SpawnIsPublished(env, root, it, n, level, c);
  }

  lemma ShownIsPublished(env: Env, root: Path, it: Item, n: nat, level: nat, b: Batch, e: Entry)
    returns (own: Batch)
    requires GoodNames(env.k) && Bounded(env, it, n) && Level(env, root, it, level) && b in Spec(env, it, n)
    requires env.conf.maxDepth != 0xFFFF_FFFF
    requires e in b.entries && e.typ == 4 && RoomBelow(env.conf, root, b.dir)
    ensures own in Spec(env, it, n) && own.dir == Join(b.dir, e.name)
    decreases n
  {
    hide Run, Panics, Level, GoodNames, Spec, Bounded, RoomBelow, Join;
    C.BoundedIsPositive(env, it, n);
    C.SpecStep(env, it, n, b);
    if b == Run(env, it).batch {
      own := ShownHereIsPublished(env, root, it, n, level, e);
    } else {
      var c :| c in Run(env, it).spawn && b in Spec(env, c, n - 1);
      ChildLevel(env, root, it, level, c);
      own := ShownIsPublished(env, root, c, n - 1, level + 1, b, e);
      C.SpecStep(env, it, n, own);
    }
  }

  // ---------------------------------------------------------------- the other direction

  lemma WantsAreGood(k: Kernel, dir: Path, skip: set<Name>)
    requires GoodNames(k) && k.readdir(dir).Listing?
    ensures GoodListing(Wants(k.readdir(dir).ds, skip))
  {
    hide GoodListing;
    FilterPicks(k.readdir(dir).ds, skip);
    assert Filter(k.readdir(dir).ds, skip) == Wants(k.readdir(dir).ds, skip);
    FilterGood(k.readdir(dir).ds, skip);
  }

  // A directory's entries have different names.
  lemma OneEntryOfName(env: Env, b: Batch, e: Entry, e': Entry)
    requires TrueBatch(env, b) && GoodNames(env.k) && e in b.entries && e' in b.entries && e.name == e'.name
    ensures e == e' && GoodName(e.name)
  {
    hide Wants;
    var ws := Wants(env.k.readdir(b.dir).ds, env.conf.skip);
    WantsAreGood(env.k, b.dir, env.conf.skip);
    var from, of :| Tells(env, b.dir, ws, b.entries, b.errs, from, of);
    var i :| 0 <= i < |b.entries| && b.entries[i] == e;
    var j :| 0 <= j < |b.entries| && b.entries[j] == e';
    assert ShownAs(env, b.dir, ws[from[i]], e) && ShownAs(env, b.dir, ws[from[j]], e');
    assert from[i] == from[j];
  }

  // Below one root a path is joined from one directory and one name.
  lemma {:induction false} JoinedFromOne(root: Path, dir: Path, name: Name, dir': Path, name': Name,
                                         names: seq<Name>, names': seq<Name>)
    requires Names(names) && dir == JoinAll(root, names) && GoodName(name)
    requires Names(names') && dir' == JoinAll(root, names') && GoodName(name')
    ensures Join(dir, name) == Join(dir', name') ==> dir == dir' && name == name'
    ensures Join(dir, name) != root && Below(root, Join(dir, name)) == Below(root, dir) + [name]
  {
    var all, all' := names + [name], names' + [name'];
    assert all[..|names|] == names && all'[..|names'|] == names';
    BelowJoinAll(root, all);
    BelowJoinAll(root, all');
    BelowJoinAll(root, names);
    BelowJoinAll(root, []);
    assert JoinAll(root, []) == root;
    assert all == all' ==> all[|names|] == all'[|names|];
  }

  ghost predicate AllTrueAndPlaced(env: Env, root: Path, bs: seq<Batch>) {
    forall b :: b in bs ==> TrueBatch(env, b) && Placed(env, root, b)
  }

  // The batch and the entry that announce a published directory other than the root.
  lemma Announcer(root: Path, bs: seq<Batch>, i: nat) returns (p: Batch, e: Entry)
    requires InOrder(root, bs) && i < |bs| && bs[i].dir != root
    ensures p in bs && e in p.entries && e.typ == 4 && bs[i].dir == Join(p.dir, e.name)
  {
    hide Joined, Join;
    var dir := bs[i].dir;
    assert Announced(root, bs[..i], dir);
    var j :| 0 <= j < |bs[..i]| && Announces(bs[..i][j], dir);
    p := bs[j];
    e :| e in p.entries && e.typ == 4 && Joined(dir, p.dir, e.name);
    JoinIsOneWay(dir, p.dir, e.name);
  }

  // Two entries of published batches that name the same path are the same entry.
  lemma OneShownAs(env: Env, root: Path, bs: seq<Batch>, b: Batch, e: Entry, p: Batch, e': Entry)
    requires GoodNames(env.k) && AllTrueAndPlaced(env, root, bs) && Distinct(bs)
    requires b in bs && e in b.entries && p in bs && e' in p.entries
    ensures Join(b.dir, e.name) == Join(p.dir, e'.name) ==> e == e'
    ensures Join(b.dir, e.name) != root
    ensures |Below(root, Join(b.dir, e.name))| == |Below(root, b.dir)| + 1
  {
    hide TrueBatch, GoodNames, Join, JoinAll, Below;
    OneEntryOfName(env, b, e, e);
    OneEntryOfName(env, p, e', e');
    var names :| Names(names) && b.dir == JoinAll(root, names);
    var names' :| Names(names') && p.dir == JoinAll(root, names');
    JoinedFromOne(root, b.dir, e.name, p.dir, e'.name, names, names');
    if Join(b.dir, e.name) == Join(p.dir, e'.name) {
      assert p == b;
      OneEntryOfName(env, b, e, e');
    }
  }

  lemma PublishedWasShown(env: Env, root: Path, bs: seq<Batch>, b: Batch, e: Entry, i: nat)
    requires GoodNames(env.k) && AllTrueAndPlaced(env, root, bs) && InOrder(root, bs) && Distinct(bs)
    requires b in bs && e in b.entries && i < |bs| && bs[i].dir == Join(b.dir, e.name)
    ensures e.typ == 4 && RoomBelow(env.conf, root, b.dir)
  {
    hide TrueBatch, GoodNames, Join, Below, InOrder, Distinct;
    OneShownAs(env, root, bs, b, e, b, e);
    var p, e' := Announcer(root, bs, i);
    OneShownAs(env, root, bs, b, e, p, e');
    assert Placed(env, root, bs[i]);
  }

  // ------------------------------------------------------------------------- theorem

  lemma {:induction false} SentIsTrueAndPlaced(env: Env, root: Path, n: nat, workers: nat, sched: seq<Action>)
    requires GoodNames(env.k) && Bounded(env, RootItem(env, root), n) && env.conf.maxDepth != 0xFFFF_FFFF
    requires Finishes(env, root, workers, sched)
    ensures var bs := AllSent(env, root, workers, sched);
      && AllTrueAndPlaced(env, root, bs) && InOrder(root, bs) && Distinct(bs)
      && multiset(bs) == multiset(Spec(env, RootItem(env, root), n))
  {
    hide Run, Panics, GoodNames, Placed, TrueBatch, InOrder, Distinct, Bounded, Spec, Level;
    var it := RootItem(env, root);
    var bs, spec := AllSent(env, root, workers, sched), Spec(env, it, n);
    M.FinishedWalkSendsSpec(env, root, n, workers, sched);
    ParentsArePublishedFirst(env, root, workers, sched);
    DirsAreDistinct(env, it, n);
    C.DistinctUpToOrder(spec, bs);
    RootHasLevel(env, root);
    forall b | b in bs ensures TrueBatch(env, b) && Placed(env, root, b) {
      TrueRuns.EveryBatchIsTrue(env, root, workers, sched, b);
      assert b in multiset(bs);
      SpecIsPlaced(env, root, it, n, 1, b);
    }
  }

  lemma RootHasLevel(env: Env, root: Path)
    ensures Level(env, root, RootItem(env, root), 1)
  {
    M.RootLevel(env, root);
  }

  /** In a completed walk an entry of a published batch has a batch of its own if and only if
      its type is 4, the number of a directory, and the limit leaves room below. */
  lemma {:induction false} EntryIsWalkedIff(env: Env, root: Path, n: nat, workers: nat, sched: seq<Action>,
                                            b: Batch, e: Entry)
    requires GoodNames(env.k) && Bounded(env, RootItem(env, root), n) && env.conf.maxDepth != 0xFFFF_FFFF
    requires Finishes(env, root, workers, sched)
    requires b in AllSent(env, root, workers, sched) && e in b.entries
    ensures C.Lists(AllSent(env, root, workers, sched), Join(b.dir, e.name)) <==>
      e.typ == 4 && RoomBelow(env.conf, root, b.dir)
  {
    hide Run, Panics, GoodNames, TrueBatch, InOrder, Distinct, Bounded, Spec, Level, RoomBelow, Finishes, AllSent,
      AllTrueAndPlaced, Join, RootItem;
    var it, bs := RootItem(env, root), AllSent(env, root, workers, sched);
    SentIsTrueAndPlaced(env, root, n, workers, sched);
    assert b in multiset(bs) && b in Spec(env, it, n);
    if e.typ == 4 && RoomBelow(env.conf, root, b.dir) {
      RootHasLevel(env, root);
      var own := ShownIsPublished(env, root, it, n, 1, b, e);
      assert own in multiset(Spec(env, it, n)) && own in bs;
    }
    if i: nat :| i < |bs| && bs[i].dir == Join(b.dir, e.name) {
      PublishedWasShown(env, root, bs, b, e, i);
    }
  }

  /** Over the arena too. */
  lemma {:induction false} ArenaEntryIsWalkedIff(env: Env, root: Path, n: nat, workers: nat, sched: seq<Action>,
                                                 b: Batch, e: Entry)
    requires GoodNames(env.k) && Bounded(env, RootItem(env, root), n) && env.conf.maxDepth != 0xFFFF_FFFF
    requires A.LegalRun(env, A.Init(env, root, workers), sched)
    requires A.Complete(A.Exec(env, A.Init(env, root, workers), sched))
    requires b in A.Exec(env, A.Init(env, root, workers), sched).sent && e in b.entries
    ensures C.Lists(A.Exec(env, A.Init(env, root, workers), sched).sent, Join(b.dir, e.name)) <==>
      e.typ == 4 && RoomBelow(env.conf, root, b.dir)
  {
    hide Bounded, RoomBelow, Join, GoodNames, Run, Panics;
    var sched' := ArenaRuns.EveryArenaRunIsAPoolRun(env, root, workers, sched);
    assert Finishes(env, root, workers, sched');
    EntryIsWalkedIff(env, root, n, workers, sched', b, e);
  }
}
