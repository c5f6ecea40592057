/**
  What the options of the walk mean for the set of batches it publishes: depth limits cut,
  skip names erase, following links changes nothing where there are none, and no
  directory path is ever published twice.
 */
module Meaning {
  import opened Paths
  import opened Walk
  import opened Pool
  import opened Schedules
  import opened Cycles

  // ------------------------------------------------------------------- depth limits

  function Limited(env: Env, m: uint32): Env {
    env.(conf := env.conf.(maxDepth := m))
  }

  // The batches of the walk with the depth of the directory each one lists.
  ghost function Tagged(env: Env, it: Item, n: nat, level: nat): seq<(nat, Batch)>
    decreases n, 0
  {
    if n == 0 || Panics(env, it) then [] else
    [(level, Run(env, it).batch)] + TaggedAll(env, Run(env, it).spawn, n - 1, level + 1)
  }

  ghost function TaggedAll(env: Env, its: seq<Item>, n: nat, level: nat): seq<(nat, Batch)>
    decreases n, |its| + 1
  {
    if its == [] then [] else Tagged(env, its[0], n, level) + TaggedAll(env, its[1..], n, level)
  }

  function UpTo(ts: seq<(nat, Batch)>, m: nat): seq<Batch> {
    if ts == [] then [] else (if ts[0].0 <= m then [ts[0].1] else []) + UpTo(ts[1..], m)
  }

  lemma {:induction false} UpToConcat(a: seq<(nat, Batch)>, b: seq<(nat, Batch)>, m: nat)
    ensures UpTo(a + b, m) == UpTo(a, m) + UpTo(b, m)
    decreases |a|
  {
    if a == [] {
      assert a + b == b;
    } else {
      assert (a + b)[1..] == a[1..] + b && (a + b)[0] == a[0];
      UpToConcat(a[1..], b, m);
      var f := if a[0].0 <= m then [a[0].1] else [];
      assert f + (UpTo(a[1..], m) + UpTo(b, m)) == (f + UpTo(a[1..], m)) + UpTo(b, m);
    }
  }

  ghost function Levels(n: nat, level: nat, m: nat): nat {
    if level > m then 0 else if n < m - level + 1 then n else m - level + 1
  }

  lemma {:induction false} NoLevels(env: Env, its: seq<Item>)
    ensures SpecAll(env, its, 0) == []
    decreases |its|
  {
    if its == [] {
    } else {
      NoLevels(env, its[1..]);
    }
  }

  // Keeping the batches up to a depth is cutting the specification after as many levels.
  lemma {:induction false} UpToIsLevels(env: Env, it: Item, n: nat, level: nat, m: nat)
    ensures UpTo(Tagged(env, it, n, level), m) == Spec(env, it, Levels(n, level, m))
    decreases n, 0
  {
    hide Run, Panics;
    if n > 0 && !Panics(env, it) {
      var o := Run(env, it);
      var rest := TaggedAll(env, o.spawn, n - 1, level + 1);
      UpToAllIsLevels(env, o.spawn, n - 1, level + 1, m);
      UpToConcat([(level, o.batch)], rest, m);
      assert UpTo([(level, o.batch)], m) == if level <= m then [o.batch] else [];
      if level > m {
        NoLevels(env, o.spawn);
      } else {
        LevelsStep(n, level, m);
      }
    }
  }

  lemma LevelsStep(n: nat, level: nat, m: nat)
    requires n > 0 && level <= m
    ensures Levels(n, level, m) == Levels(n - 1, level + 1, m) + 1
  {
  }

  lemma {:induction false} UpToAllIsLevels(env: Env, its: seq<Item>, n: nat, level: nat, m: nat)
    ensures UpTo(TaggedAll(env, its, n, level), m) == SpecAll(env, its, Levels(n, level, m))
    decreases n, |its| + 1
  {
    if its == [] {
    } else {
      UpToIsLevels(env, its[0], n, level, m);
      UpToAllIsLevels(env, its[1..], n, level, m);
      UpToConcat(Tagged(env, its[0], n, level), TaggedAll(env, its[1..], n, level), m);
    }
  }

  // The limit decides what is spawned and nothing else.
  ghost predicate SameUpToSpawn(env: Env, lim: Env, depth: uint32, v: Verdict, w: Verdict) {
    && w.kept == v.kept && w.errs == v.errs
    && (AtMaxDepth(lim.conf, depth) ==> w.spawn == [])
    && (AtMaxDepth(lim.conf, depth) == AtMaxDepth(env.conf, depth) ==> w.spawn == v.spawn)
  }

  lemma LimitOnlySpawnsOne(env: Env, m: uint32, it: Item, e: Entry)
    requires (NeedsDev(env, it, e) || NeedsDev(Limited(env, m), it, e)) ==> it.chain != []
    ensures SameUpToSpawn(env, Limited(env, m), it.depth, Resolve(env, it, e), Resolve(Limited(env, m), it, e))
  {
  }

  lemma {:induction false} LimitOnlySpawns(env: Env, m: uint32, it: Item, es: seq<Entry>)
    requires HasDev(env, it, es) && HasDev(Limited(env, m), it, es)
    ensures SameUpToSpawn(env, Limited(env, m), it.depth, ResolveAll(env, it, es), ResolveAll(Limited(env, m), it, es))
    decreases |es|
  {
    if es == [] {
    } else {
      LimitOnlySpawnsOne(env, m, it, es[0]);
      LimitOnlySpawns(env, m, it, es[1..]);
    }
  }

  lemma LimitedRun(env: Env, m: uint32, it: Item)
    requires env.conf.maxDepth == 0 && !Panics(env, it)
    ensures !Panics(Limited(env, m), it)
    ensures var lim := Limited(env, m);
      && Run(lim, it).batch == Run(env, it).batch
      && Run(lim, it).spawn == if AtMaxDepth(lim.conf, it.depth) then [] else Run(env, it).spawn
  {
    var lim := Limited(env, m);
    if env.k.readdir(it.path).Listing? {
      assert Seen(lim, it.path) == Seen(env, it.path);
      if env.conf.followLinks {
        LimitOnlySpawns(env, m, it, Seen(env, it.path));
      }
    }
  }

  lemma ChildrenOneDeeper(env: Env, it: Item)
    requires !Panics(env, it) && it.depth < 0xFFFF_FFFF
    ensures forall c :: c in Run(env, it).spawn ==> c.depth == it.depth + 1
  {
    forall c | c in Run(env, it).spawn ensures c.depth == it.depth + 1 {
      var e := SpawnReason(env, it, c);
    }
  }

  lemma {:induction false} LimitCuts(env: Env, m: uint32, it: Item, n: nat)
    requires env.conf.maxDepth == 0 && 0 < m < 0xFFFF_FFFF && it.depth <= m && Bounded(env, it, n)
    ensures Spec(Limited(env, m), it, n) == Spec(env, it, Levels(n, it.depth, m))
    decreases n, 0
  {
    hide Run, Panics;
    LimitedRun(env, m, it);
    var spawn := Run(env, it).spawn;
    if it.depth == m {
      NoLevels(env, spawn);
    } else {
      ChildrenOneDeeper(env, it);
      LevelsStep(n, it.depth, m);
      LimitCutsAll(env, m, spawn, n - 1, it.depth + 1);
    }
  }

  lemma {:induction false} LimitCutsAll(env: Env, m: uint32, its: seq<Item>, n: nat, depth: uint32)
    requires env.conf.maxDepth == 0 && 0 < m < 0xFFFF_FFFF && depth <= m
    requires forall c :: c in its ==> c.depth == depth && Bounded(env, c, n)
    ensures SpecAll(Limited(env, m), its, n) == SpecAll(env, its, Levels(n, depth, m))
    decreases n, |its| + 1
  {
    if its == [] {
    } else {
      LimitCuts(env, m, its[0], n);
      LimitCutsAll(env, m, its[1..], n, depth);
    }
  }

  /** Depth limiting commutes with the walk: the walk limited to m publishes exactly the
      batches of the unlimited walk at depth m and above, in both modes. */
  lemma {:induction false} DepthLimitSelects(env: Env, m: uint32, root: Path, n: nat)
    requires env.conf.maxDepth == 0 && 0 < m < 0xFFFF_FFFF && Bounded(env, RootItem(env, root), n)
    ensures RootItem(Limited(env, m), root) == RootItem(env, root)
    ensures Spec(Limited(env, m), RootItem(env, root), n) == UpTo(Tagged(env, RootItem(env, root), n, 1), m)
  {
    LimitCuts(env, m, RootItem(env, root), n);
    UpToIsLevels(env, RootItem(env, root), n, 1, m);
  }

  lemma {:induction false} LimitedIsBounded(env: Env, m: uint32, it: Item, n: nat)
    requires env.conf.maxDepth == 0 && Bounded(env, it, n)
    ensures Bounded(Limited(env, m), it, n)
    decreases n
  {
    LimitedRun(env, m, it);
    forall c | c in Run(Limited(env, m), it).spawn ensures Bounded(Limited(env, m), c, n - 1) {
      LimitedIsBounded(env, m, c, n - 1);
    }
  }

  function Untag(ts: seq<(nat, Batch)>): seq<Batch> {
    if ts == [] then [] else [ts[0].1] + Untag(ts[1..])
  }

  lemma {:induction false} UntagConcat(a: seq<(nat, Batch)>, b: seq<(nat, Batch)>)
    ensures Untag(a + b) == Untag(a) + Untag(b)
    decreases |a|
  {
    if a == [] {
      assert a + b == b;
    } else {
      assert (a + b)[1..] == a[1..] + b && (a + b)[0] == a[0];
      UntagConcat(a[1..], b);
      assert [a[0].1] + (Untag(a[1..]) + Untag(b)) == ([a[0].1] + Untag(a[1..])) + Untag(b);
    }
  }

  lemma {:induction false} UntagIsSpec(env: Env, it: Item, n: nat, level: nat)
    ensures Untag(Tagged(env, it, n, level)) == Spec(env, it, n)
    decreases n, 0
  {
    if n > 0 && !Panics(env, it) {
      var o := Run(env, it);
      UntagAllIsSpec(env, o.spawn, n - 1, level + 1);
      UntagConcat([(level, o.batch)], TaggedAll(env, o.spawn, n - 1, level + 1));
      assert Untag([(level, o.batch)]) == [o.batch];
    }
  }

  lemma {:induction false} UntagAllIsSpec(env: Env, its: seq<Item>, n: nat, level: nat)
    ensures Untag(TaggedAll(env, its, n, level)) == SpecAll(env, its, n)
    decreases n, |its| + 1
  {
    if its == [] {
    } else {
      UntagIsSpec(env, its[0], n, level);
      UntagAllIsSpec(env, its[1..], n, level);
      UntagConcat(Tagged(env, its[0], n, level), TaggedAll(env, its[1..], n, level));
    }
  }

  // How deep a directory is, told from its path.
  function DepthOf(root: Path, dir: Path): nat {
    1 + |Below(root, dir)|
  }

  function ShallowOnes(root: Path, bs: seq<Batch>, m: nat): seq<Batch> {
    if bs == [] then [] else
    (if DepthOf(root, bs[0].dir) <= m then [bs[0]] else []) + ShallowOnes(root, bs[1..], m)
  }

  lemma {:induction false} CountShallow(root: Path, bs: seq<Batch>, m: nat, b: Batch)
    ensures multiset(ShallowOnes(root, bs, m))[b] == if DepthOf(root, b.dir) <= m then multiset(bs)[b] else 0
    decreases |bs|
  {
    hide DepthOf;
    if bs == [] {
    } else {
      CountShallow(root, bs[1..], m, b);
      assert bs == [bs[0]] + bs[1..];
    }
  }

  lemma {:induction false} ShallowUpToOrder(root: Path, a: seq<Batch>, b: seq<Batch>, m: nat)
    requires multiset(a) == multiset(b)
    ensures multiset(ShallowOnes(root, a, m)) == multiset(ShallowOnes(root, b, m))
  {
    forall x ensures multiset(ShallowOnes(root, a, m))[x] == multiset(ShallowOnes(root, b, m))[x] {
      CountShallow(root, a, m, x);
      CountShallow(root, b, m, x);
    }
  }

  // The tags are the depths of the paths.
  ghost predicate TrueTags(root: Path, ts: seq<(nat, Batch)>) {
    forall i :: 0 <= i < |ts| ==> ts[i].0 == DepthOf(root, ts[i].1.dir)
  }

  lemma {:induction false} TrueTagsSelect(root: Path, ts: seq<(nat, Batch)>, m: nat)
    requires TrueTags(root, ts)
    ensures UpTo(ts, m) == ShallowOnes(root, Untag(ts), m)
    decreases |ts|
  {
    if ts == [] {
    } else {
      TrueTagsSelect(root, ts[1..], m);
      assert Untag(ts)[1..] == Untag(ts[1..]);
    }
  }

  ghost predicate AtLevel(root: Path, it: Item, level: nat) {
    exists names :: Spells(root, it, names) && level == 1 + |names|
  }

  ghost predicate Spells(root: Path, it: Item, names: seq<Name>) {
    (forall i :: 0 <= i < |names| ==> GoodName(names[i])) && it.path == JoinAll(root, names)
  }

  lemma ChildLevel(env: Env, root: Path, it: Item, level: nat, c: Item)
    requires GoodNames(env.k) && AtLevel(root, it, level) && !Panics(env, it) && c in Run(env, it).spawn
    ensures AtLevel(root, c, level + 1)
  {
    hide Run, Panics, Filter, AtMaxDepth;
    var names :| Spells(root, it, names) && level == 1 + |names|;
    var e := SpawnReason(env, it, c);
    SeenGood(env, it.path);
    assert (names + [e.name])[..|names|] == names;
    assert Spells(root, c, names + [e.name]);
  }

  lemma LevelIsDepth(env: Env, root: Path, it: Item, level: nat)
    requires AtLevel(root, it, level) && !Panics(env, it)
    ensures level == DepthOf(root, Run(env, it).batch.dir)
  {
    hide JoinAll, Below, Filter, ResolveAll, PlainSpawn;
    var names :| Spells(root, it, names) && level == 1 + |names|;
    BelowJoinAll(root, names);
  }

  lemma {:induction false} TagsAreTrue(env: Env, root: Path, it: Item, n: nat, level: nat)
    requires GoodNames(env.k) && AtLevel(root, it, level)
    ensures TrueTags(root, Tagged(env, it, n, level))
    decreases n, 0
  {
    hide Run, Panics, AtLevel, GoodNames, DepthOf;
    if n > 0 && !Panics(env, it) {
      LevelIsDepth(env, root, it, level);
      forall c | c in Run(env, it).spawn ensures AtLevel(root, c, level + 1) {
        ChildLevel(env, root, it, level, c);
      }
      AllTagsAreTrue(env, root, Run(env, it).spawn, n - 1, level + 1);
    }
  }

  lemma {:induction false} AllTagsAreTrue(env: Env, root: Path, its: seq<Item>, n: nat, level: nat)
    requires GoodNames(env.k) && forall c :: c in its ==> AtLevel(root, c, level)
    ensures TrueTags(root, TaggedAll(env, its, n, level))
    decreases n, |its| + 1
  {
    if its == [] {
    } else {
      TagsAreTrue(env, root, its[0], n, level);
      AllTagsAreTrue(env, root, its[1..], n, level);
    }
  }

  /** Two completed walks, one unlimited and one limited to m, with any workers and any
      schedules: the limited one publishes exactly the batches the other one publishes for
      directories at depth m and above. */
  lemma {:induction false} LimitedWalksAgree(env: Env, m: uint32, root: Path, n: nat, workers: nat, sched: seq<Action>,
                          workers': nat, sched': seq<Action>)
    requires env.conf.maxDepth == 0 && 0 < m < 0xFFFF_FFFF && Bounded(env, RootItem(env, root), n)
    requires Finishes(env, root, workers, sched) && Finishes(Limited(env, m), root, workers', sched')
    ensures var ts := Tagged(env, RootItem(env, root), n, 1);
      && multiset(AllSent(env, root, workers, sched)) == multiset(Untag(ts))
      && multiset(AllSent(Limited(env, m), root, workers', sched')) == multiset(UpTo(ts, m))
    ensures GoodNames(env.k) ==>
      multiset(AllSent(Limited(env, m), root, workers', sched'))
      == multiset(ShallowOnes(root, AllSent(env, root, workers, sched), m))
  {
    hide Run, Panics, Bounded, GoodNames, Finishes, Spec, Tagged, Limited, RootItem;
    var lim, it := Limited(env, m), RootItem(env, root);
    var ts := Tagged(env, it, n, 1);
    DepthLimitSelects(env, m, root, n);
    LimitedIsBounded(env, m, it, n);
    FinishedWalkSendsSpec(env, root, n, workers, sched);
    FinishedWalkSendsSpec(lim, root, n, workers', sched');
    UntagIsSpec(env, it, n, 1);
    if GoodNames(env.k) {
      RootLevel(env, root);
      TagsAreTrue(env, root, it, n, 1);
      TrueTagsSelect(root, ts, m);
      ShallowUpToOrder(root, Untag(ts), AllSent(env, root, workers, sched), m);
    }
  }

  lemma RootLevel(env: Env, root: Path)
    ensures AtLevel(root, RootItem(env, root), 1)
  {
    assert Spells(root, RootItem(env, root), []);
  }

  lemma {:induction false} FinishedWalkSendsSpec(env: Env, root: Path, n: nat, workers: nat, sched: seq<Action>)
    requires Bounded(env, RootItem(env, root), n) && Finishes(env, root, workers, sched)
    ensures multiset(AllSent(env, root, workers, sched)) == multiset(Spec(env, RootItem(env, root), n))
  {
    CompletedWalkPublishesSpec(env, root, n, workers, sched);
  }

  // The comparison in the source, with numbers that do not wrap.
  predicate BeyondLimit(m: uint32, depth: uint32) {
    m != 0 && depth + 1 > m
  }

  /** The wrapping comparison is right at every depth the limit allows if and only if the
      limit is not the largest uint32, which never stops anything. */
  lemma LimitIsExactIff(conf: Conf)
    ensures (forall d: uint32 :: d <= conf.maxDepth ==> (AtMaxDepth(conf, d) <==> BeyondLimit(conf.maxDepth, d)))
        <==> conf.maxDepth != 0xFFFF_FFFF
    ensures conf.maxDepth == 0xFFFF_FFFF ==> forall d: uint32 :: !AtMaxDepth(conf, d)
  {
    if conf.maxDepth == 0xFFFF_FFFF {
      var d: uint32 := 0xFFFF_FFFF;
      assert !AtMaxDepth(conf, d) && BeyondLimit(conf.maxDepth, d);
    }
  }

  // ----------------------------------------------------------------- skipping names

  function Erase(ds: seq<Dirent>, names: set<Name>): seq<Dirent> {
    if ds == [] then [] else (if ds[0].name in names then [] else [ds[0]]) + Erase(ds[1..], names)
  }

  // The same file system, listings with the names removed, link resolution untouched.
  function Erased(k: Kernel, names: set<Name>): Kernel {
    Kernel((p: Path) => match k.readdir(p)
                        case ReadFailed(e) => ReadFailed(e)
                        case Listing(ds) => Listing(Erase(ds, names)),
           k.stat)
  }

  function WithoutSkips(env: Env): Env {
    Env(Erased(env.k, env.conf.skip), env.conf.(skip := {}))
  }

  lemma {:induction false} FilterIsErase(ds: seq<Dirent>, skip: set<Name>)
    ensures Filter(Erase(ds, skip), {}) == Filter(ds, skip)
    decreases |ds|
  {
    if ds == [] {
    } else {
      FilterIsErase(ds[1..], skip);
      var rest := Erase(ds[1..], skip);
      assert ([ds[0]] + rest)[1..] == rest;
      assert ds[0].name in skip ==> Erase(ds, skip) == rest;
    }
  }

  lemma {:induction false} SameResolve(env: Env, env': Env, it: Item, es: seq<Entry>)
    requires env'.k.stat == env.k.stat && env'.conf == env.conf.(skip := env'.conf.skip)
    requires HasDev(env, it, es)
    ensures HasDev(env', it, es) && ResolveAll(env', it, es) == ResolveAll(env, it, es)
    decreases |es|
  {
    if es == [] {
    } else {
      SameResolve(env, env', it, es[1..]);
    }
  }

  lemma SkipRun(env: Env, it: Item)
    ensures Panics(WithoutSkips(env), it) <==> Panics(env, it)
    ensures !Panics(env, it) ==> Run(WithoutSkips(env), it) == Run(env, it)
  {
    var env' := WithoutSkips(env);
    if env.k.readdir(it.path).Listing? {
      FilterIsErase(env.k.readdir(it.path).ds, env.conf.skip);
      assert Seen(env', it.path) == Seen(env, it.path);
      if env.conf.followLinks && !Panics(env, it) {
        SameResolve(env, env', it, Seen(env, it.path));
      }
    }
  }

  /** Skipping is erasure: walking with a skip set publishes what walking without skips
      publishes on the file system whose listings lack those names. */
  lemma {:induction false} SkippingIsErasure(env: Env, it: Item, n: nat)
    ensures Spec(WithoutSkips(env), it, n) == Spec(env, it, n)
    decreases n, 0
  {
    SkipRun(env, it);
    if n > 0 && !Panics(env, it) {
      SkippingIsErasureAll(env, Run(env, it).spawn, n - 1);
    }
  }

  lemma {:induction false} SkippingIsErasureAll(env: Env, its: seq<Item>, n: nat)
    ensures SpecAll(WithoutSkips(env), its, n) == SpecAll(env, its, n)
    decreases n, |its| + 1
  {
    if its == [] {
    } else {
      SkippingIsErasure(env, its[0], n);
      SkippingIsErasureAll(env, its[1..], n);
    }
  }

  lemma {:induction false} SkippingIsBounded(env: Env, it: Item, n: nat)
    requires Bounded(env, it, n)
    ensures Bounded(WithoutSkips(env), it, n)
    decreases n
  {
    SkipRun(env, it);
    forall c | c in Run(env, it).spawn ensures Bounded(WithoutSkips(env), c, n - 1) {
      SkippingIsBounded(env, c, n - 1);
    }
  }

  /** Two completed walks, one with skips and one of the erased file system without, with
      any workers and any schedules, publish the same batches. */
  lemma {:induction false} SkippingWalksAgree(env: Env, root: Path, n: nat, workers: nat, sched: seq<Action>,
                           workers': nat, sched': seq<Action>)
    requires Bounded(env, RootItem(env, root), n)
    requires Finishes(env, root, workers, sched) && Finishes(WithoutSkips(env), root, workers', sched')
    ensures multiset(AllSent(WithoutSkips(env), root, workers', sched')) == multiset(AllSent(env, root, workers, sched))
  {
    hide Run, Panics, Bounded, Finishes, Spec;
    var it := RootItem(env, root);
    SkippingIsErasure(env, it, n);
    SkippingIsBounded(env, it, n);
    FinishedWalkSendsSpec(env, root, n, workers, sched);
    FinishedWalkSendsSpec(WithoutSkips(env), root, n, workers', sched');
  }

  // ------------------------------------------------------- following links, or not

  function Plain(env: Env): Env {
    env.(conf := env.conf.(followLinks := false))
  }

  function Bare(it: Item): Item {
    it.(chain := [])
  }

  function BareAll(its: seq<Item>): seq<Item> {
    seq(|its|, i requires 0 <= i < |its| => Bare(its[i]))
  }

  ghost predicate NoLinks(env: Env) {
    forall p: Path :: env.k.readdir(p).Listing? ==>
      forall i :: 0 <= i < |Seen(env, p)| ==> Seen(env, p)[i].typ != DT_LNK
  }

  lemma LinkFreeOne(env: Env, it: Item, e: Entry)
    requires env.conf.followLinks && e.typ != DT_LNK && (NeedsDev(env, it, e) ==> it.chain != [])
    ensures var v := Resolve(env, it, e);
      && v.kept == [e] && v.errs == []
      && BareAll(v.spawn) == if NeedsDev(env, it, e) then [Item(Join(it.path, e.name), Inc32(it.depth), [])] else []
  {
  }

  lemma BareAllConcat(a: seq<Item>, b: seq<Item>)
    ensures BareAll(a + b) == BareAll(a) + BareAll(b)
  {
  }

  lemma {:induction false} LinkFreeResolve(env: Env, it: Item, es: seq<Entry>)
    requires env.conf.followLinks && HasDev(env, it, es)
    requires forall i :: 0 <= i < |es| ==> es[i].typ != DT_LNK
    ensures var v := ResolveAll(env, it, es);
      && v.kept == es && v.errs == []
      && BareAll(v.spawn) == if AtMaxDepth(env.conf, it.depth) then [] else PlainSpawn(it, es)
    decreases |es|
  {
    if es == [] {
    } else {
      LinkFreeOne(env, it, es[0]);
      LinkFreeResolve(env, it, es[1..]);
      BareAllConcat(Resolve(env, it, es[0]).spawn, ResolveAll(env, it, es[1..]).spawn);
      assert es == [es[0]] + es[1..];
    }
  }

  lemma {:induction false} PlainSpawnIgnoresChain(it: Item, es: seq<Entry>)
    ensures PlainSpawn(Bare(it), es) == PlainSpawn(it, es)
    decreases |es|
  {
    if es == [] {
    } else {
      PlainSpawnIgnoresChain(it, es[1..]);
    }
  }

  lemma LinkFreeRun(env: Env, it: Item)
    requires env.conf.followLinks && NoLinks(env) && !Panics(env, it)
    ensures Run(Plain(env), Bare(it)) == Outcome(Run(env, it).batch, BareAll(Run(env, it).spawn))
  {
    if env.k.readdir(it.path).Listing? {
      assert Seen(Plain(env), it.path) == Seen(env, it.path);
      LinkFreeResolve(env, it, Seen(env, it.path));
      PlainSpawnIgnoresChain(it, Seen(env, it.path));
    } else {
      assert BareAll([]) == [];
    }
  }

  /** Where no listing has a symlink, following links refines the plain walk: the same
      batches, in particular the same entries and no per-entry errors. */
  lemma {:induction false} LinkFreeWalksAgree(env: Env, it: Item, n: nat)
    requires env.conf.followLinks && NoLinks(env) && Bounded(env, it, n)
    ensures Spec(Plain(env), Bare(it), n) == Spec(env, it, n)
    decreases n, 0
  {
    LinkFreeRun(env, it);
    LinkFreeWalksAgreeAll(env, Run(env, it).spawn, n - 1);
  }

  lemma {:induction false} LinkFreeWalksAgreeAll(env: Env, its: seq<Item>, n: nat)
    requires env.conf.followLinks && NoLinks(env) && forall c :: c in its ==> Bounded(env, c, n)
    ensures SpecAll(Plain(env), BareAll(its), n) == SpecAll(env, its, n)
    decreases n, |its| + 1
  {
    if its == [] {
    } else {
      LinkFreeWalksAgree(env, its[0], n);
      LinkFreeWalksAgreeAll(env, its[1..], n);
      assert BareAll(its)[0] == Bare(its[0]) && BareAll(its)[1..] == BareAll(its[1..]);
    }
  }

  lemma {:induction false} PlainIsBounded(env: Env, it: Item, n: nat)
    requires env.conf.followLinks && NoLinks(env) && Bounded(env, it, n)
    ensures Bounded(Plain(env), Bare(it), n)
    decreases n
  {
    LinkFreeRun(env, it);
    var spawn := Run(env, it).spawn;
    forall c | c in BareAll(spawn) ensures Bounded(Plain(env), c, n - 1) {
      var i :| 0 <= i < |spawn| && c == Bare(spawn[i]);
      assert spawn[i] in spawn;
      PlainIsBounded(env, spawn[i], n - 1);
    }
  }

  /** Two completed walks of a tree without symlinks, one following links and one not, with
      any workers and any schedules, publish the same batches. */
  lemma {:induction false} LinkFreeRunsAgree(env: Env, root: Path, n: nat, workers: nat, sched: seq<Action>,
                          workers': nat, sched': seq<Action>)
    requires env.conf.followLinks && NoLinks(env) && Bounded(env, RootItem(env, root), n)
    requires Finishes(env, root, workers, sched) && Finishes(Plain(env), root, workers', sched')
    ensures multiset(AllSent(Plain(env), root, workers', sched')) == multiset(AllSent(env, root, workers, sched))
  {
    hide Run, Panics, Bounded, Finishes, Spec, NoLinks;
    var it := RootItem(env, root);
    assert RootItem(Plain(env), root) == Bare(it);
    LinkFreeWalksAgree(env, it, n);
    PlainIsBounded(env, it, n);
    FinishedWalkSendsSpec(env, root, n, workers, sched);
    FinishedWalkSendsSpec(Plain(env), root, n, workers', sched');
  }
}
