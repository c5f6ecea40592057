/**
  What handling one directory means: the specification of visit and visitSym
  (walkman.go), over a static file system that answers readdir and stat by path.
 */
module Walk {
  import opened Chains
  import opened Paths

  type uint32 = x: int | 0 <= x < 0x1_0000_0000

  // uint32 addition wraps.
  function Inc32(d: uint32): (r: uint32)
    ensures if d == 0xFFFF_FFFF then r == 0 else r == d + 1
  {
    (d + 1) % 0x1_0000_0000
  }

  const DT_UNKNOWN: byte := 0
  const DT_DIR: byte := 4
  const DT_REG: byte := 8
  const DT_LNK: byte := 10

  // ------------------------------------------------------------- the file system

  // One record of a directory listing.
  datatype Dirent = Dirent(name: Name, typ: byte, ino: nat)

  datatype ReadResult = ReadFailed(errno: nat) | Listing(ds: seq<Dirent>)

  datatype Mode = ModeDir | ModeSymlink | ModeRegular | ModeOther

  // os.Stat, which follows links: an error, a result without dev/ino, or a full one.
  datatype StatResult = StatFailed | NoSys(mode: Mode) | Info(mode: Mode, id: Id)

  datatype Kernel = Kernel(readdir: Path -> ReadResult, stat: Path -> StatResult)

  datatype Conf = Conf(followLinks: bool, maxDepth: uint32, skip: set<Name>)

  datatype Env = Env(k: Kernel, conf: Conf)

  predicate Wanted(name: Name, skip: set<Name>) {
    name != [DOT] && name != [DOT, DOT] && name !in skip
  }

  function Filter(ds: seq<Dirent>, skip: set<Name>): (r: seq<Dirent>) {
    if ds == [] then [] else
    (if Wanted(ds[0].name, skip) then [ds[0]] else []) + Filter(ds[1..], skip)
  }

  /** Where the wanted names are: in order, all but ".", ".." and the skipped ones. */
  function WantedAt(names: seq<Name>, skip: set<Name>): (at: seq<nat>)
    ensures forall j :: 0 <= j < |at| ==> at[j] < |names|
    ensures forall j, k :: 0 <= j < k < |at| ==> at[j] < at[k]
    ensures forall i: nat :: i in at <==>
      i < |names| && names[i] != [46] && names[i] != [46, 46] && names[i] !in skip
  {
    if names == [] then [] else
    var last := |names| - 1;
    WantedAt(names[..last], skip) + if Wanted(names[last], skip) then [last] else []
  }

  function NamesOf(ds: seq<Dirent>): (names: seq<Name>) {
    seq(|ds|, i requires 0 <= i < |ds| => ds[i].name)
  }

  lemma {:induction false} FilterSnoc(ds: seq<Dirent>, d: Dirent, skip: set<Name>)
    ensures Filter(ds + [d], skip) == Filter(ds, skip) + if Wanted(d.name, skip) then [d] else []
    decreases |ds|
  {
    if ds == [] {
      assert [] + [d] == [d] && [d][1..] == [];
    } else {
      hide Wanted;
      assert (ds + [d])[0] == ds[0] && (ds + [d])[1..] == ds[1..] + [d];
      FilterSnoc(ds[1..], d, skip);
      var first := if Wanted(ds[0].name, skip) then [ds[0]] else [];
      var last := if Wanted(d.name, skip) then [d] else [];
      assert first + (Filter(ds[1..], skip) + last) == (first + Filter(ds[1..], skip)) + last;
    }
  }

  /** Filtering picks the records at these places, in order and unchanged. */
  lemma {:induction false} FilterPicks(ds: seq<Dirent>, skip: set<Name>)
    ensures var at, r := WantedAt(NamesOf(ds), skip), Filter(ds, skip);
      |r| == |at| && forall j :: 0 <= j < |at| ==> r[j] == ds[at[j]]
    decreases |ds|
  {
    if ds == [] {
    } else {
      var init, last := ds[..|ds| - 1], |ds| - 1;
      assert ds == init + [ds[last]] && NamesOf(ds)[..last] == NamesOf(init);
      FilterSnoc(init, ds[last], skip);
      FilterPicks(init, skip);
    }
  }

  // ------------------------------------------------------------------ the results

  datatype Entry = Entry(parentDir: Path, name: Name, ino: nat, typ: byte)

  datatype Error = CannotRead(errno: nat) | Dangling | NoDevIno | Cycle

  datatype DirErr = DirErr(name: Name, err: Error)

  datatype Batch = Batch(dir: Path, entries: seq<Entry>, errs: seq<DirErr>)

  // A directory to handle.  chain: the identities on its ancestor chain, its own first.
  datatype Item = Item(path: Path, depth: uint32, chain: seq<Id>)

  datatype Outcome = Outcome(batch: Batch, spawn: seq<Item>)

  function EntryOf(dir: Path, d: Dirent): Entry {
    Entry(dir, d.name, d.ino, d.typ)
  }

  function Entries(dir: Path, ds: seq<Dirent>): (es: seq<Entry>)
    ensures |es| == |ds|
  {
    seq(|ds|, i requires 0 <= i < |ds| => EntryOf(dir, ds[i]))
  }

  // The entries the walk sees in a directory it could read.
  function Seen(env: Env, dir: Path): seq<Entry>
    requires env.k.readdir(dir).Listing?
  {
    Entries(dir, Filter(env.k.readdir(dir).ds, env.conf.skip))
  }

  predicate AtMaxDepth(conf: Conf, depth: uint32) {
    conf.maxDepth != 0 && Inc32(depth) > conf.maxDepth
  }

  function Unreadable(dir: Path, errno: nat): Outcome {
    Outcome(Batch(dir, [], [DirErr(dir, CannotRead(errno))]), [])
  }

  // ------------------------------------------------------------------------ visit

  function PlainSpawn(it: Item, es: seq<Entry>): seq<Item> {
    if es == [] then [] else
    (if es[0].typ == DT_DIR then [Item(Join(it.path, es[0].name), Inc32(it.depth), [])] else [])
    + PlainSpawn(it, es[1..])
  }

  function Visit(env: Env, it: Item): Outcome {
    match env.k.readdir(it.path)
    case ReadFailed(e) => Unreadable(it.path, e)
    case Listing(_) =>
      var es := Seen(env, it.path);
      Outcome(Batch(it.path, es, []), if AtMaxDepth(env.conf, it.depth) then [] else PlainSpawn(it, es))
  }

  // --------------------------------------------------------------------- visitSym

  // What one entry contributes: kept entries, errors and spawned items, zero or one each.
  datatype Verdict = Verdict(kept: seq<Entry>, errs: seq<DirErr>, spawn: seq<Item>)

  function Plus(a: Verdict, b: Verdict): Verdict {
    Verdict(a.kept + b.kept, a.errs + b.errs, a.spawn + b.spawn)
  }

  const NOTHING := Verdict([], [], [])

  function DTypeFromInfo(mode: Mode): byte {
    match mode
    case ModeDir => DT_DIR
    case ModeSymlink => DT_LNK
    case ModeRegular => DT_REG
    case ModeOther => DT_UNKNOWN
  }

  // The source dereferences item.ancestor.dev here.
  predicate NeedsDev(env: Env, it: Item, e: Entry) {
    e.typ == DT_DIR && !AtMaxDepth(env.conf, it.depth)
  }

  // That pointer is not nil, or is never needed.
  ghost predicate HasDev(env: Env, it: Item, es: seq<Entry>) {
    it.chain == [] ==> forall i :: 0 <= i < |es| ==> !NeedsDev(env, it, es[i])
  }

  function Resolve(env: Env, it: Item, e: Entry): Verdict
    requires NeedsDev(env, it, e) ==> it.chain != []
  {
    var child := Join(it.path, e.name);
    if e.typ == DT_LNK then
      match env.k.stat(child)
      case StatFailed => Verdict([], [DirErr(e.name, Dangling)], [])
      case NoSys(_) => Verdict([e], [DirErr(e.name, NoDevIno)], [])
      case Info(mode, id) =>
        if mode != ModeDir then Verdict([e.(typ := DTypeFromInfo(mode))], [], [])
        else if id in it.chain then Verdict([], [DirErr(e.name, Cycle)], [])
        else Verdict([e.(typ := DT_DIR)], [],
                     if AtMaxDepth(env.conf, it.depth) then []
                     else [Item(child, Inc32(it.depth), [id] + it.chain)])
    else if NeedsDev(env, it, e) then
      Verdict([e], [], [Item(child, Inc32(it.depth), [Id(e.ino, it.chain[0].dev)] + it.chain)])
    else
      Verdict([e], [], [])
  }

  function ResolveAll(env: Env, it: Item, es: seq<Entry>): Verdict
    requires HasDev(env, it, es)
  {
    if es == [] then NOTHING else
    Plus(Resolve(env, it, es[0]), ResolveAll(env, it, es[1..]))
  }

  // A nil pointer dereference: no ancestor, but a subdirectory to descend into.
  ghost predicate Panics(env: Env, it: Item) {
    && env.conf.followLinks && it.chain == [] && env.k.readdir(it.path).Listing?
    && exists i :: 0 <= i < |Seen(env, it.path)| && NeedsDev(env, it, Seen(env, it.path)[i])
  }

  function VisitSym(env: Env, it: Item): Outcome
    requires env.conf.followLinks && !Panics(env, it)
  {
    match env.k.readdir(it.path)
    case ReadFailed(e) => Unreadable(it.path, e)
    case Listing(_) =>
      var v := ResolveAll(env, it, Seen(env, it.path));
      Outcome(Batch(it.path, v.kept, v.errs), v.spawn)
  }

  // ------------------------------------------------------------------- whole walks

  function Run(env: Env, it: Item): Outcome
    requires !Panics(env, it)
  {
    if env.conf.followLinks then VisitSym(env, it) else Visit(env, it)
  }

  // The batches of the items, in order.
  ghost function RunAll(env: Env, its: seq<Item>): seq<Batch>
    requires forall i :: 0 <= i < |its| ==> !Panics(env, its[i])
  {
    if its == [] then [] else RunAll(env, its[..|its| - 1]) + [Run(env, its[|its| - 1]).batch]
  }

  // Walk: the item handed to the pool first.  root is already cleaned.
  function RootItem(env: Env, root: Path): Item {
    Item(root, 1,
         if env.conf.followLinks && env.k.stat(root).Info? then [env.k.stat(root).id] else [])
  }

  // The recursive specification: the batches of the first n levels below it, in preorder.
  ghost function Spec(env: Env, it: Item, n: nat): seq<Batch>
    decreases n, 0
  {
    if n == 0 || Panics(env, it) then [] else
    [Run(env, it).batch] + SpecAll(env, Run(env, it).spawn, n - 1)
  }

  ghost function SpecAll(env: Env, its: seq<Item>, n: nat): seq<Batch>
    decreases n, |its| + 1
  {
    if its == [] then [] else Spec(env, its[0], n) + SpecAll(env, its[1..], n)
  }

  // The walk below it has at most n levels and never dereferences nil.
  ghost predicate Bounded(env: Env, it: Item, n: nat)
    decreases n
  {
    && n > 0 && !Panics(env, it)
    && forall c :: c in Run(env, it).spawn ==> Bounded(env, c, n - 1)
  }

  lemma {:induction false} BoundedMore(env: Env, it: Item, n: nat, m: nat)
    requires Bounded(env, it, n) && n <= m
    ensures Bounded(env, it, m)
    decreases n
  {
    forall c | c in Run(env, it).spawn ensures Bounded(env, c, m - 1) {
      BoundedMore(env, c, n - 1, m - 1);
    }
  }

  // Once the bound is large enough, Spec is the whole walk.
  lemma {:induction false} SpecIsWhole(env: Env, it: Item, n: nat, m: nat)
    requires Bounded(env, it, n) && n <= m
    ensures Spec(env, it, m) == Spec(env, it, n)
    decreases n, 0
  {
    SpecAllIsWhole(env, Run(env, it).spawn, n - 1, m - 1);
  }

  lemma {:induction false} SpecAllIsWhole(env: Env, its: seq<Item>, n: nat, m: nat)
    requires (forall c :: c in its ==> Bounded(env, c, n)) && n <= m
    ensures SpecAll(env, its, m) == SpecAll(env, its, n)
    decreases n, |its| + 1
  {
    if its == [] {
    } else {
      SpecIsWhole(env, its[0], n, m);
      SpecAllIsWhole(env, its[1..], n, m);
    }
  }

  // -------------------------------------------------- facts about a single directory

  lemma PlusAssociates(a: Verdict, b: Verdict, c: Verdict)
    ensures Plus(Plus(a, b), c) == Plus(a, Plus(b, c))
  {
  }

  lemma {:induction false} ResolveAllConcat(env: Env, it: Item, a: seq<Entry>, b: seq<Entry>)
    requires HasDev(env, it, a)
    requires HasDev(env, it, b)
    ensures HasDev(env, it, a + b)
    ensures ResolveAll(env, it, a + b) == Plus(ResolveAll(env, it, a), ResolveAll(env, it, b))
    decreases |a|
  {
    if a == [] {
      assert a + b == b;
      assert Plus(NOTHING, ResolveAll(env, it, b)) == ResolveAll(env, it, b);
    } else {
      assert (a + b)[0] == a[0] && (a + b)[1..] == a[1..] + b;
      ResolveAllConcat(env, it, a[1..], b);
      PlusAssociates(Resolve(env, it, a[0]), ResolveAll(env, it, a[1..]), ResolveAll(env, it, b));
    }
  }

  /** Nothing is lost or invented: kept and dropped entries add up to the listing, and
      there is one error for every entry that was dropped or could not be identified. */
  lemma {:induction false} EveryEntryAccounted(env: Env, it: Item, es: seq<Entry>)
    requires HasDev(env, it, es)
    ensures var v := ResolveAll(env, it, es);
      |es| == |v.kept| + |v.errs| - UnidentifiedCount(env, it, es)
    decreases |es|
  {
    if es == [] {
    } else {
      EveryEntryAccounted(env, it, es[1..]);
    }
  }

  function UnidentifiedCount(env: Env, it: Item, es: seq<Entry>): nat {
    if es == [] then 0 else
    (if es[0].typ == DT_LNK && env.k.stat(Join(it.path, es[0].name)).NoSys? then 1 else 0)
    + UnidentifiedCount(env, it, es[1..])
  }

  // e is the reason c was spawned.
  ghost predicate SpawnedBy(env: Env, it: Item, e: Entry, c: Item) {
    && !AtMaxDepth(env.conf, it.depth)
    && c.path == Join(it.path, e.name) && c.depth == Inc32(it.depth)
    && if !env.conf.followLinks then e.typ == DT_DIR && c.chain == []
       else if e.typ == DT_DIR then it.chain != [] && c.chain == [Id(e.ino, it.chain[0].dev)] + it.chain
       else && e.typ == DT_LNK && env.k.stat(c.path).Info? && env.k.stat(c.path).mode == ModeDir
            && env.k.stat(c.path).id !in it.chain
            && c.chain == [env.k.stat(c.path).id] + it.chain
  }

  lemma {:induction false} PlainSpawnReason(env: Env, it: Item, es: seq<Entry>, c: Item)
    requires !env.conf.followLinks && !AtMaxDepth(env.conf, it.depth) && c in PlainSpawn(it, es)
    ensures exists e :: e in es && SpawnedBy(env, it, e, c)
  {
    if es[0].typ == DT_DIR && c == Item(Join(it.path, es[0].name), Inc32(it.depth), []) {
      assert SpawnedBy(env, it, es[0], c);
    } else {
      PlainSpawnReason(env, it, es[1..], c);
      var e :| e in es[1..] && SpawnedBy(env, it, e, c);
      assert e in es;
    }
  }

  lemma {:induction false} SymSpawnReason(env: Env, it: Item, es: seq<Entry>, c: Item)
    requires HasDev(env, it, es)
    requires env.conf.followLinks && c in ResolveAll(env, it, es).spawn
    ensures exists e :: e in es && SpawnedBy(env, it, e, c)
  {
    if c in Resolve(env, it, es[0]).spawn {
      assert SpawnedBy(env, it, es[0], c);
    } else {
      SymSpawnReason(env, it, es[1..], c);
      var e :| e in es[1..] && SpawnedBy(env, it, e, c);
      assert e in es;
    }
  }

  lemma {:induction false} PlainSpawnHas(it: Item, es: seq<Entry>, i: nat)
    requires i < |es| && es[i].typ == DT_DIR
    ensures Item(Join(it.path, es[i].name), Inc32(it.depth), []) in PlainSpawn(it, es)
    decreases |es|
  {
    if i > 0 {
      PlainSpawnHas(it, es[1..], i - 1);
    }
  }

  /** Every spawned item has an entry of this directory as its reason. */
  lemma SpawnReason(env: Env, it: Item, c: Item) returns (e: Entry)
    requires !Panics(env, it) && c in Run(env, it).spawn
    ensures env.k.readdir(it.path).Listing? && e in Seen(env, it.path) && SpawnedBy(env, it, e, c)
  {
    var es := Seen(env, it.path);
    if env.conf.followLinks {
      SymSpawnReason(env, it, es, c);
    } else {
      PlainSpawnReason(env, it, es, c);
    }
    e :| e in es && SpawnedBy(env, it, e, c);
  }
}
