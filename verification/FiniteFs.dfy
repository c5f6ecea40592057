/**
  Concrete finite file systems with symbolic links, and the proof that what the walk
  theorems ask of a file system holds of every one of them.
 */
module FiniteFs {
  import opened Chains
  import opened Paths
  import opened Walk
  import opened Termination
  import opened Cycles

  // What an entry leads to once links are followed.
  datatype Target =
    | Missing                        // dangling, or a chain the kernel refuses
    | Unidentified(mode: Mode)       // stat without dev/ino
    | Other(mode: Mode, id: Id)      // anything but a directory
    | Dir(d: nat)                    // a directory, by number

  datatype DirEntry = DirEntry(ent: Dirent, target: Target)

  // errno: why it cannot be listed, if it cannot.
  datatype Directory = Directory(id: Id, errno: Option<nat>, entries: seq<DirEntry>)

  // rank: plain subdirectories have smaller rank, so they form a forest.
  datatype Fs = Fs(dirs: seq<Directory>, rank: seq<nat>, start: nat)

  const ENOENT: nat := 2

  function Listed(es: seq<DirEntry>): seq<Dirent> {
    seq(|es|, i requires 0 <= i < |es| => es[i].ent)
  }

  ghost predicate WellFormed(fs: Fs) {
    && fs.start < |fs.dirs| && |fs.rank| == |fs.dirs|
    && forall i :: 0 <= i < |fs.dirs| ==> DirectoryOk(fs, i)
  }

  ghost predicate DirectoryOk(fs: Fs, i: nat)
    requires i < |fs.dirs| == |fs.rank|
  {
    && GoodListing(Listed(fs.dirs[i].entries))
    && forall j :: 0 <= j < |fs.dirs[i].entries| ==> EntryOk(fs, i, fs.dirs[i].entries[j])
  }

  ghost predicate EntryOk(fs: Fs, i: nat, e: DirEntry)
    requires i < |fs.dirs| == |fs.rank|
  {
    && (e.target.Dir? ==> e.target.d < |fs.dirs|)
    && (e.target.Other? ==> e.target.mode != ModeDir)
    && (e.ent.typ == DT_DIR && Wanted(e.ent.name, {}) ==>
          e.target.Dir? && fs.rank[e.target.d] < fs.rank[i])
  }

  function Find(es: seq<DirEntry>, name: Name): Target {
    if es == [] then Missing else if es[0].ent.name == name then es[0].target else Find(es[1..], name)
  }

  // The directory that a relative path leads to.
  function Lookup(fs: Fs, from: nat, names: seq<Name>): Option<nat>
    decreases |names|
  {
    if names == [] then Some(from) else
    match Lookup(fs, from, names[..|names| - 1])
    case None => None
    case Some(d) =>
      if d >= |fs.dirs| then None else
      match Find(fs.dirs[d].entries, names[|names| - 1])
      case Dir(c) => Some(c)
      case _ => None
  }

  // Paths in the form the walk builds them: root, or root followed by names.
  predicate Canonical(root: Path, p: Path) {
    p == root || (Sep(root) <= p && |p| > |Sep(root)| && p[|p| - 1] != SLASH)
  }

  function DirAt(fs: Fs, root: Path, p: Path): Option<nat> {
    if p == root then Some(fs.start)
    else if Canonical(root, p) then Lookup(fs, fs.start, Below(root, p))
    else None
  }

  function TargetAt(fs: Fs, root: Path, p: Path): Target {
    if p == root then Dir(fs.start) else
    var names := Below(root, p);
    if !Canonical(root, p) || names == [] then Missing else
    match Lookup(fs, fs.start, names[..|names| - 1])
    case None => Missing
    case Some(d) => if d < |fs.dirs| then Find(fs.dirs[d].entries, names[|names| - 1]) else Missing
  }

  function Answer(fs: Fs, t: Target): StatResult {
    match t
    case Missing => StatFailed
    case Unidentified(mode) => NoSys(mode)
    case Other(mode, id) => Info(mode, id)
    case Dir(d) => if d < |fs.dirs| then Info(ModeDir, fs.dirs[d].id) else StatFailed
  }

  function ReadAt(fs: Fs, d: Option<nat>): ReadResult {
    match d
    case None => ReadFailed(ENOENT)
    case Some(i) =>
      if i >= |fs.dirs| then ReadFailed(ENOENT) else
      match fs.dirs[i].errno
      case Some(e) => ReadFailed(e)
      case None => Listing(Listed(fs.dirs[i].entries))
  }

  // The kernel's answers when root names the start directory.  openat stops at the first
  // NUL of a path, os.Stat refuses a path that holds one.
  function KernelOf(fs: Fs, root: Path): Kernel {
    Kernel((p: Path) => if p[0] == NUL then ReadFailed(ENOENT) else ReadAt(fs, DirAt(fs, root, CString(p))),
           (p: Path) => if NulFree(p) then Answer(fs, TargetAt(fs, root, p)) else StatFailed)
  }

  function EnvOf(fs: Fs, root: Path, conf: Conf): Env {
    Env(KernelOf(fs, root), conf)
  }

  // ------------------------------------------------------------------------ lookups

  lemma {:induction false} FindIn(es: seq<DirEntry>, name: Name)
    ensures Find(es, name) != Missing ==>
      exists j :: 0 <= j < |es| && es[j].ent.name == name && es[j].target == Find(es, name)
    decreases |es|
  {
    if es != [] && es[0].ent.name != name {
      FindIn(es[1..], name);
      if Find(es, name) != Missing {
        var j :| 0 <= j < |es[1..]| && es[1..][j].ent.name == name && es[1..][j].target == Find(es, name);
        assert es[j + 1].ent.name == name;
      }
    }
  }

  lemma {:induction false} FindIs(es: seq<DirEntry>, j: nat)
    requires j < |es| && forall i, k :: 0 <= i < k < |es| ==> es[i].ent.name != es[k].ent.name
    ensures Find(es, es[j].ent.name) == es[j].target
    decreases |es|
  {
    if j > 0 {
      FindIs(es[1..], j - 1);
    }
  }

  lemma {:induction false} LookupInRange(fs: Fs, names: seq<Name>)
    requires WellFormed(fs)
    ensures var d := Lookup(fs, fs.start, names); d.Some? ==> d.value < |fs.dirs|
    decreases |names|
  {
    if names == [] {
    } else {
      var init, last := names[..|names| - 1], names[|names| - 1];
      LookupInRange(fs, init);
      var d := Lookup(fs, fs.start, init);
      if d.Some? {
        FindIn(fs.dirs[d.value].entries, last);
        assert DirectoryOk(fs, d.value);
      }
    }
  }

  lemma ChildCanonical(root: Path, p: Path, n: Name)
    requires Canonical(root, p) && GoodName(n)
    ensures Canonical(root, Join(p, n)) && Join(p, n) != root
    ensures p != root ==> Below(root, Join(p, n)) == Below(root, p) + [n]
    ensures p == root ==> Below(root, Join(p, n)) == [n]
  {
    var q := Join(p, n);
    assert q[|q| - 1] == n[|n| - 1];
    if p == root {
      BelowJoinRoot(root, n);
    } else {
      BelowJoin(root, p, n);
    }
  }

  lemma FindEntry(fs: Fs, i: nat, j: nat)
    requires WellFormed(fs) && i < |fs.dirs| && j < |fs.dirs[i].entries|
    ensures GoodName(fs.dirs[i].entries[j].ent.name) && EntryOk(fs, i, fs.dirs[i].entries[j])
    ensures Find(fs.dirs[i].entries, fs.dirs[i].entries[j].ent.name) == fs.dirs[i].entries[j].target
  {
    var es := fs.dirs[i].entries;
    assert DirectoryOk(fs, i) && Listed(es)[j] == es[j].ent;
    forall a, b | 0 <= a < b < |es| ensures es[a].ent.name != es[b].ent.name {
      assert Listed(es)[a].name != Listed(es)[b].name;
    }
    FindIs(es, j);
  }

  // The names below root of the directory itself.
  function Base(root: Path, p: Path): seq<Name> {
    if p == root then [] else Below(root, p)
  }

  // Looking up a child is finding its name in the directory.
  lemma ChildTarget(fs: Fs, root: Path, p: Path, j: nat)
    requires WellFormed(fs) && DirAt(fs, root, p).Some? && DirAt(fs, root, p).value < |fs.dirs|
    requires j < |fs.dirs[DirAt(fs, root, p).value].entries|
    ensures var e := fs.dirs[DirAt(fs, root, p).value].entries[j];
      && TargetAt(fs, root, Join(p, e.ent.name)) == e.target
      && (e.target.Dir? ==> DirAt(fs, root, Join(p, e.ent.name)) == Some(e.target.d))
  {
    hide Find, Below, WellFormed;
    var i := DirAt(fs, root, p).value;
    var e := fs.dirs[i].entries[j];
    FindEntry(fs, i, j);
    ChildCanonical(root, p, e.ent.name);
    var names := Base(root, p) + [e.ent.name];
    assert Below(root, Join(p, e.ent.name)) == names;
    assert names[..|names| - 1] == Base(root, p);
    assert Lookup(fs, fs.start, Base(root, p)) == Some(i);
  }

  lemma TargetInRange(fs: Fs, root: Path, p: Path)
    requires WellFormed(fs)
    ensures var t := TargetAt(fs, root, p);
      && (t.Dir? ==> t.d < |fs.dirs|)
      && (t.Other? ==> t.mode != ModeDir && exists i, j :: 0 <= i < |fs.dirs| && 0 <= j < |fs.dirs[i].entries|
                                                         && fs.dirs[i].entries[j].target == t)
  {
    var t, names := TargetAt(fs, root, p), Below(root, p);
    if p != root && names != [] {
      var init, last := names[..|names| - 1], names[|names| - 1];
      LookupInRange(fs, init);
      var d := Lookup(fs, fs.start, init);
      if d.Some? {
        FindIn(fs.dirs[d.value].entries, last);
        assert DirectoryOk(fs, d.value);
      }
    }
  }

  // --------------------------------------------------------- the assumptions are met

  function MaxRank(rank: seq<nat>): (m: nat)
    ensures forall i :: 0 <= i < |rank| ==> rank[i] < m
  {
    if rank == [] then 0 else
    var m := MaxRank(rank[1..]);
    assert forall i :: 1 <= i < |rank| ==> rank[i] == rank[1..][i - 1];
    if rank[0] < m then m else rank[0] + 1
  }

  ghost function ShapeOf(fs: Fs, root: Path): Shape {
    Shape(set i | 0 <= i < |fs.dirs| :: fs.dirs[i].id,
          (p: Path) => HeightAt(fs, DirAt(fs, root, p)),
          MaxRank(fs.rank))
  }

  function HeightAt(fs: Fs, d: Option<nat>): nat {
    match d
    case None => 0
    case Some(i) => if i < |fs.rank| then fs.rank[i] else 0
  }

  lemma ListedEntry(fs: Fs, root: Path, p: Path, d: Dirent) returns (j: nat)
    requires WellFormed(fs) && NulFree(p) && HasPlainDir(KernelOf(fs, root), p, d)
    ensures var at := DirAt(fs, root, p);
      && at.Some? && at.value < |fs.dirs| && j < |fs.dirs[at.value].entries|
      && fs.dirs[at.value].entries[j].ent == d
  {
    CStringOfNulFree(p);
    var es := fs.dirs[DirAt(fs, root, p).value].entries;
    j :| 0 <= j < |es| && Listed(es)[j] == d;
  }

  lemma ListingsAreGood(fs: Fs, root: Path)
    requires WellFormed(fs)
    ensures GoodNames(KernelOf(fs, root))
  {
    var k := KernelOf(fs, root);
    forall p: Path | k.readdir(p).Listing? ensures GoodListing(k.readdir(p).ds) {
      assert DirectoryOk(fs, DirAt(fs, root, CString(p)).value);
    }
  }

  lemma KernelStopsAtNul(fs: Fs, root: Path)
    ensures StopsAtNul(KernelOf(fs, root))
  {
    var k := KernelOf(fs, root);
    forall p: Path | !NulFree(p) && p[0] != NUL ensures k.readdir(p) == k.readdir(CString(p)) {
      CStringTwice(p);
    }
  }

  /** Every well-formed finite file system meets the finiteness assumption, with as many
      identities as it has directories at most, whatever path it is then walked from. */
  lemma EveryFsIsFinite(fs: Fs, root: Path)
    requires WellFormed(fs) && NulFree(root)
    ensures Finite(KernelOf(fs, root), ShapeOf(fs, root)) && StopsAtNul(KernelOf(fs, root))
    ensures GoodNames(KernelOf(fs, root))
    ensures KernelOf(fs, root).stat(root) == Info(ModeDir, fs.dirs[fs.start].id)
    ensures |ShapeOf(fs, root).ids| <= |fs.dirs|
  {
    hide ReadAt, DirAt, TargetAt, MaxRank, HasPlainDir, HeightAt, Answer;
    assert WellFormed(fs) && fs.start < |fs.dirs|;
    HeightsAreBounded(fs, root);
    ListingsAreGood(fs, root);
    KernelStopsAtNul(fs, root);
    IdsAreListed(fs, root);
    NamesAreNulFree(fs, root);
    PlainTreesDescend(fs, root);
    RootIsStart(fs, root);
    IdCount(fs.dirs);
  }

  lemma HeightsAreBounded(fs: Fs, root: Path)
    requires WellFormed(fs)
    ensures forall p: Path :: ShapeOf(fs, root).height(p) < ShapeOf(fs, root).max
  {
    hide DirAt;
    assert fs.rank[0] < MaxRank(fs.rank);
  }

  lemma IdsAreListed(fs: Fs, root: Path)
    requires WellFormed(fs)
    ensures var k := KernelOf(fs, root);
      forall p: Path :: k.stat(p).Info? && k.stat(p).mode == ModeDir ==> k.stat(p).id in ShapeOf(fs, root).ids
  {
    var k := KernelOf(fs, root);
    forall p: Path | k.stat(p).Info? && k.stat(p).mode == ModeDir ensures k.stat(p).id in ShapeOf(fs, root).ids {
      StatOfDirectory(fs, root, p);
    }
  }

  lemma NamesAreNulFree(fs: Fs, root: Path)
    requires WellFormed(fs)
    ensures var k := KernelOf(fs, root);
      forall p: Path, d: Dirent :: k.readdir(p).Listing? && d in k.readdir(p).ds ==> NulFree(d.name)
  {
    hide DirAt, ReadAt;
    ListingsAreGood(fs, root);
    var k := KernelOf(fs, root);
    forall p: Path, d: Dirent | k.readdir(p).Listing? && d in k.readdir(p).ds ensures NulFree(d.name) {
      assert GoodListing(k.readdir(p).ds);
    }
  }

  lemma PlainTreesDescend(fs: Fs, root: Path)
    requires WellFormed(fs)
    ensures var k, sh := KernelOf(fs, root), ShapeOf(fs, root);
      forall p: Path, d: Dirent :: NulFree(p) && HasPlainDir(k, p, d) ==> sh.height(Join(p, d.name)) < sh.height(p)
  {
    hide MaxRank, DirAt, TargetAt;
    var k, sh := KernelOf(fs, root), ShapeOf(fs, root);
    forall p: Path, d: Dirent | NulFree(p) && HasPlainDir(k, p, d) ensures sh.height(Join(p, d.name)) < sh.height(p) {
      var j := ListedEntry(fs, root, p, d);
      ChildTarget(fs, root, p, j);
      assert DirectoryOk(fs, DirAt(fs, root, p).value);
    }
  }

  lemma RootIsStart(fs: Fs, root: Path)
    requires WellFormed(fs) && NulFree(root)
    ensures KernelOf(fs, root).stat(root) == Info(ModeDir, fs.dirs[fs.start].id)
  {
  }

  lemma IdCount(dirs: seq<Directory>)
    ensures |set i | 0 <= i < |dirs| :: dirs[i].id| <= |dirs|
    decreases |dirs|
  {
    var n := |dirs|;
    if n > 0 {
      var init := dirs[..n - 1];
      IdCount(init);
      assert (set i | 0 <= i < |dirs| :: dirs[i].id) == (set i | 0 <= i < |init| :: init[i].id) + {dirs[n - 1].id};
    }
  }

  lemma StatOfDirectory(fs: Fs, root: Path, p: Path)
    requires WellFormed(fs) && Answer(fs, TargetAt(fs, root, p)).Info?
    requires Answer(fs, TargetAt(fs, root, p)).mode == ModeDir
    ensures exists i :: 0 <= i < |fs.dirs| && fs.dirs[i].id == Answer(fs, TargetAt(fs, root, p)).id
  {
    TargetInRange(fs, root, p);
    assert fs.dirs[TargetAt(fs, root, p).d].id == Answer(fs, TargetAt(fs, root, p)).id;
  }

  /** The walk of every well-formed finite file system, following links with no depth
      limit, has at most as many levels as directories times ranks. */
  lemma EveryFsWalkIsFinite(fs: Fs, root: Path, conf: Conf)
    requires WellFormed(fs) && NulFree(root) && conf.followLinks
    ensures Bounded(EnvOf(fs, root, conf), RootItem(EnvOf(fs, root, conf), root), LevelBound(fs))
  {
    hide Bounded, Finite, GoodNames, StopsAtNul, Panics, MaxRank;
    var env, sh := EnvOf(fs, root, conf), ShapeOf(fs, root);
    EveryFsIsFinite(fs, root);
    RootIsSafe(env, root);
    FollowingWalkIsFinite(env, sh, root);
    MulMonotone(|sh.ids|, |fs.dirs|, sh.max);
    BoundedMore(env, RootItem(env, root), |sh.ids| * sh.max, LevelBound(fs));
  }

  function LevelBound(fs: Fs): nat {
    |fs.dirs| * MaxRank(fs.rank)
  }

  lemma RootIsSafe(env: Env, root: Path)
    requires env.k.stat(root).Info?
    ensures !Panics(env, RootItem(env, root))
  {
  }

  // ------------------------------------------------------------------- one device

  ghost predicate SingleDevice(fs: Fs, dev: nat) {
    && (forall i :: 0 <= i < |fs.dirs| ==> fs.dirs[i].id.dev == dev)
    && (forall i, j :: 0 <= i < |fs.dirs| && 0 <= j < |fs.dirs[i].entries| ==>
          EntryOnDevice(fs, dev, fs.dirs[i].entries[j]))
  }

  // Inode numbers in listings agree with stat.
  ghost predicate EntryOnDevice(fs: Fs, dev: nat, e: DirEntry) {
    && (e.target.Other? ==> e.target.id.dev == dev)
    && (e.target.Dir? && e.target.d < |fs.dirs| && e.ent.typ == DT_DIR ==>
          e.ent.ino == fs.dirs[e.target.d].id.ino)
  }

  /** On one device the assumption of exact cycle detection is met too. */
  lemma EverySingleDeviceFs(fs: Fs, root: Path, dev: nat)
    requires WellFormed(fs) && SingleDevice(fs, dev)
    ensures OneDevice(KernelOf(fs, root), dev)
  {
    hide Canonical, Below, Lookup, TargetAt, Find;
    var k := KernelOf(fs, root);
    forall p: Path | k.stat(p).Info? ensures k.stat(p).id.dev == dev {
      TargetInRange(fs, root, p);
    }
    forall p: Path, d: Dirent | NulFree(p) && HasPlainDir(k, p, d)
      ensures k.stat(Join(p, d.name)) == Info(ModeDir, Id(d.ino, dev))
    {
      ListingsAreGood(fs, root);
      assert GoodListing(k.readdir(p).ds);
      JoinNulFree(p, d.name);
      var j := ListedEntry(fs, root, p, d);
      var i := DirAt(fs, root, p).value;
      ChildTarget(fs, root, p, j);
      FindEntry(fs, i, j);
      assert EntryOnDevice(fs, dev, fs.dirs[i].entries[j]);
    }
  }
}
