/**
  What a published batch tells of its directory, record by record, in the numbers of the
  kernel: d_type is 0 for unknown, 4 for a directory, 8 for a file, 10 for a link, and a
  name is a string of bytes, 46 being the dot.
 */
module TrueBatches {
  import opened Chains
  import opened Paths
  import opened Walk

  // The records to tell of, in order.
  function Wants(ds: seq<Dirent>, skip: set<Name>): (ws: seq<Dirent>) {
    var at := WantedAt(NamesOf(ds), skip);
    seq(|at|, j requires 0 <= j < |at| => ds[at[j]])
  }

  // The entry shows the record.  A link that is followed has the type of what it leads to.
  ghost predicate ShownAs(env: Env, dir: Path, d: Dirent, e: Entry) {
    && e.parentDir == dir && e.name == d.name && e.ino == d.ino
    && if !env.conf.followLinks || d.typ != 10 then e.typ == d.typ else
       match env.k.stat(Join(dir, d.name))
       case StatFailed => false
       case NoSys(_) => e.typ == 10
       case Info(mode, _) => e.typ == match mode {
           case ModeDir => 4
           case ModeRegular => 8
           case ModeSymlink => 10
           case ModeOther => 0
         }
  }

  // The error is about the record, a link that is followed.
  ghost predicate ReportedAs(env: Env, dir: Path, d: Dirent, x: DirErr) {
    && env.conf.followLinks && d.typ == 10 && x.name == d.name
    && match env.k.stat(Join(dir, d.name))
       case StatFailed => x.err == Dangling
       case NoSys(_) => x.err == NoDevIno
       case Info(mode, _) => mode == ModeDir && x.err == Cycle
  }

  // The one record that is both shown and reported.
  ghost predicate Unidentified(env: Env, dir: Path, d: Dirent) {
    env.conf.followLinks && d.typ == 10 && env.k.stat(Join(dir, d.name)).NoSys?
  }

  ghost predicate Ascending(at: seq<nat>) {
    forall j, k :: 0 <= j < k < |at| ==> at[j] < at[k]
  }

  // The entries show the records at from, and the errors are about those at of, both in
  // order; every record is one of these, and both only if it is a link without identity.
  ghost predicate Tells(env: Env, dir: Path, ws: seq<Dirent>, kept: seq<Entry>, errs: seq<DirErr>,
                        from: seq<nat>, of: seq<nat>)
  {
    && Ascending(from) && Ascending(of) && |from| == |kept| && |of| == |errs|
    && (forall j :: 0 <= j < |from| ==> from[j] < |ws| && ShownAs(env, dir, ws[from[j]], kept[j]))
    && (forall j :: 0 <= j < |of| ==> of[j] < |ws| && ReportedAs(env, dir, ws[of[j]], errs[j]))
    && (forall i :: 0 <= i < |ws| ==>
          (i in from || i in of) && (i in from && i in of <==> Unidentified(env, dir, ws[i])))
  }

  ghost predicate TellsAll(env: Env, dir: Path, ws: seq<Dirent>, kept: seq<Entry>, errs: seq<DirErr>) {
    exists from, of :: Tells(env, dir, ws, kept, errs, from, of)
  }

  // The batch says nothing but the truth, and all of it.
  ghost predicate TrueBatch(env: Env, b: Batch) {
    match env.k.readdir(b.dir)
    case ReadFailed(e) => b.entries == [] && b.errs == [DirErr(b.dir, CannotRead(e))]
    case Listing(ds) => TellsAll(env, b.dir, Wants(ds, env.conf.skip), b.entries, b.errs)
  }

  // ---------------------------------------------------------------------- one record

  // What becomes of one record: shown, reported, or, without identity, both.
  ghost predicate OneTold(env: Env, dir: Path, d: Dirent, kept: seq<Entry>, errs: seq<DirErr>) {
    && |kept| <= 1 && |errs| <= 1 && (kept != [] || errs != [])
    && (kept != [] ==> ShownAs(env, dir, d, kept[0])) && (errs != [] ==> ReportedAs(env, dir, d, errs[0]))
    && (kept != [] && errs != [] <==> Unidentified(env, dir, d))
  }

  lemma ResolveTells(env: Env, it: Item, d: Dirent)
    requires env.conf.followLinks && (NeedsDev(env, it, EntryOf(it.path, d)) ==> it.chain != [])
    ensures var v := Resolve(env, it, EntryOf(it.path, d));
      OneTold(env, it.path, d, v.kept, v.errs)
  {
  }

  /** A link to anything but a directory is shown once, under its own name and inode, with
      type 8 if it leads to a file, 10 if to a link, 0 otherwise; nothing else comes of it. */
  lemma LinkToFileIsShown(env: Env, it: Item, e: Entry, mode: Mode, id: Id)
    requires env.k.stat(Join(it.path, e.name)) == Info(mode, id) && mode != ModeDir && e.typ == 10
    ensures var v := Resolve(env, it, e);
      && |v.kept| == 1 && v.errs == [] && v.spawn == []
      && v.kept[0].name == e.name && v.kept[0].ino == e.ino && v.kept[0].parentDir == e.parentDir
      && (v.kept[0].typ == 8 <==> mode == ModeRegular) && (v.kept[0].typ == 10 <==> mode == ModeSymlink)
      && (v.kept[0].typ == 0 <==> mode == ModeOther) && v.kept[0].typ != 4
  {
  }

  // at, and n behind it if so chosen.
  function More(at: seq<nat>, n: nat, chosen: bool): seq<nat> {
    if chosen then at + [n] else at
  }

  lemma OneMorePlace(at: seq<nat>, n: nat, chosen: bool)
    requires Ascending(at) && forall j :: 0 <= j < |at| ==> at[j] < n
    ensures Ascending(More(at, n, chosen)) && (n in More(at, n, chosen) <==> chosen)
    ensures forall i: nat :: i < n ==> (i in More(at, n, chosen) <==> i in at)
  {
  }

  lemma TellsMore(env: Env, dir: Path, ws: seq<Dirent>, kept: seq<Entry>, errs: seq<DirErr>,
                  d: Dirent, more: seq<Entry>, others: seq<DirErr>)
    requires TellsAll(env, dir, ws, kept, errs) && OneTold(env, dir, d, more, others)
    ensures TellsAll(env, dir, ws + [d], kept + more, errs + others)
  {
    hide ShownAs, ReportedAs, Unidentified, Ascending;
    var from, of :| Tells(env, dir, ws, kept, errs, from, of);
    var n, all := |ws|, ws + [d];
    var from', of' := More(from, n, more != []), More(of, n, others != []);
    OneMorePlace(from, n, more != []);
    OneMorePlace(of, n, others != []);
    forall j | 0 <= j < |from'| ensures from'[j] < |all| && ShownAs(env, dir, all[from'[j]], (kept + more)[j]) {
      assert j < |from| ==> from'[j] == from[j] && all[from[j]] == ws[from[j]];
    }
    forall j | 0 <= j < |of'| ensures of'[j] < |all| && ReportedAs(env, dir, all[of'[j]], (errs + others)[j]) {
      assert j < |of| ==> of'[j] == of[j] && all[of[j]] == ws[of[j]];
    }
    forall i | 0 <= i < |all|
      ensures (i in from' || i in of') && (i in from' && i in of' <==> Unidentified(env, dir, all[i]))
    {
      assert i < n ==> all[i] == ws[i];
    }
    assert Tells(env, dir, all, kept + more, errs + others, from', of');
  }

  // ------------------------------------------------------------------- one directory

  lemma SeenAre(env: Env, dir: Path)
    requires env.k.readdir(dir).Listing?
    ensures Seen(env, dir) == Entries(dir, Wants(env.k.readdir(dir).ds, env.conf.skip))
  {
    FilterPicks(env.k.readdir(dir).ds, env.conf.skip);
    assert Filter(env.k.readdir(dir).ds, env.conf.skip) == Wants(env.k.readdir(dir).ds, env.conf.skip);
  }

  lemma PlainTells(env: Env, dir: Path, ws: seq<Dirent>)
    requires !env.conf.followLinks
    ensures TellsAll(env, dir, ws, Entries(dir, ws), [])
    decreases |ws|
  {
    if ws == [] {
      NothingTold(env, dir);
    } else {
      var init, d := ws[..|ws| - 1], ws[|ws| - 1];
      PlainTells(env, dir, init);
      assert OneTold(env, dir, d, [EntryOf(dir, d)], []);
      hide TellsAll, OneTold;
      TellsMore(env, dir, init, Entries(dir, init), [], d, [EntryOf(dir, d)], []);
      assert ws == init + [d] && Entries(dir, ws) == Entries(dir, init) + [EntryOf(dir, d)];
    }
  }

  lemma NothingTold(env: Env, dir: Path)
    ensures TellsAll(env, dir, [], [], [])
  {
    assert Tells(env, dir, [], [], [], [], []);
  }

  lemma {:induction false} ResolveAllTells(env: Env, it: Item, ws: seq<Dirent>)
    requires env.conf.followLinks && HasDev(env, it, Entries(it.path, ws))
    ensures var v := ResolveAll(env, it, Entries(it.path, ws));
      TellsAll(env, it.path, ws, v.kept, v.errs)
    decreases |ws|
  {
    if ws == [] {
      NothingTold(env, it.path);
    } else {
      var n, es := |ws| - 1, Entries(it.path, ws);
      var init, e := Entries(it.path, ws[..n]), EntryOf(it.path, ws[n]);
      assert es[n] == e && forall i :: 0 <= i < n ==> es[i] == init[i];
      assert es == init + [e] && [e][1..] == [] && ws == ws[..n] + [ws[n]];
      ResolveAllConcat(env, it, init, [e]);
      assert Plus(Resolve(env, it, e), NOTHING) == Resolve(env, it, e);
      ResolveAllTells(env, it, ws[..n]);
      ResolveTells(env, it, ws[n]);
      var v := ResolveAll(env, it, init);
      TellsMore(env, it.path, ws[..n], v.kept, v.errs, ws[n], Resolve(env, it, e).kept, Resolve(env, it, e).errs);
    }
  }

  /** Handling an item publishes a true batch, in either mode. */
  lemma RunIsTrue(env: Env, it: Item)
    requires !Panics(env, it)
    ensures TrueBatch(env, Run(env, it).batch) && Run(env, it).batch.dir == it.path
  {
    if env.k.readdir(it.path).Listing? {
      var ws := Wants(env.k.readdir(it.path).ds, env.conf.skip);
      SeenAre(env, it.path);
      if env.conf.followLinks {
        ResolveAllTells(env, it, ws);
      } else {
        PlainTells(env, it.path, ws);
      }
    }
  }

  lemma WantsWhat(ds: seq<Dirent>, skip: set<Name>, d: Dirent)
    ensures d in Wants(ds, skip) <==> d in ds && d.name != [46] && d.name != [46, 46] && d.name !in skip
  {
    var at, ws := WantedAt(NamesOf(ds), skip), Wants(ds, skip);
    if d in ws {
      var j :| 0 <= j < |ws| && ws[j] == d;
      assert at[j] in at;
    }
    if i: nat :| i < |ds| && ds[i] == d && i in at {
      var j :| 0 <= j < |at| && at[j] == i;
      assert ws[j] == d;
    }
  }

  /** No entry of a true batch is one of the two dots, or skipped: each shows a record. */
  lemma EntryHasRecord(env: Env, b: Batch, ds: seq<Dirent>, e: Entry) returns (d: Dirent)
    requires TrueBatch(env, b) && env.k.readdir(b.dir) == Listing(ds) && e in b.entries
    ensures e.parentDir == b.dir && e.name != [46] && e.name != [46, 46] && e.name !in env.conf.skip
    ensures d in ds && ShownAs(env, b.dir, d, e)
  {
    var ws := Wants(ds, env.conf.skip);
    var from, of :| Tells(env, b.dir, ws, b.entries, b.errs, from, of);
    var j :| 0 <= j < |b.entries| && b.entries[j] == e;
    d := ws[from[j]];
    WantsWhat(ds, env.conf.skip, d);
  }

  /** And every other record, a hidden file too, is shown or reported. */
  lemma RecordIsTold(env: Env, b: Batch, ds: seq<Dirent>, d: Dirent)
    requires TrueBatch(env, b) && env.k.readdir(b.dir) == Listing(ds)
    requires d in ds && d.name != [46] && d.name != [46, 46] && d.name !in env.conf.skip
    ensures (exists e :: e in b.entries && ShownAs(env, b.dir, d, e))
      || (exists x :: x in b.errs && ReportedAs(env, b.dir, d, x))
  {
    hide ShownAs, ReportedAs;
    var ws := Wants(ds, env.conf.skip);
    WantsWhat(ds, env.conf.skip, d);
    var from, of :| Tells(env, b.dir, ws, b.entries, b.errs, from, of);
    var i: nat :| i < |ws| && ws[i] == d;
    if i in from {
      var j :| 0 <= j < |from| && from[j] == i;
      assert b.entries[j] in b.entries;
    } else {
      var j :| 0 <= j < |of| && of[j] == i;
      assert b.errs[j] in b.errs;
    }
  }
}
