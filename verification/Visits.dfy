/**
  visit and visitSym (walkman.go) over the memory of one worker: what they publish are
  slices of the result arena, and every batch published so far still reads as it did.
 */
module Visits {
  import opened Chains
  import opened Paths
  import opened Walk
  import opened ResultArena
  import opened ReadDir
  import opened Workers
  import opened TrueBatches

  // What is sent on the results channel.
  datatype DirBatch = DirBatch(dir: Path, entries: Slice<Entry>, errs: Slice<DirErr>)

  // What the holder of a slice reads through it now.
  ghost function Text<T>(s: Slice<T>): seq<T>
    requires InBounds(s)
    reads if s.Slice? then {s.buf} else {}
  {
    if s.Slice? then s.buf[s.lo..s.hi] else []
  }

  ghost predicate Held<T(!new)>(s: Slice<T>, content: seq<T>, issued: seq<Issue<T>>) {
    if s.Nil? then content == [] else Issue(s, content) in issued
  }

  // y came after x and shares no memory with it.
  ghost predicate Apart<T>(x: Slice<T>, y: Slice<T>) {
    x.Slice? && y.Slice? && x.buf == y.buf ==> x.hi <= y.lo
  }

  ghost predicate BatchesApart(sent: seq<DirBatch>) {
    forall j, k :: 0 <= j < k < |sent| ==> Apart(sent[j].entries, sent[k].entries) && Apart(sent[j].errs, sent[k].errs)
  }

  // Each batch sent is a batch the walk means, held by the two arenas.
  ghost predicate Recorded(sent: seq<DirBatch>, said: seq<Batch>, es: seq<Issue<Entry>>, ds: seq<Issue<DirErr>>) {
    && |sent| == |said|
    && forall k :: 0 <= k < |sent| ==>
         && sent[k].dir == said[k].dir
         && Held(sent[k].entries, said[k].entries, es) && Held(sent[k].errs, said[k].errs, ds)
  }

  ghost predicate NewestIsApart<T(!new)>(issued: seq<Issue<T>>, s: Slice<T>) {
    forall k :: 0 <= k < |issued| ==> Apart(issued[k].s, s)
  }

  lemma RecordMore(sent: seq<DirBatch>, said: seq<Batch>, es: seq<Issue<Entry>>, ds: seq<Issue<DirErr>>,
                   es': seq<Issue<Entry>>, ds': seq<Issue<DirErr>>, b: DirBatch, m: Batch)
    requires Recorded(sent, said, es, ds) && BatchesApart(sent) && es <= es' && ds <= ds'
    requires b.dir == m.dir && Held(b.entries, m.entries, es') && Held(b.errs, m.errs, ds')
    requires b.entries.Nil? || NewestIsApart(es, b.entries)
    requires b.errs.Nil? || NewestIsApart(ds, b.errs)
    ensures Recorded(sent + [b], said + [m], es', ds') && BatchesApart(sent + [b])
  {
  }

  lemma {:induction false} PlainSpawnSnoc(it: Item, es: seq<Entry>, e: Entry)
    ensures PlainSpawn(it, es + [e]) == PlainSpawn(it, es) +
      (if e.typ == DT_DIR then [Item(Join(it.path, e.name), Inc32(it.depth), [])] else [])
    decreases |es|
  {
    if es == [] {
      assert [] + [e] == [e] && [e][1..] == [];
    } else {
      assert (es + [e])[1..] == es[1..] + [e] && (es + [e])[0] == es[0];
      PlainSpawnSnoc(it, es[1..], e);
    }
  }

  lemma {:induction false} EmptySpawn(it: Item)
    ensures PlainSpawn(it, []) == []
  {
  }

  // The second half of visit: one item for each subdirectory among the published entries.
  method PlainChildren(it: Item, s: Slice<Entry>, paths: Strings.Store) returns (spawn: seq<Item>)
    requires paths.Valid() && InBounds(s)
    modifies paths, paths.tail
    ensures InBounds(s) && Text(s) == old(Text(s)) && spawn == PlainSpawn(it, Text(s))
    ensures PathsGrew(paths) && AllTerminated(paths.issued, spawn)
  {
    hide Strings.Store.Valid, AllTerminated, Join, PlainSpawn;
    spawn := [];
    NoneTerminated(paths.issued);
    EmptySpawn(it);
    if s.Slice? {
      var i := s.lo;
      assert s.buf[s.lo..i] == [];
      while i < s.hi
        invariant s.lo <= i <= s.hi && s.buf[..] == old(s.buf[..])
        invariant spawn == PlainSpawn(it, s.buf[s.lo..i])
        invariant PathsGrew(paths) && AllTerminated(paths.issued, spawn)
      {
        var e := s.buf[i];
        ghost var issued := paths.issued;
        var child: Option<Item> := None;
        if e.typ == DT_DIR {
          var childPath := ChildPath(paths, it.path, e.name);
          child := Some(Item(childPath, Inc32(it.depth), []));
        }
        StillTerminated(issued, paths.issued, spawn, child);
        assert s.buf[s.lo..i + 1] == s.buf[s.lo..i] + [e];
        PlainSpawnSnoc(it, s.buf[s.lo..i], e);
        spawn, i := spawn + AsSeq(child), i + 1;
      }
    }
  }

  // Of the system calls for one directory: what openat and then each getdents64 answers.
  datatype Calls = Calls(open: Option<nat>, replies: seq<Reply>)

  // What these calls make of the directory.
  function ResultOf(open: Option<nat>, served: seq<Served>): ReadResult {
    match open
    case Some(e) => ReadFailed(e)
    case None =>
      match Told(served).1
      case Some(e) => ReadFailed(e)
      case None => Listing(Told(served).0)
  }

  // The calls are those of the file system, for a buffer of that size.
  ghost predicate Answers(env: Env, it: Item, calls: Calls, served: seq<Served>, size: nat) {
    && Speaks(calls.replies, served) && env.k.readdir(it.path) == ResultOf(calls.open, served)
    && forall i :: 0 <= i < |calls.replies| && calls.replies[i].Bytes? ==> |calls.replies[i].data| <= size
  }

  // openat fails, or else the first getdents64 call that does not return records.
  ghost predicate FailsWith(calls: Calls, served: seq<Served>, errno: nat) {
    if calls.open.Some? then calls.open.value == errno else
    var n := CallsRead(served);
    n < |served| && served[n] == Fails(errno)
  }

  ghost predicate NoneFails(calls: Calls, served: seq<Served>) {
    calls.open.None? && var n := CallsRead(served); n < |served| ==> served[n].Records?
  }

  /** A call that fails, first or last, is the one thing told of the directory: the records
      read before it are not passed off as the listing. */
  lemma FailedCallIsReported(env: Env, it: Item, calls: Calls, served: seq<Served>, size: nat, errno: nat)
    requires Answers(env, it, calls, served, size) && FailsWith(calls, served, errno)
    ensures !Panics(env, it)
    ensures Run(env, it) == Outcome(Batch(it.path, [], [DirErr(it.path, CannotRead(errno))]), [])
  {
    ToldIs(served);
  }

  /** If none fails, the listing is what they returned, record by record. */
  lemma {:induction false} RecordsAreListed(env: Env, it: Item, calls: Calls, served: seq<Served>, size: nat)
    requires Answers(env, it, calls, served, size) && NoneFails(calls, served)
    ensures env.k.readdir(it.path).Listing?
    ensures var ds, rs := env.k.readdir(it.path).ds, AllRecords(served[..CallsRead(served)]);
      |ds| == |rs| && forall i :: 0 <= i < |ds| ==>
        ds[i].name == rs[i].name && ds[i].typ == rs[i].typ && ds[i].ino == rs[i].ino
  {
    ToldIs(served);
  }

  // The callback of readEntries.
  function Accept(ds: seq<Dirent>): Option<nat> {
    None
  }

  // A listing is delivered filtered and whole; a failure may come at any point.
  ghost predicate Delivers(env: Env, it: Item, delivered: seq<Dirent>) {
    env.k.readdir(it.path).Listing? ==> delivered == Filter(env.k.readdir(it.path).ds, env.conf.skip)
  }

  lemma NoPanicHasDev(env: Env, it: Item)
    requires env.conf.followLinks && !Panics(env, it) && env.k.readdir(it.path).Listing?
    ensures HasDev(env, it, Seen(env, it.path))
  {
  }

  // An error is returned exactly for a directory that cannot be read.
  ghost predicate Tells(env: Env, it: Item, err: Option<nat>) {
    err == match env.k.readdir(it.path) { case ReadFailed(e) => Some(e) case Listing(_) => None }
  }

  lemma {:induction false} RawDelivers(env: Env, it: Item, calls: Calls, served: seq<Served>, size: nat,
                                       out: seq<Dirent>, err: Option<nat>)
    requires Answers(env, it, calls, served, size)
    requires calls.open.Some? ==> out == [] && err == calls.open
    requires calls.open.None? ==> Delivered(Filter(Told(served).0, env.conf.skip), Told(served).1, Accept, out, err)
    ensures Delivers(env, it, out) && Tells(env, it, err)
  {
  }

  // The children of the items, in order.
  ghost function SpawnAll(env: Env, its: seq<Item>): seq<Item>
    requires forall i :: 0 <= i < |its| ==> !Panics(env, its[i])
  {
    if its == [] then [] else SpawnAll(env, its[..|its| - 1]) + Run(env, its[|its| - 1]).spawn
  }

  ghost predicate AllNamesKept(issued: seq<Strings.Issue>, said: seq<Batch>) {
    forall k :: 0 <= k < |said| ==> NamesKept(issued, said[k].entries)
  }

  lemma AllNamesStay(before: seq<Strings.Issue>, after: seq<Strings.Issue>, said: seq<Batch>)
    requires AllNamesKept(before, said) && before <= after
    ensures AllNamesKept(after, said)
  {
    forall k | 0 <= k < |said| ensures NamesKept(after, said[k].entries) {
      NamesStay(before, after, said[k].entries);
    }
  }

  // Resolving changes the type of an entry, never its name.
  lemma {:induction false} ResolvingKeepsNames(env: Env, it: Item, es: seq<Entry>, issued: seq<Strings.Issue>)
    requires HasDev(env, it, es) && NamesKept(issued, es)
    ensures NamesKept(issued, ResolveAll(env, it, es).kept)
    decreases |es|
  {
    if es == [] {
    } else {
      assert forall i :: 0 <= i < |es[1..]| ==> es[1..][i] == es[i + 1];
      ResolvingKeepsNames(env, it, es[1..], issued);
      assert Kept(issued, es[0].name);
    }
  }

  // What the holder of a batch reads through it now.
  ghost predicate ReadsAs(b: DirBatch, m: Batch)
    reads if b.entries.Slice? then {b.entries.buf} else {}, if b.errs.Slice? then {b.errs.buf} else {}
  {
    && InBounds(b.entries) && InBounds(b.errs)
    && m == Batch(b.dir, Text(b.entries), Text(b.errs))
  }

  // The size of the buffer of a worker.
  const GETDENTS_BUF_SIZE: nat := 128 * 1024

  class Worker {
    const buf: array<byte>
    const scratch: Scratch
    const entries: EntryArena
    const errs: ErrLog
    const paths: Strings.Store
    ghost var sent: seq<DirBatch>    // every batch published, oldest first
    ghost var said: seq<Batch>       // what each of them said when published

    ghost predicate Valid()
      reads this, scratch, entries, entries.memory, errs, errs.memory, paths, paths.memory
    {
      && Sound() && Recorded(sent, said, entries.issued, errs.issued) && BatchesApart(sent)
      && AllNamesKept(paths.issued, said)
    }

    ghost predicate Sound()
      reads this, scratch, entries, entries.memory, errs, errs.memory, paths, paths.memory
    {
      && scratch.Valid() && entries.Valid() && errs.Valid() && paths.Valid()
      && scratch.buf !in entries.memory && buf !in paths.memory && buf.Length == GETDENTS_BUF_SIZE
    }

    constructor ()
      ensures Valid() && sent == [] && said == [] && fresh(buf)
      ensures fresh(scratch) && fresh(scratch.buf) && fresh(entries) && fresh(entries.memory)
      ensures fresh(errs) && fresh(errs.memory) && fresh(paths) && fresh(paths.memory)
    {
      hide Strings.Store.Valid, EntryArena.Valid, ErrLog.Valid;
      buf := new byte[GETDENTS_BUF_SIZE];
      scratch := new Scratch();
      entries := new EntryArena();
      errs := new ErrLog(0);
      paths := new Strings.Store();
      sent, said := [], [];
    }

    /** Batches are immutable: whatever was stored since, each batch still reads as it was
        published, and no two share memory. */
    lemma BatchesReadBack()
      requires Valid()
      ensures |sent| == |said| && BatchesApart(sent)
      ensures forall k :: 0 <= k < |sent| ==> ReadsAs(sent[k], said[k])
    {
      forall k | 0 <= k < |sent| ensures ReadsAs(sent[k], said[k]) {
        assert sent[k].entries.Slice? ==> Intact(Issue(sent[k].entries, said[k].entries));
        assert sent[k].errs.Slice? ==> Intact(Issue(sent[k].errs, said[k].errs));
      }
    }

    // res <- DirBatch{...}: the newest slices of both arenas become a batch saying m.
    ghost method Record(b: DirBatch, m: Batch, es: seq<Issue<Entry>>, ds: seq<Issue<DirErr>>)
      requires Sound() && AllNamesKept(paths.issued, said) && NamesKept(paths.issued, m.entries)
      requires Recorded(sent, said, es, ds) && BatchesApart(sent) && b.dir == m.dir
      requires entries.issued == es + [Issue(b.entries, m.entries)] || (b.entries.Nil? && entries.issued == es)
      requires errs.issued == ds + [Issue(b.errs, m.errs)] || (b.errs.Nil? && errs.issued == ds)
      requires (b.entries.Nil? ==> m.entries == []) && (b.errs.Nil? ==> m.errs == [])
      modifies `sent, `said
      ensures Valid() && sent == old(sent) + [b] && said == old(said) + [m]
    {
      hide Strings.Store.Valid, NamesKept;
      assert b.entries.Slice? ==> entries.issued[|es|] == Issue(b.entries, m.entries);
      assert b.errs.Slice? ==> errs.issued[|ds|] == Issue(b.errs, m.errs);
      assert b.entries.Slice? ==> NewestIsApart(es, b.entries) by {
        forall k | b.entries.Slice? && 0 <= k < |es| ensures Apart(es[k].s, b.entries) {
          assert Behind(entries.issued[k], entries.issued[|es|]);
        }
      }
      assert b.errs.Slice? ==> NewestIsApart(ds, b.errs) by {
        forall k | b.errs.Slice? && 0 <= k < |ds| ensures Apart(ds[k].s, b.errs) {
          assert Behind(errs.issued[k], errs.issued[|ds|]);
        }
      }
      RecordMore(sent, said, es, ds, entries.issued, errs.issued, b, m);
      sent, said := sent + [b], said + [m];
    }

    // The directory itself could not be read: one error, and no entries.
    method SendUnreadable(dir: Path, errno: nat) returns (b: DirBatch)
      requires Valid()
      modifies `sent, `said, errs`memory, errs`issued
      ensures Valid() && sent == old(sent) + [b] && said == old(said) + [Unreadable(dir, errno).batch]
      ensures b.entries.Nil?
    {
      hide Strings.Store.Valid, EntryArena.Valid, Recorded, BatchesApart, AllNamesKept;
      ghost var ds := errs.issued;
      var own := errs.OneErr(DirErr(dir, CannotRead(errno)));
      b := DirBatch(dir, Nil, own);
      Record(b, Unreadable(dir, errno).batch, entries.issued, ds);
    }

    // The scratch becomes the entries of a batch.
    method StoreScratch() returns (s: Slice<Entry>)
      requires Sound()
      modifies entries, entries.tail
      ensures Sound() && scratch.Contents() == old(scratch.Contents())
      ensures entries.issued == old(entries.issued) + [Issue(s, scratch.Contents())]
      ensures s.Nil? <==> scratch.Contents() == []
      ensures entries.tail == old(entries.tail) || fresh(entries.tail)
    {
      hide Strings.Store.Valid, ErrLog.Valid;
      s := entries.StoreEntries(scratch.buf, scratch.len);
    }

    method SendPlain(dir: Path) returns (b: DirBatch)
      requires Valid() && NamesKept(paths.issued, scratch.Contents())
      modifies `sent, `said, entries, entries.tail
      ensures Valid() && sent == old(sent) + [b] && said == old(said) + [Batch(dir, old(scratch.Contents()), [])]
      ensures InBounds(b.entries) && Text(b.entries) == old(scratch.Contents())
      ensures b.entries.Nil? <==> old(scratch.Contents()) == []
      ensures entries.tail == old(entries.tail) || fresh(entries.tail)
    {
      hide Strings.Store.Valid, ErrLog.Valid, Recorded, BatchesApart, AllNamesKept, NamesKept;
      ghost var es := entries.issued;
      var s := StoreScratch();
      b := DirBatch(dir, s, Nil);
      assert Intact(entries.issued[|es|]);
      Record(b, Batch(dir, scratch.Contents(), []), es, errs.issued);
    }

    method SendResolved(dir: Path, mark: nat) returns (b: DirBatch)
      requires Valid() && errs.sliced <= mark <= errs.len && NamesKept(paths.issued, scratch.Contents())
      modifies `sent, `said, entries, entries.tail, errs`issued, errs`sliced
      ensures Valid() && sent == old(sent) + [b]
      ensures said == old(said) + [Batch(dir, old(scratch.Contents()), old(errs.log[mark..]))]
      ensures b.entries.Nil? <==> old(scratch.Contents()) == []
      ensures entries.tail == old(entries.tail) || fresh(entries.tail)
    {
      hide Strings.Store.Valid, EntryArena.Valid, Recorded, BatchesApart, AllNamesKept, NamesKept;
      ghost var es, ds, m := entries.issued, errs.issued, Batch(dir, scratch.Contents(), errs.log[mark..]);
      var s := StoreScratch();
      var d := errs.SliceDirErr(mark);
      b := DirBatch(dir, s, d);
      Record(b, m, es, ds);
    }

    // readEntries, leaving every earlier batch as it was.
    method Read(it: Item, delivered: seq<Dirent>) returns (sawLink: bool)
      requires Valid()
      modifies scratch, scratch.buf, paths, paths.tail
      ensures Valid() && scratch.Contents() == Entries(it.path, delivered)
      ensures (sawLink <==> SeesLink(scratch.Contents())) && NamesKept(paths.issued, scratch.Contents())
      ensures old(paths.issued) <= paths.issued
      ensures scratch.buf == old(scratch.buf) || fresh(scratch.buf)
      ensures paths.tail == old(paths.tail) || fresh(paths.tail)
    {
      hide Strings.Store.Valid, EntryArena.Valid, ErrLog.Valid, Recorded, BatchesApart, AllNamesKept, NamesKept;
      ghost var issued := paths.issued;
      sawLink := ReadEntries(scratch, paths, it, delivered);
      AllNamesStay(issued, paths.issued, said);
    }

    // The children of visit, leaving every batch as it was.
    method SpawnPlain(it: Item, s: Slice<Entry>) returns (spawn: seq<Item>)
      requires Valid() && InBounds(s)
      modifies paths, paths.tail
      ensures Valid() && InBounds(s) && spawn == PlainSpawn(it, old(Text(s)))
      ensures AllTerminated(paths.issued, spawn) && old(paths.issued) <= paths.issued
      ensures paths.tail == old(paths.tail) || fresh(paths.tail)
    {
      hide Strings.Store.Valid, EntryArena.Valid, ErrLog.Valid, Recorded, BatchesApart, AllNamesKept, AllTerminated;
      ghost var issued := paths.issued;
      spawn := PlainChildren(it, s, paths);
      AllNamesStay(issued, paths.issued, said);
    }

    /** visit: delivered is what readDirRaw calls back with, all of the listing or, before
        a failure, part of it.  What is published and what is spawned is what the walk
        means; every earlier batch still reads as before (Valid), and so does every string
        handed out before.  Entries is nil exactly when there are none. */
    method Visit(env: Env, it: Item, delivered: seq<Dirent>) returns (b: DirBatch, spawn: seq<Item>)
      requires Valid() && !env.conf.followLinks
      requires Delivers(env, it, delivered)
      modifies this, scratch, scratch.buf, entries, entries.tail, errs`memory, errs`issued, paths, paths.tail
      ensures Valid() && sent == old(sent) + [b] && said == old(said) + [Run(env, it).batch]
      ensures b.entries.Nil? <==> Run(env, it).batch.entries == []
      ensures spawn == Run(env, it).spawn && AllTerminated(paths.issued, spawn)
      ensures old(paths.issued) <= paths.issued
      ensures scratch.buf == old(scratch.buf) || fresh(scratch.buf)
      ensures entries.tail == old(entries.tail) || fresh(entries.tail)
      ensures paths.tail == old(paths.tail) || fresh(paths.tail)
    {
      hide Strings.Store.Valid, ErrLog.Valid, EntryArena.Valid, Recorded, BatchesApart, AllNamesKept, NamesKept;
      var sawLink := Read(it, delivered);
      spawn := [];
      match env.k.readdir(it.path)
      case ReadFailed(errno) =>
        b := SendUnreadable(it.path, errno);
      case Listing(_) =>
        b := SendPlain(it.path);
        if !AtMaxDepth(env.conf, it.depth) {
          spawn := SpawnPlain(it, b.entries);
        }
    }

    // The loop of visitSym, leaving every earlier batch as it was.
    method ResolveScratch(env: Env, it: Item, sawLink: bool) returns (spawn: seq<Item>)
      requires Valid() && HasDev(env, it, scratch.Contents()) && (sawLink <==> SeesLink(scratch.Contents()))
      requires NamesKept(paths.issued, scratch.Contents())
      modifies scratch`len, scratch.buf, errs, errs.dirErrs, paths, paths.tail
      ensures Valid() && ErrsGrew(errs, ResolveAll(env, it, old(scratch.Contents())).errs)
      ensures scratch.Contents() == ResolveAll(env, it, old(scratch.Contents())).kept
      ensures spawn == ResolveAll(env, it, old(scratch.Contents())).spawn && AllTerminated(paths.issued, spawn)
      ensures NamesKept(paths.issued, scratch.Contents()) && old(paths.issued) <= paths.issued
      ensures paths.tail == old(paths.tail) || fresh(paths.tail)
    {
      hide Strings.Store.Valid, EntryArena.Valid, ErrLog.Valid, Recorded, BatchesApart, AllNamesKept, NamesKept,
        ResolveAll, AllTerminated, SeesLink;
      ghost var issued, es := paths.issued, scratch.Contents();
      spawn := ResolveInPlace(env, it, scratch, sawLink, errs, paths);
      AllNamesStay(issued, paths.issued, said);
      NamesStay(issued, paths.issued, es);
      ResolvingKeepsNames(env, it, es, paths.issued);
    }

    // visitSym behind its error check.
    method ResolveAndSend(env: Env, it: Item, sawLink: bool) returns (b: DirBatch, spawn: seq<Item>)
      requires Valid() && HasDev(env, it, scratch.Contents()) && (sawLink <==> SeesLink(scratch.Contents()))
      requires NamesKept(paths.issued, scratch.Contents())
      modifies this, scratch`len, scratch.buf, entries, entries.tail, errs, errs.dirErrs, paths, paths.tail
      ensures Valid() && sent == old(sent) + [b]
      ensures var v := ResolveAll(env, it, old(scratch.Contents()));
        && said == old(said) + [Batch(it.path, v.kept, v.errs)] && spawn == v.spawn
        && (b.entries.Nil? <==> v.kept == [])
      ensures AllTerminated(paths.issued, spawn) && old(paths.issued) <= paths.issued
      ensures entries.tail == old(entries.tail) || fresh(entries.tail)
      ensures errs.dirErrs == old(errs.dirErrs) || fresh(errs.dirErrs)
      ensures paths.tail == old(paths.tail) || fresh(paths.tail)
    {
      hide Strings.Store.Valid, EntryArena.Valid, Recorded, BatchesApart, AllNamesKept, NamesKept, AllTerminated,
        ResolveAll;
      var mark := errs.GetDirErrMark();
      spawn := ResolveScratch(env, it, sawLink);
      ghost var logged := errs.log[mark..];
      assert logged == ResolveAll(env, it, old(scratch.Contents())).errs;
      b := SendResolved(it.path, mark);
    }

    /** visitSym: the same promise for a walk that follows links. */
    method VisitSym(env: Env, it: Item, delivered: seq<Dirent>) returns (b: DirBatch, spawn: seq<Item>)
      requires Valid() && env.conf.followLinks && !Panics(env, it)
      requires Delivers(env, it, delivered)
      modifies this, scratch, scratch.buf, entries, entries.tail, errs, errs.dirErrs, paths, paths.tail
      ensures Valid() && sent == old(sent) + [b] && said == old(said) + [Run(env, it).batch]
      ensures b.entries.Nil? <==> Run(env, it).batch.entries == []
      ensures spawn == Run(env, it).spawn && AllTerminated(paths.issued, spawn)
      ensures old(paths.issued) <= paths.issued
      ensures scratch.buf == old(scratch.buf) || fresh(scratch.buf)
      ensures entries.tail == old(entries.tail) || fresh(entries.tail)
      ensures errs.dirErrs == old(errs.dirErrs) || fresh(errs.dirErrs)
      ensures paths.tail == old(paths.tail) || fresh(paths.tail)
    {
      hide Strings.Store.Valid, EntryArena.Valid, ErrLog.Valid, Recorded, BatchesApart, AllNamesKept, NamesKept;
      var sawLink := Read(it, delivered);
      match env.k.readdir(it.path)
      case ReadFailed(errno) =>
        b := SendUnreadable(it.path, errno);
        spawn := [];
      case Listing(_) =>
        NoPanicHasDev(env, it);
        b, spawn := ResolveAndSend(env, it, sawLink);
    }

    lemma NewestReadsBack()
      requires Valid() && sent != []
      ensures |said| == |sent| && ReadsAs(sent[|sent| - 1], said[|said| - 1])
    {
      hide Valid, ReadsAs;
      BatchesReadBack();
    }

    /** What the pool executes for every item, from the system calls up.  The batch, as it
        reads from memory, is true; if a call fails it is that one error, with nil entries. */
    method Execute(env: Env, it: Item, calls: Calls, ghost served: seq<Served>) returns (b: DirBatch, spawn: seq<Item>)
      requires Valid() && !Panics(env, it) && Answers(env, it, calls, served, 128 * 1024)
      modifies this, buf, scratch, scratch.buf, entries, entries.tail, errs, errs.dirErrs, paths, paths.tail
      ensures Valid() && sent == old(sent) + [b] && said == old(said) + [Run(env, it).batch]
      ensures ReadsAs(b, Run(env, it).batch) && TrueBatch(env, Run(env, it).batch)
      ensures forall errno :: FailsWith(calls, served, errno) ==>
        && b.entries.Nil? && spawn == []
        && ReadsAs(b, Batch(it.path, [], [DirErr(it.path, CannotRead(errno))]))
      ensures b.entries.Nil? <==> Run(env, it).batch.entries == []
      ensures spawn == Run(env, it).spawn && AllTerminated(paths.issued, spawn)
      ensures old(paths.issued) <= paths.issued
      ensures scratch.buf == old(scratch.buf) || fresh(scratch.buf)
      ensures entries.tail == old(entries.tail) || fresh(entries.tail)
      ensures errs.dirErrs == old(errs.dirErrs) || fresh(errs.dirErrs)
      ensures paths.tail == old(paths.tail) || fresh(paths.tail)
    {
      hide EntryArena.Valid, ErrLog.Valid, Recorded, BatchesApart, AllNamesKept, NamesKept, Panics, AllTerminated,
        Conveys, Run, TrueBatch, ReadsAs, FailsWith;
      var out, err := ReadDirRaw(calls.open, calls.replies, buf, env.conf.skip, Accept, served);
      RawDelivers(env, it, calls, served, GETDENTS_BUF_SIZE, out, err);
      if env.conf.followLinks {
        b, spawn := VisitSym(env, it, out);
      } else {
        b, spawn := Visit(env, it, out);
      }
      NewestReadsBack();
      RunIsTrue(env, it);
      forall errno | FailsWith(calls, served, errno)
        ensures Run(env, it) == Outcome(Batch(it.path, [], [DirErr(it.path, CannotRead(errno))]), [])
      {
        FailedCallIsReported(env, it, calls, served, GETDENTS_BUF_SIZE, errno);
      }
    }

    /** A worker taking any items in any order: after all of them, the batches it has ever
        published, in the order it published them, are the ones the walk means, and the
        paths of all children it spawned are still in memory, each with its NUL. */
    method HandleAll(env: Env, its: seq<Item>, calls: seq<Calls>, ghost served: seq<seq<Served>>)
      returns (ghost spawned: seq<Item>)
      requires Valid() && |calls| == |its| == |served|
      requires forall i :: 0 <= i < |its| ==>
        !Panics(env, its[i]) && Answers(env, its[i], calls[i], served[i], GETDENTS_BUF_SIZE)
      modifies this, buf, scratch, scratch.buf, entries, entries.tail, errs, errs.dirErrs, paths, paths.tail
      ensures Valid() && old(sent) <= sent && old(paths.issued) <= paths.issued
      ensures said == old(said) + RunAll(env, its)
      ensures spawned == SpawnAll(env, its) && AllTerminated(paths.issued, spawned)
    {
      hide Valid, Panics, Answers, AllTerminated, TrueBatch, ReadsAs, FailsWith, Run;
      var i := 0;
      spawned := [];
      NoneTerminated(paths.issued);
      while i < |its|
        invariant 0 <= i <= |its| && Valid() && old(sent) <= sent && old(paths.issued) <= paths.issued
        invariant said == old(said) + RunAll(env, its[..i])
        invariant spawned == SpawnAll(env, its[..i]) && AllTerminated(paths.issued, spawned)
        invariant scratch.buf == old(scratch.buf) || fresh(scratch.buf)
        invariant entries.tail == old(entries.tail) || fresh(entries.tail)
        invariant errs.dirErrs == old(errs.dirErrs) || fresh(errs.dirErrs)
        invariant paths.tail == old(paths.tail) || fresh(paths.tail)
      {
        ghost var issued := paths.issued;
        var b, spawn := Execute(env, its[i], calls[i], served[i]);
        AllStayTerminated(issued, paths.issued, spawned, spawn);
        assert its[..i + 1][..i] == its[..i];
        spawned, i := spawned + spawn, i + 1;
      }
      assert its[..i] == its;
    }
  }

  lemma NoneTerminated(issued: seq<Strings.Issue>)
    ensures AllTerminated(issued, [])
  {
  }

  lemma AllStayTerminated(before: seq<Strings.Issue>, after: seq<Strings.Issue>, its: seq<Item>, more: seq<Item>)
    requires AllTerminated(before, its) && before <= after && AllTerminated(after, more)
    ensures AllTerminated(after, its + more)
  {
    StillTerminated(before, after, its, None);
    assert its + AsSeq(None) == its;
  }

  // ------------------------------------------------- the documented meaning of nil

  // Nothing of the listing is shown: every wanted entry is a link that is dropped.
  ghost predicate ShowsNothing(env: Env, it: Item) {
    && env.k.readdir(it.path).Listing?
    && forall i :: 0 <= i < |Seen(env, it.path)| ==> Dropped(env, it, Seen(env, it.path)[i])
  }

  predicate Dropped(env: Env, it: Item, e: Entry) {
    && env.conf.followLinks && e.typ == DT_LNK
    && var t := env.k.stat(Join(it.path, e.name));
    t.StatFailed? || (t.Info? && t.mode == ModeDir && t.id in it.chain)
  }

  lemma {:induction false} ResolvesToNothing(env: Env, it: Item, es: seq<Entry>)
    requires HasDev(env, it, es) && env.conf.followLinks
    ensures ResolveAll(env, it, es).kept == [] <==> forall i :: 0 <= i < |es| ==> Dropped(env, it, es[i])
    decreases |es|
  {
    if es == [] {
    } else {
      ResolvesToNothing(env, it, es[1..]);
      assert Dropped(env, it, es[0]) <==> Resolve(env, it, es[0]).kept == [];
      assert forall i :: 1 <= i < |es| ==> es[i] == es[1..][i - 1];
    }
  }

  /** A nil Entries is documented to mean that the directory could not be read.  The batch
      that handling an item publishes keeps to that if and only if the directory is not one
      that could be read but has nothing to show. */
  lemma NilMeansUnreadableIff(env: Env, it: Item, b: DirBatch)
    requires !Panics(env, it) && (b.entries.Nil? <==> Run(env, it).batch.entries == [])
    ensures (b.entries.Nil? ==> env.k.readdir(it.path).ReadFailed?) <==> !ShowsNothing(env, it)
  {
    if env.k.readdir(it.path).Listing? {
      var es := Seen(env, it.path);
      if env.conf.followLinks {
        ResolvesToNothing(env, it, es);
      } else {
        assert es == [] <==> ShowsNothing(env, it) by {
          assert es != [] ==> !Dropped(env, it, es[0]);
        }
      }
    }
  }

  // An empty directory that can be read is one.
  lemma EmptyShowsNothing(env: Env, it: Item)
    requires env.k.readdir(it.path) == Listing([])
    ensures ShowsNothing(env, it) && !Panics(env, it) && Run(env, it).batch == Batch(it.path, [], [])
  {
    assert Seen(env, it.path) == [];
  }
}
