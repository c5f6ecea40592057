/**
  One worker handling one directory, in place: readEntries, visit and visitSym
  (walkman.go) over the reused scratch buffer, the result arena and the path arena.  Each
  method is proved against the outcome that Walk specifies.
 */
module Workers {
  import opened Chains
  import opened Paths
  import opened Walk
  import opened ResultArena
  import Strings = StringStore

  // entryScratch: a slice that keeps its grown capacity from one directory to the next.
  class Scratch {
    var buf: array<Entry>
    var len: nat

    ghost predicate Valid()
      reads this
    {
      len <= buf.Length && 0 < buf.Length
    }

    ghost function Contents(): seq<Entry>
      requires len <= buf.Length
      reads this, buf
    {
      buf[..len]
    }

    constructor ()
      ensures Valid() && fresh(buf) && Contents() == []
    {
      buf := new Entry[ENTRY_NODE_SIZE];
      len := 0;
    }

    // scratch[:k]
    method Truncate(k: nat)
      requires Valid() && k <= len
      modifies `len
      ensures Valid() && len == k && Contents() == old(Contents())[..k]
    {
      len := k;
    }

    // append(scratch, e), reallocating when full
    method Append(e: Entry)
      requires Valid()
      modifies this, buf
      ensures Valid() && Contents() == old(Contents()) + [e]
      ensures buf == old(buf) || fresh(buf)
    {
      if len == buf.Length {
        var bigger := new Entry[2 * len];
        forall i | 0 <= i < len { bigger[i] := buf[i]; }
        assert bigger[..len] == buf[..len];
        buf := bigger;
      }
      ghost var before := buf[..len];
      buf[len] := e;
      len := len + 1;
      assert buf[..len] == before + [e];
    }
  }

  function AsSeq<T>(o: Option<T>): seq<T> {
    if o.Some? then [o.value] else []
  }

  // A path handed to openat: an arena string with a NUL right behind it.
  ghost predicate Terminated(issued: seq<Strings.Issue>, p: Path) {
    exists k :: 0 <= k < |issued| && issued[k].text == p && issued[k].spare == 1
  }

  // Read from its first byte on, as openat does, the string in memory is this path, or
  // what is before its first NUL.
  ghost predicate OpensAs(x: Strings.Issue, p: Path)
    reads x.str.buf
  {
    && x.text == p && x.str.lo + x.str.len < x.str.buf.Length
    && x.str.buf[x.str.lo..x.str.lo + x.str.len] == p
    && CString(x.str.buf[x.str.lo..]) == CString(p)
  }

  lemma TerminatedInMemory(paths: Strings.Store, p: Path)
    requires paths.Valid() && Terminated(paths.issued, p)
    ensures exists k :: 0 <= k < |paths.issued| && OpensAs(paths.issued[k], p)
    ensures CString(p) == p <==> NulFree(p)
  {
    var k: nat :| k < |paths.issued| && paths.issued[k].text == p && paths.issued[k].spare == 1;
    assert Strings.Intact(paths.issued[k]);
    var s := paths.issued[k].str;
    var more := s.buf[s.lo + s.len..];
    assert s.buf[s.lo..] == p + more;
    CStringStops(p, more);
    assert OpensAs(paths.issued[k], p);
  }

  // A name is a string of the arena too.
  ghost predicate Kept(issued: seq<Strings.Issue>, name: Name) {
    exists k :: 0 <= k < |issued| && issued[k].text == name
  }

  ghost predicate NamesKept(issued: seq<Strings.Issue>, es: seq<Entry>) {
    forall i :: 0 <= i < |es| ==> Kept(issued, es[i].name)
  }

  lemma NamesStay(before: seq<Strings.Issue>, after: seq<Strings.Issue>, es: seq<Entry>)
    requires NamesKept(before, es) && before <= after
    ensures NamesKept(after, es)
  {
    forall i | 0 <= i < |es| ensures Kept(after, es[i].name) {
      var k :| 0 <= k < |before| && before[k].text == es[i].name;
      assert after[k] == before[k];
    }
  }

  // The path arena only grew.
  twostate predicate PathsGrew(paths: Strings.Store)
    reads paths, paths.memory
  {
    && paths.Valid() && old(paths.issued) <= paths.issued
    && old(paths.memory) <= paths.memory && fresh(paths.memory - old(paths.memory))
    && (paths.tail == old(paths.tail) || fresh(paths.tail))
  }

  ghost predicate SeesLink(es: seq<Entry>) {
    exists i :: 0 <= i < |es| && es[i].typ == DT_LNK
  }

  lemma SeesLinkSnoc(es: seq<Entry>, e: Entry)
    ensures SeesLink(es + [e]) <==> SeesLink(es) || e.typ == DT_LNK
  {
    if SeesLink(es) {
      var i :| 0 <= i < |es| && es[i].typ == DT_LNK;
      assert (es + [e])[i].typ == DT_LNK;
    }
    if e.typ == DT_LNK {
      assert (es + [e])[|es|].typ == DT_LNK;
    }
  }

  /** readEntries: the scratch ends up with the delivered entries, their names are strings of
      the arena, and the flag says whether there is a link among them.  delivered is what
      readDirRaw calls back with. */
  method ReadEntries(scratch: Scratch, paths: Strings.Store, it: Item, delivered: seq<Dirent>)
    returns (sawLink: bool)
    requires scratch.Valid() && paths.Valid()
    modifies scratch, scratch.buf, paths, paths.tail
    ensures scratch.Valid() && scratch.Contents() == Entries(it.path, delivered)
    ensures sawLink <==> SeesLink(scratch.Contents())
    ensures scratch.buf == old(scratch.buf) || fresh(scratch.buf)
    ensures PathsGrew(paths) && NamesKept(paths.issued, scratch.Contents())
  {
    hide Strings.Store.Valid;
    sawLink := false;
    scratch.Truncate(0);
    var i := 0;
    while i < |delivered|
      invariant 0 <= i <= |delivered| && scratch.Valid()
      invariant scratch.buf == old(scratch.buf) || fresh(scratch.buf)
      invariant scratch.Contents() == Entries(it.path, delivered[..i])
      invariant sawLink <==> SeesLink(scratch.Contents())
      invariant PathsGrew(paths) && NamesKept(paths.issued, scratch.Contents())
    {
      ghost var before, issued := scratch.Contents(), paths.issued;
      var name := paths.StoreBytes(delivered[i].name);
      NamesStay(issued, paths.issued, before);
      assert paths.issued[|issued|].text == delivered[i].name;
      SeesLinkSnoc(before, EntryOf(it.path, delivered[i]));
      scratch.Append(EntryOf(it.path, delivered[i]));
      sawLink := sawLink || delivered[i].typ == DT_LNK;
      assert Entries(it.path, delivered[..i + 1]) == before + [EntryOf(it.path, delivered[i])];
      i := i + 1;
    }
    assert delivered[..i] == delivered;
  }

  // ------------------------------------------------------------------- visitSym's loop

  twostate predicate ErrsGrew(errs: ErrLog, more: seq<DirErr>)
    reads errs, errs.memory
  {
    && errs.Valid() && errs.log == old(errs.log) + more
    && errs.issued == old(errs.issued) && errs.sliced == old(errs.sliced)
    && old(errs.memory) <= errs.memory && fresh(errs.memory - old(errs.memory))
    && (errs.dirErrs == old(errs.dirErrs) || fresh(errs.dirErrs))
  }

  method Report(errs: ErrLog, name: Name, err: Error)
    requires errs.Valid()
    modifies errs, errs.dirErrs
    ensures ErrsGrew(errs, [DirErr(name, err)])
  {
    errs.StoreDirErr(DirErr(name, err));
  }

  // The path of a child, stored with its terminator.
  method ChildPath(paths: Strings.Store, parent: Path, name: Name) returns (child: Path)
    requires paths.Valid()
    modifies paths, paths.tail
    ensures child == Join(parent, name) && PathsGrew(paths) && Terminated(paths.issued, child)
  {
    child := Join(parent, name);
    var stored := paths.StorePathZ(parent, name);
    assert paths.issued[|old(paths.issued)|].text == child;
  }

  // The body of the loop for a symlink entry: what to keep, what to spawn.
  method ResolveLink(env: Env, it: Item, e: Entry, atMaxDepth: bool, errs: ErrLog, paths: Strings.Store)
    returns (kept: Option<Entry>, child: Option<Item>)
    requires errs.Valid() && paths.Valid() && e.typ == DT_LNK && atMaxDepth == AtMaxDepth(env.conf, it.depth)
    modifies errs, errs.dirErrs, paths, paths.tail
    ensures Resolve(env, it, e).kept == AsSeq(kept) && Resolve(env, it, e).spawn == AsSeq(child)
    ensures ErrsGrew(errs, Resolve(env, it, e).errs) && PathsGrew(paths)
    ensures child.Some? ==> Terminated(paths.issued, child.value.path)
  {
    hide Strings.Store.Valid, ErrLog.Valid;
    kept, child := None, None;
    var childPath := ChildPath(paths, it.path, e.name);
    assert errs.log + [] == errs.log;
    match env.k.stat(childPath)
    case StatFailed =>
      Report(errs, e.name, Dangling);
    case NoSys(_) =>
      Report(errs, e.name, NoDevIno);
      kept := Some(e);
    case Info(mode, id) =>
      if mode != ModeDir {
        kept := Some(e.(typ := DTypeFromInfo(mode)));
      } else if id in it.chain {
        Report(errs, e.name, Cycle);
      } else {
        kept := Some(e.(typ := DT_DIR));
        if !atMaxDepth {
          child := Some(Item(childPath, Inc32(it.depth), [id] + it.chain));
        }
      }
  }

  // The listing while the loop is at entry i with keep entries kept.
  ghost predicate Compacting(es: seq<Entry>, now: seq<Entry>, i: nat, keep: nat, kept: seq<Entry>) {
    && keep <= i <= |es| == |now|
    && now[i..] == es[i..]       // entries not read yet are untouched
    && now[..keep] == kept
  }

  // scratch[keep] = e; keep++ -- or, when keep == i and e is what is there, nothing.
  method Keep(scratch: Scratch, ghost es: seq<Entry>, i: nat, keep: nat, e: Entry, ghost kept: seq<Entry>,
              mustWrite: bool)
    requires scratch.Valid() && i < |es| && Compacting(es, scratch.Contents(), i, keep, kept)
    requires !mustWrite ==> e == es[i]
    modifies scratch.buf
    ensures scratch.Valid() && Compacting(es, scratch.Contents(), i + 1, keep + 1, kept + [e])
  {
    ghost var now := scratch.Contents();
    assert now[i..][0] == es[i..][0];
    if mustWrite || keep != i {
      scratch.buf[keep] := e;
    }
    assert scratch.Contents() == now[keep := e];
    assert now[keep := e][i + 1..] == now[i..][1..] == es[i + 1..];
    assert now[keep := e][..keep + 1] == kept + [e];
  }

  lemma Drop(es: seq<Entry>, now: seq<Entry>, i: nat, keep: nat, kept: seq<Entry>)
    requires i < |es| && Compacting(es, now, i, keep, kept)
    ensures Compacting(es, now, i + 1, keep, kept)
  {
  }

  method Settle(scratch: Scratch, ghost es: seq<Entry>, i: nat, keep: nat, kept: Option<Entry>,
                ghost before: seq<Entry>,
                mustWrite: bool)
    returns (keep': nat)
    requires scratch.Valid() && i < |es| && Compacting(es, scratch.Contents(), i, keep, before)
    requires !mustWrite ==> kept == Some(es[i])
    modifies scratch.buf
    ensures scratch.Valid() && Compacting(es, scratch.Contents(), i + 1, keep', before + AsSeq(kept))
  {
    keep' := keep;
    if kept.Some? {
      Keep(scratch, es, i, keep, kept.value, before, mustWrite);
      keep' := keep + 1;
    } else {
      Drop(es, scratch.Contents(), i, keep, before);
      assert before + [] == before;
    }
  }

  lemma {:induction false} OneMoreEntry(env: Env, it: Item, es: seq<Entry>, i: nat)
    requires i < |es| && HasDev(env, it, es)
    ensures HasDev(env, it, es[..i]) && HasDev(env, it, es[..i + 1]) && (NeedsDev(env, it, es[i]) ==> it.chain != [])
    ensures ResolveAll(env, it, es[..i + 1]) == Plus(ResolveAll(env, it, es[..i]), Resolve(env, it, es[i]))
  {
    assert es[..i + 1] == es[..i] + [es[i]];
    ResolveAllConcat(env, it, es[..i], [es[i]]);
    assert [es[i]][1..] == [];
    assert Plus(Resolve(env, it, es[i]), NOTHING) == Resolve(env, it, es[i]);
  }

  // The body of the loop for any other entry: always kept, spawned if a subdirectory.
  method OtherEntry(env: Env, it: Item, e: Entry, atMaxDepth: bool, paths: Strings.Store)
    returns (child: Option<Item>)
    requires paths.Valid() && e.typ != DT_LNK && atMaxDepth == AtMaxDepth(env.conf, it.depth)
    requires NeedsDev(env, it, e) ==> it.chain != []
    modifies paths, paths.tail
    ensures Resolve(env, it, e) == Verdict([e], [], AsSeq(child))
    ensures PathsGrew(paths) && (child.Some? ==> Terminated(paths.issued, child.value.path))
  {
    child := None;
    if e.typ == DT_DIR && !atMaxDepth {
      var childPath := ChildPath(paths, it.path, e.name);
      child := Some(Item(childPath, Inc32(it.depth), [Id(e.ino, it.chain[0].dev)] + it.chain));
    }
  }

  ghost predicate AllTerminated(issued: seq<Strings.Issue>, its: seq<Item>) {
    forall c :: c in its ==> Terminated(issued, c.path)
  }

  lemma StillTerminated(before: seq<Strings.Issue>, after: seq<Strings.Issue>, its: seq<Item>, child: Option<Item>)
    requires AllTerminated(before, its) && before <= after
    requires child.Some? ==> Terminated(after, child.value.path)
    ensures AllTerminated(after, its + AsSeq(child))
  {
  }

  // Looking at one entry: a link is resolved only if the listing is known to have one.
  method LookAt(env: Env, it: Item, e: Entry, sawLink: bool, atMaxDepth: bool, errs: ErrLog, paths: Strings.Store,
                ghost spawn: seq<Item>)
    returns (kept: Option<Entry>, child: Option<Item>, resolved: bool)
    requires errs.Valid() && paths.Valid() && AllTerminated(paths.issued, spawn)
    requires (e.typ == DT_LNK ==> sawLink) && atMaxDepth == AtMaxDepth(env.conf, it.depth)
    requires NeedsDev(env, it, e) ==> it.chain != []
    modifies errs, errs.dirErrs, paths, paths.tail
    ensures Resolve(env, it, e).kept == AsSeq(kept) && Resolve(env, it, e).spawn == AsSeq(child)
    ensures !resolved ==> kept == Some(e)
    ensures ErrsGrew(errs, Resolve(env, it, e).errs)
    ensures PathsGrew(paths) && AllTerminated(paths.issued, spawn + AsSeq(child))
  {
    ghost var before := paths.issued;
    resolved := sawLink && e.typ == DT_LNK;
    if resolved {
      kept, child := ResolveLink(env, it, e, atMaxDepth, errs, paths);
    } else {
      assert errs.log + [] == errs.log;
      child := OtherEntry(env, it, e, atMaxDepth, paths);
      kept := Some(e);
    }
    StillTerminated(before, paths.issued, spawn, child);
  }

  lemma LinkSeen(es: seq<Entry>, i: nat)
    requires i < |es| && es[i].typ == DT_LNK
    ensures SeesLink(es)
  {
  }

  // The loop of visitSym at entry i, v being the verdict on the entries before it.
  ghost predicate InLoop(env: Env, it: Item, scratch: Scratch, es: seq<Entry>, i: nat, keep: nat, errs: ErrLog,
                         paths: Strings.Store, spawn: seq<Item>, v: Verdict)
    reads scratch, scratch.buf, errs, errs.memory, paths, paths.memory
  {
    && scratch.Valid() && errs.Valid() && paths.Valid()
    && i <= |es| && HasDev(env, it, es) && HasDev(env, it, es[..i])
    && v == ResolveAll(env, it, es[..i]) && spawn == v.spawn
    && Compacting(es, scratch.Contents(), i, keep, v.kept)
    && AllTerminated(paths.issued, spawn)
  }

  // One iteration.
  method OneEntry(env: Env, it: Item, scratch: Scratch, ghost es: seq<Entry>, i: nat, keep: nat, sawLink: bool,
                  atMaxDepth: bool, errs: ErrLog, paths: Strings.Store, spawn: seq<Item>, ghost v: Verdict)
    returns (keep': nat, spawn': seq<Item>, ghost v': Verdict)
    requires InLoop(env, it, scratch, es, i, keep, errs, paths, spawn, v) && i < |es|
    requires (sawLink <==> SeesLink(es)) && atMaxDepth == AtMaxDepth(env.conf, it.depth)
    modifies scratch.buf, errs, errs.dirErrs, paths, paths.tail
    ensures InLoop(env, it, scratch, es, i + 1, keep', errs, paths, spawn', v')
    ensures PathsGrew(paths) && v.errs <= v'.errs && ErrsGrew(errs, v'.errs[|v.errs|..])
  {
    hide Strings.Store.Valid, ErrLog.Valid, Resolve, AtMaxDepth, AllTerminated;
    OneMoreEntry(env, it, es, i);
    var e := scratch.buf[i];
    assert e == scratch.Contents()[i..][0] == es[i..][0];
    if e.typ == DT_LNK { LinkSeen(es, i); }
    v' := Plus(v, Resolve(env, it, e));
    assert v'.errs[|v.errs|..] == Resolve(env, it, e).errs;
    var kept, child, resolved := LookAt(env, it, e, sawLink, atMaxDepth, errs, paths, spawn);
    keep' := Settle(scratch, es, i, keep, kept, v.kept, resolved);
    spawn' := spawn + AsSeq(child);
  }

  // The loop: every entry of the listing, in order.
  method Pass(env: Env, it: Item, scratch: Scratch, ghost es: seq<Entry>, sawLink: bool, errs: ErrLog,
              paths: Strings.Store)
    returns (keep: nat, spawn: seq<Item>, ghost v: Verdict)
    requires scratch.len == |es| && InLoop(env, it, scratch, es, 0, 0, errs, paths, [], NOTHING)
    requires sawLink <==> SeesLink(es)
    modifies scratch.buf, errs, errs.dirErrs, paths, paths.tail
    ensures InLoop(env, it, scratch, es, |es|, keep, errs, paths, spawn, v)
    ensures ErrsGrew(errs, v.errs) && PathsGrew(paths)
  {
    hide Strings.Store.Valid, ErrLog.Valid, ResolveAll, Resolve, AtMaxDepth, Compacting, AllTerminated, SeesLink,
      HasDev;
    var atMaxDepth := AtMaxDepth(env.conf, it.depth);
    var i: nat := 0;
    keep, spawn, v := 0, [], NOTHING;
    assert errs.log + [] == errs.log;
    while i < scratch.len
      invariant InLoop(env, it, scratch, es, i, keep, errs, paths, spawn, v)
      invariant ErrsGrew(errs, v.errs) && PathsGrew(paths)
    {
      ghost var before := v.errs;
      keep, spawn, v := OneEntry(env, it, scratch, es, i, keep, sawLink, atMaxDepth, errs, paths, spawn, v);
      assert v.errs == before + v.errs[|before|..];
      assert old(errs.log) + v.errs == (old(errs.log) + before) + v.errs[|before|..];
      i := i + 1;
    }
  }

  /** One pass over the listing that resolves links, compacts the scratch in place, logs
      the errors and builds the spawn list: it computes the filter-map of the
      specification, in listing order. */
  method ResolveInPlace(env: Env, it: Item, scratch: Scratch, sawLink: bool, errs: ErrLog, paths: Strings.Store)
    returns (spawn: seq<Item>)
    requires scratch.Valid() && errs.Valid() && paths.Valid() && HasDev(env, it, scratch.Contents())
    requires sawLink <==> SeesLink(scratch.Contents())
    modifies scratch`len, scratch.buf, errs, errs.dirErrs, paths, paths.tail
    ensures scratch.Valid() && ErrsGrew(errs, ResolveAll(env, it, old(scratch.Contents())).errs) && PathsGrew(paths)
    ensures scratch.Contents() == ResolveAll(env, it, old(scratch.Contents())).kept
    ensures spawn == ResolveAll(env, it, old(scratch.Contents())).spawn && AllTerminated(paths.issued, spawn)
  {
    ghost var es := scratch.Contents();
    assert es[..0] == [] && es[..|es|] == es;
    var keep: nat;
    ghost var v;
    keep, spawn, v := Pass(env, it, scratch, es, sawLink, errs, paths);
    scratch.Truncate(keep);
  }
}
