/**
  The walk over the lock-free arena does what the walk over one shared list does: every step
  of ArenaWalk is a step of Pool or leaves it where it is.  A link enters the list at the
  winning compare-and-swap of its claim, before it is written and before its address is
  known to anyone.
 */
module Refinement {
  import opened Chains
  import opened Paths
  import opened Walk
  import opened Ancestors
  import opened ArenaWalk

  // The address p is that of the r-th link of the list.
  ghost predicate Denotes(s: G.Store<Link>, p: Ref, r: Option<nat>) {
    match r
    case None => p.Nil?
    case Some(u) => HandedOut(s, p, u)
  }

  ghost predicate WorkIs(s: G.Store<Link>, x: Work, t: P.Task) {
    x.path == t.path && x.depth == t.depth && Denotes(s, x.ancestor, t.ancestor)
  }

  ghost predicate WorksAre(s: G.Store<Link>, xs: seq<Work>, ts: seq<P.Task>) {
    |xs| == |ts| && forall i :: 0 <= i < |xs| ==> WorkIs(s, xs[i], ts[i])
  }

  ghost predicate ScansAs(s: G.Store<Link>, t: Work, todo: seq<Entry>, kept: seq<Entry>, errs: seq<DirErr>,
                          spawn: seq<Work>, y: P.Worker) {
    && y.Scanning? && WorkIs(s, t, y.task) && y.todo == todo && y.kept == kept && y.errs == errs
    && WorksAre(s, spawn, y.spawn)
  }

  // What the search has not seen yet decides its outcome.
  ghost predicate SearchGoesOn(s: G.Store<Link>, h: seq<Knot>, start: Option<nat>, ref: Ref, id: Id)
    requires ParentsFirst(h) && Names(h, start)
  {
    exists r :: Rest(s, h, ref, r) && (id in Chain(h, start) <==> id in Chain(h, r))
  }

  ghost predicate Rest(s: G.Store<Link>, h: seq<Knot>, ref: Ref, r: Option<nat>) {
    Denotes(s, ref, r) && Names(h, r)
  }

  // The entry is one for which a link with this identity is to be pushed.
  ghost predicate Pushes(env: Env, h: seq<Knot>, t: P.Task, e: Entry, shown: Entry, id: Id)
    requires ParentsFirst(h) && Names(h, t.ancestor)
  {
    && !AtMaxDepth(env.conf, t.depth)
    && if e.typ == DT_LNK then
         && env.k.stat(Join(t.path, e.name)) == Info(ModeDir, id) && id !in Chain(h, t.ancestor)
         && shown == e.(typ := DT_DIR)
       else
         e.typ == DT_DIR && shown == e && t.ancestor.Some? && id == Id(e.ino, h[t.ancestor.value].id.dev)
  }

  // Worker x, whose goroutine is at pc, is where y is.
  ghost predicate HandIs(env: Env, s: G.Store<Link>, h: seq<Knot>, pc: G.Pc<Link>, x: Hand, y: P.Worker)
    requires ParentsFirst(h)
  {
    match x
    case Idle => pc.Idle? && y.Idle?
    case Crashed => pc.Idle? && y.Crashed?
    case Ready(batch, spawn) => pc.Idle? && y.Ready? && y.batch == batch && WorksAre(s, spawn, y.spawn)
    case Spawning(spawn) => pc.Idle? && y.Spawning? && WorksAre(s, spawn, y.spawn)
    case Scanning(t, todo, kept, errs, spawn) => pc.Idle? && ScansAs(s, t, todo, kept, errs, spawn, y)
    case Checking(t, todo, kept, errs, spawn, ref, id) =>
      && pc.Idle? && ScansAs(s, t, todo, kept, errs, spawn, y) && Names(h, y.task.ancestor)
      && todo != [] && todo[0].typ == DT_LNK && env.k.stat(Join(t.path, todo[0].name)) == Info(ModeDir, id)
      && SearchGoesOn(s, h, y.task.ancestor, ref, id)
    case Pushing(t, todo, kept, errs, spawn, shown) =>
      && !pc.Idle? && |pc.items| == 1 && pc.items[0].parent == t.ancestor && todo != []
      && if pc.Writing? then Claimed(s, pc.c, x, y) else
           && ScansAs(s, t, todo, kept, errs, spawn, y) && Names(h, y.task.ancestor)
           && Pushes(env, h, y.task, todo[0], shown, Id(pc.items[0].ino, pc.items[0].dev))
  }

  // The claim is won: in the list the link is there, and the child has it.
  ghost predicate Claimed(s: G.Store<Link>, c: nat, x: Hand, y: P.Worker)
    requires x.Pushing? && x.todo != []
  {
    && c < |s.log| && y.Scanning? && WorkIs(s, x.task, y.task)
    && y.todo == x.todo[1..] && y.kept == x.kept + [x.shown] && y.errs == x.errs
    && |y.spawn| == |x.spawn| + 1 && WorksAre(s, x.spawn, y.spawn[..|x.spawn|])
    && y.spawn[|x.spawn|] == P.Task(Join(x.task.path, x.todo[0].name), Inc32(x.task.depth), Some(c))
  }

  ghost predicate HandsAre(env: Env, c: State, a: P.State)
    requires Sound(c) && ParentsFirst(a.heap)
  {
    && |a.workers| == |c.workers|
    && forall w :: 0 <= w < |c.workers| ==>
         HandIs(env, c.arena, a.heap, c.arena.threads[w], c.workers[w], a.workers[w])
  }

  ghost predicate Refines(env: Env, c: State, a: P.State) {
    && Sound(c) && Mirrors(c.arena, a.heap)
    && WorksAre(c.arena, c.pending, a.pending) && HandsAre(env, c, a)
    && c.sent == P.Batches(a.events)
  }

  // ----------------------------------------------------------- addresses and the list

  lemma DenotesStays(s: G.Store<Link>, s': G.Store<Link>, p: Ref, r: Option<nat>)
    requires R.LogGrows(s, s') && Denotes(s, p, r)
    ensures Denotes(s', p, r)
  {
  }

  lemma DenotesOne(s: G.Store<Link>, p: Ref, r: Option<nat>, r': Option<nat>)
    requires G.Inv(s) && Denotes(s, p, r) && Denotes(s, p, r')
    ensures r == r'
  {
    if r.Some? && r'.Some? {
      var u, v := r.value, r'.value;
      assert u < v ==> G.Disjoint(s.log[u].at, s.log[v].at);
      assert v < u ==> G.Disjoint(s.log[v].at, s.log[u].at);
    }
  }

  lemma DenotesNames(s: G.Store<Link>, h: seq<Knot>, p: Ref, r: Option<nat>)
    requires Mirrors(s, h) && Denotes(s, p, r)
    ensures Names(h, r) && Usable(s, p)
  {
    if r.Some? {
      assert HandedOut(s, p, r.value);
    }
  }

  // What a load through a handed-out address finds.
  lemma LoadFinds(s: G.Store<Link>, h: seq<Knot>, p: Ref, u: nat)
    requires G.Inv(s) && Mirrors(s, h) && HandedOut(s, p, u)
    ensures u < |h| && Load(s, p).Some?
    ensures var link := Load(s, p).value;
      Id(link.ino, link.dev) == h[u].id && Denotes(s, link.parent, h[u].up)
  {
    assert G.ClaimOk(s, s.log[u]);
    assert G.Content(s, s.log[u].at)[0] == s.log[u].items[0];
    assert ParentMatches(s, s.log[u].items[0].parent, h[u].up, u);
  }

  lemma WorksStay(s: G.Store<Link>, s': G.Store<Link>, xs: seq<Work>, ts: seq<P.Task>)
    requires R.LogGrows(s, s') && WorksAre(s, xs, ts)
    ensures WorksAre(s', xs, ts)
  {
    forall i | 0 <= i < |xs| ensures WorkIs(s', xs[i], ts[i]) {
      assert WorkIs(s, xs[i], ts[i]);
      DenotesStays(s, s', xs[i].ancestor, ts[i].ancestor);
    }
  }

  lemma WorksNamed(s: G.Store<Link>, h: seq<Knot>, xs: seq<Work>, ts: seq<P.Task>)
    requires Mirrors(s, h) && WorksAre(s, xs, ts)
    ensures P.Named(h, ts)
  {
    forall i | 0 <= i < |ts| ensures Names(h, ts[i].ancestor) {
      assert WorkIs(s, xs[i], ts[i]);
      DenotesNames(s, h, xs[i].ancestor, ts[i].ancestor);
    }
  }

  lemma SearchStays(s: G.Store<Link>, s': G.Store<Link>, h: seq<Knot>, h': seq<Knot>, start: Option<nat>, ref: Ref,
                    id: Id)
    requires ParentsFirst(h) && ParentsFirst(h') && h <= h' && R.LogGrows(s, s') && Names(h, start)
    requires SearchGoesOn(s, h, start, ref, id)
    ensures SearchGoesOn(s', h', start, ref, id)
  {
    var r :| Rest(s, h, ref, r) && (id in Chain(h, start) <==> id in Chain(h, r));
    DenotesStays(s, s', ref, r);
    ChainIsFrozen(h, h', start);
    ChainIsFrozen(h, h', r);
    assert Rest(s', h', ref, r);
  }

  lemma PushesStays(env: Env, h: seq<Knot>, h': seq<Knot>, t: P.Task, e: Entry, shown: Entry, id: Id)
    requires ParentsFirst(h) && ParentsFirst(h') && h <= h' && Names(h, t.ancestor)
    requires Pushes(env, h, t, e, shown, id)
    ensures Pushes(env, h', t, e, shown, id)
  {
    ChainIsFrozen(h, h', t.ancestor);
  }

  // Other workers do not notice.
  lemma HandStays(env: Env, s: G.Store<Link>, s': G.Store<Link>, h: seq<Knot>, h': seq<Knot>, pc: G.Pc<Link>,
                  x: Hand, y: P.Worker)
    requires ParentsFirst(h) && ParentsFirst(h') && h <= h' && R.LogGrows(s, s')
    requires HandIs(env, s, h, pc, x, y)
    ensures HandIs(env, s', h', pc, x, y)
  {
    hide SearchGoesOn, Pushes, Chain, WorksAre;
    if x.Scanning? || x.Checking? || x.Pushing? {
      DenotesStays(s, s', x.task.ancestor, y.task.ancestor);
      if x.Pushing? && pc.Writing? {
        WorksStay(s, s', x.spawn, y.spawn[..|x.spawn|]);
      } else {
        WorksStay(s, s', x.spawn, y.spawn);
      }
      if x.Checking? {
        SearchStays(s, s', h, h', y.task.ancestor, x.ref, x.id);
      } else if x.Pushing? && !pc.Writing? {
        PushesStays(env, h, h', y.task, x.todo[0], x.shown, Id(pc.items[0].ino, pc.items[0].dev));
      }
    } else if x.Ready? || x.Spawning? {
      WorksStay(s, s', x.spawn, y.spawn);
    }
  }

  lemma HandNamed(env: Env, s: G.Store<Link>, h: seq<Knot>, pc: G.Pc<Link>, x: Hand, y: P.Worker)
    requires Mirrors(s, h) && HandIs(env, s, h, pc, x, y)
    ensures P.WorkerNamed(h, y)
  {
    hide SearchGoesOn, Pushes;
    if x.Scanning? || x.Checking? || x.Pushing? {
      DenotesNames(s, h, x.task.ancestor, y.task.ancestor);
      if x.Pushing? && pc.Writing? {
        WorksNamed(s, h, x.spawn, y.spawn[..|x.spawn|]);
      } else {
        WorksNamed(s, h, x.spawn, y.spawn);
      }
    } else if x.Ready? || x.Spawning? {
      WorksNamed(s, h, x.spawn, y.spawn);
    }
  }

  lemma RefinedIsWf(env: Env, c: State, a: P.State)
    requires Refines(env, c, a)
    ensures P.Wf(a)
  {
    WorksNamed(c.arena, a.heap, c.pending, a.pending);
    forall w | 0 <= w < |a.workers| ensures P.WorkerNamed(a.heap, a.workers[w]) {
      HandNamed(env, c.arena, a.heap, c.arena.threads[w], c.workers[w], a.workers[w]);
    }
  }

  // -------------------------------------------------------------- one worker has moved

  // Worker w of two states that refine each other.
  lemma HandAt(env: Env, c: State, a: P.State, w: nat)
    requires Refines(env, c, a) && w < |c.workers|
    ensures Sound(c) && ParentsFirst(a.heap) && Mirrors(c.arena, a.heap) && |a.workers| == |c.workers|
    ensures WorksAre(c.arena, c.pending, a.pending) && c.sent == P.Batches(a.events)
    ensures HandIs(env, c.arena, a.heap, c.arena.threads[w], c.workers[w], a.workers[w])
  {
  }

  // The memory has moved on by one step of goroutine w, the list with it.
  ghost predicate Moved(c: State, c': State, h: seq<Knot>, h': seq<Knot>, w: nat) {
    && Sound(c) && Sound(c') && w < |c.workers| && |c'.workers| == |c.workers|
    && R.LogGrows(c.arena, c'.arena) && Mirrors(c'.arena, h') && ParentsFirst(h) && h <= h'
    && (forall u :: 0 <= u < |c.arena.threads| && u != w ==> c'.arena.threads[u] == c.arena.threads[u])
    && (forall u :: 0 <= u < |c.workers| && u != w ==> c'.workers[u] == c.workers[u])
  }

  lemma OneHandMoved(env: Env, c: State, a: P.State, c': State, a': P.State, w: nat)
    requires Refines(env, c, a) && Moved(c, c', a.heap, a'.heap, w)
    requires |a'.workers| == |a.workers| && forall u :: 0 <= u < |a.workers| && u != w ==> a'.workers[u] == a.workers[u]
    requires HandIs(env, c'.arena, a'.heap, c'.arena.threads[w], c'.workers[w], a'.workers[w])
    requires WorksAre(c'.arena, c'.pending, a'.pending) && c'.sent == P.Batches(a'.events)
    ensures Refines(env, c', a')
  {
    hide HandIs, WorksAre;
    forall u | 0 <= u < |c'.workers|
      ensures HandIs(env, c'.arena, a'.heap, c'.arena.threads[u], c'.workers[u], a'.workers[u])
    {
      if u != w {
        HandStays(env, c.arena, c'.arena, a.heap, a'.heap, c.arena.threads[u], c.workers[u], a.workers[u]);
      }
    }
  }

  lemma {:induction false} QuietEvent(evs: seq<P.Event>, e: P.Event)
    requires !e.Published?
    ensures P.Batches(evs + [e]) == P.Batches(evs)
  {
    P.NoBatches([e]);
    P.BatchesConcat(evs, [e]);
  }

  lemma {:induction false} SentEvent(evs: seq<P.Event>, batch: Batch)
    ensures P.Batches(evs + [P.Published(batch)]) == P.Batches(evs) + [batch]
  {
    P.BatchesConcat(evs, [P.Published(batch)]);
    assert [P.Published(batch)][1..] == [];
  }

  lemma NothingMoved(c: State, c': State, h: seq<Knot>, w: nat)
    requires Sound(c) && w < |c.workers| && Mirrors(c.arena, h)
    requires c'.arena == c.arena && |c'.workers| == |c.workers|
    requires forall u :: 0 <= u < |c.workers| && u != w ==> c'.workers[u] == c.workers[u]
    ensures Moved(c, c', h, h, w)
  {
  }

  // ------------------------------------------------------------------ taking an item

  lemma {:induction false} PlainWorkIs(s: G.Store<Link>, x: Work, t: P.Task, es: seq<Entry>)
    requires WorkIs(s, x, t)
    ensures WorksAre(s, PlainWork(x, es), P.PlainTasks(t, es))
    decreases |es|
  {
    if es == [] {
    } else {
      PlainWorkIs(s, x, t, es[1..]);
    }
  }

  lemma WorksWithout(s: G.Store<Link>, xs: seq<Work>, ts: seq<P.Task>, j: nat)
    requires WorksAre(s, xs, ts) && j < |xs|
    ensures WorksAre(s, P.Without(xs, j), P.Without(ts, j))
  {
  }

  lemma TakeRefines(env: Env, c: State, a: P.State, w: nat, j: nat)
    requires Refines(env, c, a) && Enabled(c, P.Take(w, j)) && P.Wf(a)
    ensures P.Enabled(a, P.Take(w, j)) && Refines(env, Step(env, c, P.Take(w, j)), P.Step(env, a, P.Take(w, j)))
  {
    hide PlainWork, P.PlainTasks, AtMaxDepth, Filter, Mirrors;
    assert HandIs(env, c.arena, a.heap, c.arena.threads[w], c.workers[w], a.workers[w]);
    var c', a' := Step(env, c, P.Take(w, j)), P.Step(env, a, P.Take(w, j));
    var x, t := c.pending[j], a.pending[j];
    assert WorkIs(c.arena, x, t);
    if env.k.readdir(x.path).Listing? {
      PlainWorkIs(c.arena, x, t, Seen(env, x.path));
    }
    WorksWithout(c.arena, c.pending, a.pending, j);
    QuietEvent(a.events, P.Took(t.path));
    NothingMoved(c, c', a.heap, w);
    OneHandMoved(env, c, a, c', a', w);
  }

  // ------------------------------------------------------------- looking at an entry

  // A step that ends the work on an entry without touching the arena.
  lemma EntryDone(env: Env, c: State, a: P.State, w: nat, kept: seq<Entry>, errs: seq<DirErr>)
    requires Refines(env, c, a) && P.Wf(a) && w < |c.workers| && (c.workers[w].Scanning? || c.workers[w].Checking?)
    requires c.workers[w].todo != [] && a.workers[w].Scanning?
    requires Names(a.heap, a.workers[w].task.ancestor)
    requires P.ScanEntry(env, a.heap, a.workers[w].task, c.workers[w].todo[0]) == P.Scan(kept, errs, [], [], false)
    ensures P.Enabled(a, P.Go(w))
    ensures Refines(env, Put(c, w, Next(c.workers[w], kept, errs, [])), P.Step(env, a, P.Go(w)))
  {
    var x, y := c.workers[w], a.workers[w];
    assert HandIs(env, c.arena, a.heap, c.arena.threads[w], x, y);
    var c', a' := Put(c, w, Next(x, kept, errs, [])), P.Step(env, a, P.Go(w));
    assert a'.heap == a.heap && y.spawn + [] == y.spawn && x.spawn + [] == x.spawn;
    QuietEvent(a.events, P.Looked(y.task.path, y.todo[0].name));
    NothingMoved(c, c', a.heap, w);
    OneHandMoved(env, c, a, c', a', w);
  }

  // Entering pushAncestor: nothing the list can tell.
  lemma PushStarts(env: Env, c: State, a: P.State, w: nat, shown: Entry, id: Id)
    requires Refines(env, c, a) && w < |c.workers| && (c.workers[w].Scanning? || c.workers[w].Checking?)
    requires c.workers[w].todo != [] && a.workers[w].Scanning? && Names(a.heap, a.workers[w].task.ancestor)
    requires Pushes(env, a.heap, a.workers[w].task, c.workers[w].todo[0], shown, id)
    ensures Refines(env, StartPush(c, w, shown, id), a)
  {
    hide Pushes, SearchGoesOn;
    var x, y, s := c.workers[w], a.workers[w], c.arena;
    assert HandIs(env, s, a.heap, s.threads[w], x, y);
    var link := Link(id.ino, id.dev, x.task.ancestor);
    var call := G.Begin(w, [link]);
    var c' := StartPush(c, w, shown, id);
    DenotesNames(s, a.heap, x.task.ancestor, y.task.ancestor);
    G.StepKeepsInv(s, call);
    R.StepGrowsLog(s, call);
    var h' := StepMirrors(s, a.heap, call);
    assert h' == a.heap;
    WorksStay(s, c'.arena, c.pending, a.pending);
    WorksStay(s, c'.arena, x.spawn, y.spawn);
    DenotesStays(s, c'.arena, x.task.ancestor, y.task.ancestor);
    OneHandMoved(env, c, a, c', a, w);
  }

  // The answers to a link, or to an entry that is none, that need no ancestor.
  lemma ScanRefines(env: Env, c: State, a: P.State, w: nat) returns (a': P.State)
    requires Refines(env, c, a) && P.Wf(a) && w < |c.workers| && c.workers[w].Scanning? && c.workers[w].todo != []
    ensures Refines(env, ScanStep(env, c, w), a')
    ensures a' == a || (P.Enabled(a, P.Go(w)) && a' == P.Step(env, a, P.Go(w)))
  {
    var x, y := c.workers[w], a.workers[w];
    var e := x.todo[0];
    assert HandIs(env, c.arena, a.heap, c.arena.threads[w], x, y) && P.WorkerNamed(a.heap, y);
    a' := P.Step(env, a, P.Go(w));
    if e.typ == DT_LNK {
      match env.k.stat(Join(x.task.path, e.name))
      case StatFailed => EntryDone(env, c, a, w, [], [DirErr(e.name, Dangling)]);
      case NoSys(_) => EntryDone(env, c, a, w, [e], [DirErr(e.name, NoDevIno)]);
      case Info(mode, id) =>
        if mode != ModeDir {
          EntryDone(env, c, a, w, [e.(typ := DTypeFromInfo(mode))], []);
        } else {
          a' := a;
          CheckStarts(env, c, a, w, id);
        }
    } else if e.typ == DT_DIR && !AtMaxDepth(env.conf, x.task.depth) {
      a' := SubdirRefines(env, c, a, w);
    } else {
      EntryDone(env, c, a, w, [e], []);
    }
  }

  lemma CheckStarts(env: Env, c: State, a: P.State, w: nat, id: Id)
    requires Refines(env, c, a) && P.Wf(a) && w < |c.workers| && c.workers[w].Scanning? && c.workers[w].todo != []
    requires c.workers[w].todo[0].typ == DT_LNK
    requires env.k.stat(Join(c.workers[w].task.path, c.workers[w].todo[0].name)) == Info(ModeDir, id)
    ensures Refines(env, ScanStep(env, c, w), a)
  {
    var x, y, c' := c.workers[w], a.workers[w], ScanStep(env, c, w);
    assert HandIs(env, c.arena, a.heap, c.arena.threads[w], x, y) && P.WorkerNamed(a.heap, y);
    assert Rest(c.arena, a.heap, x.task.ancestor, y.task.ancestor);
    NothingMoved(c, c', a.heap, w);
    OneHandMoved(env, c, a, c', a, w);
  }

  // A subdirectory: the device is read through the ancestor, unless that is nil.
  lemma SubdirRefines(env: Env, c: State, a: P.State, w: nat) returns (a': P.State)
    requires Refines(env, c, a) && P.Wf(a) && w < |c.workers| && c.workers[w].Scanning? && c.workers[w].todo != []
    requires c.workers[w].todo[0].typ == DT_DIR && !AtMaxDepth(env.conf, c.workers[w].task.depth)
    ensures Refines(env, ScanStep(env, c, w), a')
    ensures a' == a || (P.Enabled(a, P.Go(w)) && a' == P.Step(env, a, P.Go(w)))
  {
    var x, y, s := c.workers[w], a.workers[w], c.arena;
    assert HandIs(env, s, a.heap, s.threads[w], x, y) && P.WorkerNamed(a.heap, y);
    match y.task.ancestor
    case None =>
      var c' := ScanStep(env, c, w);
      a' := P.Step(env, a, P.Go(w));
      QuietEvent(a.events, P.Looked(y.task.path, y.todo[0].name));
      NothingMoved(c, c', a.heap, w);
      OneHandMoved(env, c, a, c', a', w);
    case Some(u) =>
      a' := a;
      LoadFinds(s, a.heap, x.task.ancestor, u);
      PushStarts(env, c, a, w, x.todo[0], Id(x.todo[0].ino, Load(s, x.task.ancestor).value.dev));
  }

  // ------------------------------------------------------------------------ hasCycle

  lemma CheckRefines(env: Env, c: State, a: P.State, w: nat) returns (a': P.State)
    requires Refines(env, c, a) && P.Wf(a) && w < |c.workers| && c.workers[w].Checking? && c.workers[w].todo != []
    ensures Refines(env, CheckStep(env, c, w), a')
    ensures a' == a || (P.Enabled(a, P.Go(w)) && a' == P.Step(env, a, P.Go(w)))
  {
    hide WorksAre, Mirrors, P.Step, Refines, Load;
    HandAt(env, c, a, w);
    var x, y, s, h := c.workers[w], a.workers[w], c.arena, a.heap;
    var e := x.todo[0];
    assert P.WorkerNamed(h, y);
    var start := y.task.ancestor;
    var r: Option<nat> :| Rest(s, h, x.ref, r) && (x.id in Chain(h, start) <==> x.id in Chain(h, r));
    a' := P.Step(env, a, P.Go(w));
    if x.ref.Nil? {
      if AtMaxDepth(env.conf, x.task.depth) {
        EntryDone(env, c, a, w, [e.(typ := DT_DIR)], []);
      } else {
        a' := a;
        PushStarts(env, c, a, w, e.(typ := DT_DIR), x.id);
      }
    } else {
      LoadFinds(s, h, x.ref, r.value);
      var link := Load(s, x.ref).value;
      assert Chain(h, r) == [h[r.value].id] + Chain(h, h[r.value].up);
      if Id(link.ino, link.dev) == x.id {
        EntryDone(env, c, a, w, [], [DirErr(e.name, Cycle)]);
      } else {
        a' := a;
        assert Rest(s, h, link.parent, h[r.value].up);
        NothingMoved(c, CheckStep(env, c, w), h, w);
        OneHandMoved(env, c, a, CheckStep(env, c, w), a, w);
      }
    }
  }

  // --------------------------------------------------------------------- pushAncestor

  // What a step of a one-value call does to its goroutine and to the claims.
  lemma CallMoves(s: G.Store<Link>, w: nat)
    requires G.Inv(s) && w < |s.threads| && !s.threads[w].Idle? && |s.threads[w].items| == 1
    ensures var pc, s' := s.threads[w], G.Step(s, G.Go(w));
      && |s'.threads| == |s.threads|
      && (forall u :: 0 <= u < |s.threads| && u != w ==> s'.threads[u] == s.threads[u])
      && var pc' := s'.threads[w];
      if Returning(pc) then
        pc'.Idle? && |s'.log| == |s.log| && HandedOut(s', At(pc.at.node, pc.at.lo), pc.c)
      else if pc.Writing? then
        pc'.Writing? && pc'.items == pc.items && pc'.c == pc.c && |s'.log| == |s.log|
      else if pc'.Writing? then
        && pc'.items == pc.items && pc'.c == |s.log|
        && |s'.log| == |s.log| + 1 && s'.log[|s.log|].items == pc.items
      else
        !pc'.Idle? && pc'.items == pc.items && |s'.log| == |s.log|
  {
    assert G.ThreadOk(s, s.threads[w]);
  }

  // The shared part of a step of pushAncestor.
  lemma PushMoves(env: Env, c: State, a: P.State, w: nat) returns (h': seq<Knot>)
    requires Refines(env, c, a) && w < |c.workers| && c.workers[w].Pushing?
    ensures c.workers[w].todo != [] && Moved(c, PushStep(c, w), a.heap, h', w)
    ensures WorksAre(PushStep(c, w).arena, c.pending, a.pending)
  {
    var x, y, s := c.workers[w], a.workers[w], c.arena;
    assert HandIs(env, s, a.heap, s.threads[w], x, y);
    var s' := G.Step(s, G.Go(w));
    CallMoves(s, w);
    G.StepKeepsInv(s, G.Go(w));
    R.StepGrowsLog(s, G.Go(w));
    h' := StepMirrors(s, a.heap, G.Go(w));
    WorksStay(s, s', c.pending, a.pending);
  }

  lemma SameList(c: State, c': State, h: seq<Knot>, h': seq<Knot>, w: nat)
    requires Moved(c, c', h, h', w) && Mirrors(c.arena, h) && |c'.arena.log| == |c.arena.log|
    ensures h' == h
  {
  }

  // pushAncestor returns: the list has had the link since its claim was won.
  lemma PushReturns(env: Env, c: State, a: P.State, w: nat)
    requires Refines(env, c, a) && w < |c.workers| && c.workers[w].Pushing? && Returning(c.arena.threads[w])
    ensures c.workers[w].todo != [] && Refines(env, PushStep(c, w), a)
  {
    hide Pushes, SearchGoesOn, G.Step, Refines, Mirrors;
    HandAt(env, c, a, w);
    var x, y, s, pc := c.workers[w], a.workers[w], c.arena, c.arena.threads[w];
    CallMoves(s, w);
    var h' := PushMoves(env, c, a, w);
    var c' := PushStep(c, w);
    SameList(c, c', a.heap, h', w);
    DenotesStays(s, c'.arena, x.task.ancestor, y.task.ancestor);
    WorksStay(s, c'.arena, x.spawn, y.spawn[..|x.spawn|]);
    assert WorkIs(c'.arena, c'.workers[w].spawn[|x.spawn|], y.spawn[|x.spawn|]);
    forall i | 0 <= i < |c'.workers[w].spawn| ensures WorkIs(c'.arena, c'.workers[w].spawn[i], y.spawn[i]) {
      assert i < |x.spawn| ==> WorkIs(c'.arena, x.spawn[i], y.spawn[..|x.spawn|][i]);
    }
    assert x.errs + [] == x.errs;
    OneHandMoved(env, c, a, c', a, w);
  }

  // Any other step that wins no claim: a load, an allocation, a lost race, a slot written.
  lemma PushGoesOn(env: Env, c: State, a: P.State, w: nat)
    requires Refines(env, c, a) && w < |c.workers| && c.workers[w].Pushing? && !Returning(c.arena.threads[w])
    requires |G.Step(c.arena, G.Go(w)).log| == |c.arena.log|
    ensures c.workers[w].todo != [] && Refines(env, PushStep(c, w), a)
  {
    hide Pushes, SearchGoesOn;
    var x, y, s, pc := c.workers[w], a.workers[w], c.arena, c.arena.threads[w];
    assert HandIs(env, s, a.heap, pc, x, y);
    CallMoves(s, w);
    var h' := PushMoves(env, c, a, w);
    var c' := PushStep(c, w);
    SameList(c, c', a.heap, h', w);
    DenotesStays(s, c'.arena, x.task.ancestor, y.task.ancestor);
    WorksStay(s, c'.arena, x.spawn, if pc.Writing? then y.spawn[..|x.spawn|] else y.spawn);
    OneHandMoved(env, c, a, c', a, w);
  }

  // What the list walk does with such an entry.
  lemma ListPushes(env: Env, a: P.State, w: nat, shown: Entry, id: Id)
    requires P.Wf(a) && w < |a.workers| && a.workers[w].Scanning? && a.workers[w].todo != []
    requires P.WorkerNamed(a.heap, a.workers[w])
    requires Pushes(env, a.heap, a.workers[w].task, a.workers[w].todo[0], shown, id)
    ensures var y, a' := a.workers[w], P.Step(env, a, P.Go(w));
      && a'.heap == a.heap + [Knot(id, y.task.ancestor)] && a'.pending == a.pending
      && P.Batches(a'.events) == P.Batches(a.events)
      && a'.workers == a.workers[w := P.Scanning(y.task, y.todo[1..], y.kept + [shown], y.errs, y.spawn +
           [P.Task(Join(y.task.path, y.todo[0].name), Inc32(y.task.depth), Some(|a.heap|))])]
  {
    hide Pushes, P.ScanEntry;
    var y := a.workers[w];
    PushScanned(env, a.heap, y.task, y.todo[0], shown, id);
    QuietEvent(a.events, P.Looked(y.task.path, y.todo[0].name));
    assert y.errs + [] == y.errs;
  }

  // The claim is won: this is the moment at which the list grows.
  lemma PushWins(env: Env, c: State, a: P.State, w: nat)
    requires Refines(env, c, a) && P.Wf(a) && w < |c.workers| && c.workers[w].Pushing?
    requires |G.Step(c.arena, G.Go(w)).log| > |c.arena.log|
    ensures c.workers[w].todo != [] && P.Enabled(a, P.Go(w))
    ensures Refines(env, PushStep(c, w), P.Step(env, a, P.Go(w)))
  {
    hide Pushes, SearchGoesOn, P.Step, G.Step, Refines;
    HandAt(env, c, a, w);
    var x, y, s, pc := c.workers[w], a.workers[w], c.arena, c.arena.threads[w];
    assert P.WorkerNamed(a.heap, y);
    CallMoves(s, w);
    var h' := PushMoves(env, c, a, w);
    var c', a' := PushStep(c, w), P.Step(env, a, P.Go(w));
    DenotesStays(s, c'.arena, x.task.ancestor, y.task.ancestor);
    WorksStay(s, c'.arena, x.spawn, y.spawn);
    WonLink(c'.arena, a.heap, h', pc.items[0], y.task.ancestor);
    ListPushes(env, a, w, x.shown, Id(pc.items[0].ino, pc.items[0].dev));
    assert a'.workers[w].spawn[..|x.spawn|] == y.spawn;
    OneHandMoved(env, c, a, c', a', w);
  }

  lemma WonLink(s': G.Store<Link>, h: seq<Knot>, h': seq<Knot>, link: Link, up: Option<nat>)
    requires G.Inv(s') && Mirrors(s', h') && h <= h' && |h'| == |h| + 1 && s'.log[|h|].items == [link]
    requires Denotes(s', link.parent, up)
    ensures h' == h + [Knot(Id(link.ino, link.dev), up)]
  {
    assert ParentMatches(s', link.parent, h'[|h|].up, |h|);
    DenotesOne(s', link.parent, up, h'[|h|].up);
  }

  lemma PushScanned(env: Env, h: seq<Knot>, t: P.Task, e: Entry, shown: Entry, id: Id)
    requires ParentsFirst(h) && Names(h, t.ancestor) && Pushes(env, h, t, e, shown, id)
    ensures P.ScanEntry(env, h, t, e)
      == P.Scan([shown], [], [P.Task(Join(t.path, e.name), Inc32(t.depth), Some(|h|))], [Knot(id, t.ancestor)], false)
  {
  }

  lemma PushRefines(env: Env, c: State, a: P.State, w: nat) returns (a': P.State)
    requires Refines(env, c, a) && P.Wf(a) && w < |c.workers| && c.workers[w].Pushing?
    ensures c.workers[w].todo != [] && Refines(env, PushStep(c, w), a')
    ensures a' == a || (P.Enabled(a, P.Go(w)) && a' == P.Step(env, a, P.Go(w)))
  {
    assert HandIs(env, c.arena, a.heap, c.arena.threads[w], c.workers[w], a.workers[w]);
    CallMoves(c.arena, w);
    a' := a;
    if Returning(c.arena.threads[w]) {
      PushReturns(env, c, a, w);
    } else if |G.Step(c.arena, G.Go(w)).log| == |c.arena.log| {
      PushGoesOn(env, c, a, w);
    } else {
      PushWins(env, c, a, w);
      a' := P.Step(env, a, P.Go(w));
    }
  }

  // ------------------------------------------------------------- publish, push, rest

  lemma PublishRefines(env: Env, c: State, a: P.State, w: nat)
    requires Refines(env, c, a) && P.Wf(a) && w < |c.workers|
    requires c.workers[w].Ready? || (c.workers[w].Scanning? && c.workers[w].todo == [])
    ensures P.Enabled(a, P.Go(w)) && Refines(env, Step(env, c, P.Go(w)), P.Step(env, a, P.Go(w)))
  {
    var x, y := c.workers[w], a.workers[w];
    assert HandIs(env, c.arena, a.heap, c.arena.threads[w], x, y);
    var c', a' := Step(env, c, P.Go(w)), P.Step(env, a, P.Go(w));
    SentEvent(a.events, if x.Ready? then x.batch else Batch(x.task.path, x.kept, x.errs));
    NothingMoved(c, c', a.heap, w);
    OneHandMoved(env, c, a, c', a', w);
  }

  lemma SpawnRefines(env: Env, c: State, a: P.State, w: nat)
    requires Refines(env, c, a) && P.Wf(a) && w < |c.workers| && c.workers[w].Spawning?
    ensures P.Enabled(a, P.Go(w)) && Refines(env, Step(env, c, P.Go(w)), P.Step(env, a, P.Go(w)))
  {
    var x, y := c.workers[w], a.workers[w];
    assert HandIs(env, c.arena, a.heap, c.arena.threads[w], x, y);
    var c', a' := Step(env, c, P.Go(w)), P.Step(env, a, P.Go(w));
    if x.spawn == [] {
      QuietEvent(a.events, P.Rested);
    } else {
      assert WorkIs(c.arena, x.spawn[0], y.spawn[0]);
      QuietEvent(a.events, P.Spawned(y.spawn[0].path));
    }
    NothingMoved(c, c', a.heap, w);
    OneHandMoved(env, c, a, c', a', w);
  }

  // ------------------------------------------------------------------------ theorems

  /** Every step of the walk over the arena is the same worker's step of the walk over the
      list, or changes nothing that the list can tell. */
  lemma StepRefines(env: Env, c: State, a: P.State, x: P.Action) returns (a': P.State)
    requires Refines(env, c, a) && Enabled(c, x)
    ensures Refines(env, Step(env, c, x), a') && P.Wf(a)
    ensures a' == a || (P.Enabled(a, x) && a' == P.Step(env, a, x))
  {
    hide Refines;
    RefinedIsWf(env, c, a);
    if x.Take? {
      TakeRefines(env, c, a, x.w, x.j);
      a' := P.Step(env, a, x);
    } else {
      match c.workers[x.w]
      case Scanning(_, todo, _, _, _) =>
        if todo == [] {
          PublishRefines(env, c, a, x.w);
          a' := P.Step(env, a, x);
        } else {
          a' := ScanRefines(env, c, a, x.w);
        }
      case Checking(_, _, _, _, _, _, _) => a' := CheckHandRefines(env, c, a, x.w);
      case Pushing(_, _, _, _, _, _) => a' := PushRefines(env, c, a, x.w);
      case Ready(_, _) =>
        PublishRefines(env, c, a, x.w);
        a' := P.Step(env, a, x);
      case Spawning(_) =>
        SpawnRefines(env, c, a, x.w);
        a' := P.Step(env, a, x);
    }
  }

  lemma CheckHandRefines(env: Env, c: State, a: P.State, w: nat) returns (a': P.State)
    requires Refines(env, c, a) && P.Wf(a) && w < |c.workers| && c.workers[w].Checking?
    ensures c.workers[w].todo != [] && Refines(env, CheckStep(env, c, w), a')
    ensures a' == a || (P.Enabled(a, P.Go(w)) && a' == P.Step(env, a, P.Go(w)))
  {
    assert HandIs(env, c.arena, a.heap, c.arena.threads[w], c.workers[w], a.workers[w]);
    a' := CheckRefines(env, c, a, w);
  }
}
