/**
  The walk over the real ancestor store.  Workers hold pointers into the lock-free arena;
  pushAncestor is a run of compare-and-swap steps of the worker's own goroutine, hasCycle
  one load per step, and any other worker may move between any two of these.
 */
module ArenaWalk {
  import opened Chains
  import opened Paths
  import opened Walk
  import opened Ancestors
  import G = GenericStore
  import R = StoreRuns
  import P = Pool

  // walkItem as it is: the ancestor is an address.
  datatype Work = Work(path: Path, depth: uint32, ancestor: Ref)

  datatype Hand =
    | Idle
    | Scanning(task: Work, todo: seq<Entry>, kept: seq<Entry>, errs: seq<DirErr>, spawn: seq<Work>)
    // in hasCycle, looking for id from ref upwards
    | Checking(task: Work, todo: seq<Entry>, kept: seq<Entry>, errs: seq<DirErr>, spawn: seq<Work>, ref: Ref, id: Id)
    // in pushAncestor, on behalf of the entry that will be shown
    | Pushing(task: Work, todo: seq<Entry>, kept: seq<Entry>, errs: seq<DirErr>, spawn: seq<Work>, shown: Entry)
    | Ready(batch: Batch, spawn: seq<Work>)
    | Spawning(spawn: seq<Work>)
    | Crashed                                   // a load through nil

  // Worker w is goroutine w of the arena; the last goroutine is the one that called Walk.
  datatype State = State(pending: seq<Work>, workers: seq<Hand>, arena: G.Store<Link>, sent: seq<Batch>)

  function Load(s: G.Store<Link>, p: Ref): Option<Link> {
    if p.At? && p.node < |s.heap| && p.slot < |s.heap[p.node].buf| then Some(s.heap[p.node].buf[p.slot]) else None
  }

  predicate Enabled(s: State, a: P.Action) {
    && a.w < |s.workers|
    && (a.Take? ==> s.workers[a.w].Idle? && a.j < |s.pending|)
    && (a.Go? ==> !s.workers[a.w].Idle? && !s.workers[a.w].Crashed?)
  }

  ghost predicate Sound(s: State) {
    G.Inv(s.arena) && |s.arena.threads| == |s.workers| + 1
  }

  function PlainWork(t: Work, es: seq<Entry>): seq<Work> {
    if es == [] then [] else
    (if es[0].typ == DT_DIR then [Work(Join(t.path, es[0].name), Inc32(t.depth), Nil)] else []) + PlainWork(t, es[1..])
  }

  function Begin(env: Env, t: Work): Hand {
    match env.k.readdir(t.path)
    case ReadFailed(e) => Ready(Unreadable(t.path, e).batch, [])
    case Listing(_) =>
      var es := Seen(env, t.path);
      if env.conf.followLinks then Scanning(t, es, [], [], [])
      else Ready(Batch(t.path, es, []), if AtMaxDepth(env.conf, t.depth) then [] else PlainWork(t, es))
  }

  // On to the next entry.
  function Next(x: Hand, kept: seq<Entry>, errs: seq<DirErr>, spawn: seq<Work>): Hand
    requires (x.Scanning? || x.Checking? || x.Pushing?) && x.todo != []
  {
    Scanning(x.task, x.todo[1..], x.kept + kept, x.errs + errs, x.spawn + spawn)
  }

  function Put(s: State, w: nat, x: Hand): State
    requires w < |s.workers|
  {
    s.(workers := s.workers[w := x])
  }

  // A step of the arena does not change the number of goroutines.
  lemma ArenaKeepsSound(s: State, a: G.Action<Link>)
    requires Sound(s)
    ensures Sound(s.(arena := G.Step(s.arena, a)))
  {
    G.StepKeepsInv(s.arena, a);
  }

  // The call of pushAncestor.
  ghost function StartPush(s: State, w: nat, shown: Entry, id: Id): (s': State)
    requires Sound(s) && w < |s.workers| && (s.workers[w].Scanning? || s.workers[w].Checking?)
    ensures Sound(s')
  {
    var x := s.workers[w];
    ArenaKeepsSound(s, G.Begin(w, [Link(id.ino, id.dev, x.task.ancestor)]));
    Put(s, w, Pushing(x.task, x.todo, x.kept, x.errs, x.spawn, shown))
    .(arena := G.Step(s.arena, G.Begin(w, [Link(id.ino, id.dev, x.task.ancestor)])))
  }

  // The next entry of the listing.
  ghost function ScanStep(env: Env, s: State, w: nat): State
    requires Sound(s) && w < |s.workers| && s.workers[w].Scanning? && s.workers[w].todo != []
  {
    var x := s.workers[w];
    var e := x.todo[0];
    if e.typ == DT_LNK then
      match env.k.stat(Join(x.task.path, e.name))
      case StatFailed => Put(s, w, Next(x, [], [DirErr(e.name, Dangling)], []))
      case NoSys(_) => Put(s, w, Next(x, [e], [DirErr(e.name, NoDevIno)], []))
      case Info(mode, id) =>
        if mode != ModeDir then Put(s, w, Next(x, [e.(typ := DTypeFromInfo(mode))], [], []))
        else Put(s, w, Checking(x.task, x.todo, x.kept, x.errs, x.spawn, x.task.ancestor, id))
    else if e.typ == DT_DIR && !AtMaxDepth(env.conf, x.task.depth) then
      match Load(s.arena, x.task.ancestor)
      case None => Put(s, w, Crashed)
      case Some(link) => StartPush(s, w, e, Id(e.ino, link.dev))
    else
      Put(s, w, Next(x, [e], [], []))
  }

  // One turn of the loop of hasCycle, or what follows it.
  ghost function CheckStep(env: Env, s: State, w: nat): State
    requires Sound(s) && w < |s.workers| && s.workers[w].Checking? && s.workers[w].todo != []
  {
    var x := s.workers[w];
    var e := x.todo[0];
    if x.ref.Nil? then
      if AtMaxDepth(env.conf, x.task.depth) then Put(s, w, Next(x, [e.(typ := DT_DIR)], [], []))
      else StartPush(s, w, e.(typ := DT_DIR), x.id)
    else
      match Load(s.arena, x.ref)
      case None => Put(s, w, Crashed)
      case Some(link) =>
        if Id(link.ino, link.dev) == x.id then Put(s, w, Next(x, [], [DirErr(e.name, Cycle)], []))
        else Put(s, w, x.(ref := link.parent))
  }

  // The claim is written: pushAncestor is about to return.
  predicate Returning(pc: G.Pc<Link>) {
    pc.Writing? && pc.k >= |pc.items|
  }

  // One step of pushAncestor.
  ghost function PushStep(s: State, w: nat): (s': State)
    requires Sound(s) && w < |s.workers| && s.workers[w].Pushing? && s.workers[w].todo != []
    ensures Sound(s')
  {
    ArenaKeepsSound(s, G.Go(w));
    var x, pc := s.workers[w], s.arena.threads[w];
    var s' := s.(arena := G.Step(s.arena, G.Go(w)));
    if Returning(pc) then
      Put(s', w, Next(x, [x.shown], [], [Work(Join(x.task.path, x.todo[0].name), Inc32(x.task.depth),
                                              At(pc.at.node, pc.at.lo))]))
    else s'
  }

  function Publish(s: State, w: nat, batch: Batch, spawn: seq<Work>): State
    requires w < |s.workers|
  {
    Put(s, w, Spawning(spawn)).(sent := s.sent + [batch])
  }

  ghost function Step(env: Env, s: State, a: P.Action): (s': State)
    requires Sound(s) && Enabled(s, a)
    ensures Sound(s')
  {
    match a
    case Take(w, j) => Put(s, w, Begin(env, s.pending[j])).(pending := P.Without(s.pending, j))
    case Go(w) =>
      match s.workers[w]
      case Scanning(t, todo, kept, errs, spawn) =>
        if todo == [] then Publish(s, w, Batch(t.path, kept, errs), spawn) else ScanStep(env, s, w)
      case Checking(_, todo, _, _, _, _, _) => if todo == [] then s else CheckStep(env, s, w)
      case Pushing(_, todo, _, _, _, _) => if todo == [] then s else PushStep(s, w)
      case Ready(batch, spawn) => Publish(s, w, batch, spawn)
      case Spawning(spawn) =>
        if spawn == [] then Put(s, w, Idle)
        else Put(s, w, Spawning(spawn[1..])).(pending := s.pending + [spawn[0]])
      case _ => s
  }

  // The arena of a walk with that many workers; Walk itself runs on one more goroutine.
  function EmptyArena(workers: nat): (s: G.Store<Link>)
    ensures G.Inv(s)
  {
    G.NewStore(Link(0, 0, Nil), workers + 1)
  }

  // The whole call of pushAncestor in Walk, before the pool runs.
  function SeedCalls(workers: nat, id: Id): seq<G.Action<Link>> {
    [G.Begin(workers, [Link(id.ino, id.dev, Nil)])] + R.Alone(workers, 7)
  }

  ghost function Seeded(workers: nat, id: Id): (s: G.Store<Link>)
    ensures G.Inv(s) && |s.threads| == workers + 1 && |s.log| > 0
  {
    OnlyOneRuns(EmptyArena(workers), workers, SeedCalls(workers, id));
    R.CallAloneReturns(EmptyArena(workers), workers, [Link(id.ino, id.dev, Nil)]);
    G.Exec(EmptyArena(workers), SeedCalls(workers, id))
  }

  // Goroutines that do not run stay where they are.
  lemma {:induction false} OnlyOneRuns(s: G.Store<Link>, t: nat, calls: seq<G.Action<Link>>)
    requires G.Inv(s) && forall i :: 0 <= i < |calls| ==> calls[i].t == t
    ensures |G.Exec(s, calls).threads| == |s.threads|
    ensures forall u :: 0 <= u < |s.threads| && u != t ==> G.Exec(s, calls).threads[u] == s.threads[u]
    decreases |calls|
  {
    if calls == [] {
    } else {
      G.StepKeepsInv(s, calls[0]);
      OnlyOneRuns(G.Step(s, calls[0]), t, calls[1..]);
    }
  }

  ghost function Init(env: Env, root: Path, workers: nat): (s: State)
    ensures Sound(s)
  {
    var idle := seq(workers, i => Idle);
    if env.conf.followLinks && env.k.stat(root).Info? then
      var arena := Seeded(workers, env.k.stat(root).id);
      State([Work(root, 1, At(arena.log[0].at.node, arena.log[0].at.lo))], idle, arena, [])
    else
      State([Work(root, 1, Nil)], idle, EmptyArena(workers), [])
  }

  predicate Complete(s: State) {
    s.pending == [] && forall w :: 0 <= w < |s.workers| ==> s.workers[w].Idle?
  }

  ghost predicate LegalRun(env: Env, s: State, sched: seq<P.Action>)
    requires Sound(s)
    decreases |sched|
  {
    sched == [] || (Enabled(s, sched[0]) && LegalRun(env, Step(env, s, sched[0]), sched[1..]))
  }

  ghost function Exec(env: Env, s: State, sched: seq<P.Action>): (r: State)
    requires Sound(s) && LegalRun(env, s, sched)
    ensures Sound(r)
    decreases |sched|
  {
    if sched == [] then s else Exec(env, Step(env, s, sched[0]), sched[1..])
  }
}
