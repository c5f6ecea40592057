/**
  The walk as it runs: any number of workers, a bag of pending items any idle worker may
  take from at any position, and one shared list of ancestor links.

  A worker that follows links handles one directory entry per step, reading and extending
  the shared ancestor list as it goes; it publishes its batch before it pushes the first
  child, and pushes children one at a time, so thieves can run between any two of these.
 */
module Pool {
  import opened Chains
  import opened Paths
  import opened Walk

  // walkItem: ancestor is a pointer into the shared list.
  datatype Task = Task(path: Path, depth: uint32, ancestor: Option<nat>)

  datatype Worker =
    | Idle
    | Scanning(task: Task, todo: seq<Entry>, kept: seq<Entry>, errs: seq<DirErr>, spawn: seq<Task>)
    | Ready(batch: Batch, spawn: seq<Task>)      // batch complete, not yet published
    | Spawning(spawn: seq<Task>)                 // published, children not all pushed
    | Crashed                                    // nil pointer dereference

  // What a step did, for the record.
  datatype Event =
    | Took(path: Path)
    | Looked(path: Path, name: Name)
    | Published(batch: Batch)
    | Spawned(path: Path)
    | Rested

  datatype State = State(pending: seq<Task>, workers: seq<Worker>, heap: seq<Knot>, events: seq<Event>)

  datatype Action = Take(w: nat, j: nat) | Go(w: nat)

  // ------------------------------------------------------------------ well-formedness

  ghost predicate Named(h: seq<Knot>, ts: seq<Task>) {
    forall i :: 0 <= i < |ts| ==> Names(h, ts[i].ancestor)
  }

  ghost predicate WorkerNamed(h: seq<Knot>, w: Worker) {
    match w
    case Idle => true
    case Scanning(task, _, _, _, spawn) => Names(h, task.ancestor) && Named(h, spawn)
    case Ready(_, spawn) => Named(h, spawn)
    case Spawning(spawn) => Named(h, spawn)
    case Crashed => true
  }

  ghost predicate Wf(s: State) {
    && ParentsFirst(s.heap) && Named(s.heap, s.pending)
    && forall w :: 0 <= w < |s.workers| ==> WorkerNamed(s.heap, s.workers[w])
  }

  // The value-level item behind a task: its pointer replaced by the chain it reads.
  ghost function ItemOf(h: seq<Knot>, t: Task): Item
    requires ParentsFirst(h) && Names(h, t.ancestor)
  {
    Item(t.path, t.depth, Chain(h, t.ancestor))
  }

  ghost function ItemsOf(h: seq<Knot>, ts: seq<Task>): (its: seq<Item>)
    requires ParentsFirst(h) && Named(h, ts)
    ensures |its| == |ts|
  {
    seq(|ts|, i requires 0 <= i < |ts| => ItemOf(h, ts[i]))
  }

  // --------------------------------------------------------------------------- steps

  // One loop iteration of visitSym: what it appends, and the links it pushes.
  datatype Scan = Scan(kept: seq<Entry>, errs: seq<DirErr>, spawn: seq<Task>, links: seq<Knot>, crash: bool)

  ghost function ScanEntry(env: Env, h: seq<Knot>, t: Task, e: Entry): Scan
    requires ParentsFirst(h) && Names(h, t.ancestor)
  {
    var child := Join(t.path, e.name);
    var down := Task(child, Inc32(t.depth), Some(|h|));
    if e.typ == DT_LNK then
      match env.k.stat(child)
      case StatFailed => Scan([], [DirErr(e.name, Dangling)], [], [], false)
      case NoSys(_) => Scan([e], [DirErr(e.name, NoDevIno)], [], [], false)
      case Info(mode, id) =>
        if mode != ModeDir then Scan([e.(typ := DTypeFromInfo(mode))], [], [], [], false)
        else if id in Chain(h, t.ancestor) then Scan([], [DirErr(e.name, Cycle)], [], [], false)
        else if AtMaxDepth(env.conf, t.depth) then Scan([e.(typ := DT_DIR)], [], [], [], false)
        else Scan([e.(typ := DT_DIR)], [], [down], [Knot(id, t.ancestor)], false)
    else if e.typ == DT_DIR && !AtMaxDepth(env.conf, t.depth) then
      match t.ancestor
      case None => Scan([], [], [], [], true)
      case Some(a) => Scan([e], [], [down], [Knot(Id(e.ino, h[a].id.dev), t.ancestor)], false)
    else
      Scan([e], [], [], [], false)
  }

  function PlainTasks(t: Task, es: seq<Entry>): seq<Task> {
    if es == [] then [] else
    (if es[0].typ == DT_DIR then [Task(Join(t.path, es[0].name), Inc32(t.depth), None)] else [])
    + PlainTasks(t, es[1..])
  }

  // Reading the directory: what the worker does next.
  function Begin(env: Env, t: Task): Worker {
    match env.k.readdir(t.path)
    case ReadFailed(e) => Ready(Unreadable(t.path, e).batch, [])
    case Listing(_) =>
      var es := Seen(env, t.path);
      if env.conf.followLinks then Scanning(t, es, [], [], [])
      else Ready(Batch(t.path, es, []), if AtMaxDepth(env.conf, t.depth) then [] else PlainTasks(t, es))
  }

  predicate Enabled(s: State, a: Action) {
    && a.w < |s.workers|
    && (a.Take? ==> s.workers[a.w].Idle? && a.j < |s.pending|)
    && (a.Go? ==> !s.workers[a.w].Idle? && !s.workers[a.w].Crashed?)
  }

  // Taking the j-th element out of a list.
  function Without<T>(ts: seq<T>, j: nat): seq<T>
    requires j < |ts|
  {
    ts[..j] + ts[j + 1..]
  }

  ghost function Step(env: Env, s: State, a: Action): State
    requires Wf(s) && Enabled(s, a)
  {
    assert WorkerNamed(s.heap, s.workers[a.w]);
    match a
    case Take(w, j) =>
      s.(pending := Without(s.pending, j),
         workers := s.workers[w := Begin(env, s.pending[j])],
         events := s.events + [Took(s.pending[j].path)])
    case Go(w) =>
      match s.workers[w]
      case Scanning(t, todo, kept, errs, spawn) =>
        if todo == [] then
          Publish(s, w, Batch(t.path, kept, errs), spawn)
        else
          var d := ScanEntry(env, s.heap, t, todo[0]);
          s.(heap := s.heap + d.links,
             workers := s.workers[w := if d.crash then Crashed else
               Scanning(t, todo[1..], kept + d.kept, errs + d.errs, spawn + d.spawn)],
             events := s.events + [Looked(t.path, todo[0].name)])
      case Ready(batch, spawn) => Publish(s, w, batch, spawn)
      case Spawning(spawn) =>
        if spawn == [] then
          s.(workers := s.workers[w := Idle], events := s.events + [Rested])
        else
          s.(pending := s.pending + [spawn[0]], workers := s.workers[w := Spawning(spawn[1..])],
             events := s.events + [Spawned(spawn[0].path)])
      case _ => s
  }

  function Publish(s: State, w: nat, batch: Batch, spawn: seq<Task>): State
    requires w < |s.workers|
  {
    s.(workers := s.workers[w := Spawning(spawn)], events := s.events + [Published(batch)])
  }

  // Walk: seed the chain with the root's identity, submit the root, start the pool.
  function Init(env: Env, root: Path, workers: nat): State {
    var idle := seq(workers, i => Idle);
    if env.conf.followLinks && env.k.stat(root).Info?
    then State([Task(root, 1, Some(0))], idle, [Knot(env.k.stat(root).id, None)], [])
    else State([Task(root, 1, None)], idle, [], [])
  }

  predicate Complete(s: State) {
    s.pending == [] && forall w :: 0 <= w < |s.workers| ==> s.workers[w].Idle?
  }

  // The items a worker has in hand: the one it is handling, and the children it has not
  // pushed yet.
  function Held(w: Worker): seq<Task> {
    match w
    case Scanning(t, _, _, _, spawn) => [t] + spawn
    case Ready(_, spawn) => spawn
    case Spawning(spawn) => spawn
    case _ => []
  }

  ghost predicate Holds(s: State, w: nat, t: Task) {
    w < |s.workers| && t in Held(s.workers[w])
  }

  // Somewhere in the walk: pending, being handled, or about to be pushed.
  ghost predicate InPlay(s: State, t: Task) {
    t in s.pending || exists w :: Holds(s, w, t)
  }

  // ------------------------------------------------- the events a walk consists of

  function Looks(dir: Path, es: seq<Entry>): seq<Event> {
    seq(|es|, i requires 0 <= i < |es| => Looked(dir, es[i].name))
  }

  function Pushes(its: seq<Item>): seq<Event> {
    seq(|its|, i requires 0 <= i < |its| => Spawned(its[i].path))
  }

  ghost function ScanEvents(env: Env, it: Item): seq<Event> {
    if env.conf.followLinks && env.k.readdir(it.path).Listing? then Looks(it.path, Seen(env, it.path)) else []
  }

  // Handling one item: take it, look at its entries, publish, push the children, rest.
  ghost function OwnEvents(env: Env, it: Item): seq<Event>
    requires !Panics(env, it)
  {
    [Took(it.path)] + ScanEvents(env, it) + ([Published(Run(env, it).batch)] + PushEvents(Run(env, it).spawn))
  }

  function PushEvents(spawn: seq<Item>): seq<Event> {
    Pushes(spawn) + [Rested]
  }

  // Everything that handling it, and all that it spawns, amounts to.
  ghost function EventsOf(env: Env, it: Item, n: nat): seq<Event>
    decreases n, 0
  {
    if n == 0 || Panics(env, it) then [] else
    OwnEvents(env, it) + AllEvents(env, Run(env, it).spawn, n - 1)
  }

  ghost function AllEvents(env: Env, its: seq<Item>, n: nat): seq<Event>
    decreases n, |its| + 1
  {
    if its == [] then [] else EventsOf(env, its[0], n) + AllEvents(env, its[1..], n)
  }

  function Batches(evs: seq<Event>): seq<Batch> {
    if evs == [] then [] else
    (if evs[0].Published? then [evs[0].batch] else []) + Batches(evs[1..])
  }

  // ---------------------------------------------------------- lists of events, items

  lemma {:induction false} EventsStable(env: Env, it: Item, n: nat, m: nat)
    requires Bounded(env, it, n) && n <= m
    ensures EventsOf(env, it, m) == EventsOf(env, it, n)
    decreases n, 0
  {
    hide Run, Panics, OwnEvents, AllEvents;
    AllEventsStable(env, Run(env, it).spawn, n - 1, m - 1);
  }

  lemma {:induction false} AllEventsStable(env: Env, its: seq<Item>, n: nat, m: nat)
    requires (forall c :: c in its ==> Bounded(env, c, n)) && n <= m
    ensures AllEvents(env, its, m) == AllEvents(env, its, n)
    decreases n, |its| + 1
  {
    if its == [] {
    } else {
      EventsStable(env, its[0], n, m);
      AllEventsStable(env, its[1..], n, m);
    }
  }

  lemma Associate(a: seq<Event>, b: seq<Event>, c: seq<Event>)
    ensures a + (b + c) == (a + b) + c
  {
  }

  lemma {:induction false} AllEventsConcat(env: Env, a: seq<Item>, b: seq<Item>, n: nat)
    ensures AllEvents(env, a + b, n) == AllEvents(env, a, n) + AllEvents(env, b, n)
    decreases |a|
  {
    if a == [] {
      assert a + b == b;
    } else {
      assert (a + b)[1..] == a[1..] + b && (a + b)[0] == a[0];
      AllEventsConcat(env, a[1..], b, n);
      Associate(EventsOf(env, a[0], n), AllEvents(env, a[1..], n), AllEvents(env, b, n));
    }
  }

  // The bag view: taking out the j-th item takes out exactly its events.
  lemma {:induction false} AllEventsRemove(env: Env, its: seq<Item>, j: nat, n: nat)
    requires j < |its|
    ensures multiset(AllEvents(env, its, n)) ==
            multiset(AllEvents(env, Without(its, j), n)) + multiset(EventsOf(env, its[j], n))
  {
    assert its == its[..j] + its[j..] && its[j..][1..] == its[j + 1..];
    AllEventsConcat(env, its[..j], its[j..], n);
    AllEventsConcat(env, its[..j], its[j + 1..], n);
  }

  lemma {:induction false} BatchesConcat(a: seq<Event>, b: seq<Event>)
    ensures Batches(a + b) == Batches(a) + Batches(b)
    decreases |a|
  {
    if a == [] {
      assert a + b == b;
    } else {
      assert (a + b)[1..] == a[1..] + b && (a + b)[0] == a[0];
      BatchesConcat(a[1..], b);
      var f := if a[0].Published? then [a[0].batch] else [];
      assert f + (Batches(a[1..]) + Batches(b)) == (f + Batches(a[1..])) + Batches(b);
    }
  }

  lemma {:induction false} NoBatches(evs: seq<Event>)
    requires forall i :: 0 <= i < |evs| ==> !evs[i].Published?
    ensures Batches(evs) == []
    decreases |evs|
  {
    if evs == [] {
    } else {
      NoBatches(evs[1..]);
    }
  }

  lemma OwnBatch(env: Env, it: Item)
    requires !Panics(env, it)
    ensures Batches(OwnEvents(env, it)) == [Run(env, it).batch]
  {
    var before, after := [Took(it.path)] + ScanEvents(env, it), PushEvents(Run(env, it).spawn);
    NoBatches(before);
    NoBatches(after);
    BatchesConcat([Published(Run(env, it).batch)], after);
    BatchesConcat(before, [Published(Run(env, it).batch)] + after);
  }

  // The published batches among the events are those of the recursive specification.
  lemma {:induction false} BatchesOfEvents(env: Env, it: Item, n: nat)
    ensures Batches(EventsOf(env, it, n)) == Spec(env, it, n)
    decreases n, 0
  {
    if n > 0 && !Panics(env, it) {
      var o := Run(env, it);
      OwnBatch(env, it);
      BatchesConcat(OwnEvents(env, it), AllEvents(env, o.spawn, n - 1));
      BatchesOfAllEvents(env, o.spawn, n - 1);
    }
  }

  lemma {:induction false} BatchesOfAllEvents(env: Env, its: seq<Item>, n: nat)
    ensures Batches(AllEvents(env, its, n)) == SpecAll(env, its, n)
    decreases n, |its| + 1
  {
    if its == [] {
    } else {
      BatchesOfEvents(env, its[0], n);
      BatchesOfAllEvents(env, its[1..], n);
      BatchesConcat(EventsOf(env, its[0], n), AllEvents(env, its[1..], n));
    }
  }

  lemma {:induction false} CountBatch(evs: seq<Event>, b: Batch)
    ensures multiset(Batches(evs))[b] == multiset(evs)[Published(b)]
    decreases |evs|
  {
    if evs == [] {
    } else {
      assert evs == [evs[0]] + evs[1..];
      CountBatch(evs[1..], b);
    }
  }

  lemma {:induction false} SameBatches(evs: seq<Event>, evs': seq<Event>)
    requires multiset(evs) == multiset(evs')
    ensures multiset(Batches(evs)) == multiset(Batches(evs'))
  {
    forall b ensures multiset(Batches(evs))[b] == multiset(Batches(evs'))[b] {
      CountBatch(evs, b);
      CountBatch(evs', b);
    }
  }
}
