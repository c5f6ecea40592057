/**
  What every run of the pool computes, whatever the schedule.

  A debt is attached to every pending item and to every busy worker: the events that are
  still to come from it.  Each step pays exactly the one event it performs, so events
  done + debt is constant.  Everything about completed walks follows from that.
 */
module PoolRuns {
  import opened Chains
  import opened Paths
  import opened Walk
  import opened Pool

  // What is being walked: a property kept by spawning, under which every walk is finite.
  datatype Goal = Goal(env: Env, ok: Item -> bool, n: nat)

  ghost predicate Closed(g: Goal) {
    forall it: Item :: g.ok(it) ==>
      Bounded(g.env, it, g.n) && forall c :: c in Run(g.env, it).spawn ==> g.ok(c)
  }

  ghost predicate AllOk(g: Goal, its: seq<Item>) {
    forall i :: 0 <= i < |its| ==> g.ok(its[i])
  }

  ghost predicate WorkerOk(g: Goal, h: seq<Knot>, w: Worker)
    requires ParentsFirst(h) && WorkerNamed(h, w)
  {
    match w
    case Idle => true
    case Scanning(t, todo, kept, errs, spawn) =>
      && g.env.conf.followLinks && g.ok(ItemOf(h, t)) && !Panics(g.env, ItemOf(h, t))
      && g.env.k.readdir(t.path).Listing?
      && HalfWay(g.env, ItemOf(h, t), todo, Verdict(kept, errs, ItemsOf(h, spawn)))
    case Ready(_, spawn) => AllOk(g, ItemsOf(h, spawn))
    case Spawning(spawn) => AllOk(g, ItemsOf(h, spawn))
    case Crashed => false
  }

  // v is the verdict on the entries already looked at, todo the rest.
  ghost predicate HalfWay(env: Env, it: Item, todo: seq<Entry>, v: Verdict)
    requires env.k.readdir(it.path).Listing?
  {
    var es := Seen(env, it.path);
    && |todo| <= |es| && todo == es[|es| - |todo|..]
    && HasDev(env, it, es) && HasDev(env, it, es[..|es| - |todo|])
    && ResolveAll(env, it, es[..|es| - |todo|]) == v
  }

  // The events still to come from a worker.
  ghost function Debt(g: Goal, h: seq<Knot>, w: Worker): multiset<Event>
    requires ParentsFirst(h) && WorkerNamed(h, w)
  {
    match w
    case Idle => multiset{}
    case Scanning(t, todo, _, _, _) =>
      if Panics(g.env, ItemOf(h, t)) then multiset{} else
      multiset(Looks(t.path, todo)) + DebtToPublish(g, Run(g.env, ItemOf(h, t)))
    case Ready(batch, spawn) => DebtToPublish(g, Outcome(batch, ItemsOf(h, spawn)))
    case Spawning(spawn) => DebtToSpawn(g, ItemsOf(h, spawn))
    case Crashed => multiset{}
  }

  ghost function DebtToSpawn(g: Goal, its: seq<Item>): multiset<Event> {
    multiset(PushEvents(its)) + multiset(AllEvents(g.env, its, g.n))
  }

  ghost function DebtToPublish(g: Goal, o: Outcome): multiset<Event> {
    multiset{Published(o.batch)} + DebtToSpawn(g, o.spawn)
  }

  ghost predicate AllNamed(h: seq<Knot>, ws: seq<Worker>) {
    forall w :: 0 <= w < |ws| ==> WorkerNamed(h, ws[w])
  }

  ghost function DebtOfAll(g: Goal, h: seq<Knot>, ws: seq<Worker>): multiset<Event>
    requires ParentsFirst(h) && AllNamed(h, ws)
  {
    if ws == [] then multiset{} else Debt(g, h, ws[0]) + DebtOfAll(g, h, ws[1..])
  }

  ghost function DebtPending(g: Goal, h: seq<Knot>, ts: seq<Task>): multiset<Event>
    requires ParentsFirst(h) && Named(h, ts)
  {
    multiset(AllEvents(g.env, ItemsOf(h, ts), g.n))
  }

  ghost predicate Inv(g: Goal, total: multiset<Event>, s: State) {
    && Wf(s)
    && AllOk(g, ItemsOf(s.heap, s.pending))
    && (forall w :: 0 <= w < |s.workers| ==> WorkerOk(g, s.heap, s.workers[w]))
    && multiset(s.events) + DebtOfAll(g, s.heap, s.workers) + DebtPending(g, s.heap, s.pending) == total
  }

  // ------------------------------------- other workers do not notice the list growing

  lemma ItemsFrozen(h: seq<Knot>, h': seq<Knot>, ts: seq<Task>)
    requires ParentsFirst(h) && ParentsFirst(h') && h <= h' && Named(h, ts)
    ensures Named(h', ts) && ItemsOf(h', ts) == ItemsOf(h, ts)
  {
    forall i | 0 <= i < |ts| ensures Names(h', ts[i].ancestor) && ItemOf(h', ts[i]) == ItemOf(h, ts[i]) {
      ChainIsFrozen(h, h', ts[i].ancestor);
    }
  }

  lemma WorkerFrozen(g: Goal, h: seq<Knot>, h': seq<Knot>, w: Worker)
    requires ParentsFirst(h) && ParentsFirst(h') && h <= h' && WorkerNamed(h, w)
    ensures WorkerNamed(h', w) && Debt(g, h', w) == Debt(g, h, w)
    ensures WorkerOk(g, h, w) ==> WorkerOk(g, h', w)
  {
    match w
    case Idle =>
    case Scanning(t, _, _, _, spawn) =>
      ItemsFrozen(h, h', spawn);
      ChainIsFrozen(h, h', t.ancestor);
    case Ready(_, spawn) => ItemsFrozen(h, h', spawn);
    case Spawning(spawn) => ItemsFrozen(h, h', spawn);
    case Crashed =>
  }

  lemma {:induction false} DebtFrozen(g: Goal, h: seq<Knot>, h': seq<Knot>, ws: seq<Worker>)
    requires ParentsFirst(h) && ParentsFirst(h') && h <= h'
    requires AllNamed(h, ws)
    ensures AllNamed(h', ws)
    ensures DebtOfAll(g, h', ws) == DebtOfAll(g, h, ws)
    decreases |ws|
  {
    if ws == [] {
    } else {
      WorkerFrozen(g, h, h', ws[0]);
      DebtFrozen(g, h, h', ws[1..]);
      forall w | 0 <= w < |ws| ensures WorkerNamed(h', ws[w]) {
        assert w > 0 ==> WorkerNamed(h', ws[1..][w - 1]);
      }
    }
  }

  lemma AddAssociates(a: multiset<Event>, b: multiset<Event>, c: multiset<Event>)
    ensures a + (b + c) == (a + b) + c
  {
  }

  lemma {:induction false} DebtConcat(g: Goal, h: seq<Knot>, a: seq<Worker>, b: seq<Worker>)
    requires ParentsFirst(h) && AllNamed(h, a) && AllNamed(h, b)
    ensures AllNamed(h, a + b)
    ensures DebtOfAll(g, h, a + b) == DebtOfAll(g, h, a) + DebtOfAll(g, h, b)
    decreases |a|
  {
    if a == [] {
      assert a + b == b;
    } else {
      assert (a + b)[1..] == a[1..] + b && (a + b)[0] == a[0];
      DebtConcat(g, h, a[1..], b);
      AddAssociates(Debt(g, h, a[0]), DebtOfAll(g, h, a[1..]), DebtOfAll(g, h, b));
    }
  }

  lemma {:induction false} DebtSplit(g: Goal, h: seq<Knot>, a: seq<Worker>, x: Worker, b: seq<Worker>)
    requires ParentsFirst(h) && AllNamed(h, a) && WorkerNamed(h, x) && AllNamed(h, b)
    ensures AllNamed(h, a + ([x] + b))
    ensures DebtOfAll(g, h, a + ([x] + b)) == DebtOfAll(g, h, a) + (Debt(g, h, x) + DebtOfAll(g, h, b))
  {
    assert ([x] + b)[1..] == b;
    DebtConcat(g, h, a, [x] + b);
  }

  lemma Exchange(a: multiset<Event>, b: multiset<Event>, x: multiset<Event>, y: multiset<Event>)
    ensures (a + (x + b)) + y == (a + (y + b)) + x
  {
  }

  lemma DebtUpdate(g: Goal, h: seq<Knot>, ws: seq<Worker>, w: nat, x: Worker)
    requires ParentsFirst(h) && w < |ws| && WorkerNamed(h, x) && AllNamed(h, ws)
    ensures AllNamed(h, ws[w := x])
    ensures DebtOfAll(g, h, ws[w := x]) + Debt(g, h, ws[w]) == DebtOfAll(g, h, ws) + Debt(g, h, x)
  {
    var a, b := ws[..w], ws[w + 1..];
    assert ws == a + ([ws[w]] + b) && ws[w := x] == a + ([x] + b);
    DebtSplit(g, h, a, ws[w], b);
    DebtSplit(g, h, a, x, b);
    Exchange(DebtOfAll(g, h, a), DebtOfAll(g, h, b), Debt(g, h, x), Debt(g, h, ws[w]));
  }

  // ------------------------------------------------ one worker moved, one event done

  ghost predicate Moves(s: State, s': State, w: nat, ev: Event) {
    && w < |s.workers| && |s'.workers| == |s.workers|
    && s'.workers == s.workers[w := s'.workers[w]]
    && s.heap <= s'.heap && ParentsFirst(s'.heap)
    && s'.events == s.events + [ev]
  }

  lemma Assemble(g: Goal, total: multiset<Event>, s: State, s': State, w: nat, ev: Event)
    requires Inv(g, total, s) && Moves(s, s', w, ev)
    requires WorkerNamed(s'.heap, s'.workers[w]) && WorkerOk(g, s'.heap, s'.workers[w])
    requires Named(s'.heap, s'.pending) && AllOk(g, ItemsOf(s'.heap, s'.pending))
    requires multiset{ev} + Debt(g, s'.heap, s'.workers[w]) + DebtPending(g, s'.heap, s'.pending)
          == Debt(g, s.heap, s.workers[w]) + DebtPending(g, s.heap, s.pending)
    ensures Inv(g, total, s')
  {
    var h, h', x := s.heap, s'.heap, s'.workers[w];
    DebtFrozen(g, h, h', s.workers);
    DebtUpdate(g, h', s.workers, w, x);
    WorkerFrozen(g, h, h', s.workers[w]);
    forall u | 0 <= u < |s'.workers| ensures WorkerNamed(h', s'.workers[u]) && WorkerOk(g, h', s'.workers[u]) {
      if u != w {
        assert WorkerOk(g, h, s.workers[u]);
        WorkerFrozen(g, h, h', s.workers[u]);
      }
    }
    Balance(multiset(s.events), multiset{ev}, DebtOfAll(g, h, s.workers), DebtOfAll(g, h', s'.workers),
            Debt(g, h, s.workers[w]), Debt(g, h', x),
            DebtPending(g, h, s.pending), DebtPending(g, h', s'.pending));
    assert multiset(s'.events) == multiset(s.events) + multiset{ev};
  }

  lemma Balance(done: multiset<Event>, ev: multiset<Event>, all: multiset<Event>, all': multiset<Event>,
                d: multiset<Event>, d': multiset<Event>, p: multiset<Event>, p': multiset<Event>)
    requires all' + d == all + d'
    requires ev + d' + p' == d + p
    ensures (done + ev) + all' + p' == done + all + p
  {
    forall e: Event ensures ((done + ev) + all' + p')[e] == (done + all + p)[e] {
      assert (all' + d)[e] == (all + d')[e];
      assert (ev + d' + p')[e] == (d + p)[e];
    }
  }

  // ------------------------------------------------------------------- Take

  lemma ItemsCons(h: seq<Knot>, t: Task, ts: seq<Task>)
    requires ParentsFirst(h) && Names(h, t.ancestor) && Named(h, ts)
    ensures Named(h, [t] + ts) && ItemsOf(h, [t] + ts) == [ItemOf(h, t)] + ItemsOf(h, ts)
  {
  }

  lemma {:induction false} PlainTasksAre(h: seq<Knot>, t: Task, es: seq<Entry>)
    requires ParentsFirst(h) && Names(h, t.ancestor)
    ensures Named(h, PlainTasks(t, es)) && ItemsOf(h, PlainTasks(t, es)) == PlainSpawn(ItemOf(h, t), es)
    decreases |es|
  {
    hide Join;
    if es == [] {
    } else {
      PlainTasksAre(h, t, es[1..]);
      var ts, rest := PlainTasks(t, es), PlainTasks(t, es[1..]);
      if es[0].typ == DT_DIR {
        var child := Task(Join(t.path, es[0].name), Inc32(t.depth), None);
        assert ts == [child] + rest;
        ItemsCons(h, child, rest);
      } else {
        assert ts == rest && PlainSpawn(ItemOf(h, t), es) == PlainSpawn(ItemOf(h, t), es[1..]);
      }
    }
  }

  // Once an item's children are known, its events are its own and theirs.
  lemma {:induction false} EventsUnfold(g: Goal, it: Item)
    requires Closed(g) && g.ok(it)
    ensures !Panics(g.env, it) && AllOk(g, Run(g.env, it).spawn)
    ensures multiset(EventsOf(g.env, it, g.n)) ==
      multiset{Took(it.path)} + multiset(ScanEvents(g.env, it)) + DebtToPublish(g, Run(g.env, it))
  {
    var o := Run(g.env, it);
    AllEventsStable(g.env, o.spawn, g.n - 1, g.n);
    assert multiset(OwnEvents(g.env, it)) == multiset{Took(it.path)} + multiset(ScanEvents(g.env, it))
      + (multiset{Published(o.batch)} + multiset(PushEvents(o.spawn)));
  }

  // Taking an item turns its events into what the worker still owes.
  ghost predicate TakenOver(g: Goal, h: seq<Knot>, t: Task)
    requires ParentsFirst(h) && Names(h, t.ancestor)
  {
    && WorkerNamed(h, Begin(g.env, t)) && WorkerOk(g, h, Begin(g.env, t))
    && multiset{Took(t.path)} + Debt(g, h, Begin(g.env, t)) == multiset(EventsOf(g.env, ItemOf(h, t), g.n))
  }

  lemma BeginUnreadable(g: Goal, h: seq<Knot>, t: Task)
    requires Closed(g) && ParentsFirst(h) && Names(h, t.ancestor) && g.ok(ItemOf(h, t))
    requires g.env.k.readdir(t.path).ReadFailed?
    ensures TakenOver(g, h, t)
  {
    EventsUnfold(g, ItemOf(h, t));
    assert ItemsOf(h, []) == [];
  }

  lemma BeginFollowing(g: Goal, h: seq<Knot>, t: Task)
    requires Closed(g) && ParentsFirst(h) && Names(h, t.ancestor) && g.ok(ItemOf(h, t))
    requires g.env.k.readdir(t.path).Listing? && g.env.conf.followLinks
    ensures TakenOver(g, h, t)
  {
    hide Filter, Bounded, Run, Resolve;
    var es := Seen(g.env, t.path);
    EventsUnfold(g, ItemOf(h, t));
    assert es[..0] == [] && ItemsOf(h, []) == [];
    assert HalfWay(g.env, ItemOf(h, t), es, NOTHING);
  }

  lemma BeginPlain(g: Goal, h: seq<Knot>, t: Task)
    requires Closed(g) && ParentsFirst(h) && Names(h, t.ancestor) && g.ok(ItemOf(h, t))
    requires g.env.k.readdir(t.path).Listing? && !g.env.conf.followLinks
    ensures TakenOver(g, h, t)
  {
    hide Filter, PlainTasks, PlainSpawn, Bounded, Chain;
    EventsUnfold(g, ItemOf(h, t));
    PlainTasksAre(h, t, Seen(g.env, t.path));
    assert ItemsOf(h, []) == [];
  }

  lemma BeginOk(g: Goal, h: seq<Knot>, t: Task)
    requires Closed(g) && ParentsFirst(h) && Names(h, t.ancestor) && g.ok(ItemOf(h, t))
    ensures TakenOver(g, h, t)
  {
    match g.env.k.readdir(t.path)
    case ReadFailed(_) => BeginUnreadable(g, h, t);
    case Listing(_) => if g.env.conf.followLinks { BeginFollowing(g, h, t); } else { BeginPlain(g, h, t); }
  }

  lemma Commute(a: multiset<Event>, b: multiset<Event>)
    ensures a + b == b + a
  {
  }

  lemma ItemsWithout(h: seq<Knot>, ts: seq<Task>, j: nat)
    requires ParentsFirst(h) && Named(h, ts) && j < |ts|
    ensures Named(h, Without(ts, j)) && ItemsOf(h, Without(ts, j)) == Without(ItemsOf(h, ts), j)
  {
  }

  lemma OkWithout(g: Goal, its: seq<Item>, j: nat)
    requires AllOk(g, its) && j < |its|
    ensures AllOk(g, Without(its, j))
  {
  }

  lemma TakePays(g: Goal, h: seq<Knot>, ts: seq<Task>, j: nat)
    requires Closed(g) && ParentsFirst(h) && Named(h, ts) && AllOk(g, ItemsOf(h, ts)) && j < |ts|
    ensures var rest, w := Without(ts, j), Begin(g.env, ts[j]);
      && Named(h, rest) && AllOk(g, ItemsOf(h, rest)) && WorkerNamed(h, w) && WorkerOk(g, h, w)
      && multiset{Took(ts[j].path)} + Debt(g, h, w) + DebtPending(g, h, rest) == DebtPending(g, h, ts)
  {
    var its := ItemsOf(h, ts);
    assert its[j] == ItemOf(h, ts[j]);
    BeginOk(g, h, ts[j]);
    ItemsWithout(h, ts, j);
    OkWithout(g, its, j);
    AllEventsRemove(g.env, its, j, g.n);
    Commute(multiset(EventsOf(g.env, its[j], g.n)), multiset(AllEvents(g.env, Without(its, j), g.n)));
  }

  lemma TakeKeepsInv(g: Goal, total: multiset<Event>, s: State, w: nat, j: nat)
    requires Closed(g) && Inv(g, total, s) && Enabled(s, Take(w, j))
    ensures Inv(g, total, Step(g.env, s, Take(w, j)))
  {
    TakePays(g, s.heap, s.pending, j);
    Assemble(g, total, s, Step(g.env, s, Take(w, j)), w, Took(s.pending[j].path));
  }

  // ------------------------------------------------------------------- one entry

  /** The loop body on pointers does what the specification says on chains: same kept
      entry, same error, and a child whose pointer reads the right chain. */
  lemma {:induction false} ScanRefines(env: Env, h: seq<Knot>, t: Task, e: Entry)
    requires ParentsFirst(h) && Names(h, t.ancestor) && env.conf.followLinks
    requires NeedsDev(env, ItemOf(h, t), e) ==> Chain(h, t.ancestor) != []
    ensures var d := ScanEntry(env, h, t, e);
      && !d.crash && ParentsFirst(h + d.links) && Named(h + d.links, d.spawn)
      && Verdict(d.kept, d.errs, ItemsOf(h + d.links, d.spawn)) == Resolve(env, ItemOf(h, t), e)
  {
    var d := ScanEntry(env, h, t, e);
    assert t.ancestor.None? ==> Chain(h, t.ancestor) == [];
    assert t.ancestor.Some? ==> Chain(h, t.ancestor)[0] == h[t.ancestor.value].id;
    if d.links != [] {
      ChainIsFrozen(h, h + d.links, t.ancestor);
      assert Chain(h + d.links, Some(|h|)) == [d.links[0].id] + Chain(h + d.links, t.ancestor);
    }
    assert ItemsOf(h + d.links, d.spawn) == Resolve(env, ItemOf(h, t), e).spawn;
  }

  lemma HalfWayStep(env: Env, it: Item, todo: seq<Entry>, v: Verdict)
    requires env.k.readdir(it.path).Listing? && HalfWay(env, it, todo, v) && todo != []
    ensures (NeedsDev(env, it, todo[0]) ==> it.chain != [])
    ensures HalfWay(env, it, todo[1..], Plus(v, Resolve(env, it, todo[0])))
  {
    var es := Seen(env, it.path);
    var k := |es| - |todo|;
    assert es[k] == todo[0] && es[..k + 1] == es[..k] + [es[k]];
    ResolveAllConcat(env, it, es[..k], [es[k]]);
    assert ResolveAll(env, it, [es[k]]) == Resolve(env, it, es[k]) by {
      assert [es[k]][1..] == [];
      assert Plus(Resolve(env, it, es[k]), NOTHING) == Resolve(env, it, es[k]);
    }
  }

  lemma LooksPay(dir: Path, todo: seq<Entry>)
    requires todo != []
    ensures multiset(Looks(dir, todo)) == multiset{Looked(dir, todo[0].name)} + multiset(Looks(dir, todo[1..]))
  {
    assert Looks(dir, todo) == [Looked(dir, todo[0].name)] + Looks(dir, todo[1..]);
  }

  lemma ScanPays(g: Goal, h: seq<Knot>, w: Worker) returns (d: Scan, w': Worker)
    requires Closed(g) && ParentsFirst(h) && WorkerNamed(h, w) && WorkerOk(g, h, w)
    requires w.Scanning? && w.todo != []
    ensures d == ScanEntry(g.env, h, w.task, w.todo[0]) && !d.crash
    ensures w' == Scanning(w.task, w.todo[1..], w.kept + d.kept, w.errs + d.errs, w.spawn + d.spawn)
    ensures ParentsFirst(h + d.links) && WorkerNamed(h + d.links, w') && WorkerOk(g, h + d.links, w')
    ensures multiset{Looked(w.task.path, w.todo[0].name)} + Debt(g, h + d.links, w') == Debt(g, h, w)
  {
    hide Run, Resolve, ResolveAll, Filter, AtMaxDepth, ScanEntry, NeedsDev, HasDev, Bounded;
    var Scanning(t, todo, kept, errs, spawn) := w;
    HalfWayStep(g.env, ItemOf(h, t), todo, Verdict(kept, errs, ItemsOf(h, spawn)));
    ScanRefines(g.env, h, t, todo[0]);
    d := ScanEntry(g.env, h, t, todo[0]);
    var h' := h + d.links;
    w' := Scanning(t, todo[1..], kept + d.kept, errs + d.errs, spawn + d.spawn);
    ItemsFrozen(h, h', spawn);
    ChainIsFrozen(h, h', t.ancestor);
    assert ItemsOf(h', spawn + d.spawn) == ItemsOf(h', spawn) + ItemsOf(h', d.spawn);
    LooksPay(t.path, todo);
  }

  lemma ScanKeepsInv(g: Goal, total: multiset<Event>, s: State, w: nat)
    requires Closed(g) && Inv(g, total, s) && w < |s.workers|
    requires s.workers[w].Scanning? && s.workers[w].todo != []
    ensures Inv(g, total, Step(g.env, s, Go(w)))
  {
    var s' := Step(g.env, s, Go(w));
    assert WorkerNamed(s.heap, s.workers[w]) && WorkerOk(g, s.heap, s.workers[w]);
    var d, x := ScanPays(g, s.heap, s.workers[w]);
    ItemsFrozen(s.heap, s'.heap, s.pending);
    Assemble(g, total, s, s', w, Looked(x.task.path, s.workers[w].todo[0].name));
  }

  // ------------------------------------------------------------- publish, push, rest

  // After the last entry the worker holds exactly the specified outcome.
  lemma ScanDone(g: Goal, h: seq<Knot>, w: Worker)
    requires Closed(g) && ParentsFirst(h) && WorkerNamed(h, w) && WorkerOk(g, h, w)
    requires w.Scanning? && w.todo == []
    ensures var o := Outcome(Batch(w.task.path, w.kept, w.errs), ItemsOf(h, w.spawn));
      AllOk(g, o.spawn) && Debt(g, h, w) == DebtToPublish(g, o)
  {
    var it := ItemOf(h, w.task);
    EventsUnfold(g, it);
    assert Seen(g.env, it.path)[..|Seen(g.env, it.path)|] == Seen(g.env, it.path);
    assert Run(g.env, it) == Outcome(Batch(w.task.path, w.kept, w.errs), ItemsOf(h, w.spawn));
    assert Looks(w.task.path, []) == [];
  }

  lemma PublishKeepsInv(g: Goal, total: multiset<Event>, s: State, w: nat)
    requires Closed(g) && Inv(g, total, s) && w < |s.workers|
    requires s.workers[w].Ready? || (s.workers[w].Scanning? && s.workers[w].todo == [])
    ensures Inv(g, total, Step(g.env, s, Go(w)))
  {
    var x := s.workers[w];
    assert WorkerNamed(s.heap, x) && WorkerOk(g, s.heap, x);
    if x.Scanning? {
      ScanDone(g, s.heap, x);
    }
    var batch := if x.Ready? then x.batch else Batch(x.task.path, x.kept, x.errs);
    Assemble(g, total, s, Step(g.env, s, Go(w)), w, Published(batch));
  }

  lemma RestPays(g: Goal, its: seq<Item>)
    requires its == []
    ensures DebtToSpawn(g, its) == multiset{Rested}
  {
  }

  lemma {:induction false} SpawnPays(g: Goal, its: seq<Item>, pend: seq<Item>)
    requires its != []
    ensures multiset{Spawned(its[0].path)} + DebtToSpawn(g, its[1..]) + multiset(AllEvents(g.env, pend + [its[0]], g.n))
         == DebtToSpawn(g, its) + multiset(AllEvents(g.env, pend, g.n))
  {
    AllEventsConcat(g.env, pend, [its[0]], g.n);
    assert [its[0]][1..] == [];
    assert AllEvents(g.env, [its[0]], g.n) == EventsOf(g.env, its[0], g.n);
    assert PushEvents(its) == [Spawned(its[0].path)] + PushEvents(its[1..]);
    Regroup(multiset{Spawned(its[0].path)}, multiset(PushEvents(its[1..])), multiset(AllEvents(g.env, its[1..], g.n)),
            multiset(AllEvents(g.env, pend, g.n)), multiset(EventsOf(g.env, its[0], g.n)));
  }

  lemma Regroup(ev: multiset<Event>, p: multiset<Event>, a: multiset<Event>, q: multiset<Event>, e: multiset<Event>)
    ensures ev + (p + a) + (q + e) == ((ev + p) + (e + a)) + q
  {
  }

  lemma ItemsPush(h: seq<Knot>, ts: seq<Task>, t: Task)
    requires ParentsFirst(h) && Named(h, ts) && Names(h, t.ancestor)
    ensures Named(h, ts + [t]) && ItemsOf(h, ts + [t]) == ItemsOf(h, ts) + [ItemOf(h, t)]
  {
  }

  lemma ItemsTail(h: seq<Knot>, ts: seq<Task>)
    requires ParentsFirst(h) && Named(h, ts) && ts != []
    ensures Named(h, ts[1..]) && ItemsOf(h, ts[1..]) == ItemsOf(h, ts)[1..]
  {
  }

  lemma ItemsHead(h: seq<Knot>, ts: seq<Task>)
    requires ParentsFirst(h) && Named(h, ts) && ts != []
    ensures Names(h, ts[0].ancestor) && ItemsOf(h, ts)[0] == ItemOf(h, ts[0])
  {
  }

  lemma PushOk(g: Goal, its: seq<Item>, pend: seq<Item>)
    requires AllOk(g, its) && AllOk(g, pend) && its != []
    ensures AllOk(g, pend + [its[0]]) && AllOk(g, its[1..])
  {
  }

  lemma PushTask(g: Goal, h: seq<Knot>, ts: seq<Task>, spawn: seq<Task>)
    requires ParentsFirst(h) && Named(h, ts) && Named(h, spawn) && spawn != []
    requires AllOk(g, ItemsOf(h, ts)) && AllOk(g, ItemsOf(h, spawn))
    ensures Named(h, ts + [spawn[0]]) && AllOk(g, ItemsOf(h, ts + [spawn[0]]))
    ensures Named(h, spawn[1..]) && AllOk(g, ItemsOf(h, spawn[1..]))
    ensures multiset{Spawned(spawn[0].path)} + DebtToSpawn(g, ItemsOf(h, spawn[1..]))
              + DebtPending(g, h, ts + [spawn[0]])
            == DebtToSpawn(g, ItemsOf(h, spawn)) + DebtPending(g, h, ts)
  {
    hide DebtToSpawn, ItemsOf, AllOk;
    var its, pend := ItemsOf(h, spawn), ItemsOf(h, ts);
    ItemsHead(h, spawn);
    ItemsPush(h, ts, spawn[0]);
    ItemsTail(h, spawn);
    PushOk(g, its, pend);
    SpawnPays(g, its, pend);
  }

  lemma SpawnKeepsInv(g: Goal, total: multiset<Event>, s: State, w: nat)
    requires Closed(g) && Inv(g, total, s) && w < |s.workers| && s.workers[w].Spawning?
    ensures Inv(g, total, Step(g.env, s, Go(w)))
  {
    assert WorkerNamed(s.heap, s.workers[w]) && WorkerOk(g, s.heap, s.workers[w]);
    var spawn := s.workers[w].spawn;
    if spawn == [] {
      RestPays(g, ItemsOf(s.heap, spawn));
      Assemble(g, total, s, Step(g.env, s, Go(w)), w, Rested);
    } else {
      PushTask(g, s.heap, s.pending, spawn);
      Assemble(g, total, s, Step(g.env, s, Go(w)), w, Spawned(spawn[0].path));
    }
  }

  lemma StepKeepsInv(g: Goal, total: multiset<Event>, s: State, a: Action)
    requires Closed(g) && Inv(g, total, s) && Enabled(s, a)
    ensures Inv(g, total, Step(g.env, s, a))
  {
    if a.Take? {
      TakeKeepsInv(g, total, s, a.w, a.j);
    } else if s.workers[a.w].Scanning? && s.workers[a.w].todo != [] {
      ScanKeepsInv(g, total, s, a.w);
    } else if s.workers[a.w].Spawning? {
      SpawnKeepsInv(g, total, s, a.w);
    } else {
      PublishKeepsInv(g, total, s, a.w);
    }
  }

  // ------------------------------------------------------ every item in the walk is ok

  lemma {:induction false} ResolvedPrefix(env: Env, it: Item, es: seq<Entry>, k: nat)
    requires HasDev(env, it, es) && k <= |es|
    ensures HasDev(env, it, es[..k]) && ResolveAll(env, it, es[..k]).spawn <= ResolveAll(env, it, es).spawn
  {
    assert es == es[..k] + es[k..];
    ResolveAllConcat(env, it, es[..k], es[k..]);
  }

  // Children found so far are children of the whole directory.
  lemma ScannedIsSpawned(g: Goal, h: seq<Knot>, w: Worker)
    requires ParentsFirst(h) && WorkerNamed(h, w) && WorkerOk(g, h, w) && w.Scanning?
    ensures !Panics(g.env, ItemOf(h, w.task)) && ItemsOf(h, w.spawn) <= Run(g.env, ItemOf(h, w.task)).spawn
  {
    var it, es := ItemOf(h, w.task), Seen(g.env, w.task.path);
    ResolvedPrefix(g.env, it, es, |es| - |w.todo|);
  }

  lemma HeldIsOk(g: Goal, h: seq<Knot>, w: Worker)
    requires Closed(g) && ParentsFirst(h) && WorkerNamed(h, w) && WorkerOk(g, h, w)
    ensures Named(h, Held(w)) && AllOk(g, ItemsOf(h, Held(w)))
  {
    hide Run, HalfWay, Panics;
    if w.Scanning? {
      var it := ItemOf(h, w.task);
      ScannedIsSpawned(g, h, w);
      assert ItemsOf(h, Held(w)) == [it] + ItemsOf(h, w.spawn);
      forall i | 0 <= i < |w.spawn| ensures g.ok(ItemsOf(h, w.spawn)[i]) {
        assert ItemsOf(h, w.spawn)[i] == Run(g.env, it).spawn[i];
      }
    }
  }

  lemma InPlayIsOk(g: Goal, total: multiset<Event>, s: State, t: Task)
    requires Closed(g) && Inv(g, total, s) && InPlay(s, t)
    ensures Names(s.heap, t.ancestor) && g.ok(ItemOf(s.heap, t))
  {
    if t in s.pending {
      var i :| 0 <= i < |s.pending| && s.pending[i] == t;
      assert ItemsOf(s.heap, s.pending)[i] == ItemOf(s.heap, t);
    } else {
      var w: nat :| Holds(s, w, t);
      assert WorkerNamed(s.heap, s.workers[w]) && WorkerOk(g, s.heap, s.workers[w]);
      HeldIsOk(g, s.heap, s.workers[w]);
      var i :| 0 <= i < |Held(s.workers[w])| && Held(s.workers[w])[i] == t;
      assert ItemsOf(s.heap, Held(s.workers[w]))[i] == ItemOf(s.heap, t);
    }
  }
}
