/**
  The batches of a walk are their own table of contents: a directory is published after the
  one that lists it as a directory, and whatever is listed as one is published in turn.
 */
module TopDown {
  import opened Chains
  import opened Paths
  import opened Walk
  import opened Pool
  import opened Schedules
  import A = ArenaWalk
  import ArenaRuns

  // The batch lists p as a directory: an entry of type 4, p being its path.
  ghost predicate Announces(b: Batch, p: Path) {
    exists e :: e in b.entries && e.typ == 4 && Joined(p, b.dir, e.name)
  }

  // It is the root, or one of the batches lists it.
  ghost predicate Announced(root: Path, bs: seq<Batch>, p: Path) {
    p == root || exists j :: 0 <= j < |bs| && Announces(bs[j], p)
  }

  ghost predicate AllAnnounced(root: Path, bs: seq<Batch>, ts: seq<Task>) {
    forall t :: t in ts ==> Announced(root, bs, t.path)
  }

  ghost predicate AnnouncesAll(b: Batch, ts: seq<Task>) {
    forall t :: t in ts ==> Announces(b, t.path)
  }

  // Children are announced by the batch that is about to be published, or was.
  ghost predicate WorkerInOrder(root: Path, bs: seq<Batch>, w: Worker) {
    match w
    case Scanning(t, _, kept, errs, spawn) =>
      Announced(root, bs, t.path) && AnnouncesAll(Batch(t.path, kept, errs), spawn)
    case Ready(b, spawn) => Announced(root, bs, b.dir) && AnnouncesAll(b, spawn)
    case Spawning(spawn) => AllAnnounced(root, bs, spawn)
    case _ => true
  }

  // Each batch is announced by an earlier one.
  ghost predicate InOrder(root: Path, bs: seq<Batch>) {
    forall i :: 0 <= i < |bs| ==> Announced(root, bs[..i], bs[i].dir)
  }

  ghost predicate AllInOrder(root: Path, s: State) {
    var bs := Batches(s.events);
    && InOrder(root, bs) && AllAnnounced(root, bs, s.pending)
    && forall w :: 0 <= w < |s.workers| ==> WorkerInOrder(root, bs, s.workers[w])
  }

  lemma {:induction false} PlainAnnounces(t: Task, es: seq<Entry>, errs: seq<DirErr>)
    ensures AnnouncesAll(Batch(t.path, es, errs), PlainTasks(t, es))
    decreases |es|
  {
    if es == [] {
    } else {
      PlainAnnounces(t, es[1..], errs);
      KeepsAnnouncing(t.path, es[1..], es, errs, errs, PlainTasks(t, es[1..]));
      JoinIsOneWay(Join(t.path, es[0].name), t.path, es[0].name);
    }
  }

  lemma KeepsAnnouncing(dir: Path, es: seq<Entry>, es': seq<Entry>, errs: seq<DirErr>, errs': seq<DirErr>,
                        ts: seq<Task>)
    requires AnnouncesAll(Batch(dir, es, errs), ts) && forall e :: e in es ==> e in es'
    ensures AnnouncesAll(Batch(dir, es', errs'), ts)
  {
    forall t | t in ts ensures Announces(Batch(dir, es', errs'), t.path) {
      var e :| e in es && e.typ == 4 && Joined(t.path, dir, e.name);
    }
  }

  lemma BeginInOrder(env: Env, root: Path, bs: seq<Batch>, t: Task)
    requires Announced(root, bs, t.path)
    ensures WorkerInOrder(root, bs, Begin(env, t))
  {
    hide Announced;
    if env.k.readdir(t.path).Listing? {
      PlainAnnounces(t, Seen(env, t.path), []);
    }
  }

  lemma ScanAnnounces(env: Env, h: seq<Knot>, t: Task, e: Entry)
    requires ParentsFirst(h) && Names(h, t.ancestor)
    ensures var d := ScanEntry(env, h, t, e); AnnouncesAll(Batch(t.path, d.kept, []), d.spawn)
  {
    JoinIsOneWay(Join(t.path, e.name), t.path, e.name);
    var d := ScanEntry(env, h, t, e);
    assert d.spawn != [] ==> d.kept[0] in d.kept;
  }

  lemma LookInOrder(env: Env, root: Path, bs: seq<Batch>, h: seq<Knot>, x: Worker)
    requires x.Scanning? && x.todo != [] && ParentsFirst(h) && Names(h, x.task.ancestor)
    requires WorkerInOrder(root, bs, x)
    ensures var d := ScanEntry(env, h, x.task, x.todo[0]);
      AnnouncesAll(Batch(x.task.path, x.kept + d.kept, x.errs + d.errs), x.spawn + d.spawn)
  {
    hide ScanEntry, Announced;
    var d, p := ScanEntry(env, h, x.task, x.todo[0]), x.task.path;
    ScanAnnounces(env, h, x.task, x.todo[0]);
    KeepsAnnouncing(p, x.kept, x.kept + d.kept, x.errs, x.errs + d.errs, x.spawn);
    KeepsAnnouncing(p, d.kept, x.kept + d.kept, [], x.errs + d.errs, d.spawn);
  }

  // Announced once, announced for good; and by the newest batch too.
  lemma AnnouncedMore(root: Path, bs: seq<Batch>, b: Batch)
    ensures forall p :: Announced(root, bs, p) ==> Announced(root, bs + [b], p)
    ensures forall p :: Announces(b, p) ==> Announced(root, bs + [b], p)
  {
    hide Announces;
    forall p | Announced(root, bs, p) ensures Announced(root, bs + [b], p) {
      if p != root {
        var j :| 0 <= j < |bs| && Announces(bs[j], p);
        assert (bs + [b])[j] == bs[j];
      }
    }
    forall p | Announces(b, p) ensures Announced(root, bs + [b], p) {
      assert (bs + [b])[|bs|] == b;
    }
  }

  lemma OneMoreInOrder(root: Path, bs: seq<Batch>, b: Batch)
    requires InOrder(root, bs) && Announced(root, bs, b.dir)
    ensures InOrder(root, bs + [b])
  {
    hide Announced;
    forall i | 0 <= i < |bs + [b]| ensures Announced(root, (bs + [b])[..i], (bs + [b])[i].dir) {
      assert (bs + [b])[..i] == bs[..i];
      assert bs[..|bs|] == bs;
    }
  }

  lemma {:induction false} BatchesSnoc(evs: seq<Event>, ev: Event)
    ensures Batches(evs + [ev]) == Batches(evs) + if ev.Published? then [ev.batch] else []
  {
    BatchesConcat(evs, [ev]);
    assert [ev][1..] == [] && Batches([]) == [];
  }

  lemma PublishInOrder(root: Path, s: State, w: nat, b: Batch, spawn: seq<Task>)
    requires AllInOrder(root, s) && w < |s.workers|
    requires Announced(root, Batches(s.events), b.dir) && AnnouncesAll(b, spawn)
    ensures AllInOrder(root, Publish(s, w, b, spawn))
  {
    hide Announced, Announces;
    var bs := Batches(s.events);
    BatchesSnoc(s.events, Published(b));
    AnnouncedMore(root, bs, b);
    OneMoreInOrder(root, bs, b);
    var s' := Publish(s, w, b, spawn);
    forall v | 0 <= v < |s'.workers| ensures WorkerInOrder(root, bs + [b], s'.workers[v]) {
      assert v != w ==> WorkerInOrder(root, bs, s.workers[v]);
    }
  }

  lemma StepInOrder(env: Env, root: Path, s: State, a: Action)
    requires Wf(s) && Enabled(s, a) && AllInOrder(root, s)
    ensures AllInOrder(root, Step(env, s, a))
  {
    hide Announced, Announces, ScanEntry, Begin, InOrder;
    var x, bs := s.workers[a.w], Batches(s.events);
    assert WorkerNamed(s.heap, x) && WorkerInOrder(root, bs, x);
    if x.Ready? {
      PublishInOrder(root, s, a.w, x.batch, x.spawn);
    } else if x.Scanning? && x.todo == [] {
      PublishInOrder(root, s, a.w, Batch(x.task.path, x.kept, x.errs), x.spawn);
    } else {
      var s' := Step(env, s, a);
      BatchesSnoc(s.events, s'.events[|s.events|]);
      assert Batches(s'.events) == bs;
      if a.Take? {
        assert s.pending[a.j] in s.pending;
        BeginInOrder(env, root, bs, s.pending[a.j]);
        assert WorkerInOrder(root, bs, s'.workers[a.w]);
        assert forall t :: t in s'.pending ==> t in s.pending;
        assert AllAnnounced(root, bs, s'.pending);
      } else if x.Scanning? {
        LookInOrder(env, root, bs, s.heap, x);
      }
    }
  }

  lemma {:induction false} RunInOrder(env: Env, root: Path, s: State, sched: seq<Action>)
    requires AllInOrder(root, s) && LegalRun(env, s, sched)
    ensures AllInOrder(root, Exec(env, s, sched))
    decreases |sched|
  {
    if sched == [] {
    } else {
      StepInOrder(env, root, s, sched[0]);
      RunInOrder(env, root, Step(env, s, sched[0]), sched[1..]);
    }
  }

  /** At any moment of any run, on any file system: every directory that was published, but
      the root, was listed as a directory by a batch published before its own. */
  lemma {:induction false} ParentsArePublishedFirst(env: Env, root: Path, workers: nat, sched: seq<Action>)
    requires LegalRun(env, Init(env, root, workers), sched)
    ensures InOrder(root, Batches(Exec(env, Init(env, root, workers), sched).events))
  {
    RunInOrder(env, root, Init(env, root, workers), sched);
  }

  /** Over the arena too. */
  lemma {:induction false} ArenaParentsArePublishedFirst(env: Env, root: Path, workers: nat, sched: seq<Action>)
    requires A.LegalRun(env, A.Init(env, root, workers), sched)
    ensures InOrder(root, A.Exec(env, A.Init(env, root, workers), sched).sent)
  {
    hide InOrder;
    var sched' := ArenaRuns.EveryArenaRunIsAPoolRun(env, root, workers, sched);
    ParentsArePublishedFirst(env, root, workers, sched');
  }
}
