/**
  Every batch of every run is true, whether or not the walk ever ends.
 */
module TrueRuns {
  import opened Chains
  import opened Paths
  import opened Walk
  import opened Pool
  import opened Schedules
  import opened TrueBatches
  import A = ArenaWalk
  import ArenaRuns

  lemma ScanTells(env: Env, h: seq<Knot>, t: Task, d: Dirent)
    requires env.conf.followLinks && ParentsFirst(h) && Names(h, t.ancestor)
    ensures var v := ScanEntry(env, h, t, EntryOf(t.path, d));
      v.crash || OneTold(env, t.path, d, v.kept, v.errs)
  {
  }

  // The entries still to be looked at are those of the last records; the others are told.
  ghost predicate Scanned(env: Env, t: Task, todo: seq<Entry>, kept: seq<Entry>, errs: seq<DirErr>) {
    && env.conf.followLinks && env.k.readdir(t.path).Listing?
    && var ws := Wants(env.k.readdir(t.path).ds, env.conf.skip);
    && |todo| <= |ws| && todo == Entries(t.path, ws[|ws| - |todo|..])
    && TellsAll(env, t.path, ws[..|ws| - |todo|], kept, errs)
  }

  ghost predicate WorkerTells(env: Env, w: Worker) {
    match w
    case Scanning(t, todo, kept, errs, _) => Scanned(env, t, todo, kept, errs)
    case Ready(b, _) => TrueBatch(env, b)
    case _ => true
  }

  ghost predicate AllTrue(env: Env, s: State) {
    && (forall w :: 0 <= w < |s.workers| ==> WorkerTells(env, s.workers[w]))
    && (forall b :: Published(b) in s.events ==> TrueBatch(env, b))
  }

  lemma BeginTells(env: Env, t: Task)
    ensures WorkerTells(env, Begin(env, t))
  {
    if env.k.readdir(t.path).Listing? {
      var ws := Wants(env.k.readdir(t.path).ds, env.conf.skip);
      SeenAre(env, t.path);
      if env.conf.followLinks {
        assert ws[0..] == ws && ws[..0] == [];
        NothingTold(env, t.path);
      } else {
        PlainTells(env, t.path, ws);
      }
    }
  }

  lemma LookTells(env: Env, h: seq<Knot>, t: Task, todo: seq<Entry>, kept: seq<Entry>, errs: seq<DirErr>)
    requires ParentsFirst(h) && Names(h, t.ancestor) && Scanned(env, t, todo, kept, errs) && todo != []
    ensures var v := ScanEntry(env, h, t, todo[0]);
      v.crash || Scanned(env, t, todo[1..], kept + v.kept, errs + v.errs)
  {
    hide ScanEntry, TellsAll, OneTold;
    var ws := Wants(env.k.readdir(t.path).ds, env.conf.skip);
    var n := |ws| - |todo|;
    var v := ScanEntry(env, h, t, todo[0]);
    assert ws[n..][0] == ws[n] && ws[n..][1..] == ws[n + 1..] && ws[..n + 1] == ws[..n] + [ws[n]];
    ScanTells(env, h, t, ws[n]);
    if !v.crash {
      TellsMore(env, t.path, ws[..n], kept, errs, ws[n], v.kept, v.errs);
    }
  }

  lemma DoneTells(env: Env, t: Task, kept: seq<Entry>, errs: seq<DirErr>)
    requires Scanned(env, t, [], kept, errs)
    ensures TrueBatch(env, Batch(t.path, kept, errs))
  {
    var ws := Wants(env.k.readdir(t.path).ds, env.conf.skip);
    assert ws[..|ws|] == ws;
  }

  lemma StepKeepsTrue(env: Env, s: State, a: Action)
    requires Wf(s) && Enabled(s, a) && AllTrue(env, s)
    ensures AllTrue(env, Step(env, s, a))
  {
    hide Scanned, TrueBatch, ScanEntry, Begin;
    var x := s.workers[a.w];
    assert WorkerNamed(s.heap, x) && WorkerTells(env, x);
    if a.Take? {
      BeginTells(env, s.pending[a.j]);
    } else if x.Scanning? && x.todo != [] {
      LookTells(env, s.heap, x.task, x.todo, x.kept, x.errs);
    } else if x.Scanning? {
      DoneTells(env, x.task, x.kept, x.errs);
    }
  }

  lemma {:induction false} RunKeepsTrue(env: Env, s: State, sched: seq<Action>)
    requires AllTrue(env, s) && LegalRun(env, s, sched)
    ensures AllTrue(env, Exec(env, s, sched))
    decreases |sched|
  {
    if sched == [] {
    } else {
      StepKeepsTrue(env, s, sched[0]);
      RunKeepsTrue(env, Step(env, s, sched[0]), sched[1..]);
    }
  }

  /** Whatever was published at any moment of any run, on any file system, whether or not
      the walk ends: every batch tells of exactly the wanted records of its directory, in
      order, each with its name, inode and type, or reports the one failure to read it. */
  lemma {:induction false} EveryBatchIsTrue(env: Env, root: Path, workers: nat, sched: seq<Action>, b: Batch)
    requires LegalRun(env, Init(env, root, workers), sched)
    requires b in Batches(Exec(env, Init(env, root, workers), sched).events)
    ensures TrueBatch(env, b)
  {
    hide TrueBatch;
    RunKeepsTrue(env, Init(env, root, workers), sched);
    var evs := Exec(env, Init(env, root, workers), sched).events;
    CountBatch(evs, b);
    assert Published(b) in multiset(evs);
  }

  /** The same of the walk over the arena. */
  lemma {:induction false} EveryArenaBatchIsTrue(env: Env, root: Path, workers: nat, sched: seq<Action>, b: Batch)
    requires A.LegalRun(env, A.Init(env, root, workers), sched)
    requires b in A.Exec(env, A.Init(env, root, workers), sched).sent
    ensures TrueBatch(env, b)
  {
    hide TrueBatch;
    var sched' := ArenaRuns.EveryArenaRunIsAPoolRun(env, root, workers, sched);
    EveryBatchIsTrue(env, root, workers, sched', b);
  }

}
