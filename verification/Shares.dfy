/**
  Who publishes what: each worker publishes, in the order it took them, the batches of the
  items it took, the walk is the sum of these shares, and every share stays readable in the
  memory of its worker.
 */
module Shares {
  import opened Chains
  import opened Paths
  import opened Walk
  import opened Pool
  import opened PoolRuns
  import opened Schedules
  import opened ReadDir
  import V = Visits

  // The items that worker w takes in a run, in order.
  ghost function TakenBy(env: Env, s: State, sched: seq<Action>, w: nat): seq<Item>
    requires LegalRun(env, s, sched)
    decreases |sched|
  {
    if sched == [] then [] else TakenNow(s, sched[0], w) + TakenBy(env, Step(env, s, sched[0]), sched[1..], w)
  }

  ghost function TakenNow(s: State, a: Action, w: nat): seq<Item>
    requires Wf(s) && Enabled(s, a)
  {
    if a.Take? && a.w == w then [ItemOf(s.heap, s.pending[a.j])] else []
  }

  // The batches that worker w publishes in a run, in order.
  ghost function SentBy(env: Env, s: State, sched: seq<Action>, w: nat): seq<Batch>
    requires LegalRun(env, s, sched)
    decreases |sched|
  {
    if sched == [] then [] else SentNow(s, sched[0], w) + SentBy(env, Step(env, s, sched[0]), sched[1..], w)
  }

  function SentNow(s: State, a: Action, w: nat): seq<Batch>
    requires Enabled(s, a)
  {
    if a.Take? || a.w != w then [] else
    match s.workers[a.w]
    case Scanning(t, todo, kept, errs, _) => if todo == [] then [Batch(t.path, kept, errs)] else []
    case Ready(batch, _) => [batch]
    case _ => []
  }

  // The batch a worker has in hand, finished or not.
  ghost function InHand(g: Goal, h: seq<Knot>, x: Worker): seq<Batch>
    requires ParentsFirst(h) && WorkerNamed(h, x) && WorkerOk(g, h, x)
  {
    match x
    case Scanning(t, _, _, _, _) => [Run(g.env, ItemOf(h, t)).batch]
    case Ready(batch, _) => [batch]
    case _ => []
  }

  ghost predicate AllSafe(env: Env, its: seq<Item>) {
    forall i :: 0 <= i < |its| ==> !Panics(env, its[i])
  }

  lemma {:induction false} RunAllCons(env: Env, it: Item, its: seq<Item>)
    requires !Panics(env, it) && AllSafe(env, its)
    ensures AllSafe(env, [it] + its) && RunAll(env, [it] + its) == [Run(env, it).batch] + RunAll(env, its)
    decreases |its|
  {
    hide Panics, Run;
    var all := [it] + its;
    if its == [] {
      assert all[..0] == [] && all[|all| - 1] == it;
    } else {
      var n := |its| - 1;
      RunAllCons(env, it, its[..n]);
      assert all[..|all| - 1] == [it] + its[..n];
    }
  }

  // ------------------------------------------------------------------------ one step

  lemma TakeInHand(g: Goal, s: State, a: Action)
    requires Closed(g) && Wf(s) && Enabled(s, a) && a.Take? && AllOk(g, ItemsOf(s.heap, s.pending))
    ensures var it, x := ItemOf(s.heap, s.pending[a.j]), Begin(g.env, s.pending[a.j]);
      && !Panics(g.env, it) && WorkerNamed(s.heap, x) && WorkerOk(g, s.heap, x)
      && InHand(g, s.heap, x) == [Run(g.env, it).batch]
  {
    var t := s.pending[a.j];
    assert ItemsOf(s.heap, s.pending)[a.j] == ItemOf(s.heap, t);
    assert Bounded(g.env, ItemOf(s.heap, t), g.n);
    BeginOk(g, s.heap, t);
    assert TakenOver(g, s.heap, t);
  }

  lemma SentIsInHand(g: Goal, h: seq<Knot>, x: Worker)
    requires Closed(g) && ParentsFirst(h) && WorkerNamed(h, x) && WorkerOk(g, h, x) && x.Scanning? && x.todo == []
    ensures InHand(g, h, x) == [Batch(x.task.path, x.kept, x.errs)]
  {
    var es := Seen(g.env, x.task.path);
    assert es[..|es|] == es;
  }

  lemma InHandFrozen(g: Goal, h: seq<Knot>, h': seq<Knot>, x: Worker)
    requires ParentsFirst(h) && ParentsFirst(h') && h <= h' && WorkerNamed(h, x) && WorkerOk(g, h, x)
    requires WorkerNamed(h', x) && WorkerOk(g, h', x)
    ensures InHand(g, h', x) == InHand(g, h, x)
  {
    if x.Scanning? {
      ChainIsFrozen(h, h', x.task.ancestor);
    }
  }

  ghost predicate Busy(g: Goal, s: State, w: nat) {
    && ParentsFirst(s.heap) && w < |s.workers|
    && WorkerNamed(s.heap, s.workers[w]) && WorkerOk(g, s.heap, s.workers[w])
  }

  // What worker w takes and has in hand is what it publishes and then has in hand.
  lemma StepBalances(g: Goal, total: multiset<Event>, s: State, a: Action, w: nat)
    requires Closed(g) && Inv(g, total, s) && Enabled(s, a) && w < |s.workers|
    requires Inv(g, total, Step(g.env, s, a))
    ensures Busy(g, s, w) && Busy(g, Step(g.env, s, a), w) && AllSafe(g.env, TakenNow(s, a, w))
    ensures InHand(g, s.heap, s.workers[w]) + RunAll(g.env, TakenNow(s, a, w))
      == SentNow(s, a, w) + InHand(g, Step(g.env, s, a).heap, Step(g.env, s, a).workers[w])
  {
    hide Inv, Closed, InHand, Step, TakenNow, SentNow, RunAll;
    InvIsBusy(g, total, s, w);
    StepShape(g.env, s, a);
    InvIsBusy(g, total, Step(g.env, s, a), w);
    if a.w != w {
      OthersBalance(g, s, a, w);
    } else if a.Take? {
      TakeBalances(g, total, s, a);
    } else {
      GoBalances(g, s, w);
    }
  }

  lemma OthersBalance(g: Goal, s: State, a: Action, w: nat)
    requires Wf(s) && Enabled(s, a) && a.w != w && Busy(g, s, w) && Busy(g, Step(g.env, s, a), w)
    ensures TakenNow(s, a, w) == [] && SentNow(s, a, w) == [] && RunAll(g.env, []) == []
    ensures InHand(g, Step(g.env, s, a).heap, Step(g.env, s, a).workers[w]) == InHand(g, s.heap, s.workers[w])
  {
    hide InHand, ScanEntry, Begin, WorkerOk, Run;
    InHandFrozen(g, s.heap, Step(g.env, s, a).heap, s.workers[w]);
  }

  lemma TakeBalances(g: Goal, total: multiset<Event>, s: State, a: Action)
    requires Closed(g) && Inv(g, total, s) && Enabled(s, a) && a.Take?
    requires Busy(g, s, a.w) && Busy(g, Step(g.env, s, a), a.w)
    ensures AllSafe(g.env, TakenNow(s, a, a.w)) && SentNow(s, a, a.w) == [] && InHand(g, s.heap, s.workers[a.w]) == []
    ensures InHand(g, Step(g.env, s, a).heap, Step(g.env, s, a).workers[a.w]) == RunAll(g.env, TakenNow(s, a, a.w))
  {
    hide Closed, Run, Panics, WorkerOk, Begin, DebtOfAll, DebtPending;
    TakeInHand(g, s, a);
    RunAllCons(g.env, ItemOf(s.heap, s.pending[a.j]), []);
  }

  lemma GoBalances(g: Goal, s: State, w: nat)
    requires Closed(g) && Wf(s) && Enabled(s, Go(w)) && Busy(g, s, w) && Busy(g, Step(g.env, s, Go(w)), w)
    ensures TakenNow(s, Go(w), w) == [] && RunAll(g.env, []) == []
    ensures InHand(g, s.heap, s.workers[w])
      == SentNow(s, Go(w), w) + InHand(g, Step(g.env, s, Go(w)).heap, Step(g.env, s, Go(w)).workers[w])
  {
    hide Closed, Run, Panics, HalfWay, ScanEntry, Chain;
    var x, s' := s.workers[w], Step(g.env, s, Go(w));
    if x.Scanning? {
      if x.todo == [] {
        SentIsInHand(g, s.heap, x);
      } else {
        ChainIsFrozen(s.heap, s'.heap, x.task.ancestor);
      }
    }
  }

  // ------------------------------------------------------------------------ whole runs

  lemma {:induction false} TakenFirst(env: Env, first: seq<Item>, rest: seq<Item>)
    requires |first| <= 1 && AllSafe(env, first) && AllSafe(env, rest)
    ensures AllSafe(env, first + rest) && RunAll(env, first + rest) == RunAll(env, first) + RunAll(env, rest)
  {
    if first == [] {
      assert first + rest == rest;
    } else {
      assert first == [first[0]] + [] && first + rest == [first[0]] + rest && RunAll(env, []) == [];
      RunAllCons(env, first[0], []);
      RunAllCons(env, first[0], rest);
    }
  }

  lemma {:induction false} RunBalances(g: Goal, total: multiset<Event>, s: State, sched: seq<Action>, w: nat)
    requires Closed(g) && Inv(g, total, s) && LegalRun(g.env, s, sched) && w < |s.workers|
    ensures var r := Exec(g.env, s, sched);
      && Busy(g, s, w) && Busy(g, r, w) && AllSafe(g.env, TakenBy(g.env, s, sched, w))
      && InHand(g, s.heap, s.workers[w]) + RunAll(g.env, TakenBy(g.env, s, sched, w))
         == SentBy(g.env, s, sched, w) + InHand(g, r.heap, r.workers[w])
    decreases |sched|
  {
    hide Closed, Inv, InHand, TakenNow, SentNow, Enabled, Panics;
    InvIsBusy(g, total, s, w);
    if sched == [] {
      assert InHand(g, s.heap, s.workers[w]) + [] == [] + InHand(g, s.heap, s.workers[w]);
    } else {
      var s' := Step(g.env, s, sched[0]);
      StepShape(g.env, s, sched[0]);
      StepKeepsInv(g, total, s, sched[0]);
      StepBalances(g, total, s, sched[0], w);
      RunBalances(g, total, s', sched[1..], w);
      AtMostOneTaken(s, sched[0], w);
      TakenFirst(g.env, TakenNow(s, sched[0], w), TakenBy(g.env, s', sched[1..], w));
      var r := Exec(g.env, s, sched);
      Reassociate(InHand(g, s.heap, s.workers[w]), RunAll(g.env, TakenNow(s, sched[0], w)),
                  RunAll(g.env, TakenBy(g.env, s', sched[1..], w)), SentNow(s, sched[0], w),
                  InHand(g, s'.heap, s'.workers[w]), SentBy(g.env, s', sched[1..], w), InHand(g, r.heap, r.workers[w]));
    }
  }

  lemma InvIsBusy(g: Goal, total: multiset<Event>, s: State, w: nat)
    requires Inv(g, total, s) && w < |s.workers|
    ensures Busy(g, s, w) && Wf(s)
  {
    hide WorkerOk, DebtOfAll, DebtPending;
  }

  lemma AtMostOneTaken(s: State, a: Action, w: nat)
    requires Wf(s) && Enabled(s, a)
    ensures |TakenNow(s, a, w)| <= 1
  {
  }

  lemma Reassociate(hand: seq<Batch>, now: seq<Batch>, later: seq<Batch>, sent: seq<Batch>, hand': seq<Batch>,
                    sent': seq<Batch>, last: seq<Batch>)
    requires hand + now == sent + hand' && hand' + later == sent' + last
    ensures hand + (now + later) == (sent + sent') + last
  {
    assert hand + (now + later) == (hand + now) + later;
    assert (sent + hand') + later == sent + (hand' + later);
    assert sent + (sent' + last) == (sent + sent') + last;
  }

  // What the first k workers publish.
  ghost function ShareSum(env: Env, s: State, sched: seq<Action>, k: nat): multiset<Batch>
    requires LegalRun(env, s, sched)
  {
    if k == 0 then multiset{} else ShareSum(env, s, sched, k - 1) + multiset(SentBy(env, s, sched, k - 1))
  }

  lemma {:induction false} SentByCons(env: Env, s: State, sched: seq<Action>, w: nat)
    requires LegalRun(env, s, sched) && sched != []
    ensures SentBy(env, s, sched, w) == SentNow(s, sched[0], w) + SentBy(env, Step(env, s, sched[0]), sched[1..], w)
  {
  }

  // What a step publishes, if it is one of the first k workers that takes it.
  function SentBelow(s: State, a: Action, k: nat): multiset<Batch>
    requires Enabled(s, a)
  {
    if a.w < k then multiset(SentNow(s, a, a.w)) else multiset{}
  }

  lemma SentBelowOneMore(s: State, a: Action, k: nat)
    requires Enabled(s, a)
    ensures SentBelow(s, a, k + 1) == SentBelow(s, a, k) + multiset(SentNow(s, a, k))
  {
  }

  lemma FourBags(a: multiset<Batch>, b: multiset<Batch>, c: multiset<Batch>, d: multiset<Batch>)
    ensures (a + b) + (c + d) == (a + c) + (b + d)
  {
  }

  lemma {:induction false} SharesMove(env: Env, s: State, sched: seq<Action>, k: nat)
    requires LegalRun(env, s, sched) && sched != []
    ensures ShareSum(env, s, sched, k)
      == SentBelow(s, sched[0], k) + ShareSum(env, Step(env, s, sched[0]), sched[1..], k)
    decreases k
  {
    hide SentBy, SentNow, SentBelow, Step, Enabled, Wf;
    if k == 0 {
      NoneBelow(s, sched[0]);
    } else {
      var s', rest := Step(env, s, sched[0]), sched[1..];
      SharesMove(env, s, sched, k - 1);
      SentByCons(env, s, sched, k - 1);
      SentBelowOneMore(s, sched[0], k - 1);
      FourBags(SentBelow(s, sched[0], k - 1), ShareSum(env, s', rest, k - 1),
               multiset(SentNow(s, sched[0], k - 1)), multiset(SentBy(env, s', rest, k - 1)));
    }
  }

  lemma NoneBelow(s: State, a: Action)
    requires Enabled(s, a)
    ensures SentBelow(s, a, 0) == multiset{}
  {
  }

  lemma SentNowIsPublished(env: Env, s: State, a: Action)
    requires Wf(s) && Enabled(s, a)
    ensures Batches(Step(env, s, a).events) == Batches(s.events) + SentNow(s, a, a.w)
  {
    var s' := Step(env, s, a);
    var e := s'.events[|s.events|];
    assert s'.events == s.events + [e];
    BatchesConcat(s.events, [e]);
    assert [e][1..] == [];
  }

  lemma {:induction false} NoShares(env: Env, s: State, k: nat)
    ensures ShareSum(env, s, [], k) == multiset{}
    decreases k
  {
    if k > 0 {
      NoShares(env, s, k - 1);
    }
  }

  lemma {:induction false} EventsAreShares(env: Env, s: State, sched: seq<Action>)
    requires LegalRun(env, s, sched)
    ensures multiset(Batches(Exec(env, s, sched).events))
      == multiset(Batches(s.events)) + ShareSum(env, s, sched, |s.workers|)
    decreases |sched|
  {
    hide Wf, Enabled, SentNow, ShareSum;
    if sched == [] {
      NoShares(env, s, |s.workers|);
    } else {
      EnabledWorker(s, sched[0]);
      StepShape(env, s, sched[0]);
      SentNowIsPublished(env, s, sched[0]);
      SharesMove(env, s, sched, |s.workers|);
      EventsAreShares(env, Step(env, s, sched[0]), sched[1..]);
    }
  }

  lemma EnabledWorker(s: State, a: Action)
    requires Enabled(s, a)
    ensures a.w < |s.workers|
  {
  }

  // ------------------------------------------------------------------------- theorems

  lemma CompleteIsIdle(s: State, w: nat)
    requires Complete(s) && w < |s.workers|
    ensures s.workers[w].Idle?
  {
  }

  lemma {:induction false} OneShare(g: Goal, total: multiset<Event>, s: State, sched: seq<Action>, w: nat)
    requires Closed(g) && Inv(g, total, s) && LegalRun(g.env, s, sched) && w < |s.workers| && s.workers[w].Idle?
    requires Complete(Exec(g.env, s, sched))
    ensures ShareIsRun(g.env, s, sched, w)
  {
    hide Inv, Closed, InHand, LegalRun, Exec, TakenBy, SentBy, RunAll, Complete;
    var r := Exec(g.env, s, sched);
    RunBalances(g, total, s, sched, w);
    RunKeepsInv(g, total, s, sched);
    CompleteIsIdle(r, w);
    IdleHasNothing(g, s, w);
    IdleHasNothing(g, r, w);
    assert RunAll(g.env, TakenBy(g.env, s, sched, w)) == [] + RunAll(g.env, TakenBy(g.env, s, sched, w));
    assert SentBy(g.env, s, sched, w) + [] == SentBy(g.env, s, sched, w);
  }

  /** In a completed walk each worker has published the batches of exactly the items it took,
      in that order, and the walk is the sum of these shares. */
  lemma {:induction false} WalkIsTheSumOfShares(env: Env, root: Path, n: nat, workers: nat, sched: seq<Action>)
    requires Bounded(env, RootItem(env, root), n) && Finishes(env, root, workers, sched)
    ensures var s := Init(env, root, workers);
      && (forall w :: 0 <= w < workers ==> ShareIsRun(env, s, sched, w))
      && multiset(AllSent(env, root, workers, sched)) == ShareSum(env, s, sched, workers)
  {
    hide Inv, Closed, Bounded, LegalRun, Exec, ShareIsRun, ShareSum, Complete, RootItem, EventsOf;
    var g, s := Following(env, n), Init(env, root, workers);
    var total := multiset(EventsOf(env, RootItem(env, root), n));
    FollowingIsClosed(env, n);
    InitInv(g, root, workers);
    EventsAreShares(env, s, sched);
    forall w | 0 <= w < workers ensures ShareIsRun(env, s, sched, w) {
      OneShare(g, total, s, sched, w);
    }
  }

  ghost predicate ShareIsRun(env: Env, s: State, sched: seq<Action>, w: nat)
    requires LegalRun(env, s, sched)
  {
    var its := TakenBy(env, s, sched, w);
    AllSafe(env, its) && SentBy(env, s, sched, w) == RunAll(env, its)
  }

  lemma IdleHasNothing(g: Goal, s: State, w: nat)
    requires Busy(g, s, w) && s.workers[w].Idle?
    ensures InHand(g, s.heap, s.workers[w]) == []
  {
  }

  /** The memory of the workers: a worker that handles its share of a completed walk ends up
      with a batch in its arenas for every batch of the share, in order, and each reads back
      from there as it was published. */
  method HandleShare(v: V.Worker, env: Env, its: seq<Item>, calls: seq<V.Calls>, ghost served: seq<seq<Served>>,
                     ghost root: Path, ghost n: nat, ghost workers: nat, ghost sched: seq<Action>, ghost w: nat)
    returns (ghost spawned: seq<Item>)
    requires v.Valid() && v.sent == [] && v.said == [] && w < workers
    requires Bounded(env, RootItem(env, root), n) && Finishes(env, root, workers, sched)
    requires its == TakenBy(env, Init(env, root, workers), sched, w) && |calls| == |its| == |served|
    requires forall i :: 0 <= i < |its| ==> V.Answers(env, its[i], calls[i], served[i], V.GETDENTS_BUF_SIZE)
    modifies v, v.buf, v.scratch, v.scratch.buf, v.entries, v.entries.tail, v.errs, v.errs.dirErrs, v.paths,
      v.paths.tail
    ensures v.Valid() && V.BatchesApart(v.sent)
    ensures |v.sent| == |SentBy(env, Init(env, root, workers), sched, w)|
    ensures forall k :: 0 <= k < |v.sent| ==> V.ReadsAs(v.sent[k], SentBy(env, Init(env, root, workers), sched, w)[k])
  {
    hide V.Worker.Valid, Bounded, LegalRun, Exec, TakenBy, SentBy, RunAll, Complete, Init, Panics, V.Answers, V.ReadsAs,
      RootItem;
    WalkIsTheSumOfShares(env, root, n, workers, sched);
    assert ShareIsRun(env, Init(env, root, workers), sched, w);
    spawned := v.HandleAll(env, its, calls, served);
    v.BatchesReadBack();
  }
}
