/**
  How long a walk over the lock-free arena can take.  A lost compare-and-swap repeats work,
  so a run can stutter; but every loss is paid for by a win, wins by claims and full nodes,
  and claims by directories.  The sum of these accounts grows with every single step.
 */
module ArenaTime {
  import opened Chains
  import opened Paths
  import opened Walk
  import opened Ancestors
  import opened ArenaWalk
  import opened Refinement
  import opened ArenaRuns

  // -------------------------------------------------------------- the clock of the arena

  // How far a one-value call is since its last retry; a claim is worth 8.
  function Weight(pc: G.Pc<Link>): int {
    match pc
    case Idle => 0
    case Start(_) => 1
    case HaveTail(_, _) => 2
    case Growing(_, _) => 3
    case Swapping(_, _, _) => 4
    case Claiming(_, _, _) => 5
    case Writing(_, _, k, _) => if k == 0 then -2 else -1
  }

  function Weights(pcs: seq<G.Pc<Link>>): int {
    if pcs == [] then 0 else Weights(pcs[..|pcs| - 1]) + Weight(pcs[|pcs| - 1])
  }

  lemma WeightsUpdate(pcs: seq<G.Pc<Link>>, t: nat, pc: G.Pc<Link>)
    requires t < |pcs|
    ensures Weights(pcs[t := pc]) == Weights(pcs) - Weight(pcs[t]) + Weight(pc)
    decreases |pcs|
  {
    var n := |pcs| - 1;
    if t == n {
      assert pcs[t := pc][..n] == pcs[..n];
    } else {
      WeightsUpdate(pcs[..n], t, pc);
      assert pcs[t := pc][..n] == pcs[..n][t := pc];
    }
  }

  lemma {:induction false} WeightsBound(pcs: seq<G.Pc<Link>>)
    ensures Weights(pcs) <= 5 * |pcs|
    ensures (forall t :: 0 <= t < |pcs| ==> pcs[t].Idle?) ==> Weights(pcs) == 0
    decreases |pcs|
  {
    if pcs == [] {
    } else {
      WeightsBound(pcs[..|pcs| - 1]);
    }
  }

  function Clock(s: G.Store<Link>): int {
    Weights(s.threads) + 5 * s.losses + 8 * |s.log|
  }

  // A call of pushAncestor, or a step of one.
  ghost predicate Ticks(s: G.Store<Link>, a: G.Action<Link>) {
    && a.t < |s.threads|
    && if a.Begin? then s.threads[a.t].Idle? && |a.items| == 1
       else !s.threads[a.t].Idle? && |s.threads[a.t].items| == 1
  }

  // The goroutine's own share of it.
  lemma CallTicks(s: G.Store<Link>, a: G.Action<Link>)
    requires G.Inv(s) && Ticks(s, a)
    ensures var s' := G.Step(s, a);
      && |s'.threads| == |s.threads|
      && Weight(s'.threads[a.t]) + 5 * s'.losses + 8 * |s'.log| > Weight(s.threads[a.t]) + 5 * s.losses + 8 * |s.log|
  {
    hide G.AllApart, G.ClaimOk;
    assert G.ThreadOk(s, s.threads[a.t]);
  }

  lemma OneThreadMoves(s: G.Store<Link>, a: G.Action<Link>)
    requires G.Inv(s) && a.t < |s.threads|
    ensures |G.Step(s, a).threads| == |s.threads|
    ensures G.Step(s, a).threads == s.threads[a.t := G.Step(s, a).threads[a.t]]
  {
  }

  lemma ClockTicks(s: G.Store<Link>, a: G.Action<Link>)
    requires G.Inv(s) && Ticks(s, a)
    ensures Clock(G.Step(s, a)) > Clock(s)
  {
    hide Weights, Weight, G.Step, G.Inv;
    CallTicks(s, a);
    OneThreadMoves(s, a);
    WeightsUpdate(s.threads, a.t, G.Step(s, a).threads[a.t]);
  }

  // ----------------------------------------------------------- and what bounds the clock

  // Every win is a claim or a new tail.
  ghost predicate Balanced(s: G.Store<Link>) {
    s.wins == |s.log| + |s.tails| - 1
  }

  ghost predicate Accounted(s: G.Store<Link>)
    requires G.Inv(s)
  {
    R.Packed(s) && R.Charged(s) && Balanced(s)
  }

  lemma StepKeepsBalance(s: G.Store<Link>, a: G.Action<Link>)
    requires G.Inv(s) && Balanced(s) && (a.Begin? ==> |a.items| == 1)
    ensures Balanced(G.Step(s, a))
  {
    assert a.t < |s.threads| ==> G.ThreadOk(s, s.threads[a.t]);
  }

  lemma StepKeepsAccounts(s: G.Store<Link>, a: G.Action<Link>)
    requires G.Inv(s) && Accounted(s) && (a.Begin? ==> |a.items| == 1)
    ensures G.Inv(G.Step(s, a)) && Accounted(G.Step(s, a))
  {
    hide R.Packed, R.Charged, Balanced;
    G.StepKeepsInv(s, a);
    R.StepKeepsPacked(s, a);
    R.StepKeepsCharged(s, a);
    StepKeepsBalance(s, a);
  }

  lemma {:induction false} ExecKeepsAccounts(s: G.Store<Link>, calls: seq<G.Action<Link>>)
    requires G.Inv(s) && Accounted(s) && R.OnlyAppends(calls)
    ensures Accounted(G.Exec(s, calls))
    decreases |calls|
  {
    hide Accounted;
    if calls == [] {
    } else {
      StepKeepsAccounts(s, calls[0]);
      ExecKeepsAccounts(G.Step(s, calls[0]), calls[1..]);
    }
  }

  lemma EmptyIsAccounted(workers: nat)
    ensures Accounted(EmptyArena(workers))
  {
    var s := EmptyArena(workers);
    assert R.StaleSet(s) == {};
    assert R.Packed(s) by {
      assert G.IsTail(s, s.tail);
    }
  }

  lemma SeededIsAccounted(workers: nat, id: Id)
    ensures Accounted(Seeded(workers, id))
  {
    EmptyIsAccounted(workers);
    ExecKeepsAccounts(EmptyArena(workers), SeedCalls(workers, id));
  }

  // A node is retired only when it is full.
  lemma FewTails(s: G.Store<Link>)
    requires G.Inv(s) && Accounted(s)
    ensures s.wins <= 2 * |s.log|
  {
    hide R.Charged;
    assert G.IsTail(s, s.tail);
  }

  lemma ClockSum(others: nat, weights: int, losses: nat, wins: nat, claims: nat)
    requires weights <= 5 * (others + 1) && losses <= others * wins && wins <= 2 * claims
    ensures weights + 5 * losses + 8 * claims <= 5 * (others + 1) + 10 * others * claims + 8 * claims
  {
    assert others * (2 * claims - wins) >= 0;
    assert others * (2 * claims - wins) == 2 * (others * claims) - others * wins;
  }

  lemma ClockBound(s: G.Store<Link>, others: nat)
    requires G.Inv(s) && Accounted(s) && |s.threads| == others + 1
    ensures Clock(s) <= 5 * (others + 1) + 10 * others * |s.log| + 8 * |s.log|
  {
    hide R.Packed, Weights;
    WeightsBound(s.threads);
    FewTails(s);
    ClockSum(others, Weights(s.threads), s.losses, s.wins, |s.log|);
  }

  // ------------------------------------------------------------ the effort of one worker

  lemma {:induction false} ChainLength(h: seq<Knot>, r: Option<nat>)
    requires ParentsFirst(h) && Names(h, r)
    ensures |Chain(h, r)| <= |h|
    ensures r.Some? ==> |Chain(h, r)| <= r.value + 1
    decreases if r.Some? then r.value + 1 else 0
  {
    if r.Some? {
      ChainLength(h, h[r.value].up);
    }
  }

  // The link of the list at that address.
  ghost function LinkAt(s: G.Store<Link>, h: seq<Knot>, ref: Ref): (r: Option<nat>)
    ensures (exists q: Option<nat> :: Rest(s, h, ref, q)) ==> Rest(s, h, ref, r)
    ensures Names(h, r)
  {
    if exists q: Option<nat> :: Rest(s, h, ref, q) then
      var q: Option<nat> :| Rest(s, h, ref, q);
      q
    else None
  }

  // The links that hasCycle has not compared yet.
  ghost function Ahead(s: G.Store<Link>, h: seq<Knot>, ref: Ref): nat
    requires ParentsFirst(h)
  {
    |Chain(h, LinkAt(s, h, ref))|
  }

  lemma {:induction false} AheadIs(s: G.Store<Link>, h: seq<Knot>, ref: Ref, r: Option<nat>)
    requires G.Inv(s) && ParentsFirst(h) && Rest(s, h, ref, r)
    ensures Ahead(s, h, ref) == |Chain(h, r)| <= |h|
  {
    DenotesOne(s, ref, r, LinkAt(s, h, ref));
    ChainLength(h, r);
  }

  // What a worker has put into its current entry, beyond what the arena's clock shows.
  ghost function Effort(s: G.Store<Link>, h: seq<Knot>, m: nat, pc: G.Pc<Link>, x: Hand): int
    requires ParentsFirst(h)
  {
    match x
    case Checking(_, _, _, _, _, ref, _) => m - Ahead(s, h, ref)
    case Pushing(_, _, _, _, _, _) => if pc.Writing? then 0 else m
    case _ => 0
  }

  lemma EffortBounds(env: Env, s: G.Store<Link>, h: seq<Knot>, m: nat, pc: G.Pc<Link>, x: Hand, y: P.Worker)
    requires G.Inv(s) && ParentsFirst(h) && HandIs(env, s, h, pc, x, y) && |h| <= m
    ensures 0 <= Effort(s, h, m, pc, x) <= m
  {
    if x.Checking? {
      var r: Option<nat> :| Rest(s, h, x.ref, r);
      AheadIs(s, h, x.ref, r);
    }
  }

  // The effort of a worker that does not move does not change.
  lemma EffortStays(env: Env, s: G.Store<Link>, s': G.Store<Link>, h: seq<Knot>, h': seq<Knot>, m: nat,
                    pc: G.Pc<Link>, x: Hand, y: P.Worker)
    requires G.Inv(s) && G.Inv(s') && ParentsFirst(h) && ParentsFirst(h') && h <= h' && R.LogGrows(s, s')
    requires HandIs(env, s, h, pc, x, y)
    ensures Effort(s', h', m, pc, x) == Effort(s, h, m, pc, x)
  {
    if x.Checking? {
      var r: Option<nat> :| Rest(s, h, x.ref, r);
      DenotesStays(s, s', x.ref, r);
      assert Rest(s', h', x.ref, r);
      ChainIsFrozen(h, h', r);
      AheadIs(s, h, x.ref, r);
      AheadIs(s', h', x.ref, r);
    }
  }

  ghost function EffortOf(c: State, h: seq<Knot>, m: nat, w: nat): int
    requires Sound(c) && ParentsFirst(h) && w < |c.workers|
  {
    Effort(c.arena, h, m, c.arena.threads[w], c.workers[w])
  }

  ghost function Efforts(c: State, h: seq<Knot>, m: nat, k: nat): int
    requires Sound(c) && ParentsFirst(h) && k <= |c.workers|
  {
    if k == 0 then 0 else Efforts(c, h, m, k - 1) + EffortOf(c, h, m, k - 1)
  }

  lemma {:induction false} EffortsMove(env: Env, c: State, a: P.State, c': State, h': seq<Knot>, m: nat, w: nat, k: nat)
    requires Refines(env, c, a) && Moved(c, c', a.heap, h', w) && k <= |c.workers|
    ensures ParentsFirst(h')
    ensures Efforts(c', h', m, k) - Efforts(c, a.heap, m, k)
      == if w < k then EffortOf(c', h', m, w) - EffortOf(c, a.heap, m, w) else 0
    decreases k
  {
    hide HandIs, Effort;
    if k > 0 {
      EffortsMove(env, c, a, c', h', m, w, k - 1);
      if k - 1 != w {
        EffortStays(env, c.arena, c'.arena, a.heap, h', m, c.arena.threads[k - 1], c.workers[k - 1], a.workers[k - 1]);
      }
    }
  }

  lemma {:induction false} EffortsBound(env: Env, c: State, a: P.State, m: nat, k: nat)
    requires Refines(env, c, a) && |a.heap| <= m && k <= |c.workers|
    ensures 0 <= Efforts(c, a.heap, m, k) <= k * m
    decreases k
  {
    hide HandIs, Effort;
    if k > 0 {
      EffortsBound(env, c, a, m, k - 1);
      EffortBounds(env, c.arena, a.heap, m, c.arena.threads[k - 1], c.workers[k - 1], a.workers[k - 1]);
      assert (k - 1) * m + m == k * m;
    }
  }

  // ------------------------------------------------------------------ what a step does

  // g is the step of the arena inside a step of the walk, if there is one.
  ghost predicate Inside(c: State, c': State, x: P.Action, g: Option<G.Action<Link>>)
    requires Sound(c) && x.w < |c.workers| == |c'.workers|
  {
    if g.None? then
      c'.arena == c.arena && (x.Go? ==> !c.workers[x.w].Pushing? && !c'.workers[x.w].Pushing?)
    else
      && g.value.t == x.w && Ticks(c.arena, g.value) && c'.arena == G.Step(c.arena, g.value)
      && x.Go? && (c.workers[x.w].Pushing? || c'.workers[x.w].Pushing?)
  }

  lemma StartPart(c: State, w: nat, shown: Entry, id: Id) returns (g: Option<G.Action<Link>>)
    requires Sound(c) && w < |c.workers| && (c.workers[w].Scanning? || c.workers[w].Checking?)
    requires c.arena.threads[w].Idle?
    ensures Inside(c, StartPush(c, w, shown, id), P.Go(w), g) && g.Some?
  {
    g := Some(G.Begin(w, [Link(id.ino, id.dev, c.workers[w].task.ancestor)]));
  }

  lemma ScanPart(env: Env, c: State, w: nat) returns (g: Option<G.Action<Link>>)
    requires Sound(c) && w < |c.workers| && c.workers[w].Scanning? && c.workers[w].todo != []
    requires c.arena.threads[w].Idle?
    ensures Inside(c, ScanStep(env, c, w), P.Go(w), g)
  {
    var x, e := c.workers[w], c.workers[w].todo[0];
    g := None;
    if e.typ == DT_DIR && !AtMaxDepth(env.conf, x.task.depth) && Load(c.arena, x.task.ancestor).Some? {
      g := StartPart(c, w, e, Id(e.ino, Load(c.arena, x.task.ancestor).value.dev));
    }
  }

  lemma CheckPart(env: Env, c: State, w: nat) returns (g: Option<G.Action<Link>>)
    requires Sound(c) && w < |c.workers| && c.workers[w].Checking? && c.workers[w].todo != []
    requires c.arena.threads[w].Idle?
    ensures Inside(c, CheckStep(env, c, w), P.Go(w), g)
  {
    var x := c.workers[w];
    g := None;
    if x.ref.Nil? && !AtMaxDepth(env.conf, x.task.depth) {
      g := StartPart(c, w, x.todo[0].(typ := DT_DIR), x.id);
    }
  }

  lemma ArenaPart(env: Env, c: State, a: P.State, x: P.Action) returns (g: Option<G.Action<Link>>)
    requires Refines(env, c, a) && Enabled(c, x)
    ensures Inside(c, Step(env, c, x), x, g)
  {
    hide SearchGoesOn, Pushes, WorksAre, Begin, Denotes, Claimed, ScanStep, CheckStep;
    var s, hand := c.arena, c.workers[x.w];
    assert HandIs(env, s, a.heap, s.threads[x.w], hand, a.workers[x.w]);
    g := None;
    if x.Go? {
      if hand.Pushing? {
        g := Some(G.Go(x.w));
      } else if hand.Checking? {
        g := CheckPart(env, c, x.w);
      } else if hand.Scanning? && hand.todo != [] {
        g := ScanPart(env, c, x.w);
      }
    }
  }

  lemma ListGrows(env: Env, a: P.State, x: P.Action)
    requires P.Wf(a) && P.Enabled(a, x)
    ensures a.heap <= P.Step(env, a, x).heap && |P.Step(env, a, x).heap| <= |a.heap| + 1
    ensures |P.Step(env, a, x).events| == |a.events| + 1
  {
  }

  lemma OneHandMoves(env: Env, c: State, x: P.Action)
    requires Sound(c) && Enabled(c, x)
    ensures var c' := Step(env, c, x);
      |c'.workers| == |c.workers| && forall u :: 0 <= u < |c.workers| && u != x.w ==> c'.workers[u] == c.workers[u]
  {
  }

  lemma StepMoves(env: Env, c: State, a: P.State, x: P.Action, a': P.State)
    requires Refines(env, c, a) && P.Wf(a) && Enabled(c, x) && Refines(env, Step(env, c, x), a')
    requires a' == a || (P.Enabled(a, x) && a' == P.Step(env, a, x))
    ensures Moved(c, Step(env, c, x), a.heap, a'.heap, x.w)
  {
    hide HandIs, WorksAre, Step, P.Step, HandsAre;
    OneHandMoves(env, c, x);
    if a' != a {
      ListGrows(env, a, x);
    }
    var g := ArenaPart(env, c, a, x);
    if g.Some? {
      R.StepGrowsLog(c.arena, g.value);
      OthersStay(c.arena, g.value);
    }
  }

  lemma OthersStay(s: G.Store<Link>, g: G.Action<Link>)
    requires G.Inv(s)
    ensures forall u :: 0 <= u < |s.threads| && u != g.t ==> G.Step(s, g).threads[u] == s.threads[u]
  {
  }

  // ---------------------------------------------------------- every step counts for one

  lemma CheckStutterTicks(env: Env, c: State, a: P.State, w: nat, m: nat)
    requires Refines(env, c, a) && P.Wf(a) && w < |c.workers| && c.workers[w].Checking? && c.workers[w].todo != []
    requires Refines(env, CheckStep(env, c, w), a) && CheckStep(env, c, w).arena == c.arena && |a.heap| < m
    ensures EffortOf(CheckStep(env, c, w), a.heap, m, w) > EffortOf(c, a.heap, m, w)
  {
    var x, s, h := c.workers[w], c.arena, a.heap;
    var c' := CheckStep(env, c, w);
    assert HandIs(env, s, h, s.threads[w], x, a.workers[w]);
    assert HandIs(env, c'.arena, h, c'.arena.threads[w], c'.workers[w], a.workers[w]);
    var r: Option<nat> :| Rest(s, h, x.ref, r);
    AheadIs(s, h, x.ref, r);
    if r.Some? {
      LoadFinds(s, h, x.ref, r.value);
      AheadIs(s, h, Load(s, x.ref).value.parent, h[r.value].up);
    }
  }

  lemma QuietStutterTicks(env: Env, c: State, a: P.State, x: P.Action, m: nat)
    requires Refines(env, c, a) && P.Wf(a) && Enabled(c, x) && Refines(env, Step(env, c, x), a)
    requires Step(env, c, x).arena == c.arena && |a.heap| < m
    requires !c.workers[x.w].Pushing? && !Step(env, c, x).workers[x.w].Pushing?
    ensures EffortOf(Step(env, c, x), a.heap, m, x.w) > EffortOf(c, a.heap, m, x.w)
  {
    hide SearchGoesOn, Pushes, Mirrors, Begin, Ahead;
    var w, h := x.w, a.heap;
    var c' := Step(env, c, x);
    assert HandIs(env, c.arena, h, c.arena.threads[w], c.workers[w], a.workers[w]);
    assert HandIs(env, c'.arena, h, c'.arena.threads[w], c'.workers[w], a.workers[w]);
    if c.workers[w].Checking? && x.Go? {
      CheckStutterTicks(env, c, a, w, m);
    } else if c.workers[w].Scanning? && x.Go? {
      EffortBelow(env, c', a, w, m);
    }
  }

  lemma EffortBelow(env: Env, c: State, a: P.State, w: nat, m: nat)
    requires Refines(env, c, a) && w < |c.workers| && c.workers[w].Checking? && |a.heap| < m
    ensures EffortOf(c, a.heap, m, w) > 0
  {
    assert HandIs(env, c.arena, a.heap, c.arena.threads[w], c.workers[w], a.workers[w]);
    var r: Option<nat> :| Rest(c.arena, a.heap, c.workers[w].ref, r);
    AheadIs(c.arena, a.heap, c.workers[w].ref, r);
  }

  // pushAncestor begins, or goes on without a claim, or returns: the effort does not fall.
  lemma PushStutterTicks(env: Env, c: State, a: P.State, x: P.Action, m: nat)
    requires Refines(env, c, a) && P.Wf(a) && Enabled(c, x) && Refines(env, Step(env, c, x), a) && |a.heap| < m
    requires x.Go? && (c.workers[x.w].Pushing? || Step(env, c, x).workers[x.w].Pushing?)
    ensures EffortOf(Step(env, c, x), a.heap, m, x.w) >= EffortOf(c, a.heap, m, x.w)
  {
    hide SearchGoesOn, Pushes, Begin, Ahead;
    var w, h := x.w, a.heap;
    var c' := Step(env, c, x);
    assert HandIs(env, c.arena, h, c.arena.threads[w], c.workers[w], a.workers[w]);
    assert HandIs(env, c'.arena, h, c'.arena.threads[w], c'.workers[w], a.workers[w]);
    EffortBounds(env, c.arena, h, m, c.arena.threads[w], c.workers[w], a.workers[w]);
    if c.workers[w].Pushing? {
      CallMoves(c.arena, w);
    }
  }

  // What a run has spent so far.  m is more than the list ever holds.
  ghost function Spent(c: State, a: P.State, m: nat): int
    requires Sound(c) && ParentsFirst(a.heap)
  {
    (m + 1) * |a.events| + Clock(c.arena) + Efforts(c, a.heap, m, |c.workers|)
  }

  lemma SpentMoves(env: Env, c: State, a: P.State, x: P.Action, a': P.State, m: nat)
    requires Refines(env, c, a) && P.Wf(a) && Enabled(c, x) && Refines(env, Step(env, c, x), a')
    requires a' == a || (P.Enabled(a, x) && a' == P.Step(env, a, x))
    ensures var c' := Step(env, c, x);
      Spent(c', a', m) - Spent(c, a, m) == (m + 1) * |a'.events| - (m + 1) * |a.events|
        + (Clock(c'.arena) - Clock(c.arena)) + (EffortOf(c', a'.heap, m, x.w) - EffortOf(c, a.heap, m, x.w))
  {
    hide Effort, HandIs, Step, P.Step, Clock, Enabled;
    var c' := Step(env, c, x);
    StepMoves(env, c, a, x, a');
    EffortsMove(env, c, a, c', a'.heap, m, x.w, |c.workers|);
  }

  lemma ClockMoves(c: State, c': State, x: P.Action, g: Option<G.Action<Link>>)
    requires Sound(c) && x.w < |c.workers| == |c'.workers| && Inside(c, c', x, g)
    ensures Clock(c'.arena) >= Clock(c.arena) + if g.Some? then 1 else 0
  {
    if g.Some? {
      ClockTicks(c.arena, g.value);
    }
  }

  lemma StepCounts(env: Env, c: State, a: P.State, x: P.Action, a': P.State, m: nat)
    requires Refines(env, c, a) && P.Wf(a) && Enabled(c, x) && Refines(env, Step(env, c, x), a')
    requires a' == a || (P.Enabled(a, x) && a' == P.Step(env, a, x))
    requires |a'.heap| < m
    ensures Spent(Step(env, c, x), a', m) > Spent(c, a, m)
  {
    hide Refines, Effort, HandIs, Step, P.Step, Clock, Enabled, Spent, Inside, EffortOf, P.Enabled;
    RefinesIsSound(env, c, a);
    EnabledWorker(c, x);
    var c', w := Step(env, c, x), x.w;
    RefinesIsSound(env, c', a');
    OneHandMoves(env, c, x);
    SpentMoves(env, c, a, x, a', m);
    var g := ArenaPart(env, c, a, x);
    ClockMoves(c, c', x, g);
    if a' == a {
      StutterCounts(env, c, a, x, m, g);
    } else {
      ListGrows(env, a, x);
      OneEffortBounds(env, c, a, m, w);
      OneEffortBounds(env, c', a', m, w);
      assert (m + 1) * |a'.events| == (m + 1) * |a.events| + (m + 1);
    }
  }

  lemma EnabledWorker(c: State, x: P.Action)
    requires Enabled(c, x)
    ensures x.w < |c.workers|
  {
  }

  lemma RefinesIsSound(env: Env, c: State, a: P.State)
    requires Refines(env, c, a)
    ensures Sound(c) && ParentsFirst(a.heap) && |a.workers| == |c.workers| && |a.heap| == |c.arena.log|
  {
  }

  lemma OneEffortBounds(env: Env, c: State, a: P.State, m: nat, w: nat)
    requires Refines(env, c, a) && w < |c.workers| && |a.heap| <= m
    ensures 0 <= EffortOf(c, a.heap, m, w) <= m
  {
    EffortBounds(env, c.arena, a.heap, m, c.arena.threads[w], c.workers[w], a.workers[w]);
  }

  lemma StutterCounts(env: Env, c: State, a: P.State, x: P.Action, m: nat, g: Option<G.Action<Link>>)
    requires Refines(env, c, a) && P.Wf(a) && Enabled(c, x) && Refines(env, Step(env, c, x), a) && |a.heap| < m
    requires Inside(c, Step(env, c, x), x, g)
    ensures var e, e' := EffortOf(c, a.heap, m, x.w), EffortOf(Step(env, c, x), a.heap, m, x.w);
      if g.None? then e' > e else e' >= e
  {
    hide Effort, SearchGoesOn, Pushes, Begin, G.Step, Clock, Mirrors;
    var c' := Step(env, c, x);
    assert HandIs(env, c.arena, a.heap, c.arena.threads[x.w], c.workers[x.w], a.workers[x.w]);
    assert HandIs(env, c'.arena, a.heap, c'.arena.threads[x.w], c'.workers[x.w], a.workers[x.w]);
    if g.None? {
      QuietStutterTicks(env, c, a, x, m);
    } else {
      PushStutterTicks(env, c, a, x, m);
    }
  }

  // ------------------------------------------------------------------------ whole runs

  // Whatever the list walk does from a on, its list stays below m.
  ghost predicate StaysBelow(env: Env, a: P.State, m: nat) {
    forall more :: S.LegalRun(env, a, more) ==> |S.Exec(env, a, more).heap| < m
  }

  lemma StillBelow(env: Env, a: P.State, x: P.Action, m: nat)
    requires StaysBelow(env, a, m) && P.Wf(a) && P.Enabled(a, x)
    ensures StaysBelow(env, P.Step(env, a, x), m)
  {
    var a' := P.Step(env, a, x);
    forall more | S.LegalRun(env, a', more) ensures |S.Exec(env, a', more).heap| < m {
      var all := [x] + more;
      assert all[0] == x && all[1..] == more;
      assert S.LegalRun(env, a, all) && S.Exec(env, a, all) == S.Exec(env, a', more);
    }
  }

  lemma BelowNow(env: Env, a: P.State, m: nat)
    requires StaysBelow(env, a, m)
    ensures |a.heap| < m
  {
    assert S.LegalRun(env, a, []) && S.Exec(env, a, []) == a;
  }

  lemma ArenaAccounts(env: Env, c: State, a: P.State, x: P.Action)
    requires Refines(env, c, a) && Enabled(c, x) && Accounted(c.arena)
    ensures Accounted(Step(env, c, x).arena)
  {
    hide Accounted, Step;
    var g := ArenaPart(env, c, a, x);
    if g.Some? {
      StepKeepsAccounts(c.arena, g.value);
    }
  }

  lemma RunCounts(env: Env, c: State, a: P.State, sched: seq<P.Action>, m: nat)
    returns (sched': seq<P.Action>)
    requires Refines(env, c, a) && ArenaWalk.LegalRun(env, c, sched) && StaysBelow(env, a, m) && Accounted(c.arena)
    ensures S.LegalRun(env, a, sched') && Refines(env, Exec(env, c, sched), S.Exec(env, a, sched'))
    ensures Accounted(Exec(env, c, sched).arena)
    ensures Spent(Exec(env, c, sched), S.Exec(env, a, sched'), m) >= Spent(c, a, m) + |sched|
    decreases |sched|
  {
    hide Mirrors, HandsAre, WorksAre, Enabled, P.Enabled, P.Wf, Accounted, StaysBelow, Spent;
    if sched == [] {
      sched' := [];
    } else {
      var a' := StepRefines(env, c, a, sched[0]);
      if a' != a {
        StillBelow(env, a, sched[0], m);
      }
      BelowNow(env, a', m);
      StepCounts(env, c, a, sched[0], a', m);
      ArenaAccounts(env, c, a, sched[0]);
      var rest := RunCounts(env, Step(env, c, sched[0]), a', sched[1..], m);
      if a' == a {
        sched' := rest;
      } else {
        sched' := [sched[0]] + rest;
        assert sched'[0] == sched[0] && sched'[1..] == rest;
      }
    }
  }

  // Each event adds at most one link to the list.
  lemma {:induction false} ListBound(env: Env, a: P.State, sched: seq<P.Action>)
    requires S.LegalRun(env, a, sched)
    ensures |S.Exec(env, a, sched).heap| <= |a.heap| + |sched|
    ensures |S.Exec(env, a, sched).events| == |a.events| + |sched|
    decreases |sched|
  {
    hide P.Wf, P.Enabled, P.Step;
    if sched == [] {
    } else {
      ListGrows(env, a, sched[0]);
      ListBound(env, P.Step(env, a, sched[0]), sched[1..]);
    }
  }

  // The number of events of the whole walk.
  ghost function Size(env: Env, root: Path, n: nat): nat {
    |P.EventsOf(env, RootItem(env, root), n)|
  }

  lemma {:induction false} RootStaysBelow(env: Env, root: Path, n: nat, workers: nat)
    requires Bounded(env, RootItem(env, root), n)
    ensures StaysBelow(env, P.Init(env, root, workers), Size(env, root, n) + 2)
  {
    hide Run, Panics, Bounded;
    var a := P.Init(env, root, workers);
    forall more | S.LegalRun(env, a, more) ensures |S.Exec(env, a, more).heap| < Size(env, root, n) + 2 {
      S.EveryScheduleTerminates(env, root, n, workers, more);
      ListBound(env, a, more);
    }
  }

  lemma InitSpent(env: Env, root: Path, workers: nat, m: nat)
    ensures Refines(env, Init(env, root, workers), P.Init(env, root, workers))
    ensures Spent(Init(env, root, workers), P.Init(env, root, workers), m) >= 0
    ensures Accounted(Init(env, root, workers).arena)
  {
    hide Accounted;
    InitRefines(env, root, workers);
    var c, h := Init(env, root, workers), P.Init(env, root, workers).heap;
    EmptyIsAccounted(workers);
    if env.conf.followLinks && env.k.stat(root).Info? {
      SeededMirrors(workers, env.k.stat(root).id);
      SeededIsAccounted(workers, env.k.stat(root).id);
    }
    WeightsBound(c.arena.threads);
    IdleEfforts(c, h, m, workers);
  }

  lemma {:induction false} IdleEfforts(c: State, h: seq<Knot>, m: nat, k: nat)
    requires Sound(c) && ParentsFirst(h) && k <= |c.workers| && forall w :: 0 <= w < k ==> c.workers[w].Idle?
    ensures Efforts(c, h, m, k) == 0
    decreases k
  {
    if k > 0 {
      IdleEfforts(c, h, m, k - 1);
    }
  }

  // The steps that a walk of that many events can take on that many workers.
  function Longest(events: nat, workers: nat): nat {
    (events + 3) * events + 5 * (workers + 1) + (10 * workers + 8) * (events + 1) + workers * (events + 2)
  }

  lemma SpentBound(env: Env, c: State, a: P.State, events: nat, workers: nat)
    requires Refines(env, c, a) && Accounted(c.arena) && |c.workers| == workers
    requires |a.events| <= events && |a.heap| <= events + 1
    ensures Spent(c, a, events + 2) <= Longest(events, workers)
  {
    hide Accounted, Clock;
    RefinesIsSound(env, c, a);
    EffortsBound(env, c, a, events + 2, workers);
    ClockBound(c.arena, workers);
    LongestSum(events, workers, |a.events|, |a.heap|);
  }

  lemma LongestSum(events: nat, workers: nat, done: nat, links: nat)
    requires done <= events && links <= events + 1
    ensures (events + 3) * done + (5 * (workers + 1) + 10 * workers * links + 8 * links) + workers * (events + 2)
      <= Longest(events, workers)
  {
    var a, b := events + 3, 10 * workers + 8;
    TimesMonotone(a, done, events);
    TimesMonotone(b, links, events + 1);
    TimesSum(10 * workers, 8, links);
  }

  lemma TimesMonotone(a: nat, b: nat, c: nat)
    requires b <= c
    ensures a * b <= a * c
  {
  }

  lemma TimesSum(a: nat, b: nat, c: nat)
    ensures (a + b) * c == a * c + b * c
  {
  }

  /** Termination over the compare-and-swap arena: no schedule whatever, however many swaps
      it makes fail, takes more steps than this, although no single call is bounded. */
  lemma {:induction false} EveryArenaScheduleTerminates(env: Env, root: Path, n: nat, workers: nat,
                                                        sched: seq<P.Action>)
    requires Bounded(env, RootItem(env, root), n)
    requires ArenaWalk.LegalRun(env, Init(env, root, workers), sched)
    ensures |sched| <= Longest(Size(env, root, n), workers)
  {
    hide Bounded, Refines, Accounted, Spent, StaysBelow, Longest, RootItem;
    var events := Size(env, root, n);
    var c, a := Init(env, root, workers), P.Init(env, root, workers);
    RootStaysBelow(env, root, n, workers);
    InitSpent(env, root, workers, events + 2);
    var sched' := RunCounts(env, c, a, sched, events + 2);
    S.EveryScheduleTerminates(env, root, n, workers, sched');
    ListBound(env, a, sched');
    WorkersStay(env, c, sched);
    SpentBound(env, Exec(env, c, sched), S.Exec(env, a, sched'), events, workers);
  }

  lemma {:induction false} WorkersStay(env: Env, c: State, sched: seq<P.Action>)
    requires Sound(c) && ArenaWalk.LegalRun(env, c, sched)
    ensures |Exec(env, c, sched).workers| == |c.workers|
    decreases |sched|
  {
    hide Step;
    if sched == [] {
    } else {
      OneHandMoves(env, c, sched[0]);
      WorkersStay(env, Step(env, c, sched[0]), sched[1..]);
    }
  }

  /** And none gets stuck: while work is left, some worker can take a step. */
  lemma {:induction false} ArenaWorkLeftMeansAStep(env: Env, root: Path, n: nat, workers: nat, sched: seq<P.Action>)
    requires Bounded(env, RootItem(env, root), n) && workers > 0
    requires ArenaWalk.LegalRun(env, Init(env, root, workers), sched)
    requires !Complete(Exec(env, Init(env, root, workers), sched))
    ensures exists x :: Enabled(Exec(env, Init(env, root, workers), sched), x)
  {
    var c := Exec(env, Init(env, root, workers), sched);
    WorkersStay(env, Init(env, root, workers), sched);
    if w: nat :| w < |c.workers| && !c.workers[w].Idle? {
      ArenaWalkNeverCrashes(env, root, workers, sched, w);
      assert Enabled(c, P.Go(w));
    } else {
      assert Enabled(c, P.Take(0, 0));
    }
  }
}
