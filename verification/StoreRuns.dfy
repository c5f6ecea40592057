/**
  What holds in every run of the concurrent arena, for any number of goroutines and
  any schedule: safety of handed-out memory, lock-freedom with a count, and the exact
  space accounting of a store used only through Append.
 */
module StoreRuns {
  import opened GenericStore

  // -------------------------------------------------------------------- safety

  // The history of claims only grows: entries keep their place, range and values, and
  // a claim that was handed out stays handed out.
  ghost predicate LogGrows<V>(s: Store<V>, s': Store<V>) {
    && |s.log| <= |s'.log|
    && forall c :: 0 <= c < |s.log| ==>
         && s'.log[c].at == s.log[c].at && s'.log[c].items == s.log[c].items
         && (s.log[c].handedOut ==> s'.log[c].handedOut)
  }

  lemma StepGrowsLog<V>(s: Store<V>, a: Action<V>)
    requires Inv(s)
    ensures LogGrows(s, Step(s, a))
  {
  }

  lemma {:induction false} ExecGrowsLog<V>(s: Store<V>, sched: seq<Action<V>>)
    requires Inv(s)
    ensures LogGrows(s, Exec(s, sched))
    decreases |sched|
  {
    if sched == [] {
    } else {
      StepGrowsLog(s, sched[0]);
      StepKeepsInv(s, sched[0]);
      ExecGrowsLog(Step(s, sched[0]), sched[1..]);
    }
  }

  /** In every interleaving of any number of goroutines: ranges never overlap, no node
      offset passes the node size (so the unsigned subtraction never wraps), and what a
      call returned holds exactly the values it was given. */
  lemma {:induction false} EveryRunIsSafe<V>(zero: V, goroutines: nat, sched: seq<Action<V>>)
    ensures var s := Exec(NewStore(zero, goroutines), sched);
      && (forall c, d :: 0 <= c < |s.log| && 0 <= d < |s.log| && c != d ==>
            Disjoint(s.log[c].at, s.log[d].at))
      && (forall n :: 0 <= n < |s.heap| && s.heap[n].Node? ==>
            s.heap[n].off <= NODE_SIZE && Sub64(NODE_SIZE, s.heap[n].off) == NODE_SIZE - s.heap[n].off)
      && (forall c :: 0 <= c < |s.log| && s.log[c].handedOut ==>
            Fits(s, s.log[c].at) && Content(s, s.log[c].at) == s.log[c].items)
  {
    var s := Exec(NewStore(zero, goroutines), sched);
    assert Inv(s);
    forall c | 0 <= c < |s.log| ensures ClaimOk(s, s.log[c]) {}
  }

  /** Memory a call returned never changes again, whatever runs later, even when the
      claim was made on a node that had already stopped being the tail. */
  lemma {:induction false} HandedOutIsFrozen<V>(s: Store<V>, c: nat, later: seq<Action<V>>)
    requires Inv(s) && c < |s.log| && s.log[c].handedOut
    ensures Fits(s, s.log[c].at) && Fits(Exec(s, later), s.log[c].at)
    ensures Content(s, s.log[c].at) == s.log[c].items
    ensures Content(Exec(s, later), s.log[c].at) == s.log[c].items
  {
    ExecGrowsLog(s, later);
    assert ClaimOk(s, s.log[c]);
    assert ClaimOk(Exec(s, later), Exec(s, later).log[c]);
  }

  // -------------------------------------------------------------- lock-freedom

  // The goroutine's snapshot is out of date: its next compare-and-swap will fail.
  ghost predicate Stale<V>(s: Store<V>, t: nat)
    requires Inv(s) && t < |s.threads|
  {
    assert ThreadOk(s, s.threads[t]);
    match s.threads[t]
    case HaveTail(_, n) => s.tail != n
    case Growing(_, n) => s.tail != n
    case Swapping(_, n, _) => s.tail != n
    case Claiming(_, n, nOff) => s.heap[n].off != nOff
    case _ => false
  }

  ghost function StaleSet<V>(s: Store<V>): set<nat>
    requires Inv(s)
  {
    set t: nat | t < |s.threads| && Stale(s, t)
  }

  ghost predicate Charged<V>(s: Store<V>)
    requires Inv(s)
  {
    s.losses + |StaleSet(s)| <= if |s.threads| == 0 then 0 else (|s.threads| - 1) * s.wins
  }

  lemma SubsetCount(a: set<nat>, b: set<nat>)
    requires a <= b
    ensures |a| <= |b|
    decreases b
  {
    if x :| x in b {
      SubsetCount(a - {x}, b - {x});
    }
  }

  lemma BelowCount(n: nat, a: set<nat>)
    requires forall x :: x in a ==> x < n
    ensures |a| <= n
    decreases n
  {
    if n > 0 {
      BelowCount(n - 1, a - {n - 1});
    }
  }

  lemma OthersCount(n: nat, a: set<nat>, t: nat)
    requires t < n && t !in a && forall x :: x in a ==> x < n
    ensures |a| <= n - 1
  {
    BelowCount(n, a + {t});
  }

  ghost predicate IsCas<V>(s: Store<V>, a: Action<V>) {
    a.Go? && a.t < |s.threads| && (s.threads[a.t].Swapping? || s.threads[a.t].Claiming?)
  }

  // A step that is not a compare-and-swap moves neither the tail nor any offset.
  lemma QuietMemory<V>(s: Store<V>, a: Action<V>)
    requires Inv(s) && Inv(Step(s, a)) && !IsCas(s, a)
    ensures var s' := Step(s, a);
      && s'.tail == s.tail && |s.heap| <= |s'.heap|
      && (forall n :: 0 <= n < |s.heap| && s.heap[n].Node? ==> s'.heap[n].Node? && s'.heap[n].off == s.heap[n].off)
      && s'.losses == s.losses && s'.wins == s.wins && |s'.threads| == |s.threads|
      && (forall t :: 0 <= t < |s.threads| && t != a.t ==> s'.threads[t] == s.threads[t])
  {
    if a.t < |s.threads| {
      assert ThreadOk(s, s.threads[a.t]);
    }
  }

  lemma QuietSnapshot<V>(s: Store<V>, a: Action<V>)
    requires Inv(s) && Inv(Step(s, a)) && !IsCas(s, a) && a.t < |s.threads| && |Step(s, a).threads| == |s.threads|
    requires Stale(Step(s, a), a.t)
    ensures Stale(s, a.t)
  {
    assert ThreadOk(s, s.threads[a.t]);
  }

  // So it makes nobody's snapshot stale.
  lemma QuietStep<V>(s: Store<V>, a: Action<V>)
    requires Inv(s) && Inv(Step(s, a)) && !IsCas(s, a)
    ensures StaleSet(Step(s, a)) <= StaleSet(s)
    ensures Step(s, a).losses == s.losses && Step(s, a).wins == s.wins
    ensures |Step(s, a).threads| == |s.threads|
  {
    hide Step, AllApart, ClaimOk;
    var s' := Step(s, a);
    QuietMemory(s, a);
    forall t: nat | t < |s'.threads| && Stale(s', t) ensures Stale(s, t) {
      assert ThreadOk(s, s.threads[t]);
      if t == a.t {
        QuietSnapshot(s, a);
      }
    }
  }

  // A compare-and-swap fails exactly when the snapshot is stale; a winner is not stale.
  lemma CasStep<V>(s: Store<V>, a: Action<V>)
    requires Inv(s) && Inv(Step(s, a)) && IsCas(s, a)
    ensures var s' := Step(s, a);
      && |s'.threads| == |s.threads|
      && !Stale(s', a.t)
      && (Stale(s, a.t) ==> s'.losses == s.losses + 1 && s'.wins == s.wins
                            && StaleSet(s') == StaleSet(s) - {a.t})
      && (!Stale(s, a.t) ==> s'.losses == s.losses && s'.wins == s.wins + 1)
  {
  }

  lemma OneMoreWin(others: nat, wins: nat, losses: nat, stale: nat, stale': nat)
    requires losses + stale <= others * wins && stale' <= others
    ensures losses + stale' <= others * (wins + 1)
  {
  }

  // A loss is paid by the stale snapshot it consumes; a win buys T - 1 stale snapshots.
  lemma Pay<V>(s: Store<V>, s': Store<V>, t: nat)
    requires Inv(s) && Inv(s') && Charged(s) && |s'.threads| == |s.threads|
    requires
      || (s'.wins == s.wins && s'.losses == s.losses && StaleSet(s') <= StaleSet(s))
      || (s'.wins == s.wins && s'.losses == s.losses + 1 && t in StaleSet(s) && StaleSet(s') == StaleSet(s) - {t})
      || (s'.wins == s.wins + 1 && s'.losses == s.losses && t < |s.threads| && t !in StaleSet(s'))
    ensures Charged(s')
  {
    if s'.wins == s.wins {
      SubsetCount(StaleSet(s'), StaleSet(s));
    } else {
      OthersCount(|s.threads|, StaleSet(s'), t);
      OneMoreWin(|s.threads| - 1, s.wins, s.losses, |StaleSet(s)|, |StaleSet(s')|);
    }
  }

  lemma StepKeepsCharged<V>(s: Store<V>, a: Action<V>)
    requires Inv(s) && Charged(s) && Inv(Step(s, a))
    ensures Charged(Step(s, a)) && |Step(s, a).threads| == |s.threads|
  {
    if IsCas(s, a) {
      CasStep(s, a);
    } else {
      QuietStep(s, a);
    }
    Pay(s, Step(s, a), a.t);
  }

  lemma {:induction false} ExecKeepsCharged<V>(s: Store<V>, sched: seq<Action<V>>)
    requires Inv(s) && Charged(s)
    ensures Charged(Exec(s, sched)) && |Exec(s, sched).threads| == |s.threads|
    decreases |sched|
  {
    if sched == [] {
    } else {
      StepKeepsInv(s, sched[0]);
      StepKeepsCharged(s, sched[0]);
      ExecKeepsCharged(Step(s, sched[0]), sched[1..]);
    }
  }

  /** Lock-freedom with a count: in any run prefix of T goroutines, failed
      compare-and-swaps number at most (T - 1) times the successful ones. */
  lemma {:induction false} FailuresArePaidFor<V>(zero: V, goroutines: nat, sched: seq<Action<V>>)
    requires goroutines > 0
    ensures var s := Exec(NewStore(zero, goroutines), sched);
            s.losses <= (goroutines - 1) * s.wins
  {
    var s := NewStore(zero, goroutines);
    assert StaleSet(s) == {};
    ExecKeepsCharged(s, sched);
  }

  // ------------------------------------------------------ a call alone returns

  // How far the call of goroutine t has come, `before` being the history it started from.
  ghost predicate Under<V>(before: seq<Claim<V>>, items: seq<V>, s: Store<V>, t: nat) {
    && t < |s.threads|
    && match s.threads[t]
       case Idle => |s.log| == |before| + 1 && s.log[..|before|] == before
                    && s.log[|before|].items == items && s.log[|before|].handedOut
       case Writing(its, at, _, c) => its == items && c == |before| && s.log == before + [Claim(at, items, false)]
       case pc => pc.items == items && s.log == before
  }

  // Own steps still needed when nobody else moves.
  ghost function StepsLeft<V>(s: Store<V>, t: nat): nat
    requires Inv(s) && t < |s.threads|
  {
    var again := if Stale(s, t) then 5 else 0;
    match s.threads[t]
    case Idle => 0
    case Writing(items, _, k, _) => if k <= |items| then |items| - k + 1 else 0
    case Claiming(items, _, _) => |items| + 2 + again
    case Swapping(items, _, _) => |items| + 3 + again
    case Growing(items, _) => |items| + 4 + again
    case HaveTail(items, _) => |items| + 5 + again
    case Start(items) => |items| + 6
  }

  lemma OwnStep<V>(before: seq<Claim<V>>, items: seq<V>, s: Store<V>, t: nat)
    requires Inv(s) && Inv(Step(s, Go(t))) && Under(before, items, s, t) && !s.threads[t].Idle?
    ensures Under(before, items, Step(s, Go(t)), t)
    ensures StepsLeft(Step(s, Go(t)), t) < StepsLeft(s, t)
  {
  }

  function Alone<V>(t: nat, n: nat): seq<Action<V>> {
    seq(n, i => Go(t))
  }

  lemma {:induction false} AloneFinishes<V>(before: seq<Claim<V>>, items: seq<V>, s: Store<V>, t: nat, n: nat)
    requires Inv(s) && Under(before, items, s, t) && StepsLeft(s, t) <= n
    ensures var r := Exec(s, Alone(t, n)); Under(before, items, r, t) && r.threads[t].Idle?
    decreases n
  {
    if n > 0 {
      StepKeepsInv(s, Go(t));
      if !s.threads[t].Idle? {
        OwnStep(before, items, s, t);
      }
      AloneFinishes(before, items, Step(s, Go(t)), t, n - 1);
      assert Alone<V>(t, n)[1..] == Alone(t, n - 1);
      assert Alone<V>(t, n)[0] == Go(t);
    }
  }

  /** A call that is left alone returns within |items| + 6 of its own steps, from any
      reachable state, having made exactly one claim, for exactly its own values. */
  lemma CallAloneReturns<V>(s: Store<V>, t: nat, items: seq<V>)
    requires Inv(s) && t < |s.threads| && s.threads[t].Idle?
    ensures var r := Exec(s, [Begin(t, items)] + Alone(t, |items| + 6));
      && t < |r.threads| && r.threads[t].Idle?
      && |r.log| == |s.log| + 1 && r.log[..|s.log|] == s.log
      && r.log[|s.log|].items == items && r.log[|s.log|].handedOut
  {
    var sched := [Begin(t, items)] + Alone(t, |items| + 6);
    StepKeepsInv(s, sched[0]);
    assert sched[1..] == Alone(t, |items| + 6);
    AloneFinishes(s.log, items, Step(s, sched[0]), t, |items| + 6);
  }

  // -------------------------------------------- a store used only through Append

  ghost predicate OnlyAppends<V>(sched: seq<Action<V>>) {
    forall i :: 0 <= i < |sched| && sched[i].Begin? ==> |sched[i].items| == 1
  }

  // Nodes are filled to the last slot before they stop being the tail.
  ghost predicate Packed<V>(s: Store<V>)
    requires Inv(s)
  {
    && (forall t :: 0 <= t < |s.threads| && !s.threads[t].Idle? ==> |s.threads[t].items| == 1)
    && (forall i :: 0 <= i < |s.tails| - 1 ==> Full(s, s.tails[i]))
    && |s.log| == NODE_SIZE * (|s.tails| - 1) + (assert IsTail(s, s.tail); s.heap[s.tail].off)
  }

  ghost predicate Full<V>(s: Store<V>, n: nat) {
    n < |s.heap| && s.heap[n].Node? && s.heap[n].off == NODE_SIZE
  }

  lemma PackedCas<V>(s: Store<V>, t: nat)
    requires Inv(s) && Packed(s) && IsCas(s, Go(t)) && Inv(Step(s, Go(t)))
    ensures Packed(Step(s, Go(t)))
  {
  }

  lemma PackedQuiet<V>(s: Store<V>, a: Action<V>)
    requires Inv(s) && Packed(s) && !IsCas(s, a) && Inv(Step(s, a))
    requires a.Begin? ==> |a.items| == 1
    ensures Packed(Step(s, a))
  {
  }

  lemma StepKeepsPacked<V>(s: Store<V>, a: Action<V>)
    requires Inv(s) && Packed(s) && Inv(Step(s, a))
    requires a.Begin? ==> |a.items| == 1
    ensures Packed(Step(s, a))
  {
    if IsCas(s, a) {
      PackedCas(s, a.t);
    } else {
      PackedQuiet(s, a);
    }
  }

  lemma {:induction false} ExecKeepsPacked<V>(s: Store<V>, sched: seq<Action<V>>)
    requires Inv(s) && Packed(s) && OnlyAppends(sched)
    ensures Packed(Exec(s, sched))
    decreases |sched|
  {
    if sched == [] {
    } else {
      StepKeepsInv(s, sched[0]);
      StepKeepsPacked(s, sched[0]);
      ExecKeepsPacked(Step(s, sched[0]), sched[1..]);
    }
  }

  /** In a store used only through Append every node that stopped being the tail is
      completely full, so the number of claims is known from the tail alone, despite
      racing swaps and discarded candidate nodes. */
  lemma {:induction false} AppendOnlyAccounting<V>(zero: V, goroutines: nat, sched: seq<Action<V>>)
    requires OnlyAppends(sched)
    ensures var s := Exec(NewStore(zero, goroutines), sched);
      && (forall i :: 0 <= i < |s.tails| - 1 ==> Full(s, s.tails[i]))
      && s.tail < |s.heap| && s.heap[s.tail].Node?
      && |s.log| == 1024 * (|s.tails| - 1) + s.heap[s.tail].off
  {
    var s := NewStore(zero, goroutines);
    ExecKeepsPacked(s, sched);
    assert IsTail(Exec(s, sched), Exec(s, sched).tail);
  }
}
