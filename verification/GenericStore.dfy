/**
  The lock-free append-only arena of stores/generic_store.go, as a step machine.

  Any number of goroutines run Append / AppendSlice against one store.  Each atomic
  operation of the source (load of tail, load of off, either compare-and-swap, the
  allocation of a fresh candidate node, the write of a single slot) is one step, and a
  schedule is an arbitrary list of steps.  Atomics are sequentially consistent.
 */
module GenericStore {

  // Elements held by one node.
  const NODE_SIZE: nat := 1024
  // Offsets are uint64 and wrap.
  const WORD: nat := 0x1_0000_0000_0000_0000

  function Sub64(a: nat, b: nat): nat {
    (a - b) % WORD
  }

  function Add64(a: nat, b: nat): nat {
    (a + b) % WORD
  }

  // A heap object: an arena node, or the private buffer of an oversized request.
  datatype Chunk<V> =
    | Node(off: nat, buf: seq<V>)
    | Own(buf: seq<V>)

  // A Go slice into a heap object.
  datatype Slice = Slice(node: nat, lo: nat, len: nat)

  // History: a range some goroutine obtained, and what it was asked to put there.
  datatype Claim<V> = Claim(at: Slice, items: seq<V>, handedOut: bool)

  // Where a goroutine is inside Append / AppendSlice.
  datatype Pc<V> =
    | Idle
    | Start(items: seq<V>)                            // top of the retry loop
    | HaveTail(items: seq<V>, n: nat)                 // tail loaded
    | Growing(items: seq<V>, n: nat)                  // off loaded: not enough room in n
    | Swapping(items: seq<V>, n: nat, cand: nat)     // candidate node allocated
    | Claiming(items: seq<V>, n: nat, nOff: nat)      // about to CAS n.off from nOff
    | Writing(items: seq<V>, at: Slice, k: nat, c: nat) // range held, k slots written

  datatype Store<V> = Store(
    zero: V,
    heap: seq<Chunk<V>>,
    tail: nat,
    tails: seq<nat>,         // history of the tail pointer, oldest first
    threads: seq<Pc<V>>,
    log: seq<Claim<V>>,      // history of claims, oldest first
    wins: nat,               // successful compare-and-swaps
    losses: nat)             // failed compare-and-swaps

  datatype Action<V> = Begin(t: nat, items: seq<V>) | Go(t: nat)

  // ---------------------------------------------------------------- invariant

  ghost predicate Fits<V>(s: Store<V>, at: Slice) {
    && at.node < |s.heap|
    && at.lo + at.len <= |s.heap[at.node].buf|
    && (s.heap[at.node].Node? ==> at.lo + at.len <= s.heap[at.node].off)
  }

  ghost predicate Disjoint(a: Slice, b: Slice) {
    a.node != b.node || a.lo + a.len <= b.lo || b.lo + b.len <= a.lo
  }

  // What the memory behind a slice holds.
  ghost function Content<V>(s: Store<V>, at: Slice): seq<V>
    requires Fits(s, at)
  {
    s.heap[at.node].buf[at.lo..at.lo + at.len]
  }

  ghost predicate IsTail<V>(s: Store<V>, n: nat) {
    n in s.tails
  }

  ghost predicate HeapOk<V>(s: Store<V>) {
    && (forall n :: 0 <= n < |s.heap| && s.heap[n].Node? ==>
          |s.heap[n].buf| == NODE_SIZE && s.heap[n].off <= NODE_SIZE)
    && |s.tails| > 0 && s.tail == s.tails[|s.tails| - 1]
    && (forall n: nat :: IsTail(s, n) ==> n < |s.heap| && s.heap[n].Node?)
  }

  ghost predicate ThreadOk<V>(s: Store<V>, pc: Pc<V>)
    requires HeapOk(s)
  {
    match pc
    case Idle => true
    case Start(items) => |items| <= NODE_SIZE
    case HaveTail(items, n) => |items| <= NODE_SIZE && IsTail(s, n)
    case Growing(items, n) =>
      |items| <= NODE_SIZE && IsTail(s, n) && s.heap[n].off + |items| > NODE_SIZE
    case Swapping(items, n, cand) =>
      && |items| <= NODE_SIZE && IsTail(s, n) && s.heap[n].off + |items| > NODE_SIZE
      && cand < |s.heap| && s.heap[cand].Node? && s.heap[cand].off == 0
      && !IsTail(s, cand)
    case Claiming(items, n, nOff) => IsTail(s, n) && nOff + |items| <= NODE_SIZE
    case Writing(items, at, k, c) =>
      && c < |s.log| && s.log[c] == Claim(at, items, false)
      && Fits(s, at) && at.len == |items| && k <= |items|
      && s.heap[at.node].buf[at.lo..at.lo + k] == items[..k]
  }

  // No two goroutines hold the same candidate node or the same claim.
  ghost predicate Apart<V>(p: Pc<V>, q: Pc<V>) {
    && (p.Swapping? && q.Swapping? ==> p.cand != q.cand)
    && (p.Writing? && q.Writing? ==> p.c != q.c)
  }

  ghost predicate ClaimOk<V>(s: Store<V>, c: Claim<V>) {
    && Fits(s, c.at)
    && c.at.len == |c.items|
    && (c.handedOut ==> Content(s, c.at) == c.items)
  }

  ghost predicate AllApart<V>(threads: seq<Pc<V>>) {
    forall t, u :: 0 <= t < |threads| && 0 <= u < |threads| && t != u ==> Apart(threads[t], threads[u])
  }

  ghost predicate Inv<V>(s: Store<V>) {
    && HeapOk(s)
    && (forall t :: 0 <= t < |s.threads| ==> ThreadOk(s, s.threads[t]))
    && AllApart(s.threads)
    && (forall c :: 0 <= c < |s.log| ==> ClaimOk(s, s.log[c]))
    && (forall c, d :: 0 <= c < d < |s.log| ==> Disjoint(s.log[c].at, s.log[d].at))
  }

  // --------------------------------------------------------------------- steps

  function FreshNode<V>(zero: V): Chunk<V> {
    Node(0, seq(NODE_SIZE, i => zero))
  }

  function NewStore<V>(zero: V, goroutines: nat): (s: Store<V>)
    ensures Inv(s)
  {
    Store(zero, [FreshNode(zero)], 0, [0], seq(goroutines, i => Idle), [], 0, 0)
  }

  function Goto<V>(s: Store<V>, t: nat, pc: Pc<V>): Store<V>
    requires t < |s.threads|
  {
    s.(threads := s.threads[t := pc])
  }

  // Entry of ensureCap: an oversized request gets its own zeroed buffer.
  function BeginStep<V>(s: Store<V>, t: nat, items: seq<V>): Store<V>
    requires t < |s.threads| && s.threads[t].Idle?
  {
    if |items| > NODE_SIZE then
      var at := Slice(|s.heap|, 0, |items|);
      Goto(s, t, Writing(items, at, 0, |s.log|))
      .(heap := s.heap + [Own(seq(|items|, i => s.zero))], log := s.log + [Claim(at, items, false)])
    else
      Goto(s, t, Start(items))
  }

  function LoadTail<V>(s: Store<V>, t: nat): Store<V>
    requires t < |s.threads| && s.threads[t].Start?
  {
    Goto(s, t, HaveTail(s.threads[t].items, s.tail))
  }

  // Load off and decide, on goroutine-local values, whether the node has room.
  function LoadOff<V>(s: Store<V>, t: nat): Store<V>
    requires Inv(s) && t < |s.threads| && s.threads[t].HaveTail?
  {
    assert ThreadOk(s, s.threads[t]);
    var HaveTail(items, n) := s.threads[t];
    var nOff := s.heap[n].off;
    if Sub64(NODE_SIZE, nOff) < |items|
    then Goto(s, t, Growing(items, n))
    else Goto(s, t, Claiming(items, n, nOff))
  }

  function Allocate<V>(s: Store<V>, t: nat): Store<V>
    requires t < |s.threads| && s.threads[t].Growing?
  {
    var Growing(items, n) := s.threads[t];
    Goto(s, t, Swapping(items, n, |s.heap|)).(heap := s.heap + [FreshNode(s.zero)])
  }

  // CAS on tail.  A loser drops its candidate and starts over.
  function SwapTail<V>(s: Store<V>, t: nat): Store<V>
    requires t < |s.threads| && s.threads[t].Swapping?
  {
    var Swapping(items, n, cand) := s.threads[t];
    if s.tail == n then
      Goto(s, t, Claiming(items, cand, 0))
      .(tail := cand, tails := s.tails + [cand], wins := s.wins + 1)
    else
      Goto(s, t, Start(items)).(losses := s.losses + 1)
  }

  // CAS on n.off; n need not be the tail any more.
  function ClaimRange<V>(s: Store<V>, t: nat): Store<V>
    requires Inv(s) && t < |s.threads| && s.threads[t].Claiming?
  {
    assert ThreadOk(s, s.threads[t]);
    var Claiming(items, n, nOff) := s.threads[t];
    if s.heap[n].off == nOff then
      var at := Slice(n, nOff, |items|);
      Goto(s, t, Writing(items, at, 0, |s.log|))
      .(heap := s.heap[n := s.heap[n].(off := Add64(nOff, |items|))],
        log := s.log + [Claim(at, items, false)],
        wins := s.wins + 1)
    else
      Goto(s, t, Start(items)).(losses := s.losses + 1)
  }

  // One element of the copy into the claimed range.
  function WriteSlot<V>(s: Store<V>, t: nat): Store<V>
    requires Inv(s) && t < |s.threads| && s.threads[t].Writing?
    requires s.threads[t].k < |s.threads[t].items|
  {
    assert ThreadOk(s, s.threads[t]);
    var Writing(items, at, k, c) := s.threads[t];
    var chunk := s.heap[at.node];
    Goto(s, t, Writing(items, at, k + 1, c))
    .(heap := s.heap[at.node := chunk.(buf := chunk.buf[at.lo + k := items[k]])])
  }

  // The whole range is written: return the pointer (Append) or slice (AppendSlice).
  function HandOut<V>(s: Store<V>, t: nat): Store<V>
    requires Inv(s) && t < |s.threads| && s.threads[t].Writing?
  {
    assert ThreadOk(s, s.threads[t]);
    var c := s.threads[t].c;
    Goto(s, t, Idle).(log := s.log[c := s.log[c].(handedOut := true)])
  }

  // A step that is not possible in s leaves s unchanged.
  function Step<V>(s: Store<V>, a: Action<V>): Store<V>
    requires Inv(s)
  {
    if a.t >= |s.threads| then s else
    match a
    case Begin(t, items) => if s.threads[t].Idle? then BeginStep(s, t, items) else s
    case Go(t) =>
      match s.threads[t]
      case Idle => s
      case Start(_) => LoadTail(s, t)
      case HaveTail(_, _) => LoadOff(s, t)
      case Growing(_, _) => Allocate(s, t)
      case Swapping(_, _, _) => SwapTail(s, t)
      case Claiming(_, _, _) => ClaimRange(s, t)
      case Writing(items, _, k, _) => if k < |items| then WriteSlot(s, t) else HandOut(s, t)
  }

  // ------------------------------------------------- every step keeps the invariant

  lemma NoWrap<V>(s: Store<V>, n: nat, want: nat)
    requires HeapOk(s) && IsTail(s, n) && want <= NODE_SIZE
    ensures Sub64(NODE_SIZE, s.heap[n].off) == NODE_SIZE - s.heap[n].off
    ensures s.heap[n].off + want <= NODE_SIZE ==> Add64(s.heap[n].off, want) == s.heap[n].off + want
  {
  }

  // The heap and the claim history grew at the end, nothing else moved.
  ghost predicate Extends<V>(s: Store<V>, s': Store<V>) {
    && s'.tail == s.tail && s'.tails == s.tails
    && |s.heap| <= |s'.heap| && s'.heap[..|s.heap|] == s.heap
    && |s.log| <= |s'.log| && s'.log[..|s.log|] == s.log
  }

  lemma ExtendsKeeps<V>(s: Store<V>, s': Store<V>)
    requires HeapOk(s) && HeapOk(s') && Extends(s, s')
    ensures forall pc: Pc<V> :: ThreadOk(s, pc) ==> ThreadOk(s', pc)
    ensures forall c: Claim<V> :: ClaimOk(s, c) ==> ClaimOk(s', c)
  {
  }

  lemma GotoApart<V>(threads: seq<Pc<V>>, t: nat, pc: Pc<V>)
    requires AllApart(threads) && t < |threads|
    requires forall u :: 0 <= u < |threads| && u != t ==> Apart(pc, threads[u])
    ensures AllApart(threads[t := pc])
  {
  }

  // A new claim number or a new heap object is one nobody holds.
  lemma NewIsApart<V>(s: Store<V>)
    requires Inv(s)
    ensures forall u, items, at, k :: 0 <= u < |s.threads| ==> Apart(Writing(items, at, k, |s.log|), s.threads[u])
    ensures forall u, items, n :: 0 <= u < |s.threads| ==> Apart(Swapping(items, n, |s.heap|), s.threads[u])
  {
  }

  lemma BeginKeepsInv<V>(s: Store<V>, t: nat, items: seq<V>)
    requires Inv(s) && t < |s.threads| && s.threads[t].Idle?
    ensures Inv(BeginStep(s, t, items))
  {
    var s' := BeginStep(s, t, items);
    assert forall n: nat :: IsTail(s', n) <==> IsTail(s, n);
    assert HeapOk(s');
    ExtendsKeeps(s, s');
    assert |items| > NODE_SIZE ==> s'.heap[|s.heap|].buf[0..0] == items[..0];
    NewIsApart(s);
    GotoApart(s.threads, t, s'.threads[t]);
    forall c, d | 0 <= c < d < |s'.log| ensures Disjoint(s'.log[c].at, s'.log[d].at) {
      assert ClaimOk(s, s.log[c]);
    }
  }

  lemma LoadKeepsInv<V>(s: Store<V>, t: nat)
    requires Inv(s) && t < |s.threads| && (s.threads[t].Start? || s.threads[t].HaveTail?)
    ensures s.threads[t].Start? ==> Inv(LoadTail(s, t))
    ensures s.threads[t].HaveTail? ==> Inv(LoadOff(s, t))
  {
    assert ThreadOk(s, s.threads[t]);
    if s.threads[t].HaveTail? {
      NoWrap(s, s.threads[t].n, |s.threads[t].items|);
    }
    var s' := if s.threads[t].Start? then LoadTail(s, t) else LoadOff(s, t);
    assert ThreadOk(s, s'.threads[t]) by {
      assert IsTail(s, s.tail);
    }
    assert HeapOk(s') by {
      assert forall n: nat :: IsTail(s', n) <==> IsTail(s, n);
    }
    ExtendsKeeps(s, s');
    GotoApart(s.threads, t, s'.threads[t]);
  }

  lemma AllocateKeepsInv<V>(s: Store<V>, t: nat)
    requires Inv(s) && t < |s.threads| && s.threads[t].Growing?
    ensures Inv(Allocate(s, t))
  {
    assert ThreadOk(s, s.threads[t]);
    var s' := Allocate(s, t);
    assert forall n: nat :: IsTail(s', n) <==> IsTail(s, n);
    ExtendsKeeps(s, s');
    NewIsApart(s);
    GotoApart(s.threads, t, s'.threads[t]);
  }

  lemma SwapKeepsInv<V>(s: Store<V>, t: nat)
    requires Inv(s) && t < |s.threads| && s.threads[t].Swapping?
    ensures Inv(SwapTail(s, t))
  {
    assert ThreadOk(s, s.threads[t]);
    var s' := SwapTail(s, t);
    var cand := s.threads[t].cand;
    assert forall n: nat :: IsTail(s', n) <==> IsTail(s, n) || (s.tail == s.threads[t].n && n == cand);
    forall u | 0 <= u < |s'.threads| ensures ThreadOk(s', s'.threads[u]) {
      assert ThreadOk(s, s.threads[u]);
      assert u != t ==> Apart(s.threads[t], s.threads[u]);
    }
    forall c | 0 <= c < |s.log| ensures ClaimOk(s', s'.log[c]) {
      assert ClaimOk(s, s.log[c]);
    }
    GotoApart(s.threads, t, s'.threads[t]);
  }

  // The winning claim: everybody else keeps what they knew.
  lemma ClaimKeepsOthers<V>(s: Store<V>, t: nat)
    requires Inv(s) && t < |s.threads| && s.threads[t].Claiming?
    requires HeapOk(ClaimRange(s, t))
    ensures forall u :: 0 <= u < |s.threads| && u != t ==> ThreadOk(ClaimRange(s, t), s.threads[u])
    ensures forall c :: 0 <= c < |s.log| ==> ClaimOk(ClaimRange(s, t), s.log[c])
  {
  }

  lemma ClaimKeepsInv<V>(s: Store<V>, t: nat)
    requires Inv(s) && t < |s.threads| && s.threads[t].Claiming?
    ensures Inv(ClaimRange(s, t))
  {
    assert ThreadOk(s, s.threads[t]);
    var Claiming(items, n, nOff) := s.threads[t];
    NoWrap(s, n, |items|);
    var s' := ClaimRange(s, t);
    assert HeapOk(s') by {
      assert forall m: nat :: IsTail(s', m) <==> IsTail(s, m);
    }
    assert ThreadOk(s', s'.threads[t]) by {
      assert IsTail(s', n) <==> IsTail(s, n);
    }
    ClaimKeepsOthers(s, t);
    NewIsApart(s);
    GotoApart(s.threads, t, s'.threads[t]);
    forall c | 0 <= c < |s.log| ensures ClaimOk(s', s'.log[c]) {
      assert ClaimOk(s', s.log[c]);
    }
    forall c, d | 0 <= c < d < |s'.log| ensures Disjoint(s'.log[c].at, s'.log[d].at) {
      assert ClaimOk(s, s.log[c]);
    }
  }

  // A write inside one claim touches no prefix of a disjoint one.
  lemma WriteElsewherePrefix<V>(s: Store<V>, s': Store<V>, at: Slice, k: nat, other: Slice, k': nat, v: V)
    requires Fits(s, at) && Fits(s, other) && k < at.len && Disjoint(at, other) && k' <= other.len
    requires s'.heap == s.heap[at.node := s.heap[at.node].(buf := s.heap[at.node].buf[at.lo + k := v])]
    ensures Fits(s', other)
    ensures s'.heap[other.node].buf[other.lo..other.lo + k'] == s.heap[other.node].buf[other.lo..other.lo + k']
  {
    var b, b' := s.heap[other.node].buf, s'.heap[other.node].buf;
    assert |b'| == |b| && forall i :: other.lo <= i < other.lo + k' ==> b'[i] == b[i];
    assert b'[other.lo..other.lo + k'] == b[other.lo..other.lo + k'];
  }

  // In particular it does not change what a disjoint claim holds.
  lemma WriteElsewhere<V>(s: Store<V>, s': Store<V>, at: Slice, k: nat, other: Slice, v: V)
    requires Fits(s, at) && Fits(s, other) && k < at.len && Disjoint(at, other)
    requires s'.heap == s.heap[at.node := s.heap[at.node].(buf := s.heap[at.node].buf[at.lo + k := v])]
    ensures Fits(s', other) && Content(s', other) == Content(s, other)
  {
  }

  // The writer itself is one slot further.
  lemma WriteKeepsWriter<V>(s: Store<V>, t: nat)
    requires Inv(s) && t < |s.threads| && s.threads[t].Writing?
    requires s.threads[t].k < |s.threads[t].items|
    requires HeapOk(WriteSlot(s, t))
    ensures ThreadOk(WriteSlot(s, t), WriteSlot(s, t).threads[t])
  {
    assert ThreadOk(s, s.threads[t]);
    var Writing(items, at, k, c) := s.threads[t];
    var s' := WriteSlot(s, t);
    assert s'.heap[at.node].buf[at.lo..at.lo + k + 1] == s.heap[at.node].buf[at.lo..at.lo + k] + [items[k]];
  }

  // Another writer has another range.
  lemma WriteKeepsOtherWriter<V>(s: Store<V>, t: nat, u: nat)
    requires Inv(s) && t < |s.threads| && s.threads[t].Writing? && u < |s.threads| && u != t && s.threads[u].Writing?
    requires s.threads[t].k < |s.threads[t].items|
    requires HeapOk(WriteSlot(s, t))
    ensures ThreadOk(WriteSlot(s, t), WriteSlot(s, t).threads[u])
  {
    assert ThreadOk(s, s.threads[t]) && ThreadOk(s, s.threads[u]);
    var Writing(items, at, k, c) := s.threads[t];
    assert Apart(s.threads[t], s.threads[u]);
    assert Disjoint(s.log[c].at, s.log[s.threads[u].c].at);
    WriteElsewherePrefix(s, WriteSlot(s, t), at, k, s.threads[u].at, s.threads[u].k, items[k]);
  }

  lemma WriteKeepsThread<V>(s: Store<V>, t: nat, u: nat)
    requires Inv(s) && t < |s.threads| && s.threads[t].Writing? && u < |s.threads|
    requires s.threads[t].k < |s.threads[t].items|
    requires HeapOk(WriteSlot(s, t))
    ensures ThreadOk(WriteSlot(s, t), WriteSlot(s, t).threads[u])
  {
    if u == t {
      WriteKeepsWriter(s, t);
    } else if s.threads[u].Writing? {
      WriteKeepsOtherWriter(s, t, u);
    } else {
      assert ThreadOk(s, s.threads[t]) && ThreadOk(s, s.threads[u]);
      assert forall m: nat :: IsTail(WriteSlot(s, t), m) <==> IsTail(s, m);
    }
  }

  lemma WriteKeepsInv<V>(s: Store<V>, t: nat)
    requires Inv(s) && t < |s.threads| && s.threads[t].Writing?
    requires s.threads[t].k < |s.threads[t].items|
    ensures Inv(WriteSlot(s, t))
  {
    assert ThreadOk(s, s.threads[t]);
    var Writing(items, at, k, c) := s.threads[t];
    var s' := WriteSlot(s, t);
    assert forall m: nat :: IsTail(s', m) <==> IsTail(s, m);
    assert HeapOk(s');
    forall d | 0 <= d < |s.log| ensures ClaimOk(s', s'.log[d]) {
      assert ClaimOk(s, s.log[d]);
      if d != c {
        assert Disjoint(s.log[c].at, s.log[d].at);
        WriteElsewhere(s, s', at, k, s.log[d].at, items[k]);
      }
    }
    forall u | 0 <= u < |s'.threads| ensures ThreadOk(s', s'.threads[u]) {
      WriteKeepsThread(s, t, u);
    }
    GotoApart(s.threads, t, s'.threads[t]);
  }

  lemma HandOutKeepsInv<V>(s: Store<V>, t: nat)
    requires Inv(s) && t < |s.threads| && s.threads[t].Writing?
    requires s.threads[t].k == |s.threads[t].items|
    ensures Inv(HandOut(s, t))
  {
    assert ThreadOk(s, s.threads[t]);
    var Writing(items, at, k, c) := s.threads[t];
    var s' := HandOut(s, t);
    assert forall m: nat :: IsTail(s', m) <==> IsTail(s, m);
    forall d | 0 <= d < |s.log| ensures ClaimOk(s', s'.log[d]) {
      assert ClaimOk(s, s.log[d]);
      assert items[..k] == items;
    }
    forall u | 0 <= u < |s'.threads| ensures ThreadOk(s', s'.threads[u]) {
      assert ThreadOk(s, s.threads[u]);
      assert u != t ==> Apart(s.threads[t], s.threads[u]);
    }
    GotoApart(s.threads, t, s'.threads[t]);
  }

  lemma StepKeepsInv<V>(s: Store<V>, a: Action<V>)
    requires Inv(s)
    ensures Inv(Step(s, a))
  {
    assert a.t < |s.threads| ==> ThreadOk(s, s.threads[a.t]);
    if a.t < |s.threads| {
      var pc := s.threads[a.t];
      if a.Begin? && pc.Idle? {
        BeginKeepsInv(s, a.t, a.items);
      } else if a.Go? {
        match pc
        case Idle =>
        case Start(_) => LoadKeepsInv(s, a.t);
        case HaveTail(_, _) => LoadKeepsInv(s, a.t);
        case Growing(_, _) => AllocateKeepsInv(s, a.t);
        case Swapping(_, _, _) => SwapKeepsInv(s, a.t);
        case Claiming(_, _, _) => ClaimKeepsInv(s, a.t);
        case Writing(items, _, k, _) => if k < |items| { WriteKeepsInv(s, a.t); } else { HandOutKeepsInv(s, a.t); }
      }
    }
  }

  // Run a schedule.
  ghost function Exec<V>(s: Store<V>, sched: seq<Action<V>>): (r: Store<V>)
    requires Inv(s)
    ensures Inv(r)
    decreases |sched|
  {
    if sched == [] then s else
    StepKeepsInv(s, sched[0]);
    Exec(Step(s, sched[0]), sched[1..])
  }
}
