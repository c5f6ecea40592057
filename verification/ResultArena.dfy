/**
  result_arena.go: where published batches live.  Entries go into a bump arena, errors
  into one log that grows by reallocation.  The history of slices handed out, with their
  contents, is ghost; validity says that every one of them still holds what it held.
 */
module ResultArena {
  import opened Walk
  import NextFit

  const ENTRY_NODE_SIZE: nat := 256
  const MIN_DIR_ERRS: nat := 4

  // A Go slice of memory that is never written through it.
  datatype Slice<T> = Nil | Slice(buf: array<T>, lo: nat, hi: nat)

  datatype Issue<T> = Issue(s: Slice<T>, content: seq<T>)

  ghost predicate InBounds<T>(s: Slice<T>) {
    s.Slice? ==> s.lo <= s.hi <= s.buf.Length
  }

  ghost predicate Intact<T>(x: Issue<T>)
    reads if x.s.Slice? then {x.s.buf} else {}
  {
    InBounds(x.s) && x.content == if x.s.Slice? then x.s.buf[x.s.lo..x.s.hi] else []
  }

  // y was issued after x and shares no memory with it.
  ghost predicate Behind<T>(x: Issue<T>, y: Issue<T>) {
    x.s.Slice? && y.s.Slice? && x.s.buf == y.s.buf ==> x.s.hi <= y.s.lo
  }

  class EntryArena {
    var tail: array<Entry>
    var off: nat
    ghost var memory: set<array<Entry>>
    ghost var issued: seq<Issue<Entry>>
    ghost var loads: seq<nat>              // entries stored in each node so far, oldest first
    ghost var nodes: seq<array<Entry>>       // every node opened, oldest first
    ghost var reqs: seq<nat>               // the listings no larger than a node, oldest first

    ghost predicate Valid()
      reads this, memory
    {
      && Sound() && NextFit.IsPack(ENTRY_NODE_SIZE, loads, reqs)
      && |loads| == |nodes| > 0 && off == loads[|loads| - 1] && tail == nodes[|nodes| - 1]
    }

    // Every slice handed out still holds what it held, and no two share memory.
    ghost predicate Sound()
      reads this, memory
    {
      && tail in memory && tail.Length == ENTRY_NODE_SIZE && off <= ENTRY_NODE_SIZE
      && (forall k :: 0 <= k < |issued| ==> issued[k].s.Slice? ==> issued[k].s.buf in memory)
      && (forall k :: 0 <= k < |issued| ==> Intact(issued[k]))
      && (forall k :: 0 <= k < |issued| && issued[k].s.Slice? && issued[k].s.buf == tail ==> issued[k].s.hi <= off)
      && (forall j, k :: 0 <= j < k < |issued| ==> Behind(issued[j], issued[k]))
    }

    constructor ()
      ensures Valid() && fresh(memory) && issued == [] && reqs == []
    {
      tail := new Entry[ENTRY_NODE_SIZE];
      off := 0;
      new;
      memory, nodes, issued, loads, reqs := {tail}, [tail], [], [0], [];
    }

    /** The stored slice holds exactly the n items, in memory of its own; all slices stored
        before keep their contents (Valid), and the caller may reuse items. */
    method StoreEntries(items: array<Entry>, n: nat) returns (s: Slice<Entry>)
      requires Valid() && n <= items.Length && items !in memory
      modifies this, tail
      ensures Valid() && old(memory) <= memory && fresh(memory - old(memory))
      ensures issued == old(issued) + [Issue(s, items[..n])]
      ensures s.Nil? <==> n == 0
      ensures tail == old(tail) || fresh(tail)
      ensures reqs == if n == 0 || n > ENTRY_NODE_SIZE then old(reqs) else old(reqs) + [n]
    {
      hide NextFit.IsPack;
      if n == 0 {
        s := Nil;
        issued := issued + [Issue(s, items[..n])];
      } else if n > ENTRY_NODE_SIZE {
        s := StoreAlone(items, n);
      } else {
        NextFit.PackGrows(ENTRY_NODE_SIZE, loads, reqs, n);
        loads, reqs := NextFit.Grow(ENTRY_NODE_SIZE, loads, n), reqs + [n];
        if ENTRY_NODE_SIZE - off < n {
          OpenNode();
        }
        s := StoreInNode(items, n);
      }
    }

    /** The arena is a next-fit packing of the listings, with the same bounds. */
    lemma PackingBounds(bin: seq<nat>, bins: nat)
      requires Valid()
      ensures forall i :: 0 <= i < |loads| - 1 ==> loads[i] + loads[i + 1] > 256
      ensures NextFit.Sum(loads) == NextFit.Sum(reqs)
      ensures |nodes| >= 2 ==> (|nodes| / 2) * 256 < NextFit.Sum(reqs)
      ensures bins >= 1 && NextFit.IsPacking(256, reqs, bin, bins) ==> |nodes| <= 2 * bins
    {
      hide Sound;
      NextFit.ArenaBounds(ENTRY_NODE_SIZE, loads, reqs, bin, bins);
    }

    // make + copy: an allocation of its own.
    method StoreAlone(items: array<Entry>, n: nat) returns (s: Slice<Entry>)
      requires Valid() && n <= items.Length
      modifies `memory, `issued
      ensures Valid() && s.Slice? && fresh(s.buf) && memory == old(memory) + {s.buf}
      ensures issued == old(issued) + [Issue(s, items[..n])]
    {
      hide NextFit.IsPack;
      var dst := new Entry[n](i requires 0 <= i < n reads items => items[i]);
      memory := memory + {dst};
      s := Slice(dst, 0, n);
      assert dst[0..n] == items[..n];
      issued := issued + [Issue(s, items[..n])];
    }

    method StoreInNode(items: array<Entry>, n: nat) returns (s: Slice<Entry>)
      requires Sound() && n <= items.Length && items !in memory && off + n <= ENTRY_NODE_SIZE
      modifies `off, `issued, tail
      ensures Sound() && s.Slice? && off == old(off) + n
      ensures issued == old(issued) + [Issue(s, items[..n])]
    {
      Copy(items, n);
      s := Slice(tail, off, off + n);
      off := off + n;
      issued := issued + [Issue(s, items[..n])];
    }

    method OpenNode()
      requires Sound()
      modifies `tail, `off, `memory, `nodes
      ensures Sound() && fresh(tail) && off == 0 && memory == old(memory) + {tail} && nodes == old(nodes) + [tail]
    {
      tail := new Entry[ENTRY_NODE_SIZE];
      off := 0;
      memory, nodes := memory + {tail}, nodes + [tail];
    }

    // copy(tail[off:], items[:n])
    method Copy(items: array<Entry>, n: nat)
      requires Sound() && n <= items.Length && items !in memory && off + n <= ENTRY_NODE_SIZE
      modifies tail
      ensures Sound() && tail[off..off + n] == items[..n]
    {
      forall i | 0 <= i < n { tail[off + i] := items[i]; }
      forall k | 0 <= k < |issued| ensures Intact(issued[k]) {}
    }
  }

  class ErrLog {
    var dirErrs: array<DirErr>
    var len: nat
    ghost var log: seq<DirErr>             // every error ever stored
    ghost var memory: set<array<DirErr>>
    ghost var issued: seq<Issue<DirErr>>
    ghost var sliced: nat                  // errors that belong to a slice already handed out

    ghost predicate Valid()
      reads this, memory
    {
      && dirErrs in memory && 0 < dirErrs.Length && sliced <= len <= dirErrs.Length
      && log == dirErrs[..len]
      && (forall k :: 0 <= k < |issued| ==> issued[k].s.Slice? && issued[k].s.buf in memory)
      && (forall k :: 0 <= k < |issued| ==> Intact(issued[k]))
      && (forall k :: 0 <= k < |issued| && issued[k].s.buf == dirErrs ==> issued[k].s.hi <= sliced)
      && (forall j, k :: 0 <= j < k < |issued| ==> Behind(issued[j], issued[k]))
    }

    constructor (capacity: int)
      ensures Valid() && fresh(memory) && issued == [] && log == []
    {
      dirErrs := new DirErr[if capacity <= 0 then MIN_DIR_ERRS else capacity];
      len := 0;
      new;
      log, memory, issued, sliced := [], {dirErrs}, [], 0;
    }

    // A slice literal holding one error.
    method OneErr(e: DirErr) returns (s: Slice<DirErr>)
      requires Valid()
      modifies `memory, `issued
      ensures Valid() && old(memory) <= memory && fresh(memory - old(memory)) && log == old(log)
      ensures s.Slice? && issued == old(issued) + [Issue(s, [e])]
    {
      var own := new DirErr[1](i => e);
      memory := memory + {own};
      s := Slice(own, 0, 1);
      assert own[0..1] == [e];
      issued := issued + [Issue(s, [e])];
    }

    method GetDirErrMark() returns (mark: nat)
      requires Valid()
      ensures mark == len == |log| && sliced <= mark
    {
      mark := len;
    }

    // slices.Grow(dirErrs, len): a bigger array with the same errors in front.
    method Grow()
      requires Valid() && len == dirErrs.Length
      modifies `dirErrs, `memory
      ensures Valid() && fresh(dirErrs) && len < dirErrs.Length
      ensures memory == old(memory) + {dirErrs} && log == old(log)
    {
      var bigger := new DirErr[2 * len];
      forall i | 0 <= i < len { bigger[i] := dirErrs[i]; }
      assert bigger[..len] == dirErrs[..len];
      dirErrs := bigger;
      memory := memory + {bigger};
    }

    method StoreDirErr(e: DirErr)
      requires Valid()
      modifies this, dirErrs
      ensures Valid() && log == old(log) + [e] && issued == old(issued) && sliced == old(sliced)
      ensures old(memory) <= memory && fresh(memory - old(memory))
      ensures dirErrs == old(dirErrs) || fresh(dirErrs)
    {
      if len >= dirErrs.Length {
        Grow();
      }
      dirErrs[len] := e;
      len := len + 1;
      log := log + [e];
      forall k | 0 <= k < |issued| ensures Intact(issued[k]) {}
    }

    /** The errors since mark, as a slice nobody will write again. */
    method SliceDirErr(mark: nat) returns (s: Slice<DirErr>)
      requires Valid() && sliced <= mark <= len
      modifies `issued, `sliced
      ensures Valid() && sliced == len && s == Slice(dirErrs, mark, len)
      ensures issued == old(issued) + [Issue(s, log[mark..])]
    {
      s := Slice(dirErrs, mark, len);
      assert dirErrs[mark..len] == log[mark..];
      issued := issued + [Issue(s, log[mark..])];
      sliced := len;
    }
  }
}
