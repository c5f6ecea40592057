/**
  stores/string_store.go: a single-writer bump arena for strings.  A string is a view of
  arena memory; the history of strings handed out, with what each one said, is ghost.
 */
module StringStore {
  import opened Paths
  import NextFit

  const NODE_SIZE: nat := 1024

  // A Go string: a view of bytes.
  datatype Str = Str(buf: array<byte>, lo: nat, len: nat)

  // A string handed out, its text, and the extra bytes claimed behind it.
  datatype Issue = Issue(str: Str, text: seq<byte>, spare: nat)

  ghost predicate Intact(x: Issue)
    reads x.str.buf
  {
    && x.str.lo + x.str.len + x.spare <= x.str.buf.Length
    && x.str.buf[x.str.lo..x.str.lo + x.str.len] == x.text
    && forall i :: x.str.lo + x.str.len <= i < x.str.lo + x.str.len + x.spare ==> x.str.buf[i] == NUL
  }

  ghost predicate Before(x: Issue, s: Str) {
    x.str.buf == s.buf ==> x.str.lo + x.str.len + x.spare <= s.lo
  }

  // b with bytes written over it at p.
  function Splice(b: seq<byte>, p: nat, bytes: seq<byte>): (r: seq<byte>)
    requires p + |bytes| <= |b|
    ensures |r| == |b|
  {
    b[..p] + bytes + b[p + |bytes|..]
  }

  lemma SpliceTwice(b: seq<byte>, p: nat, x: seq<byte>, y: seq<byte>)
    requires p + |x| + |y| <= |b|
    ensures Splice(Splice(b, p, x), p + |x|, y) == Splice(b, p, x + y)
  {
  }

  lemma SpliceReads(b: seq<byte>, p: nat, x: seq<byte>)
    requires p + |x| <= |b|
    ensures Splice(b, p, x)[p..p + |x|] == x
    ensures forall i :: p + |x| <= i < |b| ==> Splice(b, p, x)[i] == b[i]
  {
  }

  class Store {
    var tail: array<byte>
    var off: nat
    ghost var memory: set<array<byte>>   // every buffer ever used
    ghost var issued: seq<Issue>         // every string ever returned, oldest first
    ghost var loads: seq<nat>            // bytes claimed in each node so far, oldest first
    ghost var nodes: seq<array<byte>>      // every node opened, oldest first
    ghost var reqs: seq<nat>             // the claims no larger than a node, oldest first

    ghost predicate Valid()
      reads this, memory
    {
      && Sound() && NextFit.IsPack(NODE_SIZE, loads, reqs)
      && |loads| == |nodes| > 0 && off == loads[|loads| - 1] && tail == nodes[|nodes| - 1]
    }

    // Free bytes of the open node are zero; every string handed out says what it said.
    ghost predicate Sound()
      reads this, memory
    {
      && tail in memory && tail.Length == NODE_SIZE && off <= NODE_SIZE
      && (forall i :: off <= i < NODE_SIZE ==> tail[i] == NUL)
      && (forall k :: 0 <= k < |issued| ==> issued[k].str.buf in memory && Intact(issued[k]))
      && (forall k :: 0 <= k < |issued| && issued[k].str.buf == tail ==> EndOf(issued[k]) <= off)
      && (forall j, k :: 0 <= j < k < |issued| ==> Before(issued[j], issued[k].str))
    }

    static ghost function EndOf(x: Issue): nat {
      x.str.lo + x.str.len + x.spare
    }

    constructor ()
      ensures Valid() && fresh(memory) && issued == [] && reqs == []
    {
      tail := new byte[NODE_SIZE](i => NUL);
      off := 0;
      new;
      memory, nodes, issued, loads, reqs := {tail}, [tail], [], [0], [];
    }

    method OpenNode()
      requires Sound()
      modifies `tail, `off, `memory, `nodes
      ensures Sound() && fresh(tail) && off == 0 && memory == old(memory) + {tail} && nodes == old(nodes) + [tail]
    {
      tail := new byte[NODE_SIZE](i => NUL);
      off := 0;
      memory, nodes := memory + {tail}, nodes + [tail];
    }

    // make([]byte, n)
    method OwnBuffer(n: nat) returns (back: Str)
      requires Valid()
      modifies `memory
      ensures Valid() && fresh(back.buf) && memory == old(memory) + {back.buf}
      ensures back == Str(back.buf, 0, n) && Claimed(back)
      ensures forall i :: 0 <= i < n ==> back.buf[i] == NUL
    {
      hide NextFit.IsPack;
      var own := new byte[n](i => NUL);
      memory := memory + {own};
      back := Str(own, 0, n);
    }

    // Claims n bytes: all zero, and behind everything handed out from the same buffer.
    method EnsureCap(n: nat) returns (back: Str)
      requires Valid()
      modifies this
      ensures Valid() && issued == old(issued) && old(memory) <= memory && fresh(memory - old(memory))
      ensures back.buf == old(tail) || fresh(back.buf)
      ensures tail == old(tail) || fresh(tail)
      ensures back.len == n && Claimed(back)
      ensures reqs == if n > NODE_SIZE then old(reqs) else old(reqs) + [n]
      ensures forall i :: back.lo <= i < back.lo + n ==> back.buf[i] == NUL
    {
      hide NextFit.IsPack;
      if n > NODE_SIZE {
        back := OwnBuffer(n);
        return;
      }
      NextFit.PackGrows(NODE_SIZE, loads, reqs, n);
      loads, reqs := NextFit.Grow(NODE_SIZE, loads, n), reqs + [n];
      if NODE_SIZE - off < n {
        OpenNode();
      }
      back := Advance(n);
    }

    // tail.buf[off : off+n], off += n
    method Advance(n: nat) returns (back: Str)
      requires Sound() && off + n <= NODE_SIZE
      modifies `off
      ensures Sound() && off == old(off) + n && back == Str(tail, old(off), n) && Claimed(back)
      ensures forall i :: back.lo <= i < back.lo + n ==> back.buf[i] == NUL
    {
      back := Str(tail, off, n);
      off := off + n;
    }

    /** The arena is a next-fit packing: neighbouring nodes together hold more than one node,
        k nodes more than floor(k / 2), and no packing of the same claims needs fewer than
        half of them. */
    lemma PackingBounds(bin: seq<nat>, bins: nat)
      requires Valid()
      ensures forall i :: 0 <= i < |loads| - 1 ==> loads[i] + loads[i + 1] > 1024
      ensures NextFit.Sum(loads) == NextFit.Sum(reqs)
      ensures |nodes| >= 2 ==> (|nodes| / 2) * 1024 < NextFit.Sum(reqs)
      ensures bins >= 1 && NextFit.IsPacking(1024, reqs, bin, bins) ==> |nodes| <= 2 * bins
    {
      hide Sound;
      NextFit.ArenaBounds(NODE_SIZE, loads, reqs, bin, bins);
    }

    // A claimed range nobody has been given yet.
    ghost predicate Claimed(back: Str)
      reads this
    {
      && back.buf in memory && back.lo + back.len <= back.buf.Length
      && (back.buf == tail ==> back.lo + back.len <= off)
      && forall k :: 0 <= k < |issued| ==> Before(issued[k], back)
    }

    // copy(back[at:], bytes)
    method CopyInto(back: Str, at: nat, bytes: seq<byte>)
      requires Valid() && Claimed(back) && at + |bytes| <= back.len
      modifies back.buf
      ensures Valid() && back.buf[..] == Splice(old(back.buf[..]), back.lo + at, bytes)
    {
      hide NextFit.IsPack;
      forall i | 0 <= i < |bytes| { back.buf[back.lo + at + i] := bytes[i]; }
      forall k | 0 <= k < |issued| ensures Intact(issued[k]) {
        assert Before(issued[k], back);
      }
      assert back.buf[..] == Splice(old(back.buf[..]), back.lo + at, bytes);
    }

    method HandOut(back: Str, len: nat, ghost text: seq<byte>) returns (s: Str)
      requires Valid() && Claimed(back) && len == |text| <= back.len
      requires back.buf[back.lo..back.lo + len] == text
      requires forall i :: back.lo + len <= i < back.lo + back.len ==> back.buf[i] == NUL
      modifies `issued
      ensures Valid() && s == Str(back.buf, back.lo, len)
      ensures issued == old(issued) + [Issue(s, text, back.len - len)]
    {
      hide NextFit.IsPack;
      s := Str(back.buf, back.lo, len);
      issued := issued + [Issue(s, text, back.len - len)];
    }

    /** What every Store method promises: the new string says text, with spare NUL bytes
        right behind it, and no string handed out before has changed (Valid says what each
        of them holds). */
    twostate predicate Stored(new s: Str, text: seq<byte>, spare: nat)
      requires old(Valid())
      reads this, memory
    {
      && Valid() && old(memory) <= memory && fresh(memory - old(memory))
      && (tail == old(tail) || fresh(tail))
      && issued == old(issued) + [Issue(s, text, spare)] && s.len == |text|
      && reqs == if |text| + spare > NODE_SIZE then old(reqs) else old(reqs) + [|text| + spare]
    }

    // Hands out a claim whose front was filled with text and whose rest is still zero.
    method Finish(back: Str, len: nat, ghost text: seq<byte>, ghost before: seq<byte>) returns (s: Str)
      requires Valid() && Claimed(back) && len == |text| <= back.len && |before| == back.buf.Length
      requires forall i :: back.lo <= i < back.lo + back.len ==> before[i] == NUL
      requires back.buf[..] == Splice(before, back.lo, text)
      modifies `issued
      ensures Valid() && s == Str(back.buf, back.lo, len)
      ensures issued == old(issued) + [Issue(s, text, back.len - len)]
    {
      hide NextFit.IsPack;
      SpliceReads(before, back.lo, text);
      assert back.buf[back.lo..back.lo + len] == back.buf[..][back.lo..back.lo + len];
      assert forall i :: 0 <= i < back.buf.Length ==> back.buf[i] == back.buf[..][i];
      s := HandOut(back, len, text);
    }

    method StoreBytes(text: seq<byte>) returns (s: Str)
      requires Valid()
      modifies this, tail
      ensures Stored(s, text, 0)
    {
      hide Valid, Splice;
      var back := EnsureCap(|text|);
      ghost var before := back.buf[..];
      CopyInto(back, 0, text);
      s := Finish(back, |text|, text, before);
    }

    method StoreStringZ(text: seq<byte>) returns (s: Str)
      requires Valid()
      modifies this, tail
      ensures Stored(s, text, 1)
    {
      hide Valid, Splice;
      var back := EnsureCap(|text| + 1);
      ghost var before := back.buf[..];
      CopyInto(back, 0, text);
      s := Finish(back, |text|, text, before);
    }

    // copy(back[at:], bytes) right behind what the claim already says.
    method CopyBehind(back: Str, at: nat, bytes: seq<byte>, ghost before: seq<byte>, ghost said: seq<byte>)
      requires Valid() && Claimed(back) && at == |said| && at + |bytes| <= back.len && |before| == back.buf.Length
      requires back.buf[..] == Splice(before, back.lo, said)
      modifies back.buf
      ensures Valid() && back.buf[..] == Splice(before, back.lo, said + bytes)
    {
      hide Valid;
      CopyInto(back, at, bytes);
      SpliceTwice(before, back.lo, said, bytes);
    }

    // Joins parent and child in place.
    method JoinInto(back: Str, parent: Path, child: Name)
      requires Valid() && Claimed(back) && |Join(parent, child)| <= back.len
      modifies back.buf
      ensures Valid() && back.buf[..] == Splice(old(back.buf[..]), back.lo, Join(parent, child))
    {
      hide Valid;
      var plen := |parent|;
      var sep := if parent[plen - 1] != SLASH then 1 else 0;
      ghost var before := back.buf[..];
      CopyInto(back, 0, parent);
      if sep == 1 {
        CopyBehind(back, plen, [SLASH], before, parent);
      }
      CopyBehind(back, plen + sep, child, before, Sep(parent));
    }

    // The string in memory is parent and child with one '/' between the two.
    ghost predicate SaysJoined(s: Str, parent: Path, child: Name)
      reads s.buf
    {
      s.lo + s.len <= s.buf.Length && Joined(s.buf[s.lo..s.lo + s.len], parent, child)
    }

    ghost predicate EndsInNul(s: Str)
      reads s.buf
    {
      s.lo + s.len < s.buf.Length && s.buf[s.lo + s.len] == 0
    }

    lemma NewestSays(s: Str, parent: Path, child: Name, spare: nat)
      requires Valid() && issued != [] && issued[|issued| - 1] == Issue(s, Join(parent, child), spare)
      requires s.len == |Join(parent, child)|
      ensures SaysJoined(s, parent, child) && (spare > 0 ==> EndsInNul(s))
    {
      hide NextFit.IsPack;
      assert Intact(issued[|issued| - 1]);
      JoinIsOneWay(Join(parent, child), parent, child);
    }

    method StoreJoined(parent: Path, child: Name, nul: nat) returns (s: Str)
      requires Valid()
      modifies this, tail
      ensures Stored(s, Join(parent, child), nul)
    {
      hide Valid, Splice;
      var sep := if parent[|parent| - 1] != SLASH then 1 else 0;
      var total := |parent| + sep + |child|;
      assert total == |Join(parent, child)|;
      var back := EnsureCap(total + nul);
      ghost var before := back.buf[..];
      JoinInto(back, parent, child);
      s := Finish(back, total, Join(parent, child), before);
    }

    method StorePath(parent: Path, child: Name) returns (s: Str)
      requires Valid()
      modifies this, tail
      ensures Stored(s, Join(parent, child), 0) && SaysJoined(s, parent, child)
    {
      hide Valid, SaysJoined;
      s := StoreJoined(parent, child, 0);
      NewestSays(s, parent, child, 0);
    }

    method StorePathZ(parent: Path, child: Name) returns (s: Str)
      requires Valid()
      modifies this, tail
      ensures Stored(s, Join(parent, child), 1) && SaysJoined(s, parent, child) && EndsInNul(s)
    {
      hide Valid, SaysJoined, EndsInNul;
      s := StoreJoined(parent, child, 1);
      NewestSays(s, parent, child, 1);
    }
  }

  /** NewStringZ: a string of its own, one NUL behind it. */
  method NewStringZ(text: seq<byte>) returns (s: Str)
    ensures fresh(s.buf) && s.lo == 0 && s.len == |text| && s.buf.Length == |text| + 1
    ensures Intact(Issue(s, text, 1)) && s.buf[|text|] == 0
  {
    var buf := new byte[|text| + 1](i requires i >= 0 => if i < |text| then text[i] else NUL);
    s := Str(buf, 0, |text|);
    assert buf[0..|text|] == text;
  }
}
