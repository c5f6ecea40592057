/**
  Path strings: the join of StorePath / StorePathZ (stores/string_store.go) and why it
  never builds the same path twice.  Strings are byte sequences.
 */
module Paths {

  type byte = b: int | 0 <= b < 0x100

  const NUL: byte := 0
  const DOT: byte := 46
  const SLASH: byte := 47

  type Name = seq<byte>

  // StorePath indexes the last byte of its parent, so a parent is never empty.
  type Path = p: seq<byte> | p != [] witness [DOT]

  // What the kernel allows as a directory entry's name.
  predicate GoodName(n: Name) {
    n != [] && forall i :: 0 <= i < |n| ==> n[i] != SLASH && n[i] != NUL
  }

  // Index of the first NUL, or the length.
  function FirstNul(bs: seq<byte>): (k: nat)
    ensures k <= |bs|
    ensures (forall i :: 0 <= i < k ==> bs[i] != NUL) && (k < |bs| ==> bs[k] == NUL)
  {
    if bs == [] || bs[0] == NUL then 0 else 1 + FirstNul(bs[1..])
  }

  // What a system call sees of memory that starts like this.
  function CString(bs: seq<byte>): seq<byte> {
    bs[..FirstNul(bs)]
  }

  predicate NulFree(bs: seq<byte>) {
    forall i :: 0 <= i < |bs| ==> bs[i] != NUL
  }

  lemma {:induction false} FirstNulIs(name: seq<byte>, tail: seq<byte>)
    requires (forall i :: 0 <= i < |name| ==> name[i] != NUL) && (tail == [] || tail[0] == NUL)
    ensures FirstNul(name + tail) == |name|
    decreases |name|
  {
    if name == [] {
      assert name + tail == tail;
    } else {
      assert (name + tail)[1..] == name[1..] + tail;
      FirstNulIs(name[1..], tail);
    }
  }

  // Behind the first NUL nothing is seen.
  lemma CStringStops(bs: seq<byte>, more: seq<byte>)
    requires !NulFree(bs) || (more != [] && more[0] == NUL)
    ensures CString(bs + more) == CString(bs)
    ensures CString(bs) == bs <==> NulFree(bs)
    decreases |bs|
  {
    if bs == [] {
      assert bs + more == more;
    } else if bs[0] != NUL {
      var rest := bs[1..];
      assert NulFree(bs) <==> NulFree(rest) by {
        assert bs == [bs[0]] + rest;
      }
      CStringStops(rest, more);
      assert (bs + more)[1..] == rest + more;
      assert CString(bs) == [bs[0]] + CString(rest) && CString(bs + more) == [bs[0]] + CString(rest + more);
    }
  }

  lemma CStringOfNulFree(p: seq<byte>)
    requires NulFree(p)
    ensures CString(p) == p
  {
    CStringStops(p, [NUL]);
  }

  // One reading is enough.
  lemma CStringTwice(bs: seq<byte>)
    ensures NulFree(CString(bs)) && CString(CString(bs)) == CString(bs)
    ensures bs != [] && bs[0] != NUL ==> CString(bs) != [] && CString(bs)[0] == bs[0]
  {
    CStringOfNulFree(CString(bs));
  }

  // parent, ending in exactly the separator the join supplies
  function Sep(parent: Path): (s: Path) {
    if parent[|parent| - 1] == SLASH then parent else parent + [SLASH]
  }

  function Join(parent: Path, child: Name): Path {
    Sep(parent) + child
  }

  // The text is parent, then child, with one '/' between the two: the one the parent ends
  // in, if it does, or else one more byte.
  ghost predicate Joined(text: seq<byte>, parent: Path, child: Name) {
    && parent <= text && |child| < |text|
    && text[|text| - |child|..] == child && text[|text| - |child| - 1] == 47
    && |text| == |parent| + |child| + if parent[|parent| - 1] == 47 then 0 else 1
  }

  // Two separators in a row, the first at i.
  predicate DoubledAt(p: seq<byte>, i: nat) {
    i + 1 < |p| && p[i] == 47 && p[i + 1] == 47
  }

  /** A joined path is spelled in that one way. */
  lemma JoinIsOneWay(text: Path, parent: Path, child: Name)
    ensures text == Join(parent, child) <==> Joined(text, parent, child)
  {
    var j, n := Join(parent, child), |child|;
    assert j[|j| - n..] == child;
    if Joined(text, parent, child) {
      forall i | 0 <= i < |text| ensures text[i] == j[i] {
        assert i < |parent| ==> text[i] == parent[i];
        assert i >= |text| - n ==> text[i] == text[|text| - n..][i - (|text| - n)];
      }
      assert text == j;
    }
  }

  /** Joining doubles no separator: the path has two in a row exactly where its parent has. */
  lemma JoinDoublesNothing(parent: Path, child: Name)
    requires GoodName(child)
    ensures forall i: nat :: DoubledAt(Join(parent, child), i) <==> DoubledAt(parent, i)
  {
    var j, s := Join(parent, child), |Sep(parent)|;
    forall i: nat | i < |j| ensures i < s ==> j[i] == Sep(parent)[i] {}
    forall i: nat | s <= i < |j| ensures j[i] == child[i - s] && j[i] != 47 {}
  }

  function JoinAll(root: Path, names: seq<Name>): Path
    decreases |names|
  {
    if names == [] then root else Join(JoinAll(root, names[..|names| - 1]), names[|names| - 1])
  }

  // Length of the first component.
  function FirstLen(rest: seq<byte>): (k: nat)
    ensures k <= |rest|
    ensures (forall i :: 0 <= i < k ==> rest[i] != SLASH) && (k < |rest| ==> rest[k] == SLASH)
  {
    if rest == [] || rest[0] == SLASH then 0 else
    1 + FirstLen(rest[1..])
  }

  lemma {:induction false} FirstLenIs(rest: seq<byte>, k: nat)
    requires k <= |rest| && (forall i :: 0 <= i < k ==> rest[i] != SLASH) && (k < |rest| ==> rest[k] == SLASH)
    ensures FirstLen(rest) == k
  {
  }

  // d is p itself or lies somewhere below it.
  ghost predicate Under(p: Path, d: Path) {
    d == p || Sep(p) <= d
  }

  // Below a child, the text after the parent starts with exactly the child's name.
  lemma UnderChild(p: Path, n: Name, d: Path)
    requires GoodName(n) && Under(Join(p, n), d)
    ensures Under(p, d) && d != p && |d| >= |Sep(p)| + |n|
    ensures FirstLen(d[|Sep(p)|..]) == |n| && d[|Sep(p)|..][..|n|] == n
  {
    var c, s := Join(p, n), |Sep(p)|;
    assert c[|c| - 1] == n[|n| - 1];
    assert c <= d && (d != c ==> c + [SLASH] <= d);
    assert Sep(p) <= c;
    var rest := d[s..];
    assert |rest| > |n| ==> d[|c|] == (c + [SLASH])[|c|];
    forall i | 0 <= i < |n| ensures rest[i] == n[i] {
      assert rest[i] == d[s + i] == c[s + i];
    }
    FirstLenIs(rest, |n|);
  }

  /** Subtrees of differently named children never share a path. */
  lemma SiblingsApart(p: Path, m: Name, n: Name, d: Path)
    requires GoodName(m) && GoodName(n)
    requires Under(Join(p, m), d) && Under(Join(p, n), d)
    ensures m == n
  {
    UnderChild(p, m, d);
    UnderChild(p, n, d);
  }

  // ------------------------------------------------------- splitting a path again

  // The components of a relative path.
  function Split(rest: seq<byte>): seq<Name>
    decreases |rest|
  {
    if rest == [] then [] else
    var k := FirstLen(rest);
    [rest[..k]] + if k == |rest| then [] else Split(rest[k + 1..])
  }

  lemma {:induction false} SplitAt(rest: seq<byte>, k: nat)
    requires rest != [] && FirstLen(rest) == k
    ensures Split(rest) == [rest[..k]] + if k == |rest| then [] else Split(rest[k + 1..])
  {
    hide FirstLen;
  }

  lemma {:induction false} SplitOne(n: Name)
    requires GoodName(n)
    ensures Split(n) == [n]
  {
    FirstLenIs(n, |n|);
    SplitAt(n, |n|);
    assert n[..|n|] == n;
  }

  lemma {:induction false} SplitSnoc(a: seq<byte>, n: Name)
    requires GoodName(n) && a != [] && a[|a| - 1] != SLASH
    ensures Split(a + [SLASH] + n) == Split(a) + [n]
    decreases |a|
  {
    hide Split;
    var b, k := a + [SLASH] + n, FirstLen(a);
    FirstLenIs(b, k);
    SplitAt(a, k);
    SplitAt(b, k);
    assert b[..k] == a[..k];
    if k == |a| {
      SplitOne(n);
      assert b[k + 1..] == n;
    } else {
      var rest := a[k + 1..];
      assert b[k + 1..] == rest + [SLASH] + n;
      assert rest[|rest| - 1] == a[|a| - 1];
      SplitSnoc(rest, n);
      assert [a[..k]] + (Split(rest) + [n]) == ([a[..k]] + Split(rest)) + [n];
    }
  }

  // The names below root that a path spells.
  function Below(root: Path, path: Path): seq<Name> {
    if Sep(root) <= path then Split(path[|Sep(root)|..]) else []
  }

  lemma {:induction false} JoinAllExtends(root: Path, names: seq<Name>)
    requires names != [] && forall i :: 0 <= i < |names| ==> GoodName(names[i])
    ensures var p := JoinAll(root, names);
      Sep(root) <= p && |p| > |Sep(root)| && p[|p| - 1] != SLASH
    decreases |names|
  {
    var init, last := names[..|names| - 1], names[|names| - 1];
    var p := JoinAll(root, names);
    assert GoodName(last) && p[|p| - 1] == last[|last| - 1];
    if init != [] {
      JoinAllExtends(root, init);
    }
  }

  lemma BelowJoin(root: Path, p: Path, n: Name)
    requires GoodName(n) && Sep(root) <= p && |p| > |Sep(root)| && p[|p| - 1] != SLASH
    ensures Below(root, Join(p, n)) == Below(root, p) + [n]
  {
    var s, q := |Sep(root)|, Join(p, n);
    var a := p[s..];
    assert a[|a| - 1] == p[|p| - 1];
    assert q[s..] == a + [SLASH] + n;
    assert Sep(root) <= q;
    SplitSnoc(a, n);
  }

  lemma BelowJoinRoot(root: Path, n: Name)
    requires GoodName(n)
    ensures Below(root, Join(root, n)) == [n]
  {
    assert Join(root, n)[|Sep(root)|..] == n;
    SplitOne(n);
  }

  /** Path building is injective: the names can be read back from the string. */
  lemma {:induction false} BelowJoinAll(root: Path, names: seq<Name>)
    requires forall i :: 0 <= i < |names| ==> GoodName(names[i])
    ensures Below(root, JoinAll(root, names)) == names
    decreases |names|
  {
    if names == [] {
      assert Sep(root) <= root ==> root[|Sep(root)|..] == [];
    } else {
      var init, last := names[..|names| - 1], names[|names| - 1];
      assert GoodName(last) && names == init + [last];
      if init == [] {
        BelowJoinRoot(root, last);
      } else {
        JoinAllExtends(root, init);
        BelowJoinAll(root, init);
        BelowJoin(root, JoinAll(root, init), last);
      }
    }
  }
}
