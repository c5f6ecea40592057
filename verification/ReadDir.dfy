/**
  readDirRaw (readdir_linux.go): parsing buffers of linux_dirent64 records as they come
  from successive getdents64 calls, and calling back for every name that is wanted.
 */
module ReadDir {
  import opened Chains
  import opened Paths
  import opened Walk

  const NAME_OFFSET: nat := 19

  // ---------------------------------------------------------------- the record layout

  function Pow256(w: nat): nat {
    if w == 0 then 1 else 0x100 * Pow256(w - 1)
  }

  // Little-endian encoding in w bytes, and back.
  function ToLe(n: nat, w: nat): (bs: seq<byte>)
    ensures |bs| == w
  {
    if w == 0 then [] else [n % 0x100] + ToLe(n / 0x100, w - 1)
  }

  function FromLe(bs: seq<byte>): nat {
    if bs == [] then 0 else bs[0] + 0x100 * FromLe(bs[1..])
  }

  lemma {:induction false} LeRoundTrip(n: nat, w: nat)
    requires n < Pow256(w)
    ensures FromLe(ToLe(n, w)) == n
    decreases w
  {
    if w > 0 {
      LeRoundTrip(n / 0x100, w - 1);
      assert ToLe(n, w)[1..] == ToLe(n / 0x100, w - 1);
    }
  }

  // One record.  tail: the terminator and the padding (or nothing at all).
  datatype Rec = Rec(ino: nat, off: seq<byte>, typ: byte, name: Name, tail: seq<byte>)

  function Size(r: Rec): nat {
    NAME_OFFSET + |r.name| + |r.tail|
  }

  ghost predicate RecOk(r: Rec) {
    && r.ino < Pow256(8) && |r.off| == 8 && Size(r) < Pow256(2)
    && (forall i :: 0 <= i < |r.name| ==> r.name[i] != NUL)
    && (r.tail == [] || r.tail[0] == NUL)
  }

  function Encode(r: Rec): (bs: seq<byte>)
    ensures |r.off| == 8 ==> |bs| == Size(r)
  {
    ToLe(r.ino, 8) + r.off + ToLe(Size(r), 2) + [r.typ] + r.name + r.tail
  }

  function EncodeAll(rs: seq<Rec>): seq<byte> {
    if rs == [] then [] else Encode(rs[0]) + EncodeAll(rs[1..])
  }

  // The record r can be read off the front of bs, and more follows it.
  ghost predicate Starts(bs: seq<byte>, r: Rec, more: seq<byte>) {
    && |bs| >= Size(r)
    && FromLe(bs[0..8]) == r.ino && FromLe(bs[16..18]) == Size(r) && bs[18] == r.typ
    && FirstNul(bs[NAME_OFFSET..Size(r)]) == |r.name| && bs[NAME_OFFSET..Size(r)][..|r.name|] == r.name
    && bs[Size(r)..] == more
  }

  /** Parsing inverts the record layout. */
  lemma Decode(bs: seq<byte>, r: Rec, more: seq<byte>)
    requires RecOk(r) && bs == Encode(r) + more
    ensures Starts(bs, r, more)
  {
    var a, b, c := ToLe(r.ino, 8), ToLe(Size(r), 2), r.name + r.tail;
    var head := a + r.off + b + [r.typ];
    assert |head| == NAME_OFFSET && bs == head + (c + more);
    assert bs[..NAME_OFFSET] == head;
    assert bs[0..8] == head[0..8] == a && bs[16..18] == head[16..18] == b && bs[18] == head[18];
    assert bs[NAME_OFFSET..] == c + more;
    assert bs[NAME_OFFSET..Size(r)] == (c + more)[..|c|] == c;
    assert bs[Size(r)..] == (c + more)[|c|..] == more;
    LeRoundTrip(r.ino, 8);
    LeRoundTrip(Size(r), 2);
    FirstNulIs(r.name, r.tail);
  }

  // A number of 32 bits, from its bytes, lowest first.
  function U32(b0: nat, b1: nat, b2: nat, b3: nat): nat {
    b0 + 0x100 * b1 + 0x1_0000 * b2 + 0x100_0000 * b3
  }

  lemma LeTwoBytes(bs: seq<byte>, i: nat)
    requires i + 2 <= |bs|
    ensures FromLe(bs[i..]) == U32(bs[i], bs[i + 1], 0, 0) + 0x1_0000 * FromLe(bs[i + 2..])
  {
    assert bs[i..][1..] == bs[i + 1..] && bs[i + 1..][1..] == bs[i + 2..];
  }

  lemma TwoBytesAt(bs: seq<byte>, i: nat)
    requires i + 2 <= |bs|
    ensures FromLe(bs[i..i + 2]) == U32(bs[i], bs[i + 1], 0, 0)
  {
    var two := bs[i..i + 2];
    LeTwoBytes(two, 0);
    assert two[0..] == two && two[2..] == [];
  }

  lemma {:induction false} InodeBytes(b: seq<byte>)
    requires |b| == 8
    ensures FromLe(b) == U32(b[0], b[1], b[2], b[3]) + 0x1_0000_0000 * U32(b[4], b[5], b[6], b[7])
  {
    hide FromLe;
    LeTwoBytes(b, 0);
    LeTwoBytes(b, 2);
    LeTwoBytes(b, 4);
    LeTwoBytes(b, 6);
    assert FromLe([]) == 0 by { LeRoundTrip(0, 0); }
    assert b[0..] == b && b[8..] == [];
  }

  lemma NameBytes(r: Rec)
    requires RecOk(r)
    ensures Encode(r)[19..] == r.name + r.tail
  {
    hide ToLe, Pow256;
    var head := ToLe(r.ino, 8) + r.off + ToLe(Size(r), 2) + [r.typ];
    assert Encode(r) == head + (r.name + r.tail) && |head| == 19;
  }

  lemma NameAt(b: seq<byte>, name: seq<byte>, tail: seq<byte>)
    requires |b| >= 19 && b[19..] == name + tail && (tail == [] || tail[0] == 0)
    ensures 19 + |name| <= |b| && b[19..19 + |name|] == name && (19 + |name| < |b| ==> b[19 + |name|] == 0)
  {
    assert b[19..19 + |name|] == b[19..][..|name|];
    assert tail != [] ==> b[19 + |name|] == b[19..][|name|];
  }

  /** The record, byte by byte, as the kernel lays it out: the inode in bytes 0 to 7 and the
      length of the record in bytes 16 and 17, lowest byte first, the type in byte 18, the
      name from byte 19 on, up to a NUL or the end. */
  lemma RecordLayout(r: Rec)
    requires RecOk(r)
    ensures var b := Encode(r);
      && |b| == U32(b[16], b[17], 0, 0) && b[18] == r.typ
      && r.ino == U32(b[0], b[1], b[2], b[3]) + 0x1_0000_0000 * U32(b[4], b[5], b[6], b[7])
      && 19 + |r.name| <= |b| && b[19..19 + |r.name|] == r.name
      && (19 + |r.name| < |b| ==> b[19 + |r.name|] == 0)
  {
    hide FromLe, Encode, ToLe, Pow256, U32;
    var b := Encode(r);
    assert b + [] == b;
    Decode(b, r, []);
    InodeBytes(b[0..8]);
    TwoBytesAt(b, 16);
    NameBytes(r);
    NameAt(b, r.name, r.tail);
  }

  // ----------------------------------------------------------------- what is delivered

  // One getdents64 call: an error, or records followed by nothing or by a record of
  // length zero, at which the parser gives up on the buffer.
  datatype Served = Fails(errno: nat) | Records(rs: seq<Rec>, junk: seq<byte>)

  datatype Reply = Errno(errno: nat) | Bytes(data: seq<byte>)

  ghost predicate ServedOk(s: Served) {
    s.Records? ==>
      && (forall i :: 0 <= i < |s.rs| ==> RecOk(s.rs[i]))
      && (s.junk == [] || (|s.junk| >= NAME_OFFSET && FromLe(s.junk[16..18]) == 0))
  }

  function ReplyOf(s: Served): Reply {
    match s
    case Fails(e) => Errno(e)
    case Records(rs, junk) => Bytes(EncodeAll(rs) + junk)
  }

  ghost predicate Speaks(replies: seq<Reply>, served: seq<Served>) {
    |replies| == |served| &&
    forall i :: 0 <= i < |served| ==> ServedOk(served[i]) && replies[i] == ReplyOf(served[i])
  }

  function DirentOf(r: Rec): Dirent {
    Dirent(r.name, r.typ, r.ino)
  }

  function DirentsOf(rs: seq<Rec>): seq<Dirent> {
    seq(|rs|, i requires 0 <= i < |rs| => DirentOf(rs[i]))
  }

  // The callback may refuse; what it answers depends on all it has been given so far.
  type Callback = seq<Dirent> -> Option<nat>

  // Offering records one by one, given what was delivered before.
  function Offer(ds: seq<Dirent>, skip: set<Name>, cb: Callback, done: seq<Dirent>): (seq<Dirent>, Option<nat>)
    decreases |ds|
  {
    if ds == [] then (done, None)
    else if !Wanted(ds[0].name, skip) then Offer(ds[1..], skip, cb, done)
    else if cb(done + [ds[0]]).Some? then (done + [ds[0]], cb(done + [ds[0]]))
    else Offer(ds[1..], skip, cb, done + [ds[0]])
  }

  // Offering the records of successive calls, up to end of file or an error.
  function OfferAll(ss: seq<Served>, skip: set<Name>, cb: Callback, done: seq<Dirent>): (seq<Dirent>, Option<nat>)
    decreases |ss|
  {
    if ss == [] then (done, None) else
    match ss[0]
    case Fails(e) => (done, Some(e))
    case Records(rs, junk) =>
      if rs == [] && junk == [] then (done, None) else
      var (d, err) := Offer(DirentsOf(rs), skip, cb, done);
      if err.Some? then (d, err) else OfferAll(ss[1..], skip, cb, d)
  }

  // What successive calls tell in all, up to end of file or an error: the split into
  // buffers is gone.
  function Told(ss: seq<Served>): (seq<Dirent>, Option<nat>)
    decreases |ss|
  {
    if ss == [] then ([], None) else
    match ss[0]
    case Fails(e) => ([], Some(e))
    case Records(rs, junk) =>
      if rs == [] && junk == [] then ([], None) else
      var (ds, end) := Told(ss[1..]);
      (DirentsOf(rs) + ds, end)
  }

  // The calls before the one that fails or has nothing more to say.
  function CallsRead(ss: seq<Served>): (n: nat)
    ensures n <= |ss|
    ensures forall i :: 0 <= i < n ==> ss[i].Records? && (ss[i].rs != [] || ss[i].junk != [])
    ensures n < |ss| ==> ss[n].Fails? || (ss[n].rs == [] && ss[n].junk == [])
  {
    if ss == [] || ss[0].Fails? || (ss[0].rs == [] && ss[0].junk == []) then 0 else 1 + CallsRead(ss[1..])
  }

  // Calls that each return some records.
  ghost predicate ReadOn(ss: seq<Served>) {
    forall i :: 0 <= i < |ss| ==> ss[i].Records? && (ss[i].rs != [] || ss[i].junk != [])
  }

  function AllRecords(ss: seq<Served>): seq<Rec>
    requires forall i :: 0 <= i < |ss| ==> ss[i].Records?
  {
    if ss == [] then [] else ss[0].rs + AllRecords(ss[1..])
  }

  // All records of the calls before the last one tell, then whatever the rest tells: end
  // of file, or an error.
  lemma {:induction false} ToldInFull(ss: seq<Served>, rest: seq<Served>)
    requires ReadOn(ss)
    ensures Told(ss + rest) == (DirentsOf(AllRecords(ss)) + Told(rest).0, Told(rest).1)
    decreases |ss|
  {
    if ss == [] {
      assert ss + rest == rest && DirentsOf([]) + Told(rest).0 == Told(rest).0;
    } else {
      ToldInFull(ss[1..], rest);
      assert (ss + rest)[0] == ss[0] && (ss + rest)[1..] == ss[1..] + rest;
      var a, b, c := DirentsOf(ss[0].rs), DirentsOf(AllRecords(ss[1..])), Told(rest).0;
      assert DirentsOf(AllRecords(ss)) == a + b;
      assert (a + b) + c == a + (b + c);
    }
  }

  /** The first call that fails, or returns nothing, ends the reading; whatever would come
      after it is never asked for. */
  lemma {:induction false} ToldEnds(ss: seq<Served>, last: Served, more: seq<Served>)
    requires ReadOn(ss) && (last.Records? ==> last == Records([], []))
    ensures Told(ss + [last] + more) ==
      (DirentsOf(AllRecords(ss)), if last.Fails? then Some(last.errno) else None)
    ensures Told(ss) == (DirentsOf(AllRecords(ss)), None)
  {
    var rest := [last] + more;
    assert ss + [last] + more == ss + rest && ss + [] == ss;
    ToldInFull(ss, rest);
    ToldInFull(ss, []);
    assert rest[0] == last && Told(rest).0 == [];
    assert DirentsOf(AllRecords(ss)) + [] == DirentsOf(AllRecords(ss));
  }

  // The same of any calls.
  lemma {:induction false} ToldIs(ss: seq<Served>)
    ensures var n := CallsRead(ss);
      Told(ss) == (DirentsOf(AllRecords(ss[..n])), if n < |ss| && ss[n].Fails? then Some(ss[n].errno) else None)
  {
    hide Told, AllRecords, DirentsOf, CallsRead;
    var n := CallsRead(ss);
    var first := ss[..n];
    assert ReadOn(first);
    if n < |ss| {
      assert ss == first + [ss[n]] + ss[n + 1..];
      ToldEnds(first, ss[n], ss[n + 1..]);
    } else {
      assert first == ss;
      ToldEnds(ss, Fails(0), []);
    }
  }

  // ---------------------------------------------------------- records, field by field

  function RecNames(rs: seq<Rec>): (names: seq<Name>) {
    seq(|rs|, i requires 0 <= i < |rs| => rs[i].name)
  }

  // What was called back with: the first of the records at these places, each with its
  // name, type and inode.
  ghost predicate Relays(out: seq<Dirent>, rs: seq<Rec>, at: seq<nat>) {
    && |out| <= |at|
    && forall j :: 0 <= j < |out| ==>
         && at[j] < |rs|
         && out[j].name == rs[at[j]].name && out[j].typ == rs[at[j]].typ && out[j].ino == rs[at[j]].ino
  }

  lemma {:induction false} FilterRelays(rs: seq<Rec>, skip: set<Name>)
    ensures var at := WantedAt(RecNames(rs), skip);
      Relays(Filter(DirentsOf(rs), skip), rs, at) && |Filter(DirentsOf(rs), skip)| == |at|
  {
    assert NamesOf(DirentsOf(rs)) == RecNames(rs);
    FilterPicks(DirentsOf(rs), skip);
  }

  lemma {:induction false} OfferConcat(a: seq<Dirent>, b: seq<Dirent>, skip: set<Name>, cb: Callback, done: seq<Dirent>)
    ensures var (d, err) := Offer(a, skip, cb, done);
      Offer(a + b, skip, cb, done) == if err.Some? then (d, err) else Offer(b, skip, cb, d)
    decreases |a|
  {
    if a == [] {
      assert a + b == b;
    } else {
      assert (a + b)[0] == a[0] && (a + b)[1..] == a[1..] + b;
      OfferConcat(a[1..], b, skip, cb, if Wanted(a[0].name, skip) then done + [a[0]] else done);
    }
  }

  /** However the records were split into buffers, and whatever the callback answers, what
      is delivered is what one buffer with all the records would deliver; an error of the
      system call shows only if the callback refused nothing before it. */
  lemma {:induction false} BatchingDoesNotMatter(ss: seq<Served>, skip: set<Name>, cb: Callback, done: seq<Dirent>)
    ensures var (ds, end) := Told(ss);
      var (out, err) := Offer(ds, skip, cb, done);
      OfferAll(ss, skip, cb, done) == (out, if err.Some? then err else end)
    decreases |ss|
  {
    if ss != [] && ss[0].Records? && (ss[0].rs != [] || ss[0].junk != []) {
      var (d, err) := Offer(DirentsOf(ss[0].rs), skip, cb, done);
      OfferConcat(DirentsOf(ss[0].rs), Told(ss[1..]).0, skip, cb, done);
      BatchingDoesNotMatter(ss[1..], skip, cb, d);
    }
  }

  // In one list: the first error of the callback was the answer to the last record
  // delivered, and no earlier delivery was refused.
  lemma {:induction false} FirstRefusalStops(ds: seq<Dirent>, skip: set<Name>, cb: Callback, done: seq<Dirent>)
    ensures var (out, err) := Offer(ds, skip, cb, done);
      var all := done + Filter(ds, skip);
      && |done| <= |out| <= |all| && out == all[..|out|]
      && (err.Some? ==> |out| > |done| && cb(out) == err)
      && (err.None? ==> out == all)
      && (forall k :: |done| < k <= |out| && (k < |out| || err.None?) ==> cb(all[..k]) == None)
    decreases |ds|
  {
    var all := done + Filter(ds, skip);
    if ds == [] {
      assert all == done;
    } else if !Wanted(ds[0].name, skip) {
      assert Filter(ds, skip) == Filter(ds[1..], skip);
      FirstRefusalStops(ds[1..], skip, cb, done);
    } else {
      var more := done + [ds[0]];
      assert all == more + Filter(ds[1..], skip);
      assert all[..|more|] == more;
      if cb(more).None? {
        FirstRefusalStops(ds[1..], skip, cb, more);
      }
    }
  }

  // Of one buffer: the wanted records are called back with in order, each field as it is.
  lemma {:induction false} OfferRelays(rs: seq<Rec>, skip: set<Name>, cb: Callback, done: seq<Dirent>)
    ensures var (out, err) := Offer(DirentsOf(rs), skip, cb, done);
      var at := WantedAt(RecNames(rs), skip);
      && done <= out && Relays(out[|done|..], rs, at) && (err == None ==> |out| - |done| == |at|)
  {
    var all := Filter(DirentsOf(rs), skip);
    var (out, err) := Offer(DirentsOf(rs), skip, cb, done);
    FirstRefusalStops(DirentsOf(rs), skip, cb, done);
    FilterRelays(rs, skip);
    assert out[|done|..] == all[..|out| - |done|];
  }

  // The outcome for a directory whose wanted records are all, in order, and whose reading
  // ended as end says.
  ghost predicate Delivered(all: seq<Dirent>, end: Option<nat>, cb: Callback, out: seq<Dirent>, err: Option<nat>) {
    && out <= all
    && (forall k :: 0 < k < |out| ==> cb(all[..k]) == None)
    && if out != [] && cb(out).Some? then err == cb(out) else out == all && err == end
  }

  /** A directory read in any number of buffers: the first record refused by the callback
      is the last one delivered and its answer is returned; if none is refused all are
      delivered, and what is returned is the error of the system call, if any. */
  lemma {:induction false} FirstRefusalStopsAll(ss: seq<Served>, skip: set<Name>, cb: Callback)
    ensures var (ds, end) := Told(ss);
      var (out, err) := OfferAll(ss, skip, cb, []);
      Delivered(Filter(ds, skip), end, cb, out, err)
  {
    var (ds, end) := Told(ss);
    var (out, err) := Offer(ds, skip, cb, []);
    var all := Filter(ds, skip);
    BatchingDoesNotMatter(ss, skip, cb, []);
    FirstRefusalStops(ds, skip, cb, []);
    assert [] + all == all;
    assert out != [] ==> all[..|out|] == out;
  }

  // The outcome for a whole directory, field by field.  The records of all calls before
  // one fails, or returns nothing, are relayed up to the first that is refused; if none is,
  // all are, and the error is that of the failed call.
  ghost predicate Conveys(ss: seq<Served>, skip: set<Name>, cb: Callback, out: seq<Dirent>, err: Option<nat>) {
    var n := CallsRead(ss);
    var rs := AllRecords(ss[..n]);
    var at := WantedAt(RecNames(rs), skip);
    && Relays(out, rs, at)
    && (forall k :: 0 < k < |out| ==> cb(out[..k]) == None)
    && if out != [] && cb(out).Some? then err == cb(out) else
       && |out| == |at|
       && err == if n < |ss| && ss[n].Fails? then Some(ss[n].errno) else None
  }

  lemma {:induction false} DeliveredConveys(ss: seq<Served>, skip: set<Name>, cb: Callback,
                                            out: seq<Dirent>, err: Option<nat>)
    requires Delivered(Filter(Told(ss).0, skip), Told(ss).1, cb, out, err)
    ensures Conveys(ss, skip, cb, out, err)
  {
    hide Told, Filter;
    var all := Filter(Told(ss).0, skip);
    ToldIs(ss);
    FilterRelays(AllRecords(ss[..CallsRead(ss)]), skip);
    forall k | 0 < k < |out| ensures cb(out[..k]) == None {
      assert out[..k] == all[..k];
    }
  }

  lemma {:induction false} OfferAllConveys(ss: seq<Served>, skip: set<Name>, cb: Callback)
    ensures var (out, err) := OfferAll(ss, skip, cb, []);
      Delivered(Filter(Told(ss).0, skip), Told(ss).1, cb, out, err) && Conveys(ss, skip, cb, out, err)
  {
    hide Told, Filter, OfferAll, Delivered, Conveys;
    var (out, err) := OfferAll(ss, skip, cb, []);
    FirstRefusalStopsAll(ss, skip, cb);
    DeliveredConveys(ss, skip, cb, out, err);
  }

  // ------------------------------------------------------------------- the parsing loop

  lemma {:induction false} EncodeAllStep(rs: seq<Rec>)
    requires forall i :: 0 <= i < |rs| ==> RecOk(rs[i])
    ensures rs != [] ==> EncodeAll(rs) == Encode(rs[0]) + EncodeAll(rs[1..]) && |EncodeAll(rs)| >= NAME_OFFSET
  {
  }

  lemma DirentsOfStep(rs: seq<Rec>)
    requires rs != []
    ensures DirentsOf(rs)[0] == DirentOf(rs[0]) && DirentsOf(rs)[1..] == DirentsOf(rs[1..])
  {
  }

  // What the parser finds in front of it: the first of the remaining records.
  lemma {:induction false} DecodeFirst(dent: seq<byte>, rest: seq<Rec>, junk: seq<byte>)
    requires dent != [] && ServedOk(Records(rest, junk)) && dent == EncodeAll(rest) + junk
    ensures |dent| >= NAME_OFFSET
    ensures rest == [] ==> FromLe(dent[16..18]) == 0
    ensures rest != [] ==> Starts(dent, rest[0], EncodeAll(rest[1..]) + junk) && ServedOk(Records(rest[1..], junk))
  {
    if rest == [] {
      assert EncodeAll(rest) + junk == junk;
    } else {
      FirstOk(rest, junk);
      SplitFirst(rest, junk);
      DecodeMore(dent, rest[0], EncodeAll(rest[1..]) + junk);
    }
  }

  lemma DecodeMore(dent: seq<byte>, r: Rec, more: seq<byte>)
    requires RecOk(r) && dent == Encode(r) + more
    ensures |dent| >= NAME_OFFSET && Starts(dent, r, more)
  {
    Decode(dent, r, more);
  }

  lemma FirstOk(rest: seq<Rec>, junk: seq<byte>)
    requires ServedOk(Records(rest, junk)) && rest != []
    ensures RecOk(rest[0]) && ServedOk(Records(rest[1..], junk))
  {
  }

  lemma {:induction false} SplitFirst(rest: seq<Rec>, junk: seq<byte>)
    requires rest != []
    ensures EncodeAll(rest) + junk == Encode(rest[0]) + (EncodeAll(rest[1..]) + junk)
  {
  }

  // One buffer of n bytes; dent is the view of it that starts at pos.
  method ParseBuffer(buf: seq<byte>, skip: set<Name>, cb: Callback, done: seq<Dirent>,
                     ghost rs: seq<Rec>, ghost junk: seq<byte>)
    returns (out: seq<Dirent>, err: Option<nat>)
    requires ServedOk(Records(rs, junk)) && buf == EncodeAll(rs) + junk
    ensures (out, err) == Offer(DirentsOf(rs), skip, cb, done)
    ensures done <= out && Relays(out[|done|..], rs, WantedAt(RecNames(rs), skip))
    ensures err == None ==> |out| - |done| == |WantedAt(RecNames(rs), skip)|
  {
    hide Relays;
    OfferRelays(rs, skip, cb, done);
    out, err := done, None;
    var pos := 0;
    ghost var rest := rs;
    while pos < |buf|
      invariant pos <= |buf| && ServedOk(Records(rest, junk)) && buf[pos..] == EncodeAll(rest) + junk
      invariant Offer(DirentsOf(rs), skip, cb, done) == Offer(DirentsOf(rest), skip, cb, out)
      invariant err == None
    {
      var dent := buf[pos..];
      DecodeFirst(dent, rest, junk);
      var reclen := FromLe(dent[16..18]);
      if reclen == 0 {
        break;
      }
      DirentsOfStep(rest);
      pos := pos + reclen;
      assert buf[pos..] == dent[reclen..];
      var nameBytes := dent[NAME_OFFSET..reclen];
      var name := nameBytes[..FirstNul(nameBytes)];
      ghost var r := rest[0];
      rest := rest[1..];
      if !Wanted(name, skip) {
        continue;
      }
      assert Dirent(name, dent[18], FromLe(dent[0..8])) == DirentOf(r);
      out := out + [Dirent(name, dent[18], FromLe(dent[0..8]))];
      err := cb(out);
      if err.Some? {
        return;
      }
    }
    EncodeAllStep(rest);
    assert rest == [] && DirentsOf([]) == [];
  }

  /** readDirRaw.  open: the result of openat; replies: what successive getdents64 calls
      answer, an exhausted supply reading as end of file. */
  method ReadDirRaw(open: Option<nat>, replies: seq<Reply>, buf: array<byte>, skip: set<Name>, cb: Callback,
                    ghost served: seq<Served>)
    returns (out: seq<Dirent>, err: Option<nat>)
    requires Speaks(replies, served)
    requires forall i :: 0 <= i < |replies| && replies[i].Bytes? ==> |replies[i].data| <= buf.Length
    modifies buf
    ensures open.Some? ==> out == [] && err == open
    ensures open.None? ==> Delivered(Filter(Told(served).0, skip), Told(served).1, cb, out, err)
    ensures open.None? ==> Conveys(served, skip, cb, out, err)
  {
    hide Told, Conveys, Delivered, Filter;
    OfferAllConveys(served, skip, cb);
    out, err := [], None;
    if open.Some? {
      return [], open;
    }
    var i := 0;
    while i < |replies|
      invariant 0 <= i <= |replies| && err == None
      invariant OfferAll(served, skip, cb, []) == OfferAll(served[i..], skip, cb, out)
    {
      assert served[i..][0] == served[i] && served[i..][1..] == served[i + 1..];
      assert replies[i] == ReplyOf(served[i]) && ServedOk(served[i]);
      match replies[i]
      case Errno(e) =>
        return out, Some(e);
      case Bytes(data) =>
        var n := |data|;
        if n == 0 {
          EncodeAllStep(served[i].rs);
          return;
        }
        forall j | 0 <= j < n { buf[j] := data[j]; }
        assert buf[..n] == data;
        out, err := ParseBuffer(buf[..n], skip, cb, out, served[i].rs, served[i].junk);
        if err.Some? {
          return;
        }
        i := i + 1;
    }
  }
}
