/** Unpacking an archive onto a disk: entry names are cleaned, stripped and checked, directories
    and files are created, and the bytes written are counted against a limit. */
module Archive {
  import opened Wrappers
  import opened Paths
  import opened Sums

  // ---------------------------------------------------------------- disks

  datatype Node = Directory | File(content: Bytes, mode: nat)

  type Disk = map<Loc, Node>

  function Parent(p: Loc): Loc {
    if p.segs == [] then p else Loc(p.rooted, p.segs[..|p.segs| - 1])
  }

  /** Every node sits in a directory. */
  ghost predicate Nested(d: Disk) {
    forall p :: p in d && p.segs != [] ==> IsDir(d, Parent(p))
  }

  predicate IsDir(d: Disk, p: Loc) {
    p in d && d[p].Directory?
  }

  /** Creates a directory and whatever is missing above it; a file in the way is an error. */
  function MkdirAll(d: Disk, p: Loc): Option<Disk>
    decreases |p.segs|
  {
    if p in d then if d[p].Directory? then Some(d) else None
    else if p.segs == [] then Some(d[p := Directory])
    else
      var above := MkdirAll(d, Parent(p));
      if above.None? then None else Some(above.value[p := Directory])
  }

  /** `q` is `p` or lies below it. */
  predicate Below(p: Loc, q: Loc) {
    q.rooted == p.rooted && p.segs <= q.segs
  }

  ghost predicate NewAbove(d: Disk, e: Disk, p: Loc, q: Loc) {
    q !in d && q in e && e[q].Directory? && Below(q, p)
  }

  /** Making a directory adds it and what is missing above it, and nothing else. */
  lemma {:induction false} MkdirAdds(d: Disk, p: Loc)
    requires MkdirAll(d, p).Some?
    ensures var e := MkdirAll(d, p).value;
            && IsDir(e, p)
            && (forall q :: SameAt(d, e, q) || NewAbove(d, e, p, q))
            && (Nested(d) ==> Nested(e))
    decreases |p.segs|
  {
    var e := MkdirAll(d, p).value;
    if p !in d && p.segs != [] {
      MkdirAdds(d, Parent(p));
      var above := MkdirAll(d, Parent(p)).value;
      forall q
        ensures SameAt(d, e, q) || NewAbove(d, e, p, q)
      {
        if q != p {
          assert SameAt(d, above, q) || NewAbove(d, above, Parent(p), q);
        }
      }
      if Nested(d) {
        forall q: Loc | q in e && q.segs != []
          ensures IsDir(e, Parent(q))
        {
          if q != p {
            assert IsDir(above, Parent(q));
          }
        }
      }
    }
  }

  /** Opens a file for writing, emptying it if it exists; its mode is set only on creation
      and is the one asked for, before the system takes the process umask from it. */
  function OpenForWrite(d: Disk, p: Loc, mode: nat): Option<Disk> {
    if p in d then if d[p].Directory? then None else Some(d[p := File([], d[p].mode)])
    else if IsDir(d, Parent(p)) then Some(d[p := File([], mode)])
    else None
  }

  // ---------------------------------------------------------------- archives

  datatype Kind = DirEntry | RegEntry | OtherEntry

  /** `broken` entries fail to read on after the bytes in `data`. */
  datatype Entry = Entry(name: string, kind: Kind, mode: nat, data: Bytes, broken: bool)

  /** `damaged` archives fail where the entry after the last one should start. */
  datatype Stream = Stream(entries: seq<Entry>, damaged: bool)

  datatype Options = Options(maxBytes: int, strip: nat, skipUnsupported: bool)

  const MAX_DECOMPRESSED_BYTES: int := 268_435_456

  const UNPACK := Options(0, 0, false)

  function Limit(o: Options): int {
    if o.maxBytes <= 0 then MAX_DECOMPRESSED_BYTES else o.maxBytes
  }

  datatype Failure = BadName | DiskError | TooBig | ReadError | Unsupported

  datatype Progress = Progress(disk: Disk, total: nat, failure: Option<Failure>)

  function FileMode(m: nat): nat {
    if m % 512 == 0 then 420 else m % 512
  }

  function WriteFile(limit: int, disk: Disk, total: nat, p: Loc, e: Entry): Progress {
    var above := MkdirAll(disk, Parent(p));
    if above.None? then Progress(disk, total, Some(DiskError))
    else
      var out := OpenForWrite(above.value, p, FileMode(e.mode));
      if out.None? then Progress(above.value, total, Some(DiskError))
      else
        var remaining := limit - total;
        if remaining <= 0 then Progress(out.value - {p}, total, Some(TooBig))
        else if |e.data| > remaining then Progress(out.value - {p}, total + remaining + 1, Some(TooBig))
        else
          var written := out.value[p := File(e.data, out.value[p].mode)];
          Progress(written, total + |e.data|, if e.broken then Some(ReadError) else None)
  }

  /** Handles one entry. */
  function One(base: string, o: Options, limit: int, disk: Disk, total: nat, e: Entry): Progress {
    var name := StripComponents(e.name, o.strip);
    if name.None? then Progress(disk, total, None)
    else
      var target := SafeJoin(base, name.value);
      if target.None? then Progress(disk, total, Some(BadName))
      else
        var p := Parse(target.value);
        match e.kind
        case DirEntry =>
          var made := MkdirAll(disk, p);
          if made.None? then Progress(disk, total, Some(DiskError)) else Progress(made.value, total, None)
        case RegEntry => WriteFile(limit, disk, total, p, e)
        case OtherEntry => Progress(disk, total, if o.skipUnsupported then None else Some(Unsupported))
  }

  /** Handles entries until one fails. */
  function Extract(base: string, o: Options, limit: int, disk: Disk, total: nat, entries: seq<Entry>): Progress
    decreases |entries|
  {
    if entries == [] then Progress(disk, total, None)
    else
      var next := One(base, o, limit, disk, total, entries[0]);
      if next.failure.Some? then next
      else Extract(base, o, limit, next.disk, next.total, entries[1..])
  }

  function ExtractStream(base: string, o: Options, disk: Disk, s: Stream): Progress {
    var end := Extract(base, o, Limit(o), disk, 0, s.entries);
    if end.failure.None? && s.damaged then end.(failure := Some(ReadError)) else end
  }

  lemma {:induction false} ExtractJoins(base: string, o: Options, limit: int, d: Disk, total: nat, a: seq<Entry>,
                                        b: seq<Entry>)
    ensures var m := Extract(base, o, limit, d, total, a);
            Extract(base, o, limit, d, total, a + b) ==
            if m.failure.Some? then m else Extract(base, o, limit, m.disk, m.total, b)
    decreases |a|
  {
    hide One;
    if a == [] {
      assert a + b == b;
    } else {
      assert (a + b)[1..] == a[1..] + b;
      var next := One(base, o, limit, d, total, a[0]);
      ExtractJoins(base, o, limit, next.disk, next.total, a[1..], b);
    }
  }

  lemma ExtractOne(base: string, o: Options, limit: int, d: Disk, total: nat, e: Entry)
    ensures Extract(base, o, limit, d, total, [e]) == One(base, o, limit, d, total, e)
  {
    hide One;
    assert [e][1..] == [];
  }

  // ---------------------------------------------------------------- staying inside

  /** A base that exists, below which cleaned entry names stay. */
  ghost predicate GoodBase(d: Disk, base: string) {
    && Nested(d) && IsDir(d, Parse(base))
    && (Parse(base).rooted || Parse(base).segs == [] || !AllUp(Parse(base).segs))
  }

  ghost predicate SameAt(d: Disk, e: Disk, p: Loc) {
    (p in d <==> p in e) && (p in d ==> d[p] == e[p])
  }

  /** Outside `b`, and at `b` itself, the disk is as it was. */
  ghost predicate OnlyBelow(d: Disk, e: Disk, b: Loc) {
    forall p :: !(Inside(b, p) && p != b) ==> SameAt(d, e, p)
  }

  lemma {:induction false} MkdirBelow(d: Disk, b: Loc, p: Loc)
    requires Nested(d) && IsDir(d, b) && Inside(b, p) && MkdirAll(d, p).Some?
    ensures var e := MkdirAll(d, p).value; Nested(e) && OnlyBelow(d, e, b) && IsDir(e, p)
    ensures forall q :: q in d ==> q in MkdirAll(d, p).value && MkdirAll(d, p).value[q] == d[q]
    decreases |p.segs|
  {
    if p !in d {
      assert |p.segs| == |b.segs| ==> p.segs == b.segs;
      ParentInside(b, p);
      MkdirBelow(d, b, Parent(p));
      var above := MkdirAll(d, Parent(p)).value;
      var e := above[p := Directory];
      forall q: Loc | q in e && q.segs != []
        ensures IsDir(e, Parent(q))
      {
        if q != p {
          assert IsDir(above, Parent(q));
        }
      }
      forall q | !(Inside(b, q) && q != b)
        ensures SameAt(d, e, q)
      {
        assert SameAt(d, above, q);
      }
    }
  }

  lemma ParentInside(b: Loc, p: Loc)
    requires Inside(b, p) && |p.segs| > |b.segs|
    ensures Inside(b, Parent(p))
  {
    var n := |p.segs| - 1;
    assert p.segs[..n][|b.segs|..] == p.segs[|b.segs|..][..n - |b.segs|];
  }

  lemma SetBelow(d: Disk, e: Disk, b: Loc, p: Loc, n: Node)
    requires Nested(d) && IsDir(d, Parent(p)) && Inside(b, p) && p != b
    requires p in d ==> !d[p].Directory?
    requires e == d[p := n]
    ensures Nested(e) && OnlyBelow(d, e, b)
  {
    forall q: Loc | q in e && q.segs != []
      ensures IsDir(e, Parent(q))
    {
      if q != p {
        assert IsDir(d, Parent(q));
      }
    }
  }

  lemma RemoveBelow(d: Disk, b: Loc, p: Loc)
    requires Nested(d) && Inside(b, p) && p != b && (p in d ==> !d[p].Directory?)
    ensures Nested(d - {p}) && OnlyBelow(d, d - {p}, b)
  {
    forall q: Loc | q in d - {p} && q.segs != []
      ensures IsDir(d - {p}, Parent(q))
    {
      assert IsDir(d, Parent(q));
    }
  }

  lemma OnlyBelowTransitive(d: Disk, e: Disk, f: Disk, b: Loc)
    requires OnlyBelow(d, e, b) && OnlyBelow(e, f, b)
    ensures OnlyBelow(d, f, b)
  {
    forall p | !(Inside(b, p) && p != b)
      ensures SameAt(d, f, p)
    {
      assert SameAt(d, e, p) && SameAt(e, f, p);
    }
  }

  lemma DirBelowStays(d: Disk, e: Disk, b: Loc)
    requires OnlyBelow(d, e, b) && IsDir(d, b)
    ensures IsDir(e, b)
  {
    assert SameAt(d, e, b);
  }

  lemma WriteFileBelow(base: string, limit: int, d: Disk, total: nat, p: Loc, e: Entry)
    requires GoodBase(d, base) && Inside(Parse(base), p)
    ensures var r := WriteFile(limit, d, total, p, e);
            GoodBase(r.disk, base) && OnlyBelow(d, r.disk, Parse(base))
  {
    hide AllUp, AllPlain, Parse, WriteFile, Nested, OnlyBelow;
    var b := Parse(base);
    var r := WriteFile(limit, d, total, p, e);
    if p == b {
      ParentOfBase(d, b);
      NothingWritten(limit, d, total, b, e);
      SameOnlyBelow(d, b);
    } else if MkdirAll(d, Parent(p)).Some? {
      InsideIsLonger(b, p);
      ParentInside(b, p);
      MkdirBelow(d, b, Parent(p));
      var above := MkdirAll(d, Parent(p)).value;
      DirBelowStays(d, above, b);
      var n := WriteShape(limit, d, total, p, e);
      if r.disk != above {
        FileBelow(above, b, p, n);
        OnlyBelowTransitive(d, above, r.disk, b);
      }
      DirBelowStays(d, r.disk, b);
    } else {
      NothingWritten(limit, d, total, p, e);
      SameOnlyBelow(d, b);
    }
  }

  /** What writing a file comes to: nothing, the file, or no file where there may have been one. */
  lemma WriteShape(limit: int, d: Disk, total: nat, p: Loc, e: Entry) returns (n: Node)
    requires MkdirAll(d, Parent(p)).Some?
    ensures var above := MkdirAll(d, Parent(p)).value; var r := WriteFile(limit, d, total, p, e).disk;
            && !n.Directory?
            && (r == above ||
                ((p in above ==> !above[p].Directory?) && (r == above[p := n] || r == above[p := n] - {p})))
  {
    var above := MkdirAll(d, Parent(p)).value;
    var out := OpenForWrite(above, p, FileMode(e.mode));
    n := File(e.data, if out.Some? then out.value[p].mode else 0);
    if out.Some? {
      assert out.value[p := n] == above[p := n];
      assert out.value - {p} == above[p := n] - {p};
    }
  }

  lemma FileBelow(d: Disk, b: Loc, p: Loc, n: Node)
    requires Nested(d) && IsDir(d, Parent(p)) && Inside(b, p) && p != b
    requires !n.Directory? && (p in d ==> !d[p].Directory?)
    ensures Nested(d[p := n]) && OnlyBelow(d, d[p := n], b)
    ensures Nested(d[p := n] - {p}) && OnlyBelow(d, d[p := n] - {p}, b)
  {
    SetBelow(d, d[p := n], b, p, n);
    RemoveBelow(d[p := n], b, p);
    OnlyBelowTransitive(d, d[p := n], d[p := n] - {p}, b);
  }

  lemma NothingWritten(limit: int, d: Disk, total: nat, p: Loc, e: Entry)
    requires MkdirAll(d, Parent(p)).None? || (MkdirAll(d, Parent(p)) == Some(d) && IsDir(d, p))
    ensures WriteFile(limit, d, total, p, e).disk == d
  {
  }

  lemma InsideIsLonger(b: Loc, p: Loc)
    requires Inside(b, p) && p != b
    ensures |p.segs| > |b.segs|
  {
    assert |p.segs| == |b.segs| ==> p.segs == b.segs;
  }

  lemma ParentOfBase(d: Disk, b: Loc)
    requires Nested(d) && IsDir(d, b)
    ensures MkdirAll(d, Parent(b)) == Some(d)
  {
    if b.segs != [] {
      assert IsDir(d, Parent(b));
    }
  }

  lemma OneBelow(base: string, o: Options, limit: int, d: Disk, total: nat, e: Entry)
    requires GoodBase(d, base)
    ensures var r := One(base, o, limit, d, total, e);
            GoodBase(r.disk, base) && OnlyBelow(d, r.disk, Parse(base))
  {
    hide WriteFile, SafeJoin, StripComponents, Inside, Parse, AllUp;
    var name := StripComponents(e.name, o.strip);
    if name.Some? && SafeJoin(base, name.value).Some? {
      var p := Parse(SafeJoin(base, name.value).value);
      SafeJoinInside(base, name.value);
      WriteFileBelow(base, limit, d, total, p, e);
      if e.kind.DirEntry? && MkdirAll(d, p).Some? {
        MkdirBelow(d, Parse(base), p);
        DirBelowStays(d, MkdirAll(d, p).value, Parse(base));
      }
    }
  }

  /** Whatever the archive holds and however unpacking ends, nothing outside the base directory
      appears, changes or goes away. */
  lemma {:induction false} ExtractStaysInside(base: string, o: Options, limit: int, d: Disk, total: nat,
                                              entries: seq<Entry>)
    requires GoodBase(d, base)
    ensures var r := Extract(base, o, limit, d, total, entries);
            GoodBase(r.disk, base) && OnlyBelow(d, r.disk, Parse(base))
    decreases |entries|
  {
    hide One, GoodBase, Parse;
    if entries == [] {
      SameOnlyBelow(d, Parse(base));
    } else {
      var next := One(base, o, limit, d, total, entries[0]);
      OneBelow(base, o, limit, d, total, entries[0]);
      if next.failure.None? {
        ExtractStaysInside(base, o, limit, next.disk, next.total, entries[1..]);
        OnlyBelowTransitive(d, next.disk, Extract(base, o, limit, next.disk, next.total, entries[1..]).disk,
          Parse(base));
      }
    }
  }

  lemma SameOnlyBelow(d: Disk, b: Loc)
    ensures OnlyBelow(d, d, b)
  {
  }

  // ---------------------------------------------------------------- the byte limit

  function SizeOf(n: Node): nat {
    if n.Directory? then 0 else |n.content|
  }

  /** Bytes in all files of the disk. */
  ghost function Size(d: Disk): nat {
    SumOver(d, SizeOf, d.Keys)
  }

  lemma SizeOfSet(d: Disk, p: Loc, n: Node)
    ensures Size(d[p := n]) + (if p in d then SizeOf(d[p]) else 0) == Size(d) + SizeOf(n)
  {
    var e := d[p := n];
    SumTakesOut(e, SizeOf, e.Keys, p);
    if p in d {
      SumTakesOut(d, SizeOf, d.Keys, p);
    }
    assert e.Keys - {p} == d.Keys - {p};
    SumSame(d, e, SizeOf, d.Keys - {p});
    assert p !in d ==> d.Keys - {p} == d.Keys;
  }

  lemma SizeOfRemove(d: Disk, p: Loc)
    ensures Size(d - {p}) + (if p in d then SizeOf(d[p]) else 0) == Size(d)
  {
    var e := d - {p};
    assert e.Keys == d.Keys - {p};
    if p in d {
      SumTakesOut(d, SizeOf, d.Keys, p);
    } else {
      assert e == d;
    }
    SumSame(d, e, SizeOf, e.Keys);
  }

  lemma {:induction false} SizeOfMkdir(d: Disk, p: Loc)
    requires MkdirAll(d, p).Some?
    ensures Size(MkdirAll(d, p).value) == Size(d)
    ensures forall q :: q in d ==> q in MkdirAll(d, p).value && MkdirAll(d, p).value[q] == d[q]
    decreases |p.segs|
  {
    hide Size;
    if p !in d {
      if p.segs == [] {
        SizeOfSet(d, p, Directory);
      } else {
        SizeOfMkdir(d, Parent(p));
        var above := MkdirAll(d, Parent(p)).value;
        SizeOfSet(above, p, Directory);
        NoNewBelow(d, Parent(p), p);
      }
    }
  }

  lemma {:induction false} NoNewBelow(d: Disk, q: Loc, p: Loc)
    requires MkdirAll(d, q).Some? && p !in d && |p.segs| > |q.segs|
    ensures p !in MkdirAll(d, q).value
    decreases |q.segs|
  {
    if q !in d && q.segs != [] {
      NoNewBelow(d, Parent(q), p);
    }
  }

  lemma SizeOfWrite(limit: int, d: Disk, total: nat, p: Loc, e: Entry)
    requires total <= limit
    ensures var r := WriteFile(limit, d, total, p, e);
            && Size(r.disk) + total <= Size(d) + (if r.total <= limit then r.total else limit)
            && (r.failure != Some(TooBig) ==> r.total <= limit)
  {
    hide Size, FileMode;
    var above := MkdirAll(d, Parent(p));
    if above.Some? {
      SizeOfMkdir(d, Parent(p));
      var out := OpenForWrite(above.value, p, FileMode(e.mode));
      if out.Some? {
        SizeOfSet(above.value, p, out.value[p]);
        SizeOfRemove(out.value, p);
        SizeOfSet(out.value, p, File(e.data, out.value[p].mode));
      }
    }
  }

  /** Unpacking, however it ends, never adds more bytes to the disk than the limit. */
  lemma {:induction false} ExtractWithinLimit(base: string, o: Options, limit: int, d: Disk, total: nat,
                                              entries: seq<Entry>)
    requires total <= limit
    ensures var r := Extract(base, o, limit, d, total, entries);
            Size(r.disk) + total <= Size(d) + (if r.total <= limit then r.total else limit)
    decreases |entries|
  {
    hide Size, WriteFile, SafeJoin, StripComponents, Parse;
    if entries != [] {
      var e := entries[0];
      var next := One(base, o, limit, d, total, e);
      var name := StripComponents(e.name, o.strip);
      if name.Some? && SafeJoin(base, name.value).Some? {
        var p := Parse(SafeJoin(base, name.value).value);
        SizeOfWrite(limit, d, total, p, e);
        if e.kind.DirEntry? && MkdirAll(d, p).Some? {
          SizeOfMkdir(d, p);
        }
      }
      if next.failure.None? {
        ExtractWithinLimit(base, o, limit, next.disk, next.total, entries[1..]);
      }
    }
  }

  lemma UnpackAddsAtMostLimit(base: string, o: Options, d: Disk, s: Stream)
    ensures Size(ExtractStream(base, o, d, s).disk) <= Size(d) + Limit(o)
  {
    hide Size, Extract;
    ExtractWithinLimit(base, o, Limit(o), d, 0, s.entries);
  }

  // ---------------------------------------------------------------- when it succeeds

  /** Bytes an entry counts for: those of regular files that stripping does not drop. */
  function Counts(o: Options, e: Entry): nat {
    if e.kind.RegEntry? && StripComponents(e.name, o.strip).Some? then |e.data| else 0
  }

  /** The running total never passes the limit, and no regular file starts at or past it. */
  ghost predicate Fits(o: Options, limit: int, total: nat, entries: seq<Entry>)
    decreases |entries|
  {
    entries == [] ||
      (var e := entries[0];
       && (e.kind.RegEntry? && StripComponents(e.name, o.strip).Some? ==> total < limit && total + |e.data| <= limit)
       && Fits(o, limit, total + Counts(o, e), entries[1..]))
  }

  lemma OneUnderLimit(base: string, o: Options, limit: int, roomy: int, d: Disk, total: nat, e: Entry)
    requires limit <= roomy && One(base, o, roomy, d, total, e).failure.None?
    ensures var r := One(base, o, limit, d, total, e); var q := One(base, o, roomy, d, total, e);
            && q.total == total + Counts(o, e)
            && (r.failure.None? <==> (Counted(o, e) ==> total < limit && total + |e.data| <= limit))
            && (r.failure.None? ==> r == q)
            && (r.failure.Some? ==> r.failure == Some(TooBig))
  {
    hide SafeJoin, StripComponents, Parse, MkdirAll;
  }

  predicate Counted(o: Options, e: Entry) {
    e.kind.RegEntry? && StripComponents(e.name, o.strip).Some?
  }

  /** An archive that would unpack given enough room unpacks under a limit exactly when it fits,
      and then to the same disk. */
  lemma {:induction false} SucceedsIff(base: string, o: Options, limit: int, roomy: int, d: Disk, total: nat,
                                       entries: seq<Entry>)
    requires limit <= roomy && Extract(base, o, roomy, d, total, entries).failure.None?
    ensures var r := Extract(base, o, limit, d, total, entries);
            && (r.failure.None? <==> Fits(o, limit, total, entries))
            && (r.failure.None? ==> r == Extract(base, o, roomy, d, total, entries))
            && (r.failure.Some? ==> r.failure == Some(TooBig))
    decreases |entries|
  {
    hide One, StripComponents;
    if entries != [] {
      OneUnderLimit(base, o, limit, roomy, d, total, entries[0]);
      var next := One(base, o, roomy, d, total, entries[0]);
      SucceedsIff(base, o, limit, roomy, next.disk, next.total, entries[1..]);
    }
  }
}
