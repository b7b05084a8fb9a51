/** What unpacking comes to, entry by entry and place by place: what stands on the disk after success,
    and what stopped it otherwise. */
module Extractor {
  import opened Wrappers
  import opened Paths
  import opened Archive

  // ---------------------------------------------------------------- entries

  /** Stripping leaves something of the name. */
  ghost predicate Kept(o: Options, e: Entry) {
    StripComponents(e.name, o.strip).Some?
  }

  /** The name, if stripping leaves any, does not lead out of the base. */
  ghost predicate LetIn(base: string, o: Options, e: Entry) {
    Kept(o, e) ==> SafeJoin(base, StripComponents(e.name, o.strip).value).Some?
  }

  /** Where the entry belongs. */
  ghost function Place(base: string, o: Options, e: Entry): Loc
    requires Kept(o, e) && LetIn(base, o, e)
  {
    Parse(SafeJoin(base, StripComponents(e.name, o.strip).value).value)
  }

  /** The entry is a file for `p`. */
  ghost predicate Writes(base: string, o: Options, e: Entry, p: Loc) {
    e.kind.RegEntry? && Kept(o, e) && LetIn(base, o, e) && Place(base, o, e) == p
  }

  /** The entry needs `p` as a directory: it is one, or it lies below. */
  ghost predicate Needs(base: string, o: Options, e: Entry, p: Loc) {
    && !e.kind.OtherEntry? && Kept(o, e) && LetIn(base, o, e)
    && Below(p, if e.kind.DirEntry? then Place(base, o, e) else Parent(Place(base, o, e)))
  }

  /** Permission bits as they are asked for: an entry without any gets 0644. */
  function Bits(m: nat): nat {
    if m % 0x200 != 0 then m % 0x200 else 0x1A4
  }

  // ---------------------------------------------------------------- what ends up on disk

  ghost function NodeAt(d: Disk, p: Loc): Option<Node> {
    if p in d then Some(d[p]) else None
  }

  /** What one entry makes of the node at `p`: a file is written over, keeping the mode it had, and a
      directory that is missing is made. */
  ghost function Becomes(base: string, o: Options, node: Option<Node>, e: Entry, p: Loc): Option<Node> {
    if Writes(base, o, e, p) then
      Some(File(e.data, if node.Some? && node.value.File? then node.value.mode else Bits(e.mode)))
    else if node.None? && Needs(base, o, e, p) then Some(Directory)
    else node
  }

  /** What all entries together make of it. */
  ghost function Ends(base: string, o: Options, node: Option<Node>, entries: seq<Entry>, p: Loc): Option<Node>
    decreases |entries|
  {
    if entries == [] then node else Ends(base, o, Becomes(base, o, node, entries[0], p), entries[1..], p)
  }

  lemma {:induction false} AncestorsExist(d: Disk, p: Loc, q: Loc)
    requires Nested(d) && q in d && Below(p, q)
    ensures p in d && (p == q || d[p].Directory?)
    decreases |q.segs|
  {
    if p != q {
      BelowParent(p, q);
      AncestorsExist(d, p, Parent(q));
    }
  }

  lemma BelowParent(p: Loc, q: Loc)
    requires Below(p, q) && p != q
    ensures |p.segs| < |q.segs| && q.segs != [] && Below(p, Parent(q))
  {
    assert |p.segs| == |q.segs| ==> p.segs == q.segs;
  }

  lemma BelowOrParent(p: Loc, q: Loc)
    requires q.segs != []
    ensures Below(p, q) <==> p == q || Below(p, Parent(q))
  {
    if Below(p, q) && p != q {
      BelowParent(p, q);
    }
    assert q.segs[..|q.segs| - 1] + [q.segs[|q.segs| - 1]] == q.segs;
  }

  /** Making a directory makes exactly what is missing at it and above it. */
  lemma {:induction false} MkdirMakes(d: Disk, q: Loc, p: Loc)
    requires Nested(d) && MkdirAll(d, q).Some?
    ensures NodeAt(MkdirAll(d, q).value, p) == if p !in d && Below(p, q) then Some(Directory) else NodeAt(d, p)
    ensures Below(p, q) ==> IsDir(MkdirAll(d, q).value, p)
    decreases |q.segs|
  {
    if q in d {
      if Below(p, q) {
        AncestorsExist(d, p, q);
      }
    } else if q.segs != [] {
      MkdirMakes(d, Parent(q), p);
      BelowOrParent(p, q);
    } else if Below(p, q) {
      assert p == q;
    }
  }

  /** A file stands at `p` or where a directory above it would have to be. */
  ghost predicate InTheWay(d: Disk, p: Loc) {
    exists q :: q in d && d[q].File? && Below(q, p)
  }

  /** A directory can be made exactly when no file is in the way. */
  lemma {:induction false} MkdirIff(d: Disk, p: Loc)
    requires Nested(d)
    ensures MkdirAll(d, p).None? <==> InTheWay(d, p)
    decreases |p.segs|
  {
    if p in d {
      forall q | q in d && Below(q, p) && q != p
        ensures !d[q].File?
      {
        AncestorsExist(d, q, p);
      }
    } else if p.segs != [] {
      MkdirIff(d, Parent(p));
      forall q
        ensures Below(q, p) <==> q == p || Below(q, Parent(p))
      {
        BelowOrParent(q, p);
      }
    } else {
      forall q | Below(q, p)
        ensures q == p
      {
      }
    }
  }

  /** Why an entry is refused, if it is, on a disk and after so many bytes. */
  ghost function Refusal(base: string, o: Options, limit: int, d: Disk, total: nat, e: Entry): Option<Failure> {
    if !Kept(o, e) then None
    else if !LetIn(base, o, e) then Some(BadName)
    else
      var p := Place(base, o, e);
      match e.kind
      case OtherEntry => if o.skipUnsupported then None else Some(Unsupported)
      case DirEntry => if InTheWay(d, p) then Some(DiskError) else None
      case RegEntry =>
        if p.segs == [] || InTheWay(d, Parent(p)) || IsDir(d, p) then Some(DiskError)
        else if total >= limit || total + |e.data| > limit then Some(TooBig)
        else if e.broken then Some(ReadError)
        else None
  }

  lemma OneRefuses(base: string, o: Options, limit: int, d: Disk, total: nat, e: Entry)
    requires Nested(d)
    ensures One(base, o, limit, d, total, e).failure == Refusal(base, o, limit, d, total, e)
  {
    hide StripComponents, SafeJoin, Parse, MkdirAll, InTheWay, WriteFile;
    if Kept(o, e) && LetIn(base, o, e) {
      var p := Place(base, o, e);
      MkdirIff(d, p);
      WriteRefuses(limit, d, total, p, e);
    }
  }

  lemma WriteRefuses(limit: int, d: Disk, total: nat, p: Loc, e: Entry)
    requires Nested(d)
    ensures WriteFile(limit, d, total, p, e).failure ==
            if p.segs == [] || InTheWay(d, Parent(p)) || IsDir(d, p) then Some(DiskError)
            else if total >= limit || total + |e.data| > limit then Some(TooBig)
            else if e.broken then Some(ReadError)
            else None
  {
    hide MkdirAll, InTheWay, FileMode;
    MkdirIff(d, Parent(p));
    if MkdirAll(d, Parent(p)).Some? {
      MkdirMakes(d, Parent(p), p);
      MkdirMakes(d, Parent(p), Parent(p));
      if p.segs != [] {
        assert !Below(p, Parent(p));
      }
    }
  }

  lemma SetNested(d: Disk, p: Loc, n: Node)
    requires Nested(d) && IsDir(d, Parent(p)) && p.segs != [] && (p in d ==> d[p].File?)
    ensures Nested(d[p := n])
  {
    forall q: Loc | q in d[p := n] && q.segs != []
      ensures IsDir(d[p := n], Parent(q))
    {
      if q != p {
        assert IsDir(d, Parent(q));
      }
    }
  }

  lemma WriteMakes(limit: int, d: Disk, total: nat, q: Loc, e: Entry, p: Loc)
    requires Nested(d) && WriteFile(limit, d, total, q, e).failure.None?
    ensures var r := WriteFile(limit, d, total, q, e).disk;
            && Nested(r)
            && NodeAt(r, p) ==
               if p == q then
                 Some(File(e.data, if p in d && d[p].File? then d[p].mode else Bits(e.mode)))
               else if p !in d && Below(p, Parent(q)) then Some(Directory)
               else NodeAt(d, p)
  {
    hide MkdirAll;
    WriteRefuses(limit, d, total, q, e);
    var above := MkdirAll(d, Parent(q)).value;
    MkdirAdds(d, Parent(q));
    MkdirMakes(d, Parent(q), p);
    MkdirMakes(d, Parent(q), q);
    assert !Below(q, Parent(q));
    var out := OpenForWrite(above, q, FileMode(e.mode)).value;
    var n := File(e.data, out[q].mode);
    SetNested(above, q, n);
    assert out[q := n] == above[q := n];
  }

  lemma OneBecomes(base: string, o: Options, limit: int, d: Disk, total: nat, e: Entry, p: Loc)
    requires Nested(d) && One(base, o, limit, d, total, e).failure.None?
    ensures var r := One(base, o, limit, d, total, e).disk;
            Nested(r) && NodeAt(r, p) == Becomes(base, o, NodeAt(d, p), e, p)
  {
    hide StripComponents, SafeJoin, Parse, MkdirAll, WriteFile, Nested;
    if Kept(o, e) && LetIn(base, o, e) {
      var q := Place(base, o, e);
      match e.kind {
        case DirEntry =>
          MkdirAdds(d, q);
          MkdirMakes(d, q, p);
        case RegEntry => WriteMakes(limit, d, total, q, e, p);
        case OtherEntry =>
      }
    }
  }

  /** After success every place of the disk holds what the entries, read one after the other, make of
      what it held before, and nothing else has changed. */
  lemma {:induction false} ExtractEnds(base: string, o: Options, limit: int, d: Disk, total: nat,
                                       entries: seq<Entry>, p: Loc)
    requires Nested(d) && Extract(base, o, limit, d, total, entries).failure.None?
    ensures var r := Extract(base, o, limit, d, total, entries).disk;
            Nested(r) && NodeAt(r, p) == Ends(base, o, NodeAt(d, p), entries, p)
    decreases |entries|
  {
    hide One, Becomes, Nested;
    if entries != [] {
      var next := One(base, o, limit, d, total, entries[0]);
      OneBecomes(base, o, limit, d, total, entries[0], p);
      ExtractEnds(base, o, limit, next.disk, next.total, entries[1..], p);
    }
  }

  // ---------------------------------------------------------------- what a failure leaves

  /** What a refused entry makes of the node at `p`: for a file the directories above it are made
      unless something is in the way, one that is too big is removed, with what was there before, and
      one that cannot be read to its end keeps what came. */
  ghost function Leaves(base: string, o: Options, limit: int, d: Disk, total: nat, e: Entry, p: Loc): Option<Node> {
    if !e.kind.RegEntry? || !Kept(o, e) || !LetIn(base, o, e) then NodeAt(d, p)
    else
      var q := Place(base, o, e);
      var node := NodeAt(d, p);
      if InTheWay(d, Parent(q)) then node
      else if p == q && q.segs != [] && !IsDir(d, q) then
        if total >= limit || total + |e.data| > limit then None
        else Some(File(e.data, if node.Some? && node.value.File? then node.value.mode else Bits(e.mode)))
      else if node.None? && Below(p, Parent(q)) then Some(Directory)
      else node
  }

  lemma WriteLeaves(limit: int, d: Disk, total: nat, q: Loc, e: Entry, p: Loc)
    requires Nested(d) && WriteFile(limit, d, total, q, e).failure.Some?
    ensures NodeAt(WriteFile(limit, d, total, q, e).disk, p) ==
            if InTheWay(d, Parent(q)) then NodeAt(d, p)
            else if p == q && q.segs != [] && !IsDir(d, q) then
              if total >= limit || total + |e.data| > limit then None
              else Some(File(e.data, if p in d && d[p].File? then d[p].mode else Bits(e.mode)))
            else if p !in d && Below(p, Parent(q)) then Some(Directory)
            else NodeAt(d, p)
  {
    hide MkdirAll, InTheWay;
    WriteRefuses(limit, d, total, q, e);
    MkdirIff(d, Parent(q));
    if MkdirAll(d, Parent(q)).Some? {
      MkdirMakes(d, Parent(q), p);
      MkdirMakes(d, Parent(q), q);
      MkdirMakes(d, Parent(q), Parent(q));
      assert q.segs != [] ==> !Below(q, Parent(q));
    }
  }

  lemma OneLeaves(base: string, o: Options, limit: int, d: Disk, total: nat, e: Entry, p: Loc)
    requires Nested(d) && One(base, o, limit, d, total, e).failure.Some?
    ensures NodeAt(One(base, o, limit, d, total, e).disk, p) == Leaves(base, o, limit, d, total, e, p)
  {
    hide StripComponents, SafeJoin, Parse, MkdirAll, WriteFile, InTheWay, Nested;
    if e.kind.RegEntry? && Kept(o, e) && LetIn(base, o, e) {
      WriteLeaves(limit, d, total, Place(base, o, e), e, p);
    }
  }

  // ---------------------------------------------------------------- what is let through

  /** Nothing about the entry itself stops unpacking. */
  ghost predicate Unpackable(base: string, o: Options, e: Entry) {
    Kept(o, e) ==>
      && LetIn(base, o, e)
      && (e.kind.OtherEntry? ==> o.skipUnsupported)
      && (e.kind.RegEntry? ==> !e.broken)
  }

  lemma OneUnpackable(base: string, o: Options, limit: int, d: Disk, total: nat, e: Entry)
    requires One(base, o, limit, d, total, e).failure.None?
    ensures Unpackable(base, o, e)
  {
    hide StripComponents, SafeJoin, Parse, MkdirAll;
  }

  /** Success means that every entry was fit to be unpacked. */
  lemma {:induction false} SuccessMeans(base: string, o: Options, limit: int, d: Disk, total: nat, entries: seq<Entry>)
    requires Extract(base, o, limit, d, total, entries).failure.None?
    ensures forall e :: e in entries ==> Unpackable(base, o, e)
    decreases |entries|
  {
    hide One, Unpackable;
    if entries != [] {
      var next := One(base, o, limit, d, total, entries[0]);
      OneUnpackable(base, o, limit, d, total, entries[0]);
      SuccessMeans(base, o, limit, next.disk, next.total, entries[1..]);
      assert entries == [entries[0]] + entries[1..];
    }
  }

  /** Unpacking stops at entry `k`, for the reason `why`, and leaves the disk as `after`. */
  ghost predicate StopsAt(base: string, o: Options, limit: int, d: Disk, entries: seq<Entry>, k: nat, why: Failure,
                          after: Disk)
    requires k < |entries|
  {
    var m := Extract(base, o, limit, d, 0, entries[..k]);
    && m.failure.None? && Refusal(base, o, limit, m.disk, m.total, entries[k]) == Some(why)
    && (forall p :: NodeAt(m.disk, p) == Ends(base, o, NodeAt(d, p), entries[..k], p))
    && forall p :: NodeAt(after, p) == Leaves(base, o, limit, m.disk, m.total, entries[k], p)
  }

  /** It fails for the reason of the first entry that is refused, all before it having been unpacked. */
  lemma {:induction false} FailureMeans(base: string, o: Options, limit: int, d: Disk, entries: seq<Entry>, n: nat)
    returns (k: nat)
    requires Nested(d) && n <= |entries| && Extract(base, o, limit, d, 0, entries[..n]).failure.Some?
    ensures var r := Extract(base, o, limit, d, 0, entries[..n]);
            k < n && StopsAt(base, o, limit, d, entries, k, r.failure.value, r.disk)
    decreases n
  {
    hide One, Refusal, Nested, Leaves, Ends;
    assert entries[..0] == [];
    var m := Extract(base, o, limit, d, 0, entries[..n - 1]);
    assert entries[..n] == entries[..n - 1] + [entries[n - 1]];
    ExtractJoins(base, o, limit, d, 0, entries[..n - 1], [entries[n - 1]]);
    if m.failure.Some? {
      k := FailureMeans(base, o, limit, d, entries, n - 1);
    } else {
      k := n - 1;
      ExtractOne(base, o, limit, m.disk, m.total, entries[k]);
      StaysNested(base, o, limit, d, entries[..k]);
      OneRefuses(base, o, limit, m.disk, m.total, entries[k]);
      forall p
        ensures NodeAt(m.disk, p) == Ends(base, o, NodeAt(d, p), entries[..k], p)
        ensures NodeAt(One(base, o, limit, m.disk, m.total, entries[k]).disk, p) ==
                Leaves(base, o, limit, m.disk, m.total, entries[k], p)
      {
        ExtractEnds(base, o, limit, d, 0, entries[..k], p);
        OneLeaves(base, o, limit, m.disk, m.total, entries[k], p);
      }
    }
  }

  lemma StaysNested(base: string, o: Options, limit: int, d: Disk, entries: seq<Entry>)
    requires Nested(d) && Extract(base, o, limit, d, 0, entries).failure.None?
    ensures Nested(Extract(base, o, limit, d, 0, entries).disk)
  {
    ExtractEnds(base, o, limit, d, 0, entries, Loc(false, []));
  }

  // ---------------------------------------------------------------- skipping

  /** The entries that are files or directories. */
  function WithoutOthers(entries: seq<Entry>): seq<Entry> {
    if entries == [] then []
    else if entries[0].kind.OtherEntry? then WithoutOthers(entries[1..])
    else [entries[0]] + WithoutOthers(entries[1..])
  }

  /** When others are skipped, an archive ends as it would without them, provided their names are
      let in. */
  lemma {:induction false} OthersSkipped(base: string, o: Options, limit: int, d: Disk, total: nat, entries: seq<Entry>)
    requires o.skipUnsupported && forall e :: e in entries && e.kind.OtherEntry? ==> LetIn(base, o, e)
    ensures Extract(base, o, limit, d, total, entries) == Extract(base, o, limit, d, total, WithoutOthers(entries))
    decreases |entries|
  {
    hide StripComponents, SafeJoin, Parse, MkdirAll, WriteFile;
    if entries != [] {
      var next := One(base, o, limit, d, total, entries[0]);
      if entries[0].kind.OtherEntry? {
        assert LetIn(base, o, entries[0]);
        assert next == Progress(d, total, None);
        OthersSkipped(base, o, limit, d, total, entries[1..]);
      } else {
        OthersSkipped(base, o, limit, next.disk, next.total, entries[1..]);
        var rest := WithoutOthers(entries[1..]);
        assert ([entries[0]] + rest)[1..] == rest;
      }
    }
  }

  /** When they are not, the first of them whose name is let in, if unpacking comes so far, ends it. */
  lemma FirstOtherEnds(base: string, o: Options, limit: int, d: Disk, entries: seq<Entry>, k: nat)
    requires !o.skipUnsupported && k < |entries| && Extract(base, o, limit, d, 0, entries[..k]).failure.None?
    requires entries[k].kind.OtherEntry? && Kept(o, entries[k]) && LetIn(base, o, entries[k])
    ensures var m := Extract(base, o, limit, d, 0, entries[..k]);
            Extract(base, o, limit, d, 0, entries) == Progress(m.disk, m.total, Some(Unsupported))
  {
    hide StripComponents, SafeJoin, Parse, MkdirAll, WriteFile, Extract;
    var m := Extract(base, o, limit, d, 0, entries[..k]);
    assert entries == entries[..k] + ([entries[k]] + entries[k + 1..]);
    ExtractJoins(base, o, limit, d, 0, entries[..k], [entries[k]] + entries[k + 1..]);
    ExtractJoins(base, o, limit, m.disk, m.total, [entries[k]], entries[k + 1..]);
    ExtractOne(base, o, limit, m.disk, m.total, entries[k]);
  }

  // ---------------------------------------------------------------- whole archives

  /** The bytes asked for, or else 256 MiB. */
  function Allowed(o: Options): int {
    if o.maxBytes > 0 then o.maxBytes else 0x1000_0000
  }

  /** What an outcome of unpacking says about the archive and the disks before and after. */
  ghost predicate Explained(base: string, o: Options, d: Disk, s: Stream, after: Disk, failure: Option<Failure>) {
    match failure
    case None =>
      && !s.damaged
      && (forall e :: e in s.entries ==> Unpackable(base, o, e))
      && (forall p :: NodeAt(after, p) == Ends(base, o, NodeAt(d, p), s.entries, p))
    case Some(why) =>
      || (exists k :: 0 <= k < |s.entries| && StopsAt(base, o, Allowed(o), d, s.entries, k, why, after))
      || (s.damaged && why == ReadError && forall p :: NodeAt(after, p) == Ends(base, o, NodeAt(d, p), s.entries, p))
  }

  lemma StreamExplained(base: string, o: Options, d: Disk, s: Stream)
    requires Nested(d)
    ensures var r := ExtractStream(base, o, d, s); Explained(base, o, d, s, r.disk, r.failure)
  {
    hide Extract, Unpackable, Ends, StopsAt, Nested;
    var end := Extract(base, o, Limit(o), d, 0, s.entries);
    if end.failure.Some? {
      assert s.entries[..|s.entries|] == s.entries;
      assert Limit(o) == Allowed(o);
      var k := FailureMeans(base, o, Allowed(o), d, s.entries, |s.entries|);
    } else {
      SuccessMeans(base, o, Limit(o), d, 0, s.entries);
      forall p
        ensures NodeAt(end.disk, p) == Ends(base, o, NodeAt(d, p), s.entries, p)
      {
        ExtractEnds(base, o, Limit(o), d, 0, s.entries, p);
      }
    }
  }

  /** A broken or damaged archive never unpacks, whatever the disk held. */
  lemma DamageShows(base: string, o: Options, d: Disk, s: Stream)
    requires s.damaged || exists e :: e in s.entries && !Unpackable(base, o, e)
    ensures ExtractStream(base, o, d, s).failure.Some?
  {
    hide Extract, Unpackable;
    if Extract(base, o, Limit(o), d, 0, s.entries).failure.None? {
      SuccessMeans(base, o, Limit(o), d, 0, s.entries);
    }
  }

  // ---------------------------------------------------------------- the extractor

  /** A machine's disk. */
  class Machine {
    var disk: Disk

    constructor (disk: Disk)
      ensures this.disk == disk
    {
      this.disk := disk;
    }

    /** Reads entries one after the other; `stream` is None when the data is not even gzip. */
    method ExtractReader(stream: Option<Stream>, base: string, o: Options) returns (failure: Option<Failure>)
      modifies this
      ensures stream.None? ==> failure == Some(ReadError) && disk == old(disk)
      ensures stream.Some? ==>
                var r := ExtractStream(base, o, old(disk), stream.value);
                disk == r.disk && failure == r.failure
      ensures stream.Some? && Nested(old(disk)) ==> Explained(base, o, old(disk), stream.value, disk, failure)
      ensures stream.Some? && o.skipUnsupported
              && (forall e :: e in stream.value.entries && e.kind.OtherEntry? ==> LetIn(base, o, e)) ==>
                var rest := Stream(WithoutOthers(stream.value.entries), stream.value.damaged);
                var r := ExtractStream(base, o, old(disk), rest);
                disk == r.disk && failure == r.failure
      ensures failure.None? ==>
                && stream.Some? && !stream.value.damaged
                && forall e :: e in stream.value.entries ==> Unpackable(base, o, e)
      ensures Size(disk) <= Size(old(disk)) + Allowed(o)
      ensures GoodBase(old(disk), base) ==> OnlyBelow(old(disk), disk, Parse(base))
    {
      hide Size, GoodBase, Parse, One, Explained, Nested, Unpackable, LetIn;
      if stream.None? {
        SameOnlyBelow(disk, Parse(base));
        return Some(ReadError);
      }
      ghost var start := disk;
      var limit := Limit(o);
      var entries := stream.value.entries;
      UnpackAddsAtMostLimit(base, o, start, stream.value);
      if Nested(start) {
        StreamExplained(base, o, start, stream.value);
      }
      if o.skipUnsupported && (forall e :: e in entries && e.kind.OtherEntry? ==> LetIn(base, o, e)) {
        OthersSkipped(base, o, limit, start, 0, entries);
      }
      if Extract(base, o, limit, start, 0, entries).failure.None? {
        SuccessMeans(base, o, limit, start, 0, entries);
      }
      if GoodBase(start, base) {
        ExtractStaysInside(base, o, limit, start, 0, entries);
      }
      var total: nat := 0;
      var i := 0;
      while i < |entries|
        invariant 0 <= i <= |entries|
        invariant Extract(base, o, limit, disk, total, entries[i..]) == Extract(base, o, limit, start, 0, entries)
      {
        var r := One(base, o, limit, disk, total, entries[i]);
        assert entries[i..][1..] == entries[i + 1..];
        disk, total := r.disk, r.total;
        if r.failure.Some? {
          return r.failure;
        }
        i := i + 1;
      }
      return if stream.value.damaged then Some(ReadError) else None;
    }
  }
}
