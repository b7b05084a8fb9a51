/** Installing a plugin: look it up, download it, check it, and only then replace what is at the
    destination and record the install. */
module Install {
  import opened Wrappers
  import opened Paths
  import opened Archive
  import opened Extractor
  import opened Pack

  // ---------------------------------------------------------------- clearing the destination

  /** Removes `p` and everything below it, except what cannot be removed and the directories
      leading down to it. */
  function Wiped(d: Disk, p: Loc, stuck: set<Loc>): Disk {
    map q | q in d && (!Below(p, q) || LeadsTo(d, q, stuck)) :: d[q]
  }

  predicate LeadsTo(d: Disk, q: Loc, stuck: set<Loc>) {
    exists r :: r in stuck && r in d && Below(q, r)
  }

  /** Away from `p` nothing changed, but that missing directories above it may have been made. */
  ghost predicate OnlyAround(d: Disk, e: Disk, p: Loc) {
    forall q :: !Below(p, q) ==> SameAt(d, e, q) || NewAbove(d, e, p, q)
  }

  /** What a removal leaves, complete or not, still sits in directories. */
  lemma WipedIsNested(d: Disk, p: Loc, stuck: set<Loc>)
    requires Nested(d)
    ensures Nested(Wiped(d, p, stuck))
  {
    var e := Wiped(d, p, stuck);
    forall q: Loc | q in e && q.segs != []
      ensures IsDir(e, Parent(q))
    {
      assert IsDir(d, Parent(q));
      assert Parent(q).segs == q.segs[..|q.segs| - 1];
      if LeadsTo(d, q, stuck) {
        var r :| r in stuck && r in d && Below(q, r);
        assert Below(Parent(q), r);
        assert LeadsTo(d, Parent(q), stuck);
      }
    }
  }

  lemma WipedOnlyAround(d: Disk, p: Loc, stuck: set<Loc>)
    ensures OnlyAround(d, Wiped(d, p, stuck), p)
  {
    forall q | !Below(p, q)
      ensures SameAt(d, Wiped(d, p, stuck), q)
    {
    }
  }

  lemma MadeOnlyAround(d: Disk, p: Loc)
    requires Nested(d) && MkdirAll(Wiped(d, p, {}), p).Some?
    ensures var made := MkdirAll(Wiped(d, p, {}), p).value;
            Nested(made) && IsDir(made, p) && OnlyAround(d, made, p)
    ensures forall q :: q in MkdirAll(Wiped(d, p, {}), p).value && Below(p, q) ==> q == p
  {
    var bare := Wiped(d, p, {});
    var made := MkdirAll(bare, p).value;
    WipedIsNested(d, p, {});
    MkdirAdds(bare, p);
    forall q | !Below(p, q)
      ensures SameAt(d, made, q) || NewAbove(d, made, p, q)
    {
      assert SameAt(bare, made, q) || NewAbove(bare, made, p, q);
    }
    forall q | q in made && Below(p, q)
      ensures q == p
    {
      assert SameAt(bare, made, q) || NewAbove(bare, made, p, q);
    }
  }

  lemma ThenBelow(d: Disk, e: Disk, f: Disk, p: Loc)
    requires OnlyAround(d, e, p) && OnlyBelow(e, f, p)
    ensures OnlyAround(d, f, p)
  {
    forall q | !Below(p, q)
      ensures SameAt(d, f, q) || NewAbove(d, f, p, q)
    {
      assert SameAt(d, e, q) || NewAbove(d, e, p, q);
      assert SameAt(e, f, q);
    }
  }

  // ---------------------------------------------------------------- replacing a tree

  /** A destination that is neither the root, nor the working directory, nor above it. */
  ghost predicate Usable(dest: string) {
    Parse(dest).segs != [] && (Parse(dest).rooted || !AllUp(Parse(dest).segs))
  }

  ghost predicate MatchesAt(e: Disk, layout: Disk, p: Loc, q: Loc) {
    (q in e <==> q == p || q in layout) && (q in e ==> e[q] == if q in layout then layout[q] else Directory)
  }

  /** At and below `p` the disk holds the directory `p` with exactly the tree `f` in it. */
  ghost predicate Holds(e: Disk, p: Loc, f: Forest) {
    forall q :: Below(p, q) ==> MatchesAt(e, Layout(p, f), p, q)
  }

  /** Replacing a destination by a packed tree, whatever was there before: it succeeds exactly
      when the files fit the limit, and then the destination holds that tree and nothing else. */
  lemma ReplaceGivesTree(d: Disk, dest: string, limit: nat, f: Forest)
    requires Parse(dest).segs != [] && WellNamed(f) && NoSpecials(f) && Entries([], f).Some?
    requires MkdirAll(Wiped(d, Parse(dest), {}), Parse(dest)).Some?
    ensures var made := MkdirAll(Wiped(d, Parse(dest), {}), Parse(dest)).value;
            var r := Extract(dest, UNPACK, limit, made, 0, Entries([], f).value);
            && (r.failure.None? <==> Fits(UNPACK, limit, 0, Entries([], f).value))
            && (r.failure.None? ==> Holds(r.disk, Parse(dest), f) && r.disk == made + Layout(Parse(dest), f))
  {
    hide Extract, Fits, Entries, WellNamed, NoSpecials, Parse, FileBytes, MkdirAll;
    var p := Parse(dest);
    var bare := Wiped(d, p, {});
    var made := MkdirAll(bare, p).value;
    MkdirAdds(bare, p);
    var roomy := limit + FileBytes(f) + 1;
    assert Child(dest, []) == p by { assert p.segs + [] == p.segs; }
    EmptyIsFree(bare, made, p, f);
    UnpackAddsLayout(dest, roomy, made, 0, [], f);
    SucceedsIff(dest, UNPACK, limit, roomy, made, 0, Entries([], f).value);
    LayoutHolds(bare, made, p, f);
  }

  lemma EmptyIsFree(bare: Disk, made: Disk, p: Loc, f: Forest)
    requires forall q :: SameAt(bare, made, q) || NewAbove(bare, made, p, q)
    requires forall q :: q in bare ==> !Below(p, q)
    ensures Free(made, p, NamesOf(f))
  {
    forall name, q | name in NamesOf(f) && Under(p, name, q)
      ensures q !in made
    {
      assert |q.segs| > |p.segs| && p.segs == (p.segs + [name])[..|p.segs|];
      assert Below(p, q);
      assert SameAt(bare, made, q) || NewAbove(bare, made, p, q);
    }
  }

  lemma LayoutHolds(bare: Disk, made: Disk, p: Loc, f: Forest)
    requires forall q :: SameAt(bare, made, q) || NewAbove(bare, made, p, q)
    requires forall q :: q in bare ==> !Below(p, q)
    requires IsDir(made, p)
    ensures Holds(made + Layout(p, f), p, f)
  {
    forall q | Below(p, q)
      ensures MatchesAt(made + Layout(p, f), Layout(p, f), p, q)
    {
      assert SameAt(bare, made, q) || NewAbove(bare, made, p, q);
    }
  }

  /** Every tree strictly under the limit fits. */
  lemma SmallFits(f: Forest, limit: nat)
    requires WellNamed(f) && NoSpecials(f) && Entries([], f).Some? && FileBytes(f) < limit
    ensures Fits(UNPACK, limit, 0, Entries([], f).value)
  {
    hide Extract, Fits, Entries, WellNamed, NoSpecials, Parse, Layout, FileBytes;
    var p := Loc(false, ["a"]);
    assert Parse("a") == p by { SplitTrailing(["a"]); }
    var made: Disk := map[p := Directory];
    assert Child("a", []) == p by { assert p.segs + [] == p.segs; }
    forall name, q | name in NamesOf(f) && Under(p, name, q)
      ensures q !in made
    {
      assert |q.segs| > |p.segs|;
    }
    UnpackAddsLayout("a", limit, made, 0, [], f);
    SucceedsIff("a", UNPACK, limit, limit, made, 0, Entries([], f).value);
  }

  // ---------------------------------------------------------------- the command

  datatype LockEntry = LockEntry(version: string, checksum: string, registry: string, dir: string, installedAt: int)

  type Lock = map<string, LockEntry>

  /** What the registry answers about a version. */
  datatype Answer = Answer(version: string, checksum: string)

  datatype Outcome =
    | Unresolved
    | NotDownloaded
    | Mismatched
    | NotCleared
    | NotMade
    | NotUnpacked(why: Failure)
    | NotRecorded
    | Installed

  /** Nodes that cannot be removed, whether the lockfile can be read and written, and what a
      failed write leaves in it. */
  datatype Luck = Luck(stuck: set<Loc>, loads: bool, saves: bool, torn: Lock)

  /** Something at or below `p` cannot be removed. */
  predicate Blocked(d: Disk, p: Loc, stuck: set<Loc>) {
    exists q :: q in d && Below(p, q) && q in stuck
  }

  function Destination(dir: string, name: string): string {
    if dir == "" then PathJoin("agent_plugins", name) else dir
  }

  function PackageName(scope: string, name: string): string {
    "@" + scope + "/" + name
  }

  /** Unless told otherwise a plugin goes where its name says. */
  lemma DestinationIs(dir: string, name: string)
    requires Plain(name)
    ensures dir != "" ==> Destination(dir, name) == dir
    ensures Parse(Destination("", name)) == Loc(false, ["agent_plugins", name]) && Usable(Destination("", name))
  {
    hide Split, Join, Normal;
    NameOnly(name);
    JoinPlainNames("agent_plugins", [name]);
    DefaultBase();
    assert ["agent_plugins"] + [name] == ["agent_plugins", name];
    assert ["agent_plugins", name][0] != "..";
  }

  lemma DefaultBase()
    ensures Parse("agent_plugins") == Loc(false, ["agent_plugins"])
  {
    hide Normal;
    SplitNoSlash("agent_plugins");
    NormalPlain(false, [], ["agent_plugins"]);
    assert [] + ["agent_plugins"] == ["agent_plugins"];
    assert Normal(false, []) == [] by { NormalNothing(); }
  }

  lemma NormalNothing()
    ensures Normal(false, []) == []
  {
  }

  lemma NameOnly(name: string)
    ensures Join([name]) == name
  {
  }

  /** Two plugins of different names do not come to lie in one another. */
  lemma DestinationsApart(a: string, b: string)
    requires Plain(a) && Plain(b)
    ensures Below(Parse(Destination("", a)), Parse(Destination("", b))) <==> a == b
  {
    hide Parse, Destination;
    DestinationIs("", a);
    DestinationIs("", b);
    assert ["agent_plugins", a][1] == a && ["agent_plugins", b][1] == b;
  }

  /** The lockfile tells any two plugins apart. */
  lemma PackagesApart(scope: string, name: string, scope': string, name': string)
    requires '/' !in scope && '/' !in scope'
    ensures PackageName(scope, name) == PackageName(scope', name') <==> scope == scope' && name == name'
  {
    var s, t := PackageName(scope, name), PackageName(scope', name');
    var u, v := scope + ['/'] + name, scope' + ['/'] + name';
    assert s == "@" + u && t == "@" + v;
    assert s[1..] == u && t[1..] == v;
    assert s == t <==> u == v;
    FirstMark('/', scope, name, scope', name');
    assert u == v <==> scope == scope' && name == name';
  }

  /** What unpacking a download makes of the destination; None when the disk refuses. */
  function Unpacked(d: Disk, dest: string, download: Option<Stream>): Option<Progress> {
    var made := MkdirAll(Wiped(d, Parse(dest), {}), Parse(dest));
    if made.None? then None
    else if download.None? then Some(Progress(made.value, 0, Some(ReadError)))
    else Some(ExtractStream(dest, UNPACK, made.value, download.value))
  }

  class Client {
    const machine: Machine
    const registry: string
    const hash: Bytes -> string
    const decode: Bytes -> Option<Stream>
    var lock: Lock

    constructor (machine: Machine, registry: string, hash: Bytes -> string, decode: Bytes -> Option<Stream>)
      ensures this.machine == machine && this.registry == registry && this.hash == hash && this.decode == decode
      ensures lock == map[]
    {
      this.machine, this.registry, this.hash, this.decode := machine, registry, hash, decode;
      lock := map[];
    }

    /** `answer` and `download` are what the two requests return, None for a failure. */
    method Install(scope: string, name: string, dir: string, answer: Option<Answer>, download: Option<Bytes>,
                   luck: Luck, now: int)
      returns (outcome: Outcome)
      modifies this`lock, machine
      ensures outcome == Unresolved <==> answer.None?
      ensures outcome == NotDownloaded <==> answer.Some? && download.None?
      ensures outcome == Mismatched <==> answer.Some? && download.Some? && hash(download.value) != answer.value.checksum
      ensures outcome == Unresolved || outcome == NotDownloaded || outcome == Mismatched ==>
                machine.disk == old(machine.disk) && lock == old(lock)
      ensures outcome != Installed && outcome != NotRecorded ==> lock == old(lock)
      ensures outcome == NotRecorded && lock != old(lock) ==> luck.loads && !luck.saves && lock == luck.torn
      ensures answer.Some? && download.Some? && outcome != Mismatched ==>
                (outcome == NotCleared <==> Blocked(old(machine.disk), Parse(Destination(dir, name)), luck.stuck))
      ensures outcome == NotCleared ==> machine.disk == Wiped(old(machine.disk), Parse(Destination(dir, name)),
          luck.stuck)
      ensures outcome == NotMade ==>
                Unpacked(old(machine.disk), Destination(dir, name), decode(download.value)).None?
      ensures outcome == NotRecorded ==> !luck.loads || !luck.saves
      ensures outcome == NotMade ==> machine.disk == Wiped(old(machine.disk), Parse(Destination(dir, name)), {})
      ensures outcome.NotUnpacked? || outcome == NotRecorded || outcome == Installed ==>
                && answer.Some? && download.Some?
                && var r := Unpacked(old(machine.disk), Destination(dir, name), decode(download.value));
                   && r.Some? && machine.disk == r.value.disk
                   && r.value.failure == if outcome.NotUnpacked? then Some(outcome.why) else None
      ensures outcome == Installed ==>
                luck.loads && luck.saves && lock == old(lock)["@" + scope + "/" + name :=
                          LockEntry(answer.value.version, hash(download.value), registry, Destination(dir, name), now)]
      ensures Nested(old(machine.disk)) && Usable(Destination(dir, name)) ==>
                OnlyAround(old(machine.disk), machine.disk, Parse(Destination(dir, name)))
    {
      hide Parse, AllUp, ExtractStream, MkdirAll, PathJoin, OnlyAround, Nested, Size;
      if answer.None? {
        Unmoved(machine.disk, Parse(Destination(dir, name)));
        return Unresolved;
      }
      if download.None? {
        Unmoved(machine.disk, Parse(Destination(dir, name)));
        return NotDownloaded;
      }
      var checksum := hash(download.value);
      if checksum != answer.value.checksum {
        Unmoved(machine.disk, Parse(Destination(dir, name)));
        return Mismatched;
      }
      var dest := Destination(dir, name);
      outcome := Replace(dest, decode(download.value), luck.stuck);
      if outcome != Installed {
        return;
      }
      if !luck.loads {
        return NotRecorded;
      }
      if !luck.saves {
        lock := luck.torn;
        return NotRecorded;
      }
      lock := lock[PackageName(scope, name) := LockEntry(answer.value.version, checksum, registry, dest, now)];
    }

    /** Clears the destination, makes it again, and unpacks into it. */
    method Replace(dest: string, stream: Option<Stream>, stuck: set<Loc>) returns (outcome: Outcome)
      modifies machine
      ensures outcome in {NotCleared, NotMade, Installed} || outcome.NotUnpacked?
      ensures outcome == NotCleared <==> Blocked(old(machine.disk), Parse(dest), stuck)
      ensures outcome == NotMade ==> Unpacked(old(machine.disk), dest, stream).None?
      ensures outcome == NotCleared ==> machine.disk == Wiped(old(machine.disk), Parse(dest), stuck)
      ensures outcome == NotCleared && Nested(old(machine.disk)) ==> Nested(machine.disk)
      ensures outcome == NotMade ==> machine.disk == Wiped(old(machine.disk), Parse(dest), {})
      ensures outcome.NotUnpacked? || outcome == Installed ==>
                var r := Unpacked(old(machine.disk), dest, stream);
                && r.Some? && machine.disk == r.value.disk
                && r.value.failure == if outcome.NotUnpacked? then Some(outcome.why) else None
      ensures Nested(old(machine.disk)) && Usable(dest) ==> OnlyAround(old(machine.disk), machine.disk, Parse(dest))
    {
      hide Parse, AllUp, ExtractStream, MkdirAll, OnlyAround, Nested, Size;
      var p := Parse(dest);
      ghost var before := machine.disk;
      WipedOnlyAround(before, p, stuck);
      if Nested(before) {
        WipedIsNested(before, p, stuck);
      }
      WipedOnlyAround(before, p, {});
      if Blocked(machine.disk, p, stuck) {
        machine.disk := Wiped(machine.disk, p, stuck);
        return NotCleared;
      }
      machine.disk := Wiped(machine.disk, p, {});
      var made := MkdirAll(machine.disk, p);
      if made.None? {
        return NotMade;
      }
      machine.disk := made.value;
      if Nested(before) && Usable(dest) {
        MadeOnlyAround(before, p);
      }
      var failure := machine.ExtractReader(stream, dest, UNPACK);
      if Nested(before) && Usable(dest) {
        ThenBelow(before, made.value, machine.disk, p);
      }
      return if failure.Some? then NotUnpacked(failure.value) else Installed;
    }
  }

  lemma Unmoved(d: Disk, p: Loc)
    ensures OnlyAround(d, d, p)
  {
  }
}
