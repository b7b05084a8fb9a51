/** Packing a directory tree into archive entries, and getting exactly that tree back. */
module Pack {
  import opened Wrappers
  import opened Paths
  import opened Archive

  /** A directory's contents, in the order they are walked. `Special` is anything that cannot be
      packed: it is neither a regular file nor a directory, or it cannot be read. */
  datatype Tree = FileTree(content: Bytes, mode: nat) | DirTree(kids: Forest) | Special

  datatype Forest = Nil | Cons(name: string, tree: Tree, rest: Forest)

  function NamesOf(f: Forest): set<string> {
    if f.Nil? then {} else {f.name} + NamesOf(f.rest)
  }

  /** Names are what a file system allows, and siblings differ. */
  ghost predicate WellNamed(f: Forest) {
    f.Cons? ==>
      && Plain(f.name) && f.name !in NamesOf(f.rest) && WellNamed(f.rest)
      && (f.tree.DirTree? ==> WellNamed(f.tree.kids))
  }

  ghost predicate NoSpecials(f: Forest) {
    f.Cons? ==> !f.tree.Special? && NoSpecials(f.rest) && (f.tree.DirTree? ==> NoSpecials(f.tree.kids))
  }

  function FileBytes(f: Forest): nat {
    if f.Nil? then 0
    else FileBytes(f.rest) + match f.tree
                         case FileTree(content, _) => |content|
                         case DirTree(kids) => FileBytes(kids)
                         case Special => 0
  }

  function DirHeader(path: seq<string>): Entry {
    Entry(Join(path) + "/", DirEntry, 0, [], false)
  }

  function FileHeader(path: seq<string>, content: Bytes, mode: nat): Entry {
    Entry(Join(path), RegEntry, mode, content, false)
  }

  /** The entries written for the contents of the directory at `path`; nothing when something in
      it cannot be packed. */
  function Entries(path: seq<string>, f: Forest): Option<seq<Entry>>
    decreases f
  {
    if f.Nil? then Some([])
    else
      var here := path + [f.name];
      var first := match f.tree
        case FileTree(content, mode) => Some([FileHeader(here, content, mode)])
        case DirTree(kids) =>
          var below := Entries(here, kids);
          if below.None? then None else Some([DirHeader(here)] + below.value)
        case Special => None;
      if first.None? then None
      else
        var others := Entries(path, f.rest);
        if others.None? then None else Some(first.value + others.value)
  }

  /** Packing refuses exactly the trees that hold something besides files and directories. */
  lemma {:induction false} PacksIff(path: seq<string>, f: Forest)
    ensures Entries(path, f).Some? <==> NoSpecials(f)
    decreases f
  {
    if f.Cons? {
      PacksIff(path, f.rest);
      if f.tree.DirTree? {
        PacksIff(path + [f.name], f.tree.kids);
      }
    }
  }

  /** The nodes a tree stands for when placed in the directory `at`; a mode is the one asked for when
      the file is made, from which the system then takes the process umask. */
  function Layout(at: Loc, f: Forest): Disk
    decreases f
  {
    if f.Nil? then map[]
    else
      var here := Loc(at.rooted, at.segs + [f.name]);
      var first: Disk := match f.tree
        case FileTree(content, mode) => map[here := File(content, FileMode(mode))]
        case DirTree(kids) => map[here := Directory] + Layout(here, kids)
        case Special => map[];
      first + Layout(at, f.rest)
  }

  /** `p` lies in or below the child of `at` called `name`. */
  ghost predicate Under(at: Loc, name: string, p: Loc) {
    p.rooted == at.rooted && at.segs + [name] <= p.segs
  }

  /** None of the names in `names` is taken in the directory `at`. */
  ghost predicate Free(d: Disk, at: Loc, names: set<string>) {
    forall name, p :: name in names && Under(at, name, p) ==> p !in d
  }

  lemma {:induction false} LayoutUnder(at: Loc, f: Forest, p: Loc)
    requires p in Layout(at, f)
    ensures exists name :: name in NamesOf(f) && Under(at, name, p)
    decreases f
  {
    var here := Loc(at.rooted, at.segs + [f.name]);
    if p in Layout(at, f.rest) {
      LayoutUnder(at, f.rest, p);
      var name :| name in NamesOf(f.rest) && Under(at, name, p);
      assert name in NamesOf(f);
    } else {
      if p != here {
        LayoutUnder(here, f.tree.kids, p);
        var name :| name in NamesOf(f.tree.kids) && Under(here, name, p);
        assert here.segs + [name] <= p.segs;
        assert (here.segs + [name])[..|here.segs|] == here.segs;
      }
      assert f.name in NamesOf(f) && Under(at, f.name, p);
    }
  }

  /** Something under one name of a directory is not under another. */
  lemma UnderApart(at: Loc, a: string, b: string, p: Loc)
    requires a != b && Under(at, a, p)
    ensures !Under(at, b, p)
  {
    assert (at.segs + [a])[|at.segs|] == a && (at.segs + [b])[|at.segs|] == b;
  }

  // ---------------------------------------------------------------- reading a layout

  /** What a path leads to. */
  ghost function TreeAt(f: Forest, path: seq<string>): Option<Tree>
    requires path != []
    decreases |path|, f
  {
    if f.Nil? then None
    else if f.name != path[0] then TreeAt(f.rest, path)
    else if |path| == 1 then Some(f.tree)
    else if f.tree.DirTree? then TreeAt(f.tree.kids, path[1..])
    else None
  }

  ghost function NodeOf(t: Option<Tree>): Option<Node> {
    match t
    case Some(FileTree(content, mode)) => Some(File(content, if mode % 0x200 != 0 then mode % 0x200 else 0x1A4))
    case Some(DirTree(_)) => Some(Directory)
    case _ => None
  }

  lemma LayoutStarts(at: Loc, f: Forest, p: Loc)
    ensures p in Layout(at, f) ==> |p.segs| > |at.segs| && p.segs[|at.segs|] in NamesOf(f)
  {
    if p in Layout(at, f) {
      LayoutUnder(at, f, p);
      var name :| name in NamesOf(f) && Under(at, name, p);
      assert (at.segs + [name])[|at.segs|] == name;
    }
  }

  /** A tree laid out in a directory has at every path what the tree has there: each file with its
      contents and its permission bits, each directory, and nothing else. */
  lemma {:induction false} LayoutIs(at: Loc, f: Forest, path: seq<string>)
    requires WellNamed(f) && path != []
    ensures var p := Loc(at.rooted, at.segs + path);
            (if p in Layout(at, f) then Some(Layout(at, f)[p]) else None) == NodeOf(TreeAt(f, path))
    decreases f
  {
    if f.Cons? {
      var p := Loc(at.rooted, at.segs + path);
      var here := Loc(at.rooted, at.segs + [f.name]);
      if path[0] == f.name {
        LayoutStarts(at, f.rest, p);
        if |path| == 1 {
          assert path == [f.name];
          if f.tree.DirTree? {
            LayoutStarts(here, f.tree.kids, here);
          }
        } else {
          assert at.segs + path == here.segs + path[1..];
          assert p.segs != here.segs;
          if f.tree.DirTree? {
            LayoutIs(here, f.tree.kids, path[1..]);
          }
        }
      } else {
        LayoutIs(at, f.rest, path);
        LayoutStarts(at, Cons(f.name, f.tree, Nil), p);
      }
    }
  }

  // ---------------------------------------------------------------- one entry

  lemma SplitTrailing(path: seq<string>)
    requires path != [] && AllPlain(path)
    ensures Parse(Join(path)) == Loc(false, path)
    ensures Parse(Join(path) + "/") == Loc(false, path)
  {
    JoinStarts(path);
    SplitJoin(path);
    NormalPlain(false, [], path);
    assert [] + path == path;
    hide Split, Join, Normal;
    assert Join(path) + "/" == Join(path) + "/" + "";
    SplitAtSlash(Join(path), "");
    SplitEmpty();
    LastEmpty(path);
    assert (Join(path) + "/")[0] == Join(path)[0];
  }

  lemma LastEmpty(path: seq<string>)
    ensures Normal(false, path + [""]) == Normal(false, path)
  {
    assert (path + [""])[..|path|] == path;
  }

  /** Stripping drops exactly the leading names of an entry, and skips one with no more names. */
  lemma NameOf(path: seq<string>, n: nat)
    requires path != [] && AllPlain(path)
    ensures StripComponents(Join(path), n) == if |path| <= n then None else Some(Join(path[n..]))
    ensures StripComponents(Join(path) + "/", n) == StripComponents(Join(path), n)
  {
    hide Join, Split, Parse;
    SplitTrailing(path);
    NoSlashInPlain(path);
    SplitJoin(path);
    JoinNotDot(path);
  }

  lemma NoSlashInPlain(path: seq<string>)
    requires AllPlain(path)
    ensures NoSlashes(path)
  {
  }

  lemma JoinNotDot(path: seq<string>)
    requires path != [] && AllPlain(path)
    ensures Join(path) != "."
  {
    SplitJoin(path);
    SplitNoSlash(".");
    assert Plain(path[0]);
    assert Join(path) == "." ==> path == ["."];
  }

  /** Where an entry for `path` lands under the base. */
  lemma TargetOf(base: string, path: seq<string>)
    requires Parse(base).segs != [] && path != [] && AllPlain(path)
    ensures SafeJoin(base, Join(path)).Some?
    ensures Parse(SafeJoin(base, Join(path)).value) == Loc(Parse(base).rooted, Parse(base).segs + path)
  {
    hide Parse, Render, Join, SafeJoin, AllPlain, Canonical;
    SafeJoinPlain(base, path);
    CanonicalBelow(base, path);
    RenderParse(Loc(Parse(base).rooted, Parse(base).segs + path));
  }

  lemma CanonicalBelow(base: string, path: seq<string>)
    requires AllPlain(path)
    ensures Canonical(Loc(Parse(base).rooted, Parse(base).segs + path))
  {
    hide Parse;
    ParseCanonical(base);
    var b := Parse(base);
    var p := Loc(b.rooted, b.segs + path);
    var k: nat :| CanonicalAt(b, k);
    assert p.segs[..k] == b.segs[..k] && p.segs[k..] == b.segs[k..] + path;
    assert CanonicalAt(p, k);
  }

  ghost function Child(base: string, path: seq<string>): Loc {
    Loc(Parse(base).rooted, Parse(base).segs + path)
  }

  lemma DirectoryEntry(base: string, limit: int, d: Disk, total: nat, path: seq<string>)
    requires Parse(base).segs != [] && path != [] && AllPlain(path)
    requires IsDir(d, Parent(Child(base, path))) && Child(base, path) !in d
    ensures One(base, UNPACK, limit, d, total, DirHeader(path)) ==
            Progress(d[Child(base, path) := Directory], total, None)
  {
    hide Parse, Join, SafeJoin, StripComponents, AllPlain;
    NameOf(path, 0);
    assert path[0..] == path;
    TargetOf(base, path);
    MkdirNew(d, Child(base, path));
  }

  lemma MkdirNew(d: Disk, p: Loc)
    requires p.segs != [] && IsDir(d, Parent(p)) && p !in d
    ensures MkdirAll(d, p) == Some(d[p := Directory])
  {
    assert MkdirAll(d, Parent(p)) == Some(d);
  }

  lemma WriteNew(limit: int, d: Disk, total: nat, p: Loc, e: Entry)
    requires IsDir(d, Parent(p)) && p !in d && total + |e.data| < limit && !e.broken
    ensures WriteFile(limit, d, total, p, e) ==
            Progress(d[p := File(e.data, FileMode(e.mode))], total + |e.data|, None)
  {
    hide FileMode, Parent;
    var mode := FileMode(e.mode);
    assert MkdirAll(d, Parent(p)) == Some(d);
    assert OpenForWrite(d, p, mode) == Some(d[p := File([], mode)]);
    assert d[p := File([], mode)][p := File(e.data, mode)] == d[p := File(e.data, mode)];
  }

  lemma RegularEntry(base: string, limit: int, d: Disk, total: nat, path: seq<string>, content: Bytes, mode: nat)
    requires Parse(base).segs != [] && path != [] && AllPlain(path)
    requires IsDir(d, Parent(Child(base, path))) && Child(base, path) !in d
    requires total + |content| < limit
    ensures One(base, UNPACK, limit, d, total, FileHeader(path, content, mode)) ==
            Progress(d[Child(base, path) := File(content, FileMode(mode))], total + |content|, None)
  {
    hide Parse, Join, SafeJoin, StripComponents, AllPlain, WriteFile, FileMode, Parent;
    NameOf(path, 0);
    assert path[0..] == path;
    TargetOf(base, path);
    WriteNew(limit, d, total, Child(base, path), FileHeader(path, content, mode));
  }

  // ---------------------------------------------------------------- whole trees

  /** Given room, unpacking what was packed from a directory adds exactly its layout. */
  lemma {:induction false} UnpackAddsLayout(base: string, limit: int, d: Disk, total: nat, path: seq<string>, f: Forest)
    requires Parse(base).segs != [] && AllPlain(path)
    requires WellNamed(f) && NoSpecials(f) && Entries(path, f).Some?
    requires IsDir(d, Child(base, path)) && Free(d, Child(base, path), NamesOf(f))
    requires total + FileBytes(f) < limit
    ensures Extract(base, UNPACK, limit, d, total, Entries(path, f).value) ==
            Progress(d + Layout(Child(base, path), f), total + FileBytes(f), None)
    decreases f, 1
  {
    hide One, Free, Extract, Child, Entries, Layout, KidEntries, KidLayout, Parse, IsDir;
    var at := Child(base, path);
    if f.Nil? {
      NothingToExtract(base, limit, d, total, path, at);
    } else {
      Parts(path, at, f);
      var mid := d + KidLayout(at, f);
      KidUnpacks(base, limit, d, total, path, f);
      RestFree(d, at, f);
      KidLeavesDir(d, at, f);
      UnpackAddsLayout(base, limit, mid, total + KidBytes(f), path, f.rest);
      ExtractJoins(base, UNPACK, limit, d, total, KidEntries(path, f), Entries(path, f.rest).value);
      assert mid + Layout(at, f.rest) == d + Layout(at, f);
    }
  }

  lemma Parts(path: seq<string>, at: Loc, f: Forest)
    requires f.Cons? && Entries(path, f).Some?
    ensures Entries(path, f.rest).Some?
    ensures Entries(path, f).value == KidEntries(path, f) + Entries(path, f.rest).value
    ensures Layout(at, f) == KidLayout(at, f) + Layout(at, f.rest)
    ensures FileBytes(f) == KidBytes(f) + FileBytes(f.rest)
  {
  }

  lemma NothingToExtract(base: string, limit: int, d: Disk, total: nat, path: seq<string>, at: Loc)
    ensures Extract(base, UNPACK, limit, d, total, Entries(path, Nil).value) ==
        Progress(d + Layout(at, Nil), total, None)
  {
    assert d + Layout(at, Nil) == d;
  }

  function KidEntries(path: seq<string>, f: Forest): seq<Entry>
    requires f.Cons? && Entries(path, f).Some?
  {
    match f.tree
    case FileTree(content, mode) => [FileHeader(path + [f.name], content, mode)]
    case DirTree(kids) => [DirHeader(path + [f.name])] + Entries(path + [f.name], kids).value
  }

  function KidLayout(at: Loc, f: Forest): Disk
    requires f.Cons?
  {
    var here := Loc(at.rooted, at.segs + [f.name]);
    match f.tree
    case FileTree(content, mode) => map[here := File(content, FileMode(mode))]
    case DirTree(kids) => map[here := Directory] + Layout(here, kids)
    case Special => map[]
  }

  function KidBytes(f: Forest): nat
    requires f.Cons?
  {
    match f.tree
    case FileTree(content, _) => |content|
    case DirTree(kids) => FileBytes(kids)
    case Special => 0
  }

  lemma KidUnder(at: Loc, f: Forest, p: Loc)
    requires f.Cons? && p in KidLayout(at, f)
    ensures Under(at, f.name, p) && |p.segs| > |at.segs|
  {
    var one := Cons(f.name, f.tree, Nil);
    assert Layout(at, one) == KidLayout(at, f) + map[];
    assert p in Layout(at, one);
    LayoutUnder(at, one, p);
    var name :| name in NamesOf(one) && Under(at, name, p);
    assert name == f.name;
  }

  lemma KidLeavesDir(d: Disk, at: Loc, f: Forest)
    requires f.Cons? && IsDir(d, at)
    ensures IsDir(d + KidLayout(at, f), at)
  {
    hide KidLayout;
    if at in KidLayout(at, f) {
      KidUnder(at, f, at);
    }
  }

  lemma RestFree(d: Disk, at: Loc, f: Forest)
    requires f.Cons? && WellNamed(f) && Free(d, at, NamesOf(f))
    ensures Free(d + KidLayout(at, f), at, NamesOf(f.rest))
  {
    forall name, p | name in NamesOf(f.rest) && Under(at, name, p)
      ensures p !in d + KidLayout(at, f)
    {
      assert name in NamesOf(f);
      if p in KidLayout(at, f) {
        KidUnder(at, f, p);
        UnderApart(at, f.name, name, p);
      }
    }
  }

  lemma KidUnpacks(base: string, limit: int, d: Disk, total: nat, path: seq<string>, f: Forest)
    requires Parse(base).segs != [] && AllPlain(path)
    requires f.Cons? && WellNamed(f) && NoSpecials(f) && Entries(path, f).Some?
    requires IsDir(d, Child(base, path)) && Free(d, Child(base, path), NamesOf(f))
    requires total + FileBytes(f) < limit
    ensures Extract(base, UNPACK, limit, d, total, KidEntries(path, f)) ==
            Progress(d + KidLayout(Child(base, path), f), total + KidBytes(f), None)
    decreases f, 0
  {
    hide One, Extract, Parse, Layout, Entries, WellNamed, AllPlain, Child, IsDir, Free;
    var at := Child(base, path);
    var path' := path + [f.name];
    var here := Child(base, path');
    KidPlace(base, d, path, f);
    match f.tree
    case FileTree(content, mode) =>
      RegularEntry(base, limit, d, total, path', content, mode);
      ExtractOne(base, UNPACK, limit, d, total, FileHeader(path', content, mode));
      assert KidLayout(at, f) == map[here := File(content, FileMode(mode))];
      assert d[here := File(content, FileMode(mode))] == d + KidLayout(at, f);
    case DirTree(kids) =>
      DirectoryEntry(base, limit, d, total, path');
      ExtractOne(base, UNPACK, limit, d, total, DirHeader(path'));
      var mid := d[here := Directory];
      KidsReady(d, at, path, f, here);
      UnpackAddsLayout(base, limit, mid, total, path', kids);
      ExtractJoins(base, UNPACK, limit, d, total, [DirHeader(path')], Entries(path', kids).value);
      assert mid + Layout(here, kids) == d + KidLayout(at, f);
  }

  lemma KidPlace(base: string, d: Disk, path: seq<string>, f: Forest)
    requires AllPlain(path) && f.Cons? && WellNamed(f)
    requires IsDir(d, Child(base, path)) && Free(d, Child(base, path), NamesOf(f))
    ensures var here := Child(base, path + [f.name]);
            && here == Loc(Child(base, path).rooted, Child(base, path).segs + [f.name])
            && Parent(here) == Child(base, path) && here !in d && AllPlain(path + [f.name])
  {
    hide Parse;
    var at := Child(base, path);
    var here := Child(base, path + [f.name]);
    assert Parse(base).segs + path + [f.name] == Parse(base).segs + (path + [f.name]);
    assert here.segs[..|here.segs| - 1] == at.segs;
    assert Under(at, f.name, here) && f.name in NamesOf(f);
  }

  /** The directory just made is ready for what goes into it. */
  lemma KidsReady(d: Disk, at: Loc, path: seq<string>, f: Forest, here: Loc)
    requires f.Cons? && f.tree.DirTree? && Free(d, at, NamesOf(f)) && here == Loc(at.rooted, at.segs + [f.name])
    requires WellNamed(f) && NoSpecials(f) && Entries(path, f).Some?
    ensures var kids := f.tree.kids; var mid := d[here := Directory];
            && WellNamed(kids) && NoSpecials(kids) && Entries(path + [f.name], kids).Some?
            && FileBytes(kids) <= FileBytes(f)
            && IsDir(mid, here) && Free(mid, here, NamesOf(kids))
            && KidLayout(at, f) == map[here := Directory] + Layout(here, kids)
  {
    KidsFree(d, at, f, here);
  }

  lemma KidsFree(d: Disk, at: Loc, f: Forest, here: Loc)
    requires f.Cons? && f.tree.DirTree? && Free(d, at, NamesOf(f)) && here == Loc(at.rooted, at.segs + [f.name])
    ensures Free(d[here := Directory], here, NamesOf(f.tree.kids))
  {
    forall name, p | name in NamesOf(f.tree.kids) && Under(here, name, p)
      ensures p !in d[here := Directory]
    {
      assert |p.segs| > |here.segs|;
      assert (here.segs + [name])[..|here.segs|] == here.segs;
      assert Under(at, f.name, p) && f.name in NamesOf(f);
    }
  }

  // ---------------------------------------------------------------- unwrapping

  /** An entry below a wrapping directory, with the wrapping stripped, is the entry itself. */
  lemma OneUnwrapped(base: string, o: Options, limit: int, d: Disk, total: nat, wrap: seq<string>, path: seq<string>,
                     content: Bytes, mode: nat)
    requires AllPlain(wrap) && AllPlain(path) && path != [] && |wrap| == o.strip
    ensures One(base, o, limit, d, total, DirHeader(wrap + path)) == One(base, UNPACK, limit, d, total, DirHeader(path))
    ensures One(base, o, limit, d, total, FileHeader(wrap + path, content, mode)) ==
            One(base, UNPACK, limit, d, total, FileHeader(path, content, mode))
  {
    hide Join, StripComponents, SafeJoin, Parse, MkdirAll, OpenForWrite, FileMode;
    NameOf(path, 0);
    NameOf(wrap + path, o.strip);
    assert path[0..] == path;
    assert (wrap + path)[o.strip..] == path;
  }

  /** The wrapping directories themselves are skipped. */
  lemma WrapSkipped(base: string, o: Options, limit: int, d: Disk, total: nat, wrap: seq<string>)
    requires AllPlain(wrap) && wrap != [] && |wrap| <= o.strip
    ensures One(base, o, limit, d, total, DirHeader(wrap)) == Progress(d, total, None)
  {
    hide Join, StripComponents;
    NameOf(wrap, o.strip);
  }

  /** Unpacking a tree that was packed below wrapping directories, stripping as many leading
      names, ends exactly as unpacking the tree packed without them: same disk, same count, same
      failure. */
  lemma {:induction false} UnwrappedAlike(base: string, o: Options, limit: int, d: Disk, total: nat,
                                          wrap: seq<string>, path: seq<string>, f: Forest)
    requires AllPlain(wrap) && AllPlain(path) && |wrap| == o.strip
    requires WellNamed(f) && NoSpecials(f)
    requires Entries(wrap + path, f).Some? && Entries(path, f).Some?
    ensures Extract(base, o, limit, d, total, Entries(wrap + path, f).value) ==
            Extract(base, UNPACK, limit, d, total, Entries(path, f).value)
    decreases f, 1
  {
    hide One, Extract, Entries, KidEntries, AllPlain;
    if f.Nil? {
      NoEntries(wrap + path);
      NoEntries(path);
      NothingExtracted(base, o, limit, d, total);
      NothingExtracted(base, UNPACK, limit, d, total);
    } else {
      var at := Loc(false, []);
      Parts(wrap + path, at, f);
      Parts(path, at, f);
      KidUnwrapped(base, o, limit, d, total, wrap, path, f);
      var m := Extract(base, UNPACK, limit, d, total, KidEntries(path, f));
      ExtractJoins(base, o, limit, d, total, KidEntries(wrap + path, f), Entries(wrap + path, f.rest).value);
      ExtractJoins(base, UNPACK, limit, d, total, KidEntries(path, f), Entries(path, f.rest).value);
      UnwrappedAlike(base, o, limit, m.disk, m.total, wrap, path, f.rest);
    }
  }

  lemma NoEntries(path: seq<string>)
    ensures Entries(path, Nil) == Some([])
  {
  }

  lemma NothingExtracted(base: string, o: Options, limit: int, d: Disk, total: nat)
    ensures Extract(base, o, limit, d, total, []) == Progress(d, total, None)
  {
  }

  lemma KidUnwrapped(base: string, o: Options, limit: int, d: Disk, total: nat,
                     wrap: seq<string>, path: seq<string>, f: Forest)
    requires AllPlain(wrap) && AllPlain(path) && |wrap| == o.strip
    requires f.Cons? && WellNamed(f) && NoSpecials(f)
    requires Entries(wrap + path, f).Some? && Entries(path, f).Some?
    ensures Extract(base, o, limit, d, total, KidEntries(wrap + path, f)) ==
            Extract(base, UNPACK, limit, d, total, KidEntries(path, f))
    decreases f, 0
  {
    hide One, Extract, Entries;
    var here := path + [f.name];
    assert wrap + path + [f.name] == wrap + here;
    match f.tree
    case FileTree(content, mode) =>
      OneUnwrapped(base, o, limit, d, total, wrap, here, content, mode);
      ExtractOne(base, o, limit, d, total, FileHeader(wrap + here, content, mode));
      ExtractOne(base, UNPACK, limit, d, total, FileHeader(here, content, mode));
    case DirTree(kids) =>
      PacksIff(wrap + here, kids);
      PacksIff(here, kids);
      OneUnwrapped(base, o, limit, d, total, wrap, here, [], 0);
      ExtractOne(base, o, limit, d, total, DirHeader(wrap + here));
      ExtractOne(base, UNPACK, limit, d, total, DirHeader(here));
      ExtractJoins(base, o, limit, d, total, [DirHeader(wrap + here)], Entries(wrap + here, kids).value);
      ExtractJoins(base, UNPACK, limit, d, total, [DirHeader(here)], Entries(here, kids).value);
      var m := One(base, UNPACK, limit, d, total, DirHeader(here));
      UnwrappedAlike(base, o, limit, m.disk, m.total, wrap, here, kids);
  }

  // ---------------------------------------------------------------- the packer

  /** What packing is asked for: a directory, something else, as a file or a symbolic link, even one
      to a directory, or nothing that can be read. */
  datatype Root = Folder(contents: Forest) | NoFolder | Unreadable

  /** Collects the entries of one archive. */
  class Packer {
    var entries: seq<Entry>

    constructor ()
      ensures entries == []
    {
      entries := [];
    }

    /** Walks one directory, writing an entry for everything met, and stops at the first thing
        that cannot be packed. */
    method Walk(path: seq<string>, f: Forest) returns (ok: bool)
      modifies this
      ensures ok <==> NoSpecials(f)
      ensures old(entries) <= entries
      ensures ok ==> Entries(path, f).Some? && entries == old(entries) + Entries(path, f).value
      decreases f
    {
      hide NoSpecials, Entries;
      if f.Nil? {
        NothingLeft(path);
        return true;
      }
      RestPacks(path, f);
      var here := path + [f.name];
      match f.tree {
        case FileTree(content, mode) =>
          entries := entries + [FileHeader(here, content, mode)];
        case DirTree(kids) =>
          entries := entries + [DirHeader(here)];
          var below := Walk(here, kids);
          if !below {
            return false;
          }
        case Special =>
          return false;
      }
      ok := Walk(path, f.rest);
    }

    /** Packs the contents of `root`; the checksum is that of the archive, if it gets written. A root
        that is something else than a directory is passed over, and the archive is empty. */
    method Dir(root: Root, encode: seq<Entry> -> Bytes, hash: Bytes -> string, written: bool)
      returns (checksum: Option<string>)
      modifies this
      ensures checksum.Some? <==> written && !root.Unreadable? && (root.Folder? ==> NoSpecials(root.contents))
      ensures checksum.Some? ==> checksum.value == hash(encode(entries))
      ensures checksum.Some? && root.Folder? ==>
                Entries([], root.contents).Some? && entries == Entries([], root.contents).value
      ensures root.NoFolder? ==> entries == []
    {
      entries := [];
      var ok := !root.Unreadable?;
      if root.Folder? {
        ok := Walk([], root.contents);
      }
      checksum := if ok && written then Some(hash(encode(entries))) else None;
    }
  }

  lemma NothingLeft(path: seq<string>)
    ensures NoSpecials(Nil) && Entries(path, Nil) == Some([])
  {
  }

  lemma RestPacks(path: seq<string>, f: Forest)
    requires f.Cons?
    ensures NoSpecials(f) <==> !f.tree.Special? && (f.tree.DirTree? ==> NoSpecials(f.tree.kids)) && NoSpecials(f.rest)
    ensures NoSpecials(f) ==>
              && Entries(path, f).Some? && Entries(path, f.rest).Some?
              && Entries(path, f).value == KidEntries(path, f) + Entries(path, f.rest).value
  {
    PacksIff(path, f);
    if NoSpecials(f) {
      Parts(path, Loc(false, []), f);
    }
  }
}
