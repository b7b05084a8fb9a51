/** Slash-separated paths as strings: splitting, joining, lexical cleaning, and the check that
    keeps an archive entry under a base directory. */
module Paths {
  import opened Wrappers

  // ---------------------------------------------------------------- segments

  function Split(s: string): (segs: seq<string>)
    ensures |segs| >= 1
  {
    if s == "" then [""]
    else
      var rest := Split(s[1..]);
      if s[0] == '/' then [""] + rest else [[s[0]] + rest[0]] + rest[1..]
  }

  function Join(segs: seq<string>): string {
    if segs == [] then ""
    else if |segs| == 1 then segs[0]
    else segs[0] + "/" + Join(segs[1..])
  }

  lemma {:induction false} SplitNoSlash(s: string)
    requires '/' !in s
    ensures Split(s) == [s]
    decreases |s|
  {
    if s != "" {
      SplitNoSlash(s[1..]);
      assert [s[0]] + s[1..] == s;
    }
  }

  lemma {:induction false} SplitAtSlash(a: string, r: string)
    ensures Split(a + "/" + r) == Split(a) + Split(r)
    decreases |a|
  {
    hide Split;
    if a == "" {
      assert a + "/" + r == ['/'] + r;
      SplitStep('/', r);
      SplitEmpty();
    } else {
      SplitAtSlash(a[1..], r);
      var s := a[1..] + "/" + r;
      assert a + "/" + r == [a[0]] + s;
      assert a == [a[0]] + a[1..];
      SplitStep(a[0], s);
      SplitStep(a[0], a[1..]);
      FirstOfConcat(Split(a[1..]), Split(r));
    }
  }

  lemma SplitEmpty()
    ensures Split("") == [""]
  {
  }

  lemma FirstOfConcat(a: seq<string>, b: seq<string>)
    requires a != []
    ensures (a + b)[0] == a[0] && (a + b)[1..] == a[1..] + b
  {
  }

  lemma {:induction false} SplitHasNoSlash(s: string)
    ensures NoSlashes(Split(s))
    decreases |s|
  {
    if s != "" {
      SplitHasNoSlash(s[1..]);
    }
  }

  lemma SplitStep(c: char, s: string)
    ensures Split([c] + s) == if c == '/' then [""] + Split(s) else [[c] + Split(s)[0]] + Split(s)[1..]
  {
    assert ([c] + s)[1..] == s;
  }

  ghost predicate NoSlashes(segs: seq<string>) {
    forall i :: 0 <= i < |segs| ==> '/' !in segs[i]
  }

  lemma {:induction false} SplitJoin(segs: seq<string>)
    requires segs != [] && NoSlashes(segs)
    ensures Split(Join(segs)) == segs
    decreases |segs|
  {
    SplitNoSlash(segs[0]);
    if |segs| > 1 {
      SplitJoin(segs[1..]);
      SplitAtSlash(segs[0], Join(segs[1..]));
      assert segs == [segs[0]] + segs[1..];
    }
  }

  lemma {:induction false} JoinSplit(s: string)
    ensures Join(Split(s)) == s
    decreases |s|
  {
    if s != "" {
      JoinSplit(s[1..]);
      var rest := Split(s[1..]);
      if s[0] == '/' {
        assert ([""] + rest)[1..] == rest;
        assert "" + "/" + s[1..] == s;
      } else {
        var segs := [[s[0]] + rest[0]] + rest[1..];
        assert segs[1..] == rest[1..];
        if |rest| > 1 {
          assert Join(segs) == [s[0]] + (rest[0] + "/" + Join(rest[1..]));
        }
      }
    }
  }

  /** Cut at its first mark a text has two parts. */
  lemma FirstMark(c: char, a: string, x: string, b: string, y: string)
    requires c !in a && c !in b
    ensures a + [c] + x == b + [c] + y <==> a == b && x == y
  {
    var s, t := a + [c] + x, b + [c] + y;
    assert |a| < |b| ==> t[|a|] == b[|a|];
    assert |b| < |a| ==> s[|b|] == a[|b|];
    if s == t {
      assert s[|a|] == c && t[|b|] == c;
      assert s[..|a|] == a && t[..|b|] == b;
      assert s[|a| + 1..] == x && t[|b| + 1..] == y;
    }
  }

  // ---------------------------------------------------------------- cleaning

  /** A cleaned path: rooted or not, and its remaining segments. */
  datatype Loc = Loc(rooted: bool, segs: seq<string>)

  function Push(rooted: bool, stack: seq<string>, seg: string): seq<string> {
    if seg == "" || seg == "." then stack
    else if seg == ".." then
      if stack != [] && stack[|stack| - 1] != ".." then stack[..|stack| - 1]
      else if rooted then stack
      else stack + [seg]
    else stack + [seg]
  }

  function Normal(rooted: bool, segs: seq<string>): seq<string> {
    if segs == [] then [] else Push(rooted, Normal(rooted, segs[..|segs| - 1]), segs[|segs| - 1])
  }

  function IsRooted(s: string): bool {
    s != "" && s[0] == '/'
  }

  function Parse(s: string): Loc {
    Loc(IsRooted(s), Normal(IsRooted(s), Split(s)))
  }

  function Render(p: Loc): string {
    if p.rooted then "/" + Join(p.segs) else if p.segs == [] then "." else Join(p.segs)
  }

  /** The shortest equivalent path, without looking at any file system. */
  function Clean(s: string): string {
    Render(Parse(s))
  }

  /** A name that stands for itself in a path. */
  predicate Plain(seg: string) {
    seg != "" && seg != "." && seg != ".." && '/' !in seg
  }

  ghost predicate AllPlain(segs: seq<string>) {
    forall i :: 0 <= i < |segs| ==> Plain(segs[i])
  }

  ghost predicate AllUp(segs: seq<string>) {
    forall i :: 0 <= i < |segs| ==> segs[i] == ".."
  }

  /** What cleaning leaves: steps up at the front of a relative path only, then plain names. */
  ghost predicate Canonical(p: Loc) {
    exists k: nat :: CanonicalAt(p, k)
  }

  ghost predicate CanonicalAt(p: Loc, k: nat) {
    k <= |p.segs| && AllUp(p.segs[..k]) && AllPlain(p.segs[k..]) && (p.rooted ==> k == 0)
  }

  lemma LastIsUpIff(p: Loc, k: nat)
    requires CanonicalAt(p, k) && p.segs != []
    ensures p.segs[|p.segs| - 1] == ".." <==> k == |p.segs|
  {
    var n := |p.segs| - 1;
    if k == |p.segs| {
      assert p.segs[..k][n] == "..";
    } else {
      assert Plain(p.segs[k..][n - k]);
    }
  }

  lemma PushCanonical(rooted: bool, stack: seq<string>, seg: string)
    requires Canonical(Loc(rooted, stack)) && '/' !in seg
    ensures Canonical(Loc(rooted, Push(rooted, stack, seg)))
  {
    var k: nat :| CanonicalAt(Loc(rooted, stack), k);
    var after := Push(rooted, stack, seg);
    var n := |stack|;
    if seg == ".." && n > 0 && stack[n - 1] != ".." {
      LastIsUpIff(Loc(rooted, stack), k);
      assert after[..k] == stack[..k] && after[k..] == stack[k..][..n - 1 - k];
      assert CanonicalAt(Loc(rooted, after), k);
    } else if seg == ".." && !rooted {
      if n > 0 {
        LastIsUpIff(Loc(rooted, stack), k);
      }
      assert after[..n + 1] == stack[..k] + [".."];
      assert CanonicalAt(Loc(rooted, after), n + 1);
    } else if after != stack {
      assert after[..k] == stack[..k] && after[k..] == stack[k..] + [seg];
      assert CanonicalAt(Loc(rooted, after), k);
    } else {
      assert CanonicalAt(Loc(rooted, after), k);
    }
  }

  lemma {:induction false} NormalCanonical(rooted: bool, segs: seq<string>)
    requires NoSlashes(segs)
    ensures Canonical(Loc(rooted, Normal(rooted, segs)))
    decreases |segs|
  {
    if segs == [] {
      assert CanonicalAt(Loc(rooted, []), 0);
    } else {
      NormalCanonical(rooted, segs[..|segs| - 1]);
      PushCanonical(rooted, Normal(rooted, segs[..|segs| - 1]), segs[|segs| - 1]);
    }
  }

  lemma ParseCanonical(s: string)
    ensures Canonical(Parse(s))
  {
    SplitHasNoSlash(s);
    NormalCanonical(IsRooted(s), Split(s));
  }

  /** Plain names are kept as they come. */
  lemma {:induction false} NormalPlain(rooted: bool, segs: seq<string>, plain: seq<string>)
    requires AllPlain(plain)
    ensures Normal(rooted, segs + plain) == Normal(rooted, segs) + plain
    decreases |plain|
  {
    if plain == [] {
      assert segs + plain == segs;
    } else {
      var n := |plain| - 1;
      NormalPlain(rooted, segs, plain[..n]);
      assert (segs + plain)[..|segs + plain| - 1] == segs + plain[..n];
      assert plain == plain[..n] + [plain[n]];
    }
  }

  lemma {:induction false} NormalUp(k: nat, ups: seq<string>)
    requires |ups| == k && AllUp(ups)
    ensures Normal(false, ups) == ups
    decreases k
  {
    if k > 0 {
      NormalUp(k - 1, ups[..k - 1]);
      assert ups[..k - 1] + [".."] == ups;
    }
  }

  lemma NormalOfCanonical(p: Loc)
    requires Canonical(p)
    ensures Normal(p.rooted, p.segs) == p.segs
  {
    var k: nat :| CanonicalAt(p, k);
    assert p.segs == p.segs[..k] + p.segs[k..];
    NormalPlain(p.rooted, p.segs[..k], p.segs[k..]);
    if !p.rooted {
      NormalUp(k, p.segs[..k]);
    } else {
      assert p.segs[..k] == [];
    }
  }

  lemma SegsNoSlash(p: Loc)
    requires Canonical(p)
    ensures NoSlashes(p.segs)
    ensures forall i :: 0 <= i < |p.segs| ==> p.segs[i] != "" && p.segs[i] != "."
  {
    var k: nat :| CanonicalAt(p, k);
    forall i | 0 <= i < |p.segs|
      ensures '/' !in p.segs[i] && p.segs[i] != "" && p.segs[i] != "."
    {
      if i < k {
        assert p.segs[..k][i] == "..";
      } else {
        assert Plain(p.segs[k..][i - k]);
      }
    }
  }

  /** Reading back a rendered canonical path gives that path. */
  lemma RenderParse(p: Loc)
    requires Canonical(p)
    ensures Parse(Render(p)) == p
  {
    hide Split, Join, Normal, Canonical;
    SegsNoSlash(p);
    NormalOfCanonical(p);
    var s := Render(p);
    if p.segs == [] {
      RenderEmpty(p);
    } else {
      SplitJoin(p.segs);
      if p.rooted {
        assert s == "" + "/" + Join(p.segs);
        SplitAtSlash("", Join(p.segs));
        SplitEmpty();
        assert Split(s) == [""] + p.segs;
        NormalSkips(p.rooted, p.segs);
      } else {
        JoinStarts(p.segs);
      }
    }
  }

  lemma RenderEmpty(p: Loc)
    requires p.segs == []
    ensures Parse(Render(p)) == p
  {
    if p.rooted {
      assert "/"[1..] == "";
      assert Split("/") == ["", ""];
      assert ["", ""][..1] == [""] && [""][..0] == [];
      assert Normal(true, [""]) == [];
      assert Normal(true, ["", ""]) == [];
    } else {
      SplitNoSlash(".");
      assert ["."][..0] == [];
    }
  }

  lemma JoinStarts(segs: seq<string>)
    requires segs != [] && segs[0] != ""
    ensures Join(segs) != "" && Join(segs)[0] == segs[0][0]
  {
  }

  lemma {:induction false} NormalSkips(rooted: bool, segs: seq<string>)
    ensures Normal(rooted, [""] + segs) == Normal(rooted, segs)
    decreases |segs|
  {
    if segs == [] {
      assert [""] + segs == [""];
      assert [""][..0] == [];
    } else {
      var n := |segs| - 1;
      NormalSkips(rooted, segs[..n]);
      assert ([""] + segs)[..|segs|] == [""] + segs[..n];
    }
  }

  /** Cleaning twice is cleaning once. */
  lemma CleanIdempotent(s: string)
    ensures Parse(Clean(s)) == Parse(s) && Clean(Clean(s)) == Clean(s)
  {
    ParseCanonical(s);
    RenderParse(Parse(s));
  }

  // ---------------------------------------------------------------- joining

  /** Joins the elements that are not empty and cleans the result. */
  function PathJoin(base: string, name: string): string {
    if base == "" && name == "" then ""
    else if base == "" then Clean(name)
    else if name == "" then Clean(base)
    else Clean(base + "/" + name)
  }

  /** A joined path is a clean one. */
  lemma JoinIsClean(base: string, name: string)
    requires base != "" || name != ""
    ensures Clean(PathJoin(base, name)) == PathJoin(base, name)
  {
    hide Clean, Parse;
    CleanIdempotent(base);
    CleanIdempotent(name);
    CleanIdempotent(base + "/" + name);
  }

  lemma ParseJoin(base: string, name: string)
    requires base != ""
    ensures Parse(base + "/" + name) == Loc(IsRooted(base), Normal(IsRooted(base), Split(base) + Split(name)))
  {
    SplitAtSlash(base, name);
  }

  /** Joining plain names onto a base appends them. */
  lemma JoinPlainNames(base: string, names: seq<string>)
    requires base != "" && names != [] && AllPlain(names)
    ensures PathJoin(base, Join(names)) == Render(Loc(Parse(base).rooted, Parse(base).segs + names))
    ensures Parse(PathJoin(base, Join(names))) == Loc(Parse(base).rooted, Parse(base).segs + names)
  {
    JoinStarts(names);
    SplitJoin(names);
    ParseJoin(base, Join(names));
    NormalPlain(IsRooted(base), Split(base), names);
    CleanIdempotent(base + "/" + Join(names));
  }

  // ---------------------------------------------------------------- staying inside

  /** Drops the first `n` segments of a cleaned entry name; too short a name is skipped. */
  function StripComponents(name: string, n: nat): Option<string> {
    var cleaned := Clean(name);
    if cleaned == "." then None
    else
      var segs := Split(cleaned);
      if |segs| <= n then None else Some(Join(segs[n..]))
  }

  /** Joins an entry name onto the base, or refuses it. */
  function SafeJoin(base: string, name: string): Option<string> {
    if IsRooted(name) then None
    else
      var cleaned := Clean(PathJoin(base, name));
      var baseClean := Clean(base);
      if cleaned != baseClean && !(baseClean + "/" <= cleaned) then None else Some(cleaned)
  }

  /** `p` is `base` or something below it. */
  ghost predicate Inside(base: Loc, p: Loc) {
    && p.rooted == base.rooted && base.segs <= p.segs
    && AllPlain(p.segs[|base.segs|..])
  }

  lemma PrefixIsSegments(b: Loc, c: Loc)
    requires Canonical(b) && Canonical(c) && Render(b) + "/" <= Render(c)
    ensures b.segs != [] && b.rooted == c.rooted && b.segs < c.segs
  {
    hide Split, Join, Render, Canonical;
    SegsNoSlash(b);
    SegsNoSlash(c);
    var s, t := Render(b), Render(c);
    var rest := t[|s| + 1..];
    assert t == s + "/" + rest;
    SplitAtSlash(s, rest);
    RenderSegments(b);
    RenderSegments(c);
    assert s[0] == t[0] by { assert s != ""; assert (s + "/")[0] == t[0]; }
    assert Split(t) == Split(s) + Split(rest);
    assert b.segs == [] ==> Split(s) == if b.rooted then ["", ""] else ["."];
    if b.rooted {
      assert c.segs == Split(t)[1..] == Split(s)[1..] + Split(rest);
      assert c.segs[0] == Split(s)[1];
    } else {
      assert c.segs == Split(t);
      assert c.segs[0] == Split(s)[0];
    }
  }

  /** The segments a rendered path splits into. */
  lemma RenderSegments(p: Loc)
    requires Canonical(p)
    ensures Render(p) != "" && (Render(p)[0] == '/' <==> p.rooted)
    ensures p.rooted ==> Split(Render(p)) == [""] + (if p.segs == [] then [""] else p.segs)
    ensures !p.rooted ==> Split(Render(p)) == if p.segs == [] then ["."] else p.segs
  {
    SegsNoSlash(p);
    if p.segs != [] {
      SplitJoin(p.segs);
      JoinStarts(p.segs);
    }
    if p.rooted {
      assert Render(p) == "" + "/" + Join(p.segs);
      SplitAtSlash("", Join(p.segs));
    } else if p.segs == [] {
      SplitNoSlash(".");
    }
  }

  /** Stripping counts the segments of the cleaned name, and for a name that begins with a slash the
      empty one before it; a name that cleans to nothing is skipped. */
  lemma StripIs(name: string, n: nat)
    ensures var p := Parse(name); var segs := (if p.rooted then [""] else []) + p.segs;
            StripComponents(name, n) ==
            if p == Loc(true, []) then if n == 0 then Some("/") else if n == 1 then Some("") else None
            else if |segs| <= n then None
            else Some(Join(segs[n..]))
  {
    hide Split, Join, Canonical;
    var p := Parse(name);
    ParseCanonical(name);
    RenderSegments(p);
    DotIsNothing(p);
    if p == Loc(true, []) {
      SlashParts();
      assert Split(Clean(name)) == ["", ""];
      assert ["", ""][0..] == ["", ""] && ["", ""][1..] == [""];
    } else if !p.rooted {
      assert [] + p.segs == p.segs;
    }
  }

  lemma SlashParts()
    ensures Join(["", ""]) == "/" && Join([""]) == ""
  {
    assert ["", ""][1..] == [""];
  }

  lemma DotIsNothing(p: Loc)
    requires Canonical(p)
    ensures Render(p) == "." <==> p == Loc(false, [])
  {
    hide Split, Join;
    RenderSegments(p);
    SplitNoSlash(".");
    var k: nat :| CanonicalAt(p, k);
    if p.segs != [] {
      assert p.segs[0] == (if k > 0 then p.segs[..k] else p.segs[k..])[0];
      assert p.segs[0] != ".";
    }
  }

  lemma BelowIsPlain(b: Loc, c: Loc)
    requires Canonical(b) && Canonical(c) && b.segs <= c.segs && b.rooted == c.rooted
    requires c.rooted || b.segs == c.segs || !AllUp(b.segs)
    ensures Inside(b, c)
  {
    var k: nat :| CanonicalAt(c, k);
    var n := |b.segs|;
    if k > n {
      assert AllUp(b.segs) by {
        forall i | 0 <= i < n
          ensures b.segs[i] == ".."
        {
          assert c.segs[..k][i] == "..";
        }
      }
    } else {
      forall i | 0 <= i < |c.segs| - n
        ensures Plain(c.segs[n..][i])
      {
        assert c.segs[n..][i] == c.segs[k..][i + n - k];
      }
    }
  }

  lemma SafeJoinInside(base: string, name: string)
    requires SafeJoin(base, name).Some?
    requires Parse(base).rooted || Parse(base).segs == [] || !AllUp(Parse(base).segs)
    ensures Inside(Parse(base), Parse(SafeJoin(base, name).value))
  {
    var joined := PathJoin(base, name);
    var b, c := Parse(base), Parse(joined);
    ParseCanonical(base);
    ParseCanonical(joined);
    CleanIdempotent(joined);
    CleanIdempotent(base);
    if Clean(joined) == Clean(base) {
      assert b == c;
    } else {
      PrefixIsSegments(b, c);
    }
    BelowIsPlain(b, c);
  }

  lemma InsideIsLet(base: string, name: string)
    requires Parse(base).segs != [] && !IsRooted(name) && Inside(Parse(base), Parse(PathJoin(base, name)))
    ensures SafeJoin(base, name) == Some(Clean(PathJoin(base, name)))
  {
    hide Split, Join, Normal, AllPlain, Parse, PathJoin, Render;
    var b, c := Parse(base), Parse(PathJoin(base, name));
    var rest := c.segs[|b.segs|..];
    assert c.segs == b.segs + rest;
    CleanIdempotent(PathJoin(base, name));
    if rest != [] {
      RenderAppend(b, rest);
      assert Render(c) == Clean(base) + "/" + Join(rest);
      assert Clean(base) + "/" <= Render(c);
    } else {
      assert c == b;
    }
  }

  /** An entry name is let in exactly when it does not begin with a slash and leads, from the base, to
      the base or below it; it then becomes the place it leads to. */
  lemma SafeJoinIff(base: string, name: string)
    requires Parse(base).segs != [] && (Parse(base).rooted || !AllUp(Parse(base).segs))
    ensures SafeJoin(base, name).Some? <==> !IsRooted(name) && Inside(Parse(base), Parse(PathJoin(base, name)))
    ensures SafeJoin(base, name).Some? ==> Parse(SafeJoin(base, name).value) == Parse(PathJoin(base, name))
  {
    CleanIdempotent(PathJoin(base, name));
    if SafeJoin(base, name).Some? {
      SafeJoinInside(base, name);
    } else if !IsRooted(name) && Inside(Parse(base), Parse(PathJoin(base, name))) {
      InsideIsLet(base, name);
    }
  }

  lemma {:induction false} JoinUp(ups: seq<string>)
    requires ups != [] && AllUp(ups)
    ensures Join(ups + [".."]) == Join(ups) + "/" + ".."
    decreases |ups|
  {
    if |ups| > 1 {
      JoinUp(ups[1..]);
      assert (ups + [".."])[1..] == ups[1..] + [".."];
    } else {
      assert (ups + [".."])[1..] == [".."];
    }
  }

  /** The containment check does its job for every entry name exactly when the cleaned base is
      not itself just a number of steps up. */
  lemma ContainedIff(base: string)
    ensures (forall name :: SafeJoin(base, name).Some? ==> Inside(Parse(base), Parse(SafeJoin(base, name).value)))
       <==> Parse(base).rooted || Parse(base).segs == [] || !AllUp(Parse(base).segs)
  {
    var b := Parse(base);
    ParseCanonical(base);
    if b.rooted || b.segs == [] || !AllUp(b.segs) {
      forall name | SafeJoin(base, name).Some?
        ensures Inside(b, Parse(SafeJoin(base, name).value))
      {
        SafeJoinInside(base, name);
      }
    } else {
      UpEscapes(base);
    }
  }

  lemma UpEscapes(base: string)
    requires !Parse(base).rooted && Parse(base).segs != [] && AllUp(Parse(base).segs)
    ensures SafeJoin(base, "..").Some? && !Inside(Parse(base), Parse(SafeJoin(base, "..").value))
  {
    var b := Parse(base);
    assert base != "" by {
      assert [""][..0] == [];
    }
    SplitNoSlash("..");
    ParseJoin(base, "..");
    var segs := Split(base) + [".."];
    assert segs[..|segs| - 1] == Split(base);
    var c := Parse(base + "/" + "..");
    assert c == Loc(false, b.segs + [".."]);
    CleanIdempotent(base + "/" + "..");
    JoinUp(b.segs);
    assert Clean(base) + "/" <= Render(c);
    assert c.segs[|b.segs|..] == [".."];
    assert !Plain([".."][0]);
  }

  /** Entries made of plain names are always let in, unless the base cleans to "/" or ".". */
  lemma SafeJoinPlain(base: string, names: seq<string>)
    requires Parse(base).segs != [] && names != [] && AllPlain(names)
    ensures SafeJoin(base, Join(names)) == Some(Render(Loc(Parse(base).rooted, Parse(base).segs + names)))
  {
    var b := Parse(base);
    assert base != "" by {
      assert [""][..0] == [];
    }
    JoinStarts(names);
    ParseCanonical(base);
    JoinPlainNames(base, names);
    var joined := PathJoin(base, Join(names));
    ParseCanonical(base + "/" + Join(names));
    CleanIdempotent(base + "/" + Join(names));
    var c := Loc(b.rooted, b.segs + names);
    assert Clean(joined) == Render(c);
    RenderAppend(b, names);
    hide Join, Split, Normal;
    assert Clean(base) + "/" <= Render(c);
  }

  lemma RenderAppend(b: Loc, names: seq<string>)
    requires b.segs != [] && names != []
    ensures Render(Loc(b.rooted, b.segs + names)) == Render(b) + "/" + Join(names)
  {
    JoinAppend(b.segs, names);
  }

  lemma {:induction false} JoinAppend(a: seq<string>, b: seq<string>)
    requires a != [] && b != []
    ensures Join(a + b) == Join(a) + "/" + Join(b)
    decreases |a|
  {
    if |a| == 1 {
      assert (a + b)[1..] == b;
    } else {
      assert (a + b)[1..] == a[1..] + b;
      JoinAppend(a[1..], b);
    }
  }
}
