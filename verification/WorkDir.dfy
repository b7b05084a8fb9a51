/** The crawler's work directory: one numbered checkout beside the other, and where in it an
    entry's sub-path leads. */
module WorkDir {
  import opened Wrappers
  import opened Paths
  import Archive

  // ---------------------------------------------------------------- names

  function Digit(n: nat): char
    requires n < 10
  {
    ('0' as int + n) as char
  }

  function Digits(n: nat): string {
    if n < 10 then [Digit(n)] else Digits(n / 10) + [Digit(n % 10)]
  }

  function CheckoutName(n: nat): string {
    "repo-" + Digits(n)
  }

  lemma {:induction false} DigitsDiffer(m: nat, n: nat)
    requires Digits(m) == Digits(n)
    ensures m == n
    decreases m
  {
    var s, t := Digits(m), Digits(n);
    assert s[|s| - 1] == Digit(m % 10) && t[|t| - 1] == Digit(n % 10);
    if m >= 10 && n >= 10 {
      assert s[..|s| - 1] == Digits(m / 10) && t[..|t| - 1] == Digits(n / 10);
      DigitsDiffer(m / 10, n / 10);
    } else {
      DigitsLength(m);
      DigitsLength(n);
    }
  }

  lemma DigitsLength(n: nat)
    ensures |Digits(n)| == 1 <==> n < 10
  {
    if n >= 10 {
      assert |Digits(n / 10)| >= 1;
    }
  }

  lemma {:induction false} DigitsPlain(n: nat)
    ensures Digits(n) != "" && '/' !in Digits(n)
    decreases n
  {
    if n >= 10 {
      DigitsPlain(n / 10);
    }
  }

  lemma NamesDiffer(m: nat, n: nat)
    requires CheckoutName(m) == CheckoutName(n)
    ensures m == n
  {
    assert CheckoutName(m)[5..] == Digits(m) && CheckoutName(n)[5..] == Digits(n);
    DigitsDiffer(m, n);
  }

  lemma NamePlain(n: nat)
    ensures Plain(CheckoutName(n))
  {
    DigitsPlain(n);
    assert CheckoutName(n)[0] == 'r';
  }

  // ---------------------------------------------------------------- sub-paths

  /** The sub-path leads out of the checkout. */
  predicate Climbs(subpath: string) {
    !Parse(subpath).rooted && Parse(subpath).segs != [] && Parse(subpath).segs[0] == ".."
  }

  /** Where in the work directory a sub-path of checkout `n` leads. */
  function Where(n: nat, subpath: string): seq<string> {
    if Climbs(subpath) then Parse(subpath).segs[1..] else [CheckoutName(n)] + Parse(subpath).segs
  }

  /** That is the place the joined path names. */
  lemma WhereIsJoin(n: nat, subpath: string)
    ensures Parse(PathJoin(CheckoutName(n), if subpath == "" then "" else Clean(subpath))) ==
        Loc(false, Where(n, subpath))
  {
    hide Split, Join, Normal, Render, Canonical;
    var name := CheckoutName(n);
    NamePlain(n);
    if subpath == "" {
      NameAlone(name);
      CleanIdempotent(name);
      EmptyParses();
    } else {
      var p := Parse(subpath);
      ParseCanonical(subpath);
      RenderSegments(p);
      ParseJoin(name, Clean(subpath));
      CleanIdempotent(name + "/" + Clean(subpath));
      StartsPlain(name);
      SplitNoSlash(name);
      Descend(name, p);
    }
  }

  lemma StartsPlain(name: string)
    requires Plain(name)
    ensures name != "" && '/' !in name && !IsRooted(name)
  {
  }

  lemma NameAlone(name: string)
    requires Plain(name)
    ensures Parse(name) == Loc(false, [name])
  {
    SplitNoSlash(name);
    NormalPlain(false, [], [name]);
    assert [] + [name] == [name];
  }

  lemma EmptyParses()
    ensures Parse("") == Loc(false, [])
  {
    assert [""][..0] == [];
  }

  /** Going down from a name along a cleaned path; the first ".." takes the name back. */
  lemma Descend(name: string, p: Loc)
    requires Plain(name) && Canonical(p)
    ensures Normal(false, [name] + Split(Render(p))) ==
            if !p.rooted && p.segs != [] && p.segs[0] == ".." then p.segs[1..] else [name] + p.segs
  {
    hide Split, Render, Normal, Canonical, Plain;
    RenderSegments(p);
    OnlyName(name);
    if p.rooted {
      DescendRooted(name, p);
    } else if p.segs == [] {
      SkipLast([name], ".");
      assert [name] + [] == [name];
    } else {
      DescendRelative(name, p);
    }
  }

  lemma DescendRooted(name: string, p: Loc)
    requires Plain(name) && Canonical(p) && p.rooted
    ensures Normal(false, [name] + ([""] + (if p.segs == [] then [""] else p.segs))) == [name] + p.segs
  {
    hide Normal, Plain;
    var k: nat :| CanonicalAt(p, k);
    assert p.segs[k..] == p.segs;
    OnlyName(name);
    SkipLast([name], "");
    if p.segs == [] {
      SkipLast([name] + [""], "");
      assert [name] + ([""] + [""]) == [name] + [""] + [""];
    } else {
      assert [name] + ([""] + p.segs) == [name] + [""] + p.segs;
      NormalPlain(false, [name] + [""], p.segs);
    }
  }

  lemma DescendRelative(name: string, p: Loc)
    requires Plain(name) && Canonical(p) && !p.rooted && p.segs != []
    ensures Normal(false, [name] + p.segs) == if p.segs[0] == ".." then p.segs[1..] else [name] + p.segs
  {
    hide Normal;
    var k: nat :| CanonicalAt(p, k);
    var ups, plain := p.segs[..k], p.segs[k..];
    assert p.segs == ups + plain && [name] + p.segs == [name] + ups + plain;
    NormalPlain(false, [name] + ups, plain);
    UpFrom(name, ups);
    if k > 0 {
      assert ups[0] == ".." && p.segs[1..] == ups[1..] + plain;
    } else {
      assert [name] + [] == [name] && p.segs == plain && Plain(plain[0]);
    }
  }

  lemma SkipLast(segs: seq<string>, seg: string)
    requires seg == "" || seg == "."
    ensures Normal(false, segs + [seg]) == Normal(false, segs)
  {
    assert (segs + [seg])[..|segs|] == segs;
  }

  lemma OnlyName(name: string)
    requires Plain(name)
    ensures Normal(false, [name]) == [name]
  {
    NormalPlain(false, [], [name]);
    assert [] + [name] == [name];
  }

  lemma {:induction false} UpFrom(name: string, ups: seq<string>)
    requires Plain(name) && AllUp(ups)
    ensures Normal(false, [name] + ups) == if ups == [] then [name] else ups[1..]
    decreases |ups|
  {
    hide Normal, Plain, Push;
    if ups == [] {
      assert [name] + [] == [name];
      OnlyName(name);
    } else {
      var up := ups[..|ups| - 1];
      UpFrom(name, up);
      LastUp([name] + up);
      assert ups == up + [".."];
      assert [name] + ups == [name] + up + [".."];
      UpAgain(name, up);
    }
  }

  lemma LastUp(segs: seq<string>)
    ensures Normal(false, segs + [".."]) == Push(false, Normal(false, segs), "..")
  {
    assert (segs + [".."])[..|segs|] == segs;
  }

  lemma UpAgain(name: string, up: seq<string>)
    requires Plain(name) && AllUp(up)
    ensures Push(false, if up == [] then [name] else up[1..], "..") == (up + [".."])[1..]
  {
    if |up| > 1 {
      assert up[1..][|up| - 2] == up[|up| - 1];
    }
  }

  // ---------------------------------------------------------------- what is seen

  /** What a download left in its checkout, and what went wrong with it if anything did. */
  datatype Fetched = Fetched(tree: Archive.Disk, failure: Option<string>)

  /** What a look at a place in the work directory finds: a place in a checkout, no checkout, or
      something beyond the work directory. The work directory itself holds checkouts and no file of
      its own, so nothing of a bundle is found there. */
  datatype Sight =
    | In(tree: Archive.Disk, below: seq<string>)
    | Nothing(place: seq<string>)
    | Beyond

  function Named(count: nat, name: string): (r: Option<nat>)
    ensures r.Some? ==> r.value < count && CheckoutName(r.value) == name
    ensures r.None? ==> forall m :: 0 <= m < count ==> CheckoutName(m) != name
  {
    if count == 0 then None
    else if CheckoutName(count - 1) == name then Some(count - 1)
    else Named(count - 1, name)
  }

  function See(work: seq<Fetched>, place: seq<string>): Sight {
    if place == [] then Nothing(place)
    else if place[0] == ".." then Beyond
    else
      var m := Named(|work|, place[0]);
      if m.None? then Nothing(place) else In(work[m.value].tree, place[1..])
  }

  lemma SeesIn(work: seq<Fetched>, n: nat, below: seq<string>)
    requires n < |work|
    ensures See(work, [CheckoutName(n)] + below) == In(work[n].tree, below)
  {
    NamePlain(n);
    var m := Named(|work|, CheckoutName(n));
    if m.Some? {
      NamesDiffer(m.value, n);
    }
    assert ([CheckoutName(n)] + below)[1..] == below;
  }

  /** What is seen where: a place that leads up out of the work directory is beyond it, one that begins
      with the name of a checkout there is lies in that checkout, and there is no other. */
  lemma SeeAnswers(work: seq<Fetched>, place: seq<string>)
    ensures See(work, place).Beyond? <==> place != [] && place[0] == ".."
    ensures See(work, place).In? <==> exists n :: 0 <= n < |work| && place != [] && place[0] == CheckoutName(n)
    ensures forall n :: 0 <= n < |work| && place != [] && place[0] == CheckoutName(n) ==>
              See(work, place) == In(work[n].tree, place[1..])
    ensures See(work, place).Nothing? ==> See(work, place).place == place
  {
    forall n | 0 <= n < |work| && place != [] && place[0] == CheckoutName(n)
      ensures See(work, place) == In(work[n].tree, place[1..])
    {
      SeesIn(work, n, place[1..]);
      assert place == [CheckoutName(n)] + place[1..];
    }
  }

  /** A sub-path that stays inside sees its own checkout, whatever number that has. */
  lemma SeesOwn(work: seq<Fetched>, n: nat, subpath: string)
    requires n < |work| && !Climbs(subpath)
    ensures See(work, Where(n, subpath)) == In(work[n].tree, Parse(subpath).segs)
  {
    SeesIn(work, n, Parse(subpath).segs);
  }

  // ---------------------------------------------------------------- seeing no one else

  /** A climbing path from checkout `n` of `count` to `place` leads into a checkout exactly if it
      would were its own the only one, which is then number 0. */
  ghost predicate Lone(n: nat, count: nat, place: seq<string>) {
    place == [] ||
    ((place[0] == CheckoutName(0) ==> n == 0) && forall m :: 0 < m < count ==> place[0] != CheckoutName(m))
  }

  lemma LoneSeesAlike(work: seq<Fetched>, n: nat, place: seq<string>)
    requires n < |work| && Lone(n, |work|, place)
    ensures See(work, place) == See([work[n]], place)
  {
    if place != [] && place[0] == CheckoutName(0) {
      assert place == [CheckoutName(0)] + place[1..];
      SeesIn(work, 0, place[1..]);
      SeesIn([work[n]], 0, place[1..]);
    }
  }

  /** Otherwise it leads into a checkout `m` that is not its own, or that it has no right number for. */
  lemma LeadsInto(n: nat, count: nat, place: seq<string>) returns (m: nat)
    requires n < count && !Lone(n, count, place)
    ensures m < count && (m == 0 ==> n != 0) && place == [CheckoutName(m)] + place[1..]
  {
    if place[0] == CheckoutName(0) && n != 0 {
      m := 0;
    } else {
      m :| 0 < m < count && place[0] == CheckoutName(m);
    }
  }

  /** On its own it would find nothing there, or its own checkout in place of the first. */
  lemma SeesOther(work: seq<Fetched>, n: nat, m: nat, place: seq<string>)
    requires n < |work| && m < |work| && place != [] && place == [CheckoutName(m)] + place[1..]
    ensures See(work, place) == In(work[m].tree, place[1..])
    ensures See([work[n]], place) == if m == 0 then In(work[n].tree, place[1..]) else Nothing(place)
  {
    SeesIn(work, m, place[1..]);
    if m == 0 {
      SeesIn([work[n]], 0, place[1..]);
    } else {
      NamePlain(m);
      var o := Named(1, place[0]);
      if o.Some? {
        NamesDiffer(o.value, m);
      }
    }
  }
}
