/** Where a version's blob lives: a file path under the store's root, or an object key. */
module Keys {
  import opened Wrappers
  import opened Paths
  import opened Metadata

  predicate LowerOrDigit(c: char) {
    'a' <= c <= 'z' || '0' <= c <= '9'
  }

  /** A scope is a username. */
  predicate IsUsername(u: string) {
    && 1 <= |u| <= 40
    && LowerOrDigit(u[0]) && LowerOrDigit(u[|u| - 1])
    && forall i :: 0 <= i < |u| ==> LowerOrDigit(u[i]) || u[i] == '-'
  }

  predicate IsPluginName(n: string) {
    && n != ""
    && LowerOrDigit(n[0]) && LowerOrDigit(n[|n| - 1])
    && forall i :: 0 <= i < |n| ==> LowerOrDigit(n[i]) || n[i] == '-' || n[i] == '.'
  }

  /** The characters of a semantic version without its leading "v". */
  predicate HasVersionShape(v: string) {
    && v != "" && '0' <= v[0] <= '9'
    && forall i :: 0 <= i < |v| ==>
         LowerOrDigit(v[i]) || 'A' <= v[i] <= 'Z' || v[i] == '.' || v[i] == '-' || v[i] == '+'
  }

  ghost predicate Admissible(key: VersionKey) {
    IsUsername(key.plugin.scope) && IsPluginName(key.plugin.name) && HasVersionShape(key.version)
  }

  function KeySegments(key: VersionKey): seq<string> {
    [key.plugin.scope, key.plugin.name, key.version + ".tar.gz"]
  }

  function FilePath(root: string, key: VersionKey): string {
    PathJoin(root, Join(KeySegments(key)))
  }

  function ObjectKey(key: VersionKey): string {
    key.plugin.scope + "/" + key.plugin.name + "/" + key.version + ".tar.gz"
  }

  /** A staged upload sits next to its target; `suffix` is the random part of its name. */
  function StagingPath(root: string, key: VersionKey, suffix: string): string {
    PathJoin(root, Join([key.plugin.scope, key.plugin.name, ".upload-" + suffix]))
  }

  lemma NamesPlain(key: VersionKey)
    requires Admissible(key)
    ensures AllPlain(KeySegments(key))
    ensures Plain(key.plugin.scope) && Plain(key.plugin.name)
  {
    var file := key.version + ".tar.gz";
    assert file[0] == key.version[0] && |file| > 2;
    assert '/' !in ".tar.gz";
  }

  lemma Located(root: string, names: seq<string>)
    requires names != [] && AllPlain(names)
    ensures Parse(PathJoin(root, Join(names))) == Loc(Parse(root).rooted, Parse(root).segs + names)
  {
    hide Split, Join, Normal;
    if root != "" {
      JoinPlainNames(root, names);
    } else {
      RelativeNames(names);
      EmptyPath();
    }
  }

  lemma EmptyPath()
    ensures Parse("") == Loc(false, [])
  {
    assert [""][..0] == [];
  }

  lemma RelativeNames(names: seq<string>)
    requires names != [] && AllPlain(names)
    ensures Join(names) != "" && Parse(Clean(Join(names))) == Loc(false, [] + names)
  {
    JoinStarts(names);
    SplitJoin(names);
    CleanIdempotent(Join(names));
    NormalPlain(false, [], names);
    assert [] + names == names;
  }

  lemma SuffixInjective(a: string, b: string, suffix: string)
    requires a + suffix == b + suffix
    ensures a == b
  {
    assert |a| == |b|;
    assert (a + suffix)[..|a|] == a && (b + suffix)[..|b|] == b;
  }

  /** There are admissible versions. */
  lemma SomeAdmissible()
    ensures Admissible(VersionKey(PluginId("a", "b"), "1.0.0"))
  {
  }

  /** A version's file lies below the root under its scope, its name and its version. */
  lemma FilePathIs(root: string, key: VersionKey)
    requires Admissible(key)
    ensures Parse(FilePath(root, key)) ==
            Loc(Parse(root).rooted, Parse(root).segs + [key.plugin.scope, key.plugin.name, key.version + ".tar.gz"])
    ensures ObjectKey(key) == Join([key.plugin.scope, key.plugin.name, key.version + ".tar.gz"])
  {
    hide Parse;
    NamesPlain(key);
    Located(root, KeySegments(key));
    ObjectKeyIsJoin(key);
  }

  /** Two admissible versions share a file exactly when they are the same version, whatever the
      root and whatever cleaning does to it. */
  lemma FilePathInjective(root: string, k: VersionKey, l: VersionKey)
    requires Admissible(k) && Admissible(l)
    ensures FilePath(root, k) == FilePath(root, l) <==> k == l
  {
    if FilePath(root, k) == FilePath(root, l) {
      NamesPlain(k);
      NamesPlain(l);
      Located(root, KeySegments(k));
      Located(root, KeySegments(l));
      var base := Parse(root).segs;
      assert (base + KeySegments(k))[|base|..] == KeySegments(k);
      assert (base + KeySegments(l))[|base|..] == KeySegments(l);
      assert KeySegments(k)[0] == KeySegments(l)[0] && KeySegments(k)[1] == KeySegments(l)[1] &&
        KeySegments(k)[2] == KeySegments(l)[2];
      SuffixInjective(k.version, l.version, ".tar.gz");
    }
  }

  lemma ObjectKeyIsJoin(key: VersionKey)
    ensures ObjectKey(key) == Join(KeySegments(key))
  {
    var file := key.version + ".tar.gz";
    assert KeySegments(key)[1..] == [key.plugin.name, file];
    assert [key.plugin.name, file][1..] == [file];
    assert Join([file]) == file;
    assert Join([key.plugin.name, file]) == key.plugin.name + "/" + file;
    assert Join(KeySegments(key)) == key.plugin.scope + "/" + (key.plugin.name + "/" + file);
  }

  lemma ObjectKeyInjective(k: VersionKey, l: VersionKey)
    requires Admissible(k) && Admissible(l)
    ensures ObjectKey(k) == ObjectKey(l) <==> k == l
  {
    if ObjectKey(k) == ObjectKey(l) {
      ObjectKeyIsJoin(k);
      ObjectKeyIsJoin(l);
      NamesPlain(k);
      NamesPlain(l);
      SplitJoin(KeySegments(k));
      SplitJoin(KeySegments(l));
      assert KeySegments(k)[0] == KeySegments(l)[0] && KeySegments(k)[1] == KeySegments(l)[1] &&
        KeySegments(k)[2] == KeySegments(l)[2];
      SuffixInjective(k.version, l.version, ".tar.gz");
    }
  }

  /** A staged upload can never be taken for a published file, of this version or any other. */
  lemma StagingNeverTarget(root: string, k: VersionKey, suffix: string, l: VersionKey)
    requires Admissible(k) && Admissible(l) && '/' !in suffix
    ensures StagingPath(root, k, suffix) != FilePath(root, l)
  {
    var staged := [k.plugin.scope, k.plugin.name, ".upload-" + suffix];
    NamesPlain(k);
    NamesPlain(l);
    assert Plain(staged[2]) by {
      assert '/' !in ".upload-";
      assert |staged[2]| > 2;
    }
    Located(root, staged);
    Located(root, KeySegments(l));
    var base := Parse(root).segs;
    assert (base + staged)[|base|..][2] == staged[2] && staged[2][0] == '.';
    assert (base + KeySegments(l))[|base|..][2] == KeySegments(l)[2] && KeySegments(l)[2][0] == l.version[0];
  }
}
