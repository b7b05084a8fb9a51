/** Crawling a list of repositories, each downloaded at most once, and mirroring what validates
    into the registry. */
module Crawler {
  import opened Wrappers
  import Paths
  import opened WorkDir

  datatype Answer<+T> = Good(value: T) | Bad(text: string)

  // ---------------------------------------------------------------- repository URLs

  /** Host and path of a parsed URL. */
  datatype Place = Place(host: string, path: string)

  datatype Repo = Repo(owner: string, name: string, ref: string, subpath: string)

  function WithoutLeadingSlashes(s: string): string {
    if s != "" && s[0] == '/' then WithoutLeadingSlashes(s[1..]) else s
  }

  function WithoutTrailingSlashes(s: string): string {
    if s != "" && s[|s| - 1] == '/' then WithoutTrailingSlashes(s[..|s| - 1]) else s
  }

  function WithoutGit(s: string): string {
    if |s| >= 4 && s[|s| - 4..] == ".git" then s[..|s| - 4] else s
  }

  function ParseRepoURL(place: Answer<Place>): (r: Answer<Repo>)
    ensures r.Good? ==> '/' !in r.value.owner && '/' !in r.value.name
  {
    if place.Bad? then Bad(place.text)
    else if place.value.host != "github.com" then Bad("not a github.com URL")
    else
      var path := WithoutTrailingSlashes(WithoutLeadingSlashes(place.value.path));
      var parts := Paths.Split(path);
      Paths.SplitHasNoSlash(path);
      if |parts| < 2 || parts[0] == "" || parts[1] == "" then Bad("cannot parse owner/repo")
      else if |parts| >= 4 && parts[2] == "tree" then
        Good(Repo(parts[0], WithoutGit(parts[1]), parts[3], Paths.Join(parts[4..])))
      else Good(Repo(parts[0], WithoutGit(parts[1]), "", ""))
  }

  /** Where a GitHub URL with the given path segments points. */
  function OnGitHub(parts: seq<string>): Answer<Place> {
    Good(Place("github.com", "/" + Paths.Join(parts)))
  }

  lemma {:induction false} JoinEnds(parts: seq<string>)
    requires Paths.NoSlashes(parts) && parts != [] && parts[0] != "" && parts[|parts| - 1] != ""
    ensures var s := Paths.Join(parts); s != "" && s[0] != '/' && s[|s| - 1] != '/'
    decreases |parts|
  {
    JoinLast(parts);
    assert '/' !in parts[0];
  }

  lemma {:induction false} JoinLast(parts: seq<string>)
    requires Paths.NoSlashes(parts) && parts != [] && parts[|parts| - 1] != ""
    ensures var s := Paths.Join(parts); s != "" && s[|s| - 1] != '/'
    decreases |parts|
  {
    assert '/' !in parts[|parts| - 1];
    if |parts| > 1 {
      JoinLast(parts[1..]);
    }
  }

  /** What a name is without a ".git" at its end. */
  ghost predicate Shortened(name: string, short: string) {
    name == short + ".git" || (name == short && forall stem :: name != stem + ".git")
  }

  lemma WithoutGitShortens(name: string)
    ensures Shortened(name, WithoutGit(name))
  {
    var n := |name|;
    if n >= 4 && name[n - 4..] == ".git" {
      assert name == name[..n - 4] + ".git";
    } else {
      forall stem
        ensures name != stem + ".git"
      {
        assert (stem + ".git")[|stem|..] == ".git";
      }
    }
  }

  /** A URL written from owner, name, ref and sub-path is read back as exactly those, with ".git"
      taken off the name; without a ref it names the default branch. */
  lemma RepoURLRoundTrip(owner: string, name: string, ref: string, subpath: seq<string>)
    requires Paths.NoSlashes([owner, name, ref] + subpath)
    requires forall i :: 0 <= i < |subpath| ==> subpath[i] != ""
    requires owner != "" && name != "" && ref != ""
    ensures ParseRepoURL(OnGitHub([owner, name])) ==
            Good(Repo(owner, WithoutGit(name), "", ""))
    ensures ParseRepoURL(OnGitHub([owner, name, "tree", ref] + subpath)) ==
            Good(Repo(owner, WithoutGit(name), ref, Paths.Join(subpath)))
    ensures Shortened(name, WithoutGit(name))
  {
    WithoutGitShortens(name);
    hide OnGitHub, Paths.NoSlashes, Paths.Join, ParseRepoURL, WithoutGit;
    SegmentsPlain(owner, name, ref, subpath);
    var long := [owner, name, "tree", ref] + subpath;
    ReadParts([owner, name]);
    ReadParts(long);
    assert long[4..] == subpath;
  }

  lemma SegmentsPlain(owner: string, name: string, ref: string, subpath: seq<string>)
    requires Paths.NoSlashes([owner, name, ref] + subpath)
    ensures Paths.NoSlashes([owner, name]) && Paths.NoSlashes([owner, name, "tree", ref] + subpath)
  {
    var all := [owner, name, ref] + subpath;
    assert all[0] == owner && all[1] == name && all[2] == ref;
    assert forall i :: 0 <= i < |subpath| ==> all[i + 3] == subpath[i];
  }

  /** A GitHub URL, however many segments it has, is read exactly when it has an owner and a name. */
  lemma ReadParts(parts: seq<string>)
    requires Paths.NoSlashes(parts) && parts != [] && parts[0] != "" && parts[|parts| - 1] != ""
    ensures ParseRepoURL(OnGitHub(parts)).Good? <==> |parts| >= 2 && parts[1] != ""
    ensures |parts| >= 2 && parts[1] != "" ==>
              ParseRepoURL(OnGitHub(parts)) ==
              if |parts| >= 4 && parts[2] == "tree"
              then Good(Repo(parts[0], WithoutGit(parts[1]), parts[3], Paths.Join(parts[4..])))
              else Good(Repo(parts[0], WithoutGit(parts[1]), "", ""))
  {
    hide Paths.Split, Paths.Join, WithoutLeadingSlashes, WithoutTrailingSlashes, WithoutGit;
    ReadsBack(parts);
  }

  lemma OnlyGitHub(place: Answer<Place>)
    ensures ParseRepoURL(place).Good? ==> place.Good? && place.value.host == "github.com"
  {
  }

  lemma ReadsBack(parts: seq<string>)
    requires Paths.NoSlashes(parts) && parts != [] && parts[0] != "" && parts[|parts| - 1] != ""
    ensures Paths.Split(WithoutTrailingSlashes(WithoutLeadingSlashes("/" + Paths.Join(parts)))) == parts
  {
    hide Paths.Split, Paths.Join;
    var s := Paths.Join(parts);
    JoinEnds(parts);
    assert ("/" + s)[1..] == s;
    assert WithoutLeadingSlashes("/" + s) == WithoutLeadingSlashes(s) == s;
    assert WithoutTrailingSlashes(s) == s;
    Paths.SplitJoin(parts);
  }

  // ---------------------------------------------------------------- the cache key

  datatype Snapshot = Snapshot(owner: string, name: string, ref: string)

  function CacheKey(s: Snapshot): string {
    s.owner + "/" + s.name + "@" + s.ref
  }

  /** Keys coincide exactly when name and ref, joined by "@", do; so a key names one snapshot as
      long as repository names hold no "@". */
  lemma KeysCollideIff(a: Snapshot, b: Snapshot)
    requires '/' !in a.owner && '/' !in b.owner
    ensures CacheKey(a) == CacheKey(b) <==> a.owner == b.owner && a.name + "@" + a.ref == b.name + "@" + b.ref
    ensures '@' !in a.name && '@' !in b.name && CacheKey(a) == CacheKey(b) ==> a == b
  {
    Paths.FirstMark('/', a.owner, a.name + "@" + a.ref, b.owner, b.name + "@" + b.ref);
    assert CacheKey(a) == a.owner + "/" + (a.name + "@" + a.ref);
    assert CacheKey(b) == b.owner + "/" + (b.name + "@" + b.ref);
    if '@' !in a.name && '@' !in b.name {
      Paths.FirstMark('@', a.name, a.ref, b.name, b.ref);
    }
  }

  // ---------------------------------------------------------------- one entry

  datatype Bundle = Bundle(name: string, version: string, skills: seq<string>, hasMcp: bool)

  datatype Listed = Listed(title: string, url: string)

  /** What the outside world answers, the same whenever it is asked; `inspect` validates the bundle
      at a place in the work directory. */
  datatype Env = Env(
    locate: string -> Answer<Place>,
    branch: (string, string) -> Answer<string>,
    fetch: Snapshot -> Fetched,
    inspect: Sight -> Answer<Bundle>)

  datatype Put = Accepted | Conflicts | Refuses(text: string)

  /** What may change from one request to the next: the registry's replies, the commit date, and
      what lies beyond the work directory. */
  datatype Reply = Reply(known: Answer<bool>, date: Answer<int>, put: Put, outside: Answer<Bundle>)

  datatype Mirrored =
    | NotAsked
    | NoVersion
    | NotChecked(text: string)
    | Present
    | NoDate(text: string)
    | Uploaded(date: int)
    | NotUploaded(text: string, checkout: nat)

  /** Messages about a checkout carry its number, which shows in its directory's name. */
  datatype Outcome =
    | NotParsed(text: string)
    | NoBranch(text: string)
    | NotFetched(text: string, checkout: nat)
    | Invalid(text: string, checkout: nat)
    | Valid(bundle: Bundle, mirrored: Mirrored)

  datatype Result = Result(listed: Listed, repo: Option<Repo>, outcome: Outcome)

  /** Repository and ref an entry stands for; the default branch is looked up when none is given. */
  function Resolved(env: Env, e: Listed): Answer<Repo> {
    var parsed := ParseRepoURL(env.locate(e.url));
    if parsed.Bad? || parsed.value.ref != "" then parsed
    else
      var branch := env.branch(parsed.value.owner, parsed.value.name);
      if branch.Bad? then Bad(branch.text) else Good(parsed.value.(ref := branch.value))
  }

  function SnapshotOf(repo: Repo): Snapshot {
    Snapshot(repo.owner, repo.name, repo.ref)
  }

  /** Ask the registry first; upload only what it does not have. */
  function Mirror(version: string, reply: Reply, checkout: nat): Mirrored {
    if version == "" then NoVersion
    else if reply.known.Bad? then NotChecked(reply.known.text)
    else if reply.known.value then Present
    else if reply.date.Bad? then NoDate(reply.date.text)
    else
      match reply.put
      case Accepted => Uploaded(reply.date.value)
      case Conflicts => Present
      case Refuses(text) => NotUploaded(text, checkout)
  }

  /** The result for an entry whose snapshot is checkout number `n` of the work directory. */
  function Report(env: Env, mirror: bool, e: Listed, repo: Repo, work: seq<Fetched>, n: nat, reply: Reply): Result
    requires n < |work|
  {
    if work[n].failure.Some? then Result(e, Some(repo), NotFetched(work[n].failure.value, n))
    else
      var sight := See(work, Where(n, repo.subpath));
      var found := if sight.Beyond? then reply.outside else env.inspect(sight);
      match found
      case Bad(text) => Result(e, Some(repo), Invalid(text, n))
      case Good(bundle) =>
        Result(e, Some(repo), Valid(bundle, if mirror then Mirror(bundle.version, reply, n) else NotAsked))
  }

  function Unreached(env: Env, e: Listed): Result
    requires Resolved(env, e).Bad?
  {
    var parsed := ParseRepoURL(env.locate(e.url));
    match parsed
    case Bad(text) => Result(e, None, NotParsed(text))
    case Good(repo) => Result(e, Some(repo), NoBranch(Resolved(env, e).text))
  }

  /** An entry crawled on its own, in a work directory of its own. */
  function Alone(env: Env, mirror: bool, e: Listed, reply: Reply): Result {
    var repo := Resolved(env, e);
    if repo.Bad? then Unreached(env, e)
    else Report(env, mirror, e, repo.value, [env.fetch(SnapshotOf(repo.value))], 0, reply)
  }

  // ---------------------------------------------------------------- the whole list

  /** Position of the snapshot with the given key. */
  function Find(fetched: seq<Snapshot>, key: string): (r: Option<nat>)
    ensures r.Some? ==> r.value < |fetched| && CacheKey(fetched[r.value]) == key
    ensures r.None? ==> forall i :: 0 <= i < |fetched| ==> CacheKey(fetched[i]) != key
  {
    if fetched == [] then None
    else if CacheKey(fetched[|fetched| - 1]) == key then Some(|fetched| - 1)
    else Find(fetched[..|fetched| - 1], key)
  }

  /** Snapshots downloaded for a list of entries: those whose key did not come up before. */
  function Downloads(env: Env, entries: seq<Listed>): seq<Snapshot> {
    if entries == [] then []
    else
      var n := |entries| - 1;
      var fetched := Downloads(env, entries[..n]);
      var repo := Resolved(env, entries[n]);
      if repo.Bad? || Find(fetched, CacheKey(SnapshotOf(repo.value))).Some? then fetched
      else fetched + [SnapshotOf(repo.value)]
  }

  ghost predicate KeysDiffer(fetched: seq<Snapshot>) {
    forall i, j :: 0 <= i < j < |fetched| ==> CacheKey(fetched[i]) != CacheKey(fetched[j])
  }

  ghost predicate AsksFor(env: Env, entries: seq<Listed>, s: Snapshot) {
    exists i :: 0 <= i < |entries| && Asks(env, entries[i], s)
  }

  ghost predicate Asks(env: Env, e: Listed, s: Snapshot) {
    Resolved(env, e).Good? && SnapshotOf(Resolved(env, e).value) == s
  }

  /** Nothing is downloaded twice, nothing that no entry asks for, and for every entry's key
      something is. */
  lemma {:induction false} DownloadedOnce(env: Env, entries: seq<Listed>)
    ensures KeysDiffer(Downloads(env, entries))
    ensures forall s :: s in Downloads(env, entries) ==> AsksFor(env, entries, s)
    ensures forall i :: 0 <= i < |entries| && Resolved(env, entries[i]).Good? ==>
              Find(Downloads(env, entries), CacheKey(SnapshotOf(Resolved(env, entries[i]).value))).Some?
    decreases |entries|
  {
    hide Resolved, CacheKey, Find;
    if entries != [] {
      var n := |entries| - 1;
      DownloadedOnce(env, entries[..n]);
      var fetched := Downloads(env, entries[..n]);
      var all := Downloads(env, entries);
      assert fetched <= all;
      forall s | s in all
        ensures AsksFor(env, entries, s)
      {
        if s in fetched {
          var i :| 0 <= i < n && Asks(env, entries[..n][i], s);
          assert Asks(env, entries[i], s);
        } else {
          assert Asks(env, entries[n], s);
        }
      }
      forall i | 0 <= i < |entries| && Resolved(env, entries[i]).Good?
        ensures Find(all, CacheKey(SnapshotOf(Resolved(env, entries[i]).value))).Some?
      {
        var s := SnapshotOf(Resolved(env, entries[i]).value);
        assert i < n ==> entries[..n][i] == entries[i];
        if Find(fetched, CacheKey(s)).Some? {
          FindGrows(fetched, all, CacheKey(s));
        } else {
          assert all[|fetched|] == s;
        }
      }
    }
  }

  lemma FindGrows(a: seq<Snapshot>, b: seq<Snapshot>, key: string)
    requires a <= b && Find(a, key).Some?
    ensures Find(b, key).Some?
  {
    assert b[Find(a, key).value] == a[Find(a, key).value];
  }

  // ---------------------------------------------------------------- the checkouts

  /** The work directory after the given downloads. */
  function Work(env: Env, fetched: seq<Snapshot>): (r: seq<Fetched>)
    ensures |r| == |fetched| && forall k :: 0 <= k < |fetched| ==> r[k] == env.fetch(fetched[k])
  {
    seq(|fetched|, k requires 0 <= k < |fetched| => env.fetch(fetched[k]))
  }

  /** The checkout of entry `i`: whatever was first downloaded under its key. */
  function NumberOf(env: Env, entries: seq<Listed>, i: nat): (n: nat)
    requires i < |entries| && Resolved(env, entries[i]).Good?
    ensures var fetched := Downloads(env, entries[..i + 1]);
            n < |fetched| && CacheKey(fetched[n]) == CacheKey(SnapshotOf(Resolved(env, entries[i]).value))
  {
    DownloadedOnce(env, entries[..i + 1]);
    assert entries[..i + 1][i] == entries[i];
    Find(Downloads(env, entries[..i + 1]), CacheKey(SnapshotOf(Resolved(env, entries[i]).value))).value
  }

  /** Result number `i` of the crawl, made when the entries up to it had been downloaded. */
  ghost predicate Reported(env: Env, mirror: bool, entries: seq<Listed>, i: nat, reply: Reply, r: Result)
    requires i < |entries|
  {
    var repo := Resolved(env, entries[i]);
    if repo.Bad? then r == Unreached(env, entries[i])
    else
      var work := Work(env, Downloads(env, entries[..i + 1]));
      r == Report(env, mirror, entries[i], repo.value, work, NumberOf(env, entries, i), reply)
  }

  /** What mirroring a valid bundle of the given version comes to. */
  ghost predicate MirrorMeans(mirror: bool, version: string, reply: Reply, m: Mirrored) {
    var asked := mirror && version != "";
    var unknown := asked && reply.known.Good? && !reply.known.value;
    && (m.NotAsked? <==> !mirror)
    && (m.NoVersion? <==> mirror && version == "")
    && (m.NotChecked? <==> asked && reply.known.Bad?)
    && (m.NoDate? <==> unknown && reply.date.Bad?)
    && (m.Uploaded? <==> unknown && reply.date.Good? && reply.put.Accepted?)
    && (m.NotUploaded? <==> unknown && reply.date.Good? && reply.put.Refuses?)
    && (m.Present? <==> asked && reply.known.Good? &&
                        (reply.known.value || (reply.date.Good? && reply.put.Conflicts?)))
    && (m.Uploaded? ==> m.date == reply.date.value)
  }

  /** What a result says about its entry: the first thing that went wrong, with its message, or the
      bundle found in the checkout of the ref the URL names, or else of the default branch. */
  ghost predicate ResultMeans(env: Env, mirror: bool, entries: seq<Listed>, i: nat, reply: Reply, r: Result)
    requires i < |entries|
  {
    var parsed := ParseRepoURL(env.locate(entries[i].url));
    && r.listed == entries[i]
    && if parsed.Bad? then r.repo == None && r.outcome == NotParsed(parsed.text)
       else
         var repo := parsed.value;
         var branch := env.branch(repo.owner, repo.name);
         if repo.ref == "" && branch.Bad? then r.repo == Some(repo) && r.outcome == NoBranch(branch.text)
         else
           && r.repo == Some(repo.(ref := if repo.ref != "" then repo.ref else branch.value))
           && FoundMeans(env, mirror, Downloads(env, entries[..i + 1]), r.repo.value, reply, r.outcome)
  }

  ghost predicate FoundMeans(env: Env, mirror: bool, fetched: seq<Snapshot>, repo: Repo, reply: Reply, out: Outcome) {
    exists n: nat :: n < |fetched| && FoundIn(env, mirror, fetched, n, repo, reply, out)
  }

  /** The outcome is that of checkout `n`, which was downloaded under the key of the repository. */
  ghost predicate FoundIn(env: Env, mirror: bool, fetched: seq<Snapshot>, n: nat, repo: Repo, reply: Reply,
                          out: Outcome)
    requires n < |fetched|
  {
    var failure := env.fetch(fetched[n]).failure;
    var sight := See(Work(env, fetched), Where(n, repo.subpath));
    var found := if sight.Beyond? then reply.outside else env.inspect(sight);
    && CacheKey(fetched[n]) == CacheKey(Snapshot(repo.owner, repo.name, repo.ref))
    && if failure.Some? then out == NotFetched(failure.value, n)
       else if found.Bad? then out == Invalid(found.text, n)
       else out.Valid? && out.bundle == found.value && MirrorMeans(mirror, found.value.version, reply, out.mirrored)
  }

  lemma MirrorIs(version: string, reply: Reply, checkout: nat)
    ensures MirrorMeans(true, version, reply, Mirror(version, reply, checkout))
  {
  }

  lemma ReportMeans(env: Env, mirror: bool, entries: seq<Listed>, i: nat, reply: Reply, r: Result)
    requires i < |entries| && Reported(env, mirror, entries, i, reply, r)
    ensures ResultMeans(env, mirror, entries, i, reply, r)
  {
    hide ParseRepoURL, CacheKey, Downloads, See, Where, Mirror, MirrorMeans;
    var repo := Resolved(env, entries[i]);
    if repo.Good? {
      var n := NumberOf(env, entries, i);
      if r.outcome.Valid? {
        MirrorIs(r.outcome.bundle.version, reply, n);
        NotMirrored(r.outcome.bundle.version, reply);
      }
      assert FoundIn(env, mirror, Downloads(env, entries[..i + 1]), n, repo.value, reply, r.outcome);
    }
  }

  lemma NotMirrored(version: string, reply: Reply)
    ensures MirrorMeans(false, version, reply, NotAsked)
  {
  }

  ghost predicate Cached(fetched: seq<Snapshot>, cache: map<string, nat>) {
    && |cache| == |fetched|
    && (forall key :: key in cache <==> Find(fetched, key).Some?)
    && forall key :: key in cache ==> cache[key] == Find(fetched, key).value
  }

  lemma {:induction false} FindStays(fetched: seq<Snapshot>, s: Snapshot, key: string)
    requires Find(fetched, CacheKey(s)).None?
    ensures Find(fetched + [s], key) == if key == CacheKey(s) then Some(|fetched|) else Find(fetched, key)
  {
    assert (fetched + [s])[..|fetched|] == fetched;
  }

  lemma CacheAdds(fetched: seq<Snapshot>, cache: map<string, nat>, s: Snapshot)
    requires Cached(fetched, cache) && CacheKey(s) !in cache
    ensures Cached(fetched + [s], cache[CacheKey(s) := |cache|])
  {
    hide CacheKey, Find;
    forall key
      ensures Find(fetched + [s], key) == if key == CacheKey(s) then Some(|fetched|) else Find(fetched, key)
    {
      FindStays(fetched, s, key);
    }
  }

  /** How the list of downloads grows with one more entry. */
  lemma OneMoreEntry(env: Env, entries: seq<Listed>, i: nat, fetched: seq<Snapshot>, cache: map<string, nat>)
    requires i < |entries| && fetched == Downloads(env, entries[..i]) && Cached(fetched, cache)
    ensures var repo := Resolved(env, entries[i]);
            Downloads(env, entries[..i + 1]) ==
            if repo.Bad? || CacheKey(SnapshotOf(repo.value)) in cache then fetched
            else fetched + [SnapshotOf(repo.value)]
  {
    hide Resolved, CacheKey;
    assert entries[..i + 1][..i] == entries[..i];
  }

  lemma FromCache(env: Env, mirror: bool, entries: seq<Listed>, i: nat, cache: map<string, nat>, reply: Reply)
    requires i < |entries| && Resolved(env, entries[i]).Good?
    requires Cached(Downloads(env, entries[..i + 1]), cache)
    ensures var repo := Resolved(env, entries[i]).value; var fetched := Downloads(env, entries[..i + 1]);
            var key := CacheKey(SnapshotOf(repo));
            && key in cache && cache[key] < |fetched|
            && Reported(env, mirror, entries, i, reply,
                        Report(env, mirror, entries[i], repo, Work(env, fetched), cache[key], reply))
  {
    hide Resolved, CacheKey, Report, Downloads, Find;
    DownloadedOnce(env, entries[..i + 1]);
    assert entries[..i + 1][i] == entries[i];
  }

  /** Crawls every entry, in order. `fetched` lists the downloads made. */
  method Crawl(env: Env, mirror: bool, entries: seq<Listed>, replies: seq<Reply>)
    returns (results: seq<Result>, fetched: seq<Snapshot>)
    requires |replies| == |entries|
    ensures |results| == |entries| && fetched == Downloads(env, entries)
    ensures forall i :: 0 <= i < |entries| ==> Reported(env, mirror, entries, i, replies[i], results[i])
    ensures forall i :: 0 <= i < |entries| ==> ResultMeans(env, mirror, entries, i, replies[i], results[i])
  {
    hide ResultMeans, Resolved, CacheKey, Find, Report, Reported, Downloads, Work;
    var cache: map<string, nat> := map[];
    var work: seq<Fetched> := [];
    results, fetched := [], [];
    NothingDownloaded(env, entries);
    for i := 0 to |entries|
      invariant |results| == i && fetched == Downloads(env, entries[..i])
      invariant Cached(fetched, cache) && work == Work(env, fetched)
      invariant forall j :: 0 <= j < i ==> Reported(env, mirror, entries, j, replies[j], results[j])
    {
      hide Cached;
      OneMoreEntry(env, entries, i, fetched, cache);
      var e := entries[i];
      var repo := Resolved(env, e);
      if repo.Bad? {
        UnreachedReported(env, mirror, entries, i, replies[i]);
        results := results + [Unreached(env, e)];
        continue;
      }
      var snapshot := SnapshotOf(repo.value);
      var key := CacheKey(snapshot);
      if key !in cache {
        CacheAdds(fetched, cache, snapshot);
        WorkGrows(env, fetched, snapshot);
        work := work + [env.fetch(snapshot)];
        cache := cache[key := |cache|];
        fetched := fetched + [snapshot];
      }
      FromCache(env, mirror, entries, i, cache, replies[i]);
      results := results + [Report(env, mirror, e, repo.value, work, cache[key], replies[i])];
    }
    assert entries[..|entries|] == entries;
    ReportsMean(env, mirror, entries, replies, results);
  }

  lemma ReportsMean(env: Env, mirror: bool, entries: seq<Listed>, replies: seq<Reply>, results: seq<Result>)
    requires |results| == |replies| == |entries|
    requires forall i :: 0 <= i < |entries| ==> Reported(env, mirror, entries, i, replies[i], results[i])
    ensures forall i :: 0 <= i < |entries| ==> ResultMeans(env, mirror, entries, i, replies[i], results[i])
  {
    hide ResultMeans, Reported;
    forall i | 0 <= i < |entries|
      ensures ResultMeans(env, mirror, entries, i, replies[i], results[i])
    {
      ReportMeans(env, mirror, entries, i, replies[i], results[i]);
    }
  }

  lemma WorkGrows(env: Env, fetched: seq<Snapshot>, s: Snapshot)
    ensures Work(env, fetched + [s]) == Work(env, fetched) + [env.fetch(s)]
  {
  }

  lemma NothingDownloaded(env: Env, entries: seq<Listed>)
    ensures Downloads(env, entries[..0]) == [] && Cached([], map[]) && Work(env, []) == []
  {
  }

  lemma UnreachedReported(env: Env, mirror: bool, entries: seq<Listed>, i: nat, reply: Reply)
    requires i < |entries| && Resolved(env, entries[i]).Bad?
    ensures Reported(env, mirror, entries, i, reply, Unreached(env, entries[i]))
  {
  }
}
