/** When a crawl over many entries reports on each what crawling it alone would: the downloads are
    shared under cache keys, and the checkouts lie side by side in one work directory. */
module CrawlCache {
  import opened Wrappers
  import Paths
  import opened WorkDir
  import opened Crawler

  /** A result with the checkout's number left out of its messages. */
  function Unnumbered(r: Result): Result {
    match r.outcome
    case NotFetched(text, _) => r.(outcome := NotFetched(text, 0))
    case Invalid(text, _) => r.(outcome := Invalid(text, 0))
    case Valid(bundle, NotUploaded(text, _)) => r.(outcome := Valid(bundle, NotUploaded(text, 0)))
    case _ => r
  }

  /** The results say the same, but for the checkouts' numbers. */
  ghost predicate Alike(r: Result, q: Result) {
    && r.listed == q.listed && r.repo == q.repo
    && match (r.outcome, q.outcome)
       case (NotFetched(a, _), NotFetched(b, _)) => a == b
       case (Invalid(a, _), Invalid(b, _)) => a == b
       case (Valid(a, NotUploaded(x, _)), Valid(b, NotUploaded(y, _))) => a == b && x == y
       case (a, b) => a == b
  }

  lemma UnnumberedIff(r: Result, q: Result)
    ensures Unnumbered(r) == Unnumbered(q) <==> Alike(r, q)
  {
  }

  ghost predicate SameAsAlone(env: Env, mirror: bool, e: Listed, reply: Reply, r: Result) {
    Alike(r, Alone(env, mirror, e, reply))
  }

  // ---------------------------------------------------------------- keys

  /** No two entries ask for different snapshots under one key. */
  ghost predicate KeysTell(env: Env, entries: seq<Listed>) {
    forall s, t :: AsksFor(env, entries, s) && AsksFor(env, entries, t) && CacheKey(s) == CacheKey(t) ==> s == t
  }

  /** Repository names without "@" are enough. */
  lemma PlainNamesTell(env: Env, entries: seq<Listed>)
    requires forall i :: 0 <= i < |entries| && Resolved(env, entries[i]).Good? ==>
               '@' !in Resolved(env, entries[i]).value.name
    ensures KeysTell(env, entries)
  {
    forall s, t | AsksFor(env, entries, s) && AsksFor(env, entries, t) && CacheKey(s) == CacheKey(t)
      ensures s == t
    {
      var i :| 0 <= i < |entries| && Asks(env, entries[i], s);
      var j :| 0 <= j < |entries| && Asks(env, entries[j], t);
      KeysCollideIff(s, t);
    }
  }

  /** The snapshot whose checkout entry `i` is reported on. */
  ghost function Served(env: Env, entries: seq<Listed>, i: nat): Snapshot
    requires i < |entries| && Resolved(env, entries[i]).Good?
  {
    Downloads(env, entries[..i + 1])[NumberOf(env, entries, i)]
  }

  lemma ServedIsAsked(env: Env, entries: seq<Listed>, i: nat)
    requires i < |entries| && Resolved(env, entries[i]).Good?
    ensures AsksFor(env, entries, Served(env, entries, i))
  {
    hide Resolved, CacheKey;
    var s := Served(env, entries, i);
    DownloadedOnce(env, entries[..i + 1]);
    assert AsksFor(env, entries[..i + 1], s);
    var j :| 0 <= j < i + 1 && Asks(env, entries[..i + 1][j], s);
    assert Asks(env, entries[j], s);
  }

  lemma ServedItself(env: Env, entries: seq<Listed>, i: nat)
    requires KeysTell(env, entries) && i < |entries| && Resolved(env, entries[i]).Good?
    ensures Served(env, entries, i) == SnapshotOf(Resolved(env, entries[i]).value)
  {
    hide Resolved, CacheKey;
    ServedIsAsked(env, entries, i);
    assert Asks(env, entries[i], SnapshotOf(Resolved(env, entries[i]).value));
  }

  lemma {:induction false} DownloadsGrow(env: Env, entries: seq<Listed>, i: nat, j: nat)
    requires i <= j <= |entries|
    ensures Downloads(env, entries[..i]) <= Downloads(env, entries[..j])
    decreases j
  {
    hide Resolved, CacheKey, Find;
    if i < j {
      DownloadsGrow(env, entries, i, j - 1);
      assert entries[..j][..j - 1] == entries[..j - 1];
    }
  }

  /** Entries under one key are served one snapshot. */
  lemma ServedAlike(env: Env, entries: seq<Listed>, i: nat, j: nat)
    requires i <= j < |entries| && Resolved(env, entries[i]).Good? && Resolved(env, entries[j]).Good?
    requires CacheKey(SnapshotOf(Resolved(env, entries[i]).value)) ==
             CacheKey(SnapshotOf(Resolved(env, entries[j]).value))
    ensures Served(env, entries, i) == Served(env, entries, j)
  {
    hide Resolved, CacheKey, Downloads;
    DownloadsGrow(env, entries, i + 1, j + 1);
    DownloadedOnce(env, entries[..j + 1]);
  }

  // ---------------------------------------------------------------- places

  /** If entry `i` climbs, it climbs into no checkout of another entry, nor past its own. */
  ghost predicate OwnSight(env: Env, entries: seq<Listed>, i: nat)
    requires i < |entries|
  {
    var repo := Resolved(env, entries[i]);
    repo.Good? && Climbs(repo.value.subpath) ==>
      Lone(NumberOf(env, entries, i), |Downloads(env, entries[..i + 1])|, Where(0, repo.value.subpath))
  }

  ghost predicate KeepsApart(env: Env, entries: seq<Listed>) {
    forall i :: 0 <= i < |entries| ==> OwnSight(env, entries, i)
  }

  /** A place in a checkout can hold a bundle, and without any files it holds none. */
  ghost predicate Tells(inspect: Sight -> Answer<Bundle>, place: seq<string>) {
    && inspect(Nothing(place)).Bad?
    && (place != [] ==> inspect(In(map[], place[1..])).Bad? && exists tree :: inspect(In(tree, place[1..])).Good?)
  }

  /** Validation tells bundles from no bundles wherever the entries climb to. */
  ghost predicate Telling(env: Env, entries: seq<Listed>) {
    forall i :: 0 <= i < |entries| && Resolved(env, entries[i]).Good? ==>
      Climbs(Resolved(env, entries[i]).value.subpath) ==>
        Tells(env.inspect, Where(0, Resolved(env, entries[i]).value.subpath))
  }

  // ---------------------------------------------------------------- enough

  lemma ReportAlike(env: Env, mirror: bool, e: Listed, repo: Repo, work: seq<Fetched>, n: nat, reply: Reply)
    requires n < |work| && See(work, Where(n, repo.subpath)) == See([work[n]], Where(0, repo.subpath))
    ensures Unnumbered(Report(env, mirror, e, repo, work, n, reply)) ==
            Unnumbered(Report(env, mirror, e, repo, [work[n]], 0, reply))
  {
    hide See, Where;
  }

  lemma SightAlike(work: seq<Fetched>, n: nat, subpath: string)
    requires n < |work| && (Climbs(subpath) ==> Lone(n, |work|, Where(0, subpath)))
    ensures See(work, Where(n, subpath)) == See([work[n]], Where(0, subpath))
  {
    hide See, Lone;
    if Climbs(subpath) {
      LoneSeesAlike(work, n, Where(0, subpath));
    } else {
      SeesOwn(work, n, subpath);
      SeesOwn([work[n]], 0, subpath);
    }
  }

  /** When keys tell snapshots apart and nobody climbs to a neighbour, every result is what its
      entry gives on its own. */
  lemma CacheUnseen(env: Env, mirror: bool, entries: seq<Listed>, i: nat, reply: Reply, r: Result)
    requires KeysTell(env, entries) && i < |entries| && OwnSight(env, entries, i)
    requires Reported(env, mirror, entries, i, reply, r)
    ensures SameAsAlone(env, mirror, entries[i], reply, r)
  {
    hide Resolved, CacheKey, Report, Unnumbered, Alike, Unreached, Downloads, See, Where, Lone, KeysTell;
    UnnumberedIff(r, Alone(env, mirror, entries[i], reply));
    var repo := Resolved(env, entries[i]);
    if repo.Good? {
      ServedItself(env, entries, i);
      var work := Work(env, Downloads(env, entries[..i + 1]));
      var n := NumberOf(env, entries, i);
      SightAlike(work, n, repo.value.subpath);
      ReportAlike(env, mirror, entries[i], repo.value, work, n, reply);
    }
  }

  // ---------------------------------------------------------------- needed

  function Fetching(env: Env, fetch: Snapshot -> Fetched): Env {
    env.(fetch := fetch)
  }

  lemma SameResolved(env: Env, fetch: Snapshot -> Fetched, e: Listed)
    ensures Resolved(Fetching(env, fetch), e) == Resolved(env, e)
  {
  }

  lemma {:induction false} SameDownloads(env: Env, fetch: Snapshot -> Fetched, entries: seq<Listed>)
    ensures Downloads(Fetching(env, fetch), entries) == Downloads(env, entries)
    decreases |entries|
  {
    hide CacheKey;
    if entries != [] {
      SameDownloads(env, fetch, entries[..|entries| - 1]);
    }
  }

  lemma SameNumber(env: Env, fetch: Snapshot -> Fetched, entries: seq<Listed>, i: nat)
    requires i < |entries| && Resolved(env, entries[i]).Good?
    ensures Resolved(Fetching(env, fetch), entries[i]) == Resolved(env, entries[i])
    ensures NumberOf(Fetching(env, fetch), entries, i) == NumberOf(env, entries, i)
    ensures Downloads(Fetching(env, fetch), entries[..i + 1]) == Downloads(env, entries[..i + 1])
  {
    hide CacheKey, Find, Downloads, Resolved;
    SameResolved(env, fetch, entries[i]);
    SameDownloads(env, fetch, entries[..i + 1]);
  }

  lemma SameConditions(env: Env, fetch: Snapshot -> Fetched, entries: seq<Listed>, i: nat)
    requires KeysTell(env, entries) && i < |entries| && OwnSight(env, entries, i)
    ensures KeysTell(Fetching(env, fetch), entries) && OwnSight(Fetching(env, fetch), entries, i)
  {
    hide CacheKey, Resolved, Lone, Where, Downloads;
    SameResolved(env, fetch, entries[i]);
    if Resolved(env, entries[i]).Good? {
      SameNumber(env, fetch, entries, i);
    }
    forall s | AsksFor(Fetching(env, fetch), entries, s)
      ensures AsksFor(env, entries, s)
    {
      var j :| 0 <= j < |entries| && Asks(Fetching(env, fetch), entries[j], s);
      SameResolved(env, fetch, entries[j]);
      assert Asks(env, entries[j], s);
    }
  }

  /** Whatever downloading gives, every result is what its entry gives on its own. */
  ghost predicate Seamless(env: Env, mirror: bool, entries: seq<Listed>) {
    forall fetch, i: nat, reply, r ::
      i < |entries| && Reported(Fetching(env, fetch), mirror, entries, i, reply, r) ==>
        SameAsAlone(Fetching(env, fetch), mirror, entries[i], reply, r)
  }

  const UNASKED := Reply(Bad(""), Bad(""), Refuses(""), Bad(""))

  /** What entry `i` is reported as when downloading gives `fetch`. */
  lemma ReportShows(env: Env, mirror: bool, entries: seq<Listed>, fetch: Snapshot -> Fetched, i: nat)
    requires i < |entries| && Resolved(env, entries[i]).Good?
    requires var repo := Resolved(env, entries[i]).value; var shown := Fetching(env, fetch);
             var work := Work(shown, Downloads(env, entries[..i + 1]));
             Unnumbered(Report(shown, mirror, entries[i], repo, work, NumberOf(env, entries, i), UNASKED)) !=
             Unnumbered(Report(shown, mirror, entries[i], repo, [fetch(SnapshotOf(repo))], 0, UNASKED))
    ensures !Seamless(env, mirror, entries)
  {
    hide Resolved, Downloads, Report, Unnumbered, Alike, Unreached;
    var shown := Fetching(env, fetch);
    SameNumber(env, fetch, entries, i);
    var work := Work(shown, Downloads(env, entries[..i + 1]));
    var repo := Resolved(env, entries[i]).value;
    var r := Report(shown, mirror, entries[i], repo, work, NumberOf(env, entries, i), UNASKED);
    assert Reported(shown, mirror, entries, i, UNASKED, r);
    UnnumberedIff(r, Alone(shown, mirror, entries[i], UNASKED));
    assert !SameAsAlone(shown, mirror, entries[i], UNASKED, r);
  }

  /** A snapshot served under another's key shows: one download may fail and the other not. */
  lemma CollisionShows(env: Env, mirror: bool, entries: seq<Listed>, i: nat)
    requires i < |entries| && Resolved(env, entries[i]).Good?
    requires Served(env, entries, i) != SnapshotOf(Resolved(env, entries[i]).value)
    ensures !Seamless(env, mirror, entries)
  {
    hide Resolved, Downloads, CacheKey, Mirror, See, Where;
    var s := SnapshotOf(Resolved(env, entries[i]).value);
    ReportShows(env, mirror, entries, x => if x == s then Fetched(map[], Some("")) else Fetched(map[], None), i);
  }

  /** So does a bundle found in another entry's checkout. */
  lemma NeighbourShows(env: Env, mirror: bool, entries: seq<Listed>, i: nat)
    requires KeysTell(env, entries) && Telling(env, entries) && i < |entries| && !OwnSight(env, entries, i)
    ensures !Seamless(env, mirror, entries)
  {
    hide Resolved, Downloads, CacheKey, Mirror, See, Where, KeysTell, Lone;
    var repo := Resolved(env, entries[i]).value;
    var fetched := Downloads(env, entries[..i + 1]);
    var n := NumberOf(env, entries, i);
    var s := SnapshotOf(repo);
    var place := Where(0, repo.subpath);
    var m := LeadsInto(n, |fetched|, place);
    assert Tells(env.inspect, place);
    var tree :| env.inspect(In(tree, place[1..])).Good?;
    ServedItself(env, entries, i);
    if n != 0 {
      OtherFirst(env, entries, i);
    }
    ClimbsAlike(n, repo.subpath);
    var fetch: Snapshot -> Fetched := x => Fetched(if x == s && m == 0 then map[] else tree, None);
    var work := Work(Fetching(env, fetch), fetched);
    SeesOther(work, n, m, place);
    assert fetch(s) == work[n];
    ClimbShows(Fetching(env, fetch), mirror, entries[i], repo, work, n);
    ReportShows(env, mirror, entries, fetch, i);
  }

  /** The first checkout, if it is not entry `i`'s own, is of another snapshot. */
  lemma OtherFirst(env: Env, entries: seq<Listed>, i: nat)
    requires KeysTell(env, entries) && i < |entries| && Resolved(env, entries[i]).Good?
    requires NumberOf(env, entries, i) != 0
    ensures Downloads(env, entries[..i + 1])[0] != SnapshotOf(Resolved(env, entries[i]).value)
  {
    hide Resolved, Downloads, CacheKey;
    ServedItself(env, entries, i);
    DownloadedOnce(env, entries[..i + 1]);
  }

  lemma ClimbsAlike(n: nat, subpath: string)
    requires Climbs(subpath)
    ensures Where(n, subpath) == Where(0, subpath)
  {
  }

  lemma ClimbShows(env: Env, mirror: bool, e: Listed, repo: Repo, work: seq<Fetched>, n: nat)
    requires n < |work| && work[n].failure.None? && Climbs(repo.subpath)
    requires var sight := See(work, Where(n, repo.subpath)); !sight.Beyond? && env.inspect(sight).Good?
    requires var sight := See([work[n]], Where(0, repo.subpath)); !sight.Beyond? && env.inspect(sight).Bad?
    ensures Unnumbered(Report(env, mirror, e, repo, work, n, UNASKED)) !=
            Unnumbered(Report(env, mirror, e, repo, [work[n]], 0, UNASKED))
  {
    hide See, Where, Mirror;
  }

  /** Every result is what its entry gives on its own, for all downloads, exactly when no two entries
      ask for different snapshots under one key and none climbs into another's checkout. */
  lemma CacheUnseenIff(env: Env, mirror: bool, entries: seq<Listed>)
    requires Telling(env, entries)
    ensures Seamless(env, mirror, entries) <==> KeysTell(env, entries) && KeepsApart(env, entries)
  {
    hide KeysTell, Telling, OwnSight, Seamless;
    if !KeysTell(env, entries) {
      UntoldShows(env, mirror, entries);
    } else if KeepsApart(env, entries) {
      ApartIsSeamless(env, mirror, entries);
    } else {
      var i :| 0 <= i < |entries| && !OwnSight(env, entries, i);
      NeighbourShows(env, mirror, entries, i);
    }
  }

  lemma UntoldShows(env: Env, mirror: bool, entries: seq<Listed>)
    requires !KeysTell(env, entries)
    ensures !Seamless(env, mirror, entries)
  {
    hide Resolved, CacheKey, Served, Seamless;
    var s, t :| AsksFor(env, entries, s) && AsksFor(env, entries, t) && CacheKey(s) == CacheKey(t) && s != t;
    var i :| 0 <= i < |entries| && Asks(env, entries[i], s);
    var j :| 0 <= j < |entries| && Asks(env, entries[j], t);
    ServedAlike(env, entries, if i <= j then i else j, if i <= j then j else i);
    CollisionShows(env, mirror, entries, if Served(env, entries, i) != s then i else j);
  }

  /** Whatever validation looks for. */
  lemma ApartIsSeamless(env: Env, mirror: bool, entries: seq<Listed>)
    requires KeysTell(env, entries) && KeepsApart(env, entries)
    ensures Seamless(env, mirror, entries)
  {
    hide KeysTell, OwnSight, Reported, SameAsAlone;
    forall fetch, i: nat, reply, r |
      i < |entries| && Reported(Fetching(env, fetch), mirror, entries, i, reply, r)
      ensures SameAsAlone(Fetching(env, fetch), mirror, entries[i], reply, r)
    {
      SameConditions(env, fetch, entries, i);
      CacheUnseen(Fetching(env, fetch), mirror, entries, i, reply, r);
    }
  }

  /** A list that shows the difference, though its names are plain: the second entry's URL ends in
      "tree/<ref>/../repo-0", which is the first entry's checkout. */
  lemma NeighbourInReach(env: Env, mirror: bool, first: Listed, second: Listed, owner: string, name: string,
                         ref: string)
    requires Paths.NoSlashes([owner, name, ref]) && owner != "" && name != "" && ref != ""
    requires env.locate(second.url) == OnGitHub([owner, name, "tree", ref] + ["..", "repo-0"])
    requires Resolved(env, first).Good?
    requires SnapshotOf(Resolved(env, first).value) != Snapshot(owner, WithoutGit(name), ref)
    requires '@' !in WithoutGit(name) && '@' !in Resolved(env, first).value.name
    requires Telling(env, [first, second])
    ensures KeysTell(env, [first, second]) && !Seamless(env, mirror, [first, second])
  {
    hide Paths.NoSlashes, OnGitHub, Resolved, KeysTell, OwnSight, Telling, Seamless, WithoutGit;
    var entries := [first, second];
    SecondResolves(env, second, owner, name, ref);
    PlainNamesTell(env, entries);
    var n := NumberOf(env, entries, 1);
    ToFirst();
    OneDownload(env, entries);
    ServedItself(env, entries, 1);
    NotOwn(env, entries);
    NeighbourShows(env, mirror, entries, 1);
  }

  lemma SecondResolves(env: Env, second: Listed, owner: string, name: string, ref: string)
    requires Paths.NoSlashes([owner, name, ref]) && owner != "" && name != "" && ref != ""
    requires env.locate(second.url) == OnGitHub([owner, name, "tree", ref] + ["..", "repo-0"])
    ensures Resolved(env, second) == Good(Repo(owner, WithoutGit(name), ref, "../repo-0"))
  {
    hide OnGitHub, WithoutGit, ParseRepoURL;
    var up := ["..", "repo-0"];
    var all := [owner, name, ref] + up;
    assert Paths.NoSlashes(all) by {
      forall i | 0 <= i < |all|
        ensures '/' !in all[i]
      {
        assert i < 3 ==> all[i] == [owner, name, ref][i];
      }
    }
    RepoURLRoundTrip(owner, name, ref, up);
    JoinUp();
  }

  lemma ToFirst()
    ensures Climbs("../repo-0") && Where(0, "../repo-0") == [CheckoutName(0)]
  {
    hide Paths.Split, Paths.Join, Paths.Normal;
    var up := ["..", "repo-0"];
    JoinUp();
    Paths.SplitJoin(up);
    Paths.NormalUp(1, [".."]);
    Paths.NormalPlain(false, [".."], ["repo-0"]);
    assert [".."] + ["repo-0"] == up && up[1..] == ["repo-0"];
    FirstName();
  }

  lemma FirstName()
    ensures CheckoutName(0) == "repo-0"
  {
    assert Digits(0) == "0";
  }

  lemma JoinUp()
    ensures Paths.Join(["..", "repo-0"]) == "../repo-0"
  {
    assert ["..", "repo-0"][1..] == ["repo-0"];
  }

  lemma OneDownload(env: Env, entries: seq<Listed>)
    requires |entries| == 2 && Resolved(env, entries[0]).Good?
    ensures |Downloads(env, entries[..2])| > 0
    ensures Downloads(env, entries[..2])[0] == SnapshotOf(Resolved(env, entries[0]).value)
  {
    hide Resolved, CacheKey;
    assert entries[..1][..0] == [] && entries[..1][0] == entries[0];
    assert Downloads(env, entries[..1]) == [SnapshotOf(Resolved(env, entries[0]).value)];
    DownloadsGrow(env, entries, 1, 2);
  }

  lemma NotOwn(env: Env, entries: seq<Listed>)
    requires |entries| == 2 && Resolved(env, entries[1]).Good? && Resolved(env, entries[1]).value.subpath == "../repo-0"
    requires NumberOf(env, entries, 1) != 0
    ensures !OwnSight(env, entries, 1)
  {
    hide Resolved, CacheKey, Downloads;
    ToFirst();
  }
}
