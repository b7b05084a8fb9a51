/** Mirroring against the registry: what a crawl may conclude from the registry's replies. */
module Mirroring {
  import opened Wrappers
  import opened Metadata
  import opened Publishing
  import opened PublishSafety
  import Crawler
  import Keys
  import Ownership

  // ---------------------------------------------------------------- registry histories

  ghost predicate Advances(w: World, s: State, t: State) {
    exists step :: Next(w, s, step) == Some(t)
  }

  /** The registry's states one after the other, over any number of crawls and other clients. */
  ghost predicate History(w: World, run: seq<State>) {
    && |run| > 0 && run[0] == INITIAL
    && forall i :: 0 < i < |run| ==> Advances(w, run[i - 1], run[i])
  }

  lemma {:induction false} HistorySound(w: World, run: seq<State>, i: nat)
    requires History(w, run) && i < |run|
    ensures Sound(w, run[i])
  {
    hide Sound;
    if i == 0 {
      InitialSound(w);
    } else {
      HistorySound(w, run, i - 1);
      assert Advances(w, run[i - 1], run[i]);
      var step :| Next(w, run[i - 1], step) == Some(run[i]);
      StepSound(w, run[i - 1], step);
    }
  }

  lemma {:induction false} RowsStay(w: World, run: seq<State>, i: nat, j: nat, key: VersionKey)
    requires History(w, run) && i <= j < |run| && key in run[i].tables.versions
    ensures key in run[j].tables.versions
    decreases j
  {
    hide Next, RowsKept;
    if i < j {
      RowsStay(w, run, i, j - 1, key);
      assert Advances(w, run[j - 1], run[j]);
      var step :| Next(w, run[j - 1], step) == Some(run[j]);
      StepKeepsRows(w, run[j - 1], step);
      KeptRow(run[j - 1].tables, run[j].tables, key);
    }
  }

  lemma {:induction false} HistoryOwned(w: World, run: seq<State>, i: nat)
    requires History(w, run) && i < |run|
    ensures Ownership.Owned(w, run[i])
  {
    hide Ownership.Owned, Sound;
    if i == 0 {
      Ownership.NobodyYet(w);
    } else {
      HistoryOwned(w, run, i - 1);
      HistorySound(w, run, i - 1);
      assert Advances(w, run[i - 1], run[i]);
      var step :| Next(w, run[i - 1], step) == Some(run[i]);
      Ownership.StepOwned(w, run[i - 1], step);
    }
  }

  // ---------------------------------------------------------------- URLs

  /** What the server takes a URL for that was made by splicing in a plugin and a version as they
      are, without escaping. */
  datatype Target = OfVersion(key: VersionKey) | Elsewhere

  type Routes = (PluginId, string) -> Target

  /** A URL's path ends where its query or its fragment begins. */
  function PathPart(s: string): string {
    if s == "" || s[0] == '?' || s[0] == '#' then "" else [s[0]] + PathPart(s[1..])
  }

  predicate Unreserved(c: char) {
    'a' <= c <= 'z' || 'A' <= c <= 'Z' || '0' <= c <= '9' || c in "-._~+"
  }

  predicate PlainSegment(v: string) {
    v != "" && v != "." && v != ".." && forall i :: 0 <= i < |v| ==> Unreserved(v[i])
  }

  /** A plain path segment is taken as it is written; what decoding, cleaning and routing make of
      any other is left open. */
  ghost predicate Straight(routes: Routes) {
    forall plugin, v :: PlainSegment(v) ==> routes(plugin, v) == OfVersion(VersionKey(plugin, v))
  }

  function Asked(routes: Routes, key: VersionKey): Target {
    routes(key.plugin, PathPart(key.version))
  }

  ghost predicate Shaped(w: World) {
    forall v :: w.semver(v) ==> Keys.HasVersionShape(v)
  }

  lemma {:induction false} PathPartPlain(v: string)
    requires forall i :: 0 <= i < |v| ==> Unreserved(v[i])
    ensures PathPart(v) == v
    decreases |v|
  {
    if v != "" {
      assert Unreserved(v[0]);
      PathPartPlain(v[1..]);
    }
  }

  lemma AskedDirectly(routes: Routes, key: VersionKey)
    requires Straight(routes) && PlainSegment(key.version)
    ensures Asked(routes, key) == OfVersion(key)
  {
    PathPartPlain(key.version);
  }

  lemma SemverIsPlain(w: World, v: string)
    requires Shaped(w) && w.semver(v)
    ensures PlainSegment(v) && ReadableName(v)
  {
    assert Keys.HasVersionShape(v);
  }

  lemma {:induction false} PathPartCuts(v: string, rest: string)
    requires forall i :: 0 <= i < |v| ==> Unreserved(v[i])
    requires rest != "" && (rest[0] == '?' || rest[0] == '#')
    ensures PathPart(v + rest) == v
    decreases |v|
  {
    if v == "" {
      assert v + rest == rest;
    } else {
      assert Unreserved(v[0]);
      assert (v + rest)[1..] == v[1..] + rest;
      PathPartCuts(v[1..], rest);
    }
  }

  // ---------------------------------------------------------------- replies

  /** Whether the registry could read its store for the look-up, the state it answered from, and
      the publisher that the upload became, if it came to one. */
  datatype Visit = Visit(readable: bool, k: nat, id: int)

  /** The reply to a look-up: "known" is status 200, and any other status counts as unknown, be it
      that there is no such version or that the registry could not tell. */
  ghost predicate LookedUp(run: seq<State>, routes: Routes, key: VersionKey, known: bool, visit: Visit) {
    visit.k < |run| &&
    match Asked(routes, key)
    case OfVersion(t) => known == (visit.readable && Resolve(run[visit.k].tables, t.plugin, t.version).Some?)
    case Elsewhere => true
  }

  /** Publisher `id` was the upload to `target` of a bundle with the name and version of `key`. */
  ghost predicate Sent(s: State, id: int, target: VersionKey, key: VersionKey) {
    && id in s.publishers && s.publishers[id].phase.Finished?
    && s.publishers[id].input.key == target
    && s.publishers[id].input.bundleName == key.plugin.name
    && s.publishers[id].input.bundleVersion == key.version
  }

  ghost predicate Put(s: State, id: int, target: VersionKey, key: VersionKey, put: Crawler.Put) {
    && (put.Accepted? ==> Sent(s, id, target, key) && s.publishers[id].phase.result.Published?)
    && (put.Conflicts? ==> Sent(s, id, target, key) && s.publishers[id].phase.result.AlreadyExists?)
  }

  /** The replies about `key` are those of the registry. */
  ghost predicate Genuine(run: seq<State>, routes: Routes, key: VersionKey, reply: Crawler.Reply, visit: Visit)
    requires |run| > 0
  {
    && (reply.known.Good? ==> LookedUp(run, routes, key, reply.known.value, visit))
    && (Asked(routes, key).OfVersion? ==> Put(run[|run| - 1], visit.id, Asked(routes, key).key, key, reply.put))
  }

  predicate IsPublished(m: Crawler.Mirrored) {
    m.Present? || m.Uploaded?
  }

  /** The crawler goes as far as sending the upload. */
  predicate Attempts(version: string, reply: Crawler.Reply) {
    version != "" && reply.known.Good? && !reply.known.value && reply.date.Good?
  }

  /** A version reported published has its row and its blob exactly when it is a semantic version:
      the registry has no others, whatever a look-up or an upload under its name came back with. */
  lemma PublishedHasRow(w: World, run: seq<State>, routes: Routes, key: VersionKey, reply: Crawler.Reply, visit: Visit,
                        checkout: nat)
    requires Shaped(w) && History(w, run) && Straight(routes) && Genuine(run, routes, key, reply, visit)
    requires IsPublished(Crawler.Mirror(key.version, reply, checkout))
    ensures var end := run[|run| - 1];
            && (key in end.tables.versions <==> w.semver(key.version))
            && (key in end.tables.versions ==> key in end.blobs)
  {
    hide Sound, History, Replay, Straight, Shaped;
    var n := |run| - 1;
    HistorySound(w, run, n);
    if key in run[n].tables.versions {
      RowBacked(w, run[n], key);
    } else if w.semver(key.version) {
      SemverIsPlain(w, key.version);
      AskedDirectly(routes, key);
      if reply.known.Good? && reply.known.value {
        RowsStay(w, run, visit.k, n, key);
      } else {
        SentHasRow(w, run[n], key, visit.id);
      }
    }
  }

  lemma SentHasRow(w: World, s: State, key: VersionKey, id: int)
    requires Sound(w, s) && Sent(s, id, key, key)
    requires s.publishers[id].phase.result.Published? || s.publishers[id].phase.result.AlreadyExists?
    ensures key in s.tables.versions
  {
    KnownOk(w, s, id);
  }

  /** The same for a whole crawl. */
  lemma PublishedResultHasRow(w: World, run: seq<State>, routes: Routes, scope: string, env: Crawler.Env,
                              entries: seq<Crawler.Listed>, i: nat, reply: Crawler.Reply, r: Crawler.Result,
                              visit: Visit)
    requires Shaped(w) && History(w, run) && Straight(routes)
    requires i < |entries| && Crawler.Reported(env, true, entries, i, reply, r)
    requires r.outcome.Valid? && IsPublished(r.outcome.mirrored)
    requires var key := VersionKey(PluginId(scope, r.outcome.bundle.name), r.outcome.bundle.version);
             Genuine(run, routes, key, reply, visit)
    ensures var key := VersionKey(PluginId(scope, r.outcome.bundle.name), r.outcome.bundle.version);
            key in run[|run| - 1].tables.versions <==> w.semver(key.version)
  {
    hide Sound, History, Genuine, IsPublished, Shaped, Straight, Crawler.Resolved, Crawler.CacheKey, Crawler.Mirror;
    var key := VersionKey(PluginId(scope, r.outcome.bundle.name), r.outcome.bundle.version);
    var n := Crawler.NumberOf(env, entries, i);
    PublishedHasRow(w, run, routes, key, reply, visit, n);
  }

  // ---------------------------------------------------------------- uploads

  /** Over any number of crawls the registry accepts at most one upload of a semantic version and
      none of any other; replies that say otherwise come from somewhere else. */
  lemma AcceptedOnce(w: World, run: seq<State>, routes: Routes, key: VersionKey,
                     first: Crawler.Reply, i: Visit, second: Crawler.Reply, j: Visit, m: nat, n: nat)
    requires Shaped(w) && History(w, run) && Straight(routes)
    requires Genuine(run, routes, key, first, i) && Genuine(run, routes, key, second, j)
    requires Crawler.Mirror(key.version, first, m).Uploaded? && Crawler.Mirror(key.version, second, n).Uploaded?
    ensures if w.semver(key.version) then i.id == j.id else Asked(routes, key).Elsewhere?
  {
    hide Sound, History, Straight, Shaped;
    var end := run[|run| - 1];
    HistorySound(w, run, |run| - 1);
    if w.semver(key.version) {
      SemverIsPlain(w, key.version);
      AskedDirectly(routes, key);
      OneWins(w, end, i.id, j.id);
    } else if Asked(routes, key).OfVersion? {
      HistoryOwned(w, run, |run| - 1);
      SentIsVetted(w, end, i.id, Asked(routes, key).key, key);
    }
  }

  lemma OneWins(w: World, s: State, i: int, j: int)
    requires Sound(w, s) && i in s.publishers && j in s.publishers
    ensures SameWin(s, i, j) ==> i == j
  {
  }

  lemma SentIsVetted(w: World, s: State, id: int, target: VersionKey, key: VersionKey)
    requires Ownership.Owned(w, s) && Sent(s, id, target, key) && Ownership.LetThrough(s.publishers[id].phase)
    ensures w.semver(key.version)
  {
    assert Ownership.Vetted(w, s.publishers[id]);
  }

  ghost predicate WonBy(s: State, id: int, key: VersionKey) {
    id in s.publishers && s.publishers[id].input.key == key && Won(s.publishers[id])
  }

  lemma WinsNewRow(w: World, s: State, step: Step, id: int, key: VersionKey)
    requires Next(w, s, step).Some? && WonBy(Next(w, s, step).value, id, key) && !WonBy(s, id, key)
    ensures key !in s.tables.versions
  {
    hide Run;
    WinOrigin(w, s, step, id);
  }

  /** A publisher that has not won a version by the time it has its row never will. */
  lemma {:induction false} NeverWins(w: World, run: seq<State>, i: nat, j: nat, id: int, key: VersionKey)
    requires History(w, run) && i <= j < |run| && key in run[i].tables.versions && !WonBy(run[i], id, key)
    ensures !WonBy(run[j], id, key)
    decreases j
  {
    hide Next, Won;
    if i < j {
      NeverWins(w, run, i, j - 1, id, key);
      RowsStay(w, run, i, j - 1, key);
      assert Advances(w, run[j - 1], run[j]);
      var step :| Next(w, run[j - 1], step) == Some(run[j]);
      if WonBy(run[j], id, key) {
        WinsNewRow(w, run[j - 1], step, id, key);
      }
    }
  }

  /** Once a version has its row, an answered look-up ends as present without an upload exactly
      when the registry could read its store. When it could not, the crawler takes the version for
      unknown and tries again, but the upload is never accepted. */
  lemma RecrawlUploadsNothing(w: World, run: seq<State>, routes: Routes, key: VersionKey, i: nat,
                              again: Crawler.Reply, visit: Visit, n: nat)
    requires Shaped(w) && History(w, run) && Straight(routes) && Genuine(run, routes, key, again, visit)
    requires i <= visit.k < |run| && key in run[i].tables.versions && !WonBy(run[visit.k], visit.id, key)
    requires again.known.Good?
    ensures var m := Crawler.Mirror(key.version, again, n);
            && (m.Present? && !Attempts(key.version, again) <==> visit.readable)
            && (Attempts(key.version, again) <==> !visit.readable && again.date.Good?)
            && !m.Uploaded?
  {
    hide Sound, Straight, Shaped, History;
    HistorySound(w, run, i);
    RowBacked(w, run[i], key);
    SemverIsPlain(w, key.version);
    AskedDirectly(routes, key);
    RowsStay(w, run, i, visit.k, key);
    NeverWins(w, run, visit.k, |run| - 1, visit.id, key);
  }

  // ---------------------------------------------------------------- histories

  lemma Extend(w: World, run: seq<State>, step: Step)
    requires History(w, run) && Next(w, run[|run| - 1], step).Some?
    ensures History(w, run + [Next(w, run[|run| - 1], step).value])
  {
    hide Next;
    var t := Next(w, run[|run| - 1], step).value;
    var longer := run + [t];
    forall i | 0 < i < |longer|
      ensures Advances(w, longer[i - 1], longer[i])
    {
      assert i < |run| ==> Advances(w, run[i - 1], run[i]);
    }
  }

  lemma Take(w: World, run: seq<State>, step: Step) returns (longer: seq<State>)
    requires History(w, run) && Next(w, run[|run| - 1], step).Some?
    ensures History(w, longer) && run < longer && |longer| == |run| + 1
    ensures longer[|run|] == Next(w, run[|run| - 1], step).value
  {
    Extend(w, run, step);
    longer := run + [Next(w, run[|run| - 1], step).value];
  }

  /** One publish on the filesystem. */
  lemma OnePublish(w: World, input: Input) returns (run: seq<State>)
    requires w.backend.Filesystem? && input.publishedAt.None? && Ownership.Authorised(w, input)
    ensures History(w, run) && input.key in run[|run| - 1].tables.versions
  {
    run := [INITIAL];
    run := Take(w, run, Arrive(0, input));
    run := Take(w, run, Check(0, 0, true));
    run := Take(w, run, Stage(0, true));
    run := Take(w, run, Link(0, true));
    run := Take(w, run, Commit(0, 0, true));
  }

  const FOUND := Crawler.Reply(Crawler.Good(true), Crawler.Bad(""), Crawler.Refuses(""), Crawler.Bad(""))

  /** Whenever a plugin has any version, a look-up of "latest" is answered known and a crawl that
      asked for it reports it published, though no row of that name can exist. */
  lemma LatestLooksPublished(w: World, run: seq<State>, routes: Routes, key: VersionKey, n: nat)
    requires Shaped(w) && History(w, run) && Straight(routes) && key in run[|run| - 1].tables.versions
    ensures var latest := VersionKey(key.plugin, "latest"); var k := |run| - 1;
            && latest !in run[k].tables.versions
            && Genuine(run, routes, latest, FOUND, Visit(true, k, 0)) &&
              Crawler.Mirror("latest", FOUND, n) == Crawler.Present
  {
    hide Sound, Straight;
    var k := |run| - 1;
    var s := run[k];
    var latest := VersionKey(key.plugin, "latest");
    HistorySound(w, run, k);
    if latest in s.tables.versions {
      RowBacked(w, s, latest);
    }
    LogOf(w, s);
    PluginIffVersion(s.ops, key.plugin);
    AskedDirectly(routes, latest);
  }

  lemma LogOf(w: World, s: State)
    requires Sound(w, s)
    ensures s.tables == Replay(s.ops)
  {
  }

  /** So does a look-up of any version of the plugin followed by a query or a fragment, which the
      URL cuts off. */
  lemma CutOffLooksPublished(w: World, run: seq<State>, routes: Routes, key: VersionKey, rest: string, n: nat)
    requires Shaped(w) && History(w, run) && Straight(routes) && key in run[|run| - 1].tables.versions
    requires rest != "" && (rest[0] == '?' || rest[0] == '#')
    ensures var spliced := VersionKey(key.plugin, key.version + rest); var k := |run| - 1;
            && spliced !in run[k].tables.versions
            && Genuine(run, routes, spliced, FOUND, Visit(true, k, 0))
            && Crawler.Mirror(spliced.version, FOUND, n) == Crawler.Present
  {
    hide Sound;
    var k := |run| - 1;
    var spliced := VersionKey(key.plugin, key.version + rest);
    HistorySound(w, run, k);
    RowBacked(w, run[k], key);
    SemverIsPlain(w, key.version);
    PathPartCuts(key.version, rest);
    SplicedIsNotPlain(key.version, rest);
    if spliced in run[k].tables.versions {
      RowBacked(w, run[k], spliced);
      SemverIsPlain(w, spliced.version);
    }
  }

  lemma SplicedIsNotPlain(v: string, rest: string)
    requires rest != "" && (rest[0] == '?' || rest[0] == '#')
    ensures !PlainSegment(v + rest)
  {
    assert !Unreserved((v + rest)[|v|]);
  }

  /** Actual histories: after one publish on the filesystem, neither "latest" nor the version with
      a fragment has a row, and a crawl reports both published. */
  lemma LookUpsMislead(w: World, routes: Routes, input: Input, n: nat) returns (run: seq<State>)
    requires Shaped(w) && Straight(routes)
    requires w.backend.Filesystem? && input.publishedAt.None? && Ownership.Authorised(w, input)
    ensures History(w, run)
    ensures var k := |run| - 1;
            forall version :: version in {"latest", input.key.version + "#x"} ==>
              var key := VersionKey(input.key.plugin, version);
              && key !in run[k].tables.versions && Genuine(run, routes, key, FOUND, Visit(true, k, 0))
              && Crawler.Mirror(version, FOUND, n) == Crawler.Present
  {
    hide History, Genuine, Shaped, Straight, Ownership.Authorised, Crawler.Mirror;
    run := OnePublish(w, input);
    LatestLooksPublished(w, run, routes, input.key, n);
    CutOffLooksPublished(w, run, routes, input.key, "#x", n);
  }

  /** A look-up the registry cannot answer, in any history in which the version has its row: the
      crawler uploads again, is told the version exists, and reports it published. */
  lemma UnreadLookUpTriesAgain(w: World, run: seq<State>, routes: Routes, input: Input, id: int, date: int, n: nat)
    returns (longer: seq<State>)
    requires Shaped(w) && History(w, run) && Straight(routes)
    requires input.key in run[|run| - 1].tables.versions && id !in run[|run| - 1].publishers
    requires input.publishedAt.None? && Ownership.Authorised(w, input)
    ensures History(w, longer) && run < longer && longer[|longer| - 1].tables == run[|run| - 1].tables
    ensures var reply := Crawler.Reply(Crawler.Good(false), Crawler.Good(date), Crawler.Conflicts, Crawler.Bad(""));
            && Genuine(longer, routes, input.key, reply, Visit(false, |run| - 1, id))
            && Attempts(input.key.version, reply) && Crawler.Mirror(input.key.version, reply, n) == Crawler.Present
  {
    hide Straight, Shaped;
    SemverIsPlain(w, input.key.version);
    AskedDirectly(routes, input.key);
    longer := Take(w, run, Arrive(id, input));
    longer := Take(w, longer, Check(id, 0, true));
  }
}
