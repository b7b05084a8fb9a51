/** The plugin, version and keyword tables as one value, the store operations on it, and what
    every table holds read off the list of operations run. */
module Metadata {
  import opened Wrappers
  import opened Sums

  datatype PluginId = PluginId(scope: string, name: string)

  datatype VersionKey = VersionKey(plugin: PluginId, version: string)

  datatype Info = Info(description: string, homepage: string, repository: string, license: string)

  /** What a publish hands to the store. */
  datatype Upload = Upload(
    key: VersionKey, info: Info, keywords: seq<string>,
    checksum: string, manifest: string, publishedAt: Option<int>)

  datatype PluginRow = PluginRow(info: Info, latest: string, createdAt: int, updatedAt: int)

  datatype VersionRow = VersionRow(checksum: string, manifest: string, publishedAt: int, downloads: nat)

  datatype KeywordRow = KeywordRow(plugin: PluginId, keyword: string)

  datatype Tables = Tables(
    plugins: map<PluginId, PluginRow>, versions: map<VersionKey, VersionRow>, keywords: seq<KeywordRow>)

  const EMPTY := Tables(map[], map[], [])

  /** Stored timestamps keep whole seconds only. */
  function Stamp(ns: int): int {
    ns / 1_000_000_000
  }

  datatype Op =
    | Upsert(up: Upload, now: int)
    | SetDate(key: VersionKey, at: int)
    | Count(key: VersionKey)

  datatype Outcome = Done | Conflict | NotFound

  datatype Effect = Effect(tables: Tables, outcome: Outcome)

  function KeywordRows(id: PluginId, keywords: seq<string>): (rows: seq<KeywordRow>)
    ensures |rows| == |keywords|
    ensures forall i :: 0 <= i < |rows| ==> rows[i] == KeywordRow(id, keywords[i])
  {
    seq(|keywords|, i requires 0 <= i < |keywords| => KeywordRow(id, keywords[i]))
  }

  function NewRow(up: Upload, now: int): VersionRow {
    VersionRow(up.checksum, up.manifest,
               if up.publishedAt.Some? then Stamp(up.publishedAt.value) else Stamp(now), 0)
  }

  /** One transaction: a known version is refused, anything else is inserted and becomes the
      plugin's latest. Keywords are written only with the plugin row itself. */
  function ApplyUpsert(t: Tables, up: Upload, now: int): Effect {
    var id := up.key.plugin;
    if up.key in t.versions then Effect(t, Conflict)
    else
      var versions := t.versions[up.key := NewRow(up, now)];
      if id !in t.plugins then
        var row := PluginRow(up.info, up.key.version, Stamp(now), Stamp(now));
        Effect(Tables(t.plugins[id := row], versions, t.keywords + KeywordRows(id, up.keywords)), Done)
      else
        var row := t.plugins[id].(info := up.info, latest := up.key.version, updatedAt := Stamp(now));
        Effect(Tables(t.plugins[id := row], versions, t.keywords), Done)
  }

  function Apply(t: Tables, op: Op): Effect {
    match op
    case Upsert(up, now) => ApplyUpsert(t, up, now)
    case SetDate(key, at) =>
      if key !in t.versions then Effect(t, NotFound)
      else Effect(t.(versions := t.versions[key := t.versions[key].(publishedAt := Stamp(at))]), Done)
    case Count(key) =>
      if key !in t.versions then Effect(t, Done)
      else Effect(t.(versions := t.versions[key := t.versions[key].(downloads := t.versions[key].downloads + 1)]), Done)
  }

  /** A refused operation leaves every table alone, and refusal is exactly a known version for
      an upsert and an unknown one for a date fix. */
  lemma RefusedChangesNothing(t: Tables, op: Op)
    ensures Apply(t, op).outcome != Done ==> Apply(t, op).tables == t
    ensures Apply(t, op).outcome == Conflict <==> op.Upsert? && op.up.key in t.versions
    ensures Apply(t, op).outcome == NotFound <==> op.SetDate? && op.key !in t.versions
  {
  }

  function Replay(ops: seq<Op>): Tables {
    if ops == [] then EMPTY else Apply(Replay(ops[..|ops| - 1]), ops[|ops| - 1]).tables
  }

  // ---------------------------------------------------------------- reading the log

  ghost predicate Uploads(op: Op, key: VersionKey) {
    op.Upsert? && op.up.key == key
  }

  /** Upload number `i` is the first of its version. */
  ghost predicate Commits(ops: seq<Op>, i: nat)
    requires i < |ops|
  {
    ops[i].Upsert? && forall j :: 0 <= j < i ==> !Uploads(ops[j], ops[i].up.key)
  }

  function CountsAfter(ops: seq<Op>, i: nat, key: VersionKey): nat
    requires i < |ops|
  {
    if i == |ops| - 1 then 0
    else CountsAfter(ops[..|ops| - 1], i, key) + if ops[|ops| - 1] == Count(key) then 1 else 0
  }

  function DateAfter(ops: seq<Op>, i: nat, key: VersionKey, initial: int): int
    requires i < |ops|
  {
    var last := ops[|ops| - 1];
    if i == |ops| - 1 then initial
    else if last.SetDate? && last.key == key then last.at / 1_000_000_000
    else DateAfter(ops[..|ops| - 1], i, key, initial)
  }

  lemma {:induction false} VersionKnownIff(ops: seq<Op>, key: VersionKey)
    ensures key in Replay(ops).versions <==> exists i :: 0 <= i < |ops| && Uploads(ops[i], key)
    decreases |ops|
  {
    hide Apply, Uploads;
    if ops != [] {
      var n := |ops| - 1;
      VersionKnownIff(ops[..n], key);
      VersionsAfter(Replay(ops[..n]), ops[n], key);
      assert forall i :: 0 <= i < n ==> ops[..n][i] == ops[i];
      if key in Replay(ops[..n]).versions {
        var i :| 0 <= i < n && Uploads(ops[..n][i], key);
        assert Uploads(ops[i], key);
      }
    }
  }

  lemma VersionsAfter(t: Tables, op: Op, key: VersionKey)
    ensures key in Apply(t, op).tables.versions <==> key in t.versions || Uploads(op, key)
  {
  }

  /** A version's row holds what its first upload carried, whatever was tried later: its date is the
      one the upload gave, or else the clock's, in whole seconds. Only the date follows the fixes
      made since, and the counter the downloads made since. */
  lemma {:induction false} RowIsFirstUpload(ops: seq<Op>, i: nat)
    requires i < |ops| && Commits(ops, i)
    ensures var up := ops[i].up; var t := Replay(ops);
            && up.key in t.versions
            && var dated := if up.publishedAt.Some? then up.publishedAt.value else ops[i].now;
               t.versions[up.key] == VersionRow(up.checksum, up.manifest,
                 DateAfter(ops, i, up.key, dated / 1_000_000_000), CountsAfter(ops, i, up.key))
    decreases |ops|
  {
    var n := |ops| - 1;
    var key := ops[i].up.key;
    if i == n {
      VersionKnownIff(ops[..n], key);
      assert forall j :: 0 <= j < n ==> !Uploads(ops[..n][j], key);
    } else {
      assert Commits(ops[..n], i);
      RowIsFirstUpload(ops[..n], i);
    }
  }

  /** Commit number `i` of a plugin with no later commit. */
  ghost predicate IsLastCommit(ops: seq<Op>, i: nat, id: PluginId)
    requires i < |ops|
  {
    && Commits(ops, i) && ops[i].up.key.plugin == id
    && forall j :: i < j < |ops| && Commits(ops, j) ==> ops[j].up.key.plugin != id
  }

  ghost predicate IsFirstOf(ops: seq<Op>, i: nat, id: PluginId)
    requires i < |ops|
  {
    && ops[i].Upsert? && ops[i].up.key.plugin == id
    && forall j :: 0 <= j < i ==> !(ops[j].Upsert? && ops[j].up.key.plugin == id)
  }

  lemma CommitsPrefix(ops: seq<Op>, n: nat, i: nat)
    requires i < n <= |ops|
    ensures Commits(ops[..n], i) <==> Commits(ops, i)
  {
    assert forall j :: 0 <= j < i ==> ops[..n][j] == ops[j];
  }

  lemma CommitsIffApplied(ops: seq<Op>)
    requires ops != [] && ops[|ops| - 1].Upsert?
    ensures Commits(ops, |ops| - 1) <==> ops[|ops| - 1].up.key !in Replay(ops[..|ops| - 1]).versions
  {
    var n := |ops| - 1;
    var key := ops[n].up.key;
    VersionKnownIff(ops[..n], key);
    forall j | 0 <= j < n
      ensures Uploads(ops[..n][j], key) == Uploads(ops[j], key)
    {
    }
    if !Commits(ops, n) {
      var j :| 0 <= j < n && Uploads(ops[j], key);
      assert Uploads(ops[..n][j], key);
    }
  }

  /** A plugin row exists exactly when some version row of it does, and its latest version is
      one of them. */
  lemma {:induction false} PluginIffVersion(ops: seq<Op>, id: PluginId)
    ensures id in Replay(ops).plugins <==> exists key :: key in Replay(ops).versions && key.plugin == id
    ensures id in Replay(ops).plugins ==> VersionKey(id, Replay(ops).plugins[id].latest) in Replay(ops).versions
    decreases |ops|
  {
    if ops != [] {
      var n := |ops| - 1;
      PluginIffVersion(ops[..n], id);
      var before, after := Replay(ops[..n]), Replay(ops);
      assert before.versions.Keys <= after.versions.Keys;
      if id in after.plugins {
        assert VersionKey(id, after.plugins[id].latest) in after.versions;
      }
    }
  }

  /** "Latest" is the version committed last; description and timestamps come with it. */
  lemma {:induction false} LatestIsLastCommit(ops: seq<Op>, i: nat, id: PluginId)
    requires i < |ops| && IsLastCommit(ops, i, id)
    ensures var t := Replay(ops);
            && id in t.plugins
            && t.plugins[id].latest == ops[i].up.key.version
            && t.plugins[id].info == ops[i].up.info
            && t.plugins[id].updatedAt == ops[i].now / 1_000_000_000
    decreases |ops|
  {
    hide Apply;
    var n := |ops| - 1;
    if ops[n].Upsert? {
      CommitsIffApplied(ops);
    }
    if i == n {
      CommitSetsLatest(Replay(ops[..n]), ops[n].up, ops[n].now);
    } else {
      LastCommitBefore(ops, i, id);
      LatestIsLastCommit(ops[..n], i, id);
      if ops[n].Upsert? && ops[n].up.key.plugin == id {
        assert !Commits(ops, n);
      }
      PluginUntouched(Replay(ops[..n]), ops[n], id);
    }
  }

  lemma LastCommitBefore(ops: seq<Op>, i: nat, id: PluginId)
    requires i < |ops| - 1 && IsLastCommit(ops, i, id)
    ensures IsLastCommit(ops[..|ops| - 1], i, id) && ops[..|ops| - 1][i] == ops[i]
  {
    var n := |ops| - 1;
    CommitsPrefix(ops, n, i);
    forall j | i < j < n && Commits(ops[..n], j)
      ensures ops[..n][j].up.key.plugin != id
    {
      CommitsPrefix(ops, n, j);
    }
  }

  lemma CommitSetsLatest(t: Tables, up: Upload, now: int)
    requires up.key !in t.versions
    ensures var u := Apply(t, Upsert(up, now)).tables;
            && up.key.plugin in u.plugins
            && u.plugins[up.key.plugin].latest == up.key.version
            && u.plugins[up.key.plugin].info == up.info
            && u.plugins[up.key.plugin].updatedAt == now / 1_000_000_000
  {
  }

  /** Only committing a new version of a plugin changes its row. */
  lemma PluginUntouched(t: Tables, op: Op, id: PluginId)
    requires id in t.plugins && !(op.Upsert? && op.up.key.plugin == id && op.up.key !in t.versions)
    ensures id in Apply(t, op).tables.plugins && Apply(t, op).tables.plugins[id] == t.plugins[id]
  {
  }

  /** A plugin's keywords, in table order. */
  function Keywords(rows: seq<KeywordRow>, id: PluginId): seq<string> {
    if rows == [] then []
    else
      var n := |rows| - 1;
      var kept := Keywords(rows[..n], id);
      if rows[n].plugin == id then kept + [rows[n].keyword] else kept
  }

  lemma {:induction false} KeywordsAppend(rows: seq<KeywordRow>, id: PluginId, words: seq<string>, of: PluginId)
    ensures Keywords(rows + KeywordRows(id, words), of) ==
            if of == id then Keywords(rows, of) + words else Keywords(rows, of)
    decreases |words|
  {
    if words == [] {
      assert rows + KeywordRows(id, words) == rows;
    } else {
      var n := |words| - 1;
      KeywordsAppend(rows, id, words[..n], of);
      var all := rows + KeywordRows(id, words);
      assert all[..|all| - 1] == rows + KeywordRows(id, words[..n]);
      assert words == words[..n] + [words[n]];
      assert Keywords(rows, of) + words[..n] + [words[n]] == Keywords(rows, of) + words;
    }
  }

  lemma {:induction false} NoKeywordsYet(ops: seq<Op>, id: PluginId)
    requires id !in Replay(ops).plugins
    ensures Keywords(Replay(ops).keywords, id) == []
    decreases |ops|
  {
    if ops != [] {
      var n := |ops| - 1;
      NoKeywordsYet(ops[..n], id);
      if ops[n].Upsert? {
        KeywordsAppend(Replay(ops[..n]).keywords, ops[n].up.key.plugin, ops[n].up.keywords, id);
      }
    }
  }

  lemma {:induction false} UnknownPlugin(ops: seq<Op>, id: PluginId)
    requires forall j :: 0 <= j < |ops| ==> !(ops[j].Upsert? && ops[j].up.key.plugin == id)
    ensures id !in Replay(ops).plugins
    decreases |ops|
  {
    if ops != [] {
      UnknownPlugin(ops[..|ops| - 1], id);
    }
  }

  /** Keywords and creation date stay those of the plugin's first publish, whatever keywords
      later versions declare. */
  lemma {:induction false} KeywordsAreFirstPublish(ops: seq<Op>, i: nat, id: PluginId)
    requires i < |ops| && IsFirstOf(ops, i, id)
    ensures var t := Replay(ops);
            && id in t.plugins
            && t.plugins[id].createdAt == ops[i].now / 1_000_000_000
            && Keywords(t.keywords, id) == ops[i].up.keywords
    decreases |ops|
  {
    hide Keywords;
    var n := |ops| - 1;
    var t := Replay(ops[..n]);
    if i == n {
      UnknownPlugin(ops[..n], id);
      NoKeywordsYet(ops[..n], id);
      PluginIffVersion(ops[..n], id);
      KeywordsAppend(t.keywords, id, ops[i].up.keywords, id);
      assert [] + ops[i].up.keywords == ops[i].up.keywords;
    } else {
      assert IsFirstOf(ops[..n], i, id);
      KeywordsAreFirstPublish(ops[..n], i, id);
      if ops[n].Upsert? && ops[n].up.key.plugin != id {
        KeywordsAppend(t.keywords, ops[n].up.key.plugin, ops[n].up.keywords, id);
      }
    }
  }

  // ---------------------------------------------------------------- download totals

  function DownloadsOf(row: VersionRow): nat {
    row.downloads
  }

  ghost function VersionsOf(t: Tables, id: PluginId): set<VersionKey> {
    set key | key in t.versions && key.plugin == id
  }

  ghost function TotalDownloads(t: Tables, id: PluginId): nat {
    SumOver(t.versions, DownloadsOf, VersionsOf(t, id))
  }

  /** Counted downloads of a plugin: those of a version already published then. */
  ghost function Counted(ops: seq<Op>, id: PluginId): nat {
    if ops == [] then 0
    else
      var n := |ops| - 1;
      Counted(ops[..n], id)
        + if ops[n].Count? && ops[n].key.plugin == id && (exists i :: 0 <= i < n && Uploads(ops[i], ops[n].key))
          then 1 else 0
  }

  lemma TotalAfter(t: Tables, op: Op, id: PluginId)
    ensures TotalDownloads(Apply(t, op).tables, id) == TotalDownloads(t, id)
              + if op.Count? && op.key in t.versions && op.key.plugin == id then 1 else 0
  {
    var u := Apply(t, op).tables;
    var before, after := VersionsOf(t, id), VersionsOf(u, id);
    if op.Upsert? && op.up.key !in t.versions && op.up.key.plugin == id {
      assert after == before + {op.up.key};
      SumTakesOut(u.versions, DownloadsOf, after, op.up.key);
      assert after - {op.up.key} == before;
      SumSame(t.versions, u.versions, DownloadsOf, before);
    } else if op.Count? && op.key in t.versions && op.key.plugin == id {
      assert after == before;
      SumTakesOut(t.versions, DownloadsOf, before, op.key);
      SumTakesOut(u.versions, DownloadsOf, after, op.key);
      SumSame(t.versions, u.versions, DownloadsOf, before - {op.key});
    } else {
      assert after == before;
      SumSame(t.versions, u.versions, DownloadsOf, before);
    }
  }

  /** A plugin's total is the number of downloads counted against its published versions. */
  lemma {:induction false} TotalIsCounted(ops: seq<Op>, id: PluginId)
    ensures TotalDownloads(Replay(ops), id) == Counted(ops, id)
    decreases |ops|
  {
    if ops == [] {
      assert VersionsOf(EMPTY, id) == {};
    } else {
      var n := |ops| - 1;
      TotalIsCounted(ops[..n], id);
      TotalAfter(Replay(ops[..n]), ops[n], id);
      if ops[n].Count? {
        var key := ops[n].key;
        VersionKnownIff(ops[..n], key);
        forall i | 0 <= i < n
          ensures Uploads(ops[..n][i], key) == Uploads(ops[i], key)
        {
        }
        if i :| 0 <= i < n && Uploads(ops[i], key) {
          assert Uploads(ops[..n][i], key);
        }
      }
    }
  }

  // ---------------------------------------------------------------- resolving

  ghost predicate ReadableName(version: string) {
    version != "" && version != "latest"
  }

  /** Resolving reads the plugin row for "latest", then the version row. */
  function Resolve(t: Tables, id: PluginId, version: string): Option<VersionKey> {
    if version == "" || version == "latest" then
      if id !in t.plugins then None
      else Lookup(t, VersionKey(id, t.plugins[id].latest))
    else Lookup(t, VersionKey(id, version))
  }

  function Lookup(t: Tables, key: VersionKey): Option<VersionKey> {
    if key in t.versions then Some(key) else None
  }

  /** With every published version properly named, "latest", or no name at all, resolves exactly when
      anything of the plugin was published, and never to a row that a request for "latest" could
      shadow. Any other name resolves exactly when a version of that name was published, to it. */
  lemma ResolveLatestIff(ops: seq<Op>, id: PluginId)
    requires forall i :: 0 <= i < |ops| && ops[i].Upsert? ==> ReadableName(ops[i].up.key.version)
    ensures Resolve(Replay(ops), id, "latest").Some? <==> exists key :: key in Replay(ops).versions && key.plugin == id
    ensures Resolve(Replay(ops), id, "latest").Some? ==> ReadableName(Resolve(Replay(ops), id, "latest").value.version)
    ensures Resolve(Replay(ops), id, "") == Resolve(Replay(ops), id, "latest")
    ensures forall version :: ReadableName(version) ==>
              var key := VersionKey(id, version);
              Resolve(Replay(ops), id, version) ==
              if exists i :: 0 <= i < |ops| && Uploads(ops[i], key) then Some(key) else None
  {
    PluginIffVersion(ops, id);
    forall key | key in Replay(ops).versions
      ensures ReadableName(key.version)
    {
      VersionKnownIff(ops, key);
      var i :| 0 <= i < |ops| && Uploads(ops[i], key);
    }
    forall version
      ensures VersionKey(id, version) in Replay(ops).versions <==>
              exists i :: 0 <= i < |ops| && Uploads(ops[i], VersionKey(id, version))
    {
      VersionKnownIff(ops, VersionKey(id, version));
    }
  }

  /** "Latest" resolves to the version committed last. */
  lemma LatestResolves(ops: seq<Op>, i: nat, id: PluginId)
    requires i < |ops| && IsLastCommit(ops, i, id)
    ensures Resolve(Replay(ops), id, "latest") == Some(ops[i].up.key)
  {
    LatestIsLastCommit(ops, i, id);
    PluginIffVersion(ops, id);
  }
}
