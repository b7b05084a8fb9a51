/** The registry's calls over a metadata store and a filesystem blob store. Each method takes,
    one after the other, exactly the atomic steps of the publishing model. */
module Registry {
  import opened Wrappers
  import Runs
  import opened Metadata
  import opened Publishing
  import opened FullText
  import PublishSafety
  import Keys
  import Sqlite
  import BlobStores

  /** Which of the calls a publish makes succeed. */
  datatype Weather = Weather(lookup: bool, copied: bool, linked: bool, commits: bool, rereads: bool)

  /** Which of the calls a download makes succeed. */
  datatype Reads = Reads(plugin: bool, version: bool, blob: bool, count: bool)

  /** A look-up that a request for `version` comes to need fails to reach the metadata store. */
  predicate Unreadable(t: Tables, plugin: PluginId, version: string, luck: Reads) {
    if version == "" || version == "latest" then !luck.plugin || (plugin in t.plugins && !luck.version)
    else !luck.version
  }

  datatype Lookup = Missing | Unread | Row(key: VersionKey, checksum: string)

  /** Not found, an internal error, or the file with its checksum. */
  datatype Reply = Nowhere | Broken | File(checksum: string, bytes: Blob)

  datatype Trace = Trace(steps: seq<Step>, state: State)

  ghost predicate Took(w: World, s: State, tr: Trace) {
    Runs.Leads(PublishSafety.By(w), s, tr.steps, tr.state)
  }

  lemma TookNone(w: World, s: State)
    ensures Took(w, s, Trace([], s))
  {
  }

  lemma TookOneMore(w: World, s: State, tr: Trace, step: Step, t: State)
    requires Took(w, s, tr) && Next(w, tr.state, step) == Some(t)
    ensures Took(w, s, Trace(tr.steps + [step], t))
  {
    Runs.OneStep(PublishSafety.By(w), tr.state, step, t);
    Runs.Chain(PublishSafety.By(w), s, tr.steps, tr.state, [step], t);
  }

  /** `s` with one publisher in the given phase. */
  ghost function With(s: State, id: int, input: Input, phase: Phase): State {
    s.(publishers := s.publishers[id := Publisher(input, phase)])
  }

  lemma MovedOn(s: State, id: int, input: Input, p: Phase, q: Phase)
    ensures At(With(s, id, input, p), id, q) == With(s, id, input, q)
  {
    assert s.publishers[id := Publisher(input, p)][id := Publisher(input, q)] ==
      s.publishers[id := Publisher(input, q)];
  }

  lemma Committing(w: World, s: State, id: int, input: Input, sum: string, now: int, ok: bool)
    ensures var op := Upsert(ToUpload(input, sum), now);
            Next(w, With(s, id, input, Stored(sum)), Commit(id, now, ok)) ==
            Some(if !ok then With(s, id, input, Finished(StoreError))
                 else if input.key in s.tables.versions then Do(With(s, id, input, Finished(AlreadyExists)), op)
                 else With(Do(s, op), id, input, Committed))
  {
    hide Run;
    MovedOn(s, id, input, Stored(sum), Finished(StoreError));
    MovedOn(s, id, input, Stored(sum), Finished(AlreadyExists));
    MovedOn(s, id, input, Stored(sum), Committed);
  }

  lemma Rereading(w: World, s: State, id: int, input: Input, ok: bool)
    ensures Next(w, With(s, id, input, Committed), Reread(id, ok)) ==
            Some(With(s, id, input, Finished(
              if ok && input.key in s.tables.versions then Published(s.tables.versions[input.key]) else StoreError)))
  {
    MovedOn(s, id, input, Committed, Finished(StoreError));
    if input.key in s.tables.versions {
      MovedOn(s, id, input, Committed, Finished(Published(s.tables.versions[input.key])));
    }
  }

  lemma Again(s: State, id: int, d: Download, e: Download)
    ensures Downloading(Downloading(s, id, d), id, e) == Downloading(s, id, e)
  {
    assert s.downloads[id := d][id := e] == s.downloads[id := e];
  }

  lemma Asking(w: World, s: State, id: int, plugin: PluginId, version: string)
    ensures Next(w, Downloading(s, id, Naming(plugin, version)), Name(id)) ==
            Some(Downloading(s, id,
              if version != "" && version != "latest" then Named(VersionKey(plugin, version))
              else if plugin !in s.tables.plugins then Failed
              else Named(VersionKey(plugin, s.tables.plugins[plugin].latest))))
  {
    Again(s, id, Naming(plugin, version), Named(VersionKey(plugin, version)));
    Again(s, id, Naming(plugin, version), Failed);
    if plugin in s.tables.plugins {
      Again(s, id, Naming(plugin, version), Named(VersionKey(plugin, s.tables.plugins[plugin].latest)));
    }
  }

  lemma Finding(w: World, s: State, id: int, key: VersionKey)
    ensures Next(w, Downloading(s, id, Named(key)), ResolveRow(id)) ==
            Some(Downloading(s, id,
              if key in s.tables.versions then Resolved(key, s.tables.versions[key].checksum) else Failed))
  {
    Again(s, id, Named(key), Failed);
    if key in s.tables.versions {
      Again(s, id, Named(key), Resolved(key, s.tables.versions[key].checksum));
    }
  }

  lemma Opening(w: World, s: State, id: int, key: VersionKey, checksum: string)
    requires key in s.blobs
    ensures Next(w, Downloading(s, id, Resolved(key, checksum)), OpenBlob(id)) ==
            Some(Downloading(s, id, Opened(key, checksum, s.blobs[key])))
    ensures var t := Downloading(s, id, Opened(key, checksum, s.blobs[key]));
            Next(w, t, CountDownload(id)) == Some(Do(t, Count(key)))
  {
    hide Run;
    Again(s, id, Resolved(key, checksum), Opened(key, checksum, s.blobs[key]));
  }

  class Registry {
    const meta: Sqlite.Store
    const blob: BlobStores.FsStore
    const semver: string -> bool

    constructor (meta: Sqlite.Store, blob: BlobStores.FsStore, semver: string -> bool)
      ensures this.meta == meta && this.blob == blob && this.semver == semver
    {
      this.meta, this.blob, this.semver := meta, blob, semver;
    }

    ghost function World(): World {
      Publishing.World(Filesystem, blob.hash, semver)
    }

    /** The stores hold what the model state says. */
    ghost predicate Mirrors(s: State)
      reads meta, blob
    {
      meta.Valid() && s.tables == meta.Value().tables && s.ops == meta.ops && blob.Holds(s.blobs)
    }

    /** What the server has already checked: the requestor's username, the bundle's name, and
        what a valid version looks like. */
    ghost predicate Vetted(input: Input) {
      && Keys.IsUsername(input.requestor) && Keys.IsPluginName(input.bundleName)
      && forall v :: semver(v) ==> Keys.HasVersionShape(v)
    }

    /** The upload is named, versioned and dated as the registry asks: the bundle carries the name and
        the version it is published under, that is a semantic version, and a date given for it is not
        later than the clock. */
    ghost predicate InOrder(input: Input, now: int) {
      && input.bundleName == input.key.plugin.name
      && input.bundleVersion == input.key.version
      && semver(input.key.version)
      && (input.publishedAt.Some? ==> input.publishedAt.value <= now)
    }

    /** The row of a first upload. */
    ghost function FirstRow(input: Input, now: int): VersionRow {
      VersionRow(blob.hash(input.tarball), input.manifest,
                 (if input.publishedAt.Some? then input.publishedAt.value else now) / 1_000_000_000, 0)
    }

    /** Each result has its exact condition, and what the stores hold afterwards follows from how far
        the publish came. */
    method Publish(input: Input, checkedAt: int, recordedAt: int, suffix: string, luck: Weather,
                   ghost s: State, ghost id: int) returns (result: Result, ghost tr: Trace)
      requires Mirrors(s) && Vetted(input) && id !in s.publishers
      requires '/' !in suffix && Keys.StagingPath(blob.root, input.key, suffix) !in blob.files
      modifies meta, blob
      ensures Took(World(), s, tr) && Mirrors(tr.state)
      ensures tr.state.publishers == s.publishers[id := Publisher(input, Finished(result))]
      ensures tr.state.downloads == s.downloads
      ensures var key := input.key;
              var owner := input.requestor == key.plugin.scope;
              var looked := owner && InOrder(input, checkedAt) && luck.lookup;
              var storing := looked && key !in s.tables.versions;
              var stored := storing && luck.copied && luck.linked && key !in s.blobs;
              && (result == Forbidden <==> !owner)
              && (result == InvalidInput <==> owner && !InOrder(input, checkedAt))
              && (result == AlreadyExists <==> looked && key in s.tables.versions)
              && (result == NotStored(false) <==> storing && !(luck.copied && luck.linked))
              && (result == NotStored(true) <==> storing && luck.copied && luck.linked && key in s.blobs)
              && (result == StoreError <==>
                    || (owner && InOrder(input, checkedAt) && !luck.lookup)
                    || (stored && !(luck.commits && luck.rereads)))
              && (result.Published? <==> stored && luck.commits && luck.rereads)
              && (result.Published? ==> result.row == FirstRow(input, recordedAt))
              && tr.state.blobs == (if stored then s.blobs[key := input.tarball] else s.blobs)
              && (stored && luck.commits ==>
                    && tr.state.tables.versions == s.tables.versions[key := FirstRow(input, recordedAt)]
                    && key.plugin in tr.state.tables.plugins
                    && tr.state.tables.plugins[key.plugin].latest == key.version)
              && (!(stored && luck.commits) ==> tr.state.tables == s.tables)
    {
      hide Took, Keys.Admissible, BlobStores.FsStore.Holds, Sqlite.Store.Valid;
      TookNone(World(), s);
      tr := Go(s, Trace([], s), Arrive(id, input), With(s, id, input, Arrived));
      result, tr := CheckInput(input, checkedAt, luck.lookup, s, tr, id);
      if result != Stopped {
        return;
      }
      var sum;
      result, sum, tr := StoreTarball(input, suffix, luck, s, tr, id);
      if result != Stopped {
        return;
      }
      ghost var t := s.(blobs := s.blobs[input.key := input.tarball]);
      result, tr := Record(input, sum, recordedAt, luck, s, t, tr, id);
    }

    /** The checks before anything is stored; `Stopped` stands for none having failed. */
    method CheckInput(input: Input, now: int, lookup: bool, ghost s: State, ghost tr: Trace, ghost id: int)
      returns (result: Result, ghost after: Trace)
      requires Mirrors(s) && Vetted(input) && Took(World(), s, tr)
      requires tr.state == With(s, id, input, Arrived)
      ensures Took(World(), s, after)
      ensures after.state == With(s, id, input, if result == Stopped then Checked else Finished(result))
      ensures result == Stopped ==> Keys.Admissible(input.key)
      ensures result ==
              if input.requestor != input.key.plugin.scope then Forbidden
              else if !InOrder(input, now) then InvalidInput
              else if !lookup then StoreError
              else if input.key in s.tables.versions then AlreadyExists
              else Stopped
    {
      hide Took;
      if input.requestor != input.key.plugin.scope {
        result := Forbidden;
      } else if input.bundleName != input.key.plugin.name {
        result := InvalidInput;
      } else if input.bundleVersion != input.key.version {
        result := InvalidInput;
      } else if !semver(input.key.version) {
        result := InvalidInput;
      } else if input.publishedAt.Some? && input.publishedAt.value > now {
        result := InvalidInput;
      } else if !lookup {
        result := StoreError;
      } else {
        var existing := meta.GetVersion(input.key);
        result := if existing.Some? then AlreadyExists else Stopped;
      }
      MovedOn(s, id, input, Arrived, if result == Stopped then Checked else Finished(result));
      after := Go(s, tr, Check(id, now, lookup),
                  With(s, id, input, if result == Stopped then Checked else Finished(result)));
    }

    /** Hands the upload to the blob store; `Stopped` stands for success. */
    method StoreTarball(input: Input, suffix: string, luck: Weather, ghost s: State, ghost tr: Trace, ghost id: int)
      returns (result: Result, sum: string, ghost after: Trace)
      requires Mirrors(s) && Keys.Admissible(input.key) && Took(World(), s, tr)
      requires tr.state == With(s, id, input, Checked)
      requires '/' !in suffix && Keys.StagingPath(blob.root, input.key, suffix) !in blob.files
      modifies blob
      ensures Took(World(), s, after)
      ensures result == Stopped ==>
                var t := s.(blobs := s.blobs[input.key := input.tarball]);
                Mirrors(t) && after.state == With(t, id, input, Stored(sum))
      ensures result != Stopped ==> Mirrors(s) && after.state == With(s, id, input, Finished(result))
      ensures result == if !luck.copied || !luck.linked then NotStored(false)
                        else if input.key in s.blobs then NotStored(true) else Stopped
      ensures result == Stopped ==> sum == blob.hash(input.tarball)
    {
      hide Took, Keys.Admissible;
      var put := blob.Put(input.key, input.tarball, suffix, luck.copied, luck.linked, s.blobs);
      after := FollowPut(input, luck, s, tr, id);
      if put.Written? {
        return Stopped, put.checksum, after;
      }
      return NotStored(put.Exists?), "", after;
    }

    ghost method FollowPut(input: Input, luck: Weather, s: State, tr: Trace, id: int) returns (after: Trace)
      requires Took(World(), s, tr) && tr.state == With(s, id, input, Checked)
      ensures Took(World(), s, after)
      ensures after.state ==
              if !luck.copied || !luck.linked then With(s, id, input, Finished(NotStored(false)))
              else if input.key in s.blobs then With(s, id, input, Finished(NotStored(true)))
              else With(s.(blobs := s.blobs[input.key := input.tarball]), id, input, Stored(blob.hash(input.tarball)))
    {
      hide Took;
      var sum := blob.hash(input.tarball);
      if !luck.copied {
        MovedOn(s, id, input, Checked, Finished(NotStored(false)));
        after := Go(s, tr, Stage(id, false), With(s, id, input, Finished(NotStored(false))));
      } else {
        MovedOn(s, id, input, Checked, Staged(sum));
        after := Go(s, tr, Stage(id, true), With(s, id, input, Staged(sum)));
        MovedOn(s, id, input, Staged(sum), Finished(NotStored(false)));
        MovedOn(s, id, input, Staged(sum), Finished(NotStored(true)));
        MovedOn(s, id, input, Staged(sum), Stored(sum));
        after := Go(s, after, Link(id, luck.linked), AfterLink(after.state, id, sum, luck.linked));
      }
    }

    /** What committing a new version and reading it back comes to. */
    ghost predicate Recorded(input: Input, now: int, luck: Weather, t: Tables, u: Tables, result: Result) {
      && result == (if luck.commits && luck.rereads then Published(FirstRow(input, now)) else StoreError)
      && (luck.commits ==>
            && u.versions == t.versions[input.key := FirstRow(input, now)]
            && input.key.plugin in u.plugins && u.plugins[input.key.plugin].latest == input.key.version)
      && (!luck.commits ==> u == t)
    }

    lemma UpsertRecords(input: Input, sum: string, now: int, t: Tables)
      ensures input.key !in t.versions && sum == blob.hash(input.tarball) ==>
                var u := Run(t, Upsert(ToUpload(input, sum), now));
                && u.versions == t.versions[input.key := FirstRow(input, now)]
                && input.key.plugin in u.plugins && u.plugins[input.key.plugin].latest == input.key.version
    {
    }

    /** Commits the metadata and reads the row back. */
    method Record(input: Input, sum: string, now: int, luck: Weather,
                  ghost s: State, ghost t: State, ghost tr: Trace, ghost id: int)
      returns (result: Result, ghost after: Trace)
      requires Mirrors(t) && Took(World(), s, tr) && tr.state == With(t, id, input, Stored(sum))
      modifies meta
      ensures Took(World(), s, after) && Mirrors(after.state)
      ensures after.state.publishers == t.publishers[id := Publisher(input, Finished(result))]
      ensures after.state.downloads == t.downloads && after.state.blobs == t.blobs
      ensures input.key !in t.tables.versions && sum == blob.hash(input.tarball) ==>
                Recorded(input, now, luck, t.tables, after.state.tables, result)
    {
      hide Took, Next, BlobStores.FsStore.Holds, Sqlite.Store.Valid, UpsertDb, NewRow;
      UpsertRecords(input, sum, now, t.tables);
      Committing(World(), t, id, input, sum, now, luck.commits);
      var op := Upsert(ToUpload(input, sum), now);
      var outcome := meta.UpsertPluginAndVersion(ToUpload(input, sum), now, luck.commits);
      if outcome == None {
        after := Go(s, tr, Commit(id, now, false), With(t, id, input, Finished(StoreError)));
        return StoreError, after;
      }
      if outcome == Some(Conflict) {
        after := Go(s, tr, Commit(id, now, true), Do(With(t, id, input, Finished(AlreadyExists)), op));
        return AlreadyExists, after;
      }
      ghost var u := Do(t, op);
      after := Go(s, tr, Commit(id, now, true), With(u, id, input, Committed));
      result, after := RereadRow(input, luck, s, u, after, id);
    }

    method RereadRow(input: Input, luck: Weather, ghost s: State, ghost t: State, ghost tr: Trace, ghost id: int)
      returns (result: Result, ghost after: Trace)
      requires Mirrors(t) && Took(World(), s, tr) && tr.state == With(t, id, input, Committed)
      ensures Took(World(), s, after) && after.state == With(t, id, input, Finished(result))
      ensures input.key in t.tables.versions ==>
                result == if luck.rereads then Published(t.tables.versions[input.key]) else StoreError
    {
      hide Took, Next, BlobStores.FsStore.Holds, Sqlite.Store.Valid;
      Rereading(World(), t, id, input, luck.rereads);
      var row := meta.GetVersion(input.key);
      result := if luck.rereads && row.Some? then Published(row.value) else StoreError;
      after := Go(s, tr, Reread(id, luck.rereads), With(t, id, input, Finished(result)));
    }

    ghost method Go(s: State, tr: Trace, step: Step, t: State) returns (after: Trace)
      requires Took(World(), s, tr) && Next(World(), tr.state, step) == Some(t)
      ensures after == Trace(tr.steps + [step], t) && Took(World(), s, after)
    {
      TookOneMore(World(), s, tr, step, t);
      after := Trace(tr.steps + [step], t);
    }

    /** Corrects a version's date, which may not lie in the future; nothing else changes. */
    method AdminSetPublishedAt(key: VersionKey, at: Option<int>, now: int) returns (outcome: Option<Outcome>)
      requires meta.Valid()
      modifies meta`versions, meta`ops
      ensures meta.Valid()
      ensures outcome.None? <==> at.None? || at.value > now
      ensures outcome.None? ==> meta.Value() == old(meta.Value())
      ensures outcome.Some? ==>
                && meta.Value().tables == old(Apply(meta.Value().tables, SetDate(key, at.value))).tables
                && (outcome.value == NotFound <==> key !in old(meta.versions))
    {
      if at.None? || at.value > now {
        return None;
      }
      var done := meta.UpdateVersionPublishedAt(key, at.value);
      return Some(done);
    }

    /** Turns a request for the latest version into one for a named version. */
    method ResolveVersion(plugin: PluginId, version: string, luck: Reads, ghost s: State, ghost tr: Trace,
                          ghost id: int)
      returns (found: Lookup, ghost after: Trace)
      requires Mirrors(s) && Took(World(), s, tr)
      requires tr.state == Downloading(s, id, Naming(plugin, version))
      ensures Took(World(), s, after) && exists d :: after.state == Downloading(s, id, d)
      ensures found.Row? ==> after.state == Downloading(s, id, Resolved(found.key, found.checksum))
      ensures found.Row? ==>
                && Some(found.key) == Resolve(s.tables, plugin, version)
                && found.key in s.tables.versions && found.checksum == s.tables.versions[found.key].checksum
      ensures found.Unread? <==> Unreadable(s.tables, plugin, version, luck)
      ensures found.Missing? <==>
                !Unreadable(s.tables, plugin, version, luck) && Resolve(s.tables, plugin, version).None?
    {
      hide Took, Next;
      after := tr;
      Asking(World(), s, id, plugin, version);
      var concrete := version;
      if version == "" || version == "latest" {
        if !luck.plugin {
          return Unread, after;
        }
        if plugin !in meta.plugins {
          after := Go(s, tr, Name(id), Downloading(s, id, Failed));
          return Missing, after;
        }
        concrete := meta.plugins[plugin].latest;
      }
      var key := VersionKey(plugin, concrete);
      Finding(World(), s, id, key);
      after := Go(s, tr, Name(id), Downloading(s, id, Named(key)));
      if !luck.version {
        return Unread, after;
      }
      var row := meta.GetVersion(key);
      if row.None? {
        after := Go(s, after, ResolveRow(id), Downloading(s, id, Failed));
        return Missing, after;
      }
      after := Go(s, after, ResolveRow(id), Downloading(s, id, Resolved(key, row.value.checksum)));
      return Row(key, row.value.checksum), after;
    }

    /** Resolve, open, count, serve; a download that cannot be counted is served all the same. In
        any state a run can reach, what is served hashes to the checksum it is announced with. */
    method HandleDownload(plugin: PluginId, version: string, luck: Reads, ghost s: State, ghost id: int)
      returns (reply: Reply, ghost tr: Trace)
      requires Mirrors(s) && id !in s.downloads
      requires PublishSafety.Exact(World(), s)
      requires forall key :: key in s.tables.versions ==> Keys.Admissible(key)
      modifies meta`versions, meta`ops
      ensures Took(World(), s, tr) && Mirrors(tr.state) && tr.state.publishers == s.publishers
      ensures var found := Resolve(s.tables, plugin, version).Some?;
              var unreadable := Unreadable(s.tables, plugin, version, luck);
              && (reply.Nowhere? <==> !unreadable && !found)
              && (reply.Broken? <==> unreadable || (found && !luck.blob))
              && (reply.File? <==> !unreadable && found && luck.blob)
      ensures reply.File? ==> blob.hash(reply.bytes) == reply.checksum
      ensures reply.File? ==>
                var found := Resolve(s.tables, plugin, version);
                && found.Some? && found.value in s.tables.versions && found.value in s.blobs
                && reply == File(s.tables.versions[found.value].checksum, s.blobs[found.value])
                && tr.state.tables == if luck.count then Apply(s.tables, Count(found.value)).tables else s.tables
      ensures !reply.File? ==> tr.state.tables == s.tables
    {
      hide Took, PublishSafety.Exact, Keys.Admissible, Resolve, BlobStores.FsStore.Holds, Sqlite.Store.Valid;
      TookNone(World(), s);
      tr := Go(s, Trace([], s), Ask(id, plugin, version), Downloading(s, id, Naming(plugin, version)));
      var found;
      found, tr := ResolveVersion(plugin, version, luck, s, tr, id);
      if found.Missing? {
        return Nowhere, tr;
      }
      if found.Unread? || !luck.blob {
        return Broken, tr;
      }
      PublishSafety.IntactOf(World(), s, found.key);
      var bytes;
      bytes, tr := Serve(found.key, found.checksum, luck.count, s, tr, id);
      return File(found.checksum, bytes), tr;
    }

    /** Opens a resolved version's blob and counts the download, if it can. */
    method Serve(key: VersionKey, checksum: string, counts: bool, ghost s: State, ghost tr: Trace, ghost id: int)
      returns (bytes: Blob, ghost after: Trace)
      requires Mirrors(s) && Took(World(), s, tr) && tr.state == Downloading(s, id, Resolved(key, checksum))
      requires key in s.tables.versions && checksum == s.tables.versions[key].checksum && Keys.Admissible(key)
      requires PublishSafety.Intact(World(), s, key)
      modifies meta`versions, meta`ops
      ensures Took(World(), s, after) && Mirrors(after.state) && after.state.publishers == s.publishers
      ensures after.state.tables == if counts then Apply(s.tables, Count(key)).tables else s.tables
      ensures key in s.blobs && bytes == s.blobs[key] && blob.hash(bytes) == checksum
    {
      hide Took, Next, BlobStores.FsStore.Holds, Sqlite.Store.Valid;
      var found := blob.Open(key, s.blobs);
      bytes := found.value;
      Opening(World(), s, id, key, checksum);
      after := Go(s, tr, OpenBlob(id), Downloading(s, id, Opened(key, checksum, bytes)));
      if counts {
        meta.IncrementDownloadCount(key);
        after := Go(s, after, CountDownload(id), Do(after.state, Count(key)));
      }
    }
  }
}
