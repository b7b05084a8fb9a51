/** Publishing and downloading over two stores. A publish is a sequence of separate steps, each
    atomic on its own: check the metadata, stage and hash the upload, create the blob, commit the
    metadata, read it back. Any number of publishers, downloads and date fixes interleave, and a
    publisher may stop between any two steps. */
module Publishing {
  import opened Wrappers
  import opened Metadata

  type Blob = Bytes

  /** The filesystem creates a blob with one link; the object store looks first, then puts. */
  datatype Backend = Filesystem | ObjectStore

  datatype World = World(backend: Backend, hash: Blob -> string, semver: string -> bool)

  ghost predicate Proper(w: World) {
    !w.semver("") && !w.semver("latest")
  }

  datatype Input = Input(
    key: VersionKey, requestor: string, bundleName: string, bundleVersion: string,
    info: Info, keywords: seq<string>, manifest: string, publishedAt: Option<int>, tarball: Blob)

  datatype Result =
    | Published(row: VersionRow)
    | Forbidden
    | InvalidInput
    | AlreadyExists
    | NotStored(conflict: bool)
    | StoreError
    | Stopped

  datatype Phase =
    | Arrived
    | Checked
    | Staged(sum: string)
    | Looked(sum: string)
    | Stored(sum: string)
    | Committed
    | Finished(result: Result)

  datatype Publisher = Publisher(input: Input, phase: Phase)

  datatype Download =
    | Naming(plugin: PluginId, version: string)
    | Named(key: VersionKey)
    | Resolved(key: VersionKey, checksum: string)
    | Opened(key: VersionKey, checksum: string, bytes: Blob)
    | Failed

  /** `ops` is every metadata operation run so far. */
  datatype State = State(
    tables: Tables, ops: seq<Op>, blobs: map<VersionKey, Blob>,
    publishers: map<int, Publisher>, downloads: map<int, Download>)

  datatype Step =
    | Arrive(id: int, input: Input)
    | Check(id: int, now: int, up: bool)
    | Stage(id: int, ok: bool)
    | Link(id: int, ok: bool)
    | Look(id: int, ok: bool)
    | PutObject(id: int, arrives: bool, acknowledged: bool)
    | Commit(id: int, now: int, ok: bool)
    | Reread(id: int, ok: bool)
    | Stop(id: int)
    | FixDate(key: VersionKey, at: int, now: int)
    | Ask(id: int, plugin: PluginId, version: string)
    | Name(id: int)
    | ResolveRow(id: int)
    | OpenBlob(id: int)
    | CountDownload(id: int)

  const INITIAL := State(EMPTY, [], map[], map[], map[])

  function Run(t: Tables, op: Op): Tables {
    Apply(t, op).tables
  }

  function At(s: State, id: int, phase: Phase): State
    requires id in s.publishers
  {
    s.(publishers := s.publishers[id := s.publishers[id].(phase := phase)])
  }

  function End(s: State, id: int, result: Result): State
    requires id in s.publishers
  {
    At(s, id, Finished(result))
  }

  function Do(s: State, op: Op): State {
    s.(tables := Run(s.tables, op), ops := s.ops + [op])
  }

  // ---------------------------------------------------------------- publisher steps

  /** How far the first check lets a publisher go. */
  function Verdict(w: World, s: State, input: Input, now: int, up: bool): Phase {
    if input.requestor != input.key.plugin.scope then Finished(Forbidden)
    else if input.bundleName != input.key.plugin.name then Finished(InvalidInput)
    else if input.bundleVersion != input.key.version then Finished(InvalidInput)
    else if !w.semver(input.key.version) then Finished(InvalidInput)
    else if input.publishedAt.Some? && input.publishedAt.value > now then Finished(InvalidInput)
    else if !up then Finished(StoreError)
    else if input.key in s.tables.versions then Finished(AlreadyExists)
    else Checked
  }

  function AfterCheck(w: World, s: State, id: int, now: int, up: bool): State
    requires id in s.publishers
  {
    At(s, id, Verdict(w, s, s.publishers[id].input, now, up))
  }

  /** One link: it creates the target or fails because the target exists. */
  function AfterLink(s: State, id: int, sum: string, ok: bool): State
    requires id in s.publishers
  {
    var input := s.publishers[id].input;
    if !ok then End(s, id, NotStored(false))
    else if input.key in s.blobs then End(s, id, NotStored(true))
    else At(s, id, Stored(sum)).(blobs := s.blobs[input.key := input.tarball])
  }

  function AfterLook(s: State, id: int, sum: string, ok: bool): State
    requires id in s.publishers
  {
    if !ok then End(s, id, NotStored(false))
    else if s.publishers[id].input.key in s.blobs then End(s, id, NotStored(true))
    else At(s, id, Looked(sum))
  }

  /** The put overwrites whatever is there; it may arrive without being acknowledged. */
  function AfterPut(s: State, id: int, sum: string, arrives: bool, acknowledged: bool): State
    requires id in s.publishers
  {
    var input := s.publishers[id].input;
    var blobs := if arrives then s.blobs[input.key := input.tarball] else s.blobs;
    (if arrives && acknowledged then At(s, id, Stored(sum)) else End(s, id, NotStored(false))).(blobs := blobs)
  }

  function ToUpload(input: Input, sum: string): Upload {
    Upload(input.key, input.info, input.keywords, sum, input.manifest, input.publishedAt)
  }

  function AfterCommit(s: State, id: int, sum: string, now: int, ok: bool): State
    requires id in s.publishers
  {
    var input := s.publishers[id].input;
    if !ok then End(s, id, StoreError)
    else if input.key in s.tables.versions then Do(End(s, id, AlreadyExists), Upsert(ToUpload(input, sum), now))
    else Do(At(s, id, Committed), Upsert(ToUpload(input, sum), now))
  }

  function AfterReread(s: State, id: int, ok: bool): State
    requires id in s.publishers
  {
    var key := s.publishers[id].input.key;
    if !ok || key !in s.tables.versions then End(s, id, StoreError)
    else End(s, id, Published(s.tables.versions[key]))
  }

  function NextPublisher(w: World, s: State, step: Step): Option<State>
    requires step.Check? || step.Stage? || step.Link? || step.Look? || step.PutObject? || step.Commit?
          || step.Reread? || step.Stop?
  {
    if step.id !in s.publishers then None
    else
      var phase := s.publishers[step.id].phase;
      var tarball := s.publishers[step.id].input.tarball;
      match step
      case Check(id, now, up) => if phase.Arrived? then Some(AfterCheck(w, s, id, now, up)) else None
      case Stage(id, ok) =>
        if !phase.Checked? then None
        else if ok then Some(At(s, id, Staged(w.hash(tarball)))) else Some(End(s, id, NotStored(false)))
      case Link(id, ok) =>
        if phase.Staged? && w.backend.Filesystem? then Some(AfterLink(s, id, phase.sum, ok)) else None
      case Look(id, ok) =>
        if phase.Staged? && w.backend.ObjectStore? then Some(AfterLook(s, id, phase.sum, ok)) else None
      case PutObject(id, arrives, acknowledged) =>
        if phase.Looked? then Some(AfterPut(s, id, phase.sum, arrives, acknowledged)) else None
      case Commit(id, now, ok) =>
        if phase.Stored? then Some(AfterCommit(s, id, phase.sum, now, ok)) else None
      case Reread(id, ok) => if phase.Committed? then Some(AfterReread(s, id, ok)) else None
      case Stop(id) => if phase.Finished? then None else Some(End(s, id, Stopped))
  }

  // ---------------------------------------------------------------- the other steps

  function Downloading(s: State, id: int, d: Download): State {
    s.(downloads := s.downloads[id := d])
  }

  function NextDownload(s: State, step: Step): Option<State>
    requires step.Name? || step.ResolveRow? || step.OpenBlob? || step.CountDownload?
  {
    if step.id !in s.downloads then None
    else
      match (step, s.downloads[step.id])
      case (Name(id), Naming(plugin, version)) =>
        if version != "" && version != "latest" then Some(Downloading(s, id, Named(VersionKey(plugin, version))))
        else if plugin !in s.tables.plugins then Some(Downloading(s, id, Failed))
        else Some(Downloading(s, id, Named(VersionKey(plugin, s.tables.plugins[plugin].latest))))
      case (ResolveRow(id), Named(key)) =>
        if key !in s.tables.versions then Some(Downloading(s, id, Failed))
        else Some(Downloading(s, id, Resolved(key, s.tables.versions[key].checksum)))
      case (OpenBlob(id), Resolved(key, checksum)) =>
        if key !in s.blobs then Some(Downloading(s, id, Failed))
        else Some(Downloading(s, id, Opened(key, checksum, s.blobs[key])))
      case (CountDownload(_), Opened(key, _, _)) => Some(Do(s, Count(key)))
      case _ => None
  }

  function Next(w: World, s: State, step: Step): Option<State> {
    match step
    case Arrive(id, input) =>
      if id in s.publishers then None
      else Some(s.(publishers := s.publishers[id := Publisher(input, Arrived)]))
    case FixDate(key, at, now) => if at > now then None else Some(Do(s, SetDate(key, at)))
    case Ask(id, plugin, version) =>
      if id in s.downloads then None else Some(Downloading(s, id, Naming(plugin, version)))
    case Name(_) => NextDownload(s, step)
    case ResolveRow(_) => NextDownload(s, step)
    case OpenBlob(_) => NextDownload(s, step)
    case CountDownload(_) => NextDownload(s, step)
    case _ => NextPublisher(w, s, step)
  }

  // ---------------------------------------------------------------- both backends

  ghost predicate Won(p: Publisher) {
    p.phase.Committed? || (p.phase.Finished? && p.phase.result.Published?)
  }

  ghost predicate HasRow(w: World, s: State, p: Publisher) {
    && p.input.key in s.tables.versions
    && s.tables.versions[p.input.key].checksum == w.hash(p.input.tarball)
    && s.tables.versions[p.input.key].manifest == p.input.manifest
  }

  /** What a publisher knows about its own upload. */
  ghost predicate PublisherOk(w: World, s: State, p: Publisher) {
    && (!p.phase.Arrived? && !p.phase.Finished? ==> w.semver(p.input.key.version))
    && (p.phase.Staged? || p.phase.Looked? || p.phase.Stored? ==> p.phase.sum == w.hash(p.input.tarball))
    && (p.phase.Looked? ==> w.backend.ObjectStore?)
    && (p.phase.Stored? ==> p.input.key in s.blobs)
    && (Won(p) ==> HasRow(w, s, p))
    && (p.phase.Finished? && p.phase.result.Published? ==> p.phase.result.row.checksum == w.hash(p.input.tarball))
    && (p.phase.Finished? && p.phase.result.AlreadyExists? ==> p.input.key in s.tables.versions)
  }

  ghost predicate DownloadOk(s: State, d: Download) {
    d.Resolved? || d.Opened? ==>
      && d.key in s.tables.versions
      && s.tables.versions[d.key].checksum == d.checksum
  }

  ghost predicate Backed(s: State, key: VersionKey) {
    key in s.tables.versions ==> key in s.blobs
  }

  ghost predicate SameWin(s: State, i: int, j: int)
    requires i in s.publishers && j in s.publishers
  {
    Won(s.publishers[i]) && Won(s.publishers[j]) && s.publishers[i].input.key == s.publishers[j].input.key
  }

  ghost predicate NamedProperly(w: World, op: Op) {
    op.Upsert? ==> w.semver(op.up.key.version)
  }

  ghost predicate Sound(w: World, s: State) {
    && s.tables == Replay(s.ops)
    && (forall op :: op in s.ops ==> NamedProperly(w, op))
    && (forall key :: Backed(s, key))
    && (forall i :: i in s.publishers ==> PublisherOk(w, s, s.publishers[i]))
    && (forall i, j :: i in s.publishers && j in s.publishers && i != j ==> !SameWin(s, i, j))
    && (forall i :: i in s.downloads ==> DownloadOk(s, s.downloads[i]))
  }

  /** Rows stay, keeping checksum and manifest. */
  ghost predicate RowsKept(t: Tables, u: Tables) {
    forall key :: key in t.versions ==> RowKept(t, u, key)
  }

  ghost predicate RowKept(t: Tables, u: Tables, key: VersionKey)
    requires key in t.versions
  {
    && key in u.versions
    && u.versions[key].checksum == t.versions[key].checksum
    && u.versions[key].manifest == t.versions[key].manifest
  }

  lemma ApplyKeepsRows(t: Tables, op: Op)
    ensures RowsKept(t, Run(t, op))
  {
  }

  lemma ReplayGrows(ops: seq<Op>, op: Op)
    ensures Replay(ops + [op]) == Run(Replay(ops), op)
  {
    assert (ops + [op])[..|ops|] == ops;
  }

  /** What any step does to the shared stores: rows are kept, blobs never go away, and a new
      row has its blob. */
  ghost predicate Extends(w: World, s: State, t: State) {
    && t.tables == Replay(t.ops)
    && (forall op :: op in t.ops ==> NamedProperly(w, op))
    && RowsKept(s.tables, t.tables)
    && s.blobs.Keys <= t.blobs.Keys
    && (forall key :: Backed(t, key))
  }

  lemma StillOk(w: World, s: State, t: State, p: Publisher)
    requires PublisherOk(w, s, p) && RowsKept(s.tables, t.tables) && s.blobs.Keys <= t.blobs.Keys
    ensures PublisherOk(w, t, p)
  {
    if Won(p) {
      assert RowKept(s.tables, t.tables, p.input.key);
    }
  }

  lemma DownloadStillOk(s: State, t: State, d: Download)
    requires DownloadOk(s, d) && RowsKept(s.tables, t.tables)
    ensures DownloadOk(t, d)
  {
    if d.Resolved? || d.Opened? {
      assert RowKept(s.tables, t.tables, d.key);
    }
  }

  /** A step of publisher `id` that leaves it in order keeps everything in order, provided it
      wins only by adding the row. */
  lemma PublisherStepSound(w: World, s: State, t: State, id: int, p: Publisher)
    requires Sound(w, s) && Extends(w, s, t)
    requires t.publishers == s.publishers[id := p] && t.downloads == s.downloads
    requires PublisherOk(w, t, p)
    requires Won(p) ==>
               || p.input.key !in s.tables.versions
               || (id in s.publishers && Won(s.publishers[id]) && s.publishers[id].input == p.input)
    ensures Sound(w, t)
  {
    hide PublisherOk, DownloadOk, Backed, NamedProperly, RowsKept;
    forall i | i in t.publishers
      ensures PublisherOk(w, t, t.publishers[i])
    {
      if i != id {
        StillOk(w, s, t, s.publishers[i]);
      }
    }
    forall i | i in t.downloads
      ensures DownloadOk(t, t.downloads[i])
    {
      DownloadStillOk(s, t, s.downloads[i]);
    }
    forall i, j | i in t.publishers && j in t.publishers && i != j
      ensures !SameWin(t, i, j)
    {
      WinsApart(w, s, t, id, p, i, j);
    }
  }

  lemma WinsApart(w: World, s: State, t: State, id: int, p: Publisher, i: int, j: int)
    requires Sound(w, s)
    requires t.publishers == s.publishers[id := p]
    requires Won(p) ==>
               || p.input.key !in s.tables.versions
               || (id in s.publishers && Won(s.publishers[id]) && s.publishers[id].input == p.input)
    requires i in t.publishers && j in t.publishers && i != j
    ensures !SameWin(t, i, j)
  {
    hide DownloadOk, Backed, NamedProperly;
    if i in s.publishers && j in s.publishers {
      assert !SameWin(s, i, j);
    }
    if i in s.publishers {
      assert PublisherOk(w, s, s.publishers[i]);
    }
    if j in s.publishers {
      assert PublisherOk(w, s, s.publishers[j]);
    }
  }

  /** A step that touches no publisher keeps everything in order. */
  lemma OtherStepSound(w: World, s: State, t: State)
    requires Sound(w, s) && Extends(w, s, t)
    requires t.publishers == s.publishers
    requires forall i :: i in t.downloads ==> DownloadOk(t, t.downloads[i])
    ensures Sound(w, t)
  {
    hide PublisherOk, DownloadOk, Backed, NamedProperly, RowsKept;
    forall i | i in t.publishers
      ensures PublisherOk(w, t, t.publishers[i])
    {
      StillOk(w, s, t, s.publishers[i]);
    }
    forall i, j | i in t.publishers && j in t.publishers && i != j
      ensures !SameWin(t, i, j)
    {
      assert !SameWin(s, i, j);
    }
  }

  /** Running one more metadata operation only adds rows whose blobs are there. */
  lemma DoExtends(w: World, s: State, op: Op, t: State)
    requires Sound(w, s) && t.tables == Run(s.tables, op) && t.ops == s.ops + [op] && t.blobs == s.blobs
    requires NamedProperly(w, op)
    requires op.Upsert? ==> op.up.key in s.blobs
    ensures Extends(w, s, t)
  {
    ReplayGrows(s.ops, op);
    ApplyKeepsRows(s.tables, op);
    forall key
      ensures Backed(t, key)
    {
      assert Backed(s, key);
    }
  }

  lemma QuietExtends(w: World, s: State, t: State)
    requires Sound(w, s) && t.tables == s.tables && t.ops == s.ops && s.blobs.Keys <= t.blobs.Keys
    ensures Extends(w, s, t)
  {
    forall key
      ensures Backed(t, key)
    {
      assert Backed(s, key);
    }
  }

  lemma CommitSound(w: World, s: State, id: int, now: int, ok: bool)
    requires Sound(w, s) && id in s.publishers && s.publishers[id].phase.Stored?
    ensures Sound(w, AfterCommit(s, id, s.publishers[id].phase.sum, now, ok))
  {
    var p := s.publishers[id];
    var t := AfterCommit(s, id, p.phase.sum, now, ok);
    assert PublisherOk(w, s, p);
    if ok {
      DoExtends(w, s, Upsert(ToUpload(p.input, p.phase.sum), now), t);
    } else {
      QuietExtends(w, s, t);
    }
    PublisherStepSound(w, s, t, id, t.publishers[id]);
  }

  /** Moving one publisher on, perhaps writing its blob, keeps everything in order. */
  lemma MoveSound(w: World, s: State, id: int, phase: Phase, blobs: map<VersionKey, Blob>)
    requires Sound(w, s) && id in s.publishers && s.blobs.Keys <= blobs.Keys
    requires PublisherOk(w, At(s, id, phase).(blobs := blobs), s.publishers[id].(phase := phase))
    requires Won(s.publishers[id].(phase := phase)) ==> Won(s.publishers[id])
    ensures Sound(w, At(s, id, phase).(blobs := blobs))
  {
    hide Sound, Extends, PublisherOk;
    var t := At(s, id, phase).(blobs := blobs);
    QuietExtends(w, s, t);
    PublisherStepSound(w, s, t, id, t.publishers[id]);
  }

  lemma PublisherSound(w: World, s: State, step: Step)
    requires Sound(w, s)
    requires step.Check? || step.Stage? || step.Link? || step.Look? || step.PutObject? || step.Reread? || step.Stop?
    requires NextPublisher(w, s, step).Some?
    ensures Sound(w, NextPublisher(w, s, step).value)
  {
    hide Sound, PublisherOk;
    var t := NextPublisher(w, s, step).value;
    var p := s.publishers[step.id];
    var phase := t.publishers[step.id].phase;
    KnownOk(w, s, step.id);
    MovedOk(w, s, step, p);
    assert t == At(s, step.id, phase).(blobs := t.blobs);
    MoveSound(w, s, step.id, phase, t.blobs);
  }

  lemma MovedOk(w: World, s: State, step: Step, p: Publisher)
    requires step.Check? || step.Stage? || step.Link? || step.Look? || step.PutObject? || step.Reread? || step.Stop?
    requires NextPublisher(w, s, step).Some? && p == s.publishers[step.id] && PublisherOk(w, s, p)
    ensures var t := NextPublisher(w, s, step).value;
            && PublisherOk(w, t, t.publishers[step.id])
            && (Won(t.publishers[step.id]) ==> Won(p))
            && s.blobs.Keys <= t.blobs.Keys
  {
    hide PublisherOk, Won, AfterCheck, AfterLink, AfterLook, AfterPut, AfterReread;
    if step.Check? {
      CheckedOk(w, s, step.id, step.now, step.up);
    } else if step.Stage? || step.Reread? || step.Stop? {
      ToldOk(w, s, step, p);
    } else {
      StoredOk(w, s, step, p);
    }
  }

  lemma CheckedOk(w: World, s: State, id: int, now: int, up: bool)
    requires id in s.publishers && s.publishers[id].phase.Arrived?
    ensures var t := AfterCheck(w, s, id, now, up);
            PublisherOk(w, t, t.publishers[id]) && !Won(t.publishers[id]) && t.blobs == s.blobs
  {
  }

  lemma ToldOk(w: World, s: State, step: Step, p: Publisher)
    requires step.Stage? || step.Reread? || step.Stop?
    requires NextPublisher(w, s, step).Some? && p == s.publishers[step.id] && PublisherOk(w, s, p)
    ensures var t := NextPublisher(w, s, step).value;
            PublisherOk(w, t, t.publishers[step.id]) && (Won(t.publishers[step.id]) ==> Won(p)) && t.blobs == s.blobs
  {
  }

  lemma StoredOk(w: World, s: State, step: Step, p: Publisher)
    requires step.Link? || step.Look? || step.PutObject?
    requires NextPublisher(w, s, step).Some? && p == s.publishers[step.id] && PublisherOk(w, s, p)
    ensures var t := NextPublisher(w, s, step).value;
            PublisherOk(w, t, t.publishers[step.id]) && !Won(t.publishers[step.id]) && s.blobs.Keys <= t.blobs.Keys
  {
  }

  lemma KnownOk(w: World, s: State, id: int)
    requires Sound(w, s) && id in s.publishers
    ensures PublisherOk(w, s, s.publishers[id])
  {
  }

  lemma DownloadSound(w: World, s: State, step: Step)
    requires Sound(w, s)
    requires step.Name? || step.ResolveRow? || step.OpenBlob? || step.CountDownload?
    requires NextDownload(s, step).Some?
    ensures Sound(w, NextDownload(s, step).value)
  {
    hide PublisherOk, Extends;
    var t := NextDownload(s, step).value;
    if step.CountDownload? {
      DoExtends(w, s, Count(s.downloads[step.id].key), t);
      forall i | i in t.downloads
        ensures DownloadOk(t, t.downloads[i])
      {
        DownloadStillOk(s, t, s.downloads[i]);
      }
    } else {
      QuietExtends(w, s, t);
      assert DownloadOk(s, s.downloads[step.id]);
    }
    OtherStepSound(w, s, t);
  }

  /** Every step, on either backend, keeps every row backed by a blob and no two publishers of
      one version winners. */
  lemma StepSound(w: World, s: State, step: Step)
    requires Sound(w, s) && Next(w, s, step).Some?
    ensures Sound(w, Next(w, s, step).value)
  {
    hide PublisherOk, DownloadOk, NextPublisher, NextDownload;
    var t := Next(w, s, step).value;
    match step
    case Arrive(id, input) =>
      QuietExtends(w, s, t);
      ArrivedOk(w, t, input);
      PublisherStepSound(w, s, t, id, Publisher(input, Arrived));
    case Commit(id, now, ok) => CommitStep(w, s, step); CommitSound(w, s, id, now, ok);
    case FixDate(key, at, now) =>
      DoExtends(w, s, SetDate(key, at), t);
      forall i | i in t.downloads
        ensures DownloadOk(t, t.downloads[i])
      {
        DownloadStillOk(s, t, s.downloads[i]);
      }
      OtherStepSound(w, s, t);
    case Ask(id, plugin, version) =>
      QuietExtends(w, s, t);
      AskedOk(s, t, id, plugin, version);
      OtherStepSound(w, s, t);
    case Name(_) => DownloadSound(w, s, step);
    case ResolveRow(_) => DownloadSound(w, s, step);
    case OpenBlob(_) => DownloadSound(w, s, step);
    case CountDownload(_) => DownloadSound(w, s, step);
    case _ => PublisherSound(w, s, step);
  }

  lemma ArrivedOk(w: World, s: State, input: Input)
    ensures PublisherOk(w, s, Publisher(input, Arrived))
  {
  }

  lemma CommitStep(w: World, s: State, step: Step)
    requires step.Commit? && NextPublisher(w, s, step).Some?
    ensures step.id in s.publishers && s.publishers[step.id].phase.Stored?
    ensures NextPublisher(w, s, step).value ==
            AfterCommit(s, step.id, s.publishers[step.id].phase.sum, step.now, step.ok)
  {
  }

  lemma AskedOk(s: State, t: State, id: int, plugin: PluginId, version: string)
    requires t == Downloading(s, id, Naming(plugin, version))
    requires forall i :: i in s.downloads ==> DownloadOk(s, s.downloads[i])
    ensures forall i :: i in t.downloads ==> DownloadOk(t, t.downloads[i])
  {
    forall i | i in t.downloads
      ensures DownloadOk(t, t.downloads[i])
    {
      if i != id {
        assert DownloadOk(s, s.downloads[i]);
      }
    }
  }
}
