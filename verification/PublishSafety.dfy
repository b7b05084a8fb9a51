/** What every run of publishers, downloads and date fixes guarantees, and where the two blob
    backends part. */
module PublishSafety {
  import opened Wrappers
  import Runs
  import opened Metadata
  import opened Publishing

  // ---------------------------------------------------------------- runs

  function By(w: World): (State, Step) -> Option<State> {
    (s, step) => Next(w, s, step)
  }

  function Steps(w: World, s: State, steps: seq<Step>): Option<State> {
    Runs.Run(By(w), s, steps)
  }

  ghost predicate BothLooking(s: State, i: int, j: int)
    requires i in s.publishers && j in s.publishers
  {
    s.publishers[i].phase.Looked? && s.publishers[j].phase.Looked? &&
      s.publishers[i].input.key == s.publishers[j].input.key
  }

  /** No two publishers of one version are between the look and the put. */
  ghost predicate Unraced(s: State) {
    forall i, j :: i in s.publishers && j in s.publishers && i != j ==> !BothLooking(s, i, j)
  }

  ghost predicate AllUnraced(w: World, s: State, steps: seq<Step>)
    decreases |steps|
  {
    && Unraced(s)
    && (steps != [] && Next(w, s, steps[0]).Some? ==> AllUnraced(w, Next(w, s, steps[0]).value, steps[1..]))
  }

  /** On the filesystem no publisher ever looks first, so every sound state is unraced. */
  lemma FilesystemUnraced(w: World, s: State)
    requires w.backend.Filesystem? && Sound(w, s)
    ensures Unraced(s)
  {
    forall i, j | i in s.publishers && j in s.publishers && i != j
      ensures !BothLooking(s, i, j)
    {
      KnownOk(w, s, i);
    }
  }

  lemma {:induction false} FilesystemAllUnraced(w: World, s: State, steps: seq<Step>)
    requires w.backend.Filesystem? && Sound(w, s)
    ensures AllUnraced(w, s, steps)
    decreases |steps|
  {
    hide Sound, Next, Unraced;
    FilesystemUnraced(w, s);
    if steps != [] && Next(w, s, steps[0]).Some? {
      StepSound(w, s, steps[0]);
      FilesystemAllUnraced(w, Next(w, s, steps[0]).value, steps[1..]);
    }
  }

  lemma InitialSound(w: World)
    ensures Sound(w, INITIAL)
  {
  }

  lemma {:induction false} StepsSound(w: World, s: State, steps: seq<Step>)
    requires Sound(w, s) && Steps(w, s, steps).Some?
    ensures Sound(w, Steps(w, s, steps).value)
    decreases |steps|
  {
    hide Sound, Next;
    if steps != [] {
      StepSound(w, s, steps[0]);
      StepsSound(w, Next(w, s, steps[0]).value, steps[1..]);
    }
  }

  // ---------------------------------------------------------------- exact blobs

  ghost predicate Intact(w: World, s: State, key: VersionKey) {
    key in s.tables.versions ==>
      key in s.blobs && w.hash(s.blobs[key]) == s.tables.versions[key].checksum
  }

  ghost predicate PublisherExact(s: State, p: Publisher) {
    && (p.phase.Looked? ==> p.input.key !in s.blobs)
    && (p.phase.Stored? ==>
          && p.input.key in s.blobs && s.blobs[p.input.key] == p.input.tarball
          && p.input.key !in s.tables.versions)
    && (Won(p) ==> p.input.key in s.blobs && s.blobs[p.input.key] == p.input.tarball)
  }

  ghost predicate BothStored(s: State, i: int, j: int)
    requires i in s.publishers && j in s.publishers
  {
    s.publishers[i].phase.Stored? && s.publishers[j].phase.Stored? &&
      s.publishers[i].input.key == s.publishers[j].input.key
  }

  ghost predicate DownloadExact(w: World, d: Download) {
    d.Opened? ==> w.hash(d.bytes) == d.checksum
  }

  ghost predicate Exact(w: World, s: State) {
    && Sound(w, s)
    && (forall key :: Intact(w, s, key))
    && (forall i :: i in s.publishers ==> PublisherExact(s, s.publishers[i]))
    && (forall i, j :: i in s.publishers && j in s.publishers && i != j ==> !BothStored(s, i, j))
    && (forall i :: i in s.downloads ==> DownloadExact(w, s.downloads[i]))
  }

  ghost predicate BlobsKept(s: State, t: State) {
    forall key :: key in s.blobs ==> key in t.blobs && t.blobs[key] == s.blobs[key]
  }

  ghost predicate Kept(s: State, t: State) {
    RowsKept(s.tables, t.tables) && BlobsKept(s, t)
  }

  lemma KeptTransitive(s: State, t: State, u: State)
    requires Kept(s, t) && Kept(t, u)
    ensures Kept(s, u)
  {
    forall key | key in s.tables.versions
      ensures RowKept(s.tables, u.tables, key)
    {
      assert RowKept(s.tables, t.tables, key);
      assert RowKept(t.tables, u.tables, key);
    }
  }

  /** Nothing stored, nothing new recorded: exactness carries over. */
  lemma QuietExact(w: World, s: State, t: State, id: int)
    requires Exact(w, s) && Sound(w, t)
    requires t.blobs == s.blobs && RowsKept(s.tables, t.tables) && t.tables.versions.Keys == s.tables.versions.Keys
    requires t.publishers.Keys <= s.publishers.Keys + {id}
    requires forall i :: i in t.publishers && i != id ==> i in s.publishers && t.publishers[i] == s.publishers[i]
    requires id in t.publishers ==> PublisherExact(t, t.publishers[id])
    requires id in t.publishers && t.publishers[id].phase.Stored? ==>
        id in s.publishers && s.publishers[id] == t.publishers[id]
    requires forall i :: i in t.downloads ==> DownloadExact(w, t.downloads[i])
    ensures Exact(w, t) && Kept(s, t)
  {
    hide Sound, DownloadExact, RowsKept;
    forall key
      ensures Intact(w, t, key)
    {
      assert Intact(w, s, key);
      if key in t.tables.versions {
        KeptRow(s.tables, t.tables, key);
      }
    }
    forall i | i in t.publishers
      ensures PublisherExact(t, t.publishers[i])
    {
      if i != id {
        assert PublisherExact(s, s.publishers[i]);
      }
    }
    forall i, j | i in t.publishers && j in t.publishers && i != j
      ensures !BothStored(t, i, j)
    {
      if t.publishers[i].phase.Stored? && t.publishers[j].phase.Stored? {
        assert !BothStored(s, i, j);
      }
    }
  }

  lemma KeptRow(t: Tables, u: Tables, key: VersionKey)
    requires RowsKept(t, u) && key in t.versions
    ensures RowKept(t, u, key)
  {
  }

  lemma NoneElse(w: World, s: State, id: int, j: int)
    requires Exact(w, s) && Unraced(s)
    requires id in s.publishers && j in s.publishers && j != id
    requires s.publishers[id].input.key !in s.blobs && s.publishers[id].input.key == s.publishers[j].input.key
    requires s.publishers[id].phase.Looked? || w.backend.Filesystem?
    ensures !s.publishers[j].phase.Looked? && !s.publishers[j].phase.Stored?
  {
    KnownOk(w, s, j);
    assert !BothLooking(s, id, j);
  }

  /** Creating a blob where there was none: nobody else is about to, or has. */
  lemma StoreExact(w: World, s: State, t: State, id: int, phase: Phase)
    requires Exact(w, s) && Unraced(s) && Sound(w, t) && id in s.publishers
    requires var p := s.publishers[id];
             && p.input.key !in s.blobs
             && (p.phase.Looked? || w.backend.Filesystem?)
             && t == At(s, id, phase).(blobs := s.blobs[p.input.key := p.input.tarball])
    requires phase.Stored? || phase.Finished?
    ensures Exact(w, t) && Kept(s, t)
  {
    hide Sound, Unraced;
    var key := s.publishers[id].input.key;
    assert Intact(w, s, key);
    assert RowsKept(s.tables, t.tables);
    forall k
      ensures Intact(w, t, k)
    {
      assert Intact(w, s, k);
    }
    forall i | i in t.publishers
      ensures PublisherExact(t, t.publishers[i])
    {
      assert PublisherExact(s, s.publishers[i]);
      if i != id && s.publishers[i].input.key == key {
        NoneElse(w, s, id, i);
      }
    }
    forall i, j | i in t.publishers && j in t.publishers && i != j
      ensures !BothStored(t, i, j)
    {
      assert !BothStored(s, i, j);
      if i == id && s.publishers[j].input.key == key {
        NoneElse(w, s, id, j);
      } else if j == id && s.publishers[i].input.key == key {
        NoneElse(w, s, id, i);
      }
    }
  }

  /** The publisher whose blob is stored can always commit. */
  lemma StoredCommits(w: World, s: State, id: int, now: int)
    requires Exact(w, s) && id in s.publishers && s.publishers[id].phase.Stored?
    ensures Next(w, s, Commit(id, now, true)).Some?
    ensures var t := Next(w, s, Commit(id, now, true)).value;
            t.publishers[id].phase.Committed? && s.publishers[id].input.key in t.tables.versions
  {
    hide Sound;
    assert PublisherExact(s, s.publishers[id]);
  }

  lemma CommitExact(w: World, s: State, id: int, now: int)
    requires Exact(w, s) && id in s.publishers && s.publishers[id].phase.Stored?
    requires Sound(w, AfterCommit(s, id, s.publishers[id].phase.sum, now, true))
    ensures var t := AfterCommit(s, id, s.publishers[id].phase.sum, now, true);
            Exact(w, t) && Kept(s, t)
  {
    var p := s.publishers[id];
    var t := AfterCommit(s, id, p.phase.sum, now, true);
    var key := p.input.key;
    KnownOk(w, s, id);
    hide Sound;
    assert PublisherExact(s, p);
    ApplyKeepsRows(s.tables, Upsert(ToUpload(p.input, p.phase.sum), now));
    assert t.tables.versions.Keys == s.tables.versions.Keys + {key};
    forall k
      ensures Intact(w, t, k)
    {
      assert Intact(w, s, k);
      if k in s.tables.versions {
        KeptRow(s.tables, t.tables, k);
      }
    }
    forall i | i in t.publishers
      ensures PublisherExact(t, t.publishers[i])
    {
      assert PublisherExact(s, s.publishers[i]);
      if i != id {
        assert !BothStored(s, i, id);
      }
    }
    forall i, j | i in t.publishers && j in t.publishers && i != j
      ensures !BothStored(t, i, j)
    {
      assert !BothStored(s, i, j);
    }
  }

  lemma PublisherStepExact(w: World, s: State, step: Step)
    requires Exact(w, s) && Unraced(s)
    requires step.Check? || step.Stage? || step.Link? || step.Look? || step.PutObject? || step.Commit?
          || step.Reread? || step.Stop?
    requires NextPublisher(w, s, step).Some? && Sound(w, NextPublisher(w, s, step).value)
    ensures Exact(w, NextPublisher(w, s, step).value) && Kept(s, NextPublisher(w, s, step).value)
  {
    hide Sound, Unraced, AfterCheck, Kept;
    var t := NextPublisher(w, s, step).value;
    var p := s.publishers[step.id];
    assert PublisherExact(s, p);
    match step
    case Commit(id, now, ok) =>
      if ok {
        CommitExact(w, s, id, now);
      } else {
        QuietExact(w, s, t, id);
      }
    case Check(id, now, up) =>
      CheckShape(w, s, id, now, up);
      QuietExact(w, s, t, id);
    case Link(_, _) => BlobStepExact(w, s, step);
    case PutObject(_, _, _) => BlobStepExact(w, s, step);
    case _ => QuietStepExact(w, s, step);
  }

  lemma BlobStepExact(w: World, s: State, step: Step)
    requires Exact(w, s) && Unraced(s) && (step.Link? || step.PutObject?)
    requires NextPublisher(w, s, step).Some? && Sound(w, NextPublisher(w, s, step).value)
    ensures Exact(w, NextPublisher(w, s, step).value) && Kept(s, NextPublisher(w, s, step).value)
  {
    hide Sound, Unraced, Kept;
    var t := NextPublisher(w, s, step).value;
    var p := s.publishers[step.id];
    assert PublisherExact(s, p);
    if if step.Link? then step.ok && p.input.key !in s.blobs else step.arrives {
      StoreExact(w, s, t, step.id, t.publishers[step.id].phase);
    } else {
      QuietExact(w, s, t, step.id);
    }
  }

  lemma QuietStepExact(w: World, s: State, step: Step)
    requires Exact(w, s) && (step.Stage? || step.Look? || step.Reread? || step.Stop?)
    requires NextPublisher(w, s, step).Some? && Sound(w, NextPublisher(w, s, step).value)
    ensures Exact(w, NextPublisher(w, s, step).value) && Kept(s, NextPublisher(w, s, step).value)
  {
    hide Sound, Kept, NextPublisher;
    QuietShape(w, s, step);
    assert PublisherExact(s, s.publishers[step.id]);
    QuietExact(w, s, NextPublisher(w, s, step).value, step.id);
  }

  lemma QuietShape(w: World, s: State, step: Step)
    requires step.Stage? || step.Look? || step.Reread? || step.Stop?
    requires NextPublisher(w, s, step).Some?
    ensures step.id in s.publishers && step.id in NextPublisher(w, s, step).value.publishers
    ensures var t := NextPublisher(w, s, step).value;
            var p, q := s.publishers[step.id], t.publishers[step.id];
            && t == s.(publishers := s.publishers[step.id := q])
            && p.input == q.input && !q.phase.Stored? && (Won(q) ==> Won(p))
            && (q.phase.Looked? ==> p.input.key !in s.blobs)
  {
  }

  lemma CheckShape(w: World, s: State, id: int, now: int, up: bool)
    requires id in s.publishers
    ensures exists phase: Phase ::
              && (phase.Checked? || (phase.Finished? && !phase.result.Published?))
              && AfterCheck(w, s, id, now, up) == At(s, id, phase)
  {
    var t := AfterCheck(w, s, id, now, up);
    assert t == At(s, id, t.publishers[id].phase);
  }

  /** No publisher moves and no blob changes. */
  lemma StillExact(w: World, s: State, t: State)
    requires Exact(w, s) && Sound(w, t)
    requires t.blobs == s.blobs && RowsKept(s.tables, t.tables) && t.tables.versions.Keys == s.tables.versions.Keys
    requires t.publishers == s.publishers
    requires forall i :: i in t.downloads ==> DownloadExact(w, t.downloads[i])
    ensures Exact(w, t) && Kept(s, t)
  {
    hide Sound, DownloadExact, RowsKept, Kept;
    var id := 0;
    if id in s.publishers {
      assert PublisherExact(s, s.publishers[id]);
    }
    QuietExact(w, s, t, id);
  }

  lemma DoExact(w: World, s: State, op: Op)
    requires Exact(w, s) && !op.Upsert? && Sound(w, Do(s, op))
    ensures Exact(w, Do(s, op)) && Kept(s, Do(s, op))
  {
    hide Sound, Kept, DownloadExact;
    ApplyKeepsRows(s.tables, op);
    StillExact(w, s, Do(s, op));
  }

  lemma DownloadStepExact(w: World, s: State, id: int, d: Download)
    requires Exact(w, s) && Sound(w, Downloading(s, id, d)) && DownloadExact(w, d)
    ensures Exact(w, Downloading(s, id, d)) && Kept(s, Downloading(s, id, d))
  {
    hide Sound, Kept, DownloadExact;
    StillExact(w, s, Downloading(s, id, d));
  }

  lemma OtherStepExact(w: World, s: State, step: Step)
    requires Exact(w, s) && Next(w, s, step).Some? && Sound(w, Next(w, s, step).value)
    requires !OfPublisher(step)
    ensures Exact(w, Next(w, s, step).value) && Kept(s, Next(w, s, step).value)
  {
    hide Sound, Exact, Kept;
    var t := Next(w, s, step).value;
    match step
    case Arrive(id, input) => ArriveExact(w, s, id, input);
    case FixDate(key, at, _) => DoExact(w, s, SetDate(key, at));
    case CountDownload(id) => DoExact(w, s, Count(s.downloads[id].key));
    case OpenBlob(id) =>
      OpenedExact(w, s, id);
      DownloadStepExact(w, s, id, t.downloads[id]);
    case Ask(id, _, _) => DownloadStepExact(w, s, id, t.downloads[id]);
    case Name(id) => DownloadStepExact(w, s, id, t.downloads[id]);
    case ResolveRow(id) => DownloadStepExact(w, s, id, t.downloads[id]);
  }

  lemma ArriveExact(w: World, s: State, id: int, input: Input)
    requires Exact(w, s) && id !in s.publishers
    requires Sound(w, s.(publishers := s.publishers[id := Publisher(input, Arrived)]))
    ensures var t := s.(publishers := s.publishers[id := Publisher(input, Arrived)]);
            Exact(w, t) && Kept(s, t)
  {
    hide Sound, DownloadExact;
    QuietExact(w, s, s.(publishers := s.publishers[id := Publisher(input, Arrived)]), id);
  }

  /** A resolved version opens, and what it serves hashes to the checksum it announced. */
  lemma OpenedExact(w: World, s: State, id: int)
    requires Exact(w, s) && id in s.downloads && s.downloads[id].Resolved?
    ensures Next(w, s, OpenBlob(id)).Some?
    ensures var d := Next(w, s, OpenBlob(id)).value.downloads[id];
            && d.Opened? && d.key == s.downloads[id].key && d.checksum == s.downloads[id].checksum
            && w.hash(d.bytes) == d.checksum
  {
    assert DownloadOk(s, s.downloads[id]);
    assert Intact(w, s, s.downloads[id].key);
  }

  lemma StepExact(w: World, s: State, step: Step)
    requires Exact(w, s) && Unraced(s) && Next(w, s, step).Some?
    ensures Exact(w, Next(w, s, step).value) && Kept(s, Next(w, s, step).value)
  {
    hide Unraced, Exact, Kept, NextPublisher, NextDownload;
    assert Sound(w, s) by { ExactIsSound(w, s); }
    StepSound(w, s, step);
    hide Sound;
    if !OfPublisher(step) {
      OtherStepExact(w, s, step);
    } else {
      PublisherStepExact(w, s, step);
    }
  }

  lemma ExactIsSound(w: World, s: State)
    requires Exact(w, s)
    ensures Sound(w, s)
  {
  }

  /** In every run where no two publishers of one version overlap between look and put (so in
      every filesystem run), each row's blob hashes to its checksum, and from then on neither
      blob, checksum nor manifest ever changes. */
  lemma {:induction false} StepsExact(w: World, s: State, steps: seq<Step>)
    requires Exact(w, s) && AllUnraced(w, s, steps) && Steps(w, s, steps).Some?
    ensures Exact(w, Steps(w, s, steps).value) && Kept(s, Steps(w, s, steps).value)
    decreases |steps|
  {
    hide Exact, Unraced, Next, Kept;
    if steps == [] {
      KeptReflexive(s);
    } else {
      var s' := Next(w, s, steps[0]).value;
      StepExact(w, s, steps[0]);
      StepsExact(w, s', steps[1..]);
      KeptTransitive(s, s', Steps(w, s, steps).value);
    }
  }

  lemma KeptReflexive(s: State)
    ensures Kept(s, s)
  {
  }

  lemma InitialExact(w: World)
    ensures Exact(w, INITIAL)
  {
    InitialSound(w);
  }

  /** Filesystem backend: whatever the interleaving, every row's blob hashes to its checksum. */
  lemma FilesystemIntact(w: World, steps: seq<Step>, key: VersionKey)
    requires w.backend.Filesystem? && Steps(w, INITIAL, steps).Some?
    ensures Intact(w, Steps(w, INITIAL, steps).value, key)
  {
    hide Intact, Sound, AllUnraced;
    InitialSound(w);
    InitialExact(w);
    FilesystemAllUnraced(w, INITIAL, steps);
    StepsExact(w, INITIAL, steps);
    IntactOf(w, Steps(w, INITIAL, steps).value, key);
  }

  lemma IntactOf(w: World, s: State, key: VersionKey)
    requires Exact(w, s)
    ensures Intact(w, s, key)
  {
  }

  /** A version once published opens in every continuation, with the same bytes. */
  lemma PublishedStaysOpenable(w: World, s: State, steps: seq<Step>, key: VersionKey)
    requires Exact(w, s) && AllUnraced(w, s, steps) && Steps(w, s, steps).Some?
    requires key in s.tables.versions
    ensures var t := Steps(w, s, steps).value;
            && key in s.blobs && key in t.blobs && t.blobs[key] == s.blobs[key]
            && key in t.tables.versions && t.tables.versions[key].checksum == w.hash(s.blobs[key])
  {
    hide Exact, AllUnraced, Steps;
    IntactOf(w, s, key);
    StepsExact(w, s, steps);
    KeptRow(s.tables, Steps(w, s, steps).value.tables, key);
  }

  /** On either backend, in every run, a version is published by at most one publisher, and what
      that publisher is told is its own upload. */
  lemma OneWinner(w: World, steps: seq<Step>, i: int, j: int)
    requires Steps(w, INITIAL, steps).Some?
    requires var s := Steps(w, INITIAL, steps).value;
             i in s.publishers && j in s.publishers && Won(s.publishers[i]) && Won(s.publishers[j])
             && s.publishers[i].input.key == s.publishers[j].input.key
    ensures i == j
    ensures HasRow(w, Steps(w, INITIAL, steps).value, Steps(w, INITIAL, steps).value.publishers[i])
  {
    InitialSound(w);
    StepsSound(w, INITIAL, steps);
    var s := Steps(w, INITIAL, steps).value;
    assert PublisherOk(w, s, s.publishers[i]);
    assert i != j ==> !SameWin(s, i, j);
  }

  /** On either backend, in every run: tables are what the log says, no row is called "" or
      "latest", and every row has a blob. */
  lemma EveryRunSound(w: World, steps: seq<Step>, key: VersionKey)
    requires Proper(w) && Steps(w, INITIAL, steps).Some?
    ensures var s := Steps(w, INITIAL, steps).value;
            && s.tables == Replay(s.ops)
            && (forall i :: 0 <= i < |s.ops| && s.ops[i].Upsert? ==> ReadableName(s.ops[i].up.key.version))
            && (key in s.tables.versions ==> ReadableName(key.version) && key in s.blobs)
  {
    InitialSound(w);
    StepsSound(w, INITIAL, steps);
    var s := Steps(w, INITIAL, steps).value;
    assert Backed(s, key);
    forall i | 0 <= i < |s.ops| && s.ops[i].Upsert?
      ensures ReadableName(s.ops[i].up.key.version)
    {
      assert NamedProperly(w, s.ops[i]);
    }
    if key in s.tables.versions {
      VersionKnownIff(s.ops, key);
      var i :| 0 <= i < |s.ops| && Uploads(s.ops[i], key);
    }
  }

  /** On either backend a step keeps every row, its checksum and its manifest. */
  lemma StepKeepsRows(w: World, s: State, step: Step)
    requires Next(w, s, step).Some?
    ensures RowsKept(s.tables, Next(w, s, step).value.tables)
  {
    hide RowsKept, Run, Apply;
    SameRows(s.tables);
    var t := Next(w, s, step).value;
    if t.tables != s.tables {
      StepRuns(w, s, step);
      var op :| t.tables == Run(s.tables, op);
      ApplyKeepsRows(s.tables, op);
    }
  }

  lemma SameRows(t: Tables)
    ensures RowsKept(t, t)
  {
  }

  lemma StepRuns(w: World, s: State, step: Step)
    requires Next(w, s, step).Some?
    ensures var t := Next(w, s, step).value; t.tables == s.tables || exists op :: t.tables == Run(s.tables, op)
  {
    hide Run, Apply;
    var t := Next(w, s, step).value;
    match step {
      case Commit(id, now, ok) =>
        var p := s.publishers[id];
        assert t.tables == s.tables || t.tables == Run(s.tables, Upsert(ToUpload(p.input, p.phase.sum), now));
      case FixDate(key, at, _) =>
        assert t.tables == Run(s.tables, SetDate(key, at));
      case CountDownload(id) =>
        assert t.tables == Run(s.tables, Count(s.downloads[id].key));
      case _ =>
    }
  }

  // ---------------------------------------------------------------- orphans

  ghost predicate Holder(s: State, i: int, key: VersionKey) {
    i in s.publishers && s.publishers[i].input.key == key && s.publishers[i].phase.Stored?
  }

  ghost predicate Looking(s: State, i: int, key: VersionKey) {
    i in s.publishers && s.publishers[i].input.key == key && s.publishers[i].phase.Looked?
  }

  /** Publisher `i` has looked for `key`, or has stored it, and may still change what its row or
      its blob holds. */
  ghost predicate Bearing(s: State, i: int, key: VersionKey) {
    Looking(s, i, key) || Holder(s, i, key)
  }

  ghost predicate Orphan(s: State, key: VersionKey) {
    key in s.blobs && key !in s.tables.versions && forall i :: !Bearing(s, i, key)
  }

  ghost predicate LooksFor(s: State, step: Step, key: VersionKey) {
    step.Look? && step.id in s.publishers && s.publishers[step.id].input.key == key
  }

  predicate OfPublisher(step: Step) {
    || step.Check? || step.Stage? || step.Link? || step.Look? || step.PutObject? || step.Commit? || step.Reread?
    || step.Stop?
  }

  /** A publisher changes only by its own steps. */
  lemma OthersStay(w: World, s: State, step: Step, i: int)
    requires Next(w, s, step).Some? && i in Next(w, s, step).value.publishers
    requires !((OfPublisher(step) || step.Arrive?) && step.id == i)
    ensures i in s.publishers && Next(w, s, step).value.publishers[i] == s.publishers[i]
  {
    hide Run, Verdict;
  }

  /** How its own step may have brought a publisher to where it is; its upload stays. */
  lemma Moved(w: World, s: State, step: Step)
    requires OfPublisher(step) && Next(w, s, step).Some?
    ensures step.id in s.publishers && step.id in Next(w, s, step).value.publishers
    ensures var p, q := s.publishers[step.id], Next(w, s, step).value.publishers[step.id];
            && q.input == p.input
            && (q.phase.Looked? ==> step.Look? && p.input.key !in s.blobs)
            && (q.phase.Stored? ==> p.phase.Looked? || (w.backend.Filesystem? && p.input.key !in s.blobs))
            && (Won(q) ==> Won(p) || p.phase.Stored?)
  {
    hide Run, Apply, Verdict;
    if step.Check? {
      CheckShape(w, s, step.id, step.now, step.up);
    }
  }

  lemma JustArrived(w: World, s: State, step: Step)
    requires step.Arrive? && Next(w, s, step).Some?
    ensures step.id in Next(w, s, step).value.publishers && Next(w, s, step).value.publishers[step.id].phase.Arrived?
  {
  }

  /** A publisher comes to bear on a version only while it has no blob: by a link, or by a look
      that finds nothing. */
  lemma BearingOrigin(w: World, s: State, step: Step, i: int, key: VersionKey)
    requires Next(w, s, step).Some? && Bearing(Next(w, s, step).value, i, key)
    ensures i in s.publishers && s.publishers[i].input == Next(w, s, step).value.publishers[i].input
    ensures Bearing(s, i, key) || (key !in s.blobs && (w.backend.Filesystem? || LooksFor(s, step, key)))
  {
    hide Next;
    if OfPublisher(step) && step.id == i {
      Moved(w, s, step);
    } else if step.Arrive? && step.id == i {
      JustArrived(w, s, step);
    } else {
      OthersStay(w, s, step, i);
    }
  }

  lemma WinOrigin(w: World, s: State, step: Step, i: int)
    requires Next(w, s, step).Some? && i in Next(w, s, step).value.publishers
    requires Won(Next(w, s, step).value.publishers[i])
    ensures i in s.publishers && s.publishers[i].input == Next(w, s, step).value.publishers[i].input
    ensures Won(s.publishers[i]) || s.publishers[i].phase.Stored?
  {
    hide Next;
    if OfPublisher(step) && step.id == i {
      Moved(w, s, step);
    } else if step.Arrive? && step.id == i {
      JustArrived(w, s, step);
    } else {
      OthersStay(w, s, step, i);
    }
  }

  lemma RowOrigin(w: World, s: State, step: Step, key: VersionKey)
    requires Next(w, s, step).Some? && key !in s.tables.versions && key in Next(w, s, step).value.tables.versions
    ensures step.Commit? && Holder(s, step.id, key)
  {
  }

  lemma BlobStays(w: World, s: State, step: Step, key: VersionKey)
    requires Next(w, s, step).Some? && key in s.blobs
    ensures key in Next(w, s, step).value.blobs
  {
    hide Run, Apply;
  }

  lemma OrphanStep(w: World, s: State, step: Step, key: VersionKey)
    requires Next(w, s, step).Some? && Orphan(s, key)
    ensures Orphan(Next(w, s, step).value, key)
  {
    hide Next, Bearing;
    var t := Next(w, s, step).value;
    forall i
      ensures !Bearing(t, i, key)
    {
      if Bearing(t, i, key) {
        BearingOrigin(w, s, step, i, key);
      }
    }
    BlobStays(w, s, step, key);
    if key in t.tables.versions {
      RowOrigin(w, s, step, key);
      assert Bearing(s, step.id, key) by { HolderBears(s, step.id, key); }
    }
  }

  lemma HolderBears(s: State, i: int, key: VersionKey)
    requires Holder(s, i, key) || Looking(s, i, key)
    ensures Bearing(s, i, key) && i in s.publishers && s.publishers[i].input.key == key
  {
  }

  lemma {:induction false} OrphanStays(w: World, s: State, steps: seq<Step>, key: VersionKey)
    requires Steps(w, s, steps).Some? && Orphan(s, key)
    ensures Orphan(Steps(w, s, steps).value, key)
    decreases |steps|
  {
    hide Next, Orphan;
    if steps != [] {
      OrphanStep(w, s, steps[0], key);
      OrphanStays(w, Next(w, s, steps[0]).value, steps[1..], key);
    }
  }

  ghost predicate CanPublish(w: World, s: State, key: VersionKey) {
    exists steps :: Steps(w, s, steps).Some? && key in Steps(w, s, steps).value.tables.versions
  }

  /** A version whose blob exists without a row can still be published exactly while some publisher
      has stored it and not committed, or has looked before it was there; otherwise it never will
      be. On the filesystem nobody looks, so only its creator can. */
  lemma OrphanIff(w: World, s: State, key: VersionKey)
    requires key in s.blobs && key !in s.tables.versions
    ensures CanPublish(w, s, key) <==> exists i :: Bearing(s, i, key)
    ensures w.backend.Filesystem? && Sound(w, s) ==>
              (CanPublish(w, s, key) <==> exists i :: Holder(s, i, key))
  {
    hide Sound, Steps, Next;
    forall i | w.backend.Filesystem? && Sound(w, s)
      ensures Bearing(s, i, key) <==> Holder(s, i, key)
    {
      if Looking(s, i, key) {
        LookerOnObjects(w, s, i, key);
      }
    }
    if i :| Bearing(s, i, key) {
      BearerPublishes(w, s, i, key);
    } else {
      forall steps | Steps(w, s, steps).Some?
        ensures key !in Steps(w, s, steps).value.tables.versions
      {
        OrphanStays(w, s, steps, key);
      }
    }
  }

  lemma LookerOnObjects(w: World, s: State, i: int, key: VersionKey)
    requires Sound(w, s) && Looking(s, i, key)
    ensures w.backend.ObjectStore? && w.semver(key.version)
  {
    KnownOk(w, s, i);
  }

  lemma BearerPublishes(w: World, s: State, i: int, key: VersionKey)
    requires Bearing(s, i, key) && key !in s.tables.versions
    ensures CanPublish(w, s, key)
  {
    hide Next, CanPublish;
    if Holder(s, i, key) {
      HolderPublishes(w, s, i, key);
    } else {
      PutHolds(w, s, i, key);
      HolderPublishes(w, Next(w, s, PutObject(i, true, true)).value, i, key);
      CanPublishLater(w, s, PutObject(i, true, true), key);
    }
  }

  lemma PutHolds(w: World, s: State, i: int, key: VersionKey)
    requires Looking(s, i, key)
    ensures var t := Next(w, s, PutObject(i, true, true));
            t.Some? && Holder(t.value, i, key) && t.value.tables == s.tables
  {
  }

  lemma CanPublishLater(w: World, s: State, step: Step, key: VersionKey)
    requires Next(w, s, step).Some? && CanPublish(w, Next(w, s, step).value, key)
    ensures CanPublish(w, s, key)
  {
    hide Next;
    var steps :| Steps(w, Next(w, s, step).value, steps).Some?
              && key in Steps(w, Next(w, s, step).value, steps).value.tables.versions;
    assert ([step] + steps)[1..] == steps;
    assert Steps(w, s, [step] + steps) == Steps(w, Next(w, s, step).value, steps);
  }

  lemma HolderPublishes(w: World, s: State, i: int, key: VersionKey)
    requires Holder(s, i, key) && key !in s.tables.versions
    ensures CanPublish(w, s, key)
  {
    var t := Next(w, s, Commit(i, 0, true)).value;
    assert key in t.tables.versions;
    assert Steps(w, t, []) == Some(t);
    CanPublishLater(w, s, Commit(i, 0, true), key);
  }

  /** Once a version's blob exists, a publisher that has neither looked for it nor stored it never
      gets further: it can no longer win. */
  ghost predicate Outrun(s: State, i: int, key: VersionKey) {
    !Bearing(s, i, key) && (i in s.publishers && s.publishers[i].input.key == key ==> !Won(s.publishers[i]))
  }

  lemma OutrunStep(w: World, s: State, step: Step, i: int, key: VersionKey)
    requires Next(w, s, step).Some? && key in s.blobs && Outrun(s, i, key)
    ensures Outrun(Next(w, s, step).value, i, key)
  {
    hide Next;
    var t := Next(w, s, step).value;
    if Bearing(t, i, key) {
      BearingOrigin(w, s, step, i, key);
    }
    if i in t.publishers && t.publishers[i].input.key == key && Won(t.publishers[i]) {
      WinOrigin(w, s, step, i);
    }
  }

  lemma {:induction false} CreatorAloneCanWin(w: World, s: State, steps: seq<Step>, i: int, key: VersionKey)
    requires Steps(w, s, steps).Some? && key in s.blobs && Outrun(s, i, key)
    ensures Outrun(Steps(w, s, steps).value, i, key)
    decreases |steps|
  {
    hide Next, Outrun;
    if steps != [] {
      OutrunStep(w, s, steps[0], i, key);
      BlobStays(w, s, steps[0], key);
      CreatorAloneCanWin(w, Next(w, s, steps[0]).value, steps[1..], i, key);
    }
  }

  // ---------------------------------------------------------------- stopping, and fixing dates

  /** A publisher may stop wherever it is, leaving the stores as they are. */
  lemma MayStop(w: World, s: State, id: int)
    requires id in s.publishers && !s.publishers[id].phase.Finished?
    ensures Next(w, s, Stop(id)) ==
            Some(s.(publishers := s.publishers[id := Publisher(s.publishers[id].input, Finished(Stopped))]))
  {
  }

  /** A date may be fixed to any that is not in the future, and then it is that version's date, in
      whole seconds, and nothing else has changed. */
  lemma FixesDate(w: World, s: State, key: VersionKey, at: int, now: int)
    ensures var t := Next(w, s, FixDate(key, at, now));
            && (t.Some? <==> at <= now)
            && (t.Some? ==>
                  && t.value.blobs == s.blobs && t.value.publishers == s.publishers && t.value.downloads == s.downloads
                  && t.value.tables.plugins == s.tables.plugins && t.value.tables.keywords == s.tables.keywords
                  && t.value.tables.versions ==
                     if key !in s.tables.versions then s.tables.versions
                     else s.tables.versions[key := s.tables.versions[key].(publishedAt := at / 1_000_000_000)])
  {
  }

  // ---------------------------------------------------------------- rows and their blobs

  lemma RowBacked(w: World, s: State, key: VersionKey)
    requires Sound(w, s) && key in s.tables.versions
    ensures key in s.blobs && w.semver(key.version)
  {
    hide Replay;
    assert Backed(s, key);
    VersionKnownIff(s.ops, key);
    var i :| 0 <= i < |s.ops| && Uploads(s.ops[i], key);
    assert NamedProperly(w, s.ops[i]);
  }
}
