/** The object store's look-then-put leaves a gap. Exactly when it does harm, version by version and
    in every state a run can reach, whatever overlapped before: while nobody else enters the gap,
    and whoever comes. */
module ObjectStoreRace {
  import opened Wrappers
  import Runs
  import opened Metadata
  import opened Publishing
  import opened PublishSafety

  // ---------------------------------------------------------------- inside the gap

  ghost predicate SameHash(w: World, s: State, i: int, j: int)
    requires i in s.publishers && j in s.publishers
  {
    w.hash(s.publishers[i].input.tarball) == w.hash(s.publishers[j].input.tarball)
  }

  ghost predicate MatchesBlob(w: World, s: State, i: int, key: VersionKey)
    requires i in s.publishers
  {
    key in s.blobs ==> w.hash(s.blobs[key]) == w.hash(s.publishers[i].input.tarball)
  }

  ghost predicate BearingAlike(w: World, s: State, key: VersionKey) {
    forall i, j :: Bearing(s, i, key) && Bearing(s, j, key) ==> SameHash(w, s, i, j)
  }

  ghost predicate HoldersMatch(w: World, s: State, key: VersionKey) {
    forall i :: Holder(s, i, key) ==> MatchesBlob(w, s, i, key)
  }

  ghost predicate LookersMatch(w: World, s: State, key: VersionKey) {
    forall i :: Looking(s, i, key) ==> MatchesBlob(w, s, i, key)
  }

  /** Once there is a row, row and object agree and whoever may still put agrees with them. Before,
      whoever may still put or commit agrees with the others, and who holds the object with it. */
  ghost predicate Calm(w: World, s: State, key: VersionKey) {
    if key in s.tables.versions then Intact(w, s, key) && LookersMatch(w, s, key)
    else BearingAlike(w, s, key) && HoldersMatch(w, s, key)
  }

  ghost predicate OneHash(w: World) {
    forall x, y :: w.hash(x) == w.hash(y)
  }

  lemma CalmIntact(w: World, s: State, key: VersionKey)
    requires Calm(w, s, key)
    ensures Intact(w, s, key)
  {
  }

  /** The publishers that have looked for `key` and not put yet bring uploads that hash alike. */
  ghost predicate Alike(w: World, s: State, key: VersionKey) {
    forall i, j :: Looking(s, i, key) && Looking(s, j, key) ==> SameHash(w, s, i, j)
  }

  /** Where nothing overlapped before, that is all it takes. */
  lemma CalmIsAlike(w: World, s: State, key: VersionKey)
    requires Exact(w, s)
    ensures Calm(w, s, key) <==> Alike(w, s, key)
  {
    hide Sound, Won;
    forall i | i in s.publishers
      ensures PublisherExact(s, s.publishers[i])
    {
    }
    forall i, j | Bearing(s, i, key) && Bearing(s, j, key)
      ensures i == j || (Looking(s, i, key) && Looking(s, j, key))
    {
      assert i != j ==> !BothStored(s, i, j);
    }
    assert Intact(w, s, key);
  }

  // ---------------------------------------------------------------- one store of one publisher

  /** The calls of one store, as far as it gets: stage the upload, look, put. */
  function StoreCalls(s: State, id: int, key: VersionKey, staged: bool, reachable: bool, arrives: bool,
                      acknowledged: bool): seq<Step>
  {
    [Stage(id, staged)] +
    (if !staged then []
     else [Look(id, reachable)] +
          (if !reachable || key in s.blobs then [] else [PutObject(id, arrives, acknowledged)]))
  }

  /** Made one after the other they end as the object store answers: it cannot tell, or the object is
      there already, or it was stored; and an object that arrived is there, acknowledged or not. */
  lemma StoreAnswers(w: World, s: State, id: int, staged: bool, reachable: bool, arrives: bool, acknowledged: bool)
    returns (t: State)
    requires w.backend.ObjectStore? && id in s.publishers && s.publishers[id].phase.Checked?
    ensures var input := s.publishers[id].input;
            var looked := staged && reachable;
            && Runs.Leads(By(w), s, StoreCalls(s, id, input.key, staged, reachable, arrives, acknowledged), t)
            && t.publishers == s.publishers[id := Publisher(input,
                 if looked && input.key in s.blobs then Finished(NotStored(true))
                 else if looked && arrives && acknowledged then Stored(w.hash(input.tarball))
                 else Finished(NotStored(false)))]
            && t.blobs == (if looked && input.key !in s.blobs && arrives then s.blobs[input.key := input.tarball]
                           else s.blobs)
            && t.tables == s.tables
  {
    var input := s.publishers[id].input;
    var s1 := Next(w, s, Stage(id, staged)).value;
    Runs.OneStep(By(w), s, Stage(id, staged), s1);
    if !staged {
      t := s1;
      assert [Stage(id, staged)] + [] == [Stage(id, staged)];
    } else {
      var s2 := Next(w, s1, Look(id, reachable)).value;
      Runs.OneStep(By(w), s1, Look(id, reachable), s2);
      if !reachable || input.key in s.blobs {
        t := s2;
        assert [Look(id, reachable)] + [] == [Look(id, reachable)];
        Runs.Chain(By(w), s, [Stage(id, staged)], s1, [Look(id, reachable)], t);
      } else {
        t := Next(w, s2, PutObject(id, arrives, acknowledged)).value;
        Runs.OneStep(By(w), s2, PutObject(id, arrives, acknowledged), t);
        Runs.Chain(By(w), s1, [Look(id, reachable)], s2, [PutObject(id, arrives, acknowledged)], t);
        var rest := [Look(id, reachable)] + [PutObject(id, arrives, acknowledged)];
        Runs.Chain(By(w), s, [Stage(id, staged)], s1, rest, t);
      }
    }
  }

  // ---------------------------------------------------------------- what one step does

  lemma BlobOrigin(w: World, s: State, step: Step, key: VersionKey)
    requires w.backend.ObjectStore? && Next(w, s, step).Some? && key in Next(w, s, step).value.blobs
    ensures var t := Next(w, s, step).value;
            || (key in s.blobs && t.blobs[key] == s.blobs[key])
            || (step.PutObject? && Looking(s, step.id, key) && t.blobs[key] == s.publishers[step.id].input.tarball)
  {
    hide Run, Apply, Verdict;
  }

  lemma CommitSum(w: World, s: State, step: Step, key: VersionKey)
    requires Sound(w, s) && Next(w, s, step).Some? && step.Commit? && Holder(s, step.id, key)
    requires key !in s.tables.versions && key in Next(w, s, step).value.tables.versions
    ensures var t := Next(w, s, step).value;
            t.tables.versions[key].checksum == w.hash(s.publishers[step.id].input.tarball) && t.blobs == s.blobs
  {
    hide Sound;
    KnownOk(w, s, step.id);
  }

  /** Calm stays under every step but a look that finds nothing, and under that too when all
      uploads hash alike. */
  lemma StepCalm(w: World, s: State, step: Step, key: VersionKey)
    requires w.backend.ObjectStore? && Sound(w, s) && Calm(w, s, key) && Next(w, s, step).Some?
    requires LooksFor(s, step, key) ==> key in s.blobs || OneHash(w)
    ensures Calm(w, Next(w, s, step).value, key)
  {
    hide Next, Sound, Calm, OneHash;
    if key in s.tables.versions {
      RowCalm(w, s, step, key);
    } else if key in Next(w, s, step).value.tables.versions {
      CommitCalm(w, s, step, key);
    } else {
      RowlessCalm(w, s, step, key);
    }
  }

  lemma RowCalm(w: World, s: State, step: Step, key: VersionKey)
    requires w.backend.ObjectStore? && Sound(w, s) && Calm(w, s, key) && Next(w, s, step).Some?
    requires key in s.tables.versions
    ensures Calm(w, Next(w, s, step).value, key)
  {
    hide Next, Sound, LooksFor;
    var t := Next(w, s, step).value;
    RowBacked(w, s, key);
    BlobStays(w, s, step, key);
    BlobOrigin(w, s, step, key);
    StepKeepsRows(w, s, step);
    KeptRow(s.tables, t.tables, key);
    forall i | Looking(t, i, key)
      ensures MatchesBlob(w, t, i, key)
    {
      LookerOrigin(w, s, step, i, key);
    }
  }

  lemma LookerOrigin(w: World, s: State, step: Step, i: int, key: VersionKey)
    requires w.backend.ObjectStore? && Next(w, s, step).Some? && Looking(Next(w, s, step).value, i, key)
    ensures i in s.publishers && s.publishers[i].input == Next(w, s, step).value.publishers[i].input
    ensures Looking(s, i, key) || (key !in s.blobs && LooksFor(s, step, key))
  {
    hide Next;
    if OfPublisher(step) && step.id == i {
      Moved(w, s, step);
    } else if step.Arrive? && step.id == i {
      JustArrived(w, s, step);
    } else {
      OthersStay(w, s, step, i);
    }
  }

  lemma CommitCalm(w: World, s: State, step: Step, key: VersionKey)
    requires w.backend.ObjectStore? && Sound(w, s) && Calm(w, s, key) && Next(w, s, step).Some?
    requires key !in s.tables.versions && key in Next(w, s, step).value.tables.versions
    ensures Calm(w, Next(w, s, step).value, key)
  {
    hide Next, Sound;
    var t := Next(w, s, step).value;
    RowOrigin(w, s, step, key);
    HolderBears(s, step.id, key);
    CommitSum(w, s, step, key);
    StoredObject(w, s, step.id, key);
    forall i | Looking(t, i, key)
      ensures MatchesBlob(w, t, i, key)
    {
      LookerOrigin(w, s, step, i, key);
      assert Bearing(s, i, key) && SameHash(w, s, step.id, i);
    }
  }

  lemma StoredObject(w: World, s: State, i: int, key: VersionKey)
    requires Sound(w, s) && Holder(s, i, key)
    ensures key in s.blobs
  {
    KnownOk(w, s, i);
  }

  lemma RowlessCalm(w: World, s: State, step: Step, key: VersionKey)
    requires w.backend.ObjectStore? && Sound(w, s) && Calm(w, s, key) && Next(w, s, step).Some?
    requires LooksFor(s, step, key) ==> key in s.blobs || OneHash(w)
    requires key !in s.tables.versions && key !in Next(w, s, step).value.tables.versions
    ensures Calm(w, Next(w, s, step).value, key)
  {
    hide Next, Sound, LooksFor, MatchesBlob;
    var t := Next(w, s, step).value;
    forall i, j | Bearing(t, i, key) && Bearing(t, j, key)
      ensures SameHash(w, t, i, j)
    {
      BearingOrigin(w, s, step, i, key);
      BearingOrigin(w, s, step, j, key);
    }
    forall i | Holder(t, i, key)
      ensures MatchesBlob(w, t, i, key)
    {
      StillMatches(w, s, step, i, key);
    }
  }

  lemma StillMatches(w: World, s: State, step: Step, i: int, key: VersionKey)
    requires w.backend.ObjectStore? && BearingAlike(w, s, key) && HoldersMatch(w, s, key) && Next(w, s, step).Some?
    requires LooksFor(s, step, key) ==> key in s.blobs || OneHash(w)
    requires Holder(Next(w, s, step).value, i, key)
    ensures MatchesBlob(w, Next(w, s, step).value, i, key)
  {
    hide Next, LooksFor;
    var t := Next(w, s, step).value;
    if key in t.blobs {
      BlobOrigin(w, s, step, key);
      HolderOrigin(w, s, step, i, key);
      assert step.PutObject? && Looking(s, step.id, key) ==> SameHash(w, s, step.id, i);
    }
  }

  /** A publisher comes to hold an object by its own put. */
  lemma HolderOrigin(w: World, s: State, step: Step, i: int, key: VersionKey)
    requires w.backend.ObjectStore? && Next(w, s, step).Some? && Holder(Next(w, s, step).value, i, key)
    ensures i in s.publishers && s.publishers[i].input == Next(w, s, step).value.publishers[i].input
    ensures Holder(s, i, key) || (Looking(s, i, key) && step == PutObject(i, true, true))
    ensures step == PutObject(i, true, true) && Looking(s, i, key) ==>
              Next(w, s, step).value.blobs == s.blobs[key := s.publishers[i].input.tarball]
  {
    hide Next;
    if OfPublisher(step) && step.id == i {
      OwnStore(w, s, step);
    } else if step.Arrive? && step.id == i {
      JustArrived(w, s, step);
    } else {
      OthersStay(w, s, step, i);
    }
  }

  lemma OwnStore(w: World, s: State, step: Step)
    requires w.backend.ObjectStore? && OfPublisher(step) && Next(w, s, step).Some?
    requires step.id in Next(w, s, step).value.publishers && Next(w, s, step).value.publishers[step.id].phase.Stored?
    ensures step.id in s.publishers && s.publishers[step.id].phase.Looked? && step == PutObject(step.id, true, true)
    ensures var p := s.publishers[step.id];
            && p.input == Next(w, s, step).value.publishers[step.id].input
            && Next(w, s, step).value.blobs == s.blobs[p.input.key := p.input.tarball]
  {
    hide Verdict, Run, Apply;
    if step.Check? {
      CheckShape(w, s, step.id, step.now, step.up);
    }
  }

  // ---------------------------------------------------------------- nobody enters the gap

  /** No publisher of `key` looks along the way. */
  ghost predicate Closed(w: World, s: State, steps: seq<Step>, key: VersionKey)
    decreases |steps|
  {
    steps != [] ==>
      && !LooksFor(s, steps[0], key)
      && (Next(w, s, steps[0]).Some? ==> Closed(w, Next(w, s, steps[0]).value, steps[1..], key))
  }

  lemma {:induction false} ClosedCalm(w: World, s: State, steps: seq<Step>, key: VersionKey)
    requires w.backend.ObjectStore? && Sound(w, s) && Calm(w, s, key)
    requires Steps(w, s, steps).Some? && Closed(w, s, steps, key)
    ensures Calm(w, Steps(w, s, steps).value, key)
    decreases |steps|
  {
    hide Calm, Sound, Next, LooksFor;
    if steps != [] {
      StepCalm(w, s, steps[0], key);
      StepSound(w, s, steps[0]);
      ClosedCalm(w, Next(w, s, steps[0]).value, steps[1..], key);
    }
  }

  lemma {:induction false} NoLookClosed(w: World, s: State, steps: seq<Step>, key: VersionKey)
    requires forall k :: 0 <= k < |steps| ==> !steps[k].Look?
    ensures Closed(w, s, steps, key)
    decreases |steps|
  {
    hide Next;
    if steps != [] && Next(w, s, steps[0]).Some? {
      NoLookClosed(w, Next(w, s, steps[0]).value, steps[1..], key);
    }
  }

  /** With no further look, some continuation parts checksum and object. */
  ghost predicate Breaks(w: World, s: State, key: VersionKey) {
    exists steps :: Steps(w, s, steps).Some? && Closed(w, s, steps, key) && !Intact(w, Steps(w, s, steps).value, key)
  }

  lemma BreaksNow(w: World, s: State, key: VersionKey)
    requires !Intact(w, s, key)
    ensures Breaks(w, s, key)
  {
    assert Steps(w, s, []) == Some(s) && Closed(w, s, [], key);
  }

  lemma BreaksOpen(w: World, s: State, key: VersionKey)
    requires Breaks(w, s, key)
    ensures !forall steps :: Steps(w, s, steps).Some? && Closed(w, s, steps, key) ==>
                               Intact(w, Steps(w, s, steps).value, key)
    ensures !forall steps :: Steps(w, s, steps).Some? ==> Intact(w, Steps(w, s, steps).value, key)
  {
    var steps :| Steps(w, s, steps).Some? && Closed(w, s, steps, key) && !Intact(w, Steps(w, s, steps).value, key);
    assert !(Steps(w, s, steps).Some? ==> Intact(w, Steps(w, s, steps).value, key));
  }

  lemma BreaksLater(w: World, s: State, step: Step, key: VersionKey)
    requires Next(w, s, step).Some? && !step.Look? && Breaks(w, Next(w, s, step).value, key)
    ensures Breaks(w, s, key)
  {
    hide Next, Intact;
    var t := Next(w, s, step).value;
    var steps :| Steps(w, t, steps).Some? && Closed(w, t, steps, key) && !Intact(w, Steps(w, t, steps).value, key);
    assert ([step] + steps)[1..] == steps;
    assert Steps(w, s, [step] + steps) == Steps(w, t, steps);
    assert Closed(w, s, [step] + steps, key);
  }

  lemma PutMoves(w: World, s: State, i: int, key: VersionKey)
    requires Looking(s, i, key)
    ensures var p := s.publishers[i];
            Next(w, s, PutObject(i, true, true)) ==
            Some(At(s, i, Stored(p.phase.sum)).(blobs := s.blobs[key := p.input.tarball]))
  {
  }

  lemma CommitMoves(w: World, s: State, i: int, key: VersionKey)
    requires Holder(s, i, key) && key !in s.tables.versions
    ensures var p := s.publishers[i]; var t := Next(w, s, Commit(i, 0, true));
            && t.Some? && t.value.blobs == s.blobs
            && t.value.publishers == s.publishers[i := p.(phase := Committed)]
            && key in t.value.tables.versions && t.value.tables.versions[key].checksum == p.phase.sum
  {
  }

  /** Row and object disagree with a publisher about to put. */
  lemma LookerBreaks(w: World, s: State, i: int, key: VersionKey)
    requires Looking(s, i, key) && key in s.tables.versions
    requires s.tables.versions[key].checksum != w.hash(s.publishers[i].input.tarball)
    ensures Breaks(w, s, key)
  {
    hide Next, Steps, Breaks;
    PutMoves(w, s, i, key);
    BreaksNow(w, Next(w, s, PutObject(i, true, true)).value, key);
    BreaksLater(w, s, PutObject(i, true, true), key);
  }

  /** A holder commits over an object that is not its own. */
  lemma HolderBreaks(w: World, s: State, i: int, key: VersionKey)
    requires Holder(s, i, key) && key !in s.tables.versions && !MatchesBlob(w, s, i, key)
    requires s.publishers[i].phase.sum == w.hash(s.publishers[i].input.tarball)
    ensures Breaks(w, s, key)
  {
    hide Next, Steps, Breaks;
    CommitMoves(w, s, i, key);
    BreaksNow(w, Next(w, s, Commit(i, 0, true)).value, key);
    BreaksLater(w, s, Commit(i, 0, true), key);
  }

  /** A holder commits and someone who looked before puts over its object. */
  lemma HolderLookerBreaks(w: World, s: State, i: int, j: int, key: VersionKey)
    requires Holder(s, i, key) && Looking(s, j, key) && !SameHash(w, s, i, j) && key !in s.tables.versions
    requires s.publishers[i].phase.sum == w.hash(s.publishers[i].input.tarball)
    ensures Breaks(w, s, key)
  {
    hide Next, Steps, Breaks;
    CommitMoves(w, s, i, key);
    LookerBreaks(w, Next(w, s, Commit(i, 0, true)).value, j, key);
    BreaksLater(w, s, Commit(i, 0, true), key);
  }

  lemma LookersBreak(w: World, s: State, i: int, j: int, key: VersionKey)
    requires Looking(s, i, key) && Looking(s, j, key) && !SameHash(w, s, i, j) && key !in s.tables.versions
    requires s.publishers[i].phase.sum == w.hash(s.publishers[i].input.tarball)
    ensures Breaks(w, s, key)
  {
    hide Next, Steps, Breaks;
    PutMoves(w, s, i, key);
    HolderLookerBreaks(w, Next(w, s, PutObject(i, true, true)).value, i, j, key);
    BreaksLater(w, s, PutObject(i, true, true), key);
  }

  lemma SumKnown(w: World, s: State, i: int, key: VersionKey)
    requires Sound(w, s) && Bearing(s, i, key)
    ensures s.publishers[i].phase.sum == w.hash(s.publishers[i].input.tarball)
  {
    KnownOk(w, s, i);
  }

  lemma TwoBreak(w: World, s: State, i: int, j: int, key: VersionKey)
    requires Sound(w, s) && Bearing(s, i, key) && Bearing(s, j, key) && !SameHash(w, s, i, j)
    requires key !in s.tables.versions
    ensures Breaks(w, s, key)
  {
    hide Sound, Breaks;
    SumKnown(w, s, i, key);
    SumKnown(w, s, j, key);
    if Looking(s, i, key) && Looking(s, j, key) {
      LookersBreak(w, s, i, j, key);
    } else if Holder(s, i, key) && Looking(s, j, key) {
      HolderLookerBreaks(w, s, i, j, key);
    } else if Looking(s, i, key) {
      HolderLookerBreaks(w, s, j, i, key);
    } else {
      StoredObject(w, s, i, key);
      HolderBreaks(w, s, if MatchesBlob(w, s, i, key) then j else i, key);
    }
  }

  lemma UncalmBreaks(w: World, s: State, key: VersionKey)
    requires Sound(w, s) && !Calm(w, s, key)
    ensures Breaks(w, s, key)
  {
    hide Sound, Breaks, SameHash;
    if !Intact(w, s, key) {
      BreaksNow(w, s, key);
    } else if key in s.tables.versions {
      var i :| Looking(s, i, key) && !MatchesBlob(w, s, i, key);
      LookerBreaks(w, s, i, key);
    } else if !BearingAlike(w, s, key) {
      var i, j :| Bearing(s, i, key) && Bearing(s, j, key) && !SameHash(w, s, i, j);
      TwoBreak(w, s, i, j, key);
    } else {
      var i :| Holder(s, i, key) && !MatchesBlob(w, s, i, key);
      HolderBears(s, i, key);
      SumKnown(w, s, i, key);
      HolderBreaks(w, s, i, key);
    }
  }

  /** While nobody else looks, checksum and object stay together on every continuation exactly when
      the version is calm. */
  lemma OverlapHarmlessIff(w: World, s: State, key: VersionKey)
    requires w.backend.ObjectStore? && Sound(w, s)
    ensures (forall steps :: Steps(w, s, steps).Some? && Closed(w, s, steps, key) ==>
               Intact(w, Steps(w, s, steps).value, key))
       <==> Calm(w, s, key)
  {
    hide Sound, Intact, Steps, Closed, Next, Calm, Breaks;
    if Calm(w, s, key) {
      forall steps | Steps(w, s, steps).Some? && Closed(w, s, steps, key)
        ensures Intact(w, Steps(w, s, steps).value, key)
      {
        ClosedCalm(w, s, steps, key);
        CalmIntact(w, Steps(w, s, steps).value, key);
      }
    } else {
      UncalmBreaks(w, s, key);
      BreaksOpen(w, s, key);
    }
  }

  /** The first puts, commits and is told it published; then the second's put lands. */
  function PutOver(i: int, j: int): seq<Step> {
    [PutObject(i, true, true)] + ([Commit(i, 0, true)] + ([Reread(i, true)] + [PutObject(j, true, true)]))
  }

  lemma RereadMoves(w: World, s: State, i: int, key: VersionKey)
    requires i in s.publishers && s.publishers[i].input.key == key && s.publishers[i].phase.Committed?
    requires key in s.tables.versions
    ensures Next(w, s, Reread(i, true)) == Some(At(s, i, Finished(Published(s.tables.versions[key]))))
  {
  }

  /** From any state with two publishers in the gap whose uploads hash differently. */
  lemma PutOverBreaks(w: World, s: State, i: int, j: int, key: VersionKey) returns (t: State)
    requires Looking(s, i, key) && Looking(s, j, key) && !SameHash(w, s, i, j) && key !in s.tables.versions
    requires s.publishers[i].phase.sum == w.hash(s.publishers[i].input.tarball)
    ensures Steps(w, s, PutOver(i, j)) == Some(t) && Closed(w, s, PutOver(i, j), key)
    ensures !Intact(w, t, key) && key in t.tables.versions && key in t.blobs
    ensures i in t.publishers && t.publishers[i].phase.Finished? && t.publishers[i].phase.result.Published?
    ensures t.tables.versions[key].checksum == w.hash(s.publishers[i].input.tarball)
    ensures t.blobs[key] == s.publishers[j].input.tarball
  {
    hide Next, Steps, Runs.Leads;
    PutMoves(w, s, i, key);
    var s1 := Next(w, s, PutObject(i, true, true)).value;
    CommitMoves(w, s1, i, key);
    var s2 := Next(w, s1, Commit(i, 0, true)).value;
    RereadMoves(w, s2, i, key);
    var s3 := Next(w, s2, Reread(i, true)).value;
    PutMoves(w, s3, j, key);
    t := Next(w, s3, PutObject(j, true, true)).value;
    var last := [PutObject(j, true, true)];
    Runs.OneStep(By(w), s3, PutObject(j, true, true), t);
    Runs.StepThen(By(w), s2, Reread(i, true), s3, last, t);
    Runs.StepThen(By(w), s1, Commit(i, 0, true), s2, [Reread(i, true)] + last, t);
    Runs.StepThen(By(w), s, PutObject(i, true, true), s1, [Commit(i, 0, true)] + ([Reread(i, true)] + last), t);
    LeadsAre(w, s, PutOver(i, j), t);
    NoLookClosed(w, s, PutOver(i, j), key);
  }

  lemma LeadsAre(w: World, s: State, steps: seq<Step>, t: State)
    ensures Runs.Leads(By(w), s, steps, t) <==> Steps(w, s, steps) == Some(t)
  {
  }

  // ---------------------------------------------------------------- two newcomers

  ghost predicate Acceptable(w: World, input: Input) {
    && input.requestor == input.key.plugin.scope
    && input.bundleName == input.key.plugin.name
    && input.bundleVersion == input.key.version
    && w.semver(input.key.version)
    && input.publishedAt.None?
  }

  /** `s` with two more publishers. */
  ghost function Pair(s: State, i: int, a: Input, p: Phase, j: int, b: Input, q: Phase): State {
    s.(publishers := s.publishers[i := Publisher(a, p)][j := Publisher(b, q)])
  }

  lemma PairMoves(s: State, i: int, a: Input, p: Phase, j: int, b: Input, q: Phase, r: Phase)
    requires i != j
    ensures At(Pair(s, i, a, p, j, b, q), i, r) == Pair(s, i, a, r, j, b, q)
    ensures At(Pair(s, i, a, p, j, b, q), j, r) == Pair(s, i, a, p, j, b, r)
  {
    assert At(Pair(s, i, a, p, j, b, q), i, r).publishers == Pair(s, i, a, r, j, b, q).publishers;
    assert At(Pair(s, i, a, p, j, b, q), j, r).publishers == Pair(s, i, a, p, j, b, r).publishers;
  }

  /** Both arrive, check, stage and look, seeing nothing; then one puts over the other. */
  function Race(i: int, a: Input, j: int, b: Input): seq<Step> {
    [Arrive(i, a)] + ([Arrive(j, b)] + ([Check(i, 0, true)] + ([Check(j, 0, true)] +
    ([Stage(i, true)] + ([Stage(j, true)] + ([Look(i, true)] + ([Look(j, true)] + PutOver(i, j))))))))
  }

  lemma BothLook(w: World, s: State, i: int, a: Input, j: int, b: Input, rest: seq<Step>, u: State)
    requires w.backend.ObjectStore? && i != j && a.key == b.key && a.key !in s.blobs
    requires Runs.Leads(By(w), Pair(s, i, a, Looked(w.hash(a.tarball)), j, b, Looked(w.hash(b.tarball))), rest, u)
    ensures Runs.Leads(By(w), Pair(s, i, a, Checked, j, b, Checked),
                  [Stage(i, true)] + ([Stage(j, true)] + ([Look(i, true)] + ([Look(j, true)] + rest))), u)
  {
    hide Runs.Leads, AfterCheck, Apply, Pair;
    var x, y := w.hash(a.tarball), w.hash(b.tarball);
    var c, d, e, f := Pair(s, i, a, Checked, j, b, Checked), Pair(s, i, a, Staged(x), j, b, Checked),
                      Pair(s, i, a, Staged(x), j, b, Staged(y)), Pair(s, i, a, Looked(x), j, b, Staged(y));
    StageNext(w, s, i, a, j, b);
    LookNext(w, s, i, a, j, b);
    Runs.StepThen(By(w), f, Look(j, true), Pair(s, i, a, Looked(x), j, b, Looked(y)), rest, u);
    Runs.StepThen(By(w), e, Look(i, true), f, [Look(j, true)] + rest, u);
    Runs.StepThen(By(w), d, Stage(j, true), e, [Look(i, true)] + ([Look(j, true)] + rest), u);
    Runs.StepThen(By(w), c, Stage(i, true), d, [Stage(j, true)] + ([Look(i, true)] + ([Look(j, true)] + rest)), u);
  }

  lemma StageNext(w: World, s: State, i: int, a: Input, j: int, b: Input)
    requires i != j
    ensures var x, y := w.hash(a.tarball), w.hash(b.tarball);
            && Next(w, Pair(s, i, a, Checked, j, b, Checked), Stage(i, true)) ==
              Some(Pair(s, i, a, Staged(x), j, b, Checked))
            && Next(w, Pair(s, i, a, Staged(x), j, b, Checked), Stage(j, true)) ==
              Some(Pair(s, i, a, Staged(x), j, b, Staged(y)))
  {
    hide AfterCheck, Apply;
    var x, y := w.hash(a.tarball), w.hash(b.tarball);
    PairMoves(s, i, a, Checked, j, b, Checked, Staged(x));
    PairMoves(s, i, a, Staged(x), j, b, Checked, Staged(y));
  }

  lemma LookNext(w: World, s: State, i: int, a: Input, j: int, b: Input)
    requires w.backend.ObjectStore? && i != j && a.key == b.key && a.key !in s.blobs
    ensures var x, y := w.hash(a.tarball), w.hash(b.tarball);
            && Next(w, Pair(s, i, a, Staged(x), j, b, Staged(y)), Look(i, true)) ==
              Some(Pair(s, i, a, Looked(x), j, b, Staged(y)))
            && Next(w, Pair(s, i, a, Looked(x), j, b, Staged(y)), Look(j, true)) ==
              Some(Pair(s, i, a, Looked(x), j, b, Looked(y)))
  {
    hide AfterCheck, Apply;
    var x, y := w.hash(a.tarball), w.hash(b.tarball);
    PairMoves(s, i, a, Staged(x), j, b, Staged(y), Looked(x));
    PairMoves(s, i, a, Looked(x), j, b, Staged(y), Looked(y));
  }

  lemma BothCheck(w: World, s: State, i: int, a: Input, j: int, b: Input, rest: seq<Step>, u: State)
    requires i != j && i !in s.publishers && j !in s.publishers
    requires Acceptable(w, a) && Acceptable(w, b) && a.key == b.key && a.key !in s.tables.versions
    requires Runs.Leads(By(w), Pair(s, i, a, Checked, j, b, Checked), rest, u)
    ensures Runs.Leads(By(w), s, [Arrive(i, a)] + ([Arrive(j, b)] +
                                 ([Check(i, 0, true)] + ([Check(j, 0, true)] + rest))), u)
  {
    hide Runs.Leads, Apply;
    var one := s.(publishers := s.publishers[i := Publisher(a, Arrived)]);
    var c, d := Pair(s, i, a, Arrived, j, b, Arrived), Pair(s, i, a, Checked, j, b, Arrived);
    var e := Pair(s, i, a, Checked, j, b, Checked);
    PairMoves(s, i, a, Arrived, j, b, Arrived, Checked);
    PairMoves(s, i, a, Checked, j, b, Arrived, Checked);
    Runs.StepThen(By(w), d, Check(j, 0, true), e, rest, u);
    Runs.StepThen(By(w), c, Check(i, 0, true), d, [Check(j, 0, true)] + rest, u);
    Runs.StepThen(By(w), one, Arrive(j, b), c, [Check(i, 0, true)] + ([Check(j, 0, true)] + rest), u);
    Runs.StepThen(By(w), s, Arrive(i, a), one,
                  [Arrive(j, b)] + ([Check(i, 0, true)] + ([Check(j, 0, true)] + rest)), u);
  }

  /** The overlapping run, from any state in which the version has no row and no object and for
      any two publishers new to it: the first is told it published, yet the object is the
      second's, and when the uploads hash differently the row's checksum is not the object's. */
  lemma RaceBreaksChecksum(w: World, s: State, i: int, a: Input, j: int, b: Input) returns (t: State)
    requires w.backend.ObjectStore? && Acceptable(w, a) && Acceptable(w, b) && a.key == b.key
    requires i != j && i !in s.publishers && j !in s.publishers
    requires a.key !in s.blobs && a.key !in s.tables.versions
    requires w.hash(a.tarball) != w.hash(b.tarball)
    ensures Steps(w, s, Race(i, a, j, b)) == Some(t)
    ensures i in t.publishers && t.publishers[i].phase.Finished? && t.publishers[i].phase.result.Published?
    ensures a.key in t.tables.versions && a.key in t.blobs && !Intact(w, t, a.key)
    ensures t.tables.versions[a.key].checksum == w.hash(a.tarball) && t.blobs[a.key] == b.tarball
  {
    hide Steps, Acceptable, Runs.Leads, Closed, Next;
    var u := Pair(s, i, a, Looked(w.hash(a.tarball)), j, b, Looked(w.hash(b.tarball)));
    t := PutOverBreaks(w, u, i, j, a.key);
    LeadsAre(w, u, PutOver(i, j), t);
    BothLook(w, s, i, a, j, b, PutOver(i, j), t);
    BothCheck(w, s, i, a, j, b,
              [Stage(i, true)] + ([Stage(j, true)] + ([Look(i, true)] + ([Look(j, true)] + PutOver(i, j)))), t);
    LeadsAre(w, s, Race(i, a, j, b), t);
  }

  // ---------------------------------------------------------------- safe for ever

  lemma {:induction false} AboveAll(ids: set<int>) returns (n: int)
    ensures forall i :: i in ids ==> i < n
    decreases ids
  {
    if i :| i in ids {
      var m := AboveAll(ids - {i});
      n := if i < m then m else i + 1;
      forall k | k in ids
        ensures k < n
      {
        assert k == i || k in ids - {i};
      }
    } else {
      n := 0;
    }
  }

  lemma {:induction false} OpenCalm(w: World, s: State, steps: seq<Step>, key: VersionKey)
    requires w.backend.ObjectStore? && Sound(w, s) && Calm(w, s, key) && Steps(w, s, steps).Some?
    requires key in s.blobs || OneHash(w)
    ensures Calm(w, Steps(w, s, steps).value, key)
    decreases |steps|
  {
    hide Calm, Sound, Next, OneHash;
    if steps != [] {
      StepCalm(w, s, steps[0], key);
      StepSound(w, s, steps[0]);
      if key in s.blobs {
        BlobStays(w, s, steps[0], key);
      }
      OpenCalm(w, Next(w, s, steps[0]).value, steps[1..], key);
    }
  }

  /** Whoever comes, checksum and object stay together for ever exactly when the version is calm and
      has its object already, or can never be published, or all uploads hash alike. */
  lemma SafeForEverIff(w: World, s: State, key: VersionKey)
    requires w.backend.ObjectStore? && Sound(w, s)
    ensures (forall steps :: Steps(w, s, steps).Some? ==> Intact(w, Steps(w, s, steps).value, key))
       <==> Calm(w, s, key) && (key in s.blobs || !w.semver(key.version) || OneHash(w))
  {
    hide Sound, Intact, Steps, Next, OneHash, Calm, Breaks;
    if !Calm(w, s, key) {
      UncalmBreaks(w, s, key);
      BreaksOpen(w, s, key);
    } else if key in s.blobs || OneHash(w) {
      forall steps | Steps(w, s, steps).Some?
        ensures Intact(w, Steps(w, s, steps).value, key)
      {
        OpenCalm(w, s, steps, key);
        CalmIntact(w, Steps(w, s, steps).value, key);
      }
    } else if !w.semver(key.version) {
      forall steps | Steps(w, s, steps).Some?
        ensures Intact(w, Steps(w, s, steps).value, key)
      {
        StepsSound(w, s, steps);
        NeverPublished(w, Steps(w, s, steps).value, key);
      }
    } else {
      SomeoneBreaks(w, s, key);
    }
  }

  lemma NeverPublished(w: World, s: State, key: VersionKey)
    requires Sound(w, s) && !w.semver(key.version)
    ensures Intact(w, s, key)
  {
    hide Sound;
    if key in s.tables.versions {
      RowBacked(w, s, key);
    }
  }

  lemma SomeoneBreaks(w: World, s: State, key: VersionKey)
    requires w.backend.ObjectStore? && Sound(w, s)
    requires key !in s.blobs && w.semver(key.version) && !OneHash(w)
    ensures exists steps :: Steps(w, s, steps).Some? && !Intact(w, Steps(w, s, steps).value, key)
  {
    hide Sound, Intact, Steps, Next;
    var x, y :| w.hash(x) != w.hash(y);
    var n := AboveAll(s.publishers.Keys);
    var info := Info("", "", "", "");
    var a := Input(key, key.plugin.scope, key.plugin.name, key.version, info, [], "", None, x);
    var b := a.(tarball := y);
    if key in s.tables.versions {
      RowBacked(w, s, key);
    }
    var t := RaceBreaksChecksum(w, s, n, a, n + 1, b);
    assert Steps(w, s, Race(n, a, n + 1, b)).Some?;
  }

  /** Where nothing overlapped before, the second condition alone is enough. */
  lemma CalmIfExact(w: World, s: State, key: VersionKey)
    requires Exact(w, s) && (key in s.blobs || !w.semver(key.version) || OneHash(w))
    ensures Calm(w, s, key)
  {
    hide Sound;
    ExactIsSound(w, s);
    CalmIsAlike(w, s, key);
    forall i, j | Looking(s, i, key) && Looking(s, j, key)
      ensures SameHash(w, s, i, j)
    {
      LookerOnObjects(w, s, i, key);
      assert PublisherExact(s, s.publishers[i]);
    }
  }
}
