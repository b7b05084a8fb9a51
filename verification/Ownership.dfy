/** Who can make a version appear: only a publisher whose account owns the scope, with a bundle
    that carries the name and version it is published under. */
module Ownership {
  import opened Wrappers
  import opened Metadata
  import opened Publishing
  import opened PublishSafety

  ghost predicate Authorised(w: World, input: Input) {
    && input.requestor == input.key.plugin.scope
    && input.bundleName == input.key.plugin.name
    && input.bundleVersion == input.key.version
    && w.semver(input.key.version)
  }

  /** The first check let the publisher through. A publisher that ended with its version published,
      or already there, was let through too. */
  ghost predicate LetThrough(phase: Phase) {
    if phase.Finished? then phase.result.Published? || phase.result.AlreadyExists? else !phase.Arrived?
  }

  ghost predicate PastCommit(phase: Phase) {
    phase.Committed? || phase.Finished?
  }

  /** Publisher `i` is where the row of `key` comes from. */
  ghost predicate Uploaded(w: World, s: State, i: int, key: VersionKey)
    requires key in s.tables.versions
  {
    && i in s.publishers
    && var p := s.publishers[i];
       && p.input.key == key && Authorised(w, p.input) && PastCommit(p.phase)
       && s.tables.versions[key].checksum == w.hash(p.input.tarball)
       && s.tables.versions[key].manifest == p.input.manifest
  }

  ghost predicate FromOwner(w: World, s: State, key: VersionKey) {
    key in s.tables.versions ==> exists i :: Uploaded(w, s, i, key)
  }

  ghost predicate Vetted(w: World, p: Publisher) {
    LetThrough(p.phase) ==> Authorised(w, p.input)
  }

  ghost predicate Owned(w: World, s: State) {
    && (forall i :: i in s.publishers ==> Vetted(w, s.publishers[i]))
    && (forall key :: FromOwner(w, s, key))
  }

  /** No step changes what a publisher brought, or lets one into the middle of a publish but the
      first check, and that only an authorised one whose date, if it gives one, is not later than the
      clock of the check. */
  lemma LetThroughOrigin(w: World, s: State, step: Step, i: int)
    requires Next(w, s, step).Some? && i in Next(w, s, step).value.publishers
    requires LetThrough(Next(w, s, step).value.publishers[i].phase)
    ensures i in s.publishers && s.publishers[i].input == Next(w, s, step).value.publishers[i].input
    ensures LetThrough(s.publishers[i].phase) || Passes(w, step, i, s.publishers[i].input)
  {
    hide Next, LetThrough, Authorised;
    if OfPublisher(step) && step.id == i {
      Moves(w, s, step);
      if step.Check? {
        CheckPasses(w, s, i, step.now, step.up);
      } else {
        MoveLets(w, s, step);
      }
    } else if step.Arrive? && step.id == i {
      JustArrived(w, s, step);
      ArrivedIsOut();
    } else {
      OthersStay(w, s, step, i);
    }
  }

  /** The step is a first check of publisher `i`, and one that its upload passes. */
  ghost predicate Passes(w: World, step: Step, i: int, input: Input) {
    && step.Check? && step.id == i && Authorised(w, input)
    && (input.publishedAt.Some? ==> input.publishedAt.value <= step.now)
  }

  lemma ArrivedIsOut()
    ensures !LetThrough(Arrived)
  {
  }

  lemma VettedStays(w: World, s: State, step: Step, i: int)
    requires Next(w, s, step).Some? && i in Next(w, s, step).value.publishers
    requires i in s.publishers ==> Vetted(w, s.publishers[i])
    ensures Vetted(w, Next(w, s, step).value.publishers[i])
  {
    hide Next, LetThrough, Authorised;
    if LetThrough(Next(w, s, step).value.publishers[i].phase) {
      LetThroughOrigin(w, s, step, i);
    }
  }

  /** What the first check answers, in full. */
  lemma CheckAnswers(w: World, s: State, id: int, now: int, up: bool)
    requires Next(w, s, Check(id, now, up)).Some?
    ensures id in s.publishers && id in Next(w, s, Check(id, now, up)).value.publishers
    ensures var input := s.publishers[id].input; var t := Next(w, s, Check(id, now, up)).value;
            var right := Authorised(w, input) && (input.publishedAt.Some? ==> input.publishedAt.value <= now);
            && t.publishers[id].input == input && t.tables == s.tables && t.blobs == s.blobs
            && t.publishers[id].phase ==
               if input.requestor != input.key.plugin.scope then Finished(Forbidden)
               else if !right then Finished(InvalidInput)
               else if !up then Finished(StoreError)
               else if input.key in s.tables.versions then Finished(AlreadyExists)
               else Checked
  {
  }

  lemma Moves(w: World, s: State, step: Step)
    requires OfPublisher(step) && Next(w, s, step).Some?
    ensures Next(w, s, step) == NextPublisher(w, s, step) && step.id in s.publishers
    ensures step.Check? ==> Next(w, s, step).value == AfterCheck(w, s, step.id, step.now, step.up)
  {
    hide AfterCheck, AfterLink, AfterLook, AfterPut, AfterCommit, AfterReread;
  }

  lemma MoveLets(w: World, s: State, step: Step)
    requires OfPublisher(step) && !step.Check? && step.id in s.publishers && NextPublisher(w, s, step).Some?
    ensures step.id in NextPublisher(w, s, step).value.publishers
    ensures var p, q := s.publishers[step.id], NextPublisher(w, s, step).value.publishers[step.id];
            q.input == p.input && (LetThrough(q.phase) ==> LetThrough(p.phase))
  {
    hide Run;
  }

  lemma CheckPasses(w: World, s: State, id: int, now: int, up: bool)
    requires id in s.publishers && LetThrough(AfterCheck(w, s, id, now, up).publishers[id].phase)
    ensures AfterCheck(w, s, id, now, up).publishers[id].input == s.publishers[id].input
    ensures Passes(w, Check(id, now, up), id, s.publishers[id].input)
  {
  }

  lemma PublisherStays(w: World, s: State, step: Step, i: int)
    requires Next(w, s, step).Some? && i in s.publishers && PastCommit(s.publishers[i].phase)
    ensures var t := Next(w, s, step).value;
            i in t.publishers && t.publishers[i].input == s.publishers[i].input && PastCommit(t.publishers[i].phase)
  {
    hide Run, Apply, AfterCheck;
    if step.Check? && step.id in s.publishers {
      CheckShape(w, s, step.id, step.now, step.up);
    }
  }

  lemma CommitUploads(w: World, s: State, step: Step, key: VersionKey)
    requires Sound(w, s) && Owned(w, s) && Next(w, s, step).Some?
    requires step.Commit? && Holder(s, step.id, key)
    requires key !in s.tables.versions && key in Next(w, s, step).value.tables.versions
    ensures Uploaded(w, Next(w, s, step).value, step.id, key)
  {
    hide Sound, FromOwner, Authorised;
    KnownOk(w, s, step.id);
    assert Vetted(w, s.publishers[step.id]);
  }

  lemma StepOwned(w: World, s: State, step: Step)
    requires Sound(w, s) && Owned(w, s) && Next(w, s, step).Some?
    ensures Owned(w, Next(w, s, step).value)
  {
    hide Next, Sound, Vetted, Authorised, PastCommit, RowsKept;
    var t := Next(w, s, step).value;
    StepKeepsRows(w, s, step);
    forall i | i in t.publishers
      ensures Vetted(w, t.publishers[i])
    {
      VettedStays(w, s, step, i);
    }
    forall key
      ensures FromOwner(w, t, key)
    {
      if key in s.tables.versions {
        assert FromOwner(w, s, key);
        var i :| Uploaded(w, s, i, key);
        PublisherStays(w, s, step, i);
        KeptRow(s.tables, t.tables, key);
        assert Uploaded(w, t, i, key);
      } else if key in t.tables.versions {
        RowOrigin(w, s, step, key);
        CommitUploads(w, s, step, key);
      }
    }
  }

  lemma {:induction false} RunOwned(w: World, s: State, steps: seq<Step>)
    requires Sound(w, s) && Owned(w, s) && Steps(w, s, steps).Some?
    ensures Owned(w, Steps(w, s, steps).value)
    decreases |steps|
  {
    hide Sound, Owned, Next;
    if steps != [] {
      StepSound(w, s, steps[0]);
      StepOwned(w, s, steps[0]);
      RunOwned(w, Next(w, s, steps[0]).value, steps[1..]);
    }
  }

  /** In every run on either backend, every row comes from one of the publishers: the account
      that owns the scope, whose bundle carries the row's name and version, with the checksum of
      that publisher's upload and its manifest. */
  lemma OnlyOwnersPublish(w: World, steps: seq<Step>, key: VersionKey)
    requires Steps(w, INITIAL, steps).Some?
    ensures var s := Steps(w, INITIAL, steps).value;
            key in s.tables.versions ==> exists i :: Uploaded(w, s, i, key)
  {
    hide Sound, Uploaded, Steps;
    InitialSound(w);
    NobodyYet(w);
    RunOwned(w, INITIAL, steps);
    assert FromOwner(w, Steps(w, INITIAL, steps).value, key);
  }

  lemma NobodyYet(w: World)
    ensures Owned(w, INITIAL)
  {
  }

  // ---------------------------------------------------------------- dates

  /** One of the steps is a first check that publisher `i` passed with its upload. */
  ghost predicate CheckedInTime(w: World, steps: seq<Step>, i: int, input: Input) {
    exists k :: 0 <= k < |steps| && Passes(w, steps[k], i, input)
  }

  /** The row comes from a publisher that passed its first check with the date it gave. */
  ghost predicate DatedRow(w: World, done: seq<Step>, s: State, key: VersionKey) {
    key in s.tables.versions ==> exists i :: Uploaded(w, s, i, key) && CheckedInTime(w, done, i, s.publishers[i].input)
  }

  /** Whoever the first check let through passed it in time, and every row is from someone who did. */
  ghost predicate Dated(w: World, done: seq<Step>, s: State) {
    && (forall i :: i in s.publishers && LetThrough(s.publishers[i].phase) ==>
          CheckedInTime(w, done, i, s.publishers[i].input))
    && forall key :: DatedRow(w, done, s, key)
  }

  lemma CheckedGrows(w: World, done: seq<Step>, step: Step, i: int, input: Input)
    ensures CheckedInTime(w, done, i, input) || Passes(w, step, i, input) ==>
              CheckedInTime(w, done + [step], i, input)
  {
    hide Passes;
    var longer := done + [step];
    if CheckedInTime(w, done, i, input) {
      var k :| 0 <= k < |done| && Passes(w, done[k], i, input);
      assert Passes(w, longer[k], i, input);
    } else if Passes(w, step, i, input) {
      assert Passes(w, longer[|done|], i, input);
    }
  }

  lemma StepDated(w: World, done: seq<Step>, s: State, step: Step)
    requires Sound(w, s) && Owned(w, s) && Dated(w, done, s) && Next(w, s, step).Some?
    ensures Dated(w, done + [step], Next(w, s, step).value)
  {
    hide Next, Sound, Authorised, PastCommit, RowsKept, LetThrough, CheckedInTime, Owned, Passes, DatedRow;
    var t := Next(w, s, step).value;
    forall i | i in t.publishers && LetThrough(t.publishers[i].phase)
      ensures CheckedInTime(w, done + [step], i, t.publishers[i].input)
    {
      LetThroughOrigin(w, s, step, i);
      CheckedGrows(w, done, step, i, t.publishers[i].input);
    }
    forall key
      ensures DatedRow(w, done + [step], t, key)
    {
      RowDated(w, done, s, step, key);
    }
  }

  lemma RowDated(w: World, done: seq<Step>, s: State, step: Step, key: VersionKey)
    requires Sound(w, s) && Owned(w, s) && Dated(w, done, s) && Next(w, s, step).Some?
    ensures DatedRow(w, done + [step], Next(w, s, step).value, key)
  {
    hide Next, Sound, Authorised, PastCommit, RowsKept, CheckedInTime, Owned, Passes;
    var t := Next(w, s, step).value;
    if key in s.tables.versions {
      assert DatedRow(w, done, s, key);
      var i :| Uploaded(w, s, i, key) && CheckedInTime(w, done, i, s.publishers[i].input);
      StepKeepsRows(w, s, step);
      PublisherStays(w, s, step, i);
      KeptRow(s.tables, t.tables, key);
      CheckedGrows(w, done, step, i, s.publishers[i].input);
      assert Uploaded(w, t, i, key);
    } else if key in t.tables.versions {
      RowOrigin(w, s, step, key);
      CommitUploads(w, s, step, key);
      Moved(w, s, step);
      HolderIsThrough(s, step.id, key);
      CheckedGrows(w, done, step, step.id, s.publishers[step.id].input);
    }
  }

  lemma HolderIsThrough(s: State, i: int, key: VersionKey)
    requires Holder(s, i, key)
    ensures i in s.publishers && LetThrough(s.publishers[i].phase)
  {
  }

  lemma {:induction false} RunDated(w: World, done: seq<Step>, s: State, steps: seq<Step>)
    requires Sound(w, s) && Owned(w, s) && Dated(w, done, s) && Steps(w, s, steps).Some?
    ensures Dated(w, done + steps, Steps(w, s, steps).value)
    decreases |steps|
  {
    hide Sound, Owned, Next, Dated;
    if steps == [] {
      assert done + steps == done;
    } else {
      StepSound(w, s, steps[0]);
      StepOwned(w, s, steps[0]);
      StepDated(w, done, s, steps[0]);
      RunDated(w, done + [steps[0]], Next(w, s, steps[0]).value, steps[1..]);
      assert done + steps == done + [steps[0]] + steps[1..];
    }
  }

  /** In every run nobody gets past the first check with a date later than the clock of that check,
      and every row comes from a publisher that passed it with the date it gave. */
  lemma NoFutureDates(w: World, steps: seq<Step>)
    requires Steps(w, INITIAL, steps).Some?
    ensures var s := Steps(w, INITIAL, steps).value;
            && (forall i :: i in s.publishers && LetThrough(s.publishers[i].phase) ==>
                  CheckedInTime(w, steps, i, s.publishers[i].input))
            && (forall key :: DatedRow(w, steps, s, key))
  {
    hide Sound, DatedRow, Steps, CheckedInTime, LetThrough, Owned;
    InitialSound(w);
    NobodyYet(w);
    NothingDated(w);
    RunDated(w, [], INITIAL, steps);
    assert [] + steps == steps;
  }

  lemma NothingDated(w: World)
    ensures Dated(w, [], INITIAL)
  {
  }
}
