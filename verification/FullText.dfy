/** The full-text index kept beside the plugins table by triggers, and the one-off rebuild run
    when a database is opened. */
module FullText {
  import opened Wrappers
  import opened Metadata

  /** One occurrence of a token: in which column, at which place. */
  datatype Posting = Posting(column: nat, place: nat, token: string)

  /** How text is cut into tokens is left open. */
  type Tokenizer = string -> seq<string>

  function TextPostings(tok: Tokenizer, column: nat, text: string): multiset<Posting> {
    var tokens := tok(text);
    multiset(seq(|tokens|, i requires 0 <= i < |tokens| => Posting(column, i, tokens[i])))
  }

  /** What a row's three indexed columns contribute. */
  function RowPostings(tok: Tokenizer, id: PluginId, info: Info): multiset<Posting> {
    TextPostings(tok, 0, id.scope) + TextPostings(tok, 1, id.name) + TextPostings(tok, 2, info.description)
  }

  /** `p` is where a token of the text stands. */
  ghost predicate StandsIn(tok: Tokenizer, column: nat, text: string, p: Posting) {
    p.column == column && p.place < |tok(text)| && p.token == tok(text)[p.place]
  }

  lemma {:induction false} PlacedOnce(postings: seq<Posting>, p: Posting)
    requires forall i :: 0 <= i < |postings| ==> postings[i].place == i
    ensures multiset(postings)[p] == if p in postings then 1 else 0
    decreases |postings|
  {
    if postings != [] {
      var n := |postings| - 1;
      PlacedOnce(postings[..n], p);
      assert postings == postings[..n] + [postings[n]];
    }
  }

  lemma TextPostingsAre(tok: Tokenizer, column: nat, text: string, p: Posting)
    ensures TextPostings(tok, column, text)[p] == if StandsIn(tok, column, text, p) then 1 else 0
  {
    var tokens := tok(text);
    var postings := seq(|tokens|, i requires 0 <= i < |tokens| => Posting(column, i, tokens[i]));
    PlacedOnce(postings, p);
    if StandsIn(tok, column, text, p) {
      assert postings[p.place] == p;
    }
  }

  /** A row is filed under every token of its scope, its name and its description, at its place,
      once each, and under nothing else. */
  lemma RowPostingsAre(tok: Tokenizer, id: PluginId, info: Info, p: Posting)
    ensures RowPostings(tok, id, info)[p] ==
            if StandsIn(tok, 0, id.scope, p) || StandsIn(tok, 1, id.name, p) || StandsIn(tok, 2, info.description, p)
            then 1 else 0
  {
    hide TextPostings;
    TextPostingsAre(tok, 0, id.scope, p);
    TextPostingsAre(tok, 1, id.name, p);
    TextPostingsAre(tok, 2, info.description, p);
  }

  type Index = map<nat, multiset<Posting>>

  /** `order` lists the plugins by rowid; rows are never deleted. `index` holds the postings
      filed under each rowid. `migrated` is the backfill's entry in the migrations table. */
  datatype Db = Db(tables: Tables, order: seq<PluginId>, index: Index, migrated: bool)

  function Filed(index: Index, rowid: nat): multiset<Posting> {
    if rowid in index then index[rowid] else multiset{}
  }

  ghost predicate Numbered(db: Db) {
    && (forall i, j :: 0 <= i < j < |db.order| ==> db.order[i] != db.order[j])
    && (forall id :: id in db.tables.plugins <==> id in db.order)
  }

  /** The index files under `rowid` exactly what the row there contributes. */
  ghost predicate AgreesAt(tok: Tokenizer, db: Db, rowid: nat)
    requires Numbered(db)
  {
    Filed(db.index, rowid) ==
      if rowid < |db.order| then RowPostings(tok, db.order[rowid], db.tables.plugins[db.order[rowid]].info)
      else multiset{}
  }

  ghost predicate Agrees(tok: Tokenizer, db: Db)
    requires Numbered(db)
  {
    forall rowid: nat :: AgreesAt(tok, db, rowid)
  }

  // ---------------------------------------------------------------- triggers

  function FileUnder(index: Index, rowid: nat, postings: multiset<Posting>): Index {
    index[rowid := Filed(index, rowid) + postings]
  }

  function TakeFrom(index: Index, rowid: nat, postings: multiset<Posting>): Index {
    index[rowid := Filed(index, rowid) - postings]
  }

  function RowidOf(order: seq<PluginId>, id: PluginId): nat
    requires id in order
    ensures RowidOf(order, id) < |order| && order[RowidOf(order, id)] == id
  {
    if order[0] == id then 0 else 1 + RowidOf(order[1..], id)
  }

  /** The publish transaction with the triggers it fires: an insert files the new row's
      postings; an update takes out those of the old row and files those of the new one. */
  function UpsertDb(tok: Tokenizer, db: Db, up: Upload, now: int): Db
    requires Numbered(db)
  {
    var effect := ApplyUpsert(db.tables, up, now);
    var id := up.key.plugin;
    if effect.outcome != Done then db
    else if id !in db.tables.plugins then
      Db(effect.tables, db.order + [id], FileUnder(db.index, |db.order|, RowPostings(tok, id, up.info)), db.migrated)
    else
      var rowid := RowidOf(db.order, id);
      var without := TakeFrom(db.index, rowid, RowPostings(tok, id, db.tables.plugins[id].info));
      Db(effect.tables, db.order, FileUnder(without, rowid, RowPostings(tok, id, up.info)), db.migrated)
  }

  /** Date fixes and download counts leave the plugins table, and so the index, alone. */
  function ApplyDb(tok: Tokenizer, db: Db, op: Op): Db
    requires Numbered(db)
  {
    match op
    case Upsert(up, now) => UpsertDb(tok, db, up, now)
    case _ => db.(tables := Apply(db.tables, op).tables)
  }

  lemma StaysNumbered(tok: Tokenizer, db: Db, op: Op)
    requires Numbered(db)
    ensures Numbered(ApplyDb(tok, db, op))
    ensures ApplyDb(tok, db, op).tables == Apply(db.tables, op).tables
    ensures ApplyDb(tok, db, op).migrated == db.migrated
  {
    var after := ApplyDb(tok, db, op);
    if op.Upsert? && op.up.key !in db.tables.versions && op.up.key.plugin !in db.tables.plugins {
      forall i, j | 0 <= i < j < |after.order|
        ensures after.order[i] != after.order[j]
      {
        assert db.order[i] in db.order;
      }
      forall id
        ensures id in after.tables.plugins <==> id in after.order
      {
      }
    }
  }

  lemma InsertKeepsAgreement(tok: Tokenizer, db: Db, up: Upload, now: int, rowid: nat)
    requires Numbered(db) && AgreesAt(tok, db, rowid) && AgreesAt(tok, db, |db.order|) &&
        Numbered(UpsertDb(tok, db, up, now))
    requires up.key !in db.tables.versions && up.key.plugin !in db.tables.plugins
    ensures AgreesAt(tok, UpsertDb(tok, db, up, now), rowid)
  {
    hide RowPostings;
    if rowid < |db.order| {
      assert db.order[rowid] in db.order;
    }
  }

  lemma UpdateKeepsAgreement(tok: Tokenizer, db: Db, up: Upload, now: int, rowid: nat)
    requires Numbered(db) && AgreesAt(tok, db, rowid) && Numbered(UpsertDb(tok, db, up, now))
    requires up.key !in db.tables.versions && up.key.plugin in db.tables.plugins
    ensures AgreesAt(tok, UpsertDb(tok, db, up, now), rowid)
  {
    hide RowPostings, FileUnder, TakeFrom, Filed, RowidOf;
    var id := up.key.plugin;
    var mine := RowidOf(db.order, id);
    var gone, come := RowPostings(tok, id, db.tables.plugins[id].info), RowPostings(tok, id, up.info);
    var after := UpsertDb(tok, db, up, now);
    SwapPostings(db.index, mine, gone, come, rowid);
    if rowid != mine && rowid < |db.order| {
      assert db.order[rowid] in db.order && db.order[rowid] != id;
    }
  }

  /** Taking out what is filed under a rowid and filing something else touches that rowid only. */
  lemma SwapPostings(index: Index, mine: nat, gone: multiset<Posting>, come: multiset<Posting>, rowid: nat)
    ensures var after := FileUnder(TakeFrom(index, mine, gone), mine, come);
            Filed(after, rowid) == if rowid == mine then Filed(index, mine) - gone + come else Filed(index, rowid)
  {
  }

  lemma QuietKeepsAgreement(tok: Tokenizer, db: Db, after: Db, rowid: nat)
    requires Numbered(db) && AgreesAt(tok, db, rowid) && Numbered(after)
    requires after.order == db.order && after.index == db.index && after.tables.plugins == db.tables.plugins
    ensures AgreesAt(tok, after, rowid)
  {
  }

  /** The triggers keep the index in step with the table. */
  lemma TriggersKeepAgreement(tok: Tokenizer, db: Db, op: Op)
    requires Numbered(db) && Agrees(tok, db)
    ensures Numbered(ApplyDb(tok, db, op)) && Agrees(tok, ApplyDb(tok, db, op))
  {
    hide AgreesAt, Numbered, UpsertDb;
    StaysNumbered(tok, db, op);
    forall rowid: nat
      ensures AgreesAt(tok, ApplyDb(tok, db, op), rowid)
    {
      assert AgreesAt(tok, db, rowid) && AgreesAt(tok, db, |db.order|);
      if !op.Upsert? || op.up.key in db.tables.versions {
        RefusedIsQuiet(tok, db, op);
        QuietKeepsAgreement(tok, db, ApplyDb(tok, db, op), rowid);
      } else if op.up.key.plugin in db.tables.plugins {
        UpdateKeepsAgreement(tok, db, op.up, op.now, rowid);
      } else {
        InsertKeepsAgreement(tok, db, op.up, op.now, rowid);
      }
    }
  }

  lemma RefusedIsQuiet(tok: Tokenizer, db: Db, op: Op)
    requires Numbered(db) && (!op.Upsert? || op.up.key in db.tables.versions)
    ensures var after := ApplyDb(tok, db, op);
            after.order == db.order && after.index == db.index && after.tables.plugins == db.tables.plugins
  {
  }

  function ApplyAll(tok: Tokenizer, db: Db, ops: seq<Op>): Db
    requires Numbered(db)
    ensures Numbered(ApplyAll(tok, db, ops))
    decreases |ops|
  {
    if ops == [] then db
    else
      var before := ApplyAll(tok, db, ops[..|ops| - 1]);
      StaysNumbered(tok, before, ops[|ops| - 1]);
      ApplyDb(tok, before, ops[|ops| - 1])
  }

  // ---------------------------------------------------------------- opening

  /** The rebuild reads every row afresh. */
  function Rebuild(tok: Tokenizer, db: Db): Db
    requires Numbered(db)
  {
    db.(index := map rowid: nat | rowid < |db.order| ::
      RowPostings(tok, db.order[rowid], db.tables.plugins[db.order[rowid]].info))
  }

  /** First statement of the backfill: note the migration, and tell whether it was new. */
  function NoteMigration(db: Db): (Db, bool) {
    (db.(migrated := true), !db.migrated)
  }

  /** A completed open: the second statement runs only if the first one inserted something. */
  function Open(tok: Tokenizer, db: Db): Db
    requires Numbered(db)
  {
    var (noted, first) := NoteMigration(db);
    if first then Rebuild(tok, noted) else noted
  }

  lemma RebuildAgrees(tok: Tokenizer, db: Db)
    requires Numbered(db)
    ensures Agrees(tok, Rebuild(tok, db))
  {
    var after := Rebuild(tok, db);
    forall rowid: nat
      ensures AgreesAt(tok, after, rowid)
    {
    }
  }

  lemma SameIndexAgrees(tok: Tokenizer, db: Db, other: Db)
    requires Numbered(db) && other == db.(migrated := other.migrated)
    ensures Agrees(tok, db) <==> Agrees(tok, other)
  {
    forall rowid: nat
      ensures AgreesAt(tok, db, rowid) <==> AgreesAt(tok, other, rowid)
    {
    }
  }

  /** After an open has completed, index and table agree exactly when this open ran the rebuild
      or they agreed before. */
  lemma OpenAgreesIff(tok: Tokenizer, db: Db)
    requires Numbered(db)
    ensures Agrees(tok, Open(tok, db)) <==> !db.migrated || Agrees(tok, db)
  {
    hide Agrees;
    if !db.migrated {
      RebuildAgrees(tok, NoteMigration(db).0);
    } else {
      SameIndexAgrees(tok, db, Open(tok, db));
    }
  }

  /** A first open on a new or old database, then any operations: the index is what scanning
      the table gives. */
  lemma {:induction false} IndexEqualsScan(tok: Tokenizer, db: Db, ops: seq<Op>)
    requires Numbered(db) && (!db.migrated || Agrees(tok, db))
    ensures Agrees(tok, ApplyAll(tok, Open(tok, db), ops))
    decreases |ops|
  {
    if ops == [] {
      OpenAgreesIff(tok, db);
    } else {
      IndexEqualsScan(tok, db, ops[..|ops| - 1]);
      TriggersKeepAgreement(tok, ApplyAll(tok, Open(tok, db), ops[..|ops| - 1]), ops[|ops| - 1]);
    }
  }

  /** A first open that dies between its two statements leaves the noted migration behind, and
      no later open repairs the index it never rebuilt. */
  lemma InterruptedBackfillStays(tok: Tokenizer, db: Db)
    requires Numbered(db) && !db.migrated
    ensures Agrees(tok, Open(tok, NoteMigration(db).0)) <==> Agrees(tok, db)
  {
    hide Agrees;
    SameIndexAgrees(tok, db, NoteMigration(db).0);
    OpenAgreesIff(tok, NoteMigration(db).0);
  }

  // ---------------------------------------------------------------- what an interruption leaves

  datatype Event = Reopened | Ran(op: Op)

  function Happen(tok: Tokenizer, db: Db, e: Event): (after: Db)
    requires Numbered(db)
    ensures Numbered(after)
  {
    match e
    case Reopened => Open(tok, db)
    case Ran(op) => StaysNumbered(tok, db, op); ApplyDb(tok, db, op)
  }

  function After(tok: Tokenizer, db: Db, events: seq<Event>): (after: Db)
    requires Numbered(db)
    ensures Numbered(after)
    decreases |events|
  {
    if events == [] then db
    else Happen(tok, After(tok, db, events[..|events| - 1]), events[|events| - 1])
  }

  /** A version of the plugin has been published since. */
  ghost predicate Renewed(first: Db, db: Db, id: PluginId) {
    exists key :: key in db.tables.versions && key !in first.tables.versions && key.plugin == id
  }

  ghost predicate Grown(first: Db, db: Db) {
    db.migrated && first.order <= db.order && first.tables.versions.Keys <= db.tables.versions.Keys
  }

  /** The row at `rowid` is indexed as it should be, or it was there before and is not indexed. */
  ghost predicate PartlyAt(tok: Tokenizer, first: Db, db: Db, rowid: nat)
    requires Numbered(first) && Numbered(db) && Grown(first, db)
  {
    if rowid < |first.order| && !Renewed(first, db, first.order[rowid]) then
      && Filed(db.index, rowid) == multiset{}
      && db.tables.plugins[db.order[rowid]].info == first.tables.plugins[first.order[rowid]].info
    else AgreesAt(tok, db, rowid)
  }

  ghost predicate Partly(tok: Tokenizer, first: Db, db: Db)
    requires Numbered(first) && Numbered(db) && Grown(first, db)
  {
    forall rowid: nat :: PartlyAt(tok, first, db, rowid)
  }

  lemma OpGrows(tok: Tokenizer, first: Db, db: Db, op: Op)
    requires Numbered(first) && Numbered(db) && Grown(first, db)
    ensures Grown(first, ApplyDb(tok, db, op))
  {
  }

  lemma QuietStaysPartly(tok: Tokenizer, first: Db, db: Db, after: Db, rowid: nat)
    requires Numbered(first) && Numbered(db) && Numbered(after) && Grown(first, db) && Grown(first, after)
    requires PartlyAt(tok, first, db, rowid)
    requires after.order == db.order && after.index == db.index && after.tables.plugins == db.tables.plugins
    requires after.tables.versions.Keys == db.tables.versions.Keys
    ensures PartlyAt(tok, first, after, rowid)
  {
    hide Filed, AgreesAt;
    assert forall id :: Renewed(first, after, id) <==> Renewed(first, db, id);
    if AgreesAt(tok, db, rowid) {
      QuietKeepsAgreement(tok, db, after, rowid);
    }
  }

  lemma UploadRenews(tok: Tokenizer, first: Db, db: Db, up: Upload, now: int, id: PluginId)
    requires Numbered(db) && Grown(first, db) && up.key !in db.tables.versions
    ensures Renewed(first, UpsertDb(tok, db, up, now), id) <==> Renewed(first, db, id) || id == up.key.plugin
  {
    var after := UpsertDb(tok, db, up, now);
    assert after.tables.versions.Keys == db.tables.versions.Keys + {up.key};
    if Renewed(first, db, id) {
      var key :| key in db.tables.versions && key !in first.tables.versions && key.plugin == id;
      assert key in after.tables.versions;
    }
    assert up.key in after.tables.versions;
  }

  lemma InsertStaysPartly(tok: Tokenizer, first: Db, db: Db, up: Upload, now: int, rowid: nat)
    requires Numbered(first) && Numbered(db) && Grown(first, db) && Partly(tok, first, db)
    requires up.key !in db.tables.versions && up.key.plugin !in db.tables.plugins
    requires Numbered(UpsertDb(tok, db, up, now)) && Grown(first, UpsertDb(tok, db, up, now))
    ensures PartlyAt(tok, first, UpsertDb(tok, db, up, now), rowid)
  {
    hide RowPostings, Renewed, AgreesAt;
    assert PartlyAt(tok, first, db, rowid) && PartlyAt(tok, first, db, |db.order|);
    if rowid < |first.order| {
      assert db.order[rowid] in db.order;
      UploadRenews(tok, first, db, up, now, first.order[rowid]);
    }
    if AgreesAt(tok, db, rowid) {
      InsertKeepsAgreement(tok, db, up, now, rowid);
    }
  }

  /** Taking out of the index what was never filed takes out nothing, so a row that was missing is
      complete after its first update. */
  lemma UpdateFiles(tok: Tokenizer, db: Db, up: Upload, now: int, rowid: nat)
    requires Numbered(db) && up.key !in db.tables.versions && up.key.plugin in db.tables.plugins
    requires rowid < |db.order| && db.order[rowid] == up.key.plugin && Filed(db.index, rowid) == multiset{}
    requires Numbered(UpsertDb(tok, db, up, now))
    ensures AgreesAt(tok, UpsertDb(tok, db, up, now), rowid)
  {
    hide RowPostings, FileUnder, TakeFrom, Filed;
    var id := up.key.plugin;
    var gone, come := RowPostings(tok, id, db.tables.plugins[id].info), RowPostings(tok, id, up.info);
    SwapPostings(db.index, rowid, gone, come, rowid);
  }

  lemma UpdateLeavesOthers(tok: Tokenizer, db: Db, up: Upload, now: int, rowid: nat)
    requires Numbered(db) && up.key !in db.tables.versions && up.key.plugin in db.tables.plugins
    requires rowid < |db.order| && db.order[rowid] != up.key.plugin
    ensures var after := UpsertDb(tok, db, up, now);
            && Filed(after.index, rowid) == Filed(db.index, rowid) && after.order == db.order
            && db.order[rowid] in db.tables.plugins && db.order[rowid] in after.tables.plugins
            && after.tables.plugins[db.order[rowid]].info == db.tables.plugins[db.order[rowid]].info
  {
    assert db.order[rowid] in db.order;
  }

  lemma UpdateStaysPartly(tok: Tokenizer, first: Db, db: Db, up: Upload, now: int, rowid: nat)
    requires Numbered(first) && Numbered(db) && Grown(first, db) && Partly(tok, first, db)
    requires up.key !in db.tables.versions && up.key.plugin in db.tables.plugins
    requires Numbered(UpsertDb(tok, db, up, now)) && Grown(first, UpsertDb(tok, db, up, now))
    ensures PartlyAt(tok, first, UpsertDb(tok, db, up, now), rowid)
  {
    hide RowPostings, Renewed, AgreesAt, UpsertDb, Filed;
    assert PartlyAt(tok, first, db, rowid);
    if AgreesAt(tok, db, rowid) {
      UpdateKeepsAgreement(tok, db, up, now, rowid);
    } else if db.order[rowid] == up.key.plugin {
      UpdateFiles(tok, db, up, now, rowid);
    } else {
      UpdateLeavesOthers(tok, db, up, now, rowid);
    }
    if rowid < |first.order| {
      UploadRenews(tok, first, db, up, now, first.order[rowid]);
      assert db.order[rowid] != up.key.plugin ==> db.order[rowid] in db.order;
      if db.order[rowid] != up.key.plugin {
        UpdateLeavesOthers(tok, db, up, now, rowid);
      }
    }
  }

  lemma OpStaysPartly(tok: Tokenizer, first: Db, db: Db, op: Op)
    requires Numbered(first) && Numbered(db) && Grown(first, db) && Partly(tok, first, db)
    ensures var after := ApplyDb(tok, db, op);
            Numbered(after) && Grown(first, after) && Partly(tok, first, after)
  {
    hide PartlyAt, Numbered, UpsertDb;
    StaysNumbered(tok, db, op);
    OpGrows(tok, first, db, op);
    var after := ApplyDb(tok, db, op);
    forall rowid: nat
      ensures PartlyAt(tok, first, after, rowid)
    {
      assert PartlyAt(tok, first, db, rowid);
      if !op.Upsert? || op.up.key in db.tables.versions {
        RefusedIsQuiet(tok, db, op);
        QuietStaysPartly(tok, first, db, after, rowid);
      } else if op.up.key.plugin in db.tables.plugins {
        UpdateStaysPartly(tok, first, db, op.up, op.now, rowid);
      } else {
        InsertStaysPartly(tok, first, db, op.up, op.now, rowid);
      }
    }
  }

  lemma {:induction false} EventsStayPartly(tok: Tokenizer, first: Db, db: Db, events: seq<Event>)
    requires Numbered(first) && Numbered(db) && Grown(first, db) && Partly(tok, first, db)
    ensures Grown(first, After(tok, db, events)) && Partly(tok, first, After(tok, db, events))
    decreases |events|
  {
    hide Partly, Numbered, ApplyDb;
    if events != [] {
      var n := |events| - 1;
      EventsStayPartly(tok, first, db, events[..n]);
      match events[n] {
        case Reopened =>
        case Ran(op) => OpStaysPartly(tok, first, After(tok, db, events[..n]), op);
      }
    }
  }

  /** A database from before the index, whose first open noted the backfill and stopped: whatever
      opens and operations follow, index and table agree exactly when every plugin it had has
      published a new version since, or has nothing to index. */
  lemma UnrepairedIff(tok: Tokenizer, first: Db, events: seq<Event>)
    requires Numbered(first) && !first.migrated && first.index == map[]
    ensures var db := After(tok, NoteMigration(first).0, events);
            Agrees(tok, db) <==>
              forall id :: id in first.tables.plugins ==>
                Renewed(first, db, id) || RowPostings(tok, id, first.tables.plugins[id].info) == multiset{}
  {
    hide RowPostings, Renewed;
    var noted := NoteMigration(first).0;
    NothingRenewed(first, noted);
    assert Partly(tok, first, noted);
    EventsStayPartly(tok, first, noted, events);
    PartlyAgreesIff(tok, first, After(tok, noted, events));
  }

  lemma NothingRenewed(first: Db, noted: Db)
    requires noted.tables == first.tables
    ensures forall id :: !Renewed(first, noted, id)
  {
  }

  lemma PartlyAgreesIff(tok: Tokenizer, first: Db, db: Db)
    requires Numbered(first) && Numbered(db) && Grown(first, db) && Partly(tok, first, db)
    ensures Agrees(tok, db) <==>
              forall id :: id in first.tables.plugins ==>
                Renewed(first, db, id) || RowPostings(tok, id, first.tables.plugins[id].info) == multiset{}
  {
    hide RowPostings, Renewed, Filed;
    if Agrees(tok, db) {
      forall id | id in first.tables.plugins
        ensures Renewed(first, db, id) || RowPostings(tok, id, first.tables.plugins[id].info) == multiset{}
      {
        var rowid: nat :| rowid < |first.order| && first.order[rowid] == id;
        assert PartlyAt(tok, first, db, rowid) && AgreesAt(tok, db, rowid);
      }
    } else {
      var rowid: nat :| !AgreesAt(tok, db, rowid);
      assert PartlyAt(tok, first, db, rowid);
      assert first.order[rowid] in first.order;
    }
  }
}
