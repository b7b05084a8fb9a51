/** The metadata store as an object whose tables its methods update. */
module Sqlite {
  import opened Wrappers
  import opened Sums
  import opened Metadata
  import opened FullText
  import opened MatchQuery
  import opened Search

  /** A plugin as lookups and searches return it. */
  datatype PluginRecord = PluginRecord(id: PluginId, row: PluginRow, keywords: seq<string>, downloads: nat)

  /** `ops` is every operation run on this store since it was created. */
  class Store {
    const engine: Engine
    var plugins: map<PluginId, PluginRow>
    var versions: map<VersionKey, VersionRow>
    var keywords: seq<KeywordRow>
    var order: seq<PluginId>
    var index: map<nat, multiset<Posting>>
    var migrated: bool
    ghost var ops: seq<Op>

    /** The store's fields as one database value. */
    function Value(): Db
      reads this
    {
      Db(Tables(plugins, versions, keywords), order, index, migrated)
    }

    ghost predicate Valid()
      reads this
    {
      && Numbered(Value()) && Agrees(engine.tok, Value())
      && Value().tables == Replay(ops)
    }

    /** Opens a new database. */
    constructor (engine: Engine)
      ensures Valid() && this.engine == engine && ops == []
    {
      this.engine := engine;
      plugins, versions, keywords := map[], map[], [];
      order, index, migrated := [], map[], true;
      ops := [];
      new;
      forall rowid: nat
        ensures AgreesAt(engine.tok, Value(), rowid)
      {
      }
    }

    /** The two statements that run when an existing database is opened. */
    method BackfillIndex()
      requires Numbered(Value())
      modifies this`index, this`migrated
      ensures Value() == Open(engine.tok, old(Value()))
      ensures !old(migrated) || old(Agrees(engine.tok, Value())) ==> Agrees(engine.tok, Value())
    {
      OpenAgreesIff(engine.tok, Value());
      var inserted := !migrated;
      migrated := true;
      if inserted {
        index := Rebuild(engine.tok, Value()).index;
      }
    }

    /** One transaction. `commits` is false when any statement or the commit itself fails, and
        then nothing of it stays. */
    method UpsertPluginAndVersion(up: Upload, now: int, commits: bool) returns (outcome: Option<Outcome>)
      requires Valid()
      modifies this
      ensures Valid()
      ensures outcome == if commits then Some(old(ApplyUpsert(Value().tables, up, now)).outcome) else None
      ensures Value() == if commits then old(UpsertDb(engine.tok, Value(), up, now)) else old(Value())
      ensures Value().tables ==
              if commits then old(ApplyUpsert(Value().tables, up, now)).tables else old(Value().tables)
      ensures ops == if commits then old(ops) + [Upsert(up, now)] else old(ops)
    {
      if !commits {
        return None;
      }
      hide Agrees, Numbered, UpsertDb, ApplyUpsert, Replay;
      ghost var before := Value();
      var done := Write(up, now);
      outcome := Some(done);
      StaysNumbered(engine.tok, before, Upsert(up, now));
      Note(before, Upsert(up, now));
    }

    /** The statements of the transaction. */
    method Write(up: Upload, now: int) returns (outcome: Outcome)
      requires Numbered(Value())
      modifies this`plugins, this`versions, this`keywords, this`order, this`index
      ensures outcome == old(ApplyUpsert(Value().tables, up, now)).outcome
      ensures Value() == old(UpsertDb(engine.tok, Value(), up, now))
    {
      hide RowPostings, FileUnder, TakeFrom, NewRow, Stamp;
      var id := up.key.plugin;
      if up.key in versions {
        return Conflict;
      }
      if id !in plugins {
        plugins := plugins[id := PluginRow(up.info, up.key.version, Stamp(now), Stamp(now))];
        index := FileUnder(index, |order|, RowPostings(engine.tok, id, up.info));
        order := order + [id];
        InsertKeywords(id, up.keywords);
      } else {
        var row := plugins[id];
        plugins := plugins[id := row.(info := up.info, latest := up.key.version, updatedAt := Stamp(now))];
        var rowid := RowidOf(order, id);
        index := TakeFrom(index, rowid, RowPostings(engine.tok, id, row.info));
        index := FileUnder(index, rowid, RowPostings(engine.tok, id, up.info));
      }
      versions := versions[up.key := NewRow(up, now)];
      return Done;
    }

    method InsertKeywords(id: PluginId, words: seq<string>)
      modifies this`keywords
      ensures keywords == old(keywords) + KeywordRows(id, words)
    {
      for i := 0 to |words|
        invariant keywords == old(keywords) + KeywordRows(id, words[..i])
      {
        keywords := keywords + [KeywordRow(id, words[i])];
      }
      assert words[..|words|] == words;
    }

    /** Adds an operation, already carried out, to the history. */
    ghost method Note(before: Db, op: Op)
      requires Numbered(before) && Agrees(engine.tok, before) && before.tables == Replay(ops)
      requires Value() == ApplyDb(engine.tok, before, op)
      modifies this`ops
      ensures Valid() && ops == old(ops) + [op]
    {
      hide Agrees, Numbered, ApplyDb;
      TriggersKeepAgreement(engine.tok, before, op);
      StaysNumbered(engine.tok, before, op);
      assert (ops + [op])[..|ops|] == ops;
      ops := ops + [op];
    }

    method UpdateVersionPublishedAt(key: VersionKey, at: int) returns (outcome: Outcome)
      requires Valid()
      modifies this`versions, this`ops
      ensures Valid()
      ensures outcome == if key in old(versions) then Done else NotFound
      ensures Value().tables == old(Apply(Value().tables, SetDate(key, at))).tables
      ensures ops == old(ops) + [SetDate(key, at)]
    {
      ghost var before := Value();
      var affected := key in versions;
      if affected {
        versions := versions[key := versions[key].(publishedAt := Stamp(at))];
      }
      Note(before, SetDate(key, at));
      outcome := if affected then Done else NotFound;
    }

    method IncrementDownloadCount(key: VersionKey)
      requires Valid()
      modifies this`versions, this`ops
      ensures Valid()
      ensures Value().tables == old(Apply(Value().tables, Count(key))).tables
      ensures ops == old(ops) + [Count(key)]
    {
      ghost var before := Value();
      if key in versions {
        versions := versions[key := versions[key].(downloads := versions[key].downloads + 1)];
      }
      Note(before, Count(key));
    }

    method GetVersion(key: VersionKey) returns (row: Option<VersionRow>)
      ensures row == if key in versions then Some(versions[key]) else None
    {
      row := if key in versions then Some(versions[key]) else None;
    }

    ghost function RecordOf(id: PluginId): PluginRecord
      reads this
      requires id in plugins
    {
      PluginRecord(id, plugins[id], Keywords(keywords, id), TotalDownloads(Value().tables, id))
    }

    /** A plugin's rows gathered from three tables: the row itself, its keywords in table order,
        and the sum of its versions' counters. */
    method GetPlugin(id: PluginId) returns (record: Option<PluginRecord>)
      ensures record.None? <==> id !in plugins
      ensures record.Some? ==> record.value == RecordOf(id)
    {
      if id !in plugins {
        return None;
      }
      var total := SumDownloads(id);
      var words: seq<string> := [];
      for i := 0 to |keywords|
        invariant words == Keywords(keywords[..i], id)
      {
        assert keywords[..i + 1][..i] == keywords[..i];
        if keywords[i].plugin == id {
          words := words + [keywords[i].keyword];
        }
      }
      assert keywords[..|keywords|] == keywords;
      record := Some(PluginRecord(id, plugins[id], words, total));
    }

    method SumDownloads(id: PluginId) returns (total: nat)
      ensures total == TotalDownloads(Value().tables, id)
    {
      var left := set key | key in versions && key.plugin == id;
      ghost var all := left;
      total := 0;
      while left != {}
        invariant left <= all <= versions.Keys
        invariant total + SumOver(versions, DownloadsOf, left) == SumOver(versions, DownloadsOf, all)
        decreases left
      {
        var key :| key in left;
        SumTakesOut(versions, DownloadsOf, left, key);
        total := total + versions[key].downloads;
        left := left - {key};
      }
    }

    /** The rows of the query, in order. */
    method Query(raw: string) returns (ids: seq<PluginId>)
      ensures ids == Answer(engine, Value(), raw)
    {
      hide NewestFirst, DistinctSelected, JoinUpto, MatchExpression;
      var query := TrimSpace(raw);
      if query == "" {
        return NewestFirst(Value(), order);
      }
      var like := Pattern(engine, query);
      var expression := Fts5MatchQuery(query);
      return NewestFirst(Value(), DistinctSelected(engine, Value(), expression, like, JoinUpto(Value(), |order|)));
    }

    /** Runs the query, then gathers each hit's record in the order of the answer. */
    method Search(raw: string) returns (found: seq<PluginRecord>)
      requires Valid()
      ensures |found| == |Answer(engine, Value(), raw)|
      ensures forall i :: 0 <= i < |found| ==>
                && found[i].id == Answer(engine, Value(), raw)[i]
                && found[i].id in plugins && found[i] == RecordOf(found[i].id)
      ensures forall i, j :: 0 <= i < j < |found| ==>
                found[i].id != found[j].id && found[i].row.updatedAt >= found[j].row.updatedAt
      ensures forall id :: (exists i :: 0 <= i < |found| && found[i].id == id) <==> Found(engine, Value(), raw, id)
    {
      SearchEqualsScan(engine, Value(), raw);
      var ids := Query(raw);
      hide Answer;
      found := [];
      for i := 0 to |ids|
        invariant |found| == i
        invariant forall j :: 0 <= j < i ==> found[j].id == ids[j] && ids[j] in plugins && found[j] == RecordOf(ids[j])
      {
        assert ids[i] in ids;
        assert Found(engine, Value(), raw, ids[i]);
        var record := GetPlugin(ids[i]);
        found := found + [record.value];
      }
      forall id
        ensures (exists i :: 0 <= i < |found| && found[i].id == id) <==> id in ids
      {
        if id in ids {
          var i :| 0 <= i < |ids| && ids[i] == id;
          assert found[i].id == id;
        }
      }
    }
  }
}
