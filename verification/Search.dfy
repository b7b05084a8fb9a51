/** The search query: plugins joined with their keywords, filtered by the full-text index or by
    a keyword pattern, made distinct, newest first. */
module Search {
  import opened Wrappers
  import opened Metadata
  import opened FullText
  import opened MatchQuery

  /** What is left open: tokenizing, whether a row's postings match one literal, and the
      lower-casing the server applies to a query, which knows more letters than the database's. */
  datatype Engine = Engine(
    tok: Tokenizer, matches: (multiset<Posting>, string) -> bool, serverLower: string -> string)

  datatype Joined = Joined(rowid: nat, plugin: PluginId, keyword: Option<string>)

  /** One row per keyword, or a single row without one. */
  function KeywordJoin(rowid: nat, id: PluginId, words: seq<string>): seq<Joined> {
    if words == [] then [Joined(rowid, id, None)]
    else seq(|words|, i requires 0 <= i < |words| => Joined(rowid, id, Some(words[i])))
  }

  /** The left join over the first `n` plugin rows. */
  function JoinUpto(db: Db, n: nat): seq<Joined>
    requires n <= |db.order|
  {
    if n == 0 then []
    else JoinUpto(db, n - 1) + KeywordJoin(n - 1, db.order[n - 1], Keywords(db.tables.keywords, db.order[n - 1]))
  }

  /** A full-text expression matches when it reads as literals, at least one, and the engine finds
      every one of them. */
  predicate Hits(e: Engine, postings: multiset<Posting>, expression: string) {
    var literals := ReadLiterals(expression);
    && literals.Some? && literals.value != []
    && forall w :: w in literals.value ==> e.matches(postings, w)
  }

  function Pattern(e: Engine, query: string): string {
    "%" + e.serverLower(query) + "%"
  }

  predicate Selected(e: Engine, db: Db, expression: string, pattern: string, row: Joined) {
    || Hits(e, Filed(db.index, row.rowid), expression)
    || (row.keyword.Some? && Like(pattern, Folded(row.keyword.value)))
  }

  /** The plugins of the selected rows, each kept where it first appears. */
  function DistinctSelected(e: Engine, db: Db, expression: string, pattern: string, rows: seq<Joined>): seq<PluginId> {
    if rows == [] then []
    else
      var n := |rows| - 1;
      var ids := DistinctSelected(e, db, expression, pattern, rows[..n]);
      if Selected(e, db, expression, pattern, rows[n]) && rows[n].plugin !in ids then ids + [rows[n].plugin] else ids
  }

  function UpdatedAt(db: Db, id: PluginId): int {
    if id in db.tables.plugins then db.tables.plugins[id].updatedAt else 0
  }

  /** Puts a plugin after all those at least as recent. */
  function Place(db: Db, ids: seq<PluginId>, id: PluginId): seq<PluginId> {
    if ids == [] then [id]
    else
      var n := |ids| - 1;
      if UpdatedAt(db, ids[n]) >= UpdatedAt(db, id) then ids + [id]
      else Place(db, ids[..n], id) + [ids[n]]
  }

  function NewestFirst(db: Db, ids: seq<PluginId>): seq<PluginId> {
    if ids == [] then [] else Place(db, NewestFirst(db, ids[..|ids| - 1]), ids[|ids| - 1])
  }

  /** A blank query lists everything; the index is never asked an empty question. */
  function Answer(e: Engine, db: Db, raw: string): seq<PluginId> {
    var query := TrimSpace(raw);
    if query == "" then NewestFirst(db, db.order)
    else NewestFirst(db, DistinctSelected(e, db, MatchExpression(query), Pattern(e, query), JoinUpto(db, |db.order|)))
  }

  // ---------------------------------------------------------------- the plain scan

  /** The keyword contains `q`, letter case aside; a `q` with wildcards is a pattern to be found. */
  ghost predicate KeywordHas(kw: string, q: string) {
    if NoWildcard(q) then Contains(Folded(kw), Folded(q)) else Like("%" + q + "%", kw)
  }

  ghost predicate SomeKeyword(e: Engine, db: Db, q: string, id: PluginId) {
    exists kw :: KeywordRow(id, kw) in db.tables.keywords && KeywordHas(kw, e.serverLower(q))
  }

  ghost predicate EveryWord(e: Engine, postings: multiset<Posting>, words: seq<string>) {
    forall w :: w in words ==> e.matches(postings, w)
  }

  ghost predicate WordsFound(e: Engine, postings: multiset<Posting>, raw: string) {
    exists words :: AreWords(raw, words) && EveryWord(e, postings, words)
  }

  ghost predicate KeywordFound(e: Engine, db: Db, raw: string, id: PluginId) {
    exists q :: IsTrimmed(raw, q) && SomeKeyword(e, db, q, id)
  }

  /** What a search should find, from the plugins and keywords tables alone: everything when the
      query is blank, and otherwise the plugins whose text has every word of it, or that have a
      keyword with the query, trimmed, in it. */
  ghost predicate Found(e: Engine, db: Db, raw: string, id: PluginId) {
    && id in db.tables.plugins
    && (Blank(raw) ||
        WordsFound(e, RowPostings(e.tok, id, db.tables.plugins[id].info), raw) ||
        KeywordFound(e, db, raw, id))
  }

  /** Each known, and none updated before one that comes after it. */
  ghost predicate NewestAhead(db: Db, ids: seq<PluginId>) {
    && (forall id :: id in ids ==> id in db.tables.plugins)
    && forall i, j :: 0 <= i < j < |ids| ==>
         db.tables.plugins[ids[i]].updatedAt >= db.tables.plugins[ids[j]].updatedAt
  }

  ghost predicate Distinct(ids: seq<PluginId>) {
    forall i, j :: 0 <= i < j < |ids| ==> ids[i] != ids[j]
  }

  ghost predicate Ordered(db: Db, ids: seq<PluginId>) {
    forall i, j :: 0 <= i < j < |ids| ==> UpdatedAt(db, ids[i]) >= UpdatedAt(db, ids[j])
  }

  // ---------------------------------------------------------------- ordering

  lemma {:induction false} PlaceKeeps(db: Db, ids: seq<PluginId>, id: PluginId)
    requires Ordered(db, ids)
    ensures Ordered(db, Place(db, ids, id))
    ensures multiset(Place(db, ids, id)) == multiset(ids) + multiset{id}
    decreases |ids|
  {
    hide UpdatedAt, Ordered;
    if ids == [] {
      OrderedAppend(db, [], id) by { assert Ordered(db, []); }
      assert [] + [id] == [id];
    }
    if ids != [] {
      var n := |ids| - 1;
      assert ids == ids[..n] + [ids[n]];
      if UpdatedAt(db, ids[n]) >= UpdatedAt(db, id) {
        OrderedAppend(db, ids, id);
      } else {
        OrderedPrefix(db, ids, n);
        PlaceKeeps(db, ids[..n], id);
        var placed := Place(db, ids[..n], id);
        forall i | 0 <= i < |placed|
          ensures UpdatedAt(db, placed[i]) >= UpdatedAt(db, ids[n])
        {
          assert placed[i] in multiset(placed);
          assert placed[i] == id || placed[i] in ids[..n];
        }
        OrderedAppend(db, placed, ids[n]);
      }
    }
  }

  lemma OrderedPrefix(db: Db, ids: seq<PluginId>, n: nat)
    requires Ordered(db, ids) && n <= |ids|
    ensures Ordered(db, ids[..n])
    ensures forall i :: n <= i < |ids| ==> forall id :: id in ids[..n] ==> UpdatedAt(db, id) >= UpdatedAt(db, ids[i])
  {
    hide UpdatedAt;
  }

  lemma OrderedAppend(db: Db, ids: seq<PluginId>, id: PluginId)
    requires Ordered(db, ids) && (ids != [] ==> UpdatedAt(db, ids[|ids| - 1]) >= UpdatedAt(db, id))
    ensures Ordered(db, ids + [id])
  {
    hide UpdatedAt;
    var all := ids + [id];
    forall i, j | 0 <= i < j < |all|
      ensures UpdatedAt(db, all[i]) >= UpdatedAt(db, all[j])
    {
      if j < |ids| {
        assert UpdatedAt(db, ids[i]) >= UpdatedAt(db, ids[j]);
      } else if i < |ids| - 1 {
        assert UpdatedAt(db, ids[i]) >= UpdatedAt(db, ids[|ids| - 1]);
      }
    }
  }

  lemma {:induction false} NewestFirstKeeps(db: Db, ids: seq<PluginId>)
    ensures Ordered(db, NewestFirst(db, ids))
    ensures multiset(NewestFirst(db, ids)) == multiset(ids)
    decreases |ids|
  {
    hide Place, UpdatedAt;
    if ids != [] {
      var n := |ids| - 1;
      NewestFirstKeeps(db, ids[..n]);
      PlaceKeeps(db, NewestFirst(db, ids[..n]), ids[n]);
      assert ids == ids[..n] + [ids[n]];
    }
  }

  lemma {:induction false} DistinctIffMultiset(ids: seq<PluginId>)
    ensures Distinct(ids) <==> forall id :: multiset(ids)[id] <= 1
    decreases |ids|
  {
    if ids != [] {
      var n := |ids| - 1;
      DistinctIffMultiset(ids[..n]);
      assert ids == ids[..n] + [ids[n]];
      if Distinct(ids) {
        assert Distinct(ids[..n]);
        assert ids[n] !in ids[..n];
      }
      if forall id :: multiset(ids)[id] <= 1 {
        forall id
          ensures multiset(ids[..n])[id] <= 1
        {
          assert multiset(ids)[id] <= 1;
        }
        assert multiset(ids)[ids[n]] <= 1;
        assert ids[n] !in multiset(ids[..n]);
      }
    }
  }

  lemma NewestFirstDistinct(db: Db, ids: seq<PluginId>)
    requires Distinct(ids)
    ensures Distinct(NewestFirst(db, ids))
    ensures forall id :: id in NewestFirst(db, ids) <==> id in ids
  {
    NewestFirstKeeps(db, ids);
    DistinctIffMultiset(ids);
    DistinctIffMultiset(NewestFirst(db, ids));
    forall id
      ensures id in NewestFirst(db, ids) <==> id in ids
    {
      assert id in NewestFirst(db, ids) <==> id in multiset(NewestFirst(db, ids));
      assert id in ids <==> id in multiset(ids);
    }
  }

  // ---------------------------------------------------------------- selecting

  lemma {:induction false} DistinctSelects(e: Engine, db: Db, expression: string, pattern: string, rows: seq<Joined>)
    ensures Distinct(DistinctSelected(e, db, expression, pattern, rows))
    ensures forall id :: id in DistinctSelected(e, db, expression, pattern, rows) <==>
              exists row :: row in rows && row.plugin == id && Selected(e, db, expression, pattern, row)
    decreases |rows|
  {
    if rows != [] {
      var n := |rows| - 1;
      DistinctSelects(e, db, expression, pattern, rows[..n]);
      assert rows == rows[..n] + [rows[n]];
    }
  }

  lemma {:induction false} JoinRows(db: Db, n: nat, row: Joined)
    requires n <= |db.order|
    ensures row in JoinUpto(db, n) <==>
            && row.rowid < n && row.plugin == db.order[row.rowid]
            && row in KeywordJoin(row.rowid, row.plugin, Keywords(db.tables.keywords, row.plugin))
    decreases n
  {
    if n > 0 {
      JoinRows(db, n - 1, row);
      KeywordJoinRows(n - 1, db.order[n - 1], Keywords(db.tables.keywords, db.order[n - 1]), row);
    }
  }

  lemma KeywordJoinRows(rowid: nat, id: PluginId, words: seq<string>, row: Joined)
    ensures row in KeywordJoin(rowid, id, words) <==>
            && row.rowid == rowid && row.plugin == id
            && (if words == [] then row.keyword.None? else row.keyword.Some? && row.keyword.value in words)
  {
    var rows := KeywordJoin(rowid, id, words);
    if words != [] && row.rowid == rowid && row.plugin == id && row.keyword.Some? && row.keyword.value in words {
      var i :| 0 <= i < |words| && words[i] == row.keyword.value;
      assert rows[i] == row;
    }
  }

  lemma {:induction false} KeywordsHold(rows: seq<KeywordRow>, id: PluginId, kw: string)
    ensures kw in Keywords(rows, id) <==> KeywordRow(id, kw) in rows
    decreases |rows|
  {
    if rows != [] {
      var n := |rows| - 1;
      KeywordsHold(rows[..n], id, kw);
      assert rows == rows[..n] + [rows[n]];
    }
  }

  /** The pattern the query runs finds what the keyword has. */
  lemma PatternFinds(e: Engine, query: string, kw: string)
    ensures Like(Pattern(e, query), Folded(kw)) <==> KeywordHas(kw, e.serverLower(query))
  {
    hide Wild;
    var q := e.serverLower(query);
    FoldKeepsWildcards(kw);
    if NoWildcard(q) {
      KeywordMatchIsSubstringIff(q);
      assert Like("%" + q + "%", Folded(kw)) <==> Contains(Folded(Folded(kw)), Folded(q));
    }
  }

  lemma ExpressionHits(e: Engine, postings: multiset<Posting>, query: string)
    requires Fields(query) != []
    ensures Hits(e, postings, MatchExpression(query)) <==> EveryWord(e, postings, Fields(query))
  {
    hide Spaced, QuotedAll, ReadLiterals, Fields;
    QuotingRoundTrip(Fields(query));
  }

  /** Joining with the keywords table selects a plugin, however many keywords it has, exactly
      when its text has every word or one of its keywords has the query. */
  lemma SelectedIff(e: Engine, db: Db, query: string, rowid: nat)
    requires Numbered(db) && Agrees(e.tok, db) && rowid < |db.order| && Fields(query) != []
    ensures (exists row ::
               && row in JoinUpto(db, |db.order|) && row.plugin == db.order[rowid]
               && Selected(e, db, MatchExpression(query), Pattern(e, query), row))
       <==> || EveryWord(e, RowPostings(e.tok, db.order[rowid], db.tables.plugins[db.order[rowid]].info), Fields(query))
            || SomeKeyword(e, db, query, db.order[rowid])
  {
    hide Like, RowPostings, Keywords, MatchExpression, Fields, Hits, EveryWord, KeywordHas, Pattern;
    var id := db.order[rowid];
    var words := Keywords(db.tables.keywords, id);
    var expression, pattern := MatchExpression(query), Pattern(e, query);
    assert AgreesAt(e.tok, db, rowid);
    ExpressionHits(e, Filed(db.index, rowid), query);
    forall row | row in JoinUpto(db, |db.order|) && row.plugin == id
      ensures row.rowid == rowid && (row.keyword.Some? ==> row.keyword.value in words)
    {
      JoinRows(db, |db.order|, row);
      KeywordJoinRows(row.rowid, id, words, row);
    }
    forall kw
      ensures kw in words <==> KeywordRow(id, kw) in db.tables.keywords
      ensures Like(pattern, Folded(kw)) <==> KeywordHas(kw, e.serverLower(query))
    {
      KeywordsHold(db.tables.keywords, id, kw);
      PatternFinds(e, query, kw);
    }
    var any := Joined(rowid, id, if words == [] then None else Some(words[0]));
    KeywordJoinRows(rowid, id, words, any);
    JoinRows(db, |db.order|, any);
    if kw :| kw in words && Like(pattern, Folded(kw)) {
      var row := Joined(rowid, id, Some(kw));
      KeywordJoinRows(rowid, id, words, row);
      JoinRows(db, |db.order|, row);
      assert Selected(e, db, expression, pattern, row);
    }
    if Hits(e, Filed(db.index, rowid), expression) {
      assert Selected(e, db, expression, pattern, any);
    }
  }

  lemma OrderedIsNewest(db: Db, ids: seq<PluginId>)
    requires Ordered(db, ids) && forall id :: id in ids ==> id in db.tables.plugins
    ensures NewestAhead(db, ids)
  {
    forall i, j | 0 <= i < j < |ids|
      ensures db.tables.plugins[ids[i]].updatedAt >= db.tables.plugins[ids[j]].updatedAt
    {
      assert UpdatedAt(db, ids[i]) >= UpdatedAt(db, ids[j]);
    }
  }

  lemma SelectedAreFound(e: Engine, db: Db, raw: string)
    requires Numbered(db) && Agrees(e.tok, db) && TrimSpace(raw) != ""
    ensures var query := TrimSpace(raw);
            var ids := DistinctSelected(e, db, MatchExpression(query), Pattern(e, query), JoinUpto(db, |db.order|));
            forall id :: id in ids <==> Found(e, db, raw, id)
  {
    hide Agrees, Found, Numbered, JoinUpto, TrimSpace, DistinctSelected, Selected;
    var query := TrimSpace(raw);
    DistinctSelects(e, db, MatchExpression(query), Pattern(e, query), JoinUpto(db, |db.order|));
    forall id
      ensures id in DistinctSelected(e, db, MatchExpression(query), Pattern(e, query), JoinUpto(db, |db.order|))
         <==> Found(e, db, raw, id)
    {
      SelectedIsFound(e, db, raw, id);
    }
  }

  lemma BlankFindsAll(e: Engine, db: Db, raw: string)
    requires Numbered(db) && TrimSpace(raw) == ""
    ensures forall id :: id in db.order <==> Found(e, db, raw, id)
  {
    BlankIsTrimmed(raw);
  }

  /** Once index and table agree, a search returns every plugin the plain scan finds, no other,
      each exactly once, most recently updated first. */
  lemma SearchEqualsScan(e: Engine, db: Db, raw: string)
    requires Numbered(db) && Agrees(e.tok, db)
    ensures Distinct(Answer(e, db, raw)) && NewestAhead(db, Answer(e, db, raw))
    ensures forall id :: id in Answer(e, db, raw) <==> Found(e, db, raw, id)
  {
    hide Agrees, JoinUpto, TrimSpace, Numbered, Ordered, NewestAhead, NewestFirst, DistinctSelected, MatchExpression;
    hide Distinct, WordsFound, KeywordFound, Blank;
    var query := TrimSpace(raw);
    var ids := if query == "" then db.order
               else DistinctSelected(e, db, MatchExpression(query), Pattern(e, query), JoinUpto(db, |db.order|));
    if query == "" {
      BlankFindsAll(e, db, raw);
      assert Distinct(db.order) by { OrderDistinct(db); }
    } else {
      SelectedAreFound(e, db, raw);
      DistinctSelects(e, db, MatchExpression(query), Pattern(e, query), JoinUpto(db, |db.order|));
    }
    NewestFirstKeeps(db, ids);
    NewestFirstDistinct(db, ids);
    forall id | id in ids
      ensures Found(e, db, raw, id) && id in db.tables.plugins
    {
    }
    OrderedIsNewest(db, NewestFirst(db, ids));
  }

  lemma OrderDistinct(db: Db)
    requires Numbered(db)
    ensures Distinct(db.order)
  {
  }

  lemma SelectedIsFound(e: Engine, db: Db, raw: string, id: PluginId)
    requires Numbered(db) && Agrees(e.tok, db) && TrimSpace(raw) != ""
    ensures (exists row ::
               && row in JoinUpto(db, |db.order|) && row.plugin == id
               && Selected(e, db, MatchExpression(TrimSpace(raw)), Pattern(e, TrimSpace(raw)), row))
       <==> Found(e, db, raw, id)
  {
    hide Agrees, RowPostings, SomeKeyword, Like, TrimSpace, Fields, EveryWord, AreWords, IsTrimmed, Blank, Selected;
    var query := TrimSpace(raw);
    BlankIsTrimmed(raw);
    TrimmedHasWords(raw);
    TrimmedSameWords(raw);
    WordsOfText(raw, Fields(query));
    TrimmedText(raw, query);
    if id in db.order {
      SelectedIff(e, db, query, RowidOf(db.order, id));
      assert forall words :: AreWords(raw, words) ==> words == Fields(query) by { OneList(raw); }
      assert forall q :: IsTrimmed(raw, q) ==> q == query by { OneTrimmed(raw); }
    } else {
      forall row | row in JoinUpto(db, |db.order|)
        ensures row.plugin in db.order
      {
        JoinRows(db, |db.order|, row);
      }
    }
  }

  lemma OneList(raw: string)
    ensures forall words :: AreWords(raw, words) ==> words == Fields(raw)
  {
    forall words | AreWords(raw, words)
      ensures words == Fields(raw)
    {
      WordsOfText(raw, words);
    }
  }

  lemma OneTrimmed(raw: string)
    ensures forall q :: IsTrimmed(raw, q) ==> q == TrimSpace(raw)
  {
    forall q | IsTrimmed(raw, q)
      ensures q == TrimSpace(raw)
    {
      TrimmedText(raw, q);
    }
  }
}
