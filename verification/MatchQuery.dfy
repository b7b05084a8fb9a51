/** Turning search-box text into a full-text query of quoted literals, and into a LIKE pattern
    for keywords. */
module MatchQuery {
  import opened Wrappers

  predicate IsSpace(c: char) {
    c == ' ' || '\U{0009}' <= c <= '\U{000D}' || c == '\U{0085}' || c == '\U{00A0}' || c == '\U{1680}'
    || '\U{2000}' <= c <= '\U{200A}' || c == '\U{2028}' || c == '\U{2029}' || c == '\U{202F}'
    || c == '\U{205F}' || c == '\U{3000}'
  }

  /** Among the ASCII characters these six. */
  lemma AsciiSpaces(c: char)
    requires c as int < 128
    ensures IsSpace(c) <==> c in [' ', '\t', '\n', '\U{000B}', '\U{000C}', '\r']
  {
  }

  function Word(s: string): (w: string)
    ensures w <= s
    ensures forall i :: 0 <= i < |w| ==> !IsSpace(w[i])
    ensures |w| < |s| ==> IsSpace(s[|w|])
  {
    if s == "" || IsSpace(s[0]) then "" else [s[0]] + Word(s[1..])
  }

  /** The whitespace-separated words of a text. */
  function Fields(s: string): seq<string>
    decreases |s|
  {
    if s == "" then []
    else if IsSpace(s[0]) then Fields(s[1..])
    else [Word(s)] + Fields(s[|Word(s)|..])
  }

  function TrimLeft(s: string): string {
    if s != "" && IsSpace(s[0]) then TrimLeft(s[1..]) else s
  }

  function TrimRight(s: string): string {
    if s != "" && IsSpace(s[|s| - 1]) then TrimRight(s[..|s| - 1]) else s
  }

  function TrimSpace(s: string): string {
    TrimRight(TrimLeft(s))
  }

  lemma {:induction false} TrimLeftFields(s: string)
    ensures Fields(TrimLeft(s)) == Fields(s)
    ensures TrimLeft(s) == "" || !IsSpace(TrimLeft(s)[0])
    decreases |s|
  {
    if s != "" && IsSpace(s[0]) {
      TrimLeftFields(s[1..]);
    }
  }

  lemma {:induction false} TrimRightKeepsFirst(s: string)
    requires s != "" && !IsSpace(s[0])
    ensures TrimRight(s) != "" && TrimRight(s)[0] == s[0]
    decreases |s|
  {
    if IsSpace(s[|s| - 1]) {
      TrimRightKeepsFirst(s[..|s| - 1]);
    }
  }

  /** A trimmed query that is not empty has at least one word, so the full-text query built from
      it is never the empty one. */
  lemma TrimmedHasWords(s: string)
    ensures TrimSpace(s) != "" ==> Fields(TrimSpace(s)) != []
    ensures TrimSpace(s) == "" <==> Fields(s) == []
  {
    TrimLeftFields(s);
    if TrimLeft(s) != "" {
      TrimRightKeepsFirst(TrimLeft(s));
    }
  }

  // ---------------------------------------------------------------- words, without reading

  ghost predicate Blank(s: string) {
    forall i :: 0 <= i < |s| ==> IsSpace(s[i])
  }

  ghost predicate PlainWord(w: string) {
    w != "" && forall i :: 0 <= i < |w| ==> !IsSpace(w[i])
  }

  /** The words with a gap before, after and between them. */
  ghost function Woven(gaps: seq<string>, words: seq<string>): string
    requires |gaps| == |words| + 1
    decreases |words|
  {
    if words == [] then gaps[0] else gaps[0] + words[0] + Woven(gaps[1..], words[1..])
  }

  /** Gaps are whitespace, and there is some between any two words. */
  ghost predicate Separates(gaps: seq<string>, words: seq<string>) {
    && |gaps| == |words| + 1
    && (forall i :: 0 <= i < |gaps| ==> Blank(gaps[i]))
    && (forall i :: 0 < i < |words| ==> gaps[i] != "")
    && (forall i :: 0 <= i < |words| ==> PlainWord(words[i]))
  }

  /** The text is these words, in this order, and whitespace around them. */
  ghost predicate AreWords(s: string, words: seq<string>) {
    exists gaps :: Separates(gaps, words) && s == Woven(gaps, words)
  }

  /** The text is `q` and whitespace around it, and `q` neither begins nor ends with any. */
  ghost predicate IsTrimmed(s: string, q: string) {
    && (q != "" ==> !IsSpace(q[0]) && !IsSpace(q[|q| - 1]))
    && exists a, b :: Blank(a) && Blank(b) && s == a + q + b
  }

  lemma {:induction false} BlankBefore(a: string, s: string)
    requires Blank(a)
    ensures Fields(a + s) == Fields(s) && TrimLeft(a + s) == TrimLeft(s)
    decreases |a|
  {
    if a == "" {
      assert a + s == s;
    } else {
      assert (a + s)[1..] == a[1..] + s;
      BlankBefore(a[1..], s);
    }
  }

  lemma {:induction false} WordIs(w: string, rest: string)
    requires forall i :: 0 <= i < |w| ==> !IsSpace(w[i])
    requires rest == "" || IsSpace(rest[0])
    ensures Word(w + rest) == w
    decreases |w|
  {
    if w == "" {
      assert w + rest == rest;
    } else {
      assert (w + rest)[1..] == w[1..] + rest;
      WordIs(w[1..], rest);
    }
  }

  lemma OneWord(gap: string, w: string, rest: string)
    requires Blank(gap) && PlainWord(w) && (rest == "" || IsSpace(rest[0]))
    ensures Fields(gap + w + rest) == [w] + Fields(rest)
  {
    WordIs(w, rest);
    assert (w + rest)[|w|..] == rest;
    BlankBefore(gap, w + rest);
    assert gap + w + rest == gap + (w + rest);
  }

  lemma NoWord(gap: string)
    requires Blank(gap)
    ensures Fields(gap) == []
  {
    BlankBefore(gap, "");
    assert gap + "" == gap;
  }

  lemma {:induction false} WovenReads(gaps: seq<string>, words: seq<string>)
    requires Separates(gaps, words)
    ensures Fields(Woven(gaps, words)) == words
    decreases |words|
  {
    hide Fields, PlainWord;
    if words == [] {
      NoWord(gaps[0]);
    } else {
      var rest := Woven(gaps[1..], words[1..]);
      WovenReads(gaps[1..], words[1..]);
      if words[1..] == [] {
        assert rest == gaps[1] && Blank(rest);
      } else {
        FirstGap(gaps[1..], words[1..]);
      }
      OneWord(gaps[0], words[0], rest);
    }
  }

  lemma {:induction false} FieldsWeave(s: string) returns (gaps: seq<string>)
    ensures Separates(gaps, Fields(s)) && s == Woven(gaps, Fields(s))
    decreases |s|
  {
    if s == "" {
      gaps := [""];
    } else if IsSpace(s[0]) {
      var more := FieldsWeave(s[1..]);
      gaps := [[s[0]] + more[0]] + more[1..];
      WidenFirst(more, Fields(s), [s[0]]);
    } else {
      var w := Word(s);
      var tail := s[|w|..];
      var more := FieldsWeave(tail);
      gaps := [""] + more;
      WordFirst(more, Fields(tail), w);
      assert s == w + tail;
    }
  }

  lemma WidenFirst(gaps: seq<string>, words: seq<string>, a: string)
    requires Separates(gaps, words) && Blank(a)
    ensures var wider := [a + gaps[0]] + gaps[1..];
            Separates(wider, words) && Woven(wider, words) == a + Woven(gaps, words)
  {
    var wider := [a + gaps[0]] + gaps[1..];
    assert wider[1..] == gaps[1..];
    forall i | 0 <= i < |wider|
      ensures Blank(wider[i])
    {
      assert Blank(gaps[i]);
    }
  }

  lemma FirstGap(gaps: seq<string>, words: seq<string>)
    requires Separates(gaps, words) && words != []
    ensures Woven(gaps, words) != "" && (IsSpace(Woven(gaps, words)[0]) <==> gaps[0] != "")
  {
    assert PlainWord(words[0]) && Blank(gaps[0]);
    assert Woven(gaps, words)[0] == if gaps[0] == "" then words[0][0] else gaps[0][0];
  }

  lemma WordFirst(gaps: seq<string>, words: seq<string>, w: string)
    requires Separates(gaps, words) && PlainWord(w)
    requires Woven(gaps, words) == "" || IsSpace(Woven(gaps, words)[0])
    ensures Separates([""] + gaps, [w] + words) && Woven([""] + gaps, [w] + words) == w + Woven(gaps, words)
  {
    var all, longer := [w] + words, [""] + gaps;
    assert longer[1..] == gaps && all[1..] == words;
    if words != [] {
      FirstGap(gaps, words);
    }
    forall i | 0 <= i < |longer|
      ensures Blank(longer[i])
    {
      assert i > 0 ==> longer[i] == gaps[i - 1];
    }
  }

  /** A text has its words, and one list of them only. */
  lemma WordsOfText(s: string, words: seq<string>)
    ensures AreWords(s, words) <==> words == Fields(s)
  {
    var gaps := FieldsWeave(s);
    if AreWords(s, words) {
      var other :| Separates(other, words) && s == Woven(other, words);
      WovenReads(other, words);
    }
  }

  lemma {:induction false} BlankAfter(s: string, b: string)
    requires Blank(b)
    ensures TrimRight(s + b) == TrimRight(s)
    decreases |b|
  {
    if b == "" {
      assert s + b == s;
    } else {
      assert (s + b)[..|s + b| - 1] == s + b[..|b| - 1];
      BlankAfter(s, b[..|b| - 1]);
    }
  }

  lemma {:induction false} TrimLeftCuts(s: string) returns (a: string)
    ensures Blank(a) && s == a + TrimLeft(s)
    decreases |s|
  {
    a := "";
    if s != "" && IsSpace(s[0]) {
      var more := TrimLeftCuts(s[1..]);
      a := [s[0]] + more;
    }
  }

  lemma {:induction false} TrimRightCuts(s: string) returns (b: string)
    ensures Blank(b) && s == TrimRight(s) + b
    ensures TrimRight(s) != "" ==> !IsSpace(TrimRight(s)[|TrimRight(s)| - 1])
    decreases |s|
  {
    b := "";
    if s != "" && IsSpace(s[|s| - 1]) {
      var more := TrimRightCuts(s[..|s| - 1]);
      b := more + [s[|s| - 1]];
    }
  }

  lemma TrimmedCuts(s: string) returns (a: string, b: string)
    ensures Blank(a) && Blank(b) && s == a + TrimSpace(s) + b
    ensures var q := TrimSpace(s); q != "" ==> !IsSpace(q[0]) && !IsSpace(q[|q| - 1])
  {
    hide Fields;
    a := TrimLeftCuts(s);
    b := TrimRightCuts(TrimLeft(s));
    TrimLeftFields(s);
    if TrimLeft(s) != "" {
      TrimRightKeepsFirst(TrimLeft(s));
    }
  }

  lemma TrimmedIs(c: string, q: string, d: string)
    requires Blank(c) && Blank(d) && (q != "" ==> !IsSpace(q[0]) && !IsSpace(q[|q| - 1]))
    ensures TrimSpace(c + q + d) == q
  {
    hide Blank;
    assert c + q + d == c + (q + d);
    BlankBefore(c, q + d);
    if q == "" {
      assert q + d == d + "";
      BlankBefore(d, "");
    } else {
      assert TrimLeft(q + d) == q + d;
      BlankAfter(q, d);
    }
  }

  /** A text has one trimmed form. */
  lemma TrimmedText(s: string, q: string)
    ensures IsTrimmed(s, q) <==> q == TrimSpace(s)
  {
    hide Blank, TrimSpace;
    var a, b := TrimmedCuts(s);
    if IsTrimmed(s, q) {
      var c, d :| Blank(c) && Blank(d) && s == c + q + d;
      TrimmedIs(c, q, d);
    }
  }

  lemma BlankIsTrimmed(s: string)
    ensures TrimSpace(s) == "" <==> Blank(s)
  {
    var a, b := TrimmedCuts(s);
    if Blank(s) {
      assert Blank("") && s == s + "" + "";
      TrimmedIs(s, "", "");
    }
  }

  /** Trimming takes nothing from the words. */
  lemma TrimmedSameWords(s: string)
    ensures Fields(TrimSpace(s)) == Fields(s)
  {
    hide Fields, TrimSpace, Blank, Separates, Woven;
    var q := TrimSpace(s);
    var gaps := FieldsWeave(q);
    var a, b := TrimmedCuts(s);
    WidenLast(gaps, Fields(q), b);
    WovenReads(Wider(gaps, b), Fields(q));
    assert s == a + (q + b);
    BlankBefore(a, q + b);
  }

  ghost function Wider(gaps: seq<string>, b: string): seq<string>
    requires gaps != []
  {
    gaps[..|gaps| - 1] + [gaps[|gaps| - 1] + b]
  }

  lemma WiderSeparates(gaps: seq<string>, words: seq<string>, b: string)
    requires Separates(gaps, words) && Blank(b)
    ensures Separates(Wider(gaps, b), words)
  {
    hide PlainWord;
    forall i | 0 <= i < |gaps|
      ensures Blank(Wider(gaps, b)[i])
    {
      assert Blank(gaps[i]);
    }
  }

  lemma {:induction false} WidenLast(gaps: seq<string>, words: seq<string>, b: string)
    requires Separates(gaps, words) && Blank(b)
    ensures gaps != [] && Separates(Wider(gaps, b), words) && Woven(Wider(gaps, b), words) == Woven(gaps, words) + b
    decreases |words|
  {
    hide Blank, PlainWord;
    WiderSeparates(gaps, words, b);
    if words != [] {
      WidenLast(gaps[1..], words[1..], b);
      assert Wider(gaps, b)[1..] == Wider(gaps[1..], b);
    }
  }

  // ---------------------------------------------------------------- quoting

  function Doubled(f: string): string {
    if f == "" then "" else (if f[0] == '"' then "\"\"" else [f[0]]) + Doubled(f[1..])
  }

  function Quoted(f: string): string {
    "\"" + Doubled(f) + "\""
  }

  /** Elements joined by single spaces. */
  function Spaced(parts: seq<string>): string {
    if parts == [] then ""
    else if |parts| == 1 then parts[0]
    else parts[0] + " " + Spaced(parts[1..])
  }

  function QuotedAll(fields: seq<string>): (parts: seq<string>)
    ensures |parts| == |fields| && forall i :: 0 <= i < |fields| ==> parts[i] == Quoted(fields[i])
  {
    seq(|fields|, i requires 0 <= i < |fields| => Quoted(fields[i]))
  }

  datatype Body = Body(content: string, rest: string)

  /** A string literal after its opening quote: two quotes stand for one, a single one ends it. */
  function ReadBody(s: string): (r: Option<Body>)
    ensures r.Some? ==> |r.value.rest| < |s|
  {
    if s == "" then None
    else if s[0] == '"' then
      if |s| > 1 && s[1] == '"' then
        var tail := ReadBody(s[2..]);
        if tail.None? then None else Some(Body("\"" + tail.value.content, tail.value.rest))
      else Some(Body("", s[1..]))
    else
      var tail := ReadBody(s[1..]);
      if tail.None? then None else Some(Body([s[0]] + tail.value.content, tail.value.rest))
  }

  /** The literals of a query made of nothing but string literals with a space in between. */
  function ReadLiterals(s: string): Option<seq<string>>
    decreases |s|
  {
    if s == "" then Some([])
    else if s[0] != '"' then None
    else
      var body := ReadBody(s[1..]);
      if body.None? then None
      else if body.value.rest == "" then Some([body.value.content])
      else if body.value.rest[0] != ' ' || |body.value.rest| == 1 then None
      else
        var others := ReadLiterals(body.value.rest[1..]);
        if others.None? then None else Some([body.value.content] + others.value)
  }

  lemma {:induction false} ReadDoubled(f: string, rest: string)
    requires rest == "" || rest[0] != '"'
    ensures ReadBody(Doubled(f) + "\"" + rest) == Some(Body(f, rest))
    decreases |f|
  {
    hide ReadBody;
    var s := Doubled(f) + "\"" + rest;
    if f == "" {
      assert s == "\"" + rest;
      BodyEnds(rest);
    } else {
      ReadDoubled(f[1..], rest);
      var tail := Doubled(f[1..]) + "\"" + rest;
      assert f == [f[0]] + f[1..];
      if f[0] == '"' {
        assert s == "\"\"" + tail;
        BodyGoesOn("\"\"", '"', tail);
      } else {
        assert s == [f[0]] + tail;
        BodyGoesOn([f[0]], f[0], tail);
      }
    }
  }

  lemma BodyEnds(rest: string)
    requires rest == "" || rest[0] != '"'
    ensures ReadBody("\"" + rest) == Some(Body("", rest))
  {
    var s := "\"" + rest;
    assert s[1..] == rest;
    assert rest != "" ==> s[1] == rest[0];
  }

  /** A quote written twice, or any other character written once, is one character read. */
  lemma BodyGoesOn(written: string, c: char, tail: string)
    requires written == if c == '"' then "\"\"" else [c]
    requires ReadBody(tail).Some?
    ensures ReadBody(written + tail) == Some(Body([c] + ReadBody(tail).value.content, ReadBody(tail).value.rest))
  {
    assert (written + tail)[|written|..] == tail;
  }

  /** Whatever characters the words hold, the query reads back as exactly those words. */
  lemma {:induction false} QuotingRoundTrip(fields: seq<string>)
    ensures ReadLiterals(Spaced(QuotedAll(fields))) == Some(fields)
    decreases |fields|
  {
    hide Quoted, Doubled, ReadBody;
    var parts := QuotedAll(fields);
    if |fields| == 1 {
      ReadQuoted(fields[0], "");
      assert Spaced(parts) == Quoted(fields[0]) + "";
      assert [fields[0]] == fields;
    } else if |fields| > 1 {
      QuotingRoundTrip(fields[1..]);
      assert parts[1..] == QuotedAll(fields[1..]);
      var others := Spaced(parts[1..]);
      ReadQuoted(fields[1], "");
      assert others != "" by { assert parts[1..][0] == Quoted(fields[1]); }
      ReadQuoted(fields[0], " " + others);
      assert Spaced(parts) == Quoted(fields[0]) + (" " + others);
      assert (" " + others)[1..] == others;
      assert [fields[0]] + fields[1..] == fields;
    }
  }

  lemma ReadQuoted(f: string, rest: string)
    requires rest == "" || rest[0] != '"'
    ensures var s := Quoted(f) + rest; Quoted(f) != "" && s[0] == '"' && ReadBody(s[1..]) == Some(Body(f, rest))
  {
    hide Doubled, ReadBody;
    ReadDoubled(f, rest);
    assert (Quoted(f) + rest)[1..] == Doubled(f) + "\"" + rest;
  }

  /** The full-text expression for a query: its words as literals, one after the other. */
  function MatchExpression(query: string): string {
    Spaced(QuotedAll(Fields(query)))
  }

  /** The query built word by word. */
  method Fts5MatchQuery(query: string) returns (expression: string)
    ensures expression == MatchExpression(query)
    ensures ReadLiterals(expression).Some? && AreWords(query, ReadLiterals(expression).value)
  {
    WordsOfText(query, Fields(query));
    var fields := Fields(query);
    var parts: seq<string> := [];
    for i := 0 to |fields|
      invariant parts == QuotedAll(fields[..i])
    {
      parts := parts + [Quoted(fields[i])];
    }
    assert fields[..|fields|] == fields;
    QuotingRoundTrip(fields);
    return Spaced(parts);
  }

  // ---------------------------------------------------------------- LIKE

  /** Small letters for capitals, in ASCII only, as SQLite's lower and LIKE see letters. */
  function Folded(s: string): (r: string)
    ensures |r| == |s| && forall i :: 0 <= i < |s| ==> r[i] == Fold(s[i])
  {
    seq(|s|, i requires 0 <= i < |s| => Fold(s[i]))
  }

  function Fold(c: char): char {
    if 'A' <= c <= 'Z' then (c as int + 32) as char else c
  }

  /** The texts are equal but for the case of ASCII letters. */
  ghost predicate SameLetters(s: string, t: string) {
    |s| == |t| && forall i :: 0 <= i < |s| ==> SameLetter(s[i], t[i])
  }

  ghost predicate SameLetter(c: char, d: char) {
    || c == d
    || ('A' <= c <= 'Z' && d as int == c as int + ('a' as int - 'A' as int))
    || ('A' <= d <= 'Z' && c as int == d as int + ('a' as int - 'A' as int))
  }

  /** Folding makes equal exactly the texts that differ in case only. */
  lemma FoldedIff(s: string, t: string)
    ensures Folded(s) == Folded(t) <==> SameLetters(s, t)
  {
    forall c, d
      ensures Fold(c) == Fold(d) <==> SameLetter(c, d)
    {
    }
    if Folded(s) == Folded(t) {
      forall i | 0 <= i < |s|
        ensures SameLetter(s[i], t[i])
      {
        assert Folded(s)[i] == Folded(t)[i];
      }
    }
  }

  /** LIKE compares letters without regard to their ASCII case. */
  predicate Like(pattern: string, s: string) {
    Wild(Folded(pattern), Folded(s))
  }

  /** Pattern matching letter by letter: '%' is any run of characters, '_' any one character. */
  predicate Wild(pattern: string, s: string)
    decreases |pattern| + |s|
  {
    if pattern == "" then s == ""
    else if pattern[0] == '%' then Wild(pattern[1..], s) || (s != "" && Wild(pattern, s[1..]))
    else s != "" && (pattern[0] == '_' || pattern[0] == s[0]) && Wild(pattern[1..], s[1..])
  }

  ghost predicate NoWildcard(q: string) {
    '%' !in q && '_' !in q
  }

  ghost predicate Contains(s: string, q: string) {
    exists i :: 0 <= i <= |s| && q <= s[i..]
  }

  lemma {:induction false} TrailingAny(s: string)
    ensures Wild("%", s)
    decreases |s|
  {
    if s == "" {
      assert "%"[1..] == "";
    } else {
      TrailingAny(s[1..]);
    }
  }

  lemma {:induction false} LikePrefix(q: string, s: string)
    requires NoWildcard(q)
    ensures Wild(q + "%", s) <==> q <= s
    decreases |q|
  {
    if q == "" {
      assert q + "%" == "%";
      TrailingAny(s);
    } else {
      assert (q + "%")[1..] == q[1..] + "%";
      if s != "" {
        LikePrefix(q[1..], s[1..]);
        assert q == [q[0]] + q[1..] && s == [s[0]] + s[1..];
      }
    }
  }

  lemma {:induction false} LikeAnywhere(q: string, s: string)
    requires NoWildcard(q)
    ensures Wild("%" + q + "%", s) <==> Contains(s, q)
    decreases |s|
  {
    var p := "%" + q + "%";
    assert p[1..] == q + "%";
    LikePrefix(q, s);
    assert s[0..] == s;
    if s != "" {
      LikeAnywhere(q, s[1..]);
      forall i | 0 <= i <= |s[1..]|
        ensures s[1..][i..] == s[i + 1..]
      {
      }
      if Contains(s, q) && !(q <= s) {
        var i :| 0 <= i <= |s| && q <= s[i..];
        assert s[1..][i - 1..] == s[i..];
      }
      if i :| 0 <= i <= |s[1..]| && q <= s[1..][i..] {
        assert q <= s[i + 1..];
      }
    }
  }

  /** A text the query matches as a pattern without containing it. */
  function Stripped(q: string): string {
    if q == "" then ""
    else if q[0] == '%' then Stripped(q[1..])
    else [if q[0] == '_' then 'x' else q[0]] + Stripped(q[1..])
  }

  lemma {:induction false} StrippedMatches(q: string)
    ensures NoWildcard(Stripped(q)) && Wild(q + "%", Stripped(q))
    decreases |q|
  {
    if q == "" {
      assert q + "%" == "%";
      TrailingAny("");
    } else {
      StrippedMatches(q[1..]);
      assert (q + "%")[1..] == q[1..] + "%";
      if q[0] != '%' {
        assert Stripped(q)[1..] == Stripped(q[1..]);
      }
    }
  }

  /** The keyword search is a plain substring search, letter case aside, for exactly the queries
      without '%' or '_': the query goes into the pattern unescaped. */
  lemma KeywordMatchIsSubstringIff(q: string)
    ensures (forall s :: Like("%" + q + "%", s) <==> Contains(Folded(s), Folded(q))) <==> NoWildcard(q)
  {
    var f := Folded(q);
    assert Folded("%" + q + "%") == "%" + f + "%";
    FoldKeepsWildcards(q);
    if NoWildcard(q) {
      forall s
        ensures Like("%" + q + "%", s) <==> Contains(Folded(s), f)
      {
        LikeAnywhere(f, Folded(s));
      }
    } else {
      var s := Stripped(f);
      StrippedMatches(f);
      assert ("%" + f + "%")[1..] == f + "%";
      StrippedFolded(f);
      NotContained(s, f);
      assert Like("%" + q + "%", s) && !Contains(Folded(s), f);
    }
  }

  lemma FoldKeepsWildcards(q: string)
    ensures NoWildcard(Folded(q)) <==> NoWildcard(q)
    ensures Folded(Folded(q)) == Folded(q)
  {
    forall i | 0 <= i < |q|
      ensures Folded(q)[i] == '%' <==> q[i] == '%'
      ensures Folded(q)[i] == '_' <==> q[i] == '_'
    {
    }
    assert forall c: char :: c in q ==> Fold(c) in Folded(q);
  }

  lemma {:induction false} StrippedFolded(f: string)
    requires Folded(f) == f
    ensures Folded(Stripped(f)) == Stripped(f)
    decreases |f|
  {
    if f != "" {
      assert forall i :: 0 <= i < |f| ==> Fold(f[i]) == f[i];
      assert Folded(f[1..]) == f[1..];
      StrippedFolded(f[1..]);
    }
  }

  lemma NotContained(s: string, q: string)
    requires NoWildcard(s) && !NoWildcard(q)
    ensures !Contains(s, q)
  {
    var k :| 0 <= k < |q| && (q[k] == '%' || q[k] == '_');
    forall i | 0 <= i <= |s|
      ensures !(q <= s[i..])
    {
      assert i + k < |s| ==> s[i..][k] == s[i + k];
    }
  }
}
