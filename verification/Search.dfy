/** Global search (backend/app/services/search.py): literal matching through LIKE patterns. */
module Search {
  import opened Common

  // ----- Escaping -----

  predicate Special(c: char)
  {
    c == '\\' || c == '%' || c == '_'
  }

  /** str.replace(c, by) for a needle of one character. */
  function Replace(s: string, c: char, put: string): string
  {
    if s == [] then [] else (if s[0] == c then put else [s[0]]) + Replace(s[1..], c, put)
  }

  /** The three replacements, in the order the code makes them. */
  function EscapeLike(value: string): string
  {
    Replace(Replace(Replace(value, '\\', "\\\\"), '%', "\\%"), '_', "\\_")
  }

  /** One pass that puts the escape character before every special character. */
  function Quote(s: string): string
  {
    if s == [] then [] else (if Special(s[0]) then ['\\', s[0]] else [s[0]]) + Quote(s[1..])
  }

  lemma {:induction false} ReplaceConcat(a: string, b: string, c: char, put: string)
    ensures Replace(a + b, c, put) == Replace(a, c, put) + Replace(b, c, put)
  {
    if a == [] {
      assert a + b == b;
    } else {
      var first := if a[0] == c then put else [a[0]];
      assert (a + b)[0] == a[0] && (a + b)[1..] == a[1..] + b;
      ReplaceConcat(a[1..], b, c, put);
      assert first + (Replace(a[1..], c, put) + Replace(b, c, put)) ==
        (first + Replace(a[1..], c, put)) + Replace(b, c, put);
    }
  }

  /** No later replacement touches what an earlier one inserted. */
  lemma {:induction false} EscapeIsOnePass(s: string)
    ensures EscapeLike(s) == Quote(s)
  {
    if s != [] {
      EscapeIsOnePass(s[1..]);
      var first := if s[0] == '\\' then "\\\\" else [s[0]];
      var second := Replace(first, '%', "\\%");
      var tail1 := Replace(s[1..], '\\', "\\\\");
      var tail2 := Replace(tail1, '%', "\\%");
      ReplaceConcat(first, tail1, '%', "\\%");
      ReplaceConcat(second, tail2, '_', "\\_");
      assert Replace(second, '_', "\\_") == (if Special(s[0]) then ['\\', s[0]] else [s[0]]) by {
        OneOrTwo(first, '%', "\\%");
        OneOrTwo(second, '_', "\\_");
      }
    }
  }

  lemma OneOrTwo(s: string, c: char, put: string)
    ensures |s| == 1 ==> Replace(s, c, put) == if s[0] == c then put else s
    ensures |s| == 2 ==> Replace(s, c, put) == (if s[0] == c then put else [s[0]]) + (if s[1] == c then put else [s[1]])
  {
  }

  // ----- The LIKE predicate with escape character '\' -----

  /** Section 8.5 of ISO/IEC 9075-2: the escape character stands before a special character. */
  predicate WellFormed(p: string)
  {
    p == [] || (if p[0] == '\\' then |p| > 1 && Special(p[1]) && WellFormed(p[2..]) else WellFormed(p[1..]))
  }

  /** '%' matches any run of characters, '_' any one character, an escaped character itself. */
  predicate Like(p: string, s: string)
    decreases |p| + |s|
  {
    if p == [] then s == []
    else if p[0] == '%' then Like(p[1..], s) || (s != [] && Like(p, s[1..]))
    else if p[0] == '\\' then |p| > 1 && s != [] && s[0] == p[1] && Like(p[2..], s[1..])
    else s != [] && (p[0] == '_' || p[0] == s[0]) && Like(p[1..], s[1..])
  }

  /** ILIKE compares after folding the case of both operands. */
  predicate ILike(p: string, s: string, fold: char -> char)
  {
    Like(MapChars(fold, p), MapChars(fold, s))
  }

  /** q occurs in s at offset k. */
  predicate OccursAt(q: string, s: string, k: nat)
  {
    k + |q| <= |s| && s[k..k + |q|] == q
  }

  predicate Contains(s: string, q: string)
  {
    exists k: nat :: k <= |s| && OccursAt(q, s, k)
  }

  /** A case folding that neither moves a special character nor makes one. */
  ghost predicate KeepsSpecials(fold: char -> char)
  {
    forall c :: (Special(c) || Special(fold(c))) ==> fold(c) == c
  }

  // ----- The escaped pattern is literal -----

  lemma QuoteStep(q: string, rest: string, s: string)
    requires q != []
    ensures Like(Quote(q) + rest, s) <==> s != [] && s[0] == q[0] && Like(Quote(q[1..]) + rest, s[1..])
    ensures WellFormed(Quote(q) + rest) <==> WellFormed(Quote(q[1..]) + rest)
  {
    var tail := Quote(q[1..]) + rest;
    if Special(q[0]) {
      assert Quote(q) + rest == ['\\', q[0]] + tail;
      assert (['\\', q[0]] + tail)[2..] == tail;
    } else {
      assert Quote(q) + rest == [q[0]] + tail;
      assert ([q[0]] + tail)[1..] == tail;
    }
  }

  lemma {:induction false} QuoteThenRest(q: string, rest: string, s: string)
    ensures Like(Quote(q) + rest, s) <==> q <= s && Like(rest, s[|q|..])
    ensures WellFormed(rest) ==> WellFormed(Quote(q) + rest)
  {
    if q == [] {
      assert Quote(q) + rest == rest && s[0..] == s;
    } else {
      QuoteStep(q, rest, s);
      QuoteThenRest(q[1..], rest, if s == [] then s else s[1..]);
      if s != [] {
        assert q == [q[0]] + q[1..] && s == [s[0]] + s[1..];
        if q <= s {
          assert s[1..][|q| - 1..] == s[|q|..];
          assert q[1..] <= s[1..];
        }
      }
    }
  }

  lemma {:induction false} PercentMatchesAnything(s: string)
    ensures Like("%", s)
  {
    if s != [] {
      PercentMatchesAnything(s[1..]);
    }
  }

  lemma {:induction false} LeadingPercent(p: string, s: string)
    ensures Like("%" + p, s) <==> exists k: nat :: k <= |s| && Like(p, s[k..])
    decreases |s|
  {
    assert ("%" + p)[1..] == p && s[0..] == s;
    if s != [] {
      LeadingPercent(p, s[1..]);
      forall k: nat | k <= |s[1..]| ensures s[1..][k..] == s[k + 1..] {}
      if k: nat :| k <= |s| && Like(p, s[k..]) && k > 0 {
        assert s[1..][k - 1..] == s[k..];
      }
    }
  }

  lemma QuotedIsSubstring(q: string, s: string)
    ensures Like("%" + Quote(q) + "%", s) <==> Contains(s, q)
  {
    assert "%" + Quote(q) + "%" == "%" + (Quote(q) + "%");
    LeadingPercent(Quote(q) + "%", s);
    forall k: nat | k <= |s|
      ensures Like(Quote(q) + "%", s[k..]) <==> OccursAt(q, s, k)
    {
      QuoteThenRest(q, "%", s[k..]);
      if |q| <= |s[k..]| {
        PercentMatchesAnything(s[k..][|q|..]);
        assert s[k..][..|q|] == s[k..k + |q|];
      }
    }
  }

  /** Main result: "%" + _escape_like(q) + "%" is a well formed pattern that means "contains q". */
  lemma EscapedPatternIsLiteral(q: string, s: string)
    ensures WellFormed("%" + EscapeLike(q) + "%")
    ensures Like("%" + EscapeLike(q) + "%", s) <==> Contains(s, q)
  {
    EscapeIsOnePass(q);
    QuotedIsSubstring(q, s);
    QuoteThenRest(q, "%", s);
    assert WellFormed("%" + (Quote(q) + "%"));
    assert "%" + (Quote(q) + "%") == "%" + Quote(q) + "%";
  }

  lemma {:induction false} FoldQuote(q: string, fold: char -> char)
    requires KeepsSpecials(fold)
    ensures MapChars(fold, Quote(q)) == Quote(MapChars(fold, q))
  {
    if q != [] {
      FoldQuote(q[1..], fold);
      assert MapChars(fold, q)[1..] == MapChars(fold, q[1..]);
    }
  }

  /** The same for ILIKE: the row contains the term when the case of both is folded. */
  lemma EscapedILikeIsLiteral(q: string, s: string, fold: char -> char)
    requires KeepsSpecials(fold)
    ensures ILike("%" + EscapeLike(q) + "%", s, fold) <==> Contains(MapChars(fold, s), MapChars(fold, q))
  {
    EscapeIsOnePass(q);
    FoldQuote(q, fold);
    assert fold('%') == '%';
    assert MapChars(fold, "%" + Quote(q) + "%") == "%" + MapChars(fold, Quote(q)) + "%";
    QuotedIsSubstring(MapChars(fold, q), MapChars(fold, s));
  }

  /** Without the escaping the theorem fails: "a_c" would also find "abc". */
  lemma RawPatternIsNotLiteral()
    ensures Like("%" + "a_c" + "%", "abc") && !Contains("abc", "a_c")
  {
    var p := "%a_c%";
    assert p[1..] == "a_c%" && "a_c%"[1..] == "_c%" && "_c%"[1..] == "c%" && "c%"[1..] == "%";
    PercentMatchesAnything([]);
    assert Like("%", "");
    assert "abc"[1..] == "bc" && "bc"[1..] == "c" && "c"[1..] == "";
    assert Like("c%", "c") && Like("_c%", "bc") && Like("a_c%", "abc");
    assert "%" + "a_c" + "%" == p;
  }

  // ----- run_search -----

  /** One joined (resource, environment) row: the five searched columns and the environment. */
  datatype RawRow = Row(resourceId: string, environmentId: string, columns: seq<string>)
  type Row = r: RawRow | |r.columns| == Columns witness Row("", "", ["", "", "", "", ""])
  datatype Filter = Filter(column: nat, pattern: string)

  const Aliases: map<string, string> :=
    map["ao" := "orchestrator", "automation orchestrator" := "orchestrator", "syntara" := "orchestrator"]

  const Columns: nat := 5

  function AliasKey(query: string): string
  {
    MapChars(AsciiLower, Trim(query, PythonSpace))
  }

  method SearchTerms(query: string) returns (terms: seq<string>)
    ensures forall t :: t in terms <==> IsTerm(query, t)
    ensures forall i, j :: 0 <= i < j < |terms| ==> terms[i] != terms[j]
    ensures terms != [] && terms[0] == query
  {
    terms := [query];
    if AliasKey(query) in Aliases {
      var alias := Aliases[AliasKey(query)];
      if alias !in terms {
        terms := terms + [alias];
      }
    }
  }

  method BuildFilters(query: string) returns (filters: seq<Filter>)
    ensures forall f :: f in filters ==> f.column < Columns && WellFormed(f.pattern)
    ensures FiltersOf(query, filters)
  {
    var terms := SearchTerms(query);
    filters := [];
    for i := 0 to |terms|
      invariant forall f :: f in filters <==>
        f.column < Columns && exists k :: 0 <= k < i && f.pattern == "%" + EscapeLike(terms[k]) + "%"
    {
      var escaped := EscapeLike(terms[i]);
      for column := 0 to Columns
        invariant forall f :: f in filters <==>
          (f.column < Columns && exists k :: 0 <= k < i && f.pattern == "%" + EscapeLike(terms[k]) + "%") ||
          (f.column < column && f.pattern == "%" + escaped + "%")
      {
        filters := filters + [Filter(column, "%" + escaped + "%")];
      }
    }
    forall f: Filter ensures f in filters <==> IsFilter(query, f) {
      if t :| IsTerm(query, t) && f.pattern == "%" + EscapeLike(t) + "%" {
        assert t in terms;
      }
    }
    forall f | f in filters ensures WellFormed(f.pattern) {
      var t :| IsTerm(query, t) && f.pattern == "%" + EscapeLike(t) + "%";
      EscapedPatternIsLiteral(t, []);
    }
  }

  predicate IsTerm(query: string, t: string)
  {
    t == query || (AliasKey(query) in Aliases && t == Aliases[AliasKey(query)])
  }

  /** A filter per term and column, with the escaped term between two percent signs. */
  ghost predicate IsFilter(query: string, f: Filter)
  {
    f.column < Columns && exists t :: IsTerm(query, t) && f.pattern == "%" + EscapeLike(t) + "%"
  }

  /** What the user asked for: one of the columns contains one of the terms, case folded. */
  ghost predicate Wanted(query: string, row: Row, fold: char -> char)
  {
    exists t, c :: IsTerm(query, t) && 0 <= c < Columns && Contains(MapChars(fold, row.columns[c]), MapChars(fold, t))
  }

  predicate Visible(row: Row, environmentIds: Option<seq<string>>)
  {
    environmentIds.None? || row.environmentId in (if environmentIds.value == [] then [""] else environmentIds.value)
  }

  predicate Selected(row: Row, filters: seq<Filter>, fold: char -> char)
    requires forall f :: f in filters ==> f.column < Columns
  {
    exists f :: f in filters && ILike(f.pattern, row.columns[f.column], fold)
  }

  ghost predicate FiltersOf(query: string, filters: seq<Filter>)
  {
    forall f :: f in filters <==> IsFilter(query, f)
  }

  lemma SelectedIsWanted(query: string, row: Row, filters: seq<Filter>, fold: char -> char)
    requires KeepsSpecials(fold) && FiltersOf(query, filters)
    requires forall f :: f in filters ==> f.column < Columns
    ensures Selected(row, filters, fold) <==> Wanted(query, row, fold)
  {
    if Selected(row, filters, fold) {
      var f :| f in filters && ILike(f.pattern, row.columns[f.column], fold);
      assert IsFilter(query, f);
      var t :| IsTerm(query, t) && f.pattern == "%" + EscapeLike(t) + "%";
      EscapedILikeIsLiteral(t, row.columns[f.column], fold);
    }
    if Wanted(query, row, fold) {
      var t, c :| IsTerm(query, t) && 0 <= c < Columns && Contains(MapChars(fold, row.columns[c]), MapChars(fold, t));
      var f := Filter(c, "%" + EscapeLike(t) + "%");
      EscapedILikeIsLiteral(t, row.columns[c], fold);
      assert IsFilter(query, f);
      assert f in filters;
    }
  }

  /** How the database answers the statement the code builds. */
  function Execute(rows: seq<Row>, filters: seq<Filter>, environmentIds: Option<seq<string>>,
                   fold: char -> char): seq<Row>
    requires forall f :: f in filters ==> f.column < Columns
  {
    if rows == [] then []
    else
      (if Selected(rows[0], filters, fold) && Visible(rows[0], environmentIds) then [rows[0]] else []) +
      Execute(rows[1..], filters, environmentIds, fold)
  }

  /** The wanted and visible rows, in the order of the statement. */
  ghost function Answer(rows: seq<Row>, query: string, environmentIds: Option<seq<string>>,
                        fold: char -> char): (r: seq<Row>)
    ensures forall x :: x in r <==> x in rows && Wanted(query, x, fold) && Visible(x, environmentIds)
  {
    if rows == [] then []
    else
      (if Wanted(query, rows[0], fold) && Visible(rows[0], environmentIds) then [rows[0]] else []) +
      Answer(rows[1..], query, environmentIds, fold)
  }

  lemma {:induction false} ExecuteIsAnswer(rows: seq<Row>, query: string, filters: seq<Filter>,
                                           environmentIds: Option<seq<string>>, fold: char -> char)
    requires KeepsSpecials(fold)
    requires FiltersOf(query, filters) && forall f :: f in filters ==> f.column < Columns
    ensures Execute(rows, filters, environmentIds, fold) == Answer(rows, query, environmentIds, fold)
  {
    if rows != [] {
      SelectedIsWanted(query, rows[0], filters, fold);
      ExecuteIsAnswer(rows[1..], query, filters, environmentIds, fold);
    }
  }

  /** Main result: a search returns exactly the first rows in which a term occurs literally. */
  method RunSearch(rows: seq<Row>, query: string, environmentIds: Option<seq<string>>, limit: nat, fold: char -> char)
    returns (results: seq<Row>)
    requires KeepsSpecials(fold)
    ensures var answer := Answer(rows, query, environmentIds, fold);
      results == if limit < |answer| then answer[..limit] else answer
  {
    var filters := BuildFilters(query);
    var found := Execute(rows, filters, environmentIds, fold);
    ExecuteIsAnswer(rows, query, filters, environmentIds, fold);
    results := if limit < |found| then found[..limit] else found;
  }

  /** Rows of invisible environments never appear: with a list of environments each result belongs to one
      of them, and with an empty list there is none. Without a list visibility plays no part. */
  lemma ResultsAreVisible(rows: seq<Row>, query: string, environmentIds: Option<seq<string>>, fold: char -> char,
                          x: Row)
    requires forall r :: r in rows ==> r.environmentId != ""
    ensures x in Answer(rows, query, environmentIds, fold) <==>
      x in Answer(rows, query, None, fold) && (environmentIds.Some? ==> x.environmentId in environmentIds.value)
    ensures environmentIds == Some([]) ==> x !in Answer(rows, query, environmentIds, fold)
  {
  }

  /** The answer keeps the order and the number of the rows: without one that does not match, it is the
      answer of the rest. */
  lemma {:induction false} AnswerConcat(a: seq<Row>, b: seq<Row>, query: string, environmentIds: Option<seq<string>>,
                                        fold: char -> char)
    ensures Answer(a + b, query, environmentIds, fold) ==
      Answer(a, query, environmentIds, fold) + Answer(b, query, environmentIds, fold)
  {
    if a == [] {
      assert a + b == b;
    } else {
      var first := if Wanted(query, a[0], fold) && Visible(a[0], environmentIds) then [a[0]] else [];
      assert (a + b)[0] == a[0] && (a + b)[1..] == a[1..] + b;
      AnswerConcat(a[1..], b, query, environmentIds, fold);
      assert first + (Answer(a[1..], query, environmentIds, fold) + Answer(b, query, environmentIds, fold)) ==
        (first + Answer(a[1..], query, environmentIds, fold)) + Answer(b, query, environmentIds, fold);
    }
  }

  /** The names the estate goes by, in any case and with outer spaces: each also finds "orchestrator". */
  lemma AliasesFindOrchestrator(query: string)
    requires AliasKey(query) in {"ao", "automation orchestrator", "syntara"}
    ensures IsTerm(query, "orchestrator") && IsTerm(query, query)
  {
  }

  lemma KnownAliasKeys()
    ensures AliasKey(" AO ") == "ao" && AliasKey("Syntara") == "syntara"
  {
    assert " AO "[1..] == "AO " && "AO "[..2] == "AO";
    assert Trimmed("AO", PythonSpace) && Trimmed("Syntara", PythonSpace);
    assert MapChars(AsciiLower, "AO") == "ao";
    assert MapChars(AsciiLower, "Syntara") == "syntara";
  }
}
