/**
 * What the search driver promises about the results file and the console:
 * the tuned similarity parameters and field boosts, blank query lines that
 * cost no query number, a query number that counts the queries answered
 * without an exception, ranks that restart at 1 for each query and climb by
 * one up to at most 50, and result lines that split back into their six
 * fields.
 */
module SearchFilesProperties {
  import opened JavaStrings
  import opened IndexFiles
  import opened SearchFiles

  /** The parameters `setSimilarity` tunes, and the models with defaults. */
  lemma TunedSimilarities()
    ensures SetSimilarity(0) == Success(Classic)
    ensures SetSimilarity(1) == Success(BM25(1.2, 0.75))
    ensures SetSimilarity(2) == Success(Boolean)
    ensures SetSimilarity(3) == Success(LMDirichlet)
    ensures SetSimilarity(4) == Success(LMJelinekMercer(0.7))
  {
  }

  /** Every query field is boosted, titles most, then authors, then contents at the standard weight. */
  lemma FieldBoosts()
    ensures Boosts.Keys == set f | f in QueryFields
    ensures Boosts["title"] == 2.0 && Boosts["author"] == 1.5 && Boosts["contents"] == 1.0
  {
    assert QueryFields[0] == "title" && QueryFields[1] == "author" && QueryFields[2] == "contents";
  }

  /** `main` with an invalid score type: nothing written, one console line, and the exception. */
  lemma InvalidScoreTypeWritesNothing(scoreType: int, queries: seq<string>, engine: Engine)
    requires scoreType < 0 || 4 < scoreType
    ensures Search(scoreType, queries, engine) == SearchRun([], ["Invalid score type"], Some("Invalid score type"))
  {
  }

  /** `main` with a valid score type reads every query under the model it names. */
  lemma ValidScoreTypeRunsQueries(scoreType: int, queries: seq<string>, engine: Engine)
    requires 0 <= scoreType <= 4
    ensures var run, similarity := Search(scoreType, queries, engine), SetSimilarity(scoreType).value;
      && ScoreTypeOf(similarity) == scoreType
      && run.thrown == None
      && run.output == Batch(queries, 1, similarity, engine).output
      && run.console == Batch(queries, 1, similarity, engine).console
  {
  }

  /** The lines of the queries file that hold a query once trimmed. */
  function NonBlank(queries: seq<string>): (r: seq<string>)
    ensures |r| <= |queries|
    ensures forall k :: 0 <= k < |r| ==> Trim(r[k]) != []
    decreases |queries|
  {
    if queries == [] then []
    else if Trim(queries[0]) == [] then NonBlank(queries[1..])
    else [queries[0]] + NonBlank(queries[1..])
  }

  /** Blank lines are skipped: they change neither the output, nor the console, nor the query number. */
  lemma {:induction false} BlankLinesSkipped(queries: seq<string>, queryNumber: nat, similarity: Similarity, engine: Engine)
    ensures Batch(queries, queryNumber, similarity, engine) == Batch(NonBlank(queries), queryNumber, similarity, engine)
    decreases |queries|
  {
    if queries != [] {
      var query := Trim(queries[0]);
      if query == [] {
        BlankLinesSkipped(queries[1..], queryNumber, similarity, engine);
      } else {
        var a := Respond(query, queryNumber, similarity, engine);
        var n := if a.error.None? then queryNumber + 1 else queryNumber;
        BlankLinesSkipped(queries[1..], n, similarity, engine);
        var kept := NonBlank(queries);
        assert kept == [queries[0]] + NonBlank(queries[1..]);
        assert kept[0] == queries[0] && kept[1..] == NonBlank(queries[1..]);
      }
    }
  }

  /**
   * Whether the query `query` is answered without an exception, stated
   * without the hit loop: the query parses and searches, and every one of
   * the top hits has a stored document.
   */
  predicate Succeeds(query: string, similarity: Similarity, engine: Engine)
  {
    match engine.search(similarity, engine.escape(query))
    case None => false
    case Some(ranking) =>
      var top := TopHits(ranking);
      forall k :: 0 <= k < |top| ==> engine.stored(top[k].doc).Some?
  }

  /**
   * One query's answer: the top hits in ranking order, ranked from 1 and
   * numbered with the current query number, as many of them as come before
   * the first hit without a stored document; a diagnostic exactly when the
   * query does not succeed.
   */
  lemma AnswerListsTopHits(query: string, queryNumber: nat, similarity: Similarity, engine: Engine)
    ensures var a := Respond(query, queryNumber, similarity, engine);
      && |a.lines| <= 50
      && (a.error.None? <==> Succeeds(query, similarity, engine))
      && (a.error.Some? ==> a.error.value == "Error parsing query: " + engine.escape(query))
    ensures var a, found := Respond(query, queryNumber, similarity, engine), engine.search(similarity, engine.escape(query));
      && (found.None? ==> a.lines == [])
      && (found.Some? ==>
            var top := TopHits(found.value);
            && |a.lines| <= |top|
            && (a.error.None? ==> |a.lines| == |top|)
            && (a.error.Some? ==> engine.stored(top[|a.lines|].doc).None?)
            && forall k :: 0 <= k < |a.lines| ==>
                 a.lines[k] == ResultLine(queryNumber, DocIdOf(engine.stored(top[k].doc).value), k + 1, top[k].score))
  {
  }

  /** The number of lines of `queries` that hold a query. */
  function QueryCount(queries: seq<string>): (n: nat)
    ensures n <= |queries|
    decreases |queries|
  {
    if queries == [] then 0
    else (if Trim(queries[0]) == [] then 0 else 1) + QueryCount(queries[1..])
  }

  /** The number of lines of `queries` that hold a query that succeeds. */
  function SuccessCount(queries: seq<string>, similarity: Similarity, engine: Engine): (n: nat)
    ensures n <= QueryCount(queries)
    decreases |queries|
  {
    if queries == [] then 0
    else
      var query := Trim(queries[0]);
      (if query != [] && Succeeds(query, similarity, engine) then 1 else 0) + SuccessCount(queries[1..], similarity, engine)
  }

  /**
   * The query number advances once per query that succeeds and for nothing
   * else; the console gets one line per query that throws.
   */
  lemma {:induction false} QueryNumberCountsSuccesses(queries: seq<string>, queryNumber: nat, similarity: Similarity, engine: Engine)
    ensures var b := Batch(queries, queryNumber, similarity, engine);
      && b.next == queryNumber + SuccessCount(queries, similarity, engine)
      && |b.console| == QueryCount(queries) - SuccessCount(queries, similarity, engine)
    decreases |queries|
  {
    if queries != [] {
      var query := Trim(queries[0]);
      if query == [] {
        QueryNumberCountsSuccesses(queries[1..], queryNumber, similarity, engine);
      } else {
        var a := Respond(query, queryNumber, similarity, engine);
        AnswerListsTopHits(query, queryNumber, similarity, engine);
        var n := if a.error.None? then queryNumber + 1 else queryNumber;
        QueryNumberCountsSuccesses(queries[1..], n, similarity, engine);
      }
    }
  }

  /** A line of a query numbered between `lo` and `hi`, ranked at most 50. */
  ghost predicate Within(line: ResultLine, lo: nat, hi: nat)
  {
    lo <= line.queryNumber <= hi && 1 <= line.rank <= 50
  }

  /**
   * `line` may come right after `prev`: the query number does not go down,
   * and either a new query starts at rank 1 or the same query goes on with
   * the next rank.
   */
  ghost predicate Follows(prev: ResultLine, line: ResultLine)
  {
    && prev.queryNumber <= line.queryNumber
    && (line.rank == 1 || (line.queryNumber == prev.queryNumber && line.rank == prev.rank + 1))
  }

  /**
   * The numbering of a results file: every line within `lo` and `hi`, the
   * first line ranked 1, and each later line following the one before it.
   */
  ghost predicate Numbered(output: seq<ResultLine>, lo: nat, hi: nat)
  {
    && (forall k :: 0 <= k < |output| ==> Within(output[k], lo, hi))
    && (output != [] ==> output[0].rank == 1)
    && (forall k :: 0 < k < |output| ==> Follows(output[k - 1], output[k]))
  }

  /** Two numbered stretches, the second starting where the first may end, make one. */
  lemma NumberedAppend(x: seq<ResultLine>, y: seq<ResultLine>, lo: nat, mid: nat, hi: nat)
    requires lo <= mid <= hi && Numbered(x, lo, mid) && Numbered(y, mid, hi)
    ensures Numbered(x + y, lo, hi)
  {
    var xy := x + y;
    forall k | 0 <= k < |xy|
      ensures Within(xy[k], lo, hi)
    {
      if k < |x| {
        assert xy[k] == x[k] && Within(x[k], lo, mid);
      } else {
        assert xy[k] == y[k - |x|] && Within(y[k - |x|], mid, hi);
      }
    }
    forall k | 0 < k < |xy|
      ensures Follows(xy[k - 1], xy[k])
    {
      if k < |x| {
        assert xy[k - 1] == x[k - 1] && xy[k] == x[k];
      } else if k == |x| {
        assert xy[k - 1] == x[k - 1] && xy[k] == y[0];
      } else {
        assert xy[k - 1] == y[k - 1 - |x|] && xy[k] == y[k - |x|];
      }
    }
  }

  /** The lines of one query are numbered with its query number. */
  lemma AnswerNumbered(query: string, queryNumber: nat, similarity: Similarity, engine: Engine)
    ensures Numbered(Respond(query, queryNumber, similarity, engine).lines, queryNumber, queryNumber)
  {
    AnswerListsTopHits(query, queryNumber, similarity, engine);
  }

  /**
   * The query loop over two files one after the other is the loop over their
   * concatenation: the second part starts with the query number the first
   * part leaves.
   */
  lemma {:induction false} BatchAppend(a: seq<string>, b: seq<string>, queryNumber: nat, similarity: Similarity, engine: Engine)
    ensures var x := Batch(a, queryNumber, similarity, engine);
      var y := Batch(b, x.next, similarity, engine);
      Batch(a + b, queryNumber, similarity, engine) == Report(x.output + y.output, x.console + y.console, y.next)
    decreases |a|
  {
    if a == [] {
      assert a + b == b;
    } else {
      var ab := a + b;
      assert ab[0] == a[0] && ab[1..] == a[1..] + b;
      var query := Trim(a[0]);
      if query == [] {
        BatchAppend(a[1..], b, queryNumber, similarity, engine);
      } else {
        var ans := Respond(query, queryNumber, similarity, engine);
        var n := if ans.error.None? then queryNumber + 1 else queryNumber;
        var r := Batch(a[1..], n, similarity, engine);
        var y := Batch(b, r.next, similarity, engine);
        var ry := Batch(a[1..] + b, n, similarity, engine);
        BatchAppend(a[1..], b, n, similarity, engine);
        assert ry == Report(r.output + y.output, r.console + y.console, y.next);
        assert Batch(a, queryNumber, similarity, engine) == Report(ans.lines + r.output, Diagnostics(ans) + r.console, r.next);
        assert Batch(ab, queryNumber, similarity, engine) == Report(ans.lines + ry.output, Diagnostics(ans) + ry.console, ry.next);
        Associative(ans.lines, r.output, y.output);
        Associative(Diagnostics(ans), r.console, y.console);
      }
    }
  }

  /**
   * The query on line `i` is answered under query number `queryNumber` plus
   * the number of queries before it that succeeded: its result lines follow
   * those of the lines before it, and its diagnostic follows theirs.
   */
  lemma QueryAnsweredWith(queries: seq<string>, i: nat, queryNumber: nat, similarity: Similarity, engine: Engine)
    requires i < |queries| && Trim(queries[i]) != []
    ensures var x := Batch(queries[..i], queryNumber, similarity, engine);
      var a := Respond(Trim(queries[i]), x.next, similarity, engine);
      && x.next == queryNumber + SuccessCount(queries[..i], similarity, engine)
      && Batch(queries[..i + 1], queryNumber, similarity, engine).output == x.output + a.lines
      && Batch(queries[..i + 1], queryNumber, similarity, engine).console == x.console + Diagnostics(a)
  {
    TakeSnoc(queries, i);
    BatchSnoc(queries[..i], queries[i], queryNumber, similarity, engine);
    QueryNumberCountsSuccesses(queries[..i], queryNumber, similarity, engine);
  }

  /** Taking one more element of `s` appends that element. */
  lemma TakeSnoc<T>(s: seq<T>, i: nat)
    requires i < |s|
    ensures s[..i + 1] == s[..i] + [s[i]]
  {
  }

  /** The query loop over `init` and then one more line that holds a query. */
  lemma BatchSnoc(init: seq<string>, line: string, queryNumber: nat, similarity: Similarity, engine: Engine)
    requires Trim(line) != []
    ensures var x := Batch(init, queryNumber, similarity, engine);
      var a := Respond(Trim(line), x.next, similarity, engine);
      && Batch(init + [line], queryNumber, similarity, engine).output == x.output + a.lines
      && Batch(init + [line], queryNumber, similarity, engine).console == x.console + Diagnostics(a)
  {
    var x := Batch(init, queryNumber, similarity, engine);
    BatchOne(line, x.next, similarity, engine);
    BatchAppend(init, [line], queryNumber, similarity, engine);
  }

  /** A queries file of one line that holds a query. */
  lemma BatchOne(line: string, queryNumber: nat, similarity: Similarity, engine: Engine)
    requires Trim(line) != []
    ensures var a := Respond(Trim(line), queryNumber, similarity, engine);
      Batch([line], queryNumber, similarity, engine)
        == Report(a.lines, Diagnostics(a), if a.error.None? then queryNumber + 1 else queryNumber)
  {
    var a := Respond(Trim(line), queryNumber, similarity, engine);
    assert [line][1..] == [];
    assert a.lines + [] == a.lines;
    assert Diagnostics(a) + [] == Diagnostics(a);
  }

  /**
   * The whole results file is numbered: query numbers run from the first one
   * up to the number after the last query, never going down, and every
   * query's ranks run 1, 2, ... up to at most 50.
   */
  lemma {:induction false} ResultsNumbered(queries: seq<string>, queryNumber: nat, similarity: Similarity, engine: Engine)
    ensures var b := Batch(queries, queryNumber, similarity, engine);
      queryNumber <= b.next && Numbered(b.output, queryNumber, b.next)
    decreases |queries|
  {
    if queries != [] {
      var query := Trim(queries[0]);
      if query == [] {
        ResultsNumbered(queries[1..], queryNumber, similarity, engine);
      } else {
        var a := Respond(query, queryNumber, similarity, engine);
        var n := if a.error.None? then queryNumber + 1 else queryNumber;
        var r := Batch(queries[1..], n, similarity, engine);
        ResultsNumbered(queries[1..], n, similarity, engine);
        AnswerNumbered(query, queryNumber, similarity, engine);
        assert Numbered(r.output, queryNumber, r.next) by {
          assert forall k :: 0 <= k < |r.output| ==> n <= r.output[k].queryNumber;
        }
        NumberedAppend(a.lines, r.output, queryNumber, queryNumber, r.next);
      }
    }
  }

  /** Every result line of `main` has a query number of at least 1 and a rank between 1 and 50. */
  lemma NumbersAndRanksInRange(scoreType: int, queries: seq<string>, engine: Engine)
    ensures var run := Search(scoreType, queries, engine);
      forall k :: 0 <= k < |run.output| ==> 1 <= run.output[k].queryNumber && 1 <= run.output[k].rank <= 50
  {
    var similarity := SetSimilarity(scoreType);
    if similarity.Success? {
      ResultsNumbered(queries, 1, similarity.value, engine);
    }
  }

  /** The fields of a line, split at every space (`line.split(" ", -1)`). */
  function Fields(s: string): (r: seq<string>)
    ensures r != []
    decreases |s|
  {
    if s == [] then [""]
    else
      var rest := Fields(s[1..]);
      if s[0] == ' ' then [""] + rest else [[s[0]] + rest[0]] + rest[1..]
  }

  /** A string without spaces is one field. */
  lemma {:induction false} FieldsOfWord(w: string)
    requires ' ' !in w
    ensures Fields(w) == [w]
    decreases |w|
  {
    if w != [] {
      FieldsOfWord(w[1..]);
      assert [w[0]] + w[1..] == w;
    }
  }

  /** Appending a space and a word without spaces appends one field. */
  lemma {:induction false} FieldsOfSnoc(s: string, w: string)
    requires ' ' !in w
    ensures Fields(s + " " + w) == Fields(s) + [w]
    decreases |s|
  {
    var t := s + " " + w;
    if s == [] {
      assert t == " " + w && t[1..] == w;
      FieldsOfWord(w);
    } else {
      FieldsOfSnoc(s[1..], w);
      assert t[0] == s[0] && t[1..] == s[1..] + " " + w;
    }
  }

  /** Decimal numerals hold no space. */
  lemma NumeralHasNoSpace(n: nat)
    ensures ' ' !in NatToString(n)
  {
  }

  /** Six words without spaces, joined by single spaces, split back into the six words. */
  lemma FieldsOfSix(w0: string, w1: string, w2: string, w3: string, w4: string, w5: string)
    requires ' ' !in w0 && ' ' !in w1 && ' ' !in w2 && ' ' !in w3 && ' ' !in w4 && ' ' !in w5
    ensures Fields(w0 + " " + w1 + " " + w2 + " " + w3 + " " + w4 + " " + w5) == [w0, w1, w2, w3, w4, w5]
  {
    FieldsOfWord(w0);
    var s1 := w0 + " " + w1;
    FieldsOfSnoc(w0, w1);
    assert Fields(s1) == [w0, w1];
    var s2 := s1 + " " + w2;
    FieldsOfSnoc(s1, w2);
    assert Fields(s2) == [w0, w1, w2];
    var s3 := s2 + " " + w3;
    FieldsOfSnoc(s2, w3);
    assert Fields(s3) == [w0, w1, w2, w3];
    var s4 := s3 + " " + w4;
    FieldsOfSnoc(s3, w4);
    assert Fields(s4) == [w0, w1, w2, w3, w4];
    FieldsOfSnoc(s4, w5);
  }

  /**
   * The layout of a result line: it splits at its spaces into exactly the
   * query number, "0", the document id, the rank, the score and
   * "STANDARD", provided the document id and the printed score hold no
   * space.
   */
  lemma RenderLayout(line: ResultLine, formatScore: real -> string)
    requires ' ' !in line.docID && ' ' !in formatScore(line.score)
    ensures Fields(Render(line, formatScore))
      == [NatToString(line.queryNumber), "0", line.docID, NatToString(line.rank), formatScore(line.score), "STANDARD"]
  {
    var qn, id, rank, score := NatToString(line.queryNumber), line.docID, NatToString(line.rank), formatScore(line.score);
    NumeralHasNoSpace(line.queryNumber);
    NumeralHasNoSpace(line.rank);
    assert qn + " 0 " == qn + " " + "0" + " ";
    assert Render(line, formatScore) == qn + " " + "0" + " " + id + " " + rank + " " + score + " " + "STANDARD";
    FieldsOfSix(qn, "0", id, rank, score, "STANDARD");
  }

  /** The query number and the rank read back from the fields of a result line. */
  lemma RenderReadsBack(line: ResultLine, formatScore: real -> string)
    requires ' ' !in line.docID && ' ' !in formatScore(line.score)
    ensures var f := Fields(Render(line, formatScore));
      && |f| == 6 && f[2] == line.docID && f[4] == formatScore(line.score)
      && IsDigits(f[0]) && ParseNat(f[0]) == line.queryNumber
      && IsDigits(f[3]) && ParseNat(f[3]) == line.rank
  {
    RenderLayout(line, formatScore);
  }

  /** An index of two documents where only "cats" parses and finds both. */
  const CatsEngine: Engine := Engine(
    q => q,
    (similarity, q) => if q == "cats" then Some([Hit(0, 1.5), Hit(1, 0.5)]) else None,
    d => if d == 0 then Some(MakeDocument("1", "Cats ", "", "")) else Some(MakeDocument("2", "", "", "cats ")))

  /** The two stored documents of the example index, by their ids. */
  lemma CatsDocuments()
    ensures CatsEngine.stored(0).Some? && DocIdOf(CatsEngine.stored(0).value) == "1"
    ensures CatsEngine.stored(1).Some? && DocIdOf(CatsEngine.stored(1).value) == "2"
  {
    assert CatsEngine.stored(0) == Some(MakeDocument("1", "Cats ", "", ""));
    assert CatsEngine.stored(1) == Some(MakeDocument("2", "", "", "cats "));
    DocumentFieldValues("1", "Cats ", "", "");
    DocumentFieldValues("2", "", "", "cats ");
  }

  /** The hit loop over the two hits for "cats" writes both, ranked 1 and 2. */
  lemma CatsHits(n: nat)
    ensures HitLines(n, [Hit(0, 1.5), Hit(1, 0.5)], 1, CatsEngine.stored)
      == Listing([ResultLine(n, "1", 1, 1.5), ResultLine(n, "2", 2, 0.5)], true)
  {
    var hits := [Hit(0, 1.5), Hit(1, 0.5)];
    CatsDocuments();
    var l := HitLines(n, hits, 1, CatsEngine.stored);
    assert hits[0].doc == 0 && hits[1].doc == 1;
    assert l.complete;
    assert l.lines[0] == ResultLine(n, "1", 1, 1.5);
    assert l.lines[1] == ResultLine(n, "2", 2, 0.5);
  }

  /** The lines that "cats" is answered with under query number `n`. */
  lemma CatsAnswer(n: nat)
    ensures Respond("cats", n, Classic, CatsEngine) == Answer([ResultLine(n, "1", 1, 1.5), ResultLine(n, "2", 2, 0.5)], None)
  {
    var hits := [Hit(0, 1.5), Hit(1, 0.5)];
    assert CatsEngine.escape("cats") == "cats" && CatsEngine.search(Classic, "cats") == Some(hits);
    assert TopHits(hits) == hits;
    CatsHits(n);
  }

  /** "dogs" does not parse: no lines, and the diagnostic names it. */
  lemma DogsAnswer(n: nat)
    ensures Respond("dogs", n, Classic, CatsEngine) == Answer([], Some("Error parsing query: dogs"))
  {
    assert "dogs"[0] != "cats"[0];
    assert CatsEngine.escape("dogs") == "dogs" && CatsEngine.search(Classic, "dogs") == None;
    assert "Error parsing query: " + "dogs" == "Error parsing query: dogs";
  }

  /** The three lines of the example queries file, trimmed. */
  lemma TrimmedQueries()
    ensures Trim("cats") == "cats" && Trim(" ") == [] && Trim("dogs") == "dogs"
  {
    assert LeadingBlanks("cats") == 0 && TrailingBlanks("cats") == 0;
    assert LeadingBlanks("dogs") == 0 && TrailingBlanks("dogs") == 0;
    assert LeadingBlanks(" ") == 1;
  }

  /** A blank line, then "cats" as query number 1. */
  lemma BlankThenCats(queries: seq<string>)
    requires queries == [" ", "cats"]
    ensures Batch(queries, 1, Classic, CatsEngine)
      == Report([ResultLine(1, "1", 1, 1.5), ResultLine(1, "2", 2, 0.5)], [], 2)
  {
    TrimmedQueries();
    var cats1 := Respond("cats", 1, Classic, CatsEngine);
    CatsAnswer(1);
    assert queries[1..] == ["cats"] && queries[2..] == [];
    BatchQuery(queries, 1, 1, Classic, CatsEngine, cats1);
    assert cats1.lines + [] == cats1.lines;
    BatchBlank(queries, 0, 1, Classic, CatsEngine);
    assert queries[0..] == queries;
  }

  /**
   * A queries file with a query that fails to parse, a blank line and a
   * query that succeeds: the failing query prints its diagnostic and leaves
   * query number 1 to the next query, and the blank line is skipped.
   */
  lemma FailedQueryKeepsNumber(queries: seq<string>)
    requires queries == ["dogs", " ", "cats"]
    ensures Batch(queries, 1, Classic, CatsEngine)
      == Report([ResultLine(1, "1", 1, 1.5), ResultLine(1, "2", 2, 0.5)], ["Error parsing query: dogs"], 2)
  {
    TrimmedQueries();
    var dogs1 := Respond("dogs", 1, Classic, CatsEngine);
    DogsAnswer(1);
    assert queries[1..] == [" ", "cats"];
    BlankThenCats(queries[1..]);
    BatchQuery(queries, 0, 1, Classic, CatsEngine, dogs1);
    assert queries[0..] == queries;
    var tail := Batch(queries[1..], 1, Classic, CatsEngine);
    assert [] + tail.output == tail.output;
    assert Diagnostics(dogs1) + tail.console == ["Error parsing query: dogs"];
  }
}
