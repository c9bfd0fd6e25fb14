/**
 * The search driver of SearchFiles. `main` installs the similarity chosen by
 * the score type, then reads the queries file line by line: a line that is
 * blank once trimmed is skipped; any other line is escaped, parsed and
 * searched for its top 50 hits, and one result line is written per hit,
 * numbered with the current query number and a rank counting from 1. The
 * query number advances only when a query's hits were all written; a query
 * that throws gets a diagnostic on the console instead.
 *
 * Lucene itself is outside the model. Escaping, parsing plus searching, and
 * fetching a stored document are the three operations of an `Engine`, taken
 * as parameters: `escape` is `QueryParser.escape`, `search` gives the full
 * ranking for a similarity and an escaped query string (None when parsing or
 * searching throws), and `stored` gives the document behind an internal
 * document number (None when `searcher.doc` throws).
 */
module SearchFiles {
  import opened JavaStrings
  import opened IndexFiles

  /** The relevance models the searcher can be set to, with their parameters. */
  datatype Similarity =
    | Classic
    | BM25(k1: real, b: real)
    | Boolean
    | LMDirichlet
    | LMJelinekMercer(lambda: real)

  /** A value, or the IllegalArgumentException thrown instead, with its message. */
  datatype Result<T> = Success(value: T) | IllegalArgument(message: string)

  /** The score type that selects a given model. */
  function ScoreTypeOf(s: Similarity): int
  {
    match s
    case Classic => 0
    case BM25(_, _) => 1
    case Boolean => 2
    case LMDirichlet => 3
    case LMJelinekMercer(_) => 4
  }

  /**
   * `setSimilarity`: the model for score types 0 to 4; every other value
   * is rejected, with no default model.
   */
  function SetSimilarity(scoreType: int): (r: Result<Similarity>)
    ensures r.Success? <==> 0 <= scoreType <= 4
    ensures r.Success? ==> ScoreTypeOf(r.value) == scoreType
    ensures r.IllegalArgument? ==> r.message == "Invalid score type"
  {
    match scoreType
    case 0 => Success(Classic)
    case 1 => Success(BM25(1.2, 0.75))
    case 2 => Success(Boolean)
    case 3 => Success(LMDirichlet)
    case 4 => Success(LMJelinekMercer(0.7))
    case _ => IllegalArgument("Invalid score type")
  }

  /** The fields every query is parsed against. */
  const QueryFields: seq<string> := ["title", "author", "contents"]

  /** The boost of each query field. */
  const Boosts: map<string, real> := map["title" := 2.0, "author" := 1.5, "contents" := 1.0]

  /** One entry of a ranking: Lucene's internal document number and the score. */
  datatype Hit = Hit(doc: nat, score: real)

  /** What `main` calls into Lucene for. */
  datatype Engine = Engine(
    escape: string -> string,
    search: (Similarity, string) -> Option<seq<Hit>>,
    stored: nat -> Option<Document>)

  /** `searcher.search(query, 50).scoreDocs`: the first 50 entries of the ranking. */
  function TopHits(ranking: seq<Hit>): (top: seq<Hit>)
    ensures |top| <= 50
    ensures |top| == if |ranking| < 50 then |ranking| else 50
    ensures top == ranking[..|top|]
  {
    if |ranking| <= 50 then ranking else ranking[..50]
  }

  /** `doc.get("documentID")` as string concatenation prints it: "null" when missing. */
  function DocIdOf(doc: Document): string
  {
    NullToString(Get(doc, "documentID"))
  }

  /** One line of the results file, before it is turned into text. */
  datatype ResultLine = ResultLine(queryNumber: nat, docID: string, rank: nat, score: real)

  /** The result lines the hit loop writes, and whether it ran to the end without throwing. */
  datatype Listing = Listing(lines: seq<ResultLine>, complete: bool)

  /**
   * The hit loop over `hits` with query number `queryNumber`, the first
   * rank being `rank`: one line per hit, in hit order, with consecutive
   * ranks, until `searcher.doc` throws on a hit; the lines written before
   * that stay written.
   */
  function HitLines(queryNumber: nat, hits: seq<Hit>, rank: nat, stored: nat -> Option<Document>): (l: Listing)
    ensures |l.lines| <= |hits|
    ensures l.complete <==> forall k :: 0 <= k < |hits| ==> stored(hits[k].doc).Some?
    ensures l.complete ==> |l.lines| == |hits|
    ensures !l.complete ==> |l.lines| < |hits| && stored(hits[|l.lines|].doc).None?
    ensures forall k :: 0 <= k < |l.lines| ==>
      && stored(hits[k].doc).Some?
      && l.lines[k] == ResultLine(queryNumber, DocIdOf(stored(hits[k].doc).value), rank + k, hits[k].score)
    decreases |hits|
  {
    if hits == [] then Listing([], true)
    else
      match stored(hits[0].doc)
      case None => Listing([], false)
      case Some(doc) =>
        var rest := HitLines(queryNumber, hits[1..], rank + 1, stored);
        Listing([ResultLine(queryNumber, DocIdOf(doc), rank, hits[0].score)] + rest.lines, rest.complete)
  }

  /** What one non-blank query produces: its result lines, and the diagnostic if it threw. */
  datatype Answer = Answer(lines: seq<ResultLine>, error: Option<string>)

  /**
   * The body of the `try` for the trimmed query `query`: escape it, parse
   * and search it, and write its hits. Whatever throws, the diagnostic
   * names the escaped query.
   */
  function Respond(query: string, queryNumber: nat, similarity: Similarity, engine: Engine): Answer
  {
    var escaped := engine.escape(query);
    match engine.search(similarity, escaped)
    case None => Answer([], Some("Error parsing query: " + escaped))
    case Some(ranking) =>
      var listing := HitLines(queryNumber, TopHits(ranking), 1, engine.stored);
      Answer(listing.lines, if listing.complete then None else Some("Error parsing query: " + escaped))
  }

  /** What the query loop leaves: the result lines, the console lines, and the next query number. */
  datatype Report = Report(output: seq<ResultLine>, console: seq<string>, next: nat)

  /** The diagnostics an answer prints. */
  function Diagnostics(a: Answer): seq<string>
  {
    if a.error.Some? then [a.error.value] else []
  }

  /** The query loop over the lines `queries`, starting with query number `queryNumber`. */
  function Batch(queries: seq<string>, queryNumber: nat, similarity: Similarity, engine: Engine): Report
    decreases |queries|
  {
    if queries == [] then Report([], [], queryNumber)
    else
      var query := Trim(queries[0]);
      if query == [] then Batch(queries[1..], queryNumber, similarity, engine)
      else
        var a := Respond(query, queryNumber, similarity, engine);
        var r := Batch(queries[1..], if a.error.None? then queryNumber + 1 else queryNumber, similarity, engine);
        Report(a.lines + r.output, Diagnostics(a) + r.console, r.next)
  }

  /** The hit loop from hit `j` on, after writing hit `j`. */
  lemma HitLinesStep(queryNumber: nat, hits: seq<Hit>, j: nat, rank: nat, stored: nat -> Option<Document>)
    requires j < |hits| && stored(hits[j].doc).Some?
    ensures var l, r := HitLines(queryNumber, hits[j..], rank, stored), HitLines(queryNumber, hits[j + 1..], rank + 1, stored);
      && l.lines == [ResultLine(queryNumber, DocIdOf(stored(hits[j].doc).value), rank, hits[j].score)] + r.lines
      && l.complete == r.complete
  {
    assert hits[j..][1..] == hits[j + 1..];
  }

  /** The query loop from line `i` on, when the line at `i` is blank once trimmed. */
  lemma BatchBlank(queries: seq<string>, i: nat, queryNumber: nat, similarity: Similarity, engine: Engine)
    requires i < |queries| && Trim(queries[i]) == []
    ensures Batch(queries[i..], queryNumber, similarity, engine) == Batch(queries[i + 1..], queryNumber, similarity, engine)
  {
    assert queries[i..][1..] == queries[i + 1..];
  }

  /** The query loop from line `i` on, when the line at `i` holds a query with answer `a`. */
  lemma BatchQuery(queries: seq<string>, i: nat, queryNumber: nat, similarity: Similarity, engine: Engine, a: Answer)
    requires i < |queries| && Trim(queries[i]) != []
    requires a == Respond(Trim(queries[i]), queryNumber, similarity, engine)
    ensures var r := Batch(queries[i + 1..], if a.error.None? then queryNumber + 1 else queryNumber, similarity, engine);
      Batch(queries[i..], queryNumber, similarity, engine) == Report(a.lines + r.output, Diagnostics(a) + r.console, r.next)
  {
    assert queries[i..][1..] == queries[i + 1..];
  }

  /**
   * The body of the `try` for the trimmed, non-blank query `query`, with
   * the results file holding `output`: returns what the results file holds
   * afterwards and the diagnostic printed, if the body threw.
   */
  method AnswerQuery(query: string, queryNumber: nat, similarity: Similarity, engine: Engine, output: seq<ResultLine>)
    returns (written: seq<ResultLine>, error: Option<string>)
    ensures written == output + Respond(query, queryNumber, similarity, engine).lines
    ensures error == Respond(query, queryNumber, similarity, engine).error
  {
    written := output;
    var queryString := engine.escape(query);
    var found := engine.search(similarity, queryString);
    if found.None? {
      // parsing or searching threw
      return written, Some("Error parsing query: " + queryString);
    }
    var hits := TopHits(found.value);
    ghost var listing := HitLines(queryNumber, hits, 1, engine.stored);
    var rank := 1;
    var j := 0;
    while j < |hits|
      invariant j <= |hits| && rank == j + 1
      invariant written + HitLines(queryNumber, hits[j..], rank, engine.stored).lines == output + listing.lines
      invariant HitLines(queryNumber, hits[j..], rank, engine.stored).complete == listing.complete
    {
      var doc := engine.stored(hits[j].doc);
      if doc.None? {
        // searcher.doc threw: the exception leaves the hit loop
        assert HitLines(queryNumber, hits[j..], rank, engine.stored) == Listing([], false);
        return written, Some("Error parsing query: " + queryString);
      }
      HitLinesStep(queryNumber, hits, j, rank, engine.stored);
      var line := ResultLine(queryNumber, DocIdOf(doc.value), rank, hits[j].score);
      Associative(written, [line], HitLines(queryNumber, hits[j + 1..], rank + 1, engine.stored).lines);
      written := written + [line];
      rank := rank + 1;
      j := j + 1;
    }
    assert hits[j..] == [];
    error := None;
  }

  lemma Associative<T>(x: seq<T>, y: seq<T>, z: seq<T>)
    ensures (x + y) + z == x + (y + z)
  {
  }

  /**
   * The query loop of `main`: reads the queries file, whose lines are
   * `queries`, and returns the result lines written and the console lines
   * printed.
   */
  method RunQueries(queries: seq<string>, similarity: Similarity, engine: Engine)
    returns (output: seq<ResultLine>, console: seq<string>)
    ensures output == Batch(queries, 1, similarity, engine).output
    ensures console == Batch(queries, 1, similarity, engine).console
  {
    output, console := [], [];
    var queryNumber := 1;
    var i := 0;
    while i < |queries|
      invariant i <= |queries|
      invariant output + Batch(queries[i..], queryNumber, similarity, engine).output
             == Batch(queries, 1, similarity, engine).output
      invariant console + Batch(queries[i..], queryNumber, similarity, engine).console
             == Batch(queries, 1, similarity, engine).console
    {
      var queryString := Trim(queries[i]);
      if queryString == [] {
        BatchBlank(queries, i, queryNumber, similarity, engine);
        i := i + 1;
        continue;
      }
      ghost var a := Respond(queryString, queryNumber, similarity, engine);
      ghost var r := Batch(queries[i + 1..], if a.error.None? then queryNumber + 1 else queryNumber, similarity, engine);
      BatchQuery(queries, i, queryNumber, similarity, engine, a);
      ghost var outputBefore, consoleBefore := output, console;
      var error;
      output, error := AnswerQuery(queryString, queryNumber, similarity, engine, output);
      if error.Some? {
        console := console + [error.value];
      } else {
        queryNumber := queryNumber + 1;
      }
      i := i + 1;
      assert output == outputBefore + a.lines;
      Associative(outputBefore, a.lines, r.output);
      assert console == consoleBefore + Diagnostics(a);
      Associative(consoleBefore, Diagnostics(a), r.console);
    }
    assert queries[i..] == [];
  }

  /** How `main` ends once its arguments are read. */
  datatype SearchRun = SearchRun(output: seq<ResultLine>, console: seq<string>, thrown: Option<string>)

  /**
   * `main` with score type `scoreType` over the queries file `queries`. The
   * results file is opened, and so emptied, before the score type is
   * checked; an invalid one throws before any query is read.
   */
  function Search(scoreType: int, queries: seq<string>, engine: Engine): SearchRun
  {
    match SetSimilarity(scoreType)
    case IllegalArgument(message) => SearchRun([], ["Invalid score type"], Some(message))
    case Success(similarity) =>
      var r := Batch(queries, 1, similarity, engine);
      SearchRun(r.output, r.console, None)
  }

  /** `main` from the point where its arguments are read. */
  method SearchMain(scoreType: int, queries: seq<string>, engine: Engine) returns (run: SearchRun)
    ensures run == Search(scoreType, queries, engine)
  {
    var output: seq<ResultLine> := [];  // the results file, opened and emptied
    var similarity := SetSimilarity(scoreType);
    if similarity.IllegalArgument? {
      return SearchRun(output, ["Invalid score type"], Some(similarity.message));
    }
    var console;
    output, console := RunQueries(queries, similarity.value, engine);
    run := SearchRun(output, console, None);
  }

  /** `writer.println(...)`: the text of a result line, given how the score is printed. */
  function Render(line: ResultLine, formatScore: real -> string): string
  {
    NatToString(line.queryNumber) + " 0 " + line.docID + " " + NatToString(line.rank) + " "
      + formatScore(line.score) + " STANDARD"
  }
}
