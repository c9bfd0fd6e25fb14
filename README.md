# Cranfield indexer and searcher, modelled in Dafny

This project models the two core routines of a small Lucene-based retrieval
system for the Cranfield collection.

**`IndexFiles.indexDoc`** parses one corpus file in the SMART format:
- an `.I` line starts a document and carries its id;
- `.T` and `.A` open a title or author section, which runs up to the next line starting with `.`;
- `.W` switches on the content flag.

Each finished document goes to `addDocument`, which builds a document of four stored text fields.

**`SearchFiles.main`** runs a file of queries against the index:
- it selects a similarity from the score type (`setSimilarity`);
- it skips blank lines;
- it escapes, parses and searches each query for its top 50 hits;
- it writes one `<queryNumber> 0 <docID> <rank> <score> STANDARD` line per hit.

The query number moves on only after a query has written all its hits.

Modules:

- `JavaStrings` (`java_strings.dfy`): the parts of `String.trim`, `startsWith` and `Integer.toString` the two routines rely on.
- `IndexFiles` (`index_files.dfy`): the parser.
  - The file is modelled as its sequence of lines.
  - The specification comes in two layers:
    - `Steps` lists what each pass of the outer loop reads. A `.T` or `.A` pass also consumes the line that ends its section.
    - `Run` folds those passes over the parser state.
  - The method `IndexDoc` has the shape of the Java loop, with `ReadSection` as its inner loop. It is proved to produce `Parse(lines)`.
- `IndexFilesProperties` (`index_files_properties.dfy`): a closed form of what the parser produces.
  - `DocumentAt` gives each document's id, title, author and contents directly from the passes.
  - It also covers when the parser throws and which lines it examines as markers.
- `IndexFilesExamples` (`index_files_examples.dfy`): small corpus files worked through to their exact result.
- `SearchFiles` (`search_files.dfy`): `SetSimilarity`, the field boosts, and the query loop.
  - The spec function for the query loop is `Batch`. The method `RunQueries` is its loop and calls `AnswerQuery` for the body of the `try`.
  - `SearchMain` is `main` from the point where its arguments have been read.
  - Lucene is an `Engine` parameter. It provides the escaping, the parse-and-search (the full ranking, or None if it throws) and the stored-document lookup (None if it throws).
- `SearchFilesProperties` (`search_files_properties.dfy`): properties of the search driver.
  - Blank lines cost nothing.
  - The query number counts the queries that succeed.
  - Ranks run 1, 2, … up to at most 50 within each query.
  - A result line splits back into its six fields.
  - One queries file is worked through to its exact output.

### Behaviour of the code worth knowing

- **Section terminators.** The line that ends a `.T` or `.A` section is read by the inner loop (`IndexFiles.java:78-88`). The outer loop never examines it as a marker. It is appended to the contents if the content flag is set; otherwise it is lost.
  - A `.W`, `.I`, `.T` or `.A` line that ends a section is therefore not acted on.
  - `AuthorLineSwallowed` shows this on the seven-line file `.I 1`, `.T`, `Cats`, `.A`, `Smith`, `.W`, `Cats are small mammals.`. The `.A` line ends the title, so "Smith" is read as a plain line while the flag is still off, and the author stays empty.
  - At end of file the ending line is null. With the flag set, the text "null " is appended (`OpenSectionAppendsNull`).
- **Ids.**
  - Content read before the first `.I` stays in the buffers and goes into the first document.
  - An `.I` line with only blanks after the marker gives a document with the empty id (`EmptyIdKept`).
  - An `.I` line of exactly two characters makes `substring(3)` throw (`ThrowsOnBareMarker`), after the documents before it were added.
- **The content flag.** The flag is never cleared, not even by a new `.I` (`ApplyKeeps`). While it is set, what a pass of the outer loop appends to the contents is:
  - the line it examined, for an `.I` line or any line that is not a marker;
  - the line that ended its section, for a `.T` or `.A` pass. The `.T`/`.A` line itself is overwritten by the next `readLine` before the append, and the section's lines go to the title or author.

  A `.W` line is never appended (`ContentText`, `Contents`, `DocumentAt`).
- **Invalid score type.** The results file is opened, and so created or emptied, at `SearchFiles.java:35`, before `setSimilarity` throws at `:100`. `Search` returns an empty output for this case, which models the emptied file.
- **Failing queries.** A query can fail after some of its lines are written, when `searcher.doc` throws partway through the hit loop. Those lines stay in the results file, and the next query reuses the same query number (`HitLines`, `Numbered`).

## Model

| member | source | states |
|---|---|---|
| JavaStrings.TrimmedFactor | src/main/java/ca/IR/IndexFiles.java:76 | `trim` returns the factor of its argument left after cutting characters up to U+0020 at both ends. The result neither starts nor ends with such a character, and it is empty exactly when the argument holds only such characters. |
| JavaStrings.NatToString | src/main/java/ca/IR/SearchFiles.java:69 | The decimal text of the query number and rank is a non-empty digit string, without a leading zero (other than "0" itself), that parses back to the number. |
| JavaStrings.Trim | src/main/java/ca/IR/IndexFiles.java:76 | `String.trim`, used for the id after `.I` here and, at `SearchFiles.java:53`, for each line of the queries file (in `Batch` and `RunQueries`). What it returns is stated by `TrimmedFactor`. |
| IndexFiles.Get | src/main/java/ca/IR/SearchFiles.java:68 | `doc.get(name)` is null exactly when no field has that name. Otherwise it is the value of the first field with that name. |
| IndexFiles.MakeDocument | src/main/java/ca/IR/IndexFiles.java:106-113 | The document `addDocument` builds; its fields are stated by `DocumentFieldNames` and `DocumentFieldValues`. |
| IndexFiles.DocumentFieldNames | src/main/java/ca/IR/IndexFiles.java:106-113 | `addDocument` adds exactly the fields title, author, contents and documentID, in that order. |
| IndexFiles.DocumentFieldValues | src/main/java/ca/IR/IndexFiles.java:106-113 | Each of the four fields holds the corresponding argument of `addDocument`. |
| IndexFiles.SectionEnd | src/main/java/ca/IR/IndexFiles.java:79 | A section stops at the first later line that starts with "." or at end of file. Every line before that point does not start with ".". |
| IndexFiles.StepAt | src/main/java/ca/IR/IndexFiles.java:67-92 | Each pass of the outer loop moves forward by at least one line and never past the end of the file. |
| IndexFiles.Apply | src/main/java/ca/IR/IndexFiles.java:68-97 | One pass of the outer loop over the parser state; what every pass keeps is stated by `ApplyKeeps`, and its effect on the buffers by `BuffersSnoc` and `BuffersFresh`. |
| IndexFiles.ApplyKeeps | src/main/java/ca/IR/IndexFiles.java:68-97 | After a throw nothing changes. Added documents stay added, at most one is added per pass, and only by an `.I` pass. The content flag is set by a `.W` pass and never cleared. A pass throws exactly when it is an `.I` line shorter than three characters. |
| IndexFiles.Finish | src/main/java/ca/IR/IndexFiles.java:100-102 | The end of `indexDoc`: the open document is added at end of file; stated by `FinishDescribed`. |
| IndexFiles.Parse | src/main/java/ca/IR/IndexFiles.java:58-104 | What `indexDoc` does with a file; stated without the fold by `ParseDocuments`. |
| IndexFiles.RunAfterThrow | src/main/java/ca/IR/IndexFiles.java:76 | Once `substring(3)` has thrown, no later line changes anything. |
| IndexFiles.ReadSection | src/main/java/ca/IR/IndexFiles.java:78-82 | The inner loop appends every line of the section, each followed by " ". It returns the line that ended the section (null at end of file) and resumes after that line. |
| IndexFiles.IndexDoc | src/main/java/ca/IR/IndexFiles.java:58-104 | The loop adds exactly the documents of `Parse(lines)`, or throws where `Parse` does, after adding the same documents. |
| IndexFilesProperties.Marks | src/main/java/ca/IR/IndexFiles.java:68 | Every listed position is a `.I` pass, and the positions come in file order. |
| IndexFilesProperties.MarksComplete | src/main/java/ca/IR/IndexFiles.java:68 | Every `.I` pass is listed by `Marks`, so with `Marks`' own contract the positions listed are exactly the `.I` passes. |
| IndexFilesProperties.ClosedDocumentsKept | src/main/java/ca/IR/IndexFiles.java:69-75 | A further pass does not change the documents already added. |
| IndexFilesProperties.ContentMarkerSplit | src/main/java/ca/IR/IndexFiles.java:89-91 | The content flag is set after a run of passes exactly when a `.W` pass occurred in some part of it. The flag is never reset. |
| IndexFilesProperties.BuffersSnoc | src/main/java/ca/IR/IndexFiles.java:77-97 | One more pass extends the three buffers of the document in progress by that pass's title text, author text and flagged content text (`TitleText`, `AuthorText`, `Flagged`), and they again hold exactly what the passes since the last `.I` appended. |
| IndexFilesProperties.BuffersFresh | src/main/java/ca/IR/IndexFiles.java:69-76 | After a `.I` pass the buffers are cleared and hold only that pass's own contribution. |
| IndexFilesProperties.LastDocument | src/main/java/ca/IR/IndexFiles.java:69-71 | The document a later `.I` closes is the closed-form `DocumentAt` for the previous `.I`. |
| IndexFilesProperties.DescribesSnoc | src/main/java/ca/IR/IndexFiles.java:67-98 | Every pass keeps the parser state equal to its closed form. The closed form covers the id of the last `.I`, the buffers filled since that `.I`, the flag, and the documents added so far. |
| IndexFilesProperties.RunDescribed | src/main/java/ca/IR/IndexFiles.java:67-98 | The closed form holds after any sequence of passes without a bare `.I`. |
| IndexFilesProperties.RunThrows | src/main/java/ca/IR/IndexFiles.java:76 | The parser throws exactly when some `.I` pass reads a line shorter than three characters, and it throws on such a line. |
| IndexFilesProperties.FinishDescribed | src/main/java/ca/IR/IndexFiles.java:100-102 | At end of file the document in progress is added, provided a `.I` was seen. The documents are then exactly one per `.I` pass. |
| IndexFilesProperties.ParseDocuments | src/main/java/ca/IR/IndexFiles.java:58-104 | The parser returns normally exactly when no `.I` line examined is shorter than three characters. Then the document count equals the number of `.I` passes. The k-th document's id is `substring(3).trim()` of its `.I` line. Its title, author and contents are what the passes from that `.I` up to the next one append, so no text crosses into another document. |
| IndexFilesProperties.MarkerLinesFromFile | src/main/java/ca/IR/IndexFiles.java:68 | Every `.I` pass reads a line of the file that starts with ".I". |
| IndexFilesProperties.ThrowsOnBareMarker | src/main/java/ca/IR/IndexFiles.java:76 | `substring(3)` throws exactly when the outer loop examines a line that is ".I" and nothing else. |
| IndexFilesProperties.ThrowKeepsEarlierDocuments | src/main/java/ca/IR/IndexFiles.java:69-76 | After a throw, the documents already added are those the passes before the bare ".I" give at end of file. The passes after it change nothing. |
| IndexFilesProperties.NoMarkerNoDocuments | src/main/java/ca/IR/IndexFiles.java:100-102 | A file without a line starting with ".I" gives no document and never throws. |
| IndexFilesProperties.EveryLineSeenWithoutSections | src/main/java/ca/IR/IndexFiles.java:67-92 | Without `.T` and `.A` lines, the outer loop examines every line exactly once, in order. |
| IndexFilesExamples.CatsRecordTitle | src/main/java/ca/IR/IndexFiles.java:77-82 | The title pass of the example record reads "Cats" and consumes the ".A" line that ends it. |
| IndexFilesExamples.AuthorLineSwallowed | src/main/java/ca/IR/IndexFiles.java:58-104 | The record `.I 1 / .T / Cats / .A / Smith / .W / Cats are small mammals.` gives one document. Its id is "1", its title "Cats ", its author empty, and its contents "Cats are small mammals. ". |
| IndexFilesExamples.BareMarkerThrows | src/main/java/ca/IR/IndexFiles.java:69-76 | A bare ".I" after a document first adds that document, then throws. |
| IndexFilesExamples.OpenSectionAppendsNull | src/main/java/ca/IR/IndexFiles.java:78-97 | A title section that runs to end of file, read after ".W", appends "null " to the contents. |
| IndexFilesExamples.EmptyIdKept | src/main/java/ca/IR/IndexFiles.java:67-102 | Content read before the first `.I` goes to the first document. A `.I` line read with the flag set is itself appended. A `.I` line with only blanks after it gives a document with the empty id. |
| SearchFiles.SetSimilarity | src/main/java/ca/IR/SearchFiles.java:81-101 | A similarity is set exactly for score types 0 to 4, and that similarity's score type is the one given. Every other value gives an IllegalArgumentException with message "Invalid score type". |
| SearchFiles.TopHits | src/main/java/ca/IR/SearchFiles.java:63 | The search keeps the first min(50, n) entries of the ranking, in ranking order. |
| SearchFiles.HitLines | src/main/java/ca/IR/SearchFiles.java:65-71 | The hit loop writes one line per hit in hit order, with ranks counting up from the first, until a hit has no stored document. It completes exactly when every hit has one. |
| SearchFiles.Respond | src/main/java/ca/IR/SearchFiles.java:56-75 | The body of the `try` for one query; stated by `AnswerListsTopHits`. |
| SearchFiles.Batch | src/main/java/ca/IR/SearchFiles.java:49-77 | The query loop; stated by `QueryAnsweredWith` (the number each query is written under), `BatchAppend`, `BlankLinesSkipped`, `QueryNumberCountsSuccesses` and `ResultsNumbered`. |
| SearchFiles.AnswerQuery | src/main/java/ca/IR/SearchFiles.java:56-75 | The body of the `try` appends to the results file exactly the lines of `Respond`, and reports the same diagnostic. |
| SearchFiles.RunQueries | src/main/java/ca/IR/SearchFiles.java:49-77 | The query loop writes exactly the result lines and console lines of `Batch`, starting from query number 1. |
| SearchFiles.SearchMain | src/main/java/ca/IR/SearchFiles.java:34-78 | `main` with score type and queries behaves as `Search`. |
| SearchFiles.Search | src/main/java/ca/IR/SearchFiles.java:34-78 | `main` once its arguments are read; stated by `InvalidScoreTypeWritesNothing` and `ValidScoreTypeRunsQueries`. |
| SearchFiles.Render | src/main/java/ca/IR/SearchFiles.java:69 | The text of a result line; stated by `RenderLayout` and `RenderReadsBack`. |
| SearchFilesProperties.TunedSimilarities | src/main/java/ca/IR/SearchFiles.java:83-97 | Score type 0 selects Classic and 1 selects BM25(1.2, 0.75). 2 selects Boolean, 3 selects LM Dirichlet and 4 selects LM Jelinek-Mercer(0.7). |
| SearchFilesProperties.FieldBoosts | src/main/java/ca/IR/SearchFiles.java:41-45 | Exactly the three query fields are boosted: title 2.0, author 1.5, contents 1.0. |
| SearchFilesProperties.InvalidScoreTypeWritesNothing | src/main/java/ca/IR/SearchFiles.java:35-38 | With an invalid score type, the results file is left empty and the console shows "Invalid score type". The exception is thrown before any query is read. |
| SearchFilesProperties.ValidScoreTypeRunsQueries | src/main/java/ca/IR/SearchFiles.java:37-52 | With a valid score type, nothing is thrown. The query loop runs from query number 1 under the similarity of that score type. |
| SearchFilesProperties.BlankLinesSkipped | src/main/java/ca/IR/SearchFiles.java:53-54 | Removing the blank lines from the queries file changes neither the output nor the console nor the next query number. |
| SearchFilesProperties.AnswerListsTopHits | src/main/java/ca/IR/SearchFiles.java:56-75 | A query writes at most 50 lines. They follow the top hits in order, ranked from 1, under the current query number, up to the first hit without a stored document. A diagnostic naming the escaped query is printed exactly when the query does not succeed. |
| SearchFilesProperties.QueryNumberCountsSuccesses | src/main/java/ca/IR/SearchFiles.java:50-75 | The query number advances once per query that succeeds and for nothing else. The console gets one line per query that fails. |
| SearchFilesProperties.BatchAppend | src/main/java/ca/IR/SearchFiles.java:49-77 | The loop over two query files one after the other is the loop over their concatenation. The second part starts with the query number the first part leaves, and the outputs and console lines are joined in order. |
| SearchFilesProperties.QueryAnsweredWith | src/main/java/ca/IR/SearchFiles.java:50-75 | The query on line i is answered under the number the loop reached on the lines before it, and that number is the start plus the number of those queries that succeeded. Its result lines come right after those of the earlier lines, and its diagnostic right after theirs. So in `main`, which starts at 1, a query is written under one more than the number of earlier queries that succeeded. |
| SearchFilesProperties.NumberedAppend | src/main/java/ca/IR/SearchFiles.java:65-72 | Two well-numbered stretches of result lines, the second starting at or after the first's last query number, make a well-numbered whole. |
| SearchFilesProperties.ResultsNumbered | src/main/java/ca/IR/SearchFiles.java:50-72 | Across the whole results file, query numbers never go down and lie between the first and the next number. The first line has rank 1. Each later line either starts a query at rank 1 or continues the same query number with the next rank. Ranks lie between 1 and 50. The exact number each query carries is stated by `QueryAnsweredWith`. |
| SearchFilesProperties.NumbersAndRanksInRange | src/main/java/ca/IR/SearchFiles.java:50 | Every result line of `main` has a query number of at least 1 and a rank between 1 and 50. |
| SearchFilesProperties.FieldsOfSnoc | src/main/java/ca/IR/SearchFiles.java:69 | Appending a space and a word without spaces adds exactly one field when the line is split at spaces. |
| SearchFilesProperties.RenderLayout | src/main/java/ca/IR/SearchFiles.java:69 | A result line splits at its spaces into exactly: query number, "0", document id, rank, score, "STANDARD". This holds when the id and the printed score contain no space. |
| SearchFilesProperties.RenderReadsBack | src/main/java/ca/IR/SearchFiles.java:69 | The query number and rank fields of a result line parse back to the numbers written. |
| SearchFilesProperties.CatsHits | src/main/java/ca/IR/SearchFiles.java:65-71 | Two hits whose documents are stored are written as ranks 1 and 2, with their document ids and scores. |
| SearchFilesProperties.DogsAnswer | src/main/java/ca/IR/SearchFiles.java:73-74 | A query that does not parse writes nothing and prints "Error parsing query: " followed by the escaped query. |
| SearchFilesProperties.FailedQueryKeepsNumber | src/main/java/ca/IR/SearchFiles.java:52-75 | For the queries file `dogs / (blank) / cats`, where "dogs" fails to parse: the console gets one diagnostic, and "cats" is written as query 1, ranked 1 and 2. The next query number is 2. |

## Left out

- Lucene's analyzer, query parser, inverted index, similarities and scoring are outside the model. The search side takes them as an `Engine` of three functions:
  - `escape` (`QueryParser.escape`);
  - `search`, which parses with the boosted multi-field parser and searches, giving the full ranking or None on an exception;
  - `stored` (`searcher.doc`), which gives None on an exception.

  The boosts and fields are modelled as constants only. Their effect on scores is not modelled.
- `IndexFiles.main` is not modelled: the directory listing, the loop over files, and the creation and closing of the writer. Neither is `SearchFiles.main`'s argument check and `Integer.parseInt`. The index writer is modelled as the sequence of documents added to it; when `indexDoc` throws, that sequence holds what was added before the exception.
- File I/O is modelled as sequences of lines, and the results file and console as sequences of lines:
  - `readLine` and `Scanner.nextLine` line splitting is not modelled;
  - the reader and writer are not modelled;
  - I/O exceptions are not modelled.
- `SearchFiles.Render`: scores are `real`s. `Float.toString` of `hit.score` is the parameter `formatScore`, because float formatting is not modelled.
- `SearchFiles.Batch`: `queryNumber` and `rank` are unbounded, without Java's 32-bit `int` wrap-around. Wrap-around would need more than two billion queries or hits.
- `IndexFiles.Apply`: strings are sequences of Unicode scalar values, not of UTF-16 code units. So `|line| < 3` and `line[3..]` differ from Java's `length()` and `substring(3)` when a supplementary character comes before or at the third position of an `.I` line. The model agrees with Java on every line without supplementary characters.
- The exception `substring(3)` throws is caught neither in `indexDoc` nor in `IndexFiles.main` (`IndexFiles.java:19`, `:47`). In the program it also stops the indexing of later files and skips `writer.close()` at `:54`, so documents added before it may never be committed. The model ends with the documents added to the writer and the line that threw. It does not model the later files or the commit.
- `StringBuilder` buffers are modelled as immutable strings, which are reassigned.
- The similarity is a value given to the engine's `search`, not state installed in an `IndexSearcher`.
