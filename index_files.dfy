/**
 * The corpus parser of IndexFiles. `indexDoc` reads one Cranfield/SMART-style
 * corpus file line by line: `.I` starts a document and carries its id, `.T`
 * and `.A` open a title or author section that runs up to the next line
 * starting with ".", and `.W` switches on the content flag. Each finished
 * document is handed to `addDocument`, which builds a Lucene document of four
 * stored text fields and adds it to the index writer.
 *
 * The file is modelled as the sequence of its lines (what `readLine` returns,
 * in order; `None` stands for the null it returns at end of file), and the
 * index writer as the sequence of documents added to it.
 *
 * The specification has two layers: `Steps` says what each pass of the outer
 * loop reads (a `.T` or `.A` pass also consumes, and never re-examines, the
 * line that ends its section), and `Run` folds the passes over the parser's
 * state. `IndexDoc` is the loop itself, proved to produce `Parse(lines)`.
 */
module IndexFiles {
  import opened JavaStrings

  /** A stored text field of a Lucene document. */
  datatype Field = TextField(name: string, value: string)

  /** A Lucene document: its fields in the order they were added. */
  type Document = seq<Field>

  /**
   * `doc.get(name)`: the value of the first field called `name`, or null when
   * the document has no such field.
   */
  function Get(doc: Document, name: string): (r: Option<string>)
    ensures r.None? <==> forall k :: 0 <= k < |doc| ==> doc[k].name != name
    ensures r.Some? ==> exists k :: 0 <= k < |doc| && doc[k] == TextField(name, r.value)
                                  && forall j :: 0 <= j < k ==> doc[j].name != name
    decreases |doc|
  {
    if doc == [] then None
    else if doc[0].name == name then Some(doc[0].value)
    else
      var r := Get(doc[1..], name);
      if r.Some? then
        var k :| 0 <= k < |doc[1..]| && doc[1..][k] == TextField(name, r.value)
                 && forall j :: 0 <= j < k ==> doc[1..][j].name != name;
        assert doc[k + 1] == TextField(name, r.value);
        assert forall j :: 0 <= j < k + 1 ==> doc[j].name != name by {
          forall j | 0 <= j < k + 1 ensures doc[j].name != name {
            if j > 0 { assert doc[j] == doc[1..][j - 1]; }
          }
        }
        r
      else r
  }

  /** The names of a document's fields, in order. */
  function FieldNames(doc: Document): (names: seq<string>)
    ensures |names| == |doc|
    ensures forall k :: 0 <= k < |doc| ==> names[k] == doc[k].name
    decreases |doc|
  {
    if doc == [] then [] else [doc[0].name] + FieldNames(doc[1..])
  }

  /** The document `addDocument(writer, docID, title, author, textContent)` adds. */
  function MakeDocument(docID: string, title: string, author: string, textContent: string): Document
  {
    [TextField("title", title), TextField("author", author),
     TextField("contents", textContent), TextField("documentID", docID)]
  }

  /** `addDocument` adds exactly the fields title, author, contents and documentID, in that order. */
  lemma DocumentFieldNames(docID: string, title: string, author: string, textContent: string)
    ensures FieldNames(MakeDocument(docID, title, author, textContent))
         == ["title", "author", "contents", "documentID"]
  {
    var doc := MakeDocument(docID, title, author, textContent);
    assert FieldNames(doc) == [doc[0].name, doc[1].name, doc[2].name, doc[3].name];
  }

  /** Each field of the document `addDocument` builds holds the corresponding argument. */
  lemma DocumentFieldValues(docID: string, title: string, author: string, textContent: string)
    ensures var doc := MakeDocument(docID, title, author, textContent);
      && Get(doc, "title") == Some(title)
      && Get(doc, "author") == Some(author)
      && Get(doc, "contents") == Some(textContent)
      && Get(doc, "documentID") == Some(docID)
  {
    var doc := MakeDocument(docID, title, author, textContent);
    var from1, from2, from3 := doc[1..], doc[2..], doc[3..];
    assert from1[1..] == from2 && from2[1..] == from3;
    assert "title"[0] == 't' && "author"[0] == 'a' && "contents"[0] == 'c' && "documentID"[0] == 'd';
    assert Get(from2, "documentID") == Some(docID) && Get(from2, "contents") == Some(textContent);
    assert Get(from1, "author") == Some(author);
  }

  /** What one pass of the outer loop of `indexDoc` reads. */
  datatype Step =
      /** a line starting with ".I" */
    | DocMarker(line: string)
      /** a ".T" line, the text its section appends to the title, and the line that ended the section (None: end of file) */
    | TitleSection(text: string, terminator: Option<string>)
      /** the same for an ".A" line and the author */
    | AuthorSection(text: string, terminator: Option<string>)
      /** a line starting with ".W" */
    | ContentMarker
      /** any other line */
    | Other(line: string)

  /** The lines of a section as the inner loop appends them: each followed by one space. */
  function Joined(lines: seq<string>): string
    decreases |lines|
  {
    if lines == [] then "" else Joined(lines[..|lines| - 1]) + lines[|lines| - 1] + " "
  }

  /**
   * Where a section whose first line is at index `j` stops: the first line
   * from `j` on that starts with ".", or the end of the file.
   */
  function SectionEnd(lines: seq<string>, j: nat): (k: nat)
    requires j <= |lines|
    ensures j <= k <= |lines|
    ensures forall m :: j <= m < k ==> !StartsWith(lines[m], ".")
    ensures k < |lines| ==> StartsWith(lines[k], ".")
    decreases |lines| - j
  {
    if j == |lines| || StartsWith(lines[j], ".") then j else SectionEnd(lines, j + 1)
  }

  /** What `readLine` returns when it reads the line at index `k`: null past the end. */
  function LineAt(lines: seq<string>, k: nat): Option<string>
  {
    if k < |lines| then Some(lines[k]) else None
  }

  /** The index of the line read after the one at `k` (reading stops at the end of the file). */
  function After(lines: seq<string>, k: nat): nat
  {
    if k < |lines| then k + 1 else |lines|
  }

  /**
   * The pass of the outer loop that reads the line at index `i`, and the
   * index of the line the next pass reads. A `.T` or `.A` pass reads its
   * section and the line that ends it; that line is not examined as a marker.
   */
  function StepAt(lines: seq<string>, i: nat): (r: (Step, nat))
    requires i < |lines|
    ensures i < r.1 <= |lines|
  {
    var line := lines[i];
    if StartsWith(line, ".I") then (DocMarker(line), i + 1)
    else if StartsWith(line, ".T") then
      var k := SectionEnd(lines, i + 1);
      (TitleSection(Joined(lines[i + 1..k]), LineAt(lines, k)), After(lines, k))
    else if StartsWith(line, ".A") then
      var k := SectionEnd(lines, i + 1);
      (AuthorSection(Joined(lines[i + 1..k]), LineAt(lines, k)), After(lines, k))
    else if StartsWith(line, ".W") then (ContentMarker, i + 1)
    else (Other(line), i + 1)
  }

  /** The passes of the outer loop, starting with the one that reads the line at `i`. */
  function Steps(lines: seq<string>, i: nat): seq<Step>
    decreases |lines| - i
  {
    if i >= |lines| then []
    else
      var (step, next) := StepAt(lines, i);
      [step] + Steps(lines, next)
  }

  /** Java's string conversion of a possibly null string: "null" for null. */
  function NullToString(line: Option<string>): string
  {
    if line.Some? then line.value else "null"
  }

  /** What a pass appends to the content buffer when the content flag is set. */
  function ContentText(step: Step): string
  {
    match step
    case DocMarker(line) => line + " "
    case TitleSection(_, terminator) => NullToString(terminator) + " "
    case AuthorSection(_, terminator) => NullToString(terminator) + " "
    case ContentMarker => ""
    case Other(line) => line + " "
  }

  /** What a pass appends to the content buffer, given the content flag. */
  function Flagged(isContent: bool, step: Step): string
  {
    if isContent then ContentText(step) else ""
  }

  /** What a pass appends to the title buffer. */
  function TitleText(step: Step): string
  {
    if step.TitleSection? then step.text else ""
  }

  /** What a pass appends to the author buffer. */
  function AuthorText(step: Step): string
  {
    if step.AuthorSection? then step.text else ""
  }

  /**
   * The local state of `indexDoc`: the current id (null before the first
   * `.I`), the three buffers, the content flag, the documents added to the
   * writer so far, and the `.I` line whose `substring(3)` threw, if any.
   */
  datatype Parser = Parser(
    docID: Option<string>,
    title: string,
    author: string,
    content: string,
    isContent: bool,
    added: seq<Document>,
    threwAt: Option<string>)

  const Start := Parser(None, "", "", "", false, [], None)

  /** One pass of the outer loop; nothing happens once an exception was thrown. */
  function Apply(p: Parser, step: Step): Parser
  {
    if p.threwAt.Some? then p
    else
      match step
      case DocMarker(line) =>
        var q :=
          if p.docID.Some? then
            p.(added := p.added + [MakeDocument(p.docID.value, p.title, p.author, p.content)],
               title := "", author := "", content := "")
          else p;
        if |line| < 3 then q.(threwAt := Some(line))
        else q.(docID := Some(Trim(line[3..])), content := q.content + Flagged(q.isContent, step))
      case TitleSection(text, _) =>
        p.(title := p.title + text, content := p.content + Flagged(p.isContent, step))
      case AuthorSection(text, _) =>
        p.(author := p.author + text, content := p.content + Flagged(p.isContent, step))
      case ContentMarker =>
        p.(isContent := true)
      case Other(_) =>
        p.(content := p.content + Flagged(p.isContent, step))
  }

  /**
   * What every pass keeps: nothing changes once an exception was thrown; a
   * document once added stays added, and at most one is added per pass, by
   * an `.I` pass only; the content flag is set by the first `.W` pass and
   * never cleared; and a pass throws exactly when it is an `.I` line shorter
   * than three characters.
   */
  lemma ApplyKeeps(p: Parser, step: Step)
    ensures p.threwAt.Some? ==> Apply(p, step) == p
    ensures var q := Apply(p, step);
      && |p.added| <= |q.added| <= |p.added| + 1
      && q.added[..|p.added|] == p.added
      && (!step.DocMarker? ==> q.added == p.added && q.docID == p.docID)
    ensures Apply(p, step).isContent == (p.isContent || (p.threwAt.None? && step.ContentMarker?))
    ensures Apply(p, step).threwAt.Some? <==> p.threwAt.Some? || (step.DocMarker? && |step.line| < 3)
  {
  }

  /** The parser's state after the given passes, starting from `Start`. */
  function Run(steps: seq<Step>): Parser
    decreases |steps|
  {
    if steps == [] then Start else Apply(Run(steps[..|steps| - 1]), steps[|steps| - 1])
  }

  /**
   * How `indexDoc` ends: it added the given documents and returned normally,
   * or it added the given documents and then `substring(3)` threw on `line`.
   */
  datatype Outcome =
    | Indexed(docs: seq<Document>)
    | Threw(docs: seq<Document>, line: string)

  /** The end of `indexDoc`: the last document is added at end of file. */
  function Finish(p: Parser): Outcome
  {
    if p.threwAt.Some? then Threw(p.added, p.threwAt.value)
    else if p.docID.Some? then Indexed(p.added + [MakeDocument(p.docID.value, p.title, p.author, p.content)])
    else Indexed(p.added)
  }

  /** What `indexDoc` does with a file made of `lines`. */
  function Parse(lines: seq<string>): Outcome
  {
    Finish(Run(Steps(lines, 0)))
  }

  lemma RunSnoc(steps: seq<Step>, step: Step)
    ensures Run(steps + [step]) == Apply(Run(steps), step)
  {
    assert (steps + [step])[..|steps|] == steps;
  }

  /** Once `substring(3)` has thrown, later passes change nothing. */
  lemma {:induction false} RunAfterThrow(steps: seq<Step>, rest: seq<Step>)
    requires Run(steps).threwAt.Some?
    ensures Run(steps + rest) == Run(steps)
    decreases |rest|
  {
    if rest == [] {
      assert steps + rest == steps;
    } else {
      var init := rest[..|rest| - 1];
      RunAfterThrow(steps, init);
      assert steps + rest == (steps + init) + [rest[|rest| - 1]];
      RunSnoc(steps + init, rest[|rest| - 1]);
    }
  }

  lemma NextStep(lines: seq<string>, done: seq<Step>, i: nat)
    requires i < |lines| && done + Steps(lines, i) == Steps(lines, 0)
    ensures done + [StepAt(lines, i).0] + Steps(lines, StepAt(lines, i).1) == Steps(lines, 0)
  {
  }

  /**
   * The inner loop of a `.T` or `.A` pass, whose first `readLine` reads the
   * line at `start`: it returns the text appended to the buffer, the line
   * that ended the section (None: end of file) and the index of the next
   * line to read.
   */
  method ReadSection(lines: seq<string>, start: nat) returns (text: string, line: Option<string>, next: nat)
    requires start <= |lines|
    ensures start <= next <= |lines|
    ensures var k := SectionEnd(lines, start);
      && text == Joined(lines[start..k])
      && line == LineAt(lines, k)
      && next == After(lines, k)
  {
    text := "";
    ghost var m := start;  // the index of the line held in `line`
    line := LineAt(lines, start);
    next := After(lines, start);
    while line.Some? && !StartsWith(line.value, ".")
      invariant start <= m <= |lines|
      invariant line == LineAt(lines, m) && next == After(lines, m)
      invariant forall j :: start <= j < m ==> !StartsWith(lines[j], ".")
      invariant text == Joined(lines[start..m])
      decreases |lines| - m
    {
      assert lines[start..m + 1][..m - start] == lines[start..m];
      text := text + line.value + " ";
      m := m + 1;
      line := LineAt(lines, next);
      next := After(lines, next);
    }
  }

  /**
   * `indexDoc`: reads the file line by line and returns the documents it
   * adds to the writer, and whether `substring(3)` threw.
   */
  method IndexDoc(lines: seq<string>) returns (outcome: Outcome)
    ensures outcome == Parse(lines)
  {
    var added: seq<Document> := [];
    var docID: Option<string> := None;
    var title, author, content := "", "", "";
    var isContent := false;
    var next := 0;  // the index of the line the next readLine returns
    ghost var done: seq<Step> := [];
    while next < |lines|
      invariant next <= |lines|
      invariant done + Steps(lines, next) == Steps(lines, 0)
      invariant Run(done) == Parser(docID, title, author, content, isContent, added, None)
      decreases |lines| - next
    {
      ghost var (step, after) := StepAt(lines, next);
      ghost var before := Parser(docID, title, author, content, isContent, added, None);
      NextStep(lines, done, next);
      RunSnoc(done, step);
      var line: Option<string> := LineAt(lines, next);
      next := next + 1;
      if StartsWith(line.value, ".I") {
        assert step == DocMarker(line.value) && after == next;
        if docID.Some? {
          added := added + [MakeDocument(docID.value, title, author, content)];
          content := "";
          title := "";
          author := "";
        }
        if |line.value| < 3 {
          // line.substring(3) throws: the exception leaves indexDoc
          RunAfterThrow(done + [step], Steps(lines, after));
          return Threw(added, line.value);
        }
        docID := Some(Trim(line.value[3..]));
        assert Apply(before, step) == Parser(docID, title, author, content + Flagged(isContent, step), isContent, added, None);
        assert ContentText(step) == NullToString(line) + " ";
      } else if StartsWith(line.value, ".T") {
        var text;
        text, line, next := ReadSection(lines, next);
        assert step == TitleSection(text, line) && after == next;
        title := title + text;
        assert Apply(before, step) == Parser(docID, title, author, content + Flagged(isContent, step), isContent, added, None);
        assert ContentText(step) == NullToString(line) + " ";
      } else if StartsWith(line.value, ".A") {
        var text;
        text, line, next := ReadSection(lines, next);
        assert step == AuthorSection(text, line) && after == next;
        author := author + text;
        assert Apply(before, step) == Parser(docID, title, author, content + Flagged(isContent, step), isContent, added, None);
        assert ContentText(step) == NullToString(line) + " ";
      } else if StartsWith(line.value, ".W") {
        assert step == ContentMarker && after == next;
        isContent := true;
        assert Apply(before, step) == Parser(docID, title, author, content, isContent, added, None);
        done := done + [step];
        continue;
      } else {
        assert step == Other(line.value) && after == next;
        assert Apply(before, step) == Parser(docID, title, author, content + Flagged(isContent, step), isContent, added, None);
        assert ContentText(step) == NullToString(line) + " ";
      }
      ghost var extended := content + Flagged(isContent, step);
      // Append lines to content while the content flag is set
      if isContent {
        content := content + (NullToString(line) + " ");
      }
      assert content == extended;
      done := done + [step];
    }
    assert Steps(lines, next) == [] && done == Steps(lines, 0);
    if docID.Some? {
      added := added + [MakeDocument(docID.value, title, author, content)];
    }
    outcome := Indexed(added);
  }
}
