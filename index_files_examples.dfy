/**
 * Small Cranfield-style files worked through `indexDoc`, showing what the
 * parser does with the line that ends a section.
 */
module IndexFilesExamples {
  import opened JavaStrings
  import opened IndexFiles

  /** A line that does not start with "." is no marker and does not end a section. */
  lemma PlainLine(s: string)
    requires |s| > 0 && s[0] != '.'
    ensures !StartsWith(s, ".") && !StartsWith(s, ".I") && !StartsWith(s, ".T")
    ensures !StartsWith(s, ".A") && !StartsWith(s, ".W")
  {
    assert s[..1][0] == s[0];
    if |s| >= 2 {
      assert s[..2][0] == s[0];
    }
  }

  const CatsRecord: seq<string> := [".I 1", ".T", "Cats", ".A", "Smith", ".W", "Cats are small mammals."]

  /** The title pass reads "Cats" and swallows the ".A" line that ends its section. */
  lemma CatsRecordTitle()
    ensures StepAt(CatsRecord, 1) == (TitleSection("Cats ", Some(".A")), 4)
  {
    var lines := CatsRecord;
    PlainLine(lines[2]);
    assert lines[1][..2] == ".T" && lines[3][..1] == ".";
    assert SectionEnd(lines, 2) == 3;
    assert lines[2..3] == ["Cats"];
    assert Joined(["Cats"]) == "Cats ";
  }

  /** The passes after the title section: every line is examined on its own. */
  lemma CatsRecordTail()
    ensures Steps(CatsRecord, 4) == [Other("Smith"), ContentMarker, Other("Cats are small mammals.")]
  {
    var lines := CatsRecord;
    PlainLine(lines[4]);
    PlainLine(lines[6]);
    assert lines[5][..2] == ".W";
    assert Steps(lines, 6) == [Other("Cats are small mammals.")];
  }

  /** The outer loop makes five passes over the record. */
  lemma CatsRecordSteps()
    ensures Steps(CatsRecord, 0)
         == [DocMarker(".I 1"), TitleSection("Cats ", Some(".A")), Other("Smith"),
             ContentMarker, Other("Cats are small mammals.")]
  {
    var lines := CatsRecord;
    assert lines[0][..2] == ".I";
    CatsRecordTitle();
    CatsRecordTail();
  }

  /** The state after those passes: "Smith" went to no buffer. */
  lemma CatsRecordRun()
    ensures Run([DocMarker(".I 1"), TitleSection("Cats ", Some(".A")), Other("Smith"),
                 ContentMarker, Other("Cats are small mammals.")])
         == Parser(Some("1"), "Cats ", "", "Cats are small mammals. ", true, [], None)
  {
    var d, t, o, w, c := DocMarker(".I 1"), TitleSection("Cats ", Some(".A")), Other("Smith"),
                         ContentMarker, Other("Cats are small mammals.");
    assert ".I 1"[3..] == "1";
    assert Trim("1") == "1";
    RunSnoc([], d);
    assert Run([d]) == Parser(Some("1"), "", "", "", false, [], None);
    RunSnoc([d], t);
    assert [d] + [t] == [d, t];
    assert Run([d, t]) == Parser(Some("1"), "Cats ", "", "", false, [], None);
    RunSnoc([d, t], o);
    assert [d, t] + [o] == [d, t, o];
    assert Run([d, t, o]) == Parser(Some("1"), "Cats ", "", "", false, [], None);
    RunSnoc([d, t, o], w);
    assert [d, t, o] + [w] == [d, t, o, w];
    assert Run([d, t, o, w]) == Parser(Some("1"), "Cats ", "", "", true, [], None);
    RunSnoc([d, t, o, w], c);
    assert [d, t, o, w] + [c] == [d, t, o, w, c];
  }

  /**
   * A record whose title section is ended by its ".A" line: that line is
   * swallowed, so the author section is never entered and "Smith" reaches no
   * field; the content flag is still clear then, so it is not in the
   * contents either.
   */
  lemma AuthorLineSwallowed()
    ensures Parse(CatsRecord) == Indexed([MakeDocument("1", "Cats ", "", "Cats are small mammals. ")])
  {
    CatsRecordSteps();
    CatsRecordRun();
  }

  const BareMarkerFile: seq<string> := [".I 1", ".W", "x", ".I"]

  lemma BareMarkerSteps()
    ensures Steps(BareMarkerFile, 0) == [DocMarker(".I 1"), ContentMarker, Other("x"), DocMarker(".I")]
  {
    var lines := BareMarkerFile;
    PlainLine(lines[2]);
    assert lines[0][..2] == ".I" && lines[1][..2] == ".W" && lines[3][..2] == ".I";
    assert Steps(lines, 3) == [DocMarker(".I")];
    assert Steps(lines, 2) == [Other("x"), DocMarker(".I")];
  }

  /**
   * A bare ".I" line: the document before it is added first, then
   * `substring(3)` throws. The ".W" line itself never reaches the contents.
   */
  lemma BareMarkerThrows()
    ensures Parse(BareMarkerFile) == Threw([MakeDocument("1", "", "", "x ")], ".I")
  {
    BareMarkerSteps();
    var d, w, x, b := DocMarker(".I 1"), ContentMarker, Other("x"), DocMarker(".I");
    assert ".I 1"[3..] == "1";
    assert Trim("1") == "1";
    RunSnoc([], d);
    assert Run([d]) == Parser(Some("1"), "", "", "", false, [], None);
    RunSnoc([d], w);
    assert [d] + [w] == [d, w];
    RunSnoc([d, w], x);
    assert [d, w] + [x] == [d, w, x];
    assert Run([d, w, x]) == Parser(Some("1"), "", "", "x ", true, [], None);
    RunSnoc([d, w, x], b);
    assert [d, w, x] + [b] == [d, w, x, b];
  }

  const OpenSectionFile: seq<string> := [".I 2", ".W", ".T", "a"]

  lemma OpenSectionSteps()
    ensures Steps(OpenSectionFile, 0) == [DocMarker(".I 2"), ContentMarker, TitleSection("a ", None)]
  {
    var lines := OpenSectionFile;
    PlainLine(lines[3]);
    assert lines[0][..2] == ".I" && lines[1][..2] == ".W" && lines[2][..2] == ".T";
    assert SectionEnd(lines, 3) == 4;
    assert lines[3..4] == ["a"];
    assert Joined(["a"]) == "a ";
    assert Steps(lines, 2) == [TitleSection("a ", None)];
  }

  /**
   * A title section that runs to the end of the file, after ".W": the null
   * that ended it is appended to the contents as "null ".
   */
  lemma OpenSectionAppendsNull()
    ensures Parse(OpenSectionFile) == Indexed([MakeDocument("2", "a ", "", "null ")])
  {
    OpenSectionSteps();
    var d, w, t := DocMarker(".I 2"), ContentMarker, TitleSection("a ", None);
    assert ".I 2"[3..] == "2";
    assert Trim("2") == "2";
    RunSnoc([], d);
    assert Run([d]) == Parser(Some("2"), "", "", "", false, [], None);
    RunSnoc([d], w);
    assert [d] + [w] == [d, w];
    assert Run([d, w]) == Parser(Some("2"), "", "", "", true, [], None);
    RunSnoc([d, w], t);
    assert [d, w] + [t] == [d, w, t];
    assert Run([d, w, t]) == Parser(Some("2"), "a ", "", "null ", true, [], None);
  }

  const LeadingContentFile: seq<string> := [".W", "x", ".I  "]

  lemma LeadingContentSteps()
    ensures Steps(LeadingContentFile, 0) == [ContentMarker, Other("x"), DocMarker(".I  ")]
  {
    var lines := LeadingContentFile;
    PlainLine(lines[1]);
    assert lines[0][..2] == ".W" && lines[2][..2] == ".I";
    assert Steps(lines, 2) == [DocMarker(".I  ")];
    assert Steps(lines, 1) == [Other("x"), DocMarker(".I  ")];
  }

  lemma LeadingContentRun()
    ensures Run([ContentMarker, Other("x"), DocMarker(".I  ")]) == Parser(Some(""), "", "", "x .I   ", true, [], None)
  {
    var w, o, d := ContentMarker, Other("x"), DocMarker(".I  ");
    assert ".I  "[3..] == " ";
    assert LeadingBlanks(" ") == 1;
    RunSnoc([], w);
    assert Run([w]) == Start.(isContent := true);
    RunSnoc([w], o);
    assert [w] + [o] == [w, o];
    assert Run([w, o]) == Start.(isContent := true, content := "x ");
    RunSnoc([w, o], d);
    assert [w, o] + [d] == [w, o, d];
    assert "x " + (".I  " + " ") == "x .I   ";
  }

  /**
   * Content read before the first ".I" line belongs to the first document;
   * an ".I" line read while the content flag is set is itself appended to
   * the contents; and an ".I" line with nothing after the marker still adds
   * a document, with an empty id.
   */
  lemma EmptyIdKept()
    ensures Parse(LeadingContentFile) == Indexed([MakeDocument("", "", "", "x .I   ")])
  {
    LeadingContentSteps();
    LeadingContentRun();
  }
}
