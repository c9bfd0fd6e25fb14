/**
 * What `indexDoc` produces, stated without its loop: which documents it adds,
 * with which id, title, author and contents, when it throws, and which lines
 * its outer loop examines as markers.
 */
module IndexFilesProperties {
  import opened JavaStrings
  import opened IndexFiles

  /** The positions of the `.I` passes among `steps`, in order. */
  function Marks(steps: seq<Step>): (ms: seq<nat>)
    ensures forall k :: 0 <= k < |ms| ==> ms[k] < |steps| && steps[ms[k]].DocMarker?
    ensures forall k, l :: 0 <= k < l < |ms| ==> ms[k] < ms[l]
    decreases |steps|
  {
    if steps == [] then []
    else
      var init := steps[..|steps| - 1];
      var ms := Marks(init);
      assert forall k :: 0 <= k < |ms| ==> steps[ms[k]] == init[ms[k]];
      ms + (if steps[|steps| - 1].DocMarker? then [|steps| - 1] else [])
  }

  /** Every `.I` pass is listed by `Marks`. */
  lemma {:induction false} MarksComplete(steps: seq<Step>, j: nat)
    requires j < |steps| && steps[j].DocMarker?
    ensures j in Marks(steps)
    decreases |steps|
  {
    var init := steps[..|steps| - 1];
    if j < |init| {
      assert init[j] == steps[j];
      MarksComplete(init, j);
    }
  }

  /** Every `.I` line the outer loop reads is long enough for `substring(3)`. */
  predicate NoBareMarker(steps: seq<Step>)
  {
    forall j :: 0 <= j < |steps| && steps[j].DocMarker? ==> |steps[j].line| >= 3
  }

  /** Whether a `.W` pass is among `steps`: from the first one on, the content flag stays set. */
  predicate HasContentMarker(steps: seq<Step>)
    decreases |steps|
  {
    steps != [] && (HasContentMarker(steps[..|steps| - 1]) || steps[|steps| - 1].ContentMarker?)
  }

  /** What the given passes append to the title buffer. */
  function Titles(steps: seq<Step>): string
    decreases |steps|
  {
    if steps == [] then "" else Titles(steps[..|steps| - 1]) + TitleText(steps[|steps| - 1])
  }

  /** What the given passes append to the author buffer. */
  function Authors(steps: seq<Step>): string
    decreases |steps|
  {
    if steps == [] then "" else Authors(steps[..|steps| - 1]) + AuthorText(steps[|steps| - 1])
  }

  /**
   * What the given passes append to the content buffer when the content flag
   * is `isContent` before the first of them: the flag is set from the first
   * `.W` pass on and never cleared.
   */
  function Contents(steps: seq<Step>, isContent: bool): string
    decreases |steps|
  {
    if steps == [] then ""
    else
      var init := steps[..|steps| - 1];
      Contents(init, isContent) + Flagged(isContent || HasContentMarker(init), steps[|steps| - 1])
  }

  /** Where the passes that fill document `k` begin: at its own `.I`, or at the start of the file for the first document. */
  function Lo(ms: seq<nat>, k: nat): nat
    requires k < |ms|
  {
    if k == 0 then 0 else ms[k]
  }

  /** Where the passes that fill document `k` end: at the next `.I`, or at the end of the file. */
  function Hi(steps: seq<Step>, ms: seq<nat>, k: nat): nat
    requires k < |ms|
  {
    if k + 1 < |ms| then ms[k + 1] else |steps|
  }

  /** The id `.I` line `line` gives its document: `line.substring(3).trim()`. */
  function IdOf(line: string): string
    requires |line| >= 3
  {
    Trim(line[3..])
  }

  /**
   * The document the `k`-th `.I` pass starts: its id comes from that line, and
   * its title, author and contents are what the passes from `Lo` up to `Hi`
   * append, the content flag being whatever the earlier passes left it.
   */
  function DocumentAt(steps: seq<Step>, k: nat): Document
    requires k < |Marks(steps)| && NoBareMarker(steps)
  {
    var ms := Marks(steps);
    var lo := Lo(ms, k);
    var hi := Hi(steps, ms, k);
    var segment := steps[lo..hi];
    MakeDocument(IdOf(steps[ms[k]].line), Titles(segment), Authors(segment),
                 Contents(segment, HasContentMarker(steps[..lo])))
  }

  /** Where the passes that fill the document in progress begin. */
  function CurrentLo(steps: seq<Step>): (lo: nat)
    ensures lo <= |steps|
  {
    var ms := Marks(steps);
    if |ms| <= 1 then 0 else ms[|ms| - 1]
  }

  /** The id of the document in progress: that of the last `.I` pass, if any. */
  function CurrentId(steps: seq<Step>): Option<string>
    requires NoBareMarker(steps)
  {
    var ms := Marks(steps);
    if ms == [] then None else Some(IdOf(steps[ms[|ms| - 1]].line))
  }

  /** `added` are the documents the first `.I` passes of `steps` start. */
  ghost predicate Closed(steps: seq<Step>, added: seq<Document>)
    requires NoBareMarker(steps)
  {
    && |added| <= |Marks(steps)|
    && forall k :: 0 <= k < |added| ==> added[k] == DocumentAt(steps, k)
  }

  /** The three buffers of `p` hold what the passes of `steps` from `lo` on appended. */
  ghost predicate Buffers(steps: seq<Step>, lo: nat, p: Parser)
    requires lo <= |steps|
  {
    && p.title == Titles(steps[lo..])
    && p.author == Authors(steps[lo..])
    && p.content == Contents(steps[lo..], HasContentMarker(steps[..lo]))
  }

  /** The parser's state after the passes `steps`, stated without the fold. */
  ghost predicate Describes(steps: seq<Step>, p: Parser)
    requires NoBareMarker(steps)
  {
    var ms := Marks(steps);
    && p.threwAt == None
    && p.isContent == HasContentMarker(steps)
    && p.docID == CurrentId(steps)
    && |p.added| == (if ms == [] then 0 else |ms| - 1)
    && Closed(steps, p.added)
    && Buffers(steps, CurrentLo(steps), p)
  }

  lemma MarksSnoc(steps: seq<Step>, step: Step)
    ensures Marks(steps + [step]) == Marks(steps) + (if step.DocMarker? then [|steps|] else [])
    ensures HasContentMarker(steps + [step]) == (HasContentMarker(steps) || step.ContentMarker?)
  {
    assert (steps + [step])[..|steps|] == steps;
  }

  /** The segment functions take one more pass at their end. */
  lemma SegmentSnoc(steps: seq<Step>, step: Step, isContent: bool)
    ensures Titles(steps + [step]) == Titles(steps) + TitleText(step)
    ensures Authors(steps + [step]) == Authors(steps) + AuthorText(step)
    ensures Contents(steps + [step], isContent)
         == Contents(steps, isContent) + Flagged(isContent || HasContentMarker(steps), step)
  {
    assert (steps + [step])[..|steps|] == steps;
  }

  /** Adding a pass does not change the documents already closed by a later `.I`. */
  lemma DocumentAtSnoc(steps: seq<Step>, step: Step, k: nat)
    requires NoBareMarker(steps + [step])
    requires k + 1 < |Marks(steps)|
    ensures NoBareMarker(steps)
    ensures k < |Marks(steps + [step])|
    ensures DocumentAt(steps + [step], k) == DocumentAt(steps, k)
  {
    var steps' := steps + [step];
    assert forall j :: 0 <= j < |steps| ==> steps'[j] == steps[j];
    MarksSnoc(steps, step);
    var ms := Marks(steps);
    var lo, hi := Lo(ms, k), ms[k + 1];
    assert steps'[lo..hi] == steps[lo..hi];
    assert steps'[..lo] == steps[..lo];
  }

  /** The documents closed before the last `.I` of `steps` stay as they are. */
  lemma ClosedDocumentsKept(steps: seq<Step>, step: Step, steps': seq<Step>, p: Parser)
    requires steps' == steps + [step]
    requires NoBareMarker(steps')
    requires NoBareMarker(steps) && Describes(steps, p)
    ensures Closed(steps', p.added)
  {
    MarksSnoc(steps, step);
    forall k | 0 <= k < |p.added|
      ensures p.added[k] == DocumentAt(steps', k)
    {
      assert k + 1 < |Marks(steps)|;
      DocumentAtSnoc(steps, step, k);
    }
  }

  /** Whether a `.W` pass occurred, split at `lo`. */
  lemma {:induction false} ContentMarkerSplit(steps: seq<Step>, lo: nat)
    requires lo <= |steps|
    ensures HasContentMarker(steps) <==> HasContentMarker(steps[..lo]) || HasContentMarker(steps[lo..])
    decreases |steps|
  {
    if lo < |steps| {
      var init := steps[..|steps| - 1];
      ContentMarkerSplit(init, lo);
      assert init[..lo] == steps[..lo];
      assert steps[lo..][..|steps| - 1 - lo] == init[lo..];
    } else {
      assert steps[..lo] == steps;
      assert steps[lo..] == [];
    }
  }

  /** What a pass other than `.I` does to a state that has not thrown. */
  lemma ApplyOther(p: Parser, step: Step)
    requires !step.DocMarker? && p.threwAt == None
    ensures var q := Apply(p, step);
      && q.threwAt == None && q.docID == p.docID && q.added == p.added
      && q.isContent == (p.isContent || step.ContentMarker?)
      && q.title == p.title + TitleText(step)
      && q.author == p.author + AuthorText(step)
      && q.content == p.content + Flagged(p.isContent, step)
  {
  }

  /** A pass appends to the buffers of the document in progress. */
  lemma BuffersSnoc(steps: seq<Step>, step: Step, steps': seq<Step>, lo: nat, p: Parser, q: Parser)
    requires steps' == steps + [step] && lo <= |steps|
    requires Buffers(steps, lo, p)
    requires q.title == p.title + TitleText(step) && q.author == p.author + AuthorText(step)
    requires q.content == p.content + Flagged(HasContentMarker(steps), step)
    ensures Buffers(steps', lo, q)
  {
    var segment, segment' := steps[lo..], steps'[lo..];
    var before := HasContentMarker(steps[..lo]);
    assert segment' == segment + [step];
    assert steps'[..lo] == steps[..lo];
    ContentMarkerSplit(steps, lo);
    assert HasContentMarker(steps) == (before || HasContentMarker(segment));
    SegmentSnoc(segment, step, before);
    assert Titles(segment') == Titles(segment) + TitleText(step);
    assert Authors(segment') == Authors(segment) + AuthorText(step);
    assert Contents(segment', before) == Contents(segment, before) + Flagged(HasContentMarker(steps), step);
  }

  /** The segment functions on a single pass. */
  lemma SegmentSingle(step: Step, isContent: bool)
    ensures Titles([step]) == TitleText(step)
    ensures Authors([step]) == AuthorText(step)
    ensures Contents([step], isContent) == Flagged(isContent, step)
  {
    var none: seq<Step> := [];
    assert [step][..0] == none;
    assert Titles(none) == "" && Authors(none) == "" && Contents(none, isContent) == "" && !HasContentMarker(none);
  }

  /** A `.I` pass starts the buffers afresh with its own contribution. */
  lemma BuffersFresh(steps: seq<Step>, step: Step, steps': seq<Step>, q: Parser)
    requires steps' == steps + [step]
    requires q.title == TitleText(step) && q.author == AuthorText(step)
    requires q.content == Flagged(HasContentMarker(steps), step)
    ensures Buffers(steps', |steps|, q)
  {
    assert steps'[..|steps|] == steps;
    assert steps'[|steps|..] == [step];
    SegmentSingle(step, HasContentMarker(steps));
  }

  /** A pass other than `.I` leaves the `.I` passes, and so the document in progress, where they are. */
  lemma OtherKeepsMarks(steps: seq<Step>, step: Step, steps': seq<Step>)
    requires steps' == steps + [step] && !step.DocMarker?
    requires NoBareMarker(steps) && NoBareMarker(steps')
    ensures Marks(steps') == Marks(steps)
    ensures CurrentLo(steps') == CurrentLo(steps)
    ensures CurrentId(steps') == CurrentId(steps)
  {
    MarksSnoc(steps, step);
    var ms := Marks(steps);
    if ms != [] {
      assert steps'[ms[|ms| - 1]] == steps[ms[|ms| - 1]];
    }
  }

  /** A pass other than `.I` extends the document in progress. */
  lemma DescribesOther(steps: seq<Step>, step: Step, p: Parser)
    requires !step.DocMarker?
    requires NoBareMarker(steps + [step])
    requires NoBareMarker(steps) && Describes(steps, p)
    ensures Describes(steps + [step], Apply(p, step))
  {
    var steps' := steps + [step];
    var q := Apply(p, step);
    ApplyOther(p, step);
    OtherKeepsMarks(steps, step, steps');
    MarksSnoc(steps, step);
    ClosedDocumentsKept(steps, step, steps', p);
    BuffersSnoc(steps, step, steps', CurrentLo(steps), p, q);
  }

  /** The first `.I` pass keeps what came before it in its document. */
  lemma DescribesFirstMarker(steps: seq<Step>, step: Step, p: Parser)
    requires step.DocMarker? && Marks(steps) == []
    requires NoBareMarker(steps + [step])
    requires NoBareMarker(steps) && Describes(steps, p)
    ensures Describes(steps + [step], Apply(p, step))
  {
    var steps' := steps + [step];
    MarksSnoc(steps, step);
    assert steps'[|steps|] == step;
    assert CurrentLo(steps') == 0;
    BuffersSnoc(steps, step, steps', 0, p, Apply(p, step));
  }

  /** The document a later `.I` pass closes is the one `DocumentAt` describes. */
  lemma LastDocument(steps: seq<Step>, step: Step, steps': seq<Step>, p: Parser)
    requires steps' == steps + [step]
    requires step.DocMarker? && Marks(steps) != []
    requires NoBareMarker(steps')
    requires NoBareMarker(steps) && Describes(steps, p)
    ensures |Marks(steps)| - 1 < |Marks(steps')|
    ensures DocumentAt(steps', |Marks(steps)| - 1) == MakeDocument(p.docID.value, p.title, p.author, p.content)
  {
    var ms := Marks(steps);
    var ms' := Marks(steps');
    MarksSnoc(steps, step);
    var n := |ms|;
    var lo := CurrentLo(steps);
    assert Lo(ms', n - 1) == lo && Hi(steps', ms', n - 1) == |steps|;
    assert steps'[lo..|steps|] == steps[lo..];
    assert steps'[..lo] == steps[..lo];
    assert steps'[ms'[n - 1]] == steps[ms[n - 1]];
  }

  /** A later `.I` pass closes the document in progress and starts afresh. */
  lemma DescribesNextMarker(steps: seq<Step>, step: Step, p: Parser)
    requires step.DocMarker? && Marks(steps) != []
    requires NoBareMarker(steps + [step])
    requires NoBareMarker(steps) && Describes(steps, p)
    ensures Describes(steps + [step], Apply(p, step))
  {
    var steps' := steps + [step];
    var q := Apply(p, step);
    var ms := Marks(steps);
    MarksSnoc(steps, step);
    var n := |ms|;
    ClosedDocumentsKept(steps, step, steps', p);
    LastDocument(steps, step, steps', p);
    assert q.added == p.added + [MakeDocument(p.docID.value, p.title, p.author, p.content)];
    assert Closed(steps', q.added);
    assert steps'[|steps|] == step;
    assert CurrentLo(steps') == |steps|;
    BuffersFresh(steps, step, steps', q);
  }

  /** One more pass keeps `Describes`: the heart of the closed form. */
  lemma DescribesSnoc(steps: seq<Step>, step: Step, p: Parser)
    requires NoBareMarker(steps + [step])
    requires NoBareMarker(steps) && Describes(steps, p)
    ensures Describes(steps + [step], Apply(p, step))
  {
    if !step.DocMarker? {
      DescribesOther(steps, step, p);
    } else if Marks(steps) == [] {
      DescribesFirstMarker(steps, step, p);
    } else {
      DescribesNextMarker(steps, step, p);
    }
  }

  /** `Describes` holds of every prefix of a run without a bare `.I`. */
  lemma {:induction false} RunDescribed(steps: seq<Step>)
    requires NoBareMarker(steps)
    ensures Describes(steps, Run(steps))
    decreases |steps|
  {
    if steps == [] {
      assert Marks(steps) == [];
    } else {
      var init := steps[..|steps| - 1];
      var last := steps[|steps| - 1];
      assert steps == init + [last];
      RunDescribed(init);
      DescribesSnoc(init, last, Run(init));
    }
  }

  /** The fold throws exactly when some `.I` pass has a line shorter than three characters. */
  lemma {:induction false} RunThrows(steps: seq<Step>)
    ensures Run(steps).threwAt.Some? <==> !NoBareMarker(steps)
    ensures Run(steps).threwAt.Some? ==> DocMarker(Run(steps).threwAt.value) in steps
    ensures Run(steps).threwAt.Some? ==> |Run(steps).threwAt.value| < 3
    decreases |steps|
  {
    if steps != [] {
      var init := steps[..|steps| - 1];
      var last := steps[|steps| - 1];
      assert steps == init + [last];
      RunThrows(init);
      var p := Run(init);
      assert Run(steps) == Apply(p, last);
      if p.threwAt.Some? {
        assert Run(steps) == p;
        var j :| 0 <= j < |init| && init[j].DocMarker? && |init[j].line| < 3;
        assert steps[j] == init[j];
        var i :| 0 <= i < |init| && init[i] == DocMarker(p.threwAt.value);
        assert steps[i] == init[i];
      } else {
        assert NoBareMarker(steps) <==> !(last.DocMarker? && |last.line| < 3) by {
          assert forall j :: 0 <= j < |init| ==> steps[j] == init[j];
        }
        assert last in steps;
      }
    }
  }

  /** The document still in progress at end of file is the one the last `.I` pass starts. */
  lemma OpenDocument(steps: seq<Step>, p: Parser)
    requires NoBareMarker(steps) && Describes(steps, p) && Marks(steps) != []
    ensures DocumentAt(steps, |Marks(steps)| - 1) == MakeDocument(p.docID.value, p.title, p.author, p.content)
  {
    var ms := Marks(steps);
    var n := |ms|;
    var lo := CurrentLo(steps);
    assert Lo(ms, n - 1) == lo;
    assert Hi(steps, ms, n - 1) == |steps|;
    assert steps[lo..|steps|] == steps[lo..];
  }

  /** At end of file the documents added are exactly those `DocumentAt` describes. */
  lemma FinishDescribed(steps: seq<Step>, p: Parser)
    requires NoBareMarker(steps) && p.threwAt == None
    requires p.docID.Some? <==> Marks(steps) != []
    requires |p.added| == (if Marks(steps) == [] then 0 else |Marks(steps)| - 1)
    requires Closed(steps, p.added)
    requires Marks(steps) != [] ==>
      DocumentAt(steps, |Marks(steps)| - 1) == MakeDocument(p.docID.value, p.title, p.author, p.content)
    ensures Finish(p).Indexed?
    ensures |Finish(p).docs| == |Marks(steps)|
    ensures Closed(steps, Finish(p).docs)
  {
    var docs := Finish(p).docs;
    if Marks(steps) != [] {
      var last := |p.added|;
      assert docs == p.added + [DocumentAt(steps, last)];
      forall k | 0 <= k < |docs|
        ensures docs[k] == DocumentAt(steps, k)
      {
        if k < last {
          assert docs[k] == p.added[k];
        }
      }
    }
  }

  /**
   * The main property of `indexDoc`. It throws exactly when one of the `.I`
   * lines its outer loop examines has fewer than three characters. Otherwise
   * it adds one document per such `.I` line, in file order, the last one at
   * end of file; the `k`-th document's id is `substring(3).trim()` of its
   * `.I` line, and its title, author and contents are exactly what the passes
   * from its `.I` line (from the start of the file, for the first document)
   * up to the next `.I` line append, so that no text of one document reaches
   * another.
   */
  lemma ParseDocuments(lines: seq<string>)
    ensures var steps := Steps(lines, 0);
      Parse(lines).Indexed? <==> NoBareMarker(steps)
    ensures var steps := Steps(lines, 0);
      var out := Parse(lines);
      out.Indexed? ==>
        && |out.docs| == |Marks(steps)|
        && forall k :: 0 <= k < |out.docs| ==> out.docs[k] == DocumentAt(steps, k)
  {
    var steps := Steps(lines, 0);
    RunThrows(steps);
    if NoBareMarker(steps) {
      RunDescribed(steps);
      if Marks(steps) != [] {
        OpenDocument(steps, Run(steps));
      }
      FinishDescribed(steps, Run(steps));
    }
  }

  /** Every `.I` pass reads a line of the file that starts with ".I". */
  lemma {:induction false} MarkerLinesFromFile(lines: seq<string>, i: nat)
    ensures forall s :: s in Steps(lines, i) && s.DocMarker? ==> s.line in lines && StartsWith(s.line, ".I")
    decreases |lines| - i
  {
    if i < |lines| {
      var (step, next) := StepAt(lines, i);
      MarkerLinesFromFile(lines, next);
      assert Steps(lines, i) == [step] + Steps(lines, next);
    }
  }

  /**
   * `substring(3)` throws exactly when the outer loop examines a line that is
   * ".I" and nothing else.
   */
  lemma ThrowsOnBareMarker(lines: seq<string>)
    ensures Parse(lines).Threw? ==> Parse(lines).line == ".I"
    ensures Parse(lines).Threw? <==> DocMarker(".I") in Steps(lines, 0)
  {
    var steps := Steps(lines, 0);
    RunThrows(steps);
    MarkerLinesFromFile(lines, 0);
    if Parse(lines).Threw? {
      var l := Parse(lines).line;
      assert StartsWith(l, ".I") && |l| < 3;
      assert l == l[..2];
    }
    if DocMarker(".I") in steps {
      var j :| 0 <= j < |steps| && steps[j] == DocMarker(".I");
      assert !NoBareMarker(steps);
    }
  }

  /**
   * When `substring(3)` throws, the documents already added are exactly those
   * the file would have given had it ended just before the bare ".I" line;
   * the passes after it are never made.
   */
  lemma ThrowKeepsEarlierDocuments(before: seq<Step>, after: seq<Step>)
    requires NoBareMarker(before)
    ensures Finish(Run(before + [DocMarker(".I")] + after)) == Threw(Finish(Run(before)).docs, ".I")
  {
    var bare := DocMarker(".I");
    RunThrows(before);
    RunSnoc(before, bare);
    RunAfterThrow(before + [bare], after);
  }

  /** Passes without a `.I` among them have no marks. */
  lemma {:induction false} NoMarks(steps: seq<Step>)
    requires forall j :: 0 <= j < |steps| ==> !steps[j].DocMarker?
    ensures Marks(steps) == []
    decreases |steps|
  {
    if steps != [] {
      NoMarks(steps[..|steps| - 1]);
    }
  }

  /** A file without any line starting with ".I" gives no document and never throws. */
  lemma NoMarkerNoDocuments(lines: seq<string>)
    requires forall j :: 0 <= j < |lines| ==> !StartsWith(lines[j], ".I")
    ensures Parse(lines) == Indexed([])
  {
    var steps := Steps(lines, 0);
    MarkerLinesFromFile(lines, 0);
    forall j | 0 <= j < |steps|
      ensures !steps[j].DocMarker?
    {
      assert steps[j] in steps;
    }
    NoMarks(steps);
    ParseDocuments(lines);
  }

  /** How the outer loop classifies a line when no section follows it. */
  function Classify(line: string): Step
  {
    if StartsWith(line, ".I") then DocMarker(line)
    else if StartsWith(line, ".W") then ContentMarker
    else Other(line)
  }

  /**
   * Without `.T` and `.A` lines no line is swallowed by an inner loop: the
   * outer loop examines every line in turn, so every line starting with ".I"
   * starts a document.
   */
  lemma {:induction false} EveryLineSeenWithoutSections(lines: seq<string>, i: nat)
    requires i <= |lines|
    requires forall j :: i <= j < |lines| ==> !StartsWith(lines[j], ".T") && !StartsWith(lines[j], ".A")
    ensures |Steps(lines, i)| == |lines| - i
    ensures forall k :: 0 <= k < |lines| - i ==> Steps(lines, i)[k] == Classify(lines[i + k])
    decreases |lines| - i
  {
    if i < |lines| {
      var rest := Steps(lines, i + 1);
      EveryLineSeenWithoutSections(lines, i + 1);
      assert StepAt(lines, i) == (Classify(lines[i]), i + 1);
      var all := Steps(lines, i);
      assert all == [Classify(lines[i])] + rest;
      forall k | 0 <= k < |lines| - i
        ensures all[k] == Classify(lines[i + k])
      {
        if k > 0 {
          assert all[k] == rest[k - 1];
        }
      }
    }
  }
}
