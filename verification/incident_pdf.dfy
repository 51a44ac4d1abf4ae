/**
 The page layout of the PDF incident report (dashboard/src/lib/exportIncident.js:90-178), in
 millimetres on A4. How the PDF library breaks text into lines is left open: any lines will do.
 */
module IncidentPdf {

  const PAGE_MARGIN: real := 15.0
  const PAGE_HEIGHT: real := 297.0
  const BOTTOM: real := PAGE_HEIGHT - PAGE_MARGIN

  /** The least distance between two marks on one page. */
  const LEADING: real := 5.0

  datatype Mark = Text(line: string) | Rule

  datatype Draw = Draw(page: nat, y: real, mark: Mark)

  datatype Entry = Entry(heading: string, detailLines: seq<string>)

  datatype Report = Report(
    id: string, titleLines: seq<string>,
    severity: string, status: string, target: string, sourceIp: string, sourceCountry: string,
    firstDetected: string, correlationRule: string, mitrePath: string,
    storyline: seq<Entry>, footer: string)

  // ---- What has to be on paper, in reading order ----

  function Texts(lines: seq<string>): (r: seq<Mark>)
    ensures |r| == |lines|
  {
    if lines == [] then [] else Texts(lines[..|lines| - 1]) + [Text(lines[|lines| - 1])]
  }

  function Facts(r: Report): seq<string> {
    ["Severity: " + r.severity + "   Status: " + r.status,
     "Target: " + r.target,
     "Source: " + r.sourceIp + " (" + r.sourceCountry + ")",
     "First Detected: " + r.firstDetected,
     "Correlation Rule: " + r.correlationRule,
     "MITRE Path: " + r.mitrePath]
  }

  function Story(entries: seq<Entry>): seq<Mark> {
    if entries == [] then []
    else
      var last := entries[|entries| - 1];
      Story(entries[..|entries| - 1]) + [Text(last.heading)] + Texts(last.detailLines)
  }

  const STORY_HEADING: string := "Attack Storyline (WAS / WAF / Falco / K8s Audit)"

  function Head(heading: string, titleLines: seq<string>, facts: seq<string>): seq<Mark> {
    [Text(heading)] + Texts(titleLines) + Texts(facts)
  }

  function Script(r: Report): seq<Mark> {
    Head("Incident Report - " + r.id, r.titleLines, Facts(r))
    + [Rule, Text(STORY_HEADING)] + Story(r.storyline) + [Text(r.footer)]
  }

  function Marks(draws: seq<Draw>): (r: seq<Mark>)
    ensures |r| == |draws|
  {
    if draws == [] then [] else Marks(draws[..|draws| - 1]) + [draws[|draws| - 1].mark]
  }

  // ---- What makes a layout good ----

  /** Within the 15 mm margins of the 297 mm high page. */
  predicate OnPaper(d: Draw) { 15.0 <= d.y <= 282.0 }

  /** `b` comes right after `a`: at least 5 mm further down the same page, or on the next one. */
  predicate FollowsOn(a: Draw, b: Draw) {
    (b.page == a.page && b.y >= a.y + 5.0) || b.page == a.page + 1
  }

  predicate LaidOut(draws: seq<Draw>) {
    && (forall i :: 0 <= i < |draws| ==> OnPaper(draws[i]))
    && (draws != [] ==> draws[0].page == 0)
    && forall i :: 0 < i < |draws| ==> FollowsOn(draws[i - 1], draws[i])
  }

  /** The cursor is below everything on its page. */
  predicate CursorClear(draws: seq<Draw>, page: nat, y: real) {
    && y >= PAGE_MARGIN
    && if draws == [] then page == 0 else FollowsOn(draws[|draws| - 1], Draw(page, y, Rule))
  }

  class PdfReport {
    var y: real
    var page: nat
    var draws: seq<Draw>

    ghost predicate Valid()
      reads this
    {
      LaidOut(draws) && CursorClear(draws, page, y)
    }

    /** Something is on the current page already. */
    ghost predicate Current()
      reads this
    {
      Valid() && draws != [] && draws[|draws| - 1].page == page
    }

    constructor ()
      ensures Valid() && draws == [] && y == PAGE_MARGIN && page == 0
    {
      y, page, draws := PAGE_MARGIN, 0, [];
    }

    /** A new page when the needed height does not fit above the bottom margin. */
    method EnsureSpace(neededMm: real)
      requires Current() && 0.0 <= neededMm <= 100.0
      modifies this`y, this`page
      ensures Valid() && y + neededMm <= BOTTOM
      ensures if old(y) + neededMm > BOTTOM then page == old(page) + 1 && y == PAGE_MARGIN
              else page == old(page) && y == old(y)
    {
      if y + neededMm > BOTTOM {
        page, y := page + 1, PAGE_MARGIN;
      }
    }

    /** Draws at the cursor and moves it down. */
    method Put(mark: Mark, advance: real)
      requires Valid() && y <= BOTTOM && advance >= LEADING
      modifies this
      ensures Valid() && draws == old(draws) + [Draw(old(page), old(y), mark)]
      ensures y == old(y) + advance && page == old(page) && Current()
      ensures Marks(draws) == old(Marks(draws)) + [mark]
    {
      draws := draws + [Draw(page, y, mark)];
      assert draws[..|draws| - 1] == old(draws);
      y := y + advance;
    }

    method WriteLines(lines: seq<string>, lineHeight: real)
      requires Current() && LEADING <= lineHeight <= 100.0
      modifies this
      ensures Current()
      ensures Marks(draws) == old(Marks(draws)) + Texts(lines)
    {
      for k := 0 to |lines|
        invariant Current()
        invariant Marks(draws) == old(Marks(draws)) + Texts(lines[..k])
      {
        EnsureSpace(lineHeight);
        Put(Text(lines[k]), lineHeight);
        TextsStep(old(Marks(draws)), lines, k);
      }
      assert lines[..|lines|] == lines;
    }

    /** Extra room before what comes next. */
    method Skip(mm: real)
      requires Valid() && mm >= 0.0
      modifies this`y
      ensures Valid() && y == old(y) + mm
    {
      y := y + mm;
    }

    method WriteEntry(entry: Entry, last: bool)
      requires Current()
      modifies this
      ensures Current()
      ensures Marks(draws) == old(Marks(draws)) + [Text(entry.heading)] + Texts(entry.detailLines)
    {
      EnsureSpace(12.0);
      Put(Text(entry.heading), 6.0);
      WriteLines(entry.detailLines, 5.0);
      Skip(if last then 0.0 else 4.0);
    }

    method WriteHead(heading: string, titleLines: seq<string>, facts: seq<string>)
      requires Valid() && draws == [] && y == PAGE_MARGIN
      modifies this
      ensures Current() && Marks(draws) == Head(heading, titleLines, facts)
    {
      Put(Text(heading), 8.0);
      assert Marks(draws) == [Text(heading)];
      WriteLines(titleLines, 6.0);
      Skip(2.0);
      WriteLines(facts, 5.5);
    }

    /** The rule and the heading below it. */
    method WriteDivider()
      requires Current()
      modifies this
      ensures Current() && Marks(draws) == old(Marks(draws)) + [Rule, Text(STORY_HEADING)]
    {
      ghost var before := Marks(draws);
      Skip(3.0);
      EnsureSpace(10.0);
      Put(Rule, 8.0);
      Put(Text(STORY_HEADING), 8.0);
      assert before + [Rule] + [Text(STORY_HEADING)] == before + [Rule, Text(STORY_HEADING)];
    }

    method WriteFooter(footer: string)
      requires Current()
      modifies this
      ensures LaidOut(draws) && Marks(draws) == old(Marks(draws)) + [Text(footer)]
    {
      Skip(10.0);
      EnsureSpace(6.0);
      Put(Text(footer), LEADING);
    }

    method WriteStory(entries: seq<Entry>)
      requires Current()
      modifies this
      ensures Current() && Marks(draws) == old(Marks(draws)) + Story(entries)
    {
      for i := 0 to |entries|
        invariant Current()
        invariant Marks(draws) == old(Marks(draws)) + Story(entries[..i])
      {
        WriteEntry(entries[i], i == |entries| - 1);
        StoryStep(old(Marks(draws)), entries, i);
      }
      assert entries[..|entries|] == entries;
    }

    /** The report: every line once, in order, on the paper, and never two closer than the leading. */
    method Export(r: Report)
      requires Valid() && draws == [] && y == PAGE_MARGIN
      modifies this
      ensures LaidOut(draws) && Marks(draws) == Script(r)
    {
      WriteHead("Incident Report - " + r.id, r.titleLines, Facts(r));
      WriteDivider();
      WriteStory(r.storyline);
      WriteFooter(r.footer);
    }
  }

  lemma TextsStep(front: seq<Mark>, lines: seq<string>, k: nat)
    requires k < |lines|
    ensures front + Texts(lines[..k + 1]) == front + Texts(lines[..k]) + [Text(lines[k])]
  {
    assert lines[..k + 1][..k] == lines[..k];
    assert Texts(lines[..k + 1]) == Texts(lines[..k]) + [Text(lines[k])];
  }

  lemma StoryStep(front: seq<Mark>, entries: seq<Entry>, i: nat)
    requires i < |entries|
    ensures front + Story(entries[..i + 1]) ==
            front + Story(entries[..i]) + [Text(entries[i].heading)] + Texts(entries[i].detailLines)
  {
    assert entries[..i + 1][..i] == entries[..i];
    assert Story(entries[..i + 1]) == Story(entries[..i]) + [Text(entries[i].heading)] + Texts(entries[i].detailLines);
  }

  // ---- What the report says ----

  lemma {:induction false} TextsAt(lines: seq<string>, i: nat)
    requires i < |lines|
    ensures Texts(lines)[i] == Text(lines[i])
  {
    if i < |lines| - 1 { TextsAt(lines[..|lines| - 1], i); }
  }

  /** How many marks the entries take: a heading each and their lines. */
  function Height(entries: seq<Entry>): nat {
    if entries == [] then 0 else Height(entries[..|entries| - 1]) + 1 + |entries[|entries| - 1].detailLines|
  }

  /** The story, mark by mark: each entry's heading right behind the entries before it, then its lines in order. */
  lemma {:induction false} StoryTold(entries: seq<Entry>, i: nat)
    requires i < |entries|
    ensures |Story(entries)| == Height(entries)
    ensures var at, lines := Height(entries[..i]), entries[i].detailLines;
            && at + |lines| < |Story(entries)| && Story(entries)[at] == Text(entries[i].heading)
            && forall j :: 0 <= j < |lines| ==> Story(entries)[at + 1 + j] == Text(lines[j])
  {
    var n, front := |entries|, entries[..|entries| - 1];
    if n > 1 { StoryTold(front, if i < n - 1 then i else 0); }
    if i < n - 1 {
      assert entries[..i] == front[..i];
    } else {
      var lines := entries[i].detailLines;
      forall j | 0 <= j < |lines| ensures Texts(lines)[j] == Text(lines[j]) { TextsAt(lines, j); }
    }
  }

  lemma TextsTold(lines: seq<string>)
    ensures forall i :: 0 <= i < |lines| ==> Texts(lines)[i] == Text(lines[i])
  {
    forall i | 0 <= i < |lines| ensures Texts(lines)[i] == Text(lines[i]) { TextsAt(lines, i); }
  }

  lemma HeadTold(heading: string, titleLines: seq<string>, facts: seq<string>)
    ensures var s, n := Head(heading, titleLines, facts), 1 + |titleLines|;
            && |s| == n + |facts| && s[0] == Text(heading)
            && (forall i :: 0 <= i < |titleLines| ==> s[i + 1] == Text(titleLines[i]))
            && forall i :: 0 <= i < |facts| ==> s[n + i] == Text(facts[i])
  {
    TextsTold(titleLines);
    TextsTold(facts);
    Parts(Text(heading), Texts(titleLines), Texts(facts));
  }

  lemma Parts(head: Mark, a: seq<Mark>, b: seq<Mark>)
    ensures var s, n := [head] + a + b, 1 + |a|;
            && |s| == n + |b| && s[0] == head
            && (forall i :: 0 <= i < |a| ==> s[i + 1] == a[i])
            && forall i :: 0 <= i < |b| ==> s[n + i] == b[i]
  {
  }

  /** The report, mark by mark: the heading, the title, each fact behind its label, the rule, the story, the footer. */
  lemma ReportTold(r: Report)
    ensures var s, n := Script(r), 1 + |r.titleLines|;
            && |s| == n + 9 + |Story(r.storyline)|
            && s[0] == Text("Incident Report - " + r.id)
            && (forall i :: 0 <= i < |r.titleLines| ==> s[i + 1] == Text(r.titleLines[i]))
            && s[n] == Text("Severity: " + r.severity + "   Status: " + r.status)
            && s[n + 1] == Text("Target: " + r.target)
            && s[n + 2] == Text("Source: " + r.sourceIp + " (" + r.sourceCountry + ")")
            && s[n + 3] == Text("First Detected: " + r.firstDetected)
            && s[n + 4] == Text("Correlation Rule: " + r.correlationRule)
            && s[n + 5] == Text("MITRE Path: " + r.mitrePath)
            && s[n + 6] == Rule && s[n + 7] == Text("Attack Storyline (WAS / WAF / Falco / K8s Audit)")
            && s[n + 8..|s| - 1] == Story(r.storyline) && s[|s| - 1] == Text(r.footer)
  {
    var head, tail := Head("Incident Report - " + r.id, r.titleLines, Facts(r)), [Rule, Text(STORY_HEADING)];
    HeadTold("Incident Report - " + r.id, r.titleLines, Facts(r));
    var f, n := Facts(r), 1 + |r.titleLines|;
    assert head[n] == Text(f[0]) && head[n + 1] == Text(f[1]) && head[n + 2] == Text(f[2]);
    assert head[n + 3] == Text(f[3]) && head[n + 4] == Text(f[4]) && head[n + 5] == Text(f[5]);
    assert Script(r)[..|head|] == head;
    assert Script(r)[|head|..|head| + 2] == tail;
  }

  /** A page of a good layout holds at most 54 marks. */
  lemma {:induction false} PageCapacity(draws: seq<Draw>, i: nat, j: nat)
    requires LaidOut(draws) && i <= j < |draws| && draws[i].page == draws[j].page
    ensures draws[j].y >= draws[i].y + 5.0 * (j - i) as real
    ensures j - i <= 53
  {
    if i < j {
      PagesAscend(draws, i, j - 1);
      assert FollowsOn(draws[j - 1], draws[j]);
      PageCapacity(draws, i, j - 1);
    }
    assert OnPaper(draws[i]) && OnPaper(draws[j]);
  }

  /** Pages come in order, and none is skipped. */
  lemma {:induction false} PagesAscend(draws: seq<Draw>, i: nat, j: nat)
    requires LaidOut(draws) && i <= j < |draws|
    ensures draws[i].page <= draws[j].page <= draws[i].page + (j - i)
  {
    if i < j {
      PagesAscend(draws, i, j - 1);
      assert FollowsOn(draws[j - 1], draws[j]);
    }
  }
}
