/** The content of the plain-text export (`exportAnnotationsToTXT`,
    utils/txt.ts): one numbered block per annotation, in list order, the blocks
    separated by a `---` line. */
module Txt {
  import opened Types
  import opened Decimal
  import opened Strings
  import opened Time
  import opened FileName

  const Separator: string := "\n---\n\n"

  const Mime: string := "text/plain;charset=utf-8;"

  function HeadingLine(index: nat): string {
    "Annotation " + NatToString(index + 1) + ":"
  }

  function TimeLine(a: Annotation): string {
    "Time: " + FormatTimestamp(a.startTime) + " --> " + FormatTimestamp(a.endTime)
  }

  function TextLine(a: Annotation): string {
    "Text: " + a.text
  }

  /** The block for the annotation at 0-based position `index`: its three
      template lines, each ending in a line break. */
  function TxtBlock(index: nat, a: Annotation): string {
    HeadingLine(index) + "\n" + TimeLine(a) + "\n" + TextLine(a) + "\n"
  }

  /** `annotations.map((ann, index) => ...)`, numbering from `from`. */
  function TxtBlocks(anns: seq<Annotation>, from: nat): (blocks: seq<string>)
    ensures |blocks| == |anns| && forall k :: 0 <= k < |anns| ==> blocks[k] == TxtBlock(from + k, anns[k])
  {
    seq(|anns|, k requires 0 <= k < |anns| => TxtBlock(from + k, anns[k]))
  }

  function TxtContent(anns: seq<Annotation>): string {
    Join(TxtBlocks(anns, 0), Separator)
  }

  /** The file the export offers: nothing for an empty list; otherwise named
      from the sanitised video name and typed `text/plain`. */
  function ExportTxt(anns: seq<Annotation>, videoName: string): (r: Option<Download>)
    ensures r.None? <==> |anns| == 0
    ensures r.Some? ==> r.value.fileName == SafeFileName(videoName) + "_annotations.txt"
    ensures r.Some? ==> r.value.mimeType == Mime && r.value.content == TxtContent(anns)
  {
    if |anns| == 0 then None
    else Some(Download(SafeFileName(videoName) + "_annotations.txt", Mime, TxtContent(anns)))
  }

  /** The lines of a report made of three-line blocks: each block's three
      lines, then an empty line, `---` and an empty line between blocks, and
      the empty line after the final line break. */
  function Layout(blocks: seq<(string, string, string)>): seq<string>
    requires |blocks| >= 1
    decreases |blocks|
  {
    var head := [blocks[0].0, blocks[0].1, blocks[0].2];
    if |blocks| == 1 then head + [""] else head + ["", "---", ""] + Layout(blocks[1..])
  }

  /** The heading, time and text line of each annotation, numbered from `from`. */
  function BlockLines(anns: seq<Annotation>, from: nat): (t: seq<(string, string, string)>)
    ensures |t| == |anns|
    ensures forall k :: 0 <= k < |anns| ==> t[k] == (HeadingLine(from + k), TimeLine(anns[k]), TextLine(anns[k]))
  {
    seq(|anns|, k requires 0 <= k < |anns| => (HeadingLine(from + k), TimeLine(anns[k]), TextLine(anns[k])))
  }

  /** The lines a reader sees. */
  function ReportLines(anns: seq<Annotation>, from: nat): seq<string>
    requires |anns| >= 1
  {
    Layout(BlockLines(anns, from))
  }

  lemma JoinFourLines(h: string, t: string, x: string)
    ensures Join([h, t, x, ""], "\n") == h + "\n" + t + "\n" + x + "\n"
  {
    assert [h, t, x, ""][1..] == [t, x, ""];
    assert [t, x, ""][1..] == [x, ""];
    assert [x, ""][1..] == [""];
    assert Join([x, ""], "\n") == x + "\n" + "";
    assert Join([t, x, ""], "\n") == t + "\n" + (x + "\n");
    assert Join([h, t, x, ""], "\n") == h + "\n" + (t + "\n" + (x + "\n"));
  }

  lemma JoinTwoLines()
    ensures Join(["---", ""], "\n") == "---\n"
  {
    assert ["---", ""][1..] == [""];
  }

  lemma JoinSixLines(h: string, t: string, x: string)
    ensures Join([h, t, x, "", "---", ""], "\n") + "\n" == h + "\n" + t + "\n" + x + "\n" + Separator
  {
    var four := [h, t, x, ""];
    assert [h, t, x, "", "---", ""] == four + ["---", ""];
    JoinAppend(four, ["---", ""], "\n");
    JoinFourLines(h, t, x);
    JoinTwoLines();
    var body := h + "\n" + t + "\n" + x + "\n";
    assert Join([h, t, x, "", "---", ""], "\n") == body + "\n" + "---\n";
    assert "\n" + "---\n" + "\n" == Separator;
  }

  /** A three-line block as text: each line followed by a line break. */
  function Render(b: (string, string, string)): string {
    b.0 + "\n" + b.1 + "\n" + b.2 + "\n"
  }

  function Rendered(blocks: seq<(string, string, string)>): (r: seq<string>)
    ensures |r| == |blocks| && forall k :: 0 <= k < |blocks| ==> r[k] == Render(blocks[k])
  {
    seq(|blocks|, k requires 0 <= k < |blocks| => Render(blocks[k]))
  }

  lemma RenderAsLines(b: (string, string, string))
    ensures Render(b) == Join([b.0, b.1, b.2, ""], "\n")
    ensures Render(b) + Separator == Join([b.0, b.1, b.2, "", "---", ""], "\n") + "\n"
  {
    JoinFourLines(b.0, b.1, b.2);
    JoinSixLines(b.0, b.1, b.2);
  }

  /** Rendered blocks joined by the separator are the layout's lines joined by
      line breaks. */
  lemma {:induction false} RenderedAsLayout(blocks: seq<(string, string, string)>)
    requires |blocks| >= 1
    ensures Join(Rendered(blocks), Separator) == Join(Layout(blocks), "\n")
    decreases |blocks|
  {
    var b := blocks[0];
    var texts := Rendered(blocks);
    RenderAsLines(b);
    if |blocks| == 1 {
      assert Layout(blocks) == [b.0, b.1, b.2, ""];
    } else {
      assert texts[1..] == Rendered(blocks[1..]);
      RenderedAsLayout(blocks[1..]);
      var six := [b.0, b.1, b.2, "", "---", ""];
      var rest := Layout(blocks[1..]);
      assert Layout(blocks) == six + rest;
      JoinAppend(six, rest, "\n");
      calc {
        Join(texts, Separator);
        texts[0] + Separator + Join(texts[1..], Separator);
        Render(b) + Separator + Join(rest, "\n");
        Join(six, "\n") + "\n" + Join(rest, "\n");
      }
    }
  }

  /** Joining the blocks with the separator is joining the report's lines with
      line breaks. */
  lemma ContentAsLines(anns: seq<Annotation>, from: nat)
    requires |anns| >= 1
    ensures Join(TxtBlocks(anns, from), Separator) == Join(ReportLines(anns, from), "\n")
  {
    assert TxtBlocks(anns, from) == Rendered(BlockLines(anns, from));
    RenderedAsLayout(BlockLines(anns, from));
  }

  /** Line 6k of the layout is the first line of block k, followed by its
      other two lines and an empty line; between blocks come `---` and an
      empty line; there are 6n-2 lines in all. */
  lemma {:induction false} LayoutAt(blocks: seq<(string, string, string)>, k: nat)
    requires k < |blocks|
    ensures var r := Layout(blocks);
      && |r| == 6 * |blocks| - 2
      && r[6 * k] == blocks[k].0 && r[6 * k + 1] == blocks[k].1 && r[6 * k + 2] == blocks[k].2
      && r[6 * k + 3] == ""
      && (k + 1 < |blocks| ==> r[6 * k + 4] == "---" && r[6 * k + 5] == "")
    decreases |blocks|
  {
    if |blocks| > 1 {
      var rest := Layout(blocks[1..]);
      if k == 0 {
        LayoutAt(blocks[1..], 0);
      } else {
        LayoutAt(blocks[1..], k - 1);
        assert Layout(blocks)[6 * k] == rest[6 * (k - 1)];
      }
    }
  }

  lemma {:induction false} LayoutAvoids(blocks: seq<(string, string, string)>, c: char)
    requires |blocks| >= 1
    requires forall k :: 0 <= k < |blocks| ==> c !in blocks[k].0 && c !in blocks[k].1 && c !in blocks[k].2
    requires c !in "---"
    ensures NoneContains(Layout(blocks), c)
    decreases |blocks|
  {
    if |blocks| > 1 {
      LayoutAvoids(blocks[1..], c);
    }
  }

  lemma LinesAvoidNewline(anns: seq<Annotation>, from: nat)
    requires |anns| >= 1
    requires forall k :: 0 <= k < |anns| ==> '\n' !in anns[k].text
    ensures NoneContains(ReportLines(anns, from), '\n')
  {
    var lines := BlockLines(anns, from);
    assert '\n' !in "Annotation " && '\n' !in ":" && '\n' !in "Time: " && '\n' !in " --> ";
    assert '\n' !in "Text: " && '\n' !in "---";
    forall k | 0 <= k < |anns|
      ensures '\n' !in lines[k].0 && '\n' !in lines[k].1 && '\n' !in lines[k].2
    {
      var a := anns[k];
      FormatChars(a.startTime);
      FormatChars(a.endTime);
      assert '\n' !in HeadingLine(from + k);
      assert '\n' !in TimeLine(a);
      assert '\n' !in TextLine(a);
    }
    LayoutAvoids(lines, '\n');
  }

  /** When no text holds a line break, the exported text splits into lines so
      that, for the k-th annotation (0-based), line 6k is `Annotation {k+1}:`,
      line 6k+1 is `Time: {start} --> {end}`, line 6k+2 is `Text: ` and the
      text verbatim, line 6k+3 is empty, and between consecutive blocks lines
      6k+4 and 6k+5 are `---` and empty: n blocks in list order with n-1
      separators. */
  lemma ExportLines(anns: seq<Annotation>, videoName: string)
    requires |anns| >= 1
    requires forall k :: 0 <= k < |anns| ==> '\n' !in anns[k].text
    ensures var lines := Split(ExportTxt(anns, videoName).value.content, '\n');
      && |lines| == 6 * |anns| - 2
      && forall k :: 0 <= k < |anns| ==>
           && lines[6 * k] == "Annotation " + NatToString(k + 1) + ":"
           && lines[6 * k + 1] == "Time: " + FormatTimestamp(anns[k].startTime) + " --> " + FormatTimestamp(anns[k].endTime)
           && lines[6 * k + 2] == "Text: " + anns[k].text
           && lines[6 * k + 3] == ""
           && (k + 1 < |anns| ==> lines[6 * k + 4] == "---" && lines[6 * k + 5] == "")
  {
    ContentAsLines(anns, 0);
    LinesAvoidNewline(anns, 0);
    SplitJoin(ReportLines(anns, 0), '\n');
    var blocks := BlockLines(anns, 0);
    forall k | 0 <= k < |anns|
      ensures var r := Layout(blocks);
        && |r| == 6 * |anns| - 2
        && r[6 * k] == HeadingLine(k)
        && r[6 * k + 1] == TimeLine(anns[k])
        && r[6 * k + 2] == TextLine(anns[k])
        && r[6 * k + 3] == ""
        && (k + 1 < |anns| ==> r[6 * k + 4] == "---" && r[6 * k + 5] == "")
    {
      LayoutAt(blocks, k);
    }
  }
}
