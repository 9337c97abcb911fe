/**
 * Concrete scenarios of index.test.js, proved of the model on hand-built
 * Remarkable line tables (one entry per line plus the trailing entry that
 * Remarkable adds at the end of the source).
 */
module Scenarios {
  import opened JsString
  import opened EscapeHtml
  import opened MermaidOptions
  import opened Render
  import opened FenceScanner
  import opened Plugin

  /** A four-line document: `opener`, `graph TD`, `    A-->B` and the closing fence. */
  function FenceDoc(opener: string): string
  {
    opener + "\n" + "graph TD\n" + "    A-->B\n" + "```"
  }

  /** "```mermaid\ngraph TD\n    A-->B\n```" (index.test.js:14). */
  const SimpleSrc: string := FenceDoc("```mermaid")

  /** "```MERMAID\ngraph TD\n    A-->B\n```" (index.test.js:112). */
  const UpperSrc: string := FenceDoc("```MERMAID")

  /** The line table of `FenceDoc` for a ten-character opener. */
  function FourLines(src: string): LineTable
  {
    LineTable(src, [0, 11, 20, 30, 33], [10, 19, 29, 33, 33], [0, 0, 4, 0, 0], 0)
  }

  /** The opening line `` ```mermaid `` opens a mermaid fence. */
  lemma SimpleOpener()
    ensures OpensMermaidFence(SimpleSrc, 0, 10)
  {
    assert SimpleSrc[..10] == "```mermaid";
    assert SkipSpaces(SimpleSrc, 3, 10) == 3;
    assert SkipTag(SimpleSrc, 3, 10) == 10;
    assert SimpleSrc[3..10] == "mermaid";
  }

  /** The opening line `` ```MERMAID `` opens a mermaid fence too: the tag is compared in lower case. */
  lemma UpperOpener()
    ensures OpensMermaidFence(UpperSrc, 0, 10)
  {
    assert UpperSrc[..10] == "```MERMAID";
    assert SkipSpaces(UpperSrc, 3, 10) == 3;
    assert SkipTag(UpperSrc, 3, 10) == 10;
    assert UpperSrc[3..10] == "MERMAID";
    assert AsciiLower("MERMAID") == "mermaid";
  }

  /** Lines 1 and 2 do not close the fence; line 3 does; nothing stops the search. */
  lemma BodyLines(opener: string)
    requires |opener| == 10
    ensures WellFormed(FourLines(FenceDoc(opener)))
    ensures var t := FourLines(FenceDoc(opener));
            && !IsFenceLine(t, 1) && !IsFenceLine(t, 2) && IsFenceLine(t, 3)
            && !StopsSearch(t, 1) && !StopsSearch(t, 2) && !StopsSearch(t, 3)
  {
    var src := FenceDoc(opener);
    assert |src| == 33;
    assert src[11] == 'g' && src[24] == 'A';
    assert src[30..33] == "```";
    assert Slice(src, 30, 33) == src[30..33];
  }

  /** A ten-character opener that opens a mermaid fence gets its close on line 3. */
  lemma ClosesOnLineThree(opener: string)
    requires |opener| == 10
    requires OpensMermaidFence(FenceDoc(opener), 0, 10)
    ensures WellFormed(FourLines(FenceDoc(opener)))
    ensures Scan(FourLines(FenceDoc(opener)), 0, 4) == Some(3)
  {
    var t := FourLines(FenceDoc(opener));
    BodyLines(opener);
    assert SearchClose(t, 3, 4) == Some(3);
    assert SearchClose(t, 1, 4) == Some(3);
  }

  /** The fence opened on line 0 closes on line 3. */
  lemma SimpleScanned()
    ensures WellFormed(FourLines(SimpleSrc))
    ensures Scan(FourLines(SimpleSrc), 0, 4) == Some(3)
  {
    SimpleOpener();
    ClosesOnLineThree("```mermaid");
  }

  /** The upper-case tag is scanned exactly like the lower-case one (index.test.js:111-119). */
  lemma UpperScanned()
    ensures WellFormed(FourLines(UpperSrc))
    ensures Scan(FourLines(UpperSrc), 0, 4) == Scan(FourLines(SimpleSrc), 0, 4) == Some(3)
  {
    UpperOpener();
    ClosesOnLineThree("```MERMAID");
    SimpleScanned();
  }

  /** Remarkable's `getLines(1, 3, 0, true)`: the two body lines with their line feeds. */
  lemma SimpleLines()
    ensures WellFormed(FourLines(SimpleSrc))
    ensures GetLines(FourLines(SimpleSrc), 1, 3) == "graph TD\n" + "    A-->B\n"
  {
    var t := FourLines(SimpleSrc);
    assert |SimpleSrc| == 33;
    assert Slice(SimpleSrc, 11, 20) == "graph TD\n";
    assert Slice(SimpleSrc, 20, 30) == "    A-->B\n";
    assert GetLines(t, 2, 3) == "    A-->B\n" + GetLines(t, 3, 3);
  }

  /** Trimming drops the final line feed only. */
  lemma SimpleTrim()
    ensures Trim("graph TD\n" + "    A-->B\n") == "graph TD\n    " + "A-->B"
  {
    var joined := "graph TD\n" + "    A-->B\n";
    var content := "graph TD\n    " + "A-->B";
    assert joined[0] == 'g';
    assert TrimStart(joined) == joined;
    assert joined == content + "\n";
    assert joined[..|joined| - 1] == content;
    assert content[|content| - 1] == 'B';
    assert TrimEnd(content) == content;
  }

  /** The token the rule pushes: content "graph TD\n    A-->B", lines 0 to 4. */
  lemma SimpleContent()
    ensures WellFormed(FourLines(SimpleSrc))
    ensures MermaidToken(FourLines(SimpleSrc), 0, 3, 0)
              == Token("mermaid", "graph TD\n    " + "A-->B", (0, 4), 0, true)
  {
    SimpleLines();
    SimpleTrim();
  }

  /** Escaping the body turns only its `>` into `&gt;`. */
  lemma SimpleEscaped()
    ensures Escape("graph TD\n    " + "A-->B") == "graph TD\n    " + "A--" + "&gt;B"
  {
    var a, b, c := "graph TD\n    ", "A--", ">B";
    EscapePieces(a, b, c);
  }

  lemma EscapePieces(a: string, b: string, c: string)
    requires a == "graph TD\n    " && b == "A--" && c == ">B"
    ensures Escape(a + "A-->B") == a + b + "&gt;B"
  {
    assert a + "A-->B" == a + b + c;
    PlainPiece(a);
    PlainPiece(b);
    EscapeGtB(c);
    EscapeConcat(a + b, c);
    EscapeConcat(a, b);
  }

  lemma EscapeGtB(c: string)
    requires c == ">B"
    ensures Escape(c) == "&gt;B"
  {
    assert c[1..] == "B";
    assert Escape("B") == "B";
  }

  /** The two pieces of the body before its `>` hold none of the five characters. */
  lemma PlainPiece(s: string)
    requires s == "graph TD\n    " || s == "A--"
    ensures Escape(s) == s
  {
    EscapePlain(s);
  }

  /** A piece of the body is a piece of anything the body is put into. */
  lemma ContainsInside(head: string, body: string, tail: string, w: string)
    requires Contains(body, w)
    ensures Contains(head + body + tail, w)
  {
    var i :| 0 <= i <= |body| - |w| && OccursAt(body, w, i);
    assert (head + body + tail)[|head| + i..|head| + i + |w|] == body[i..i + |w|];
    assert OccursAt(head + body + tail, w, |head| + i);
  }

  /** The container's opening tag carries the `mermaid` class and an id starting `mermaid-`. */
  lemma ContainerMarkers(id: string, rest: string)
    requires IsDiagramId(id)
    ensures Contains(OpenTag(id) + rest, "<div class=\"mermaid\"")
    ensures Contains(OpenTag(id) + rest, "id=\"mermaid-")
  {
    ClassMarker(id, rest);
    IdMarker(id, rest);
  }

  lemma ClassMarker(id: string, rest: string)
    ensures OccursAt(OpenTag(id) + rest, "<div class=\"mermaid\"", 0)
  {
    var r := OpenTag(id) + rest;
    assert r[..20] == "<div class=\"mermaid\"";
  }

  lemma IdMarker(id: string, rest: string)
    requires IsDiagramId(id)
    ensures OccursAt(OpenTag(id) + rest, "id=\"mermaid-", 21)
  {
    var r := OpenTag(id) + rest;
    var w := "id=\"mermaid-";
    assert r[21..25] == "id=\"";
    assert r[25..33] == id[..8] == "mermaid-";
    assert r[21..33] == r[21..25] + r[25..33];
    assert |w| == 12;
  }

  /** The escaped body holds `graph TD` and `A--&gt;B`. */
  lemma SimpleEscapedPieces()
    ensures Contains("graph TD\n    " + "A--" + "&gt;B", "graph TD")
    ensures Contains("graph TD\n    " + "A--" + "&gt;B", "A--&gt;B")
  {
    var e := "graph TD\n    " + "A--" + "&gt;B";
    assert e == "" + "graph TD" + "\n    A--&gt;B";
    ContainsBetween("", "graph TD", "\n    A--&gt;B");
    assert e == "graph TD\n    " + "A--&gt;B" + "";
    ContainsBetween("graph TD\n    ", "A--&gt;B", "");
  }

  /** A default-configuration rendering of content whose escape is known. */
  lemma DefaultRendering(content: string, esc: string, id: string)
    requires IsDiagramId(id) && Escape(content) == esc
    requires Contains(esc, "graph TD") && Contains(esc, "A--&gt;B")
    ensures var r := RenderRule(content, MermaidConfig(None), id);
            && r == OpenTag(id) + esc + "</div>"
            && Contains(r, "<div class=\"mermaid\"")
            && Contains(r, "id=\"mermaid-")
            && Contains(r, "graph TD")
            && Contains(r, "A--&gt;B")
  {
    DefaultRuleIsPlainRender(content, id);
    ContainerHolds(id, esc);
  }

  /** The container around `esc` holds both markers and both pieces of `esc`. */
  lemma ContainerHolds(id: string, esc: string)
    requires IsDiagramId(id)
    requires Contains(esc, "graph TD") && Contains(esc, "A--&gt;B")
    ensures var r := OpenTag(id) + esc + "</div>";
            && Contains(r, "<div class=\"mermaid\"")
            && Contains(r, "id=\"mermaid-")
            && Contains(r, "graph TD")
            && Contains(r, "A--&gt;B")
  {
    ContainerMarkers(id, esc + "</div>");
    assert OpenTag(id) + esc + "</div>" == OpenTag(id) + (esc + "</div>");
    ContainsInside(OpenTag(id), esc, "</div>", "graph TD");
    ContainsInside(OpenTag(id), esc, "</div>", "A--&gt;B");
  }

  /**
   * With the default configuration the block renders to the container holding
   * the escaped body (index.test.js:13-25): it contains `<div class="mermaid"`,
   * `id="mermaid-`, `graph TD` and `A--&gt;B`.
   */
  lemma SimpleRendered(id: string)
    requires IsDiagramId(id)
    ensures var r := RenderRule(MermaidToken(FourLines(SimpleSrc), 0, 3, 0).content, MermaidConfig(None), id);
            && r == OpenTag(id) + ("graph TD\n    " + "A--" + "&gt;B") + "</div>"
            && Contains(r, "<div class=\"mermaid\"")
            && Contains(r, "id=\"mermaid-")
            && Contains(r, "graph TD")
            && Contains(r, "A--&gt;B")
  {
    SimpleContent();
    SimpleEscaped();
    SimpleEscapedPieces();
    var content := "graph TD\n    " + "A-->B";
    var esc := "graph TD\n    " + "A--" + "&gt;B";
    DefaultRendering(content, esc, id);
  }

  // ---------------------------------------------------------------------
  // Blocks that are not mermaid blocks, and the empty block

  /** "```javascript\nconst x = 1;\n```" (index.test.js:47). */
  const JsSrc: string := "```javascript\n" + "const x = 1;\n" + "```"

  function JsLines(): LineTable
  {
    LineTable(JsSrc, [0, 14, 27, 30], [13, 26, 30, 30], [0, 0, 0, 0], 0)
  }

  lemma JsTable()
    ensures WellFormed(JsLines()) && ContentStart(JsLines(), 0) == 0 && JsLines().eMarks[0] == 13
  {
    assert |JsSrc| == 30;
  }

  lemma JsTag()
    ensures |JsSrc| == 30 && FenceTag(JsSrc, 0, 13) == "javascript"
  {
    assert |JsSrc| == 30;
    assert SkipSpaces(JsSrc, 3, 13) == 3;
    assert SkipTag(JsSrc, 3, 13) == 13;
    assert JsSrc[3..13] == "javascript";
  }

  /** A `javascript` fence is left to the ordinary fence rule (index.test.js:46-54). */
  lemma JavascriptNotScanned()
    ensures WellFormed(JsLines()) && Scan(JsLines(), 0, 3) == None
  {
    JsTable();
    JsTag();
    assert |AsciiLower("javascript")| == 10;
    OtherTagRejected(JsLines(), 0, 3);
  }

  /** "```mermaid\ngraph TD\n    A-->B" without a closing fence (index.test.js:56). */
  const OpenSrc: string := "```mermaid\n" + "graph TD\n" + "    A-->B"

  function OpenLines(): LineTable
  {
    LineTable(OpenSrc, [0, 11, 20, 29], [10, 19, 29, 29], [0, 0, 4, 0], 0)
  }

  lemma OpenBodyLines()
    ensures WellFormed(OpenLines()) && !IsFenceLine(OpenLines(), 1) && !IsFenceLine(OpenLines(), 2)
  {
    assert |OpenSrc| == 29;
    assert OpenSrc[11] == 'g' && OpenSrc[24] == 'A';
  }

  /** An unterminated mermaid fence yields no token (index.test.js:55-63). */
  lemma UnterminatedNotScanned()
    ensures WellFormed(OpenLines()) && Scan(OpenLines(), 0, 3) == None
  {
    OpenBodyLines();
    UnterminatedFenceRejected(OpenLines(), 0, 3);
  }

  /**
   * "> ```mermaid\ngraph TD\n> ```": a blockquote whose middle line is a lazy
   * continuation. Remarkable's blockquote rule starts the quoted lines after
   * "> " and gives the lazy line the shift -1337.
   */
  const QuotedSrc: string := "> ```mermaid\n" + "graph TD\n" + "> ```"

  function QuotedLines(): LineTable
  {
    LineTable(QuotedSrc, [2, 13, 24, 27], [12, 21, 27, 27], [0, -1337, 0, 0], 0)
  }

  /** The quoted opening line opens a mermaid fence. */
  lemma QuotedOpener()
    ensures |QuotedSrc| == 27 && OpensMermaidFence(QuotedSrc, 2, 12)
  {
    assert |QuotedSrc| == 27;
    assert QuotedSrc[2..5] == "```";
    assert SkipSpaces(QuotedSrc, 5, 12) == 5;
    assert SkipTag(QuotedSrc, 5, 12) == 12;
    assert QuotedSrc[5..12] == "mermaid";
  }

  /** The quoted closing marker on line 2 is a fence line. */
  lemma QuotedCloser()
    ensures WellFormed(QuotedLines()) && IsFenceLine(QuotedLines(), 2)
  {
    assert |QuotedSrc| == 27;
    assert QuotedSrc[24..27] == "```";
    assert Slice(QuotedSrc, 24, 27) == QuotedSrc[24..27];
  }

  /**
   * The opener passes and line 2 holds a closing marker, yet the lazy line 1
   * stops the search first, so the block is not taken.
   */
  lemma LazyFenceNotScanned()
    ensures WellFormed(QuotedLines()) && OpensMermaidFence(QuotedSrc, 2, 12)
    ensures IsFenceLine(QuotedLines(), 2) && Scan(QuotedLines(), 0, 3) == None
  {
    QuotedOpener();
    QuotedCloser();
    LazyLineRejected(QuotedLines(), 0, 3, 1);
  }

  /** "```mermaid\n```" (index.test.js:65). */
  const EmptySrc: string := "```mermaid\n" + "```"

  function EmptyLines(): LineTable
  {
    LineTable(EmptySrc, [0, 11, 14], [10, 14, 14], [0, 0, 0], 0)
  }

  lemma EmptyTable()
    ensures WellFormed(EmptyLines()) && ContentStart(EmptyLines(), 0) == 0 && EmptyLines().eMarks[0] == 10
  {
    assert |EmptySrc| == 14;
  }

  lemma EmptyOpener()
    ensures |EmptySrc| == 14 && OpensMermaidFence(EmptySrc, 0, 10)
  {
    assert |EmptySrc| == 14;
    assert EmptySrc[..10] == "```mermaid";
    assert SkipSpaces(EmptySrc, 3, 10) == 3;
    assert SkipTag(EmptySrc, 3, 10) == 10;
    assert EmptySrc[3..10] == "mermaid";
  }

  lemma EmptyCloseLine()
    ensures WellFormed(EmptyLines()) && IsFenceLine(EmptyLines(), 1) && !StopsSearch(EmptyLines(), 1)
  {
    EmptyTable();
    assert EmptySrc[11..14] == "```";
  }

  /** An empty mermaid block is a success with empty content (index.test.js:64-72). */
  lemma EmptyBlockScanned()
    ensures WellFormed(EmptyLines()) && Scan(EmptyLines(), 0, 2) == Some(1)
    ensures MermaidToken(EmptyLines(), 0, 1, 0).content == ""
  {
    EmptyTable();
    EmptyOpener();
    EmptyCloseLine();
    assert SearchClose(EmptyLines(), 1, 2) == Some(1);
    EmptyBodyToken(EmptyLines(), 0, 0);
  }

  // ---------------------------------------------------------------------
  // Custom class and style

  /** The styled opening tag holds its class attribute and its style attribute. */
  lemma StyledTagAttributes(x: string, id: string, st: string, body: string)
    ensures var r := "<div class=\"mermaid " + x + "\" id=\"" + id + "\" style=\"" + st + "\">" + body;
            Contains(r, "class=\"mermaid " + x + "\"") && Contains(r, "style=\"" + st + "\"")
  {
    var r := "<div class=\"mermaid " + x + "\" id=\"" + id + "\" style=\"" + st + "\">" + body;
    assert r == "<div " + ("class=\"mermaid " + x + "\"") + (" id=\"" + id + "\" style=\"" + st + "\">" + body);
    ContainsBetween("<div ", "class=\"mermaid " + x + "\"", " id=\"" + id + "\" style=\"" + st + "\">" + body);
    var head := "<div class=\"mermaid " + x + "\" id=\"" + id + "\" ";
    assert r == head + ("style=\"" + st + "\"") + (">" + body);
    ContainsBetween(head, "style=\"" + st + "\"", ">" + body);
  }

  /**
   * With `mermaidCustomClass: 'custom-class'` and `mermaidCustomStyle:
   * 'border: 1px solid red;'` the fragment carries both (index.test.js:73-88).
   */
  lemma CustomOptionsRendered(content: string, id: string)
    requires IsDiagramId(id)
    ensures var cfg := MermaidConfig(Some(PluginOptions(None, Some("custom-class"), Some("border: 1px solid red;"))));
            var r := RenderRule(content, cfg, id);
            && Contains(r, "class=\"mermaid custom-class\"")
            && Contains(r, "style=\"border: 1px solid red;\"")
  {
    CustomWithOptions(content, id, "custom-class", "border: 1px solid red;");
  }

  lemma CustomWithOptions(content: string, id: string, x: string, st: string)
    requires IsDiagramId(id) && x == "custom-class" && st == "border: 1px solid red;"
    ensures var cfg := MermaidConfig(Some(PluginOptions(None, Some(x), Some(st))));
            var r := RenderRule(content, cfg, id);
            && Contains(r, "class=\"mermaid custom-class\"")
            && Contains(r, "style=\"border: 1px solid red;\"")
  {
    TestOptionsAreInert(x, st);
    CustomAttributes(content, id, x, st);
  }

  lemma TestOptionsAreInert(x: string, st: string)
    requires x == "custom-class" && st == "border: 1px solid red;"
    ensures x != "" && st != "" && '"' !in x
    ensures "class=\"mermaid " + x + "\"" == "class=\"mermaid custom-class\""
    ensures "style=\"" + st + "\"" == "style=\"border: 1px solid red;\""
  {
  }

  /** With a custom class and a custom style, the fragment holds both attributes. */
  lemma CustomAttributes(content: string, id: string, x: string, st: string)
    requires IsDiagramId(id) && x != "" && st != ""
    requires '"' !in x
    ensures var cfg := MermaidConfig(Some(PluginOptions(None, Some(x), Some(st))));
            var r := RenderRule(content, cfg, id);
            && Contains(r, "class=\"mermaid " + x + "\"")
            && Contains(r, "style=\"" + st + "\"")
  {
    CustomOptionsOpeningTag(content, id, None, x, st);
    var cfg := MermaidConfig(Some(PluginOptions(None, Some(x), Some(st))));
    StyledTagAttributes(x, id, st, Body(content, id, cfg));
  }
}
