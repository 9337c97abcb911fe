/**
 * `renderMermaid` (mermaid-utils.js:141-165): the escaped diagram source in a
 * `<div class="mermaid">` container with the diagram's id, optionally followed
 * by a script that asks mermaid.js to render that container.
 */
module Render {
  import opened JsString
  import opened EscapeHtml
  import opened MermaidOptions

  /** What a non-string source renders to (:143). */
  const ErrorFragment: string := "<div class=\"mermaid-error\">Invalid Mermaid source</div>"

  predicate IsIdChar(c: char)
  {
    ('a' <= c <= 'z') || ('0' <= c <= '9') || c == '-'
  }

  /**
   * The ids built at :147 from `Date.now()` and a base-36 random suffix:
   * `mermaid-` followed by decimal digits, `-` and lower-case letters and digits.
   */
  predicate IsDiagramId(id: string)
  {
    |id| >= 8 && id[..8] == "mermaid-" && forall i | 0 <= i < |id| :: IsIdChar(id[i])
  }

  /** An id holds none of the characters that could end an attribute or a tag. */
  lemma IdHasNoMarkup(id: string)
    requires IsDiagramId(id)
    ensures '"' !in id && '\'' !in id && '<' !in id && '>' !in id && '=' !in id && '&' !in id
  {
    forall c | c in id ensures IsIdChar(c) {
      var i :| 0 <= i < |id| && id[i] == c;
    }
  }

  /** The opening tag of :152 up to its `>`, for a class attribute with value `classValue`. */
  function TagHead(classValue: string, id: string): string
  {
    "<div class=\"" + classValue + "\" id=\"" + id + "\""
  }

  /** The opening tag of the container (:152). */
  function OpenTag(id: string): string
  {
    TagHead("mermaid", id) + ">"
  }

  /** The container itself (:152). */
  function Container(source: string, id: string): (r: string)
    ensures var n := |OpenTag(id)|;
            && n + 6 <= |r| && r[..n] == OpenTag(id) && r[|r| - 6..] == "</div>"
            && MarkupFree(r[n..|r| - 6]) && EntityDecode(r[n..|r| - 6]) == source
  {
    DecodeEscape(source);
    var r := OpenTag(id) + Escape(source) + "</div>";
    assert r[|OpenTag(id)|..|r| - 6] == Escape(source);
    r
  }

  /** The initialisation script appended at :156-161. */
  function InitScript(id: string): (r: string)
    ensures Contains(r, InitCall(id))
  {
    OccursBetween(ScriptOpen, InitCall(id), ScriptClose);
    ScriptOpen + InitCall(id) + ScriptClose
  }

  /**
   * The fixed text around the init call, exactly the template of :156-161.
   * Each constant is written as a concatenation of pieces only so that
   * `Plugin.ScriptTextIsInert` can reason about one piece at a time; read
   * together, the pieces are one literal.
   */
  const ScriptOpen: string := "\n" + "<script>" + "\nif (typeof " + "mermaid !== 'undefined') {\n  "
  const ScriptClose: string := ";\n}\n" + "</script>"

  /** The call that renders the container with this id. */
  function InitCall(id: string): string
  {
    "mermaid.init(undefined, '#" + id + "')"
  }

  /** The script that follows the container: present exactly when `includeScript` is set. */
  function ScriptPart(id: string, cfg: Config): string
  {
    if cfg.includeScript then InitScript(id) else ""
  }

  /**
   * `renderMermaid(source, options)` with the id that :147 would draw passed
   * in as `id`; only `options.includeScript` is read.
   */
  function RenderMermaid(source: Value, id: string, cfg: Config): (r: string)
    ensures source.NonString? ==> r == ErrorFragment
    ensures source.Str? ==> StartsWith(r, Container(source.s, id))
  {
    match source
    case NonString => ErrorFragment
    case Str(s) =>
      var html := Container(s, id);
      if cfg.includeScript then html + InitScript(id) else html
  }

  /**
   * A string source becomes the container, whose text between the opening
   * tag and `</div>` holds no markup character and decodes back to the
   * source; the script follows exactly when `includeScript` is set.
   */
  lemma RenderedBody(source: string, id: string, cfg: Config)
    ensures exists body ::
              && RenderMermaid(Str(source), id, cfg)
                   == OpenTag(id) + body + "</div>" + ScriptPart(id, cfg)
              && MarkupFree(body)
              && EntityDecode(body) == source
  {
    DecodeEscape(source);
    var body := Escape(source);
    assert RenderMermaid(Str(source), id, cfg)
             == OpenTag(id) + body + "</div>" + ScriptPart(id, cfg);
  }

  /** A string source renders to the opening tag, the escaped source, `</div>` and the script part. */
  lemma RenderedParts(source: string, id: string, cfg: Config)
    ensures RenderMermaid(Str(source), id, cfg) == OpenTag(id) + Escape(source) + ("</div>" + ScriptPart(id, cfg))
  {
  }

  /** Two different sources never render to the same fragment under the same id. */
  lemma RenderInjective(a: string, b: string, id: string, cfg: Config)
    requires RenderMermaid(Str(a), id, cfg) == RenderMermaid(Str(b), id, cfg)
    ensures a == b
  {
    RenderedParts(a, id, cfg);
    RenderedParts(b, id, cfg);
    CancelAffixes(OpenTag(id), Escape(a), Escape(b), "</div>" + ScriptPart(id, cfg));
    EscapeInjective(a, b);
  }

  lemma CancelAffixes(p: string, x: string, y: string, t: string)
    requires p + x + t == p + y + t
    ensures x == y
  {
    assert |x| == |y|;
    assert x == (p + x + t)[|p|..|p| + |x|];
    assert y == (p + y + t)[|p|..|p| + |y|];
  }

  /** With `includeScript` the output carries the call that renders exactly this container. */
  lemma ScriptInitialisesThisDiagram(source: string, id: string, cfg: Config)
    requires cfg.includeScript
    ensures Contains(RenderMermaid(Str(source), id, cfg), InitCall(id))
  {
    var c := Container(source, id);
    Assoc(c, ScriptOpen + InitCall(id), ScriptClose);
    Assoc(c, ScriptOpen, InitCall(id));
    OccursBetween(c + ScriptOpen, InitCall(id), ScriptClose);
  }

  /** Without `includeScript` the output ends with the container's closing tag. */
  lemma NoScriptEndsWithContainer(source: string, id: string, cfg: Config)
    requires !cfg.includeScript
    ensures RenderMermaid(Str(source), id, cfg) == Container(source, id)
  {
  }

  /** An empty source still renders a container, and an empty one (index.test.js:64-72). */
  lemma EmptySourceRendersEmptyContainer(id: string, cfg: Config)
    ensures RenderMermaid(Str(""), id, cfg) == TagHead("mermaid", id) + "></div>" + ScriptPart(id, cfg)
    ensures Contains(RenderMermaid(Str(""), id, cfg), "></div>")
  {
    var h := TagHead("mermaid", id);
    assert Escape("") == "";
    assert (h + ">") + "" + "</div>" == h + "></div>" by {
      assert (h + ">") + "" == h + ">";
      Assoc(h, ">", "</div>");
    }
    OccursBetween(h, "></div>", ScriptPart(id, cfg));
  }

  /** The error fragment is never the rendering of a string: its class is `mermaid-error`. */
  lemma ErrorFragmentIsDistinct(source: string, id: string, cfg: Config)
    ensures RenderMermaid(Str(source), id, cfg) != ErrorFragment
  {
    var r := RenderMermaid(Str(source), id, cfg);
    assert StartsWith(r, OpenTag(id));
    assert r[19] == OpenTag(id)[19] == '"';
    assert ErrorFragment[19] == '-';
  }
}
