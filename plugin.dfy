/**
 * The render rule that index.js registers for `mermaid` tokens (index.js:32-37):
 * the token's content is rendered by `renderMermaid` and then styled by
 * `applyMermaidStyling`, both with the configuration of index.js:13-18.
 */
module Plugin {
  import opened JsString
  import opened EscapeHtml
  import opened MermaidOptions
  import opened Render
  import opened Styling

  /**
   * `md.renderer.rules.mermaid(tokens, idx)` for a token with this content;
   * `id` is the id that `renderMermaid` draws. Without a custom class and a
   * custom style the styling step is a no-op.
   */
  function RenderRule(content: string, cfg: Config, id: string): (r: string)
    ensures cfg.customClass == "" && cfg.customStyle == "" ==> r == RenderMermaid(Str(content), id, cfg)
  {
    ApplyMermaidStyling(Str(RenderMermaid(Str(content), id, cfg)), cfg).s
  }

  /** The class attribute's value after styling: `mermaid`, then the custom class if one is set. */
  function ClassValue(cfg: Config): string
  {
    if cfg.customClass == "" then "mermaid" else "mermaid " + cfg.customClass
  }

  /** The style attribute after styling, present only when a custom style is set. */
  function StylePart(cfg: Config): string
  {
    if cfg.customStyle == "" then "" else StyleAttr(cfg.customStyle)
  }

  /** What follows the opening tag's `>`: the escaped content, `</div>` and the script part. */
  function Body(content: string, id: string, cfg: Config): string
  {
    Escape(content) + "</div>" + ScriptPart(id, cfg)
  }

  /** The fragment the rule is meant to produce: one opening tag with one class and at most one style attribute. */
  function ExpectedFragment(content: string, cfg: Config, id: string): string
  {
    TagHead(ClassValue(cfg), id) + StylePart(cfg) + (">" + Body(content, id, cfg))
  }

  // ---------------------------------------------------------------------
  // The shape of the rendered container

  /** The rendered container, split at the opening tag's `>`. */
  lemma RenderedAsTagHead(content: string, id: string, cfg: Config)
    ensures RenderMermaid(Str(content), id, cfg) == TagHead("mermaid", id) + (">" + Body(content, id, cfg))
  {
    RenderedParts(content, id, cfg);
    Regroup(TagHead("mermaid", id), ">", Escape(content), "</div>", ScriptPart(id, cfg));
  }

  lemma Regroup(h: string, a: string, e: string, b: string, sp: string)
    ensures (h + a) + e + (b + sp) == h + (a + (e + b + sp))
  {
  }

  /** The script's two fixed parts hold no double quote, and their only `<` opens `<script>` or `</script>`. */
  lemma ScriptTextIsInert()
    ensures '"' !in ScriptOpen && '"' !in ScriptClose
    ensures NoDivTag(ScriptOpen) && NoDivTag(ScriptClose)
    ensures ScriptOpen[|ScriptOpen| - 1] == ' '
  {
    NoDivTagConcat("\n", "<script>");
    NoDivTagConcat("\n" + "<script>", "\nif (typeof ");
    NoDivTagConcat("\n" + "<script>" + "\nif (typeof ", "mermaid !== 'undefined') {\n  ");
    NoDivTagConcat(";\n}\n", "</script>");
  }

  /** The script part holds no double quote and no `<div`, and does not end with `<`. */
  lemma ScriptPartIsInert(id: string, cfg: Config)
    requires IsDiagramId(id)
    ensures var sp := ScriptPart(id, cfg);
            '"' !in sp && NoDivTag(sp) && (sp == [] || sp[|sp| - 1] != '<')
  {
    if cfg.includeScript {
      IdHasNoMarkup(id);
      var call := InitCall(id);
      assert '<' !in call && '"' !in call && call[|call| - 1] == ')';
      ScriptTextIsInert();
      NoDivTagConcat(ScriptOpen, call);
      NoDivTagConcat(ScriptOpen + call, ScriptClose);
      assert InitScript(id)[|InitScript(id)| - 1] == ScriptClose[|ScriptClose| - 1];
    }
  }

  /** Text without `<` and `"`, then `</div>`, then an inert script part, is inert. */
  lemma ClosedBodyIsInert(text: string, sp: string)
    requires '<' !in text && '"' !in text
    requires '"' !in sp && NoDivTag(sp) && (sp == [] || sp[|sp| - 1] != '<')
    ensures '"' !in text + "</div>" + sp
    ensures NoDivTag(">" + (text + "</div>" + sp))
  {
    var e := ">" + text;
    assert '<' !in e && e[|e| - 1] != '<';
    NoDivTagConcat(e, "</div>");
    NoDivTagConcat(e + "</div>", sp);
    assert ">" + (text + "</div>" + sp) == e + "</div>" + sp;
  }

  /** Neither the escaped content nor `</div>` nor the script holds a double quote or a `<div`. */
  lemma BodyIsInert(content: string, id: string, cfg: Config)
    requires IsDiagramId(id)
    ensures '"' !in Body(content, id, cfg)
    ensures NoDivTag(">" + Body(content, id, cfg))
  {
    ScriptPartIsInert(id, cfg);
    ClosedBodyIsInert(Escape(content), ScriptPart(id, cfg));
  }

  // ---------------------------------------------------------------------
  // The class step on the container

  /** The opening tag, cut before and after its class attribute. */
  lemma TagHeadParts(classValue: string, id: string, rest: string)
    ensures TagHead(classValue, id) + rest
              == "<div " + (("class=\"" + classValue + "\"") + (" id=\"" + id + "\"" + rest))
  {
  }

  /**
   * The text after the class attribute holds no `class="mermaid"`: its only
   * double quotes are the two around the id, and they enclose no `mermaid`.
   */
  lemma NoPatternInTail(id: string, body: string)
    requires IsDiagramId(id) && '"' !in body
    ensures !Contains(" id=\"" + id + "\"" + (">" + body), ClassPattern)
  {
    IdHasNoMarkup(id);
    var t := " id=\"" + id + "\"" + (">" + body);
    var n := |id|;
    forall i | 0 <= i <= |t| - 15 ensures !OccursAt(t, ClassPattern, i) {
      if i + 6 < 5 + n {
        assert t[i + 6] == id[i + 1];
      } else if i + 6 == 5 + n {
        assert t[i + 14] == body[i + 14 - (7 + n)];
      } else if i + 6 == 6 + n {
        assert t[i + 6] == '>';
      } else {
        assert t[i + 6] == body[i + 6 - (7 + n)];
      }
      assert t[i..i + 15][6] == t[i + 6] && t[i..i + 15][14] == t[i + 14];
    }
  }

  /**
   * The class step on a rendered container rewrites its one `class="mermaid"`
   * into `class="mermaid X"` and leaves the rest alone, whatever `X` is.
   */
  lemma ClassStepOnContainer(body: string, id: string, customClass: string)
    requires IsDiagramId(id) && '"' !in body
    ensures ClassStep(TagHead("mermaid", id) + (">" + body), customClass)
              == TagHead("mermaid " + customClass, id) + (">" + body)
  {
    var tail := " id=\"" + id + "\"" + (">" + body);
    var rep := ClassReplacement(customClass);
    TagHeadParts("mermaid", id, ">" + body);
    TagHeadParts("mermaid " + customClass, id, ">" + body);
    assert "class=\"" + "mermaid" + "\"" == ClassPattern;
    assert "class=\"" + ("mermaid " + customClass) + "\"" == rep;
    var s := "<div " + (ClassPattern + tail);
    forall i | 0 <= i < 5 ensures !OccursAt(s, ClassPattern, i) {
      assert s[i] == "<div "[i] != 'c';
      assert s[i..i + 15][0] == s[i];
    }
    ReplaceAllSkip("<div ", ClassPattern + tail, ClassPattern, rep);
    ReplaceAllAt(ClassPattern, tail, rep);
    NoPatternInTail(id, body);
    ReplaceAllNoMatch(tail, ClassPattern, rep);
  }

  // ---------------------------------------------------------------------
  // The style step on the container

  /**
   * The only place in the opening tag where `class="[^"]*mermaid[^"]*"` matches
   * is its own class attribute, at index 5.
   */
  lemma OnlyClassAttrAtFive(classValue: string, id: string, rest: string)
    requires IsDiagramId(id) && |classValue| >= 7 && classValue[..7] == "mermaid"
    requires '"' !in classValue
    ensures var s := TagHead(classValue, id) + rest;
            && ClassAttrAt(s, 5)
            && forall q | 5 < q <= |TagHead(classValue, id)| - 7 :: !ClassAttrAt(s, q)
  {
    IdHasNoMarkup(id);
    var h := TagHead(classValue, id);
    var s := h + rest;
    var c := |classValue|;
    var n := |id|;
    assert |h| == 19 + c + n;
    assert s[5..12] == ClassOpen;
    assert s[12..12 + c] == classValue;
    NextIndexIs(s, '"', 12, 12 + c);
    assert OccursAt(classValue, "mermaid", 0);
    assert ClassAttrAt(s, 5);
    forall q | 5 < q <= |h| - 7 ensures !ClassAttrAt(s, q) {
      if q + 6 < 12 + c {
        assert s[q + 6] == classValue[q + 6 - 12];
      } else if q + 6 == 12 + c {
        NextIndexIs(s, '"', q + 7, 17 + c);
        assert |s[q + 7..NextIndex(s, '"', q + 7)]| == 4;
      } else if q + 6 < 17 + c {
        assert s[q + 6] == " id="[q + 6 - 13 - c];
      } else if q + 6 == 17 + c {
        assert s[q + 4] == 'd';
      } else if q + 6 < 18 + c + n {
        assert s[q + 6] == id[q + 6 - 18 - c];
      } else {
        assert s[q + 5] == id[n - 1];
      }
      ClassOpenChars(s, q);
    }
  }

  /** Where `class="` occurs, its `s`, `=` and `"` are at offsets 4, 5 and 6. */
  lemma ClassOpenChars(s: string, q: int)
    ensures OccursAt(s, ClassOpen, q) ==> s[q + 4] == 's' && s[q + 5] == '=' && s[q + 6] == '"'
  {
    if OccursAt(s, ClassOpen, q) {
      assert s[q + 4] == s[q..q + 7][4] && s[q + 5] == s[q..q + 7][5] && s[q + 6] == s[q..q + 7][6];
    }
  }

  /**
   * In a class-stepped container the match of the style step's regular
   * expression that starts at the opening `<div` ends right before the tag's `>`.
   */
  lemma ContainerTagMatch(classValue: string, id: string, rest: string)
    requires IsDiagramId(id) && |classValue| >= 7 && classValue[..7] == "mermaid"
    requires '"' !in classValue
    requires rest != [] && rest[0] == '>'
    ensures StyleMatchEnd(TagHead(classValue, id) + rest) == Some(|TagHead(classValue, id)|)
  {
    var h := TagHead(classValue, id);
    var s := h + rest;
    assert OpensDiv(s) by { assert s[..4] == h[..4] == "<div"; }
    ClassAttrFound(classValue, id, rest);
    NextIndexIs(s, '"', 12, 12 + |classValue|);
    TagEndsAfterClass(classValue, id, rest);
  }

  /** The greedy `[^>]*` settles on the container's own class attribute, at index 5. */
  lemma ClassAttrFound(classValue: string, id: string, rest: string)
    requires IsDiagramId(id) && |classValue| >= 7 && classValue[..7] == "mermaid"
    requires '"' !in classValue
    requires rest != [] && rest[0] == '>'
    ensures var s := TagHead(classValue, id) + rest;
            LastClassAttr(s, 4, NextIndex(s, '>', 4) - 7) == Some(5)
  {
    var s := TagHead(classValue, id) + rest;
    TagFirstGt(classValue, id, rest);
    OnlyClassAttrAtFive(classValue, id, rest);
    LastClassAttrIsRightmost(s, 4, NextIndex(s, '>', 4) - 7, 5);
  }

  /**
   * The first `>` after `<div` lies at or after the class value's `mermaid`
   * and no later than the tag's own `>`; a `>` inside the class value may
   * come first.
   */
  lemma TagFirstGt(classValue: string, id: string, rest: string)
    requires |classValue| >= 7 && classValue[..7] == "mermaid"
    requires rest != [] && rest[0] == '>'
    ensures var s := TagHead(classValue, id) + rest;
            19 <= NextIndex(s, '>', 4) <= |TagHead(classValue, id)|
  {
    var h := TagHead(classValue, id);
    var s := h + rest;
    assert s[..12] == "<div class=\"" && s[12..19] == "mermaid";
    forall k | 4 <= k < 19 ensures s[k] != '>' {
      if k < 12 { assert s[k] == s[..12][k]; } else { assert s[k] == s[12..19][k - 12]; }
    }
    assert s[|h|] == '>';
  }

  /** From the class value's closing quote on, the first `>` is the tag's own. */
  lemma TagEndsAfterClass(classValue: string, id: string, rest: string)
    requires IsDiagramId(id) && rest != [] && rest[0] == '>'
    ensures var s := TagHead(classValue, id) + rest;
            NextIndex(s, '>', 13 + |classValue|) == |TagHead(classValue, id)|
  {
    IdHasNoMarkup(id);
    var h := TagHead(classValue, id);
    var s := h + rest;
    var c := |classValue|;
    assert s[13 + c..|h|] == " id=\"" + id + "\"";
    forall k | 13 + c <= k < |h| ensures s[k] != '>' {
      assert s[k] == s[13 + c..|h|][k - 13 - c];
    }
    assert s[|h|] == '>';
    NextIndexIs(s, '>', 13 + c, |h|);
  }

  /** When the first match ends where `head` ends and no `<div` follows, the style goes there and nowhere else. */
  lemma StyleStepAfterMatch(head: string, rest: string, style: string)
    requires head != [] && StyleMatchEnd(head + rest) == Some(|head|) && NoDivTag(rest)
    ensures StyleStep(head + rest, style) == head + StyleAttr(style) + rest
  {
    var s := head + rest;
    assert s[..|head|] == head && s[|head|..] == rest;
    StyleStepNoDivTag(rest, style);
  }

  // ---------------------------------------------------------------------
  // The rule's output

  /** The class step, when it runs, turns the container's class value into `ClassValue(cfg)`. */
  lemma AfterClassOnContainer(body: string, id: string, cfg: Config)
    requires IsDiagramId(id) && '"' !in body
    ensures AfterClassStep(TagHead("mermaid", id) + (">" + body), cfg) == TagHead(ClassValue(cfg), id) + (">" + body)
  {
    if cfg.customClass != "" {
      ClassStepOnContainer(body, id, cfg.customClass);
    }
  }

  /** The style step, when it runs, adds the one style attribute before the opening tag's `>`. */
  lemma AfterStyleOnContainer(classValue: string, body: string, id: string, cfg: Config)
    requires IsDiagramId(id) && |classValue| >= 7 && classValue[..7] == "mermaid"
    requires '"' !in classValue
    requires NoDivTag(">" + body)
    ensures AfterStyleStep(TagHead(classValue, id) + (">" + body), cfg)
              == TagHead(classValue, id) + StylePart(cfg) + (">" + body)
  {
    if cfg.customStyle != "" {
      ContainerTagMatch(classValue, id, ">" + body);
      StyleStepAfterMatch(TagHead(classValue, id), ">" + body, cfg.customStyle);
    }
  }

  /**
   * The rule's output is the container with the custom class appended to its
   * class attribute and the custom style as one extra attribute, provided the
   * custom class holds no `"` that would end the attribute value. A `>` in the
   * class is harmless: the style still goes just before the tag's own `>`.
   */
  lemma RenderRuleFragment(content: string, cfg: Config, id: string)
    requires IsDiagramId(id)
    requires '"' !in cfg.customClass
    ensures RenderRule(content, cfg, id) == ExpectedFragment(content, cfg, id)
  {
    var body := Body(content, id, cfg);
    var rendered := RenderMermaid(Str(content), id, cfg);
    RenderedAsTagHead(content, id, cfg);
    BodyIsInert(content, id, cfg);
    assert rendered != "";
    assert RenderRule(content, cfg, id) == StyleString(rendered, cfg);
    AfterClassOnContainer(body, id, cfg);
    var cv := ClassValue(cfg);
    assert cv[..7] == "mermaid";
    AfterStyleOnContainer(cv, body, id, cfg);
  }

  /** With the default configuration the rule outputs exactly `renderMermaid`'s fragment. */
  lemma DefaultRuleIsPlainRender(content: string, id: string)
    ensures RenderRule(content, MermaidConfig(None), id)
              == OpenTag(id) + Escape(content) + "</div>"
  {
  }

  /**
   * With `mermaidCustomClass = X` and `mermaidCustomStyle = S` (both non-empty,
   * and X without a `"`) the opening tag is exactly
   * `<div class="mermaid X" id="ID" style="S">`, and no double quote follows
   * it, so the fragment carries one class and one style attribute.
   */
  lemma CustomOptionsOpeningTag(content: string, id: string, includeScript: Option<bool>, x: string, st: string)
    requires IsDiagramId(id) && x != "" && st != ""
    requires '"' !in x
    ensures var cfg := MermaidConfig(Some(PluginOptions(includeScript, Some(x), Some(st))));
            && RenderRule(content, cfg, id)
                 == "<div class=\"mermaid " + x + "\" id=\"" + id + "\" style=\"" + st + "\">" + Body(content, id, cfg)
            && '"' !in Body(content, id, cfg)
  {
    var cfg := MermaidConfig(Some(PluginOptions(includeScript, Some(x), Some(st))));
    assert cfg.customClass == x && cfg.customStyle == st;
    RenderRuleFragment(content, cfg, id);
    BodyIsInert(content, id, cfg);
    StyledTagText(x, id, st, Body(content, id, cfg));
  }

  /** The styled opening tag, written out. */
  lemma StyledTagText(x: string, id: string, st: string, rest: string)
    ensures TagHead("mermaid " + x, id) + StyleAttr(st) + (">" + rest)
              == "<div class=\"mermaid " + x + "\" id=\"" + id + "\" style=\"" + st + "\">" + rest
  {
  }
}
