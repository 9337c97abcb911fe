/**
 * `applyMermaidStyling` (mermaid-utils.js:190-214). Its two global regular
 * expression replacements are written out as the left-to-right scans the
 * regular expression engine performs:
 *
 *  - the class step replaces every literal `class="mermaid"` by
 *    `class="mermaid X"` (:198-203);
 *  - the style step finds each `<div` tag matched by
 *    `(<div[^>]*class="[^"]*mermaid[^"]*"[^>]*)` and inserts ` style="S"`
 *    right after the match, which is just before the tag's `>` (:206-211).
 */
module Styling {
  import opened JsString
  import opened MermaidOptions

  // ---------------------------------------------------------------------
  // Global replacement of a literal pattern

  /**
   * `s.replace(/pat/g, rep)` for a pattern that is a literal, non-empty text:
   * at each position either the pattern matches, and is replaced, or one
   * character is copied.
   */
  function ReplaceAll(s: string, pat: string, rep: string): (r: string)
    requires |pat| > 0
    ensures rep == pat ==> r == s
    decreases |s|
  {
    if |s| < |pat| then s
    else if s[..|pat|] == pat then
      assert s == s[..|pat|] + s[|pat|..];
      rep + ReplaceAll(s[|pat|..], pat, rep)
    else
      assert s == [s[0]] + s[1..];
      [s[0]] + ReplaceAll(s[1..], pat, rep)
  }

  /** Without an occurrence of the pattern, the replacement changes nothing. */
  lemma {:induction false} ReplaceAllNoMatch(s: string, pat: string, rep: string)
    requires |pat| > 0 && !Contains(s, pat)
    ensures ReplaceAll(s, pat, rep) == s
    decreases |s|
  {
    if |s| >= |pat| {
      assert !OccursAt(s, pat, 0);
      assert !Contains(s[1..], pat) by {
        forall i | 0 <= i <= |s[1..]| - |pat| ensures !OccursAt(s[1..], pat, i) {
          OccursAtTail(s, pat, i);
        }
      }
      ReplaceAllNoMatch(s[1..], pat, rep);
    }
  }

  /** A prefix in which no occurrence starts is copied unchanged. */
  lemma {:induction false} ReplaceAllSkip(a: string, b: string, pat: string, rep: string)
    requires |pat| > 0
    requires forall i | 0 <= i < |a| :: !OccursAt(a + b, pat, i)
    ensures ReplaceAll(a + b, pat, rep) == a + ReplaceAll(b, pat, rep)
    decreases |a|
  {
    if a == [] {
      assert a + b == b;
    } else if |a + b| < |pat| {
      assert ReplaceAll(b, pat, rep) == b;
    } else {
      var s := a + b;
      assert !OccursAt(s, pat, 0);
      assert s[..|pat|] != pat;
      assert s[0] == a[0] && s[1..] == a[1..] + b;
      assert ReplaceAll(s, pat, rep) == [a[0]] + ReplaceAll(a[1..] + b, pat, rep);
      forall i | 0 <= i < |a[1..]| ensures !OccursAt(a[1..] + b, pat, i) {
        OccursAtTail(s, pat, i);
      }
      ReplaceAllSkip(a[1..], b, pat, rep);
      ConsAssoc(a, ReplaceAll(b, pat, rep));
    }
  }

  /** An occurrence at the scan position is replaced. */
  lemma ReplaceAllAt(pat: string, b: string, rep: string)
    requires |pat| > 0
    ensures ReplaceAll(pat + b, pat, rep) == rep + ReplaceAll(b, pat, rep)
  {
    assert (pat + b)[..|pat|] == pat;
    assert (pat + b)[|pat|..] == b;
  }

  /** A replacement at least as long as the pattern never shortens the text. */
  lemma {:induction false} ReplaceAllLength(s: string, pat: string, rep: string)
    requires 0 < |pat| <= |rep|
    ensures |ReplaceAll(s, pat, rep)| >= |s|
    decreases |s|
  {
    if |s| >= |pat| {
      if s[..|pat|] == pat {
        ReplaceAllLength(s[|pat|..], pat, rep);
      } else {
        ReplaceAllLength(s[1..], pat, rep);
      }
    }
  }

  /**
   * A text that holds the pattern is rewritten somewhere: with a longer
   * replacement the result is strictly longer.
   */
  lemma {:induction false} ReplaceAllGrows(s: string, pat: string, rep: string)
    requires 0 < |pat| < |rep| && Contains(s, pat)
    ensures |ReplaceAll(s, pat, rep)| > |s|
    decreases |s|
  {
    var i :| 0 <= i <= |s| - |pat| && OccursAt(s, pat, i);
    if s[..|pat|] == pat {
      ReplaceAllLength(s[|pat|..], pat, rep);
    } else {
      assert i > 0;
      OccursAtTail(s, pat, i - 1);
      ReplaceAllGrows(s[1..], pat, rep);
    }
  }

  /**
   * When the replacement begins with the pattern's first character and `w`
   * holds no such character, a result that starts with `w` comes from a text
   * that starts with `w`.
   */
  lemma {:induction false} ReplaceAllKeepsPrefix(u: string, w: string, pat: string, rep: string)
    requires |pat| > 0 && |rep| > 0 && rep[0] == pat[0]
    requires forall k | 0 <= k < |w| :: w[k] != pat[0]
    ensures StartsWith(ReplaceAll(u, pat, rep), w) ==> StartsWith(u, w)
    decreases |u|
  {
    if w != [] && |u| >= |pat| && u[..|pat|] != pat {
      var t := ReplaceAll(u[1..], pat, rep);
      assert ReplaceAll(u, pat, rep) == [u[0]] + t;
      ReplaceAllKeepsPrefix(u[1..], w[1..], pat, rep);
      if StartsWith([u[0]] + t, w) {
        assert t[..|w| - 1] == ([u[0]] + t)[1..|w|];
        assert StartsWith(t, w[1..]);
        assert StartsWith(u[1..], w[1..]);
        assert |w| <= |u| && u[0] == w[0];
        assert u[..|w|] == [u[0]] + u[1..][..|w| - 1];
      }
    }
  }

  // ---------------------------------------------------------------------
  // The class step

  const ClassPattern: string := "class=\"mermaid\""

  /** `class="mermaid ${config.customClass}"` (:201). */
  function ClassReplacement(customClass: string): string
  {
    "class=\"mermaid " + customClass + "\""
  }

  /** The replacement at :199-202. */
  function ClassStep(s: string, customClass: string): (r: string)
    ensures |r| >= |s|
    ensures Contains(s, ClassPattern) ==> |r| > |s|
  {
    var rep := ClassReplacement(customClass);
    ReplaceAllLength(s, ClassPattern, rep);
    if Contains(s, ClassPattern) then ReplaceAllGrows(s, ClassPattern, rep); ReplaceAll(s, ClassPattern, rep)
    else ReplaceAll(s, ClassPattern, rep)
  }

  /**
   * A replacement followed by a text without the pattern holds no pattern
   * either, when the custom class has no `=`: every occurrence needs a `="`,
   * and the replacement's only `="` is followed by `mermaid ` and not `mermaid"`.
   */
  lemma NoPatternAfterReplacement(customClass: string, t: string)
    requires '=' !in customClass && !Contains(t, ClassPattern)
    ensures !Contains(ClassReplacement(customClass) + t, ClassPattern)
  {
    var rep := ClassReplacement(customClass);
    var s := rep + t;
    assert rep[..15] == "class=\"mermaid ";
    assert forall j | 15 <= j < |rep| - 1 :: rep[j] == customClass[j - 15];
    assert rep[|rep| - 1] == '"';
    forall i | 0 <= i <= |s| - 15 ensures !OccursAt(s, ClassPattern, i) {
      if i >= |rep| {
        assert !OccursAt(t, ClassPattern, i - |rep|);
        assert s[i..i + 15] == t[i - |rep|..i - |rep| + 15];
      } else if i == 0 {
        assert s[14] == rep[..15][14] == ' ';
        Mismatch(s, ClassPattern, i, 14);
      } else if i + 5 < |rep| {
        assert s[i + 5] == rep[i + 5];
        if i + 5 < 15 {
          assert rep[i + 5] == rep[..15][i + 5];
        }
        assert rep[i + 5] != '=';
        Mismatch(s, ClassPattern, i, 5);
      } else {
        var k := |rep| - 1 - i;
        assert 0 <= k < 5 && s[i + k] == '"';
        assert ClassPattern[k] == "class"[k];
        Mismatch(s, ClassPattern, i, k);
      }
    }
  }

  /** One differing character rules out an occurrence. */
  lemma Mismatch(s: string, w: string, i: int, j: int)
    requires 0 <= j < |w| && 0 <= i && i + |w| <= |s| && s[i + j] != w[j]
    ensures !OccursAt(s, w, i)
  {
    assert s[i..i + |w|][j] == s[i + j];
  }

  /** A copied character cannot start an occurrence that the scan did not see. */
  lemma NoPatternAfterCopy(s: string, customClass: string)
    requires |s| >= 15 && s[..15] != ClassPattern
    requires !Contains(ClassStep(s[1..], customClass), ClassPattern)
    ensures !Contains([s[0]] + ClassStep(s[1..], customClass), ClassPattern)
  {
    var t := ClassStep(s[1..], customClass);
    var r := [s[0]] + t;
    var w := ClassPattern[1..];
    ReplaceAllKeepsPrefix(s[1..], w, ClassPattern, ClassReplacement(customClass));
    forall i | 0 <= i <= |r| - 15 ensures !OccursAt(r, ClassPattern, i) {
      if i > 0 {
        assert r[i..i + 15] == t[i - 1..i - 1 + 15];
        assert !OccursAt(t, ClassPattern, i - 1);
      } else {
        assert r[1..15] == t[..14];
        assert r[..15] == ClassPattern ==> StartsWith(t, w);
        assert s[..15] == [s[0]] + s[1..][..14];
      }
    }
  }

  /**
   * After the class step no bare `class="mermaid"` is left, as long as the
   * custom class has no `=`.
   */
  lemma {:induction false} ClassStepLeavesNoBareClass(s: string, customClass: string)
    requires '=' !in customClass
    ensures !Contains(ClassStep(s, customClass), ClassPattern)
    decreases |s|
  {
    if |s| < 15 {
      assert ClassStep(s, customClass) == s;
    } else if s[..15] == ClassPattern {
      ClassStepLeavesNoBareClass(s[15..], customClass);
      NoPatternAfterReplacement(customClass, ClassStep(s[15..], customClass));
    } else {
      ClassStepLeavesNoBareClass(s[1..], customClass);
      NoPatternAfterCopy(s, customClass);
    }
  }

  /** A second class step changes nothing, as long as the custom class has no `=`. */
  lemma ClassStepIdempotent(s: string, customClass: string)
    requires '=' !in customClass
    ensures ClassStep(ClassStep(s, customClass), customClass) == ClassStep(s, customClass)
  {
    ClassStepLeavesNoBareClass(s, customClass);
    ReplaceAllNoMatch(ClassStep(s, customClass), ClassPattern, ClassReplacement(customClass));
  }

  /**
   * Without that proviso a second pass can change the text: the custom class
   * `class=` turns `class="mermaid"mermaid"` into a text with a new
   * `class="mermaid"` in it.
   */
  lemma ClassStepNotIdempotentWithEquals(s: string, customClass: string)
    requires s == ClassPattern + "mermaid\"" && customClass == "class="
    ensures ClassStep(ClassStep(s, customClass), customClass) != ClassStep(s, customClass)
  {
    var rep := ClassReplacement(customClass);
    ReplaceAllAt(ClassPattern, "mermaid\"", rep);
    var u := ClassStep(s, customClass);
    assert u == rep + "mermaid\"";
    assert OccursAt(u, ClassPattern, 15);
    ReplaceAllGrows(u, ClassPattern, rep);
  }

  // ---------------------------------------------------------------------
  // The style step

  /** The first index from `k` on that holds `c`, or `|s|` when there is none. */
  function NextIndex(s: string, c: char, k: int): (r: int)
    requires 0 <= k <= |s|
    ensures k <= r <= |s|
    ensures forall j | k <= j < r :: s[j] != c
    ensures r < |s| ==> s[r] == c
    decreases |s| - k
  {
    if k == |s| || s[k] == c then k else NextIndex(s, c, k + 1)
  }

  /** `NextIndex` is the first index that holds `c`: any index with its two properties is it. */
  lemma NextIndexIs(s: string, c: char, k: int, j: int)
    requires 0 <= k <= j <= |s|
    requires forall m | k <= m < j :: s[m] != c
    requires j == |s| || s[j] == c
    ensures NextIndex(s, c, k) == j
  {
    var r := NextIndex(s, c, k);
    assert !(r < j) && !(j < r);
  }

  const ClassOpen: string := "class=\""

  /**
   * `class="[^"]*mermaid[^"]*"` matches at `q`: `class="` starts there, the
   * value is closed by a later `"`, and the value contains `mermaid`.
   */
  predicate ClassAttrAt(s: string, q: int)
  {
    && OccursAt(s, ClassOpen, q)
    && NextIndex(s, '"', q + 7) < |s|
    && Contains(s[q + 7..NextIndex(s, '"', q + 7)], "mermaid")
  }

  /** The rightmost `q` from `lo` to `hi` at which the class attribute matches. */
  function LastClassAttr(s: string, lo: int, hi: int): (r: Option<int>)
    ensures r.Some? ==> lo <= r.value <= hi && ClassAttrAt(s, r.value)
    ensures r.Some? ==> forall q | r.value < q <= hi :: !ClassAttrAt(s, q)
    ensures r.None? ==> forall q | lo <= q <= hi :: !ClassAttrAt(s, q)
    decreases hi - lo
  {
    if hi < lo then None
    else if ClassAttrAt(s, hi) then Some(hi)
    else LastClassAttr(s, lo, hi - 1)
  }

  /** The rightmost matching position is the one found. */
  lemma LastClassAttrIsRightmost(s: string, lo: int, hi: int, q: int)
    requires lo <= q <= hi && ClassAttrAt(s, q)
    requires forall p | q < p <= hi :: !ClassAttrAt(s, p)
    ensures LastClassAttr(s, lo, hi) == Some(q)
  {
    var r := LastClassAttr(s, lo, hi);
    if r.Some? {
      assert !(r.value < q) && !(q < r.value);
    }
  }

  /**
   * Where the match of `<div[^>]*class="[^"]*mermaid[^"]*"[^>]*` that starts
   * at the beginning of `s` ends, if there is one. The leading `[^>]*` keeps
   * `class="` before the tag's first `>` and, being greedy, settles on the
   * rightmost `class="` from which the rest matches; the trailing `[^>]*`
   * runs to the first `>` after the value's closing quote.
   */
  function StyleMatchEnd(s: string): (r: Option<int>)
    ensures r.Some? ==> 12 <= r.value <= |s|
    ensures r.Some? ==> r.value == |s| || s[r.value] == '>'
  {
    if !OpensDiv(s) then None
    else
      var q := LastClassAttr(s, 4, NextIndex(s, '>', 4) - 7);
      if q.None? then None else Some(AttrMatchEnd(s, q.value))
  }

  /** `s` begins with `<div`. */
  predicate OpensDiv(s: string)
  {
    |s| >= 4 && s[0] == '<' && s[1] == 'd' && s[2] == 'i' && s[3] == 'v'
  }

  /** The first `>` after the value of the class attribute at `q`, or the end of `s`. */
  function AttrMatchEnd(s: string, q: int): (r: int)
    requires ClassAttrAt(s, q)
    ensures q + 8 <= r <= |s|
  {
    NextIndex(s, '>', NextIndex(s, '"', q + 7) + 1)
  }

  /** ` style="${config.customStyle}"` (:209). */
  function StyleAttr(style: string): string
  {
    " style=\"" + style + "\""
  }

  /** The replacement at :207-210: each match is kept and followed by the style attribute. */
  function StyleStep(s: string, style: string): (r: string)
    ensures |r| >= |s|
    decreases |s|
  {
    if s == [] then []
    else
      match StyleMatchEnd(s)
      case Some(e) => s[..e] + StyleAttr(style) + StyleStep(s[e..], style)
      case None => [s[0]] + StyleStep(s[1..], style)
  }

  /** No match starts anywhere but at a `<`. */
  lemma NoMatchWithoutTag(s: string)
    requires s == [] || s[0] != '<'
    ensures StyleMatchEnd(s) == None
  {
  }

  /** A prefix without `<` starts no tag and is copied unchanged. */
  lemma {:induction false} StyleStepSkip(a: string, b: string, style: string)
    requires '<' !in a
    ensures StyleStep(a + b, style) == a + StyleStep(b, style)
    decreases |a|
  {
    if a == [] {
      assert a + b == b;
    } else {
      var s := a + b;
      assert s[0] == a[0] && s[1..] == a[1..] + b;
      NoMatchWithoutTag(s);
      assert StyleStep(s, style) == [a[0]] + StyleStep(a[1..] + b, style);
      StyleStepSkip(a[1..], b, style);
      ConsAssoc(a, StyleStep(b, style));
    }
  }

  /** A text without `<` is left unchanged. */
  lemma StyleStepNoTag(s: string, style: string)
    requires '<' !in s
    ensures StyleStep(s, style) == s
  {
    StyleStepSkip(s, [], style);
    assert s + [] == s;
  }

  /** A `<` that does not open a `<div` is copied. */
  lemma StyleStepOtherTag(s: string, style: string)
    requires |s| > 0 && s[0] == '<' && !OpensDiv(s)
    ensures StyleStep(s, style) == "<" + StyleStep(s[1..], style)
  {
  }

  /**
   * A `<div` whose tag has no class attribute containing `mermaid` before its
   * first `>` is copied.
   */
  lemma StyleStepPlainDiv(s: string, style: string)
    requires OpensDiv(s)
    requires forall q | 4 <= q <= NextIndex(s, '>', 4) - 7 :: !ClassAttrAt(s, q)
    ensures StyleStep(s, style) == "<" + StyleStep(s[1..], style)
  {
  }

  /**
   * At a `<div` whose last matching class attribute before the first `>`
   * starts at `q` (see `LastClassAttrIsRightmost`), the style attribute is
   * inserted at the first `>` after that attribute's value (or at the end of
   * the text), and the scan resumes there.
   */
  lemma StyleStepAtTag(s: string, q: int, style: string)
    requires OpensDiv(s) && LastClassAttr(s, 4, NextIndex(s, '>', 4) - 7) == Some(q)
    ensures var e := AttrMatchEnd(s, q);
            && (e == |s| || s[e] == '>')
            && StyleStep(s, style) == s[..e] + StyleAttr(style) + StyleStep(s[e..], style)
  {
    assert StyleMatchEnd(s) == Some(AttrMatchEnd(s, q));
  }

  /** Every `<` of `s` is followed by something other than `d`: no `<div` starts in `s`. */
  predicate NoDivTag(s: string)
  {
    forall i | 0 <= i < |s| - 1 :: s[i] == '<' ==> s[i + 1] != 'd'
  }

  /** Two texts without a `<div` join into one, unless the first ends with `<`. */
  lemma NoDivTagConcat(a: string, b: string)
    requires NoDivTag(a) && NoDivTag(b) && (a == [] || a[|a| - 1] != '<')
    ensures NoDivTag(a + b)
  {
    var s := a + b;
    forall i | 0 <= i < |s| - 1 ensures s[i] == '<' ==> s[i + 1] != 'd' {
      if i < |a| - 1 {
        assert s[i] == a[i] && s[i + 1] == a[i + 1];
      } else if i == |a| - 1 {
        assert s[i] == a[|a| - 1];
      } else {
        assert s[i] == b[i - |a|] && s[i + 1] == b[i + 1 - |a|];
      }
    }
  }

  /** A text in which no `<div` starts is left unchanged by the style step. */
  lemma {:induction false} StyleStepNoDivTag(s: string, style: string)
    requires NoDivTag(s)
    ensures StyleStep(s, style) == s
    decreases |s|
  {
    if s != [] {
      if s[0] == '<' {
        assert !OpensDiv(s);
        StyleStepOtherTag(s, style);
      } else {
        NoMatchWithoutTag(s);
      }
      assert NoDivTag(s[1..]) by {
        forall i | 0 <= i < |s[1..]| - 1 && s[1..][i] == '<' ensures s[1..][i + 1] != 'd' {
          assert s[1..][i] == s[i + 1] && s[1..][i + 1] == s[i + 2];
        }
      }
      StyleStepNoDivTag(s[1..], style);
      assert s == [s[0]] + s[1..];
    }
  }

  // ---------------------------------------------------------------------
  // Both steps

  /** `processedContent` after the class step, which runs only for a non-empty custom class (:198-203). */
  function AfterClassStep(s: string, cfg: Config): (r: string)
    ensures |r| >= |s|
  {
    if cfg.customClass != "" then ClassStep(s, cfg.customClass) else s
  }

  /** `processedContent` after the style step, which runs only for a non-empty custom style (:206-211). */
  function AfterStyleStep(s: string, cfg: Config): (r: string)
    ensures |r| >= |s|
  {
    if cfg.customStyle != "" then StyleStep(s, cfg.customStyle) else s
  }

  /** `processedContent` after the two steps at :195-211, on a non-empty string. */
  function StyleString(s: string, cfg: Config): (r: string)
    ensures |r| >= |s|
    ensures cfg.customClass != "" && Contains(s, ClassPattern) ==> |r| > |s|
  {
    AfterStyleStep(AfterClassStep(s, cfg), cfg)
  }

  /** `applyMermaidStyling(htmlContent, config)`. */
  function ApplyMermaidStyling(v: Value, cfg: Config): (r: Value)
    ensures v.NonString? || v == Str("") ==> r == v
    ensures cfg.customClass == "" && cfg.customStyle == "" ==> r == v
    ensures v.Str? <==> r.Str?
  {
    match v
    case NonString => v
    case Str(s) => if s == "" then v else Str(StyleString(s, cfg))
  }
}
