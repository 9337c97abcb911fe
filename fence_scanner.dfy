/**
 * The block rule `parseFenceMermaid` (mermaid-utils.js:77-133) and its
 * verbatim twin `parseBlockMermaid` (mermaid-utils.js:12-68).
 *
 * The rule runs on Remarkable's block state: the source text `src`, the
 * per-line tables `bMarks` (offset of the line), `tShift` (its indentation)
 * and `eMarks` (offset of its end), the indentation `blkIndent` of the
 * enclosing block, the cursor `line`, the nesting `level` and the token
 * list. The part it only reads is the value `LineTable`; the functions over
 * it (`Scan`, `SearchClose`, `GetLines`) specify what the imperative method
 * `BlockState.ParseFenceMermaid` does.
 */
module FenceScanner {
  import opened JsString

  /** A Remarkable token, as the rule pushes it. */
  datatype Token = Token(kind: string, content: string, lines: (int, int), level: int, block: bool)

  /** The part of the block state that the rule reads and never changes. */
  datatype LineTable = LineTable(
    src: string,
    bMarks: seq<int>,
    eMarks: seq<int>,
    tShift: seq<int>,
    blkIndent: int)

  /**
   * The shape this model assumes of a line table: one entry per line in each,
   * every line lies within the source, and its content start does not pass
   * its end. The shift may be negative: Remarkable's blockquote rule marks a
   * lazy continuation line that way, and the test at :110 then stops the
   * search there (`NegativeShiftStopsSearch`).
   */
  predicate WellFormed(t: LineTable)
  {
    && |t.bMarks| == |t.eMarks| == |t.tShift|
    && forall l | 0 <= l < |t.bMarks| ::
         0 <= t.bMarks[l] <= t.eMarks[l] <= |t.src| && t.bMarks[l] + t.tShift[l] <= t.eMarks[l]
  }

  /** `bMarks[l] + tShift[l]`: where line `l`'s content begins. */
  function ContentStart(t: LineTable, l: int): (r: int)
    requires WellFormed(t) && 0 <= l < |t.bMarks|
    ensures r <= t.eMarks[l] <= |t.src|
    ensures 0 <= t.tShift[l] ==> 0 <= r
  {
    t.bMarks[l] + t.tShift[l]
  }

  // ---------------------------------------------------------------------
  // The opening line

  /** Where the loop at :90 stops: the first index from `p` that is not U+0020, or `max`. */
  function SkipSpaces(src: string, p: int, max: int): (r: int)
    requires 0 <= p <= max <= |src|
    ensures p <= r <= max
    ensures forall k | p <= k < r :: src[k] == ' '
    ensures r < max ==> src[r] != ' '
    decreases max - p
  {
    if p < max && src[p] == ' ' then SkipSpaces(src, p + 1, max) else p
  }

  /** Where the loop at :94 stops: the first index from `p` holding U+0020 or U+000A, or `max`. */
  function SkipTag(src: string, p: int, max: int): (r: int)
    requires 0 <= p <= max <= |src|
    ensures p <= r <= max
    ensures forall k | p <= k < r :: src[k] != ' ' && src[k] != '\n'
    ensures r < max ==> src[r] == ' ' || src[r] == '\n'
    decreases max - p
  {
    if p < max && src[p] != ' ' && src[p] != '\n' then SkipTag(src, p + 1, max) else p
  }

  /** The language tag of an opening line whose content spans `src[pos..max]`. */
  function FenceTag(src: string, pos: int, max: int): string
    requires 0 <= pos && pos + 3 <= max <= |src|
  {
    var langStart := SkipSpaces(src, pos + 3, max);
    src[langStart..SkipTag(src, langStart, max)]
  }

  /** The test of mermaid-utils.js:82-97: three backticks, then a tag equal to `mermaid` ignoring case. */
  predicate OpensMermaidFence(src: string, pos: int, max: int)
    requires 0 <= pos <= max <= |src|
    ensures OpensMermaidFence(src, pos, max) ==> pos + 10 <= max && |FenceTag(src, pos, max)| == 7
  {
    pos + 3 <= max && src[pos..pos + 3] == "```" && AsciiLower(FenceTag(src, pos, max)) == "mermaid"
  }

  // ---------------------------------------------------------------------
  // The closing search

  /** The guard at :110: a non-empty line indented less than the enclosing block. */
  predicate StopsSearch(t: LineTable, l: int)
    requires WellFormed(t) && 0 <= l < |t.bMarks|
  {
    ContentStart(t, l) < t.eMarks[l] && t.tShift[l] < t.blkIndent
  }

  /** The test at :112: line `l`'s content begins with three backticks. */
  predicate IsFenceLine(t: LineTable, l: int)
    requires WellFormed(t) && 0 <= l < |t.bMarks|
  {
    Slice(t.src, ContentStart(t, l), ContentStart(t, l) + 3) == "```"
  }

  /** The `for (;;)` loop at :103-116, started at line `k`. */
  function SearchClose(t: LineTable, k: int, endLine: int): (r: Option<int>)
    requires WellFormed(t) && 0 <= k && endLine <= |t.bMarks|
    ensures r.Some? ==> k <= r.value < endLine
    decreases endLine - k
  {
    if k >= endLine then None
    else if StopsSearch(t, k) then None
    else if IsFenceLine(t, k) then Some(k)
    else SearchClose(t, k + 1, endLine)
  }

  /**
   * Line `n` is the first line from `k` on that closes the fence: it lies
   * before `endLine`, it is a fence line, and neither it nor any line before
   * it (from `k`) stops the search, and no earlier line is a fence line.
   */
  ghost predicate IsFirstClose(t: LineTable, k: int, endLine: int, n: int)
    requires WellFormed(t) && 0 <= k && endLine <= |t.bMarks|
  {
    && k <= n < endLine
    && !StopsSearch(t, n) && IsFenceLine(t, n)
    && forall m | k <= m < n :: !StopsSearch(t, m) && !IsFenceLine(t, m)
  }

  /** What the whole rule decides: the closing line, or None when it returns false. */
  function Scan(t: LineTable, startLine: int, endLine: int): (r: Option<int>)
    requires WellFormed(t) && 0 <= startLine < |t.bMarks| && endLine <= |t.bMarks|
    requires 0 <= t.tShift[startLine]
    ensures r.Some? ==> startLine < r.value < endLine
  {
    if OpensMermaidFence(t.src, ContentStart(t, startLine), t.eMarks[startLine])
    then SearchClose(t, startLine + 1, endLine)
    else None
  }

  /**
   * `state.getLines(begin, end, 0, true)`: Remarkable's method, not part of this
   * model; with indentation 0 and the last line feed kept it concatenates
   * `src.slice(bMarks[l], eMarks[l] + 1)` for every line `l` from `begin` up to
   * but excluding `end`.
   */
  function GetLines(t: LineTable, begin: int, end: int): string
    requires WellFormed(t) && 0 <= begin && end <= |t.bMarks|
    decreases end - begin
  {
    if begin >= end then ""
    else Slice(t.src, t.bMarks[begin], t.eMarks[begin] + 1) + GetLines(t, begin + 1, end)
  }

  /** The token pushed at :124-130 for a fence opened at `startLine` and closed at `closeLine`. */
  function MermaidToken(t: LineTable, startLine: int, closeLine: int, level: int): (r: Token)
    requires WellFormed(t) && 0 <= startLine < closeLine <= |t.bMarks|
    ensures r.lines.0 == startLine < r.lines.1 == closeLine + 1
    ensures |r.content| <= |GetLines(t, startLine + 1, closeLine)|
    ensures r.content != [] ==> !IsJsWhitespace(r.content[0]) && !IsJsWhitespace(r.content[|r.content| - 1])
  {
    Token("mermaid", Trim(GetLines(t, startLine + 1, closeLine)), (startLine, closeLine + 1), level, true)
  }

  // ---------------------------------------------------------------------
  // Properties of the specification

  /** `SearchClose` finds exactly the first closing line, and nothing else. */
  lemma {:induction false} SearchCloseFindsFirstClose(t: LineTable, k: int, endLine: int, n: int)
    requires WellFormed(t) && 0 <= k && endLine <= |t.bMarks|
    ensures SearchClose(t, k, endLine) == Some(n) <==> IsFirstClose(t, k, endLine, n)
    decreases endLine - k
  {
    if k < endLine && !StopsSearch(t, k) && !IsFenceLine(t, k) {
      SearchCloseFindsFirstClose(t, k + 1, endLine, n);
      if IsFirstClose(t, k + 1, endLine, n) {
        assert IsFirstClose(t, k, endLine, n) by {
          forall m | k <= m < n ensures !StopsSearch(t, m) && !IsFenceLine(t, m) {
            if m > k { assert k + 1 <= m < n; }
          }
        }
      }
      if IsFirstClose(t, k, endLine, n) {
        assert n != k;
        assert IsFirstClose(t, k + 1, endLine, n);
      }
    }
  }

  /** At most one line is the first closing line. */
  lemma FirstCloseIsUnique(t: LineTable, k: int, endLine: int, n1: int, n2: int)
    requires WellFormed(t) && 0 <= k && endLine <= |t.bMarks|
    requires IsFirstClose(t, k, endLine, n1) && IsFirstClose(t, k, endLine, n2)
    ensures n1 == n2
  {
  }

  /**
   * The rule succeeds with closing line `n` exactly when the opening line is a
   * mermaid fence and `n` is the first closing line after it; the closing line
   * then lies strictly between `startLine` and `endLine`.
   */
  lemma ScanSucceedsIff(t: LineTable, startLine: int, endLine: int, n: int)
    requires WellFormed(t) && 0 <= startLine < |t.bMarks| && endLine <= |t.bMarks|
    requires 0 <= t.tShift[startLine]
    ensures Scan(t, startLine, endLine) == Some(n) <==>
              OpensMermaidFence(t.src, ContentStart(t, startLine), t.eMarks[startLine])
              && IsFirstClose(t, startLine + 1, endLine, n)
    ensures Scan(t, startLine, endLine) == Some(n) ==> startLine < n < endLine
  {
    SearchCloseFindsFirstClose(t, startLine + 1, endLine, n);
  }

  /** An opening line whose content is shorter than three characters is rejected (:82). */
  lemma ShortOpeningLineRejected(t: LineTable, startLine: int, endLine: int)
    requires WellFormed(t) && 0 <= startLine < |t.bMarks| && endLine <= |t.bMarks|
    requires 0 <= t.tShift[startLine]
    requires ContentStart(t, startLine) + 3 > t.eMarks[startLine]
    ensures Scan(t, startLine, endLine) == None
  {
  }

  /** An opening line that does not start with three backticks is rejected (:85). */
  lemma NonFenceOpeningLineRejected(t: LineTable, startLine: int, endLine: int)
    requires WellFormed(t) && 0 <= startLine < |t.bMarks| && endLine <= |t.bMarks|
    requires 0 <= t.tShift[startLine]
    requires ContentStart(t, startLine) + 3 <= t.eMarks[startLine]
    requires t.src[ContentStart(t, startLine)..ContentStart(t, startLine) + 3] != "```"
    ensures Scan(t, startLine, endLine) == None
  {
  }

  /** An opening line whose tag is not `mermaid` ignoring ASCII case is rejected (:97). */
  lemma OtherTagRejected(t: LineTable, startLine: int, endLine: int)
    requires WellFormed(t) && 0 <= startLine < |t.bMarks| && endLine <= |t.bMarks|
    requires 0 <= t.tShift[startLine]
    requires ContentStart(t, startLine) + 3 <= t.eMarks[startLine]
    requires AsciiLower(FenceTag(t.src, ContentStart(t, startLine), t.eMarks[startLine])) != "mermaid"
    ensures Scan(t, startLine, endLine) == None
  {
  }

  /**
   * The tag is the run that follows the backticks and the U+0020 spaces after
   * them, up to the next U+0020, U+000A or the end of the line; characters
   * such as a tab belong to it.
   */
  lemma FenceTagBounds(src: string, pos: int, max: int)
    requires 0 <= pos && pos + 3 <= max <= |src|
    ensures exists i, j | pos + 3 <= i <= j <= max ::
              && FenceTag(src, pos, max) == src[i..j]
              && (forall k | pos + 3 <= k < i :: src[k] == ' ')
              && (i < max ==> src[i] != ' ')
              && (forall k | i <= k < j :: src[k] != ' ' && src[k] != '\n')
              && (j < max ==> src[j] == ' ' || src[j] == '\n')
  {
    var i := SkipSpaces(src, pos + 3, max);
    var j := SkipTag(src, i, max);
    assert FenceTag(src, pos, max) == src[i..j];
  }

  /** A fence that never closes before `endLine` is not a mermaid block (:118). */
  lemma {:induction false} UnterminatedFenceRejected(t: LineTable, startLine: int, endLine: int)
    requires WellFormed(t) && 0 <= startLine < |t.bMarks| && endLine <= |t.bMarks|
    requires 0 <= t.tShift[startLine]
    requires forall n | startLine < n < endLine :: !IsFenceLine(t, n)
    ensures Scan(t, startLine, endLine) == None
  {
    forall n ensures Scan(t, startLine, endLine) != Some(n) {
      ScanSucceedsIff(t, startLine, endLine, n);
    }
  }

  /**
   * A non-empty line indented less than the enclosing block, met before any
   * fence line, ends the search without a match (:110), even when that line is
   * itself a fence line.
   */
  lemma {:induction false} DedentRejected(t: LineTable, startLine: int, endLine: int, m: int)
    requires WellFormed(t) && 0 <= startLine < |t.bMarks| && endLine <= |t.bMarks|
    requires 0 <= t.tShift[startLine]
    requires startLine < m < endLine && StopsSearch(t, m)
    requires forall n | startLine < n < m :: !IsFenceLine(t, n)
    ensures Scan(t, startLine, endLine) == None
  {
    forall n ensures Scan(t, startLine, endLine) != Some(n) {
      ScanSucceedsIff(t, startLine, endLine, n);
      if startLine < n < m {
        assert !IsFenceLine(t, n);
      } else if n > m {
        assert startLine + 1 <= m < n && StopsSearch(t, m);
      }
    }
  }

  /** A line with a negative shift, such as a lazy blockquote line, always stops the search (:110). */
  lemma NegativeShiftStopsSearch(t: LineTable, l: int)
    requires WellFormed(t) && 0 <= l < |t.bMarks|
    requires t.tShift[l] < 0 <= t.blkIndent
    ensures StopsSearch(t, l)
  {
  }

  /**
   * A closing marker on a lazy continuation line, whose shift Remarkable makes
   * negative, does not close the fence: met before any fence line, such a line
   * makes the rule fail.
   */
  lemma LazyLineRejected(t: LineTable, startLine: int, endLine: int, m: int)
    requires WellFormed(t) && 0 <= startLine < |t.bMarks| && endLine <= |t.bMarks|
    requires 0 <= t.tShift[startLine]
    requires startLine < m < endLine && t.tShift[m] < 0 <= t.blkIndent
    requires forall n | startLine < n < m :: !IsFenceLine(t, n)
    ensures Scan(t, startLine, endLine) == None
  {
    NegativeShiftStopsSearch(t, m);
    DedentRejected(t, startLine, endLine, m);
  }

  /** A fence closed on the line right after the opener yields an empty token, not a failure. */
  lemma EmptyBodyToken(t: LineTable, startLine: int, level: int)
    requires WellFormed(t) && 0 <= startLine && startLine + 1 < |t.bMarks|
    ensures MermaidToken(t, startLine, startLine + 1, level).content == ""
    ensures MermaidToken(t, startLine, startLine + 1, level).lines == (startLine, startLine + 2)
  {
  }

  // ---------------------------------------------------------------------
  // The imperative rule

  /** Remarkable's block state, restricted to the fields the rule touches. */
  class BlockState {
    const src: string
    const bMarks: seq<int>
    const eMarks: seq<int>
    const tShift: seq<int>
    const blkIndent: int
    const level: int
    var line: int
    var tokens: seq<Token>

    constructor (src: string, bMarks: seq<int>, eMarks: seq<int>, tShift: seq<int>, blkIndent: int, line: int, level: int)
      requires WellFormed(LineTable(src, bMarks, eMarks, tShift, blkIndent))
      ensures Valid()
      ensures this.src == src && this.bMarks == bMarks && this.eMarks == eMarks && this.tShift == tShift
      ensures this.blkIndent == blkIndent && this.line == line && this.level == level && this.tokens == []
    {
      this.src := src;
      this.bMarks := bMarks;
      this.eMarks := eMarks;
      this.tShift := tShift;
      this.blkIndent := blkIndent;
      this.line := line;
      this.level := level;
      this.tokens := [];
    }

    function Table(): LineTable
    {
      LineTable(src, bMarks, eMarks, tShift, blkIndent)
    }

    predicate Valid()
    {
      WellFormed(Table())
    }

    /**
     * The opening-line test of `parseFenceMermaid` (:79-97): three backticks at
     * the start of the line's content, then the spaces, then a tag that is
     * `mermaid` ignoring ASCII case. Changes nothing.
     */
    method OpensFence(startLine: int) returns (ok: bool)
      requires Valid() && 0 <= startLine < |bMarks|
      requires 0 <= tShift[startLine]
      ensures ok == OpensMermaidFence(src, ContentStart(Table(), startLine), eMarks[startLine])
    {
      var t := Table();
      var pos := t.bMarks[startLine] + t.tShift[startLine];
      var max := t.eMarks[startLine];

      if pos + 3 > max { return false; }

      var marker := Slice(t.src, pos, pos + 3);
      if marker != "```" { return false; }

      pos := pos + 3;

      while pos < max && t.src[pos] == ' '
        invariant ContentStart(t, startLine) + 3 <= pos <= max
        invariant SkipSpaces(t.src, pos, max) == SkipSpaces(t.src, ContentStart(t, startLine) + 3, max)
        decreases max - pos
      {
        pos := pos + 1;
      }

      var langStart := pos;
      while pos < max && t.src[pos] != ' ' && t.src[pos] != '\n'
        invariant langStart <= pos <= max
        invariant SkipTag(t.src, pos, max) == SkipTag(t.src, langStart, max)
        decreases max - pos
      {
        pos := pos + 1;
      }

      var lang := AsciiLower(t.src[langStart..pos]);
      ok := lang == "mermaid";
    }

    /**
     * The `for (;;)` loop of `parseFenceMermaid` (:99-116): the first line
     * after `startLine` that starts with three backticks, unless the block
     * ends or a line indented less than the block comes first. Changes nothing.
     */
    method FindClose(startLine: int, endLine: int) returns (haveEndMarker: bool, nextLine: int)
      requires Valid() && 0 <= startLine < |bMarks| && endLine <= |bMarks|
      ensures haveEndMarker <==> SearchClose(Table(), startLine + 1, endLine).Some?
      ensures haveEndMarker ==> nextLine == SearchClose(Table(), startLine + 1, endLine).value
    {
      var t := Table();
      nextLine := startLine;
      haveEndMarker := false;

      while true
        invariant startLine <= nextLine && !haveEndMarker
        invariant nextLine > startLine ==> nextLine < endLine
        invariant SearchClose(t, startLine + 1, endLine) == SearchClose(t, nextLine + 1, endLine)
        decreases endLine - nextLine
      {
        nextLine := nextLine + 1;
        if nextLine >= endLine { break; }

        var pos := t.bMarks[nextLine] + t.tShift[nextLine];
        var max := t.eMarks[nextLine];

        if pos < max && t.tShift[nextLine] < t.blkIndent { break; }

        if Slice(t.src, pos, pos + 3) == "```" {
          haveEndMarker := true;
          break;
        }
      }
    }

    /**
     * `parseFenceMermaid(state, startLine, endLine)`: on success pushes one
     * mermaid token and moves the cursor past the closing line; on failure
     * changes nothing.
     */
    method ParseFenceMermaid(startLine: int, endLine: int) returns (ok: bool)
      requires Valid() && 0 <= startLine < |bMarks| && endLine <= |bMarks|
      requires 0 <= tShift[startLine]
      modifies this
      ensures ok <==> Scan(Table(), startLine, endLine).Some?
      ensures !ok ==> line == old(line) && tokens == old(tokens)
      ensures ok ==> var n := Scan(Table(), startLine, endLine).value;
                     && line == n + 1
                     && tokens == old(tokens) + [MermaidToken(Table(), startLine, n, level)]
    {
      var close := MatchFence(startLine, endLine);
      if close.None? { return false; }

      var nextLine := close.value;
      var token := MermaidToken(Table(), startLine, nextLine, level);
      line := nextLine + 1;
      tokens := tokens + [token];
      ok := true;
    }

    /**
     * The two tests of `parseFenceMermaid` together (:79-116): the closing line
     * when the block is a mermaid fence with a closing fence. Changes nothing.
     */
    method MatchFence(startLine: int, endLine: int) returns (close: Option<int>)
      requires Valid() && 0 <= startLine < |bMarks| && endLine <= |bMarks|
      requires 0 <= tShift[startLine]
      ensures close == Scan(Table(), startLine, endLine)
    {
      var opens := OpensFence(startLine);
      if !opens { return None; }

      var haveEndMarker, nextLine := FindClose(startLine, endLine);
      if !haveEndMarker { return None; }
      close := Some(nextLine);
    }

    /** `parseBlockMermaid`: the same body as `parseFenceMermaid`. */
    method ParseBlockMermaid(startLine: int, endLine: int) returns (ok: bool)
      requires Valid() && 0 <= startLine < |bMarks| && endLine <= |bMarks|
      requires 0 <= tShift[startLine]
      modifies this
      ensures ok <==> Scan(Table(), startLine, endLine).Some?
      ensures !ok ==> line == old(line) && tokens == old(tokens)
      ensures ok ==> var n := Scan(Table(), startLine, endLine).value;
                     && line == n + 1
                     && tokens == old(tokens) + [MermaidToken(Table(), startLine, n, level)]
    {
      ok := ParseFenceMermaid(startLine, endLine);
    }
  }
}
