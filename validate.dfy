/**
 * `validateMermaidSyntax` (mermaid-utils.js:221-253): a basic check that a
 * diagram source is non-empty after trimming and starts with one of twelve
 * known diagram keywords, comparing in lower case.
 */
module Validate {
  import opened JsString

  /** The object `{ isValid, errors }` the function returns. */
  datatype Validation = Validation(isValid: bool, errors: seq<string>)

  const InvalidSourceError: string := "Empty or invalid source"
  const EmptyContentError: string := "Empty diagram content"
  const UnknownTypeError: string := "Unknown or missing diagram type"

  /** The keywords listed at :235-239, in their order. */
  const DiagramTypes: seq<string> := [
    "graph", "flowchart", "sequenceDiagram", "classDiagram",
    "stateDiagram", "erDiagram", "journey", "gantt", "pie",
    "gitgraph", "mindmap", "timeline"
  ]

  /** The `some(...)` test at :241-243 on the trimmed source. */
  predicate HasKnownType(trimmed: string)
    ensures HasKnownType(trimmed) ==> |trimmed| >= 3
  {
    KeywordInitials();
    exists k | 0 <= k < |DiagramTypes| :: StartsWith(AsciiLower(trimmed), AsciiLower(DiagramTypes[k]))
  }

  /** `validateMermaidSyntax(source)`; `""` and non-strings are the falsy or non-string sources of :222. */
  function ValidateMermaidSyntax(source: Value): (r: Validation)
    ensures r.isValid == (r.errors == [])
    ensures |r.errors| <= 2
  {
    if source.NonString? || source.s == "" then Validation(false, [InvalidSourceError])
    else
      var trimmed := Trim(source.s);
      var errors := (if |trimmed| == 0 then [EmptyContentError] else [])
                    + (if HasKnownType(trimmed) then [] else [UnknownTypeError]);
      Validation(|errors| == 0, errors)
  }

  /** A missing or empty source is rejected with the single error of :223. */
  lemma EmptyOrInvalidSourceRejected(source: Value)
    requires source.NonString? || source == Str("")
    ensures ValidateMermaidSyntax(source) == Validation(false, [InvalidSourceError])
  {
  }

  /** Every keyword has at least three characters and begins with a lower-case letter other than `r`. */
  lemma KeywordInitials()
    ensures forall k | 0 <= k < |DiagramTypes| ::
              |DiagramTypes[k]| >= 3 && DiagramTypes[k][0] in {'g', 'f', 's', 'c', 'e', 'j', 'p', 'm', 't'}
  {
  }

  /** No keyword is a prefix of the empty string. */
  lemma NoTypeOfEmpty()
    ensures !HasKnownType("")
  {
    KeywordInitials();
  }

  /**
   * A non-empty source made only of white space gets both errors, the empty
   * content first (:230-232, :245-247).
   */
  lemma WhitespaceOnlyGetsBothErrors(s: string)
    requires s != "" && AllWhitespace(s)
    ensures ValidateMermaidSyntax(Str(s)) == Validation(false, [EmptyContentError, UnknownTypeError])
  {
    TrimEmptyIff(s);
    NoTypeOfEmpty();
  }

  /**
   * Otherwise a source is valid exactly when its trimmed text starts with one
   * of the keywords, ignoring case; it then has no errors, and the only error
   * it can get is the unknown type.
   */
  lemma ValidIffKnownType(s: string)
    requires s != ""
    ensures ValidateMermaidSyntax(Str(s)).isValid <==>
              exists k | 0 <= k < |DiagramTypes| :: StartsWith(AsciiLower(Trim(s)), AsciiLower(DiagramTypes[k]))
    ensures !AllWhitespace(s) ==> ValidateMermaidSyntax(Str(s)).errors == [] || ValidateMermaidSyntax(Str(s)).errors == [UnknownTypeError]
  {
    TrimEmptyIff(s);
    if AllWhitespace(s) {
      WhitespaceOnlyGetsBothErrors(s);
      NoTypeOfEmpty();
    } else {
      var r := ValidateMermaidSyntax(Str(s));
      assert r.isValid == HasKnownType(Trim(s));
    }
  }

  /**
   * The test is a prefix test and not a word test: whatever follows a keyword,
   * in any case, the source is valid (so `graphics` passes as a `graph`).
   */
  lemma KeywordPrefixSuffices(s: string, k: int, rest: string)
    requires 0 <= k < |DiagramTypes|
    requires AsciiLower(Trim(s)) == AsciiLower(DiagramTypes[k]) + rest
    ensures s != "" && ValidateMermaidSyntax(Str(s)) == Validation(true, [])
  {
    KeywordStartsKnown(Trim(s), k, rest);
    KnownTypeIsValid(s);
  }

  /** A source whose trimmed text is non-empty and has a known type is valid, with no errors. */
  lemma KnownTypeIsValid(s: string)
    requires Trim(s) != "" && HasKnownType(Trim(s))
    ensures s != "" && ValidateMermaidSyntax(Str(s)) == Validation(true, [])
  {
    TrimmedNonEmpty(s);
    var r := ValidateMermaidSyntax(Str(s));
    assert r.isValid;
    assert r.errors == [];
  }

  lemma TrimmedNonEmpty(s: string)
    requires Trim(s) != ""
    ensures s != ""
  {
    assert |Trim(s)| <= |TrimStart(s)| <= |s|;
  }

  /** A trimmed text that starts with keyword `k` in lower case is non-empty and has a known type. */
  lemma KeywordStartsKnown(tr: string, k: int, rest: string)
    requires 0 <= k < |DiagramTypes|
    requires AsciiLower(tr) == AsciiLower(DiagramTypes[k]) + rest
    ensures tr != "" && HasKnownType(tr)
  {
    var t := AsciiLower(DiagramTypes[k]);
    KeywordInitials();
    assert |tr| >= 3;
    assert (t + rest)[..|t|] == t;
    assert StartsWith(AsciiLower(tr), t);
  }

  /**
   * A source whose trimmed text begins with a letter no keyword begins with,
   * such as `requirementDiagram` (a type that the list leaves out), is
   * reported as unknown, and nothing else.
   */
  lemma UnknownInitialRejected(s: string)
    requires Trim(s) != "" && AsciiLowerChar(Trim(s)[0]) !in {'g', 'f', 's', 'c', 'e', 'j', 'p', 'm', 't'}
    ensures ValidateMermaidSyntax(Str(s)) == Validation(false, [UnknownTypeError])
  {
    UnknownInitial(Trim(s));
    assert Trim("") == "";
  }

  lemma UnknownInitial(t: string)
    requires t != "" && AsciiLowerChar(t[0]) !in {'g', 'f', 's', 'c', 'e', 'j', 'p', 'm', 't'}
    ensures !HasKnownType(t)
  {
    KeywordInitials();
    forall k | 0 <= k < |DiagramTypes| ensures !StartsWith(AsciiLower(t), AsciiLower(DiagramTypes[k])) {
      assert AsciiLower(t)[0] == AsciiLowerChar(t[0]);
      assert AsciiLower(DiagramTypes[k])[0] == AsciiLowerChar(DiagramTypes[k][0]);
    }
  }
}
