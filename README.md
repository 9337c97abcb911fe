# remarkable-mermaid-plus, modelled in Dafny

remarkable-mermaid-plus is a plugin for the Remarkable Markdown parser. It
turns fenced blocks tagged `mermaid` into containers that mermaid.js renders
in the browser. This project models the plugin's core and proves properties
of it:

- **The block rule** `parseFenceMermaid`, and its verbatim twin
  `parseBlockMermaid` (`fence_scanner.dfy`).
  - The rule reads Remarkable's line tables and cursor, and pushes a token.
  - It is modelled as the class `BlockState`, whose methods update `line`
    and `tokens` in place.
  - Each method is proved against the value-level specification `Scan`,
    `SearchClose` and `MermaidToken`, over an immutable `LineTable`.
- **`escapeHtml`** (`escape_html.dfy`): the five-character entity
  replacement. It is proved markup-free, injective and undone by a
  reference entity decoder.
- **`renderMermaid`** (`render.dfy`): the container and the optional
  initialisation script, and the error fragment for non-strings.
- **`applyMermaidStyling`** (`styling.dfy`): both global regular-expression
  replacements, written out as the scans the regular-expression engine
  performs.
  - The class step is a literal replace-all.
  - The style step is the greedy match of
    `(<div[^>]*class="[^"]*mermaid[^"]*"[^>]*)`.
- **`validateMermaidSyntax`** (`validate.dfy`): the non-empty check and the
  check for a known diagram keyword.
- **The plugin** (`options.dfy`, `plugin.dfy`): the defaulting of the
  options into `mermaidConfig`, and the render rule `renderMermaid` followed
  by `applyMermaidStyling`. The main result, `Plugin.RenderRuleFragment`,
  holds for an id of the form `mermaid-` followed by lower-case letters,
  digits and `-` (`Render.IsDiagramId`) and a custom class without `"`.
  For those, the rule produces exactly one `<div` opening tag. That tag has
  the class `mermaid`, the custom class when one is set, and the style
  attribute when one is set. With `includeScript` a `<script>` element
  follows the container.
- **Scenarios** (`scenarios.dfy`): concrete documents from the
  repository's test file, proved of the model on hand-built line tables.

`js_string.dfy` holds the JavaScript string operations the code relies on:
`slice`, `startsWith`, `trim` and ASCII `toLowerCase`. `Contains` stands for
the test file's `indexOf(...) !== -1` checks and for the `mermaid` that the
regular expression at `mermaid-utils.js:208` looks for inside a class value.

Two consequences of the code's order of tests are worth stating:

- **Closing search.** The indentation test at `mermaid-utils.js:110` comes
  before the marker test at `:112`. A closing marker on a dedented non-empty
  line therefore ends the search without a match
  (`FenceScanner.DedentRejected`).
- **Diagram keywords.** The keyword list at `mermaid-utils.js:235-239` has
  twelve entries, and `requirementDiagram` is not among them
  (`Validate.UnknownInitialRejected`).

## Model

| member | source | states |
|---|---|---|
| FenceScanner.BlockState.OpensFence | mermaid-utils.js:78-97 | reports exactly `OpensMermaidFence` for the opening line: three backticks at the content start, U+0020 spaces skipped, then a tag that lower-cases to `mermaid` |
| FenceScanner.BlockState.FindClose | mermaid-utils.js:99-116 | finds a closing marker exactly when `SearchClose` does, and then returns its line |
| FenceScanner.BlockState.MatchFence | mermaid-utils.js:78-118 | returns the closing line exactly as `Scan` does, and `None` for every rejected block |
| FenceScanner.BlockState.ParseFenceMermaid | mermaid-utils.js:77-133 | returns true iff `Scan` finds a closing line `n`; then sets `line` to `n + 1` and appends exactly one token, `MermaidToken` (type `mermaid`, trimmed lines between the fences, lines `[startLine, n + 1]`, the state's level, block); on false changes neither `line` nor `tokens` |
| FenceScanner.BlockState.ParseBlockMermaid | mermaid-utils.js:12-68 | the same contract as `ParseFenceMermaid`, since the body is the same |
| FenceScanner.SkipSpaces | mermaid-utils.js:90 | stops at the first index from `p` that is not U+0020, or at `max`, with only spaces before it |
| FenceScanner.SkipTag | mermaid-utils.js:93-94 | stops at the first U+0020 or U+000A, or at `max`, with neither character before it |
| FenceScanner.SearchClose | mermaid-utils.js:103-116 | a found line lies in `[k, endLine)` |
| FenceScanner.OpensMermaidFence | mermaid-utils.js:82-97 | an opening line that passes has at least ten content characters and a seven-character tag; `FenceTagBounds`, `OtherTagRejected`, `NonFenceOpeningLineRejected` and `ShortOpeningLineRejected` characterise it |
| FenceScanner.MermaidToken | mermaid-utils.js:121-130 | the token spans lines `[startLine, closeLine + 1]`, and its content is no longer than the joined body lines and neither starts nor ends with white space; `EmptyBodyToken` gives the empty case |
| FenceScanner.Scan | mermaid-utils.js:77-118 | a found closing line lies strictly between `startLine` and `endLine` |
| FenceScanner.SearchCloseFindsFirstClose | mermaid-utils.js:103-116 | `SearchClose` returns `n` iff `n` is a fence line, no line from `k` to `n` is a dedented non-empty line, and no earlier line is a fence line |
| FenceScanner.FirstCloseIsUnique | mermaid-utils.js:103-116 | at most one line satisfies that characterisation |
| FenceScanner.ScanSucceedsIff | mermaid-utils.js:82-118 | the rule succeeds with line `n` iff the opening line opens a mermaid fence and `n` is the first close after it; then `startLine < n < endLine` |
| FenceScanner.ShortOpeningLineRejected | mermaid-utils.js:82 | an opening line with fewer than three content characters is rejected |
| FenceScanner.NonFenceOpeningLineRejected | mermaid-utils.js:84-85 | an opening line not starting with three backticks is rejected |
| FenceScanner.OtherTagRejected | mermaid-utils.js:96-97 | a tag that does not lower-case to `mermaid` is rejected |
| FenceScanner.FenceTagBounds | mermaid-utils.js:87-96 | the tag is the run after the backticks and spaces, ending at the next U+0020 or U+000A or at the end of the line |
| FenceScanner.UnterminatedFenceRejected | mermaid-utils.js:103-118 | without a fence line before `endLine` the rule fails |
| FenceScanner.DedentRejected | mermaid-utils.js:110 | a dedented non-empty line before any fence line makes the rule fail, even if that line is itself a fence line |
| FenceScanner.NegativeShiftStopsSearch | mermaid-utils.js:110 | a line with a negative shift always meets the dedent test, since the block indent is never negative |
| FenceScanner.LazyLineRejected | mermaid-utils.js:103-118 | a lazy continuation line met before any fence line makes the rule fail, even when it holds the closing marker |
| FenceScanner.EmptyBodyToken | mermaid-utils.js:121-130 | a fence closed on the next line yields a token with empty content and lines `[startLine, startLine + 2]` |
| JsString.Trim | mermaid-utils.js:121 | `trim` never lengthens the text, and its result neither starts nor ends with ECMAScript white space; `TrimEmptyIff` gives the empty case |
| EscapeHtml.EscapeChar | mermaid-utils.js:173-179 | each of the five characters becomes an entity starting `&` and ending `;`; every other character is kept |
| EscapeHtml.Escape | mermaid-utils.js:172-182 | the output holds no `<`, `>`, `"` or `'`, and is at least as long as the input |
| EscapeHtml.EscapeConcat | mermaid-utils.js:181 | the global replacement distributes over concatenation |
| EscapeHtml.EscapePlain | mermaid-utils.js:181 | text without the five characters is unchanged |
| EscapeHtml.EscapeAmpersands | mermaid-utils.js:174-181 | every `&` of the output starts one of the five entities, so no bare `&` survives |
| EscapeHtml.LeadingEntity | mermaid-utils.js:173-179 | a recognised entity at the start of the text is exactly the replacement of the character it names |
| EscapeHtml.DecodeEscape | mermaid-utils.js:172-182 | decoding the five entities gives back the escaped text |
| EscapeHtml.EscapeInjective | mermaid-utils.js:172-182 | different texts never escape to the same text |
| Render.RenderMermaid | mermaid-utils.js:141-165 | a non-string gives the error fragment; a string gives output starting with the container |
| Render.Container | mermaid-utils.js:152 | the container is the opening tag, then a markup-free text that decodes back to the source, then `</div>` |
| Render.InitScript | mermaid-utils.js:156-161 | the script contains the `mermaid.init` call for this id |
| Render.RenderedBody | mermaid-utils.js:152-164 | the output is the opening tag, a markup-free body that decodes to the source, `</div>` and the script part |
| Render.RenderInjective | mermaid-utils.js:152 | under one id, different sources render differently |
| Render.IdHasNoMarkup | mermaid-utils.js:147 | a generated id holds no quote, `<`, `>`, `=` or `&` |
| Render.ScriptInitialisesThisDiagram | mermaid-utils.js:155-161 | with `includeScript` the output contains the `mermaid.init` call for this container's id |
| Render.NoScriptEndsWithContainer | mermaid-utils.js:155-164 | without `includeScript` the output is the container alone |
| Render.EmptySourceRendersEmptyContainer | mermaid-utils.js:151-152 | an empty source still renders a container, which contains `></div>` |
| Render.ErrorFragmentIsDistinct | mermaid-utils.js:142-152 | no string source renders to the error fragment |
| Styling.ReplaceAll | mermaid-utils.js:199-202 | replacing the pattern by itself changes nothing; `ReplaceAllNoMatch`, `ReplaceAllLength` and `ReplaceAllGrows` characterise it further |
| Styling.ReplaceAllNoMatch | mermaid-utils.js:199-202 | without an occurrence the global replacement changes nothing |
| Styling.ReplaceAllLength | mermaid-utils.js:199-202 | a replacement at least as long as the pattern never shortens the text |
| Styling.ReplaceAllGrows | mermaid-utils.js:199-202 | a text holding the pattern grows under a longer replacement |
| Styling.ClassStep | mermaid-utils.js:198-203 | the text never shrinks, and grows whenever it holds `class="mermaid"`; `ClassStepLeavesNoBareClass` and `ClassStepIdempotent` characterise it further |
| Styling.ClassStepLeavesNoBareClass | mermaid-utils.js:198-203 | after the class step no `class="mermaid"` is left, if the custom class has no `=` |
| Styling.ClassStepIdempotent | mermaid-utils.js:198-203 | a second class step changes nothing, if the custom class has no `=` |
| Styling.ClassStepNotIdempotentWithEquals | mermaid-utils.js:198-203 | with the custom class `class=`, a second pass does change `class="mermaid"mermaid"` |
| Styling.NextIndex | mermaid-utils.js:208 | the first index from `k` holding `c`, or the end of the text |
| Styling.LastClassAttr | mermaid-utils.js:208 | the rightmost position in range where `class="…mermaid…"` matches, or none |
| Styling.StyleMatchEnd | mermaid-utils.js:206-211 | a match of the style pattern at a `<div` ends at a `>` or at the end of the text, at least 12 characters in |
| Styling.StyleStep | mermaid-utils.js:206-211 | the style step only inserts, so the text never shrinks; `StyleStepAtTag`, `StyleStepPlainDiv`, `StyleStepOtherTag`, `StyleStepNoTag` and `StyleStepNoDivTag` characterise it |
| Styling.StyleStepOtherTag | mermaid-utils.js:208 | a `<` that does not open `<div` is copied |
| Styling.StyleStepNoTag | mermaid-utils.js:206-211 | text without `<` is unchanged by the style step |
| Styling.StyleStepPlainDiv | mermaid-utils.js:208 | a `<div` without a class attribute containing `mermaid` before its `>` is copied |
| Styling.StyleStepAtTag | mermaid-utils.js:206-211 | at a matching `<div` the style attribute is inserted at the first `>` after the class value, and the scan resumes there |
| Styling.StyleStepNoDivTag | mermaid-utils.js:206-211 | text in which no `<div` starts is unchanged by the style step |
| Styling.StyleString | mermaid-utils.js:195-211 | `processedContent` after both steps is never shorter than the input, and is longer when a custom class is set and `class="mermaid"` occurs |
| Styling.ApplyMermaidStyling | mermaid-utils.js:190-214 | non-strings and `""` are returned as given; an empty class and style change nothing; a string stays a string |
| Validate.HasKnownType | mermaid-utils.js:235-243 | a text with a known type has at least three characters; `ValidIffKnownType`, `KeywordPrefixSuffices` and `UnknownInitialRejected` characterise it |
| Validate.ValidateMermaidSyntax | mermaid-utils.js:221-253 | `isValid` holds exactly when there are no errors, and there are at most two |
| Validate.EmptyOrInvalidSourceRejected | mermaid-utils.js:222-224 | a non-string or empty source gets the single error `Empty or invalid source` |
| Validate.WhitespaceOnlyGetsBothErrors | mermaid-utils.js:227-247 | a white-space-only source gets `Empty diagram content`, then `Unknown or missing diagram type` |
| Validate.ValidIffKnownType | mermaid-utils.js:226-252 | a non-empty source is valid iff its trimmed, lower-cased text starts with a lower-cased keyword; then its only possible error is the unknown type |
| Validate.KeywordPrefixSuffices | mermaid-utils.js:241-243 | a keyword followed by anything is valid, since the test is a prefix test |
| Validate.UnknownInitialRejected | mermaid-utils.js:235-247 | a trimmed text whose first letter begins no keyword gets only the unknown-type error |
| MermaidOptions.MermaidConfig | index.js:7-18 | missing options give `{ includeScript: false, customClass: '', customStyle: '' }` |
| MermaidOptions.EmptyOptionsGiveDefault | index.js:13-18 | options with none of the three fields give the default configuration |
| MermaidOptions.SuppliedOptionsAreKept | index.js:13-18 | a supplied flag, class and style are kept exactly, the empty string included |
| Plugin.RenderRule | index.js:32-37 | with no custom class and no custom style the rule outputs `renderMermaid`'s fragment |
| Plugin.RenderRuleFragment | index.js:32-37 | for a generated id and a class without `"`, the output is exactly one `<div class="mermaid[ X]" id="ID"[ style="S"]>` tag, the escaped content, `</div>` and the script part |
| Plugin.DefaultRuleIsPlainRender | index.js:13-37 | with the default options the rule outputs the bare container |
| Plugin.CustomOptionsOpeningTag | index.js:13-37 | a custom class and style give `<div class="mermaid X" id="ID" style="S">`, with no quote in what follows |
| Plugin.BodyIsInert | mermaid-utils.js:152-161 | after the opening tag the fragment holds no `"` and no `<div`, so styling cannot touch it |
| Plugin.AfterClassOnContainer | index.js:36 | the class step rewrites only the container's own class attribute |
| Plugin.AfterStyleOnContainer | index.js:36 | the style step inserts the style attribute once, just before the opening tag's `>` |
| Scenarios.UpperScanned | index.test.js:111-119 | `` ```MERMAID `` is scanned exactly as `` ```mermaid ``, closing on line 3 |
| Scenarios.SimpleContent | index.test.js:13-14 | the token's content is `graph TD\n    A-->B`, spanning lines 0 to 4 |
| Scenarios.SimpleRendered | index.test.js:13-25 | the default rendering contains `<div class="mermaid"`, `id="mermaid-`, `graph TD` and `A--&gt;B` |
| Scenarios.JavascriptNotScanned | index.test.js:46-54 | a `javascript` fence is not taken by the rule |
| Scenarios.UnterminatedNotScanned | index.test.js:55-63 | an unterminated mermaid fence is not taken by the rule |
| Scenarios.LazyFenceNotScanned | mermaid-utils.js:103-118 | in a blockquote whose middle line is lazy, the opening line opens a mermaid fence and the quoted closing marker is a fence line, yet the rule fails at the lazy line |
| Scenarios.EmptyBlockScanned | index.test.js:64-72 | an empty mermaid block is taken, with empty content |
| Scenarios.CustomOptionsRendered | index.test.js:73-88 | the test's custom class and style both appear as attributes |

## Left out

- Registering the rule and the renderer with Remarkable (`index.js:23-29`, `md.block.ruler.before`, `md.renderer.rules`) is Remarkable's machinery. The model starts from the block state and the token the rule receives.
- The diagram id of `mermaid-utils.js:147` comes from `Date.now()` and `Math.random()`. It is a parameter of `Render.RenderMermaid`, constrained by `Render.IsDiagramId`.
- The effect of the initialisation script in the browser (mermaid.js drawing the diagram) is outside the plugin.
- Remarkable's `getLines` is not part of this model. `FenceScanner.GetLines` defines what it returns for indentation 0 with the last line feed kept.
- FenceScanner.WellFormed: this is the model's own assumption about a line table, not a documented Remarkable guarantee. Every line lies within the source, and its content start `bMarks + tShift` does not pass its end. The shift may be negative, as Remarkable's blockquote rule makes it on a lazy continuation line; the test at `mermaid-utils.js:110` then stops the search at that line (`FenceScanner.LazyLineRejected`).
- FenceScanner.Scan: the opening line is required to have a non-negative shift. Remarkable's block tokenizer stops before a line indented less than the block, so no rule starts on a lazy line. What `slice` and `charCodeAt` would do with the negative position of such an opening line is not modelled.
- `FenceScanner.BlockState.ParseFenceMermaid` builds the pushed token with the specification function `MermaidToken`. This is the same computation as `mermaid-utils.js:121-130`.
- Styling.ApplyMermaidStyling: JavaScript `$` patterns in the custom class or style (such as `$&` or `$1`) are not expanded. The replacement text is taken literally, as it is for inputs without `$`.
- Styling.ApplyMermaidStyling: non-string, falsy values other than `""` (`null`, `0`) are one case, `NonString`, returned unchanged.
- JsString.AsciiLower: `toLowerCase` is modelled on ASCII letters only. Strings are sequences of characters, with no UTF-16 surrogate pairs.
- Styling.ClassStepIdempotent: stated for custom classes without `=`. `Styling.ClassStepNotIdempotentWithEquals` shows that the proviso is needed.
- Idempotence of the style step is not claimed. A second pass inserts a second style attribute.
- Plugin.RenderRuleFragment: stated for custom classes without `"`. A `"` in the class ends the attribute value early, and the text after it becomes attributes of the tag.
- MermaidOptions.MermaidConfig: the options are typed. `includeScript` is a boolean and the class and style are strings. JavaScript keeps any truthy value (`includeScript: 1` still adds the script, `mermaidCustomClass: 5` splices in `5`) and turns any falsy value into `false` or `''`.
- Validate.ValidateMermaidSyntax: the arrays the source returns are modelled as sequences of the three error strings.
