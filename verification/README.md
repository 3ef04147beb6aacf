# odpdown in Dafny

odpdown converts markdown into an OpenDocument presentation. A markdown
parser calls one renderer callback per markdown construct. The callbacks
build document nodes: slides (draw pages), frames, text boxes,
paragraphs, spans, links, lists and whitespace markers. The parser then
glues the callbacks' results together with `+` and `+=`. This project
models the core of that conversion and proves what it promises.

The core, module by module:

- `Odf` (odf.dfy) is the node model that stands in for the lpod element
  classes. An element is a kind (its tag and attributes) plus an ordered
  list of children. The module also holds the exceptions the converter
  can raise, the text a reader sees in a tree (`Content`), and `%d`
  decimal formatting.
- `Whitespace` (whitespace.dfy) models `handle_whitespace`. It cuts text
  into literals, space runs, tabs and line breaks. A method with the
  source's loops is tied to a functional specification.
- `SpanWrap` (wrap_spans.dfy) models `wrap_spans`. Each maximal run of
  adjacent spans and links is wrapped into one new paragraph. The
  source's single-pass loop is proved against a grouping of the input.
- `PartialTrees` (partial_tree.dfy) models `ODFPartialTree`:
  - the glue rule `add_child_elems`, as the function `Merge`;
  - the `PartialTree` class, with `add_text`, `+`, `+=` and copy.
- `Formatting` (formatter.dfy) models `ODFFormatter`. It builds the
  style table from a highlighting style, resolves token categories
  through their parents, coalesces equal-category tokens, and flushes
  them as styled spans.
- `Rendering` (renderer.dfy) models the `ODFRenderer` callbacks: header,
  paragraph, list, list item, block quote, emphasis, code, links, plain
  and highlighted code blocks. It also models the image callback's
  geometry, naming and counter, and the renderer's defaults.
- `Scenarios` (scenarios.dfy) glues the callbacks together into whole
  slides: a heading followed by a paragraph, by a second paragraph, or by
  an image.
- `Generation` (generator.dfy) models odpgenerator.py's older renderer.
  It is a state machine over the current slide, a pending text frame and
  the pending list items, which flushes frames into slides and slides
  into the document body.

Pure code is written as datatypes, functions and lemmas. Code that
updates state in place is written as classes whose methods are tied to
those functions:

- `PartialTree`, `Formatter`, `Renderer` and `Generator`;
- the loops of `wrap_spans`, `handle_whitespace`, `format`, the
  style-chain builder, the category walk, `block_code` and `list`.

External services are inputs to the model:

- the markdown parser's calls are explicit call sequences or arguments;
- the lexer's token stream and a token type's parent chain are inputs;
- the probed image size, the media type and the image bytes are inputs;
- the document's manifest and parts are maps.

Four behaviours of the code are easy to miss. The model follows the code:

- An image that follows text on the same slide goes into the existing
  outline text box, not next to it. The outline search comes before the
  image-frame case (`Scenarios.ImageAfterText`).
- `handle_whitespace("")` returns one empty literal, not an empty list.
- A part that is a single space becomes a one-space marker. The bound
  proved for space markers is therefore n ≥ 1, not n ≥ 2.
- `link` turns a missing title into the text "None".

## Model

| member | source | states |
|---|---|---|
| Odf.Decimal | odpdown.py:681-683 | `%d` of a number is a non-empty string of digits that denotes the number, with no leading zero, at least two digits exactly when the number is 10 or more |
| Odf.DecimalInjective | odpdown.py:722-724 | different numbers print differently, so numbered names and "Ncm" sizes never collide |
| Whitespace.HandleWhitespace | odpdown.py:123-149 | the line-by-line, part-by-part loop returns exactly the specified piece sequence of the text, with parts classified by the corrected `Classify` (see "## Findings") |
| Whitespace.WhitespaceRoundTrip | odpdown.py:123-149 | reading the pieces back (n spaces for a space marker, a tab, a newline for a break, literals as they are) gives the input exactly |
| Whitespace.WhitespaceLineBreaks | odpdown.py:128-146 | there are as many line-break markers as newlines in the input, the output is never empty, and it never ends in a line break |
| Whitespace.WhitespacePieceShape | odpdown.py:120-143 | no literal holds a tab or two adjacent spaces, and every space marker counts at least one space |
| Whitespace.WhitespaceEmpty | odpdown.py:128-143 | empty text gives one empty literal |
| Whitespace.Classify | odpdown.py:133-143 | a part made only of spaces becomes a space marker of its length, a tab becomes a tab marker, anything else a literal with the same text; a part the regex split can return reads back unchanged |
| Whitespace.SplitLines | odpdown.py:128 | splitting on newlines gives at least one line and no line holds a newline |
| Whitespace.SplitLinesJoin | odpdown.py:128 | joining the lines with newlines gives the text back |
| Whitespace.SplitFromConcat | odpdown.py:131 | the parts of the whitespace regex split concatenate back to the line |
| Whitespace.SplitFromShape | odpdown.py:120-131 | every part is a tab, a run of two or more spaces, or text without a tab or two adjacent spaces; text parts and separators alternate, starting and ending with text; a run of spaces is matched leftmost and greedily, so the text before it does not end in a space and what follows it does not start with one |
| Whitespace.SplitRunsUnique | odpdown.py:120-131 | any sequence of parts of that shape that concatenates to the line is the split of the line, so a run of n ≥ 2 spaces is exactly one part of n spaces |
| Whitespace.AsWrittenLosesText | odpdown.py:133-137 | as written, the line " x" becomes a two-space marker and reads back without its "x"; the corrected rule keeps it as a literal |
| SpanWrap.WrapSpans | odpdown.py:100-117 | the loop with its pending paragraph returns exactly the specified wrapping of the input |
| SpanWrap.TracksInline | odpdown.py:106-109 | a span or link opens the pending paragraph when there is none and joins it, keeping the output in step with the grouping |
| SpanWrap.TracksBlock | odpdown.py:110-114 | any other element first flushes the pending paragraph, then goes to the output itself |
| SpanWrap.TracksEnd | odpdown.py:115-117 | flushing the pending paragraph after the last element completes the wrapping |
| SpanWrap.GroupsSpec | odpdown.py:100-117 | the grouping covers the input in order; every run is non-empty and inline only; every other element stands alone; no two runs are adjacent |
| SpanWrap.GroupsUnique | odpdown.py:100-117 | any grouping with those properties is this one, so every run is maximal |
| SpanWrap.ExtendCovers | odpdown.py:105-114 | one loop step adds exactly the current element to what has been grouped |
| SpanWrap.ExtendWellFormed | odpdown.py:105-114 | one loop step keeps the grouping well formed |
| SpanWrap.WrappedHasNoInline | odpdown.py:106-116 | no top-level output element is a span or a link |
| SpanWrap.WrapNoInlineIsIdentity | odpdown.py:110-114 | input without spans or links comes back unchanged |
| SpanWrap.WrapIdempotent | odpdown.py:100-117 | wrapping twice gives the same as wrapping once |
| SpanWrap.WrappedContent | odpdown.py:100-117 | wrapping adds and loses no text |
| PartialTrees.AppendInOutlineSpec | odpdown.py:182-189 | the search finds nothing exactly when no outline frame is in the slide; it cannot hit a frame without a text box when every outline frame has one; a hit keeps the slide's kind and child count, the first outline frame in document order (`FirstOutline`, preorder) gets the content at the end of its text box, everything outside that box is unchanged (`BlankBox`), and the slide's text is the old text with the content's text inserted right after that box's old text |
| PartialTrees.AppendInOutlineSeqSpec | odpdown.py:182-189 | the same over a list of siblings: the first outline frame in document order among them gets the content at the end of its text box, everything outside that box is unchanged, the number of siblings is kept, and the content's text is inserted right after that box's old text |
| PartialTrees.MergeConcatenates | odpdown.py:174-207 | an empty tree, a tree not ending in a slide, or incoming content starting with a slide gives plain concatenation |
| PartialTrees.MergeStaysOnSlide | odpdown.py:174-205 | content that does not start a slide keeps the list length, every element before the last slide, and the last slide's kind; a slide with an outline frame gets the wrapped content at the end of the first one's text box and is otherwise unchanged; a slide without one gets a frame as its new last child, and any other content as a new outline frame holding it wrapped |
| PartialTrees.OutsideBoxDetermines | odpdown.py:182-189 | the outline append is pinned down completely: an element that agrees with the slide outside the first outline box, and whose first outline frame is that frame with the content appended to its box, is the append's result |
| PartialTrees.MergeFailsOnlyOnEmpty | odpdown.py:174-186 | while every outline frame has its text box, gluing fails exactly when the tree ends in a slide and nothing is incoming, and then with IndexError |
| PartialTrees.MergeKeepsBoxed | odpdown.py:172-207 | gluing keeps every outline frame supplied with a text box |
| PartialTrees.MergeKeepsText | odpdown.py:172-207 | the glued tree reads as the old text followed by the incoming text, except when the content goes into the last slide's outline text box, where the incoming text is inserted right after that box's old text |
| PartialTrees.PartialTree.constructor | odpdown.py:160-163 | the tree holds the given elements and outline geometry |
| PartialTrees.PartialTree.AddChildElems | odpdown.py:172-207 | the element list becomes the glued list; on an exception it is left unchanged and the error is reported |
| PartialTrees.PartialTree.AddText | odpdown.py:209-213 | exactly one unstyled span holding the text is appended |
| PartialTrees.PartialTree.Plus | odpdown.py:215-224 | a fresh tree holds the glued result and this tree is untouched |
| PartialTrees.PartialTree.PlusAssign | odpdown.py:226-232 | this tree's list becomes the glued result, the other operand read before the update |
| PartialTrees.PartialTree.Copy | odpdown.py:234-238 | a fresh tree with the same elements and geometry |
| Formatting.StyleChainSpec | odpdown.py:262-302 | a category's chain holds the color, bold, italic and underline styles exactly when each is set, nested in that order, and is empty exactly when none is set |
| Formatting.BuildChain | odpdown.py:263-300 | the chain-building steps produce exactly the specified chain |
| Formatting.TableKeys | odpdown.py:258-302 | the style table has exactly the style's token types as keys |
| Formatting.TableLastEntry | odpdown.py:262-302 | for a token type listed more than once, the last entry's chain wins |
| Formatting.Formatter.constructor | odpdown.py:249-302 | the formatter's table is the specified table of the style |
| Formatting.StyleDefsCoverTable | odpdown.py:304-325 | every style name used in any chain is among the styles `add_style_defs` defines |
| Formatting.Formatter.AddStyleDefs | odpdown.py:304-325 | returns the names of the styles defined, in the style's order |
| Formatting.ResolveSpec | odpdown.py:342-343 | a token's category is its nearest ancestor in the table; there is none exactly when no ancestor is in the table |
| Formatting.ResolveCategory | odpdown.py:342-343 | the parent walk returns the specified category |
| Formatting.ResolveAllSpec | odpdown.py:337-343 | resolution fails exactly when some token has no category, and otherwise replaces each token's type by its category |
| Formatting.AddTokenSpec | odpdown.py:344-373 | adding a token adds its value to the text, ends with a run of its category, and keeps adjacent runs of different categories |
| Formatting.RunsSpec | odpdown.py:337-373 | runs hold the token values in order, adjacent runs differ in category, there are no runs exactly when there are no tokens, and the stream is cut into consecutive non-empty blocks, one per run, each holding only tokens of its run's category whose values join to the run's text |
| Formatting.Styled | odpdown.py:267-302 | a category's span nest is inline, reads as the text, and nests the chain's styles outermost first |
| Formatting.FlushPieces | odpdown.py:358-371 | one element per whitespace piece, in order: a literal becomes a span nest that carries the chain's styles and reads as the literal, a marker stays a marker (not a span) that reads as its piece |
| Formatting.FlushPiecesText | odpdown.py:352-371 | a flushed buffer reads exactly as the buffer |
| Formatting.Formatter.FlushBuffer | odpdown.py:352-371 | the flush loop produces the specified elements for the buffer, split by `handle_whitespace` with the corrected `Classify` (see "## Findings") |
| Formatting.Formatter.Format | odpdown.py:327-389 | the coalescing loop returns the specified output, or AttributeError |
| Formatting.SameCategoryTracks | odpdown.py:344-347 | a token of the buffered category only extends the buffer; nothing is flushed |
| Formatting.NewCategoryTracks | odpdown.py:348-374 | a token of another category flushes a non-empty buffer through the whitespace split, then becomes the buffer |
| Formatting.FinalTracks | odpdown.py:376-387 | after the last token, one span holding the whole non-empty buffer completes the output |
| Formatting.FormatBlocks | odpdown.py:344-387 | consecutive tokens of one resolved category form one buffer flushed with that category's chain: the resolved stream is cut into consecutive non-empty blocks of one category each, adjacent blocks differ in category, and the output is each block's joined values flushed with its category's chain, the last block as one span when its joined values are non-empty and as nothing otherwise |
| Formatting.FormatKeepsText | odpdown.py:327-389 | the formatted output reads exactly as the concatenated token values |
| Formatting.FormatFails | odpdown.py:342-343 | formatting fails exactly when some token has no ancestor in the table, and then with AttributeError |
| Formatting.FormatEmpty | odpdown.py:328-389 | an empty token stream gives an empty result |
| Formatting.FormatSingle | odpdown.py:377-387 | a single token with a non-empty value, whose type is in the style table, gives one span holding its whole value with its type's chain, not split at whitespace |
| Rendering.HeaderSpec | odpdown.py:544-579 | levels 1 and 2 succeed and any other fails; each gives a slide named by the heading text, on its level's master, holding one title frame with its level's geometry and the heading text |
| Rendering.ParagraphSpec | odpdown.py:615-626 | an empty paragraph fails; a paragraph starting with a frame passes through unchanged; any other becomes one inline span with the same text |
| Rendering.ListItemText | odpdown.py:601-605 | a list item reads as its content |
| Rendering.ListSpec | odpdown.py:607-613 | a list keeps its items in order, reads as them, and uses style "L1" exactly when ordered |
| Rendering.BlockQuoteText | odpdown.py:581-600 | a block quote reads as its content between “ and ” |
| Rendering.InlineStylesSpec | odpdown.py:650-675 | emphasis, strong emphasis and code are single inline spans with their own style that read as their content |
| Rendering.AutolinkSpec | odpdown.py:637-642 | an autolink shows the address and links to it, behind "mailto:" for an e-mail address |
| Rendering.LinkSpec | odpdown.py:644-648 | a link fails on empty content, takes the first content element's text, and always carries a title, "None" when none was given |
| Rendering.PlainCodeText | odpdown.py:533-540 | a plain code block reads exactly as the code, every space, tab and newline kept |
| Rendering.Renderer.BlockCode | odpdown.py:523-542 | a code paragraph holds the plain whitespace pieces, or the formatter's output for a token stream, and fails when the formatter does; whitespace is split with the corrected `Classify` (see "## Findings") |
| Rendering.AspectFitSpec | odpdown.py:707-720 | an image wider than the box's 22:12 ratio fills the width and comes out lower than 12, any other fills the height of 12; the image fits the 22 by 12 box at (2, 4), is centred along the other side, and keeps the aspect ratio up to truncation of the scaled side |
| Rendering.AspectFitFallback | odpdown.py:703-705 | an image whose size cannot be probed gets a 12 cm square at (7, 4) |
| Rendering.AfterLastDot | odpdown.py:680 | the extension holds no dot, ends the path, and follows the last dot when the path has one |
| Rendering.AfterLastDotOf | odpdown.py:680 | the extension is exactly what follows the last dot, whatever comes before it |
| Rendering.ImageNameInjective | odpdown.py:681-683 | image names with different counter values differ, whatever their extensions |
| Rendering.FirstSvgName | odpdown.py:680-683 | the first image "cramtest/test.svg" is stored as "Pictures/odpdown_image_0.svg" |
| Rendering.NextNameFresh | odpdown.py:681-683 | while every stored image is numbered below the counter, the next name is not taken |
| Rendering.ImageKeepsNumbering | odpdown.py:733-737 | storing an image under the next name keeps every stored image numbered below the incremented counter |
| Rendering.StoredImageCounted | odpdown.py:414-417 | the counter as written ignores a stored image; the corrected counter counts it |
| Rendering.AsWrittenCounterOverwrites | odpdown.py:414-417 | for a document already holding image 0, the counter as written starts at 0 and reuses that name; the corrected counter starts at 1 with a free name |
| Rendering.CorrectedCounterResumes | odpdown.py:411-417 | over a document holding an earlier run's pictures 0..n-1, the corrected counter starts at n and its first name is free, while the counter as written starts at 0 |
| Rendering.Renderer.constructor | odpdown.py:396-437 | every unset geometry option takes its default, and the image counter starts at the number of stored odpdown images, counted by the corrected rule (see "## Findings") |
| Rendering.Renderer.Tree | odpdown.py:165-170 | a fresh partial tree over the elements, with the renderer's outline geometry |
| Rendering.Renderer.Image | odpdown.py:677-738 | a zero probed height raises ZeroDivisionError and changes nothing; otherwise the frame has the fitted geometry, title and alt text, the picture is registered and stored under the numbered name, and the counter goes up by one |
| Scenarios.HeadingSlideIsHeader | odpdown.py:558-572 | a level-2 heading of plain text gives its slide, which has no outline frame |
| Scenarios.HeadingThenParagraph | test.py:87-99 | a heading and a paragraph give one slide with the title frame and a new outline frame holding the paragraph |
| Scenarios.FindOutline | odpdown.py:182-189 | on such a slide, appended content lands at the end of the outline frame's text box |
| Scenarios.SecondParagraphJoins | odpdown.py:182-189 | a second paragraph joins the first in the same outline frame |
| Scenarios.ImageAfterHeading | test.py:216-230 | an image right after a heading passes the paragraph and becomes the slide's second frame |
| Scenarios.ImageAfterText | odpdown.py:182-192 | an image after text on the same slide goes into the outline text box |
| Generation.Generator.constructor | odpgenerator.py:48-52 | no slide open, no pending frame, no list items, document body as given |
| Generation.Generator.OnParagraph | odpgenerator.py:60-70 | with a slide open the pending frame goes onto it; with none it is dropped; the new outline frame becomes pending; returns "" |
| Generation.Generator.OnListItem | odpgenerator.py:72-74 | only appends an item holding the text; returns "" |
| Generation.Generator.OnList | odpgenerator.py:76-92 | always empties the items; with a slide open, flushes the pending frame and adds one outline frame holding the items in order; returns "" |
| Generation.Generator.OnHeader | odpgenerator.py:94-110 | with a slide open, flushes the pending frame and the slide into the body; then a new slide with one title frame is open; returns "" |
| Generation.Generator.Finalize | odpgenerator.py:54-58 | the pending frame, if any, goes onto the open slide and the slide joins the body; nothing happens without a slide |
| Generation.StepTracks | odpgenerator.py:60-110 | every callback keeps the invariant: the template body is untouched, one finished slide per heading but the last, every slide a heading's slide with only outline frames after its title |
| Generation.DocumentSlides | odpgenerator.py:54-110 | after finalize the body is the template's body followed by exactly one slide per heading, in order, each named after its heading, with its title frame first and only outline frames after it |
| Generation.NoHeadingNoSlides | odpgenerator.py:54-58 | without any heading, finalize adds nothing to the body |
| Generation.LeadingParagraphs | odpgenerator.py:60-70 | of the paragraphs before the first heading only the last survives, as the first outline frame of the first slide |
| Generation.ListOnSlide | odpgenerator.py:72-92 | items and a list under a heading become one outline frame holding a "L2" list of the items in order |
| Generation.ListWithoutSlide | odpgenerator.py:76-92 | items and a list before any heading leave the renderer as it started |

## Left out

- The markdown parser (mistune). Its calls are modelled as explicit arguments and as call sequences (`Generation.Call`).
- The syntax-highlighting lexer (pygments). The token stream and each token type's parent chain are inputs.
- lpod's style and document APIs:
  - `add_style` and the style insertion in the renderer's constructor (odpdown.py:438-518);
  - the body of `add_style_defs`, which the model reduces to the names it defines;
  - the list-style cloning;
  - the regex styling of the quote marks by `set_span` (odpdown.py:597-598);
  - `clone()`, which is trivial with value semantics;
  - the serialisation of elements.
- Image fetching and probing: `urlopen`, PIL, BeautifulSoup, `guess_type` and `urlparse` (odpdown.py:678-705). The probed size, the URL path, the media type and the bytes are inputs.
- Rendering.Renderer.constructor: the image counter starts at the corrected count of stored "Pictures/odpdown_image_" paths, not the count of paths starting "odpdown_image_" that odpdown.py:414-417 computes, which is always 0 for odpdown's own images. The as-written count is `ImageCountAsWritten`, and "## Findings" shows both.
- Rendering.AspectFit: the source compares float ratios and truncates float quotients. The model uses exact integer cross-multiplication and floor division, so it may differ where float rounding changes a truncation. Non-integer SVG sizes are not modelled.
- Aliasing. In the source, `+` shares the last slide object between both trees (odpdown.py:217), and a frame appended to a slide stays the same object. Here slides are values, so a merge never changes the left operand of `+`.
- `get_formatted_text` (slide names) and `get_text` (link text) are modelled as the text a reader sees in a tree (`Content`) and an element's own text.
- `PartialTrees.PartialTree.Get`: a plain accessor with no contract of its own. Its callers state what it returns.
- Callbacks outside the core: `table`, `table_row`, `table_cell`, `tag`, `strikethrough`, `text` and `placeholder` are not modelled. `linebreak` is a single node, `Rendering.Linebreak`, with no property to state.
- The `main()` command line (argparse, file I/O, template inspection, saving) and odpgenerator.py's top-level script (odpgenerator.py:113-125).
- The vim plugin (process and socket IPC with LibreOffice) and the packaging scripts.
- Every slide gets the page id "page1", both in odpdown's `header` (odpdown.py:548, odpdown.py:562) and in odpgenerator.py (odpgenerator.py:100). `Page` has no id field, so that id is not modelled. In odpgenerator.py, `header`'s `level` and `raw` and `list`'s `body` and `ordered` are accepted and ignored (odpgenerator.py:76, odpgenerator.py:94), as the model's `Generator` does. odpdown's `header` ignores only `raw` (odpdown.py:544); its `level` and `list`'s `body` and `ordered` are modelled.

## Findings

| source | as written | input that shows it | evidently intended | confidence | as-written member | corrected member |
|---|---|---|---|---|---|---|
| odpdown.py:133-137 | a regex-split part is classified by its first character alone, so a text part that starts with one space becomes a space marker of its whole length | a code line " x": the split gives the single part " x", which becomes two spaces and loses "x" | only a run of spaces becomes a space marker, and any other part stays literal text | high, not executed | Whitespace.AsWrittenLosesText | Whitespace.Classify |
| odpdown.py:414-417 | the starting image counter counts manifest paths that start with "odpdown_image_", but the renderer stores images as "Pictures/odpdown_image_N.ext" | a template that already holds "Pictures/odpdown_image_0.png" from an earlier run: the counter starts at 0 and the next image overwrites that picture | count the stored odpdown images, so a later run numbers past them | high, not executed | Rendering.AsWrittenCounterOverwrites | Rendering.CorrectedCounterResumes |
