# Handwritten notes renderer: a verified model

This project models the core of a small browser tool that turns typed text
into an image that looks handwritten (`script.js`). The modelled parts are:

- **Layout.** `generateHandwrittenNotes` splits the text on `'\n'`. A
  whitespace-only segment only moves the cursor down one line height. Every
  other segment is wrapped greedily word by word against `width - 80`, and
  the trimmed lines are drawn at x = 40, starting at y = 40.
- **Word placement.** `drawTextWithVariation` draws each word of a line
  inside its own save/restore pair, with a random vertical offset, a random
  font-size change and a random rotation. The x cursor then advances by the
  width of the word plus one space, measured with the line's own font.
- **Paper.** `drawPaperStyle` strokes horizontal rules every 32 pixels from
  y = 40 for "lined". For "grid" it strokes the same rules and then
  vertical rules every 32 pixels from x = 40. Any other style strokes
  nothing.
- **Export.** `downloadImage` scans the RGBA pixel data for a pixel whose
  red, green or blue byte is not 255. It refuses to export when there is
  none. Otherwise it builds a `.png` or `.jpg` link.

Modules, in dependency order:

- `JsString`: `String.prototype.trim`, `split` on one character, and its
  inverse `Join`.
- `Canvas`: the text-measuring function (a parameter) and the 40-pixel
  margin.
- `WordWrap`: the wrap as a fold over the words (`Greedy`, `Groups`,
  `WrapTexts`), the outer loop as a fold over the segments
  (`LayoutSegments`, `Layout`), and the imperative loops (`WrapText`,
  `WrapSegment`, `WrapWords`, `WrapWord`) proved equal to those folds.
- `Variation`: the per-word placement `Placements` and the loop
  `DrawTextWithVariation` proved equal to it.
- `Paper`: the rule lists `PaperRules` and the stroking loops proved equal
  to them.
- `Export`: the pixel scan `CheckContent` over an `array` of bytes, and
  `DownloadImage`.
- `Render`: `GenerateHandwrittenNotes` as the sequence of drawing commands
  it issues (`RenderCommands`).

The cursor y is kept as a line-slot index k, with y = 40 + k * lineHeightPx
(`WordWrap.Y`). Text width is an uninterpreted function `measure` from
strings to reals. The three `Math.random()` values of each word are an
injected parameter (`rnd(k)`, and `rnd(n)(k)` for word k of drawn line n).

Four behaviours of the code are easy to misread. The model follows the
code in each of them:

- **Rule extent.** The rules are not confined to the margins. The
  horizontal loop runs while y < height, so a 400×400 surface gets 12
  rules, at y = 40, 72, …, 392, where rules from the top margin to the
  bottom margin would number floor((400-40-40)/32)+1 = 11.
  `Paper.Grid400` proves the count of 12. Vertical rules are likewise
  stroked for every x < width.
- **Blank test.** The pixels are compared with white (255, 255, 255), not
  with the chosen background colour. So a page with a non-white
  background always counts as having content
  (`Export.NonWhitePixelIsContent`).
- **Trimmed lines.** Each drawn line is trimmed (script.js:213, 223), and
  `trim` removes every JavaScript whitespace and line-terminator character,
  not only spaces. A tab or no-break space at the start or end of a line is
  therefore not drawn, and the drawn words equal the segment's words only
  up to that trimming (`WordWrap.WrapTextsAreGroups` states line i as
  `Trim(Join(gs[i], ' '))`).
- **Measured candidate.** The width compared with `width - 80` is that of
  the accumulator, the word and one trailing space (script.js:208-211).
  A line whose own text fits but whose text plus one space does not is
  still broken. `WordWrap.FittingSegmentOneLine` therefore asks that every
  spaced prefix fits, and `WordWrap.TwoWordsSegment` that the second word
  overflows `a + " " + b + " "`.

`Render` reorders the drawing. In the source, each line is drawn as soon as
the wrap produces it. In the model, the wrap runs first and the lines are
drawn afterwards, in the same order. Each word is drawn between `save` and
`restore`, so drawing changes nothing the wrap later measures, and the two
orders draw the same things.

## Model

| member | source | states |
|---|---|---|
| JsString.Trim | script.js:198 | Definition of `String.prototype.trim`: drops the longest leading run and then the longest trailing run of ECMAScript whitespace and line terminators. |
| JsString.TrimSpec | script.js:198 | A trimmed string is empty exactly when every character of the input is whitespace; a non-empty result starts and ends with a non-whitespace character. |
| JsString.TrimStartSpec | script.js:198 | Trimming the start removes a whitespace-only prefix and keeps a suffix of the input that is empty or starts with non-whitespace. |
| JsString.TrimEndSpec | script.js:198 | Trimming the end removes a whitespace-only suffix and keeps a prefix of the input that is empty or ends with non-whitespace. |
| JsString.TrimTrailingSpace | script.js:213 | Trimming an accumulator gives the same text whether or not its trailing space is present. |
| JsString.Split | script.js:192 | Splitting always yields at least one piece (an empty string yields one empty piece). |
| JsString.Join | script.js:204 | Definition of the inverse of `split`: the pieces in order with one separator between neighbours; no pieces join to the empty string. |
| JsString.SplitPieces | script.js:204 | No piece of a split contains the separator. |
| JsString.JoinSplit | script.js:204 | Rejoining the pieces of a split with the separator gives back the original string. |
| JsString.JoinInjective | script.js:204 | Joining separator-free pieces is injective: two lists of such pieces with the same join are equal. |
| JsString.SplitJoin | script.js:192 | Splitting a join of separator-free pieces gives back exactly those pieces. |
| JsString.JoinAppend | script.js:204 | Joining two non-empty lists is joining each and putting the separator between them. |
| WordWrap.Y | script.js:195-199 | Definition: line slot k lies at y = 40 + k * lineHeightPx (the cursor starts at 40 and moves one line height per advance). |
| WordWrap.YStep | script.js:199 | For any line height, each line slot is exactly one line height below the previous one. |
| WordWrap.YIncreasing | script.js:195-199 | With a positive line height, later slots are strictly lower. |
| WordWrap.SpacedIsJoin | script.js:208 | The accumulator after appending the words of a group is the words joined by single spaces plus one trailing space. |
| WordWrap.LineTextIsTrimmedJoin | script.js:213 | The text drawn for a group is its words joined by spaces and trimmed. |
| WordWrap.Step | script.js:208-218 | Definition of one inner callback on the fold state: when the accumulator's words, the new word and a trailing space measure wider than the maximum width and the accumulator is not empty, the accumulator is closed as a group and restarted with the word; otherwise the word is appended. |
| WordWrap.Greedy | script.js:204-219 | Definition: the inner forEach as a left fold of `Step` over the words, starting with no closed group and an empty accumulator. |
| WordWrap.Groups | script.js:204-225 | Definition: the closed groups of the fold, followed by the final accumulator when it holds a word. |
| WordWrap.StepBreakInvariant | script.js:211-215 | A break keeps the wrap invariant: the closed group stays fitting, is recorded as overflowed by the word, and the word alone starts the new accumulator. |
| WordWrap.StepAppendInvariant | script.js:216-218 | An append keeps the wrap invariant: the candidate fitted, or the accumulator was empty and now holds one word. |
| WordWrap.GreedyInvariant | script.js:207-219 | After any words: the groups are non-empty, their concatenation is the words in order, each group fits or is a single word, and each closed group was closed because the next group's first word overflowed it. |
| WordWrap.GroupsPartitionWords | script.js:204-219 | Words are never split, dropped or reordered: the groups are non-empty, their concatenation is the segment's words, and there is a group exactly when there is a word. |
| WordWrap.GroupsFit | script.js:211 | Every group, the last included, is a single word or measures at most the maximum width with its trailing space. |
| WordWrap.OverlongWordAlone | script.js:208-218 | A word whose width with a trailing space exceeds the maximum width is alone in its group, for any measure under which a line never measures less than one of its words with a space. |
| WordWrap.ClosedGroupsOverflow | script.js:211-215 | Under the wrap invariant, each group but the last is followed by a group whose first word made the candidate too wide. |
| WordWrap.GroupsAreMaximal | script.js:211 | The wrap is greedy: every break happens because adding the next group's first word would have exceeded the maximum width. |
| WordWrap.SegmentRejoins | script.js:204-219 | Joining each group's words with spaces, and then the groups with spaces, gives back the segment exactly. |
| WordWrap.WrapTexts | script.js:211-225 | Definition: the texts a segment's words draw, namely each closed group joined and trimmed, then the trimmed accumulator when that is not empty. |
| WordWrap.TextsAreTrimmedJoins | script.js:213 | Each drawn text is its group's words joined by spaces and trimmed. |
| WordWrap.WrapTextsAreGroups | script.js:207-225 | Drawn line i is group i's words joined and trimmed; every group is drawn except possibly the last, and that one is left undrawn exactly when its words are whitespace-only. |
| WordWrap.NonBlankSegmentDraws | script.js:198-225 | A segment that is not whitespace-only draws at least one line. |
| WordWrap.SegmentStep | script.js:197-226 | Definition of one outer callback: a whitespace-only segment draws nothing and moves the cursor one slot; any other draws its texts in the consecutive slots from the cursor on. |
| WordWrap.LayoutSegments | script.js:195-226 | Definition: the outer forEach as a left fold of `SegmentStep` over the segments, starting with no line and the cursor in slot 0. |
| WordWrap.Layout | script.js:192-226 | Definition: the text split on `'\n'`, its segments laid out against the maximum width `width - 80`. |
| WordWrap.LayoutAppendSegment | script.js:197-226 | A whitespace-only segment draws nothing and advances the cursor by one line; any other segment draws at least one line, in the consecutive slots from the cursor on, and advances the cursor once per line. |
| WordWrap.LayoutRows | script.js:195-226 | After any segments, the cursor has advanced once per drawn line plus once per blank segment, and the drawn lines sit in strictly increasing slots, all above the cursor. |
| WordWrap.LayoutYIncreasing | script.js:195-226 | With a positive line height, the drawn lines have strictly increasing y, all above the final cursor. |
| WordWrap.WrapText | script.js:189-226 | The nested loops draw exactly the lines of `Layout`, in its slots, and leave the cursor where `Layout` leaves it. |
| WordWrap.GreedyPrefix | script.js:207 | Wrapping one more word is one more step of the fold. |
| WordWrap.DrawAfter | script.js:213-214 | Unfolding helper: `NumberAppend` with the earlier lines in front (one more text drawn in the next slot numbers the extended list). |
| WordWrap.BreakStep | script.js:211-215 | When the candidate is too wide and the accumulator is non-empty, drawing the trimmed accumulator in the next slot and restarting with the word keeps the loop variables tracking the fold. |
| WordWrap.AppendStep | script.js:216-218 | Otherwise, replacing the accumulator by the candidate keeps the loop variables tracking the fold. |
| WordWrap.WrapWord | script.js:207-219 | One inner callback moves the loop variables from tracking the fold state to tracking its next step. |
| WordWrap.WrapWords | script.js:204-219 | The inner loop leaves the accumulator holding the last group's words, and has drawn one line per closed group in consecutive slots. |
| WordWrap.FlushStep | script.js:221-225 | The final flush, done only when the trimmed accumulator is not empty, completes exactly the texts the segment draws. |
| WordWrap.WrapSegment | script.js:197-226 | One outer callback performs exactly one step of the segment fold: a blank segment only advances the cursor, any other draws its texts in the next slots. |
| WordWrap.SingleWordTexts | script.js:207-225 | A lone non-whitespace word draws exactly one line, the word trimmed. |
| WordWrap.SingleWordSegment | script.js:204-225 | A segment without spaces that is not whitespace-only draws exactly itself, trimmed. |
| WordWrap.FittingPrefixNoBreak | script.js:207-219 | While every spaced candidate fits, the wrap never breaks: all the words so far are in the accumulator and no group is closed. |
| WordWrap.FittingWordsOneLine | script.js:207-225 | Words all of whose spaced prefixes fit, and that are not all whitespace, are drawn as exactly one line: their space-joined text, trimmed. |
| WordWrap.FittingSegmentOneLine | script.js:204-225 | A non-blank segment none of whose spaced candidates is too wide draws exactly one line, the segment trimmed. |
| WordWrap.FittingTextOneLine | script.js:192-226 | A newline-free, non-blank text that fits is drawn as one line, the trimmed text, in slot 0 (y = 40), and the cursor ends in slot 1. |
| WordWrap.TwoWordsGreedy | script.js:207-219 | For two words where the second overflows the candidate, the first word is always taken and the second starts a new accumulator. |
| WordWrap.GroupsOfState | script.js:221-225 | Unfolding helper: a non-empty final accumulator is the last group. |
| WordWrap.TwoWordsGroups | script.js:207-219 | Two such words fall into two one-word groups. |
| WordWrap.OneWordLineText | script.js:213 | A one-word group is drawn as the word trimmed. |
| WordWrap.WrapTextsOfState | script.js:213-225 | Unfolding helper: the texts are the closed groups' texts, then the trimmed accumulator when it is not empty. |
| WordWrap.OneGroupTexts | script.js:213 | Unfolding helper: one closed group gives one text. |
| WordWrap.TwoWordsTexts | script.js:207-225 | Two words where the second overflows the candidate and is not whitespace-only are drawn as two lines, each word trimmed. |
| WordWrap.TwoWordsSplit | script.js:204 | Two space-free words joined by one space split back into those two words. |
| WordWrap.NotBlankPrefix | script.js:198 | A text starting with a word that is not whitespace-only does not trim to empty. |
| WordWrap.TwoWordsSegmentTexts | script.js:204-225 | The segment `a + " " + b`, with `b` overflowing, draws the texts `Trim(a)` and `Trim(b)`. |
| WordWrap.NonBlankStep | script.js:198-225 | Unfolding helper: a non-blank segment takes the drawing branch of `SegmentStep`. |
| WordWrap.TwoNumbered | script.js:213-224 | Two texts drawn from slot r occupy slots r and r + 1. |
| WordWrap.TwoWordsSegment | script.js:197-226 | "Hello world" where the second word overflows: two lines, the words trimmed, in the cursor's slot and the next, and the cursor advances by two. |
| WordWrap.JoinThree | script.js:192 | Two texts with an empty segment between them join to the texts separated by a blank line. |
| WordWrap.SplitThree | script.js:192 | A text "a", blank line, "b" (no newline in a or b) splits into three segments, the middle one empty. |
| WordWrap.WordStep | script.js:204-225 | A one-word segment draws one line in the cursor's slot and advances the cursor by one. |
| WordWrap.BlankStep | script.js:198-200 | Unfolding helper: `SegmentStep` on the empty segment takes its blank branch (no line, cursor plus one). |
| WordWrap.OneWordLayout | script.js:197-226 | A text of one word draws it in slot 0 and leaves the cursor at slot 1. |
| WordWrap.WordThenBlankLayout | script.js:197-226 | A word followed by an empty segment draws the word in slot 0 and leaves the cursor at slot 2. |
| WordWrap.SegmentsBlankBetween | script.js:197-226 | Segments word, empty, word draw the words in slots 0 and 2 and nothing in slot 1. |
| WordWrap.BlankLineBetween | script.js:192-226 | For any font metrics and width, "a", blank line, "b" draws a at y = 40 and b at y = 40 + 2 * lineHeightPx, and nothing between them. |
| Variation.Jitter | script.js:238-247 | Definition: a word is drawn at (x, y + (r1 - 0.5) * 2) with font size fontSize + (r2 - 0.5) * 2 and rotation (r3 - 0.5) * 0.05, for its three random values r1, r2, r3. |
| Variation.Advance | script.js:234-251 | Definition: the cursor's advance over some words is the sum of each word's width with a trailing space. |
| Variation.Placements | script.js:233-251 | Definition: one draw per word of the line; word i, jittered by `rnd(i)`, sits at the start x plus the advance of the words before it. |
| Variation.JitterBounds | script.js:238-247 | Each word keeps its text and cursor x; with random values in [0, 1) its offset and size change lie within one pixel and its rotation within 0.025 rad. |
| Variation.PlacementsAt | script.js:236-251 | Unfolding helper: element i of the `Placements` comprehension (word i at the start x plus the advance of the words before it, jittered by `rnd(i)`). |
| Variation.AdvancePrefix | script.js:251 | The advance over one more word adds that word's width with one space. |
| Variation.DrawTextWithVariation | script.js:231-253 | The forEach draws exactly the reference placements of the line's words. |
| Variation.PlacementsKeepWords | script.js:233-247 | Every word of the line is drawn once, in order, and nothing else; rejoining the drawn words with spaces gives back the line. |
| Variation.PlacementsAdvance | script.js:234-251 | The first word starts at the given x, and each later word starts where the previous word plus a space ends. |
| Variation.CursorIgnoresJitter | script.js:242-251 | The x positions of all words are the same whatever random values are drawn. |
| Variation.JitterIsolated | script.js:236-248 | What is drawn for a word depends on no random value but its own. |
| Variation.AdvanceMonotone | script.js:251 | With non-negative widths, the advance grows with the number of words. |
| Variation.PlacementsLeftToRight | script.js:251 | With non-negative widths, the words are placed left to right, none left of x. |
| Paper.RuleCount | script.js:260 | Definition: the number of iterations of a loop from 40 in steps of 32 while below the limit; none when the limit is at most 40, otherwise (limit - 41) / 32 + 1, rounded down. |
| Paper.RuleCountSpec | script.js:260 | The k-th rule of a loop from 40 in steps of 32 is stroked exactly when its position is below the limit. |
| Paper.RuleCountExact | script.js:260 | The rule count is the first k whose position reaches the limit. |
| Paper.PaperRules | script.js:255-286 | Definition: "lined" gives the horizontal rules, "grid" the horizontal rules and then the vertical rules, and any other style no rule. |
| Paper.StrokeHorizontal | script.js:271-276 | The horizontal loop strokes exactly the horizontal rules, top to bottom. |
| Paper.StrokeVertical | script.js:279-284 | The vertical loop strokes exactly the vertical rules, left to right. |
| Paper.DrawPaperStyle | script.js:255-286 | The rules stroked are exactly the style's rules, in stroke order. |
| Paper.LinedRules | script.js:256-265 | Lined rule k is horizontal at y = 40 + 32k from x = 40 to width - 40, and there is one for every such y below the height and no other. |
| Paper.GridRules | script.js:266-285 | Grid rules are the lined rules followed by a vertical rule at x = 40 + 32k from y = 40 to height - 40 for every such x below the width, and no other. |
| Paper.OtherStylesBlank | script.js:255-286 | Unfolding helper: the final branch of `PaperRules` (any style other than lined and grid strokes nothing). |
| Paper.Grid400 | script.js:260-284 | A 400×400 surface gets 12 lined rules and 24 grid rules, the last horizontal at y = 392 and the last vertical at x = 392. |
| Export.HasContent | script.js:303-310 | Definition: some pixel whose first byte lies inside the data has a red, green or blue byte that is missing or is not 255. |
| Export.CheckContent | script.js:299-310 | The stride-4 scan with early exit reports content exactly when some pixel has a red, green or blue byte other than 255. |
| Export.DownloadImage | script.js:298-328 | A canvas without content is refused; any other is exported as PNG for "png" and as JPEG for anything else. |
| Export.WhiteIsEmpty | script.js:304-310 | A surface whose colour bytes are all 255 has no content, whatever its alpha bytes. |
| Export.AlphaIgnored | script.js:305-306 | Changing only alpha bytes never changes the verdict. |
| Export.NonWhitePixelIsContent | script.js:303-306 | Any pixel with a colour byte other than 255 counts as content, even when it is the chosen background. |
| Export.PartialPixelIsContent | script.js:306 | A trailing partial pixel counts as content, because the bytes it lacks read as undefined. |
| Render.LineCommands | script.js:207-225 | Definition: for each drawn line in order, the jittered words of its placement at x = 40 and y = Y(row), line n using the random values `rnd(n)`. |
| Render.RenderCommands | script.js:176-226 | Definition: the background fill and the style's rules, followed by the words of the lines `Layout` gives. |
| Render.DrawLines | script.js:207-225 | Drawing the lines one by one issues exactly the words of each line's reference placement, line by line. |
| Render.GenerateHandwrittenNotes | script.js:159-227 | A render issues the background fill, then the style's rules, then the words of the laid-out lines with their jitter. |
| Render.UnderlayFirst | script.js:176-181 | The background comes first and the paper rules come right after it, whatever the text. |
| Render.TextDoesNotMoveRules | script.js:176-181 | Two texts rendered with the same settings share everything drawn before the text. |
| Render.EmptyTextDrawsNoWords | script.js:192-201 | An empty text draws only the background and the rules. |

## Left out

- User-interface wiring is not modelled: the DOM, event listeners, previews, preset sizes and reading the form values. A render takes a `Config` value instead.
- `Math.random()` is not modelled. The random values are parameters.
- The canvas API calls are modelled as a list of drawing commands. Not modelled: font strings, `textBaseline`, the stroke colour and width of the rules, `save`/`translate`/`rotate`/`restore`, and the actual rasterisation.
- `measureText` is an uninterpreted function from strings to widths. Its internals (fonts, kerning) are not modelled.
- Export is modelled only up to the choice of file extension and MIME type. Not modelled: `toDataURL` with its JPEG quality, the timestamped file name, the anchor element and its click, the success and failure alerts, the caught encoding error, and the render-then-wait delay of the download buttons.
- The early return when the canvas or its context is missing is not modelled. `GenerateHandwrittenNotes` models a working context.
- Floating-point arithmetic is not modelled; the model uses exact reals. The cursor is 40 + k * lineHeightPx exactly, where the source accumulates `y += lineHeightPx` in doubles.
- Integer parsing of the font size and the parsing of the line-height factor from the form are not modelled.
- `Export.CheckContent` takes the pixel bytes as an array. Reading them with `getImageData` is not modelled.
- `Variation.JitterBounds` assumes the random values lie in [0, 1), as `Math.random()` promises. Results for other values are not stated.
- Variation.CursorIgnoresJitter, Variation.JitterIsolated: the isolation that `save`/`restore` gives each word (script.js:242-251) is built into the model, not proved. Each `WordDraw` carries an absolute pose, and no canvas state (font, transform) is modelled. The model does not show that `restore` brings back the font that the next `measureText` uses.
- The `console.log` and `console.error` diagnostics are not modelled (script.js:8, 160, 174, 228, 289, 313, 335). They affect no drawn output.
- Strings are modelled as sequences of Unicode scalar values; JavaScript strings are sequences of UTF-16 code units. This changes nothing here, because every separator and whitespace character involved lies in the Basic Multilingual Plane and is not a surrogate.
