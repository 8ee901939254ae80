# risk-moron-tracker, modelled in Dafny

Blitz is a desktop helper for the game RISK. It finds the game's window and
takes a screenshot. It cuts the lobby's six player cards out of that
screenshot and reads each card's text with an OCR engine. Every text line is
then compared with every name on a user-kept blacklist, using a fuzzy ratio.
The GUI lists the blacklisted names whose similarity is at least 70, most
similar first.

This project models the core of that program:

- `text.dfy` (module `Text`): `normalize`. It strips one leading
  `"General "`, lower-cases the text and deletes its spaces.
- `ocr.dfy` (module `Ocr`): the part of `detect_text` after the OCR engine.
  It splits the engine's text on `'\n'` and normalises each piece.
- `geometry.dfy` (module `Geometry`): the rectangle arithmetic of
  `crop_player_cards_1920_1080`. That is the 1200x550 player list centred in
  the screenshot and the 3x2 grid of 600x180 cards inside it.
- `window.dfy` (module `Window`): `risk_window`, the search for the first
  window titled `"RISK"`.
- `detector.dfy` (module `Detector`): `scan`. It covers the stage-by-stage
  error handling, the slot loop that collects every card's lines in slot
  order, and the aggregation loops that produce one `ScanInfo` per surviving
  line and blacklist entry.
- `app.dfy` (module `App`): the `BlitzApp` state, meaning its three fields,
  `new` and `update`. It also covers `create_scan_row`'s choice of what to
  show: the filter at 70 and the stable sort by descending similarity.
- `results.dfy` and `blacklist.dfy`: the `Option`/`Result` wrappers and the
  blacklist record.

External effects are inputs to the model:

- window enumeration: the window titles, or a failure
- the captured image's size, or the capture error
- the OCR engine's creation
- each card's OCR text, or its error
- the loaded blacklist, or its error
- the fuzzy ratio `fuzzywuzzy::fuzz::ratio`: a function parameter, about
  which nothing is assumed
- the outcomes of `open::that`, `paths::blacklist_path` and `detector::scan`
  as seen by `update`

## Model

| member | source | states |
|---|---|---|
| Text.Lower | src/detector.rs:253 | lower-casing sends each ASCII capital to its own small letter (the letter at the same distance from `a` as the capital from `A`), leaves every other character alone, and maps only the space to a space |
| Text.RemoveSpaces | src/detector.rs:253 | `replace(" ", "")` leaves no space and never lengthens the text |
| Text.RemoveSpacesKeeps | src/detector.rs:253 | a character is in the result exactly when it is in the input and is not a space |
| Text.RemoveSpacesUnchanged | src/detector.rs:253 | deleting spaces changes the text if and only if it contains a space |
| Text.RemoveSpacesAppend | src/detector.rs:253 | deleting spaces distributes over concatenation |
| Text.LowercaseUnchanged | src/detector.rs:253 | text with no capital letter is unchanged by lower-casing |
| Text.StripGeneral | src/detector.rs:246-251 | with the exact prefix `"General "` the result is the text after it; without it the text is returned unchanged |
| Text.Normalize | src/detector.rs:245-254 | a key contains no space and no capital letter and is never longer than its input |
| Text.NormalizeIdempotent | src/detector.rs:245-254 | normalising a key again leaves it unchanged |
| Text.NormalizePrefixRule | src/detector.rs:246-253 | a leading `"General "` is dropped and the rest is lower-cased and de-spaced; text without the prefix is only lower-cased and de-spaced |
| Text.NormalizeIgnoresCase | src/detector.rs:247-253 | outside the case-sensitive prefix, normalising a text and its lower-cased form gives the same key |
| Text.NormalizeCaseBlind | src/detector.rs:247-253 | two texts that differ only in ASCII case, neither starting with the exact prefix, give the same key |
| Text.NormalizeJoinsWords | src/detector.rs:253 | two lower-case words separated by one space normalise to the words joined |
| Text.NormalizeExampleStripped | src/detector.rs:246-253 | "General Smith" normalises to "smith" |
| Text.NormalizeExampleLowerPrefix | src/detector.rs:246-253 | "general smith" keeps its word because the prefix match is case-sensitive: "generalsmith" |
| Text.NormalizeExampleOnce | src/detector.rs:246-253 | the prefix is stripped only once: "General General X" gives "generalx" |
| Text.NormalizeExampleBadActor | src/detector.rs:245-254 | "Bad Actor" normalises to "badactor" |
| Text.NormalizeExampleGeneralBadActor | src/detector.rs:245-254 | "General Bad Actor" normalises to the same key "badactor" |
| Ocr.SplitLines | src/detector.rs:235 | `split('\n')` gives one piece more than there are line breaks, and no piece contains a line break |
| Ocr.JoinSplitLines | src/detector.rs:235 | joining the pieces with line breaks gives back the text, so splitting loses nothing |
| Ocr.SplitJoinLines | src/detector.rs:235 | splitting the join of pieces without line breaks gives back those pieces |
| Ocr.DetectTextLines | src/detector.rs:235-238 | `detect_text` yields one line per split piece, line i being piece i normalised, and every line is already a normalised key |
| Geometry.WrappingSub | src/detector.rs:154-155 | `u32` subtraction: the exact difference when it is non-negative, otherwise the difference plus 2^32 |
| Geometry.ListBoxAsWrittenEscapes | src/detector.rs:152-155 | as written, a screenshot narrower than 1200 puts the list box's origin at or beyond the right edge, one shorter than 550 puts it at or below the bottom edge, and either way the box is not inside the image |
| Geometry.ListBoxAsWrittenExample | src/detector.rs:152-155 | as written, a 1024x768 screenshot puts the list box at x = 2147483560 |
| Geometry.ListBox | src/detector.rs:152-161 | the list box exists exactly when the screenshot is at least 1200x550; it is 1200x550, lies inside the screenshot and is centred (the far margin equals the near one or exceeds it by one) |
| Geometry.ListBoxAgreesWhenLargeEnough | src/detector.rs:152-155 | whenever the subtraction cannot wrap, the checked box equals the code's box |
| Geometry.ListBoxAt1080p | src/detector.rs:143-161 | at 1920x1080 the list box starts at (360, 265) |
| Geometry.PlayerCardsRowMajor | src/detector.rs:168-177 | there are six cards, and the card at position row*2+col is the card of that row and column with index row*2+col |
| Geometry.PlayerCardsDisjointInside | src/detector.rs:166-176 | every card is 600x180 and lies inside the 1200x550 list, and no two cards overlap |
| Geometry.PlayerCardsCover | src/detector.rs:166-176 | a point of the list lies in some card exactly when it is in the top 540 rows; the bottom 10 rows belong to no card |
| Geometry.CropPlayerCards | src/detector.rs:152-182 | the crop fails exactly when the screenshot is smaller than the list, with the list box's error message; otherwise it yields the centred list box and the six cards in row-major order |
| Geometry.CardsInsideScreenshot | src/detector.rs:156-176 | every card, offset by the list box's origin, lies inside the screenshot |
| Window.FindTitle | src/detector.rs:113-116 | the result is the position of the first title equal to the wanted one, and is absent exactly when no title equals it |
| Window.RiskWindow | src/detector.rs:109-120 | the window found is the first one titled exactly "RISK"; there is none when no such window exists or when enumeration failed |
| Text.Utf8Width | src/detector.rs:88 | a character takes one to four UTF-8 bytes, and exactly one when it is ASCII |
| Text.Utf8Len | src/detector.rs:88 | `len()` counts UTF-8 bytes: at least one and at most four per character |
| Text.Utf8LenAtMostOne | src/detector.rs:88 | a text is at most one byte long exactly when it is empty or a single ASCII character |
| Detector.Surviving | src/detector.rs:87-90 | a detection is kept exactly when its normalised form is longer than one UTF-8 byte |
| Detector.SurvivesCountsBytes | src/detector.rs:88 | the length test counts bytes: a lone accented letter "é" is compared, a lone "a" is not |
| Detector.SurvivingCounts | src/detector.rs:85-90 | the filter keeps every occurrence of a surviving detection and no occurrence of a short one |
| Detector.SurvivingAppend | src/detector.rs:85-90 | the filter keeps order: the survivors of two runs of detections are those of the first followed by those of the second |
| Detector.SurvivingSingle | src/detector.rs:87-90 | a single detection is kept exactly when it is long enough; with `SurvivingAppend` this fixes the filter on every sequence |
| Detector.Aggregate | src/detector.rs:84-101 | the aggregation loops produce exactly the rows of the surviving detections in detection order, with one row entry per blacklist entry in blacklist order |
| Detector.MatchesLength | src/detector.rs:84-101 | the number of results is the number of surviving detections times the number of blacklist entries |
| Detector.MatchesAt | src/detector.rs:92-99 | result p*m+k pairs the p-th surviving detection with the k-th entry; it carries the entry's username as written, and its similarity is the ratio of the two normalised names |
| Detector.MatchesOnlySurviving | src/detector.rs:87-90 | dropping the short detections beforehand changes no result |
| Detector.ShortDetectionIgnored | src/detector.rs:87-90 | a detection whose normalised form is at most one UTF-8 byte long adds no result |
| Detector.ExampleGeneralBadActor | src/detector.rs:84-101 | a card reading "General Bad Actor" against the entry "Bad Actor" gives one result, under the entry's name, with similarity 100 whenever the ratio scores identical non-empty keys 100 |
| Detector.CollectDetections | src/detector.rs:73-82 | the slot loop returns the lines of cards 0..5 concatenated in slot order, or the error of the first card whose OCR failed |
| Detector.CollectedOk | src/detector.rs:74-81 | collecting succeeds if and only if every card's OCR succeeded |
| Detector.DetectionsOk | src/detector.rs:74-81 | the detections of `scan` exist if and only if every card's OCR succeeded |
| Detector.CollectedFirstError | src/detector.rs:74-81 | a failure carries the error of a card all of whose predecessors succeeded |
| Detector.CollectedAppend | src/detector.rs:74-81 | lines are concatenated in slot order: two runs of cards give the lines of the first followed by those of the second |
| Detector.DetectionsNormalised | src/detector.rs:80-87 | every collected detection is already a normalised key, so normalising it again in the aggregation loop changes nothing |
| Detector.Scan | src/detector.rs:57-106 | each failing stage yields its own error, in the code's order: blacklist (with the "Blacklist Error: " prefix), RISK window, capture, layout, OCR engine, first failing card; a scan succeeds exactly when every stage succeeds, and its results are then the aggregation of the collected detections |
| App.BlitzApp.constructor | src/app.rs:29-35 | a new app has no error, no results and has not completed a scan |
| App.BlitzApp.Update | src/app.rs:41-75 | the open messages set the error only when the path lookup or the open fails, and never touch the results; a successful scan replaces the results, marks the first scan done and clears the error; a failed scan sets the error and keeps everything else; results exist only after a successful scan |
| App.SimilarScans | src/app.rs:167-170 | the filter keeps exactly the results with similarity at least 70, each as many times as it occurs |
| App.SimilarScansStable | src/app.rs:167-170 | among results of one similarity, the filter keeps exactly those at or above 70 in their original order |
| App.InsertPermutes | src/app.rs:178 | an insertion step adds the one element and loses nothing |
| App.InsertSorted | src/app.rs:178 | an insertion step keeps the list ordered by non-increasing similarity |
| App.InsertStable | src/app.rs:178 | an insertion step puts the new element before every older element of the same similarity and keeps their order |
| App.SortBySimilarityCorrect | src/app.rs:178 | the sort orders by non-increasing similarity, is a permutation, and keeps the original order among equal similarities |
| App.ScanRow | src/app.rs:157-178 | the row prompts for a scan exactly until the first scan is done; it says "no morons" exactly when no result reaches 70; otherwise it lists the results at or above 70, each as often as it occurs, sorted by non-increasing similarity with ties in scan order |

## Left out

- Reading files, saving images and building paths are not modelled (`paths.rs`, screenshot save, card save). The errors "Unable to construct blacklist path.", "Unable to construct screenshot path." and "Unable to construct player screenshot path.", and the errors of `image.save`, are not among the errors `Detector.Scan` can return.
- Detector.Scan: the layout error "Screenshot is smaller than the 1200x550 player list." is this model's correction from the Findings row. The program has no such error: for a screenshot smaller than the list a debug build panics on the `u32` subtraction and a release build crops at the wrapped origin (`Geometry.ListBoxAsWritten`).
- Geometry.CropPlayerCards: fails for a screenshot smaller than the list, which is the corrected behaviour from the Findings row. The code as written performs no such check; `Geometry.ListBoxAsWritten` models its arithmetic.
- Detector.Scan: the decode error of re-reading the screenshot is not distinguished from the capture error; both arrive as the capture input.
- Loading and parsing the blacklist (`blacklist.rs`) is not modelled; the blacklist, or its load error, is an input.
- Window enumeration, screen capture, the OCR engine (`create_ocr_engine`, `prepare_input`, `get_text`) and the desktop opener `open::that` are operating-system or library calls. Their outcomes are inputs.
- The `expect` in `detect_text` that aborts the program when a card image cannot be read is not modelled. A panic is not a value.
- `crop_and_save_player_cards_dynamic` is an unimplemented placeholder (`todo!()`), so there is nothing to model.
- `fuzzywuzzy::fuzz::ratio` is a parameter. Its own algorithm and properties such as symmetry are not modelled. `ExampleGeneralBadActor` states its assumption about identical keys as a precondition.
- Text.Lower: `to_lowercase` is modelled for ASCII letters only; other characters stay as they are, so a non-ASCII capital such as "É" is not lower-cased as Rust would lower-case it.
- App.SortBySimilarityCorrect: `sort_by` sorts a vector in place. The model is a stable sort on values, so aliasing and in-place update are not captured.
- The GUI (`view`, `title`, `theme`, the banner, the button row, the error row, fonts, colours, `pad`) is not modelled. Only the choice of what the scan row shows is.
- `dbg!` output is not modelled.
- The module documentation of `detector.rs` lists loading the blacklist as the fourth step. The code loads it first, and the model follows the code.

## Findings

| source | as written | input that shows it | evidently intended | confidence | as-written member | corrected member |
|---|---|---|---|---|---|---|
| src/detector.rs:154-155 | `(image.width() - 1200) / 2` and `(image.height() - 550) / 2` are `u32` subtractions with no check that the image is large enough | a 1024x768 screenshot: the subtraction underflows, panicking in a debug build and wrapping in a release build to x = 2147483560, far outside the image | report that the screenshot is too small for the player list instead of cropping at a wrapped origin | medium (the doc comment warns that other sizes are unsupported); not executed | Geometry.ListBoxAsWrittenExample | Geometry.ListBox |
