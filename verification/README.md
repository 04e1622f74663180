# Teachable Machine tester: the pager and the result bookkeeping

The tester is a p5.js sketch (`sketch.js`). It loads an image classifier
trained with Teachable Machine and runs it over a fixed set of cat and dog
pictures, ten at a time. It then shows a grid of the pictures with the
predicted label, the actual label and a running count of correct answers.

This Dafny project models the parts of the sketch that are logic rather than
drawing or browser wiring:

- **Catalogs** (`catalog.dfy`): the two 104-picture path lists built at
  start-up, cats `8497.jpg`–`8600.jpg` and dogs `784.jpg`–`887.jpg`.
- **Pager** (`pager.dfy`): pure definitions of one page and of the cursor
  moves made by "next" and "back". Lemmas cover the page shape, wrap-around,
  the 21-page cycle of the real catalogs, coverage of every picture, and what
  "back" shows.
- **Session** (`session.dfy`): a class `Tester` holding the sketch's global
  state as fields: cursors, `testData`, `images`, `results`, `correctCount`,
  `allClassified` and the model-loaded flag. Its methods are
  `generateTestData` with its loops, the metadata-loaded / next / back
  handlers, the settled outcome of image loading, and the sequential
  classification loop. Each method is proved against the pure definitions.
- **Classifier bookkeeping** (`classifier.dfy`): label normalisation, the
  slot recorded for each classifier answer, and the correct-answer count.
  The count is shown equal to the number of correct indices.
- **Model address** (`model_url.dfy`): the formatting the "load model"
  handler applies to the entered address.
- **Grid** (`grid.dfy`): the column and row arithmetic of the results grid.
- **Strings** (`strings.dfy`): JavaScript `trim`, `toLowerCase`,
  `split('/').pop()` and decimal rendering, with round-trip lemmas
  (`Join(Split(s)) == s`, `DecimalValue(Digits(n)) == n`).

The classifier itself is an input. `ClassifyAll` receives one `Outcome` per
picture: `Failed` for an error, or `Returned(candidates)`, best candidate
first. The result of image loading is also an input: one flag per picture
says whether it decoded. The clock value used as a cache-buster is a `nat`
parameter.

Behaviour of the sketch worth noting:

- A label other than "class 1"/"class1"/"class 2"/"class2" (in any case) is
  kept exactly as the classifier spelled it, not only "Cat" and "Dog". So a
  model trained with the label "cat" never matches "Cat".
- `classifyAllImages` sets `allClassified` only from inside a classification
  callback. For a page with no pictures it therefore stays false. That page
  cannot occur with non-empty catalogs (`Pager.PageNonEmpty`).
- After the last, partial page the cursors are 0. "Back" then shows the
  first page, and the back button is disabled on that last page
  (`Pager.BackAfterWrapShowsFirstPage`, `Pager.BackDisabledPages`).

## Model

| member | source | states |
|---|---|---|
| `Strings.Trim` | sketch.js:112 | the result is a contiguous piece of the input, everything around it is JavaScript whitespace, and it neither starts nor ends with whitespace |
| `Strings.LeadingWhitespace` | sketch.js:112 | the count of leading characters removed by `trim` covers whitespace only and stops at the first other character |
| `Strings.TrailingWhitespaceStart` | sketch.js:112 | the trailing characters removed by `trim` are whitespace only and the one before them is not |
| `Strings.TrimOfTrimmed` | sketch.js:112 | a string that neither starts nor ends with whitespace is its own trim |
| `Strings.TrimIdempotent` | sketch.js:112-119 | trimming the already trimmed address again (as the handler does) changes nothing |
| `Strings.ToLower` | sketch.js:280 | same length; every ASCII capital becomes its small letter and every other character is kept |
| `Strings.Split` | sketch.js:503 | `split('/')` yields at least one piece and no piece contains the separator |
| `Strings.JoinSplit` | sketch.js:503 | joining the pieces with the separator gives back the original string |
| `Strings.SplitLast` | sketch.js:503 | the last piece is a suffix of the string, preceded by the separator unless it is the whole string |
| `Strings.FileName` | sketch.js:502-503 | `split('/').pop()` is the longest suffix without '/' |
| `Strings.FileNameAfterFolder` | sketch.js:502-503 | for a folder ending in '/' followed by a name without '/', the file name is exactly that name |
| `Strings.Digits` | sketch.js:12 | the decimal rendering of a number is non-empty and made of digits only, and starts with '0' only for 0 itself, which renders as "0" |
| `Strings.DigitsRoundTrip` | sketch.js:12 | reading the rendering back gives the number |
| `Strings.DigitsInjective` | sketch.js:12 | different numbers render differently |
| `ModelUrl.FormatUrl` | sketch.js:119-125 | the formatted address always ends in '/' and never in `model.json`, has no surrounding whitespace and is at most one character longer than the trimmed entry |
| `ModelUrl.FormatUrlKeepsFolder` | sketch.js:119-125 | a trimmed entry that ends in '/' is the folder as it stands |
| `ModelUrl.FormatUrlAppendsSlash` | sketch.js:119-125 | a trimmed entry ending in neither '/' nor `model.json` gets exactly one '/' appended |
| `ModelUrl.FormatUrlCutsModelFile` | sketch.js:119-125 | a trimmed entry `folder` + `model.json` becomes `folder`, with a '/' appended unless `folder` ends in one |
| `ModelUrl.CutsOnce` | sketch.js:120-122 | the anchored replace removes one `model.json` only: `model.jsonmodel.json` becomes `model.json/` |
| `ModelUrl.FolderOf` | sketch.js:120-125 | after the `model.json` cut and the '/' append, the address ends in '/' and not in `model.json`, growing by at most one character |
| `ModelUrl.FolderOfTrimmed` | sketch.js:120-125 | cutting and appending brings no whitespace to either end of a trimmed address |
| `ModelUrl.FormatUrlOfTrimmed` | sketch.js:112-119 | formatting the trimmed entry gives the same folder as formatting the raw entry |
| `ModelUrl.SlashIsNotModelFile` | sketch.js:120-125 | an address ending in '/' does not end in `model.json`, so it is not cut |
| `ModelUrl.FolderKept` | sketch.js:123-125 | an address without surrounding whitespace that ends in '/' is kept unchanged |
| `ModelUrl.FolderOrModelFile` | sketch.js:120-122 | entering the folder or the folder's `model.json` address gives the same folder |
| `ModelUrl.FormatUrlIdempotent` | sketch.js:119-125 | formatting a formatted address changes nothing |
| `ModelUrl.OnLoadClicked` | sketch.js:111-134 | a blank entry is refused, and only a blank one; otherwise `model.json?v=<time>` and `metadata.json` are requested under the formatted folder |
| `Catalog.LabelName` | sketch.js:85-86 | the spelled label is "Cat" exactly for cats and "Dog" exactly for dogs |
| `Catalog.CatalogPaths` | sketch.js:10-18 | a catalog has `last - first + 1` paths (none if `last < first`), the k-th naming picture `first + k` |
| `Catalog.BuildCatalog` | sketch.js:11-13 | the start-up loop yields exactly the catalog's paths in order |
| `Catalog.CatalogSizes` | sketch.js:11-18 | each catalog holds 104 pictures |
| `Catalog.CatalogFileName` | sketch.js:12 | the file name of a catalog path is the picture number followed by `.jpg` |
| `Catalog.CatalogDistinct` | sketch.js:11-13 | no path appears twice in a catalog |
| `Pager.Taken` | sketch.js:56-57 | a page takes at most five pictures of a label, and fewer only when the catalog ends |
| `Pager.Slice` | sketch.js:59-61 | the pictures taken are the catalog's, in order, from the cursor on |
| `Pager.Advance` | sketch.js:62-68 | the new cursor is inside the catalog; it is 0 when the old cursor plus five reaches the end, and the old cursor plus five otherwise |
| `Pager.Retreat` | sketch.js:176-177 | back lowers a cursor by ten, to 0 when that would be negative, never raising it |
| `Pager.Labelled` | sketch.js:85-86 | each path becomes an entry with that path and the given label, order kept |
| `Pager.Page` | sketch.js:84-90 | a page holds the cats taken and then the dogs taken, each from its cursor in catalog order, at most ten items |
| `Pager.CatsBeforeDogs` | sketch.js:84-87 | every cat on a page precedes every dog |
| `Pager.PageNonEmpty` | sketch.js:56-87 | a page is empty only when both catalogs are exhausted at their cursors |
| `Pager.CursorAfter` | sketch.js:56-82 | the cursor after any number of pages from 0 stays inside the catalog |
| `Pager.CursorAfterFullPages` | sketch.js:56-82 | while full pages fit, page k starts at picture 5k |
| `Pager.CursorWrapsAfterPass` | sketch.js:64-68 | the cursor returns to 0 after one pass of ceil(len/5) pages, and not earlier |
| `Pager.CursorPeriodic` | sketch.js:56-82 | the cursor sequence repeats with the period of one pass |
| `Pager.EveryPictureShown` | sketch.js:56-82 | every picture of a catalog is on some page of the first pass |
| `Pager.FullPagesOfCatalog` | sketch.js:11-18 | with the 104-picture catalogs the first twenty pages hold ten items |
| `Pager.LastPageOfCatalog` | sketch.js:56-87 | the twenty-first page holds the last four cats and then the last four dogs |
| `Pager.CatalogCycleCloses` | sketch.js:64-82 | the twenty-second page is the first page again |
| `Pager.EightPictureCycle` | sketch.js:56-87 | with eight pictures per catalog: five and five, then three and three, then the first page again |
| `Pager.BackShowsPreviousPage` | sketch.js:175-179 | away from the catalog ends, back rebuilds the page before the one shown |
| `Pager.BackAfterWrapShowsFirstPage` | sketch.js:175-179 | after the last, partial page, back rebuilds the first page |
| `Pager.BackDisabled` | sketch.js:320 | the back button stays disabled after classification exactly when both cursors are at most 5 |
| `Pager.DisabledBackIsFirstPage` | sketch.js:319-320 | when the back button is disabled, back would only rebuild the first page |
| `Pager.BackDisabledPages` | sketch.js:319-320 | over one pass the back button is disabled exactly on the first and on the last page |
| `Classifier.NormalizeLabel` | sketch.js:280-287 | the label becomes "Cat" exactly for "class 1"/"class1" in any case or "Cat" itself, "Dog" likewise, and is otherwise unchanged |
| `Classifier.NormalizeIdempotent` | sketch.js:280-287 | normalising a normalised label changes nothing |
| `Classifier.NormalizeExamples` | sketch.js:280-287 | "Class 1" gives Cat, "CLASS2" gives Dog, "Cat" stays Cat, "cat" stays "cat" |
| `Classifier.Record` | sketch.js:268-290 | the slot is an error exactly when the classifier failed or returned no candidate; otherwise it holds the first candidate's normalised label and its confidence |
| `Classifier.Records` | sketch.js:263-332 | one recorded slot per answer, in index order |
| `Classifier.IsCorrect` | sketch.js:292-297 | a slot is correct when it holds a prediction whose label equals the actual label's name; an error slot never is |
| `Classifier.RecordCorrect` | sketch.js:292-298 | an answer counts exactly when it has a top candidate whose normalised label equals the actual label |
| `Classifier.CountCorrect` | sketch.js:296-298 | the count never exceeds the number of items |
| `Classifier.CountIsCorrectIndices` | sketch.js:296-298 | the running count equals the number of indices whose slot is correct |
| `Classifier.CountStep` | sketch.js:292-298 | classifying one more item raises the count by one exactly when its slot is correct |
| `Classifier.CountZero` | sketch.js:308-311 | the count is zero exactly when no slot is correct, so an all-error page counts zero |
| `Grid.CellOf` | sketch.js:439-440 | item i sits in a column below five, and row times five plus column gives i back |
| `Grid.CellsDistinct` | sketch.js:439-440 | two items never share a cell |
| `Grid.PageFitsTwoRows` | sketch.js:439-440 | a page of at most ten items fits two rows, the first five items in the first row |
| `Grid.CentredColumns` | sketch.js:433 | the grid is centred for five columns, or for the item count when that is smaller |
| `Session.Tester.constructor` | sketch.js:4-27 | at start both catalogs are filled, the cursors are 0 and there is no model, page, result or count |
| `Session.Tester.GenerateTestData` | sketch.js:46-96 | the session is reset: the page is the one at the old cursors, each cursor advanced as the pager says, one pending slot per item, no pictures, count 0, not classified |
| `Session.Tester.TakeFrom` | sketch.js:56-82 | the selection loop takes exactly the pager's slice from the cursor and returns the cursor the pager advances to |
| `Session.Tester.OnMetadataLoaded` | sketch.js:143-150 | the model counts as loaded and the first page is built from cursors reset to 0 |
| `Session.Tester.Next` | sketch.js:185-193 | with a model loaded, the model stays loaded and the next page is built as the pager says; without one nothing changes |
| `Session.Tester.Back` | sketch.js:170-183 | with a model loaded, the model stays loaded, both cursors are moved back (clamped at 0) and the page there is built; without one nothing changes |
| `Session.Tester.BackButtonDisabled` | sketch.js:319-320 | the back-button predicate applied to the session's two cursors |
| `Session.Tester.LoadImages` | sketch.js:196-229 | once loading settles, every item has a preprocessed picture or a placeholder with its expected label, whatever failed |
| `Session.Tester.ClassifyAll` | sketch.js:260-333 | every slot is filled with the recorded answer; the count grows by the number of correct answers; the page is marked classified once all its slots are filled; the zero-matches warning is raised exactly when the count is 0 |

## Left out

- Drawing (`draw`, `drawHeader`, `drawResultsGrid`, `drawImageWithBorder`, `drawFilenameTooltip`, `drawPredictionText`) and hover hit-testing in `mouseMoved`: pixel rendering only. The grid's cell arithmetic is kept.
- Button texts, enabling and disabling of buttons while a page loads, `alert`, `setTimeout` and `redraw`: browser wiring. The back-button predicate is kept as `Pager.BackDisabled`.
- The ml5 classifier, the `httpGet` metadata fetch and `loadImage`: foreign asynchronous calls. The classifier is a sequence of outcomes, the metadata fetch is whether `OnMetadataLoaded` is called, and loading is one decoded/failed flag per picture.
- The `try`/`catch` around creating the classifier: it only resets button text.
- The load barrier in `loadImages` (counting callbacks in any completion order): `LoadImages` models only the settled state.
- `preprocessImageForTM` and `createPlaceholderImage`: graphics calls. A picture records only whether it is the preprocessed image or a placeholder.
- The accuracy percentage and confidence formatting with `toFixed`: floating-point display. A confidence is a `real` that is carried along and never examined.
- The global `modelURL`: the handler stores the trimmed entry there and reads it back once, at sketch.js:119, to format it; the model folds this into `FormatUrl(Trim(input))` (`ModelUrl.FormatUrlOfTrimmed`).
- A `null` candidate list is treated like an empty one; both take the same error branch in the source.
- Strings.ToLower: lower-cases ASCII letters only, not the full Unicode mapping of `toLowerCase`. The result is only compared with the ASCII texts "class 1", "class1", "class 2" and "class2".
