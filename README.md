# CMatchOCR in Dafny

CMatchOCR finds text on the screen. It captures an area, runs Windows OCR on it, splits the recognised runs
into sub-words, fuzzy-matches them against a query, and returns the screen rectangles of the matches.

This project models the part between the OCR engine and the caller:

- `word.dfy`: the `Word` value (text, index in its run, the run it came from) and `Process`, the lower-casing
  key the matcher compares.
- `win_ocr_processor.dfy`:
  - `ParseOcrWord`, the character-class segmenter. It splits a run such as `GetWordPosition` at capitals and
    at characters of no class, keeping tokens of at least `MinimumWordSize` = 3 characters.
  - `ExtractWords`, the loop that parses every run of every line.
  - `ExtractRect` and `ExtractPoint`, the monospace projection of a sub-word into its run's box.
- `fuzzy.dfy`: the two FuzzySharp extractors the finder uses, over an uninterpreted scorer. `ExtractAll`
  keeps the choices scoring at least the cutoff. `ExtractTop` keeps at most `limit` of them, best first.
- `screen_text_finder.dfy`:
  - `TryGetWordClosestToPosition`, an argmin scan over squared distances that starts from `int.MaxValue`.
  - `FindAll` and `TryFindClosest` on a capture whose OCR output is given.
  - The search squares of the `(x, y, size)` overloads.
- `ocr.dfy`, `wrappers.dfy`: the engine's record types and `Option`/`Result`.

Segmentation is specified by a reference function, `WinOcrProcessor.WordsFrom`. The imperative loop is proved
to append exactly its result. The nearest-word scan is specified by `ScreenTextFinder.ScanMinimum` over the
sequence of squared distances. Both reference functions are then characterised by lemmas.

`TryFindClosest` is written as two methods. `TryFindClosest` extracts and ranks the words. `ClosestOnScreen`
runs the scan and translates the winner, as lines 117-129 of the C# method do.

`"GetWordPosition"` has 15 characters. In a 160-pixel-wide box, `ExtractRect` therefore places `Position` at
x = 224/3 with width 256/3 (`ProjectPosition`).

## Model

| member | source | states |
|---|---|---|
| Words.Process | src/CMatchOCR/Word.cs:43-46 | the key keeps the text's length, contains no upper-case letter, and keeps every character that was not upper case |
| Words.ToLower | src/CMatchOCR/Word.cs:45 | lowering maps every character through `char.ToLower` and keeps the length |
| Words.ProcessIgnoresIndexAndRun | src/CMatchOCR/Word.cs:43-46 | two words with the same text have the same key, whatever their index and run, so the query word with no run can be compared with OCR words |
| Words.ToLowerIdempotent | src/CMatchOCR/Word.cs:45 | lowering a lowered string changes nothing |
| Words.ProcessIdempotent | src/CMatchOCR/Word.cs:43-46 | processing the key of a word again gives the same key |
| WinOcrProcessor.WordsFromCut | src/CMatchOCR/WinOcrProcessor.cs:131-153 | every word the segmentation produces is cut from the run: it has at least 3 characters, 0 <= index, index + length <= run length, and its text is the run's text at its index. It is token-shaped (a word character, then only lower-case letters and digits) and refers back to the run. Words come in increasing index order and do not overlap |
| WinOcrProcessor.Segment | src/CMatchOCR/WinOcrProcessor.cs:125-154 | the words of one run are all cut from it and do not overlap |
| WinOcrProcessor.ParseOcrWord | src/CMatchOCR/WinOcrProcessor.cs:125-154 | the method leaves the existing list unchanged and appends exactly the run's segmentation, in order |
| WinOcrProcessor.WordsFromCount | src/CMatchOCR/WinOcrProcessor.cs:131-153 | from position p on, there are at most (length - p) / 3 words |
| WinOcrProcessor.SegmentCount | src/CMatchOCR/WinOcrProcessor.cs:109 | one run of n characters yields at most n / 3 words, the pre-sizing bound |
| WinOcrProcessor.SegmentGetWordPosition | src/CMatchOCR/WinOcrProcessor.cs:134-150 | "GetWordPosition" yields Get@0, Word@3, Position@7 |
| WinOcrProcessor.RunEndStops | src/CMatchOCR/WinOcrProcessor.cs:134 | a token extends over exactly the lower-case letters and digits that follow its first character |
| WinOcrProcessor.ExtractWords | src/CMatchOCR/WinOcrProcessor.cs:108-117 | the list is the words of every run, line after line and run after run within a line |
| WinOcrProcessor.WordsOfLinesCut | src/CMatchOCR/WinOcrProcessor.cs:111-115 | every extracted word is cut from the run it refers to, and that run belongs to one of the lines |
| WinOcrProcessor.WordsOfLinesCount | src/CMatchOCR/WinOcrProcessor.cs:109 | all lines together yield at most one word per 3 characters of run text |
| WinOcrProcessor.ExtractRect | src/CMatchOCR/WinOcrProcessor.cs:69-81 | the rectangle exists exactly when the run is present, the index is within its text and the text is non-empty. A null run fails with NullOcrWord and an index out of range with IndexOutOfRange. On success, top and height are the run box's |
| WinOcrProcessor.ExtractRectIsMonospace | src/CMatchOCR/WinOcrProcessor.cs:71-80 | with cw = box width / run length: x = box.x + cw * index, width = cw * word length (stated multiplied out) |
| WinOcrProcessor.ExtractPoint | src/CMatchOCR/WinOcrProcessor.cs:50-62 | the point fails exactly when the rectangle does, with the same error |
| WinOcrProcessor.ExtractPointIsCentre | src/CMatchOCR/WinOcrProcessor.cs:50-62 | the point is the centre of ExtractRect: (x + width/2, y + height/2) |
| WinOcrProcessor.CutFromIsProjectable | src/CMatchOCR/WinOcrProcessor.cs:73 | the Substring in the projection cannot throw for a segmented word |
| WinOcrProcessor.RectWithinRun | src/CMatchOCR/WinOcrProcessor.cs:69-81 | a segmented word's rectangle lies horizontally inside its run's box when the box width is non-negative |
| WinOcrProcessor.ProjectPosition | src/CMatchOCR/WinOcrProcessor.cs:69-81 | "Position" in a 160 x 20 box of "GetWordPosition" gets x = 224/3 and width 256/3 |
| Fuzzy.ExtractAll | src/CMatchOCR/ScreenTextFinder.cs:68-69 | every result reports a choice, its index and its true score, and that score reaches the cutoff. Results come in choice order |
| Fuzzy.ExtractAllKeeps | src/CMatchOCR/ScreenTextFinder.cs:68-69 | a choice whose score reaches the cutoff is among the results |
| Fuzzy.ExtractAllComplete | src/CMatchOCR/ScreenTextFinder.cs:68-69 | no choice scoring at least the cutoff is left out |
| Fuzzy.ExtractTop | src/CMatchOCR/ScreenTextFinder.cs:114-115 | at most `limit` results, each a true report scoring at least the cutoff, ranked by score (ties in choice order), drawn from ExtractAll's results |
| Fuzzy.ExtractTopKeepsBest | src/CMatchOCR/ScreenTextFinder.cs:114-115 | ExtractTop returns min(count, limit) results, and every qualifying result it leaves out ranks after every result it keeps |
| ScreenTextFinder.ToScreen | src/CMatchOCR/ScreenTextFinder.cs:75-76 | translation by the capture origin: size kept, corner moved by (screenRect.X, screenRect.Y) |
| ScreenTextFinder.ScreenRectWithinRun | src/CMatchOCR/ScreenTextFinder.cs:74-76 | a matched word's screen rectangle lies inside its run's screen rectangle |
| ScreenTextFinder.SquareDistancesAt | src/CMatchOCR/ScreenTextFinder.cs:148-151 | the i-th scanned distance is the squared distance from (x, y) to ExtractPoint of the i-th candidate |
| ScreenTextFinder.ScanMinimumIsFirstMinimum | src/CMatchOCR/ScreenTextFinder.cs:144-156 | the scan finds nothing exactly when no distance is below int.MaxValue. Otherwise it finds a distance below int.MaxValue that is no larger than any other and strictly smaller than every earlier one |
| ScreenTextFinder.FirstMinimumIsUnique | src/CMatchOCR/ScreenTextFinder.cs:153 | the tie rule picks a single candidate |
| ScreenTextFinder.TryGetWordClosestToPosition | src/CMatchOCR/ScreenTextFinder.cs:140-166 | not found with the default word when the scan keeps nothing. Otherwise found, with the kept candidate's word |
| ScreenTextFinder.ScanPicksNearest | src/CMatchOCR/ScreenTextFinder.cs:143-165 | nothing is chosen exactly when every candidate is at squared distance >= int.MaxValue, including when there are none. A chosen candidate is one of the inputs, nearer than int.MaxValue, no farther than any candidate and strictly nearer than every earlier one |
| ScreenTextFinder.AllMatches | src/CMatchOCR/ScreenTextFinder.cs:65-69 | FindAll's matches are extracted words scoring at least 80 against the query's key, and all can be projected |
| ScreenTextFinder.TopMatches | src/CMatchOCR/ScreenTextFinder.cs:111-115 | TryFindClosest considers at most 5 words, all of which can be projected |
| ScreenTextFinder.FindAll | src/CMatchOCR/ScreenTextFinder.cs:59-81 | one rectangle per match, in match order, each the match's ExtractRect translated to the screen |
| ScreenTextFinder.TryFindClosest | src/CMatchOCR/ScreenTextFinder.cs:105-130 | the result is the screen rectangle of the top match nearest to the capture's centre (Width/2, Height/2), or None for Rectangle.Empty |
| ScreenTextFinder.ClosestOnScreen | src/CMatchOCR/ScreenTextFinder.cs:117-129 | scans the candidates around (Width/2, Height/2), then translates the winner's rectangle exactly as FindAll does, or returns None |
| ScreenTextFinder.NothingRecognised | src/CMatchOCR/ScreenTextFinder.cs:71-78 | with no recognised line, FindAll returns no rectangle and TryFindClosest returns Rectangle.Empty |
| ScreenTextFinder.TruncateToInt | src/CMatchOCR/ScreenTextFinder.cs:48 | the `(int)` conversion truncates toward zero |
| ScreenTextFinder.Wrap32 | src/CMatchOCR/ScreenTextFinder.cs:49 | unchecked `int` arithmetic: the result is in the 32-bit range, congruent modulo 2^32, and exact when no overflow occurs |
| ScreenTextFinder.SearchAreaIsCentred | src/CMatchOCR/ScreenTextFinder.cs:94-95 | TryFindClosest's square has side `size` and its centre is within a pixel of (x, y) on each axis |
| ScreenTextFinder.FindAllAreaDoublesSide | src/CMatchOCR/ScreenTextFinder.cs:48-49 | as written, FindAll's square has TryFindClosest's origin and side `size * 2` (wrapped to 32 bits) |
| ScreenTextFinder.FindAllAreaNotCentred | src/CMatchOCR/ScreenTextFinder.cs:48-49 | as written, FindAll(0, 0, 10) searches (-5, -5, 20, 20), whose centre is (5, 5) |
| ScreenTextFinder.FindAllAround | src/CMatchOCR/ScreenTextFinder.cs:43-51 | FindAll(text, x, y, size) gives FindAll's result on the square of side `size` centred on (x, y), the documented area; this is the corrected area of the finding below |
| ScreenTextFinder.TryFindClosestAround | src/CMatchOCR/ScreenTextFinder.cs:92-97 | TryFindClosest(text, x, y, size) searches the square of side `size` centred on (x, y) |

## Left out

- Screen capture (ScreenshotUtility.cs) is not part of this model. Each search takes the OCR lines recognised in the captured area as an input.
- OCR engine construction, `RecognizeAsync` and `ExtractText` are foreign calls to the Windows OCR engine and are not modelled.
- `async`/`await` and the blocking `Task.Result` are not modelled: the model is sequential.
- FuzzySharp's similarity algorithm is not modelled. The scorer is an uninterpreted function of the two processed keys.
- Fuzzy.ExtractTop: FuzzySharp promises no order among equal scores. The model ranks ties in choice order, so when the limit of 5 cuts through equal scores it keeps the earlier choices. TryFindClosest can then scan a different set of candidates from the library's, and pick a different word at any distances.
- WinOcrProcessor.ExtractRect: an empty run text makes the C# code divide a double by zero, producing NaN or an infinity rather than throwing. The model reports it as the error EmptyRunText.
- WinOcrProcessor.ExtractPoint: the same empty-run case is reported as EmptyRunText.
- Geometry is over exact reals. IEEE double rounding, and the `float` rounding of `size / 2f`, are not modelled.
- ScreenTextFinder.TruncateToInt: the C# conversion of an out-of-range double to `int` is unspecified. The model truncates without bounds.
- Words.Process: `char.IsLower`, `IsUpper`, `IsDigit` and `ToLower` are modelled on ASCII only. Culture-specific casing and non-ASCII letters are not modelled.
- The default `Word` returned by a failed scan has a null `Text`. The model uses the empty string (`DefaultWord`).
- `Rectangle.Empty` is modelled as `None`, not as a rectangle with infinite coordinates.
- WinOcrProcessor.ExtractWords: the pre-sized capacity `ocrResult.Text.Length / 3` is only a performance hint. The model proves the per-run bound (SegmentCount) and the bound over all runs (WordsOfLinesCount). It does not relate either to the engine's joined `Text`.
- ScreenTextFinder.TopMatches: only the bound of 5 and projectability are stated here. The ranking and the cutoff are stated on Fuzzy.ExtractTop.
- ScreenTextFinder.FindAllAround: searches the documented, centred square of side `size`, not the doubled, shifted square of lines 48-49 (see Findings).
- `ScreenTextFinder.TryFindClosest` is split into two methods. The split keeps each proof small; the behaviour is unchanged.
- The test in ScreenTextFinderTest.cs needs a live desktop and real OCR. It is not modelled.

## Findings

| source | as written | input that shows it | evidently intended | confidence | as-written member | corrected member |
|---|---|---|---|---|---|---|
| src/CMatchOCR/ScreenTextFinder.cs:48-49 | FindAll(text, x, y, size) searches a rectangle with origin (x - size/2, y - size/2) and side `size * 2`. That rectangle is neither `size` wide nor centred on (x, y), contrary to the documentation at lines 43-44 | x = 0, y = 0, size = 10 gives (-5, -5, 20, 20), whose centre is (5, 5) | a square of side `size` centred on (x, y), as documented and as TryFindClosest builds at lines 94-95 | medium, not executed | ScreenTextFinder.FindAllAreaNotCentred | ScreenTextFinder.SearchAreaIsCentred |
