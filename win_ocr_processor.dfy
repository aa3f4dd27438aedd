/**
 * WinOcrProcessor.cs: splitting OCR runs into words (ParseOcrWord and the
 * concatenation loop of ExtractWords) and projecting a word back onto the
 * run's bounding box (ExtractRect, ExtractPoint).
 *
 * The OCR engine is not modelled: ExtractWords takes the recognised lines as
 * its input instead of a bitmap.
 */
module WinOcrProcessor {
  import opened Wrappers
  import opened Ocr
  import opened Words

  /** Runs of fewer characters than this are not reported as words. */
  const MinimumWordSize := 3

  // ---------------------------------------------------------------------------
  // Character classes of the segmenter
  // ---------------------------------------------------------------------------

  /** A character that extends a buffer that already holds something. */
  predicate Continues(c: char) { IsLower(c) || IsDigit(c) }

  /** A character that may start a buffer: anything but a character of no class. */
  predicate IsWordChar(c: char) { Continues(c) || IsUpper(c) }

  /** The shape of every word: one word character, then lower-case letters and digits. */
  predicate IsToken(t: string)
  {
    |t| > 0 && IsWordChar(t[0]) && forall k :: 1 <= k < |t| ==> Continues(t[k])
  }

  /** `w` is a word cut out of `run`: long enough, in bounds, equal to the text at its index, token-shaped. */
  predicate CutFrom(w: Word, run: OcrWord)
  {
    && w.ocrWord == Some(run)
    && MinimumWordSize <= |w.text|
    && 0 <= w.index
    && w.index + |w.text| <= |run.text|
    && w.text == run.text[w.index..w.index + |w.text|]
    && IsToken(w.text)
  }

  /** Words of one run come in strictly increasing index order and do not overlap. */
  predicate InOrder(ws: seq<Word>)
  {
    forall i, j :: 0 <= i < j < |ws| ==> ws[i].index + |ws[i].text| <= ws[j].index
  }

  // ---------------------------------------------------------------------------
  // Reference definition of the segmentation
  // ---------------------------------------------------------------------------

  /** The end of the stretch of lower-case letters and digits that starts at `p`. */
  function RunEnd(text: string, p: nat): (e: nat)
    requires p <= |text|
    ensures p <= e <= |text|
    decreases |text| - p
  {
    if p == |text| || !Continues(text[p]) then p else RunEnd(text, p + 1)
  }

  /** The stretch from `p` to RunEnd(text, p) holds only lower-case letters and digits, and nothing of them follows. */
  lemma {:induction false} RunEndStops(text: string, p: nat)
    requires p <= |text|
    ensures forall k :: p <= k < RunEnd(text, p) ==> Continues(text[k])
    ensures RunEnd(text, p) == |text| || !Continues(text[RunEnd(text, p)])
    decreases |text| - p
  {
    if p < |text| && Continues(text[p]) {
      RunEndStops(text, p + 1);
    }
  }

  /** Any index that bounds a stretch of lower-case letters and digits on both sides is its end. */
  lemma {:induction false} RunEndIs(text: string, p: nat, e: nat)
    requires p <= e <= |text|
    requires forall k :: p <= k < e ==> Continues(text[k])
    requires e == |text| || !Continues(text[e])
    ensures RunEnd(text, p) == e
    decreases e - p
  {
    if p < e {
      RunEndIs(text, p + 1, e);
    }
  }

  /**
   * The words of `run` from position `p` on: a character of no class is
   * skipped; a word character starts a token that extends over the lower-case
   * letters and digits after it; a token is kept when it has at least
   * MinimumWordSize characters.
   */
  function WordsFrom(run: OcrWord, p: nat): (ws: seq<Word>)
    requires p <= |run.text|
    decreases |run.text| - p
  {
    if p == |run.text| then []
    else if !IsWordChar(run.text[p]) then WordsFrom(run, p + 1)
    else
      var e := RunEnd(run.text, p + 1);
      var rest := WordsFrom(run, e);
      if e - p < MinimumWordSize then rest
      else [Word(run.text[p..e], p, Some(run))] + rest
  }

  /** Every word from `p` on is cut out of the run at or after `p`, and the words do not overlap. */
  lemma {:induction false} WordsFromCut(run: OcrWord, p: nat)
    requires p <= |run.text|
    ensures forall w <- WordsFrom(run, p) :: CutFrom(w, run) && p <= w.index
    ensures InOrder(WordsFrom(run, p))
    decreases |run.text| - p
  {
    if p < |run.text| {
      if !IsWordChar(run.text[p]) {
        WordsFromCut(run, p + 1);
      } else {
        var e := RunEnd(run.text, p + 1);
        RunEndStops(run.text, p + 1);
        WordsFromCut(run, e);
        var rest := WordsFrom(run, e);
        if e - p >= MinimumWordSize {
          var w := Word(run.text[p..e], p, Some(run));
          assert forall j :: 0 <= j < |rest| ==> w.index + |w.text| <= rest[j].index;
        }
      }
    }
  }

  /**
   * The words ParseOcrWord appends for `run`. Each one is cut out of the run
   * at its index, has at least MinimumWordSize characters, only its first
   * character may be upper case, and the words do not overlap.
   */
  function Segment(run: OcrWord): (ws: seq<Word>)
    ensures forall w <- ws :: CutFrom(w, run)
    ensures InOrder(ws)
  {
    WordsFromCut(run, 0);
    WordsFrom(run, 0)
  }

  lemma {:induction false} WordsFromCount(run: OcrWord, p: nat)
    requires p <= |run.text|
    ensures MinimumWordSize * |WordsFrom(run, p)| <= |run.text| - p
    decreases |run.text| - p
  {
    if p < |run.text| {
      if !IsWordChar(run.text[p]) {
        WordsFromCount(run, p + 1);
      } else {
        WordsFromCount(run, RunEnd(run.text, p + 1));
      }
    }
  }

  /** One run yields at most |text| / MinimumWordSize words: the capacity ExtractWords reserves. */
  lemma SegmentCount(run: OcrWord)
    ensures |Segment(run)| <= |run.text| / MinimumWordSize
  {
    WordsFromCount(run, 0);
  }

  /** A CamelCase run splits at its capitals: GetWordPosition gives Get, Word, Position. */
  lemma SegmentGetWordPosition(box: Rect)
    ensures var run := OcrWord("GetWordPosition", box);
      Segment(run) == [Word("Get", 0, Some(run)), Word("Word", 3, Some(run)), Word("Position", 7, Some(run))]
  {
    var run := OcrWord("GetWordPosition", box);
    assert RunEnd("GetWordPosition", 1) == 3;
    assert RunEnd("GetWordPosition", 4) == 7;
    assert RunEnd("GetWordPosition", 8) == 15;
    SlicesOfGetWordPosition();
    assert WordsFrom(run, 15) == [];
    assert WordsFrom(run, 7) == [Word("Position", 7, Some(run))];
    assert WordsFrom(run, 3) == [Word("Word", 3, Some(run)), Word("Position", 7, Some(run))];
  }

  /** The three tokens of the worked example, as slices of its text. */
  lemma SlicesOfGetWordPosition()
    ensures "GetWordPosition"[0..3] == "Get"
    ensures "GetWordPosition"[3..7] == "Word"
    ensures "GetWordPosition"[7..15] == "Position"
  {
  }

  /** A token that ends at `e` contributes itself, when long enough, and the words after `e` follow. */
  lemma TokenEnd(run: OcrWord, p: nat, e: nat)
    requires p < e <= |run.text|
    requires IsWordChar(run.text[p]) && forall k :: p < k < e ==> Continues(run.text[k])
    requires e == |run.text| || !Continues(run.text[e])
    ensures WordsFrom(run, p) ==
      (if e - p >= MinimumWordSize then [Word(run.text[p..e], p, Some(run))] else []) + WordsFrom(run, e)
  {
    RunEndIs(run.text, p + 1, e);
  }

  /**
   * A character that does not extend the buffer ends it: the buffer's word,
   * when long enough, comes next, then the words from that character on (or
   * from the one after it, when it cannot start a word).
   */
  lemma BufferEnds(run: OcrWord, index: nat, i: nat)
    requires index <= i < |run.text| && !Continues(run.text[i])
    requires index < i ==> IsWordChar(run.text[index]) && forall k :: index < k < i ==> Continues(run.text[k])
    ensures WordsFrom(run, index) ==
      (if i - index >= MinimumWordSize then [Word(run.text[index..i], index, Some(run))] else []) +
      WordsFrom(run, if IsUpper(run.text[i]) then i else i + 1)
  {
    if index < i {
      TokenEnd(run, index, i);
    }
  }

  /** `buffer` holds the characters of `text` from `index` on. */
  predicate Buffered(buffer: string, text: string, index: nat)
  {
    index + |buffer| <= |text| && forall k :: 0 <= k < |buffer| ==> buffer[k] == text[index + k]
  }

  /** ParseOcrWord's loop invariant survives a character that ends the buffer. */
  lemma FlushStep(run: OcrWord, all: seq<Word>, before: seq<Word>, after: seq<Word>,
                  buffer: string, index: nat, i: nat, next: nat)
    requires i < |run.text| && !Continues(run.text[i])
    requires Buffered(buffer, run.text, index) && index + |buffer| == i
    requires buffer != [] ==> IsToken(buffer)
    requires next == if IsUpper(run.text[i]) then i else i + 1
    requires after == before + (if |buffer| >= MinimumWordSize then [Word(buffer, index, Some(run))] else [])
    requires before + WordsFrom(run, index) == all
    ensures after + WordsFrom(run, next) == all
  {
    assert buffer == run.text[index..i];
    BufferEnds(run, index, i);
    var emitted := if |buffer| >= MinimumWordSize then [Word(buffer, index, Some(run))] else [];
    assert WordsFrom(run, index) == emitted + WordsFrom(run, next);
    assert after + WordsFrom(run, next) == before + (emitted + WordsFrom(run, next));
  }

  /** After the last character, flushing the buffer completes the run's words. */
  lemma FinalFlush(run: OcrWord, all: seq<Word>, before: seq<Word>, after: seq<Word>, buffer: string, index: nat)
    requires Buffered(buffer, run.text, index) && index + |buffer| == |run.text|
    requires buffer != [] ==> IsToken(buffer)
    requires after == before + (if |buffer| >= MinimumWordSize then [Word(buffer, index, Some(run))] else [])
    requires before + WordsFrom(run, index) == all
    ensures after == all
  {
    assert buffer == run.text[index..|run.text|];
    if index < |run.text| {
      TokenEnd(run, index, |run.text|);
    }
  }

  // ---------------------------------------------------------------------------
  // ParseOcrWord and ExtractWords
  // ---------------------------------------------------------------------------

  /**
   * ParseOcrWord: scans the run's text once, collecting characters in a
   * buffer, and appends a word whenever a buffer of at least MinimumWordSize
   * characters ends. The C# `ref List<Word>` is passed in as `words` and
   * returned as `words'`: the method only appends, and what it appends is
   * exactly Segment(ocrWord).
   */
  method ParseOcrWord(ocrWord: OcrWord, words: seq<Word>) returns (words': seq<Word>)
    ensures words' == words + Segment(ocrWord)
  {
    var text := ocrWord.text;
    var buffer: string := [];
    var index := 0;
    words' := words;
    for i := 0 to |text|
      invariant Buffered(buffer, text, index) && index + |buffer| == i
      invariant buffer != [] ==> IsToken(buffer)
      invariant words' + WordsFrom(ocrWord, index) == words + WordsFrom(ocrWord, 0)
    {
      var c := text[i];
      if IsLower(c) || IsDigit(c) || (IsUpper(c) && |buffer| == 0) {
        buffer := buffer + [c];
      } else {
        ghost var next := if IsUpper(c) then i else i + 1;
        ghost var before := words';
        if |buffer| >= MinimumWordSize {
          words' := words' + [Word(buffer, index, Some(ocrWord))];
        }
        FlushStep(ocrWord, words + WordsFrom(ocrWord, 0), before, words', buffer, index, i, next);
        buffer := [];
        if IsUpper(c) {
          buffer := buffer + [c];
          index := i;
        } else {
          index := i + 1;
        }
      }
    }
    ghost var before := words';
    if |buffer| >= MinimumWordSize {
      words' := words' + [Word(buffer, index, Some(ocrWord))];
    }
    FinalFlush(ocrWord, words + WordsFrom(ocrWord, 0), before, words', buffer, index);
  }

  /** The words of a sequence of runs, run after run. */
  function WordsOfRuns(runs: seq<OcrWord>): seq<Word>
  {
    if runs == [] then []
    else WordsOfRuns(runs[..|runs| - 1]) + Segment(runs[|runs| - 1])
  }

  /** The words of the recognised lines: line after line, and run after run within a line. */
  function WordsOfLines(lines: seq<OcrLine>): seq<Word>
  {
    if lines == [] then []
    else WordsOfLines(lines[..|lines| - 1]) + WordsOfRuns(lines[|lines| - 1].words)
  }

  /** Every word of a sequence of runs is cut out of one of those runs, the one it refers to. */
  lemma {:induction false} WordsOfRunsCut(runs: seq<OcrWord>)
    ensures forall w <- WordsOfRuns(runs) :: w.ocrWord.Some? && w.ocrWord.value in runs && CutFrom(w, w.ocrWord.value)
  {
    if runs != [] {
      var last := |runs| - 1;
      WordsOfRunsCut(runs[..last]);
      assert forall r <- runs[..last] :: r in runs;
    }
  }

  /** Every word of the recognised lines is cut out of a run of one of the lines, the run it refers to. */
  lemma {:induction false} WordsOfLinesCut(lines: seq<OcrLine>)
    ensures forall w <- WordsOfLines(lines) :: w.ocrWord.Some? && CutFrom(w, w.ocrWord.value)
    ensures forall w <- WordsOfLines(lines) ::
      exists l :: 0 <= l < |lines| && w.ocrWord.value in lines[l].words
  {
    if lines != [] {
      var last := |lines| - 1;
      WordsOfLinesCut(lines[..last]);
      WordsOfRunsCut(lines[last].words);
      assert forall l :: 0 <= l < last ==> lines[..last][l] == lines[l];
    }
  }

  /**
   * ExtractWords after recognition: ParseOcrWord applied to every run of every
   * line, in order, into one list.
   */
  method ExtractWords(lines: seq<OcrLine>) returns (words: seq<Word>)
    ensures words == WordsOfLines(lines)
  {
    words := [];
    for l := 0 to |lines|
      invariant words == WordsOfLines(lines[..l])
    {
      var line := lines[l];
      for r := 0 to |line.words|
        invariant words == WordsOfLines(lines[..l]) + WordsOfRuns(line.words[..r])
      {
        words := ParseOcrWord(line.words[r], words);
        assert line.words[..r + 1][..r] == line.words[..r];
      }
      assert line.words[..|line.words|] == line.words;
      assert lines[..l + 1][..l] == lines[..l];
    }
    assert lines[..|lines|] == lines;
  }

  /** Total number of characters in a sequence of runs. */
  function RunsLength(runs: seq<OcrWord>): nat
  {
    if runs == [] then 0 else RunsLength(runs[..|runs| - 1]) + |runs[|runs| - 1].text|
  }

  /** Total number of characters in the recognised lines. */
  function LinesLength(lines: seq<OcrLine>): nat
  {
    if lines == [] then 0 else LinesLength(lines[..|lines| - 1]) + RunsLength(lines[|lines| - 1].words)
  }

  lemma {:induction false} WordsOfRunsCount(runs: seq<OcrWord>)
    ensures MinimumWordSize * |WordsOfRuns(runs)| <= RunsLength(runs)
  {
    if runs != [] {
      WordsOfRunsCount(runs[..|runs| - 1]);
      WordsFromCount(runs[|runs| - 1], 0);
    }
  }

  /** All lines together yield at most one word per MinimumWordSize characters. */
  lemma {:induction false} WordsOfLinesCount(lines: seq<OcrLine>)
    ensures MinimumWordSize * |WordsOfLines(lines)| <= LinesLength(lines)
  {
    if lines != [] {
      WordsOfLinesCount(lines[..|lines| - 1]);
      WordsOfRunsCount(lines[|lines| - 1].words);
    }
  }

  // ---------------------------------------------------------------------------
  // Geometry: ExtractRect and ExtractPoint
  // ---------------------------------------------------------------------------

  /**
   * Why a word cannot be projected: a null OcrWord (NullReferenceException),
   * an index outside the run's text (Substring throws), or an empty run text
   * (a division by zero).
   */
  datatype ProjectionError = NullOcrWord | IndexOutOfRange | EmptyRunText

  /** A word whose rectangle can be computed. */
  predicate Projectable(word: Word)
  {
    word.ocrWord.Some? && 0 <= word.index <= |word.ocrWord.value.text| && |word.ocrWord.value.text| > 0
  }

  /**
   * ExtractRect: treats the run as monospaced (character width = box width /
   * number of characters) and slices the word's columns out of the run's box;
   * top and height are the run's.
   */
  function ExtractRect(word: Word): (r: Result<Rect, ProjectionError>)
    ensures r.Success? <==> Projectable(word)
    ensures word.ocrWord.None? ==> r == Failure(NullOcrWord)
    ensures word.ocrWord.Some? && !(0 <= word.index <= |word.ocrWord.value.text|) ==> r == Failure(IndexOutOfRange)
    ensures r.Success? ==>
      r.value.y == word.ocrWord.value.boundingRect.y && r.value.height == word.ocrWord.value.boundingRect.height
  {
    if word.ocrWord.None? then Failure(NullOcrWord)
    else
      var run := word.ocrWord.value;
      var rect := run.boundingRect;
      if !(0 <= word.index <= |run.text|) then Failure(IndexOutOfRange)
      else if |run.text| == 0 then Failure(EmptyRunText)
      else
        var preText := run.text[..word.index];
        var averageCharacterWidth := rect.width / |run.text| as real;
        var wordRelativePositionX := averageCharacterWidth * |preText| as real;
        var wordWidth := averageCharacterWidth * |word.text| as real;
        Success(Rect(rect.x + wordRelativePositionX, rect.y, wordWidth, rect.height))
  }

  /**
   * The monospace approximation: the word's offset from the run's left edge
   * and its width stand to the box width as its index and its length stand
   * to the number of characters in the run.
   */
  lemma ExtractRectIsMonospace(word: Word)
    requires Projectable(word)
    ensures var r := ExtractRect(word).value;
      var box := word.ocrWord.value.boundingRect;
      var n := |word.ocrWord.value.text| as real;
      && (r.x - box.x) * n == box.width * word.index as real
      && r.width * n == box.width * |word.text| as real
  {
  }

  /** The centre of a rectangle. */
  function Centre(r: Rect): Point
  {
    Point(r.x + r.width / 2.0, r.y + r.height / 2.0)
  }

  /**
   * ExtractPoint: the same monospace approximation, reduced to a point. It
   * fails exactly when ExtractRect does, and otherwise is the centre of the
   * word's rectangle.
   */
  function ExtractPoint(word: Word): (r: Result<Point, ProjectionError>)
    ensures r.Success? <==> Projectable(word)
    ensures r.Failure? ==> ExtractRect(word) == Failure(r.error)
  {
    if word.ocrWord.None? then Failure(NullOcrWord)
    else
      var run := word.ocrWord.value;
      var rect := run.boundingRect;
      if !(0 <= word.index <= |run.text|) then Failure(IndexOutOfRange)
      else if |run.text| == 0 then Failure(EmptyRunText)
      else
        var preText := run.text[..word.index];
        var averageCharacterWidth := rect.width / |run.text| as real;
        var wordRelativePositionX := averageCharacterWidth * |preText| as real;
        var wordWidth := averageCharacterWidth * |word.text| as real;
        Success(Point(rect.x + wordRelativePositionX + wordWidth / 2.0, rect.y + rect.height / 2.0))
  }

  /** ExtractPoint is the centre of ExtractRect. */
  lemma ExtractPointIsCentre(word: Word)
    requires Projectable(word)
    ensures ExtractPoint(word).value == Centre(ExtractRect(word).value)
  {
  }

  /** Every word the segmenter produces can be projected. */
  lemma CutFromIsProjectable(w: Word, run: OcrWord)
    requires CutFrom(w, run)
    ensures Projectable(w)
  {
  }

  /** A word cut out of a run of non-negative width lies horizontally inside the run's box. */
  lemma RectWithinRun(w: Word, run: OcrWord)
    requires CutFrom(w, run)
    requires run.boundingRect.width >= 0.0
    ensures var r := ExtractRect(w).value; var box := run.boundingRect;
      box.x <= r.x && r.x + r.width <= box.x + box.width && r.y == box.y && r.height == box.height
  {
    var box := run.boundingRect;
    var n := |run.text| as real;
    var cw := box.width / n;
    var a := w.index as real;
    var b := |w.text| as real;
    assert 0.0 <= cw;
    assert 0.0 <= cw * a;
    assert a + b <= n;
    assert cw * (a + b) <= cw * n by {
      assert cw * n - cw * (a + b) == cw * (n - (a + b));
    }
    assert cw * n == box.width;
  }

  /** "Position" in a 160 x 20 box at the origin holding the 15-character run "GetWordPosition". */
  lemma ProjectPosition()
    ensures var run := OcrWord("GetWordPosition", Rect(0.0, 0.0, 160.0, 20.0));
      ExtractRect(Word("Position", 7, Some(run))) == Success(Rect(224.0 / 3.0, 0.0, 256.0 / 3.0, 20.0))
  {
  }
}
