/**
 * ScreenTextFinder.cs: finding the query among the recognised words and
 * turning the chosen words into screen rectangles.
 *
 * Screen capture and OCR recognition are not modelled: each search takes the
 * lines the OCR engine recognised in the captured area as an input, and the
 * FuzzySharp scorer as a parameter.
 */
module ScreenTextFinder {
  import opened Wrappers
  import opened Ocr
  import opened Words
  import opened WinOcrProcessor
  import opened Fuzzy

  /** The score cutoff both searches pass to FuzzySharp. */
  const ScoreCutoff := 80

  /** How many candidates TryFindClosest asks ExtractTop for. */
  const CandidateLimit := 5

  /** int.MaxValue: the squared distance the nearest-word scan starts from. */
  const IntMaxValue := 0x7fff_ffff

  /** System.Drawing.Rectangle: an area of the screen in integer pixels. */
  datatype ScreenRect = ScreenRect(x: int, y: int, width: int, height: int)

  /** The query word `new Word(text, 0, null)`. */
  function Query(text: string): Word
  {
    Word(text, 0, None)
  }

  // ---------------------------------------------------------------------------
  // Translation to screen coordinates
  // ---------------------------------------------------------------------------

  /**
   * The translation FindAll and TryFindClosest apply to a word's rectangle:
   * the capture area's origin is added to the corner, the size is kept.
   */
  function ToScreen(r: Rect, screenRect: ScreenRect): (s: Rect)
    ensures s.width == r.width && s.height == r.height
    ensures s.x - r.x == screenRect.x as real && s.y - r.y == screenRect.y as real
  {
    Rect(screenRect.x as real + r.x, screenRect.y as real + r.y, r.width, r.height)
  }

  /** `inner` lies inside `outer`. */
  predicate Within(inner: Rect, outer: Rect)
  {
    outer.x <= inner.x && inner.x + inner.width <= outer.x + outer.width &&
    outer.y <= inner.y && inner.y + inner.height <= outer.y + outer.height
  }

  /**
   * A word's screen rectangle lies inside the screen rectangle of its run's
   * box: projection and translation do not move a word out of its run.
   */
  lemma ScreenRectWithinRun(w: Word, run: OcrWord, screenRect: ScreenRect)
    requires CutFrom(w, run)
    requires run.boundingRect.width >= 0.0 && run.boundingRect.height >= 0.0
    ensures Within(ToScreen(ExtractRect(w).value, screenRect), ToScreen(run.boundingRect, screenRect))
  {
    RectWithinRun(w, run);
  }

  // ---------------------------------------------------------------------------
  // The nearest-word scan
  // ---------------------------------------------------------------------------

  predicate AllProjectable(rs: seq<ExtractedResult>)
  {
    forall r <- rs :: Projectable(r.value)
  }

  /** The squared distance from (x, y) to the centre ExtractPoint gives for a result's word. */
  function SquareDistance(x: real, y: real, r: ExtractedResult): real
    requires Projectable(r.value)
  {
    var p := ExtractPoint(r.value).value;
    (p.x - x) * (p.x - x) + (p.y - y) * (p.y - y)
  }

  /** The squared distances from (x, y) of the results' words, in the order of the results. */
  function SquareDistances(x: real, y: real, rs: seq<ExtractedResult>): (ds: seq<real>)
    requires AllProjectable(rs)
    ensures |ds| == |rs|
  {
    if rs == [] then []
    else
      var n := |rs| - 1;
      assert forall r <- rs[..n] :: r in rs;
      SquareDistances(x, y, rs[..n]) + [SquareDistance(x, y, rs[n])]
  }

  lemma {:induction false} SquareDistancesAt(x: real, y: real, rs: seq<ExtractedResult>, j: int)
    requires AllProjectable(rs)
    requires 0 <= j < |rs|
    ensures SquareDistances(x, y, rs)[j] == SquareDistance(x, y, rs[j])
  {
    var n := |rs| - 1;
    if j < n {
      assert forall r <- rs[..n] :: r in rs;
      SquareDistancesAt(x, y, rs[..n], j);
    }
  }

  /** No distance is below `bound`. */
  predicate NoneBelow(ds: seq<real>, bound: real)
  {
    forall j :: 0 <= j < |ds| ==> bound <= ds[j]
  }

  /**
   * `k` is where a scan that keeps only strictly smaller distances, starting
   * from `bound`, ends: its distance is below `bound`, no larger than any
   * other, and strictly smaller than every earlier one.
   */
  predicate IsFirstMinimum(ds: seq<real>, k: int, bound: real)
  {
    && 0 <= k < |ds|
    && ds[k] < bound
    && (forall j :: 0 <= j < |ds| ==> ds[k] <= ds[j])
    && (forall j :: 0 <= j < k ==> ds[k] < ds[j])
  }

  /** The first minimum is unique: on equal distances the earliest result wins. */
  lemma FirstMinimumIsUnique(ds: seq<real>, k1: int, k2: int, bound: real)
    requires IsFirstMinimum(ds, k1, bound) && IsFirstMinimum(ds, k2, bound)
    ensures k1 == k2
  {
  }

  /**
   * The index a left-to-right scan keeps: it starts from `bound` and moves to
   * a later index only when that distance is strictly smaller.
   */
  function ScanMinimum(ds: seq<real>, bound: real): (r: Option<nat>)
    ensures r.Some? ==> r.value < |ds|
  {
    if ds == [] then None
    else
      var n := |ds| - 1;
      var previous := ScanMinimum(ds[..n], bound);
      var smallest := if previous.Some? then ds[previous.value] else bound;
      if ds[n] < smallest then Some(n) else previous
  }

  /**
   * The scan finds the first minimum below `bound`, and finds nothing exactly
   * when no distance is below `bound`.
   */
  lemma {:induction false} ScanMinimumIsFirstMinimum(ds: seq<real>, bound: real)
    ensures ScanMinimum(ds, bound).None? <==> NoneBelow(ds, bound)
    ensures ScanMinimum(ds, bound).Some? ==> IsFirstMinimum(ds, ScanMinimum(ds, bound).value, bound)
  {
    if ds != [] {
      var n := |ds| - 1;
      ScanMinimumIsFirstMinimum(ds[..n], bound);
      assert forall j :: 0 <= j < n ==> ds[..n][j] == ds[j];
    }
  }

  /**
   * TryGetWordClosestToPosition: an argmin scan over the squared distances
   * that starts from int.MaxValue and replaces the current best only when a
   * word is strictly nearer. It fails, with the default word, when no result
   * is nearer than int.MaxValue (in particular when there is none).
   */
  method TryGetWordClosestToPosition(x: real, y: real, wordsResults: seq<ExtractedResult>)
    returns (found: bool, closestWord: Word)
    requires AllProjectable(wordsResults)
    ensures match ScanMinimum(SquareDistances(x, y, wordsResults), IntMaxValue as real)
      case None => !found && closestWord == DefaultWord
      case Some(k) => found && closestWord == wordsResults[k].value
  {
    ghost var ds := SquareDistances(x, y, wordsResults);
    var nearestResult: Option<ExtractedResult> := None;
    var smallestSquareDistance: real := IntMaxValue as real;
    for i := 0 to |wordsResults|
      invariant match ScanMinimum(ds[..i], IntMaxValue as real)
        case None => nearestResult == None && smallestSquareDistance == IntMaxValue as real
        case Some(k) => k < i && nearestResult == Some(wordsResults[k]) && smallestSquareDistance == ds[k]
    {
      var squareDistance := SquareDistance(x, y, wordsResults[i]);
      SquareDistancesAt(x, y, wordsResults, i);
      assert ds[..i + 1][..i] == ds[..i];
      if squareDistance >= smallestSquareDistance {
        continue;
      }
      smallestSquareDistance := squareDistance;
      nearestResult := Some(wordsResults[i]);
    }
    assert ds[..|wordsResults|] == ds;
    if nearestResult == None {
      closestWord := DefaultWord;
      found := false;
      return;
    }
    closestWord := nearestResult.value.value;
    found := true;
  }

  /**
   * What the scan of TryGetWordClosestToPosition picks, in terms of each
   * candidate's squared distance: nothing exactly when every candidate is at
   * int.MaxValue or farther (in particular when there is none); otherwise a
   * candidate nearer than int.MaxValue, no farther than any other, and
   * strictly nearer than every earlier one (ties go to the first).
   */
  lemma ScanPicksNearest(x: real, y: real, rs: seq<ExtractedResult>)
    requires AllProjectable(rs)
    ensures var scan := ScanMinimum(SquareDistances(x, y, rs), IntMaxValue as real);
      && (scan.None? <==> forall j :: 0 <= j < |rs| ==> IntMaxValue as real <= SquareDistance(x, y, rs[j]))
      && (scan.Some? ==>
            && scan.value < |rs|
            && SquareDistance(x, y, rs[scan.value]) < IntMaxValue as real
            && (forall j :: 0 <= j < |rs| ==> SquareDistance(x, y, rs[scan.value]) <= SquareDistance(x, y, rs[j]))
            && (forall j :: 0 <= j < scan.value ==> SquareDistance(x, y, rs[scan.value]) < SquareDistance(x, y, rs[j])))
  {
    var ds := SquareDistances(x, y, rs);
    ScanMinimumIsFirstMinimum(ds, IntMaxValue as real);
    forall j | 0 <= j < |rs|
      ensures ds[j] == SquareDistance(x, y, rs[j])
    {
      SquareDistancesAt(x, y, rs, j);
    }
  }

  // ---------------------------------------------------------------------------
  // FindAll and TryFindClosest on a given capture
  // ---------------------------------------------------------------------------

  /** The results FindAll asks FuzzySharp for: every recognised word scoring at least the cutoff. */
  function AllMatches(text: string, lines: seq<OcrLine>, scorer: Scorer): (rs: seq<ExtractedResult>)
    ensures AllProjectable(rs)
    ensures forall r <- rs :: r.value in WordsOfLines(lines) && ScoreOf(scorer, Query(text), r.value) >= ScoreCutoff
  {
    WordsOfLinesCut(lines);
    ExtractAll(Query(text), WordsOfLines(lines), scorer, ScoreCutoff)
  }

  /** The candidates TryFindClosest asks FuzzySharp for: the best CandidateLimit words scoring at least the cutoff. */
  function TopMatches(text: string, lines: seq<OcrLine>, scorer: Scorer): (rs: seq<ExtractedResult>)
    ensures AllProjectable(rs)
    ensures |rs| <= CandidateLimit
  {
    WordsOfLinesCut(lines);
    ExtractTop(Query(text), WordsOfLines(lines), scorer, CandidateLimit, ScoreCutoff)
  }

  /** What FindAll returns: one screen rectangle per match, in the order of the matches. */
  ghost predicate IsFindAllResult(text: string, screenRect: ScreenRect, lines: seq<OcrLine>, scorer: Scorer,
                                  boundingRects: seq<Rect>)
  {
    var matches := AllMatches(text, lines, scorer);
    && |boundingRects| == |matches|
    && forall i :: 0 <= i < |matches| ==>
         boundingRects[i] == ToScreen(ExtractRect(matches[i].value).value, screenRect)
  }

  /**
   * What TryFindClosest makes of its candidates: nothing (Rectangle.Empty)
   * when the scan around the centre of the capture keeps no candidate,
   * otherwise the screen rectangle of the candidate it keeps (see
   * ScanMinimumIsFirstMinimum).
   */
  ghost predicate IsClosestOnScreen(screenRect: ScreenRect, candidates: seq<ExtractedResult>, result: Option<Rect>)
    requires AllProjectable(candidates)
  {
    var ds := SquareDistances(screenRect.width as real / 2.0, screenRect.height as real / 2.0, candidates);
    match ScanMinimum(ds, IntMaxValue as real)
    case None => result == None
    case Some(k) => result == Some(ToScreen(ExtractRect(candidates[k].value).value, screenRect))
  }

  /** What TryFindClosest returns: the closest of the top matches, on screen. */
  ghost predicate IsTryFindClosestResult(text: string, screenRect: ScreenRect, lines: seq<OcrLine>, scorer: Scorer,
                                         result: Option<Rect>)
  {
    IsClosestOnScreen(screenRect, TopMatches(text, lines, scorer), result)
  }

  /**
   * FindAll on a capture whose OCR output is `lines`: extracts the words,
   * keeps those FuzzySharp scores at least 80 against the query, and
   * translates each one's rectangle into screen coordinates.
   */
  method FindAll(text: string, screenRect: ScreenRect, lines: seq<OcrLine>, scorer: Scorer)
    returns (boundingRects: seq<Rect>)
    ensures IsFindAllResult(text, screenRect, lines, scorer, boundingRects)
  {
    var words := ExtractWords(lines);
    var extractedResults := ExtractAll(Query(text), words, scorer, ScoreCutoff);
    assert extractedResults == AllMatches(text, lines, scorer);
    boundingRects := [];
    for i := 0 to |extractedResults|
      invariant |boundingRects| == i
      invariant forall j :: 0 <= j < i ==>
        boundingRects[j] == ToScreen(ExtractRect(extractedResults[j].value).value, screenRect)
    {
      var extractedRect := ExtractRect(extractedResults[i].value).value;
      var wordScreenRect := Rect(screenRect.x as real + extractedRect.x, screenRect.y as real + extractedRect.y,
                                 extractedRect.width, extractedRect.height);
      boundingRects := boundingRects + [wordScreenRect];
    }
  }

  /**
   * TryFindClosest on a capture whose OCR output is `lines`: takes the five
   * best matches and returns the screen rectangle of the one nearest to the
   * centre of the capture area, or None for Rectangle.Empty.
   */
  method TryFindClosest(text: string, screenRect: ScreenRect, lines: seq<OcrLine>, scorer: Scorer)
    returns (result: Option<Rect>)
    ensures IsTryFindClosestResult(text, screenRect, lines, scorer, result)
  {
    var words := ExtractWords(lines);
    var extractedResults := ExtractTop(Query(text), words, scorer, CandidateLimit, ScoreCutoff);
    assert extractedResults == TopMatches(text, lines, scorer);
    result := ClosestOnScreen(screenRect, extractedResults);
  }

  /**
   * The second half of TryFindClosest: the scan around the centre of the
   * capture area, then the translation of the winner's rectangle.
   */
  method ClosestOnScreen(screenRect: ScreenRect, extractedResults: seq<ExtractedResult>)
    returns (result: Option<Rect>)
    requires AllProjectable(extractedResults)
    ensures IsClosestOnScreen(screenRect, extractedResults, result)
  {
    var found, closestWord := TryGetWordClosestToPosition(screenRect.width as real / 2.0,
                                                          screenRect.height as real / 2.0,
                                                          extractedResults);
    if found {
      var extractedRect := ExtractRect(closestWord).value;
      return Some(Rect(screenRect.x as real + extractedRect.x, screenRect.y as real + extractedRect.y,
                       extractedRect.width, extractedRect.height));
    }
    return None;
  }

  /** With no recognised text there is no match: FindAll returns no rectangle, TryFindClosest nothing. */
  lemma NothingRecognised(text: string, screenRect: ScreenRect, scorer: Scorer, rects: seq<Rect>, result: Option<Rect>)
    requires IsFindAllResult(text, screenRect, [], scorer, rects)
    requires IsTryFindClosestResult(text, screenRect, [], scorer, result)
    ensures rects == [] && result == None
  {
  }

  // ---------------------------------------------------------------------------
  // The (x, y, size) overloads
  // ---------------------------------------------------------------------------

  /** C#'s `(int)` conversion of a floating-point value: truncation toward zero. */
  function TruncateToInt(v: real): (n: int)
    ensures 0.0 <= v ==> n as real <= v < n as real + 1.0
    ensures v < 0.0 ==> n as real - 1.0 < v <= n as real
  {
    if 0.0 <= v then v.Floor else -((-v).Floor)
  }

  /** C#'s unchecked 32-bit `int` arithmetic: the result wraps around into the int range. */
  function Wrap32(n: int): (w: int)
    ensures -0x8000_0000 <= w < 0x8000_0000
    ensures (w - n) % 0x1_0000_0000 == 0
    ensures -0x8000_0000 <= n < 0x8000_0000 ==> w == n
  {
    (n + 0x8000_0000) % 0x1_0000_0000 - 0x8000_0000
  }

  /** The search square of TryFindClosest(text, x, y, size): side `size`, centred on (x, y) up to truncation. */
  function SearchArea(x: real, y: real, size: int): ScreenRect
  {
    ScreenRect(TruncateToInt(x - size as real / 2.0), TruncateToInt(y - size as real / 2.0), size, size)
  }

  /** The search rectangle FindAll(text, x, y, size) builds as written: the same origin, but side size * 2. */
  function FindAllAreaAsWritten(x: real, y: real, size: int): ScreenRect
  {
    ScreenRect(TruncateToInt(x - size as real / 2.0), TruncateToInt(y - size as real / 2.0),
               Wrap32(size * 2), Wrap32(size * 2))
  }

  /** The centre of SearchArea is less than a pixel away from (x, y) on each axis. */
  lemma SearchAreaIsCentred(x: real, y: real, size: int)
    ensures var a := SearchArea(x, y, size);
      && a.width == size && a.height == size
      && x - 1.0 < a.x as real + size as real / 2.0 < x + 1.0
      && y - 1.0 < a.y as real + size as real / 2.0 < y + 1.0
  {
  }

  /** The two overloads share the origin; FindAll's side is twice TryFindClosest's (up to 32-bit wrap-around). */
  lemma FindAllAreaDoublesSide(x: real, y: real, size: int)
    ensures var a := FindAllAreaAsWritten(x, y, size); var b := SearchArea(x, y, size);
      && a.x == b.x && a.y == b.y
      && a.width == a.height == Wrap32(2 * b.width)
      && (-0x4000_0000 <= size < 0x4000_0000 ==> a.width == 2 * b.width)
  {
  }

  /** As written, FindAll's area around (0, 0) of size 10 spans (-5, -5) to (15, 15): its centre is (5, 5). */
  lemma FindAllAreaNotCentred()
    ensures var a := FindAllAreaAsWritten(0.0, 0.0, 10);
      a == ScreenRect(-5, -5, 20, 20) && a.x + a.width / 2 == 5 && a.y + a.height / 2 == 5
  {
  }

  /** FindAll(text, x, y, size), searching the corrected area SearchArea(x, y, size). */
  method FindAllAround(text: string, x: real, y: real, size: int, lines: seq<OcrLine>, scorer: Scorer)
    returns (boundingRects: seq<Rect>)
    ensures IsFindAllResult(text, SearchArea(x, y, size), lines, scorer, boundingRects)
  {
    boundingRects := FindAll(text, SearchArea(x, y, size), lines, scorer);
  }

  /** TryFindClosest(text, x, y, size): the search area is SearchArea(x, y, size). */
  method TryFindClosestAround(text: string, x: real, y: real, size: int, lines: seq<OcrLine>, scorer: Scorer)
    returns (result: Option<Rect>)
    ensures IsTryFindClosestResult(text, SearchArea(x, y, size), lines, scorer, result)
  {
    result := TryFindClosest(text, SearchArea(x, y, size), lines, scorer);
  }
}
