/**
 * The values the Windows OCR engine hands to the core. The engine itself is not
 * part of this model: its output is an input of the operations that use it.
 * Floating-point coordinates are modelled as reals.
 */
module Ocr {

  /** Windows.Foundation.Rect: top-left corner, width and height, in image pixels. */
  datatype Rect = Rect(x: real, y: real, width: real, height: real)

  /** Windows.Foundation.Point. */
  datatype Point = Point(x: real, y: real)

  /** Windows.Media.Ocr.OcrWord: one recognised run of text and its bounding box. */
  datatype OcrWord = OcrWord(text: string, boundingRect: Rect)

  /** Windows.Media.Ocr.OcrLine: the runs of one line, in reading order. */
  datatype OcrLine = OcrLine(words: seq<OcrWord>)
}
