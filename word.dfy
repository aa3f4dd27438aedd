/**
 * Word.cs: a word parsed out of an OCR run, and the key function that the
 * fuzzy matcher compares words by.
 *
 * Character classes follow `char.IsLower`, `char.IsUpper`, `char.IsDigit` and
 * `ToLower` restricted to ASCII.
 */
module Words {
  import opened Wrappers
  import opened Ocr

  /**
   * The `Word` struct: its text, the position of that text inside the run it
   * came from, and a reference to that run (`None` for the null reference the
   * query word is built with). The datatype constructor stores the three
   * fields exactly as given, as the struct's constructor does.
   */
  datatype Word = Word(text: string, index: int, ocrWord: Option<OcrWord>)

  /** `new Word()`, the struct's default value; its null `Text` is modelled as "". */
  const DefaultWord := Word("", 0, None)

  predicate IsLower(c: char) { 'a' <= c <= 'z' }
  predicate IsUpper(c: char) { 'A' <= c <= 'Z' }
  predicate IsDigit(c: char) { '0' <= c <= '9' }

  /** `char.ToLower` on one character. */
  function ToLowerChar(c: char): (l: char)
    ensures !IsUpper(l)
    ensures IsUpper(c) ==> IsLower(l) && l as int - c as int == 'a' as int - 'A' as int
    ensures !IsUpper(c) ==> l == c
  {
    if IsUpper(c) then (c as int - 'A' as int + 'a' as int) as char else c
  }

  /** `string.ToLower`: lowers every character and keeps the length. */
  function ToLower(s: string): (r: string)
    ensures |r| == |s|
    ensures forall i :: 0 <= i < |s| ==> r[i] == ToLowerChar(s[i])
  {
    if s == [] then [] else [ToLowerChar(s[0])] + ToLower(s[1..])
  }

  /**
   * `Word.Process`: the key the matcher compares. It is the text lowered
   * character by character: same length, no upper-case letter left, and every
   * character that was not upper case kept as it was.
   */
  function Process(word: Word): (key: string)
    ensures |key| == |word.text|
    ensures forall i :: 0 <= i < |key| ==> !IsUpper(key[i])
    ensures forall i :: 0 <= i < |key| && !IsUpper(word.text[i]) ==> key[i] == word.text[i]
  {
    ToLower(word.text)
  }

  /** The key depends on the text only, which lets a query word with no run be compared with OCR words. */
  lemma ProcessIgnoresIndexAndRun(w1: Word, w2: Word)
    requires w1.text == w2.text
    ensures Process(w1) == Process(w2)
  {
  }

  /** Lowering an already lowered string changes nothing. */
  lemma {:induction false} ToLowerIdempotent(s: string)
    ensures ToLower(ToLower(s)) == ToLower(s)
  {
    if s != [] {
      ToLowerIdempotent(s[1..]);
      assert ToLower(s)[1..] == ToLower(s[1..]);
    }
  }

  /** Processing the key of a word again yields the same key. */
  lemma ProcessIdempotent(w: Word)
    ensures Process(Word(Process(w), w.index, w.ocrWord)) == Process(w)
  {
    ToLowerIdempotent(w.text);
  }
}
