/**
 * The flashcard component: the typed answer inputs, the answer check, the
 * stroke-quiz writers that fill the character input, and which fields are
 * masked until the answer is revealed.
 */
module Flashcard {
  import opened Wrappers
  import opened Text
  import opened App

  const HanziKey: string := "汉字"
  const PinyinKey: string := "pinyin"
  const ChuHanKey: string := "chữ hán"
  const NghiaKey: string := "nghĩa"
  const ViDuKey: string := "ví dụ"
  const Mask: string := "******"

  /** A typed value matches an expected field: the input is trimmed and lower-cased, the expected value only lower-cased. */
  predicate Matches(input: string, expected: string) {
    Lower(Trim(input)) == Lower(expected)
  }

  /**
   * `checkAnswer`'s decision. `Ok(b)` is the value stored in `isCorrect`;
   * `Err(key)` is the TypeError raised by reading `.toLowerCase()` of the absent
   * field `key`. The pinyin field is read only when the 汉字 half matched.
   */
  function Evaluate(word: Word, hanziInput: string, pinyinInput: string): (r: Result<bool>)
    ensures r == Ok(true) <==>
              HanziKey in word && PinyinKey in word &&
              Matches(hanziInput, word[HanziKey]) && Matches(pinyinInput, word[PinyinKey])
    ensures r == Ok(false) <==>
              HanziKey in word &&
              (!Matches(hanziInput, word[HanziKey]) ||
               (PinyinKey in word && !Matches(pinyinInput, word[PinyinKey])))
    ensures r.Err? <==>
              HanziKey !in word || (Matches(hanziInput, word[HanziKey]) && PinyinKey !in word)
  {
    if HanziKey !in word then Err(HanziKey)
    else if !Matches(hanziInput, word[HanziKey]) then Ok(false)
    else if PinyinKey !in word then Err(PinyinKey)
    else Ok(Matches(pinyinInput, word[PinyinKey]))
  }

  /** A match depends on the input only through its lower-case form. */
  lemma MatchesCaseInsensitive(input: string, input': string, expected: string)
    requires Lower(input) == Lower(input')
    ensures Matches(input, expected) == Matches(input', expected)
  {
    LowerTrimCommute(input);
    LowerTrimCommute(input');
  }

  /** Changing the case of either input does not change the verdict. */
  lemma EvaluateCaseInsensitive(word: Word, h: string, h': string, p: string, p': string)
    requires Lower(h) == Lower(h') && Lower(p) == Lower(p')
    ensures Evaluate(word, h, p) == Evaluate(word, h', p')
  {
    if HanziKey in word { MatchesCaseInsensitive(h, h', word[HanziKey]); }
    if PinyinKey in word { MatchesCaseInsensitive(p, p', word[PinyinKey]); }
  }

  /** Leading and trailing whitespace typed around either input does not change the verdict. */
  lemma EvaluateIgnoresInputPadding(word: Word, a: string, h: string, b: string, c: string, p: string, d: string)
    requires AllWhitespace(a) && AllWhitespace(b) && AllWhitespace(c) && AllWhitespace(d)
    ensures Evaluate(word, a + h + b, c + p + d) == Evaluate(word, h, p)
  {
    TrimIgnoresPadding(a, h, b);
    TrimIgnoresPadding(c, p, d);
  }

  /** An expected value that begins or ends with whitespace is never matched, whatever is typed. */
  lemma PaddedExpectedNeverMatches(input: string, expected: string)
    requires !NoBoundaryWhitespace(expected)
    ensures !Matches(input, expected)
  {
    var lt := Lower(Trim(input));
    LowerKeepsBoundary(Trim(input));
    LowerKeepsBoundary(expected);
    assert NoBoundaryWhitespace(lt);
    assert !NoBoundaryWhitespace(Lower(expected));
  }

  /** Lower-casing neither adds nor removes whitespace at the ends. */
  lemma LowerKeepsBoundary(s: string)
    ensures NoBoundaryWhitespace(Lower(s)) <==> NoBoundaryWhitespace(s)
  {
    if s != [] {
      assert Lower(s)[0] == LowerChar(s[0]);
      assert Lower(s)[|s| - 1] == LowerChar(s[|s| - 1]);
    }
  }

  /** So a row whose 汉字 cell is padded with whitespace is always answered wrong. */
  lemma PaddedHanziAlwaysWrong(word: Word, h: string, p: string)
    requires HanziKey in word && !NoBoundaryWhitespace(word[HanziKey])
    ensures Evaluate(word, h, p) == Ok(false)
  {
    PaddedExpectedNeverMatches(h, word[HanziKey]);
  }

  /** The whole expected word, as filled in by the stroke quiz, passes the 汉字 half exactly when the cell is not padded. */
  lemma FilledWordMatches(w: string)
    ensures Matches(w, w) <==> NoBoundaryWhitespace(w)
  {
    TrimIdentity(w);
    if Matches(w, w) {
      var a, b := SplitAroundTrim(w);
      assert |Trim(w)| == |w|;
      assert a == [] && b == [];
      assert w == Trim(w);
    }
  }

  /** After the stroke quiz fills the 汉字 input, the verdict rests on the pinyin alone (for an unpadded cell). */
  lemma FilledHanziLeavesPinyin(word: Word, p: string)
    requires HanziKey in word && PinyinKey in word && NoBoundaryWhitespace(word[HanziKey])
    ensures Evaluate(word, word[HanziKey], p) == Ok(Matches(p, word[PinyinKey]))
  {
    FilledWordMatches(word[HanziKey]);
  }

  /** The five lines of the card. */
  datatype Field = HanTu | Pinyin | ChuHan | Nghia | ViDu

  function Key(f: Field): string {
    match f
    case HanTu => HanziKey
    case Pinyin => PinyinKey
    case ChuHan => ChuHanKey
    case Nghia => NghiaKey
    case ViDu => ViDuKey
  }

  /** 汉字, pinyin and ví dụ are hidden until the answer is revealed. */
  predicate HiddenUntilRevealed(f: Field) {
    f == HanTu || f == Pinyin || f == ViDu
  }

  /** A cell's text; an absent cell (`undefined`) renders as nothing. */
  function CellText(word: Word, key: string): string {
    if key in word then word[key] else ""
  }

  /** The text shown for a field. */
  function Display(word: Word, f: Field, showAnswer: bool): (s: string)
    ensures HiddenUntilRevealed(f) && !showAnswer ==> s == Mask
    ensures showAnswer || !HiddenUntilRevealed(f) ==> s == CellText(word, Key(f))
  {
    if HiddenUntilRevealed(f) && !showAnswer then Mask else CellText(word, Key(f))
  }

  /** A stroke-quiz writer for one character; its completion writes `fill` into the 汉字 input. */
  datatype QuizWriter = QuizWriter(character: char, fill: string)

  /** The effect re-creates the writers only for a row with a non-empty 汉字 cell. */
  predicate WiresWriters(word: Word) {
    HanziKey in word && word[HanziKey] != ""
  }

  /** One writer per character of `w`, each filling the whole of `w`. */
  predicate WiredFor(writers: seq<QuizWriter>, w: string) {
    |writers| == |w| && forall i :: 0 <= i < |w| ==> writers[i] == QuizWriter(w[i], w)
  }

  class FlashcardView {
    var word: Word
    var hanziInput: string
    var pinyinInput: string
    var isCorrect: bool
    /** The quiz writers currently in the writer container. */
    var writers: seq<QuizWriter>

    /** Mounting: empty inputs, `isCorrect` false, then the writer effect runs. */
    constructor (w: Word)
      ensures word == w && hanziInput == "" && pinyinInput == "" && !isCorrect
      ensures WiresWriters(w) ==> WiredFor(writers, w[HanziKey])
      ensures !WiresWriters(w) ==> writers == []
    {
      word := w;
      hanziInput := "";
      pinyinInput := "";
      isCorrect := false;
      writers := [];
      new;
      WireWriters();
    }

    /** The writer effect: for a row with a 汉字 cell, clear the container and add one quiz per character. */
    method WireWriters()
      modifies this`writers
      ensures WiresWriters(word) ==> WiredFor(writers, word[HanziKey])
      ensures !WiresWriters(word) ==> writers == old(writers)
    {
      if WiresWriters(word) {
        var current := word[HanziKey];
        writers := [];
        for i := 0 to |current|
          invariant |writers| == i
          invariant forall j :: 0 <= j < i ==> writers[j] == QuizWriter(current[j], current)
        {
          writers := writers + [QuizWriter(current[i], current)];
        }
      }
    }

    /** A new row: the writers are re-created, the inputs and `isCorrect` are kept. */
    method SetWord(w: Word)
      modifies this`word, this`writers
      ensures word == w
      ensures WiresWriters(w) ==> WiredFor(writers, w[HanziKey])
      ensures !WiresWriters(w) ==> writers == old(writers)
      ensures hanziInput == old(hanziInput) && pinyinInput == old(pinyinInput) && isCorrect == old(isCorrect)
    {
      word := w;
      WireWriters();
    }

    method TypeHanzi(s: string)
      modifies this`hanziInput
      ensures hanziInput == s
    {
      hanziInput := s;
    }

    method TypePinyin(s: string)
      modifies this`pinyinInput
      ensures pinyinInput == s
    {
      pinyinInput := s;
    }

    /** The quiz for character `i` is completed: the 汉字 input becomes the whole word the writer was made for. */
    method CompleteCharacterQuiz(i: nat)
      requires i < |writers|
      modifies this`hanziInput
      ensures hanziInput == writers[i].fill
      ensures WiresWriters(word) && WiredFor(writers, word[HanziKey]) ==> hanziInput == word[HanziKey]
    {
      hanziInput := writers[i].fill;
    }

    /**
     * `checkAnswer`: store the verdict and reveal the answer through the page's
     * `handleShowAnswer`, right or wrong. When a needed cell is absent the
     * TypeError is raised before either happens.
     */
    method CheckAnswer(page: AppState) returns (outcome: Result<bool>)
      requires page.Valid()
      modifies this`isCorrect, page`showAnswer
      ensures page.Valid()
      ensures outcome == Evaluate(word, hanziInput, pinyinInput)
      ensures outcome.Ok? ==> isCorrect == outcome.value && page.showAnswer
      ensures outcome.Err? ==> isCorrect == old(isCorrect) && page.showAnswer == old(page.showAnswer)
    {
      outcome := Evaluate(word, hanziInput, pinyinInput);
      if outcome.Ok? {
        isCorrect := outcome.value;
        page.HandleShowAnswer();
      }
    }
  }
}
