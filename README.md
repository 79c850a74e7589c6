# hanyu-flashcard: the quiz core in Dafny

A model of the sequential logic of a React flashcard quiz for Chinese vocabulary,
with proofs about it. The page holds a list of spreadsheet rows (`words`), the
index of the row on show (`randomIndex`) and whether its answer is revealed
(`showAnswer`). The ➡️ button draws a new random index that differs from the
current one. The card asks for the characters (汉字) and the pinyin. Its check
trims and lower-cases both inputs and compares them with the lower-cased cells.
A stroke quiz per character fills the character input with the whole word. A
shared helper builds one stroke writer per character and calls its `onComplete`
once the per-character completions reach the number of characters.

Modules, one per source file, plus two helpers:

- `Wrappers`: `Option` (for `null`/`undefined`) and `Result` (for a thrown TypeError).
- `Text`: ECMAScript `trim` and `toLowerCase` on strings.
- `App` (`src/App.js`): class `AppState`; `Math.random()` is an oracle sequence of draws.
- `Flashcard` (`src/components/Flashcard.js`): the pure answer check `Evaluate` and the
  masking `Display`, plus class `FlashcardView` holding the inputs, `isCorrect` and the quiz writers.
- `HanziWriters` (`src/constants.js`): `GenerateHanziWriter` and class `CompletionCounter`,
  the closure counter `completed`/`total` with a trace of the `onComplete` calls.

`RandomizeWord` takes the values `Math.random()` returns as a parameter, each in
[0, 1). The `do … while` loop ends only if some draw differs from the index on
show. That is its precondition. `App.RedrawNeverEnds` and `App.AdvancePossible`
show that with one word (or an empty list after a first draw) and index 0 on show,
no draw qualifies, so the page spins forever.

The model follows the code. The code has no per-cycle no-repeat set, priority
buckets, score counters, timed auto-advance or persistence, so none is modelled.
Only the immediately previous index is avoided. The expected cells are not
trimmed. A missing cell makes `checkAnswer` throw rather than report an error.

## Model

| member | source | states |
|---|---|---|
| `Text.IsWhitespace` | src/components/Flashcard.js:46-47 | the characters `trim` removes: the ECMAScript WhiteSpace and LineTerminator code points |
| `Text.LowerChar` | src/components/Flashcard.js:46-47 | `toLowerCase` on one character never turns whitespace into non-whitespace or back |
| `Text.LowerCharIdempotent` | src/components/Flashcard.js:46-47 | a lower-cased character is its own lower case |
| `Text.Lower` | src/components/Flashcard.js:46-47 | `toLowerCase` keeps the length and maps each character on its own |
| `Text.LowerIdempotent` | src/components/Flashcard.js:46-47 | lower-casing twice equals lower-casing once |
| `Text.TrimStart` | src/components/Flashcard.js:46-47 | the result is the suffix of the input starting at its first non-whitespace character; all that was dropped is whitespace |
| `Text.TrimEnd` | src/components/Flashcard.js:46-47 | the result is the prefix of the input ending at its last non-whitespace character; all that was dropped is whitespace |
| `Text.Trim` | src/components/Flashcard.js:46-47 | `trim`: the result is no longer than the input and has no whitespace at either end |
| `Text.TrimStartSkips` | src/components/Flashcard.js:46-47 | leading whitespace before a non-whitespace character is removed, and nothing more |
| `Text.TrimEndSkips` | src/components/Flashcard.js:46-47 | trailing whitespace after a non-whitespace character is removed, and nothing more |
| `Text.TrimOfPadded` | src/components/Flashcard.js:46-47 | trimming `a + t + b` gives `t` when `a`, `b` are whitespace and `t` is unpadded (the trimmed value is unique) |
| `Text.SplitAroundTrim` | src/components/Flashcard.js:46-47 | every string is its trimmed value with whitespace-only text before and after it |
| `Text.TrimIgnoresPadding` | src/components/Flashcard.js:46-47 | whitespace added around a string does not change its trimmed value |
| `Text.TrimIdentity` | src/components/Flashcard.js:46-47 | `trim` leaves a string unchanged if and only if it has no boundary whitespace |
| `Text.LowerTrimCommute` | src/components/Flashcard.js:46-47 | lower-casing then trimming equals trimming then lower-casing |
| `App.DrawIndex` | src/App.js:37 | `Math.floor(Math.random() * words.length)` for one draw |
| `App.Accepts` | src/App.js:38 | the loop exit: the drawn index differs from `randomIndex`; with `null` every index differs |
| `App.FirstAccepted` | src/App.js:36-38 | the loop stops at the first draw whose index differs from the current one; all earlier draws repeat it |
| `App.NextIndex` | src/App.js:36-40 | the stored index is one of the drawn indices and never the index held before the call |
| `App.DrawIndexInRange` | src/App.js:37 | for a non-empty list, `floor(random * length)` lies in `[0, length)` |
| `App.DrawIndexOfEmpty` | src/App.js:37 | for an empty list every draw gives index 0 |
| `App.DrawHits` | src/App.js:37 | every index `j < n` is produced by the draw `j / n`, which `Math.random` can return |
| `App.AdvancePossible` | src/App.js:36-38 | some value of `Math.random` ends the loop if and only if there are two or more words or nothing is on show yet |
| `App.RedrawNeverEnds` | src/App.js:36-38 | with at most one word and index 0 on show, no sequence of draws ends the loop |
| `App.NoMemoryBeyondCurrent` | src/App.js:34-42 | only the index on show is avoided: after `a` then `b`, the next draw may be `a` again |
| `App.AppState.constructor` | src/App.js:10-12 | the page starts with no words, no index, the answer hidden and no card |
| `App.AppState.LoadWords` | src/App.js:14-32 | the parsed rows become `words`; index and answer flag are untouched |
| `App.AppState.Card` | src/App.js:50-56 | a card is shown if and only if the list is non-empty and an index is set; the row shown is at that index, which is in range |
| `App.AppState.RandomizeWord` | src/App.js:34-42 | the new index is the first draw differing from the old index, lies in `[0, length)` for a non-empty list, and the answer is hidden; `words` is unchanged |
| `App.AppState.HandleShowAnswer` | src/App.js:44-46 | the answer is revealed; `words` and the index are unchanged |
| `Flashcard.Matches` | src/components/Flashcard.js:46-47 | one comparison: the trimmed, lower-cased input equals the lower-cased, untrimmed cell |
| `Flashcard.Evaluate` | src/components/Flashcard.js:42-52 | correct if and only if both cells exist and both trimmed, lower-cased inputs equal the lower-cased cells; a TypeError if 汉字 is absent, or if 汉字 matched and pinyin is absent; a matching 汉字 with a wrong pinyin is incorrect |
| `Flashcard.MatchesCaseInsensitive` | src/components/Flashcard.js:46-47 | whether an input matches depends only on its lower-case form |
| `Flashcard.EvaluateCaseInsensitive` | src/components/Flashcard.js:45-52 | changing the case of either input does not change the verdict |
| `Flashcard.EvaluateIgnoresInputPadding` | src/components/Flashcard.js:45-52 | whitespace typed before or after either input does not change the verdict |
| `Flashcard.PaddedExpectedNeverMatches` | src/components/Flashcard.js:46-47 | an expected cell starting or ending with whitespace is never matched, whatever is typed |
| `Flashcard.LowerKeepsBoundary` | src/components/Flashcard.js:46-47 | lower-casing neither adds nor removes boundary whitespace |
| `Flashcard.PaddedHanziAlwaysWrong` | src/components/Flashcard.js:45-52 | a row whose 汉字 cell is padded is always judged wrong |
| `Flashcard.FilledWordMatches` | src/components/Flashcard.js:35-46 | the whole word filled in by the stroke quiz passes the 汉字 check if and only if the cell has no boundary whitespace |
| `Flashcard.FilledHanziLeavesPinyin` | src/components/Flashcard.js:35-52 | after the stroke quiz fills an unpadded 汉字 cell, the verdict is the pinyin comparison alone |
| `Flashcard.Display` | src/components/Flashcard.js:60-64 | 汉字, pinyin and ví dụ show `******` while the answer is hidden; chữ hán and nghĩa always show their cell; a shown absent cell is empty |
| `Flashcard.WiresWriters` | src/components/Flashcard.js:24 | the effect guard: the row has a non-empty 汉字 cell (the container element always exists) |
| `Flashcard.FlashcardView.constructor` | src/components/Flashcard.js:16-40 | the inputs start empty and `isCorrect` false; for a row with a 汉字 cell there is one quiz writer per character |
| `Flashcard.FlashcardView.WireWriters` | src/components/Flashcard.js:23-40 | for a non-empty 汉字 cell the writers are replaced by one quiz per character, each filling the whole word; otherwise the old writers stay |
| `Flashcard.FlashcardView.SetWord` | src/components/Flashcard.js:17-40 | a new row re-creates the writers but keeps both inputs and `isCorrect` |
| `Flashcard.FlashcardView.TypeHanzi` | src/components/Flashcard.js:76 | typing sets the 汉字 input |
| `Flashcard.FlashcardView.TypePinyin` | src/components/Flashcard.js:84 | typing sets the pinyin input |
| `Flashcard.FlashcardView.CompleteCharacterQuiz` | src/components/Flashcard.js:33-37 | completing any one character's quiz sets the 汉字 input to the whole word that writer was made for |
| `Flashcard.FlashcardView.CheckAnswer` | src/components/Flashcard.js:42-55 | `isCorrect` becomes the verdict and the answer is revealed, right or wrong; a missing cell throws before either |
| `HanziWriters.ModeFor` | src/constants.js:86-101 | quiz unless animating; animating shows the character in fast mode and loops the animation otherwise |
| `HanziWriters.WritersFor` | src/constants.js:63-84 | one writer per character, in order |
| `HanziWriters.FiringTrace` | src/constants.js:94-99 | the firing rule: each completion increments the count and `onComplete` is called when the count equals `total` |
| `HanziWriters.FiringTraceClosedForm` | src/constants.js:93-99 | after any number of completions, `onComplete` has been called once, at count `total`, if the count reached `total`, and not at all otherwise |
| `HanziWriters.NeverFiresEarly` | src/constants.js:95-97 | `onComplete` is not called before the count reaches `total` |
| `HanziWriters.FiresOnceWhenAllComplete` | src/constants.js:61-98 | if each character completes once, `onComplete` is called exactly once |
| `HanziWriters.NeverFiresAgain` | src/constants.js:95-96 | completions past `total` never call `onComplete` again |
| `HanziWriters.CompletionCounter.constructor` | src/constants.js:61-62 | the counter starts at zero with `total` fixed and no call made |
| `HanziWriters.CompletionCounter.OnCharacterComplete` | src/constants.js:94-99 | each completion adds one to the count and calls `onComplete` exactly when the count equals `total` |
| `HanziWriters.Proceeds` | src/constants.js:58 | the early exit is not taken: the container exists and `hanzis` is present and non-empty |
| `HanziWriters.GenerateHanziWriter` | src/constants.js:51-103 | without a container or with a missing or empty `hanzis` nothing changes and no quiz exists; otherwise the container holds one writer per character, and in quiz mode a fresh counter with `total == hanzis.length` is registered; in animate mode none is |

## Left out

- Fetching the sheet with axios and parsing it with Papa (src/App.js:14-32): network I/O and a foreign library. `LoadWords` receives the parsed rows.
- `Math.random`: replaced by a sequence of draws in [0, 1). Floating-point rounding of `random * length` is not modelled; the product is exact.
- HanziWriter stroke recognition and animation: an external library. Only its per-character completion callback is modelled, as an event.
- DOM and SVG construction and styling (`createSvgBackground`, container styles, src/constants.js:24-49, 64-82): presentation only.
- React scheduling and re-render timing, and the JSX beyond the masking rule, including the ✅/❌ feedback line (src/components/Flashcard.js:93-99): UI.
- `Flashcard.FlashcardView.TypeHanzi`, `TypePinyin` and `CheckAnswer` may be called while the answer is shown. The page renders the inputs and the ✅/❌ button only while it is hidden (src/components/Flashcard.js:67-91), so the model allows more call orders than the page does. No proved property depends on this.
- `Flashcard.FlashcardView.WireWriters`: the `hanziWriterRef.current` guard is taken as always true, because the container element is always rendered.
- `Text.LowerChar`: lower-cases only ASCII, Latin-1 (U+00C0..U+00DE except U+00D7), Latin Extended-A (U+0100..U+017E except U+0130, whose lower case is two characters, with Ÿ U+0178 to ÿ U+00FF), and the pinyin caron vowels U+01CD..U+01DC. Every other character maps to itself, unlike full Unicode `toLowerCase`.
- `Text.Trim`: strings are sequences of Unicode scalar values, so characters outside the Basic Multilingual Plane count once. JavaScript counts them as two UTF-16 units, which would also give two stroke writers.
- `HanziWriters.GenerateHanziWriter`: `hanzis` is modelled as an optional string. Other falsy or non-string JavaScript values are not modelled.
- The caller's `onComplete` is modelled as a trace of its calls. What it does is outside this file.
