# Survey client state machine

A model of the browser side of a one-page survey (`public/script.js`). The
page shows one question at a time; the respondent answers by clicking an
option or moving a slider, steps with "Next" and "Previous", and on the last
question "Finish Survey" sends the answer set to the server. Whatever the
server answers, the completion screen with the final score follows, and
"Restart" starts over.

The model has four modules:

- `Wrappers` (`wrappers.dfy`): `Option`, standing for JavaScript's NaN where
  a number is expected.
- `JsNumbers` (`js_numbers.dfy`): the two number conversions the script
  relies on. `ParseInt` is `parseInt(string)` with no radix argument (section
  19.2.5 of ECMA-262): leading white space, one sign, a `0x`/`0X` prefix for
  radix 16, the longest run of digits, NaN when there is none.
  `DecimalString` is `Number.prototype.toString()` on an integral number.
- `Survey` (`survey.dfy`): the values and the pure derivations over them. It
  holds the stored `Answer` (value and points), the score fold of
  `calculateScore` (`TotalPoints`), the controls `updateUI` derives
  (`ControlsFor`), and the answer set `submitSurvey` sends (`PayloadAnswers`).
  It also holds `Replay`, which rebuilds the answers from the interactions in
  order, as an independent reference for what `userAnswers` holds.
- `SurveySession` (`session.dfy`): the class `Session` with the closure's
  state (`currentQuestionIndex`, `score`, `userAnswers`, whether the
  completion screen is shown, the error notices on the page, the score shown
  on the completion screen). Its methods are the handlers. `Valid()` is the
  invariant every handler keeps:
  - the index lies within the questions;
  - only questions of the page are answered;
  - the answers are the replay of the interactions since the last restart;
  - the score is the fold of their points.

The server's reply is the parameter `storeOk` of `Submit` and `Next`.

## Model

| member | source | states |
|---|---|---|
| SurveySession.Session.constructor | public/script.js:16-19 | the session starts on the first question, with no answers, score 0, and the question screen shown without notices |
| SurveySession.Session.CalculateScore | public/script.js:59-61 | the score becomes the fold of the points of the stored answers |
| SurveySession.Session.Store | public/script.js:73 | storing an answer replaces that question's answer only, keeps the invariant, and moves the score by the new points minus the old |
| SurveySession.Session.SelectOption | public/script.js:67-82 | an option click stores its value with the parsed `data-points` for that question only; the score changes by the new points minus the replaced ones |
| SurveySession.Session.SliderInput | public/script.js:88-102 | a slider input stores the parsed value's decimal string worth twice that value for that question only; the score changes by the new points minus the replaced ones |
| SurveySession.Session.BuildPayload | public/script.js:109-117 | the answer set holds the current score and each answered question under its 1-based number with its value only |
| SurveySession.NumberAnswers | public/script.js:109-112 | the `for…in` loop that reads each key back with `parseInt` and adds 1 builds exactly `PayloadAnswers` |
| SurveySession.Session.ShowCompletionScreen | public/script.js:152-157 | the completion screen is shown with the current score |
| SurveySession.Session.Submit | public/script.js:107-147 | the answer set is sent; on either outcome the survey completes with the current score; a failure adds one notice, which can be seen, although the script as written leaves no notice in view; the answers and score are unchanged |
| SurveySession.Session.Next | public/script.js:161-169 | moves to the next question exactly when one exists; otherwise submits, and that happens exactly when the button reads "Finish Survey"; the index stays in bounds |
| SurveySession.Session.Previous | public/script.js:171-176 | steps back unless on the first question, and stays put exactly when "Previous" is disabled; the index stays in bounds |
| SurveySession.Session.Restart | public/script.js:178-195 | back to the initial state: first question, no answers, score 0, no notices, question screen shown |
| SurveySession.ThreeQuestionSurvey | public/script.js:161-169 | a choice, a slider and a choice answered in turn and finished send questions 1 to 3 with their values, and a score that is the sum of their points |
| SurveySession.AnswerTwoQuestions | public/script.js:67-102 | an option click and a slider input, each followed by "Next", leave both answers with their values and points, on the third question |
| SurveySession.AnswerThreeQuestions | public/script.js:67-82 | a further option click leaves all three answers, still on the last question |
| SurveySession.ThreeAnswersPayload | public/script.js:110-111 | three answered questions are sent as numbers 1, 2 and 3 with their values |
| SurveySession.ThreeAnswersTotal | public/script.js:60 | the score of three answered questions is the sum of their points |
| SurveySession.FailedFinish | public/script.js:142-157 | as written, finishing while the store fails leaves the notice out of sight; as intended, it is seen |
| SurveySession.DoubleFailedFinish | public/script.js:183-185 | as written, a restart after two failed submissions with no restart between leaves one notice on the question screen; as intended, none is left |
| Survey.ControlsFor | public/script.js:44-53 | "Previous" is disabled iff on the first question; "Next" is disabled iff the current question has no answer; the label is "Finish Survey" iff on the last question and "Next" otherwise; the counter reads within 1..total |
| Survey.ParsePoints | public/script.js:71 | a missing `data-points`, or one `parseInt` finds no numeral in, is worth 0; otherwise it is worth what `parseInt` reads |
| Survey.PointsAttribute | public/script.js:71 | a missing or non-numeric `data-points` is worth 0; the numeral of n, alone or followed by text that ends it, is worth n |
| Survey.SliderAnswer | public/script.js:91-98 | the points are NaN exactly when `parseInt` finds no numeral in the slider value, and the stored value is then "NaN"; otherwise the points are twice what `parseInt` read, and the stored value reads back as that number |
| Survey.SliderAtInteger | public/script.js:91-98 | a slider at v stores the decimal string of v worth 2·v, also when the value carries a fraction |
| Survey.TotalPoints | public/script.js:60 | with no answer among the questions the score is 0, the initial score of line 17; points all at least 0 add up to at least 0, points all at most 0 to at most 0 |
| Survey.TotalPointsIgnoresOthers | public/script.js:60 | the fold over the questions does not see an answer stored outside them |
| Survey.TotalPointsAfterStore | public/script.js:59-61 | after storing an answer the sum of points changes by the new points minus the replaced ones (NaN counted as 0) |
| Survey.ReplayKeys | public/script.js:73 | a question is answered iff some interaction since the last restart was with it |
| Survey.ReplayLatest | public/script.js:73 | each answered question holds the answer of its most recent interaction |
| Survey.ReplayAfterStore | public/script.js:98 | one more interaction overwrites its question's answer and nothing else |
| Survey.PayloadAnswers | public/script.js:109-112 | a question number is in the answer set iff the question before it (0-based) is answered, and carries that answer's value |
| Survey.PayloadAfterStore | public/script.js:110-111 | storing an answer for question k changes the answer set at number k+1 only |
| JsNumbers.ParseInt | public/script.js:69-71 | `parseInt` is NaN exactly when, after the leading white space and at most one sign, no decimal digit follows, or `0x`/`0X` is followed by no hexadecimal digit |
| JsNumbers.DecimalString | public/script.js:98 | `toString` writes at least one character, a minus sign exactly for a negative number, and decimal digits after it |
| JsNumbers.TrimStart | public/script.js:71 | `parseInt` drops exactly the leading white space |
| JsNumbers.DigitRun | public/script.js:91 | `parseInt` reads the longest prefix of digits |
| JsNumbers.NatDigits | public/script.js:98 | `toString` writes at least one digit, with no leading zero, and the digits denote the number |
| JsNumbers.DecimalRoundTrip | public/script.js:111 | `parseInt` reads back the key `toString` wrote: `parseInt(String(k)) == k` |
| JsNumbers.DecimalPrefixParses | public/script.js:91 | a numeral followed by text that is not a digit (a decimal point) reads as the numeral |
| JsNumbers.LeadingWhiteSpaceIgnored | public/script.js:71 | leading white space does not change what `parseInt` reads |
| JsNumbers.NonNumericIsNaN | public/script.js:71 | text that starts with neither white space, a sign nor a digit is NaN (an absent attribute reads as "undefined") |
| JsNumbers.HexNumeralParses | public/script.js:71 | `0x`/`0X` followed by hexadecimal digits reads in radix 16 |

## Left out

- The DOM work is not modelled. That covers toggling the active question, the progress bar width (a floating-point percentage), the score and counter text, the slider's value display, and marking the selected option. Only the state these derive from is modelled, and `ControlsFor` gives the navigation controls.
- `fetch`, `JSON.stringify`, the response body and `console` logging are not modelled. The store's outcome is the boolean `storeOk`.
- `Submit` runs to completion in one step. Interleaving of the asynchronous submission with further clicks is not modelled. `DoubleFailedFinish` plays a second "Finish Survey" click made while the first request is in flight as a second `Submit` right after the first; this gives the same end state when both requests fail.
- SurveySession.Session.constructor: a page with no questions is not modelled (`requires totalQuestions >= 1`). The script also runs there: `currentQuestionIndex` 0 points past the questions, the counter reads 1 of 0, the button reads "Next" rather than "Finish Survey", and `nextQuestion` would submit an empty answer set.
- The question index comes from the page's `data-question` attribute minus 1, and is taken as an integer within the questions (`requires 0 <= qi < total`). A page whose attributes fall outside that range is not modelled.
- An option without `data-value` (`value` undefined) is not modelled. Values are strings.
- Numbers are unbounded integers. Precision loss above 2^53, and the exponent form `toString` writes for very large numbers, are not modelled. Negative zero reads as zero.
- `Next` and `Previous` are not guarded against being called on the completion screen. The source has no such guard either; the navigation is only hidden there.
- The server (`server.js`) and the response schema (`models/surveyresponse.js`) are not part of this model.
- SurveySession.Session.Submit: the class models the evidently intended notice behaviour: the notice can be seen, and a restart removes all notices. The code as written is kept beside it: `Session.NoticeVisibleAsWritten` and `Survey.NoticesAfterRestartAsWritten`, used in the as-written members under "Findings".
- SurveySession.Session.Restart: restart leaves the score shown on the completion screen as it was. The source hides that screen without clearing its text.

## Findings

| source | as written | input that shows it | evidently intended | confidence | as-written member | corrected member |
|---|---|---|---|---|---|---|
| public/script.js:142 | the error notice is appended to the question container, which `showCompletionScreen` hides at line 153 right after | any submission whose store call fails | the notice can be seen together with the completion screen | not executed | SurveySession.FailedFinish | SurveySession.Session.Submit |
| public/script.js:184-185 | `querySelector` finds only the first `.connection-error`, so a restart removes one notice although the comment at line 183 says "Remove any error messages" | "Finish Survey" clicked twice before the first reply arrives, both stores fail, then "Restart": one notice stays on the question screen. One click at a time never leaves two notices, since each restart removes the one there is | restart removes every notice | not executed | SurveySession.DoubleFailedFinish | SurveySession.Session.Restart |
