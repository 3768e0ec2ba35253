# Lotto number pages: birth form and personality quiz

This project models, in Dafny, the logic inside two pages of a lucky-number
web app. Each page turns user input into one text seed and sends it to an
external number generator. Then it shows the numbers or a recoverable error.

- The birth page (`BirthPage`, `birth.dfy`) has a form with a name, a year,
  a month and a day. `GenLottoNumber` runs the checks in a fixed order and
  stops at the first failure. The order is: name of at least 2 characters,
  then year, month and day each set and non-zero, then a birth date that is
  not in the future. It then builds the birth string `year-mm-dd` and the
  seed `name + birth`. `BirthForm` is the page state. Its methods are the
  input handlers, `reset`, and the handling of the generator's answer.
- The quiz page (`PsyTestPage`, `psy_test.dfy`) is a state machine over an
  ordered array of questions. `PsyQuiz` holds the `selected` answers as an
  `array<Option<string>>`, the cursor `questionId` and the `loading` flag.
  Its methods are previous/next/submit navigation, answering, reset, and the
  handling of the generator's answer. The seed (the "quote") joins every
  answer in array order.
- `Decimal` (`decimal.dfy`) holds the two number/text conversions the birth
  page relies on. One is printing an integer inside a template literal. The
  other is the unary `+` on the year field's text.
- `LottoTypes` (`lotto_types.dfy`) holds the shared values: `Option`,
  `Result`, the generator's `Response`, and the `LottoResult` union with its
  `BIRTH`/`PSY` tag.

The network call is asynchronous, so each page has two steps. The click
handler returns either a warning or the seed to send. A separate `Settle`
method applies the generator's answer later: the `then`/`catch`/`finally`
of the source. Between the two steps `loading` is visible to the other
handlers. The generator is a parameter (`Response`: `Ok(numbers)` or `Err`).
"Today" is a parameter (a year/month/day triple). `new Date("YYYY-MM-DD")`
is midnight UTC, so the page's `now < birthDateObj` holds exactly when the
birth day is after the current UTC date.

Behaviours of the code worth knowing, all modelled as written:
- The seed has no separator between the name and the year.
- The birth page has no in-flight guard. `loading` is never set to true there.
- Nothing discards a generator answer that arrives after a reset. `Settle`
  applies it whatever happened in between.
- A quiz answer counts as given when it is truthy. Nothing checks that it is
  one of the options; the model's invariant keeps that true because answers
  only come from the option buttons.
- Submission checks only the last question. The invariant "every question
  before the cursor is answered" is what makes this enough
  (`PsyQuiz.SubmitForm`, `SubmittedQuote`).

## Model

| member | source | states |
|---|---|---|
| `BirthPage.GenLottoNumber` | pages/gen/birth/index.tsx:58-67 | A name shorter than 2 characters is rejected first, whatever the other fields hold. Then the first unset or zero field among year, month and day is the one reported, in that order. Success carries the form's own name and the birth string of its fields. |
| `BirthPage.IsAfter` | pages/gen/birth/index.tsx:70 | The future test compares days: a day after another is a different day, in the same year or a later one. |
| `BirthPage.IsAfterOrder` | pages/gen/birth/index.tsx:70 | Day order is a strict total order. A day is never after itself, so a birth date of today passes. Of two different days exactly one is after the other. |
| `BirthPage.BirthRequest.Seed` | pages/gen/birth/index.tsx:75 | The seed is exactly the name followed by the birth string: the name is its prefix and the birth string the rest. |
| `BirthPage.Pad2` | pages/gen/birth/index.tsx:65-67 | A month or day from 0 on prints as at least two digits, and as exactly two up to 99. |
| `BirthPage.MonthDay` | pages/gen/birth/index.tsx:65-67 | For two-digit values, the part after the year is six characters, with dashes at the first and fourth place. |
| `BirthPage.BirthString` | pages/gen/birth/index.tsx:65-67 | For two-digit month and day, the birth string is six characters longer than the printed year. It starts with "-" exactly when the year is negative. |
| `BirthPage.ParseBirth` | pages/gen/birth/index.tsx:69 | A readable date text has at least 7 characters, with dashes 6 and 3 places from the end, and its month and day lie in 0..99. |
| `BirthPage.BirthIsFuture` | pages/gen/birth/index.tsx:68-72 | Only a readable date can be in the future: an unreadable one compares as NaN, and `now < NaN` is false. |
| `BirthPage.YearInputValue` | pages/gen/birth/index.tsx:124-126 | The stored year is 0 exactly when the text is NaN or the number 0. Blank text is stored as 0. |
| `BirthPage.Pad2Digits` | pages/gen/birth/index.tsx:65-67 | A padded month or day is exactly the two decimal digits of the value: one leading "0" below 10, and the value printed unchanged from 10 on. |
| `BirthPage.BirthStringLayout` | pages/gen/birth/index.tsx:65-67 | The birth string starts with the year printed without padding, followed by exactly six characters: dash, two month digits, dash, two day digits. |
| `BirthPage.BirthStringRoundTrip` | pages/gen/birth/index.tsx:65-69 | Reading the birth string back as a date (what `new Date(birth)` does) gives exactly the year, month and day that built it. |
| `BirthPage.FutureDateCheck` | pages/gen/birth/index.tsx:68-76 | For values the form can hold, the form is rejected as an invalid birth date exactly when (year, month, day) is after today; no request is built then. Otherwise the request carries the name and the birth string. |
| `BirthPage.SeedLayout` | pages/gen/birth/index.tsx:74-76 | The seed is the name immediately followed by the birth string, and the part after the name reads back as the form's date. |
| `BirthPage.SeedsCanCollide` | pages/gen/birth/index.tsx:74-76 | Because nothing separates name and year, two different accepted forms (a name ending in "1" with year y, and the shorter name with year 10 + y) send the same seed. |
| `BirthPage.ExampleBirthString` | pages/gen/birth/index.tsx:65-67 | 31 December 1999 prints as "1999-12-31". |
| `BirthPage.NonNumericYearRejected` | pages/gen/birth/index.tsx:123-127 | Year text that is not a number is stored as 0 and then reported as a missing year. |
| `BirthPage.TypedYearKept` | pages/gen/birth/index.tsx:123-127 | Typing the printed digits of a year stores exactly that year. |
| `BirthPage.BirthForm.constructor` | pages/gen/birth/index.tsx:44-51 | The form starts with an empty name, no year, month or day, `loading` false and no result. |
| `BirthPage.BirthForm.Reset` | pages/gen/birth/index.tsx:52-57 | Sets the name to "" and year, month and day to unset. `loading` and the result are left as they were. |
| `BirthPage.BirthForm.SetName` | pages/gen/birth/index.tsx:114 | Stores the typed name and nothing else. |
| `BirthPage.BirthForm.SetYear` | pages/gen/birth/index.tsx:123-127 | Stores the unary `+` of the typed text as the year, and 0 when that is NaN; nothing else changes. |
| `BirthPage.BirthForm.SetMonth` | pages/gen/birth/index.tsx:130-142 | Stores the chosen month (1..12) and nothing else. |
| `BirthPage.BirthForm.SetDate` | pages/gen/birth/index.tsx:143-155 | Stores the chosen day (1..31) and nothing else. |
| `BirthPage.BirthForm.GenLotto` | pages/gen/birth/index.tsx:58-76 | The click runs the checks on the fields as they are now. With every field set, the form is refused as a future date exactly when its day is after today. An accepted request's birth string reads back as the form's date. |
| `BirthPage.BirthForm.Settle` | pages/gen/birth/index.tsx:77-91 | On success the result has type BIRTH, the returned numbers, and the name and birth string of the request that built the seed, even if the form changed since. On failure the previous result stays and an error is shown. `loading` is false afterwards. |
| `Decimal.IntToString` | pages/gen/birth/index.tsx:65 | A printed integer is non-empty and ends in a digit. It starts with "-" exactly when the integer is negative, and with a digit otherwise. |
| `Decimal.IntToStringRoundTrip` | pages/gen/birth/index.tsx:65 | Every printed integer parses back to itself. |
| `Decimal.StringToNumber` | pages/gen/birth/index.tsx:124 | Blank text converts to 0. |
| `Decimal.StringToNumberOfIntToString` | pages/gen/birth/index.tsx:124 | The unary `+` of a printed integer gives that integer back. |
| `Decimal.PaddedIntegerText` | pages/gen/birth/index.tsx:124 | An integer literal with white space before and after it converts to its value. |
| `Decimal.NonLiteralIsNaN` | pages/gen/birth/index.tsx:124-125 | Text holding any character that is not a digit, a sign or white space converts to NaN. |
| `PsyTestPage.Truthy` | pages/gen/psychology-test/index.tsx:96-97 | An answer fails the `!selected` test exactly when it is missing or the empty text. The same test is at lines 156-157. |
| `PsyTestPage.Quote` | pages/gen/psychology-test/index.tsx:102-105 | The quote has at least one character for every question except those answered with the empty text. `QuoteAppend`, `QuoteOfAnswered` and `QuoteWithGap` give its content. |
| `PsyTestPage.QuoteAppend` | pages/gen/psychology-test/index.tsx:102-105 | The quote of two runs of questions is the first run's quote followed by the second's. |
| `PsyTestPage.QuoteOfAnswered` | pages/gen/psychology-test/index.tsx:102-105 | When every question is answered, the quote is the chosen values joined in array order with no separator, and no "undefined" piece appears. |
| `PsyTestPage.QuoteWithGap` | pages/gen/psychology-test/index.tsx:102-105 | An unanswered question contributes the text "undefined" at its own place in the quote. |
| `PsyTestPage.ExampleQuote` | pages/gen/psychology-test/index.tsx:102-105 | Answers A, B and C give the quote "ABC", and submitting them sends "ABC". |
| `PsyTestPage.SubmitStepAsWritten` | pages/gen/psychology-test/index.tsx:91-121 | As written, a click while `loading` sends nothing but leaves `loading` false. When not loading it behaves like `SubmitStep`. |
| `PsyTestPage.SecondRequestWhileInFlight` | pages/gen/psychology-test/index.tsx:91-121 | As written, three clicks on an answered last question send a second request while the first is still in flight. |
| `PsyTestPage.SubmitStep` | pages/gen/psychology-test/index.tsx:91-121 | A click while loading is ignored. A request is sent exactly when not loading and the last answer is truthy, and it carries the quote. `loading` afterwards is set exactly when a request is in flight, so the unanswered path ends with it false. |
| `PsyTestPage.SubmittedQuote` | pages/gen/psychology-test/index.tsx:95-108 | When every question before the last is answered and a request is sent, every question is answered and the seed is all the chosen values joined in order. |
| `PsyTestPage.PsyQuiz.constructor` | pages/gen/psychology-test/index.tsx:76-80 | The cursor starts on the first question's id, no question is answered, `loading` is false and there is no result. |
| `PsyTestPage.PsyQuiz.Prev` | pages/gen/psychology-test/index.tsx:130-141 | There is no button on the first question. While loading nothing changes. Otherwise the cursor moves back by exactly 1, whatever the answers are. |
| `PsyTestPage.PsyQuiz.Next` | pages/gen/psychology-test/index.tsx:152-167 | On a question other than the last: while loading nothing changes. When the shown question's answer is falsy, nothing changes and the user is asked to choose an answer. Otherwise the cursor moves forward by exactly 1. The invariant is kept. |
| `PsyTestPage.PsyQuiz.SubmitForm` | pages/gen/psychology-test/index.tsx:91-121 | On the last question the outcome and new `loading` follow the corrected `SubmitStep` (see Findings). A request carries every chosen value joined in order, with no "undefined" piece. |
| `PsyTestPage.PsyQuiz.Forward` | pages/gen/psychology-test/index.tsx:147-172 | On the last question the forward button submits, as `SubmitForm` does, and does not move the cursor. Elsewhere it acts as "next". |
| `PsyTestPage.PsyQuiz.Answer` | pages/gen/psychology-test/index.tsx:190-198 | Sets `selected` on the question whose id matches and on no other. The cursor stays. |
| `PsyTestPage.PsyQuiz.Reset` | pages/gen/psychology-test/index.tsx:177-184 | Removes every answer and puts the cursor back on the first question's id. `loading` and the result stay. |
| `PsyTestPage.PsyQuiz.Settle` | pages/gen/psychology-test/index.tsx:106-121 | On success the result has type PSY and the returned numbers. On failure the previous result stays and an error is shown. `loading` is false on every exit path. |

## Findings

| source | as written | input that shows it | evidently intended | confidence | as-written member | corrected member |
|---|---|---|---|---|---|---|
| pages/gen/psychology-test/index.tsx:91-121 | The busy check `if (loading) return;` sits inside the `try` whose `finally` runs `setLoading(false)`. | On an answered last question, click submit, then click again before the answer arrives. The button comes from `renderQuestionNav`, memoised on `[questionId, psyTest]` (line 175), so it runs a `submitForm` that sees `loading` as `false`: the second click already sends a second request. Reading the current `loading` instead, as the model does, the second click clears the flag and the third click sends the second request. | A click while loading changes nothing, so only one request is in flight at a time. | not executed; read from the control flow of `try`/`finally` | `PsyTestPage.SubmitStepAsWritten` | `PsyTestPage.SubmitStep` |

`PsyQuiz.SubmitForm` uses the corrected `SubmitStep`. `SecondRequestWhileInFlight`
shows the as-written sequence of clicks under the model's current-value reading.

## Left out

- Rendering: styled-components CSS, JSX, the `lottoResult ? result : form`
  switch, and `disabled` attributes. Also the hook wiring: `useCallback`,
  `useEffect` and the reset-on-unmount cleanup.
- PsyTestPage.PsyQuiz.SubmitForm: it follows the corrected `SubmitStep`. As
  written, a click while loading returns at line 93 inside the `try`, and the
  `finally` at lines 119-121 clears `loading`; `SubmitStepAsWritten` models that
  path. `PsyTestPage.PsyQuiz.Forward` inherits this.
- Stale closures. The navigation buttons are memoised on
  `[questionId, psyTest]`, so in the browser they may read an old `loading`.
  The model reads the current value.
- The fade animation on navigation: a Web Animations side effect.
- HTTP: the Axios GET, the URL, `encodeURIComponent`, the `passwd` header,
  and `LottoGenService.genNumbersByQuote` (not part of this model). The
  generator is the `Response` parameter.
- Promises: an answer arriving is the `Settle` call. The model does not
  capture how several in-flight answers to the birth page may be ordered.
- `alert`, `appMessage` and `console` calls. They are the returned tags
  `BirthWarning`, `NavOutcome`, `SubmitOutcome` and `Notice`.
- The question list `PsyTest` (its titles and options) is not part of this
  model. Question ids are taken to be consecutive from the first question's
  id, which the ±1 navigation needs to stay on a question. The source
  mutates that module-level list in place and shares it between mounts of
  the page; the model gives each `PsyQuiz` its own array.
- Option values are text. A numeric option whose value is 0 would be falsy
  in the source; the model treats only "" as falsy.
- `BirthPage.ParseBirth`: it reads any signed decimal year and does not check
  month or day ranges. `new Date` accepts four-digit years in this form and
  treats other years and days like 31 February in engine-specific ways.
  Today is a parameter: the page's comparison is with the current UTC date,
  since a date-only text is read as midnight UTC.
- `StringToNumber`: it models only decimal integer literals with an optional
  sign and surrounding white space. JavaScript's unary `+` also accepts
  fractions, exponents, hexadecimal, octal and binary literals and
  "Infinity"; the model turns those into NaN, and so into year 0. The model's
  numbers are exact, whereas JavaScript rounds integers above 2^53, so
  `TypedYearKept` does not hold there in the page.
- `IntToString`: it prints every digit. JavaScript prints numbers from 1e21
  on in exponent form, and non-integers are not modelled.
- `GenLottoNumber`: `name.length` counts UTF-16 code units; the model counts
  characters, which differs only for characters outside the Basic
  Multilingual Plane.
