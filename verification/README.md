# kuis-yumna learning-module player, modelled in Dafny

The player in `script.js` walks a learner through a catalogue of materials.
Each material has a YouTube video and a multiple-choice quiz. Progress is kept
in browser cookies, one per material and fact:

- `material_<id>_video_completed`
- `material_<id>_quiz_completed`
- `material_<id>_quiz_answers`
- `material_<id>_quiz_score`

The player also keeps `last_material_id`. This project models the parts of
the player that read and write that progress:

- the cookie reader and its loop;
- the cookie names;
- the choice of the initial material;
- the decision made when a material loads: results, quiz form or video alone;
- the end-of-playback event;
- the previous-score banner;
- answer collection, scoring and rounding, the stored score and the review;
- retake, and switching material;
- five of the six session globals (all but `player`);
- which material the submit and retake buttons are bound to.

Modules, one file each:

- `Options` (`options.dfy`): the `Option` type.
- `Cookies` (`cookies.dfy`): the cookie jar as a map from name to value, and
  `getCookie` over the `document.cookie` string. The lemma
  `CookieStringReflectsJar` proves that reading a name from the string a
  browser renders for a jar gives the jar's own value. The rendered form is
  `name=value` pairs joined by "; ", as in section 5.4 of RFC 6265. Because
  of that lemma, the rest of the model reads cookies by map lookup.
- `MaterialKeys` (`keys.dfy`): `getMaterialCookieName` and the proof that
  distinct materials or fields never share a cookie.
- `Catalog` (`catalog.dfy`): materials, `materials.find` and the initial
  choice in `loadMaterials`.
- `Decimal` (`decimal.dfy`): `Number.prototype.toString` and the `parseInt`
  read-back, for non-negative integers.
- `Quiz` (`quiz.dfy`): answer collection, the correct-answer count,
  `Math.round` of the percentage, the score text and the review.
- `AnswersJson` (`answers_json.dfy`): `JSON.stringify` of an answer list, and
  `JSON.parse` of that canonical form.
- `Progress` (`progress.dfy`): the pure store transitions and views, and the
  `Session` class. The class holds the module-level variables, the jar
  and the two button bindings. Its methods change them in place, as the
  script's functions do. A press of the submit or retake button is a
  method that acts on the material the button is bound to.

## Model

| member | source | states |
|---|---|---|
| `Cookies.Split` | script.js:18 | `split(';')` yields at least one piece and no piece holds `;`. Joining the pieces with `;` gives back the cookie string. |
| `Cookies.SplitOfJoin` | script.js:18 | Splitting a `;`-join of pieces free of `;` gives back those pieces, so split and join are inverses. |
| `Cookies.TrimLeadingSpaces` | script.js:21 | The stripped entry does not begin with a space and holds only characters of the entry. |
| `Cookies.TrimLeadingSpacesStrips` | script.js:21 | The inner loop removes exactly the leading spaces: what remains is a suffix of the entry, and only spaces precede it. |
| `Cookies.MatchIndex` | script.js:19-23 | Returns the first entry that starts with `name=`, or reports that no entry does. |
| `Cookies.PrefixIffSameName` | script.js:22 | For a well-formed entry, `indexOf(name + '=') === 0` holds exactly when the entry's cookie is named `name`. |
| `Cookies.CookieValue` | script.js:16-25 | The value found never contains `;`. |
| `Cookies.GetCookie` | script.js:16-25 | The loop with its inner space-stripping loop returns exactly `CookieValue`: the rest of the first entry starting with `name=`, or `null`. |
| `Cookies.CookieStringReflectsJar` | script.js:16-25 | In the cookie string rendered from a jar of well-formed cookies, getCookie finds exactly the jar's value for a name, and `null` when the jar has none. |
| `Cookies.SetCookie` | script.js:10-14 | The cookie then holds the value, and every other cookie is unchanged. |
| `Cookies.DeleteCookie` | script.js:27-29 | The cookie is then absent, and every other cookie is unchanged. |
| `MaterialKeys.KeyInjective` | script.js:32-34 | Two equal `material_<id>_<suffix>` names have the same material id and the same field. |
| `MaterialKeys.LastMaterialKeyIsNoMaterialKey` | script.js:137 | `last_material_id` is never a material's progress cookie. |
| `Catalog.FindIndex` | script.js:76 | Returns the first position holding the id, or reports that no material carries it. |
| `Catalog.Find` | script.js:134 | `materials.find` returns the first material that carries the id, and fails only when none does. |
| `Catalog.ResolveInitial` | script.js:63-80 | See the list under this table. |
| `Decimal.NatToString` | script.js:415 | The decimal text of a number is non-empty and all digits. |
| `Decimal.DigitsValueOfNatToString` | script.js:294 | Parsing the stored score text back (`parseInt`) gives the score. |
| `Quiz.CollectAnswers` | script.js:357-368 | The collection loop yields one entry per question: the checked letter, or `null`. `allAnswered` holds exactly when no entry is `null`. |
| `Quiz.CorrectIn` | script.js:402-409 | Among the first `n` answers, at most `n` are correct. |
| `Quiz.CountCorrect` | script.js:402-409 | The counting loop returns the number of answers that equal the answer key at their index. |
| `Quiz.AllCorrectIff` | script.js:405-409 | The count equals the number of answers exactly when every answer matches its key letter. |
| `Quiz.NoneCorrectIff` | script.js:405-409 | The count is zero exactly when no answer matches its key letter. |
| `Quiz.Percent` | script.js:411 | `Math.round(correct / total * 100)`: the result lies within one half of `100 * correct / total`, and halves round up. |
| `Quiz.PercentBounds` | script.js:411 | The score is at most 100. It is 100 when all answers are correct and 0 when none is. |
| `Quiz.ScoreOfCompleteAnswers` | script.js:402-415 | See the list under this table. |
| `Quiz.OptionOfLetter` | script.js:324-333 | The letter a radio button carries for option `j` names option `j` again in the review's option lookup. |
| `Quiz.Review` | script.js:443-470 | The review has one item per question. It exists exactly when the answer key is at least as long as the question list; otherwise `charCodeAt` of `undefined` throws. |
| `Quiz.ReviewAgreesWithScore` | script.js:443-470 | See the list under this table. |
| `AnswersJson.Token` | script.js:377 | One stringified answer is 3 or 4 characters, without `;` or `,`. |
| `AnswersJson.Elements` | script.js:377 | The element list holds no `;`, and it is empty exactly for no answers. |
| `AnswersJson.Stringify` | script.js:377 | The stored answers text is non-empty, so it is truthy, and holds no `;`, so it survives the cookie string. |
| `AnswersJson.ParseStringify` | script.js:208 | `JSON.parse(JSON.stringify(answers))` gives the answers back. |
| `Progress.FieldsApart` | script.js:32-34 | The four progress cookies of one material are four different cookies. |
| `Progress.StageOrder` | script.js:193-222 | See the list under this table. |
| `Progress.SubmitWrites` | script.js:376-378 | See the list under this table. |
| `Progress.SubmitThenReload` | script.js:193-212 | See the list under this table. |
| `Progress.RetakeKeepsScore` | script.js:525-527 | See the list under this table. |
| `Progress.SubmitRetakeReload` | script.js:292-295 | After submit, retake and reload with the video watched, the quiz form shows the submitted answers' score as the previous score. |
| `Progress.EndedRecordsVideo` | script.js:270-277 | After end of playback the material no longer loads as video-only. Recording it again changes nothing, and no other cookie changes. |
| `Progress.SwitchKeepsProgress` | script.js:136-137 | Writing `last_material_id` leaves every material's progress cookies, and so its stage, unchanged. |
| `Progress.LoadIsStable` | script.js:193-212 | Loading a material writes nothing but its score and leaves its stage unchanged. Loading it again writes the same. |
| `Progress.Session.constructor` | script.js:2-7 | The start state: no materials, no current material, both flags false, both buttons unbound, and the browser's cookies. |
| `Progress.Session.LoadMaterials` | script.js:58-90 | An empty catalogue stops with nothing else changed. Otherwise the material `ResolveInitial` picks becomes current and is loaded. |
| `Progress.Session.LoadMaterial` | script.js:156-226 | See the list under this table. |
| `Progress.Session.OnPlayerStateChange` | script.js:270-277 | See the list under this table. |
| `Progress.Session.DisplayResults` | script.js:395-499 | The rounded score of the answers is stored under `quiz_score` and `quizSubmitted` is set. The view is that score with the review, whose retake button is bound to the material. When the review throws, the view is the failure and the retake binding is unchanged. |
| `Progress.Session.SubmitQuiz` | script.js:350-392 | See the list under this table. |
| `Progress.Session.RetakeQuiz` | script.js:518-559 | A press of the retake button. For the material it is bound to, deletes exactly `quiz_completed` and `quiz_answers` and keeps `quiz_score`. Clears the results and `quizSubmitted`, and shows the empty form without the banner. The submit button keeps its binding. With no results shown, nothing happens. |
| `Progress.Session.RetakeQuizRebinding` | script.js:518-559 | The corrected retake handler: as `RetakeQuiz`, and the submit button is then bound to the material being retaken. |
| `Progress.SubmitAfterRetakeGoesAstray` | script.js:300-302 | With the quiz form of M0 shown, switching to M1 whose quiz is completed, retaking, answering and submitting stores the answers under M0's cookies. M1, the material on screen, is left without a completed quiz. |
| `Progress.SubmitAfterRebindingRetake` | script.js:526-527 | With the corrected retake handler, the same presses store the answers under M1's cookies and change no progress cookie of M0. |
| `Progress.Session.SwitchMaterial` | script.js:115-153 | See the list under this table. |

Rows whose contract has several parts:

- `Catalog.ResolveInitial`:
  - An empty catalogue gives no choice.
  - A URL id that a material carries picks the first material with that id.
  - A URL id that no material carries falls back to the first material. The cookie is not tried.
  - With no URL id, a listed `last_material_id` picks its material, and an unlisted one picks the first.
  - With neither id, the first material is picked.
- `Quiz.ScoreOfCompleteAnswers`, for one answer per question and at least one question:
  - The stored score text is all digits.
  - Its value is the rounded percentage, at most 100.
  - The text is "100" when all answers match and "0" when none does.
- `Quiz.ReviewAgreesWithScore`, for one answer per question:
  - The review marks as many questions correct as displayResults counted.
  - Each item shows the answer given.
  - An item is marked correct exactly when the answer equals its key letter.
- `Progress.StageOrder`:
  - Results (or their failure) come exactly when `quiz_completed` is 'true' and saved answers are present.
  - Otherwise the quiz form comes exactly when `video_completed` is 'true'.
  - Otherwise the video shows alone.
- `Progress.SubmitWrites`:
  - A submit stores the stringified answers, `quiz_completed = 'true'` and the score.
  - No other cookie changes.
- `Progress.SubmitThenReload`:
  - After a submit, the material reloads as completed with exactly the submitted answers.
  - It shows the same results the submit showed.
  - The score it rewrites is the one already stored.
- `Progress.RetakeKeepsScore`:
  - Retake deletes exactly `quiz_completed` and `quiz_answers`. The score survives.
  - The material goes back to the quiz form when its video was watched, and to the video alone otherwise.
  - The form shows the kept score when it is truthy.
- `Progress.Session.LoadMaterial`:
  - The view is results, results failure, quiz form or video alone, as `StageOf` decides on the cookies read before the callback.
  - `videoCompleted` is set unless the video is pending.
  - `quizSubmitted` is set when the results are redisplayed.
  - Only the score is rewritten.
  - The results are cleared first. Results shown in full bind the retake button to the material.
  - The submit button is bound to the material only when the quiz form is shown; otherwise it keeps its binding.
- `Progress.Session.OnPlayerStateChange`:
  - Only the first ENDED event records `video_completed` for the current material, shows the form and binds the submit button to that material.
  - Any other event changes nothing.
- `Progress.Session.SubmitQuiz` (a press of the submit button):
  - An unbound button does nothing.
  - Otherwise the press acts on the material the button is bound to. An unanswered question of that material changes nothing.
  - Otherwise the answers, `quiz_completed` and the score are stored under that material, and its results view is returned.
- `Progress.Session.SwitchMaterial`:
  - Switching to the current id changes nothing.
  - Otherwise the id becomes current and is written to `last_material_id`, and both flags reset.
  - When a material carries the id, it is loaded, with the button bindings `LoadMaterial` gives.

## Left out

- Rendering is not modelled: the DOM, the header, the sidebar and its completion ticks (lines 93-112), the status icon, scrolling and closing the sidebar. The model keeps only what the quiz section shows (`View`).
- `showPreviousScore` is not modelled (lines 503-515). It inserts the banner only when no banner is on the page, so a banner may stay on the page after a switch. The model says only whether the banner is requested, and keeps the raw cookie text as its value. The page shows `parseInt` of that text, which is NaN for the texts "NaN" and "Infinity".
- The YouTube player is not modelled: its creation and destruction, and the loading of the IFrame API. The ready callback is taken to run right after `loadMaterial` reads the cookies, and a callback from a replaced player is not modelled.
- Fetching `materials.json` and a failed fetch are not modelled. `Session.LoadMaterials` receives the parsed catalogue.
- `history.pushState`, the URL query and `innerWidth` are not modelled. The URL `id` parameter is an input.
- Cookie expiry and `path` are not modelled. A written cookie is present and a deleted cookie is absent.
- Browser normalisation of a cookie value is not modelled, for example truncation at `;`. The stored values contain no `;`.
- Material ids that contain spaces, `;` or `=` make the cookie string ambiguous. `CookieStringReflectsJar` assumes well-formed names.
- `AnswersJson.ParseAnswers` accepts only the canonical output of `JSON.stringify`: whitespace and other spellings that `JSON.parse` accepts are rejected (`AnswersCorrupt`), and so are entries other than single letters A-E or `null`.
- Questions with more than five options are not modelled. Their extra radio buttons carry the value "undefined". Answers are the letters A-E.
- Each answer-key entry is modelled as a single character. A longer string entry never matches an answer, which the model does not distinguish.
- Floating point is not modelled: `Quiz.Percent` is the exact round-half-up of the rational `100 * correct / total`. In double precision, `(23 / 40) * 100` falls just below 57.5, so for 23 of 40 correct the program stores 57 and the model stores 58. With no questions, the division gives the texts "NaN" or "Infinity", and the model writes those texts.
- An exception thrown while the review renders (an answer key shorter than the questions) becomes the view `ResultsUnavailable`. The score has already been stored and `quizSubmitted` set. No results appear. On the load path the form was hidden before (lines 203-205). After a submit, the lines that hide the form (lines 387-388 and 491-493) do not run, so the filled form stays on screen. The model does not record which of the two the page shows.
- Whether a button is visible is not modelled. A press of the submit or retake button is modelled whenever the button is bound, even where the page hides it. Regenerating the form's radio buttons (`generateQuiz`) is not modelled; `checked` stands for the radios checked at the press.
- `main.py`, the static file server, is not part of this model.

## Findings

| source | as written | input that shows it | evidently intended | confidence | as-written member | corrected member |
|---|---|---|---|---|---|---|
| script.js:518-559 | `retakeQuiz` shows a fresh form for the material it retakes, but the submit button keeps the binding `showQuizSection` last gave it (line 302). | Show the quiz form of M0, switch to M1 whose quiz is completed, retake, answer and submit. The answers are scored for M0 and stored under `material_M0_*`, and M1 stays incomplete. If no form was shown before, the press does nothing. | The submit button acts on the material being retaken. | not executed; high | `Progress.SubmitAfterRetakeGoesAstray` | `Progress.Session.RetakeQuizRebinding` |

`Progress.Session.RetakeQuiz` keeps the program's behaviour, so the session
models the script as it is. `Progress.SubmitAfterRebindingRetake` proves the
same presses correct with `RetakeQuizRebinding`.
