# Career-assistant front end: the client-side logic of four pages

This project models the small amount of self-contained logic in four pages
of a Next.js career-assistant front end. Everything else on those pages
(scoring, matching, resume analysis) is done by a backend that is not part
of the repository.

- **Skill quiz** (`app/assess/page.tsx`, module `Quiz`, class
  `QuizSession`). Covers:
  - how each generated option string is split into a choice token and a
    text (the regular expression `^([A-D1-4][).]?)\s*(.*)` with its
    positional fallback);
  - the answer map, which is overwritten by question index and frozen once
    submitted;
  - the submit gate and the one-way `submitted` flag;
  - the two reset paths;
  - the local percentage score (`calculateScore`), a loop proved equal to
    the function `QuizScore`.
- **Mock interview** (`app/interview/page.tsx`, module `Interview`, class
  `InterviewSession`). Covers:
  - the navigator over `currentQuestionIndex`, `interviewStarted` and
    `interviewCompleted`, with "Next"/"Previous" described by the pure
    transition functions `Next`/`Prev` on a `Position`;
  - the per-question answers;
  - the two reset paths;
  - the case-insensitive colour lookups for difficulty and question type.
- **Job recommendations** (`app/plan/page.tsx`, module `Plan`). Covers:
  - parsing the comma-separated skills field
    (`split(',')` / `trim` / `filter`);
  - the four match-colour buckets and the growth-outlook icon;
  - the first-truthy fallback chains of a job's fields;
  - the digit-run salary estimate.
- **Resume analyser** (`app/resume-analyser/page.tsx`, module `Resume`,
  class `ResumeForm`). Covers:
  - the user id sent with every request;
  - the ordered checks of the Analyze, Enhance and Generate requests;
  - `cleanedData`;
  - the add/update/remove editors of the structured resume.

Two shared modules hold the JavaScript semantics these pages rely on:
- `JsText` models strings as UTF-16 code-unit sequences. It holds `trim`
  (ECMAScript white space and line terminators), ASCII `toLowerCase`, and
  the `a || b || fallback` idiom (`FirstTruthy`).
- `JsArray` holds `filter`, `splice(start, 1)` with its clamping of the
  start index, and the subsequence order relation.

Each network handler is split in two: a `Begin…` method (the state changes
before the `fetch`) and a `Finish…` method. `Finish…` takes the request's
outcome (`FetchOutcome`: the decoded reply or the error message) as a
parameter.

Behaviour of the pages worth knowing:
- **Punctuation after the marker is optional.** Any option starting with
  A–D or 1–4 counts as marked, so `"Apple"` yields token `A` and text
  `"pple"` (`Quiz.UnpunctuatedMarkerExample`).
- **The extracted option text** starts after the white space that follows
  the marker and stops at the first line terminator.
- **Positional letters continue past D** (index 4 gives `E`), because
  `String.fromCharCode(65 + i)` is used.
- **An empty question list scores NaN.** `calculateScore` returns 0 only
  when there is no result or no `questions` field. For an empty
  `questions` array it computes `Math.round(0 / 0 * 100)`, which is NaN.
  The score is shown only after a submit, and Submit is rendered only for
  a non-empty list, so NaN is never shown (`Quiz.QuizScore`).
- **Submission is local.** Submitting sets `submitted` and nothing else.
- **A thousands separator splits a salary.** `"$80,000 - $120,000"` is read
  as the digit runs 80, 000, 120, 000, so its estimate is 40
  (`Plan.ThousandsSeparatorExample`).

## Model

| member | source | states |
|---|---|---|
| JsText.FirstTruthy | app/plan/page.tsx:164 | `a \|\| b \|\| fallback`: the result is the first field that is present and truthy, or the fallback when none is |
| JsText.Trim | app/plan/page.tsx:22 | `s.trim()` is never longer than `s`; `TrimSpec` and `TrimRemovesOnlyWhiteSpace` say exactly which infix it keeps |
| JsText.TrimSpec | app/plan/page.tsx:22 | `trim` leaves the infix of the string that starts after its leading white space, and that infix neither starts nor ends with white space |
| JsText.TrimRemovesOnlyWhiteSpace | app/plan/page.tsx:22 | what `trim` removes at either end is white space only |
| JsText.BlankIffAllWhiteSpace | app/assess/page.tsx:125 | `!s.trim()` holds exactly when `s` consists of white space only (both directions) |
| JsText.TrimIdempotent | app/plan/page.tsx:22 | trimming a trimmed string changes nothing |
| JsText.ToLower | app/interview/page.tsx:85 | `toLowerCase` keeps the length, lowers each ASCII capital and leaves every other unit, so no ASCII capital remains |
| JsText.EqualsIgnoringCase | app/interview/page.tsx:85-90 | `switch (x?.toLowerCase())` matches a keyword only when `x` has the keyword's length |
| JsText.CaseOnlyDifference | app/interview/page.tsx:85 | two strings that differ only in letter case compare alike after `toLowerCase` |
| JsArray.Filter | app/plan/page.tsx:23 | `filter` keeps exactly the elements that pass the test, each as often as it occurs, and drops every other; never lengthens the list |
| JsArray.FilterIsSubsequence | app/plan/page.tsx:23 | the kept elements appear in their original order |
| JsArray.FilterIdempotent | app/resume-analyser/page.tsx:235 | filtering twice with the same test is filtering once |
| JsArray.FilterAllPass | app/resume-analyser/page.tsx:235 | a filter that every element passes returns the list unchanged |
| JsArray.SpliceStart | app/resume-analyser/page.tsx:306 | `splice`'s start index is clamped to the list, a negative start counting from the end; an in-range start is kept |
| JsArray.RemoveAt | app/resume-analyser/page.tsx:304-308 | `splice(i, 1)` on a copy removes exactly element `i`, shifting later elements down; a start past the end changes nothing |
| JsArray.RemoveUndoesAppend | app/resume-analyser/page.tsx:294-308 | removing at the position just appended restores the list |
| JsArray.RemoveAfterFirstKeepsOne | app/resume-analyser/page.tsx:640 | removing at a positive index keeps a non-empty list non-empty and keeps its first entry |
| Quiz.UpToLineBreak | app/assess/page.tsx:178 | `(.*)` captures a prefix without line terminators that stops at the first one |
| Quiz.PositionalToken | app/assess/page.tsx:187 | `String.fromCharCode(65 + optIndex)` is the letter `A + optIndex` until it wraps at 2^16; the first four positions get the marker letters A–D |
| Quiz.ExtractOption | app/assess/page.tsx:176-188 | the token is always one code unit: the marker itself when the option starts with A–D or 1–4 (the text is then shorter than the option), else `String.fromCharCode(65 + optIndex)` with the whole option as text |
| Quiz.RegexMatchDeterminesExtraction | app/assess/page.tsx:178-184 | whenever the regular expression matches, the option is marked, the token is group 1 with `)`/`.` removed and the text is group 2 |
| Quiz.MarkedOptionMatchesRegex | app/assess/page.tsx:178-184 | every marked option is matched, and its extracted token and text are those of the match |
| Quiz.MarkedOptionShape | app/assess/page.tsx:178-184 | marker, optional punctuation, white space and a one-line text extract as that marker and that text |
| Quiz.PositionalTokensContinuePastD | app/assess/page.tsx:185-188 | an unmarked option (e.g. `Python`) at index `i` below 26 gets the letter `65 + i`, so index 4 gives `E` |
| Quiz.MarkedOptionExample | app/assess/page.tsx:178-184 | `B) Paris` gives token `B` and text `Paris` at any position |
| Quiz.UnpunctuatedMarkerExample | app/assess/page.tsx:178-184 | `Apple` gives token `A` and text `pple` |
| Quiz.OptionsOf | app/assess/page.tsx:162 | `options \|\| choices \|\| []`: an array is truthy even when empty |
| Quiz.HighlightedAnswer | app/assess/page.tsx:163 | `correct \|\| answer \|\| ''`: an empty `correct` falls through to `answer` |
| Quiz.CountCorrect | app/assess/page.tsx:66-71 | at most `n` of the first `n` questions count as correct |
| Quiz.CountCorrectIsCardinality | app/assess/page.tsx:66-71 | the counter equals the number of indices whose answer equals `question.correct` |
| Quiz.ExtremeScores | app/assess/page.tsx:66-71 | all answers correct count `n`; none correct count 0 |
| Quiz.RoundHalfUp | app/assess/page.tsx:73 | `Math.round(num / den)` is the integer within one half of the ratio, a half rounding up |
| Quiz.QuizScore | app/assess/page.tsx:63-74 | `calculateScore()`: 0 without a result or `questions` field, NaN exactly for an empty list, otherwise a percentage between 0 and 100 |
| Quiz.ScoringIgnoresAnswerField | app/assess/page.tsx:68 | a question with only `answer` highlights that token but never scores it correct |
| Quiz.ScoreExample | app/assess/page.tsx:63-74 | answers A, B, A against correct A, B, B score 67 |
| Quiz.Indices | app/assess/page.tsx:255 | the rendered question indices 0..n-1, a set of size n |
| Quiz.KeyCountMeansAllAnswered | app/assess/page.tsx:255 | with keys drawn from 0..n-1, the key count equals n exactly when every question is answered |
| Quiz.QuizSession.constructor | app/assess/page.tsx:5-12 | empty skill and answers, not loading, no result, not submitted |
| Quiz.QuizSession.SetSkill | app/assess/page.tsx:5 | the skill field is replaced; the invariant holds |
| Quiz.QuizSession.GenerateEnabledIff | app/assess/page.tsx:125 | Generate is enabled exactly when not loading and the skill has a character that is not white space |
| Quiz.QuizSession.BeginGenerate | app/assess/page.tsx:16-21 | loading, no error, no result, no answers, not submitted; the skill is kept |
| Quiz.QuizSession.FinishGenerate | app/assess/page.tsx:42-49 | loading ends; the reply becomes the result, or the error message is shown with no result |
| Quiz.QuizSession.ClickOption | app/assess/page.tsx:52-57 | before submission the clicked option's token overwrites only that question's entry; after submission nothing changes; every answer stays a token of its question |
| Quiz.QuizSession.ClickSubmit | app/assess/page.tsx:59-61 | `submitted` becomes true exactly when the key count equals the question count, i.e. every question is answered |
| Quiz.QuizSession.TakeAnother | app/assess/page.tsx:273-277 | result and answers are cleared and `submitted` is false |
| Quiz.QuizSession.CalculateScore | app/assess/page.tsx:63-74 | the counting loop computes `QuizScore`: 0 without questions, NaN for none, otherwise round-half-up of 100·K/N, within 0..100 once submitted |
| Interview.NavigationStaysInRange | app/interview/page.tsx:70-82 | from a valid index, "Next" and "Previous" stay within 0..n-1, and "Previous" never completes |
| Interview.Next | app/interview/page.tsx:70-76 | "Next" moves one question forward exactly when the index is before the last; otherwise the index stays and the interview is completed |
| Interview.Prev | app/interview/page.tsx:78-82 | "Previous" moves one question back after the first, and otherwise changes nothing; completion is untouched |
| Interview.CompletesOnlyAtLast | app/interview/page.tsx:70-76 | "Next" completes exactly at the last index, leaving the index unchanged |
| Interview.NextAndPrevAreInverse | app/interview/page.tsx:70-82 | "Previous" undoes "Next" before the last question and "Next" undoes "Previous" after the first |
| Interview.CompletionAfterExactlyNPresses | app/interview/page.tsx:58-76 | from the start, presses 1..n-1 visit questions 1..n-1 and the n-th completes on the last question |
| Interview.DifficultyColorIgnoresCase | app/interview/page.tsx:84-91 | the difficulty colour ignores letter case |
| Interview.TypeColorIgnoresCase | app/interview/page.tsx:93-100 | the type colour ignores letter case |
| Interview.DifficultyColorOf | app/interview/page.tsx:84-91 | `getDifficultyColor` falls to grey exactly for a missing level or one that is none of easy/medium/hard in any case |
| Interview.TypeColorOf | app/interview/page.tsx:93-100 | `getTypeColor` falls to grey exactly for a missing type or one that is none of technical/behavioral/system design in any case |
| Interview.DisplayedType | app/interview/page.tsx:250 | `question.type \|\| 'technical'`: the question's own type when non-empty, otherwise `"technical"` |
| Interview.DisplayedDifficulty | app/interview/page.tsx:251 | `question.difficulty \|\| difficulty`: the question's level, else the chosen one |
| Interview.UntypedQuestionIsTechnical | app/interview/page.tsx:250 | a question without a type wears the blue technical badge |
| Interview.InterviewSession.constructor | app/interview/page.tsx:5-15 | empty form with level "intermediate", no result, not started |
| Interview.InterviewSession.SetFields | app/interview/page.tsx:6-8 | the three form fields are replaced; the invariant holds |
| Interview.InterviewSession.GenerateEnabledIff | app/interview/page.tsx:108-162 | Generate is usable exactly when the form is shown, nothing loads and domain and role are not all white space |
| Interview.InterviewSession.BeginGenerate | app/interview/page.tsx:19-26 | loading; error, result and answers cleared; not started, not completed, index 0 |
| Interview.InterviewSession.FinishGenerate | app/interview/page.tsx:48-55 | loading ends; the reply becomes the result, or the error message is shown |
| Interview.InterviewSession.StartInterview | app/interview/page.tsx:58-61 | started, at the first question, not completed |
| Interview.InterviewSession.AnswerChange | app/interview/page.tsx:63-68 | only the current question's answer is written |
| Interview.InterviewSession.NextQuestion | app/interview/page.tsx:70-76 | the position moves by `Next`; the index stays on a question |
| Interview.InterviewSession.PrevQuestion | app/interview/page.tsx:78-82 | the position moves by `Prev` |
| Interview.InterviewSession.PracticeAnother | app/interview/page.tsx:405-411 | result and answers cleared, not started, not completed, index 0 |
| Plan.Split | app/plan/page.tsx:21 | `split(',')` yields at least one piece, none containing the separator |
| Plan.JoinSplit | app/plan/page.tsx:21 | joining the pieces with the separator gives back the string |
| Plan.SplitJoin | app/plan/page.tsx:21 | splitting a join of separator-free pieces gives back the pieces |
| Plan.ParseSkills | app/plan/page.tsx:21-23 | every parsed skill is non-empty, has no white space at either end and no comma |
| Plan.TrimmedCharsComeFromInput | app/plan/page.tsx:22 | every character of a trimmed piece was in the piece |
| Plan.ParsedSkillsKeepOrder | app/plan/page.tsx:21-23 | the skills are the non-empty trimmed pieces in typed order, each as often as it was typed; only empty pieces are dropped |
| Plan.NoSkillsIffOnlySeparators | app/plan/page.tsx:21-23 | the list is empty exactly when the field holds only commas and white space |
| Plan.SeparatorsOnlyPassGuard | app/plan/page.tsx:133 | a field of commas and white space with a comma enables Find Jobs yet sends no skills |
| Plan.MatchColorMonotone | app/plan/page.tsx:55-60 | a higher match never gets a worse colour |
| Plan.MatchColorOf | app/plan/page.tsx:55-60 | each of the four colours is chosen exactly for its band: ≥80, [60,80), [40,60), <40 |
| Plan.GrowthIconIgnoresCase | app/plan/page.tsx:62-75 | the outlook icon ignores letter case |
| Plan.GrowthIconOf | app/plan/page.tsx:62-75 | the default icon is chosen exactly for a missing outlook or one that is none of strong/high/moderate/low in any case |
| Plan.MatchPercent | app/plan/page.tsx:164 | `match_percent \|\| match_score \|\| score \|\| 0`: the first non-zero field in that order, else 0 |
| Plan.ExplicitZeroFallsThrough | app/plan/page.tsx:164 | a `match_percent` of 0 falls through exactly as a missing one |
| Plan.Outlook | app/plan/page.tsx:168 | `growth_outlook \|\| outlook \|\| 'moderate'`: the first non-empty field in that order, else `"moderate"` |
| Plan.MissingOutlookShowsModerate | app/plan/page.tsx:168 | a job without an outlook gets the "moderate" icon |
| Plan.LeadingDigits | app/plan/page.tsx:289 | the longest all-digit prefix |
| Plan.DigitRuns | app/plan/page.tsx:289 | `match(/\d+/g)` yields non-empty all-digit runs; `DigitRunsOfRun`, `DigitRunsSplit` and `DigitRunsSkipNonDigits` fix the runs of every string |
| Plan.DigitRunsOfRun | app/plan/page.tsx:289 | a string of digits alone is one run |
| Plan.DigitRunsSplit | app/plan/page.tsx:289 | a non-digit separates runs: the runs of `a + c + b` are those of `a` followed by those of `b` |
| Plan.DigitRunsSkipNonDigits | app/plan/page.tsx:289 | leading non-digits add no run |
| Plan.DecimalValue | app/plan/page.tsx:290 | `parseInt` of one digit is its value, and a leading zero does not change the value |
| Plan.DecimalRoundTrip | app/plan/page.tsx:290 | `parseInt` reads a numeral back as its number |
| Plan.SalaryMidpoint | app/plan/page.tsx:289-290 | never negative: 0 without runs, half of the only run, otherwise the mean of the first two runs |
| Plan.SalaryFromFirstTwoRuns | app/plan/page.tsx:289-290 | any text with two runs of digits is estimated at their mean, whatever precedes, separates and follows them |
| Plan.SalaryFromOnlyRun | app/plan/page.tsx:289-290 | text with exactly one run of digits is estimated at half of it |
| Plan.ThousandsSeparatorExample | app/plan/page.tsx:289-290 | `"$80,000 - $120,000"` is estimated at 40 |
| Plan.RangeMidpoint | app/plan/page.tsx:288-290 | `a-b` (any non-digit between) is estimated at (a + b) / 2 |
| Plan.SingleNumberHalved | app/plan/page.tsx:289-290 | a single number counts as a range from it to 0 |
| Plan.NoDigitsGivesZero | app/plan/page.tsx:289 | a salary text without digits gives 0 |
| Plan.SalaryText | app/plan/page.tsx:288 | `job.salary_range_usd \|\| job.salary \|\| '0-0'`: the range field when non-empty, else the salary field when non-empty, else `0-0` |
| Plan.SalaryEstimate | app/plan/page.tsx:288-290 | the per-job estimate is the midpoint of `salary_range_usd` when non-empty, else of `salary` when non-empty, else 0 (the midpoint of `'0-0'`); never negative |
| Resume.GetUserId | app/resume-analyser/page.tsx:27-30 | there is an id exactly when there is a user |
| Resume.UserIdPriority | app/resume-analyser/page.tsx:28 | username first, then primary e-mail, then the account id |
| Resume.IdentifiedIffSomeField | app/resume-analyser/page.tsx:27-30 | the id is truthy exactly when there is a user with a non-empty username, e-mail or id |
| Resume.ValidateTextRequest | app/resume-analyser/page.tsx:108-121 | a request passes only when signed in, and then sends the user id, which is non-empty |
| Resume.TextRequestChecksInOrder | app/resume-analyser/page.tsx:108-121 | signed in, then resume text and role non-blank, then a user id: each failure exactly when the earlier checks passed; a pass sends the id |
| Resume.EnabledTextRequestFailsOnlyOnUser | app/resume-analyser/page.tsx:941 | through the enabled button only the user-id check can fail |
| Resume.CleanHighlights | app/resume-analyser/page.tsx:229-232 | an experience keeps its fields and exactly its non-blank highlights, each as often as it occurs and in order |
| Resume.CleanedData | app/resume-analyser/page.tsx:225-238 | `cleanedData` keeps the personal details, role and summary and never lengthens a list |
| Resume.CleanedDataSpec | app/resume-analyser/page.tsx:226-233 | only the four lists change; every experience entry with a title or company appears cleaned of blank highlights, and every cleaned entry is such an input entry with its blank highlights dropped; nothing is trimmed (multiplicities and order: `CleaningKeepsOrder`) |
| Resume.CleanedListsSpec | app/resume-analyser/page.tsx:234-237 | education with a degree or institution and non-blank skills and certifications are kept, each as often as it occurs, and nothing else |
| Resume.CleaningKeepsOrder | app/resume-analyser/page.tsx:226-238 | every cleaned list keeps the original order; cleaned experience `i` is kept entry `i` with its highlights cleaned, each kept entry as often as it occurs |
| Resume.CleaningIdempotent | app/resume-analyser/page.tsx:226-238 | cleaning a cleaned resume changes nothing |
| Resume.ValidateGenerate | app/resume-analyser/page.tsx:203-223 | a request passes only when signed in, and then carries the user id, which is non-empty |
| Resume.GenerateChecksInOrder | app/resume-analyser/page.tsx:203-238 | signed in, role, user id, then name and e-mail: each failure exactly when the earlier checks passed; a pass sends the id and the cleaned resume |
| Resume.EnabledGenerateFailsOnlyOnUser | app/resume-analyser/page.tsx:850 | through the enabled button only the user-id check can fail |
| Resume.PassedGenerateHasRequiredFields | app/resume-analyser/page.tsx:203-238 | a request that passes carries a non-blank role, name and e-mail |
| Resume.PersonalSet | app/resume-analyser/page.tsx:270-278 | writes the named field and leaves the others |
| Resume.ExperienceSet | app/resume-analyser/page.tsx:280-284 | writes the named field and leaves the others and the highlights |
| Resume.EducationSet | app/resume-analyser/page.tsx:324-328 | writes the named field and leaves the others |
| Resume.FieldWritesRoundTrip | app/resume-analyser/page.tsx:270-328 | writing back the value read changes nothing |
| Resume.ResumeForm.constructor | app/resume-analyser/page.tsx:35-62 | every list starts with one empty entry |
| Resume.ResumeForm.SetTextFields | app/resume-analyser/page.tsx:20-21 | resume text and role are replaced |
| Resume.ResumeForm.BeginTextRequest | app/resume-analyser/page.tsx:107-125 | the first failing check sets its message and sends nothing; otherwise loading starts and the id is sent |
| Resume.ResumeForm.BeginGenerate | app/resume-analyser/page.tsx:203-242 | the first failing check sets its message; otherwise the cleaned resume is sent and the form is unchanged |
| Resume.ResumeForm.FinishRequest | app/resume-analyser/page.tsx:144-151 | loading ends; the reply is shown, or the error message, or the request's default message when it is empty |
| Resume.ResumeForm.SetRoleAndSummary | app/resume-analyser/page.tsx:615-626 | only the role and summary change |
| Resume.ResumeForm.UpdatePersonalInfo | app/resume-analyser/page.tsx:270-278 | only the one personal field changes |
| Resume.ResumeForm.UpdateExperience | app/resume-analyser/page.tsx:280-284 | only the addressed entry's field changes; the list keeps its length |
| Resume.ResumeForm.UpdateExperienceHighlight | app/resume-analyser/page.tsx:286-292 | only the addressed highlight changes |
| Resume.ResumeForm.AddExperience | app/resume-analyser/page.tsx:294-302 | one empty entry with one empty highlight is appended |
| Resume.ResumeForm.RemoveExperience | app/resume-analyser/page.tsx:304-308 | the entry at the index is removed; the list stays non-empty |
| Resume.ResumeForm.AddExperienceHighlight | app/resume-analyser/page.tsx:310-314 | one empty highlight is appended to the addressed entry |
| Resume.ResumeForm.RemoveExperienceHighlight | app/resume-analyser/page.tsx:316-322 | the highlight at the index is removed; the entry keeps one |
| Resume.ResumeForm.UpdateEducation | app/resume-analyser/page.tsx:324-328 | only the addressed entry's field changes |
| Resume.ResumeForm.AddEducation | app/resume-analyser/page.tsx:330-338 | one empty entry is appended |
| Resume.ResumeForm.RemoveEducation | app/resume-analyser/page.tsx:340-344 | the entry at the index is removed; the list stays non-empty |
| Resume.ResumeForm.AddSkill | app/resume-analyser/page.tsx:346-351 | one empty skill is appended |
| Resume.ResumeForm.UpdateSkill | app/resume-analyser/page.tsx:353-357 | only the addressed skill changes |
| Resume.ResumeForm.RemoveSkill | app/resume-analyser/page.tsx:359-363 | the skill at the index is removed; the list stays non-empty |
| Resume.ResumeForm.AddCertification | app/resume-analyser/page.tsx:365-370 | one empty certification is appended |
| Resume.ResumeForm.UpdateCertification | app/resume-analyser/page.tsx:372-376 | only the addressed certification changes |
| Resume.ResumeForm.RemoveCertification | app/resume-analyser/page.tsx:378-382 | the certification at the index is removed; the list stays non-empty |

## Left out

- Network requests: the `fetch` calls, JSON decoding and the HTTP status check. Each becomes a `FetchOutcome` parameter of a `Finish…` method, which holds either the decoded reply or the message of the error the `catch` receives.
- Authentication and routing: the Clerk `useUser` hook, `isLoaded` and the route guard. Being signed in is a boolean parameter, and the user a `User` value.
- Request payloads: their fields (`num_questions`, the chosen difficulty, `resume_text`) are not modelled beyond the user id and the cleaned resume of `handleGenerate`.
- The plan page's own loading, error and result state around its request, which is the same pattern as the quiz page.
- Browser and timer effects: clipboard copy, `document.execCommand` and `setTimeout` on the resume page.
- Rendering: JSX markup, CSS classes other than the colour lookups, and the progress-bar width.
- Display-only fallbacks: the question text, title, skills and explanation, and the salary text shown per job.
- The active tab of the resume page.
- Display aggregates: the average match score and average salary over all jobs, which use floating-point `reduce`, `Math.round` and `toLocaleString`.
- Quiz.QuizScore: rounds the exact ratio 100·K/N half up; IEEE-754 evaluation of `(K / N) * 100` is not modelled.
- Quiz.QuizScore: a JSON `correct: null` and a missing `correct` are both `None`. An unanswered question with `correct: null` therefore counts as correct here, while the page's `undefined === null` is false. Submit needs every question answered, so a shown score is not affected.
- Plan.MatchColorOf: JSON numbers are modelled as exact reals. There is no NaN and no coercion of strings.
- Plan.DecimalValue: `parseInt` is modelled as exact, with no loss of precision for very long digit runs.
- JsText.ToLower: only ASCII letters are lowered. For the all-lower-case ASCII keywords compared here, none of which contains `k`, this decides equality exactly as the full Unicode mapping would.
- JsText.Lit: string literals are converted one character to one code unit. A character outside the Basic Multilingual Plane would become U+FFFD, but no literal of these pages contains one.
- Resume.ResumeForm.AddExperienceHighlight: the page changes an experience object that the old state shares with the new copy. `addExperienceHighlight` pushes onto its highlights array, and `updateExperienceHighlight` and `removeExperienceHighlight` assign its `highlights`. The model works on values (also in `Resume.ResumeForm.UpdateExperienceHighlight` and `Resume.ResumeForm.RemoveExperienceHighlight`), so this aliasing of the previous state is not captured.
- Interview.Next: questions are counted only while the result is displayed (`status === "ok"` with a `questions` field). The in-progress view requires that anyway.
