# Career Spark front-end state and user context, modelled in Dafny

This project models the client-side state handling of five pages and components of the
Career Spark career-guidance app, plus the backend's in-memory user context:

- **Mock interview** (`interview.dfy`, module `Interview`). A `setup -> chat -> feedback` page machine with an append-only transcript of interviewer and candidate messages. It also models:
  - the speech-capture staging buffer and the listening flag;
  - the current style feedback;
  - the scan that turns the transcript into question/answer pairs for the final report.
- **Profile wizard** (`wizard.dfy`, module `Wizard`). Four form steps with a per-step required-field check that stores its error list, and a step counter that moves forward only on a complete step. The form becomes the insights payload: comma lists are parsed, the name defaults to "User" and the age goes through `parseInt(age) || 18`.
- **Skill assessment** (`assessment.dfy`, module `Assessment`). A `setup -> quiz -> result` machine with a question cursor and an answers object (question id to option index). Answers are projected into the submitted list in `Object.entries` order, and the result score is put into a band.
- **Mentor chat** (`mentor_chat.dfy`, module `MentorChat`). A log opened by a greeting. Each accepted send appends the user's trimmed line and then one model message, either the reply or a fixed apology.
- **Market insights** (`market_insights.dfy`, module `MarketInsights`). A three-field form with an "all fields required" check and a job-preparation dialog that resets its content when a job is opened. The dialog has a guarded project-guide request.
- **User context** (`user_context.dfy`, module `UserContext`). One process-wide dictionary with six defaults, read whole and updated by `dict.update` merge.
- **Shared modules** (`text.dfy`, `wrappers.dfy`). The JavaScript string built-ins these pages use, written out: `trim` with ECMAScript's exact white-space set, `split`, the `split/map(trim)/filter` comma-list chain, and `parseInt` without a radix. `wrappers.dfy` holds `Option`, the `Reply` type that stands for how a `fetch` ends, and the `e.message || fallback` rule.

Each page is a `class` whose fields are the component's `useState` variables. Each `async` handler is split at its `await`:
- a method runs the synchronous part and returns the request it sends;
- a `Complete...` method takes the reply (`Ok(body)`, `NotOk` for `!res.ok`, or `Thrown(message)`) and runs the rest, including the `finally`.

A button's `disabled={...}` becomes a precondition of the method it triggers. A guard inside the handler is modelled as a no-op branch. Every class has a `Valid()` invariant. Every method requires it, and every method that changes state ensures it again (the store's is that its entries are the defaults with its update history merged in). For example:
- In the interview, `lastQuestion` is always the last interviewer message, and a pending request matches the step that sent it.
- In the assessment, every question before the cursor is answered, and only questions of the quiz are.
- In the mentor chat, roles alternate, every user line is trimmed and non-blank, and a request is pending exactly when the log has even length.

Some behaviours of the code that a reader might not expect, as the model keeps them:
- the interview has no separate "ending" state;
- restart only sets the step;
- a new interview does not clear the style feedback;
- ending the interview does not stop speech capture;
- sending an answer asks the recognizer to stop but does not clear the listening flag itself (the recognizer's end event does).

## Model

| member | source | states |
|---|---|---|
| Wrappers.FailureText | career-sim/frontend/src/components/Wizard.tsx:105-110 | a failed status shows the handler's fixed text; an exception shows its message; an exception with an empty message (or an empty fixed text) shows the fallback; so the shown text is never empty |
| Text.Trim | career-sim/frontend/src/components/MentorChat.tsx:29-30 | the result is the infix of the input left after removing maximal white-space runs at both ends; it is empty exactly when the input is all white space, and otherwise starts and ends with a non-space |
| Text.TrimOfTrimmed | career-sim/frontend/src/components/MentorChat.tsx:29-30 | trimming a string with no white space at its ends leaves it unchanged |
| Text.TrimIdempotent | career-sim/frontend/src/components/MentorChat.tsx:29-30 | trimming twice gives the same as trimming once |
| Text.Split | career-sim/frontend/src/components/Wizard.tsx:130 | `split` yields at least one piece and no piece contains the separator |
| Text.JoinSplit | career-sim/frontend/src/components/Wizard.tsx:130 | joining the split pieces with the separator gives back the text |
| Text.SplitJoin | career-sim/frontend/src/components/Wizard.tsx:130 | splitting the join of separator-free pieces gives back the pieces |
| Text.NonEmpty | career-sim/frontend/src/components/Wizard.tsx:130 | `filter(s => s)` keeps exactly the non-empty elements, each as many times as it occurs, and never grows the list |
| Text.NonEmptyAppend | career-sim/frontend/src/components/Wizard.tsx:130 | filtering a concatenation is filtering each part and concatenating, so the kept elements stay in their original order |
| Text.ItemsOf | career-sim/frontend/src/components/Wizard.tsx:130 | trimming the fields and dropping empties yields only non-empty trimmed items |
| Text.ItemsOfIsTrimThenFilter | career-sim/frontend/src/components/Wizard.tsx:130 | that single pass equals the source's composition: trim every field, then filter out the empty ones |
| Text.Items | career-sim/frontend/src/components/Wizard.tsx:130-132 | every parsed list item is non-empty, comma-free and has no surrounding white space |
| Text.ItemsAreTrimmedFields | career-sim/frontend/src/app/market-insights/page.tsx:46 | a string is an item exactly when it is non-empty and is the trim of some comma-separated field of the text |
| Text.TrimKeepsOut | career-sim/frontend/src/components/Wizard.tsx:130 | trimming never introduces a character the field did not contain |
| Text.ItemsOfJoin | career-sim/frontend/src/app/market-insights/page.tsx:75 | a list of items typed as `a,b,c` parses back to the same list |
| Text.ParseInt | career-sim/frontend/src/components/Wizard.tsx:129 | `parseInt` gives NaN exactly when no digit of the radix (16 after a `0x`/`0X` prefix, otherwise 10) follows the leading white space and the optional sign; a negative result needs a leading minus sign |
| Text.ParseIntSkipsSpaces | career-sim/frontend/src/components/Wizard.tsx:129 | white space in front of the text does not change what `parseInt` reads |
| Text.ParseIntOfDecimalThen | career-sim/frontend/src/components/Wizard.tsx:129 | decimal text followed by text that stops the digit run reads as its number, and with a leading minus sign as the negated number |
| Text.ParseIntIgnoresTrailing | career-sim/frontend/src/components/Wizard.tsx:129 | for complete numeral text (white space, an optional sign, an optional `0x`/`0X` prefix and one or more digits of the radix, leading zeros included), appending text that does not start with a digit of that radix does not change the result; the only exception is an `x`/`X` after a lone `0` |
| Text.ParseIntOfDecimal | career-sim/frontend/src/components/Wizard.tsx:129 | `parseInt` reads the decimal text of every natural number back as that number |
| Text.ParseIntOfNegative | career-sim/frontend/src/components/Wizard.tsx:129 | with a leading minus sign `parseInt` reads back the negated number |
| Interview.HistoryPairs | career-sim/frontend/src/app/interview/page.tsx:186-194 | the loop of `handleEndInterview` yields exactly the pair list `Pairs(messages)` |
| Interview.PairsMembership | career-sim/frontend/src/app/interview/page.tsx:187-193 | a pair is produced if and only if some interviewer message at `i` is directly followed by a candidate message at `i + 1` with those contents |
| Interview.PairsAtMostAnswers | career-sim/frontend/src/app/interview/page.tsx:186-194 | there are never more pairs than candidate messages |
| Interview.PairsAppendAi | career-sim/frontend/src/app/interview/page.tsx:170-173 | appending an interviewer message (acknowledgement or question) adds no pair |
| Interview.PairsAppendUser | career-sim/frontend/src/app/interview/page.tsx:147 | appending a candidate message adds one pair with the message before it if that is the interviewer's, and none otherwise |
| Interview.PairsSkipAcknowledgement | career-sim/frontend/src/app/interview/page.tsx:186-194 | `[ai Q1, user A1, ai ack, ai Q2, user A2]` gives `[(Q1, A1), (Q2, A2)]`: the acknowledgement is skipped |
| Interview.JoinResults | career-sim/frontend/src/app/interview/page.tsx:83-86 | the transcript is the concatenation of `results[resultIndex..]`, and empty when the index is past the end |
| Interview.LastAiOfAppendAi | career-sim/frontend/src/app/interview/page.tsx:173-174 | after a new question is appended it is the last interviewer message |
| Interview.LastAiOfAppendUser | career-sim/frontend/src/app/interview/page.tsx:147 | a candidate message leaves the last interviewer message unchanged |
| Interview.InterviewPage.constructor | career-sim/frontend/src/app/interview/page.tsx:39-60 | initial state: setup step, empty role, focus "Technical", persona "Friendly", empty transcript, input and question, not listening, no feedback |
| Interview.InterviewPage.Configure | career-sim/frontend/src/app/interview/page.tsx:268-297 | the setup inputs set role, persona and focus and change nothing else |
| Interview.InterviewPage.TypeAnswer | career-sim/frontend/src/app/interview/page.tsx:404-408 | typing overwrites the staging buffer; the box is disabled while loading |
| Interview.InterviewPage.ToggleListening | career-sim/frontend/src/app/interview/page.tsx:105-114 | starting capture clears the buffer and sets listening; stopping keeps the buffer and clears listening; the recognizer gets `start`/`stop` only when it exists |
| Interview.InterviewPage.OnResult | career-sim/frontend/src/app/interview/page.tsx:82-88 | a result event replaces the buffer with the joined transcripts from `resultIndex` on, whatever the buffer held |
| Interview.InterviewPage.OnError | career-sim/frontend/src/app/interview/page.tsx:91-97 | any error clears listening; the permission notice is shown exactly for `not-allowed` |
| Interview.InterviewPage.OnEnd | career-sim/frontend/src/app/interview/page.tsx:99-101 | the end event clears listening |
| Interview.InterviewPage.StartInterview | career-sim/frontend/src/app/interview/page.tsx:118-125 | no request without a role; otherwise the request carries role, focus and persona and becomes pending |
| Interview.InterviewPage.CompleteStart | career-sim/frontend/src/app/interview/page.tsx:127-137 | success makes the transcript exactly `[ai message, ai question]`, sets `lastQuestion` and moves to chat; failure changes only the pending flag |
| Interview.InterviewPage.SendMessage | career-sim/frontend/src/app/interview/page.tsx:140-161 | a blank (trimmed) answer does nothing; otherwise the box is cleared, the recognizer is told to stop if listening, and the untrimmed answer is appended before the request is sent; the pairs grow by `(lastQuestion, answer)` when the transcript ended with a question |
| Interview.InterviewPage.CompleteTurn | career-sim/frontend/src/app/interview/page.tsx:163-180 | success replaces the style feedback only when the reply has one, appends the acknowledgement only when present and then the next question, and sets `lastQuestion`; failure keeps the appended answer and changes nothing else; the pairs never change |
| Interview.InterviewPage.EndInterview | career-sim/frontend/src/app/interview/page.tsx:183-203 | the feedback request carries the role and exactly the transcript's pairs |
| Interview.InterviewPage.CompleteEnd | career-sim/frontend/src/app/interview/page.tsx:205-214 | only success stores the report and moves to the feedback step; the transcript is untouched |
| Interview.InterviewPage.Restart | career-sim/frontend/src/app/interview/page.tsx:573 | restart sets only the step back to setup |
| Wizard.InitialForm | career-sim/frontend/src/components/Wizard.tsx:23-45 | every field starts empty except the institution type, "Private" |
| Wizard.Missing | career-sim/frontend/src/components/Wizard.tsx:47-74 | the error list is empty exactly when every checked field is non-empty, and has at most one message per check |
| Wizard.StepErrorsEmptyIff | career-sim/frontend/src/components/Wizard.tsx:50-70 | step 1 needs the age; step 2 education level, stream, branch, both marks and CGPA; step 3 skills and interests; step 4 goal, industry and location; any other step has no errors |
| Wizard.MissingMembers | career-sim/frontend/src/components/Wizard.tsx:47-74 | a message is in the error list exactly when some check carrying that message finds its field empty |
| Wizard.MissingMessage | career-sim/frontend/src/components/Wizard.tsx:47-74 | a message carried by one check only is listed exactly when that check's field is empty |
| Wizard.StepErrorMessages | career-sim/frontend/src/components/Wizard.tsx:50-70 | step 1 lists "Age is required" exactly when the age is empty; step 2 lists "Education Level is required", "Stream/Major is required", "Branch is required", "10th Marks are required", "12th Marks are required" and "CGPA is required" each exactly when its field is empty; step 3 the same for "Skills are required" and "Interests are required"; step 4 for "Long Term Goal is required", "Preferred Industry is required" and "Preferred Location is required" |
| Wizard.AgeOrDefault | career-sim/frontend/src/components/Wizard.tsx:129 | the age sent is never 0: an unparsable or zero age becomes 18, and any other parsed age is sent as parsed |
| Wizard.AgeOfDecimal | career-sim/frontend/src/components/Wizard.tsx:129 | a typed non-zero age is sent as typed, sign included; zero or a blank field sends 18 |
| Wizard.Transform | career-sim/frontend/src/components/Wizard.tsx:116-140 | the name is "User" when empty and otherwise as typed; the age is `AgeOrDefault` of the typed age; the skills, interests and traits lists are the comma-list parse of their fields, so they hold only non-empty trimmed comma-free items |
| Wizard.TransformKeepsSkills | career-sim/frontend/src/components/Wizard.tsx:130 | skills typed as a comma join of items reach the payload item for item |
| Wizard.ProfileWizard.constructor | career-sim/frontend/src/components/Wizard.tsx:18-45 | step 1, not loading, no insights or errors, the initial form |
| Wizard.ProfileWizard.ValidateStep | career-sim/frontend/src/components/Wizard.tsx:47-74 | always stores the step's error list, and returns true exactly when it is empty |
| Wizard.ProfileWizard.Next | career-sim/frontend/src/components/Wizard.tsx:76-80 | the step rises by exactly one when the step's errors are empty and is unchanged otherwise |
| Wizard.ProfileWizard.UpdateField | career-sim/frontend/src/components/Wizard.tsx:83-86 | only the named field changes, and the errors are cleared |
| Wizard.ProfileWizard.Back | career-sim/frontend/src/components/Wizard.tsx:88-91 | clears the errors and lowers the step by one; disabled on step 1 and while loading, so the step stays at least 1 |
| Wizard.ProfileWizard.FetchInsights | career-sim/frontend/src/components/Wizard.tsx:93-104 | an incomplete step 4 only stores its errors and sends nothing; otherwise the errors are cleared and the transformed form is sent |
| Wizard.ProfileWizard.CompleteFetch | career-sim/frontend/src/components/Wizard.tsx:105-113 | success stores the insights and moves to step 5; failure leaves the step and sets the errors to one message |
| Wizard.ProfileWizard.FinalSubmit | career-sim/frontend/src/components/Wizard.tsx:143-145 | the final button hands `onComplete` the transformed form, whose name is never empty |
| Assessment.Entries | career-sim/frontend/src/app/assessment/page.tsx:64-67 | every submitted entry names an answered question with the option chosen for it, and the ids strictly ascend, so none repeats |
| Assessment.EntriesCover | career-sim/frontend/src/app/assessment/page.tsx:64-67 | every answered question appears in the submitted list |
| Assessment.EntriesRoundTrip | career-sim/frontend/src/app/assessment/page.tsx:64-67 | read back as a map, the submitted list is exactly the answers object |
| Assessment.BandOf | career-sim/frontend/src/app/assessment/page.tsx:289 | Mastery exactly when score >= 80, Solid exactly when 50 <= score < 80, Room to Grow exactly when score < 50 |
| Assessment.BandMonotone | career-sim/frontend/src/app/assessment/page.tsx:307 | a higher score never shows a lower band |
| Assessment.AssessmentPage.constructor | career-sim/frontend/src/app/assessment/page.tsx:16-30 | setup step, empty topic, "Intermediate", 5 questions, no quiz, answers or result |
| Assessment.AssessmentPage.SetTopic | career-sim/frontend/src/app/assessment/page.tsx:143 | the topic becomes the typed text |
| Assessment.AssessmentPage.SetDifficulty | career-sim/frontend/src/app/assessment/page.tsx:151-152 | the difficulty becomes the chosen level |
| Assessment.AssessmentPage.SetQuestionCount | career-sim/frontend/src/app/assessment/page.tsx:168-169 | the count becomes the chosen 5, 10 or 15 |
| Assessment.AssessmentPage.Generate | career-sim/frontend/src/app/assessment/page.tsx:34-42 | an empty topic does nothing; otherwise topic, difficulty and count are sent |
| Assessment.AssessmentPage.CompleteGenerate | career-sim/frontend/src/app/assessment/page.tsx:43-54 | success opens the quiz at question 0 with no answers; failure leaves the setup step |
| Assessment.AssessmentPage.SelectOption | career-sim/frontend/src/app/assessment/page.tsx:57-59 | the shown question's entry is overwritten with the option, and all other entries stay |
| Assessment.AssessmentPage.Previous | career-sim/frontend/src/app/assessment/page.tsx:244-245 | disabled at 0, otherwise lowers the cursor by one |
| Assessment.AssessmentPage.NextQuestion | career-sim/frontend/src/app/assessment/page.tsx:250-254 | only below the last question and once it is answered; raises the cursor by one, keeping it in range |
| Assessment.AssessmentPage.Submit | career-sim/frontend/src/app/assessment/page.tsx:61-78 | from the answered last question: the request carries the answers in `Object.entries` order, and they cover exactly the quiz's question ids |
| Assessment.AssessmentPage.CompleteSubmit | career-sim/frontend/src/app/assessment/page.tsx:79-87 | success stores the result and shows it; failure stays on the quiz |
| Assessment.AssessmentPage.Restart | career-sim/frontend/src/app/assessment/page.tsx:90-95 | back to setup with quiz, result and answers cleared |
| MentorChat.UserLinesCount | career-sim/frontend/src/components/MentorChat.tsx:34-55 | in a well-formed log with no pending request, there is one user line per completed exchange |
| MentorChat.MentorChatPanel.constructor | career-sim/frontend/src/components/MentorChat.tsx:15-19 | the log is exactly the one greeting, input empty, not loading |
| MentorChat.MentorChatPanel.SetInput | career-sim/frontend/src/components/MentorChat.tsx:101 | typing overwrites the input |
| MentorChat.MentorChatPanel.SendMessage | career-sim/frontend/src/components/MentorChat.tsx:28-46 | a blank input or a pending request does nothing; otherwise the trimmed line is appended, the input is cleared and the request's history is the new log |
| MentorChat.MentorChatPanel.CompleteSend | career-sim/frontend/src/components/MentorChat.tsx:48-58 | exactly one model message is appended (the reply's parts, or the apology on any failure) and loading ends |
| MarketInsights.AnalyzeError | career-sim/frontend/src/app/market-insights/page.tsx:51-56 | a body with `error` shows that text; a failed status shows "Failed to fetch insights"; any failure shows a non-empty text |
| MarketInsights.MarketInsightsPage.constructor | career-sim/frontend/src/app/market-insights/page.tsx:14-28 | empty fields, no data, error, job, preparation data or guide, nothing loading |
| MarketInsights.MarketInsightsPage.SetTargetRole | career-sim/frontend/src/app/market-insights/page.tsx:148 | the role becomes the typed text |
| MarketInsights.MarketInsightsPage.SetSkills | career-sim/frontend/src/app/market-insights/page.tsx:157 | the skills text becomes the typed text |
| MarketInsights.MarketInsightsPage.SetLocation | career-sim/frontend/src/app/market-insights/page.tsx:166 | the location becomes the typed text |
| MarketInsights.MarketInsightsPage.Analyze | career-sim/frontend/src/app/market-insights/page.tsx:30-49 | an empty field only sets "All fields are required." and sends nothing; otherwise error and data are cleared first and the skills go out as their parsed items |
| MarketInsights.MarketInsightsPage.CompleteAnalyze | career-sim/frontend/src/app/market-insights/page.tsx:50-59 | the page ends showing either the analysis or an error, never both, and a body with `error` is a failure |
| MarketInsights.MarketInsightsPage.JobClick | career-sim/frontend/src/app/market-insights/page.tsx:62-77 | selects the job, clears preparation data and guide, and asks with the skills parsed by the same function as the analysis |
| MarketInsights.MarketInsightsPage.CompletePrep | career-sim/frontend/src/app/market-insights/page.tsx:78-86 | success stores the preparation data; failure leaves none |
| MarketInsights.MarketInsightsPage.StartProject | career-sim/frontend/src/app/market-insights/page.tsx:89-100 | without preparation data or its project challenge nothing happens; otherwise the challenge's title and description are sent |
| MarketInsights.MarketInsightsPage.CompleteProject | career-sim/frontend/src/app/market-insights/page.tsx:101-107 | any parsed body becomes the guide (the status is not checked); a failed fetch keeps the old one |
| MarketInsights.MarketInsightsPage.CloseDialog | career-sim/frontend/src/app/market-insights/page.tsx:297 | closing the dialog clears the selected job |
| UserContext.Defaults | career-sim/backend/app/core/context.py:2-9 | exactly the six keys education "Not set", marks None, interests [], skills [], career_goal None, language "en" |
| UserContext.Merged | career-sim/backend/app/core/context.py:14-15 | every key of the update takes its value, every other key keeps its value, and the keys are the union, so none is removed |
| UserContext.MergedIdempotent | career-sim/backend/app/core/context.py:14-15 | applying the same update twice equals applying it once |
| UserContext.MergedCompose | career-sim/backend/app/core/context.py:14-15 | two updates in a row equal one update with their merge, the later winning |
| UserContext.ApplyAll | career-sim/backend/app/core/context.py:14-15 | a sequence of updates never removes a key |
| UserContext.ApplyAllLookup | career-sim/backend/app/core/context.py:11-15 | after any sequence of updates a key is present exactly when it started there or some update named it, and it has the value of the latest update naming it, or else its starting value |
| UserContext.ContextStore.constructor | career-sim/backend/app/core/context.py:2-9 | the store starts as the defaults, with no updates applied |
| UserContext.ContextStore.GetContext | career-sim/backend/app/core/context.py:11-15 | returns the defaults with every update so far merged in order: a key is present exactly when it is a default key or some update named it, and it holds the value of the latest update naming it, or else its default |
| UserContext.ContextStore.Update | career-sim/backend/app/core/context.py:14-15 | the store becomes the merge of its old entries with the update, keeping every old key, and the update joins the history that `get_context` reflects |

## Left out

- Network and serialisation: `fetch`, JSON encoding and parsing, and HTTP status codes are not modelled. Each reply is an input that says how the request ended.
- Rendering, animation, scrolling, `alert` and `console.error` are not modelled. The one rendered decision kept is whether the interview shows the microphone-permission notice.
- The request objects hold only the fields the pages set. Backend replies are opaque records of the fields the pages read.
- React state batching is not modelled. Functional `setMessages` updaters become sequential appends, and each handler's `setState` calls take effect in order.
- Overlapping requests are excluded by preconditions:
  - a handler the UI disables while loading requires that nothing is pending;
  - `MarketInsights.MarketInsightsPage.JobClick` also requires that no preparation or guide request is in flight and that the dialog is closed. Closing the dialog mid-request and opening another job would otherwise let a stale reply overwrite the new job's data.
- Speech recognition: the platform's recognizer is not modelled. Its result, error and end events are method calls, a result list is given as the top alternative's transcript per result, and `start`/`stop` are recorded as commands in `captureLog`.
- Floating point: `parseFloat` of marks and CGPA is not modelled; the payload carries them as the typed text. The SVG ring offsets (`Math.PI`, float division) are also left out. Scores are integers.
- Wizard.Transform: does not model `parseFloat(...) || 0` for the marks and CGPA, because float parsing is out of scope. Those three fields are passed through as typed.
- Text.ParseInt: the result is an unbounded integer, whereas JavaScript's `parseInt` returns a double that loses precision above 2^53.
- Assessment.Entries: question ids are natural numbers. `Object.entries` lists array-index keys (integers from 0 to 2^32 - 2) in ascending order, which is the order modelled for every id. Other keys would come in insertion order: negative or non-integer ids, and natural-number ids of 4294967295 or more. That order is not modelled, so for such ids the modelled order is not the real one.
- An assessment quiz with no questions would make the page fail to render its first question. The model allows the empty quiz but offers no quiz-screen action on it.
- The wizard's `handleFinalSubmit` hands the payload to the `onComplete` callback. The callback belongs to the caller and is not part of this model.
- UserContext.ContextStore.GetContext: returns the entries as a value. Python returns the live dictionary, so a caller that mutates the result also changes the store; that aliasing is not modelled. The order in which a Python dict keeps its keys is not modelled either.
- UserContext.Value: has no floating-point number and no nested object, and the keys are strings only, although JSON updates can carry both kinds of value. The merge properties do not depend on the values, so they hold for any value type.
- The assessment result screen's headline texts and ring colours per band are rendering only; the band itself is `Assessment.BandOf`.
- The market-insights result view, the job-preparation dialog's sections and the guide's steps are rendering only.
